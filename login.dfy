/** The student login form (src/components/Login.tsx): the typed ID is trimmed and
    upper-cased, looked up with `.maybeSingle()`, and the stored password compared
    in plain text. */
module StudentLogin {
  import opened Table
  import opened Text
  import opened Records

  const InvalidCredentials := "Invalid Student ID or Password. Please check and try again."
  const LoginFailed := "Login failed. Please try again."

  /** The key the form looks up: `studentId.trim().toUpperCase()`. */
  function LookupKey(input: string): (k: string)
    ensures !HasLowerLetter(k)
    ensures var t := Trim(input);
            |k| == |t| &&
            forall i :: 0 <= i < |k| ==>
              if IsLowerLetter(t[i]) then 'A' <= k[i] <= 'Z' && LowerChar(k[i]) == t[i] else k[i] == t[i]
  {
    ToUpper(Trim(input))
  }

  /** A stored ID without lower-case letters or surrounding blanks is the key of its
      all-lower-case spelling, typed with any blanks around it. */
  lemma LowercaseTypingFindsStoredId(p: string, stored: string, q: string)
    requires AllSpace(p) && AllSpace(q) && IsTrimmed(stored) && !HasLowerLetter(stored)
    ensures LookupKey(p + ToLower(stored) + q) == stored
  {
    var t := ToLower(stored);
    LowerKeepsTrimmed(stored);
    TrimPadding(p, t, q);
    TrimOfTrimmed(t);
    UpperOfLower(stored);
  }

  /** `.eq('student_id', key)` */
  function HasId(key: string): Student -> bool {
    (s: Student) => s.studentId == key
  }

  /** The rows the lookup selects. */
  function Matching(students: seq<Student>, key: string): seq<Student> {
    Where(students, HasId(key))
  }

  datatype Outcome = LoggedIn(studentId: string, fullName: string) | Rejected | Errored

  /** The outcome of one submission; `storeFails` is a transport error of the lookup. */
  function Authenticate(students: seq<Student>, input: string, password: string, storeFails: bool): (r: Outcome)
    ensures r.Errored? <==> storeFails || |Matching(students, LookupKey(input))| > 1
    ensures r.LoggedIn? <==>
              !storeFails && |Matching(students, LookupKey(input))| == 1 &&
              Matching(students, LookupKey(input))[0].password == password
    ensures r.LoggedIn? ==>
              var s := Matching(students, LookupKey(input))[0];
              s in students && r.studentId == s.studentId == LookupKey(input) && r.fullName == s.fullName
  {
    match MaybeSingle(students, HasId(LookupKey(input)), storeFails)
    case Failed => Errored
    case Absent => Rejected
    case Found(s) => if s.password != password then Rejected else LoggedIn(s.studentId, s.fullName)
  }

  /** The error the form shows: an unknown ID and a wrong password read the same. */
  function Message(r: Outcome): (m: string)
    ensures m == "" <==> r.LoggedIn?
  {
    match r
    case LoggedIn(_, _) => ""
    case Rejected => InvalidCredentials
    case Errored => LoginFailed
  }

  /** Unknown ID and wrong password are indistinguishable to the user. */
  lemma SameMessageForUnknownIdAndWrongPassword(students: seq<Student>, input: string, password: string)
    requires Matching(students, LookupKey(input)) == [] ||
             (|Matching(students, LookupKey(input))| == 1 && Matching(students, LookupKey(input))[0].password != password)
    ensures Message(Authenticate(students, input, password, false)) == InvalidCredentials
  {
  }

  function IdOf(s: Student): string {
    s.studentId
  }

  predicate UniqueStudentIds(students: seq<Student>) {
    UniqueBy(students, IdOf)
  }

  /** With distinct IDs, a submission logs in exactly when some row has the normalised
      key and the typed password, and it logs in as that row. */
  lemma LoginIffCredentialsMatch(students: seq<Student>, s: Student, input: string, password: string)
    requires UniqueStudentIds(students) && s in students && s.studentId == LookupKey(input)
    ensures Authenticate(students, input, password, false) == LoggedIn(s.studentId, s.fullName) <==> s.password == password
    ensures s.password != password ==> Authenticate(students, input, password, false) == Rejected
  {
    AtMostOneByKey(students, IdOf, HasId(LookupKey(input)), LookupKey(input));
    assert s in Matching(students, LookupKey(input));
  }

  /** A row whose stored ID holds a lower-case letter can never be the one logged in,
      whatever is typed, because the typed ID is upper-cased before the lookup. */
  lemma LowercaseIdNeverLogsIn(students: seq<Student>, s: Student, input: string, password: string, storeFails: bool)
    requires HasLowerLetter(s.studentId)
    ensures var r := Authenticate(students, input, password, storeFails); !(r.LoggedIn? && r.studentId == s.studentId)
  {
    UpperNeverMatchesLower(Trim(input), s.studentId);
  }

  function Asha(): Student {
    Student("STU001", "Asha Rao", "abc123", true, "active", None, None, None, None, None, map[])
  }

  lemma KeyOfPlainId(id: string)
    requires id == "STU001" || id == "STU999"
    ensures LookupKey(id) == id
  {
    TrimOfTrimmed(id);
    assert !HasLowerLetter(id);
    assert forall i :: 0 <= i < |id| ==> ToUpper(id)[i] == id[i];
  }

  /** Whitespace around the typed ID does not change the key. */
  lemma KeyIgnoresPadding(p: string, input: string, q: string)
    requires AllSpace(p) && AllSpace(q)
    ensures LookupKey(p + input + q) == LookupKey(input)
  {
    TrimPadding(p, input, q);
  }

  lemma UpperOfExample()
    ensures ToUpper("stu001") == "STU001"
  {
    var u := ToUpper("stu001");
    assert u[0] == 'S' && u[1] == 'T' && u[2] == 'U';
    assert u[3] == '0' && u[4] == '0' && u[5] == '1';
  }

  lemma KeyOfLowercase()
    ensures LookupKey("stu001") == "STU001"
  {
    var id: string := "stu001";
    assert IsTrimmed(id) by {
      assert id[0] == 's' && id[|id| - 1] == '1';
    }
    TrimOfTrimmed(id);
    assert LookupKey(id) == ToUpper(id);
    UpperOfExample();
  }

  lemma KeyOfPaddedLowercase()
    ensures LookupKey(" stu001 ") == "STU001"
  {
    var p: string := " ";
    assert AllSpace(p);
    assert " stu001 " == p + "stu001" + p;
    KeyIgnoresPadding(p, "stu001", p);
    KeyOfLowercase();
  }

  /** The walk-through of the login form: the right pair logs in, a padded lower-case
      ID logs in as well, a wrong password or an unknown ID is rejected. */
  lemma LoginScenarios()
    ensures Authenticate([Asha()], "STU001", "abc123", false) == LoggedIn("STU001", "Asha Rao")
    ensures Authenticate([Asha()], " stu001 ", "abc123", false) == LoggedIn("STU001", "Asha Rao")
    ensures Authenticate([Asha()], "STU001", "wrong", false) == Rejected
    ensures Authenticate([Asha()], "STU999", "abc123", false) == Rejected
    ensures Authenticate([Asha()], "STU001", "abc123", true) == Errored
  {
    KeyOfPlainId("STU001");
    KeyOfPlainId("STU999");
    KeyOfPaddedLowercase();
    LoginIffCredentialsMatch([Asha()], Asha(), "STU001", "abc123");
    LoginIffCredentialsMatch([Asha()], Asha(), " stu001 ", "abc123");
    LoginIffCredentialsMatch([Asha()], Asha(), "STU001", "wrong");
    assert Matching([Asha()], "STU999") == [];
  }

  /** The form's state; the two inputs are set by their change handlers. */
  class LoginForm {
    var studentId: string
    var password: string
    var isLoading: bool
    var error: string

    constructor ()
      ensures studentId == "" && password == "" && !isLoading && error == ""
    {
      studentId, password, isLoading, error := "", "", false, "";
    }

    /** The submit handler. The returned pair is what is passed to `onLoginSuccess`. */
    method HandleSubmit(students: seq<Student>, storeFails: bool) returns (signalled: Option<(string, string)>)
      modifies this`isLoading, this`error
      ensures !isLoading
      ensures error == Message(Authenticate(students, old(studentId), old(password), storeFails))
      ensures signalled.Some? <==> Authenticate(students, old(studentId), old(password), storeFails).LoggedIn?
      ensures signalled.Some? ==>
                var r := Authenticate(students, old(studentId), old(password), storeFails);
                signalled.value == (r.studentId, r.fullName)
    {
      error := "";
      isLoading := true;
      signalled := None;
      match Authenticate(students, studentId, password, storeFails) {
        case Errored => error := LoginFailed;
        case Rejected => error := InvalidCredentials;
        case LoggedIn(id, name) => signalled := Some((id, name));
      }
      isLoading := false;
    }
  }
}
