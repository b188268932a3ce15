/** The public HR verification portal (src/components/HRPortal.tsx): a blank query is
    refused before any lookup; otherwise the ID is normalised exactly as at login and
    the one matching student is shown. */
module HrPortal {
  import opened Table
  import opened Text
  import opened Records
  import StudentLogin

  const EnterId := "Please enter a Student ID"
  const NotFound := "Student ID not found in our records"
  const SearchFailed := "Failed to search student. Please try again."

  datatype SearchOutcome = Blank | Missing | Shown(student: Student) | Errored

  /** The outcome of one search; `storeFails` is a transport error of the lookup. */
  function Search(students: seq<Student>, input: string, storeFails: bool): SearchOutcome {
    if Trim(input) == [] then Blank
    else
      match MaybeSingle(students, StudentLogin.HasId(StudentLogin.LookupKey(input)), storeFails)
      case Failed => Errored
      case Absent => Missing
      case Found(s) => Shown(s)
  }

  /** A query is refused exactly when it is blank; otherwise the lookup fails on a store
      error or an ambiguous ID, finds nothing, or shows the one student with the key. */
  lemma SearchOutcomes(students: seq<Student>, input: string, storeFails: bool)
    ensures var r := Search(students, input, storeFails);
      && (r.Blank? <==> AllSpace(input))
      && (r.Errored? <==>
            !AllSpace(input) && (storeFails || |StudentLogin.Matching(students, StudentLogin.LookupKey(input))| > 1))
      && (r.Missing? <==>
            !AllSpace(input) && !storeFails && StudentLogin.Matching(students, StudentLogin.LookupKey(input)) == [])
      && (r.Shown? ==>
            StudentLogin.Matching(students, StudentLogin.LookupKey(input)) == [r.student] && r.student in students
            && r.student.studentId == StudentLogin.LookupKey(input))
  {
    TrimEmptyIffAllSpace(input);
    NoMatchIffAbsent(students, StudentLogin.LookupKey(input), storeFails);
  }

  lemma NoMatchIffAbsent(students: seq<Student>, key: string, storeFails: bool)
    ensures MaybeSingle(students, StudentLogin.HasId(key), storeFails).Absent? <==>
              !storeFails && StudentLogin.Matching(students, key) == []
  {
    var m := StudentLogin.Matching(students, key);
    assert m != [] ==> m[0] in students && m[0].studentId == key;
  }

  /** The error under the search box: shown exactly when no student is shown. */
  function Message(r: SearchOutcome): (m: string)
    ensures m == "" <==> r.Shown?
  {
    match r
    case Blank => EnterId
    case Missing => NotFound
    case Shown(_) => ""
    case Errored => SearchFailed
  }

  /** The portal shows exactly the student that the same ID and that student's password
      would log in as, and a student who can log in with a non-blank ID is found here. */
  lemma SearchAgreesWithLogin(students: seq<Student>, input: string, password: string, storeFails: bool)
    ensures Search(students, input, storeFails).Shown? ==>
              var s := Search(students, input, storeFails).student;
              StudentLogin.Authenticate(students, input, s.password, storeFails) == StudentLogin.LoggedIn(s.studentId, s.fullName)
    ensures !AllSpace(input) && StudentLogin.Authenticate(students, input, password, storeFails).LoggedIn? ==>
              Search(students, input, storeFails).Shown?
  {
    SearchOutcomes(students, input, storeFails);
  }

  /** The portal's state; the query input is set by its change handler. */
  class Portal {
    var studentId: string
    var isSearching: bool
    var studentData: Option<Student>
    var error: string

    constructor ()
      ensures studentId == "" && !isSearching && studentData == None && error == ""
    {
      studentId, isSearching, studentData, error := "", false, None, "";
    }

    /** The ID box's `onChange`. */
    method SetStudentId(id: string)
      modifies this`studentId
      ensures studentId == id
    {
      studentId := id;
    }

    /** The search handler. A blank query only sets the error: the student shown
        before stays on screen. */
    method HandleSearch(students: seq<Student>, storeFails: bool)
      modifies this`isSearching, this`studentData, this`error
      ensures error == Message(Search(students, old(studentId), storeFails))
      ensures Search(students, old(studentId), storeFails).Blank? ==> studentData == old(studentData) && isSearching == old(isSearching)
      ensures !Search(students, old(studentId), storeFails).Blank? ==> !isSearching
      ensures Search(students, old(studentId), storeFails).Shown? ==> studentData == Some(Search(students, old(studentId), storeFails).student)
      ensures Search(students, old(studentId), storeFails).Missing? || Search(students, old(studentId), storeFails).Errored? ==> studentData == None
    {
      var r := Search(students, studentId, storeFails);
      if r.Blank? {
        error := Message(r);
        return;
      }
      isSearching := true;
      error := "";
      studentData := None;
      if r.Shown? {
        studentData := Some(r.student);
      } else {
        error := Message(r);
      }
      isSearching := false;
    }
  }
}
