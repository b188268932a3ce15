/** The administrator login form (src/components/AdminLogin.tsx): username and
    password are both matched exactly, with no trimming or case folding. */
module AdminLogin {
  import opened Table
  import opened Records

  const InvalidCredentials := "Invalid username or password"
  const LoginFailed := "Login failed. Please try again."

  /** `.eq('username', username).eq('password', password)` */
  function Credentials(username: string, password: string): AdminUser -> bool {
    (a: AdminUser) => a.username == username && a.password == password
  }

  datatype Outcome = Admitted(fullName: string) | Rejected | Errored

  /** The outcome of one submission; `storeFails` is a transport error of the lookup. */
  function Check(admins: seq<AdminUser>, username: string, password: string, storeFails: bool): (r: Outcome)
    ensures r.Errored? <==> storeFails || |Where(admins, Credentials(username, password))| > 1
    ensures r.Rejected? <==>
              !storeFails && forall i :: 0 <= i < |admins| ==> !(admins[i].username == username && admins[i].password == password)
    ensures r.Admitted? ==>
              exists i :: 0 <= i < |admins| && admins[i].username == username && admins[i].password == password
                          && admins[i].fullName == r.fullName
  {
    match MaybeSingle(admins, Credentials(username, password), storeFails)
    case Failed => Errored
    case Absent => Rejected
    case Found(a) => Admitted(a.fullName)
  }

  /** The error under the form: shown exactly when the admin is not admitted. */
  function Message(r: Outcome): (m: string)
    ensures m == "" <==> r.Admitted?
  {
    match r
    case Admitted(_) => ""
    case Rejected => InvalidCredentials
    case Errored => LoginFailed
  }

  function UsernameOf(a: AdminUser): string {
    a.username
  }

  /** With distinct usernames, an admin is admitted exactly when the typed pair is
      that admin's pair, character for character. */
  lemma AdmittedIffExactPair(admins: seq<AdminUser>, a: AdminUser, password: string)
    requires UniqueBy(admins, UsernameOf) && a in admins
    ensures Check(admins, a.username, password, false) == Admitted(a.fullName) <==> a.password == password
    ensures a.password != password ==> Check(admins, a.username, password, false) == Rejected
  {
    AtMostOneByKey(admins, UsernameOf, Credentials(a.username, password), a.username);
    if a.password == password {
      assert a in Where(admins, Credentials(a.username, password));
    } else {
      forall i | 0 <= i < |admins| ensures !(admins[i].username == a.username && admins[i].password == password) {
        var j :| 0 <= j < |admins| && admins[j] == a;
        if i < j {
          assert UsernameOf(admins[i]) != UsernameOf(admins[j]);
        } else if j < i {
          assert UsernameOf(admins[j]) != UsernameOf(admins[i]);
        }
      }
    }
  }

  function Ravi(): AdminUser {
    AdminUser("admin", "pw123", "Ravi Kumar")
  }

  /** The typed username is not normalised: a different case or a leading blank is rejected. */
  lemma NoNormalisation()
    ensures Check([Ravi()], "admin", "pw123", false) == Admitted("Ravi Kumar")
    ensures Check([Ravi()], "Admin", "pw123", false) == Rejected
    ensures Check([Ravi()], " admin", "pw123", false) == Rejected
  {
    assert [Ravi()][0] == Ravi();
    AdmittedIffExactPair([Ravi()], Ravi(), "pw123");
  }

  /** The form's state; the two inputs are set by their change handlers. */
  class AdminLoginForm {
    var username: string
    var password: string
    var error: string
    var isLoading: bool

    constructor ()
      ensures username == "" && password == "" && error == "" && !isLoading
    {
      username, password, error, isLoading := "", "", "", false;
    }

    /** The submit handler. The returned name is what is passed to `onLoginSuccess`. */
    method HandleSubmit(admins: seq<AdminUser>, storeFails: bool) returns (signalled: Option<string>)
      modifies this`isLoading, this`error
      ensures !isLoading
      ensures error == Message(Check(admins, old(username), old(password), storeFails))
      ensures signalled.Some? <==> Check(admins, old(username), old(password), storeFails).Admitted?
      ensures signalled.Some? ==> signalled.value == Check(admins, old(username), old(password), storeFails).fullName
    {
      error := "";
      isLoading := true;
      signalled := None;
      var data := MaybeSingle(admins, Credentials(username, password), storeFails);
      if data.Failed? {
        error := LoginFailed;
      } else if data.Found? {
        signalled := Some(data.row.fullName);
      } else {
        error := InvalidCredentials;
      }
      isLoading := false;
    }
  }
}
