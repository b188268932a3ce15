/** The top-level session gate of the application (src/App.tsx): eight state
    fields, the handlers the login forms and dashboards call back, and the
    if-chain that picks the one view to render. */
module Session {

  /** The one view App renders. */
  datatype View =
    | AdminPortal(adminName: string)
    | AdminLoginPrompt
    | StudentDashboard(studentId: string, studentName: string)
    | PublicSite

  /** App's state fields, as one value. */
  datatype Gate = Gate(
    isRegistrationOpen: bool,
    isCallbackOpen: bool,
    isLoggedIn: bool,
    isAdminLoggedIn: bool,
    studentId: string,
    studentName: string,
    adminName: string,
    showAdminLogin: bool)

  /** The state App starts in: every flag false, every name empty. */
  function Initial(): Gate {
    Gate(false, false, false, false, "", "", "", false)
  }

  /** The render if-chain: admin portal, then admin prompt, then student dashboard, then the public site. */
  function Render(g: Gate): (v: View)
    ensures v.AdminPortal? <==> g.isAdminLoggedIn
    ensures v.AdminLoginPrompt? <==> !g.isAdminLoggedIn && g.showAdminLogin
    ensures v.StudentDashboard? <==> !g.isAdminLoggedIn && !g.showAdminLogin && g.isLoggedIn
    ensures v.PublicSite? <==> !g.isAdminLoggedIn && !g.showAdminLogin && !g.isLoggedIn
    ensures v.AdminPortal? ==> v.adminName == g.adminName
    ensures v.StudentDashboard? ==> v.studentId == g.studentId && v.studentName == g.studentName
  {
    if g.isAdminLoggedIn then AdminPortal(g.adminName)
    else if g.showAdminLogin then AdminLoginPrompt
    else if g.isLoggedIn then StudentDashboard(g.studentId, g.studentName)
    else PublicSite
  }

  /** The initial state renders the public site. */
  lemma InitialRendersPublicSite()
    ensures Render(Initial()) == PublicSite
  {
  }

  /** The callbacks App hands to its children, and its own timer. */
  datatype Event =
    | LoginSucceeded(id: string, name: string)
    | AdminClicked
    | AdminLoginSucceeded(name: string)
    | LoggedOut
    | AdminLoggedOut
    | RegistrationOpened
    | RegistrationClosed
    | CallbackTimerFired
    | CallbackClosed

  /** What each handler does to the state. */
  function Step(g: Gate, e: Event): (r: Gate)
    ensures !e.LoginSucceeded? && !e.LoggedOut? ==>
              r.isLoggedIn == g.isLoggedIn && r.studentId == g.studentId && r.studentName == g.studentName
    ensures !e.AdminLoginSucceeded? && !e.AdminLoggedOut? ==>
              r.isAdminLoggedIn == g.isAdminLoggedIn && r.adminName == g.adminName
  {
    match e
    case LoginSucceeded(id, name) => g.(studentId := id, studentName := name, isLoggedIn := true)
    case AdminLoginSucceeded(name) => g.(adminName := name, isAdminLoggedIn := true, showAdminLogin := false)
    case LoggedOut => g.(isLoggedIn := false, studentId := "", studentName := "")
    case AdminLoggedOut => g.(isAdminLoggedIn := false, adminName := "", showAdminLogin := false)
    case AdminClicked => g.(showAdminLogin := true)
    case RegistrationOpened => g.(isRegistrationOpen := true)
    case RegistrationClosed => g.(isRegistrationOpen := false)
    case CallbackTimerFired => g.(isCallbackOpen := true)
    case CallbackClosed => g.(isCallbackOpen := false)
  }

  /** An event can fire only from the view currently rendered: the public site holds the
      student login form, the admin icon and the two modals; the admin prompt can only log
      in; each dashboard can only log out. The callback timer belongs to App itself. */
  predicate Enabled(g: Gate, e: Event) {
    e.CallbackTimerFired? ||
    match Render(g)
    case PublicSite =>
      e.LoginSucceeded? || e.AdminClicked? || e.RegistrationOpened? || e.RegistrationClosed? || e.CallbackClosed?
    case AdminLoginPrompt => e.AdminLoginSucceeded?
    case StudentDashboard(_, _) => e.LoggedOut?
    case AdminPortal(_) => e.AdminLoggedOut?
  }

  /** The invariant of every reachable state: at most one role is active, the admin prompt
      is never up while someone is logged in, and no identity is held after logout. */
  predicate Inv(g: Gate) {
    && !(g.isLoggedIn && g.isAdminLoggedIn)
    && !(g.isLoggedIn && g.showAdminLogin)
    && !(g.isAdminLoggedIn && g.showAdminLogin)
    && (!g.isLoggedIn ==> g.studentId == "" && g.studentName == "")
    && (!g.isAdminLoggedIn ==> g.adminName == "")
  }

  lemma StepPreservesInv(g: Gate, e: Event)
    requires Inv(g) && Enabled(g, e)
    ensures Inv(Step(g, e))
  {
  }

  /** The state after a sequence of events. */
  function Run(g: Gate, events: seq<Event>): Gate
    decreases |events|
  {
    if events == [] then g else Run(Step(g, events[0]), events[1..])
  }

  /** Every event of the sequence is enabled when it fires. */
  predicate Admissible(g: Gate, events: seq<Event>)
    decreases |events|
  {
    events == [] || (Enabled(g, events[0]) && Admissible(Step(g, events[0]), events[1..]))
  }

  lemma {:induction false} RunPreservesInv(g: Gate, events: seq<Event>)
    requires Inv(g) && Admissible(g, events)
    ensures Inv(Run(g, events))
    decreases |events|
  {
    if events != [] {
      StepPreservesInv(g, events[0]);
      RunPreservesInv(Step(g, events[0]), events[1..]);
    }
  }

  /** A student and an admin are never logged in at the same time. */
  lemma NeverBothLoggedIn(events: seq<Event>)
    requires Admissible(Initial(), events)
    ensures var g := Run(Initial(), events); !(g.isLoggedIn && g.isAdminLoggedIn)
  {
    RunPreservesInv(Initial(), events);
  }

  /** `showAdminLogin` is raised only by the admin click and lowered only by admin
      login success or admin logout. */
  lemma ShowAdminLoginChanges(g: Gate, e: Event)
    ensures !g.showAdminLogin && Step(g, e).showAdminLogin ==> e == AdminClicked
    ensures g.showAdminLogin && !Step(g, e).showAdminLogin ==> e.AdminLoginSucceeded? || e == AdminLoggedOut
  {
  }

  /** The admin prompt has no way out except logging in. */
  lemma AdminPromptOnlyExit(g: Gate, e: Event)
    requires Enabled(g, e) && Render(g) == AdminLoginPrompt
    ensures Render(Step(g, e)) != AdminLoginPrompt ==> e.AdminLoginSucceeded?
    ensures e.AdminLoginSucceeded? ==> Render(Step(g, e)) == AdminPortal(e.name)
  {
  }

  /** Logging out of either dashboard returns to the public site with no identity held. */
  lemma LogoutReturnsToPublicSite(g: Gate)
    requires Inv(g)
    ensures Render(g).StudentDashboard? ==>
              Render(Step(g, LoggedOut)) == PublicSite && Step(g, LoggedOut).studentId == ""
    ensures Render(g).AdminPortal? ==>
              Render(Step(g, AdminLoggedOut)) == PublicSite && Step(g, AdminLoggedOut).adminName == ""
  {
  }

  /** App's state, updated in place by its handlers. */
  class App {
    var isRegistrationOpen: bool
    var isCallbackOpen: bool
    var isLoggedIn: bool
    var isAdminLoggedIn: bool
    var studentId: string
    var studentName: string
    var adminName: string
    var showAdminLogin: bool

    function State(): Gate
      reads this
    {
      Gate(isRegistrationOpen, isCallbackOpen, isLoggedIn, isAdminLoggedIn,
           studentId, studentName, adminName, showAdminLogin)
    }

    constructor ()
      ensures State() == Initial()
    {
      isRegistrationOpen, isCallbackOpen := false, false;
      isLoggedIn, isAdminLoggedIn := false, false;
      studentId, studentName, adminName := "", "", "";
      showAdminLogin := false;
    }

    method HandleLoginSuccess(id: string, name: string)
      modifies this
      ensures studentId == id && studentName == name && isLoggedIn
      ensures isAdminLoggedIn == old(isAdminLoggedIn) && adminName == old(adminName)
      ensures showAdminLogin == old(showAdminLogin)
      ensures isRegistrationOpen == old(isRegistrationOpen) && isCallbackOpen == old(isCallbackOpen)
      ensures State() == Step(old(State()), LoginSucceeded(id, name))
    {
      studentId := id;
      studentName := name;
      isLoggedIn := true;
    }

    method HandleAdminLoginSuccess(name: string)
      modifies this
      ensures adminName == name && isAdminLoggedIn && !showAdminLogin
      ensures isLoggedIn == old(isLoggedIn) && studentId == old(studentId) && studentName == old(studentName)
      ensures isRegistrationOpen == old(isRegistrationOpen) && isCallbackOpen == old(isCallbackOpen)
      ensures State() == Step(old(State()), AdminLoginSucceeded(name))
    {
      adminName := name;
      isAdminLoggedIn := true;
      showAdminLogin := false;
    }

    method HandleLogout()
      modifies this
      ensures !isLoggedIn && studentId == "" && studentName == ""
      ensures isAdminLoggedIn == old(isAdminLoggedIn) && adminName == old(adminName)
      ensures showAdminLogin == old(showAdminLogin)
      ensures isRegistrationOpen == old(isRegistrationOpen) && isCallbackOpen == old(isCallbackOpen)
      ensures State() == Step(old(State()), LoggedOut)
    {
      isLoggedIn := false;
      studentId := "";
      studentName := "";
    }

    method HandleAdminLogout()
      modifies this
      ensures !isAdminLoggedIn && adminName == "" && !showAdminLogin
      ensures isLoggedIn == old(isLoggedIn) && studentId == old(studentId) && studentName == old(studentName)
      ensures isRegistrationOpen == old(isRegistrationOpen) && isCallbackOpen == old(isCallbackOpen)
      ensures State() == Step(old(State()), AdminLoggedOut)
    {
      isAdminLoggedIn := false;
      adminName := "";
      showAdminLogin := false;
    }

    /** The admin icon in the login section. */
    method HandleAdminClick()
      modifies this
      ensures showAdminLogin
      ensures State() == old(State()).(showAdminLogin := true)
      ensures State() == Step(old(State()), AdminClicked)
    {
      showAdminLogin := true;
    }

    method OpenRegistration()
      modifies this
      ensures State() == old(State()).(isRegistrationOpen := true)
      ensures State() == Step(old(State()), RegistrationOpened)
    {
      isRegistrationOpen := true;
    }

    method CloseRegistration()
      modifies this
      ensures State() == old(State()).(isRegistrationOpen := false)
      ensures State() == Step(old(State()), RegistrationClosed)
    {
      isRegistrationOpen := false;
    }

    /** The 1500 ms timer started on mount opens the callback request modal. */
    method CallbackTimerElapsed()
      modifies this
      ensures State() == old(State()).(isCallbackOpen := true)
      ensures State() == Step(old(State()), CallbackTimerFired)
    {
      isCallbackOpen := true;
    }

    method CloseCallback()
      modifies this
      ensures State() == old(State()).(isCallbackOpen := false)
      ensures State() == Step(old(State()), CallbackClosed)
    {
      isCallbackOpen := false;
    }
  }
}
