/** The student dashboard's home tab (src/components/dashboard/DashboardHome.tsx): the
    stat cards derived from the student's row, tasks and projects, and the profile photo
    upload with its two guards. */
module DashboardHome {
  import opened Table
  import opened Text
  import opened Records

  /** The stat cards. */
  datatype HomeStats = HomeStats(
    attendance: int,
    projectScore: int,
    testScore: int,
    performance: string,
    pendingTasks: nat,
    completedProjects: nat)

  const InitialStats := HomeStats(0, 0, 0, "Loading...", 0, 0)
  const NotEvaluated := "Not Evaluated"

  /** `x || 0` for a numeric column: null and 0 both read as 0. */
  function OrZero(x: Option<int>): (r: int)
    ensures x.None? ==> r == 0
    ensures x.Some? ==> r == x.value
  {
    if x.Some? then x.value else 0
  }

  /** `rating || 'Not Evaluated'`: null and the empty string both read as the default. */
  function RatingText(x: Option<string>): (r: string)
    ensures r == NotEvaluated <==> !Truthy(x) || x.value == NotEvaluated
    ensures Truthy(x) ==> r == x.value
  {
    if Truthy(x) then x.value else NotEvaluated
  }

  function IsPendingTask(t: Task): bool { t.status == TaskStatus.Pending }
  function IsCompletedProject(p: Project): bool { p.status == ProjectStatus.Completed }
  function IsUnfinishedProject(p: Project): bool { p.status != ProjectStatus.Completed }

  /** `rows?.filter(p).length || 0`: a failed query (no data) counts 0. */
  function CountOr0<T>(rows: Option<seq<T>>, p: T -> bool): (n: nat)
    ensures rows.None? ==> n == 0
    ensures rows.Some? ==> n == Count(rows.value, p) && n <= |rows.value|
  {
    if rows.Some? then Count(rows.value, p) else 0
  }

  /** The stats set from the student's row and the results of the two other queries. */
  function DeriveStats(s: Student, tasks: Option<seq<Task>>, projects: Option<seq<Project>>): (r: HomeStats)
    ensures r.pendingTasks == if tasks.Some? then Count(tasks.value, IsPendingTask) else 0
    ensures r.completedProjects == if projects.Some? then Count(projects.value, IsCompletedProject) else 0
    ensures r.attendance == if s.attendancePercentage.Some? then s.attendancePercentage.value else 0
    ensures r.projectScore == if s.projectScore.Some? then s.projectScore.value else 0
    ensures r.testScore == if s.testScore.Some? then s.testScore.value else 0
    ensures r.performance == NotEvaluated <==> !Truthy(s.performanceRating) || s.performanceRating.value == NotEvaluated
  {
    HomeStats(OrZero(s.attendancePercentage), OrZero(s.projectScore), OrZero(s.testScore),
              RatingText(s.performanceRating), CountOr0(tasks, IsPendingTask), CountOr0(projects, IsCompletedProject))
  }

  /** A student nobody has evaluated yet shows zero scores and "Not Evaluated". */
  lemma UnevaluatedDefaults(s: Student, tasks: Option<seq<Task>>, projects: Option<seq<Project>>)
    requires s.attendancePercentage.None? && s.projectScore.None? && s.testScore.None? && s.performanceRating.None?
    ensures var st := DeriveStats(s, tasks, projects);
            st.attendance == 0 && st.projectScore == 0 && st.testScore == 0 && st.performance == NotEvaluated
  {
  }

  /** The pending-tasks card counts the pending tasks, no more than there are tasks. */
  lemma PendingCardCountsPending(s: Student, tasks: seq<Task>, projects: Option<seq<Project>>)
    ensures DeriveStats(s, Some(tasks), projects).pendingTasks == Count(tasks, IsPendingTask) <= |tasks|
    ensures (forall i :: 0 <= i < |tasks| ==> tasks[i].status != TaskStatus.Pending) ==>
              DeriveStats(s, Some(tasks), projects).pendingTasks == 0
  {
    if forall i :: 0 <= i < |tasks| ==> tasks[i].status != TaskStatus.Pending {
      WhereNone(tasks, IsPendingTask);
    }
  }

  /** The completed-projects card counts the completed projects; with the others it
      accounts for every project. */
  lemma CompletedCardCountsCompleted(s: Student, tasks: Option<seq<Task>>, projects: seq<Project>)
    ensures DeriveStats(s, tasks, Some(projects)).completedProjects + Count(projects, IsUnfinishedProject) == |projects|
    ensures (forall i :: 0 <= i < |projects| ==> projects[i].status != ProjectStatus.Completed) ==>
              DeriveStats(s, tasks, Some(projects)).completedProjects == 0
  {
    CountComplement(projects, IsCompletedProject, IsUnfinishedProject);
    if forall i :: 0 <= i < |projects| ==> projects[i].status != ProjectStatus.Completed {
      WhereNone(projects, IsCompletedProject);
    }
  }

  /** The largest photo accepted: 2 MiB. */
  const MaxPhotoBytes := 2 * 1024 * 1024

  /** The chosen file, as far as the guards look at it. */
  datatype PhotoFile = PhotoFile(size: nat, mimeType: string)

  /** Why an upload stopped before writing, or that it went ahead. */
  datatype PhotoCheck = NoFile | TooLarge | NotAnImage | Accepted

  /** The guards of `handlePhotoUpload`, in their order. */
  function CheckPhoto(file: Option<PhotoFile>): (c: PhotoCheck)
    ensures c == Accepted <==> file.Some? && file.value.size <= MaxPhotoBytes && StartsWith(file.value.mimeType, "image/")
    ensures c == TooLarge <==> file.Some? && file.value.size > MaxPhotoBytes
  {
    if file.None? then NoFile
    else if file.value.size > MaxPhotoBytes then TooLarge
    else if !StartsWith(file.value.mimeType, "image/") then NotAnImage
    else Accepted
  }

  /** The alerts of the photo guards: only a rejected file is reported. */
  function CheckAlert(c: PhotoCheck): (a: Option<string>)
    ensures a.Some? <==> c.TooLarge? || c.NotAnImage?
  {
    match c
    case NoFile => None
    case TooLarge => Some("Photo size must be less than 2MB")
    case NotAnImage => Some("Please upload an image file")
    case Accepted => None
  }

  function HasId(id: string): Student -> bool {
    (s: Student) => s.studentId == id
  }

  function SetPhoto(url: string): Student -> Student {
    (s: Student) => s.(profilePhotoUrl := Some(url))
  }

  /** The upload writes the photo to the rows of this student and changes nothing else. */
  lemma PhotoWriteOnlyTouchesStudent(table: seq<Student>, id: string, url: string, i: nat)
    requires i < |table|
    ensures var r := Patch(table, HasId(id), SetPhoto(url))[i];
            && (table[i].studentId != id ==> r == table[i])
            && (table[i].studentId == id ==> r == table[i].(profilePhotoUrl := Some(url)))
  {
  }

  class HomeTab {
    const studentId: string
    var stats: HomeStats
    var profilePhotoUrl: string
    var uploadingPhoto: bool
    var successMessage: string

    constructor (id: string)
      ensures studentId == id && stats == InitialStats && profilePhotoUrl == "" && !uploadingPhoto && successMessage == ""
    {
      studentId := id;
      stats := InitialStats;
      profilePhotoUrl, uploadingPhoto, successMessage := "", false, "";
    }

    /** `loadDashboardData`: the three queries; the stats and photo change only when the
        student's row is found. `tasks` and `projects` are the student's rows, absent when
        their query fails. */
    method LoadDashboardData(students: seq<Student>, lookupFails: bool, tasks: Option<seq<Task>>, projects: Option<seq<Project>>)
      modifies this`stats, this`profilePhotoUrl
      ensures var found := MaybeSingle(students, HasId(studentId), lookupFails);
              && (found.Found? ==>
                    stats == DeriveStats(found.row, tasks, projects) && profilePhotoUrl == EmptyIfNull(found.row.profilePhotoUrl))
              && (!found.Found? ==> stats == old(stats) && profilePhotoUrl == old(profilePhotoUrl))
    {
      var found := MaybeSingle(students, HasId(studentId), lookupFails);
      if found.Found? {
        stats := DeriveStats(found.row, tasks, projects);
        profilePhotoUrl := EmptyIfNull(found.row.profilePhotoUrl);
      }
    }

    /** `handlePhotoUpload`; `dataUrl` is the file read as a data URL and `error` the
        update's error message. A rejected file writes nothing; after a write attempt the
        upload flag is down whatever the outcome. */
    method HandlePhotoUpload(file: Option<PhotoFile>, dataUrl: string, table: seq<Student>, error: Option<string>)
      returns (table': seq<Student>, alert: Option<string>)
      modifies this`uploadingPhoto, this`profilePhotoUrl, this`successMessage
      ensures CheckPhoto(file) != Accepted ==>
                table' == table && alert == CheckAlert(CheckPhoto(file)) && uploadingPhoto == old(uploadingPhoto)
                && profilePhotoUrl == old(profilePhotoUrl) && successMessage == old(successMessage)
      ensures CheckPhoto(file) == Accepted ==> !uploadingPhoto
      ensures CheckPhoto(file) == Accepted && error.Some? ==>
                table' == table && alert == Some("Error uploading photo: " + error.value)
                && profilePhotoUrl == old(profilePhotoUrl) && successMessage == old(successMessage)
      ensures CheckPhoto(file) == Accepted && error.None? ==>
                table' == Patch(table, HasId(studentId), SetPhoto(dataUrl)) && alert.None?
                && profilePhotoUrl == dataUrl && successMessage == "Profile photo updated successfully!"
    {
      table' := table;
      var check := CheckPhoto(file);
      if check != Accepted {
        alert := CheckAlert(check);
        return;
      }
      uploadingPhoto := true;
      alert := None;
      if error.None? {
        table' := Patch(table, HasId(studentId), SetPhoto(dataUrl));
      }
      uploadingPhoto := false;
      if error.None? {
        profilePhotoUrl := dataUrl;
        successMessage := "Profile photo updated successfully!";
      } else {
        alert := Some("Error uploading photo: " + error.value);
      }
    }

    /** The 3-second timer a successful upload starts. */
    method MessageTimerElapsed()
      modifies this`successMessage
      ensures successMessage == ""
    {
      successMessage := "";
    }
  }
}
