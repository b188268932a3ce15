/** The rows of the store's tables, as the handlers read and write them.
    Columns the handlers never look at are left out, except for the student
    profile columns, which are kept as one name-to-value map. */
module Records {
  import opened Table

  /** A row of `student_registrations`. */
  datatype Student = Student(
    studentId: string,
    fullName: string,
    password: string,
    isTrainee: bool,
    status: string,
    attendancePercentage: Option<int>,
    projectScore: Option<int>,
    testScore: Option<int>,
    performanceRating: Option<string>,
    profilePhotoUrl: Option<string>,
    /** contact, education and enrolment columns, by column name */
    profile: map<string, string>)

  /** A row of `admin_users`. */
  datatype AdminUser = AdminUser(username: string, password: string, fullName: string)

  /** The roster the admin screens load: `student_id, full_name` of the trainees. */
  datatype RosterEntry = RosterEntry(studentId: string, fullName: string)

  datatype AttendanceStatus = Present | Absent | Late

  /** A row of `student_attendance`. */
  datatype Attendance = Attendance(
    studentId: string,
    date: string,
    status: AttendanceStatus,
    remarks: Option<string>)

  datatype TaskStatus = Pending | Submitted | Completed

  /** A row of `student_tasks`. */
  datatype Task = Task(
    studentId: string,
    title: string,
    description: string,
    dueDate: string,
    status: TaskStatus,
    submissionLink: Option<string>,
    submissionNotes: Option<string>,
    submittedAt: Option<string>,
    grade: Option<real>,
    feedback: Option<string>)

  datatype ProjectStatus = InProgress | Submitted | Completed

  /** A row of `student_projects`. */
  datatype Project = Project(
    studentId: string,
    projectName: string,
    description: string,
    technologies: seq<string>,
    startDate: string,
    endDate: string,
    status: ProjectStatus,
    githubLink: Option<string>,
    liveLink: Option<string>)

  datatype PaymentStatus = Pending | Paid | Overdue | Partial

  /** A row of `student_fees`; amounts are in paise, hundredths of a rupee. */
  datatype Fee = Fee(
    studentId: string,
    feeType: string,
    amount: int,
    dueDate: string,
    paymentStatus: PaymentStatus,
    paidAmount: int,
    paymentMethod: Option<string>,
    transactionId: Option<string>,
    remarks: Option<string>,
    paidDate: Option<string>)

  /** A row of `student_notes`. */
  datatype Note = Note(studentId: string, title: string, content: string, tags: seq<string>, date: string)

  datatype PersonalInfo = PersonalInfo(name: string, email: string, phone: string, address: string, summary: string)

  /** A row of `student_resume`; either JSON column may be missing. */
  datatype Resume = Resume(studentId: string, personalInfo: Option<PersonalInfo>, skills: Option<seq<string>>)

  function IsTrainee(s: Student): bool { s.isTrainee }

  /** The roster the admin screens load: `student_id, full_name` of every trainee, in the
      order of `students`. */
  function Roster(students: seq<Student>): (r: seq<RosterEntry>)
    ensures |r| == Count(students, IsTrainee)
    ensures forall i :: 0 <= i < |r| ==>
              exists j :: 0 <= j < |students| && students[j].isTrainee &&
                r[i] == RosterEntry(students[j].studentId, students[j].fullName)
    ensures forall j :: 0 <= j < |students| && students[j].isTrainee ==>
              RosterEntry(students[j].studentId, students[j].fullName) in r
  {
    var t := Where(students, IsTrainee);
    var r := seq(|t|, i requires 0 <= i < |t| => RosterEntry(t[i].studentId, t[i].fullName));
    forall j | 0 <= j < |students| && students[j].isTrainee
      ensures RosterEntry(students[j].studentId, students[j].fullName) in r
    {
      assert IsTrainee(students[j]);
      var i :| 0 <= i < |t| && t[i] == students[j];
      assert r[i] == RosterEntry(students[j].studentId, students[j].fullName);
    }
    forall i | 0 <= i < |r|
      ensures exists j :: 0 <= j < |students| && students[j].isTrainee &&
                          r[i] == RosterEntry(students[j].studentId, students[j].fullName)
    {
      assert t[i] in students && IsTrainee(t[i]);
      var j :| 0 <= j < |students| && students[j] == t[i];
    }
    r
  }

  /** JavaScript truthiness of a nullable text column: null and "" are both false. */
  predicate Truthy(s: Option<string>) {
    s.Some? && s.value != ""
  }

  /** `x || null` for a text field: the empty string becomes null. */
  function NullIfEmpty(s: string): (r: Option<string>)
    ensures r.None? <==> s == ""
    ensures r.Some? ==> r.value == s
  {
    if s == "" then None else Some(s)
  }

  /** `x || ''` for a nullable text column: null becomes the empty string. */
  function EmptyIfNull(s: Option<string>): (r: string)
    ensures s.Some? ==> r == s.value
    ensures s.None? ==> r == ""
  {
    if s.Some? then s.value else ""
  }

  /** Reading a form field back from what was written loses nothing, and vice versa
      for every column that is not the empty string. */
  lemma NullRoundTrip(s: string, c: Option<string>)
    ensures EmptyIfNull(NullIfEmpty(s)) == s
    ensures c != Some("") ==> NullIfEmpty(EmptyIfNull(c)) == c
  {
  }
}
