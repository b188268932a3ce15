/** The administrators' student directory (src/components/admin/StudentsOverview.tsx):
    search, expand a student with a cached detail panel, and add a student. */
module StudentsOverview {
  import opened Table
  import opened Text
  import opened Records
  import opened Percent
  import StudentLogin

  /** The text inputs of the add-student form, by column name. */
  function ColumnSet(): set<string> {
    {"full_name", "student_id", "email", "mobile_number", "alternate_mobile_number", "password",
     "date_of_birth", "gender", "blood_group", "father_name", "mother_name", "current_address",
     "permanent_address", "city", "emergency_contact_name", "emergency_contact_number",
     "college_name", "education_qualification", "degree_type", "branch_specialization",
     "university_board", "year_of_graduation", "cgpa", "previous_education", "course_enrolled",
     "batch_number", "enrollment_date", "status", "remarks"}
  }

  /** The columns with their own field in a student row; the rest go to `profile`. */
  function CoreColumns(): set<string> {
    {"full_name", "student_id", "password", "status"}
  }

  /** The inputs marked `required`. */
  function RequiredColumns(): set<string> {
    {"full_name", "student_id", "password", "mobile_number", "city", "college_name",
     "education_qualification", "cgpa"}
  }

  /** The add-student form: every text column, and the trainee checkbox. */
  datatype StudentForm = StudentForm(text: map<string, string>, isTrainee: bool)

  predicate WellFormed(f: StudentForm) {
    f.text.Keys == ColumnSet()
  }

  /** The form's initial value, restored after a successful add: every text column empty
      except `status`, which is "active", and the trainee box ticked. */
  function DefaultForm(): (f: StudentForm)
    ensures WellFormed(f) && f.isTrainee
    ensures forall k :: k in f.text ==> f.text[k] == if k == "status" then "active" else ""
  {
    StudentForm(map k | k in ColumnSet() :: if k == "status" then "active" else "", true)
  }

  /** The browser's `required` check, which must pass before the submit handler runs. */
  predicate RequiredFilled(f: StudentForm) {
    WellFormed(f) && forall k :: k in RequiredColumns() ==> k in f.text && f.text[k] != ""
  }

  /** `insert([formData])`: the form, column for column, as a student row. The columns the
      form does not write are left empty. */
  function ToStudent(f: StudentForm): (s: Student)
    requires WellFormed(f)
    ensures s.isTrainee == f.isTrainee
    ensures s.attendancePercentage.None? && s.projectScore.None? && s.testScore.None?
    ensures s.performanceRating.None? && s.profilePhotoUrl.None?
  {
    assert "student_id" in ColumnSet() && "full_name" in ColumnSet();
    assert "password" in ColumnSet() && "status" in ColumnSet();
    Student(f.text["student_id"], f.text["full_name"], f.text["password"], f.isTrainee, f.text["status"],
            None, None, None, None, None,
            map k | k in f.text && k !in CoreColumns() :: f.text[k])
  }

  /** Where a text column lives in a student row. */
  function Column(s: Student, k: string): Option<string> {
    if k == "student_id" then Some(s.studentId)
    else if k == "full_name" then Some(s.fullName)
    else if k == "password" then Some(s.password)
    else if k == "status" then Some(s.status)
    else if k in s.profile then Some(s.profile[k])
    else None
  }

  /** Every value typed into the form is stored as it was typed, in its own column. */
  lemma ToStudentKeepsEveryColumn(f: StudentForm)
    requires WellFormed(f)
    ensures forall k :: k in f.text ==> Column(ToStudent(f), k) == Some(f.text[k])
    ensures ToStudent(f).isTrainee == f.isTrainee
  {
    var s := ToStudent(f);
    forall k | k in f.text
      ensures Column(s, k) == Some(f.text[k])
    {
      if k !in CoreColumns() {
        assert k in s.profile && s.profile[k] == f.text[k];
      }
    }
  }

  /** The ID is stored raw: an added student whose ID holds a lower-case letter can never
      be the one logged in, because the login form upper-cases what is typed. */
  lemma AddedLowercaseIdCannotLogIn(f: StudentForm, table: seq<Student>, input: string, password: string, fails: bool)
    requires WellFormed(f) && HasLowerLetter(f.text["student_id"])
    ensures var r := StudentLogin.Authenticate(table + [ToStudent(f)], input, password, fails);
            !(r.LoggedIn? && r.studentId == f.text["student_id"])
  {
    StudentLogin.LowercaseIdNeverLogsIn(table + [ToStudent(f)], ToStudent(f), input, password, fails);
  }

  /** The search filter: the lower-cased name or ID contains the lower-cased term. */
  function Matches(term: string): Student -> bool {
    (s: Student) => Includes(ToLower(s.fullName), ToLower(term)) || Includes(ToLower(s.studentId), ToLower(term))
  }

  function FilteredStudents(students: seq<Student>, term: string): (r: seq<Student>)
    ensures forall i :: 0 <= i < |r| ==>
              r[i] in students &&
              (Occurs(ToLower(r[i].fullName), ToLower(term)) || Occurs(ToLower(r[i].studentId), ToLower(term)))
    ensures forall i :: 0 <= i < |students| &&
              (Occurs(ToLower(students[i].fullName), ToLower(term)) || Occurs(ToLower(students[i].studentId), ToLower(term)))
              ==> students[i] in r
  {
    Where(students, Matches(term))
  }

  /** An empty search shows every student. */
  lemma EmptyTermShowsAll(students: seq<Student>)
    ensures FilteredStudents(students, "") == students
  {
    forall i | 0 <= i < |students| ensures Matches("")(students[i]) {
      IncludesEmpty(ToLower(students[i].fullName));
    }
    WhereAll(students, Matches(""));
  }

  /** The search ignores the case of the term. */
  lemma SearchIgnoresTermCase(students: seq<Student>, term: string)
    ensures FilteredStudents(students, ToUpper(term)) == FilteredStudents(students, term)
  {
    LowerOfUpper(term);
    WhereSame(students, Matches(ToUpper(term)), Matches(term));
  }

  datatype Stats = Stats(total: nat, present: nat, percentage: nat)

  /** A student's detail panel. */
  datatype Details = Details(
    tasks: seq<Task>, notes: seq<Note>, projects: seq<Project>, attendance: seq<Attendance>, stats: Stats)

  function TaskOf(id: string): Task -> bool { (t: Task) => t.studentId == id }
  function NoteOf(id: string): Note -> bool { (n: Note) => n.studentId == id }
  function ProjectOf(id: string): Project -> bool { (p: Project) => p.studentId == id }
  function AttendanceOf(id: string): Attendance -> bool { (a: Attendance) => a.studentId == id }
  function IsPresent(a: Attendance): bool { a.status == Present }

  /** `.eq('student_id', id).limit(n)` on a table given in the query's order, then
      `data || []`: a failed query (`None`) yields no rows. */
  function Query<T>(table: Option<seq<T>>, of: T -> bool, n: nat): (r: seq<T>)
    ensures |r| <= n
    ensures forall i :: 0 <= i < |r| ==> of(r[i])
    ensures table.None? ==> r == []
    ensures table.Some? ==> r == Take(Where(table.value, of), n)
  {
    if table.None? then [] else Take(Where(table.value, of), n)
  }

  /** `loadStudentDetails`: the five latest tasks, notes and projects and the ten latest
      attendance records of the student, and a summary of those ten records only. */
  function LoadDetails(id: string, tasks: Option<seq<Task>>, notes: Option<seq<Note>>,
                       projects: Option<seq<Project>>, attendance: Option<seq<Attendance>>): (d: Details)
    ensures |d.tasks| <= 5 && |d.notes| <= 5 && |d.projects| <= 5 && |d.attendance| <= 10
    ensures forall i :: 0 <= i < |d.tasks| ==> d.tasks[i].studentId == id
    ensures forall i :: 0 <= i < |d.notes| ==> d.notes[i].studentId == id
    ensures forall i :: 0 <= i < |d.projects| ==> d.projects[i].studentId == id
    ensures forall i :: 0 <= i < |d.attendance| ==> d.attendance[i].studentId == id
    ensures d.stats.total == |d.attendance| <= 10
    ensures d.stats.present == Count(d.attendance, IsPresent) <= d.stats.total
    ensures d.stats.percentage <= 100
    ensures d.stats.total > 0 ==>
              200 * d.stats.present - d.stats.total < 2 * d.stats.total * d.stats.percentage <= 200 * d.stats.present + d.stats.total
  {
    var a := Query(attendance, AttendanceOf(id), 10);
    var present := Count(a, IsPresent);
    Details(Query(tasks, TaskOf(id), 5), Query(notes, NoteOf(id), 5), Query(projects, ProjectOf(id), 5), a,
            Stats(|a|, present, if |a| > 0 then Percentage(present, |a|) else 0))
  }

  const Added := "Student added successfully!"

  /** `error.message || 'Failed to add student'` */
  function AddError(message: string): (r: string)
    ensures r != ""
    ensures message != "" ==> r == message
  {
    if message == "" then "Failed to add student" else message
  }

  /** The names a plain object inherits from `Object.prototype`. Reading one from the
      details object gives a function, or for `__proto__` the prototype itself. */
  predicate InheritedName(k: string) {
    k in {"constructor", "hasOwnProperty", "isPrototypeOf", "propertyIsEnumerable",
          "toLocaleString", "toString", "valueOf", "__proto__",
          "__defineGetter__", "__defineSetter__", "__lookupGetter__", "__lookupSetter__"}
  }

  /** `studentDetails[id]` is truthy: the details were loaded, or the ID names an
      inherited member. Loaded details are always an object, hence truthy. */
  predicate Cached(details: map<string, Details>, id: string) {
    id in details || InheritedName(id)
  }

  class Overview {
    var students: seq<Student>
    var searchTerm: string
    var expandedStudent: Option<string>
    var studentDetails: map<string, Details>
    var showAddModal: bool
    var errorMessage: string
    var successMessage: string
    var formData: StudentForm

    constructor ()
      ensures students == [] && searchTerm == "" && expandedStudent == None && studentDetails == map[]
      ensures !showAddModal && errorMessage == "" && successMessage == "" && formData == DefaultForm()
    {
      students, searchTerm, expandedStudent, studentDetails := [], "", None, map[];
      showAddModal, errorMessage, successMessage, formData := false, "", "", DefaultForm();
    }

    /** The search box's `onChange`. */
    method SetSearchTerm(term: string)
      modifies this`searchTerm
      ensures searchTerm == term
    {
      searchTerm := term;
    }

    /** `loadStudents`: `table` is `student_registrations` in the query's order. */
    method LoadStudents(table: seq<Student>, fails: bool)
      modifies this`students
      ensures students == if fails then old(students) else table
    {
      if !fails {
        students := table;
      }
    }

    /** A text input of the add-student form. */
    method SetColumn(k: string, value: string)
      requires k in ColumnSet()
      modifies this`formData
      ensures formData == old(formData).(text := old(formData).text[k := value])
      ensures WellFormed(old(formData)) ==> WellFormed(formData)
    {
      formData := formData.(text := formData.text[k := value]);
    }

    /** The trainee checkbox. */
    method SetTrainee(checked: bool)
      modifies this`formData
      ensures formData == old(formData).(isTrainee := checked)
    {
      formData := formData.(isTrainee := checked);
    }

    method OpenAddModal()
      modifies this`showAddModal
      ensures showAddModal
    {
      showAddModal := true;
    }

    method CloseAddModal()
      modifies this`showAddModal
      ensures !showAddModal
    {
      showAddModal := false;
    }

    /** `handleAddStudent`. `insertError` is the insert's error message, if any; on success
        the list is reloaded, and `reloadFails` says whether that query failed. */
    method HandleAddStudent(table: seq<Student>, insertError: Option<string>, reloadFails: bool)
      returns (table': seq<Student>)
      requires RequiredFilled(formData)
      modifies this`errorMessage, this`successMessage, this`students
      ensures insertError.Some? ==>
                table' == table && errorMessage == AddError(insertError.value) && successMessage == ""
                && students == old(students)
      ensures insertError.None? ==>
                table' == table + [ToStudent(formData)] && errorMessage == "" && successMessage == Added
                && students == (if reloadFails then old(students) else table')
    {
      errorMessage := "";
      successMessage := "";
      if insertError.Some? {
        table' := table;
        errorMessage := AddError(insertError.value);
      } else {
        table' := table + [ToStudent(formData)];
        successMessage := Added;
        LoadStudents(table', reloadFails);
      }
    }

    /** The 1.5-second timer a successful add starts: close the modal, clear the message,
        reset the form. */
    method AddTimerElapsed()
      modifies this`showAddModal, this`successMessage, this`formData
      ensures !showAddModal && successMessage == "" && formData == DefaultForm()
    {
      showAddModal := false;
      successMessage := "";
      formData := DefaultForm();
    }

    /** `toggleStudentExpanded`: collapse the open student, or open another and fetch its
        details unless `studentDetails[id]` is truthy. The four options are the detail
        queries' results. */
    method ToggleStudentExpanded(id: string, tasks: Option<seq<Task>>, notes: Option<seq<Note>>,
                                 projects: Option<seq<Project>>, attendance: Option<seq<Attendance>>)
      modifies this`expandedStudent, this`studentDetails
      ensures old(expandedStudent) == Some(id) ==> expandedStudent == None && studentDetails == old(studentDetails)
      ensures old(expandedStudent) != Some(id) ==> expandedStudent == Some(id)
      ensures old(expandedStudent) != Some(id) && Cached(old(studentDetails), id) ==> studentDetails == old(studentDetails)
      ensures old(expandedStudent) != Some(id) && !Cached(old(studentDetails), id) ==>
                studentDetails == old(studentDetails)[id := LoadDetails(id, tasks, notes, projects, attendance)]
    {
      if expandedStudent == Some(id) {
        expandedStudent := None;
      } else {
        expandedStudent := Some(id);
        if !Cached(studentDetails, id) {
          studentDetails := studentDetails[id := LoadDetails(id, tasks, notes, projects, attendance)];
        }
      }
    }
  }
}
