/** The administrators' tasks screen (src/components/admin/TasksManagement.tsx):
    assign a task to one student, to the checked students or to the whole roster,
    grade a submission, reassign an existing task, and the per-status counts. */
module TasksManagement {
  import opened Table
  import opened Text
  import opened Records
  import opened Selection

  /** The assignment form. */
  datatype TaskForm = TaskForm(studentId: string, title: string, description: string, dueDate: string)

  const BlankForm := TaskForm("", "", "", "")

  /** A freshly assigned task: pending, nothing submitted, no grade. */
  function NewTask(studentId: string, title: string, description: string, dueDate: string): (t: Task)
    ensures t.status == TaskStatus.Pending && t.submissionLink.None? && t.submittedAt.None? && t.grade.None?
    ensures t.studentId == studentId && t.title == title && t.description == description && t.dueDate == dueDate
  {
    Task(studentId, title, description, dueDate, TaskStatus.Pending, None, None, None, None, None)
  }

  /** `records` of the multi and bulk assignments: one task per ID, in order, sharing
      title, description and due date. */
  function AssignRows(ids: seq<string>, form: TaskForm): (r: seq<Task>)
    ensures |r| == |ids|
    ensures forall i :: 0 <= i < |r| ==> r[i] == NewTask(ids[i], form.title, form.description, form.dueDate)
  {
    seq(|ids|, i requires 0 <= i < |ids| => NewTask(ids[i], form.title, form.description, form.dueDate))
  }

  /** The bulk assignment gives every roster student the task, and nobody else. */
  lemma BulkReachesRoster(roster: seq<RosterEntry>, form: TaskForm, x: string)
    ensures (exists t :: t in AssignRows(AllIds(roster), form) && t.studentId == x) <==>
            (exists i :: 0 <= i < |roster| && roster[i].studentId == x)
  {
    var r := AssignRows(AllIds(roster), form);
    if exists t :: t in r && t.studentId == x {
      var t :| t in r && t.studentId == x;
      var i :| 0 <= i < |r| && r[i] == t;
      assert roster[i].studentId == x;
    }
    if exists i :: 0 <= i < |roster| && roster[i].studentId == x {
      var i :| 0 <= i < |roster| && roster[i].studentId == x;
      assert r[i] in r && r[i].studentId == x;
    }
  }

  /** `records` of a reassignment: a pending copy of the source task for each ID. */
  function ReassignRows(ids: seq<string>, source: Task): (r: seq<Task>)
    ensures |r| == |ids|
    ensures forall i :: 0 <= i < |r| ==>
              r[i].studentId == ids[i] && r[i].title == source.title && r[i].description == source.description
              && r[i].dueDate == source.dueDate && r[i].status == TaskStatus.Pending
              && r[i].submissionLink.None? && r[i].grade.None? && r[i].feedback.None?
  {
    seq(|ids|, i requires 0 <= i < |ids| => NewTask(ids[i], source.title, source.description, source.dueDate))
  }

  /** A reassigned copy is the task as a multi assignment of the same fields would create it. */
  lemma ReassignIsFreshAssignment(ids: seq<string>, source: Task)
    ensures ReassignRows(ids, source) == AssignRows(ids, TaskForm("", source.title, source.description, source.dueDate))
  {
  }

  /** `!formData.title || !formData.description` fails. */
  predicate Filled(form: TaskForm) {
    form.title != "" && form.description != ""
  }

  /** What an assignment handler ends with; each is reported by an alert. */
  datatype Outcome = NoSelection | MissingFields | Cancelled | Assigned(count: nat) | Errored(message: string)

  /** The alerts of `assignToMultipleStudents`: every outcome but a cancel is reported. */
  function MultiAlert(o: Outcome): (a: Option<string>)
    ensures a.None? <==> o.Cancelled?
  {
    match o
    case NoSelection => Some("Please select at least one student")
    case MissingFields => Some("Please fill in title and description")
    case Cancelled => None
    case Assigned(n) => Some("Task assigned to " + Decimal(n) + " student(s) successfully!")
    case Errored(m) => Some("Error assigning task: " + m)
  }

  /** The alerts of `assignBulkTask`, which never asks for a selection. */
  function BulkAlert(o: Outcome): (a: Option<string>)
    ensures a.None? <==> o.NoSelection? || o.Cancelled?
  {
    match o
    case NoSelection => None
    case MissingFields => Some("Please fill in title and description first")
    case Cancelled => None
    case Assigned(_) => Some("Task assigned to all students!")
    case Errored(m) => Some("Error assigning bulk task: " + m)
  }

  /** The alerts of `handleReassignTask`, which neither checks the fields nor confirms. */
  function ReassignAlert(o: Outcome): (a: Option<string>)
    ensures a.None? <==> o.MissingFields? || o.Cancelled?
  {
    match o
    case NoSelection => Some("Please select at least one student")
    case MissingFields => None
    case Cancelled => None
    case Assigned(n) => Some("Task reassigned to " + Decimal(n) + " student(s) successfully!")
    case Errored(m) => Some("Error reassigning task: " + m)
  }

  /** The grade form; `grade` is the number typed, absent while the box is empty. */
  datatype GradeForm = GradeForm(grade: Option<real>, feedback: string, status: TaskStatus)

  const BlankGrade := GradeForm(None, "", TaskStatus.Completed)

  /** The grading update: grade, feedback and status, nothing else. */
  function GradePatch(grade: real, feedback: string, status: TaskStatus): Task -> Task {
    (t: Task) => t.(grade := Some(grade), feedback := Some(feedback), status := status)
  }

  /** Grading touches the graded task only: every other row is unchanged, and the graded
      one keeps its student, title, description, due date and submission. */
  lemma GradeChangesOnlyThatTask(table: seq<Row<Task>>, id: Id, grade: real, feedback: string, status: TaskStatus, i: nat)
    requires i < |table|
    ensures var r := UpdateById(table, id, GradePatch(grade, feedback, status))[i];
            && r.id == table[i].id
            && (table[i].id != id ==> r == table[i])
            && (table[i].id == id ==>
                  r.cols.grade == Some(grade) && r.cols.feedback == Some(feedback) && r.cols.status == status
                  && r.cols.studentId == table[i].cols.studentId && r.cols.title == table[i].cols.title
                  && r.cols.description == table[i].cols.description && r.cols.dueDate == table[i].cols.dueDate
                  && r.cols.submissionLink == table[i].cols.submissionLink
                  && r.cols.submissionNotes == table[i].cols.submissionNotes
                  && r.cols.submittedAt == table[i].cols.submittedAt)
  {
  }

  function HasStatus(s: TaskStatus): Row<Task> -> bool {
    (r: Row<Task>) => r.cols.status == s
  }

  /** The three counters of the screen. */
  function PendingCount(tasks: seq<Row<Task>>): (n: nat)
    ensures n <= |tasks|
  {
    Count(tasks, HasStatus(TaskStatus.Pending))
  }

  function SubmittedCount(tasks: seq<Row<Task>>): (n: nat)
    ensures n <= |tasks|
  {
    Count(tasks, HasStatus(TaskStatus.Submitted))
  }

  function CompletedCount(tasks: seq<Row<Task>>): (n: nat)
    ensures n <= |tasks|
  {
    Count(tasks, HasStatus(TaskStatus.Completed))
  }

  /** Every task is counted by exactly one of the three counters. */
  lemma StatusCountsAddUp(tasks: seq<Row<Task>>)
    ensures PendingCount(tasks) + SubmittedCount(tasks) + CompletedCount(tasks) == |tasks|
  {
    var notPending := (r: Row<Task>) => r.cols.status != TaskStatus.Pending;
    CountComplement(tasks, HasStatus(TaskStatus.Pending), notPending);
    CountSplit(tasks, notPending, HasStatus(TaskStatus.Submitted), HasStatus(TaskStatus.Completed));
  }

  /** Assigning pending tasks raises the pending counter by their number and leaves the
      others alone. */
  lemma AssignCounts(tasks: seq<Row<Task>>, ids: seq<string>, form: TaskForm)
    ensures PendingCount(Insert(tasks, AssignRows(ids, form))) == PendingCount(tasks) + |ids|
    ensures SubmittedCount(Insert(tasks, AssignRows(ids, form))) == SubmittedCount(tasks)
    ensures CompletedCount(Insert(tasks, AssignRows(ids, form))) == CompletedCount(tasks)
  {
    var t := Insert(tasks, AssignRows(ids, form));
    var added := t[|tasks|..];
    assert t == tasks + added;
    WhereAppend(tasks, added, HasStatus(TaskStatus.Pending));
    WhereAppend(tasks, added, HasStatus(TaskStatus.Submitted));
    WhereAppend(tasks, added, HasStatus(TaskStatus.Completed));
    WhereAll(added, HasStatus(TaskStatus.Pending));
    WhereNone(added, HasStatus(TaskStatus.Submitted));
    WhereNone(added, HasStatus(TaskStatus.Completed));
  }

  class TasksScreen {
    var students: seq<RosterEntry>
    var tasks: seq<Row<Task>>
    var showForm: bool
    var showGradeForm: Option<Row<Task>>
    var showReassignForm: Option<Row<Task>>
    var selectedStudents: seq<string>
    var reassignStudents: seq<string>
    var formData: TaskForm
    var gradeData: GradeForm

    constructor ()
      ensures students == [] && tasks == [] && !showForm && showGradeForm.None? && showReassignForm.None?
      ensures selectedStudents == [] && reassignStudents == [] && formData == BlankForm && gradeData == BlankGrade
    {
      students, tasks, showForm := [], [], false;
      showGradeForm, showReassignForm := None, None;
      selectedStudents, reassignStudents := [], [];
      formData, gradeData := BlankForm, BlankGrade;
    }

    method LoadStudents(table: seq<Student>, fails: bool)
      modifies this`students
      ensures students == if fails then old(students) else Roster(table)
    {
      if !fails {
        students := Roster(table);
      }
    }

    /** The "Assign Task" button: opens or closes the form. */
    method ToggleForm()
      modifies this`showForm
      ensures showForm == !old(showForm)
    {
      showForm := !showForm;
    }

    /** `loadTasks`: the whole table, kept as it was when the query fails. */
    method LoadTasks(table: seq<Row<Task>>, fails: bool)
      modifies this`tasks
      ensures tasks == if fails then old(tasks) else table
    {
      if !fails {
        tasks := table;
      }
    }

    method SetForm(form: TaskForm)
      modifies this`formData
      ensures formData == form
    {
      formData := form;
    }

    /** A checkbox of the multi-student list. */
    method SetSelected(id: string, checked: bool)
      modifies this`selectedStudents
      ensures selectedStudents == Check(old(selectedStudents), id, checked)
    {
      selectedStudents := Check(selectedStudents, id, checked);
    }

    /** The form's Cancel button. */
    method CancelForm()
      modifies this`showForm, this`selectedStudents
      ensures !showForm && selectedStudents == []
    {
      showForm := false;
      selectedStudents := [];
    }

    /** `handleSubmit`: insert the form as one task. */
    method HandleSubmit(table: seq<Row<Task>>, error: Option<string>, reloadFails: bool)
      returns (table': seq<Row<Task>>, alert: string)
      modifies this`formData, this`showForm, this`tasks
      ensures error.Some? ==>
                table' == table && alert == "Error assigning task: " + error.value
                && formData == old(formData) && showForm == old(showForm) && tasks == old(tasks)
      ensures error.None? ==>
                table' == Insert(table, [NewTask(old(formData).studentId, old(formData).title,
                                                 old(formData).description, old(formData).dueDate)])
                && alert == "Task assigned successfully!" && formData == BlankForm && !showForm
                && tasks == (if reloadFails then old(tasks) else table')
    {
      if error.Some? {
        table' := table;
        alert := "Error assigning task: " + error.value;
        return;
      }
      table' := Insert(table, [NewTask(formData.studentId, formData.title, formData.description, formData.dueDate)]);
      alert := "Task assigned successfully!";
      formData := BlankForm;
      showForm := false;
      LoadTasks(table', reloadFails);
    }

    /** `assignToMultipleStudents`: a non-empty selection, then a filled form, then the
        confirmation, then one task per checked student. */
    method AssignToMultipleStudents(confirmed: bool, table: seq<Row<Task>>, error: Option<string>, reloadFails: bool)
      returns (table': seq<Row<Task>>, outcome: Outcome)
      modifies this`formData, this`showForm, this`selectedStudents, this`tasks
      ensures old(selectedStudents) == [] ==> outcome == NoSelection
      ensures old(selectedStudents) != [] && !Filled(old(formData)) ==> outcome == MissingFields
      ensures old(selectedStudents) != [] && Filled(old(formData)) && !confirmed ==> outcome == Cancelled
      ensures old(selectedStudents) != [] && Filled(old(formData)) && confirmed ==>
                outcome == if error.Some? then Errored(error.value) else Assigned(|old(selectedStudents)|)
      ensures !outcome.Assigned? ==>
                table' == table && formData == old(formData) && showForm == old(showForm)
                && selectedStudents == old(selectedStudents) && tasks == old(tasks)
      ensures outcome.Assigned? ==>
                table' == Insert(table, AssignRows(old(selectedStudents), old(formData)))
                && formData == BlankForm && selectedStudents == [] && !showForm
                && tasks == (if reloadFails then old(tasks) else table')
    {
      table' := table;
      if |selectedStudents| == 0 {
        return table', NoSelection;
      }
      if !Filled(formData) {
        return table', MissingFields;
      }
      if !confirmed {
        return table', Cancelled;
      }
      var records := AssignRows(selectedStudents, formData);
      if error.Some? {
        return table', Errored(error.value);
      }
      outcome := Assigned(|selectedStudents|);
      table' := Insert(table, records);
      formData := BlankForm;
      selectedStudents := [];
      showForm := false;
      LoadTasks(table', reloadFails);
    }

    /** `assignBulkTask`: a filled form, then the confirmation, then one task per roster
        student. */
    method AssignBulkTask(confirmed: bool, table: seq<Row<Task>>, error: Option<string>, reloadFails: bool)
      returns (table': seq<Row<Task>>, outcome: Outcome)
      modifies this`formData, this`showForm, this`selectedStudents, this`tasks
      ensures !Filled(old(formData)) ==> outcome == MissingFields
      ensures Filled(old(formData)) && !confirmed ==> outcome == Cancelled
      ensures Filled(old(formData)) && confirmed ==>
                outcome == if error.Some? then Errored(error.value) else Assigned(|students|)
      ensures !outcome.Assigned? ==>
                table' == table && formData == old(formData) && showForm == old(showForm)
                && selectedStudents == old(selectedStudents) && tasks == old(tasks)
      ensures outcome.Assigned? ==>
                table' == Insert(table, AssignRows(AllIds(students), old(formData)))
                && formData == BlankForm && selectedStudents == [] && !showForm
                && tasks == (if reloadFails then old(tasks) else table')
    {
      table' := table;
      if !Filled(formData) {
        return table', MissingFields;
      }
      if !confirmed {
        return table', Cancelled;
      }
      var records := AssignRows(AllIds(students), formData);
      if error.Some? {
        return table', Errored(error.value);
      }
      outcome := Assigned(|students|);
      table' := Insert(table, records);
      formData := BlankForm;
      selectedStudents := [];
      showForm := false;
      LoadTasks(table', reloadFails);
    }

    /** The "Grade" button of a submitted task. */
    method OpenGradeForm(task: Row<Task>)
      modifies this`showGradeForm
      ensures showGradeForm == Some(task)
    {
      showGradeForm := Some(task);
    }

    method SetGradeForm(form: GradeForm)
      modifies this`gradeData
      ensures gradeData == form
    {
      gradeData := form;
    }

    /** The grade form's Cancel button. */
    method CancelGrade()
      modifies this`showGradeForm, this`gradeData
      ensures showGradeForm.None? && gradeData == BlankGrade
    {
      showGradeForm := None;
      gradeData := BlankGrade;
    }

    /** `handleGradeSubmit`: the grade box is required, so a number is present. Only the
        task being graded changes, and only its grade, feedback and status. */
    method HandleGradeSubmit(table: seq<Row<Task>>, error: Option<string>, reloadFails: bool)
      returns (table': seq<Row<Task>>, alert: string)
      requires showGradeForm.Some? && gradeData.grade.Some?
      modifies this`showGradeForm, this`gradeData, this`tasks
      ensures error.Some? ==>
                table' == table && alert == "Error grading task: " + error.value
                && showGradeForm == old(showGradeForm) && gradeData == old(gradeData) && tasks == old(tasks)
      ensures error.None? ==>
                table' == UpdateById(table, old(showGradeForm).value.id,
                                     GradePatch(old(gradeData).grade.value, old(gradeData).feedback, old(gradeData).status))
                && alert == "Task graded successfully!" && showGradeForm.None? && gradeData == BlankGrade
                && tasks == (if reloadFails then old(tasks) else table')
    {
      if error.Some? {
        table' := table;
        alert := "Error grading task: " + error.value;
        return;
      }
      table' := UpdateById(table, showGradeForm.value.id, GradePatch(gradeData.grade.value, gradeData.feedback, gradeData.status));
      alert := "Task graded successfully!";
      showGradeForm := None;
      gradeData := BlankGrade;
      LoadTasks(table', reloadFails);
    }

    /** The "Reassign" button of a task. */
    method OpenReassignForm(task: Row<Task>)
      modifies this`showReassignForm
      ensures showReassignForm == Some(task)
    {
      showReassignForm := Some(task);
    }

    /** A checkbox of the reassignment list. */
    method SetReassignSelected(id: string, checked: bool)
      modifies this`reassignStudents
      ensures reassignStudents == Check(old(reassignStudents), id, checked)
    {
      reassignStudents := Check(reassignStudents, id, checked);
    }

    /** The reassignment form's Cancel button. */
    method CancelReassign()
      modifies this`showReassignForm, this`reassignStudents
      ensures showReassignForm.None? && reassignStudents == []
    {
      showReassignForm := None;
      reassignStudents := [];
    }

    /** `handleReassignTask`: a non-empty selection, then the confirmation, then a
        pending copy of the task for each checked student. */
    method HandleReassignTask(confirmed: bool, table: seq<Row<Task>>, error: Option<string>, reloadFails: bool)
      returns (table': seq<Row<Task>>, outcome: Outcome)
      requires showReassignForm.Some?
      modifies this`showReassignForm, this`reassignStudents, this`tasks
      ensures old(reassignStudents) == [] ==> outcome == NoSelection
      ensures old(reassignStudents) != [] && !confirmed ==> outcome == Cancelled
      ensures old(reassignStudents) != [] && confirmed ==>
                outcome == if error.Some? then Errored(error.value) else Assigned(|old(reassignStudents)|)
      ensures !outcome.Assigned? ==>
                table' == table && showReassignForm == old(showReassignForm)
                && reassignStudents == old(reassignStudents) && tasks == old(tasks)
      ensures outcome.Assigned? ==>
                table' == Insert(table, ReassignRows(old(reassignStudents), old(showReassignForm).value.cols))
                && showReassignForm.None? && reassignStudents == []
                && tasks == (if reloadFails then old(tasks) else table')
    {
      table' := table;
      if |reassignStudents| == 0 {
        return table', NoSelection;
      }
      if !confirmed {
        return table', Cancelled;
      }
      var records := ReassignRows(reassignStudents, showReassignForm.value.cols);
      if error.Some? {
        return table', Errored(error.value);
      }
      outcome := Assigned(|reassignStudents|);
      table' := Insert(table, records);
      showReassignForm := None;
      reassignStudents := [];
      LoadTasks(table', reloadFails);
    }
  }
}
