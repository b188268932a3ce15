/** The student dashboard's tasks tab (src/components/dashboard/DashboardTasks.tsx): the
    student's tasks, the two counters, and submitting a pending task. */
module DashboardTasks {
  import opened Table
  import opened Records

  /** The submission form. */
  datatype Submission = Submission(link: string, notes: string)

  const BlankSubmission := Submission("", "")

  /** The Submit button is shown only on a pending task. */
  predicate CanSubmit(t: Task) {
    t.status == TaskStatus.Pending
  }

  /** The update a submission sends: link, notes, `submitted` and the time of submission. */
  function SubmitPatch(s: Submission, now: string): Task -> Task {
    (t: Task) => t.(submissionLink := Some(s.link), submissionNotes := Some(s.notes),
                    status := TaskStatus.Submitted, submittedAt := Some(now))
  }

  /** A submitted task can no longer be submitted, and keeps everything the trainer set. */
  lemma SubmitClosesTask(t: Task, s: Submission, now: string)
    ensures !CanSubmit(SubmitPatch(s, now)(t))
    ensures var u := SubmitPatch(s, now)(t);
            && u.studentId == t.studentId && u.title == t.title && u.description == t.description
            && u.dueDate == t.dueDate && u.grade == t.grade && u.feedback == t.feedback
            && u.submissionLink == Some(s.link) && u.submittedAt == Some(now)
  {
  }

  function RowHasStatus(s: TaskStatus): Row<Task> -> bool {
    (r: Row<Task>) => r.cols.status == s
  }

  /** The two counters. */
  function PendingCount(tasks: seq<Row<Task>>): (n: nat)
    ensures n <= |tasks|
  {
    Count(tasks, RowHasStatus(TaskStatus.Pending))
  }

  function CompletedCount(tasks: seq<Row<Task>>): (n: nat)
    ensures n <= |tasks|
  {
    Count(tasks, RowHasStatus(TaskStatus.Completed))
  }

  /** Submitting a pending task takes exactly one off the pending counter. */
  lemma SubmitDecrementsPending(tasks: seq<Row<Task>>, k: nat, s: Submission, now: string)
    requires UniqueIds(tasks) && k < |tasks| && CanSubmit(tasks[k].cols)
    ensures PendingCount(UpdateById(tasks, tasks[k].id, SubmitPatch(s, now))) + 1 == PendingCount(tasks)
  {
    CountUpdateOne(tasks, tasks[k].id, SubmitPatch(s, now), RowHasStatus(TaskStatus.Pending), k);
  }

  function OwnedBy(id: string): Row<Task> -> bool {
    (r: Row<Task>) => r.cols.studentId == id
  }

  class TasksTab {
    const studentId: string
    var tasks: seq<Row<Task>>
    var selectedTask: Option<Row<Task>>
    var submissionData: Submission

    constructor (id: string)
      ensures studentId == id && tasks == [] && selectedTask.None? && submissionData == BlankSubmission
    {
      studentId := id;
      tasks, selectedTask, submissionData := [], None, BlankSubmission;
    }

    /** `loadTasks`: the student's rows, kept as they were when the query fails. */
    method LoadTasks(table: seq<Row<Task>>, fails: bool)
      modifies this`tasks
      ensures fails ==> tasks == old(tasks)
      ensures !fails ==> tasks == Where(table, OwnedBy(studentId))
      ensures !fails ==> forall i :: 0 <= i < |tasks| ==> tasks[i].cols.studentId == studentId
    {
      if !fails {
        tasks := Where(table, OwnedBy(studentId));
      }
    }

    /** The Submit button of a task. */
    method OpenSubmit(task: Row<Task>)
      requires CanSubmit(task.cols)
      modifies this`selectedTask
      ensures selectedTask == Some(task)
    {
      selectedTask := Some(task);
    }

    method SetSubmission(s: Submission)
      modifies this`submissionData
      ensures submissionData == s
    {
      submissionData := s;
    }

    method Cancel()
      modifies this`selectedTask
      ensures selectedTask.None?
    {
      selectedTask := None;
    }

    /** `handleSubmit`: update the selected task's row only, then clear the form whether
        or not the update went through (its error is not looked at), and reload. */
    method HandleSubmit(table: seq<Row<Task>>, updateFails: bool, now: string, reloadFails: bool)
      returns (table': seq<Row<Task>>)
      requires selectedTask.Some?
      modifies this`selectedTask, this`submissionData, this`tasks
      ensures table' == if updateFails then table
                        else UpdateById(table, old(selectedTask).value.id, SubmitPatch(old(submissionData), now))
      ensures selectedTask.None? && submissionData == BlankSubmission
      ensures tasks == if reloadFails then old(tasks) else Where(table', OwnedBy(studentId))
    {
      table' := table;
      if !updateFails {
        table' := UpdateById(table, selectedTask.value.id, SubmitPatch(submissionData, now));
      }
      selectedTask := None;
      submissionData := BlankSubmission;
      LoadTasks(table', reloadFails);
    }
  }
}
