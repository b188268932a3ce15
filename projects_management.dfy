/** The administrators' projects screen (src/components/admin/ProjectsManagement.tsx):
    assign a project to one student or to the whole roster, and the status counts. */
module ProjectsManagement {
  import opened Table
  import opened Text
  import opened Records

  /** The assignment form; `technologies` is the comma-separated text box. */
  datatype ProjectForm = ProjectForm(
    studentId: string,
    projectName: string,
    description: string,
    technologies: string,
    startDate: string,
    endDate: string,
    status: ProjectStatus)

  /** The form as it opens and after every successful assignment. */
  function BlankForm(today: string): ProjectForm {
    ProjectForm("", "", "", "", today, "", InProgress)
  }

  /** The row a single assignment inserts: the form with the technologies parsed, no links. */
  function ProjectRow(form: ProjectForm): (p: Project)
    ensures p.technologies == ParseCommaList(form.technologies)
    ensures forall k :: 0 <= k < |p.technologies| ==> p.technologies[k] != "" && IsTrimmed(p.technologies[k])
    ensures p.studentId == form.studentId && p.projectName == form.projectName && p.status == form.status
    ensures p.description == form.description && p.startDate == form.startDate && p.endDate == form.endDate
    ensures p.githubLink.None? && p.liveLink.None?
  {
    Project(form.studentId, form.projectName, form.description, ParseCommaList(form.technologies),
            form.startDate, form.endDate, form.status, None, None)
  }

  /** `records` of the bulk assignment: one row per roster student, in roster order,
      sharing every other field. */
  function BulkRows(roster: seq<RosterEntry>, form: ProjectForm): (r: seq<Project>)
    ensures |r| == |roster|
    ensures forall i :: 0 <= i < |r| ==> r[i].studentId == roster[i].studentId
  {
    var technologies := ParseCommaList(form.technologies);
    seq(|roster|, i requires 0 <= i < |roster| =>
      Project(roster[i].studentId, form.projectName, form.description, technologies,
              form.startDate, form.endDate, form.status, None, None))
  }

  /** Each bulk row is exactly the row a single assignment to that student would insert. */
  lemma BulkIsSingleForEach(roster: seq<RosterEntry>, form: ProjectForm, i: nat)
    requires i < |roster|
    ensures BulkRows(roster, form)[i] == ProjectRow(form.(studentId := roster[i].studentId))
  {
  }

  /** `!formData.project_name || !formData.description` fails. */
  predicate Filled(form: ProjectForm) {
    form.projectName != "" && form.description != ""
  }

  datatype Outcome = MissingFields | Cancelled | Assigned | Errored(message: string)

  /** The alerts of `assignBulkProject`: every outcome but a cancel is reported. */
  function BulkAlert(o: Outcome): (a: Option<string>)
    ensures a.None? <==> o.Cancelled?
  {
    match o
    case MissingFields => Some("Please fill in project name and description first")
    case Cancelled => None
    case Assigned => Some("Project assigned to all students!")
    case Errored(m) => Some("Error assigning bulk project: " + m)
  }

  function HasStatus(s: ProjectStatus): Row<Project> -> bool {
    (r: Row<Project>) => r.cols.status == s
  }

  /** The two counters of the screen. */
  function InProgressCount(projects: seq<Row<Project>>): (n: nat)
    ensures n <= |projects|
  {
    Count(projects, HasStatus(InProgress))
  }

  function CompletedCount(projects: seq<Row<Project>>): (n: nat)
    ensures n <= |projects|
  {
    Count(projects, HasStatus(ProjectStatus.Completed))
  }

  /** The counters never exceed the number of projects; submitted projects are in neither. */
  lemma CountersBounded(projects: seq<Row<Project>>)
    ensures InProgressCount(projects) + CompletedCount(projects) + Count(projects, HasStatus(ProjectStatus.Submitted)) == |projects|
  {
    var notInProgress := (r: Row<Project>) => r.cols.status != InProgress;
    CountComplement(projects, HasStatus(InProgress), notInProgress);
    CountSplit(projects, notInProgress, HasStatus(ProjectStatus.Completed), HasStatus(ProjectStatus.Submitted));
  }

  /** A bulk assignment raises the counter of the form's status by the roster size. */
  lemma BulkCounts(projects: seq<Row<Project>>, roster: seq<RosterEntry>, form: ProjectForm)
    ensures Count(Insert(projects, BulkRows(roster, form)), HasStatus(form.status)) ==
            Count(projects, HasStatus(form.status)) + |roster|
  {
    var t := Insert(projects, BulkRows(roster, form));
    var added := t[|projects|..];
    assert t == projects + added;
    WhereAppend(projects, added, HasStatus(form.status));
    WhereAll(added, HasStatus(form.status));
  }

  class ProjectsScreen {
    var students: seq<RosterEntry>
    var projects: seq<Row<Project>>
    var showForm: bool
    var formData: ProjectForm

    constructor (today: string)
      ensures students == [] && projects == [] && !showForm && formData == BlankForm(today)
    {
      students, projects, showForm := [], [], false;
      formData := BlankForm(today);
    }

    method LoadStudents(table: seq<Student>, fails: bool)
      modifies this`students
      ensures students == if fails then old(students) else Roster(table)
    {
      if !fails {
        students := Roster(table);
      }
    }

    /** `loadProjects`: the whole table, kept as it was when the query fails. */
    method LoadProjects(table: seq<Row<Project>>, fails: bool)
      modifies this`projects
      ensures projects == if fails then old(projects) else table
    {
      if !fails {
        projects := table;
      }
    }

    method SetForm(form: ProjectForm)
      modifies this`formData
      ensures formData == form
    {
      formData := form;
    }

    /** The "Assign Project" button and the form's Cancel button. */
    method SetShowForm(show: bool)
      modifies this`showForm
      ensures showForm == show
    {
      showForm := show;
    }

    /** `handleSubmit`: insert the form as one project; `today` is the start date the
        reset form gets. */
    method HandleSubmit(table: seq<Row<Project>>, error: Option<string>, reloadFails: bool, today: string)
      returns (table': seq<Row<Project>>, alert: string)
      modifies this`formData, this`showForm, this`projects
      ensures error.Some? ==>
                table' == table && alert == "Error assigning project: " + error.value
                && formData == old(formData) && showForm == old(showForm) && projects == old(projects)
      ensures error.None? ==>
                table' == Insert(table, [ProjectRow(old(formData))])
                && alert == "Project assigned successfully!" && formData == BlankForm(today) && !showForm
                && projects == (if reloadFails then old(projects) else table')
    {
      if error.Some? {
        table' := table;
        alert := "Error assigning project: " + error.value;
        return;
      }
      table' := Insert(table, [ProjectRow(formData)]);
      alert := "Project assigned successfully!";
      formData := BlankForm(today);
      showForm := false;
      LoadProjects(table', reloadFails);
    }

    /** `assignBulkProject`: a filled form, then the confirmation, then one project per
        roster student. */
    method AssignBulkProject(confirmed: bool, table: seq<Row<Project>>, error: Option<string>, reloadFails: bool, today: string)
      returns (table': seq<Row<Project>>, outcome: Outcome)
      modifies this`formData, this`showForm, this`projects
      ensures !Filled(old(formData)) ==> outcome == MissingFields
      ensures Filled(old(formData)) && !confirmed ==> outcome == Cancelled
      ensures Filled(old(formData)) && confirmed ==>
                outcome == if error.Some? then Errored(error.value) else Assigned
      ensures !outcome.Assigned? ==>
                table' == table && formData == old(formData) && showForm == old(showForm) && projects == old(projects)
      ensures outcome.Assigned? ==>
                table' == Insert(table, BulkRows(students, old(formData)))
                && formData == BlankForm(today) && !showForm
                && projects == (if reloadFails then old(projects) else table')
    {
      table' := table;
      if !Filled(formData) {
        return table', MissingFields;
      }
      if !confirmed {
        return table', Cancelled;
      }
      var records := BulkRows(students, formData);
      if error.Some? {
        return table', Errored(error.value);
      }
      outcome := Assigned;
      table' := Insert(table, records);
      formData := BlankForm(today);
      showForm := false;
      LoadProjects(table', reloadFails);
    }
  }
}
