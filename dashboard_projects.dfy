/** The student dashboard's projects tab (src/components/dashboard/DashboardProjects.tsx):
    the student's projects and submitting the links of one still in progress. */
module DashboardProjects {
  import opened Table
  import opened Records

  /** The link form. */
  datatype Links = Links(github: string, live: string)

  const BlankLinks := Links("", "")

  /** "Submit Links" is offered exactly when the project has no link yet and is in progress. */
  predicate CanSubmitLinks(p: Project) {
    !Truthy(p.githubLink) && !Truthy(p.liveLink) && p.status == InProgress
  }

  /** The update a submission sends: both links, `submitted` and the end date. */
  function SubmitPatch(l: Links, now: string): Project -> Project {
    (p: Project) => p.(githubLink := Some(l.github), liveLink := Some(l.live), status := ProjectStatus.Submitted, endDate := now)
  }

  /** A submitted project no longer offers "Submit Links", and keeps what the trainer set. */
  lemma SubmitClosesProject(p: Project, l: Links, now: string)
    ensures !CanSubmitLinks(SubmitPatch(l, now)(p))
    ensures var u := SubmitPatch(l, now)(p);
            && u.studentId == p.studentId && u.projectName == p.projectName && u.description == p.description
            && u.technologies == p.technologies && u.startDate == p.startDate
            && u.githubLink == Some(l.github) && u.liveLink == Some(l.live) && u.endDate == now
  {
  }

  function RowCanSubmit(r: Row<Project>): bool {
    CanSubmitLinks(r.cols)
  }

  /** With distinct ids, submitting one project takes exactly one off the projects still
      offering "Submit Links"; no other row changes. */
  lemma SubmitTouchesOneProject(projects: seq<Row<Project>>, k: nat, l: Links, now: string)
    requires UniqueIds(projects) && k < |projects| && CanSubmitLinks(projects[k].cols)
    ensures Count(UpdateById(projects, projects[k].id, SubmitPatch(l, now)), RowCanSubmit) + 1 == Count(projects, RowCanSubmit)
    ensures forall i :: 0 <= i < |projects| && i != k ==> UpdateById(projects, projects[k].id, SubmitPatch(l, now))[i] == projects[i]
  {
    CountUpdateOne(projects, projects[k].id, SubmitPatch(l, now), RowCanSubmit, k);
  }

  function OwnedBy(id: string): Row<Project> -> bool {
    (r: Row<Project>) => r.cols.studentId == id
  }

  class ProjectsTab {
    const studentId: string
    var projects: seq<Row<Project>>
    var selectedProject: Option<Row<Project>>
    var submissionData: Links

    constructor (id: string)
      ensures studentId == id && projects == [] && selectedProject.None? && submissionData == BlankLinks
    {
      studentId := id;
      projects, selectedProject, submissionData := [], None, BlankLinks;
    }

    /** `loadProjects`: the student's rows, kept as they were when the query fails. */
    method LoadProjects(table: seq<Row<Project>>, fails: bool)
      modifies this`projects
      ensures fails ==> projects == old(projects)
      ensures !fails ==> projects == Where(table, OwnedBy(studentId))
      ensures !fails ==> forall i :: 0 <= i < |projects| ==> projects[i].cols.studentId == studentId
    {
      if !fails {
        projects := Where(table, OwnedBy(studentId));
      }
    }

    /** The "Submit Links" button: select the project and start from empty links. */
    method OpenSubmit(project: Row<Project>)
      requires CanSubmitLinks(project.cols)
      modifies this`selectedProject, this`submissionData
      ensures selectedProject == Some(project) && submissionData == BlankLinks
    {
      selectedProject := Some(project);
      submissionData := BlankLinks;
    }

    method SetLinks(l: Links)
      modifies this`submissionData
      ensures submissionData == l
    {
      submissionData := l;
    }

    method Cancel()
      modifies this`selectedProject
      ensures selectedProject.None?
    {
      selectedProject := None;
    }

    /** `handleSubmit`: update the selected project's row only, then clear the form
        whether or not the update went through, and reload. */
    method HandleSubmit(table: seq<Row<Project>>, updateFails: bool, now: string, reloadFails: bool)
      returns (table': seq<Row<Project>>)
      requires selectedProject.Some?
      modifies this`selectedProject, this`submissionData, this`projects
      ensures table' == if updateFails then table
                        else UpdateById(table, old(selectedProject).value.id, SubmitPatch(old(submissionData), now))
      ensures selectedProject.None? && submissionData == BlankLinks
      ensures projects == if reloadFails then old(projects) else Where(table', OwnedBy(studentId))
    {
      table' := table;
      if !updateFails {
        table' := UpdateById(table, selectedProject.value.id, SubmitPatch(submissionData, now));
      }
      selectedProject := None;
      submissionData := BlankLinks;
      LoadProjects(table', reloadFails);
    }
  }
}
