/** The projects screen: a list held entirely in local state, filtered by a
    search box and a status select, with add / edit / delete through dialogs. */
module ProjectsPage {
  import opened Wrappers
  import opened Types
  import opened Text
  import Lists

  /** The status select: 'all' or one project status. */
  datatype StatusFilter = All | Only(status: ProjectStatus)

  /** A project matches a search when its title, its description or one of
      its technologies contains the query, ignoring case. The query is used
      as typed, so the empty query matches every project. */
  predicate ProjectMatches(p: Project, query: string) {
    ContainsIgnoringCase(p.title, query)
    || ContainsIgnoringCase(p.description, query)
    || exists i :: 0 <= i < |p.techStack| && ContainsIgnoringCase(p.techStack[i], query)
  }

  /** A project passes the select when it is 'all' or names the project's status. */
  predicate StatusSelected(p: Project, filter: StatusFilter) {
    filter.All? || p.status == filter.status
  }

  /** `filteredProjects`: the projects matching both the search and the
      status select, in their original order. */
  function FilteredProjects(projects: seq<Project>, query: string, filter: StatusFilter): (r: seq<Project>)
    ensures Lists.SubsequenceOf(r, projects)
    ensures forall p :: p in r <==> p in projects && ProjectMatches(p, query) && StatusSelected(p, filter)
    ensures forall p :: multiset(r)[p] ==
                        (if ProjectMatches(p, query) && StatusSelected(p, filter) then multiset(projects)[p] else 0)
  {
    Lists.Filter(projects, p => ProjectMatches(p, query) && StatusSelected(p, filter))
  }

  /** With an empty search and 'all' selected, every project is shown, in order. */
  lemma NothingFilteredInitially(projects: seq<Project>)
    ensures FilteredProjects(projects, [], All) == projects
  {
    forall p | p in projects ensures ProjectMatches(p, []) {
      ContainsIgnoringCaseBasics(p.title);
    }
    Lists.FilterAllKept(projects, p => ProjectMatches(p, []) && StatusSelected(p, All));
  }

  /** A project is found by the name of any of its technologies. */
  lemma TechSearchFindsProject(projects: seq<Project>, p: Project, i: int)
    requires p in projects
    requires 0 <= i < |p.techStack|
    ensures p in FilteredProjects(projects, p.techStack[i], All)
  {
    ContainsIgnoringCaseBasics(p.techStack[i]);
  }

  /** `{...data, id, createdAt}`: the form's data under a new id and date. */
  function NewProject(data: ProjectData, id: string, createdAt: string): (p: Project)
    ensures DataOf(p) == data
    ensures p.id == id && p.createdAt == createdAt
  {
    Project(id, data.title, data.description, data.techStack, data.githubUrl, data.liveUrl,
            data.status, data.image, createdAt)
  }

  /** `{...p, ...data}`: the form's data over an existing project, whose id
      and creation date survive because the data carries neither. */
  function MergeEdit(p: Project, data: ProjectData): (r: Project)
    ensures DataOf(r) == data
    ensures r.id == p.id && r.createdAt == p.createdAt
  {
    p.(title := data.title, description := data.description, techStack := data.techStack,
       githubUrl := data.githubUrl, liveUrl := data.liveUrl, status := data.status, image := data.image)
  }

  /** Editing a project with its own data gives the project back. */
  lemma MergeOwnData(p: Project)
    ensures MergeEdit(p, DataOf(p)) == p
  {
  }

  function ProjectKey(p: Project): string { p.id }

  /** `projects.map(p => p.id === id ? {...p, ...data} : p)`. */
  function WithProjectEdited(projects: seq<Project>, id: string, data: ProjectData): (r: seq<Project>)
    ensures |r| == |projects|
    ensures forall i :: 0 <= i < |projects| && projects[i].id != id ==> r[i] == projects[i]
    ensures forall i :: 0 <= i < |projects| && projects[i].id == id ==> r[i] == MergeEdit(projects[i], data)
  {
    Lists.UpdateKey(projects, ProjectKey, id, p => MergeEdit(p, data))
  }

  /** `projects.filter(p => p.id !== id)`. */
  function WithoutProject(projects: seq<Project>, id: string): (r: seq<Project>)
    ensures Lists.SubsequenceOf(r, projects)
    ensures forall p :: p in r <==> p in projects && p.id != id
    ensures |r| == |projects| - Lists.CountKey(projects, ProjectKey, id)
  {
    Lists.RemoveKey(projects, ProjectKey, id)
  }

  /** Ids of the list are pairwise distinct. */
  predicate DistinctIds(projects: seq<Project>) {
    Lists.UniqueKeys(projects, ProjectKey)
  }

  /** Editing keeps every id where it was, so distinct ids stay distinct. */
  lemma {:induction false} EditKeepsDistinctIds(projects: seq<Project>, id: string, data: ProjectData)
    requires DistinctIds(projects)
    ensures DistinctIds(WithProjectEdited(projects, id, data))
    ensures forall i :: 0 <= i < |projects| ==> WithProjectEdited(projects, id, data)[i].id == projects[i].id
  {
    var r := WithProjectEdited(projects, id, data);
    forall i | 0 <= i < |projects| ensures r[i].id == projects[i].id {
      if projects[i].id == id {
        assert r[i] == MergeEdit(projects[i], data);
      }
    }
    forall i, j | 0 <= i < j < |r| ensures ProjectKey(r[i]) != ProjectKey(r[j]) {
      assert r[i].id == projects[i].id && r[j].id == projects[j].id;
    }
  }

  /** Deleting keeps the remaining ids distinct. */
  lemma DeleteKeepsDistinctIds(projects: seq<Project>, id: string)
    requires DistinctIds(projects)
    ensures DistinctIds(WithoutProject(projects, id))
  {
    var r := WithoutProject(projects, id);
    assert Lists.NoDuplicates(projects);
    Lists.SubsequenceNoDuplicates(r, projects);
    forall i, j | 0 <= i < j < |r| ensures ProjectKey(r[i]) != ProjectKey(r[j]) {
      Lists.SubsequenceMembers(r, projects);
      assert r[i] in projects && r[j] in projects;
      var a :| 0 <= a < |projects| && projects[a] == r[i];
      var b :| 0 <= b < |projects| && projects[b] == r[j];
      assert a != b;
    }
  }

  /** Prepending a project whose id is not yet used keeps the ids distinct. */
  lemma {:induction false} AddFreshKeepsDistinctIds(projects: seq<Project>, p: Project)
    requires DistinctIds(projects)
    requires forall q :: q in projects ==> q.id != p.id
    ensures DistinctIds([p] + projects)
  {
    var r := [p] + projects;
    forall i, j | 0 <= i < j < |r| ensures ProjectKey(r[i]) != ProjectKey(r[j]) {
      assert r[j] == projects[j - 1];
      if i > 0 {
        assert r[i] == projects[i - 1];
      }
    }
  }

  class Controller {
    var projects: seq<Project>
    var searchQuery: string
    var statusFilter: StatusFilter
    var isFormOpen: bool
    var editingProject: Option<Project>
    var deletingProject: Option<Project>

    /** The state cells as the screen first renders them, over the seed list. */
    constructor (seed: seq<Project>)
      ensures projects == seed
      ensures searchQuery == [] && statusFilter == All
      ensures !isFormOpen && editingProject == None && deletingProject == None
    {
      projects := seed;
      searchQuery := [];
      statusFilter := All;
      isFormOpen := false;
      editingProject := None;
      deletingProject := None;
    }

    /** The rows the table shows. */
    function Shown(): seq<Project>
      reads this
    {
      FilteredProjects(projects, searchQuery, statusFilter)
    }

    /** The form dialog is open while adding or while a project is being edited. */
    predicate FormDialogOpen()
      reads this
    {
      isFormOpen || editingProject.Some?
    }

    method SetSearchQuery(query: string)
      modifies this`searchQuery
      ensures searchQuery == query
    {
      searchQuery := query;
    }

    method SetStatusFilter(filter: StatusFilter)
      modifies this`statusFilter
      ensures statusFilter == filter
    {
      statusFilter := filter;
    }

    /** The Add Project button. */
    method OpenAddForm()
      modifies this`isFormOpen
      ensures isFormOpen && FormDialogOpen()
    {
      isFormOpen := true;
    }

    /** The pencil button of a row. */
    method StartEdit(p: Project)
      modifies this`editingProject
      ensures editingProject == Some(p) && FormDialogOpen()
    {
      editingProject := Some(p);
    }

    /** Cancelling or dismissing the form dialog clears both ways of opening it. */
    method CloseForm()
      modifies this`isFormOpen, this`editingProject
      ensures !isFormOpen && editingProject == None && !FormDialogOpen()
    {
      isFormOpen := false;
      editingProject := None;
    }

    /** The bin button of a row. */
    method StartDelete(p: Project)
      modifies this`deletingProject
      ensures deletingProject == Some(p)
    {
      deletingProject := Some(p);
    }

    /** Dismissing the confirmation dialog. */
    method CancelDelete()
      modifies this`deletingProject
      ensures deletingProject == None
    {
      deletingProject := None;
    }

    /** `handleAddProject`: the new project goes first and the add form closes.
        The id and the date (`Date.now()` and today) are parameters. */
    method HandleAddProject(data: ProjectData, id: string, createdAt: string) returns (notice: Notice)
      modifies this`projects, this`isFormOpen
      ensures projects == [NewProject(data, id, createdAt)] + old(projects)
      ensures !isFormOpen
      ensures notice == Ok("Project created successfully!", "")
      ensures old(DistinctIds(projects)) && (forall q :: q in old(projects) ==> q.id != id) ==> DistinctIds(projects)
    {
      if DistinctIds(projects) && forall q :: q in projects ==> q.id != id {
        AddFreshKeepsDistinctIds(projects, NewProject(data, id, createdAt));
      }
      projects := [NewProject(data, id, createdAt)] + projects;
      isFormOpen := false;
      notice := Ok("Project created successfully!", "");
    }

    /** `handleEditProject`: nothing happens unless a project is being edited;
        then every project with its id takes the form's data and editing ends. */
    method HandleEditProject(data: ProjectData) returns (notice: Notice)
      modifies this`projects, this`editingProject
      ensures old(editingProject).None? ==> projects == old(projects) && editingProject == None && notice == Silent
      ensures old(editingProject).Some? ==>
        projects == WithProjectEdited(old(projects), old(editingProject).value.id, data)
        && editingProject == None && notice == Ok("Project updated successfully!", "")
      ensures |projects| == |old(projects)|
      ensures old(DistinctIds(projects)) ==> DistinctIds(projects)
    {
      if editingProject.None? {
        return Silent;
      }
      if DistinctIds(projects) {
        EditKeepsDistinctIds(projects, editingProject.value.id, data);
      }
      projects := WithProjectEdited(projects, editingProject.value.id, data);
      editingProject := None;
      notice := Ok("Project updated successfully!", "");
    }

    /** The form's submit: it edits when a project is being edited and adds otherwise. */
    method SubmitProjectForm(data: ProjectData, id: string, createdAt: string) returns (notice: Notice)
      modifies this`projects, this`isFormOpen, this`editingProject
      ensures old(editingProject).None? ==> projects == [NewProject(data, id, createdAt)] + old(projects) && !isFormOpen
      ensures old(editingProject).Some? ==>
        projects == WithProjectEdited(old(projects), old(editingProject).value.id, data)
        && isFormOpen == old(isFormOpen)
      ensures editingProject == None
    {
      if editingProject.Some? {
        notice := HandleEditProject(data);
      } else {
        notice := HandleAddProject(data, id, createdAt);
      }
    }

    /** `handleDeleteProject`: nothing happens unless a project was selected;
        then every project with its id is removed and the dialog closes. */
    method HandleDeleteProject() returns (notice: Notice)
      modifies this`projects, this`deletingProject
      ensures old(deletingProject).None? ==> projects == old(projects) && deletingProject == None && notice == Silent
      ensures old(deletingProject).Some? ==>
        projects == WithoutProject(old(projects), old(deletingProject).value.id)
        && deletingProject == None && notice == Ok("Project deleted successfully!", "")
      ensures old(DistinctIds(projects)) ==> DistinctIds(projects)
    {
      if deletingProject.None? {
        return Silent;
      }
      if DistinctIds(projects) {
        DeleteKeepsDistinctIds(projects, deletingProject.value.id);
      }
      projects := WithoutProject(projects, deletingProject.value.id);
      deletingProject := None;
      notice := Ok("Project deleted successfully!", "");
    }
  }

  /** Deleting a listed project from a list with distinct ids removes exactly that one row. */
  lemma DeleteListedProject(projects: seq<Project>, p: Project)
    requires DistinctIds(projects)
    requires p in projects
    ensures |WithoutProject(projects, p.id)| == |projects| - 1
    ensures p !in WithoutProject(projects, p.id)
  {
    Lists.RemoveUniqueKey(projects, ProjectKey, p.id);
  }
}
