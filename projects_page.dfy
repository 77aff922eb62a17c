/**
 * The dashboard's projects table: the search filter over title, role,
 * description and tools, and the local list update after a delete, given
 * the server's answer. `processing` names the project being deleted.
 */
module ProjectsPage {
  import opened Options
  import opened Lists
  import opened Search

  datatype Project = Project(
    id: string,
    title: string,
    description: string,
    role: string,
    tools: seq<string>,
    summary: string,
    outcome: string,
    imageUrl: Option<string>,
    githubUrl: Option<string>,
    liveUrl: Option<string>,
    createdAt: string,
    updatedAt: string)

  /** The search test of one project. */
  predicate ProjectMatches(p: Project, search: string)
  {
    Matches(p.title, search) || Matches(p.role, search) || Matches(p.description, search) || SomeMatches(p.tools, search)
  }

  /** `filteredProjects`. */
  function FilteredProjects(projects: seq<Project>, search: string): seq<Project>
  {
    Filter(projects, p => ProjectMatches(p, search))
  }

  /** A project is shown iff the search matches its title, role,
      description or one of its tools, ignoring case; order is kept. */
  lemma FilteredProjectsSpec(projects: seq<Project>, search: string)
    ensures forall k :: 0 <= k < |FilteredProjects(projects, search)| ==> ProjectMatches(FilteredProjects(projects, search)[k], search)
    ensures forall k :: 0 <= k < |projects| && ProjectMatches(projects[k], search) ==> projects[k] in FilteredProjects(projects, search)
    ensures IsSubsequence(FilteredProjects(projects, search), projects)
  {
    FilterIsSubsequence(projects, p => ProjectMatches(p, search));
  }

  /** The empty search shows every project. */
  lemma EmptySearchShowsAll(projects: seq<Project>)
    ensures FilteredProjects(projects, "") == projects
  {
    forall k | 0 <= k < |projects| ensures ProjectMatches(projects[k], "") {
      EmptySearchMatches(projects[k].title);
    }
    FilterAll(projects, p => ProjectMatches(p, ""));
  }

  /** The list after a successful delete. */
  function WithoutProject(projects: seq<Project>, id: string): seq<Project>
  {
    Filter(projects, (p: Project) => p.id != id)
  }

  /** A delete removes exactly the projects with that id, keeping the order of the rest. */
  lemma WithoutProjectSpec(projects: seq<Project>, id: string)
    ensures forall k :: 0 <= k < |WithoutProject(projects, id)| ==> WithoutProject(projects, id)[k].id != id
    ensures forall k :: 0 <= k < |projects| && projects[k].id != id ==> projects[k] in WithoutProject(projects, id)
    ensures IsSubsequence(WithoutProject(projects, id), projects)
  {
    FilterIsSubsequence(projects, (p: Project) => p.id != id);
  }

  class Page {
    var projects: seq<Project>
    var processing: Option<string>

    constructor ()
      ensures projects == [] && processing == None
    {
      projects, processing := [], None;
    }

    /** The fetch effect, when the response is ok. */
    method Loaded(data: seq<Project>)
      modifies this`projects
      ensures projects == data
    {
      projects := data;
    }

    /** `deleteProject` up to its request: a declined confirmation stops
        it; otherwise the project is marked as processing. */
    method BeginDelete(id: string, confirmed: bool) returns (started: bool)
      modifies this`processing
      ensures started == confirmed
      ensures confirmed ==> processing == Some(id)
      ensures !confirmed ==> processing == old(processing)
    {
      started := confirmed;
      if confirmed {
        processing := Some(id);
      }
    }

    /** `deleteProject` after its request: an ok response removes the
        project, a failed one leaves the list alone; either way nothing is
        processing any more. */
    method FinishDelete(id: string, ok: bool)
      modifies this
      ensures ok ==> projects == WithoutProject(old(projects), id)
      ensures !ok ==> projects == old(projects)
      ensures processing == None
    {
      if ok {
        projects := WithoutProject(projects, id);
      }
      processing := None;
    }
  }
}
