/** `DomainWrapper` and `ProjectWrapper` of caretaker/common.py: a domain of the
    identity service (keystone) with a cache of its projects, filled from a
    scrape or, on a miss, from the domain's own keystone client. The client is
    an abstract oracle here: a map from project id to what `projects.get`
    returns or raises. */
module Common {
  import opened Text
  import opened Outcomes

  /** The keystone exceptions the code names (`ke.BadRequest`, `ke.Unauthorized`,
      `ke.Forbidden`, `ke.NotFound`); `Other` is any remaining exception. */
  datatype KsError = BadRequest | Unauthorized | Forbidden | NotFound | Other

  /** The exceptions `_DomainHelper.get_domain` catches and moves on from. */
  predicate Handled(e: KsError)
  {
    !e.Other?
  }

  /** A project or domain object as the keystone client hands it out. */
  datatype KsProject = KsProject(id: string, name: string, enabled: bool)
  datatype KsDomain = KsDomain(id: string, name: string, enabled: bool)

  /** What `projects.get(project_id)` does: return a project or raise. */
  datatype ProjectLookup = Fetched(project: KsProject) | Raised(error: KsError)

  /** A domain-scoped keystone client, seen through `projects.get` only. */
  datatype KeystoneClient = KeystoneClient(projects: map<string, ProjectLookup>)

  /** `projects.get(project_id)`: ids the client does not know raise NotFound. */
  function FetchFrom(c: KeystoneClient, projectId: string): ProjectLookup
  {
    if projectId in c.projects then c.projects[projectId] else Raised(NotFound)
  }

  /** A client that answers for a project id with a project of that id. */
  predicate Honest(c: KeystoneClient, projectId: string)
  {
    FetchFrom(c, projectId).Fetched? ==> FetchFrom(c, projectId).project.id == projectId
  }

  // ---------------------------------------------------------------------------
  // ProjectWrapper

  /** `ProjectWrapper`: its fields are assigned once, right after construction. */
  datatype ProjectWrapper = ProjectWrapper(id: string, name: Option<string>, enabled: bool)

  /** `ProjectWrapper(project_id)`: the id kept, no name, disabled. */
  function NewProjectWrapper(projectId: string): (w: ProjectWrapper)
    ensures w.id == projectId && w.name == None && !w.enabled
  {
    ProjectWrapper(projectId, None, false)
  }

  /** An entry of a domain's project cache. The scrape stores wrappers, while
      `get_project` stores the raw keystone object it fetched. */
  datatype CachedProject = Wrapped(wrapper: ProjectWrapper) | Raw(project: KsProject)

  function IdOf(c: CachedProject): string
  {
    match c
    case Wrapped(w) => w.id
    case Raw(p) => p.id
  }

  function NameOf(c: CachedProject): Option<string>
  {
    match c
    case Wrapped(w) => w.name
    case Raw(p) => Some(p.name)
  }

  function EnabledOf(c: CachedProject): bool
  {
    match c
    case Wrapped(w) => w.enabled
    case Raw(p) => p.enabled
  }

  /** Every entry is filed under its own id, as `add_project` files them. */
  predicate Consistent(projects: map<string, CachedProject>)
  {
    forall k :: k in projects ==> IdOf(projects[k]) == k
  }

  // ---------------------------------------------------------------------------
  // DomainWrapper

  /** The value of `random.randint(0, 1000)`. */
  type Draw = n: nat | n <= 1000

  /** The id a `DomainWrapper` takes: keystone's `default` domain exists in
      every backend, so it is renamed apart with a random suffix. */
  function WrapperId(domainId: string, draw: Draw): string
  {
    if domainId == "default" then domainId + "_" + NatToString(draw) else domainId
  }

  /** The test `get_default_domain` applies to a cache key. */
  predicate StartsDefault(s: string)
  {
    "default_" <= s
  }

  /** The fields of one `DomainWrapper`, as a value. */
  datatype DomainView = DomainView(
    id: string, name: Option<string>, enabled: bool, backend: Option<string>,
    projects: map<string, CachedProject>, client: Option<KeystoneClient>)

  /** What one `get_project` call returns and leaves in the cache. */
  datatype ProjectAnswer = ProjectAnswer(found: Option<CachedProject>, projects: map<string, CachedProject>)

  /** `get_project(project_id)` on a domain whose cache is `projects` and whose
      client is `client`: a cache hit, else (with a client) a fetch whose raw
      result is cached under its own id while a fresh wrapper is returned; any
      exception gives None. */
  function FetchProject(projects: map<string, CachedProject>, client: Option<KeystoneClient>, projectId: string)
    : ProjectAnswer
  {
    if projectId in projects then ProjectAnswer(Some(projects[projectId]), projects)
    else if client.None? then ProjectAnswer(None, projects)
    else
      match FetchFrom(client.value, projectId)
      case Fetched(p) =>
        ProjectAnswer(Some(Wrapped(ProjectWrapper(p.id, Some(p.name), p.enabled))), projects[p.id := Raw(p)])
      case Raised(_) => ProjectAnswer(None, projects)
  }

  class DomainWrapper {
    const id: string
    var name: Option<string>
    var enabled: bool
    var backend: Option<string>
    var projects: map<string, CachedProject>
    var keystoneClient: Option<KeystoneClient>

    function View(): DomainView
      reads this
    {
      DomainView(id, name, enabled, backend, projects, keystoneClient)
    }

    /** `DomainWrapper(domain_id)`, with the random draw passed in. */
    constructor (domainId: string, draw: Draw)
      ensures id == WrapperId(domainId, draw)
      ensures name == None && !enabled && backend == None
      ensures projects == map[] && keystoneClient == None
    {
      var domainId' := domainId;
      if domainId == "default" {
        domainId' := domainId + "_" + NatToString(draw);
      }
      id := domainId';
      name := None;
      enabled := false;
      backend := None;
      projects := map[];
      keystoneClient := None;
    }

    /** `add_project(project)`: files the project under its id. */
    method AddProject(project: CachedProject)
      modifies this`projects
      ensures projects == old(projects)[IdOf(project) := project]
    {
      projects := projects[IdOf(project) := project];
    }

    /** `get_project(project_id)`. */
    method GetProject(projectId: string) returns (r: Option<CachedProject>)
      modifies this`projects
      ensures r == FetchProject(old(projects), keystoneClient, projectId).found
      ensures projects == FetchProject(old(projects), keystoneClient, projectId).projects
    {
      if projectId in projects {
        return Some(projects[projectId]);
      } else if keystoneClient.Some? {
        match FetchFrom(keystoneClient.value, projectId)
        case Fetched(project) =>
          var prj := NewProjectWrapper(project.id);
          prj := prj.(name := Some(project.name), enabled := project.enabled);
          AddProject(Raw(project));
          return Some(Wrapped(prj));
        case Raised(_) =>
          return None;
      }
      return None;
    }
  }

  // ---------------------------------------------------------------------------
  // Properties of the wrapper ids

  /** A renamed `default` domain gets `default_` followed by the decimal
      numeral of the draw, which reads back as a number from 0 to 1000;
      any other id is kept as it is. */
  lemma DefaultIdForm(domainId: string, draw: Draw)
    ensures var id := WrapperId(domainId, draw);
      (domainId != "default" ==> id == domainId)
      && (domainId == "default" ==>
            |id| > 8 && id[..8] == "default_" && IsDigits(id[8..]) && DecimalValue(id[8..]) == draw
            && DecimalValue(id[8..]) <= 1000)
  {
    if domainId == "default" {
      var id := WrapperId(domainId, draw);
      assert id[8..] == NatToString(draw);
      NatToStringValue(draw);
    }
  }

  /** The wrapper id passes the `default_` prefix test exactly when the
      domain is `default` or its id already passes it. */
  lemma WrapperIdStartsDefault(domainId: string, draw: Draw)
    ensures StartsDefault(WrapperId(domainId, draw)) <==> domainId == "default" || StartsDefault(domainId)
  {
    if domainId == "default" {
      assert WrapperId(domainId, draw)[..8] == "default_";
    } else {
      assert !StartsDefault("default");
    }
  }

  /** Two renamings of `default` collide only for equal draws. */
  lemma DefaultIdsApart(m: Draw, n: Draw)
    ensures WrapperId("default", m) == WrapperId("default", n) <==> m == n
  {
    if WrapperId("default", m) == WrapperId("default", n) {
      assert WrapperId("default", m)[8..] == NatToString(m);
      assert WrapperId("default", n)[8..] == NatToString(n);
      NatToStringInjective(m, n);
    }
  }

  // ---------------------------------------------------------------------------
  // Properties of `get_project`

  /** A cache hit returns the cached entry, leaves the cache alone and does not
      depend on the client at all. */
  lemma FetchHit(projects: map<string, CachedProject>, c1: Option<KeystoneClient>, c2: Option<KeystoneClient>,
                 projectId: string)
    requires projectId in projects
    ensures FetchProject(projects, c1, projectId) == FetchProject(projects, c2, projectId)
    ensures FetchProject(projects, c1, projectId).found == Some(projects[projectId])
    ensures FetchProject(projects, c1, projectId).projects == projects
  {
  }

  /** A project is found exactly when it is cached or the client returns it;
      whatever is not found leaves the cache untouched. */
  lemma FetchFound(projects: map<string, CachedProject>, client: Option<KeystoneClient>, projectId: string)
    ensures var a := FetchProject(projects, client, projectId);
      (a.found.Some? <==> projectId in projects || (client.Some? && FetchFrom(client.value, projectId).Fetched?))
      && (a.found.None? ==> a.projects == projects)
  {
  }

  /** A fetched project comes back as a wrapper with the backend's id, name and
      enabled flag; the cache gains the raw object under that id and nothing
      else changes. */
  lemma FetchStores(projects: map<string, CachedProject>, client: Option<KeystoneClient>, projectId: string)
    requires projectId !in projects && client.Some? && FetchFrom(client.value, projectId).Fetched?
    ensures var p, a := FetchFrom(client.value, projectId).project, FetchProject(projects, client, projectId);
      a.found == Some(Wrapped(ProjectWrapper(p.id, Some(p.name), p.enabled)))
      && a.projects.Keys == projects.Keys + {p.id}
      && a.projects[p.id] == Raw(p)
      && forall k :: k in projects && k != p.id ==> a.projects[k] == projects[k]
  {
  }

  /** `get_project` keeps every entry filed under its own id. */
  lemma FetchKeepsConsistent(projects: map<string, CachedProject>, client: Option<KeystoneClient>, projectId: string)
    requires Consistent(projects)
    ensures Consistent(FetchProject(projects, client, projectId).projects)
  {
  }

  /** After a fetch from a client that answers with the project asked for, a
      second `get_project` for it is a cache hit, whatever the client, and
      reports the same name and enabled flag as the first. */
  lemma FetchTwice(projects: map<string, CachedProject>, client: Option<KeystoneClient>,
                   later: Option<KeystoneClient>, projectId: string)
    requires client.Some? ==> Honest(client.value, projectId)
    ensures var first := FetchProject(projects, client, projectId);
      var second := FetchProject(first.projects, later, projectId);
      first.found.Some? ==>
        projectId in first.projects
        && second.projects == first.projects
        && second.found.Some?
        && IdOf(second.found.value) == IdOf(first.found.value)
        && NameOf(second.found.value) == NameOf(first.found.value)
        && EnabledOf(second.found.value) == EnabledOf(first.found.value)
  {
  }
}
