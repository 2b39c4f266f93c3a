/** `_DomainHelper` of caretaker/accounts.py: the cache of domain wrappers
    shared by every helper, and the two lookups over it. The keystone
    endpoints of the backends are an abstract oracle: a map from domain id to
    what `domains.get` returns or raises. */
module DomainCache {
  import opened Text
  import opened Outcomes
  import opened Common

  // ---------------------------------------------------------------------------
  // The endpoints

  /** What `domains.get(domain_id)` on one endpoint does: return the domain,
      together with the endpoint's backend name and its domain-scoped client,
      or raise. */
  datatype DomainLookup = Reached(domain: KsDomain, backend: string, client: KeystoneClient) | Refused(error: KsError)

  datatype Endpoint = Endpoint(domains: map<string, DomainLookup>)

  /** Domain ids an endpoint does not know raise NotFound. */
  function LookupAt(e: Endpoint, domainId: string): DomainLookup
  {
    if domainId in e.domains then e.domains[domainId] else Refused(NotFound)
  }

  // ---------------------------------------------------------------------------
  // The domain cache, as a value

  /** The shared `domains` dictionary: its keys in insertion order, and the
      fields of the wrapper under each key. */
  datatype HelperView = HelperView(order: seq<string>, domains: map<string, DomainView>)

  /** Every key is listed once, in order, and names the wrapper filed under it. */
  ghost predicate HelperOk(h: HelperView)
  {
    (forall k :: k in h.domains <==> k in h.order)
    && (forall i, j :: 0 <= i < j < |h.order| ==> h.order[i] != h.order[j])
    && (forall k :: k in h.domains ==> h.domains[k].id == k)
  }

  /** `self.domains[dom.id] = dom`: a new key goes last, an old key keeps its place. */
  function Store(h: HelperView, v: DomainView): (r: HelperView)
    requires HelperOk(h)
    ensures HelperOk(r)
    ensures v.id in r.domains && r.domains[v.id] == v
    ensures forall k :: k in h.domains && k != v.id ==> k in r.domains && r.domains[k] == h.domains[k]
    ensures r.domains.Keys == h.domains.Keys + {v.id}
    ensures h.order <= r.order && |r.order| <= |h.order| + 1
  {
    HelperView(if v.id in h.domains then h.order else h.order + [v.id], h.domains[v.id := v])
  }

  /** The wrapper `get_domain` builds for a domain an endpoint returned. */
  function Wrap(d: KsDomain, backend: string, client: KeystoneClient, draw: Draw): DomainView
  {
    DomainView(WrapperId(d.id, draw), Some(d.name), d.enabled, Some(backend), map[], Some(client))
  }

  /** The answer of a lookup: the key of the domain found, and the cache after it. */
  datatype DomainAnswer = DomainAnswer(found: Option<string>, helper: HelperView)

  /** The loop of `get_domain` over the endpoints from the first one on: the
      first that returns the domain has it wrapped and cached; the four
      handled exceptions move on to the next endpoint; any other escapes. */
  function Probe(h: HelperView, endpoints: seq<Endpoint>, domainId: string, draw: Draw): (r: Result<DomainAnswer, KsError>)
    requires HelperOk(h)
    ensures r.Success? ==> HelperOk(r.value.helper)
    ensures r.Success? && r.value.found.Some? ==> r.value.found.value in r.value.helper.domains
    decreases |endpoints|
  {
    if endpoints == [] then Success(DomainAnswer(None, h))
    else
      match LookupAt(endpoints[0], domainId)
      case Reached(d, backend, client) =>
        var v := Wrap(d, backend, client, draw);
        Success(DomainAnswer(Some(v.id), Store(h, v)))
      case Refused(e) =>
        if Handled(e) then Probe(h, endpoints[1..], domainId, draw) else Failure(e)
  }

  /** `get_domain(domain_id)`: the cached wrapper on a hit, else the endpoints in order. */
  function GetDomainOf(h: HelperView, endpoints: seq<Endpoint>, domainId: string, draw: Draw)
    : (r: Result<DomainAnswer, KsError>)
    requires HelperOk(h)
    ensures r.Success? ==> HelperOk(r.value.helper)
    ensures r.Success? && r.value.found.Some? ==> r.value.found.value in r.value.helper.domains
  {
    if domainId in h.domains then Success(DomainAnswer(Some(domainId), h))
    else Probe(h, endpoints, domainId, draw)
  }

  /** The keys that pass the `default_` prefix test, in insertion order. */
  function DefaultKeys(order: seq<string>): (keys: seq<string>)
    ensures forall k :: k in keys <==> k in order && StartsDefault(k)
  {
    if order == [] then []
    else (if StartsDefault(order[0]) then [order[0]] else []) + DefaultKeys(order[1..])
  }

  /** `get_project` on the wrapper under `key`. */
  function FetchAt(h: HelperView, key: string, projectId: string): ProjectAnswer
    requires key in h.domains
  {
    FetchProject(h.domains[key].projects, h.domains[key].client, projectId)
  }

  /** The cache with the wrapper under `key` given a new project cache. */
  function SetProjects(h: HelperView, key: string, projects: map<string, CachedProject>): (r: HelperView)
    requires key in h.domains
    ensures r.order == h.order && r.domains.Keys == h.domains.Keys
    ensures HelperOk(h) ==> HelperOk(r)
  {
    HelperView(h.order, h.domains[key := h.domains[key].(projects := projects)])
  }

  /** The loop of `get_default_domain` over the wrappers under `keys`: each is
      asked for the project, and the first that has it is the answer. */
  function ScanDefaults(h: HelperView, keys: seq<string>, projectId: string): (r: DomainAnswer)
    requires forall k :: k in keys ==> k in h.domains
    ensures r.helper.order == h.order && r.helper.domains.Keys == h.domains.Keys
    ensures r.found.Some? ==> r.found.value in keys
    decreases |keys|
  {
    if keys == [] then DomainAnswer(None, h)
    else
      var a := FetchAt(h, keys[0], projectId);
      var h' := SetProjects(h, keys[0], a.projects);
      if a.found.Some? then DomainAnswer(Some(keys[0]), h')
      else ScanDefaults(h', keys[1..], projectId)
  }

  /** `get_default_domain(project_id)`. */
  function GetDefaultOf(h: HelperView, projectId: string): (r: DomainAnswer)
    requires HelperOk(h)
    ensures HelperOk(r.helper)
    ensures r.found.Some? ==> r.found.value in r.helper.domains && StartsDefault(r.found.value)
  {
    ScanFinds(h, DefaultKeys(h.order), projectId);
    ScanDefaults(h, DefaultKeys(h.order), projectId)
  }

  // ---------------------------------------------------------------------------
  // Properties of `get_domain`

  /** A cache hit returns the cached wrapper without trying any endpoint: the
      answer depends neither on the endpoints nor on the draw. */
  lemma GetDomainHit(h: HelperView, e1: seq<Endpoint>, e2: seq<Endpoint>, domainId: string, d1: Draw, d2: Draw)
    requires HelperOk(h) && domainId in h.domains
    ensures GetDomainOf(h, e1, domainId, d1) == GetDomainOf(h, e2, domainId, d2)
    ensures GetDomainOf(h, e1, domainId, d1) == Success(DomainAnswer(Some(domainId), h))
  {
  }

  /** An endpoint that raises one of the four handled exceptions for the domain. */
  predicate Passes(e: Endpoint, domainId: string)
  {
    LookupAt(e, domainId).Refused? && Handled(LookupAt(e, domainId).error)
  }

  /** The position of the first endpoint that does not pass: the one that
      decides the lookup, or the end of the list. */
  function FirstStop(endpoints: seq<Endpoint>, domainId: string): (j: nat)
    ensures j <= |endpoints|
    ensures forall i :: 0 <= i < j ==> Passes(endpoints[i], domainId)
    ensures j < |endpoints| ==> !Passes(endpoints[j], domainId)
  {
    if endpoints == [] then 0
    else if Passes(endpoints[0], domainId) then 1 + FirstStop(endpoints[1..], domainId)
    else 0
  }

  /** The first endpoint that does not raise a handled exception decides the
      lookup: a domain it returns is wrapped, cached under the wrapper's id and
      returned; an exception it raises escapes. When every endpoint raises a
      handled exception the lookup finds nothing and the cache is unchanged. */
  lemma {:induction false} ProbeDecided(h: HelperView, endpoints: seq<Endpoint>, domainId: string, draw: Draw)
    requires HelperOk(h)
    ensures var j := FirstStop(endpoints, domainId);
      var r := Probe(h, endpoints, domainId, draw);
      (j == |endpoints| ==> r == Success(DomainAnswer(None, h)))
      && (j < |endpoints| && LookupAt(endpoints[j], domainId).Reached? ==>
            var l := LookupAt(endpoints[j], domainId);
            var v := Wrap(l.domain, l.backend, l.client, draw);
            r == Success(DomainAnswer(Some(v.id), Store(h, v))))
      && (j < |endpoints| && LookupAt(endpoints[j], domainId).Refused? ==>
            r == Failure(LookupAt(endpoints[j], domainId).error) && !Handled(r.error))
  {
    if endpoints != [] && Passes(endpoints[0], domainId) {
      ProbeDecided(h, endpoints[1..], domainId, draw);
      var j := FirstStop(endpoints[1..], domainId);
      if j < |endpoints| - 1 {
        assert endpoints[1..][j] == endpoints[j + 1];
      }
    }
  }

  /** No wrapper is ever filed under `default` itself, since that id is renamed. */
  lemma WrapperIdNotDefault(domainId: string, draw: Draw)
    ensures WrapperId(domainId, draw) != "default"
  {
    if domainId == "default" {
      assert |WrapperId(domainId, draw)| > |"default"|;
    }
  }

  /** A cache without a `default` key never gains one, so `get_domain('default')`
      always goes to the endpoints, and each success files one more randomly
      named copy. */
  lemma {:induction false} DefaultAlwaysProbes(h: HelperView, endpoints: seq<Endpoint>, draw: Draw)
    requires HelperOk(h) && "default" !in h.domains
    ensures GetDomainOf(h, endpoints, "default", draw) == Probe(h, endpoints, "default", draw)
    ensures Probe(h, endpoints, "default", draw).Success? ==>
      "default" !in Probe(h, endpoints, "default", draw).value.helper.domains
  {
    if endpoints != [] {
      match LookupAt(endpoints[0], "default")
      case Reached(d, backend, client) =>
        WrapperIdNotDefault(d.id, draw);
      case Refused(e) =>
        DefaultAlwaysProbes(h, endpoints[1..], draw);
    }
  }

  // ---------------------------------------------------------------------------
  // Properties of `get_default_domain`

  /** The position of the first of `keys` whose wrapper has the project, or
      the end of the list. */
  function FirstHolder(h: HelperView, keys: seq<string>, projectId: string): (j: nat)
    requires forall k :: k in keys ==> k in h.domains
    ensures j <= |keys|
    ensures forall i :: 0 <= i < j ==> FetchAt(h, keys[i], projectId).found.None?
    ensures j < |keys| ==> FetchAt(h, keys[j], projectId).found.Some?
  {
    if keys == [] then 0
    else if FetchAt(h, keys[0], projectId).found.None? then 1 + FirstHolder(h, keys[1..], projectId)
    else 0
  }

  /** The scan answers with the first of `keys` whose wrapper has the project,
      whose project cache takes the one `get_project` leaves; wrappers that lack
      the project are left as they were, so when none has it the cache is
      unchanged. */
  lemma {:induction false} ScanFinds(h: HelperView, keys: seq<string>, projectId: string)
    requires forall k :: k in keys ==> k in h.domains
    ensures var j, r := FirstHolder(h, keys, projectId), ScanDefaults(h, keys, projectId);
      (j == |keys| ==> r == DomainAnswer(None, h))
      && (j < |keys| ==> r == DomainAnswer(Some(keys[j]), SetProjects(h, keys[j], FetchAt(h, keys[j], projectId).projects)))
  {
    if keys != [] {
      var a := FetchAt(h, keys[0], projectId);
      if a.found.None? {
        FetchFound(h.domains[keys[0]].projects, h.domains[keys[0]].client, projectId);
        assert SetProjects(h, keys[0], a.projects) == h;
        ScanFinds(h, keys[1..], projectId);
        var j := FirstHolder(h, keys[1..], projectId);
        if j < |keys| - 1 {
          assert keys[1..][j] == keys[j + 1];
        }
      }
    }
  }

  /** When `get_default_domain` finds nothing, no cached `default_` wrapper has
      the project and the cache is unchanged; when it finds a wrapper, its key
      passes the prefix test and it has the project. */
  lemma GetDefaultFinds(h: HelperView, projectId: string)
    requires HelperOk(h)
    ensures var r := GetDefaultOf(h, projectId);
      (r.found.None? ==>
         r.helper == h && forall k :: k in h.domains && StartsDefault(k) ==> FetchAt(h, k, projectId).found.None?)
      && (r.found.Some? ==>
            StartsDefault(r.found.value) && r.found.value in h.domains && FetchAt(h, r.found.value, projectId).found.Some?)
  {
    var keys := DefaultKeys(h.order);
    ScanFinds(h, keys, projectId);
    var j := FirstHolder(h, keys, projectId);
    if j == |keys| {
      forall k | k in h.domains && StartsDefault(k)
        ensures FetchAt(h, k, projectId).found.None?
      {
        assert k in keys;
        var i :| 0 <= i < |keys| && keys[i] == k;
      }
    }
  }

  // ---------------------------------------------------------------------------
  // The imperative code

  /** `_DomainHelper`, reduced to its `domains` dictionary. That dictionary is a
      class attribute in the source, so one object here stands for the
      dictionary every helper shares; `order` keeps its insertion order. */
  class DomainHelper {
    var domains: map<string, DomainWrapper>
    var order: seq<string>

    ghost predicate Valid()
      reads this
    {
      (forall k :: k in domains <==> k in order)
      && (forall i, j :: 0 <= i < j < |order| ==> order[i] != order[j])
      && (forall k :: k in domains ==> domains[k].id == k)
    }

    ghost function View(): (v: HelperView)
      reads this, domains.Values
      requires Valid()
      ensures HelperOk(v)
    {
      HelperView(order, ViewsOf(domains))
    }

    /** An empty cache; the scrape that fills it in the source is not modelled. */
    constructor ()
      ensures Valid() && View() == HelperView([], map[])
    {
      domains := map[];
      order := [];
    }

    /** `self.domains[dom.id] = dom`, as `_scrape` and `get_domain` do it. */
    method Register(dom: DomainWrapper)
      requires Valid()
      modifies this
      ensures Valid()
      ensures domains == old(domains)[dom.id := dom]
      ensures View() == Store(old(View()), dom.View())
    {
      ghost var m0 := domains;
      ghost var views0 := ViewsOf(m0);
      if dom.id !in domains {
        order := order + [dom.id];
      }
      domains := domains[dom.id := dom];
      assert ViewsOf(m0) == views0;
      ViewsUpdate(m0, dom.id, dom);
    }

    /** `get_domain(domain_id)`, with the random draw its new wrapper may take. */
    method GetDomain(domainId: string, endpoints: seq<Endpoint>, draw: Draw)
      returns (r: Result<Option<DomainWrapper>, KsError>)
      requires Valid()
      modifies this
      ensures Valid()
      ensures forall k :: k in domains ==> (k in old(domains) && domains[k] == old(domains[k])) || fresh(domains[k])
      ensures r.Success? == GetDomainOf(old(View()), endpoints, domainId, draw).Success?
      ensures r.Failure? ==>
        r.error == GetDomainOf(old(View()), endpoints, domainId, draw).error && View() == old(View())
      ensures r.Success? ==> View() == GetDomainOf(old(View()), endpoints, domainId, draw).value.helper
      ensures r.Success? ==> (r.value.Some? <==> GetDomainOf(old(View()), endpoints, domainId, draw).value.found.Some?)
      ensures r.Success? && r.value.Some? ==>
        var key := GetDomainOf(old(View()), endpoints, domainId, draw).value.found.value;
        key in domains && domains[key] == r.value.value
    {
      ghost var start := View();
      if domainId in domains {
        return Success(Some(domains[domainId]));
      }
      for i := 0 to |endpoints|
        invariant domains == old(domains) && order == old(order)
        invariant View() == start
        invariant Probe(start, endpoints, domainId, draw) == Probe(start, endpoints[i..], domainId, draw)
      {
        assert endpoints[i..][0] == endpoints[i] && endpoints[i..][1..] == endpoints[i + 1..];
        match LookupAt(endpoints[i], domainId)
        case Reached(domain, backend, kclnt) =>
          var dom := NewWrapper(domain, backend, kclnt, draw);
          assert View() == start;
          Register(dom);
          return Success(Some(dom));
        case Refused(e) =>
          if !Handled(e) {
            return Failure(e);
          }
      }
      return Success(None);
    }

    /** `get_project` on the wrapper under `key`, seen from the cache: only
        that wrapper's project cache changes. */
    method AskProject(key: string, projectId: string) returns (r: Option<CachedProject>)
      requires Valid() && key in domains
      modifies domains[key]
      ensures Valid() && domains == old(domains) && order == old(order)
      ensures r == FetchAt(old(View()), key, projectId).found
      ensures View() == SetProjects(old(View()), key, FetchAt(old(View()), key, projectId).projects)
    {
      var dom := domains[key];
      ghost var v := View();
      ghost var rest := domains - {key};
      ghost var restViews := ViewsOf(rest);
      ghost var after := dom.View().(projects := FetchAt(v, key, projectId).projects);
      ViewsSplit(domains, key);
      SetProjectsSplit(v, key, restViews, FetchAt(v, key, projectId).projects);
      RestApart(domains, key);
      r := dom.GetProject(projectId);
      assert dom.View() == after;
      assert ViewsOf(rest) == restViews;
      ViewsSplit(domains, key);
    }

    /** `get_default_domain(project_id)`. */
    method GetDefaultDomain(projectId: string) returns (r: Option<DomainWrapper>)
      requires Valid()
      modifies domains.Values
      ensures Valid() && domains == old(domains) && order == old(order)
      ensures View() == GetDefaultOf(old(View()), projectId).helper
      ensures r.Some? <==> GetDefaultOf(old(View()), projectId).found.Some?
      ensures r.Some? ==>
        var key := GetDefaultOf(old(View()), projectId).found.value;
        key in domains && domains[key] == r.value
    {
      var keys := DefaultKeys(order);
      ghost var answer := GetDefaultOf(View(), projectId);
      assert answer == ScanDefaults(View(), keys, projectId);
      for i := 0 to |keys|
        invariant Valid() && domains == old(domains) && order == old(order)
        invariant answer == ScanDefaults(View(), keys[i..], projectId)
      {
        assert keys[i..][0] == keys[i] && keys[i..][1..] == keys[i + 1..];
        ghost var before := View();
        var found := AskProject(keys[i], projectId);
        if found.Some? {
          assert answer == DomainAnswer(Some(keys[i]), View()) by {
            assert answer == ScanDefaults(before, keys[i..], projectId);
          }
          return Some(domains[keys[i]]);
        }
      }
      assert answer == DomainAnswer(None, View()) by {
        assert keys[|keys|..] == [];
      }
      return None;
    }
  }

  /** The wrapper `get_domain` builds for a domain an endpoint returned: a
      `DomainWrapper(domain.id)` given the domain's name and enabled flag, the
      endpoint's backend and its domain-scoped client. */
  method NewWrapper(domain: KsDomain, backend: string, client: KeystoneClient, draw: Draw)
    returns (dom: DomainWrapper)
    ensures fresh(dom)
    ensures dom.View() == Wrap(domain, backend, client, draw)
  {
    dom := new DomainWrapper(domain.id, draw);
    dom.name := Some(domain.name);
    dom.enabled := domain.enabled;
    dom.backend := Some(backend);
    dom.keystoneClient := Some(client);
  }

  /** The fields of every wrapper in a dictionary of them. */
  ghost function ViewsOf(m: map<string, DomainWrapper>): (r: map<string, DomainView>)
    reads m.Values
    ensures r.Keys == m.Keys
  {
    map k | k in m :: m[k].View()
  }

  /** The entry under `key` is the fields of the wrapper filed there. */
  lemma ViewsAt(m: map<string, DomainWrapper>, key: string)
    requires key in m
    ensures ViewsOf(m)[key] == m[key].View()
  {
  }

  /** The fields of a dictionary of wrappers are those of the entry under `key`
      together with those of all the others. */
  lemma ViewsSplit(m: map<string, DomainWrapper>, key: string)
    requires key in m
    ensures ViewsOf(m) == ViewsOf(m - {key})[key := m[key].View()]
  {
    assert ViewsOf(m).Keys == ViewsOf(m - {key})[key := m[key].View()].Keys;
  }

  /** Setting the projects of the entry under `key` leaves the others alone. */
  lemma SetProjectsSplit(h: HelperView, key: string, rest: map<string, DomainView>,
                         projects: map<string, CachedProject>)
    requires key in h.domains && h.domains == rest[key := h.domains[key]]
    ensures SetProjects(h, key, projects) == HelperView(h.order, rest[key := h.domains[key].(projects := projects)])
  {
    var d := h.domains[key].(projects := projects);
    assert h.domains[key := d] == rest[key := d];
  }

  /** In a dictionary that files each wrapper under its id, the entry under
      `key` is none of the others. */
  lemma RestApart(m: map<string, DomainWrapper>, key: string)
    requires key in m
    requires forall k :: k in m ==> m[k].id == k
    ensures m[key] !in (m - {key}).Values
  {
  }

  /** Filing a wrapper files its fields. */
  lemma ViewsUpdate(m: map<string, DomainWrapper>, key: string, d: DomainWrapper)
    ensures ViewsOf(m[key := d]) == ViewsOf(m)[key := d.View()]
  {
    assert ViewsOf(m[key := d]).Keys == ViewsOf(m)[key := d.View()].Keys;
  }

}
