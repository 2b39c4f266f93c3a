/** `verify` of caretaker/accounts.py: each merged account is looked up in
    keystone, through the domain cache of `_DomainHelper`, and marked DELETED,
    VALID, INVALID or ORPHAN, or left `_unknown`. The scrape that fills the
    cache is not modelled; the cache a run starts from is an input. */
module AccountVerify {
  import opened Text
  import opened Outcomes
  import opened AccountCodec
  import opened Common
  import opened DomainCache
  import AccountMerge

  // ---------------------------------------------------------------------------
  // One account

  /** How an account moves the counters of `verify`. */
  datatype Tally = CountsValid | CountsDeleted | CountsNothing

  /** An account after the loop body, with the cache and the counter it moved. */
  datatype Checked = Checked(account: Account, helper: HelperView, tally: Tally)

  /** Python's value of an optional attribute. */
  function OptValue(o: Option<string>): Value
  {
    match o
    case Some(s) => Str(s)
    case None => Null
  }

  /** How `verify` resolves an account's domain: `get_domain`, and when it finds
      nothing, `get_default_domain` for the account's project. */
  function Resolve(h: HelperView, endpoints: seq<Endpoint>, domainId: string, projectId: string, draw: Draw)
    : (r: Result<DomainAnswer, KsError>)
    requires HelperOk(h)
    ensures r.Success? ==> HelperOk(r.value.helper)
    ensures r.Success? && r.value.found.Some? ==> r.value.found.value in r.value.helper.domains
  {
    match GetDomainOf(h, endpoints, domainId, draw)
    case Failure(e) => Failure(e)
    case Success(direct) =>
      if direct.found.Some? then Success(direct) else Success(GetDefaultOf(direct.helper, projectId))
  }

  /** The classification in `verify`'s loop body, for an account whose domain
      resolved to `dom` and whose `get_project` there returned `found`: the
      domain's name and backend are copied; a project found gives its name and VALID when the domain and the
      project are both enabled, INVALID otherwise; no project gives ORPHAN. The
      test of `status_deleted` repeated on the ORPHAN branch always holds there,
      as deleted accounts were dealt with first. */
  function Classify(a: Account, dom: DomainView, found: Option<CachedProject>): (Account, Tally)
  {
    var named := a["domain_name" := OptValue(dom.name)]["backend" := OptValue(dom.backend)];
    match found
    case None => (named["status" := Str(StatusOrphan)], CountsNothing)
    case Some(p) =>
      var listed := named["project_name" := OptValue(NameOf(p))];
      if dom.enabled && EnabledOf(p) then (listed["status" := Str(StatusValid)], CountsValid)
      else (listed["status" := Str(StatusInvalid)], CountsNothing)
  }

  /** The body of the second loop of `verify` for one account: DELETED first,
      then an `_unknown` domain id skipped, then the domain resolved and the
      project looked up in it. */
  function Check(a: Account, h: HelperView, endpoints: seq<Endpoint>, draw: Draw): (r: Result<Checked, KsError>)
    requires HelperOk(h)
    requires "status_deleted" in a && "domain_id" in a && "project_id" in a
    ensures r.Success? ==> HelperOk(r.value.helper)
  {
    if a["status_deleted"] == Str("True") then
      Success(Checked(a["status" := Str(StatusDeleted)], h, CountsDeleted))
    else if a["domain_id"] == Str(StatusUnknown) then
      Success(Checked(a, h, CountsNothing))
    else
      var projectId := Render(a["project_id"]);
      match Resolve(h, endpoints, Render(a["domain_id"]), projectId, draw)
      case Failure(e) => Failure(e)
      case Success(res) =>
        if res.found.None? then Success(Checked(a, res.helper, CountsNothing))
        else
          var key := res.found.value;
          var p := FetchAt(res.helper, key, projectId);
          var classified := Classify(a, res.helper.domains[key], p.found);
          Success(Checked(classified.0, SetProjects(res.helper, key, p.projects), classified.1))
  }

  // ---------------------------------------------------------------------------
  // The whole of `verify`

  /** The priming in `verify`'s first loop: every added field set to `_unknown`. */
  function PrimeWith(a: Account, fields: seq<string>): Account
  {
    if fields == [] then a
    else PrimeWith(a, fields[..|fields| - 1])[fields[|fields| - 1] := Str(StatusUnknown)]
  }

  /** The first loop of `verify`: every nonempty line rebuilt by `_construct`,
      with the added fields set to `_unknown`; `IndexError` from a short line. */
  function ParseAll(lines: seq<string>): (r: Result<seq<Account>, CodecError>)
  {
    if lines == [] then Success([])
    else
      match ParseAll(lines[..|lines| - 1])
      case Failure(e) => Failure(e)
      case Success(accounts) =>
        var line := lines[|lines| - 1];
        if line == [] then Success(accounts)
        else
          match ConstructOf(line)
          case Failure(e) => Failure(e)
          case Success(a) => Success(accounts + [PrimeWith(a, AddAccountFields)])
  }

  /** What the loop of `verify` has done after some accounts. */
  datatype Progress = Progress(accounts: seq<Account>, helper: HelperView, valid: nat, deleted: nat)

  /** An exception that escaped `get_domain`, and the cache it left behind. */
  datatype Raise = Raise(error: KsError, helper: HelperView)

  predicate Checkable(accounts: seq<Account>)
  {
    forall k :: 0 <= k < |accounts| ==>
      "status_deleted" in accounts[k] && "domain_id" in accounts[k] && "project_id" in accounts[k]
  }

  /** One pass of the second loop of `verify`, given what the loop body did
      with the account: the checked account appended and the counter it names
      moved, or the exception raised with the cache as it was. */
  function Advance(p: Progress, c: Result<Checked, KsError>): (r: Result<Progress, Raise>)
    ensures r.Success? <==> c.Success?
    ensures r.Success? ==> r.value.accounts == p.accounts + [c.value.account] && r.value.helper == c.value.helper
    ensures r.Failure? ==> r.error == Raise(c.error, p.helper)
  {
    match c
    case Failure(e) => Failure(Raise(e, p.helper))
    case Success(c) =>
      Success(Progress(p.accounts + [c.account], c.helper,
                       if c.tally == CountsValid then p.valid + 1 else p.valid,
                       if c.tally == CountsDeleted then p.deleted + 1 else p.deleted))
  }

  /** The second loop of `verify`, the `k`-th account with the random draw `draw(k)`. */
  function CheckAll(accounts: seq<Account>, h: HelperView, endpoints: seq<Endpoint>, draw: nat -> Draw)
    : (r: Result<Progress, Raise>)
    requires HelperOk(h) && Checkable(accounts)
    ensures r.Success? ==> HelperOk(r.value.helper) && |r.value.accounts| == |accounts|
    ensures r.Failure? ==> HelperOk(r.error.helper)
  {
    if accounts == [] then Success(Progress([], h, 0, 0))
    else
      var n := |accounts| - 1;
      match CheckAll(accounts[..n], h, endpoints, draw)
      case Failure(x) => Failure(x)
      case Success(p) => Advance(p, Check(accounts[n], p.helper, endpoints, draw(n)))
  }

  datatype Report = Report(accounts: seq<Account>, valid: nat, orphan: int, deleted: nat)

  datatype VerifyError = Parse(parseError: CodecError) | Keystone(ksError: KsError)

  /** What `verify` returns, and the shared cache after it. */
  datatype Verdict = Verdict(result: Result<Report, VerifyError>, helper: HelperView)

  /** An account right after the first loop. */
  ghost predicate Primed(a: Account)
  {
    (forall f :: f in a <==> f in AllAccountFields)
    && "account" in a && "domain_id" in a && "project_id" in a && "status_deleted" in a
    && "backend" in a && "domain_name" in a && "project_name" in a && "status" in a
    && a["backend"] == Str(StatusUnknown) && a["domain_name"] == Str(StatusUnknown)
    && a["project_name"] == Str(StatusUnknown) && a["status"] == Str(StatusUnknown)
  }

  lemma {:induction false} PrimeWithFacts(a: Account, fields: seq<string>)
    ensures forall f :: f in PrimeWith(a, fields) <==> f in a || f in fields
    ensures forall f :: f in fields ==> PrimeWith(a, fields)[f] == Str(StatusUnknown)
    ensures forall f :: f in a && f !in fields ==> PrimeWith(a, fields)[f] == a[f]
  {
    if fields != [] {
      var init := fields[..|fields| - 1];
      PrimeWithFacts(a, init);
      assert forall f :: f in fields <==> f in init || f == fields[|fields| - 1];
    }
  }

  /** No added field shares its name with a field of a line. */
  lemma FieldListsApart()
    ensures forall i, j :: 0 <= i < |AccountFields| && 0 <= j < |AddAccountFields| ==>
      AccountFields[i] != AddAccountFields[j]
  {
  }

  /** A rebuilt account, primed, has all thirteen fields, the added ones `_unknown`,
      and keeps the nine it was rebuilt with. */
  lemma PrimedFromLine(a: Account)
    requires Constructed(a)
    ensures Primed(PrimeWith(a, AddAccountFields))
    ensures forall f :: f in a ==> PrimeWith(a, AddAccountFields)[f] == a[f]
  {
    PrimedFields(a);
    PrimedKeeps(a);
  }

  /** The primed account has all thirteen fields, the added ones `_unknown`. */
  lemma PrimedFields(a: Account)
    requires Constructed(a)
    ensures Primed(PrimeWith(a, AddAccountFields))
  {
    var b := PrimeWith(a, AddAccountFields);
    PrimeWithFacts(a, AddAccountFields);
    KeyFieldsListed();
    assert AddAccountFields[0] == "backend" && AddAccountFields[1] == "domain_name";
    assert AddAccountFields[2] == "project_name" && AddAccountFields[3] == "status";
    forall f
      ensures f in b <==> f in AllAccountFields
    {
      assert f in AllAccountFields <==> f in AddAccountFields || f in AccountFields;
    }
  }

  /** Priming keeps the nine fields the account was rebuilt with. */
  lemma PrimedKeeps(a: Account)
    requires Constructed(a)
    ensures forall f :: f in a ==> f in PrimeWith(a, AddAccountFields) && PrimeWith(a, AddAccountFields)[f] == a[f]
  {
    var b := PrimeWith(a, AddAccountFields);
    PrimeWithFacts(a, AddAccountFields);
    FieldListsApart();
    forall f | f in a
      ensures f in b && b[f] == a[f]
    {
      var i :| 0 <= i < |AccountFields| && AccountFields[i] == f;
      assert f !in AddAccountFields;
    }
  }

  lemma {:induction false} ParseAllPrimed(lines: seq<string>)
    ensures ParseAll(lines).Success? ==>
      forall k :: 0 <= k < |ParseAll(lines).value| ==> Primed(ParseAll(lines).value[k])
  {
    if lines != [] {
      ParseAllPrimed(lines[..|lines| - 1]);
      var line := lines[|lines| - 1];
      if line != [] && ConstructOf(line).Success? {
        PrimedFromLine(ConstructOf(line).value);
      }
    }
  }

  lemma PrimedCheckable(accounts: seq<Account>)
    requires forall k :: 0 <= k < |accounts| ==> Primed(accounts[k])
    ensures Checkable(accounts)
  {
  }

  /** The end of `verify` for `count` accounts after the second loop: an
      exception that escaped it, or the report; `orphan` is whatever is
      neither valid nor deleted. */
  function Conclude(count: nat, loop: Result<Progress, Raise>): Verdict
  {
    match loop
    case Failure(x) => Verdict(Failure(Keystone(x.error)), x.helper)
    case Success(p) => Verdict(Success(Report(p.accounts, p.valid, count - p.valid - p.deleted, p.deleted)), p.helper)
  }

  /** `verify(contents, ...)`: the accounts with their status, and the counters. */
  function VerifyOf(contents: string, h: HelperView, endpoints: seq<Endpoint>, draw: nat -> Draw): Verdict
    requires HelperOk(h)
  {
    var lines := Split(contents, '\n');
    match ParseAll(lines)
    case Failure(e) => Verdict(Failure(Parse(e)), h)
    case Success(accounts) =>
      ParseAllPrimed(lines);
      PrimedCheckable(accounts);
      Conclude(|accounts|, CheckAll(accounts, h, endpoints, draw))
  }

  // ---------------------------------------------------------------------------
  // Properties of one account's check

  /** How the loop body leaves an account: the fields of its line untouched, one
      of the five statuses, DELETED exactly when `status_deleted` is `'True'`,
      and an account whose domain id is `_unknown` left as it was. */
  ghost predicate Settled(a: Account, b: Account)
  {
    b.Keys == a.Keys
    && (forall f :: f in a && f !in AddAccountFields ==> b[f] == a[f])
    && "status" in b
    && b["status"] in [Str(StatusUnknown), Str(StatusValid), Str(StatusInvalid), Str(StatusOrphan), Str(StatusDeleted)]
    && (b["status"] == Str(StatusDeleted) <==> "status_deleted" in a && a["status_deleted"] == Str("True"))
    && (("status_deleted" in a && a["status_deleted"] != Str("True") && "domain_id" in a
         && a["domain_id"] == Str(StatusUnknown)) ==> b == a)
  }

  lemma AddedFieldsListed()
    ensures "backend" in AddAccountFields && "domain_name" in AddAccountFields
    ensures "project_name" in AddAccountFields && "status" in AddAccountFields
  {
    assert AddAccountFields[0] == "backend" && AddAccountFields[1] == "domain_name";
    assert AddAccountFields[2] == "project_name" && AddAccountFields[3] == "status";
  }

  /** The statuses `Classify` gives, as the source states them. */
  lemma ClassifyStatus(a: Account, dom: DomainView, found: Option<CachedProject>)
    ensures var b := Classify(a, dom, found).0;
      "domain_name" in b && "backend" in b && "status" in b
      && b["domain_name"] == OptValue(dom.name) && b["backend"] == OptValue(dom.backend)
      && (b["status"] == Str(StatusValid) <==> found.Some? && dom.enabled && EnabledOf(found.value))
      && (b["status"] == Str(StatusInvalid) <==> found.Some? && !(dom.enabled && EnabledOf(found.value)))
      && (b["status"] == Str(StatusOrphan) <==> found.None?)
      && (found.Some? ==> "project_name" in b && b["project_name"] == OptValue(NameOf(found.value)))
      && (found.None? ==> forall f :: f in a && f != "domain_name" && f != "backend" && f != "status" ==> f in b && b[f] == a[f])
  {
  }

  /** `Classify` settles an account that is not deleted and has a known domain
      id, and moves the `valid` counter exactly when the account ends VALID. */
  lemma ClassifySettles(a: Account, dom: DomainView, found: Option<CachedProject>)
    requires Primed(a)
    requires a["status_deleted"] != Str("True") && a["domain_id"] != Str(StatusUnknown)
    ensures var c := Classify(a, dom, found);
      Settled(a, c.0) && "status" in c.0
      && (c.1 == CountsValid <==> c.0["status"] == Str(StatusValid))
      && c.1 != CountsDeleted
  {
    AddedFieldsListed();
    var b := Classify(a, dom, found).0;
    assert b.Keys == a.Keys;
  }

  /** Every account the loop body gets through is settled, and it moves the
      `valid` counter exactly when it ends VALID and `deleted` exactly when it
      ends DELETED. */
  lemma CheckSettles(a: Account, h: HelperView, endpoints: seq<Endpoint>, draw: Draw)
    requires HelperOk(h) && Primed(a)
    requires "status_deleted" in a && "domain_id" in a && "project_id" in a
    ensures Check(a, h, endpoints, draw).Success? ==>
      var c := Check(a, h, endpoints, draw).value;
      Settled(a, c.account) && "status" in c.account
      && (c.tally == CountsValid <==> c.account["status"] == Str(StatusValid))
      && (c.tally == CountsDeleted <==> c.account["status"] == Str(StatusDeleted))
  {
    if a["status_deleted"] == Str("True") {
      AddedFieldsListed();
      assert Check(a, h, endpoints, draw).value.account.Keys == a.Keys;
    } else if a["domain_id"] != Str(StatusUnknown) {
      var projectId := Render(a["project_id"]);
      var res := Resolve(h, endpoints, Render(a["domain_id"]), projectId, draw);
      if res.Success? && res.value.found.Some? {
        var key := res.value.found.value;
        ClassifySettles(a, res.value.helper.domains[key], FetchAt(res.value.helper, key, projectId).found);
      }
    }
  }

  /** Once a domain is resolved, directly or through the `default_` fallback,
      the account is classified against it and the project lookup there, and
      that lookup's project cache is kept; with no domain resolved the account
      is left as it was. */
  lemma CheckResolved(a: Account, h: HelperView, endpoints: seq<Endpoint>, draw: Draw)
    requires HelperOk(h)
    requires "status_deleted" in a && "domain_id" in a && "project_id" in a
    requires a["status_deleted"] != Str("True") && a["domain_id"] != Str(StatusUnknown)
    requires Resolve(h, endpoints, Render(a["domain_id"]), Render(a["project_id"]), draw).Success?
    ensures var res := Resolve(h, endpoints, Render(a["domain_id"]), Render(a["project_id"]), draw).value;
      var c := Check(a, h, endpoints, draw);
      c.Success?
      && (res.found.None? ==> c.value.account == a && c.value.helper == res.helper)
      && (res.found.Some? ==>
            var p := FetchAt(res.helper, res.found.value, Render(a["project_id"]));
            c.value.account == Classify(a, res.helper.domains[res.found.value], p.found).0
            && c.value.helper == SetProjects(res.helper, res.found.value, p.projects))
  {
  }

  /** Only an exception other than the four handled ones escapes the check. */
  lemma CheckRaises(a: Account, h: HelperView, endpoints: seq<Endpoint>, draw: Draw)
    requires HelperOk(h)
    requires "status_deleted" in a && "domain_id" in a && "project_id" in a
    ensures Check(a, h, endpoints, draw).Failure? ==> !Handled(Check(a, h, endpoints, draw).error)
  {
    ProbeDecided(h, endpoints, Render(a["domain_id"]), draw);
  }

  // ---------------------------------------------------------------------------
  // Properties of the whole of `verify`

  /** How many accounts carry the status `s`. */
  function CountStatus(accounts: seq<Account>, s: string): nat
  {
    if accounts == [] then 0
    else
      var last := accounts[|accounts| - 1];
      CountStatus(accounts[..|accounts| - 1], s) + if "status" in last && last["status"] == Str(s) then 1 else 0
  }

  /** No account is counted both VALID and DELETED. */
  lemma {:induction false} CountsBounded(accounts: seq<Account>)
    ensures CountStatus(accounts, StatusValid) + CountStatus(accounts, StatusDeleted) <= |accounts|
  {
    if accounts != [] {
      CountsBounded(accounts[..|accounts| - 1]);
    }
  }

  /** One more account through the loop appends its checked record. */
  lemma CheckAllStep(accounts: seq<Account>, h: HelperView, endpoints: seq<Endpoint>, draw: nat -> Draw)
    requires HelperOk(h) && Checkable(accounts) && accounts != []
    requires CheckAll(accounts, h, endpoints, draw).Success?
    ensures var n := |accounts| - 1;
      CheckAll(accounts[..n], h, endpoints, draw).Success?
      && var p := CheckAll(accounts[..n], h, endpoints, draw).value;
      Check(accounts[n], p.helper, endpoints, draw(n)).Success?
      && CheckAll(accounts, h, endpoints, draw).value.accounts
         == p.accounts + [Check(accounts[n], p.helper, endpoints, draw(n)).value.account]
  {
  }

  lemma SettledExtend(s: seq<Account>, t: seq<Account>, y: Account)
    requires |s| == |t| + 1 && Settled(s[|t|], y)
    requires forall k :: 0 <= k < |t| ==> Settled(s[..|t|][k], t[k])
    ensures forall k :: 0 <= k < |s| ==> Settled(s[k], (t + [y])[k])
  {
    forall k | 0 <= k < |s|
      ensures Settled(s[k], (t + [y])[k])
    {
      if k < |t| {
        assert s[..|t|][k] == s[k] && (t + [y])[k] == t[k];
      }
    }
  }

  /** The loop settles every account in place. */
  lemma {:induction false} CheckAllSettles(accounts: seq<Account>, h: HelperView, endpoints: seq<Endpoint>,
                                           draw: nat -> Draw)
    requires HelperOk(h) && Checkable(accounts)
    requires forall k :: 0 <= k < |accounts| ==> Primed(accounts[k])
    ensures CheckAll(accounts, h, endpoints, draw).Success? ==>
      var p := CheckAll(accounts, h, endpoints, draw).value;
      forall k :: 0 <= k < |accounts| ==> Settled(accounts[k], p.accounts[k])
  {
    if accounts != [] && CheckAll(accounts, h, endpoints, draw).Success? {
      var n := |accounts| - 1;
      var init := accounts[..n];
      CheckAllStep(accounts, h, endpoints, draw);
      CheckAllSettles(init, h, endpoints, draw);
      var p := CheckAll(init, h, endpoints, draw).value;
      CheckSettles(accounts[n], p.helper, endpoints, draw(n));
      SettledExtend(accounts, p.accounts, Check(accounts[n], p.helper, endpoints, draw(n)).value.account);
    }
  }

  /** The counters of a progress count its VALID and DELETED accounts. */
  predicate Counted(p: Progress)
  {
    p.valid == CountStatus(p.accounts, StatusValid) && p.deleted == CountStatus(p.accounts, StatusDeleted)
  }

  /** An account appended with the counter its status names keeps the counters right. */
  lemma AdvanceCounts(p: Progress, c: Checked)
    requires Counted(p) && "status" in c.account
    requires c.tally == CountsValid <==> c.account["status"] == Str(StatusValid)
    requires c.tally == CountsDeleted <==> c.account["status"] == Str(StatusDeleted)
    ensures Counted(Advance(p, Success(c)).value)
  {
    var q := Advance(p, Success(c)).value;
    assert q.accounts[..|q.accounts| - 1] == p.accounts;
  }

  /** The counters of the loop count the accounts it marked VALID and DELETED. */
  lemma {:induction false} CheckAllCounts(accounts: seq<Account>, h: HelperView, endpoints: seq<Endpoint>,
                                          draw: nat -> Draw)
    requires HelperOk(h) && Checkable(accounts)
    requires forall k :: 0 <= k < |accounts| ==> Primed(accounts[k])
    ensures CheckAll(accounts, h, endpoints, draw).Success? ==> Counted(CheckAll(accounts, h, endpoints, draw).value)
  {
    if accounts != [] && CheckAll(accounts, h, endpoints, draw).Success? {
      var n := |accounts| - 1;
      var init := accounts[..n];
      CheckAllCounts(init, h, endpoints, draw);
      var p := CheckAll(init, h, endpoints, draw).value;
      CheckSettles(accounts[n], p.helper, endpoints, draw(n));
      AdvanceCounts(p, Check(accounts[n], p.helper, endpoints, draw(n)).value);
    }
  }

  /** Only an exception other than the four handled ones escapes the loop. */
  lemma {:induction false} CheckAllRaises(accounts: seq<Account>, h: HelperView, endpoints: seq<Endpoint>,
                                          draw: nat -> Draw)
    requires HelperOk(h) && Checkable(accounts)
    ensures CheckAll(accounts, h, endpoints, draw).Failure? ==> !Handled(CheckAll(accounts, h, endpoints, draw).error.error)
  {
    if accounts != [] {
      var n := |accounts| - 1;
      CheckAllRaises(accounts[..n], h, endpoints, draw);
      if CheckAll(accounts[..n], h, endpoints, draw).Success? {
        CheckRaises(accounts[n], CheckAll(accounts[..n], h, endpoints, draw).value.helper, endpoints, draw(n));
      }
    }
  }

  /** The nonempty lines, in order. */
  function NonEmpty(lines: seq<string>): seq<string>
  {
    if lines == [] then []
    else NonEmpty(lines[..|lines| - 1]) + if lines[|lines| - 1] == [] then [] else [lines[|lines| - 1]]
  }

  /** The first loop fails, with `IndexError`, exactly when some nonempty line is short. */
  lemma {:induction false} ParseFails(lines: seq<string>)
    ensures ParseAll(lines).Failure? <==> exists k :: 0 <= k < |lines| && AccountMerge.Malformed(lines[k])
    ensures ParseAll(lines).Failure? ==> ParseAll(lines).error == IndexError
  {
    if lines != [] {
      var n := |lines| - 1;
      var init := lines[..n];
      ParseFails(init);
      if ParseAll(init).Failure? {
        var k :| 0 <= k < n && AccountMerge.Malformed(init[k]);
        assert lines[k] == init[k];
      } else {
        forall k | 0 <= k < n
          ensures !AccountMerge.Malformed(lines[k])
        {
          assert lines[k] == init[k];
        }
      }
    }
  }

  /** The first loop keeps one account per nonempty line, in order: the line
      rebuilt by `_construct`, with the added fields `_unknown`. */
  lemma {:induction false} ParseShape(lines: seq<string>)
    ensures ParseAll(lines).Success? ==>
      var r := ParseAll(lines).value;
      |r| == |NonEmpty(lines)|
      && forall k :: 0 <= k < |r| ==>
           ConstructOf(NonEmpty(lines)[k]).Success?
           && r[k] == PrimeWith(ConstructOf(NonEmpty(lines)[k]).value, AddAccountFields)
  {
    if lines != [] {
      var n := |lines| - 1;
      ParseShape(lines[..n]);
      if ParseAll(lines).Success? {
        var r := ParseAll(lines).value;
        var r0 := ParseAll(lines[..n]).value;
        var ne := NonEmpty(lines);
        var ne0 := NonEmpty(lines[..n]);
        assert ne[..|ne0|] == ne0;
        assert r[..|r0|] == r0;
        forall k | 0 <= k < |r0|
          ensures ConstructOf(ne[k]).Success? && r[k] == PrimeWith(ConstructOf(ne[k]).value, AddAccountFields)
        {
          assert ne[k] == ne0[k] && r[k] == r0[k];
        }
      }
    }
  }

  /** `verify` raises `IndexError`, before touching the cache, exactly when some
      nonempty line is short; the only other exception it lets through is one
      `get_domain` does not handle. */
  lemma VerifyFails(contents: string, h: HelperView, endpoints: seq<Endpoint>, draw: nat -> Draw)
    requires HelperOk(h)
    ensures var v, lines := VerifyOf(contents, h, endpoints, draw), Split(contents, '\n');
      (v.result.Failure? && v.result.error.Parse? <==> exists k :: 0 <= k < |lines| && AccountMerge.Malformed(lines[k]))
      && (v.result.Failure? && v.result.error.Parse? ==> v.result.error.parseError == IndexError && v.helper == h)
      && (v.result.Failure? && v.result.error.Keystone? ==> !Handled(v.result.error.ksError))
  {
    var lines := Split(contents, '\n');
    ParseFails(lines);
    match ParseAll(lines)
    case Failure(e) =>
      assert VerifyOf(contents, h, endpoints, draw) == Verdict(Failure(Parse(e)), h);
      var k :| 0 <= k < |lines| && AccountMerge.Malformed(lines[k]);
      assert AccountMerge.Malformed(Split(contents, '\n')[k]);
    case Success(parsed) =>
      ParseAllPrimed(lines);
      CheckAllRaises(parsed, h, endpoints, draw);
      assert !VerifyOf(contents, h, endpoints, draw).result.Failure? || VerifyOf(contents, h, endpoints, draw).result.error.Keystone?;
  }

  /** A successful `verify` returns one account per nonempty line, in order, each
      settled from the line's record; `valid` and `deleted` count the VALID and
      DELETED accounts, and `orphan` is the rest, never negative. */
  lemma VerifyReport(contents: string, h: HelperView, endpoints: seq<Endpoint>, draw: nat -> Draw)
    requires HelperOk(h)
    ensures var v, lines := VerifyOf(contents, h, endpoints, draw), Split(contents, '\n');
      v.result.Success? ==>
        var r, parsed := v.result.value, ParseAll(lines).value;
        ParseAll(lines).Success? && |r.accounts| == |parsed| == |NonEmpty(lines)|
        && (forall k :: 0 <= k < |r.accounts| ==> Settled(parsed[k], r.accounts[k]))
        && r.valid == CountStatus(r.accounts, StatusValid)
        && r.deleted == CountStatus(r.accounts, StatusDeleted)
        && r.orphan == |r.accounts| - r.valid - r.deleted && r.orphan >= 0
  {
    var lines := Split(contents, '\n');
    ParseShape(lines);
    if ParseAll(lines).Success? {
      var parsed := ParseAll(lines).value;
      ParseAllPrimed(lines);
      CheckAllSettles(parsed, h, endpoints, draw);
      CheckAllCounts(parsed, h, endpoints, draw);
      if CheckAll(parsed, h, endpoints, draw).Success? {
        CountsBounded(CheckAll(parsed, h, endpoints, draw).value.accounts);
      }
    }
  }

  // ---------------------------------------------------------------------------
  // The imperative code

  /** The loop body of `verify` for one account: the account as
      it leaves the body, and the counter it moves. */
  method CheckAccount(a: Account, helper: DomainHelper, endpoints: seq<Endpoint>, draw: Draw)
    returns (r: Result<(Account, Tally), KsError>)
    requires helper.Valid()
    requires "status_deleted" in a && "domain_id" in a && "project_id" in a
    modifies helper, helper.domains.Values
    ensures helper.Valid()
    ensures forall k :: k in helper.domains ==>
      (k in old(helper.domains) && helper.domains[k] == old(helper.domains[k])) || fresh(helper.domains[k])
    ensures r.Success? == Check(a, old(helper.View()), endpoints, draw).Success?
    ensures r.Failure? ==>
      r.error == Check(a, old(helper.View()), endpoints, draw).error && helper.View() == old(helper.View())
    ensures r.Success? ==>
      var c := Check(a, old(helper.View()), endpoints, draw).value;
      r.value == (c.account, c.tally) && helper.View() == c.helper
  {
    if a["status_deleted"] == Str("True") {
      return Success((a["status" := Str(StatusDeleted)], CountsDeleted));
    }
    if a["domain_id"] == Str(StatusUnknown) {
      return Success((a, CountsNothing));
    }
    var projectId := Render(a["project_id"]);
    var domain := helper.GetDomain(Render(a["domain_id"]), endpoints, draw);
    if domain.Failure? {
      return Failure(domain.error);
    }
    var dom: DomainWrapper;
    if domain.value.Some? {
      dom := domain.value.value;
    } else {
      var fallback := helper.GetDefaultDomain(projectId);
      if fallback.None? {
        return Success((a, CountsNothing));
      }
      dom := fallback.value;
    }
    ViewsAt(helper.domains, dom.id);
    var account := a["domain_name" := OptValue(dom.name)]["backend" := OptValue(dom.backend)];
    var project := helper.AskProject(dom.id, projectId);
    match project
    case None =>
      return Success((account["status" := Str(StatusOrphan)], CountsNothing));
    case Some(p) =>
      account := account["project_name" := OptValue(NameOf(p))];
      if dom.enabled && EnabledOf(p) {
        return Success((account["status" := Str(StatusValid)], CountsValid));
      }
      return Success((account["status" := Str(StatusInvalid)], CountsNothing));
  }

  /** Once the lines up to `n` fail to parse, all of them do, with the same error. */
  lemma {:induction false} ParseFailurePersists(lines: seq<string>, n: nat)
    requires n <= |lines| && ParseAll(lines[..n]).Failure?
    ensures ParseAll(lines) == ParseAll(lines[..n])
    decreases |lines| - n
  {
    if n == |lines| {
      assert lines[..n] == lines;
    } else {
      assert lines[..n + 1][..n] == lines[..n];
      ParseFailurePersists(lines, n + 1);
    }
  }

  /** The first loop of `verify`, which parses and primes every nonempty line. */
  method ParseLines(contents: string) returns (r: Result<seq<Account>, CodecError>)
    ensures r == ParseAll(Split(contents, '\n'))
  {
    var lines := Split(contents, '\n');
    var accounts: seq<Account> := [];
    for i := 0 to |lines|
      invariant ParseAll(lines[..i]) == Success(accounts)
    {
      assert lines[..i + 1][..i] == lines[..i];
      if lines[i] != [] {
        var account := Construct(lines[i]);
        if account.Failure? {
          ParseFailurePersists(lines, i + 1);
          return Failure(account.error);
        }
        var primed := account.value;
        for j := 0 to |AddAccountFields|
          invariant primed == PrimeWith(account.value, AddAccountFields[..j])
        {
          assert AddAccountFields[..j + 1][..j] == AddAccountFields[..j];
          primed := primed[AddAccountFields[j] := Str(StatusUnknown)];
        }
        assert AddAccountFields[..|AddAccountFields|] == AddAccountFields;
        accounts := accounts + [primed];
      }
    }
    assert lines[..|lines|] == lines;
    return Success(accounts);
  }

  /** Once the accounts up to `n` raise, the whole loop raises the same. */
  lemma {:induction false} CheckAllFailurePersists(accounts: seq<Account>, h: HelperView, endpoints: seq<Endpoint>,
                                                   draw: nat -> Draw, n: nat)
    requires HelperOk(h) && Checkable(accounts) && n <= |accounts|
    requires CheckAll(accounts[..n], h, endpoints, draw).Failure?
    ensures CheckAll(accounts, h, endpoints, draw) == CheckAll(accounts[..n], h, endpoints, draw)
    decreases |accounts| - n
  {
    if n == |accounts| {
      assert accounts[..n] == accounts;
    } else {
      assert accounts[..n + 1][..n] == accounts[..n];
      CheckAllFailurePersists(accounts, h, endpoints, draw, n + 1);
    }
  }

  /** One more account through the loop is one more step. */
  lemma CheckAllExtend(accounts: seq<Account>, h: HelperView, endpoints: seq<Endpoint>, draw: nat -> Draw, n: nat)
    requires HelperOk(h) && Checkable(accounts) && n < |accounts|
    requires CheckAll(accounts[..n], h, endpoints, draw).Success?
    ensures var p := CheckAll(accounts[..n], h, endpoints, draw).value;
      CheckAll(accounts[..n + 1], h, endpoints, draw) == Advance(p, Check(accounts[n], p.helper, endpoints, draw(n)))
  {
    var prefix := accounts[..n + 1];
    assert Checkable(prefix);
    assert prefix[..n] == accounts[..n];
  }

  lemma AdvanceChecked(p: Progress, c: Checked)
    ensures Advance(p, Success(c))
         == Success(Progress(p.accounts + [c.account], c.helper,
                             if c.tally == CountsValid then p.valid + 1 else p.valid,
                             if c.tally == CountsDeleted then p.deleted + 1 else p.deleted))
  {
  }

  /** The loop goes on past the `n`-th account when its check goes through. */
  lemma CheckAllNext(accounts: seq<Account>, h: HelperView, endpoints: seq<Endpoint>, draw: nat -> Draw, n: nat,
                     p: Progress, a: Account, v: HelperView, c: Checked)
    requires HelperOk(h) && Checkable(accounts) && n < |accounts| && a == accounts[n] && v == p.helper
    requires CheckAll(accounts[..n], h, endpoints, draw) == Success(p)
    requires HelperOk(v) && "status_deleted" in a && "domain_id" in a && "project_id" in a
    requires Check(a, v, endpoints, draw(n)) == Success(c)
    ensures CheckAll(accounts[..n + 1], h, endpoints, draw)
         == Success(Progress(p.accounts + [c.account], c.helper,
                             if c.tally == CountsValid then p.valid + 1 else p.valid,
                             if c.tally == CountsDeleted then p.deleted + 1 else p.deleted))
  {
    CheckAllExtend(accounts, h, endpoints, draw, n);
    AdvanceChecked(p, c);
  }

  /** The loop stops at the `n`-th account when its check raises. */
  lemma CheckAllStops(accounts: seq<Account>, h: HelperView, endpoints: seq<Endpoint>, draw: nat -> Draw, n: nat,
                      p: Progress, a: Account, v: HelperView, e: KsError)
    requires HelperOk(h) && Checkable(accounts) && n < |accounts| && a == accounts[n] && v == p.helper
    requires CheckAll(accounts[..n], h, endpoints, draw) == Success(p)
    requires HelperOk(v) && "status_deleted" in a && "domain_id" in a && "project_id" in a
    requires Check(a, v, endpoints, draw(n)) == Failure(e)
    ensures CheckAll(accounts, h, endpoints, draw) == Failure(Raise(e, p.helper))
  {
    CheckAllExtend(accounts, h, endpoints, draw, n);
    CheckAllFailurePersists(accounts, h, endpoints, draw, n + 1);
  }

  /** Replacing the `n`-th element: the prefix up to it gains the new element. */
  lemma UpdateSplit(s: seq<Account>, n: nat, x: Account)
    requires n < |s|
    ensures s[n := x][..n + 1] == s[..n] + [x]
  {
  }

  /** `verify` on contents some line of which is too short to rebuild. */
  lemma VerifyOfParseFailure(contents: string, h: HelperView, endpoints: seq<Endpoint>, draw: nat -> Draw)
    requires HelperOk(h) && ParseAll(Split(contents, '\n')).Failure?
    ensures VerifyOf(contents, h, endpoints, draw)
         == Verdict(Failure(Parse(ParseAll(Split(contents, '\n')).error)), h)
  {
  }

  /** `verify` on contents that parse into `accounts`, in terms of the loop over them. */
  lemma VerifyOfParsed(contents: string, h: HelperView, endpoints: seq<Endpoint>, draw: nat -> Draw)
    requires HelperOk(h) && ParseAll(Split(contents, '\n')).Success?
    ensures Checkable(ParseAll(Split(contents, '\n')).value)
    ensures var accounts := ParseAll(Split(contents, '\n')).value;
      VerifyOf(contents, h, endpoints, draw) == Conclude(|accounts|, CheckAll(accounts, h, endpoints, draw))
  {
    ParseAllPrimed(Split(contents, '\n'));
    PrimedCheckable(ParseAll(Split(contents, '\n')).value);
  }

  /** The second loop of `verify`: the accounts as it leaves
      them and the `valid` and `deleted` counters, or the exception that
      escaped it. */
  method CheckAccounts(parsed: seq<Account>, helper: DomainHelper, endpoints: seq<Endpoint>, draw: nat -> Draw)
    returns (r: Result<(seq<Account>, nat, nat), KsError>)
    requires helper.Valid() && Checkable(parsed)
    modifies helper, helper.domains.Values
    ensures helper.Valid()
    ensures r.Failure? ==> CheckAll(parsed, old(helper.View()), endpoints, draw) == Failure(Raise(r.error, helper.View()))
    ensures r.Success? ==>
      CheckAll(parsed, old(helper.View()), endpoints, draw) == Success(Progress(r.value.0, helper.View(), r.value.1, r.value.2))
  {
    var accounts := parsed;
    var valid, deleted := 0, 0;
    ghost var start := helper.View();
    ghost var progress := Progress([], start, 0, 0);
    for n := 0 to |accounts|
      invariant helper.Valid()
      invariant forall k :: k in helper.domains ==>
        (k in old(helper.domains) && helper.domains[k] == old(helper.domains[k])) || fresh(helper.domains[k])
      invariant |accounts| == |parsed|
      invariant forall k :: n <= k < |accounts| ==> accounts[k] == parsed[k]
      invariant CheckAll(parsed[..n], start, endpoints, draw) == Success(progress)
      invariant progress.accounts == accounts[..n] && progress.helper == helper.View()
      invariant progress.valid == valid && progress.deleted == deleted
    {
      assert accounts[n] == parsed[n];
      ghost var before := helper.View();
      var checked := CheckAccount(accounts[n], helper, endpoints, draw(n));
      if checked.Failure? {
        CheckAllStops(parsed, start, endpoints, draw, n, progress, accounts[n], before, checked.error);
        return Failure(checked.error);
      }
      ghost var c := Checked(checked.value.0, helper.View(), checked.value.1);
      CheckAllNext(parsed, start, endpoints, draw, n, progress, accounts[n], before, c);
      progress := Progress(progress.accounts + [c.account], c.helper,
                           if c.tally == CountsValid then progress.valid + 1 else progress.valid,
                           if c.tally == CountsDeleted then progress.deleted + 1 else progress.deleted);
      UpdateSplit(accounts, n, checked.value.0);
      var (account, tally) := checked.value;
      accounts := accounts[n := account];
      valid := if tally == CountsValid then valid + 1 else valid;
      deleted := if tally == CountsDeleted then deleted + 1 else deleted;
    }
    assert accounts[..|accounts|] == accounts && parsed[..|parsed|] == parsed;
    return Success((accounts, valid, deleted));
  }

  /** `verify(contents, os_config, statsd)`, on the shared cache `helper`, with
      `draw(k)` the random draw available to the `k`-th account. */
  method Verify(contents: string, helper: DomainHelper, endpoints: seq<Endpoint>, draw: nat -> Draw)
    returns (r: Result<Report, VerifyError>)
    requires helper.Valid()
    modifies helper, helper.domains.Values
    ensures helper.Valid()
    ensures Verdict(r, helper.View()) == VerifyOf(contents, old(helper.View()), endpoints, draw)
  {
    var parsed := ParseLines(contents);
    if parsed.Failure? {
      VerifyOfParseFailure(contents, helper.View(), endpoints, draw);
      return Failure(Parse(parsed.error));
    }
    VerifyOfParsed(contents, helper.View(), endpoints, draw);
    var checked := CheckAccounts(parsed.value, helper, endpoints, draw);
    if checked.Failure? {
      return Failure(Keystone(checked.error));
    }
    var (accounts, valid, deleted) := checked.value;
    var orphan := |accounts| - valid - deleted;
    return Success(Report(accounts, valid, orphan, deleted));
  }
}
