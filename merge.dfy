/** `merge` of caretaker/accounts.py: the per-node account lines, concatenated,
    become one list with a single record per account id (the last line wins),
    without the object expirer's account, sorted by `(domain_id, project_id)`. */
module AccountMerge {
  import opened Text
  import opened Outcomes
  import opened AccountCodec

  /** The system account of Swift's object expirer; it has no tenant. */
  const ExpiringObjects: string := ".expiring_objects"

  // ---------------------------------------------------------------------------
  // `sorted(values, key=itemgetter('domain_id', 'project_id'))`

  /** A record whose sort key can be read: both key fields present, both strings. */
  predicate Keyed(a: Account)
  {
    "domain_id" in a && "project_id" in a && a["domain_id"].Str? && a["project_id"].Str?
  }

  function SortKey(a: Account): (string, string)
    requires Keyed(a)
  {
    (a["domain_id"].s, a["project_id"].s)
  }

  /** Python's `<` on two key tuples: decided by the first fields that differ. */
  predicate KeyBelow(p: (string, string), q: (string, string))
  {
    Below(p.0, q.0) || (p.0 == q.0 && Below(p.1, q.1))
  }

  predicate AllKeyed(s: seq<Account>)
  {
    forall i :: 0 <= i < |s| ==> Keyed(s[i])
  }

  /** Non-decreasing by key: no later record sorts strictly before an earlier one. */
  ghost predicate SortedByKey(s: seq<Account>)
    requires AllKeyed(s)
  {
    forall i, j :: 0 <= i < j < |s| ==> !KeyBelow(SortKey(s[j]), SortKey(s[i]))
  }

  lemma KeyBelowIrreflexive(p: (string, string))
    ensures !KeyBelow(p, p)
  {
    BelowIrreflexive(p.0);
    BelowIrreflexive(p.1);
  }

  lemma KeyBelowTotal(p: (string, string), q: (string, string))
    ensures KeyBelow(p, q) || p == q || KeyBelow(q, p)
  {
    BelowTotal(p.0, q.0);
    BelowTotal(p.1, q.1);
  }

  lemma KeyBelowTransitive(p: (string, string), q: (string, string), o: (string, string))
    requires KeyBelow(p, q) && KeyBelow(q, o)
    ensures KeyBelow(p, o)
  {
    if Below(p.0, q.0) && Below(q.0, o.0) {
      BelowTransitive(p.0, q.0, o.0);
    } else if Below(p.1, q.1) && Below(q.1, o.1) {
      BelowTransitive(p.1, q.1, o.1);
    }
  }

  /** "Not below" is transitive: the order is total. */
  lemma KeyNotBelowTransitive(p: (string, string), q: (string, string), o: (string, string))
    requires !KeyBelow(q, p) && !KeyBelow(o, q)
    ensures !KeyBelow(o, p)
  {
    if KeyBelow(o, p) {
      KeyBelowTotal(p, q);
      if KeyBelow(p, q) {
        KeyBelowTransitive(o, p, q);
      }
    }
  }

  /** Stable insertion of `x` after every record whose key is not above its own. */
  function Insert(s: seq<Account>, x: Account): (r: seq<Account>)
    requires AllKeyed(s) && Keyed(x)
    ensures multiset(r) == multiset(s) + multiset{x}
  {
    if s == [] then [x]
    else if KeyBelow(SortKey(x), SortKey(s[|s| - 1])) then
      assert s == s[..|s| - 1] + [s[|s| - 1]];
      Insert(s[..|s| - 1], x) + [s[|s| - 1]]
    else s + [x]
  }

  lemma InsertKeyed(s: seq<Account>, x: Account)
    requires AllKeyed(s) && Keyed(x)
    ensures AllKeyed(Insert(s, x))
  {
    var r := Insert(s, x);
    forall i | 0 <= i < |r|
      ensures Keyed(r[i])
    {
      assert r[i] in multiset(r);
    }
  }

  /** Python's `sorted` with this key: a stable sort, built by insertion. */
  function SortByKey(s: seq<Account>): (r: seq<Account>)
    requires AllKeyed(s)
    ensures multiset(r) == multiset(s) && AllKeyed(r)
  {
    if s == [] then []
    else
      var init := s[..|s| - 1];
      assert s == init + [s[|s| - 1]];
      var sorted := SortByKey(init);
      InsertKeyed(sorted, s[|s| - 1]);
      Insert(sorted, s[|s| - 1])
  }

  lemma {:induction false} InsertSorted(s: seq<Account>, x: Account)
    requires AllKeyed(s) && Keyed(x) && SortedByKey(s)
    ensures AllKeyed(Insert(s, x)) && SortedByKey(Insert(s, x))
  {
    InsertKeyed(s, x);
    if s != [] {
      var init, last := s[..|s| - 1], s[|s| - 1];
      var r := Insert(s, x);
      if KeyBelow(SortKey(x), SortKey(last)) {
        InsertSorted(init, x);
        var r0 := Insert(init, x);
        forall i | 0 <= i < |r0|
          ensures !KeyBelow(SortKey(last), SortKey(r0[i]))
        {
          assert r0[i] in multiset(r0);
          if r0[i] == x {
            KeyBelowTotal(SortKey(x), SortKey(last));
            if KeyBelow(SortKey(last), SortKey(x)) {
              KeyBelowTransitive(SortKey(x), SortKey(last), SortKey(x));
              KeyBelowIrreflexive(SortKey(x));
            }
          } else {
            assert r0[i] in init;
          }
        }
      } else {
        forall i | 0 <= i < |s|
          ensures !KeyBelow(SortKey(x), SortKey(s[i]))
        {
          if i < |s| - 1 {
            KeyNotBelowTransitive(SortKey(s[i]), SortKey(last), SortKey(x));
          }
        }
      }
    }
  }

  lemma {:induction false} SortSorted(s: seq<Account>)
    requires AllKeyed(s)
    ensures SortedByKey(SortByKey(s))
  {
    if s != [] {
      SortSorted(s[..|s| - 1]);
      InsertSorted(SortByKey(s[..|s| - 1]), s[|s| - 1]);
    }
  }

  /** Sorting a list that is already in key order leaves it as it is (stability). */
  lemma {:induction false} SortOfSorted(s: seq<Account>)
    requires AllKeyed(s) && SortedByKey(s)
    ensures SortByKey(s) == s
  {
    if s != [] {
      var init := s[..|s| - 1];
      SortOfSorted(init);
      assert init + [s[|s| - 1]] == s;
    }
  }

  // ---------------------------------------------------------------------------
  // The `accounts` dictionary

  /** A Python dict from account id to record: its entries and the order in which
      its keys were first inserted (assigning to a present key keeps its place). */
  datatype Dict = Dict(keys: seq<Value>, entries: map<Value, Account>)

  ghost predicate DictOk(d: Dict)
  {
    (forall i, j :: 0 <= i < j < |d.keys| ==> d.keys[i] != d.keys[j]) &&
    (forall k :: k in d.entries <==> k in d.keys)
  }

  /** `accounts[id] = a`. */
  function Put(d: Dict, id: Value, a: Account): Dict
  {
    Dict(if id in d.entries then d.keys else d.keys + [id], d.entries[id := a])
  }

  /** Assigning to a new key puts it last in the insertion order. */
  lemma PutFresh(d: Dict, id: Value, a: Account)
    requires DictOk(d) && id !in d.entries
    ensures DictOk(Put(d, id, a)) && Put(d, id, a).keys == d.keys + [id]
    ensures Put(d, id, a).entries == d.entries[id := a]
  {
    assert forall k :: k in d.keys + [id] <==> k in d.keys || k == id;
  }

  /** Assigning to a present key keeps the insertion order as it was. */
  lemma PutPresent(d: Dict, id: Value, a: Account)
    requires DictOk(d) && id in d.entries
    ensures DictOk(Put(d, id, a)) && Put(d, id, a).keys == d.keys
    ensures Put(d, id, a).entries == d.entries[id := a]
  {
  }

  /** `list(accounts.values())`, in insertion order. */
  function Values(d: Dict): seq<Account>
    requires DictOk(d)
  {
    seq(|d.keys|, i requires 0 <= i < |d.keys| => d.entries[d.keys[i]])
  }

  /** The records `merge` keeps in its dictionary: each filed under its own id,
      which is not the expirer's, and each carrying a sort key. */
  ghost predicate Filed(d: Dict)
  {
    DictOk(d) &&
    forall id :: id in d.entries ==>
      "account" in d.entries[id] && d.entries[id]["account"] == id && id != Str(ExpiringObjects)
      && Keyed(d.entries[id])
  }

  /** One iteration of `merge`'s loop: an empty line is skipped, a short line
      raises, the expirer's account is skipped, any other record is filed. */
  function Absorb(d: Dict, line: string): Result<Dict, CodecError>
  {
    if line == [] then Success(d)
    else
      match ConstructOf(line)
      case Failure(e) => Failure(e)
      case Success(a) =>
        KeyFieldsListed();
        if a["account"] == Str(ExpiringObjects) then Success(d) else Success(Put(d, a["account"], a))
  }

  /** The dictionary after `merge`'s loop has seen `lines`, or the error it raised. */
  function Collect(lines: seq<string>): (r: Result<Dict, CodecError>)
    ensures r.Success? ==> Filed(r.value)
    ensures r.Failure? ==> r.error == IndexError
  {
    if lines == [] then Success(Dict([], map[]))
    else
      match Collect(lines[..|lines| - 1])
      case Failure(e) => Failure(e)
      case Success(d) =>
        var r := Absorb(d, lines[|lines| - 1]);
        if r.Success? then AbsorbFiled(d, lines[|lines| - 1]); r else r
  }

  lemma PutFiled(d: Dict, a: Account)
    requires Filed(d) && "account" in a && Keyed(a) && a["account"] != Str(ExpiringObjects)
    ensures Filed(Put(d, a["account"], a))
  {
    if a["account"] in d.entries {
      PutPresent(d, a["account"], a);
    } else {
      PutFresh(d, a["account"], a);
    }
  }

  lemma AbsorbFiled(d: Dict, line: string)
    requires Filed(d) && Absorb(d, line).Success?
    ensures Filed(Absorb(d, line).value)
  {
    if line != [] {
      var a := ConstructOf(line).value;
      KeyFieldsListed();
      if a["account"] != Str(ExpiringObjects) {
        PutFiled(d, a);
      }
    }
  }

  /** `merge(contents)`: the filed records in key order, or the error raised. */
  function MergeOf(contents: string): Result<seq<Account>, CodecError>
  {
    match Collect(Split(contents, '\n'))
    case Failure(e) => Failure(e)
    case Success(d) =>
      assert AllKeyed(Values(d)) by {
        forall i | 0 <= i < |d.keys| ensures Keyed(Values(d)[i]) {
          assert d.keys[i] in d.entries;
        }
      }
      Success(SortByKey(Values(d)))
  }

  lemma {:induction false} CollectFailurePersists(lines: seq<string>, n: nat, e: CodecError)
    requires n <= |lines| && Collect(lines[..n]) == Failure(e)
    ensures Collect(lines) == Failure(e)
    decreases |lines| - n
  {
    if n < |lines| {
      assert lines[..n + 1][..n] == lines[..n];
      CollectFailurePersists(lines, n + 1, e);
    } else {
      assert lines[..n] == lines;
    }
  }

  /** `merge(contents)`: one pass over the lines filling the `accounts` dict, then the sort. */
  method Merge(contents: string) returns (r: Result<seq<Account>, CodecError>)
    ensures r == MergeOf(contents)
  {
    var keys: seq<Value> := [];
    var accounts: map<Value, Account> := map[];
    var lines := Split(contents, '\n');
    for n := 0 to |lines|
      invariant Collect(lines[..n]) == Success(Dict(keys, accounts))
    {
      var line := lines[n];
      assert lines[..n + 1][..n] == lines[..n];
      if line != [] {
        var account := Construct(line);
        if account.Failure? {
          CollectFailurePersists(lines, n + 1, account.error);
          return Failure(account.error);
        }
        KeyFieldsListed();
        var id := account.value["account"];
        if id == Str(ExpiringObjects) {
          continue;
        }
        if id !in accounts {
          keys := keys + [id];
        }
        accounts := accounts[id := account.value];
      }
    }
    assert lines[..|lines|] == lines;
    KeyFieldsListed();
    var values := Values(Dict(keys, accounts));
    assert AllKeyed(values) by {
      forall i | 0 <= i < |keys| ensures Keyed(values[i]) {
        assert keys[i] in accounts;
      }
    }
    return Success(SortByKey(values));
  }

  // ---------------------------------------------------------------------------
  // What `merge` keeps, stated line by line

  /** A nonempty line with fewer than nine `;`-separated segments: `_construct` raises on it. */
  predicate Malformed(line: string)
  {
    line != [] && |Split(line, Sep)| < |AccountFields|
  }

  /** The record one line files in `merge`'s dictionary: none for an empty line,
      for a line `_construct` rejects, or for the object expirer's account. */
  function Kept(line: string): (r: Option<Account>)
    ensures r.Some? ==> Constructed(r.value) && r.value["account"] != Str(ExpiringObjects)
  {
    if line == [] then None
    else
      match ConstructOf(line)
      case Failure(_) => None
      case Success(a) => if a["account"] == Str(ExpiringObjects) then None else Some(a)
  }

  /** A parsed line that is a record with id `id`. */
  predicate FiledAs(rec: Option<Account>, id: Value)
  {
    rec.Some? && "account" in rec.value && rec.value["account"] == id
  }

  function KeptAll(lines: seq<string>): seq<Option<Account>>
  {
    seq(|lines|, k requires 0 <= k < |lines| => Kept(lines[k]))
  }

  /** The last of the parsed lines that is a record with id `id`. */
  function LastOf(recs: seq<Option<Account>>, id: Value): Option<Account>
  {
    if recs == [] then None
    else if FiledAs(recs[|recs| - 1], id) then recs[|recs| - 1]
    else LastOf(recs[..|recs| - 1], id)
  }

  /** The record of the last line of `lines` that `merge` files under `id`. */
  function LastRecord(lines: seq<string>, id: Value): Option<Account>
  {
    LastOf(KeptAll(lines), id)
  }

  /** `LastOf` picks the record with the highest index among those with that id. */
  lemma {:induction false} LastOfIsLast(recs: seq<Option<Account>>, id: Value)
    ensures LastOf(recs, id).None? <==> forall k :: 0 <= k < |recs| ==> !FiledAs(recs[k], id)
    ensures LastOf(recs, id).Some? ==>
              exists k :: 0 <= k < |recs| && FiledAs(recs[k], id) && LastOf(recs, id) == recs[k]
                          && forall m :: k < m < |recs| ==> !FiledAs(recs[m], id)
  {
    if recs != [] {
      var n := |recs| - 1;
      var init := recs[..n];
      LastOfIsLast(init, id);
      if FiledAs(recs[n], id) {
        assert LastOf(recs, id) == recs[n];
      } else {
        assert LastOf(recs, id) == LastOf(init, id);
        assert forall k :: 0 <= k < n ==> recs[k] == init[k];
        if LastOf(init, id).Some? {
          var k :| 0 <= k < n && FiledAs(init[k], id) && LastOf(init, id) == init[k]
                   && forall m :: k < m < n ==> !FiledAs(init[m], id);
          assert FiledAs(recs[k], id) && LastOf(recs, id) == recs[k];
        }
      }
    }
  }

  /** Last one wins: the record `merge` keeps for `id` is that of the last line
      filing `id`, and there is none when no line files it. */
  lemma LastRecordIsLast(lines: seq<string>, id: Value)
    ensures LastRecord(lines, id).None? <==> forall k :: 0 <= k < |lines| ==> !FiledAs(Kept(lines[k]), id)
    ensures LastRecord(lines, id).Some? ==>
              exists k :: 0 <= k < |lines| && FiledAs(Kept(lines[k]), id) && LastRecord(lines, id) == Kept(lines[k])
                          && forall m :: k < m < |lines| ==> !FiledAs(Kept(lines[m]), id)
  {
    var recs := KeptAll(lines);
    LastOfIsLast(recs, id);
    if LastOf(recs, id).Some? {
      var k :| 0 <= k < |recs| && FiledAs(recs[k], id) && LastOf(recs, id) == recs[k]
               && forall m :: k < m < |recs| ==> !FiledAs(recs[m], id);
      assert recs[k] == Kept(lines[k]);
      assert forall m :: k < m < |lines| ==> !FiledAs(Kept(lines[m]), id) by {
        forall m | k < m < |lines| ensures !FiledAs(Kept(lines[m]), id) {
          assert recs[m] == Kept(lines[m]);
        }
      }
    } else {
      forall k | 0 <= k < |lines| ensures !FiledAs(Kept(lines[k]), id) {
        assert recs[k] == Kept(lines[k]);
      }
    }
  }

  /** `merge` raises exactly when some nonempty line is short. */
  lemma {:induction false} CollectFails(lines: seq<string>)
    ensures Collect(lines).Failure? <==> exists k :: 0 <= k < |lines| && Malformed(lines[k])
  {
    if lines != [] {
      var n := |lines| - 1;
      var init := lines[..n];
      CollectFails(init);
      assert forall k :: 0 <= k < n ==> lines[k] == init[k];
      if exists k :: 0 <= k < |lines| && Malformed(lines[k]) {
        var k :| 0 <= k < |lines| && Malformed(lines[k]);
        if k < n {
          assert Malformed(init[k]);
        }
      }
    }
  }

  lemma AbsorbKept(d: Dict, line: string)
    requires Absorb(d, line).Success?
    ensures Kept(line).None? ==> Absorb(d, line).value == d
    ensures Kept(line).Some? ==> Absorb(d, line).value == Put(d, Kept(line).value["account"], Kept(line).value)
  {
  }

  /** `merge` raises `IndexError` exactly when some nonempty line is short. */
  lemma MergeFails(contents: string)
    ensures MergeOf(contents).Failure? <==>
              exists k :: 0 <= k < |Split(contents, '\n')| && Malformed(Split(contents, '\n')[k])
    ensures MergeOf(contents).Failure? ==> MergeOf(contents).error == IndexError
  {
    var lines := Split(contents, '\n');
    CollectFails(lines);
    match Collect(lines)
    case Failure(e) =>
      assert MergeOf(contents) == Failure(e);
      var k :| 0 <= k < |lines| && Malformed(lines[k]);
      assert Malformed(Split(contents, '\n')[k]);
      assert MergeOf(contents).Failure?;
    case Success(d) =>
      assert MergeOf(contents).Success?;
  }

  /** The dictionary holds, for each id, exactly the last record filed under it. */
  lemma {:induction false} CollectKeepsLast(lines: seq<string>, id: Value)
    requires Collect(lines).Success?
    ensures id in Collect(lines).value.entries <==> LastRecord(lines, id).Some?
    ensures id in Collect(lines).value.entries ==> Collect(lines).value.entries[id] == LastRecord(lines, id).value
  {
    if lines != [] {
      var n := |lines| - 1;
      var init := lines[..n];
      CollectKeepsLast(init, id);
      var d := Collect(init).value;
      AbsorbKept(d, lines[n]);
      assert KeptAll(lines)[..n] == KeptAll(init);
      assert KeptAll(lines)[n] == Kept(lines[n]);
    }
  }

  lemma {:induction false} CountOnce(s: seq<Account>, x: Account)
    requires forall i, j :: 0 <= i < j < |s| ==> s[i] != s[j]
    ensures multiset(s)[x] <= 1
  {
    if s != [] {
      var init := s[..|s| - 1];
      CountOnce(init, x);
      assert s == init + [s[|s| - 1]];
      if s[|s| - 1] == x {
        assert x !in init;
      }
    }
  }

  lemma CountTwice(r: seq<Account>, i: nat, j: nat)
    requires i < j < |r| && r[i] == r[j]
    ensures multiset(r)[r[i]] >= 2
  {
    assert r == r[..j] + r[j..];
    assert r[i] in r[..j] && r[j] in r[j..];
  }

  /** Reordering records with distinct ids keeps the ids distinct. */
  lemma PermutationKeepsIdsDistinct(s: seq<Account>, r: seq<Account>)
    requires multiset(r) == multiset(s)
    requires forall i :: 0 <= i < |s| ==> "account" in s[i]
    requires forall i, j :: 0 <= i < j < |s| ==> s[i]["account"] != s[j]["account"]
    ensures forall i :: 0 <= i < |r| ==> "account" in r[i]
    ensures forall i, j :: 0 <= i < j < |r| ==> r[i]["account"] != r[j]["account"]
  {
    forall i | 0 <= i < |r|
      ensures "account" in r[i]
    {
      assert r[i] in multiset(s);
    }
    forall i, j | 0 <= i < j < |r|
      ensures r[i]["account"] != r[j]["account"]
    {
      assert r[i] in multiset(s) && r[j] in multiset(s);
      var p :| 0 <= p < |s| && s[p] == r[i];
      var q :| 0 <= q < |s| && s[q] == r[j];
      if r[i] == r[j] {
        CountTwice(r, i, j);
        CountOnce(s, r[i]);
        assert false;
      } else {
        assert p != q;
      }
    }
  }

  lemma ValuesKeyed(d: Dict)
    requires Filed(d)
    ensures AllKeyed(Values(d))
  {
    forall i | 0 <= i < |d.keys| ensures Keyed(Values(d)[i]) {
      assert d.keys[i] in d.entries;
    }
  }

  /** Every sorted value is the entry filed under its own id. */
  lemma SortedValuesFiled(d: Dict)
    requires DictOk(d) && Filed(d) && AllKeyed(Values(d))
    ensures var r := SortByKey(Values(d));
      forall k :: 0 <= k < |r| ==>
        "account" in r[k] && r[k]["account"] in d.entries && d.entries[r[k]["account"]] == r[k]
  {
    var vals := Values(d);
    var r := SortByKey(vals);
    forall k | 0 <= k < |r|
      ensures "account" in r[k] && r[k]["account"] in d.entries && d.entries[r[k]["account"]] == r[k]
    {
      assert r[k] in multiset(vals);
      var i :| 0 <= i < |vals| && vals[i] == r[k];
      assert d.keys[i] in d.entries;
    }
  }

  /** Every entry is among the sorted values. */
  lemma SortedValuesCover(d: Dict)
    requires DictOk(d) && AllKeyed(Values(d))
    ensures forall id :: id in d.entries ==> d.entries[id] in SortByKey(Values(d))
  {
    var vals := Values(d);
    forall id | id in d.entries
      ensures d.entries[id] in SortByKey(vals)
    {
      var i :| 0 <= i < |d.keys| && d.keys[i] == id;
      assert vals[i] == d.entries[id];
      assert vals[i] in multiset(SortByKey(vals));
    }
  }

  /** Each record `merge` returns is the dictionary's entry for its id. */
  lemma MergedFromEntries(contents: string)
    requires MergeOf(contents).Success?
    ensures Collect(Split(contents, '\n')).Success?
    ensures var d, r := Collect(Split(contents, '\n')).value, MergeOf(contents).value;
      forall k :: 0 <= k < |r| ==>
        "account" in r[k] && r[k]["account"] in d.entries && d.entries[r[k]["account"]] == r[k]
  {
    var d := Collect(Split(contents, '\n')).value;
    ValuesKeyed(d);
    assert MergeOf(contents) == Success(SortByKey(Values(d)));
    SortedValuesFiled(d);
  }

  /** Each entry of the dictionary is among the records `merge` returns. */
  lemma EntriesMerged(contents: string)
    requires MergeOf(contents).Success?
    ensures Collect(Split(contents, '\n')).Success?
    ensures var d, r := Collect(Split(contents, '\n')).value, MergeOf(contents).value;
      forall id :: id in d.entries ==> d.entries[id] in r
  {
    var d := Collect(Split(contents, '\n')).value;
    ValuesKeyed(d);
    assert MergeOf(contents) == Success(SortByKey(Values(d)));
    SortedValuesCover(d);
  }

  /** Last one wins: each returned record is the last line filed under its id. */
  lemma MergeKeepsLast(contents: string)
    requires MergeOf(contents).Success?
    ensures var r, lines := MergeOf(contents).value, Split(contents, '\n');
      forall k :: 0 <= k < |r| ==> "account" in r[k] && LastRecord(lines, r[k]["account"]) == Some(r[k])
  {
    var lines := Split(contents, '\n');
    var r := MergeOf(contents).value;
    MergedFromEntries(contents);
    forall k | 0 <= k < |r|
      ensures LastRecord(lines, r[k]["account"]) == Some(r[k])
    {
      CollectKeepsLast(lines, r[k]["account"]);
    }
  }

  /** Nothing is lost: every id some line files has a record in the result. */
  lemma MergeKeepsEveryId(contents: string)
    requires MergeOf(contents).Success?
    ensures var r, lines := MergeOf(contents).value, Split(contents, '\n');
      forall id :: LastRecord(lines, id).Some? ==>
        exists k :: 0 <= k < |r| && "account" in r[k] && r[k]["account"] == id
  {
    var lines := Split(contents, '\n');
    var r := MergeOf(contents).value;
    var d := Collect(lines).value;
    EntriesMerged(contents);
    forall id | LastRecord(lines, id).Some?
      ensures exists k :: 0 <= k < |r| && "account" in r[k] && r[k]["account"] == id
    {
      CollectKeepsLast(lines, id);
      var k :| 0 <= k < |r| && r[k] == d.entries[id];
    }
  }

  /** No two records of `r` carry the same account id. */
  ghost predicate IdsDistinct(r: seq<Account>)
  {
    forall i, j :: 0 <= i < j < |r| ==>
      "account" in r[i] && "account" in r[j] && r[i]["account"] != r[j]["account"]
  }

  /** No account id appears twice in the result. */
  lemma MergeIdsDistinct(contents: string)
    requires MergeOf(contents).Success?
    ensures IdsDistinct(MergeOf(contents).value)
  {
    var c := Collect(Split(contents, '\n'));
    assert c.Success?;
    SortedValuesDistinct(c.value);
    assert MergeOf(contents).value == SortByKey(Values(c.value));
  }

  /** The values of a filed dictionary carry its keys, which are distinct. */
  lemma ValuesIdsDistinct(d: Dict)
    requires DictOk(d) && Filed(d)
    ensures forall i :: 0 <= i < |Values(d)| ==> "account" in Values(d)[i]
    ensures forall i, j :: 0 <= i < j < |Values(d)| ==> Values(d)[i]["account"] != Values(d)[j]["account"]
  {
    var vals := Values(d);
    assert forall i :: 0 <= i < |vals| ==> d.keys[i] in d.entries && vals[i]["account"] == d.keys[i];
  }

  lemma SortedValuesDistinct(d: Dict)
    requires DictOk(d) && Filed(d)
    ensures AllKeyed(Values(d))
    ensures IdsDistinct(SortByKey(Values(d)))
  {
    var vals := Values(d);
    ValuesKeyed(d);
    ValuesIdsDistinct(d);
    PermutationKeepsIdsDistinct(vals, SortByKey(vals));
  }

  /** The object expirer's account never appears in the result. */
  lemma MergeDropsExpirer(contents: string)
    requires MergeOf(contents).Success?
    ensures var r := MergeOf(contents).value;
      forall k :: 0 <= k < |r| ==> "account" in r[k] && r[k]["account"] != Str(ExpiringObjects)
  {
    MergedFromEntries(contents);
  }

  /** The result is in `(domain_id, project_id)` order. */
  lemma MergeSorted(contents: string)
    requires MergeOf(contents).Success?
    ensures AllKeyed(MergeOf(contents).value) && SortedByKey(MergeOf(contents).value)
  {
    var d := Collect(Split(contents, '\n')).value;
    ValuesKeyed(d);
    SortSorted(Values(d));
  }

  // ---------------------------------------------------------------------------
  // Merging a merged list again

  /** A record every field of which is a string free of `;` and of newlines. */
  ghost predicate Clean(a: Account)
  {
    forall f :: f in a ==> a[f].Str? && Sep !in a[f].s && '\n' !in a[f].s
  }

  lemma KeptClean(line: string)
    requires '\n' !in line && Kept(line).Some?
    ensures Clean(Kept(line).value)
  {
    var a := Kept(line).value;
    assert a == ConstructOf(line).value;
    SplitKeepsOut(line, Sep, '\n');
    forall f | f in a
      ensures a[f].Str? && Sep !in a[f].s && '\n' !in a[f].s
    {
      var k :| 0 <= k < |AccountFields| && AccountFields[k] == f;
    }
  }

  /** The dictionary `merge` fills from the lines of `r`, in order. */
  function DictOf(r: seq<Account>): Dict
    requires forall k :: 0 <= k < |r| ==> "account" in r[k]
  {
    if r == [] then Dict([], map[])
    else Put(DictOf(r[..|r| - 1]), r[|r| - 1]["account"], r[|r| - 1])
  }

  /** Records with distinct ids are filed one per key, in their own order. */
  lemma {:induction false} DictOfFacts(r: seq<Account>)
    requires forall k :: 0 <= k < |r| ==> "account" in r[k]
    requires forall i, j :: 0 <= i < j < |r| ==> r[i]["account"] != r[j]["account"]
    ensures DictOk(DictOf(r)) && |DictOf(r).keys| == |r|
    ensures forall i :: 0 <= i < |r| ==>
              DictOf(r).keys[i] == r[i]["account"] && DictOf(r).entries[r[i]["account"]] == r[i]
  {
    if r != [] {
      var n := |r| - 1;
      var init := r[..n];
      assert forall i :: 0 <= i < n ==> r[i] == init[i];
      DictOfFacts(init);
      var d0 := DictOf(init);
      var id := r[n]["account"];
      forall i | 0 <= i < n
        ensures d0.keys[i] != id
      {
        assert d0.keys[i] == r[i]["account"];
      }
      assert id !in d0.keys;
      PutFresh(d0, id, r[n]);
      var d := DictOf(r);
      forall i | 0 <= i < |r|
        ensures d.keys[i] == r[i]["account"] && d.entries[r[i]["account"]] == r[i]
      {
        if i < n {
          assert r[i]["account"] != id;
        }
      }
    }
  }

  lemma ValuesOfDictOf(r: seq<Account>)
    requires forall k :: 0 <= k < |r| ==> "account" in r[k]
    requires forall i, j :: 0 <= i < j < |r| ==> r[i]["account"] != r[j]["account"]
    ensures DictOk(DictOf(r)) && Values(DictOf(r)) == r
  {
    DictOfFacts(r);
  }

  /** The lines of the first `n` records are the first `n` lines. */
  lemma LinesPrefix(r: seq<Account>, n: nat)
    requires n <= |r| && forall k :: 0 <= k < |r| ==> HasFields(r[k], AccountFields)
    ensures Lines(r, AccountFields, [Sep])[..n] == Lines(r[..n], AccountFields, [Sep])
  {
  }

  /** `merge`'s loop absorbs the last line into the dictionary of the others. */
  lemma CollectLast(lines: seq<string>, d: Dict)
    requires lines != [] && Collect(lines[..|lines| - 1]) == Success(d)
    requires Absorb(d, lines[|lines| - 1]).Success?
    ensures Collect(lines) == Absorb(d, lines[|lines| - 1])
  {
  }

  /** The line `format` writes for a clean record is filed back under its id. */
  lemma AbsorbLine(d: Dict, a: Account)
    requires Constructed(a) && Clean(a) && "account" in a && a["account"] != Str(ExpiringObjects)
    ensures HasFields(a, AccountFields)
    ensures Absorb(d, Line(a, AccountFields, [Sep])) == Success(Put(d, a["account"], a))
  {
    KeyFieldsListed();
    RoundTrip(a);
    RestrictConstructed(a);
    assert Line(a, AccountFields, [Sep]) != [];
  }

  lemma {:induction false} CollectLines(r: seq<Account>)
    requires forall k :: 0 <= k < |r| ==>
               Constructed(r[k]) && Clean(r[k]) && "account" in r[k] && r[k]["account"] != Str(ExpiringObjects)
    ensures forall k :: 0 <= k < |r| ==> HasFields(r[k], AccountFields)
    ensures Collect(Lines(r, AccountFields, [Sep])) == Success(DictOf(r))
  {
    KeyFieldsListed();
    assert forall k :: 0 <= k < |r| ==> HasFields(r[k], AccountFields);
    if r != [] {
      var n := |r| - 1;
      var init := r[..n];
      var last := r[n];
      CollectLines(init);
      AbsorbLine(DictOf(init), last);
      LinesPrefix(r, n);
      CollectLast(Lines(r, AccountFields, [Sep]), DictOf(init));
    }
  }

  /** Every field of a merged record is a string free of `;` and of newlines. */
  lemma MergedClean(contents: string)
    requires MergeOf(contents).Success?
    ensures var r := MergeOf(contents).value;
      forall k :: 0 <= k < |r| ==> Constructed(r[k]) && Clean(r[k])
  {
    var r := MergeOf(contents).value;
    var lines := Split(contents, '\n');
    MergeKeepsLast(contents);
    forall k | 0 <= k < |r|
      ensures Constructed(r[k]) && Clean(r[k])
    {
      LastRecordIsLast(lines, r[k]["account"]);
      var m :| 0 <= m < |lines| && LastRecord(lines, r[k]["account"]) == Kept(lines[m]) && Kept(lines[m]).Some?;
      KeptClean(lines[m]);
    }
  }

  /** Every value `format` writes for a clean record is free of newlines. */
  lemma CleanRendered(a: Account)
    requires Constructed(a) && Clean(a)
    ensures HasFields(a, AccountFields) && NoneContain(Rendered(a, AccountFields), '\n')
  {
    forall k | 0 <= k < |AccountFields|
      ensures AccountFields[k] in a && '\n' !in Rendered(a, AccountFields)[k]
    {
      assert AccountFields[k] in a;
    }
  }

  /** The default-format text of clean records splits into their lines and a final empty part. */
  lemma FormatOfClean(r: seq<Account>)
    requires forall k :: 0 <= k < |r| ==> Constructed(r[k]) && Clean(r[k])
    ensures forall k :: 0 <= k < |r| ==> HasFields(r[k], AccountFields)
    ensures Split(FormatText(r, AccountFields, [Sep], false), '\n') == Lines(r, AccountFields, [Sep]) + [""]
  {
    forall j | 0 <= j < |r|
      ensures HasFields(r[j], AccountFields) && NoneContain(Rendered(r[j], AccountFields), '\n')
    {
      CleanRendered(r[j]);
    }
    FieldNamesPlain();
    FormatLines(r, AccountFields, [Sep], false);
  }

  /** A list of clean records with distinct ids, none the expirer's, in key
      order, comes back unchanged from `format` followed by `merge`. */
  lemma RemergeFixedPoint(r: seq<Account>)
    requires forall k :: 0 <= k < |r| ==> Constructed(r[k]) && Clean(r[k])
    requires forall k :: 0 <= k < |r| ==> "account" in r[k] && r[k]["account"] != Str(ExpiringObjects)
    requires forall i, j :: 0 <= i < j < |r| ==> r[i]["account"] != r[j]["account"]
    requires AllKeyed(r) && SortedByKey(r)
    ensures forall k :: 0 <= k < |r| ==> HasFields(r[k], AccountFields)
    ensures MergeOf(FormatText(r, AccountFields, [Sep], false)) == Success(r)
  {
    CollectLines(r);
    var ls := Lines(r, AccountFields, [Sep]);
    FormatOfClean(r);
    assert (ls + [""])[..|ls|] == ls;
    ValuesOfDictOf(r);
    SortOfSorted(r);
  }

  /** Idempotence: merging the default-format text of a merged list gives the same list. */
  lemma MergeIdempotent(contents: string)
    requires MergeOf(contents).Success?
    ensures var r := MergeOf(contents).value;
      (forall k :: 0 <= k < |r| ==> HasFields(r[k], AccountFields))
      && MergeOf(FormatText(r, AccountFields, [Sep], false)) == Success(r)
  {
    MergedClean(contents);
    MergeDropsExpirer(contents);
    MergeIdsDistinct(contents);
    MergeSorted(contents);
    RemergeFixedPoint(MergeOf(contents).value);
  }
}
