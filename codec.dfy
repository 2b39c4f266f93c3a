/** The account line codec of caretaker/accounts.py: `format` turns account
    dictionaries into `;`-separated lines and `_construct` rebuilds a dictionary
    from one line, position by position. */
module AccountCodec {
  import opened Text
  import opened Outcomes

  /** A value stored in an account dictionary. Collected accounts hold numbers and
      a boolean; accounts rebuilt from a line hold only strings; a domain without
      a name contributes `None`. */
  datatype Value = Str(s: string) | Int(i: int) | Bool(b: bool) | Null

  /** Python's `str(v)`. */
  function Render(v: Value): string
  {
    match v
    case Str(s) => s
    case Int(i) => IntToString(i)
    case Bool(b) => if b then "True" else "False"
    case Null => "None"
  }

  /** An account dictionary: field name to value. */
  type Account = map<string, Value>

  const AccountFields: seq<string> :=
    ["account", "domain_id", "project_id", "object_count", "bytes_used", "quota_bytes",
     "status_deleted", "created_at", "delete_timestamp"]
  const AddAccountFields: seq<string> := ["backend", "domain_name", "project_name", "status"]
  const AllAccountFields: seq<string> := AddAccountFields + AccountFields
  const Sep: char := ';'

  const StatusUnknown: string := "_unknown"
  const StatusValid: string := "VALID"
  const StatusInvalid: string := "INVALID"
  const StatusOrphan: string := "ORPHAN"
  const StatusDeleted: string := "DELETED"

  /** The exceptions the codec can raise: `IndexError` from `_construct` on a
      short line, `KeyError` from `format` on a dictionary missing a field. */
  datatype CodecError = IndexError | KeyError(key: string)

  predicate HasFields(a: Account, fields: seq<string>)
  {
    forall k :: 0 <= k < |fields| ==> fields[k] in a
  }

  /** `key` is the first of `fields` that `a` lacks: the field a lookup of the
      fields in order raises `KeyError` on. */
  predicate FirstAbsent(a: Account, fields: seq<string>, key: string)
  {
    exists k :: 0 <= k < |fields| && fields[k] == key && key !in a && forall i :: 0 <= i < k ==> fields[i] in a
  }

  /** The `str` of each listed field, in the order of the list. */
  function Rendered(a: Account, fields: seq<string>): seq<string>
    requires HasFields(a, fields)
  {
    seq(|fields|, k requires 0 <= k < |fields| => Render(a[fields[k]]))
  }

  /** One account's line, without its newline. */
  function Line(a: Account, fields: seq<string>, delimiter: string): string
    requires HasFields(a, fields)
  {
    Join(Rendered(a, fields), delimiter)
  }

  function Lines(accounts: seq<Account>, fields: seq<string>, delimiter: string): seq<string>
    requires forall j :: 0 <= j < |accounts| ==> HasFields(accounts[j], fields)
  {
    seq(|accounts|, j requires 0 <= j < |accounts| => Line(accounts[j], fields, delimiter))
  }

  function FieldsFor(allFields: bool): seq<string>
  {
    if allFields then AllAccountFields else AccountFields
  }

  /** The header line of field names, when one is asked for. */
  function Header(fields: seq<string>, delimiter: string, withHeader: bool): seq<string>
  {
    if withHeader then [Join(fields, delimiter)] else []
  }

  /** The text `format` returns: an optional header line of field names, then one
      newline-terminated line per account. */
  function FormatText(accounts: seq<Account>, fields: seq<string>, delimiter: string, withHeader: bool): string
    requires forall j :: 0 <= j < |accounts| ==> HasFields(accounts[j], fields)
  {
    Terminated(Header(fields, delimiter, withHeader) + Lines(accounts, fields, delimiter), "\n")
  }

  /** The inner loop of `format`: the `str` of each field of one account, in
      order; `KeyError` on the first field the account lacks. */
  method RenderFields(account: Account, fields: seq<string>) returns (r: Result<seq<string>, CodecError>)
    ensures r.Success? <==> HasFields(account, fields)
    ensures r.Success? ==> r.value == Rendered(account, fields)
    ensures r.Failure? ==> r.error.KeyError? && FirstAbsent(account, fields, r.error.key)
  {
    var line: seq<string> := [];
    for k := 0 to |fields|
      invariant forall i :: 0 <= i < k ==> fields[i] in account
      invariant |line| == k
      invariant forall i :: 0 <= i < k ==> line[i] == Render(account[fields[i]])
    {
      if fields[k] !in account {
        return Failure(KeyError(fields[k]));
      }
      line := line + [Render(account[fields[k]])];
    }
    return Success(line);
  }

  /** `format(accounts, all_fields, delimiter, with_header)`. */
  method Format(accounts: seq<Account>, allFields: bool, delimiter: string, withHeader: bool)
    returns (r: Result<string, CodecError>)
    ensures r.Success? <==> forall j :: 0 <= j < |accounts| ==> HasFields(accounts[j], FieldsFor(allFields))
    ensures r.Success? ==> r.value == FormatText(accounts, FieldsFor(allFields), delimiter, withHeader)
    ensures r.Failure? ==> r.error.KeyError?
    ensures r.Failure? ==>
      exists j :: 0 <= j < |accounts| && (forall i :: 0 <= i < j ==> HasFields(accounts[i], FieldsFor(allFields)))
                  && FirstAbsent(accounts[j], FieldsFor(allFields), r.error.key)
  {
    var result := "";
    var fields := FieldsFor(allFields);
    if withHeader {
      result := Join(fields, delimiter) + "\n";
    }
    ghost var head := Header(fields, delimiter, withHeader);
    ghost var emitted: seq<string> := head;
    assert result == Terminated(emitted, "\n");
    for n := 0 to |accounts|
      invariant forall j :: 0 <= j < n ==> HasFields(accounts[j], fields)
      invariant |emitted| == |head| + n && emitted[..|head|] == head
      invariant forall j :: 0 <= j < n ==> emitted[|head| + j] == Line(accounts[j], fields, delimiter)
      invariant result == Terminated(emitted, "\n")
    {
      var line := RenderFields(accounts[n], fields);
      if line.Failure? {
        assert FirstAbsent(accounts[n], fields, line.error.key);
        return Failure(line.error);
      }
      var text := Join(line.value, delimiter);
      TerminatedSnoc(emitted, text, "\n");
      emitted := emitted + [text];
      result := result + text + "\n";
    }
    assert emitted == head + Lines(accounts, fields, delimiter);
    return Success(result);
  }

  /** Every field of `fields` set, in order, to the string at the same position. */
  function Fill(fields: seq<string>, values: seq<string>): Account
    requires |values| >= |fields|
  {
    if fields == [] then map[]
    else Fill(fields[..|fields| - 1], values)[fields[|fields| - 1] := Str(values[|fields| - 1])]
  }

  /** What `_construct` returns: the record of exactly the nine ACCOUNT_FIELDS, each a
      string; the id field `account` among them is named so contracts can read it. */
  ghost predicate Constructed(a: Account)
  {
    (forall f :: f in a <==> f in AccountFields) && (forall f :: f in a ==> a[f].Str?) && "account" in a
  }

  /** No field name holds a newline, so a header line stays one line. */
  lemma FieldNamesPlain()
    ensures NoneContain(AccountFields, '\n')
  {
    assert NoneContain(["account", "domain_id", "project_id", "object_count", "bytes_used", "quota_bytes",
                        "status_deleted", "created_at", "delete_timestamp"], '\n');
  }

  lemma KeyFieldsListed()
    ensures "account" in AccountFields && "domain_id" in AccountFields && "project_id" in AccountFields
    ensures "status_deleted" in AccountFields
  {
    assert AccountFields[0] == "account" && AccountFields[1] == "domain_id" && AccountFields[2] == "project_id";
    assert AccountFields[6] == "status_deleted";
  }

  lemma AccountFieldsDistinct()
    ensures forall i, j :: 0 <= i < j < |AccountFields| ==> AccountFields[i] != AccountFields[j]
  {
  }

  lemma {:induction false} FillFacts(fields: seq<string>, values: seq<string>)
    requires |values| >= |fields|
    requires forall i, j :: 0 <= i < j < |fields| ==> fields[i] != fields[j]
    ensures forall f :: f in Fill(fields, values) <==> f in fields
    ensures forall k :: 0 <= k < |fields| ==> Fill(fields, values)[fields[k]] == Str(values[k])
  {
    if fields != [] {
      var init := fields[..|fields| - 1];
      FillFacts(init, values);
      forall f
        ensures f in Fill(fields, values) <==> f in fields
      {
        assert f in fields <==> f in init || f == fields[|fields| - 1];
      }
      forall k | 0 <= k < |fields|
        ensures Fill(fields, values)[fields[k]] == Str(values[k])
      {
        if k < |fields| - 1 {
          assert fields[k] == init[k];
        }
      }
    }
  }

  /** `_construct(content)`, as a value: the line split on `;`, the first nine
      segments mapped positionally to ACCOUNT_FIELDS. With fewer than nine
      segments the source raises `IndexError`; segments past the ninth are ignored. */
  function ConstructOf(content: string): (r: Result<Account, CodecError>)
    ensures r.Failure? <==> |Split(content, Sep)| < |AccountFields|
    ensures r.Failure? ==> r.error == IndexError
    ensures r.Success? ==> Constructed(r.value)
    ensures r.Success? ==> forall k :: 0 <= k < |AccountFields| ==>
              r.value[AccountFields[k]] == Str(Split(content, Sep)[k])
  {
    var values := Split(content, Sep);
    if |values| < |AccountFields| then Failure(IndexError)
    else
      AccountFieldsDistinct();
      KeyFieldsListed();
      FillFacts(AccountFields, values);
      var a := Fill(AccountFields, values);
      assert forall f :: f in a ==> a[f].Str? by {
        forall f | f in a ensures a[f].Str? {
          var k :| 0 <= k < |AccountFields| && AccountFields[k] == f;
        }
      }
      Success(a)
  }

  /** `_construct(content)`: fills the dictionary field by field with counter `i`. */
  method Construct(content: string) returns (r: Result<Account, CodecError>)
    ensures r == ConstructOf(content)
  {
    var account: Account := map[];
    var i := 0;
    var values := Split(content, Sep);
    for f := 0 to |AccountFields|
      invariant i == f && i <= |values|
      invariant account == Fill(AccountFields[..f], values)
    {
      if i >= |values| {
        return Failure(IndexError);
      }
      assert AccountFields[..f + 1][..f] == AccountFields[..f];
      account := account[AccountFields[f] := Str(values[i])];
      i := i + 1;
    }
    assert AccountFields[..|AccountFields|] == AccountFields;
    return Success(account);
  }

  /** The fields of `a` that are listed in `fields`. */
  function Restrict(a: Account, fields: seq<string>): Account
  {
    map f | f in a && f in fields :: a[f]
  }

  /** Round trip: `_construct` on the default-format line of an account whose
      ACCOUNT_FIELDS are strings free of `;` gives back exactly those fields. */
  lemma RoundTrip(a: Account)
    requires HasFields(a, AccountFields)
    requires forall k :: 0 <= k < |AccountFields| ==> a[AccountFields[k]].Str? && Sep !in a[AccountFields[k]].s
    ensures ConstructOf(Line(a, AccountFields, [Sep])) == Success(Restrict(a, AccountFields))
  {
    var parts := Rendered(a, AccountFields);
    assert NoneContain(parts, Sep);
    SplitJoin(parts, Sep);
    var r := ConstructOf(Line(a, AccountFields, [Sep]));
    assert r.Success?;
    forall f
      ensures f in r.value <==> f in Restrict(a, AccountFields)
      ensures f in r.value ==> r.value[f] == Restrict(a, AccountFields)[f]
    {
      if f in AccountFields {
        var k :| 0 <= k < |AccountFields| && AccountFields[k] == f;
        assert r.value[f] == Str(parts[k]);
        assert a[f] == Str(parts[k]);
      }
    }
    assert r.value == Restrict(a, AccountFields);
  }

  /** A record `_construct` built is its own restriction to ACCOUNT_FIELDS. */
  lemma RestrictConstructed(a: Account)
    requires Constructed(a)
    ensures Restrict(a, AccountFields) == a
  {
  }

  /** `format`'s text splits on newlines into the header (when asked for), one line
      per account in input order, and a final empty segment after the last newline. */
  lemma FormatLines(accounts: seq<Account>, fields: seq<string>, delimiter: string, withHeader: bool)
    requires forall j :: 0 <= j < |accounts| ==> HasFields(accounts[j], fields)
    requires '\n' !in delimiter && NoneContain(fields, '\n')
    requires forall j :: 0 <= j < |accounts| ==> NoneContain(Rendered(accounts[j], fields), '\n')
    ensures Split(FormatText(accounts, fields, delimiter, withHeader), '\n')
         == Header(fields, delimiter, withHeader) + Lines(accounts, fields, delimiter) + [""]
  {
    var all := Header(fields, delimiter, withHeader) + Lines(accounts, fields, delimiter);
    JoinKeepsOut(fields, delimiter, '\n');
    forall j | 0 <= j < |accounts|
      ensures '\n' !in Line(accounts[j], fields, delimiter)
    {
      JoinKeepsOut(Rendered(accounts[j], fields), delimiter, '\n');
    }
    assert NoneContain(all, '\n');
    SplitTerminated(all, '\n');
  }
}
