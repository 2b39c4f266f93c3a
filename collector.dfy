/** `_format_accounts` of caretaker/collector.py: the accounts a node collected,
    as a header line of field names followed by one delimited line per account,
    the lines separated by newlines. */
module Collector {
  import opened Text
  import opened Outcomes
  import AccountCodec

  /** The header, in the order every line lists its values. */
  const CollectedFields: seq<string> :=
    ["domain", "id", "project", "created_at", "delete_timestamp", "object_count", "bytes_used", "quota_bytes"]

  /** The first five values are joined as they are, so they must be strings;
      the three counts are passed through `str` first. */
  const TextFieldCount: nat := 5

  /** The delimiter when the caller gives none. */
  const DefaultDelimiter: string := ","

  /** `account[field]` on a missing key raises `KeyError`; `delimiter.join` on a
      value that is not a string raises `TypeError`. */
  datatype FormatError = KeyError(key: string) | TypeError(key: string)

  /** An account `_format_accounts` can write: every field present, the first
      five of them strings. */
  predicate Writable(a: AccountCodec.Account)
  {
    AccountCodec.HasFields(a, CollectedFields)
    && forall k :: 0 <= k < TextFieldCount ==> a[CollectedFields[k]].Str?
  }

  /** The first of `fields` that `a` lacks. */
  function FirstMissing(a: AccountCodec.Account, fields: seq<string>): (r: Option<string>)
    ensures r.None? <==> AccountCodec.HasFields(a, fields)
    ensures r.Some? ==> AccountCodec.FirstAbsent(a, fields, r.value)
  {
    if fields == [] then None
    else if fields[0] !in a then Some(fields[0])
    else
      var r := FirstMissing(a, fields[1..]);
      assert r.Some? ==> AccountCodec.FirstAbsent(a, fields, r.value) by {
        if r.Some? {
          var k :| 0 <= k < |fields[1..]| && fields[1..][k] == r.value && r.value !in a
                   && forall i :: 0 <= i < k ==> fields[1..][i] in a;
          assert fields[k + 1] == r.value;
          forall i | 0 <= i < k + 1 ensures fields[i] in a {
            if i > 0 {
              assert fields[i] == fields[1..][i - 1];
            }
          }
        }
      }
      assert r.None? ==> forall k :: 0 <= k < |fields| ==> fields[k] in a by {
        if r.None? {
          forall k | 0 <= k < |fields| ensures fields[k] in a {
            if k > 0 {
              assert fields[k] == fields[1..][k - 1];
            }
          }
        }
      }
      r
  }

  /** `key` is the first of `fields` whose value in `a` is not a string: the
      value `join` raises `TypeError` on. */
  predicate FirstNonString(a: AccountCodec.Account, fields: seq<string>, key: string)
    requires AccountCodec.HasFields(a, fields)
  {
    exists k :: 0 <= k < |fields| && fields[k] == key && !a[key].Str? && forall i :: 0 <= i < k ==> a[fields[i]].Str?
  }

  /** The first of `fields` whose value in `a` is not a string. */
  function FirstNonText(a: AccountCodec.Account, fields: seq<string>): (r: Option<string>)
    requires AccountCodec.HasFields(a, fields)
    ensures r.None? <==> forall k :: 0 <= k < |fields| ==> a[fields[k]].Str?
    ensures r.Some? ==> FirstNonString(a, fields, r.value)
  {
    if fields == [] then None
    else if !a[fields[0]].Str? then Some(fields[0])
    else
      var r := FirstNonText(a, fields[1..]);
      assert r.Some? ==> FirstNonString(a, fields, r.value) by {
        if r.Some? {
          var k :| 0 <= k < |fields[1..]| && fields[1..][k] == r.value && !a[r.value].Str?
                   && forall i :: 0 <= i < k ==> a[fields[1..][i]].Str?;
          assert fields[k + 1] == r.value;
          forall i | 0 <= i < k + 1 ensures a[fields[i]].Str? {
            if i > 0 {
              assert fields[i] == fields[1..][i - 1];
            }
          }
        }
      }
      assert r.None? ==> forall k :: 0 <= k < |fields| ==> a[fields[k]].Str? by {
        if r.None? {
          forall k | 0 <= k < |fields| ensures a[fields[k]].Str? {
            if k > 0 {
              assert fields[k] == fields[1..][k - 1];
            }
          }
        }
      }
      r
  }

  /** The line `_format_accounts` writes for one account: the eight values are
      looked up in order, which raises `KeyError` on the first one missing before
      anything is joined; then `join` raises `TypeError` on the first of the five
      text values that is not a string. `str` of a string is the string itself,
      so the line is the `str` of every field. */
  function AccountLine(a: AccountCodec.Account, delimiter: string): (r: Result<string, FormatError>)
    ensures r.Success? <==> Writable(a)
    ensures r.Success? ==> r.value == Join(AccountCodec.Rendered(a, CollectedFields), delimiter)
    ensures !AccountCodec.HasFields(a, CollectedFields) ==> r.Failure? && r.error.KeyError?
    ensures r.Failure? && r.error.KeyError? ==> AccountCodec.FirstAbsent(a, CollectedFields, r.error.key)
    ensures r.Failure? && r.error.TypeError? ==>
      AccountCodec.HasFields(a, CollectedFields)
      && FirstNonString(a, CollectedFields[..TextFieldCount], r.error.key)
  {
    match FirstMissing(a, CollectedFields)
    case Some(f) => Failure(KeyError(f))
    case None =>
      var text := CollectedFields[..TextFieldCount];
      assert forall k :: 0 <= k < |text| ==> text[k] == CollectedFields[k];
      match FirstNonText(a, text)
      case Some(f) => Failure(TypeError(f))
      case None => Success(Join(AccountCodec.Rendered(a, CollectedFields), delimiter))
  }

  /** The position of the first account that cannot be written, or the end. */
  function FirstUnwritable(accounts: seq<AccountCodec.Account>): (j: nat)
    ensures j <= |accounts|
    ensures forall i :: 0 <= i < j ==> Writable(accounts[i])
    ensures j < |accounts| ==> !Writable(accounts[j])
  {
    if accounts == [] then 0
    else if !Writable(accounts[0]) then 0
    else 1 + FirstUnwritable(accounts[1..])
  }

  /** The header line. */
  function Header(delimiter: string): string
  {
    Join(CollectedFields, delimiter)
  }

  /** The line of every account, in order. */
  function AccountLines(accounts: seq<AccountCodec.Account>, delimiter: string): (lines: seq<string>)
    requires forall j :: 0 <= j < |accounts| ==> Writable(accounts[j])
    ensures |lines| == |accounts|
  {
    seq(|accounts|, j requires 0 <= j < |accounts| => AccountLine(accounts[j], delimiter).value)
  }

  /** One more account adds its line at the end. */
  lemma AccountLinesSnoc(accounts: seq<AccountCodec.Account>, delimiter: string, n: nat)
    requires n < |accounts|
    requires forall j :: 0 <= j <= n ==> Writable(accounts[j])
    ensures AccountLines(accounts[..n + 1], delimiter)
      == AccountLines(accounts[..n], delimiter) + [AccountLine(accounts[n], delimiter).value]
  {
  }

  /** What `_format_accounts(accounts, delimiter)` returns: the header and the
      line of every account, separated by newlines; or the exception of the
      first account that cannot be written. */
  function FormatAccountsOf(accounts: seq<AccountCodec.Account>, delimiter: string): (r: Result<string, FormatError>)
    ensures r.Success? <==> forall j :: 0 <= j < |accounts| ==> Writable(accounts[j])
    ensures accounts == [] ==> r == Success(Header(delimiter))
  {
    var j := FirstUnwritable(accounts);
    if j < |accounts| then Failure(AccountLine(accounts[j], delimiter).error)
    else
      assert accounts == [] ==> [Header(delimiter)] + AccountLines(accounts, delimiter) == [Header(delimiter)];
      Success(Join([Header(delimiter)] + AccountLines(accounts, delimiter), "\n"))
  }

  /** `_format_accounts(accounts, delimiter)`: the header, then each account's
      line appended after a newline. */
  method FormatAccounts(accounts: seq<AccountCodec.Account>, delimiter: string) returns (r: Result<string, FormatError>)
    ensures r == FormatAccountsOf(accounts, delimiter)
  {
    var result := Join(CollectedFields, delimiter);
    ghost var lines: seq<string> := [result];
    for n := 0 to |accounts|
      invariant forall j :: 0 <= j < n ==> Writable(accounts[j])
      invariant lines == [Header(delimiter)] + AccountLines(accounts[..n], delimiter)
      invariant result == Join(lines, "\n")
    {
      var line := AccountLine(accounts[n], delimiter);
      if line.Failure? {
        assert FirstUnwritable(accounts) == n;
        return Failure(line.error);
      }
      JoinSnoc(lines, line.value, "\n");
      AccountLinesSnoc(accounts, delimiter, n);
      lines := lines + [line.value];
      result := result + "\n" + line.value;
    }
    assert accounts[..|accounts|] == accounts;
    return Success(result);
  }

  /** `_format_accounts(accounts)`, with the default delimiter. */
  method FormatAccountsDefault(accounts: seq<AccountCodec.Account>) returns (r: Result<string, FormatError>)
    ensures r == FormatAccountsOf(accounts, DefaultDelimiter)
  {
    r := FormatAccounts(accounts, DefaultDelimiter);
  }

  // ---------------------------------------------------------------------------
  // Properties

  /** No field name contains a newline. */
  lemma FieldNamesSingleLine()
    ensures NoneContain(CollectedFields, '\n')
  {
  }

  /** No field name contains a comma. */
  lemma FieldNamesCommaFree()
    ensures NoneContain(CollectedFields, ',')
  {
  }

  /** With the default delimiter the header names the eight columns: split on
      commas it gives back the field names, in order. */
  lemma DefaultHeaderColumns()
    ensures Split(Header(DefaultDelimiter), ',') == CollectedFields
  {
    FieldNamesCommaFree();
    SplitJoin(CollectedFields, ',');
  }

  /** When no value and not the delimiter contain a newline, the output splits
      on newlines into exactly `1 + len(accounts)` lines: the header first, then
      the line of each account in input order, with no empty line after the last. */
  lemma FormatAccountsLines(accounts: seq<AccountCodec.Account>, delimiter: string)
    requires forall j :: 0 <= j < |accounts| ==>
      Writable(accounts[j]) && NoneContain(AccountCodec.Rendered(accounts[j], CollectedFields), '\n')
    requires '\n' !in delimiter
    ensures var parts := Split(FormatAccountsOf(accounts, delimiter).value, '\n');
      |parts| == 1 + |accounts|
      && parts[0] == Header(delimiter)
      && forall j :: 0 <= j < |accounts| ==> parts[j + 1] == AccountLine(accounts[j], delimiter).value
  {
    var all := [Header(delimiter)] + AccountLines(accounts, delimiter);
    FieldNamesSingleLine();
    JoinKeepsOut(CollectedFields, delimiter, '\n');
    forall j | 0 <= j < |accounts|
      ensures '\n' !in AccountLine(accounts[j], delimiter).value
    {
      JoinKeepsOut(AccountCodec.Rendered(accounts[j], CollectedFields), delimiter, '\n');
    }
    assert NoneContain(all, '\n');
    SplitJoin(all, '\n');
  }

  /** With a one-character delimiter that no value contains, each account's line
      splits back into its eight values, in header order. */
  lemma AccountLineSplits(a: AccountCodec.Account, sep: char)
    requires Writable(a)
    requires NoneContain(AccountCodec.Rendered(a, CollectedFields), sep)
    ensures Split(AccountLine(a, [sep]).value, sep) == AccountCodec.Rendered(a, CollectedFields)
    ensures |Split(AccountLine(a, [sep]).value, sep)| == |CollectedFields|
  {
    SplitJoin(AccountCodec.Rendered(a, CollectedFields), sep);
  }
}
