# swift-account-caretaker, the reconciliation core, in Dafny

The caretaker finds the accounts of a Swift cluster and checks each one against
the identity service (keystone) that should own it. Storage nodes collect their
account records and write them as delimited text. `merge` joins those texts into
one list, one record per account id. `verify` then asks keystone, through a
cache of domains, whether each account's domain and project exist. It marks each
account DELETED, VALID, INVALID or ORPHAN, or leaves it `_unknown`.

This project models that core:

- `text.dfy` (module `Text`) models the Python string primitives the core uses:
  `str.split` on one character, `str.join`, `str(int)` and the `<` order on `str`.
- `codec.dfy` (module `AccountCodec`) models the account dictionary, the field
  lists and status constants, `format`, and `_construct`.
- `merge.dfy` (module `AccountMerge`) models `merge`, including its dictionary
  in insertion order and `sorted` by `(domain_id, project_id)`.
- `common.dfy` (module `Common`) models `DomainWrapper` and `ProjectWrapper`.
  `DomainWrapper` is a class whose project cache is updated in place.
  `ProjectWrapper` is a value.
- `domains.dfy` (module `DomainCache`) models `_DomainHelper`: the shared
  `domains` cache as a class, and `get_domain` and `get_default_domain` over it.
- `verify.dfy` (module `AccountVerify`) models `verify`: the parse loop, the
  classification loop and its counters.
- `collector.dfy` (module `Collector`) models `_format_accounts`, the report a
  storage node writes.

Each imperative routine is a `method` with loops. Each is proved equal to a
function of its inputs and the old state: `Format`, `Construct`, `Merge`,
`ParseLines`, `CheckAccounts`, `Verify`, the `DomainHelper` methods,
`DomainWrapper.GetProject` and `FormatAccounts`. The properties are proved as
lemmas about those functions.

Keystone is an input, not a service. A keystone endpoint is a map from domain id
to what `domains.get` returns or raises. A domain's client is a map from project
id to what `projects.get` returns or raises. `random.randint(0, 1000)` is a
parameter of type `Draw`. `verify` takes one draw per account position.

Behaviour of the code worth knowing, which the model follows:

- A line with the wrong number of fields is not rejected on its own. `_construct`
  raises `IndexError` only when a line has fewer than nine `;`-separated parts.
  That error ends `merge` or `verify` as a whole. Extra parts are ignored.
- `BadRequest` from keystone is not a final INVALID. In `get_domain`,
  `BadRequest`, `Unauthorized`, `Forbidden` and `NotFound` are all handled alike:
  the next endpoint is tried. Any other exception leaves `verify`.
- Every exception from `get_project` gives no project. The account then becomes
  ORPHAN, including on a timeout.
- `verify` does not skip `.expiring_objects`. Only `merge` drops it.
- `merge` breaks no ties by account id. Records with equal
  `(domain_id, project_id)` keep the order in which `accounts.values()` lists
  them. The model takes that to be the order in which their ids were first
  filed (see "## Left out" on dictionary order).
- The orphan counter is `len(accounts) - valid - deleted`. It also counts INVALID
  accounts and accounts that were never resolved.
- The domain cache is a class attribute. It is shared by every `_DomainHelper`
  and outlives one call of `verify`. Callers get the cached wrapper objects
  themselves, not copies.

## Model

| member | source | states |
|---|---|---|
| Text.Split | caretaker/accounts.py:112 | `split` on one character returns at least one part, and no part contains the separator |
| Text.SplitJoin | caretaker/accounts.py:194 | splitting a `join` of at least one part, none holding the separator, gives the parts back |
| Text.JoinKeepsOut | caretaker/accounts.py:56 | a character absent from the parts and the delimiter is absent from their join |
| Text.NatToStringValue | caretaker/accounts.py:54 | `str(n)` of a natural number is its decimal numeral: read back, it is `n` |
| Text.NatToStringInjective | caretaker/accounts.py:54 | two naturals have the same `str` exactly when they are equal |
| Text.IntToStringChars | caretaker/accounts.py:54 | `str(i)` of an integer holds only digits and a minus sign, so never the `;` separator |
| Text.BelowIrreflexive | caretaker/accounts.py:125 | no string sorts below itself |
| Text.BelowTotal | caretaker/accounts.py:125 | of two different strings one sorts below the other |
| Text.BelowAsymmetric | caretaker/accounts.py:125 | two strings never sort below each other |
| Text.BelowTransitive | caretaker/accounts.py:125 | string order is transitive |
| AccountCodec.Render | caretaker/accounts.py:54 | definition of `str(v)`; properties in `Text.IntToStringChars` and `Text.NatToStringValue` |
| AccountCodec.FormatText | caretaker/accounts.py:42-58 | definition of the text `format` returns; properties in `FormatLines`, `RoundTrip` and `AccountMerge.MergeIdempotent` |
| AccountCodec.AccountFieldsDistinct | caretaker/accounts.py:30-31 | proof helper: the nine record fields are pairwise distinct |
| AccountCodec.FieldNamesPlain | caretaker/accounts.py:30-31 | proof helper: no record field name contains a newline |
| AccountCodec.KeyFieldsListed | caretaker/accounts.py:30-31 | proof helper: `account`, `domain_id`, `project_id` and `status_deleted` are record fields |
| AccountCodec.RenderFields | caretaker/accounts.py:52-54 | the inner loop of `format` succeeds exactly when the account has every field, gives `str` of each in field order, and otherwise raises `KeyError` for the first field, in field order, that the account lacks |
| AccountCodec.Format | caretaker/accounts.py:42-58 | `format` succeeds exactly when every account has every chosen field; the text is the optional header and one delimited line per account, each ended by a newline; otherwise `KeyError` for the first missing field, in field order, of the first account that lacks one |
| AccountCodec.FormatLines | caretaker/accounts.py:42-58 | when no name, value or delimiter holds a newline, the text splits on newlines into the header (when asked), one line per account in order, and one empty part after the final newline |
| AccountCodec.FillFacts | caretaker/accounts.py:196-198 | the rebuilt dictionary has exactly the listed fields, each holding the value at its position |
| AccountCodec.ConstructOf | caretaker/accounts.py:191-200 | `_construct` raises `IndexError` exactly when the line has fewer than nine `;`-parts; otherwise every field holds the string at its position, and only the nine fields are present |
| AccountCodec.Construct | caretaker/accounts.py:191-200 | the loop of `_construct` computes `ConstructOf` |
| AccountCodec.RoundTrip | caretaker/accounts.py:191-200 | `_construct` of the line `format` writes for an account whose nine values are strings without `;` gives back those nine fields |
| AccountCodec.RestrictConstructed | caretaker/accounts.py:191-200 | a rebuilt record holds exactly the nine fields |
| AccountMerge.Put | caretaker/accounts.py:122 | definition of `accounts[id] = account` on an insertion-ordered dictionary; properties in `PutFresh` and `PutPresent` |
| AccountMerge.Values | caretaker/accounts.py:125 | definition of `accounts.values()`, in key order; properties in `ValuesIdsDistinct` and `ValuesOfDictOf` |
| AccountMerge.Absorb | caretaker/accounts.py:112-122 | definition of one pass of `merge`'s loop; properties in `AbsorbKept` and `AbsorbFiled` |
| AccountMerge.MergeOf | caretaker/accounts.py:109-125 | definition of what `merge` returns; properties in `MergeFails`, `MergeKeepsLast`, `MergeSorted` and `MergeIdempotent` |
| AccountMerge.KeyBelowIrreflexive | caretaker/accounts.py:125 | no sort key sorts below itself |
| AccountMerge.KeyBelowTotal | caretaker/accounts.py:125 | of two different `(domain_id, project_id)` keys one sorts below the other |
| AccountMerge.KeyBelowTransitive | caretaker/accounts.py:125 | the key order is transitive |
| AccountMerge.KeyNotBelowTransitive | caretaker/accounts.py:125 | "not below" on keys is transitive, as a stable sort needs |
| AccountMerge.Insert | caretaker/accounts.py:125 | inserting into a list adds exactly that record |
| AccountMerge.SortByKey | caretaker/accounts.py:125 | `sorted` returns a permutation of its input |
| AccountMerge.InsertSorted | caretaker/accounts.py:125 | inserting into a sorted list keeps it sorted |
| AccountMerge.SortSorted | caretaker/accounts.py:125 | `sorted` returns a list in `(domain_id, project_id)` order |
| AccountMerge.SortOfSorted | caretaker/accounts.py:125 | `sorted` leaves a list already in key order unchanged, because the sort is stable |
| AccountMerge.PutFresh | caretaker/accounts.py:122 | filing a new id appends it to the dictionary's key order |
| AccountMerge.PutPresent | caretaker/accounts.py:122 | filing an existing id replaces its record and keeps the key order |
| AccountMerge.Collect | caretaker/accounts.py:110-122 | the loop's dictionary files each record under its own `account` value, never `.expiring_objects`, and its only error is `IndexError` |
| AccountMerge.CollectFailurePersists | caretaker/accounts.py:112-115 | once a prefix of the lines raises, the whole loop raises the same error |
| AccountMerge.Merge | caretaker/accounts.py:109-125 | the loop over the lines, then the sort, computes `MergeOf` |
| AccountMerge.Kept | caretaker/accounts.py:113-119 | a line that yields a record gives a well-formed record whose id is not `.expiring_objects` |
| AccountMerge.LastOfIsLast | caretaker/accounts.py:122 | the record last filed under an id is the last line carrying it, and there is none exactly when no line carries the id |
| AccountMerge.LastRecordIsLast | caretaker/accounts.py:112-122 | as `LastOfIsLast`, over the lines of the input text |
| AccountMerge.CollectFails | caretaker/accounts.py:112-115 | the loop fails exactly when some nonempty line has fewer than nine fields |
| AccountMerge.MergeFails | caretaker/accounts.py:109-125 | `merge` fails exactly when some nonempty line is short, and then with `IndexError` |
| AccountMerge.CollectKeepsLast | caretaker/accounts.py:110-122 | an id is in the dictionary exactly when some line carries it, and its entry is the last such record |
| AccountMerge.PermutationKeepsIdsDistinct | caretaker/accounts.py:125 | reordering a list with distinct ids keeps the ids distinct |
| AccountMerge.SortedValuesFiled | caretaker/accounts.py:125 | each record of the sorted list is the dictionary's entry for its id |
| AccountMerge.SortedValuesCover | caretaker/accounts.py:125 | every entry of the dictionary is in the sorted list |
| AccountMerge.MergedFromEntries | caretaker/accounts.py:122-125 | each record `merge` returns is the dictionary's entry for its own id |
| AccountMerge.EntriesMerged | caretaker/accounts.py:122-125 | every entry of the dictionary is among the records `merge` returns |
| AccountMerge.MergeKeepsLast | caretaker/accounts.py:109-125 | last one wins: each returned record is the last line filed under its id |
| AccountMerge.MergeKeepsEveryId | caretaker/accounts.py:109-125 | every id carried by a kept line has a record in the result |
| AccountMerge.MergeIdsDistinct | caretaker/accounts.py:109-125 | no account id occurs twice in the result |
| AccountMerge.ValuesIdsDistinct | caretaker/accounts.py:122 | the dictionary's values carry its keys, which are distinct |
| AccountMerge.SortedValuesDistinct | caretaker/accounts.py:125 | the sorted values of the dictionary have distinct ids |
| AccountMerge.MergeDropsExpirer | caretaker/accounts.py:117-119 | `.expiring_objects` never occurs in the result |
| AccountMerge.MergeSorted | caretaker/accounts.py:125 | the result is in `(domain_id, project_id)` order |
| AccountMerge.KeptClean | caretaker/accounts.py:191-200 | a record rebuilt from one line holds only strings free of `;` and newlines |
| AccountMerge.MergedClean | caretaker/accounts.py:109-125 | every record `merge` returns has the nine string fields, free of `;` and newlines |
| AccountMerge.DictOfFacts | caretaker/accounts.py:122 | records with distinct ids are filed one per key, in their own order |
| AccountMerge.ValuesOfDictOf | caretaker/accounts.py:122-125 | filing records with distinct ids and listing the values gives them back |
| AccountMerge.CollectLines | caretaker/accounts.py:110-122 | the loop over the lines `format` writes for clean records files exactly those records |
| AccountMerge.FormatOfClean | caretaker/accounts.py:42-58 | `format` of clean records splits into their lines and a final empty part |
| AccountMerge.RemergeFixedPoint | caretaker/accounts.py:109-125 | a list of clean records with distinct ids, none the expirer's, in key order, comes back unchanged from `format` then `merge` |
| AccountMerge.MergeIdempotent | caretaker/accounts.py:109-125 | `merge(format(merge(t)))` equals `merge(t)` |
| Common.WrapperId | caretaker/common.py:110-114 | definition of the id `__init__` gives a wrapper; properties in `DefaultIdForm`, `WrapperIdStartsDefault` and `DefaultIdsApart` |
| Common.FetchProject | caretaker/common.py:123-137 | definition of what `get_project` returns and caches; properties in `FetchHit`, `FetchFound`, `FetchStores` and `FetchTwice` |
| Common.NewProjectWrapper | caretaker/common.py:140-144 | a new `ProjectWrapper` keeps the id, has no name and is disabled |
| Common.DomainWrapper.constructor | caretaker/common.py:109-118 | a new wrapper takes the renamed id, has no name, is disabled, and has no projects and no client; `__init__` creates no `backend` attribute, and the model writes that absence as no backend |
| Common.DomainWrapper.AddProject | caretaker/common.py:120-121 | `add_project` files the project under its id and changes nothing else |
| Common.DomainWrapper.GetProject | caretaker/common.py:123-137 | `get_project` returns and caches what `FetchProject` says: a hit, else a fetched project, cached raw, returned wrapped, else nothing |
| Common.DefaultIdForm | caretaker/common.py:110-114 | a `default` domain is renamed `default_` plus the draw's numeral, which reads back as a number from 0 to 1000; other ids are kept |
| Common.WrapperIdStartsDefault | caretaker/common.py:110-114 | a wrapper id starts with `default_` exactly when the domain id is `default` or already starts so |
| Common.DefaultIdsApart | caretaker/common.py:110-114 | two `default` domains get the same wrapper id exactly when their draws are equal |
| Common.FetchHit | caretaker/common.py:124-125 | a cached project is returned whatever the client, and the cache is unchanged |
| Common.FetchFound | caretaker/common.py:123-137 | a project is found exactly when it is cached or the client returns it; when none is found the cache is unchanged |
| Common.FetchStores | caretaker/common.py:126-133 | a fetched project is returned as a new wrapper, its raw object is cached under its own id, and nothing else changes |
| Common.FetchKeepsConsistent | caretaker/common.py:120-133 | every cache entry stays filed under its own id |
| Common.FetchTwice | caretaker/common.py:123-137 | once found, asking again for the same project hits the cache and gives the same id, name and enabled flag |
| DomainCache.Wrap | caretaker/accounts.py:270-274 | definition of the wrapper `get_domain` builds; properties in `ProbeDecided` and `NewWrapper` |
| DomainCache.FetchAt | caretaker/accounts.py:164 | definition of `get_project` on a cached domain; properties in `ScanFinds` and `DomainHelper.AskProject` |
| DomainCache.Store | caretaker/accounts.py:276 | filing a wrapper puts it under its id and keeps every other entry; the old key order stays a prefix of the new one, at most one key longer |
| DomainCache.Probe | caretaker/accounts.py:253-280 | trying the endpoints in turn keeps the cache well-formed, and a found domain is in the cache |
| DomainCache.GetDomainOf | caretaker/accounts.py:249-280 | `get_domain` keeps the cache well-formed, and a domain it returns is in the cache |
| DomainCache.GetDomainHit | caretaker/accounts.py:250-251 | a cached domain id is answered from the cache, whatever the endpoints and draw |
| DomainCache.FirstStop | caretaker/accounts.py:253-280 | the endpoints before the first one that answers or raises an unhandled error all raised handled errors |
| DomainCache.ProbeDecided | caretaker/accounts.py:253-280 | no answering endpoint gives None and an unchanged cache; the first answering endpoint's domain is wrapped and cached; the first unhandled error is raised |
| DomainCache.WrapperIdNotDefault | caretaker/common.py:110-114 | no wrapper is filed under the id `default` |
| DomainCache.DefaultAlwaysProbes | caretaker/accounts.py:249-277 | `get_domain("default")` never hits the cache, and never files anything under `default` |
| DomainCache.DefaultKeys | caretaker/accounts.py:283 | the scanned keys are the cached keys starting with `default_` |
| DomainCache.SetProjects | caretaker/common.py:132 | updating one wrapper's project cache keeps the key order and the cached keys |
| DomainCache.ScanDefaults | caretaker/accounts.py:283-285 | the scan keeps the cached keys, and the domain it returns is one of those it scanned |
| DomainCache.GetDefaultOf | caretaker/accounts.py:282-285 | `get_default_domain` keeps the cache well-formed and returns a cached `default_` domain or nothing |
| DomainCache.FirstHolder | caretaker/accounts.py:283-285 | the domains scanned before the first one that has the project do not have it |
| DomainCache.ScanFinds | caretaker/accounts.py:283-285 | the scan returns the first `default_` domain whose `get_project` finds the project, with that lookup's cache update, or nothing with the cache unchanged |
| DomainCache.GetDefaultFinds | caretaker/accounts.py:282-285 | no domain is returned exactly when no cached `default_` domain has the project; a returned domain is a cached `default_` domain that has it |
| DomainCache.DomainHelper.constructor | caretaker/accounts.py:205 | the shared cache starts empty |
| DomainCache.DomainHelper.Register | caretaker/accounts.py:276 | `self.domains[dom.id] = dom` files the wrapper under its id and keeps the cache well-formed |
| DomainCache.DomainHelper.GetDomain | caretaker/accounts.py:249-280 | the method computes `GetDomainOf`: same success or error, the same new cache, and the returned wrapper is the one cached under the found key |
| DomainCache.DomainHelper.AskProject | caretaker/accounts.py:164 | `get_project` on a cached wrapper returns `FetchAt` and updates only that wrapper's project cache |
| DomainCache.DomainHelper.GetDefaultDomain | caretaker/accounts.py:282-285 | the loop computes `GetDefaultOf`: the same answer and the same project caches, with no key added |
| DomainCache.NewWrapper | caretaker/accounts.py:270-274 | the wrapper built for a domain found on an endpoint has the renamed id, the domain's name and enabled flag, the endpoint's backend and client, and no projects |
| AccountVerify.Classify | caretaker/accounts.py:161-177 | definition of the classification; properties in `ClassifyStatus` and `ClassifySettles` |
| AccountVerify.PrimeWith | caretaker/accounts.py:133-134 | definition of the priming; properties in `PrimeWithFacts` and `PrimedFromLine` |
| AccountVerify.ParseAll | caretaker/accounts.py:129-135 | definition of the first loop; properties in `ParseFails`, `ParseShape` and `ParseAllPrimed` |
| AccountVerify.VerifyOf | caretaker/accounts.py:128-188 | definition of what `verify` returns and leaves in the cache; properties in `VerifyFails` and `VerifyReport` |
| AccountVerify.Resolve | caretaker/accounts.py:153-159 | the domain lookup with its default-domain fallback keeps the cache well-formed, and a found domain is cached |
| AccountVerify.Check | caretaker/accounts.py:143-177 | the loop body keeps the cache well-formed |
| AccountVerify.Advance | caretaker/accounts.py:143-177 | one more account extends the list and takes the new cache, or raises with the cache as it was |
| AccountVerify.CheckAll | caretaker/accounts.py:143-177 | the loop returns one account per input and a well-formed cache, or raises with a well-formed cache |
| AccountVerify.PrimeWithFacts | caretaker/accounts.py:133-134 | priming adds exactly the listed fields, sets them to `_unknown`, and keeps the other fields |
| AccountVerify.FieldListsApart | caretaker/accounts.py:30-32 | proof helper: the added fields and the record fields are disjoint |
| AccountVerify.PrimedFromLine | caretaker/accounts.py:132-134 | a rebuilt account, primed, has exactly the thirteen fields, the four added ones `_unknown`, and keeps its nine values |
| AccountVerify.ParseAllPrimed | caretaker/accounts.py:129-135 | every parsed account has exactly the thirteen fields, the four added ones `_unknown` |
| AccountVerify.PrimedCheckable | caretaker/accounts.py:144-164 | primed accounts have the fields the second loop reads |
| AccountVerify.AddedFieldsListed | caretaker/accounts.py:32 | proof helper: the four added fields are listed |
| AccountVerify.ClassifyStatus | caretaker/accounts.py:161-177 | the domain's name and backend are copied; status is VALID exactly when a project is found and it and the domain are enabled, INVALID exactly when one is found otherwise, ORPHAN exactly when none is found |
| AccountVerify.ClassifySettles | caretaker/accounts.py:161-177 | a classified account keeps its record fields and is never DELETED; it is counted valid exactly when it is VALID, and never counted deleted |
| AccountVerify.CheckSettles | caretaker/accounts.py:143-177 | the body changes only the added fields, marks DELETED exactly the accounts whose `status_deleted` is `True`, leaves an `_unknown` domain's account unchanged, and counts valid and deleted exactly for VALID and DELETED |
| AccountVerify.CheckResolved | caretaker/accounts.py:153-177 | once the domain lookup succeeds, the body succeeds: an unresolved domain leaves the account as it was, a resolved one classifies it |
| AccountVerify.CheckRaises | caretaker/accounts.py:153-164 | the body raises only exceptions `get_domain` does not handle |
| AccountVerify.CountsBounded | caretaker/accounts.py:179 | the VALID and DELETED accounts are at most all of them |
| AccountVerify.CheckAllStep | caretaker/accounts.py:143-177 | a successful loop succeeded on every prefix, and its last account comes from the body |
| AccountVerify.SettledExtend | caretaker/accounts.py:143-177 | the accounts of the loop correspond pairwise to its inputs, one more at a time |
| AccountVerify.CheckAllSettles | caretaker/accounts.py:143-177 | after the loop each account differs from its parsed form only in the added fields; its status is one of the five, DELETED exactly when `status_deleted` is `True`, and an account of an `_unknown` domain is left unchanged |
| AccountVerify.AdvanceCounts | caretaker/accounts.py:143-169 | the counters stay equal to the numbers of VALID and DELETED accounts |
| AccountVerify.CheckAllCounts | caretaker/accounts.py:139-177 | after the loop `valid` and `deleted` count the VALID and the DELETED accounts |
| AccountVerify.CheckAllRaises | caretaker/accounts.py:143-164 | the loop raises only exceptions `get_domain` does not handle |
| AccountVerify.ParseFails | caretaker/accounts.py:129-135 | the first loop fails exactly when some nonempty line is short, and then with `IndexError` |
| AccountVerify.ParseShape | caretaker/accounts.py:129-135 | the first loop keeps one account per nonempty line, in order, rebuilt and primed |
| AccountVerify.VerifyFails | caretaker/accounts.py:128-188 | `verify` fails to parse exactly when some nonempty line is short, then with `IndexError` and an unchanged cache; keystone failures are only unhandled exceptions |
| AccountVerify.VerifyReport | caretaker/accounts.py:128-188 | on success one account per nonempty line, each changed only in the added fields, DELETED exactly when `status_deleted` is `True`; `valid` and `deleted` count VALID and DELETED; `orphan` is the rest and is not negative |
| AccountVerify.CheckAccount | caretaker/accounts.py:143-177 | the loop body on one account computes `Check`: the same account, counter and cache, or the same error with the cache unchanged |
| AccountVerify.ParseFailurePersists | caretaker/accounts.py:129-135 | once a prefix of the lines fails to parse, the whole first loop fails with that error |
| AccountVerify.ParseLines | caretaker/accounts.py:129-135 | the first loop computes `ParseAll` of the lines |
| AccountVerify.CheckAllFailurePersists | caretaker/accounts.py:143-177 | once a prefix of the accounts raises, the whole loop raises the same error |
| AccountVerify.CheckAccounts | caretaker/accounts.py:143-177 | the second loop computes `CheckAll`: the accounts, the two counters and the final cache, or the error with the cache at that point |
| AccountVerify.Verify | caretaker/accounts.py:128-188 | `verify` computes `VerifyOf`: the same result and the same final cache |
| Collector.FirstMissing | caretaker/collector.py:75-77 | nothing exactly when the account has every listed field; otherwise the first listed field it lacks, every earlier one being present |
| Collector.FirstNonText | caretaker/collector.py:75-77 | nothing exactly when every listed value is a string; otherwise the first listed field whose value is not a string, every earlier one being a string |
| Collector.AccountLine | caretaker/collector.py:75-77 | a line is written exactly when the eight fields are present and the first five are strings; it is `str` of each field joined by the delimiter; a missing field always gives `KeyError`, for the first missing one in header order, before any `TypeError`; with every field present, `TypeError` names the first of the five text fields that is not a string |
| Collector.FirstUnwritable | caretaker/collector.py:74-77 | the accounts before the first that cannot be written can all be written |
| Collector.AccountLines | caretaker/collector.py:74-77 | one line per account |
| Collector.FormatAccountsOf | caretaker/collector.py:71-80 | the result succeeds exactly when every account can be written, and with no accounts it is the header alone |
| Collector.FormatAccounts | caretaker/collector.py:71-80 | the loop computes `FormatAccountsOf`: the header and every account's line joined by newlines, or the first account's exception |
| Collector.FormatAccountsDefault | caretaker/collector.py:71 | with no delimiter given, `,` is used |
| Collector.FieldNamesSingleLine | caretaker/collector.py:72-73 | proof helper: no header name contains a newline |
| Collector.FieldNamesCommaFree | caretaker/collector.py:72-73 | proof helper: no header name contains a comma |
| Collector.DefaultHeaderColumns | caretaker/collector.py:71-73 | with the default delimiter the header splits back into `domain, id, project, created_at, delete_timestamp, object_count, bytes_used, quota_bytes` |
| Collector.FormatAccountsLines | caretaker/collector.py:72-80 | with no newline in values or delimiter, the result has exactly `1 + len(accounts)` lines: the header first, then each account's line in order, with no trailing empty line |
| Collector.AccountLineSplits | caretaker/collector.py:75-77 | with a one-character delimiter no value contains, each line splits back into its eight values |

## Left out

- `collect` (caretaker/accounts.py:61-106) and `collect` in caretaker/collector.py:23-54 are not part of this model: they read the storage nodes' databases from disk. Note that `info['account'].lstrip(reseller_prefix)` strips a set of characters, not a prefix.
- `_DomainHelper._scrape` (caretaker/accounts.py:211-247) is not part of this model: it needs keystone sessions and listing calls. The cache a run starts from is an input, a `DomainHelper` whose contents are any well-formed cache.
- The keystone plumbing of caretaker/common.py:33-105 is not part of this model: sessions, clients and `keystone_get_backend_info`. Each endpoint's backend name and domain-scoped client are part of the endpoint data. Creating a session is assumed not to raise.
- The output and upload code of caretaker/collector.py (`output`, `upload`, `print`) is not part of this model.
- Logging and the statsd gauges are not modelled. `Verify` returns the three counters the gauges would report.
- `random.randint(0, 1000)` is a `Draw` parameter, and `verify` receives one draw per account position.
- Python 2 `unicode` values are not modelled. A value is a string, an integer, a boolean or `None`.
- `domain.name` is an optional string, written as `None` when it is missing, as Python's `str(None)` would write it. `domain.backend` is the string the endpoint's `keystone_get_backend_info` gives (possibly `_unknown`). The model's cache admits a wrapper without a backend, which the source never stores: there, reading it would raise `AttributeError`.
- Dictionary order: the source is Python 2 code (the `print` statement in caretaker/collector.py). There `dict.values()` and `dict.items()` list entries in an order the language leaves unspecified. The model fixes it as insertion order, the order Python 3.7 and later guarantee. Two results depend on it: the order of records with equal `(domain_id, project_id)` in `merge` (`AccountMerge.SortOfSorted`, `AccountMerge.RemergeFixedPoint` and `AccountMerge.MergeIdempotent` rely on it), and which `default_` domain `get_default_domain` tries first (`DomainCache.DefaultKeys`, `DomainCache.ScanFinds`, `DomainCache.GetDefaultFinds`). Membership, the values themselves and every property not named here are independent of the order.
- `err.message` in the exception handlers of caretaker/common.py and caretaker/accounts.py is taken to exist, as it does on Python 2 exceptions. On Python 3 it would raise `AttributeError` from inside the handler, so a failing `get_project` would end `verify` instead of giving an ORPHAN account.
- DomainCache.DomainHelper.GetDomain: the wrappers are objects shared with the caller, as in the source. The proof tracks their fields through the `View` of the cache. It does not model aliasing by code outside `verify`.
- AccountVerify.Check: the model takes keystone's answers to be fixed during one run. Two calls for the same id on the same endpoint give the same answer.
