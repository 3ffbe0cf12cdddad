# Verified model of the account store and the audit gate

This project models three parts of the repository and proves what they promise:

- **Eager loading of account edges** (`backend/ent/account_query.go`, `backend/ent/account.go`). `sqlAll` reads accounts and
  then loads each requested edge with one query for all of them, distributing the rows through maps. `SqlAll` proves that
  the edge accessors of every returned account give exactly what the batched loads should hand out, for every
  selection of fields and every combination of edges; `EagerLaws` says exactly when that is what each account would
  get from a query of its own. Nodes are objects; their edge lists are mutated in place.
- **Creating accounts** (`backend/ent/account_create.go`). `defaults`, `check` and `createSpec`; the read path that must give a
  created node back; the bulk save, a chain of hooks and mutators around one batch insert; the conflict options
  of an upsert.
- **The audit gate** (`tools/check_pnpm_audit_exceptions.py`). The line parser of the exception list and the verdict.

| file | contents |
|---|---|
| `Wrappers.dfy`, `PyText.dfy` | Option and Result; Python's strip, first occurrence, quote removal |
| `ExceptionList.dfy`, `ExceptionListProofs.dfy` | the exception-list parser; its laws and the print/parse round trip |
| `AuditGate.dfy`, `AuditVerdict.dfy`, `AuditOrder.dfy` | the two loops of `main`; the meaning of exit code 0; time and order |
| `Entities.dfy` | account, group, proxy, usage log and account-group nodes, rows, edge accessors |
| `Rows.dfy` | queries by key with a limit, the rows of one owner, for any row type |
| `GroupJoin.dfy`, `ForeignKeys.dfy` | `loadGroups`; `loadProxy`, `loadUsageLogs`, `loadAccountGroups` |
| `JoinLaws.dfy`, `AccountQuery.dfy` | laws of the joins; `querySpec` and `sqlAll` |
| `GroupOrder.dfy`, `EagerLaws.dfy` | when batched and naive loading agree: groups of rows; the nodes of `sqlAll` for each edge |
| `AccountFields.dfy`, `AccountCreate.dfy`, `AccountRoundTrip.dfy` | column tables; create; read back |
| `BulkSave.dfy`, `BulkLaws.dfy` | the bulk save and its trace |
| `Upsert.dfy` | conflict options and `created_at` |

Run `dafny verify dfyconfig.toml`.

## How the source is rendered

- A library query is the subsequence of a table's rows, in an arbitrary but fixed table order, whose key is among the keys
  the code collected, cut off at its limit if it has one; any query may fail instead. IDs are only compared, so they are
  unbounded integers. The name of a group and the host of a proxy stand for the columns that their query selects.
- Go iterates a map in any order; the loops over `nids[n.ID]` and over the columns of `createSpec` pick elements
  nondeterministically.
- Package runtime is installed or not: its one `init` sets the defaults, the validators and the client hook together
  (`backend/ent/runtime/runtime.go:144-263`). Where it is not imported the functions are nil and calling one panics;
  a panic is an outcome of `check` and of the bulk save, and unwinds the hooks without their exits.
- `defaults` and `createSpec` hold one statement per column. The model runs the same statements as loops over
  tables. The tables of the mutation's types, of `createSpec`, of `scanValues` and of `assignValues` are transcribed from
  their own places, and their agreement is `AccountFields.TablesAgree`.
- The closures of the bulk save become a recursion over (builder, hook). The `specs` and `nodes` arrays are sequences held
  by the save object. Hooks may edit the fields of their mutation, may fail without calling next, and may fail
  after next succeeded. The step functions of a builder are parameters of the chain; `BulkLaws.AccountSteps` supplies
  those of accounts.
- `str.lower` and `date.fromisoformat` are parameters (any functions); dates are day numbers. `str.strip` is modelled with
  the white space Python strips.

## What the proofs found

- **Accounts returned twice.** A query along an edge with `Unique(false)`, or one with a modifier that joins, can return an
  account twice. Both nodes share one map entry, so the later one takes every row and the earlier one gets an empty
  list (`EagerLaws.LogsCanBeLost`). `EagerLaws.LogsAgreeIff`, `EagerLaws.LinksAgreeIff` and `EagerLaws.GroupsAgreeIff`
  say exactly when the nodes that `SqlAll` returns have what each account would get on its own.
- **Group order.** An account gets its groups in the order of their first appearance among the rows of *all* loaded accounts.
  `GroupOrder.BatchOrderCanDiffer` gives a table for which this is not the order the account gets when loaded alone;
  `GroupOrder.BatchOrderIff` says exactly when it is, and `GroupOrder.BatchOrderIsOwnOrder` that it is once the query orders
  its rows by group.
- **Limits of edge queries.** They cut the rows of the whole batch, not those of each account; `Rows.LimitAgreesIff`
  says exactly when an account still gets its own first n rows; `EagerLaws.LimitCanTakeAll` shows one left with none. The
  laws for the nodes of `SqlAll` (also `EagerLaws.ProxiesAgreeIff`) hold with any limits.
- **Dropped errors of defaults.** The bulk save ignores the error of `defaults`. It still issues no batch after one, whatever
  the hooks do (`BulkLaws.DroppedErrorStops`): the error means that package runtime is not imported, and then `check`
  cannot pass. But it ends differently from the single save, which returns the error: it returns another one, or it
  panics at a nil hook or validator (`BulkLaws.BulkStopsAtFirst`, `BulkLaws.NotInstalledStops`). For builders made by a client it
  always panics, since it lacks the test for nil hooks that the single save has (`BulkLaws.ClientBuildersPanic`).
- **UpdateNewValues.** Its comment calls it equivalent to `OnConflict(sql.ResolveWithNewValues())`; the code also ignores
  `created_at`. The model follows the code; `Upsert.UpdateNewValuesDiffers` says exactly where the two differ.
- **Order of vulnerabilities.** Only the first vulnerability of a key takes the severity test. If the audit lists one key with
  different severities, the verdict can depend on their order (`AuditOrder.VulnOrderCanMatter`).
  `AuditOrder.VulnOrderMattersIff` says exactly when it does not: when every order passes, or none does.
- **Dead branch.** After a dash the parser tests `if line:`; the test cannot fail (`ExceptionList.DashHasText`).

## Model

| member | source | states |
|---|---|---|
| PyText.StripSplits | tools/check_pnpm_audit_exceptions.py:29-29 | strip() takes white space off both ends, leaves none there and changes nothing else |
| PyText.StripUnique | tools/check_pnpm_audit_exceptions.py:29-29 | it is the only such way: spaces around a trimmed text are removed exactly |
| PyText.SpacesListed | tools/check_pnpm_audit_exceptions.py:29-29 | the white space it takes off is that of Python, code point by code point, line ends included |
| PyText.UnquoteQuoted | tools/check_pnpm_audit_exceptions.py:16-19 | one pair of quotes, double or single, is removed, quotes inside are kept |
| PyText.UnquoteOther | tools/check_pnpm_audit_exceptions.py:16-19 | nothing else is changed; a lone quote becomes the empty text |
| ExceptionListProofs.SplitAtFirstColon | tools/check_pnpm_audit_exceptions.py:14-20 | split_kv splits at the first colon only, strips both sides and unquotes the value |
| ExceptionList.DashHasText | tools/check_pnpm_audit_exceptions.py:34-41 | the text after a dash is never empty; unpacking it raises exactly when it has no colon |
| ExceptionList.EntrySplits | tools/check_pnpm_audit_exceptions.py:43-44 | an entry line can always be unpacked |
| ExceptionList.ParseExceptions | tools/check_pnpm_audit_exceptions.py:23-48 | the loop raises exactly when a dash line has no colon, else returns one record per dash line, without reference to `current` |
| ExceptionListProofs.ColonLine | tools/check_pnpm_audit_exceptions.py:29-45 | every line with a colon: a comment or header is skipped, a dash line opens with the pair after the dash, any other is the pair around its first colon, its value quoted or not |
| ExceptionListProofs.NoColonLine | tools/check_pnpm_audit_exceptions.py:29-43 | every line without one is skipped, but a dash line raises |
| ExceptionListProofs.RecordOfDash | tools/check_pnpm_audit_exceptions.py:34-47 | the n-th record is built from the block of the n-th dash line, and there are no other records |
| ExceptionListProofs.LastValueWins | tools/check_pnpm_audit_exceptions.py:40-45 | a record has exactly the keys of its block, each with the last value given for it |
| ExceptionListProofs.NoiseDoesNotMatter | tools/check_pnpm_audit_exceptions.py:28-33 | files that differ in blank lines, comments, headers, free text and indentation parse alike |
| ExceptionListProofs.PairSurvives | tools/check_pnpm_audit_exceptions.py:12-20 | a printed pair is split back into itself, whatever its value holds, with either quotes or none |
| ExceptionListProofs.EntryLineExact | tools/check_pnpm_audit_exceptions.py:29-45 | a key and any text on a line of their own, with any white space around, are read as that pair exactly when the key is not taken for a comment, header or dash |
| ExceptionListProofs.DashLine | tools/check_pnpm_audit_exceptions.py:34-41 | after a dash they are read so for every plain key |
| ExceptionListProofs.PrintParse | tools/check_pnpm_audit_exceptions.py:23-48 | every printable exception list is recovered from its printed lines, in any mix of quotes, with any indentation and line ends |
| AuditVerdict.KeysIgnorePadding | tools/check_pnpm_audit_exceptions.py:119-131 | however both sides are padded with white space, a record and a vulnerability meet exactly when they name the same package and, up to lower(), the same advisory |
| AuditVerdict.ScalarKeys | tools/check_pnpm_audit_exceptions.py:119-131 | numbers are compared by their text, missing names and advisories as empty |
| AuditVerdict.DemandsIff | tools/check_pnpm_audit_exceptions.py:194-196 | a vulnerability demands an exception exactly when it is named and its severity, padded or not, reads high or critical |
| AuditVerdict.NamesThatCount | tools/check_pnpm_audit_exceptions.py:195-195 | a name counts unless it is missing, empty or zero |
| AuditVerdict.NoSeverityDemandsNone | tools/check_pnpm_audit_exceptions.py:114-116 | a missing severity demands none |
| AuditVerdict.UndemandingDropped | tools/check_pnpm_audit_exceptions.py:193-196 | leaving out a vulnerability that demands none never changes the verdict |
| AuditVerdict.WellFormedIff | tools/check_pnpm_audit_exceptions.py:156-176 | a record is usable exactly when its five fields, by name, are given, its date can be read, and package and advisory are not blank |
| AuditVerdict.RejectedIff | tools/check_pnpm_audit_exceptions.py:157-176 | otherwise the complaint names the missing fields, else the date, else the blank key |
| AuditVerdict.CoversIff | tools/check_pnpm_audit_exceptions.py:216-219 | a usable record covers a vulnerability of its key up to and including its date |
| AuditVerdict.SeverityFitsIff | tools/check_pnpm_audit_exceptions.py:210-215 | severities, padded or not, fit when they read alike or the record's reads empty |
| AuditGate.BuildIndex | tools/check_pnpm_audit_exceptions.py:156-185 | the index holds the first usable record of each key; each record gives one entry or one error, in order; no error exactly when all are usable with distinct keys |
| AuditGate.IndexErrorsExact | tools/check_pnpm_audit_exceptions.py:157-180 | a record is complained about exactly when it cannot be used or has the key of an earlier usable one |
| AuditGate.MatchVulns | tools/check_pnpm_audit_exceptions.py:188-219 | the `seen` loop yields exactly the complaints about the first sighting of each key, in order |
| AuditGate.MatchErrorsExact | tools/check_pnpm_audit_exceptions.py:198-215 | the errors are exactly the vulnerabilities without advisory and the first sightings whose record has another severity, with the severities expected and got |
| AuditGate.MissingKeysExact | tools/check_pnpm_audit_exceptions.py:206-209 | a key is reported missing exactly when it is demanded and not in the index |
| AuditGate.ExpiredKeysExact | tools/check_pnpm_audit_exceptions.py:216-219 | a key is reported expired, with its date, exactly when it is demanded and its record ended before today |
| AuditGate.Gate | tools/check_pnpm_audit_exceptions.py:151-243 | exit code 0 exactly when no finding is reported, that is when the index is clean and every first sighting passes; the findings of the parts in order, missing and expired ones under their headings |
| AuditVerdict.CheckAudit | tools/check_pnpm_audit_exceptions.py:151-243 | exit code 0 exactly when Accepts holds: a statement over all records and vulnerabilities without index or `seen` |
| AuditVerdict.RunAudit | tools/check_pnpm_audit_exceptions.py:142-243 | from the lines of the file: an exception for a malformed dash line, else the verdict on its records |
| AuditVerdict.CleanIsPassing | tools/check_pnpm_audit_exceptions.py:181-218 | looking up first sightings in the index is the same as the quantified statement |
| AuditVerdict.AcceptedUntilExpiry | tools/check_pnpm_audit_exceptions.py:187-219 | once accepted, accepted on exactly the days up to the earliest expiry of a record in use, that day included |
| AuditVerdict.AcceptedEarlier | tools/check_pnpm_audit_exceptions.py:216-219 | the verdict is antitone in the date |
| AuditOrder.RecordOrderDoesNotMatter | tools/check_pnpm_audit_exceptions.py:156-185 | permuting the exception records does not change the verdict |
| AuditOrder.EveryOrderAccepted | tools/check_pnpm_audit_exceptions.py:193-219 | all orders of the vulnerabilities pass exactly when each one, repeated or not, passes the severity test |
| AuditOrder.SomeOrderAccepted | tools/check_pnpm_audit_exceptions.py:193-219 | some order passes exactly when each key of a high vulnerability has one that passes the severity test |
| AuditOrder.VulnOrderMattersIff | tools/check_pnpm_audit_exceptions.py:193-219 | the verdict is the same for all orders exactly when every order passes or none does, each stated on the unordered list |
| AuditOrder.VulnOrderDoesNotMatter | tools/check_pnpm_audit_exceptions.py:193-219 | in particular where vulnerabilities of a key agree on severity |
| AuditOrder.VulnOrderCanMatter | tools/check_pnpm_audit_exceptions.py:203-215 | otherwise it can: two findings that pass in one order and fail in the other |
| GroupJoin.CollectKeys | backend/ent/account_query.go:543-552 | edgeIDs are the IDs of the nodes, byID maps each to its last node, the edge is reset |
| GroupJoin.ScanJoin | backend/ent/account_query.go:565-588 | each group is created once, at its first row, in row order; nids has exactly the groups seen, each with exactly the accounts seen with it |
| GroupJoin.Distribute | backend/ent/account_query.go:592-601 | whatever order sharers are visited in, each node gets the neighbors that nids shares with it, in neighbor order; an error exactly for an unknown group |
| GroupJoin.LoadGroups | backend/ent/account_query.go:542-602 | for every node list: the holder of an ID gets the groups its account is joined with, as shared nodes created once; the unexpected-node error is unreachable |
| JoinLaws.GroupsOfExact | backend/ent/account_query.go:576-600 | the groups of an account are exactly those it is joined with, in the order of their first appearance |
| JoinLaws.FirstRowsExact | backend/ent/account_query.go:576-585 | after any number of rows, the groups created are exactly those seen, in order of first appearance |
| JoinLaws.InOrderDistinct | backend/ent/account_query.go:579-583 | that order lists no group twice |
| JoinLaws.BatchKeepsJoins | backend/ent/account_query.go:553-561 | the IN predicate of the batch keeps every join of its accounts |
| ForeignKeys.CollectProxyKeys | backend/ent/account_query.go:604-615 | ids are the keys in order of first occurrence; nodeids has exactly these keys, each with its nodes in order |
| JoinLaws.ProxyKeysExact | backend/ent/account_query.go:606-614 | the key list has every non-nil key, and none twice |
| EagerLaws.BucketsPermute | backend/ent/account_query.go:606-615 | the buckets together are a permutation of the nodes that have a key |
| ForeignKeys.DistributeProxies | backend/ent/account_query.go:624-633 | every node gets the last returned proxy with its key, or keeps its edge; an error exactly for an unknown key |
| ForeignKeys.LoadProxy | backend/ent/account_query.go:603-634 | every node gets the returned proxy with its key or keeps what it had; no query without keys |
| JoinLaws.ResolvedIsRow | backend/ent/account_query.go:624-632 | that proxy is the row a lookup finds in the returned rows |
| JoinLaws.ProxiesOfBatch | backend/ent/account_query.go:619-620 | the batch has the row of every account in it |
| ForeignKeys.LoadUsageLogs | backend/ent/account_query.go:635-664 | whatever fields its query selects and whatever its limit, the holder of an ID gets its returned logs in order, and the lists together have as many logs as were returned; the unexpected-key error is unreachable |
| ForeignKeys.LoadAccountGroups | backend/ent/account_query.go:665-694 | the same for the rows of the join table, the sum of the lengths included |
| JoinLaws.LogsForAreRows | backend/ent/account_query.go:655-662 | the logs handed out are the account's rows of the returned ones, in order |
| Rows.RowsOfBatch | backend/ent/account_query.go:648-651 | querying by the key set loses none of an account's rows, of whatever kind, and keeps their order |
| Rows.LimitAgreesIff | backend/ent/usagelog_query.go:784-786 | with a limit, an owner gets of the batch what a limited query of its own returns exactly when the cut takes none of its rows or leaves only rows of its own |
| ForeignKeys.SizesConserved | backend/ent/account_query.go:655-662 | every returned row goes to exactly one node, also among nodes that share an ID, so that the list lengths add up |
| AccountQuery.QuerySpec | backend/ent/account_query.go:708-727 | the loop over the selected fields builds exactly the column list of SpecColumns |
| AccountQuery.ColumnsRead | backend/ent/account_query.go:716-727 | for every selection the ID comes first and only once, the other fields follow in order, and proxy_id is read whenever the proxy edge is requested |
| AccountQuery.ColumnsExact | backend/ent/account_query.go:716-727 | a selection reads exactly the selected columns, the ID, and proxy_id for the proxy edge |
| AccountQuery.ColumnsNamed | backend/ent/account/account.go:113-143 | the declared list has each of the 29 columns under its name |
| AccountQuery.SqlAll | backend/ent/account_query.go:480-540 | fails exactly when a query it needs fails, with the first such error in the order of the loads; else one fresh node per row, with its ID, and its proxy_id exactly when the selection or the proxy edge asks for it, whose accessors give for every plan and limit the rows of the batched loads, the last node of an ID taking them all |
| AccountQuery.FirstFailureMeans | backend/ent/account_query.go:507-538 | that order is accounts, groups, proxy, logs, links |
| AccountQuery.EdgesFromFields | backend/ent/account.go:99-135 | accessors report not loaded exactly when not requested, a proxy not found exactly when requested without a row |
| EagerLaws.LogsAgreeIff | backend/ent/account_query.go:635-664 | the nodes that SqlAll returns have the logs of a query for each account alone exactly when no account that is returned again later has a log and the cut of the limit is fair to every other |
| EagerLaws.LinksAgreeIff | backend/ent/account_query.go:665-694 | the same for the rows of the join table |
| EagerLaws.LogsCanBeLost | backend/ent/account_query.go:637-644 | else logs are lost: two rows of one account and a log |
| EagerLaws.LimitCanTakeAll | backend/ent/usagelog_query.go:784-786 | or cut off: two accounts with a log each, and a limit of 1 |
| EagerLaws.GroupsAgreeIff | backend/ent/account_query.go:542-602 | the nodes have the groups of a query for each account alone, names and order included, exactly when no account returned again later has one and for every other the returned rows keep its joins, their order and their names |
| EagerLaws.UnlimitedServesIff | backend/ent/account_query.go:542-602 | without a limit and with unique group IDs only the order is left of that condition |
| EagerLaws.ProxiesAgreeIff | backend/ent/account_query.go:603-634 | with unique IDs, the nodes have the proxies of a query for each key alone exactly when the cut of the limit takes none of them or leaves only that one |
| GroupOrder.SameFacesIff | backend/ent/account_query.go:576-600 | two lists of rows give an account the same groups exactly when they join it with the same groups, which first appear in the same order and with the same names |
| GroupOrder.BatchOrderIff | backend/ent/account_query.go:592-600 | loaded in a batch or alone, an account has the same group order exactly when any two of its groups first appear in the same order in both |
| GroupOrder.BatchOrderIsOwnOrder | backend/ent/account_query.go:592-600 | in particular with rows ordered by group |
| GroupOrder.BatchOrderCanDiffer | backend/ent/account_query.go:592-600 | it may differ: a concrete table |
| AccountCreate.Builder.Defaults | backend/ent/account_create.go:451-505 | on success each of the ten columns is set, as it was or to its own installed default (or zero), and nothing else changes; on failure nothing changes and the first unset column with a default function is named |
| AccountCreate.DefaultsExact | backend/ent/account_create.go:451-505 | defaults fails exactly when some column is unset without a default, and leaves that column unset |
| AccountCreate.DefaultsFailIff | backend/ent/runtime/runtime.go:144-254 | that is, exactly when runtime is not installed and one of the four columns with a default function is unset |
| AccountCreate.DefaultsTyped | backend/ent/account_create.go:451-505 | each default has the type of its column |
| AccountCreate.CheckExact | backend/ent/account_create.go:508-574 | check passes exactly when validators are installed, every required column is set and none rejects; it panics exactly when they are not and created_at, updated_at and name are set |
| AccountCreate.CheckByName | backend/ent/account_create.go:508-574 | which columns these are, one by one |
| AccountCreate.CheckFirst | backend/ent/account_create.go:508-574 | it complains about the first bad column in the order of its tests: unset, or refused |
| AccountCreate.DefaultsFailCheckFails | backend/ent/account_create.go:1859-1867 | where defaults fails, check does not pass on any fields that hooks may leave: it complains or panics |
| AccountCreate.CheckAfterDefaults | backend/ent/account_create.go:451-574 | after successful defaults, check passes exactly when validators are installed and accept, and name, platform and type are set |
| AccountCreate.Builder.CreateSpec | backend/ent/account_create.go:594-762 | the node and the insert hold exactly the set columns, with declared type and pointer form, and the non-empty edges in order, groups with the default fields of their join rows; the insert carries the builder's conflict options |
| AccountCreate.NodeOfMutation | backend/ent/account_create.go:602-744 | the node holds what is set, behind a pointer where its field is one, and the proxy ID |
| AccountCreate.FieldsOfMutation | backend/ent/account_create.go:599-702 | the insert holds what is set under its declared type, and the conflict options |
| AccountCreate.EdgesOfMutation | backend/ent/account_create.go:703-761 | the edges: groups with the join-row defaults, proxy, logs, in this order, each if there are any |
| AccountFields.TablesAgree | backend/ent/account.go:138-367 | for every column createSpec, scanValues and assignValues agree on type and nillability |
| AccountRoundTrip.AssignValues | backend/ent/account.go:163-367 | an error exactly for too few values or a destination of the wrong type; else every non-NULL value is written |
| AccountRoundTrip.AssignedExact | backend/ent/account.go:163-367 | a field holds the last non-NULL value read for its column; a NULL ID is read as 0 |
| AccountRoundTrip.CellIsSlot | backend/ent/account_create.go:594-744 | the stored cell of a column is what the created node holds there, proxy_id through its edge |
| AccountRoundTrip.ReadBack | backend/ent/account.go:138-367 | the row of createSpec, read by any columns, gives without type error the created node on these columns; unset fields stay unset |
| BulkSave.AccountCreateBulk.Mutate | backend/ent/account_create.go:1860-1897 | from any hook on: the error, arrays, done marks and bracketed calls of the rest of the chain, panics included |
| BulkSave.AccountCreateBulk.Create | backend/ent/account_create.go:1860-1893 | the innermost function of a mutator: the same for check, createSpec, the rest of the chain and the marking |
| BulkSave.AccountCreateBulk.Prepare | backend/ent/account_create.go:1854-1899 | the loop sets the defaults of every builder and wraps its hooks, or panics in the first builder that has a nil hook, with the defaults set up to that one |
| BulkSave.AccountCreateBulk.Save | backend/ent/account_create.go:1849-1906 | for any hooks: a nil hook panics before any call; else the batch is issued exactly when there is a builder and all get to createSpec, with every builder's spec; which error is returned; else each builder's node in its place with the ID reported for it, all other fields as built; the mutations and done marks it leaves |
| BulkLaws.OneBatchOrNone | backend/ent/account_create.go:1871-1882 | the calls of a save hold one batch insert or none, after all hooks entered in index order |
| BulkLaws.OpeningInOrder | backend/ent/account_create.go:1894-1897 | hooks are entered in index order, builder by builder; all of them when the batch is reached |
| BulkLaws.OpeningLength | backend/ent/account_create.go:1866-1897 | how many are entered: those of a builder up to one that fails before next, and on to the next builder if nothing stops it |
| BulkLaws.EditsCompose | backend/ent/account_create.go:1860-1897 | the hooks of a builder edit its fields one after the other |
| BulkLaws.SavedIsReadBack | backend/ent/account_create.go:1883-1891 | a saved node is the one that reading its row gives back |
| BulkLaws.MirrorReverses | backend/ent/account_create.go:1894-1897 | hooks leave in exactly the reverse order of entering |
| BulkLaws.FirstStopped | backend/ent/account_create.go:1866-1882 | when the batch is not issued, the error is that of the first builder in index order that does not get to its createSpec |
| BulkLaws.FirstBlocker | backend/ent/account_create.go:1894-1896 | a builder with a hook that fails before next is stopped by the first such hook |
| BulkLaws.InnermostSpoiler | backend/ent/account_create.go:1883-1896 | when hooks fail after the batch, the error is that of the innermost of them |
| BulkLaws.BatchIssuedIff | backend/ent/account_create.go:1856-1882 | with hooks that keep the fields and call next, the batch is issued exactly when defaults and check pass for every builder |
| BulkLaws.DroppedErrorStops | backend/ent/account_create.go:1859-1882 | for any hooks: no batch is issued when the defaults of a builder failed, although that error is dropped |
| BulkLaws.NotInstalledStops | backend/ent/account_create.go:1859-1882 | without runtime the first builder stops the save, by a panic exactly when its hooks let it reach check with created_at, updated_at and name |
| BulkLaws.BulkAndSingles | backend/ent/account_create.go:1849-1906 | for any builders: the bulk save issues its batch exactly when every builder, saved alone, would be inserted |
| BulkLaws.BulkStopsAtFirst | backend/ent/account_create.go:1856-1882 | else, where no hook is nil, it stops at the first builder that would not be, with the error of that one's own save exactly when its defaults succeeds |
| BulkLaws.SingleAndBulk | backend/ent/account_create.go:420-426 | for one builder the errors are the same exactly when defaults succeeds and no hook is nil |
| BulkLaws.SingleErrors | backend/ent/account_create.go:420-426 | the single save reports the first missing default, else a nil hook |
| BulkLaws.ClientBuildersPanic | backend/ent/client.go:856-859 | without runtime, a bulk save of client-made builders panics in the first one, where the single save returns an error |
| BulkLaws.InstalledHookIsSilent | backend/ent/schema/mixins/soft_delete.go:98-106 | where it is installed, the client hook changes nothing about a save |
| Upsert.UpsertBuilder.UpdateNewValues | backend/ent/account_create.go:1259-1267 | on top of earlier choices every inserted column takes its new value, except created_at, which is kept; safe lists stay safe |
| Upsert.UpsertBuilder.Perform | backend/ent/account_create.go:780-798 | OnConflict replaces the options, every other call appends; generated calls leave a list that spares created_at in every insert |
| Upsert.OnConflictForgets | backend/ent/account_create.go:780-785 | calls before an OnConflict have no effect |
| Upsert.PairFolds | backend/ent/account_create.go:1979-1989 | the pair that UpdateNewValues appends writes created_at and takes it back, for one builder or many |
| Upsert.SettersTable | backend/ent/account_create.go:813-1249 | the 73 setters, transcribed column by column, leave out exactly the ID and created_at, have the types of the columns and clear exactly the nillable ones |
| Upsert.SetterHarmless | backend/ent/account_create.go:813-1249 | so no typed setter writes created_at |
| Upsert.SetterDecides | backend/ent/account_create.go:813-1249 | called last, a setter decides the cell of its column: SetX the given value, UpdateX the proposed one, ClearX NULL, AddX the sum |
| Upsert.SetterSparesOthers | backend/ent/account_create.go:813-1249 | and of no other column |
| Upsert.UpdateNewValuesDecides | backend/ent/account_create.go:1259-1267 | UpdateNewValues called last gives every inserted column its proposed value, but a set created_at stays |
| Upsert.IgnoreDecides | backend/ent/account_create.go:1275-1278 | Ignore called last keeps every inserted column |
| Upsert.DoNothingDecides | backend/ent/account_create.go:1282-1285 | DoNothing keeps the whole row |
| Upsert.CreatedAtNeverChanges | backend/ent/account_create.go:1259-1267 | over every run of upserts from generated calls, created_at keeps the value of the first insert |
| Upsert.SparesIff | backend/ent/account_create.go:780-785 | the fold of any option list leaves created_at alone exactly when each option that takes it over is followed by one that gives it back |
| Upsert.CreatedAtSurvivesIff | backend/ent/account_create.go:780-785 | for any options: created_at survives every conflict exactly when the list says to do nothing, or gives created_at back after every option that takes it over |
| Upsert.UpdateNewValuesDiffers | backend/ent/account_create.go:1251-1267 | UpdateNewValues and the option its comment names leave the same cell exactly outside a changed created_at |

## Left out

- SQL text, drivers, transactions, locks and the sqlgraph library: queries, inserts and the update set have the contracts above; a batch insert refused by the database is one error.
- JSON encoding: a JSON column is stored and read as the object itself.
- What the database rounds: rate_multiplier (a decimal(10,4) column) and the precision of times; and Go float arithmetic. Values are stored as they are.
- Query building: predicates and ordering, and the limit and offset of the account query, only decide which rows a table shows, in which order. Offsets of edge queries are not modelled, nor which columns the group and proxy queries select.
- The clock: the default times are one value for all builders of a save.
- Interceptors that add or drop rows, and hooks that call next twice, replace the mutation or swallow an error.
- BulkSave.AccountCreateBulk.Save: does not model two builders that share one mutation object, nor reading the mutation's ID through its pointer; the ID of a done builder is recorded by value.
- BulkLaws.AccountSteps: gives the builders of a bulk save no conflict options of their own, which Exec of the bulk upsert refuses; the batch insert is recorded without the options of the bulk.
- AccountRoundTrip.ReadBack: does not model columns outside the account table, which assignValues keeps as dynamic values.
- BulkLaws.SingleStop: models the single Save (with withHooks in backend/ent/ent.go) up to its insert, not the insert and what follows.
- Panics that hooks raise themselves.
- The SetX and SetNillableX setters of the create builder, the panic wrappers, group-by and select: wrappers around what is modelled.
- Upsert.UpsertBuilder.Perform: does not model the guards of Exec, which refuse an empty option list or options set on a builder of a bulk.
- ExceptionList.ParseExceptions: takes the lines of the file as input; reading and decoding the file is not part of the model.
- AuditGate.Gate: does not model message texts; findings carry their cause only. iter_vulns and pick_advisory_id, which flatten the audit JSON, are inputs.
- The other entities of backend/ent: the same generated code for other tables.
