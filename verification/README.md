# Verification of the account entity, its queries, and the release tools

A Dafny 4.11 model of five parts of the repository, with proofs. `dafny verify dfyconfig.toml` checks everything.

- **Eager loading** (`backend/ent/account_query.go`, `backend/ent/account.go`). A query for accounts and the edges it
  asks for runs one further query per edge, for all accounts together, and distributes the rows through maps.
  `EagerSpec` says what that computes and what one query per account and edge would compute. `EagerRefines` proves the
  two equal, nested to any depth; `EagerExact` says exactly when they are with limits on the edge queries, at every
  depth, from `EagerLimits` and `EagerGroupLimits` for single edges, and `EagerGroupOrder` that the order of join rows
  does not matter. `EagerObjects` is the query builder and its methods, `EagerOutcome` which runs fail by themselves
  and what a run leaves of a builder. `EagerLoad`, `EagerEdges`, `EagerQuery` and `EagerRun` are the loaders on heap
  objects, with a database that may refuse any query: they end in exactly the specified graph, and leave the builder
  and those of its edges exactly as specified. `EagerRerun` says exactly when running a builder again gives what a
  fresh one would, `EagerBuilder` is the terminal methods, `EagerAccess` the edge accessors and whole runs, and
  `EagerNarrow` shows that selecting fields leaves the edges alone. `EagerColumns` and `EagerStored` say, without the
  functions that compute it, which accounts are loaded and what they and everything in their graphs hold of the stored
  rows. `EagerTrees` holds lemmas on lists of loaded accounts.
- **Rows** (`backend/ent/account.go`). `RowCodec` is `scanValues` and `assignValues`, with the two switches written
  separately; `RowCodecLaws` is what decoding means for every list of columns.
- **Creating** (`backend/ent/account_create.go`). `CreateSpec` is defaults, checks and the row to insert,
  `CreateDefaults` what a caller has to give and what is filled in. `CreateReadBack` shows that the node returned is
  what reading the row back gives. `BulkPlan` and `BulkCreate` are the chain of closures of a bulk save, and
  `BulkReadBack` reads its rows back.
- **Updating** (`backend/ent/account_update.go`, `backend/ent/mutation.go`). `AccountMutation` is the pending change,
  `CallLaws` what its setters come to when called one after the other. `UpdateSpec` is the specification that the
  many-row builder makes, `UpdateOneSpec` that of the single-row builder, from tables and statements of its own, and
  `UpdateLaws` compares the two.
- **Release tools.** `ReleaseVersion` (`tools/release_version.py`), `ReleaseContract` (the version format and the
  migration check of `tools/check_release_contract.py`), and the audit gate of
  `tools/check_pnpm_audit_exceptions.py`: its parser (`AuditExceptions`), the findings in a report (`AuditReport`), its
  two loops over a small state (`GateCore`), the effect of order (`GateOrder`), the script and its verdict said of the
  texts themselves (`AuditGate`), each error it reports (`GateReports`) and how robust the verdict is (`GateRobust`).

`Common` and `Text` hold lemmas on sequences and strings, `AccountSchema` the columns.

## Where the code does not do what one might expect

Each point is proved with its exact condition, and with an input at which it shows.

- A limit on an edge query counts the rows of all accounts together. A run gives every account, down to the last edge,
  what queries of its own with the same limits would, exactly when every limit that it meets is harmless: it cuts
  nothing off, keeps nothing, or (except for proxies and parents) only one account has rows (`EagerExact.LimitsExactly`,
  `EagerLimits.SharedLimitLoses`).
- A builder that has loaded edges keeps, at every depth, the filters on their keys and the join for groups. A second run
  does what a fresh builder would exactly when every row that that one would select belongs to a node of the first run,
  and it would find no groups (`EagerRerun.RunAgainExactly`). So on an unchanged store a second run fails exactly when
  the first found groups, and otherwise gives the same graphs (`EagerRerun.RunTwice`, `EagerRerun.SecondRunFails`). With
  `Limit(1)` and then `Limit(3)` children are missing (`EagerRerun.LargerPageMisses`, `EagerAccess.LargerPage`). A load
  of groups after others fails exactly if some group is linked to an account of every load
  (`EagerRerun.AgainFailsExactly`); otherwise it finds none, and groups can be missing without an error
  (`EagerRerun.GroupsGoMissing`).
- `Exist`, `IDs` and `FirstID` leave `id` among the selected fields: a query that had selected nothing then decodes
  every account to its id, and the keys of the to-one edges requested, alone (`EagerBuilder.SelectedIDStays`). A second
  `Exist` selects the id twice (`EagerBuilder.ExistTwice`).
- A bulk save is all-or-nothing unless a hook rejects after rows were inserted
  (`BulkPlans.AllOrNothingExact`, `BulkPlans.HalfDone`).
- Clearing an edge does not take back what was to be added before. An update means its calls in turn exactly when
  nothing is stale in this sense (`CallLaws.InTurnExactly`, `CallLaws.ClearedIDIsAdded`). The same holds for a key that
  is set before a to-one edge is cleared by its name (`CallLaws.KeyInTurnExactly`, `CallLaws.ClearedKeyIsWritten`).
- Of a to-one edge, a reset by the edge's name undoes the calls before it exactly if they have not left the key field
  cleared, and a reset of the key field exactly if they have not left the edge cleared
  (`CallLaws.ResetUndoesExactly`). After clearing the edge neither does (`CallLaws.ResetKeepsClear`).
- A field is both nulled and set exactly when the last call sets it, and one before it cleared it without a reset since
  (`CallLaws.FieldEditsExactly`, `CallLaws.ClearedFieldIsSet`).
- The verdict of the audit gate can depend on the order of findings: it does exactly when the exceptions are good,
  every relevant finding is excepted, every key has a finding that fits its exception, and not every finding fits
  (`GateRobust.FindingOrderIrrelevantExactly`, `GateRobust.FindingOrderCanMatter`).
- A vulnerability is not reported at all exactly when none of its items has an id (`AuditReport.SilentEntry`): a
  critical one passes with no exceptions (`GateRobust.CriticalWithoutIdPasses`).
- The version tool's last step leaves its own bound: a next version parses again unless all components are at the
  maximum (`ReleaseVersion.NextAddsOne`); after 99.99.99 comes 100.0.0, which does not
  (`ReleaseVersion.LastVersionLeavesBound`).
- The migration check compares with the newest earlier release only. With distinct versions and commits, passing checks
  guarantee that migrations are kept exactly when the versions increase, the last one excepted
  (`ReleaseContract.OrderDecidesImmutability`, `ReleaseContract.OutrankedReleaseIsForgotten`).

## Assumptions about code that is not modelled

- A query calls `ScanValues` and then `Assign` once per row; the database returns the rows that satisfy the filter, in
  one order for the whole table. Join rows come group by group where an order is stated; `EagerGroupOrder` does without.
- A second join of a groups query with the links gets a name of its own, so that its rows are the groups that both joins
  admit and start with the account column of either. The account column of the earlier join is then no column that
  groups know, and asserting that it was scanned as a number panics (`backend/ent/group.go:257`,
  `backend/ent/account_query.go:663`); a panic counts as a failed run.
- A many-to-one edge of a create specification writes its foreign-key column; a batch inserts all rows or none.
- An update clears before it adds; an edge to clear without nodes clears all links.
- `json.Unmarshal` into a map adds to the entries that are there, fails depending on the text alone, and undoes
  `json.Marshal`.
- Limits are taken literally. Scanning rows that hold nothing but an id into a list of ids gives the ids.

## Model

| member | source | states |
|---|---|---|
| EagerLoad.ScanGroups | backend/ent/account_query.go:661-670 | one object per group, in order of first appearance, and for each group exactly the accounts that the rows link to it |
| EagerLoad.FanOut | backend/ent/account_query.go:677-685 | fails exactly when a group was not scanned; otherwise each account gets, in order, the groups that list it |
| EagerLoad.GiveGroup | backend/ent/account_query.go:682-684 | every account of the set gets the group, for every order in which the set is walked |
| EagerLoad.LoadGroups | backend/ent/account_query.go:627-687 | each account's groups are exactly those linked to it, each once, by first appearance; accounts that share a group share the object; it never fails on rows that were asked for |
| EagerLoad.ReachedIsLast | backend/ent/account_query.go:630-637 | the map from ids reaches exactly the last node of each id |
| EagerEdges.Bucket | backend/ent/account_query.go:689-700 | the ids are duplicate-free and are the map's keys; each bucket holds the nodes with its key in order; the sizes add up to the nodes that have a key |
| EagerEdges.AssignProxies | backend/ent/account_query.go:709-717 | fails exactly at a row whose id no node has as key; every node whose target was returned holds it, every other is untouched |
| EagerEdges.AssignParents | backend/ent/account_query.go:741-749 | the same for parents |
| EagerEdges.LoadChildren | backend/ent/account_query.go:752-784 | each account's children are the rows with its id as parent, in row order; fails exactly when some row's key is null or not among the accounts, at the first such row |
| EagerEdges.LoadUsageLogs | backend/ent/account_query.go:785-814 | the same for usage logs, whose key is never null |
| EagerEdges.LoadAccountGroups | backend/ent/account_query.go:815-844 | the same for links to groups |
| EagerEdges.ChildrenArePartitioned | backend/ent/account_query.go:752-784 | the children's lists are disjoint and their lengths add up to the number of rows |
| EagerQuery.MakeNodes | backend/ent/account_query.go:566-571 | one new object per row, with the requested edges marked and none loaded |
| EagerQuery.QueryGroups | backend/ent/account_query.go:638-687 | one query; every account ends with the groups that the specification gives it; a query joined before fails exactly when a row comes |
| EagerQuery.QueryProxies | backend/ent/account_query.go:688-719 | no query if no account has a key, else one; every account ends with the proxy specified |
| EagerQuery.QueryLogs | backend/ent/account_query.go:785-814 | one query; every account ends with the usage logs specified |
| EagerQuery.QueryLinks | backend/ent/account_query.go:815-844 | the same for links to groups |
| EagerRun.QueryParents | backend/ent/account_query.go:720-751 | parents and all their own edges, loaded by one run; every account holds the parent specified; the builder of the edge is left with the filter on the keys and what the run leaves of its own edges, or untouched if there are no keys |
| EagerRun.QueryChildren | backend/ent/account_query.go:752-784 | the same for children, whose builder is left with the filter and the appended key column |
| EagerOutcome.KeptExactly | backend/ent/account_query.go:638-801 | a load adds its join or its filter to the edge's query, and its key column if fields are selected, and nothing else |
| EagerRun.QueriesBounded | backend/ent/account_query.go:550-625 | however many accounts are loaded, a run needs no more queries than there are query builders in it |
| EagerRun.RunAll | backend/ent/account_query.go:307-314 | succeeds exactly if no query reached selects an unknown field or scans groups joined before, and the database answers; then the accounts are the first stored ones that all filters let pass, up to the limit, each with the cells of the columns asked for and no others; everything in their graphs is a stored row where it belongs; the graph loaded is the batched one, on new objects, closed under the loaded edges, and the builder builds what the specification says a run leaves, at every depth |
| EagerRun.SqlAll | backend/ent/account_query.go:550-625 | the same without the check of the fields; no edge query when there are no accounts |
| EagerColumns.ProjectedExactly | backend/ent/account_query.go:866-880 | the projection has every column if none is selected; else the id, those selected and the keys of the to-one edges requested, and no others |
| EagerColumns.DecodeShows | backend/ent/account_query.go:866-880 | so a loaded account has exactly those cells of the stored one |
| EagerColumns.EntityDecodes | backend/ent/account.go:168-417 | the entity that scanValues and assignValues make of the projected row has those cells, decoded, in its fields, and zero values elsewhere |
| EagerColumns.MatchExactly | backend/ent/account_query.go:881-887 | a row is matched exactly if every filter given and every key filter lets it pass |
| EagerColumns.NodesShown | backend/ent/account_query.go:550-577 | the accounts loaded are the stored rows that pass, in table order, all of them up to the limit |
| EagerStored.TargetShows | backend/ent/account_query.go:627-719 | groups and proxies keep their id and exactly the columns selected |
| EagerStored.OwnedShows | backend/ent/account_query.go:785-844 | usage logs and links keep their account and exactly the columns selected |
| EagerStored.GraphsAreStored | backend/ent/account_query.go:550-625 | at every depth each account, group, proxy, usage log and link loaded is a stored row that its edge's filter lets pass, belongs to the account that holds it, and is seen through the columns selected |
| EagerRefines.ProjectionStartsWithID | backend/ent/account_query.go:866-880 | the projected columns hold the id exactly once, first |
| EagerRefines.ProjectionKeepsKeys | backend/ent/account_query.go:866-880 | they hold every selected field and the foreign keys of the requested to-one edges |
| EagerRefines.ChildProjectionKeepsParent | backend/ent/account_query.go:762-764 | a narrowed children query gets the key of its parent |
| EagerRefines.DecodeKeepsKeys | backend/ent/account_query.go:866-880 | so the keys that the loads use are decoded |
| EagerRefines.GroupsOfJoin | backend/ent/account_query.go:638-646 | distributed over the accounts, the join gives each the groups linked to it, in table order |
| EagerRefines.GroupsAgree | backend/ent/account_query.go:627-687 | the groups equal those of a query per account |
| EagerGroupOrder.SameGroupsInAnyOrder | backend/ent/account_query.go:649-685 | for every permutation of join rows in which a group is always the same, every account is given the same groups, as often |
| EagerGroupOrder.GroupsAgreeInAnyOrder | backend/ent/account_query.go:627-687 | so for every order of the join rows the groups are those of a query per account |
| EagerRefines.ProxyAgrees | backend/ent/account_query.go:688-719 | the proxy equals that of a query per account |
| EagerRefines.ParentAgrees | backend/ent/account_query.go:720-751 | the parent equals that of a query per account |
| EagerRefines.ChildrenAgree | backend/ent/account_query.go:752-784 | the children equal those of a query per account |
| EagerRefines.OwnedAgrees | backend/ent/account_query.go:785-844 | usage logs and links equal those of a query per account |
| EagerRefines.BatchedIsNested | backend/ent/account_query.go:550-625 | the whole batched result, nested to any depth, equals one query per account and edge |
| EagerNarrow.NarrowingKeepsEdges | backend/ent/account_query.go:858-880 | whatever fields are selected, and with any limits, the edges loaded are those of the unnarrowed query |
| EagerAccess.AccessorsShowTree | backend/ent/account.go:111-165 | the accessors tell not loaded, not found and found exactly as the loaded graph has it, and what is found is what the graph holds |
| EagerAccess.ProxyAccessExact | backend/ent/account.go:120-128 | not loaded exactly when not requested; not found exactly when requested and the key is null or names no row that the edge query admits |
| EagerAccess.ParentAccessExact | backend/ent/account.go:131-139 | the same for the parent |
| EagerAccess.LoadedIsNested | backend/ent/account_query.go:550-625 | running the query loads what one query per account and edge would; whether it succeeds or not, it asks no more queries than there are query builders |
| EagerAccess.RunAgain | backend/ent/account_query.go:550-625 | one builder object run twice: the second run loads what a fresh builder would exactly under the condition of RunAgainExactly, and on the same store under that of RunTwice; the graphs of the first run stay as they were |
| EagerAccess.LargerPage | backend/ent/account_query.go:50-53 | on builder objects, the input of LargerPageMisses |
| EagerLimits.LimitExact | backend/ent/account_query.go:888-890 | a limit over all rows gives every owner what a limit of its own would, exactly when it cuts nothing off, keeps nothing, or one owner has all rows |
| EagerGroupLimits.GroupsAreOwnRows | backend/ent/account_query.go:649-685 | of rows as a join returns them, an account gets the groups of its own rows, in row order |
| EagerGroupLimits.GroupLimitExact | backend/ent/account_query.go:638-685 | the condition of LimitExact on the join rows, for the lists of groups that the accounts get |
| EagerLimits.ProxyLimitExact | backend/ent/account_query.go:704-708 | a limited proxy query finds what one per account would, exactly when it cuts nothing off or keeps nothing |
| EagerExact.ParentsExactly | backend/ent/account_query.go:733-751 | one query for all parents gives every account the parent that a limited query of its own would, with all edges, exactly when the limit cuts nothing off or keeps nothing and the parents' own edges come out alike |
| EagerExact.ChildrenExactly | backend/ent/account_query.go:762-784 | the same for children, with the condition of LimitExact |
| EagerLimits.OwnedLimitExact | backend/ent/account_query.go:795-801 | that, for usage logs and links |
| EagerLimits.SharedLimitLoses | backend/ent/account_query.go:795-801 | an input at which a limit makes a difference |
| EagerExact.LimitsExactly | backend/ent/account_query.go:550-625 | the whole batched result equals one query per account and edge, all keeping their limits at every depth, exactly when every limit met is harmless for the accounts it is met for |
| EagerExact.UnlimitedIsHarmless | backend/ent/account_query.go:550-625 | without limits on edge queries that is so |
| EagerRerun.OwnedAgainExactly | backend/ent/account_query.go:795-801 | the edge query of a first run gives every node the usage logs or links of a fresh one, exactly when each row that the fresh one selects has its owner among the first run's nodes |
| EagerRerun.ProxiesAgainExactly | backend/ent/account_query.go:701-708 | that, for proxies and the keys of the first run |
| EagerRerun.GroupsAgainExactly | backend/ent/account_query.go:638-670 | a groups query joined once more gets by and gives every node the groups of the one before, exactly when that selects no row |
| EagerRerun.AgainFailsExactly | backend/ent/account_query.go:638-670 | a groups query that was joined before fails exactly if a group that its filter lets pass has a link to an account of every load |
| EagerRerun.ChildrenAgainExactly | backend/ent/account_query.go:762-768 | that, for children with all their edges: their load gets by and gives the same, exactly when each child belongs to a node of the first run and the children's own edges get by and come out the same |
| EagerRerun.ParentsAgainExactly | backend/ent/account_query.go:733-740 | that, for parents |
| EagerRerun.RunAgainExactly | backend/ent/account_query.go:550-625 | where a fresh builder gets by, a second run gets by and gives the same graphs, exactly when, at every depth, each row that the fresh one selects belongs to a node of the first run and no groups are selected |
| EagerRerun.RunTwice | backend/ent/account_query.go:550-625 | a second run on an unchanged store fails exactly when some groups query reached found a row, and otherwise gives the same graphs |
| EagerRerun.LargerPageMisses | backend/ent/account_query.go:50-53 | an input at which a second run gives something else: with a limit of one, and then of three |
| EagerRerun.SecondRunFails | backend/ent/account_query.go:638-670 | an input at which a second run fails: one account with a group |
| EagerRerun.GroupsGoMissing | backend/ent/account_query.go:638-670 | an input at which a second run gets by and an account misses its group |
| EagerBuilder.AllAccounts | backend/ent/account_query.go:307-314 | the accounts that pass the filters, within the limit, with the columns asked for and their edges; what is left of the builder |
| EagerBuilder.First | backend/ent/account_query.go:208-217 | the first account admitted whatever the limit was, with its edges; not found only if none is; the limit is one afterwards, also if the run fails, and the edges are left as by a run |
| EagerBuilder.Only | backend/ent/account_query.go:254-267 | succeeds only if exactly one account is admitted, and tells none from several; the limit is two afterwards, and the edges are left as by a run |
| EagerBuilder.IDs | backend/ent/account_query.go:326-335 | what the library scans from the rows within the limit, the ids if nothing was selected before; the id stays among the selected fields |
| EagerBuilder.FirstID | backend/ent/account_query.go:230-240 | the first id scanned, that of the first row admitted if nothing was selected before; limit and selected fields stay changed |
| EagerBuilder.Exist | backend/ent/account_query.go:365-375 | whether an id was scanned, if nothing was selected before whether a row is admitted; limit and selected fields stay changed |
| EagerBuilder.ExistTwice | backend/ent/account_query.go:365-375 | a second call selects the id twice, and fails if the library refuses rows of several columns |
| EagerBuilder.SelectedIDStays | backend/ent/account_query.go:326-335 | afterwards a query that had selected nothing decodes accounts to their ids and the keys of the requested to-one edges, any other as before |
| RowCodec.ScanValues | backend/ent/account.go:168-189 | one empty holder per column, of the column's type |
| RowCodec.SwitchesAgree | backend/ent/account.go:168-417 | the holder types that the two switches expect are the same for every column |
| RowCodec.ZeroIsEmpty | backend/ent/account.go:168-189 | the zero value of each type of field, which is what an empty holder holds |
| RowCodec.Entity.AssignValues | backend/ent/account.go:193-417 | stores the holders in turn up to the first that cannot be stored; nothing if there are fewer holders than columns |
| RowCodecLaws.FailsOnJsonOnly | backend/ent/account.go:168-417 | on scanned holders there is never a type mismatch; it succeeds exactly when every JSON field with bytes parses |
| RowCodecLaws.OwnFieldOnly | backend/ent/account.go:193-417 | each known column sets its own field, by its own holders alone |
| RowCodecLaws.NullKeeps | backend/ent/account.go:198-210 | a null leaves a field as it was, except that the id becomes zero |
| RowCodecLaws.LastValidWins | backend/ent/account.go:193-417 | of several holders of a scalar column the last that is not null is kept |
| RowCodecLaws.RowDecodes | backend/ent/account.go:168-417 | a new entity decodes a row to the cells selected and zero values elsewhere, for columns in any order, repeated or unknown |
| RowCodecLaws.UnknownAreSelected | backend/ent/account.go:412-414 | unknown columns are kept by name, the last of a name winning |
| RowCodecLaws.UnknownKeepsCell | backend/ent/account.go:412-414 | and of a row each is kept as its cell |
| RowCodecLaws.JsonMerges | backend/ent/account.go:256-271 | a JSON field stored twice holds the entries of both, the later winning; a null makes it nil, no bytes leave it |
| CreateSpecs.SetDefaults | backend/ent/account_create.go:527-585 | sets the defaults of the fields of DefaultedExactly, in order, up to the first that is not initialized |
| CreateDefaults.DefaultedExactly | backend/ent/account_create.go:527-585 | the fields with a default are those not stored as pointers, except name, platform and type; times and JSON documents get theirs from functions |
| CreateDefaults.DefaultsExactly | backend/ent/account_create.go:527-585 | defaults succeed exactly if no function is missing that an unset field needs; then every unset field with a default holds it, and all others, optional ones included, are as they were |
| CreateDefaults.RequiredExactly | backend/ent/account_create.go:588-662 | check requires the fields with a default and name, platform and type, and validates six fields |
| CreateDefaults.InTableOrder | backend/ent/account_create.go:527-857 | defaults, checks and the row's fields all go in table order, each field required before it is validated |
| CreateDefaults.GivenIsEnough | backend/ent/account_create.go:527-662 | after the defaults check passes exactly if name, platform and type were set, no function needed was missing, and the validators accept |
| CreateDefaults.MissingIsDemanded | backend/ent/account_create.go:588-662 | what is required and unset after the defaults is the name, the platform or the type |
| CreateSpecs.DefaultsFillIn | backend/ent/account_create.go:527-585 | only unset fields change, each to its default; a failure names a field that stays unset |
| CreateSpecs.Check | backend/ent/account_create.go:588-662 | passes exactly if every condition is met, else reports the first that is not |
| CreateSpecs.IgnoredDefaultsAreCaught | backend/ent/account_create.go:2104-2113 | a failed default always fails check, so ignoring its error accepts exactly what heeding it accepts |
| CreateSpecs.DefaultsOnce | backend/ent/account_create.go:527-585 | running the defaults again changes nothing |
| CreateSpecs.MakeSpec | backend/ent/account_create.go:682-892 | the specification holds the fields set, in order, and the edges added; the node holds the same fields and keys, and zero values elsewhere |
| CreateReadBack.FieldReadsBack | backend/ent/account_create.go:682-857 | every column of the inserted row decodes to the node's field |
| CreateReadBack.CreatedReadsBack | backend/ent/account_create.go:664-857 | reading the row back through any list of columns gives the node's fields |
| CreateReadBack.InsertedRowFills | backend/ent/account.go:168-189 | the inserted row fits the holders of every column |
| CreateReadBack.RequiredIsNotNullable | backend/ent/account_create.go:588-662 | the fields that check requires are exactly those that rows are not decoded into as pointers |
| CreateReadBack.UnsetDecodesToNil | backend/ent/account_create.go:588-662 | so of an account that passes check, a field left unset reads back as nil, never as a zero that was not set |
| CreateReadBack.Save | backend/ent/account_create.go:497-503 | gets to the insertion exactly if name, platform and type are set, no default function needed is missing, and the validators accept; reports what was missing otherwise; on any error the mutation is not done; on success it is, with the id of the node returned |
| BulkPlans.SucceedsExactly | backend/ent/account_create.go:2106-2150 | the chain succeeds exactly when the batch is reached, the database inserts and no hook rejects afterwards |
| BulkPlans.DownBatchUp | backend/ent/account_create.go:2106-2143 | a batch that is reached runs once, after all hooks were entered and all specifications filled in builder order, and before anything is done or left, in reverse order |
| BulkPlans.NothingHappens | backend/ent/account_create.go:2111-2131 | if it is not reached, nothing is inserted and nothing done |
| BulkPlans.AllOrNothingExact | backend/ent/account_create.go:2095-2152 | all-or-nothing, exactly unless a hook rejects after rows were inserted |
| BulkPlans.HalfDone | backend/ent/account_create.go:2095-2152 | a plan that is not: of two builders one is done |
| BulkCreate.BulkSave.BatchCreate | backend/ent/account_create.go:2120-2128 | called with every specification in its place; inserts all rows in builder order, or none |
| BulkCreate.BulkSave.Fill | backend/ent/account_create.go:2116-2122 | fills the builder's own places in nodes and specs, with the mutation's fields, keys and links |
| BulkCreate.BulkSave.RowsAre | backend/ent/account_create.go:2116-2128 | there is one row per builder, with the builder's fields, foreign keys and links |
| BulkCreate.BulkSave.Finish | backend/ent/account_create.go:2132-2138 | the node gets its id, the mutation's id points into it, and it is done |
| BulkCreate.BulkSave.Mutate | backend/ent/account_create.go:2106-2143 | the closures do what the plan says: events, success, at most one batch, and exactly the mutations done that the plan lets complete |
| BulkCreate.BulkSave.SetAllDefaults | backend/ent/account_create.go:2102-2105 | every builder gets its defaults, also when builders share a mutation |
| BulkCreate.BulkSave.Save | backend/ent/account_create.go:2095-2152 | at most one batch, of the rows of RowsAre; success exactly if it is reached, inserts and no hook rejects afterwards; a builder passes its check exactly if its mutation was given what GivenIsEnough says; then every mutation is done with its node; if nothing was inserted none becomes done |
| BulkReadBack.BulkReadsBack | backend/ent/account_create.go:2095-2152 | reading an inserted row back through any list of columns gives the fields of the node returned for it |
| AccountMutations.AccountMutation.AddIDs | backend/ent/mutation.go:3879-3886 | the ids are added; what was removed or cleared stays so |
| AccountMutations.AccountMutation.RemoveIDs | backend/ent/mutation.go:3899-3907 | the ids are removed, and no longer added |
| AccountMutations.IDIs | backend/ent/mutation.go:2413-2418 | the mutation's id is the entity's once it points at one |
| UpdateSpecs.EditFields | backend/ent/account_update.go:805-948 | the fields set, increased and set to null, in order |
| UpdateSpecs.EditMany | backend/ent/account_update.go:949-1005 | clear all, or clear the removed unless all are cleared; then the added |
| UpdateSpecs.EditOne | backend/ent/account_update.go:1006-1063 | cleared through the edge or its key field; then the new key |
| UpdateSpecs.UpdateMeans | backend/ent/account_update.go:949-1153 | clear-then-add gives: none if cleared, else the old without the removed, and the added, for all overlaps; a key is the new one, else none if cleared, else the old |
| UpdateSpecs.CheckUpdate | backend/ent/account_update.go:759-791 | passes exactly if the validators accept the fields that are set |
| UpdateSpecs.UpdateManySpec | backend/ent/account_update.go:793-1153 | exists exactly if the check passes, and holds the mutation's edits |
| SingleUpdates.SelectColumns | backend/ent/account_update.go:1956-1967 | the id once, first, and then the other selected fields in their order; nothing if none are selected; refused at an unknown column |
| SingleUpdates.SameFieldEdits | backend/ent/account_update.go:1975-2118 | the field statements of the single-row builder make the lists that those of the many-row builder make |
| SingleUpdates.EditLinks | backend/ent/account_update.go:2119-2175 | its statements for a to-many edge: clear all, or clear the removed; then the added |
| SingleUpdates.EditKey | backend/ent/account_update.go:2176-2233 | its statements for a to-one edge |
| SingleUpdates.CheckSingle | backend/ent/account_update.go:1912-1944 | its check passes exactly if the validators accept the fields that are set |
| SingleUpdates.UpdateOneSpec | backend/ent/account_update.go:1946-2324 | needs its check, an id and known columns; holds the mutation's edits, from its own statements, for that id, and the columns selected |
| CallLaws.UpdateAddsStale | backend/ent/mutation.go:3879-3907 | an update does what its calls do in turn, and adds the ids that were pending at the last clear and not touched since |
| CallLaws.InTurnExactly | backend/ent/mutation.go:3879-3907 | so it means the calls in turn exactly when there are no such ids |
| CallLaws.ClearedIDIsAdded | backend/ent/mutation.go:3879-3907 | an input at which it does not: a group added and then cleared is added |
| CallLaws.NothingStale | backend/ent/mutation.go:3879-3907 | there are none if nothing is cleared |
| CallLaws.CallEdge | backend/ent/mutation.go:3879-3907 | the setters of a mutation record the calls |
| CallLaws.KeyInTurnExactly | backend/ent/mutation.go:2790-2836 | an update leaves the key that the calls on a to-one edge leave in turn, a reset undoing all before it, exactly unless the last call clears the edge after a key was set, resets the edge after the key field was cleared, or resets the key field after the edge was cleared |
| CallLaws.ResetUndoesExactly | backend/ent/mutation.go:3954-3957 | a reset of the edge leaves every key as it was exactly if the key field is not left cleared, one of the key field exactly if the edge is not |
| CallLaws.ResetKeepsClear | backend/ent/mutation.go:2833-2836 | inputs at which they do not: the edge is cleared and then reset by either name |
| CallLaws.ClearedKeyIsWritten | backend/ent/mutation.go:3933-3936 | an input at which it does not: the key is set, the edge cleared, and the key written |
| CallLaws.CallKey | backend/ent/mutation.go:2790-2824 | the setters of a to-one edge record the calls, and leave the other edge alone |
| CallLaws.KeyIsWritten | backend/ent/account_update.go:1006-1063 | the edge lists of an update write the key of KeyInTurnExactly |
| CallLaws.FieldEditsExactly | backend/ent/mutation.go:2597-2644 | a field is set if the last call set it, and nulled if a call did and none reset it since; both, exactly when a null is followed by a value |
| CallLaws.ClearedFieldIsSet | backend/ent/mutation.go:2597-2644 | an input at which a field is both nulled and set |
| CallLaws.CallField | backend/ent/mutation.go:2597-2644 | the setters of a field record the calls, and leave other fields alone |
| CallLaws.FieldIsWritten | backend/ent/account_update.go:805-948 | the field lists of an update are those of FieldEditsExactly |
| UpdateLaws.OneRefinesMany | backend/ent/account_update.go:1946-2337 | the single-row builder, written apart from the many-row one, makes the same edits, to the row with its id if the many-row update touches it |
| UpdateLaws.SelectIsCosmetic | backend/ent/account_update.go:1956-1967 | selecting fields changes the columns returned and nothing else |
| UpdateLaws.NullableDecodesToNil | backend/ent/account_update.go:805-948 | the scalar fields that an update can clear are exactly those that decode a null to nil |
| UpdateLaws.SameValidators | backend/ent/account_update.go:759-791 | updating validates exactly the fields that creating validates |
| UpdateLaws.AcceptedAlike | backend/ent/account_update.go:759-791 | so fields that creation accepts pass the check of an update |
| UpdateLaws.AllButCreation | backend/ent/account_update.go:805-948 | an update can set every scalar field except the time of creation |
| ReleaseVersion.ParseInvertsFormat | tools/release_version.py:14-22 | a text that strips to the format of a bounded version parses to it |
| ReleaseVersion.ParseExact | tools/release_version.py:14-22 | a text parses to a version exactly if it strips to its format and the version is within the bound |
| ReleaseVersion.RefusedExactly | tools/release_version.py:14-22 | of the other texts those that are versions are refused for a component over the bound, and the rest for their format |
| ReleaseVersion.LineEndIsStripped | tools/release_version.py:14-22 | a version followed by a line end parses as the version |
| ReleaseVersion.VersionFileParses | tools/release_version.py:14-22 | so does one with any blanks around it |
| ReleaseVersion.OrderIsValue | tools/release_version.py:25-31 | releases are ordered as their mixed-radix values |
| ReleaseVersion.SuccessorAddsOne | tools/release_version.py:25-31 | the successor's value is one more; it is within the bound unless all components are at it |
| ReleaseVersion.NextAddsOne | tools/release_version.py:25-31 | the next version is the format of the successor |
| ReleaseVersion.LastVersionLeavesBound | tools/release_version.py:14-31 | the version after the last is one that the tool does not parse |
| ReleaseVersion.LaterAddsK | tools/release_version.py:25-31 | k successors add k |
| ReleaseVersion.StepsAddUp | tools/release_version.py:25-31 | k steps on texts give the version k later, or fail at the first that does not re-parse |
| ReleaseVersion.EveryVersionIsReached | tools/release_version.py:25-31 | stepping from zero reaches every bounded version |
| ReleaseContract.CheckVersionFormat | tools/check_release_contract.py:60-67 | reports nothing exactly if the file parses, else the one fitting error |
| ReleaseContract.ReportedExactly | tools/check_release_contract.py:60-67 | that error is an over-large component for a version beyond the bound, and the format for what is no version |
| ReleaseContract.FieldsAreGroups | tools/check_release_contract.py:62-65 | splitting at dots yields the groups of the pattern |
| ReleaseContract.ParseByFields | tools/check_release_contract.py:60-67 | so the check accepts the texts that the version tool parses |
| ReleaseContract.CheckMigrationImmutability | tools/check_release_contract.py:886-909 | appends one error for each changed line that is not an addition, and nothing without a base |
| ReleaseContract.ReportsAll | tools/check_release_contract.py:900-909 | of a diff it reports every change that is no addition, in order, each with git's status |
| ReleaseContract.EmptyLinesSkipped | tools/check_release_contract.py:900-903 | empty lines change nothing |
| ReleaseContract.CheckIsExact | tools/check_release_contract.py:900-909 | silent exactly if every file of the base is there with the same content |
| ReleaseContract.OwnTagIsIgnored | tools/check_release_contract.py:893-896 | the base is the same whether or not the release is tagged already |
| ReleaseContract.BaseTagIsNewest | tools/check_release_contract.py:888-899 | the base is the newest stable release at another commit |
| ReleaseContract.SilenceMeansPass | tools/check_release_contract.py:886-909 | a silent check means that the base's migrations are kept |
| ReleaseContract.IncreasingRunsAreImmutable | tools/check_release_contract.py:886-909 | if versions increase and every release passes, every migration of every release is in all later ones, unchanged |
| ReleaseContract.OutrankedReleaseIsForgotten | tools/check_release_contract.py:896-899 | a release that an earlier one outranks can lose its migrations although all pass |
| ReleaseContract.OrderDecidesImmutability | tools/check_release_contract.py:886-909 | with distinct versions and commits, passing guarantees immutability exactly when the versions increase, the last one excepted |
| ReleaseContract.SteppedRunsAreImmutable | tools/release_version.py:25-31 | releases that step by the version tool are such runs |
| AuditExceptions.ParseExceptions | tools/check_pnpm_audit_exceptions.py:23-48 | the loop computes what reading the lines in turn gives, or the first error |
| AuditExceptions.ParseFailsExactly | tools/check_pnpm_audit_exceptions.py:34-41 | parsing fails exactly if an item line has text without a colon |
| AuditExceptions.SplitField | tools/check_pnpm_audit_exceptions.py:12-20 | a key and value split again, whatever colons, quotes or blanks the value has: between double or single quotes, or bare if it is stripped and no quotes surround it |
| AuditExceptions.LinesOfJoined | tools/check_pnpm_audit_exceptions.py:28-29 | the lines of joined lines are those lines |
| AuditExceptions.LinesExactly | tools/check_pnpm_audit_exceptions.py:28-29 | a line ends at a line feed, a carriage return and line feed, or a carriage return; the last needs no end |
| AuditExceptions.ParseUndoesPrint | tools/check_pnpm_audit_exceptions.py:23-48 | parsing the printed lines of records gives the records, each value written bare or in quotes of either kind |
| AuditExceptions.ParseTextUndoesPrint | tools/check_pnpm_audit_exceptions.py:23-48 | the same for the printed text |
| AuditExceptions.CommentsAreSkipped | tools/check_pnpm_audit_exceptions.py:30-33 | comments, blank lines and headers can stand anywhere in between |
| AuditExceptions.OthersAreSkipped | tools/check_pnpm_audit_exceptions.py:44-46 | a line that is no item counts only inside a record and with a colon |
| AuditExceptions.IndentationIsSkipped | tools/check_pnpm_audit_exceptions.py:30-30 | blanks around a line make no difference |
| GateCore.ReadExceptions | tools/check_pnpm_audit_exceptions.py:156-185 | the loop builds the index and the errors specified |
| GateCore.IndexHolds | tools/check_pnpm_audit_exceptions.py:175-185 | the index holds an accepted exception for each key that has one, and nothing else |
| GateCore.IndexKeepsFirst | tools/check_pnpm_audit_exceptions.py:175-185 | and of several it holds the first |
| GateCore.SilentIndex | tools/check_pnpm_audit_exceptions.py:156-185 | no error exactly if all exceptions are accepted and their keys distinct |
| GateCore.LookUpOne | tools/check_pnpm_audit_exceptions.py:193-219 | one round adds what the specification adds for one more finding, to the seen keys, the errors, the missing and the expired |
| GateCore.LookUpFindings | tools/check_pnpm_audit_exceptions.py:187-219 | the loop collects the errors, the missing and the expired exceptions specified |
| GateCore.FirstsExact | tools/check_pnpm_audit_exceptions.py:192-206 | the findings looked up are the first of each key |
| GateCore.VerdictIsSilence | tools/check_pnpm_audit_exceptions.py:193-219 | the loop reports nothing exactly if every relevant finding has an advisory and an unexpired exception, and the severity of each key's first finding fits |
| GateOrder.OrderIrrelevantExactly | tools/check_pnpm_audit_exceptions.py:193-219 | permuting the findings never changes the verdict, exactly when all fit or some key has none that fits |
| GateOrder.SeenIsRedundant | tools/check_pnpm_audit_exceptions.py:192-206 | if findings of a key agree in severity, looking up all of them decides the same |
| GateOrder.IndexPermuted | tools/check_pnpm_audit_exceptions.py:156-185 | permuted exceptions are complete and distinct alike, and then give the same index |
| AuditReport.IterVulns | tools/check_pnpm_audit_exceptions.py:64-111 | the findings of both report forms, in order, field by field: of a GitHub id, URL, CVE and the texts the first that is not empty, and so on |
| AuditReport.SeenExactly | tools/check_pnpm_audit_exceptions.py:80-111 | a finding is yielded exactly if some vulnerability reports it |
| AuditReport.SilentEntry | tools/check_pnpm_audit_exceptions.py:104-111 | a vulnerability yields nothing exactly if none of its items has an id |
| AuditReport.FindingsAreFound | tools/check_pnpm_audit_exceptions.py:51-111 | the function that the verdict is stated with gives those findings |
| AuditGate.Gate | tools/check_pnpm_audit_exceptions.py:142-243 | returns zero exactly if every exception has its five fields, a date and a subject of its own, and every high or critical finding with a name, in whatever letter case, has an advisory id and an unexpired exception for the package and that id in whatever letter case, whose severity, if it names one, is that of the first finding of the subject |
| AuditGate.ClearsExactly | tools/check_pnpm_audit_exceptions.py:114-219 | the verdict on normalized keys is that on the texts |
| AuditGate.RejectedExactly | tools/check_pnpm_audit_exceptions.py:153-174 | an exception is rejected for a missing field, else for its date, else for a blank package or advisory |
| GateReports.ReportsExactly | tools/check_pnpm_audit_exceptions.py:187-233 | with good exceptions, which findings are reported without an advisory, without an exception, as expired and since when, and with which other severity |
| AuditGate.CheckAudit | tools/check_pnpm_audit_exceptions.py:142-243 | from the text of the exceptions file: the exit code is zero exactly if the text parses and the gate passes on the records parsed |
| AuditGate.PrintedPasses | tools/check_pnpm_audit_exceptions.py:23-48 | on a printed file that is the verdict on the records printed |
| AuditGate.PassesByIndex | tools/check_pnpm_audit_exceptions.py:151-219 | the declarative verdict is the verdict of index and lookup |
| GateRobust.ExceptionOrderIrrelevant | tools/check_pnpm_audit_exceptions.py:156-185 | permuting exceptions does not change the verdict |
| GateRobust.PassedEarlier | tools/check_pnpm_audit_exceptions.py:187-219 | a pass on a day is a pass on every earlier day |
| GateRobust.FindingOrderIrrelevantExactly | tools/check_pnpm_audit_exceptions.py:193-219 | permuting findings never changes the verdict, exactly when the exceptions are bad anyway, every relevant finding fits its exception, or some key has no finding that fits |
| GateRobust.SeenKeysDecideNothing | tools/check_pnpm_audit_exceptions.py:192-206 | with one severity per key the set of seen keys can be removed |
| GateRobust.OnlyTheSetOfFindingsMatters | tools/check_pnpm_audit_exceptions.py:193-219 | with one severity per key, permuting and repeating findings does not change the verdict |
| GateRobust.FindingOrderCanMatter | tools/check_pnpm_audit_exceptions.py:193-219 | an input at which the order of two findings of one key decides the exit code |
| GateRobust.SilentAnywhere | tools/check_pnpm_audit_exceptions.py:104-111 | a vulnerability without ids, listed anywhere, leaves the findings as they are |
| GateRobust.NamelessAdvisoryFails | tools/check_pnpm_audit_exceptions.py:193-202 | a high or critical advisory without an id, listed anywhere, fails the gate |
| GateRobust.LiftedAdvisoryPasses | tools/check_pnpm_audit_exceptions.py:51-61 | an advisory whose GitHub id has an exception in force never fails the gate, wherever it is listed and whatever URL it has |
| Text.LowerExactly | tools/check_pnpm_audit_exceptions.py:114-131 | texts are equal in lower case exactly if their letters are the same in whatever case |
| Text.StripCuts | tools/check_pnpm_audit_exceptions.py:114-131 | stripping takes blanks away at both ends and nothing else |
| Text.SpaceExactly | tools/check_pnpm_audit_exceptions.py:29-29 | which characters are blanks |

## Left out

- SQL generation, drivers, transactions and the graph library: their effect is assumed as listed above. A query's order
  and offset, its modifiers, interceptors and traversal paths are not modelled; what order the database answers in is
  the order of the model's tables.
- BatchedIsNested: for edge queries without limits, and groups queries not joined before; `EagerExact.LimitsExactly` is
  the statement with limits.
- Builders of edges to groups, proxies, usage logs and links are held by value in the builder that loads them, and a
  builder belongs to one edge. What a failed run leaves of the edges' builders is not stated; `Clone` is not modelled.
- IDs: what scanning ids gives when other fields had been selected is up to the library, and a parameter.
- The validity of fields selected on edge queries to groups, proxies, usage logs and links; accounts are modelled.
- Put: assumes the integer width of a 64-bit platform. Rounding of the decimal column of the rate multiplier, and a nil
  map set explicitly for a JSON field, are not modelled.
- Hooks: they pass the mutation on unchanged or reject; a recorded builder error and uninitialized hooks are left out.
  `CreateReadBack.Save` is the save of a builder without hooks.
- BulkSave: a place in `specs` holds the contents of a specification, not a pointer to it. The node of a mutation is
  stated for mutations that no two builders share.
- The saving of updates beyond the specification, and what setting, increasing and clearing one field in one update
  comes to, which is up to the library. The rows that a groups edge carries besides the two ids.
- Panicking variants, upserts, deletes, counts and aggregates, the other entities, and setters that only forward.
- The rest of the release contract (file contents, compose files, branding), git and process calls, argument parsing,
  message texts, and date parsing, which is a parameter. Digits and white space are the ASCII ones, in versions and in
  the exceptions file.
