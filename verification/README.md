# Account persistence and the audit-exception gate, verified

This project models, in Dafny 4.11, the parts of the repository that hold real algorithms over
unbounded data, and proves what each of them is for.

* **Batched eager loading** (`backend/ent/account_query.go`, `backend/ent/authidentity_query.go`).
  One query fetches the neighbours of many account nodes; in-memory indexes scatter the answer back
  onto node objects whose edge lists grow in place. The batch is proved equal to the simple per-node
  join, with the exact conditions under which order and repeated keys matter. Around it, the query
  itself: the compiled column list, the nodes made from rows, and the errors it can return.
* **The bulk-create chain** (`backend/ent/account_create.go`). `AccountCreateBulk.Save` builds a chain of
  closures, one per account, each wrapped in hooks. Looking at the results of its calls so far, a hook may
  edit the mutation or hand on a new one, call the next mutator never, once or many times, and answer as it
  likes.
  The model has an object store for mutations, a log of events, and the class `BulkSave.Run` that fills
  the slices in place; it refines the pure functions of `BulkChain`, about which the theorems on whole
  runs are proved. The single-create path (`AccountCreator.Creator`) is modelled beside it, and the two
  are related, as are the entity a create returns and the row it stores.
* **The audit-exception gate** (`tools/check_pnpm_audit_exceptions.py`). The line-oriented parser, the
  index of exceptions, the stream of vulnerability tuples and the decision loop, from the text of the
  exception file and the decoded report to the verdict.
* **Chained traversals** (`backend/ent/account_query.go`, `backend/ent/accountgroup_query.go`). Preparing
  a query prepares the query it was derived from, and so on, for chains of any length.

`dafny verify dfyconfig.toml` checks everything.

## Layout

| files | content |
|---|---|
| `Text`, `ExceptionLexer`, `ExceptionParser` | Python strings, one line of the exception file, the parser |
| `AuditGate`, `AuditTheorems`, `AuditInput` | the decision, what it depends on, and the raw inputs |
| `AccountEntity`, `AccountCreate`, `AccountCreator` | the entity and its row codec; `defaults`, `check`, `createSpec`; the single create as it runs |
| `BulkChain`, `BulkSave`, `BulkAnyHooks`, `BulkStraight`, `BulkFaithful`, `BulkTrust`, `BulkContext`, `AccountBulk` | the chain as functions, the chain as it runs, theorems for all hooks, for straight hooks, on when a success can be trusted, and for accounts |
| `JoinRows`, `NodeIndex`, `KeyGroups` | theory of join rows, of the index by key, of grouping by foreign key |
| `AccountNodes`, `LoadGroups`, `LoadProxy`, `LoadChildren`, `AccountQuery` | node objects, the loaders, `querySpec` and `sqlAll` |
| `Traversal` | `prepareQuery` through chains of path closures |
| `Seqs` | filters, maps, permutations |

## Where the code differs from what one would expect

Each of these has a concrete input and an exact condition below.

* The bulk path checks a builder's *old* mutation and then adopts the one its hooks handed on; the single
  path copies first and checks afterwards. A hook that hands on another mutation can thus get data inserted
  that the check rejects (`AccountBulk.SwapBypassesCheck`).
* The bulk path drops the error of `defaults` and runs the hooks before the check. Without hooks that is
  harmless (`AccountCreate.FailedDefaultsFailCheck`), but a hook that fills the columns in gets an account
  inserted that a single create rejects (`AccountBulk.DroppedDefaultsError`).
* When exactly the two paths agree is `AccountBulk.BuilderAgrees` for one builder and
  `AccountBulk.BulkRefinesSingles` for a whole bulk create.
* `AccountUpsertBulk.ExecX` is documented to be like `Exec` but skips its guards
  (`AccountBulk.ExecXSkipsGuards`, `AccountBulk.ExecXAgreesIff`).
* A reported success of a bulk create is only as good as its hooks: one that answers success regardless makes
  an empty account "created" with nothing inserted (`AccountBulk.SwallowedError`). The exact conditions are
  `BulkTrust.TruthfulIff` for one hook alone and `BulkContext.FaithfulIff` for a hook among others.
* Batched loading lists an account's groups in the order of the whole stream, not in the order a query for
  that account alone would give (`JoinRows.OrderKeptIff`, `JoinRows.OrderNotAlwaysKept`).
* When two nodes have the same key, only the last one receives groups or children
  (`LoadGroups.RepeatedKeyExample` and `LoadGroups.RepeatedKeyLosesGroups`, and the same two of
  `LoadChildren`); proxies are not affected (`LoadProxy.Load`).
* A call of the group query's querier returns only the groups that no earlier call mentioned, so an
  interceptor that calls it again, after a success or after an error, loses groups
  (`LoadGroups.RetryExample`, `LoadGroups.LaterCall`).
* The gate compares severities only for the first tuple of a key, so the order of the report can decide the
  verdict (`AuditInput.TupleOrderMatters`, `AuditTheorems.TupleOrderIrrelevantIff`).
* A package none of whose `via` items identifies an advisory is invisible to the gate, whatever its severity
  (`AuditInput.InvisibleCritical`, `AuditInput.UnidentifiedPackageInvisible`).

## Model

| member | source | states |
|---|---|---|
| `JoinRows.FirstRowsFacts` | backend/ent/account_query.go:576-585 | the rows kept by the scan list every group that occurs exactly once, each from the first row that mentions it |
| `JoinRows.BatchedIsJoin` | backend/ent/account_query.go:542-602 | for every row stream, duplicate rows included, the batch gives each account exactly the groups linked to it, each once: the same collection as asking for that account alone |
| `JoinRows.OrderKeptIff` | backend/ent/account_query.go:542-602 | the batch lists an account's groups in the order of a query for it alone iff they first occur for it in the order in which they first occur at all |
| `JoinRows.OrderKeptWhenContiguous` | backend/ent/account_query.go:542-602 | a stream that keeps the rows of each group together keeps the order for every account |
| `JoinRows.OrderNotAlwaysKept` | backend/ent/account_query.go:576-600 | a concrete stream: the batch lists groups 7, 8 for an account, a query for it alone lists 8, 7 |
| `JoinRows.FirstRowsConcat` | backend/ent/account_query.go:576-585 | scanning more rows adds the first rows of exactly those groups that no earlier row mentioned |
| `JoinRows.ScatterAnyOrder` | backend/ent/account_query.go:592-600 | for every order in which the set of each group is visited, each account's list grows by the in-order restriction of the groups to those linked to it |
| `JoinRows.ScatterOrderIrrelevant` | backend/ent/account_query.go:592-600 | any two visiting orders end with identical edge lists |
| `NodeIndex.ByIDSnoc` | backend/ent/account_query.go:546-548 | writing one more node keeps the index exact: each key finds the last node with it |
| `NodeIndex.DistinctOwns` | backend/ent/account_query.go:546-548 | with distinct keys every node is found by its own key |
| `LoadGroups.IndexNodes` | backend/ent/account_query.go:543-552 | the first loop: the keys in order, the exact index by key, every edge list empty |
| `LoadGroups.ScanRow` | backend/ent/account_query.go:576-585 | one row: a group that no earlier row mentioned is made as a fresh object, any other only gets one more node in its set |
| `LoadGroups.ScanRows` | backend/ent/account_query.go:576-585 | one call of the querier after earlier ones: each group is made once, from its first row, and `nids` holds exactly the nodes its rows lead to (nil for a key not asked for) |
| `LoadGroups.CallQuerier` | backend/ent/account_query.go:566-588 | any number of calls of the querier, as interceptors make them, some failing after part of their rows: up to each call, the groups made are those of all rows scanned so far |
| `LoadGroups.LaterCall` | backend/ent/account_query.go:579-584 | a call makes exactly the groups of its rows that no earlier call, failed or not, mentioned; so it answers as a single call would iff none of its groups is old |
| `LoadGroups.SecondCallEmpty` | backend/ent/account_query.go:579-584 | a second call over the same rows returns no groups, whether the first succeeded or failed |
| `LoadGroups.RetryExample` | backend/ent/account_query.go:579-584 | one link and a first call that fails after its row: the retry returns nothing, a single call returns the group |
| `LoadGroups.AssignToAll` | backend/ent/account_query.go:597-599 | visiting a set in an arbitrary order appends the group exactly once to each member |
| `LoadGroups.ScatterAll` | backend/ent/account_query.go:592-600 | succeeds iff every neighbour is mentioned by some row and only by rows of accounts asked for; then every node's list is its exact share |
| `LoadGroups.Load` | backend/ent/account_query.go:542-602 | the whole loader, for interceptors that call the querier never, once or often, with calls that may fail part-way, and return any groups: when it fails and with which error (that of the first stray neighbour), and what every node object holds when it does not |
| `LoadGroups.ShareIsJoin` | backend/ent/account_query.go:542-602 | the share of a node that its key finds (with distinct keys: of every node) is exactly the join's groups for it, in first-occurrence order |
| `LoadGroups.RepeatedKeyLosesGroups` | backend/ent/account_query.go:546-548 | with repeated keys the batch agrees with the join exactly on the nodes their key finds and on those that have no group |
| `LoadGroups.RepeatedKeyExample` | backend/ent/account_query.go:546-548 | two nodes with one key and one link: only the second receives the group |
| `LoadGroups.AttachableIffFiltered` | backend/ent/account_query.go:592-596 | without interceptors the error exits are reached iff some row violates the `IN` filter |
| `KeyGroups.GroupingConserves` | backend/ent/account_query.go:604-615 | the groups of the distinct foreign keys together are a permutation of the nodes that have one |
| `KeyGroups.FirstKeysFacts` | backend/ent/account_query.go:604-615 | `ids` lists each foreign key that is not nil exactly once |
| `KeyGroups.DealingConserves` | backend/ent/account_query.go:655-662 | with distinct parents and every foreign key among them, the lists of children together are a permutation of the children |
| `LoadProxy.GroupByProxy` | backend/ent/account_query.go:604-615 | the distinct foreign keys in first-occurrence order, and for each exactly the nodes that have it, in order |
| `LoadProxy.ScatterAll` | backend/ent/account_query.go:624-632 | succeeds iff every proxy returned was asked for; then each node holds the proxy of its foreign key |
| `LoadProxy.Load` | backend/ent/account_query.go:603-634 | the whole loader, also when node keys repeat: no query without a key, when it fails and with which error, and what each node ends with |
| `LoadChildren.LoadUsageLogs` | backend/ent/account_query.go:635-664 | succeeds iff the query does and every child refers to a node asked for; then each node found by its key holds the in-order filter of the children by foreign key, and otherwise the error is that of the first misplaced child |
| `LoadChildren.ChildrenConserved` | backend/ent/account_query.go:635-664 | with distinct keys every list is the in-order filter by foreign key and the lists together are a permutation of the children |
| `LoadChildren.EveryChildOnce` | backend/ent/account_query.go:655-664 | for any keys, repeated ones included: each child is attached to exactly one node and the list lengths add up to the number of children |
| `LoadChildren.RepeatedKeyLosesChildren` | backend/ent/account_query.go:638-644 | with repeated keys a node holds the filter of the children by its key iff its key finds it or no child has that key |
| `LoadChildren.RepeatedKeyExample` | backend/ent/account_query.go:638-644 | two nodes with one key and one usage log: only the second receives it |
| `LoadChildren.LoadAdoptionDecisions` | backend/ent/authidentity_query.go:559-591 | the variant with a nullable foreign key: the nil and unexpected-key errors are returned iff some child has such a key, else the same lists |
| `AccountQuery.CompileProjection` | backend/ent/account_query.go:717-726 | the loop that compiles the column list, against its specification |
| `AccountQuery.CompileColumns` | backend/ent/account_query.go:708-727 | the column list for the requested fields, the list of all columns when none is requested |
| `AccountQuery.AllColumnsKnown` | backend/ent/account/account.go:113-143 | that list selects every known column |
| `AccountQuery.ProjectedColumns` | backend/ent/account_query.go:717-726 | for any fields, repeats included: the key first and only there, every requested field, the foreign key when needed, nothing else |
| `AccountQuery.ProjectionKeepsKeys` | backend/ent/account_query.go:708-727 | for every row, any two lists of requested fields (none: all columns) give the node the same key and foreign key |
| `AccountQuery.MakeNodes` | backend/ent/account_query.go:491-508 | one fresh node per row, read from the selected columns, or the scan error |
| `AccountQuery.NodesShow` | backend/ent/account_query.go:491-508 | each node shows, for every requested column - every known one if none was requested - the value stored in its row, or the zero value where nothing is stored |
| `AccountQuery.PlainGroupsOk` | backend/ent/account_query.go:566-596 | without interceptors the groups load iff the join query succeeds and its rows satisfy the `IN` filter |
| `AccountQuery.SqlAll` | backend/ent/account_query.go:480-540 | the query succeeds iff the node query does, every row can be read and every requested edge loads, group interceptors included; then one node per row, showing what the row stores for every requested column (every known one without a request), with exactly those edges; on an error no nodes |
| `AccountQuery.ProxyAnswer` | backend/ent/account.go:110-117 | after a query, `ProxyOrErr` says found, not-found or not-loaded exactly as a lookup of the node's own key in the whole table would |
| `AccountQuery.GroupsAnswer` | backend/ent/account.go:101-106 | after a query with distinct keys and no interceptors, `GroupsOrErr` is not-loaded if not asked for, else exactly the join's groups for the node |
| `AccountQuery.LogsAnswer` | backend/ent/account.go:121-126 | likewise `UsageLogsOrErr`: the in-order filter of the logs fetched by the node's key |
| `AccountQuery.ProjectionKeepsProxies` | backend/ent/account_query.go:603-634 | two queries over the same rows for any two lists of requested fields give node by node the same `ProxyOrErr` |
| `Traversal.Query.PrepareOwn` | backend/ent/account_query.go:454-469 | the interceptors, then the validity of the fields they left |
| `Traversal.Query.Follow` | backend/ent/account_query.go:145-157 | the rest of a path closure: the selector's error, or the selection over the previous query |
| `Traversal.Prepare` | backend/ent/account_query.go:454-478 | preparing query `i` of a chain of any length terminates; on success every query holds the selection over the one before it; if some query's own part fails, no query has received a selection |
| `Traversal.PrepareSucceedsIff` | backend/ent/account_query.go:139-158 | a chain is prepared iff every query's own part succeeds and no selector before the last carries an error |
| `Traversal.LastOwnErrorWins` | backend/ent/accountgroup_query.go:308-332 | of several failing queries, the one nearest to the caller is reported |
| `Traversal.OwnOkIff` | backend/ent/accountgroup_query.go:308-323 | for interceptors that leave the fields alone: no interceptor is nil, all traverse, all fields are valid columns |
| `Traversal.TraverseRuns` | backend/ent/account_query.go:455-464 | for any interceptors, rewriting ones included: the field lists each passed on to the next, and the error of the first that passes nothing on |
| `Traversal.FirstInvalidIs` | backend/ent/account_query.go:465-469 | the field reported is the first that is no column |
| `AccountEntity.ScanValues` | backend/ent/account.go:138-159 | one empty holder per column, of the type of that column |
| `AccountEntity.AssignSucceedsIff` | backend/ent/account.go:163-367 | assignment succeeds iff there are enough values and each known column has a holder of its type that decodes |
| `AccountEntity.AssignStops` | backend/ent/account.go:163-367 | otherwise the error is that of the first column whose holder has another type or does not decode; the columns before it stay assigned, those after it are untouched |
| `AccountEntity.ScanThenAssign` | backend/ent/account.go:138-367 | for every list of column names, unknown ones and repeats included, on any row: never a length or type error |
| `AccountEntity.PutGet` | backend/ent/account.go:163-367 | assigning a column changes what the record shows for that column and for no other |
| `AccountEntity.FieldsExtensional` | backend/ent/account.go:138-367 | the record is determined by what it shows for its columns |
| `AccountEntity.ReadRowGet` | backend/ent/account.go:138-367 | reading a row through any list of columns shows each value that was selected and stored, the zero value for NULL and for no bytes, and keeps each unknown column as it came |
| `AccountEntity.ZeroShows` | backend/ent/account.go:18-77 | what a new record shows: nothing for the fifteen pointers, the zero of its type for any other column |
| `AccountEntity.MergeEntries` | backend/ent/account.go:220-234 | JSON decoded into a map keeps the old entries and lets the decoded ones win; null makes it nil |
| `AccountNodes.Account.AssignValues` | backend/ent/account.go:163-367 | the loop in place: the new fields and the error, also when an error stops it half-way; JSON decoded into a map that has entries is added to them |
| `AccountEntity.LandedTwice` | backend/ent/account.go:163-367 | scanning the same value into a column twice is scanning it once, JSON maps included |
| `AccountCreate.DefaultsFill` | backend/ent/account_create.go:451-505 | defaults never touch a column that was set, add only their own values, and fail iff some column with a default stays unset |
| `AccountCreate.DefaultColumns` | backend/ent/account_create.go:451-505 | the same for the ten columns that have a default |
| `AccountCreate.DefaultValues` | backend/ent/account_create.go:451-505 | each of the ten columns that was not set and was reached holds the configuration value of that very column; no other column is added |
| `AccountCreate.DefaultsFailIff` | backend/ent/account_create.go:451-505 | it fails iff one of the four default functions is needed and was never initialised; else all ten are set |
| `AccountCreate.CheckIff` | backend/ent/account_create.go:508-574 | the check passes iff the thirteen required columns are set and the five validated ones, where set, are valid |
| `AccountCreate.CheckReports` | backend/ent/account_create.go:508-574 | which column is reported, in the order in which the source looks |
| `AccountCreate.FailedDefaultsFailCheck` | backend/ent/account_create.go:1859-1868 | on the mutation that failed `defaults` leave, the check fails; so the dropped error matters only if a hook edits that mutation |
| `AccountCreate.CheckAfterDefaults` | backend/ent/account_create.go:451-574 | what a caller still owes once the defaults are in |
| `AccountCreate.SpecFieldsLookup` | backend/ent/account_create.go:594-708 | the specification holds exactly the columns that were set, with their values |
| `AccountCreate.SpecCarries` | backend/ent/account_create.go:594-708 | for every column but the key and the foreign key, the specification carries the value that was set and the node shows it; the conflict options are handed on |
| `AccountCreate.SpecEdgesAre` | backend/ent/account_create.go:708-761 | the edges are exactly groups, proxy and usage logs, each if there are any, with its own relation and targets |
| `AccountCreate.EdgeTarget` | backend/ent/account_create.go:728-744 | the foreign key the driver stores is the proxy that was set |
| `AccountCreate.NodeGet` | backend/ent/account_create.go:594-762 | what the returned node shows for each column |
| `AccountCreate.StoredMatchesNode` | backend/ent/account_create.go:594-744 | for every column, the stored cell decodes to what the returned node shows |
| `AccountCreate.ReadBack` | backend/ent/account_create.go:594-744 | create and read-back agree for any order in which `createSpec` might visit the columns |
| `AccountCreate.CreateReadBack` | backend/ent/account_create.go:594-744 | for every mutation of the account's own columns and a JSON codec that round-trips, reading the stored row through any columns that cover its cells, in any order, gives exactly the fields of the node `createSpec` returned |
| `AccountCreator.Creator.SetDefaults` | backend/ent/account_create.go:451-505 | `defaults` on the builder's mutation, in place, with its error exit |
| `AccountCreator.Creator.RunChecks` | backend/ent/account_create.go:508-574 | the column of the first rule violated |
| `AccountCreator.Creator.CreateSpec` | backend/ent/account_create.go:594-762 | the node and the specification built step by step: every column of the account's own that was set is in both, with its value |
| `AccountCreator.Creator.SqlSave` | backend/ent/account_create.go:576-592 | check, insert, key and `done`; a failure leaves the mutation not done |
| `AccountCreator.Creator.Save` | backend/ent/account_create.go:421-426 | a single create with hooks that call next once: what it inserts and the node it returns; done iff it succeeds |
| `AccountCreator.BulkNodesAreSingles` | backend/ent/account_create.go:1849-1906 | a successful bulk create returns for an account the node its single create returns for the same key iff that single create is not rejected; it is not if both paths ask the same of the validators |
| `BulkSave.Run.constructor` | backend/ent/account_create.go:1853-1859 | the slices made and one mutation per builder |
| `BulkSave.Run.Mutate` | backend/ent/account_create.go:1894-1897 | a builder's mutator from a given hook inward, against the pure chain, with termination for any hooks |
| `BulkSave.Run.CallNext` | backend/ent/account_create.go:1894-1896 | the body of an arbitrary hook, which looks at the results so far before each step: its calls of next, one after the other |
| `BulkSave.Run.BaseMutate` | backend/ent/account_create.go:1860-1893 | check, adopt, build, call the next mutator or the batch, fill in the key, done |
| `BulkSave.Run.BatchCreate` | backend/ent/account_create.go:1874-1881 | the batch insert and its two outcomes |
| `BulkSave.Run.Save` | backend/ent/account_create.go:1849-1906 | the whole run from the initial state, against the pure chain |
| `BulkAnyHooks.AnyHooks` | backend/ent/account_create.go:1849-1906 | whatever the hooks do, hook calls are properly nested and every batch insert carries a specification for every builder |
| `BulkAnyHooks.BatchesBounded` | backend/ent/account_create.go:1849-1906 | whatever the hooks do, there are at most as many batch inserts as the product of the numbers of calls of next; at most one if no hook calls it twice |
| `BulkStraight.ChainRuns` | backend/ent/account_create.go:1860-1893 | for hooks that call next once and pass its result on: the exact state and outcome of the chain from any builder on |
| `BulkStraight.AllOrNothing` | backend/ent/account_create.go:1849-1906 | one batch insert iff there is a builder and all checks pass, else none; success iff the list is empty or that batch is accepted; on success every mutation is done, on failure none |
| `BulkStraight.SpecsAndNodes` | backend/ent/account_create.go:1868-1893 | every slot of the batch is the specification of its builder's final data, and the returned nodes are those of that data with the keys received |
| `BulkStraight.TraceOfSave` | backend/ent/account_create.go:1856-1904 | the events are the hooks of each builder from index 0 upward, builders in order up to the first failing check, one batch call if none fails, and the exits in exact reverse |
| `BulkFaithful.SuccessIsReal` | backend/ent/account_create.go:1849-1906 | if no hook, after results it can stop at, reports a success its last call of next did not, a reported success of any bulk create has an accepted batch on record and every mutation done |
| `BulkContext.FaithfulIff` | backend/ent/account_create.go:1849-1906 | and that condition is the weakest: a hook can be trusted in every bulk create whose other hooks are faithful, with any builders, check and database, iff it is faithful itself |
| `BulkContext.UnfaithfulFails` | backend/ent/account_create.go:1894-1904 | for a hook that is not: one faithful hook inside it and a database that together make it report a success that is none |
| `BulkTrust.OneSave` | backend/ent/account_create.go:1849-1906 | a bulk create of one builder with one arbitrary hook and any check: its outcome is the hook's answer to results that the check and the database give, and whether the success is real is read off them |
| `BulkTrust.TruthfulIff` | backend/ent/account_create.go:1849-1906 | for one builder with one hook and any check, a reported success can be trusted against every database iff, wherever the hook stops and answers success after results that check and some database can give, the builder's current mutation is done |
| `BulkTrust.InPlaceFinished` | backend/ent/account_create.go:1883-1891 | for a hook that hands on the mutation it was given: done iff any call succeeded |
| `BulkTrust.SwappingFinished` | backend/ent/account_create.go:1883-1891 | for a hook that hands on a new mutation each time: done iff the last batch insert was a success, whatever checks failed after it |
| `BulkTrust.SwallowingUntruthful` | backend/ent/account_create.go:1894-1904 | the hook that answers success regardless fails that condition under every check that rejects the data |
| `BulkFaithful.SwallowedCheck` | backend/ent/account_create.go:1894-1904 | a hook that answers success regardless makes a run whose check fails succeed with nothing inserted |
| `AccountBulk.CheckMeets` | backend/ent/account_create.go:508-574 | the check passes iff all thirteen required columns are set and the validators accept every validated column that is set |
| `AccountBulk.SameDemandIff` | backend/ent/account_create.go:508-574 | two demands are met by the same validators iff both are hopeless, or neither is and they judge the same values |
| `AccountBulk.JudgedSameIff` | backend/ent/account_create.go:508-574 | two mutations are judged alike iff they agree on the five validated columns |
| `AccountBulk.BuilderAgrees` | backend/ent/account_create.go:1859-1870 | bulk and single acceptance of a builder agree for every validator iff the two mutations they check both lack a required column, or both have all thirteen and agree on the five validated ones (failed defaults: iff the one the bulk path checks lacks a required column); and the slot is the single create's specification |
| `AccountBulk.BulkRefinesSingles` | backend/ent/account_create.go:576-592 | for every validator the batch is issued iff every single create would insert, exactly when all builders together ask the same of the validators on both paths; and slot `i` is what the single create of builder `i` inserts |
| `AccountBulk.TameBulkAgrees` | backend/ent/account_create.go:1859-1870 | that is so if every hook hands on the mutation it was given and builders whose defaults failed have no hooks |
| `AccountBulk.SwapBypassesCheck` | backend/ent/account_create.go:1865-1870 | for every setting whose database inserts and every valid account: a hook that hands on an empty mutation gets it inserted, while the single create is rejected |
| `AccountBulk.DroppedDefaultsError` | backend/ent/account_create.go:1859-1868 | with a default that was never initialised, a hook that fills the columns in gets an account inserted that the single create rejects |
| `AccountBulk.BypassExamples` | backend/ent/account_create.go:1859-1870 | both on concrete accounts |
| `AccountBulk.SwallowedError` | backend/ent/account_create.go:1894-1904 | for every setting, a bulk create of one empty account whose hook answers success regardless succeeds with nothing inserted |
| `AccountBulk.BulkReadBack` | backend/ent/account_create.go:1870-1893 | for any hooks that call next once, swapping ones included: reading back the row stored for a builder gives the fields of the node returned for it |
| `AccountBulk.Upsert` | backend/ent/account_create.go:2530-2543 | the bulk create is reached iff all three guards pass |
| `AccountBulk.UpsertExec` | backend/ent/account_create.go:2530-2543 | the guards as a loop: the first violated one is reported, with the builder's index |
| `AccountBulk.GuardedSpecsPlain` | backend/ent/account_create.go:2530-2543 | when the guards pass, no specification in the batch carries conflict options of its own |
| `AccountBulk.ExecXSkipsGuards` | backend/ent/account_create.go:2546-2550 | upserting one account without conflict options: `Exec` refuses, `ExecX` goes on to the bulk create |
| `AccountBulk.ExecXAgreesIff` | backend/ent/account_create.go:2546-2550 | a remark, by unfolding: `ExecX` and `Exec` agree iff the guards pass or the bulk builder was broken to begin with |
| `Text.StripPadded` | tools/check_pnpm_audit_exceptions.py:29 | white space around a line is inert under `strip` |
| `Text.AsciiSpace` | tools/check_pnpm_audit_exceptions.py:29 | which ASCII characters are white space |
| `Text.LinesCons` | tools/check_pnpm_audit_exceptions.py:27-28 | reading a text splits off its first line exactly |
| `Text.LinesCrLf` | tools/check_pnpm_audit_exceptions.py:27-28 | a carriage return and a line feed end one line |
| `Text.LinesCr` | tools/check_pnpm_audit_exceptions.py:27-28 | so does a carriage return alone |
| `Text.LinesLast` | tools/check_pnpm_audit_exceptions.py:27-28 | the last line needs no terminator, and a terminator leaves no empty line behind |
| `ExceptionLexer.SplitRendered` | tools/check_pnpm_audit_exceptions.py:12-20 | the line `key: value` is read as that very pair, whether the value is bare, in single or in double quotes; a quoted one survives inner quotes, colons and outer spaces |
| `ExceptionLexer.UnquoteQuoted` | tools/check_pnpm_audit_exceptions.py:16-19 | a pair of quotes of either kind is taken off, once |
| `ExceptionLexer.UnquoteBare` | tools/check_pnpm_audit_exceptions.py:16-19 | a value that no pair of quotes encloses is left alone; a lone quote is read as nothing |
| `ExceptionLexer.StripParts` | tools/check_pnpm_audit_exceptions.py:15-20 | what strip takes off on either side is white space |
| `ExceptionLexer.NeverBare` | tools/check_pnpm_audit_exceptions.py:34-39 | the `if line` after an item's dash is never false |
| `ExceptionLexer.DashedToken` | tools/check_pnpm_audit_exceptions.py:29-40 | a line opens a record iff it starts with a dash and a space once stripped, and cannot be split iff in addition it has no colon |
| `ExceptionLexer.MoreToken` | tools/check_pnpm_audit_exceptions.py:29-45 | a rendered continuation pair is read as that pair |
| `ExceptionLexer.MoreTokenOnlyIf` | tools/check_pnpm_audit_exceptions.py:30-34 | the conditions on continuation keys are exact: without them the line is not read as a pair |
| `ExceptionLexer.LexKeyPlain` | tools/check_pnpm_audit_exceptions.py:12-20 | no key with a colon or outer white space can be read |
| `ExceptionParser.ParseExceptions` | tools/check_pnpm_audit_exceptions.py:23-48 | the loop with its two variables, against the state machine |
| `ExceptionParser.ParseStable` | tools/check_pnpm_audit_exceptions.py:27-33 | files with the same significant lines parse alike |
| `ExceptionParser.SkippedLineInert` | tools/check_pnpm_audit_exceptions.py:30-33 | inserting a skipped line anywhere changes nothing |
| `ExceptionParser.NoiseInert` | tools/check_pnpm_audit_exceptions.py:29-31 | in particular a blank line or a comment, however indented |
| `ExceptionParser.ProseInert` | tools/check_pnpm_audit_exceptions.py:43 | so does a line that is neither an item nor has a colon |
| `ExceptionParser.PaddingInert` | tools/check_pnpm_audit_exceptions.py:29 | padding every line on both sides changes nothing |
| `ExceptionParser.RecordPerItem` | tools/check_pnpm_audit_exceptions.py:34-48 | the parser raises iff some line that starts with a dash and a space once stripped has no colon; else one record per line that starts so, none empty |
| `ExceptionParser.ParseConcat` | tools/check_pnpm_audit_exceptions.py:34-48 | a file may be cut in front of any item line: the results append |
| `ExceptionParser.ParsedKeysPlain` | tools/check_pnpm_audit_exceptions.py:12-48 | every key of every parsed record is trimmed and free of colons, so the round trip cannot be widened |
| `ExceptionParser.RoundTrip` | tools/check_pnpm_audit_exceptions.py:12-48 | rendering records as text, each value bare, in single or in double quotes, and parsing that text gives back exactly the records, in order |
| `AuditGate.IndexExceptions` | tools/check_pnpm_audit_exceptions.py:156-185 | the index holds the first good exception of each key; one error for each other exception, in order |
| `AuditGate.IndexingClean` | tools/check_pnpm_audit_exceptions.py:156-185 | no error iff all exceptions are good and pairwise distinct by key |
| `AuditGate.ScanVulns` | tools/check_pnpm_audit_exceptions.py:187-219 | the loop with its `seen` set: the three lists of findings, judged on the first tuple of each key |
| `AuditGate.LookupCovers` | tools/check_pnpm_audit_exceptions.py:207-219 | the index answers as a search through the whole list would |
| `AuditGate.Decide` | tools/check_pnpm_audit_exceptions.py:152-243 | exit code 0 iff the declarative meaning holds; otherwise exactly the findings |
| `AuditTheorems.ExceptionOrderIrrelevant` | tools/check_pnpm_audit_exceptions.py:156-185 | permuting the exceptions never changes the verdict |
| `AuditTheorems.EveryOrderPasses` | tools/check_pnpm_audit_exceptions.py:191-219 | every order of the tuples passes iff every live tuple, not just the first of each key, is covered |
| `AuditTheorems.SomeOrderPasses` | tools/check_pnpm_audit_exceptions.py:191-219 | some order passes iff every live key has a covered tuple |
| `AuditTheorems.TupleOrderIrrelevantIff` | tools/check_pnpm_audit_exceptions.py:191-219 | the exact condition under which the order of the tuples is irrelevant |
| `AuditTheorems.TupleOrderIrrelevant` | tools/check_pnpm_audit_exceptions.py:191-219 | where tuples with the same key agree on severity, permuting them never changes the verdict |
| `AuditTheorems.FirstSeverityDecides` | tools/check_pnpm_audit_exceptions.py:204-215 | a key reported as high and as critical, with an exception for high: passes with the high tuple first, fails with the critical one first |
| `AuditTheorems.EarliestIsMinimum` | tools/check_pnpm_audit_exceptions.py:216-219 | the deadline is the minimum expiry among the exceptions the stream consults |
| `AuditTheorems.DateThreshold` | tools/check_pnpm_audit_exceptions.py:187-219 | if the gate passes on some day, it passes exactly on the days not later than that deadline; on all days if none is consulted |
| `AuditInput.IterPackage` | tools/check_pnpm_audit_exceptions.py:82-111 | the tuples of one package, or the error of joining a title that is a number |
| `AuditInput.IterVulns` | tools/check_pnpm_audit_exceptions.py:64-111 | the stream of tuples as a loop, against its specification |
| `AuditInput.StreamFields` | tools/check_pnpm_audit_exceptions.py:51-111 | the stream field by field: one tuple per advisory, then one segment per package; name, severity, advisory and title are the first of their choices that counts, in the source's order |
| `AuditInput.StreamFailsIff` | tools/check_pnpm_audit_exceptions.py:97-109 | walking the report raises iff some item of some package is called by a number |
| `AuditInput.AdvisoryFields` | tools/check_pnpm_audit_exceptions.py:51-78 | an advisory is identified by its GitHub id, or else its URL, first CVE, id, title, text or overview; its severity is copied |
| `AuditInput.PackageFields` | tools/check_pnpm_audit_exceptions.py:80-111 | a package yields one tuple for each identified item, in order, with the package's name and severity and the joined titles |
| `AuditInput.RunGate` | tools/check_pnpm_audit_exceptions.py:142-243 | from the text and the report to exit code 0: iff the file parses, the report can be walked and the gate passes; an uncaught exception iff one of the first two fails or a severity is a number |
| `AuditInput.GateMeaning` | tools/check_pnpm_audit_exceptions.py:156-219 | the verdict in terms of the raw records and tuples and their normalised keys, severities and dates |
| `AuditInput.NormalisesText` | tools/check_pnpm_audit_exceptions.py:114-131 | package names are trimmed and keep their case; advisories and severities are trimmed and lower-cased |
| `AuditInput.NormalisesOther` | tools/check_pnpm_audit_exceptions.py:114-131 | nothing is the empty name and advisory; a number is taken as text, except as a severity, where it raises unless zero |
| `AuditInput.CompleteIff` | tools/check_pnpm_audit_exceptions.py:157 | the five fields that may not be missing or empty |
| `AuditInput.RecordReads` | tools/check_pnpm_audit_exceptions.py:163-166 | key, severity and date of a record, each from its own field |
| `AuditInput.ReadsException` | tools/check_pnpm_audit_exceptions.py:157-174 | which exception a record is, in the order in which the script looks |
| `AuditInput.TupleReads` | tools/check_pnpm_audit_exceptions.py:197-203 | a tuple is looked up under its own name and advisory |
| `AuditInput.RecordOrderIrrelevant` | tools/check_pnpm_audit_exceptions.py:156-185 | permuting the records of the file never changes the verdict |
| `AuditInput.TupleOrderIrrelevant` | tools/check_pnpm_audit_exceptions.py:191-219 | permuting raw tuples whose relevant severities agree never changes the verdict |
| `AuditInput.FirstSeverityDecides` | tools/check_pnpm_audit_exceptions.py:204-215 | the same for every record and pair of tuples, before normalisation |
| `AuditInput.TupleOrderMatters` | tools/check_pnpm_audit_exceptions.py:204-215 | a concrete exception and two concrete tuples whose order decides the verdict |
| `AuditInput.DateThreshold` | tools/check_pnpm_audit_exceptions.py:187-219 | the threshold in the date, for the raw inputs |
| `AuditInput.OnePackage` | tools/check_pnpm_audit_exceptions.py:84-111 | a package yields no tuple iff none of its `via` items identifies an advisory |
| `AuditInput.UnidentifiedPackageInvisible` | tools/check_pnpm_audit_exceptions.py:80-111 | adding a package leaves the stream unchanged iff it identifies no advisory |
| `AuditInput.InvisibleCritical` | tools/check_pnpm_audit_exceptions.py:80-111 | a report of one critical package without any `via` passes on every day without an exception |

## Left out

- The database and the libraries `sqlgraph` and `sql.Selector`: a query is a function from the keys it asks for to rows or a failure, an insert is an answer; conflict resolution is not interpreted.
- `AccountMutation` internals: `mutation.go` is not part of this model; a mutation is the columns that were set and the edges that were added. `mutation.id` is not tracked.
- Updates (`backend/ent/account_update.go`): what a cleared, removed or added edge does is decided by `sqlgraph.UpdateNodes`, which is not part of this model.
- `loadAccountGroups`, and `loadAccount` and `loadGroup` of `backend/ent/accountgroup_query.go`: the same loops as `loadUsageLogs` and `loadProxy`; the model of `sqlAll` loads groups, proxy and usage logs.
- The projection of neighbour queries (`AppendFieldOnce`), `sqlCount`, ordering, limits and predicates of a query, and the default fields of the join table's edge specification.
- Concurrency, cancellation and transactions: no code in scope uses them beyond passing a context on.
- AccountCreator.Creator.Save: covers hooks that call next once and return what they got; the bulk chain has no such limit.
- Hooks that keep the next mutator and call it later, hooks that hand on a mutation of an earlier call or of another builder, hooks that are nil, a mutation of a foreign type, and one builder object used twice in a bulk create.
- A hook's calls of next are bounded by a number of its own choosing, since the source has no way to return from a hook that never stops.
- The `OnConflict` options of the batch specification: fixed per bulk create, so not repeated in the event log.
- `createSpec`, `defaults` and `check` are straight-line code in the source, one block per column; the model runs the same steps as loops over tables of columns, in the source's order.
- Column names are an enumeration with one case for any other name, and the fields of the account are grouped by their Go type.
- Integer width: the modelled code compares and stores keys but does no arithmetic on them.
- The shape errors of a malformed report, `date.fromisoformat`, `str.lower` and number formatting: parameters, or excluded by the type of the decoded report.
- Texts of error messages, argument handling and file access.
- Setters, `Upsert` setter wrappers, the other `*X` variants, `String` and `Unwrap`: one-line forwarding.
- The other entities of `backend/ent`: copies of the same template.
- Gateway, billing, scheduling, the frontend and deployment.
