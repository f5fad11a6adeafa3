# Proofs about the auth engine's ent data layer

The auth engine stores its entities through a generated data layer (`apps/auth-engine/ent`). This project models the
runtime machinery of that layer for `Organization` and `OrgMember`, with the entities their edges lead to, and proves
what it guarantees. `dafny verify dfyconfig.toml` checks all of it.

The modules follow the program:

- `Schema`, `Selectors`: entity kinds, columns and edges; tables, selectors, and the rows a selector denotes.
- `Queries`: what preparing, compiling and running a query does, as values: the result and the query that is left behind.
- `Loaders`, `QueryBuilders`, `BuilderCalls`: the same as objects updated in place (builders with nested builders, nodes
  whose edges are filled through an index), proved equal to the value-level account for any sequence of calls and runs.
- `Rerun`, `SharedUpstream`, `EagerLoading`, `NestedLoop`, `JoinLaws`, `WindowLaws`, `Failures`, `Decisions`,
  `NestedErrors`, `Traversal`, `RowLaws`, `EdgeRows`: the laws of queries. `RowLaws` and `EdgeRows` say what runs, sources
  and edges return from the fields of the queries and the columns of the tables alone.
- `Hooks`, `BulkCreate`, `BulkLaws`, `SingleCreate`, `Registry`: composition of hooks and interceptors, creation one by
  one and in bulk, and the registry that clients share.
- `Members`, `Codec`: the `OrgMember` entity, its mutation, the row a create writes, and reading it back.
- `EdgeUpdate`, `EdgeLaws`: the edge changes of an `Organization` update.
- `Common`, `Sequences`: results, errors and finite sequences.

## Assumptions at the boundary

These describe the libraries the layer calls; everything else is proved.

- `sqlgraph.QueryNodes` returns the rows of the selector's source that satisfy all predicates, stably sorted by the order
  terms, projected, made distinct if asked, and windowed. Tables have a fixed order, and a predicate or an order term is a
  function of the tables and the row.
- `sqlgraph.SetNeighbors` is the relational image as a bag; the rows of a source selector are joined whole.
- `sqlgraph.BatchCreate`, `UpdateNodes` and `UpdateNode` happen entirely or not at all. Clear specs are applied before add
  specs; a clear spec without targets clears the whole edge; an accepted add spec links its targets. What the database
  answers is a parameter.
- `sqlgraph.CreateNode` stores the fields and edge columns of its spec and leaves NULL in the other columns. The driver may
  leave any ID value in the spec.
- `QueryContext.Clone` and `Selector.Clone` are deep copies.
- `append` grows in place exactly when the capacity allows it, and otherwise picks any larger capacity.
- `sql.ScanSlice` returns the ID column of the rows that `IDs` selects, also when other fields were selected before, or the
  ID twice, so that the selector has several columns.
- Scanning stores a cell in the holder of its column's type; a cell has its column's type or is NULL.
- Clock readings, the interceptors and hooks themselves, and the database are parameters.

## Where the code differs from what one might expect

Each of these is the code's behaviour, which the model keeps; where members are named, they prove it:

- Nil hooks are refused by `withHooks` (`Hooks.WithHooks`) but called in bulk creation, which is modelled for hooks that are
  not nil.
- Bulk creation is all or nothing exactly if the hooks report results faithfully (`BulkLaws.AllOrNothingExactly`). Otherwise
  it can fail after writing (`BulkLaws.CommittedButFailed`), succeed although the database refused
  (`BulkLaws.RefusedButSucceeded`), and succeed with a nil node or a flag set although a check failed and nothing was written
  (`BulkLaws.FailedCheckButSucceeded`, `BulkLaws.FailedCheckButFlagged`).
- Bulk creation never takes over a generated ID; a single create does (`SingleCreate.BulkRefinesSingles`).
- An `UnexpectedIdType` error of a single create is reported after the row was written (`SingleCreate.SaveOutcome`).
- A limit or an offset on an eager-loaded edge is shared by all nodes (`WindowLaws.NestedLimitIsShared`,
  `WindowLaws.NestedOffsetIsShared`, `WindowLaws.NestedWindowIsShared`).
- A limit of zero means no limit to a run but no rows to a traversal source (`Decisions.LimitZero`), and an offset without
  a limit is cut at 2^31 - 1 rows (`RowLaws.OffsetTail`).
- A truncated run can miss an error of a nested query that the whole run reports, exactly if a row that
  was cut off fails and none that was kept does (`Decisions.FailTogether`; a case in `NestedErrors.TruncatedRunMissesError`).
- `First`, `Only`, `IDs` and `Exist` leave their limits, fields and flags in the builder.
- A clone is independent of the original, but both share the queries they were chained from; that does not show in what
  either returns (`QueryBuilders.UseClone`, `QueryBuilders.UseOriginal`).
- Clearing an edge does not cancel earlier adds, and clearing the required tenant alone passes the check
  (`EdgeLaws.ClearKeepsEarlierAdds`, `EdgeLaws.ClearTenantAlonePasses`). The comments in `organization_update.go` say that
  all edges are cleared.

## Model

| member | source | states |
|---|---|---|
| `Rerun.RunsAgree` | apps/auth-engine/ent/organization_query.go:478-535 | Any number of runs of a traversal with a tree of eager edges, over unchanged tables, all return the result of the first run, although every run appends traverser and IN predicates to the queries it leaves behind |
| `Rerun.AllOfAgain` | apps/auth-engine/ent/organization_query.go:259-266 | One more run of what a run left behind returns the same nodes, edges and error, and leaves a query equal up to redundant predicates, at every nesting level |
| `Rerun.AllAgain` | apps/auth-engine/ent/organization_query.go:566-595 | The same for one eager-loading query, by induction over its tree of nested queries |
| `Rerun.SourceAgrees` | apps/auth-engine/ent/organization_query.go:93-112 | Traversal sources rebuilt from chains that differ only by redundant predicates denote the same rows in the same order |
| `EagerLoading.FetchesSelected` | apps/auth-engine/ent/orgmember_query.go:587-612 | The fetched columns include the ID and every selected field |
| `EagerLoading.FetchesEveryKey` | apps/auth-engine/ent/orgmember_query.go:595-612 | Whatever fields were selected, the fetched columns include the ID and the foreign key of every requested to-one edge |
| `EagerLoading.NarrowedFetchesKey` | apps/auth-engine/ent/organization_query.go:576-581 | A nested query with any field selection, once narrowed by a loader, fetches the column the loader scatters by |
| `EagerLoading.NeighborsAreKnown` | apps/auth-engine/ent/organization_query.go:566-592 | Every neighbour a narrowed nested query returns bears the key of one of the loading nodes |
| `EagerLoading.NeverUnexpectedForeignKey` | apps/auth-engine/ent/orgmember_query.go:490-576 | No run of any query, over any tables and at any nesting depth, ends in a loader's unexpected-foreign-key error |
| `EagerLoading.AllReturnsItsRows` | apps/auth-engine/ent/organization_query.go:478-535 | A successful run returns exactly the rows of its own selector, in order: eager loading adds, drops and moves none |
| `RowLaws.RunReturns` | apps/auth-engine/ent/organization_query.go:666-707 | A successful run returns its candidates (the source rows that pass its predicates and every traverser's) ranked by its own order terms, ties in source order, with exactly the selected, ID and foreign-key columns, de-duplicated if so configured or by default on traversals, from its offset on, as many as its limit; stated on the query's fields, and satisfied by one row sequence only |
| `RowLaws.FirstIsLeast` | apps/auth-engine/ent/organization_query.go:160-169 | Without an offset, First returns the candidate that ranks before all others under the query's order, the first stored one among ties; it finds nothing exactly if there are no candidates |
| `RowLaws.NothingFound` | apps/auth-engine/ent/organization_query.go:160-219 | First and Only then report the entity by its label |
| `RowLaws.DuplicatesStay` | apps/auth-engine/ent/organization_query.go:669-673 | With uniqueness switched off, a run without a window returns one row per candidate, also on a traversal |
| `RowLaws.NewQueryReturns` | apps/auth-engine/ent/client.go:1637-1643 | A new query without interceptors returns its table as stored, with all columns |
| `RowLaws.SourceReturns` | apps/auth-engine/ent/organization_query.go:709-739 | The rows a traversal chooses from are those related to the candidates of the query before it, in that one's order, distinct if configured, from its offset on, as many as its limit says or 2^31 - 1 next to an offset; without a path, the table |
| `RowLaws.PreparedPasses` | apps/auth-engine/ent/organization_query.go:452-476 | Once accepted, a query selects exactly the rows that satisfy its own predicates and those of each of its traversers |
| `RowLaws.IdsReturn` | apps/auth-engine/ent/organization_query.go:278-287 | IDs returns the ID texts of the candidates in order, de-duplicated as rows of the selected columns, from its offset on, as many as its limit says or 2^31 - 1 next to an offset |
| `RowLaws.IdsAreDistinct` | apps/auth-engine/ent/organization_query.go:278-287 | Over keyed tables no ID is returned twice, also on traversals, unless uniqueness was switched off there |
| `EdgeRows.OrganizationJoins` | apps/auth-engine/ent/organization_query.go:492-534 | For accepted queries without windows on nested queries, over keyed tables: the tenant is the row whose `id` is the `tenant_id`, and members, invitations and SAML connections are the rows whose `organization_id` is the `id`, that pass the nested query, in its order and with its columns |
| `EdgeRows.MemberJoins` | apps/auth-engine/ent/orgmember_query.go:490-576 | Likewise organization, user and role are the rows whose `id` is the member's `organization_id`, `user_id` and `role_id` |
| `EdgeRows.StepRelates` | apps/auth-engine/ent/organization/organization.go:44-69 | What a traversal step along each edge relates: equal texts in the two columns, NULL equalling nothing |
| `EdgeRows.OrganizationAccessors` | apps/auth-engine/ent/organization.go:57-94 | Each accessor of an organization reports an edge that was not requested by its name, and a missing tenant by the target's label |
| `EdgeRows.MemberAccessors` | apps/auth-engine/ent/orgmember.go:57-88 | Likewise for the accessors of a member |
| `NestedLoop.BatchRestricted` | apps/auth-engine/ent/organization_query.go:566-592 | The batch query of a loader, restricted to one node's key, returns exactly the rows, in order, of a query made for that node alone |
| `NestedLoop.SqlAllIsNested` | apps/auth-engine/ent/organization_query.go:478-535 | For accepted queries without windows on nested queries, over keyed tables and any source of rows with distinct IDs: eager loading by hash index equals running every nested query once per row |
| `NestedLoop.AllIsNested` | apps/auth-engine/ent/organization_query.go:478-655 | The same for whole trees of unwindowed nested queries over keyed tables, in the same order, nodes without neighbours getting empty lists |
| `JoinLaws.EverySlot` | apps/auth-engine/ent/organization_query.go:492-534 | After a successful run, each requested slot of each node is the join of the nodes with that edge's own run, and each other slot is unset |
| `JoinLaws.OneAccessor` | apps/auth-engine/ent/orgmember.go:59-88 | After a run, a to-one accessor returns a neighbour with the node's key if there is one, not-found exactly if the edge was requested and there is none, and not-loaded if it was not requested |
| `JoinLaws.ManyAccessor` | apps/auth-engine/ent/organization.go:71-94 | For distinct IDs, a to-many accessor returns exactly the subsequence of neighbours whose foreign key is the node's ID, or not-loaded if the edge was not requested |
| `JoinLaws.Conservation` | apps/auth-engine/ent/organization_query.go:566-595 | Even when IDs repeat, the multiset union of all nodes' lists after a successful load is the multiset of returned neighbours |
| `JoinLaws.ShareNext` | apps/auth-engine/ent/organization_query.go:572-592 | One more neighbour goes to the last node that bears its key, at the end of its list, and to no other node |
| `WindowLaws.NestedLimitIsShared` | apps/auth-engine/ent/organization_query.go:566-592 | A limit on an eager-loaded edge gives every node what its own limited query would give it if and only if the batch fits within the limit or belongs to a single key |
| `WindowLaws.NestedOffsetIsShared` | apps/auth-engine/ent/organization_query.go:566-592 | An offset on an eager-loaded edge does so if and only if it skips the whole batch or the batch belongs to a single key |
| `WindowLaws.NestedWindowIsShared` | apps/auth-engine/ent/organization_query.go:566-592 | An offset with a limit, over keyed tables, does so if and only if the offset skips the whole batch, or all rows up to the end of the window belong to one key and no other key has more rows than the offset |
| `Loaders.Allocate` | apps/auth-engine/ent/organization_query.go:496-504 | One fresh node per row, in order, with the requested edges marked as loaded and no edge values |
| `Loaders.IndexToMany` | apps/auth-engine/ent/organization_query.go:566-575 | The keys in node order, and an index that maps every ID to the last node bearing it; every node's list starts empty |
| `Loaders.ScatterToMany` | apps/auth-engine/ent/organization_query.go:582-595 | In place: every neighbour is appended to the list of the node that the index has for its key; the first stray neighbour is reported |
| `Loaders.FinishToMany` | apps/auth-engine/ent/organization_query.go:582-595 | The in-place loop leaves in the nodes exactly the value-level join, or reports its error |
| `Loaders.IndexToOne` | apps/auth-engine/ent/orgmember_query.go:490-504 | The keys without duplicates, in first-occurrence order, and an index that maps each to all nodes bearing it |
| `Loaders.ScatterToOne` | apps/auth-engine/ent/orgmember_query.go:505-517 | In place: every neighbour is assigned to all nodes that bear its ID; the first stray neighbour is reported |
| `Loaders.FinishToOne` | apps/auth-engine/ent/orgmember_query.go:490-517 | The in-place loop leaves in the nodes exactly the value-level lookup by key, or reports its error |
| `QueryBuilders.QueryBuilder.All` | apps/auth-engine/ent/organization_query.go:259-266 | The builder object, its nested builders, its traversal source and the heap nodes end up as the value-level run says, and the nodes or the error are its result |
| `QueryBuilders.QueryBuilder.PrepareQuery` | apps/auth-engine/ent/organization_query.go:452-476 | Terminates on a path of any length; leaves the traversers' predicates in every query of the path up to the first failure; stores the source selector only if all of it was accepted |
| `QueryBuilders.QueryBuilder.SqlQuery` | apps/auth-engine/ent/organization_query.go:709-739 | The stepwise built selector is the value-level one, whose rows RowLaws.SourceReturns and RowLaws.IdsReturn state from the query's fields |
| `QueryBuilders.QueryBuilder.QuerySpec` | apps/auth-engine/ent/organization_query.go:666-707 | The stepwise built specification is the value-level one, whose rows RowLaws.RunReturns states from the query's fields |
| `QueryBuilders.QueryBuilder.LoadToMany` | apps/auth-engine/ent/organization_query.go:566-595 | A to-many loader narrows and runs the nested builder in place and scatters its nodes, as the value-level loader does |
| `QueryBuilders.QueryBuilder.LoadToOne` | apps/auth-engine/ent/orgmember_query.go:490-517 | A to-one loader narrows and runs the nested builder in place and assigns its nodes, as the value-level loader does |
| `QueryBuilders.QueryBuilder.Clone` | apps/auth-engine/ent/organization_query.go:340-359 | A valid duplicate in fresh memory, nested builders included, with the same value and the same traversal source |
| `QueryBuilders.QueryBuilder.Apply` | apps/auth-engine/ent/organization_query.go:40-69 | Any builder call, eager edge with nested options, or run changes the query, and the queries it was chained from, as the value-level account says |
| `QueryBuilders.UseClone` | apps/auth-engine/ent/organization_query.go:340-359 | After any sequence of calls and runs on a clone, the original and its nested builders are unchanged and the original returns what it would have returned, over any tables, although the shared upstream queries were prepared; and the clone is what the original would have become |
| `QueryBuilders.UseOriginal` | apps/auth-engine/ent/organization_query.go:340-402 | After any sequence of calls and runs on the original, the clone still has the value it was made with, shares no nested builder with it, and returns what the original would have returned |
| `SharedUpstream.CallsOnCloneInvisible` | apps/auth-engine/ent/organization_query.go:340-359 | Whatever is called and run on a query, another query on top of the same upstream chain returns what it would have returned |
| `QueryBuilders.QueryBuilder.First` | apps/auth-engine/ent/organization_query.go:160-169 | Leaves a limit of one behind and returns the first node, not-found, or the error of the run |
| `QueryBuilders.QueryBuilder.Only` | apps/auth-engine/ent/organization_query.go:206-219 | Leaves a limit of two behind and returns the only node, not-found, not-singular, or the error of the run |
| `QueryBuilders.QueryBuilder.IDs` | apps/auth-engine/ent/organization_query.go:278-287 | Leaves an extra ID field, and uniqueness on traversals, behind and returns the ID column of the rows the selector denotes, assuming that the scan picks it |
| `QueryBuilders.QueryBuilder.Exist` | apps/auth-engine/ent/organization_query.go:317-327 | Leaves a limit of one behind, reports whether there is an ID, and wraps errors, under the same assumption |
| `Decisions.FirstDecides` | apps/auth-engine/ent/organization_query.go:160-169 | First decides as the query with its own offset and no limit would: not-found if and only if that selects nothing, and its first row when neither run fails; without windows on nested queries the two fail together if and only if the first row fails whenever any row does |
| `Decisions.OnlyDecides` | apps/auth-engine/ent/organization_query.go:206-219 | Only decides as the query with its own offset and no limit would: not-found, its single row, or not-singular when neither run fails; without windows on nested queries the two fail together if and only if one of the first two rows fails whenever any row does |
| `Decisions.FailTogether` | apps/auth-engine/ent/organization_query.go:478-535 | The same for any limit: the whole run fails if and only if some selected row fails, the limited one if and only if some kept row does |
| `Decisions.LimitedFails` | apps/auth-engine/ent/organization_query.go:478-535 | For every chain, windows on nested queries included: either run fails if and only if loading the edges of the rows it selects fails |
| `Failures.SqlAllFails` | apps/auth-engine/ent/organization_query.go:478-535 | For every query: a run fails if and only if it selects a row and some requested nested query is not accepted, or, recursively, loading the edges of the nodes that query returns for them fails |
| `Failures.SqlAllReports` | apps/auth-engine/ent/organization_query.go:501-534 | A failing run reports the error of the first edge, in the order of loading, whose nested query fails: why that one was not accepted, or recursively the error of loading its own edges |
| `Failures.RunFails` | apps/auth-engine/ent/organization_query.go:478-535 | Without windows on nested queries, a run fails if and only if it selects a row with a requested nested query that is not accepted, or whose own query returns a row that fails |
| `NestedErrors.FailsIfMembers` | apps/auth-engine/ent/organization_query.go:478-535 | A case of it: with an interceptor left uninitialized two levels down, a run over organizations fails if and only if some returned organization has a member |
| `NestedErrors.TruncatedRunMissesError` | apps/auth-engine/ent/organization_query.go:160-169 | So there are tables where the run with limit one succeeds and the whole run fails |
| `RowLaws.ExistDecides` | apps/auth-engine/ent/organization_query.go:317-327 | Exist is true exactly if the candidates, de-duplicated with their selected columns if the query is distinct, are more than its offset skips, whatever its limit; an error of the preparation is wrapped as a failed check |
| `Decisions.LimitKeepsEdges` | apps/auth-engine/ent/organization_query.go:478-535 | For accepted queries without windows on nested queries, over keyed tables and rows with distinct IDs: limiting a query returns a prefix of the unlimited result, eager-loaded edges included |
| `RowLaws.OffsetTail` | apps/auth-engine/ent/organization_query.go:730-733 | For a traversal source and for IDs: an offset without a limit keeps everything after the first rows it skips if and only if that is at most 2^31 - 1 rows |
| `Decisions.LimitZero` | apps/auth-engine/ent/organization_query.go:699-737 | A limit of zero is no limit for a run, and selects nothing in a traversal source |
| `BuilderCalls.CallOf` | apps/auth-engine/ent/organization_query.go:362-402 | A call keeps the tree shape: every nested query stays a fresh query of its edge's target, never a traversal |
| `BuilderCalls.CallsConfigure` | apps/auth-engine/ent/organization_query.go:40-69 | Over any sequence of builder calls, predicates, order terms and fields accumulate, the newest limit, offset and unique flag count, and each edge has the query of its newest `WithX`, configured by that call's options; the rest of the chain is untouched |
| `Traversal.PrepareAccepts` | apps/auth-engine/ent/organization_query.go:452-476 | Preparation accepts a chain if and only if no query in it has a nil or refusing interceptor or an unknown field |
| `Traversal.PrepareReports` | apps/auth-engine/ent/organization_query.go:452-476 | A refused chain reports its first unacceptable query from the outside: the first nil or refusing interceptor, else the first unknown field; the queries feeding that one are left as they were |
| `Traversal.Intercepted` | apps/auth-engine/ent/organization_query.go:259-266 | Whenever the unguarded interceptor composition is reached, none of its interceptors is nil; otherwise an error is returned and nothing ran |
| `Traversal.ChainComposes` | apps/auth-engine/ent/organization_query.go:93-112 | The candidates of a chain of any length without windows in between are exactly the ends of trails of related rows that satisfy each hop's predicates |
| `Traversal.InBetweenFlagsInvisible` | apps/auth-engine/ent/organization_query.go:709-739 | Orders, unique flags, fields and eager edges of the queries in between do not change what a chain selects |
| `Traversal.TraversalHasNoDuplicates` | apps/auth-engine/ent/organization_query.go:666-673 | A traversal returns no duplicate rows unless uniqueness was switched off |
| `Traversal.TraversalRows` | apps/auth-engine/ent/orgmember_query.go:90-109 | The rows of an unwindowed traversal are exactly the projected ends of its trails |
| `Traversal.AllOfTraversal` | apps/auth-engine/ent/organization_query.go:259-266 | An accepted unwindowed traversal succeeds and returns each projected end of a trail exactly once |
| `Hooks.WithHooks` | apps/auth-engine/ent/ent.go:548-579 | With a nil hook anywhere in the list: an error, and the world untouched; otherwise the first hook is outermost around the operation, and mutations or values of a foreign type are errors |
| `Hooks.WithInterceptors` | apps/auth-engine/ent/ent.go:614-627 | The same composition without a guard, for interceptors that are not nil |
| `Hooks.ComposeConcat` | apps/auth-engine/ent/client.go:1380-1384 | Registering hooks in two calls composes like registering them in one: later hooks are inside earlier ones |
| `Hooks.Onion` | apps/auth-engine/ent/ent.go:562-567 | For any list of layers: all enter in order, the operation runs on the mutation they made, and all leave in reverse order |
| `Hooks.TraceOrder` | apps/auth-engine/ent/ent.go:562-567 | For n hooks the trace is enter 0 to n-1, one run, leave n-1 to 0 |
| `Members.CheckAccepts` | apps/auth-engine/ent/orgmember_create.go:167-208 | A mutation passes exactly if its three keys are set and non-empty and both timestamps are set; otherwise the first that is missing or empty is reported, and the missing-edge errors never are |
| `Members.DefaultsFill` | apps/auth-engine/ent/orgmember_create.go:155-164 | Defaults fill unset timestamps with the clock readings and keep everything else, so that only a key can then fail the checks |
| `Members.BuildSpec` | apps/auth-engine/ent/orgmember_create.go:233-310 | The node and the spec are filled side by side from the same mutation |
| `Codec.StoredCell` | apps/auth-engine/ent/orgmember_create.go:233-310 | Every column of the row a create stores holds the field of the node the create returned; only a generated ID may differ |
| `Codec.CreatedCells` | apps/auth-engine/ent/orgmember_create.go:233-310 | Column by column, what is stored and what is returned of each part of the mutation |
| `Codec.ScanValues` | apps/auth-engine/ent/orgmember.go:91-105 | One holder per column, of the kind of its column, unknown columns included |
| `Codec.AssignAccepts` | apps/auth-engine/ent/orgmember.go:108-169 | Assigning succeeds if and only if there is a value for every column and each has the holder type of its column |
| `Codec.OrgMember.AssignValues` | apps/auth-engine/ent/orgmember.go:108-169 | The loop over the columns leaves in the object's fields what assigning one column after another does, and stops at the first error |
| `Codec.ScanAssign` | apps/auth-engine/ent/orgmember.go:91-169 | For every column list, with repeated and unknown names and NULLs: no type error, and each field ends with the last non-null value of its column, or what it had |
| `Codec.ScanAssignExtras` | apps/auth-engine/ent/orgmember.go:164-166 | Exactly the unknown columns end up among the dynamically selected values |
| `Codec.ScanAssignExtra` | apps/auth-engine/ent/orgmember.go:164-166 | Each with the value of its last occurrence, NULL included; what was there under other names stays |
| `Codec.CreateThenRead` | apps/auth-engine/ent/orgmember_create.go:233-310 | Reading a created row through any list of all columns rebuilds the returned node, nil and set optional fields included; the ID differs exactly if the mutation had none and the database generated a non-empty one |
| `Codec.DecodedKeys` | apps/auth-engine/ent/orgmember.go:108-169 | The keys of a decoded member are those of the fetched part of its row, which is what the query model reads |
| `SingleCreate.OrgMemberCreate.Save` | apps/auth-engine/ent/orgmember_create.go:127-130 | Defaults, then the hooks around the save; with a nil hook only the defaults are applied |
| `SingleCreate.SaveOutcome` | apps/auth-engine/ent/orgmember_create.go:210-231 | The result is the error of the checks, the database's error with constraint violations marked as such, or the mutation's node with the ID the database left; the flag and ID are set exactly on success and nothing else of the mutation changes; a row is written exactly if the checks pass and the database accepts; an error after a write means an ID of an unexpected type |
| `SingleCreate.ViolationsReported` | apps/auth-engine/ent/orgmember_create.go:215-220 | A create without hooks returns a constraint error, with the database's cause, if and only if its keys are valid and the database refuses with a constraint violation |
| `SingleCreate.PlainSave` | apps/auth-engine/ent/orgmember_create.go:127-130 | A create without hooks ends as SaveOutcome says for the mutation with its defaults, in the builder too |
| `BulkCreate.OrgMemberCreateBulk.Mutate` | apps/auth-engine/ent/orgmember_create.go:331-362 | The chain of mutators, from any builder and hook on, updates mutations, nodes, specs and batches in place as the functional chain says; terminates |
| `BulkCreate.OrgMemberCreateBulk.Save` | apps/auth-engine/ent/orgmember_create.go:320-372 | A stored error is returned first; no builders means no write; otherwise defaults for all builders, then the chain |
| `BulkCreate.PlanPasses` | apps/auth-engine/ent/orgmember_create.go:338-342 | A plan that succeeds has one mutation per builder and every one of them passes its checks |
| `BulkCreate.WritesThePlanOnce` | apps/auth-engine/ent/orgmember_create.go:338-356 | Whatever hooks do with results: one batch is written if and only if every hook lets its mutation through and every check passes, with one spec per builder in index order, and the nodes likewise |
| `BulkCreate.Unwinds` | apps/auth-engine/ent/orgmember_create.go:344-362 | What a planned run returns, and which flags it leaves set, is a function of the database's answer and the hooks' treatment of results alone |
| `BulkLaws.AllOrNothing` | apps/auth-engine/ent/orgmember_create.go:320-372 | With hooks that neither swallow nor invent errors: success if and only if the whole plan succeeds and the database accepts, with every flag set and all nodes returned; otherwise no flag changes |
| `BulkLaws.CommitReported` | apps/auth-engine/ent/orgmember_create.go:357-362 | For any hooks and distinct builders, when the database accepted: success with every flag set if and only if each builder's hooks turn its finished node into a success |
| `BulkLaws.RefusalReported` | apps/auth-engine/ent/orgmember_create.go:347-359 | For any hooks, when the database refused: failure with no flag set if and only if, passing the refusal (a constraint violation marked as such) outwards through the hooks of one builder after another, each stack turns the error that reaches it into an error |
| `BulkLaws.IdWithFlag` | apps/auth-engine/ent/orgmember_create.go:357-362 | For any hooks and distinct builders not saved before: once everything was planned, each builder is left with its planned mutation, with the returned node's ID and the flag, or neither |
| `BulkLaws.FailureReported` | apps/auth-engine/ent/orgmember_create.go:335-359 | For any hooks, when a hook refused or a check failed: failure with no flag set if and only if no hook stack from the failing builder outwards turns the error that reaches it into a success |
| `BulkLaws.AllOrNothingExactly` | apps/auth-engine/ent/orgmember_create.go:320-372 | For any hooks and builders not saved before: bulk creation is all or nothing if and only if the hooks, applied to the finished nodes or to the error passed outwards from where it occurs, report it |
| `BulkLaws.CommittedButFailed` | apps/auth-engine/ent/orgmember_create.go:357-372 | A hook that replaces a success by an error: the batch is written and every flag set, yet the save fails |
| `BulkLaws.RefusedButSucceeded` | apps/auth-engine/ent/orgmember_create.go:344-372 | A hook that swallows an error: the database refuses the only batch, yet the save succeeds and the flag of the builder before it is set |
| `BulkLaws.FailedCheckButSucceeded` | apps/auth-engine/ent/orgmember_create.go:338-372 | The same hook on the first of two builders, the second of which fails its check: nothing is handed to the database, yet the save succeeds, with a nil node |
| `BulkLaws.FailedCheckButFlagged` | apps/auth-engine/ent/orgmember_create.go:338-372 | And on the second builder: nothing is handed to the database, yet the save succeeds and the flag of the first is set |
| `SingleCreate.HookFreeRun` | apps/auth-engine/ent/orgmember_create.go:320-372 | Without hooks: the first failing check in builder order with nothing written and nothing changed, or all specs in one batch, and all nodes exactly if the database accepts, its error with constraint violations marked as such otherwise |
| `SingleCreate.BulkRefinesSingles` | apps/auth-engine/ent/orgmember_create.go:127-130 | On success the batch has, in order, the spec each builder would write alone, and the nodes are those of the single creates if and only if the driver reports no ID but the mutation's own |
| `SingleCreate.BulkFailsLikeSingles` | apps/auth-engine/ent/orgmember_create.go:320-372 | A hook-free bulk create that writes nothing fails with the error of the first builder whose single create fails its checks |
| `Registry.Append` | apps/auth-engine/ent/client.go:1382-1384 | The new slice has the old elements and then the new ones; it is in the old array exactly when there is room, and never changes what the old slice shows |
| `Registry.Program.Execute` | apps/auth-engine/ent/client.go:231-244 | Opening a client, Use on one or all kinds, Tx, Create and Save on shared slices each do what they do on values |
| `Registry.RunProgram` | apps/auth-engine/ent/client.go:348-360 | Any interleaving of them on the heap, whatever append reallocates, does what it does on values |
| `Registry.RegisteredIsHistory` | apps/auth-engine/ent/client.go:156-176 | The hooks registered for a kind are everything registered through clients that share the configuration, in order |
| `Registry.SnapshotSafety` | apps/auth-engine/ent/client.go:1393-1396 | A builder runs exactly the hooks registered before it was created, in registration order, whatever happens between its creation and its save |
| `Registry.SharedRegistration` | apps/auth-engine/ent/client.go:1382-1384 | A hook registered through one client is run by every later builder of every client with the same registry, and by none of any other |
| `Registry.BeginShares` | apps/auth-engine/ent/client.go:229-240 | A transaction is one more client, with the registry of the client it was started on; inside a transaction none is started |
| `Registry.TransactionRuns` | apps/auth-engine/ent/client.go:229-244 | A builder of a transaction runs the hooks of the client the transaction was started on: those registered before it began, and those registered through either of them until the builder was created |
| `Registry.OpenIsSeparate` | apps/auth-engine/ent/client.go:115-176 | A new client has an empty registry that no earlier client has |
| `EdgeUpdate.OrganizationMutation.AddIDs` | apps/auth-engine/ent/mutation.go:6765-6772 | The loop adds the IDs to the edge's added set and changes nothing else |
| `EdgeUpdate.OrganizationMutation.RemoveIDs` | apps/auth-engine/ent/mutation.go:6785-6793 | The loop takes the IDs out of the added set and puts them into the removed set |
| `EdgeUpdate.OrganizationMutation.EdgeSpecs` | apps/auth-engine/ent/organization_update.go:334-497 | The emitted clear and add specs, in order and with their targets up to the order in which Go lists a map |
| `EdgeLaws.EmittedClears` | apps/auth-engine/ent/organization_update.go:363-407 | The clear specs of a list edge hit exactly the removed targets, or everything if it was cleared |
| `EdgeLaws.ChildAfter` | apps/auth-engine/ent/organization_update.go:363-497 | Where one child of one list edge ends up after clear and then add specs, for any set of updated organizations |
| `EdgeLaws.EdgeAlgebra` | apps/auth-engine/ent/organization_update.go:363-497 | Each list edge on its own: an updated organization keeps nothing if cleared and otherwise what was not removed, its owner gains what was added, all others lose that |
| `EdgeLaws.TenantAfter` | apps/auth-engine/ent/organization_update.go:334-362 | The tenant of an updated organization is the one set, else none if cleared, else the old one |
| `EdgeLaws.NeverBoth` | apps/auth-engine/ent/organization_update.go:274-299 | The check passes if and only if the tenant is not set to the empty string, no field validator fails, and the emitted specs do not both clear and set the tenant; in the last case the error is that of the first of these three |
| `EdgeLaws.CallsDecideTenant` | apps/auth-engine/ent/organization_update.go:334-362 | For any sequence of builder calls: the tenant that was last set and not reset, and otherwise none if the edge was cleared and not reset since, else the old one |
| `EdgeLaws.ClearTenantAlonePasses` | apps/auth-engine/ent/organization_update.go:295-346 | Clearing the required tenant without setting one passes the check and leaves the organizations without a tenant |
| `EdgeLaws.CallsDecide` | apps/auth-engine/ent/organization_update.go:334-497 | For any sequence of builder calls: a target last mentioned by an add goes to the owner; any other child is unlinked exactly if removed or cleared since the last reset |
| `EdgeLaws.ClearKeepsEarlierAdds` | apps/auth-engine/ent/mutation.go:6775-6777 | Clearing an edge does not take back earlier adds: the owner ends up with exactly the added targets |
| `EdgeLaws.OrganizationUpdate.SqlSave` | apps/auth-engine/ent/organization_update.go:301-508 | The flag is set, and the stored edges change, exactly if the tenant is not empty, every validator passes, the tenant is not both cleared and set, and the database accepts the emitted specs; otherwise the error of the first that fails, not-found, or the database's, constraint violations marked as such |

## Left out

- Entities: other entities, and edges other than the four of `Organization` and the three of `OrgMember`, repeat the same
  templates. The fourth loader of a kind is modelled by the one that has its cardinality.
- BulkCreate.OrgMemberCreateBulk.Mutate: does not model nil hooks, which the source would call and crash on, nor hooks that
  skip their next mutator and yet report success, call it repeatedly, or pass on another mutation, because the chain promises
  nothing for them.
- BulkLaws.CommitReported: is stated for distinct builders, because a builder that occurs twice has one flag for both.
- BulkLaws.IdWithFlag: the same.
- SingleCreate.OrgMemberCreate.Save: does not show a hook's edits in the builder if that hook then refuses, because a hook
  hands the mutation on as a value.
- QueryBuilders.QueryBuilder.IDs: does not model what scanning does with several selected columns, because that is decided
  in a library; it always returns the ID column.
- QueryBuilders.QueryBuilder.Exist: the same.
- RowLaws.IdsReturn: the same.
- RowLaws.ExistDecides: the same.
- Interceptors that change a query otherwise than by appending predicates, or that replace its result inside `All`:
  `QueryBuilders.QueryBuilder.All` is the run that interceptors wrap, and `Traversal.Intercepted` is the wrapping.
- To-one targets: nodes that share a target share one object in the program; the model copies its value.
- Selectors: the `sql.Selector` that builder methods mutate is a value here, and so are the ID and field specs inside it.
- Numbers: limits and offsets are natural numbers; order terms are real-valued ranks.
- `Count`, `GroupBy`, `Aggregate`, `Scan` and modifiers: they share preparation and selectors with what is modelled.
- `setContextOp`: it only labels the context for interceptors.
- `Organization` rows: metadata is JSON, so the codec is modelled for `OrgMember`.
- `OrganizationUpdateOne`: its edge specs and check are the ones modelled; its field selection and the reading back of the
  updated row are not.
- Updates of plain fields: their validators are one parameter, and their columns are not part of the stored edges.
- `MapCreateBulk`, setters, `SetNillable` and panicking variants, string renderings, and transactions beyond the
  configuration they copy: starting them on a driver, commit and rollback.
- SQL text, dialects, drivers and migrations.
