/** Query builders as values: what `prepareQuery`, `sqlQuery`, `querySpec` and `sqlAll` compute, and what they leave behind. */
module Queries {
  import opened Common
  import opened Schema
  import opened Sequences
  import opened Selectors

  const MAX_INT32: nat := 0x7fff_ffff

  /** A traverser runs during `prepareQuery`: it appends its predicates, or refuses the query. */
  datatype Interceptor = NilInterceptor | Plain(name: string) | Traverser(adds: seq<Pred>, refusal: Option<string>)

  /**
   * A query builder. `withs` has one slot per edge of `EdgesOf(kind)`: the nested query of that edge when it is to
   * be eager-loaded. `via` is the edge of the traversal step (`path`) that feeds this query, if any.
   */
  datatype Query = Query(
    kind: Kind,
    fields: seq<string>,
    limit: Option<nat>,
    offset: Option<nat>,
    unique: Option<bool>,
    order: seq<OrderTerm>,
    inters: seq<Interceptor>,
    preds: seq<Pred>,
    withs: seq<Option<Query>>,
    via: Option<Edge>)

  /** One slot per edge; nested queries are queries of the edge's target kind and are never themselves traversals. */
  ghost predicate WellFormed(q: Query) {
    && |q.withs| == |EdgesOf(q.kind)|
    && forall i :: 0 <= i < |q.withs| && q.withs[i].Some? ==>
         && q.withs[i].value.kind == EdgesOf(q.kind)[i].Target()
         && q.withs[i].value.via.None?
         && WellFormed(q.withs[i].value)
  }

  // ---------- Nesting depth ----------

  ghost function Depth(q: Query): nat {
    1 + DepthUpTo(q, |q.withs|)
  }

  ghost function DepthUpTo(q: Query, n: nat): nat
    requires n <= |q.withs|
    decreases q, n
  {
    if n == 0 then 0 else
      var rest := DepthUpTo(q, n - 1);
      var own := if q.withs[n - 1].Some? then Depth(q.withs[n - 1].value) else 0;
      if own > rest then own else rest
  }

  lemma {:induction false} NestedIsShallower(q: Query, n: nat, i: nat)
    requires i < n <= |q.withs| && q.withs[i].Some?
    ensures Depth(q.withs[i].value) <= DepthUpTo(q, n)
  {
    if i < n - 1 {
      NestedIsShallower(q, n - 1, i);
    }
  }

  lemma {:induction false} DepthOfNestingOnly(q: Query, p: Query, n: nat)
    requires q.withs == p.withs && n <= |q.withs|
    ensures DepthUpTo(q, n) == DepthUpTo(p, n)
  {
    if n > 0 {
      DepthOfNestingOnly(q, p, n - 1);
    }
  }

  // ---------- prepareQuery ----------

  /** The predicates the interceptors append, and the error that stopped them. */
  function Traverse(inters: seq<Interceptor>): (seq<Pred>, Option<Error>) {
    if inters == [] then ([], None) else
      match inters[0]
      case NilInterceptor => ([], Some(UninitializedInterceptor))
      case Plain(_) => Traverse(inters[1..])
      case Traverser(adds, refusal) =>
        if refusal.Some? then (adds, Some(TraverseError(refusal.value))) else
          var (more, err) := Traverse(inters[1..]);
          (adds + more, err)
  }

  function FirstInvalid(kind: Kind, fields: seq<string>): Option<Error> {
    if fields == [] then None
    else if !ValidColumn(kind, fields[0]) then Some(ValidationError(fields[0]))
    else FirstInvalid(kind, fields[1..])
  }

  /** `prepareQuery` without its path: the query it leaves behind, and the error it returns. */
  function PrepareOwn(q: Query): (Query, Option<Error>) {
    var (adds, err) := Traverse(q.inters);
    (q.(preds := q.preds + adds), if err.Some? then err else FirstInvalid(q.kind, q.fields))
  }

  /** A traversal chain, outermost query first: `chain[i]` is fed by `chain[i + 1]` along `chain[i].via`. */
  ghost predicate IsChain(chain: seq<Query>) {
    && chain != []
    && Last(chain).via.None?
    && forall i :: 0 <= i < |chain| - 1 ==>
         && chain[i].via.Some?
         && chain[i].via.value.Target() == chain[i].kind
         && chain[i].via.value.Source() == chain[i + 1].kind
  }

  /** `prepareQuery` on a whole chain. A query's own checks come before those of the query that feeds it. */
  function Prepare(chain: seq<Query>): (r: (seq<Query>, Option<Error>))
    requires chain != []
    ensures |r.0| == |chain|
  {
    var (own, err) := PrepareOwn(chain[0]);
    if err.Some? then ([own] + chain[1..], err)
    else if |chain| == 1 then ([own], None)
    else
      var (rest, err) := Prepare(chain[1..]);
      ([own] + rest, err)
  }

  // ---------- Compilation ----------

  /** The selector `sqlQuery` builds on top of `from`. A LIMIT is mandatory next to an OFFSET. */
  function SqlQuery(q: Query, from: From): Selector {
    Selector(
      from,
      if q.fields == [] then Columns(q.kind) else q.fields,
      q.unique == Some(true),
      q.preds,
      q.order,
      q.offset,
      if q.limit.Some? then q.limit else if q.offset.Some? then Some(MAX_INT32) else None)
  }

  /** The source a prepared chain feeds to its outermost query (the `sql` field, or the plain table). */
  function Source(chain: seq<Query>): From
    requires chain != []
  {
    if |chain| == 1 || chain[0].via.None? then Table(chain[0].kind)
    else Neighbors(SqlQuery(chain[1], Source(chain[1..])), chain[0].via.value)
  }

  /** `sqlgraph.QuerySpec`; a zero `limit` or `offset` stands for an absent one. */
  datatype QuerySpec = QuerySpec(
    from: From, columns: seq<string>, unique: bool, preds: seq<Pred>, order: seq<OrderTerm>, limit: nat, offset: nat)

  function AppendOnce(columns: seq<string>, column: string): seq<string> {
    if column in columns then columns else columns + [column]
  }

  /** The foreign keys that the first `n` edges need on the node's own row. */
  function WithKeys(q: Query, columns: seq<string>, n: nat): seq<string>
    requires n <= |q.withs| && n <= |EdgesOf(q.kind)|
  {
    if n == 0 then columns else
      var e := EdgesOf(q.kind)[n - 1];
      var rest := WithKeys(q, columns, n - 1);
      if q.withs[n - 1].Some? && e.Cardinality() == M2O then AppendOnce(rest, e.SourceColumn()) else rest
  }

  predicate NotId(field: string) {
    field != FIELD_ID
  }

  /** The selected columns: the ID always comes first, and once. */
  function SelectedColumns(fields: seq<string>): seq<string> {
    [FIELD_ID] + Filter(NotId, fields)
  }

  function SpecColumns(q: Query): seq<string>
    requires |q.withs| == |EdgesOf(q.kind)|
  {
    if q.fields == [] then Columns(q.kind)
    else WithKeys(q, SelectedColumns(q.fields), |q.withs|)
  }

  function Spec(q: Query, from: From): QuerySpec
    requires |q.withs| == |EdgesOf(q.kind)|
  {
    QuerySpec(
      from,
      SpecColumns(q),
      if q.unique.Some? then q.unique.value else q.via.Some?,
      q.preds,
      q.order,
      if q.limit.Some? then q.limit.value else 0,
      if q.offset.Some? then q.offset.value else 0)
  }

  /** The selector a query spec stands for. */
  function SpecSelector(spec: QuerySpec): Selector {
    Selector(spec.from, spec.columns, spec.unique, spec.preds, spec.order,
             if spec.offset == 0 then None else Some(spec.offset),
             if spec.limit == 0 then None else Some(spec.limit))
  }

  /** `sqlgraph.QueryNodes`: the table semantics of a query spec. */
  function QueryNodes(spec: QuerySpec, db: DB): seq<Row> {
    Denote(SpecSelector(spec), db)
  }

  // ---------- Entities ----------

  /** An eager-loading slot of an entity: nothing assigned, a single neighbour, or a list of neighbours. */
  datatype Slot = Unset | One(entity: Entity) | Many(entities: seq<Entity>)

  datatype Entity = Entity(kind: Kind, row: Row, loaded: seq<bool>, slots: seq<Slot>)
  {
    function Get(column: string): string {
      Text(row, column)
    }
  }

  function Requested(q: Query): seq<bool> {
    Map((w: Option<Query>) => w.Some?, q.withs)
  }

  function NewEntity(q: Query, row: Row): Entity {
    Entity(q.kind, row, Requested(q), seq(|q.withs|, i => Unset))
  }

  function Keys(nodes: seq<Entity>, column: string): seq<string> {
    Map((n: Entity) => n.Get(column), nodes)
  }

  function Having(neighbors: seq<Entity>, column: string, key: string): seq<Entity> {
    Filter((n: Entity) => n.Get(column) == key, neighbors)
  }

  /** The first neighbour whose key none of the nodes bears. */
  function FirstStray(neighbors: seq<Entity>, column: string, keys: seq<string>): Option<Error> {
    if neighbors == [] then None
    else if neighbors[0].Get(column) !in keys then Some(UnexpectedForeignKey(column, neighbors[0].Get(column)))
    else FirstStray(neighbors[1..], column, keys)
  }

  predicate IsLastBearer(nodes: seq<Entity>, column: string, k: nat)
    requires k < |nodes|
  {
    forall j :: k < j < |nodes| ==> nodes[j].Get(column) != nodes[k].Get(column)
  }

  /** What the loader of `edge` puts into the slot of node `k`. */
  function LoadedSlot(edge: Edge, slot: Slot, nodes: seq<Entity>, neighbors: seq<Entity>, k: nat): Slot
    requires k < |nodes|
  {
    var mine := Having(neighbors, edge.TargetColumn(), nodes[k].Get(edge.SourceColumn()));
    match edge.Cardinality()
    case O2M => Many(if IsLastBearer(nodes, edge.SourceColumn(), k) then mine else [])
    case M2O => if mine == [] then slot else One(Last(mine))
  }

  /** The outcome of scattering `neighbors` over `nodes`, into slot `i`. */
  function Scatter(edge: Edge, i: nat, nodes: seq<Entity>, neighbors: seq<Entity>): (r: Result<seq<Entity>>)
    requires forall n :: n in nodes ==> i < |n.slots|
    ensures r.Ok? ==> |r.value| == |nodes| && forall k :: 0 <= k < |nodes| ==> |r.value[k].slots| == |nodes[k].slots|
  {
    var stray := FirstStray(neighbors, edge.TargetColumn(), Keys(nodes, edge.SourceColumn()));
    if stray.Some? then Err(stray.value) else
      Ok(seq(|nodes|, k requires 0 <= k < |nodes| =>
        assert nodes[k] in nodes;
        nodes[k].(slots := nodes[k].slots[i := LoadedSlot(edge, nodes[k].slots[i], nodes, neighbors, k)])))
  }

  /** How a loader restricts the nested query before it runs it. */
  function Narrow(edge: Edge, child: Query, nodes: seq<Entity>): (r: Query)
    ensures r.kind == child.kind && r.withs == child.withs && r.via == child.via
  {
    var keys := Keys(nodes, edge.SourceColumn());
    match edge.Cardinality()
    case O2M =>
      child.(fields := if child.fields == [] then [] else AppendOnce(child.fields, edge.TargetColumn()),
             preds := child.preds + [InValues(edge.TargetColumn(), keys)])
    case M2O =>
      child.(preds := child.preds + [InValues(edge.TargetColumn(), Dedup(keys))])
  }

  // ---------- All ----------

  /** A completed run: the query as the run left it, and the nodes (with their edges) or the error it returned. */
  datatype Outcome = Outcome(query: Query, result: Result<seq<Entity>>)

  /** `All` on a query that is not a traversal. */
  function All(q: Query, db: DB): Outcome
    requires WellFormed(q)
    decreases Depth(q), 1, 0
  {
    var (own, err) := PrepareOwn(q);
    DepthOfNestingOnly(q, own, |q.withs|);
    if err.Some? then Outcome(own, Err(err.value)) else SqlAll(own, Table(own.kind), db)
  }

  /** `sqlAll` on a prepared query whose rows come from `from`. */
  function SqlAll(q: Query, from: From, db: DB): Outcome
    requires WellFormed(q)
    decreases Depth(q), 0, |q.withs| + 1
  {
    var nodes := Map((r: Row) => NewEntity(q, r), QueryNodes(Spec(q, from), db));
    if nodes == [] then Outcome(q, Ok([])) else
      var (withs, result) := LoadFrom(q, 0, nodes, db);
      Outcome(q.(withs := withs), result)
  }

  /** A loader: narrows the nested query to the nodes' keys, runs it, and scatters what it returns into slot `i`. */
  function Load(edge: Edge, i: nat, child: Query, nodes: seq<Entity>, db: DB): (r: Outcome)
    requires WellFormed(child)
    requires forall n :: n in nodes ==> i < |n.slots|
    ensures r.result.Ok? ==>
      && |r.result.value| == |nodes|
      && forall k :: 0 <= k < |nodes| ==> |r.result.value[k].slots| == |nodes[k].slots|
    decreases Depth(child), 2, 0
  {
    var narrowed := Narrow(edge, child, nodes);
    DepthOfNestingOnly(child, narrowed, |child.withs|);
    var run := All(narrowed, db);
    if run.result.Err? then run else Outcome(run.query, Scatter(edge, i, nodes, run.result.value))
  }

  /** Runs the loaders of the edges `i`, `i + 1`, ... in order, stopping at the first error. */
  function LoadFrom(q: Query, i: nat, nodes: seq<Entity>, db: DB): (r: (seq<Option<Query>>, Result<seq<Entity>>))
    requires WellFormed(q) && i <= |q.withs|
    requires forall n :: n in nodes ==> |n.slots| == |q.withs|
    ensures |r.0| == |q.withs| - i
    decreases Depth(q), 0, |q.withs| - i
  {
    if i == |q.withs| then ([], Ok(nodes))
    else if q.withs[i].None? then
      var (withs, result) := LoadFrom(q, i + 1, nodes, db);
      ([None] + withs, result)
    else
      NestedIsShallower(q, |q.withs|, i);
      var load := Load(EdgesOf(q.kind)[i], i, q.withs[i].value, nodes, db);
      if load.result.Err? then ([Some(load.query)] + q.withs[i + 1..], load.result)
      else
        var (withs, result) := LoadFrom(q, i + 1, load.result.value, db);
        ([Some(load.query)] + withs, result)
  }

  lemma LoadFromStep(q: Query, i: nat, nodes: seq<Entity>, db: DB, load: Outcome)
    requires WellFormed(q) && i < |q.withs| && q.withs[i].Some?
    requires forall n :: n in nodes ==> |n.slots| == |q.withs|
    requires load == Load(EdgesOf(q.kind)[i], i, q.withs[i].value, nodes, db)
    ensures load.result.Err? ==> LoadFrom(q, i, nodes, db) == ([Some(load.query)] + q.withs[i + 1..], load.result)
    ensures load.result.Ok? ==>
              && (forall n :: n in load.result.value ==> |n.slots| == |q.withs|)
              && LoadFrom(q, i, nodes, db).0 == [Some(load.query)] + LoadFrom(q, i + 1, load.result.value, db).0
              && LoadFrom(q, i, nodes, db).1 == LoadFrom(q, i + 1, load.result.value, db).1
  {
  }

  /** `All` on the outermost query of a traversal chain: the chain as the run left it, and the result. */
  function AllOf(chain: seq<Query>, db: DB): (seq<Query>, Result<seq<Entity>>)
    requires chain != [] && WellFormed(chain[0])
  {
    var (prepared, err) := Prepare(chain);
    if err.Some? then (prepared, Err(err.value)) else
      var run := SqlAll(prepared[0], Source(prepared), db);
      ([run.query] + prepared[1..], run.result)
  }

  // ---------- What a run keeps ----------

  /** The slots `withs`, taken from position `i` on, hold well-formed queries of the right kinds. */
  ghost predicate WellFormedSlots(kind: Kind, i: nat, withs: seq<Option<Query>>) {
    && i + |withs| == |EdgesOf(kind)|
    && forall j :: 0 <= j < |withs| && withs[j].Some? ==>
         && withs[j].value.kind == EdgesOf(kind)[i + j].Target()
         && withs[j].value.via.None?
         && WellFormed(withs[j].value)
  }

  lemma SlotsFrom(q: Query, i: nat)
    requires WellFormed(q) && i <= |q.withs|
    ensures WellFormedSlots(q.kind, i, q.withs[i..])
  {
    forall j | 0 <= j < |q.withs| - i && q.withs[i..][j].Some? ensures WellFormed(q.withs[i..][j].value) {
      assert q.withs[i..][j] == q.withs[i + j];
    }
    assert forall j :: 0 <= j < |q.withs| - i ==> q.withs[i..][j] == q.withs[i + j];
  }

  lemma SlotsCons(kind: Kind, i: nat, w: Option<Query>, rest: seq<Option<Query>>)
    requires WellFormedSlots(kind, i + 1, rest) && i < |EdgesOf(kind)|
    requires w.Some? ==> w.value.kind == EdgesOf(kind)[i].Target() && w.value.via.None? && WellFormed(w.value)
    ensures WellFormedSlots(kind, i, [w] + rest)
  {
    var ws := [w] + rest;
    forall j | 0 <= j < |ws| && ws[j].Some?
      ensures ws[j].value.kind == EdgesOf(kind)[i + j].Target() && ws[j].value.via.None? && WellFormed(ws[j].value)
    {
      if j > 0 {
        assert ws[j] == rest[j - 1];
      }
    }
  }

  /** A run keeps the shape of the query: its nested queries stay well formed, and its kind and `via` do not change. */
  lemma {:induction false} AllWellFormed(q: Query, db: DB)
    requires WellFormed(q)
    ensures WellFormed(All(q, db).query) && All(q, db).query.kind == q.kind && All(q, db).query.via == q.via
    decreases Depth(q), 1, 0
  {
    var (own, err) := PrepareOwn(q);
    DepthOfNestingOnly(q, own, |q.withs|);
    if err.None? {
      SqlAllWellFormed(own, Table(own.kind), db);
    }
  }

  lemma {:induction false} SqlAllWellFormed(q: Query, from: From, db: DB)
    requires WellFormed(q)
    ensures WellFormed(SqlAll(q, from, db).query)
    decreases Depth(q), 0, |q.withs| + 1
  {
    var nodes := Map((r: Row) => NewEntity(q, r), QueryNodes(Spec(q, from), db));
    if nodes != [] {
      LoadFromWellFormed(q, 0, nodes, db);
    }
  }

  lemma {:induction false} LoadFromWellFormed(q: Query, i: nat, nodes: seq<Entity>, db: DB)
    requires WellFormed(q) && i <= |q.withs|
    requires forall n :: n in nodes ==> |n.slots| == |q.withs|
    ensures WellFormedSlots(q.kind, i, LoadFrom(q, i, nodes, db).0)
    decreases Depth(q), 0, |q.withs| - i
  {
    if i < |q.withs| {
      if q.withs[i].None? {
        LoadFromWellFormed(q, i + 1, nodes, db);
        SlotsCons(q.kind, i, None, LoadFrom(q, i + 1, nodes, db).0);
      } else {
        var child := q.withs[i].value;
        NestedIsShallower(q, |q.withs|, i);
        var load := Load(EdgesOf(q.kind)[i], i, child, nodes, db);
        LoadWellFormed(EdgesOf(q.kind)[i], i, child, nodes, db);
        if load.result.Ok? {
          LoadFromWellFormed(q, i + 1, load.result.value, db);
          SlotsCons(q.kind, i, Some(load.query), LoadFrom(q, i + 1, load.result.value, db).0);
        } else {
          SlotsFrom(q, i + 1);
          SlotsCons(q.kind, i, Some(load.query), q.withs[i + 1..]);
        }
      }
    }
  }

  lemma {:induction false} LoadWellFormed(edge: Edge, i: nat, child: Query, nodes: seq<Entity>, db: DB)
    requires WellFormed(child)
    requires forall n :: n in nodes ==> i < |n.slots|
    ensures var r := Load(edge, i, child, nodes, db).query;
            WellFormed(r) && r.kind == child.kind && r.via == child.via
    decreases Depth(child), 2, 0
  {
    DepthOfNestingOnly(child, Narrow(edge, child, nodes), |child.withs|);
    AllWellFormed(Narrow(edge, child, nodes), db);
  }

  lemma AllOfSingle(q: Query, db: DB)
    requires WellFormed(q)
    ensures AllOf([q], db) == ([All(q, db).query], All(q, db).result)
  {
    var (own, err) := PrepareOwn(q);
    assert [own] + [q][1..] == [own];
    assert Prepare([q]) == ([own], err);
    if err.None? {
      var run := SqlAll(own, Table(q.kind), db);
      assert [run.query] + [own][1..] == [run.query];
    }
  }

  lemma ScatterOk(edge: Edge, i: nat, nodes: seq<Entity>, neighbors: seq<Entity>, scattered: seq<Entity>)
    requires forall n :: n in nodes ==> i < |n.slots|
    requires FirstStray(neighbors, edge.TargetColumn(), Keys(nodes, edge.SourceColumn())) == None
    requires |scattered| == |nodes|
    requires forall k :: 0 <= k < |nodes| ==>
               scattered[k] == nodes[k].(slots := nodes[k].slots[i := LoadedSlot(edge, nodes[k].slots[i], nodes, neighbors, k)])
    ensures Scatter(edge, i, nodes, neighbors) == Ok(scattered)
  {
    assert Scatter(edge, i, nodes, neighbors).value == scattered;
  }

  // ---------- Loading edge by edge ----------

  /**
   * `total` is what loading every edge amounts to: the edges before `i` have been loaded into `nodes`, the query has
   * become `now`, and the loaders from `i` on remain.
   */
  ghost predicate Remaining(q: Query, i: nat, total: (seq<Option<Query>>, Result<seq<Entity>>), now: Query,
                            nodes: seq<Entity>, db: DB)
    requires WellFormed(q)
  {
    && i <= |q.withs| == |now.withs|
    && now == q.(withs := now.withs) && (forall j :: i <= j < |q.withs| ==> now.withs[j] == q.withs[j])
    && (forall n :: n in nodes ==> |n.slots| == |q.withs|)
    && total.0 == now.withs[..i] + LoadFrom(q, i, nodes, db).0
    && total.1 == LoadFrom(q, i, nodes, db).1
  }

  lemma RemainingSkip(q: Query, i: nat, total: (seq<Option<Query>>, Result<seq<Entity>>), now: Query,
                      nodes: seq<Entity>, db: DB)
    requires WellFormed(q) && Remaining(q, i, total, now, nodes, db) && i < |q.withs| && q.withs[i].None?
    ensures Remaining(q, i + 1, total, now, nodes, db)
  {
    var rest := LoadFrom(q, i + 1, nodes, db).0;
    assert LoadFrom(q, i, nodes, db).0 == [None] + rest;
    assert now.withs[..i] + ([None] + rest) == now.withs[..i + 1] + rest;
  }

  lemma RemainingStep(q: Query, i: nat, total: (seq<Option<Query>>, Result<seq<Entity>>), now: Query,
                      nodes: seq<Entity>, load: Outcome, db: DB)
    requires WellFormed(q) && Remaining(q, i, total, now, nodes, db) && i < |q.withs| && q.withs[i].Some?
    requires load == Load(EdgesOf(q.kind)[i], i, q.withs[i].value, nodes, db) && load.result.Ok?
    ensures Remaining(q, i + 1, total, now.(withs := now.withs[i := Some(load.query)]), load.result.value, db)
  {
    var withs := now.withs[i := Some(load.query)];
    var rest := LoadFrom(q, i + 1, load.result.value, db).0;
    assert LoadFrom(q, i, nodes, db).0 == [Some(load.query)] + rest;
    assert now.withs[..i] + ([Some(load.query)] + rest) == withs[..i + 1] + rest;
  }

  lemma RemainingStop(q: Query, i: nat, total: (seq<Option<Query>>, Result<seq<Entity>>), now: Query,
                      nodes: seq<Entity>, load: Outcome, db: DB)
    requires WellFormed(q) && Remaining(q, i, total, now, nodes, db) && i < |q.withs| && q.withs[i].Some?
    requires load == Load(EdgesOf(q.kind)[i], i, q.withs[i].value, nodes, db) && load.result.Err?
    ensures total.0 == now.withs[i := Some(load.query)] && total.1 == load.result
  {
    var withs := now.withs[i := Some(load.query)];
    assert LoadFrom(q, i, nodes, db).0 == [Some(load.query)] + q.withs[i + 1..];
    assert now.withs[..i] + ([Some(load.query)] + q.withs[i + 1..]) == withs;
  }
}
