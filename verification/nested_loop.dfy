/**
 * The reference meaning of eager loading is a nested loop: for every returned row, run the nested query for that row
 * alone. The loaders instead run each nested query once, for all rows together.
 */
module NestedLoop {
  import opened Common
  import opened Schema
  import opened Sequences
  import opened Selectors
  import opened Queries
  import opened EagerLoading
  import Rerun

  // ---------- The nested loop ----------

  /** The nested query of `edge`, restricted to the neighbours of one row. */
  function PerRow(edge: Edge, child: Query, row: Row): (r: Query)
    ensures r.kind == child.kind && r.withs == child.withs && r.via == child.via
  {
    child.(
      fields := if edge.Cardinality() == M2O || child.fields == [] then child.fields
                else AppendOnce(child.fields, edge.TargetColumn()),
      preds := child.preds + [InValues(edge.TargetColumn(), [Text(row, edge.SourceColumn())])])
  }

  ghost function Nested(q: Query, db: DB): seq<Entity>
    requires WellFormed(q)
    decreases Depth(q), 1, 0
  {
    var own := PrepareOwn(q).0;
    DepthOfNestingOnly(q, own, |q.withs|);
    var rows := QueryNodes(Spec(own, Table(q.kind)), db);
    seq(|rows|, k requires 0 <= k < |rows| => NestedEntity(own, rows[k], |own.withs|, db))
  }

  /** The entity of `row` with the slots of its first `n` edges filled. */
  ghost function NestedEntity(q: Query, row: Row, n: nat, db: DB): Entity
    requires WellFormed(q) && n <= |q.withs|
    decreases Depth(q), 0, 1
  {
    Entity(q.kind, row, Requested(q),
           seq(|q.withs|, i requires 0 <= i < |q.withs| => if i < n then NestedSlot(q, i, row, db) else Unset))
  }

  ghost function NestedSlot(q: Query, i: nat, row: Row, db: DB): Slot
    requires WellFormed(q) && i < |q.withs|
    decreases Depth(q), 0, 0
  {
    if q.withs[i].None? then Unset else
      var edge := EdgesOf(q.kind)[i];
      var child := PerRow(edge, q.withs[i].value, row);
      assert WellFormed(q.withs[i].value);
      NestedIsShallower(q, |q.withs|, i);
      DepthOfNestingOnly(q.withs[i].value, child, |child.withs|);
      var neighbors := Nested(child, db);
      match edge.Cardinality()
      case O2M => Many(neighbors)
      case M2O => if neighbors == [] then Unset else One(Last(neighbors))
  }

  // ---------- When the two agree ----------

  /** No interceptor refuses the query, and every selected field exists. */
  ghost predicate Healthy(q: Query) {
    && PrepareOwn(q).1 == None
    && forall i :: 0 <= i < |q.withs| && q.withs[i].Some? ==> Healthy(q.withs[i].value)
  }

  /** No nested query, at any depth, has a limit or an offset. */
  ghost predicate NestedUnwindowed(q: Query) {
    forall i :: 0 <= i < |q.withs| && q.withs[i].Some? ==>
      && q.withs[i].value.limit.None? && q.withs[i].value.offset.None?
      && NestedUnwindowed(q.withs[i].value)
  }

  ghost predicate DistinctIds(rows: seq<Row>) {
    forall i, j :: 0 <= i < j < |rows| ==> Text(rows[i], FIELD_ID) != Text(rows[j], FIELD_ID)
  }

  /** The ID column is a key of every table. */
  ghost predicate Keyed(db: DB) {
    forall kind :: kind in db ==> DistinctIds(db[kind])
  }

  // ---------- Distinct IDs survive selection ----------

  lemma {:induction false} FilterDistinctIds(p: Row -> bool, rows: seq<Row>)
    requires DistinctIds(rows)
    ensures DistinctIds(Filter(p, rows))
  {
    if rows != [] {
      FilterDistinctIds(p, Init(rows));
      forall r | r in Filter(p, Init(rows)) ensures Text(r, FIELD_ID) != Text(Last(rows), FIELD_ID) {
        FilterIn(p, Init(rows), r);
      }
    }
  }

  lemma {:induction false} InsertDistinctIds(leq: (Row, Row) -> bool, rows: seq<Row>, x: Row)
    requires DistinctIds(rows) && forall r :: r in rows ==> Text(r, FIELD_ID) != Text(x, FIELD_ID)
    ensures DistinctIds(Insert(leq, rows, x))
  {
    if rows != [] && !leq(Last(rows), x) {
      InsertDistinctIds(leq, Init(rows), x);
      forall r | r in Insert(leq, Init(rows), x) ensures Text(r, FIELD_ID) != Text(Last(rows), FIELD_ID) {
        InsertIn(leq, Init(rows), x, r);
        assert Last(rows) in rows;
      }
    }
  }

  lemma {:induction false} SortDistinctIds(leq: (Row, Row) -> bool, rows: seq<Row>)
    requires DistinctIds(rows)
    ensures DistinctIds(Sort(leq, rows))
  {
    if rows != [] {
      SortDistinctIds(leq, Init(rows));
      forall r | r in Sort(leq, Init(rows)) ensures Text(r, FIELD_ID) != Text(Last(rows), FIELD_ID) {
        SortIn(leq, Init(rows), r);
      }
      InsertDistinctIds(leq, Sort(leq, Init(rows)), Last(rows));
    }
  }

  lemma DistinctIdsDistinct(rows: seq<Row>)
    requires DistinctIds(rows)
    ensures NoDuplicates(rows)
  {
    forall i, j | 0 <= i < j < |rows| ensures rows[i] != rows[j] {
      assert Text(rows[i], FIELD_ID) != Text(rows[j], FIELD_ID);
    }
  }

  /** Projections that keep the ID of rows with distinct IDs have distinct IDs, so there is nothing to de-duplicate. */
  lemma ProjectDistinctIds(rows: seq<Row>, columns: seq<string>)
    requires DistinctIds(rows) && FIELD_ID in columns
    ensures DistinctIds(Map(Projection(columns), rows))
    ensures Dedup(Map(Projection(columns), rows)) == Map(Projection(columns), rows)
  {
    var projected := Map(Projection(columns), rows);
    assert forall i :: 0 <= i < |rows| ==> Text(projected[i], FIELD_ID) == Text(rows[i], FIELD_ID);
    DistinctIdsDistinct(projected);
    DedupOfDistinct(projected);
  }

  lemma WindowDistinctIds(rows: seq<Row>, offset: Option<nat>, limit: Option<nat>)
    requires DistinctIds(rows)
    ensures DistinctIds(Window(rows, offset, limit))
  {
  }

  lemma DenoteDistinctIds(sel: Selector, db: DB)
    requires DistinctIds(FromRows(sel.from, db)) && FIELD_ID in sel.columns
    ensures DistinctIds(Denote(sel, db))
  {
    var filtered := Filter(Where(sel.preds, db), FromRows(sel.from, db));
    FilterDistinctIds(Where(sel.preds, db), FromRows(sel.from, db));
    SortDistinctIds(Leq(sel.order, db), filtered);
    ProjectDistinctIds(Ordered(sel, db), sel.columns);
    WindowDistinctIds(Map(Projection(sel.columns), Ordered(sel, db)), sel.offset, sel.limit);
  }

  lemma TableNodesDistinct(q: Query, db: DB)
    requires WellFormed(q) && Keyed(db)
    ensures DistinctIds(QueryNodes(Spec(q, Table(q.kind)), db))
  {
    FetchesEveryKey(q, 0);
    DenoteDistinctIds(SpecSelector(Spec(q, Table(q.kind))), db);
  }

  // ---------- Picking one key's neighbours out of the batch ----------

  lemma {:induction false} RankedTotal(order: seq<OrderTerm>, db: DB, a: Row, b: Row)
    ensures RankedBefore(order, db, a, b) || RankedBefore(order, db, b, a)
  {
    if order != [] {
      RankedTotal(order[1..], db, a, b);
    }
  }

  lemma {:induction false} RankedTransitive(order: seq<OrderTerm>, db: DB, a: Row, b: Row, c: Row)
    requires RankedBefore(order, db, a, b) && RankedBefore(order, db, b, c)
    ensures RankedBefore(order, db, a, c)
  {
    if order != [] {
      if order[0](db, a) == order[0](db, b) && order[0](db, b) == order[0](db, c) {
        RankedTransitive(order[1..], db, a, b, c);
      }
    }
  }

  lemma LeqIsPreorder(order: seq<OrderTerm>, db: DB)
    ensures TotalPreorder(Leq(order, db))
  {
    forall a: Row, b: Row ensures Leq(order, db)(a, b) || Leq(order, db)(b, a) {
      RankedTotal(order, db, a, b);
    }
    forall a: Row, b: Row, c: Row | Leq(order, db)(a, b) && Leq(order, db)(b, c) ensures Leq(order, db)(a, c) {
      RankedTransitive(order, db, a, b, c);
    }
  }

  /** Narrowing by a further condition can be done before or after sorting. */
  lemma OrderedFilter(s: Selector, t: Selector, p: Row -> bool, db: DB)
    requires t == s.(preds := t.preds)
    requires forall r :: r in FromRows(s.from, db) ==> (Holds(t.preds, db, r) <==> Holds(s.preds, db, r) && p(r))
    ensures Ordered(t, db) == Filter(p, Ordered(s, db))
  {
    var source := FromRows(s.from, db);
    FilterFilter(p, Where(s.preds, db), source);
    FilterAgree(Where(t.preds, db), Both(Where(s.preds, db), p), source);
    LeqIsPreorder(s.order, db);
    FilterSort(Leq(s.order, db), p, Filter(Where(s.preds, db), source));
  }

  /** If `t` selects the source rows of `s` whose projections pass `p`, it returns them in the order of `s`. */
  lemma DenoteFilter(s: Selector, t: Selector, p: Row -> bool, db: DB)
    requires t == s.(preds := t.preds) && s.offset.None? && s.limit.None?
    requires forall r :: r in FromRows(s.from, db) ==>
               (Holds(t.preds, db, r) <==> Holds(s.preds, db, r) && p(Project(r, s.columns)))
    ensures Denote(t, db) == Filter(p, Denote(s, db))
  {
    var q := (r: Row) => p(Project(r, s.columns));
    OrderedFilter(s, t, q, db);
    FilterMap(Projection(s.columns), p, q, Ordered(s, db));
    FilterDedup(p, Map(Projection(s.columns), Ordered(s, db)));
  }

  predicate Bears(row: Row, column: string, key: string) {
    Text(row, column) == key
  }

  /** The rows a nested query fetches for one row alone. */
  function AloneRows(edge: Edge, child: Query, row: Row, db: DB): seq<Row>
    requires WellFormed(child)
  {
    QueryNodes(Spec(PrepareOwn(PerRow(edge, child, row)).0, Table(child.kind)), db)
  }

  /** The rows it fetches for all nodes together. */
  function BatchRows(edge: Edge, child: Query, nodes: seq<Entity>, db: DB): seq<Row>
    requires WellFormed(child)
  {
    QueryNodes(Spec(PrepareOwn(Narrow(edge, child, nodes)).0, Table(child.kind)), db)
  }

  /** The batch query, restricted to one row's key, returns exactly what the per-row query returns. */
  lemma BatchRestricted(edge: Edge, child: Query, nodes: seq<Entity>, k: nat, db: DB)
    requires WellFormed(child) && child.kind == edge.Target() && child.limit.None? && child.offset.None?
    requires k < |nodes|
    ensures var narrowed, single := PrepareOwn(Narrow(edge, child, nodes)).0, PrepareOwn(PerRow(edge, child, nodes[k].row)).0;
            && WellFormed(narrowed) && WellFormed(single)
            && QueryNodes(Spec(single, Table(child.kind)), db)
               == Filter(r => Bears(r, edge.TargetColumn(), nodes[k].Get(edge.SourceColumn())),
                         QueryNodes(Spec(narrowed, Table(child.kind)), db))
  {
    var narrowed, single := PrepareOwn(Narrow(edge, child, nodes)).0, PrepareOwn(PerRow(edge, child, nodes[k].row)).0;
    var column, key := edge.TargetColumn(), nodes[k].Get(edge.SourceColumn());
    NarrowedFetchesKey(edge, child, nodes);
    assert WellFormed(single);
    SpecColumnsAgree(narrowed, single);
    var keys := Keys(nodes, edge.SourceColumn());
    var used := if edge.Cardinality() == O2M then keys else Dedup(keys);
    DedupIn(keys, key);
    assert keys[k] == key;
    var s, t := SpecSelector(Spec(narrowed, Table(child.kind))), SpecSelector(Spec(single, Table(child.kind)));
    var p := r => Bears(r, column, key);
    forall r | r in FromRows(s.from, db)
      ensures Holds(t.preds, db, r) <==> Holds(s.preds, db, r) && p(Project(r, s.columns))
    {
      OneKeyOfMany(child.preds, Traverse(child.inters).0, column, used, key, s.columns, db, r);
    }
    DenoteFilter(s, t, p, db);
  }

  /** Among rows with one of several keys, those with one of them can be told by the fetched key. */
  lemma OneKeyOfMany(ps: seq<Pred>, qs: seq<Pred>, column: string, keys: seq<string>, key: string, columns: seq<string>,
                     db: DB, r: Row)
    requires key in keys && column in columns
    ensures Holds(ps + [InValues(column, [key])] + qs, db, r) <==>
            Holds(ps + [InValues(column, keys)] + qs, db, r) && Bears(Project(r, columns), column, key)
  {
    OnePredicateDiffers(ps, InValues(column, keys), qs, db, r);
    OnePredicateDiffers(ps, InValues(column, [key]), qs, db, r);
  }

  lemma OnePredicateDiffers(ps: seq<Pred>, p: Pred, qs: seq<Pred>, db: DB, r: Row)
    ensures Holds(ps + [p] + qs, db, r) <==> Holds(ps, db, r) && p(db, r) && Holds(qs, db, r)
  {
    Rerun.HoldsConcat(ps + [p], qs, db, r);
    Rerun.HoldsConcat(ps, [p], db, r);
    assert Holds([p], db, r) <==> [p][0](db, r);
  }

  lemma {:induction false} WithKeysSame(q: Query, p: Query, columns: seq<string>, n: nat)
    requires q.kind == p.kind && q.withs == p.withs && n <= |q.withs| && n <= |EdgesOf(q.kind)|
    ensures WithKeys(q, columns, n) == WithKeys(p, columns, n)
  {
    if n > 0 {
      WithKeysSame(q, p, columns, n - 1);
    }
  }

  lemma SpecColumnsAgree(q: Query, p: Query)
    requires WellFormed(q) && q.kind == p.kind && q.withs == p.withs && q.fields == p.fields
    ensures |p.withs| == |EdgesOf(p.kind)| && SpecColumns(q) == SpecColumns(p)
  {
    WithKeysSame(q, p, SelectedColumns(q.fields), |q.withs|);
  }

  /** An entity of the nested loop depends on the nested queries only. */
  lemma NestedEntityAgrees(q: Query, p: Query, row: Row, n: nat, db: DB)
    requires WellFormed(q) && WellFormed(p) && q.kind == p.kind && q.withs == p.withs && n <= |q.withs|
    ensures NestedEntity(q, row, n, db) == NestedEntity(p, row, n, db)
  {
    forall i | 0 <= i < |q.withs| ensures NestedSlot(q, i, row, db) == NestedSlot(p, i, row, db) {
    }
  }

  /** The neighbours of row `k`, picked out of the batch, are the neighbours its own query returns. */
  lemma NestedRestricted(edge: Edge, child: Query, nodes: seq<Entity>, k: nat, db: DB)
    requires WellFormed(child) && child.kind == edge.Target() && child.limit.None? && child.offset.None?
    requires k < |nodes|
    ensures WellFormed(Narrow(edge, child, nodes)) && WellFormed(PerRow(edge, child, nodes[k].row))
    ensures Nested(PerRow(edge, child, nodes[k].row), db)
            == Having(Nested(Narrow(edge, child, nodes), db), edge.TargetColumn(), nodes[k].Get(edge.SourceColumn()))
  {
    var batch, single := Narrow(edge, child, nodes), PerRow(edge, child, nodes[k].row);
    var narrowed, own := PrepareOwn(batch).0, PrepareOwn(single).0;
    var column, key := edge.TargetColumn(), nodes[k].Get(edge.SourceColumn());
    BatchRestricted(edge, child, nodes, k, db);
    assert WellFormed(batch) && WellFormed(single);
    var rows := QueryNodes(Spec(narrowed, Table(child.kind)), db);
    var few := QueryNodes(Spec(own, Table(child.kind)), db);
    var f := (r: Row) => if WellFormed(narrowed) then NestedEntity(narrowed, r, |narrowed.withs|, db) else Entity(child.kind, r, [], []);
    FilterMap(f, (n: Entity) => n.Get(column) == key, r => Bears(r, column, key), rows);
    assert Nested(batch, db) == Map(f, rows);
    forall i | 0 <= i < |few| ensures Nested(single, db)[i] == f(few[i]) {
      NestedEntityAgrees(own, narrowed, few[i], |own.withs|, db);
    }
    assert Nested(single, db) == Map(f, few);
  }

  // ---------- Batching is invisible ----------

  /** The nodes `rows` stand for, with the slots of their first `n` edges filled by the nested loop. */
  ghost function Partial(q: Query, rows: seq<Row>, n: nat, db: DB): (nodes: seq<Entity>)
    requires WellFormed(q) && n <= |q.withs|
    ensures |nodes| == |rows| && forall e :: e in nodes ==> |e.slots| == |q.withs|
    ensures forall k :: 0 <= k < |rows| ==> nodes[k].row == rows[k]
  {
    seq(|rows|, k requires 0 <= k < |rows| => NestedEntity(q, rows[k], n, db))
  }

  lemma PartialNext(q: Query, rows: seq<Row>, n: nat, db: DB)
    requires WellFormed(q) && n < |q.withs|
    ensures var before, after := Partial(q, rows, n, db), Partial(q, rows, n + 1, db);
            forall k :: 0 <= k < |rows| ==>
              && before[k].slots[n] == Unset
              && after[k] == before[k].(slots := before[k].slots[n := NestedSlot(q, n, rows[k], db)])
  {
    var before, after := Partial(q, rows, n, db), Partial(q, rows, n + 1, db);
    forall k | 0 <= k < |rows| ensures after[k].slots == before[k].slots[n := NestedSlot(q, n, rows[k], db)] {
    }
  }

  lemma PartialSame(q: Query, rows: seq<Row>, n: nat, db: DB)
    requires WellFormed(q) && n < |q.withs| && q.withs[n].None?
    ensures Partial(q, rows, n, db) == Partial(q, rows, n + 1, db)
  {
    var before, after := Partial(q, rows, n, db), Partial(q, rows, n + 1, db);
    PartialNext(q, rows, n, db);
    forall k | 0 <= k < |rows| ensures before[k] == after[k] {
      assert before[k].slots[n := Unset] == before[k].slots;
    }
  }

  lemma HealthyNarrowed(edge: Edge, child: Query, nodes: seq<Entity>)
    requires Healthy(child) && child.kind == edge.Target()
    ensures Healthy(Narrow(edge, child, nodes))
  {
    EdgeColumnsExist(edge);
    ValidAppend(child.kind, child.fields, edge.TargetColumn());
  }

  lemma {:induction false} ValidAppend(kind: Kind, fields: seq<string>, column: string)
    requires ValidColumn(kind, column)
    ensures FirstInvalid(kind, fields + [column]) == FirstInvalid(kind, fields)
  {
    if fields == [] {
      assert FirstInvalid(kind, [column][1..]) == None;
      assert fields + [column] == [column];
    } else {
      ValidAppend(kind, fields[1..], column);
      assert (fields + [column])[1..] == fields[1..] + [column];
    }
  }

  /** Narrowing a nested query does not change whether it is accepted. */
  lemma NarrowedIsAccepted(edge: Edge, child: Query, nodes: seq<Entity>)
    requires child.kind == edge.Target()
    ensures PrepareOwn(Narrow(edge, child, nodes)).1 == PrepareOwn(child).1
  {
    EdgeColumnsExist(edge);
    ValidAppend(child.kind, child.fields, edge.TargetColumn());
  }

  /** One loader fills slot `i` of every node as the nested loop would. */
  lemma LoadIsNested(q: Query, i: nat, rows: seq<Row>, db: DB)
    requires WellFormed(q) && i < |q.withs| && q.withs[i].Some? && DistinctIds(rows)
    requires q.withs[i].value.limit.None? && q.withs[i].value.offset.None?
    requires var edge, child, nodes := EdgesOf(q.kind)[i], q.withs[i].value, Partial(q, rows, i, db);
             && WellFormed(child)
             && All(Narrow(edge, child, nodes), db).result == Ok(Nested(Narrow(edge, child, nodes), db))
    ensures Load(EdgesOf(q.kind)[i], i, q.withs[i].value, Partial(q, rows, i, db), db).result
            == Ok(Partial(q, rows, i + 1, db))
  {
    var edge, child, nodes := EdgesOf(q.kind)[i], q.withs[i].value, Partial(q, rows, i, db);
    var neighbors := Nested(Narrow(edge, child, nodes), db);
    LoadNoStray(edge, i, child, nodes, db);
    var scattered := Scatter(edge, i, nodes, neighbors);
    assert Load(edge, i, child, nodes, db).result == scattered;
    ScatterIsNested(q, i, rows, neighbors, db);
  }

  lemma ScatterIsNested(q: Query, i: nat, rows: seq<Row>, neighbors: seq<Entity>, db: DB)
    requires WellFormed(q) && i < |q.withs| && q.withs[i].Some? && DistinctIds(rows)
    requires q.withs[i].value.limit.None? && q.withs[i].value.offset.None?
    requires var narrowed := Narrow(EdgesOf(q.kind)[i], q.withs[i].value, Partial(q, rows, i, db));
             WellFormed(narrowed) && neighbors == Nested(narrowed, db)
    ensures var s := Scatter(EdgesOf(q.kind)[i], i, Partial(q, rows, i, db), neighbors);
            s.Ok? ==> s.value == Partial(q, rows, i + 1, db)
  {
    PartialNext(q, rows, i, db);
    forall k | 0 <= k < |rows|
      ensures LoadedSlot(EdgesOf(q.kind)[i], Unset, Partial(q, rows, i, db), neighbors, k) == NestedSlot(q, i, rows[k], db)
    {
      SlotIsNested(q, i, rows, k, db);
    }
  }

  lemma SlotIsNested(q: Query, i: nat, rows: seq<Row>, k: nat, db: DB)
    requires WellFormed(q) && i < |q.withs| && q.withs[i].Some? && DistinctIds(rows) && k < |rows|
    requires q.withs[i].value.limit.None? && q.withs[i].value.offset.None?
    ensures var edge, child, nodes := EdgesOf(q.kind)[i], q.withs[i].value, Partial(q, rows, i, db);
            && WellFormed(Narrow(edge, child, nodes))
            && LoadedSlot(edge, Unset, nodes, Nested(Narrow(edge, child, nodes), db), k) == NestedSlot(q, i, rows[k], db)
  {
    var edge, child, nodes := EdgesOf(q.kind)[i], q.withs[i].value, Partial(q, rows, i, db);
    assert WellFormed(child);
    NestedRestricted(edge, child, nodes, k, db);
    if edge.Cardinality() == O2M {
      forall j | k < j < |nodes| ensures nodes[j].Get(FIELD_ID) != nodes[k].Get(FIELD_ID) {
        assert Text(rows[k], FIELD_ID) != Text(rows[j], FIELD_ID);
      }
    }
  }

  lemma {:induction false} LoadFromIsNested(q: Query, i: nat, rows: seq<Row>, db: DB)
    requires WellFormed(q) && Healthy(q) && NestedUnwindowed(q) && Keyed(db) && DistinctIds(rows) && i <= |q.withs|
    ensures LoadFrom(q, i, Partial(q, rows, i, db), db).1 == Ok(Partial(q, rows, |q.withs|, db))
    decreases Depth(q), 0, |q.withs| - i
  {
    if i < |q.withs| {
      PartialNext(q, rows, i, db);
      if q.withs[i].None? {
        PartialSame(q, rows, i, db);
      } else {
        var edge, child, nodes := EdgesOf(q.kind)[i], q.withs[i].value, Partial(q, rows, i, db);
        var narrowed := Narrow(edge, child, nodes);
        assert WellFormed(child);
        NestedIsShallower(q, |q.withs|, i);
        DepthOfNestingOnly(child, narrowed, |child.withs|);
        HealthyNarrowed(edge, child, nodes);
        AllIsNested(narrowed, db);
        LoadIsNested(q, i, rows, db);
      }
      LoadFromIsNested(q, i + 1, rows, db);
    }
  }

  lemma {:induction false} SqlAllIsNested(q: Query, from: From, db: DB)
    requires WellFormed(q) && Healthy(q) && NestedUnwindowed(q) && Keyed(db)
    requires DistinctIds(QueryNodes(Spec(q, from), db))
    ensures SqlAll(q, from, db).result == Ok(Partial(q, QueryNodes(Spec(q, from), db), |q.withs|, db))
    decreases Depth(q), 0, |q.withs| + 1
  {
    var rows := QueryNodes(Spec(q, from), db);
    var nodes := Map((r: Row) => NewEntity(q, r), rows);
    forall k | 0 <= k < |rows| ensures nodes[k] == Partial(q, rows, 0, db)[k] {
      assert nodes[k].slots == NestedEntity(q, rows[k], 0, db).slots;
    }
    assert nodes == Partial(q, rows, 0, db);
    LoadFromIsNested(q, 0, rows, db);
  }

  /**
   * Eager loading refines the nested loop: over keyed tables, a query whose nested queries have no windows returns
   * exactly the tree that running every nested query once per row would return, in the same order.
   */
  lemma {:induction false} AllIsNested(q: Query, db: DB)
    requires WellFormed(q) && Healthy(q) && NestedUnwindowed(q) && Keyed(db)
    ensures All(q, db).result == Ok(Nested(q, db))
    decreases Depth(q), 1, 0
  {
    var (own, err) := PrepareOwn(q);
    DepthOfNestingOnly(q, own, |q.withs|);
    TableNodesDistinct(own, db);
    assert Healthy(own) by {
      Rerun.PrepareOwnTwice(q);
    }
    SqlAllIsNested(own, Table(own.kind), db);
  }
}
