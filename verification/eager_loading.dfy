/** What eager loading returns: every key a loader reads is fetched, and batching is invisible. */
module EagerLoading {
  import opened Common
  import opened Schema
  import opened Sequences
  import opened Selectors
  import opened Queries
  import opened Rerun

  // ---------- Column sufficiency ----------

  lemma {:induction false} WithKeysKeeps(q: Query, columns: seq<string>, n: nat, c: string)
    requires n <= |q.withs| && n <= |EdgesOf(q.kind)| && c in columns
    ensures c in WithKeys(q, columns, n)
  {
    if n > 0 {
      WithKeysKeeps(q, columns, n - 1, c);
    }
  }

  lemma {:induction false} WithKeysHasKey(q: Query, columns: seq<string>, n: nat, i: nat)
    requires i < n <= |q.withs| && n <= |EdgesOf(q.kind)|
    requires q.withs[i].Some? && EdgesOf(q.kind)[i].Cardinality() == M2O
    ensures EdgesOf(q.kind)[i].SourceColumn() in WithKeys(q, columns, n)
  {
    if i < n - 1 {
      WithKeysHasKey(q, columns, n - 1, i);
    }
  }

  /** Whatever fields were selected, they are fetched, and so is the ID. */
  lemma FetchesSelected(q: Query, f: string)
    requires WellFormed(q) && (f == FIELD_ID || f in q.fields)
    ensures f in SpecColumns(q) || (q.fields == [] && f == FIELD_ID && f in Columns(q.kind))
  {
    if q.fields != [] {
      FilterIn(NotId, q.fields, f);
      WithKeysKeeps(q, SelectedColumns(q.fields), |q.withs|, f);
    } else {
      assert Columns(q.kind)[0] == FIELD_ID;
    }
  }

  /** Whatever fields were selected, the ID and the foreign key of every requested edge are fetched. */
  lemma FetchesEveryKey(q: Query, i: nat)
    requires WellFormed(q)
    ensures FIELD_ID in SpecColumns(q)
    ensures i < |q.withs| && q.withs[i].Some? ==> EdgesOf(q.kind)[i].SourceColumn() in SpecColumns(q)
  {
    FetchesSelected(q, FIELD_ID);
    if i < |q.withs| && q.withs[i].Some? {
      var edge := EdgesOf(q.kind)[i];
      EdgeColumnsExist(edge);
      if q.fields != [] && edge.Cardinality() == M2O {
        WithKeysHasKey(q, SelectedColumns(q.fields), |q.withs|, i);
      }
    }
  }

  /** A narrowed nested query fetches the column its neighbours are scattered by. */
  lemma NarrowedFetchesKey(edge: Edge, child: Query, nodes: seq<Entity>)
    requires WellFormed(child) && child.kind == edge.Target()
    ensures var narrowed := PrepareOwn(Narrow(edge, child, nodes)).0;
            WellFormed(narrowed) && edge.TargetColumn() in SpecColumns(narrowed)
  {
    var narrowed := PrepareOwn(Narrow(edge, child, nodes)).0;
    assert WellFormed(narrowed);
    EdgeColumnsExist(edge);
    if child.fields == [] {
      assert SpecColumns(narrowed) == Columns(child.kind);
    } else {
      NarrowedSelectsKey(edge, child, nodes);
      FetchesSelected(narrowed, edge.TargetColumn());
    }
  }

  lemma NarrowedSelectsKey(edge: Edge, child: Query, nodes: seq<Entity>)
    requires child.fields != []
    ensures edge.TargetColumn() == FIELD_ID || edge.TargetColumn() in PrepareOwn(Narrow(edge, child, nodes)).0.fields
  {
  }

  // ---------- Rows ----------

  lemma DenoteSound(sel: Selector, db: DB, r: Row)
    requires r in Denote(sel, db)
    ensures exists t :: t in FromRows(sel.from, db) && Holds(sel.preds, db, t) && r == Project(t, sel.columns)
  {
    var rows := Map(Projection(sel.columns), Ordered(sel, db));
    DedupIn(rows, r);
    assert r in rows;
    var i :| 0 <= i < |rows| && rows[i] == r;
    var t := Ordered(sel, db)[i];
    var filtered := Filter(Where(sel.preds, db), FromRows(sel.from, db));
    SortIn(Leq(sel.order, db), filtered, t);
    FilterIn(Where(sel.preds, db), FromRows(sel.from, db), t);
  }

  function RowsOf(nodes: seq<Entity>): seq<Row> {
    Map((n: Entity) => n.row, nodes)
  }

  lemma SameKeys(nodes: seq<Entity>, others: seq<Entity>, column: string)
    requires RowsOf(nodes) == RowsOf(others)
    ensures Keys(nodes, column) == Keys(others, column)
  {
    assert forall k :: 0 <= k < |nodes| ==> nodes[k].row == RowsOf(nodes)[k] == others[k].row;
  }

  lemma ScatterKeepsRows(edge: Edge, i: nat, nodes: seq<Entity>, neighbors: seq<Entity>)
    requires forall n :: n in nodes ==> i < |n.slots|
    ensures var s := Scatter(edge, i, nodes, neighbors); s.Ok? ==> RowsOf(s.value) == RowsOf(nodes)
  {
  }

  lemma {:induction false} LoadFromKeepsRows(q: Query, i: nat, nodes: seq<Entity>, db: DB)
    requires WellFormed(q) && i <= |q.withs|
    requires forall n :: n in nodes ==> |n.slots| == |q.withs|
    ensures var r := LoadFrom(q, i, nodes, db).1; r.Ok? ==> RowsOf(r.value) == RowsOf(nodes)
    decreases |q.withs| - i
  {
    if i < |q.withs| {
      if q.withs[i].None? {
        LoadFromKeepsRows(q, i + 1, nodes, db);
      } else {
        var edge := EdgesOf(q.kind)[i];
        var load := Load(edge, i, q.withs[i].value, nodes, db);
        if load.result.Ok? {
          var run := All(Narrow(edge, q.withs[i].value, nodes), db);
          ScatterKeepsRows(edge, i, nodes, run.result.value);
          LoadFromKeepsRows(q, i + 1, load.result.value, db);
        }
      }
    }
  }

  /** Eager loading never changes which rows a query returns, nor their order. */
  lemma AllReturnsItsRows(q: Query, db: DB)
    requires WellFormed(q)
    ensures var own := PrepareOwn(q).0;
            && WellFormed(own)
            && (All(q, db).result.Ok? ==>
                  RowsOf(All(q, db).result.value) == QueryNodes(Spec(own, Table(q.kind)), db))
  {
    var own := PrepareOwn(q).0;
    var rows := QueryNodes(Spec(own, Table(q.kind)), db);
    var nodes := Map((r: Row) => NewEntity(own, r), rows);
    assert RowsOf(nodes) == rows;
    LoadFromKeepsRows(own, 0, nodes, db);
  }

  // ---------- No loader meets a foreign key it does not know ----------

  lemma HoldsMember(preds: seq<Pred>, p: Pred, db: DB, r: Row)
    requires p in preds && Holds(preds, db, r)
    ensures p(db, r)
  {
    var i :| 0 <= i < |preds| && preds[i] == p;
    assert preds[i](db, r);
  }

  /** Every row a narrowed query selects bears the key of some node. */
  lemma RowsAreKnown(edge: Edge, child: Query, nodes: seq<Entity>, db: DB, r: Row)
    requires WellFormed(child) && child.kind == edge.Target()
    requires var own := PrepareOwn(Narrow(edge, child, nodes)).0;
             |own.withs| == |EdgesOf(own.kind)| && r in QueryNodes(Spec(own, Table(child.kind)), db)
    ensures Text(r, edge.TargetColumn()) in Keys(nodes, edge.SourceColumn())
  {
    var own := PrepareOwn(Narrow(edge, child, nodes)).0;
    var keys, column := Keys(nodes, edge.SourceColumn()), edge.TargetColumn();
    var spec := Spec(own, Table(child.kind));
    NarrowedFetchesKey(edge, child, nodes);
    DenoteSound(SpecSelector(spec), db, r);
    var t: Row :| t in FromRows(spec.from, db) && Holds(spec.preds, db, t) && r == Project(t, spec.columns);
    var used := if edge.Cardinality() == O2M then keys else Dedup(keys);
    HoldsMember(own.preds, InValues(column, used), db, t);
    DedupIn(keys, t[column].s);
  }

  /** Every neighbour a narrowed query returns bears the key of some node. */
  lemma NeighborsAreKnown(edge: Edge, child: Query, nodes: seq<Entity>, db: DB, n: Entity)
    requires WellFormed(child) && child.kind == edge.Target()
    requires All(Narrow(edge, child, nodes), db).result.Ok?
    requires n in All(Narrow(edge, child, nodes), db).result.value
    ensures n.Get(edge.TargetColumn()) in Keys(nodes, edge.SourceColumn())
  {
    var found := All(Narrow(edge, child, nodes), db).result.value;
    AllReturnsItsRows(Narrow(edge, child, nodes), db);
    var i :| 0 <= i < |found| && found[i] == n;
    assert n.row == RowsOf(found)[i];
    RowsAreKnown(edge, child, nodes, db, n.row);
  }

  lemma {:induction false} NoStray(neighbors: seq<Entity>, column: string, keys: seq<string>)
    requires forall n :: n in neighbors ==> n.Get(column) in keys
    ensures FirstStray(neighbors, column, keys) == None
  {
    if neighbors != [] {
      NoStray(neighbors[1..], column, keys);
    }
  }

  /** The loaders' "unexpected foreign-key" error cannot happen, at any depth, whatever the tables hold. */
  lemma {:induction false} NeverUnexpectedForeignKey(q: Query, db: DB)
    requires WellFormed(q)
    ensures var r := All(q, db).result; r.Err? ==> !r.error.UnexpectedForeignKey?
    decreases Depth(q), 1, 0
  {
    var (own, err) := PrepareOwn(q);
    DepthOfNestingOnly(q, own, |q.withs|);
    TraverseErrors(q.inters);
    FirstInvalidErrors(q.kind, q.fields);
    if err.None? {
      SqlAllNoStray(own, Table(own.kind), db);
    }
  }

  lemma TraverseErrors(inters: seq<Interceptor>)
    ensures var err := Traverse(inters).1; err.Some? ==> err.value == UninitializedInterceptor || err.value.TraverseError?
  {
  }

  lemma FirstInvalidErrors(kind: Kind, fields: seq<string>)
    ensures var err := FirstInvalid(kind, fields); err.Some? ==> err.value.ValidationError?
  {
  }

  lemma {:induction false} SqlAllNoStray(q: Query, from: From, db: DB)
    requires WellFormed(q)
    ensures var r := SqlAll(q, from, db).result; r.Err? ==> !r.error.UnexpectedForeignKey?
    decreases Depth(q), 0, |q.withs| + 1
  {
    var nodes := Map((r: Row) => NewEntity(q, r), QueryNodes(Spec(q, from), db));
    if nodes != [] {
      LoadFromNoStray(q, 0, nodes, db);
    }
  }

  lemma {:induction false} LoadFromNoStray(q: Query, i: nat, nodes: seq<Entity>, db: DB)
    requires WellFormed(q) && i <= |q.withs|
    requires forall n :: n in nodes ==> |n.slots| == |q.withs|
    ensures var r := LoadFrom(q, i, nodes, db).1; r.Err? ==> !r.error.UnexpectedForeignKey?
    decreases Depth(q), 0, |q.withs| - i
  {
    if i < |q.withs| {
      if q.withs[i].None? {
        LoadFromNoStray(q, i + 1, nodes, db);
      } else {
        var edge := EdgesOf(q.kind)[i];
        NestedIsShallower(q, |q.withs|, i);
        LoadNoStray(edge, i, q.withs[i].value, nodes, db);
        var load := Load(edge, i, q.withs[i].value, nodes, db);
        LoadFromStep(q, i, nodes, db, load);
        if load.result.Ok? {
          LoadFromNoStray(q, i + 1, load.result.value, db);
        }
      }
    }
  }

  lemma {:induction false} LoadNoStray(edge: Edge, i: nat, child: Query, nodes: seq<Entity>, db: DB)
    requires WellFormed(child) && child.kind == edge.Target()
    requires forall n :: n in nodes ==> i < |n.slots|
    ensures var r := Load(edge, i, child, nodes, db).result; r.Err? ==> !r.error.UnexpectedForeignKey?
    ensures All(Narrow(edge, child, nodes), db).result.Ok? ==> Load(edge, i, child, nodes, db).result.Ok?
    decreases Depth(child), 2, 0
  {
    var narrowed := Narrow(edge, child, nodes);
    DepthOfNestingOnly(child, narrowed, |child.withs|);
    NeverUnexpectedForeignKey(narrowed, db);
    var run := All(narrowed, db);
    if run.result.Ok? {
      forall n | n in run.result.value ensures n.Get(edge.TargetColumn()) in Keys(nodes, edge.SourceColumn()) {
        NeighborsAreKnown(edge, child, nodes, db, n);
      }
      NoStray(run.result.value, edge.TargetColumn(), Keys(nodes, edge.SourceColumn()));
    }
  }
}
