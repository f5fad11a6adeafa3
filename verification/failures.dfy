/** Exactly when a run fails, for every query: some nested query that is not accepted is reached by some row. */
module Failures {
  import opened Common
  import opened Schema
  import opened Sequences
  import opened Selectors
  import opened Queries
  import opened EagerLoading
  import opened NestedLoop

  /** The nodes of some rows, before any edge is loaded. */
  function Bare(q: Query, rows: seq<Row>): (nodes: seq<Entity>)
    ensures RowsOf(nodes) == rows
  {
    var nodes := Map((r: Row) => NewEntity(q, r), rows);
    assert RowsOf(nodes) == rows;
    nodes
  }

  /** The nodes of a run, before any edge is loaded. */
  function NodesOf(q: Query, from: From, db: DB): seq<Entity>
    requires WellFormed(q)
  {
    Bare(q, QueryNodes(Spec(q, from), db))
  }

  /** The nodes that a nested query returns to its loader, before any edge of theirs is loaded. */
  function BatchNodes(edge: Edge, child: Query, nodes: seq<Entity>, db: DB): seq<Entity>
    requires WellFormed(child)
  {
    Bare(child, BatchRows(edge, child, nodes, db))
  }

  // ---------- Batch by batch ----------

  /** Loading the edges of these nodes fails: there is one, and some requested nested query is not accepted, or loading the
      edges of the nodes it returns for them fails. */
  ghost predicate FailsOn(q: Query, nodes: seq<Entity>, db: DB)
    requires WellFormed(q)
    decreases q, 1
  {
    nodes != [] && exists i :: 0 <= i < |q.withs| && q.withs[i].Some? && EdgeFails(q, i, nodes, db)
  }

  ghost predicate EdgeFails(q: Query, i: nat, nodes: seq<Entity>, db: DB)
    requires WellFormed(q) && i < |q.withs| && q.withs[i].Some?
    decreases q, 0
  {
    var child := q.withs[i].value;
    assert WellFormed(child);
    PrepareOwn(child).1.Some? || FailsOn(child, BatchNodes(EdgesOf(q.kind)[i], child, nodes, db), db)
  }

  /** Only the kind and the nested queries matter, and only the rows of the nodes. */
  lemma SameFailures(q: Query, p: Query, nodes: seq<Entity>, others: seq<Entity>, db: DB)
    requires WellFormed(q) && WellFormed(p) && q.kind == p.kind && q.withs == p.withs && RowsOf(nodes) == RowsOf(others)
    ensures FailsOn(q, nodes, db) == FailsOn(p, others, db)
    ensures forall i :: 0 <= i < |q.withs| && q.withs[i].Some? ==> EdgeFails(q, i, nodes, db) == EdgeFails(p, i, others, db)
  {
    assert |nodes| == |RowsOf(nodes)| && |others| == |RowsOf(others)|;
    forall i | 0 <= i < |q.withs| && q.withs[i].Some? ensures EdgeFails(q, i, nodes, db) == EdgeFails(p, i, others, db) {
      var edge := EdgesOf(q.kind)[i];
      SameKeys(nodes, others, edge.SourceColumn());
      assert Narrow(edge, q.withs[i].value, nodes) == Narrow(edge, q.withs[i].value, others);
    }
  }

  /** A run fails exactly if loading the edges of its nodes does; windows on nested queries included. */
  lemma {:induction false} SqlAllFails(q: Query, from: From, db: DB)
    requires WellFormed(q)
    ensures SqlAll(q, from, db).result.Err? <==> FailsOn(q, NodesOf(q, from, db), db)
    decreases Depth(q), 0, |q.withs| + 1
  {
    var nodes := NodesOf(q, from, db);
    if nodes != [] {
      LoadFromFails(q, 0, nodes, db);
    }
  }

  ghost predicate LaterFails(q: Query, i: nat, nodes: seq<Entity>, db: DB)
    requires WellFormed(q)
  {
    exists j :: i <= j < |q.withs| && q.withs[j].Some? && EdgeFails(q, j, nodes, db)
  }

  lemma LaterFailsStep(q: Query, i: nat, nodes: seq<Entity>, db: DB)
    requires WellFormed(q) && i < |q.withs|
    ensures LaterFails(q, i, nodes, db) <==> (q.withs[i].Some? && EdgeFails(q, i, nodes, db)) || LaterFails(q, i + 1, nodes, db)
  {
  }

  lemma SameLaterFailures(q: Query, i: nat, nodes: seq<Entity>, others: seq<Entity>, db: DB)
    requires WellFormed(q) && RowsOf(nodes) == RowsOf(others)
    ensures LaterFails(q, i, nodes, db) == LaterFails(q, i, others, db)
  {
    SameFailures(q, q, nodes, others, db);
  }

  lemma {:induction false} LoadFromFails(q: Query, i: nat, nodes: seq<Entity>, db: DB)
    requires WellFormed(q) && i <= |q.withs| && nodes != []
    requires forall n :: n in nodes ==> |n.slots| == |q.withs|
    ensures LoadFrom(q, i, nodes, db).1.Err? <==> LaterFails(q, i, nodes, db)
    decreases Depth(q), 0, |q.withs| - i
  {
    if i < |q.withs| {
      if q.withs[i].None? {
        LoadFromFails(q, i + 1, nodes, db);
      } else {
        NestedIsShallower(q, |q.withs|, i);
        LoadFails(q, i, nodes, db);
        var load := Load(EdgesOf(q.kind)[i], i, q.withs[i].value, nodes, db);
        LoadFromStep(q, i, nodes, db, load);
        if load.result.Ok? {
          LoadedRows(q, i, nodes, db);
          LoadFromFails(q, i + 1, load.result.value, db);
          SameLaterFailures(q, i + 1, nodes, load.result.value, db);
        }
      }
      LaterFailsStep(q, i, nodes, db);
    }
  }

  lemma LoadedRows(q: Query, i: nat, nodes: seq<Entity>, db: DB)
    requires WellFormed(q) && i < |q.withs| && q.withs[i].Some?
    requires forall n :: n in nodes ==> |n.slots| == |q.withs|
    ensures WellFormed(q.withs[i].value)
    ensures var load := Load(EdgesOf(q.kind)[i], i, q.withs[i].value, nodes, db);
            load.result.Ok? ==> RowsOf(load.result.value) == RowsOf(nodes) && |load.result.value| == |nodes|
  {
    var edge, child := EdgesOf(q.kind)[i], q.withs[i].value;
    assert WellFormed(child);
    var run := All(Narrow(edge, child, nodes), db);
    if run.result.Ok? {
      ScatterKeepsRows(edge, i, nodes, run.result.value);
    }
  }

  lemma {:induction false} LoadFails(q: Query, i: nat, nodes: seq<Entity>, db: DB)
    requires WellFormed(q) && i < |q.withs| && q.withs[i].Some?
    requires forall n :: n in nodes ==> |n.slots| == |q.withs|
    ensures WellFormed(q.withs[i].value)
    ensures Load(EdgesOf(q.kind)[i], i, q.withs[i].value, nodes, db).result.Err? <==> EdgeFails(q, i, nodes, db)
    decreases Depth(q.withs[i].value), 2, 0
  {
    var edge, child := EdgesOf(q.kind)[i], q.withs[i].value;
    assert WellFormed(child);
    var narrowed := Narrow(edge, child, nodes);
    var own := PrepareOwn(narrowed).0;
    DepthOfNestingOnly(child, own, |child.withs|);
    NarrowedIsAccepted(edge, child, nodes);
    LoadNoStray(edge, i, child, nodes, db);
    assert WellFormed(narrowed) && WellFormed(own);
    if PrepareOwn(child).1.None? {
      SqlAllFails(own, Table(own.kind), db);
      SameFailures(own, child, NodesOf(own, Table(own.kind), db), BatchNodes(edge, child, nodes, db), db);
    }
  }

  // ---------- Which error ----------

  /** The error comes from the first edge that fails. */
  ghost predicate Reported(q: Query, nodes: seq<Entity>, e: Error, db: DB)
    requires WellFormed(q)
    decreases q, 1
  {
    exists i :: 0 <= i < |q.withs| && q.withs[i].Some? && ReportedAt(q, i, nodes, e, db) && NoneFails(q, 0, i, nodes, db)
  }

  ghost predicate NoneFails(q: Query, from: nat, to: nat, nodes: seq<Entity>, db: DB)
    requires WellFormed(q) && to <= |q.withs|
  {
    forall j :: from <= j < to && q.withs[j].Some? ==> !EdgeFails(q, j, nodes, db)
  }

  /** It is why the nested query was not accepted, or the error of loading the edges of the nodes it returned. */
  ghost predicate ReportedAt(q: Query, i: nat, nodes: seq<Entity>, e: Error, db: DB)
    requires WellFormed(q) && i < |q.withs| && q.withs[i].Some?
    decreases q, 0
  {
    var child := q.withs[i].value;
    assert WellFormed(child);
    if PrepareOwn(child).1.Some? then e == PrepareOwn(child).1.value
    else Reported(child, BatchNodes(EdgesOf(q.kind)[i], child, nodes, db), e, db)
  }

  lemma SameReportAt(q: Query, p: Query, i: nat, nodes: seq<Entity>, others: seq<Entity>, e: Error, db: DB)
    requires WellFormed(q) && WellFormed(p) && q.kind == p.kind && q.withs == p.withs && RowsOf(nodes) == RowsOf(others)
    requires i < |q.withs| && q.withs[i].Some?
    ensures ReportedAt(q, i, nodes, e, db) == ReportedAt(p, i, others, e, db)
  {
    var edge := EdgesOf(q.kind)[i];
    SameKeys(nodes, others, edge.SourceColumn());
    assert Narrow(edge, q.withs[i].value, nodes) == Narrow(edge, q.withs[i].value, others);
  }

  lemma SameNoneFails(q: Query, p: Query, i: nat, j: nat, nodes: seq<Entity>, others: seq<Entity>, db: DB)
    requires WellFormed(q) && WellFormed(p) && q.kind == p.kind && q.withs == p.withs && RowsOf(nodes) == RowsOf(others)
    requires j <= |q.withs|
    ensures NoneFails(q, i, j, nodes, db) == NoneFails(p, i, j, others, db)
  {
    SameFailures(q, p, nodes, others, db);
  }

  lemma SameReports(q: Query, p: Query, nodes: seq<Entity>, others: seq<Entity>, e: Error, db: DB)
    requires WellFormed(q) && WellFormed(p) && q.kind == p.kind && q.withs == p.withs && RowsOf(nodes) == RowsOf(others)
    ensures Reported(q, nodes, e, db) ==> Reported(p, others, e, db)
  {
    if Reported(q, nodes, e, db) {
      var i :| 0 <= i < |q.withs| && q.withs[i].Some? && ReportedAt(q, i, nodes, e, db) && NoneFails(q, 0, i, nodes, db);
      SameReportAt(q, p, i, nodes, others, e, db);
      SameNoneFails(q, p, 0, i, nodes, others, db);
    }
  }

  /** A failing run reports the error of the first edge, in the order of loading, whose nested query fails, at any depth. */
  lemma {:induction false} SqlAllReports(q: Query, from: From, db: DB)
    requires WellFormed(q)
    ensures SqlAll(q, from, db).result.Err? ==> Reported(q, NodesOf(q, from, db), SqlAll(q, from, db).result.error, db)
    decreases Depth(q), 0, |q.withs| + 1
  {
    var nodes := NodesOf(q, from, db);
    if nodes != [] && SqlAll(q, from, db).result.Err? {
      LoadFromReports(q, 0, nodes, db);
    }
  }

  ghost predicate LaterReported(q: Query, i: nat, nodes: seq<Entity>, e: Error, db: DB)
    requires WellFormed(q)
  {
    exists j :: i <= j < |q.withs| && q.withs[j].Some? && ReportedAt(q, j, nodes, e, db) && NoneFails(q, i, j, nodes, db)
  }

  lemma ReportedHere(q: Query, i: nat, nodes: seq<Entity>, e: Error, db: DB)
    requires WellFormed(q) && i < |q.withs| && q.withs[i].Some? && ReportedAt(q, i, nodes, e, db)
    ensures LaterReported(q, i, nodes, e, db)
  {
    assert NoneFails(q, i, i, nodes, db);
  }

  lemma ReportedNext(q: Query, i: nat, nodes: seq<Entity>, e: Error, db: DB)
    requires WellFormed(q) && i < |q.withs| && LaterReported(q, i + 1, nodes, e, db)
    requires q.withs[i].Some? ==> !EdgeFails(q, i, nodes, db)
    ensures LaterReported(q, i, nodes, e, db)
  {
    var j :| i + 1 <= j < |q.withs| && q.withs[j].Some? && ReportedAt(q, j, nodes, e, db) && NoneFails(q, i + 1, j, nodes, db);
    assert NoneFails(q, i, j, nodes, db);
  }

  lemma SameLaterReports(q: Query, i: nat, nodes: seq<Entity>, others: seq<Entity>, e: Error, db: DB)
    requires WellFormed(q) && RowsOf(nodes) == RowsOf(others) && LaterReported(q, i, nodes, e, db)
    ensures LaterReported(q, i, others, e, db)
  {
    var j :| i <= j < |q.withs| && q.withs[j].Some? && ReportedAt(q, j, nodes, e, db) && NoneFails(q, i, j, nodes, db);
    SameReportAt(q, q, j, nodes, others, e, db);
    SameNoneFails(q, q, i, j, nodes, others, db);
  }

  /** What the remaining edges report once edge `i` was loaded. */
  lemma ReportedAfter(q: Query, i: nat, nodes: seq<Entity>, loaded: seq<Entity>, e: Error, db: DB)
    requires WellFormed(q) && i < |q.withs| && q.withs[i].Some? && !EdgeFails(q, i, nodes, db)
    requires RowsOf(loaded) == RowsOf(nodes) && LaterReported(q, i + 1, loaded, e, db)
    ensures LaterReported(q, i, nodes, e, db)
  {
    SameLaterReports(q, i + 1, loaded, nodes, e, db);
    ReportedNext(q, i, nodes, e, db);
  }

  lemma {:induction false} LoadFromReports(q: Query, i: nat, nodes: seq<Entity>, db: DB)
    requires WellFormed(q) && i <= |q.withs| && nodes != []
    requires forall n :: n in nodes ==> |n.slots| == |q.withs|
    requires LoadFrom(q, i, nodes, db).1.Err?
    ensures LaterReported(q, i, nodes, LoadFrom(q, i, nodes, db).1.error, db)
    decreases Depth(q), 0, |q.withs| - i
  {
    var e := LoadFrom(q, i, nodes, db).1.error;
    if q.withs[i].None? {
      LoadFromReports(q, i + 1, nodes, db);
      ReportedNext(q, i, nodes, e, db);
    } else {
      NestedIsShallower(q, |q.withs|, i);
      LoadFails(q, i, nodes, db);
      var load := Load(EdgesOf(q.kind)[i], i, q.withs[i].value, nodes, db);
      LoadFromStep(q, i, nodes, db, load);
      if load.result.Ok? {
        LoadedRows(q, i, nodes, db);
        LoadFromReports(q, i + 1, load.result.value, db);
        ReportedAfter(q, i, nodes, load.result.value, e, db);
      } else {
        LoadReports(q, i, nodes, db);
        ReportedHere(q, i, nodes, e, db);
      }
    }
  }

  lemma {:induction false} LoadReports(q: Query, i: nat, nodes: seq<Entity>, db: DB)
    requires WellFormed(q) && i < |q.withs| && q.withs[i].Some?
    requires forall n :: n in nodes ==> |n.slots| == |q.withs|
    requires Load(EdgesOf(q.kind)[i], i, q.withs[i].value, nodes, db).result.Err?
    ensures WellFormed(q.withs[i].value)
    ensures ReportedAt(q, i, nodes, Load(EdgesOf(q.kind)[i], i, q.withs[i].value, nodes, db).result.error, db)
    decreases Depth(q.withs[i].value), 2, 0
  {
    var edge, child := EdgesOf(q.kind)[i], q.withs[i].value;
    assert WellFormed(child);
    var narrowed := Narrow(edge, child, nodes);
    var own := PrepareOwn(narrowed).0;
    DepthOfNestingOnly(child, own, |child.withs|);
    NarrowedIsAccepted(edge, child, nodes);
    LoadNoStray(edge, i, child, nodes, db);
    assert WellFormed(narrowed) && WellFormed(own);
    if PrepareOwn(child).1.None? {
      var run := SqlAll(own, Table(own.kind), db).result;
      SqlAllReports(own, Table(own.kind), db);
      SameReports(own, child, NodesOf(own, Table(own.kind), db), BatchNodes(edge, child, nodes, db), run.error, db);
    }
  }

  // ---------- Row by row ----------

  /** A row fails: some requested nested query is not accepted, or the query made for this row alone returns a row that
      itself fails. */
  ghost predicate Fails(q: Query, row: Row, db: DB)
    requires WellFormed(q)
    decreases q, 1
  {
    exists i :: 0 <= i < |q.withs| && q.withs[i].Some? && EdgeFailsFor(q, i, row, db)
  }

  ghost predicate EdgeFailsFor(q: Query, i: nat, row: Row, db: DB)
    requires WellFormed(q) && i < |q.withs| && q.withs[i].Some?
    decreases q, 0
  {
    var child := q.withs[i].value;
    assert WellFormed(child);
    PrepareOwn(child).1.Some? || SomeFails(child, AloneRows(EdgesOf(q.kind)[i], child, row, db), db)
  }

  ghost predicate SomeFails(q: Query, rows: seq<Row>, db: DB)
    requires WellFormed(q)
    decreases q, 2
  {
    exists r :: r in rows && Fails(q, r, db)
  }

  /** A row of the batch is a row of one node's own query, and conversely. */
  lemma BatchIsUnion(edge: Edge, child: Query, nodes: seq<Entity>, db: DB, r: Row)
    requires WellFormed(child) && child.kind == edge.Target() && child.limit.None? && child.offset.None?
    ensures r in BatchRows(edge, child, nodes, db) <==>
            exists k :: 0 <= k < |nodes| && r in AloneRows(edge, child, nodes[k].row, db)
  {
    var column := edge.TargetColumn();
    forall k | 0 <= k < |nodes|
      ensures r in AloneRows(edge, child, nodes[k].row, db) <==>
              r in BatchRows(edge, child, nodes, db) && Text(r, column) == nodes[k].Get(edge.SourceColumn())
    {
      BatchRestricted(edge, child, nodes, k, db);
      FilterIn(x => Bears(x, column, nodes[k].Get(edge.SourceColumn())), BatchRows(edge, child, nodes, db), r);
    }
    if r in BatchRows(edge, child, nodes, db) {
      RowsAreKnown(edge, child, nodes, db, r);
      var k :| 0 <= k < |nodes| && Keys(nodes, edge.SourceColumn())[k] == Text(r, column);
    }
  }

  lemma RowFails(q: Query, i: nat, row: Row, db: DB)
    requires WellFormed(q) && i < |q.withs| && q.withs[i].Some? && EdgeFailsFor(q, i, row, db)
    ensures Fails(q, row, db)
  {
  }

  lemma FailingEdge(q: Query, row: Row, db: DB) returns (i: nat)
    requires WellFormed(q) && Fails(q, row, db)
    ensures i < |q.withs| && q.withs[i].Some? && EdgeFailsFor(q, i, row, db)
  {
    i :| 0 <= i < |q.withs| && q.withs[i].Some? && EdgeFailsFor(q, i, row, db);
  }

  lemma OneOfThemFails(q: Query, nodes: seq<Entity>, k: nat, db: DB)
    requires WellFormed(q) && k < |nodes| && Fails(q, nodes[k].row, db)
    ensures SomeFails(q, RowsOf(nodes), db)
  {
    assert RowsOf(nodes)[k] == nodes[k].row;
  }

  lemma WhichFails(q: Query, nodes: seq<Entity>, db: DB) returns (k: nat)
    requires WellFormed(q) && SomeFails(q, RowsOf(nodes), db)
    ensures k < |nodes| && Fails(q, nodes[k].row, db)
  {
    var r: Row :| r in RowsOf(nodes) && Fails(q, r, db);
    k :| 0 <= k < |nodes| && RowsOf(nodes)[k] == r;
  }

  /** Without windows on nested queries, loading the edges of some nodes fails exactly if one of their rows fails. */
  lemma {:induction false} FailsRowByRow(q: Query, nodes: seq<Entity>, db: DB)
    requires WellFormed(q) && NestedUnwindowed(q)
    ensures FailsOn(q, nodes, db) <==> SomeFails(q, RowsOf(nodes), db)
    decreases q, 1
  {
    if FailsOn(q, nodes, db) {
      var i :| 0 <= i < |q.withs| && q.withs[i].Some? && EdgeFails(q, i, nodes, db);
      EdgeRowByRow(q, i, nodes, db);
      var k :| 0 <= k < |nodes| && EdgeFailsFor(q, i, nodes[k].row, db);
      RowFails(q, i, nodes[k].row, db);
      OneOfThemFails(q, nodes, k, db);
    }
    if SomeFails(q, RowsOf(nodes), db) {
      var k := WhichFails(q, nodes, db);
      var i := FailingEdge(q, nodes[k].row, db);
      EdgeRowByRow(q, i, nodes, db);
    }
  }

  lemma {:induction false} EdgeRowByRow(q: Query, i: nat, nodes: seq<Entity>, db: DB)
    requires WellFormed(q) && NestedUnwindowed(q) && i < |q.withs| && q.withs[i].Some? && nodes != []
    ensures EdgeFails(q, i, nodes, db) <==> exists k :: 0 <= k < |nodes| && EdgeFailsFor(q, i, nodes[k].row, db)
    decreases q, 0
  {
    var edge, child := EdgesOf(q.kind)[i], q.withs[i].value;
    assert WellFormed(child);
    if PrepareOwn(child).1.Some? {
      assert EdgeFailsFor(q, i, nodes[0].row, db);
    } else {
      var batch := BatchNodes(edge, child, nodes, db);
      FailsRowByRow(child, batch, db);
      UnionFails(edge, child, nodes, db);
    }
  }

  lemma UnionFails(edge: Edge, child: Query, nodes: seq<Entity>, db: DB)
    requires WellFormed(child) && child.kind == edge.Target() && child.limit.None? && child.offset.None?
    ensures SomeFails(child, BatchRows(edge, child, nodes, db), db) <==>
            exists k :: 0 <= k < |nodes| && SomeFails(child, AloneRows(edge, child, nodes[k].row, db), db)
  {
    if SomeFails(child, BatchRows(edge, child, nodes, db), db) {
      var x: Row :| x in BatchRows(edge, child, nodes, db) && Fails(child, x, db);
      BatchIsUnion(edge, child, nodes, db, x);
    }
    if k :| 0 <= k < |nodes| && SomeFails(child, AloneRows(edge, child, nodes[k].row, db), db) {
      var x: Row :| x in AloneRows(edge, child, nodes[k].row, db) && Fails(child, x, db);
      BatchIsUnion(edge, child, nodes, db, x);
    }
  }

  /** Without windows on nested queries, a run fails exactly if one of the rows it selects fails. */
  lemma RunFails(q: Query, from: From, db: DB)
    requires WellFormed(q) && NestedUnwindowed(q)
    ensures SqlAll(q, from, db).result.Err? <==> SomeFails(q, QueryNodes(Spec(q, from), db), db)
  {
    SqlAllFails(q, from, db);
    FailsRowByRow(q, NodesOf(q, from, db), db);
  }
}
