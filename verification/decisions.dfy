/** `First`, `Only`, `IDs` and `Exist`: each decides from a truncated result what the full result would say. */
module Decisions {
  import opened Common
  import opened Schema
  import opened Sequences
  import opened Selectors
  import opened Queries
  import opened EagerLoading
  import opened Failures
  import opened NestedLoop

  function FirstOf(kind: Kind, r: Result<seq<Entity>>): Result<Entity> {
    match r
    case Err(e) => Err(e)
    case Ok(nodes) => if nodes == [] then Err(NotFound(Label(kind))) else Ok(nodes[0])
  }

  function OnlyOf(kind: Kind, r: Result<seq<Entity>>): Result<Entity> {
    match r
    case Err(e) => Err(e)
    case Ok(nodes) =>
      if |nodes| == 1 then Ok(nodes[0]) else if nodes == [] then Err(NotFound(Label(kind))) else Err(NotSingular(Label(kind)))
  }

  /** The chain with another limit on its outermost query. */
  function Limited(chain: seq<Query>, limit: Option<nat>): seq<Query>
    requires chain != []
  {
    [chain[0].(limit := limit)] + chain[1..]
  }

  /** What `IDs` does to the builder before it runs: unique by default on traversals, and one more selected field. */
  function SelectIds(chain: seq<Query>): seq<Query>
    requires chain != []
  {
    var q := chain[0];
    [q.(unique := if q.unique.None? && q.via.Some? then Some(true) else q.unique, fields := q.fields + [FIELD_ID])]
    + chain[1..]
  }

  function IdTexts(rows: seq<Row>): seq<string> {
    Map((r: Row) => Text(r, FIELD_ID), rows)
  }

  function IdsOf(chain: seq<Query>, db: DB): (seq<Query>, Result<seq<string>>)
    requires chain != []
  {
    var (prepared, err) := Prepare(SelectIds(chain));
    (prepared,
     if err.Some? then Err(err.value)
     else Ok(IdTexts(Denote(SqlQuery(prepared[0], Source(prepared)), db))))
  }

  function ExistOf(chain: seq<Query>, db: DB): (seq<Query>, Result<bool>)
    requires chain != []
  {
    var (left, ids) := IdsOf(Limited(chain, Some(1)), db);
    (left, if ids.Err? then Err(CheckExistence(ids.error)) else Ok(ids.value != []))
  }

  // ---------- The limit is the only thing that changes ----------

  lemma PrepareLimited(chain: seq<Query>, limit: Option<nat>)
    requires chain != []
    ensures Prepare(Limited(chain, limit)) == (Limited(Prepare(chain).0, limit), Prepare(chain).1)
    ensures Source(Limited(chain, limit)) == Source(chain)
  {
    assert Limited(chain, limit)[1..] == chain[1..];
    var own := PrepareOwn(chain[0]).0;
    var rest := Prepare(chain).0[1..];
    assert Prepare(Limited(chain, limit)).0 == [own.(limit := limit)] + rest;
  }

  lemma WindowTake<T>(s: seq<T>, offset: Option<nat>, n: nat)
    ensures Window(s, offset, Some(n)) == Window(Window(s, offset, None), None, Some(n))
  {
  }

  /** A positive limit keeps that many of the rows the same query returns without a limit. */
  lemma LimitTakes(q: Query, from: From, n: nat, db: DB)
    requires WellFormed(q) && n > 0
    ensures var p, full := q.(limit := Some(n)), q.(limit := None);
            && WellFormed(p) && WellFormed(full)
            && QueryNodes(Spec(p, from), db) == Window(QueryNodes(Spec(full, from), db), None, Some(n))
  {
    var p, full := q.(limit := Some(n)), q.(limit := None);
    assert WellFormed(p) && WellFormed(full);
    SpecColumnsAgree(p, full);
    var s, t := SpecSelector(Spec(p, from)), SpecSelector(Spec(full, from));
    assert Ordered(s, db) == Ordered(t, db);
    var rows := Map(Projection(t.columns), Ordered(t, db));
    WindowTake(if t.distinct then Dedup(rows) else rows, t.offset, n);
  }

  // ---------- Healthy queries do not fail ----------

  ghost predicate HealthyBelow(q: Query) {
    forall i :: 0 <= i < |q.withs| && q.withs[i].Some? ==> Healthy(q.withs[i].value)
  }

  lemma {:induction false} HealthyRuns(q: Query, db: DB)
    requires WellFormed(q) && Healthy(q)
    ensures All(q, db).result.Ok?
    decreases Depth(q), 1, 0
  {
    var own := PrepareOwn(q).0;
    DepthOfNestingOnly(q, own, |q.withs|);
    HealthySqlAll(own, Table(own.kind), db);
  }

  /** Once prepared, a query whose nested queries are healthy returns nodes: all the rows it selects. */
  lemma {:induction false} HealthySqlAll(q: Query, from: From, db: DB)
    requires WellFormed(q) && HealthyBelow(q)
    ensures SqlAll(q, from, db).result.Ok?
    ensures RowsOf(SqlAll(q, from, db).result.value) == QueryNodes(Spec(q, from), db)
    decreases Depth(q), 0, |q.withs| + 1
  {
    var rows := QueryNodes(Spec(q, from), db);
    var nodes := Map((r: Row) => NewEntity(q, r), rows);
    assert RowsOf(nodes) == rows;
    if nodes != [] {
      HealthyLoadFrom(q, 0, nodes, db);
      LoadFromKeepsRows(q, 0, nodes, db);
    }
  }

  lemma {:induction false} HealthyLoadFrom(q: Query, i: nat, nodes: seq<Entity>, db: DB)
    requires WellFormed(q) && HealthyBelow(q) && i <= |q.withs|
    requires forall n :: n in nodes ==> |n.slots| == |q.withs|
    ensures LoadFrom(q, i, nodes, db).1.Ok?
    decreases Depth(q), 0, |q.withs| - i
  {
    if i < |q.withs| {
      if q.withs[i].None? {
        HealthyLoadFrom(q, i + 1, nodes, db);
      } else {
        var edge, child := EdgesOf(q.kind)[i], q.withs[i].value;
        assert WellFormed(child) && Healthy(child);
        NestedIsShallower(q, |q.withs|, i);
        DepthOfNestingOnly(child, Narrow(edge, child, nodes), |child.withs|);
        HealthyNarrowed(edge, child, nodes);
        HealthyRuns(Narrow(edge, child, nodes), db);
        LoadNoStray(edge, i, child, nodes, db);
        HealthyLoadFrom(q, i + 1, Load(edge, i, child, nodes, db).result.value, db);
      }
    }
  }

  // ---------- First and Only ----------

  lemma SqlAllRows(q: Query, from: From, db: DB)
    requires WellFormed(q)
    ensures SqlAll(q, from, db).result.Ok? ==> RowsOf(SqlAll(q, from, db).result.value) == QueryNodes(Spec(q, from), db)
    ensures SqlAll(q, from, db).result == Ok([]) <==> QueryNodes(Spec(q, from), db) == []
  {
    var rows := QueryNodes(Spec(q, from), db);
    var nodes := Map((r: Row) => NewEntity(q, r), rows);
    assert RowsOf(nodes) == rows;
    if nodes != [] {
      LoadFromKeepsRows(q, 0, nodes, db);
    }
  }

  /** The rows an accepted chain selects, its own offset applied but no limit. */
  function Selected(chain: seq<Query>, db: DB): seq<Row>
    requires chain != [] && WellFormed(chain[0])
  {
    var prepared := Prepare(chain).0;
    QueryNodes(Spec(prepared[0].(limit := None), Source(prepared)), db)
  }

  /** When the runs of an accepted chain without a limit and with limit `n` fail. */
  lemma LimitedFails(chain: seq<Query>, n: nat, db: DB)
    requires chain != [] && WellFormed(chain[0]) && n > 0 && Prepare(chain).1.None?
    ensures WellFormed(Limited(chain, Some(n))[0]) && WellFormed(Limited(chain, None)[0])
    ensures var some, full := AllOf(Limited(chain, Some(n)), db).1, AllOf(Limited(chain, None), db).1;
            var rows := Selected(chain, db);
            && (full.Err? <==> FailsOn(chain[0], Bare(chain[0], rows), db))
            && (some.Err? <==> FailsOn(chain[0], Bare(chain[0], Window(rows, None, Some(n))), db))
  {
    var prepared := Prepare(chain).0;
    PrepareLimited(chain, Some(n));
    PrepareLimited(chain, None);
    PrepareLimited(prepared, Some(n));
    PrepareLimited(prepared, None);
    PrepareHead(chain);
    var q, p, from := prepared[0].(limit := None), prepared[0].(limit := Some(n)), Source(prepared);
    assert WellFormed(prepared[0]) && WellFormed(q) && WellFormed(p);
    LimitTakes(prepared[0], from, n, db);
    SqlAllFails(q, from, db);
    SqlAllFails(p, from, db);
    SameFailures(q, chain[0], NodesOf(q, from, db), Bare(chain[0], Selected(chain, db)), db);
    SameFailures(p, chain[0], NodesOf(p, from, db), Bare(chain[0], Window(Selected(chain, db), None, Some(n))), db);
  }

  /** Without windows on nested queries, the two fail together exactly if some row that is kept fails whenever any does. */
  lemma FailTogether(chain: seq<Query>, n: nat, db: DB)
    requires chain != [] && WellFormed(chain[0]) && NestedUnwindowed(chain[0]) && n > 0 && Prepare(chain).1.None?
    ensures WellFormed(Limited(chain, Some(n))[0]) && WellFormed(Limited(chain, None)[0])
    ensures var some, full := AllOf(Limited(chain, Some(n)), db).1, AllOf(Limited(chain, None), db).1;
            var rows := Selected(chain, db);
            && (full.Err? <==> SomeFails(chain[0], rows, db))
            && (some.Err? <==> SomeFails(chain[0], Window(rows, None, Some(n)), db))
            && ((full.Err? <==> some.Err?) <==>
                (SomeFails(chain[0], rows, db) ==> SomeFails(chain[0], Window(rows, None, Some(n)), db)))
  {
    var rows := Selected(chain, db);
    LimitedFails(chain, n, db);
    FailsRowByRow(chain[0], Bare(chain[0], rows), db);
    FailsRowByRow(chain[0], Bare(chain[0], Window(rows, None, Some(n))), db);
    if r: Row :| r in Window(rows, None, Some(n)) && Fails(chain[0], r, db) {
      assert r in rows;
    }
  }

  /** With limit `n` a run selects the first `n` rows of the run without a limit. Each selects nothing exactly if the other
      does; both fail alike if the chain is refused, and neither fails if the chain and all nested queries are accepted. */
  lemma LimitedRun(chain: seq<Query>, n: nat, db: DB)
    requires chain != [] && WellFormed(chain[0]) && n > 0
    ensures WellFormed(Limited(chain, Some(n))[0]) && WellFormed(Limited(chain, None)[0])
    ensures var some, full := AllOf(Limited(chain, Some(n)), db).1, AllOf(Limited(chain, None), db).1;
            && (full == Ok([]) <==> some == Ok([]))
            && (full.Ok? && some.Ok? ==> RowsOf(some.value) == Window(RowsOf(full.value), None, Some(n)))
            && (Prepare(chain).1.Some? ==> full.Err? && some == full)
            && (HealthyBelow(chain[0]) ==> if full.Err? then some == full else some.Ok?)
  {
    var (prepared, err) := Prepare(chain);
    PrepareLimited(chain, Some(n));
    PrepareLimited(chain, None);
    if err.None? {
      PrepareLimited(prepared, Some(n));
      PrepareLimited(prepared, None);
      PrepareHead(chain);
      var q, p, from := prepared[0].(limit := None), prepared[0].(limit := Some(n)), Source(prepared);
      assert WellFormed(prepared[0]) && WellFormed(q) && WellFormed(p);
      SqlAllRows(q, from, db);
      SqlAllRows(p, from, db);
      LimitTakes(prepared[0], from, n, db);
      if HealthyBelow(chain[0]) {
        HealthySqlAll(q, from, db);
        HealthySqlAll(p, from, db);
      }
    }
  }

  lemma PrepareHead(chain: seq<Query>)
    requires chain != []
    ensures Prepare(chain).0[0] == PrepareOwn(chain[0]).0
  {
  }

  /**
   * `First` decides as the whole result would: it is not found exactly if the whole result is empty, and it is its first row
   * when neither run fails. Without windows on nested queries, the two fail together exactly if the first row fails whenever
   * any row does, so always if all nested queries are accepted.
   */
  lemma FirstDecides(chain: seq<Query>, db: DB)
    requires chain != [] && WellFormed(chain[0])
    ensures WellFormed(Limited(chain, Some(1))[0]) && WellFormed(Limited(chain, None)[0])
    ensures var full, run := AllOf(Limited(chain, None), db).1, AllOf(Limited(chain, Some(1)), db).1;
            var first := FirstOf(chain[0].kind, run);
            && (full == Ok([]) <==> run == Ok([]))
            && (full == Ok([]) ==> first == Err(NotFound(Label(chain[0].kind))))
            && (full.Ok? && run.Ok? && full.value != [] ==> first.Ok? && first.value.row == full.value[0].row)
            && (Prepare(chain).1.Some? ==> full.Err? && first == Err(full.error))
            && (Prepare(chain).1.None? && NestedUnwindowed(chain[0]) ==>
                  var rows := Selected(chain, db);
                  ((full.Err? <==> run.Err?) <==>
                   (SomeFails(chain[0], rows, db) ==> rows != [] && Fails(chain[0], rows[0], db))))
            && (HealthyBelow(chain[0]) ==> if full.Err? then first == Err(full.error) else run.Ok?)
  {
    LimitedRun(chain, 1, db);
    if Prepare(chain).1.None? && NestedUnwindowed(chain[0]) {
      FailTogether(chain, 1, db);
      FirstOfThemFails(chain[0], Selected(chain, db), db);
    }
    var full, run := AllOf(Limited(chain, None), db).1, AllOf(Limited(chain, Some(1)), db).1;
    if full.Ok? && run.Ok? && full.value != [] {
      assert RowsOf(run.value)[0] == RowsOf(full.value)[0];
    }
  }

  lemma FirstOfThemFails(q: Query, rows: seq<Row>, db: DB)
    requires WellFormed(q)
    ensures SomeFails(q, Window(rows, None, Some(1)), db) <==> rows != [] && Fails(q, rows[0], db)
  {
    if rows != [] {
      assert Window(rows, None, Some(1)) == [rows[0]];
      assert rows[0] in [rows[0]];
    }
  }

  /** `Only` decides as the whole result would: not found, its single row, or not singular, when neither run fails; and they
      fail together exactly if one of the first two rows fails whenever any row does. */
  lemma OnlyDecides(chain: seq<Query>, db: DB)
    requires chain != [] && WellFormed(chain[0])
    ensures WellFormed(Limited(chain, Some(2))[0]) && WellFormed(Limited(chain, None)[0])
    ensures var full, run, kind := AllOf(Limited(chain, None), db).1, AllOf(Limited(chain, Some(2)), db).1, chain[0].kind;
            var only := OnlyOf(kind, run);
            && (full == Ok([]) <==> run == Ok([]))
            && (full == Ok([]) ==> only == Err(NotFound(Label(kind))))
            && (full.Ok? && run.Ok? && full.value != [] ==>
                  if |full.value| == 1 then only.Ok? && only.value.row == full.value[0].row
                  else only == Err(NotSingular(Label(kind))))
            && (Prepare(chain).1.Some? ==> full.Err? && only == Err(full.error))
            && (Prepare(chain).1.None? && NestedUnwindowed(chain[0]) ==>
                  var rows := Selected(chain, db);
                  ((full.Err? <==> run.Err?) <==>
                   (SomeFails(chain[0], rows, db) ==> SomeFails(chain[0], Window(rows, None, Some(2)), db))))
            && (HealthyBelow(chain[0]) ==> if full.Err? then only == Err(full.error) else run.Ok?)
  {
    LimitedRun(chain, 2, db);
    if Prepare(chain).1.None? && NestedUnwindowed(chain[0]) {
      FailTogether(chain, 2, db);
    }
    var full, run := AllOf(Limited(chain, None), db).1, AllOf(Limited(chain, Some(2)), db).1;
    if full.Ok? && run.Ok? {
      assert |run.value| == |RowsOf(run.value)| && |full.value| == |RowsOf(full.value)|;
      if |full.value| == 1 {
        assert RowsOf(run.value)[0] == RowsOf(full.value)[0];
      }
    }
  }

  /** When batching is invisible, a limit does not touch the edges of the surviving nodes either. */
  lemma LimitKeepsEdges(q: Query, from: From, n: nat, db: DB)
    requires WellFormed(q) && Healthy(q) && NestedUnwindowed(q) && Keyed(db) && n > 0
    requires DistinctIds(QueryNodes(Spec(q, from), db)) && q.limit.None?
    ensures WellFormed(q.(limit := Some(n)))
    ensures SqlAll(q, from, db).result.Ok?
    ensures SqlAll(q.(limit := Some(n)), from, db).result == Ok(Window(SqlAll(q, from, db).result.value, None, Some(n)))
  {
    var p := q.(limit := Some(n));
    LimitTakes(q, from, n, db);
    assert q.(limit := None) == q;
    var rows, few := QueryNodes(Spec(q, from), db), QueryNodes(Spec(p, from), db);
    assert Healthy(p) && NestedUnwindowed(p);
    SqlAllIsNested(q, from, db);
    SqlAllIsNested(p, from, db);
    assert few == rows[..|few|];
    PartialPrefix(q, p, rows, few, db);
    var all := Partial(q, rows, |q.withs|, db);
    assert Window(all, None, Some(n)) == all[..|few|];
  }

  lemma PartialPrefix(q: Query, p: Query, rows: seq<Row>, few: seq<Row>, db: DB)
    requires WellFormed(q) && WellFormed(p) && q.kind == p.kind && q.withs == p.withs && few <= rows
    ensures Partial(p, few, |p.withs|, db) == Partial(q, rows, |q.withs|, db)[..|few|]
  {
    forall k | 0 <= k < |few|
      ensures NestedEntity(p, few[k], |p.withs|, db) == NestedEntity(q, rows[k], |q.withs|, db)
    {
      NestedEntityAgrees(p, q, few[k], |p.withs|, db);
    }
  }

  // ---------- Windows ----------

  /**
   * `Limit(0)` means two things: `All` cannot tell it from no limit at all, while the selector of a traversal source
   * (and of `IDs`) selects nothing.
   */
  lemma LimitZero(q: Query, from: From, db: DB)
    requires |q.withs| == |EdgesOf(q.kind)| && q.limit == Some(0)
    ensures Spec(q, from) == Spec(q.(limit := None), from)
    ensures Denote(SqlQuery(q, from), db) == [] && Whole(SqlQuery(q, from), db) == []
  {
    WithKeysSame(q, q.(limit := None), SelectedColumns(q.fields), |q.withs|);
  }
}
