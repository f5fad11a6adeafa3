/**
 * Running `All` again. Every run appends predicates (its own traversers' and one IN predicate per nested query) and
 * may append a field to nested queries, so the builder is never the same twice; its answers are.
 */
module Rerun {
  import opened Common
  import opened Schema
  import opened Sequences
  import opened Selectors
  import opened Queries

  // ---------- Queries that differ only by redundant predicates ----------

  ghost predicate SamePreds(ps: seq<Pred>, qs: seq<Pred>) {
    forall db: DB, r: Row :: Holds(ps, db, r) <==> Holds(qs, db, r)
  }

  ghost predicate Similar(q: Query, p: Query)
    decreases q
  {
    && p == q.(preds := p.preds, withs := p.withs)
    && SamePreds(q.preds, p.preds)
    && |q.withs| == |p.withs|
    && forall i :: 0 <= i < |q.withs| ==>
         && q.withs[i].Some? == p.withs[i].Some?
         && (q.withs[i].Some? ==> Similar(q.withs[i].value, p.withs[i].value))
  }

  ghost predicate SimilarSlot(w: Option<Query>, v: Option<Query>) {
    w.Some? == v.Some? && (w.Some? ==> Similar(w.value, v.value))
  }

  ghost predicate SimilarSlots(ws: seq<Option<Query>>, vs: seq<Option<Query>>) {
    |ws| == |vs| && forall i :: 0 <= i < |ws| ==> SimilarSlot(ws[i], vs[i])
  }

  lemma SlotsCons(w: Option<Query>, v: Option<Query>, ws: seq<Option<Query>>, vs: seq<Option<Query>>)
    requires SimilarSlot(w, v) && SimilarSlots(ws, vs)
    ensures SimilarSlots([w] + ws, [v] + vs)
  {
  }

  lemma SimilarRefl(q: Query)
    ensures Similar(q, q)
    decreases q
  {
    forall i | 0 <= i < |q.withs| && q.withs[i].Some? ensures Similar(q.withs[i].value, q.withs[i].value) {
      SimilarRefl(q.withs[i].value);
    }
  }

  lemma SlotsRefl(ws: seq<Option<Query>>)
    ensures SimilarSlots(ws, ws)
  {
    forall i | 0 <= i < |ws| ensures SimilarSlot(ws[i], ws[i]) {
      if ws[i].Some? { SimilarRefl(ws[i].value); }
    }
  }

  lemma SimilarTrans(q: Query, p: Query, o: Query)
    requires Similar(q, p) && Similar(p, o)
    ensures Similar(q, o)
    decreases q
  {
    forall i | 0 <= i < |q.withs| && q.withs[i].Some? ensures Similar(q.withs[i].value, o.withs[i].value) {
      SimilarTrans(q.withs[i].value, p.withs[i].value, o.withs[i].value);
    }
  }

  lemma HoldsConcat(ps: seq<Pred>, qs: seq<Pred>, db: DB, r: Row)
    ensures Holds(ps + qs, db, r) <==> Holds(ps, db, r) && Holds(qs, db, r)
  {
    var s := ps + qs;
    if Holds(s, db, r) {
      forall i | 0 <= i < |ps| ensures ps[i](db, r) { assert s[i](db, r); }
      forall i | 0 <= i < |qs| ensures qs[i](db, r) { assert s[|ps| + i](db, r); }
    }
  }

  lemma SamePredsConcat(ps: seq<Pred>, qs: seq<Pred>, more: seq<Pred>)
    requires SamePreds(ps, qs)
    ensures SamePreds(ps + more, qs + more)
  {
    forall db: DB, r: Row ensures Holds(ps + more, db, r) <==> Holds(qs + more, db, r) {
      HoldsConcat(ps, more, db, r);
      HoldsConcat(qs, more, db, r);
    }
  }

  /** Appending predicates that are already there changes nothing. */
  lemma Absorb(ps: seq<Pred>, mid: seq<Pred>, more: seq<Pred>)
    ensures SamePreds(ps + mid + more + mid, ps + mid + more)
  {
    forall db: DB, r: Row ensures Holds(ps + mid + more + mid, db, r) <==> Holds(ps + mid + more, db, r) {
      HoldsConcat(ps + mid + more, mid, db, r);
      HoldsConcat(ps + mid, more, db, r);
      HoldsConcat(ps, mid, db, r);
    }
  }

  // ---------- Similar queries behave alike ----------

  lemma OrderedAgrees(s: Selector, t: Selector, db: DB)
    requires SamePreds(s.preds, t.preds) && s.order == t.order && FromRows(s.from, db) == FromRows(t.from, db)
    ensures Ordered(s, db) == Ordered(t, db)
  {
    FilterAgree(Where(s.preds, db), Where(t.preds, db), FromRows(s.from, db));
  }

  /** The same edges are requested, whatever their nested queries look like. */
  ghost predicate SameRequests(ws: seq<Option<Query>>, vs: seq<Option<Query>>) {
    |ws| == |vs| && forall i :: 0 <= i < |ws| ==> ws[i].Some? == vs[i].Some?
  }

  lemma {:induction false} WithKeysAgree(q: Query, p: Query, columns: seq<string>, n: nat)
    requires q.kind == p.kind && SameRequests(q.withs, p.withs) && n <= |q.withs| && n <= |EdgesOf(q.kind)|
    ensures WithKeys(q, columns, n) == WithKeys(p, columns, n)
  {
    if n > 0 {
      WithKeysAgree(q, p, columns, n - 1);
    }
  }

  lemma SameNodes(q: Query, p: Query, f: From, g: From, db: DB)
    requires |q.withs| == |EdgesOf(q.kind)| && FromRows(f, db) == FromRows(g, db)
    requires p == q.(preds := p.preds, withs := p.withs)
    requires SamePreds(q.preds, p.preds) && SameRequests(q.withs, p.withs)
    ensures QueryNodes(Spec(q, f), db) == QueryNodes(Spec(p, g), db)
    ensures forall r :: NewEntity(q, r) == NewEntity(p, r)
  {
    WithKeysAgree(q, p, SelectedColumns(q.fields), |q.withs|);
    assert SpecColumns(q) == SpecColumns(p);
    OrderedAgrees(SpecSelector(Spec(q, f)), SpecSelector(Spec(p, g)), db);
    assert Requested(q) == Requested(p);
  }

  lemma NarrowSimilar(edge: Edge, c: Query, d: Query, nodes: seq<Entity>)
    requires Similar(c, d)
    ensures Similar(Narrow(edge, c, nodes), Narrow(edge, d, nodes))
  {
    var keys := Keys(nodes, edge.SourceColumn());
    SamePredsConcat(c.preds, d.preds, [InValues(edge.TargetColumn(), keys)]);
    SamePredsConcat(c.preds, d.preds, [InValues(edge.TargetColumn(), Dedup(keys))]);
  }

  lemma SimilarWellFormed(q: Query, p: Query)
    requires Similar(q, p) && WellFormed(q)
    ensures WellFormed(p)
    decreases q
  {
    forall i | 0 <= i < |p.withs| && p.withs[i].Some?
      ensures p.withs[i].value.kind == EdgesOf(p.kind)[i].Target() && p.withs[i].value.via.None?
      ensures WellFormed(p.withs[i].value)
    {
      var c, d := q.withs[i].value, p.withs[i].value;
      assert Similar(c, d);
      assert d == c.(preds := d.preds, withs := d.withs);
      SimilarWellFormed(c, d);
    }
  }

  lemma {:induction false} AllSimilar(q: Query, p: Query, db: DB)
    requires Similar(q, p) && WellFormed(q) && WellFormed(p)
    ensures All(q, db).result == All(p, db).result
    ensures Similar(All(q, db).query, All(p, db).query)
    decreases Depth(q), 1, 0
  {
    var (own, err) := PrepareOwn(q);
    var (own', err') := PrepareOwn(p);
    SamePredsConcat(q.preds, p.preds, Traverse(q.inters).0);
    DepthOfNestingOnly(q, own, |q.withs|);
    assert Similar(own, own');
    if err.None? {
      SqlAllSimilar(own, own', Table(own.kind), Table(own.kind), db);
    }
  }

  lemma {:induction false} SqlAllSimilar(q: Query, p: Query, f: From, g: From, db: DB)
    requires Similar(q, p) && WellFormed(q) && WellFormed(p) && FromRows(f, db) == FromRows(g, db)
    ensures SqlAll(q, f, db).result == SqlAll(p, g, db).result
    ensures Similar(SqlAll(q, f, db).query, SqlAll(p, g, db).query)
    decreases Depth(q), 0, |q.withs| + 1
  {
    SameNodes(q, p, f, g, db);
    var rows := QueryNodes(Spec(q, f), db);
    var nodes := Map((r: Row) => NewEntity(q, r), rows);
    assert nodes == Map((r: Row) => NewEntity(p, r), rows);
    if nodes != [] {
      LoadFromSimilar(q, p, 0, nodes, db);
    }
  }

  lemma {:induction false} LoadSimilar(edge: Edge, i: nat, c: Query, d: Query, nodes: seq<Entity>, db: DB)
    requires Similar(c, d) && WellFormed(c) && WellFormed(d)
    requires forall n :: n in nodes ==> i < |n.slots|
    ensures Load(edge, i, c, nodes, db).result == Load(edge, i, d, nodes, db).result
    ensures Similar(Load(edge, i, c, nodes, db).query, Load(edge, i, d, nodes, db).query)
    decreases Depth(c), 2, 0
  {
    NarrowSimilar(edge, c, d, nodes);
    DepthOfNestingOnly(c, Narrow(edge, c, nodes), |c.withs|);
    AllSimilar(Narrow(edge, c, nodes), Narrow(edge, d, nodes), db);
  }

  lemma {:induction false} LoadFromSimilar(q: Query, p: Query, i: nat, nodes: seq<Entity>, db: DB)
    requires Similar(q, p) && WellFormed(q) && WellFormed(p) && i <= |q.withs|
    requires forall n :: n in nodes ==> |n.slots| == |q.withs|
    ensures LoadFrom(q, i, nodes, db).1 == LoadFrom(p, i, nodes, db).1
    ensures SimilarSlots(LoadFrom(q, i, nodes, db).0, LoadFrom(p, i, nodes, db).0)
    decreases Depth(q), 0, |q.withs| - i, 1
  {
    if i < |q.withs| {
      if q.withs[i].None? {
        LoadFromSimilar(q, p, i + 1, nodes, db);
        SlotsCons(None, None, LoadFrom(q, i + 1, nodes, db).0, LoadFrom(p, i + 1, nodes, db).0);
      } else {
        var edge := EdgesOf(q.kind)[i];
        assert WellFormed(q.withs[i].value) && WellFormed(p.withs[i].value);
        NestedIsShallower(q, |q.withs|, i);
        LoadSimilar(edge, i, q.withs[i].value, p.withs[i].value, nodes, db);
        AfterLoadSimilar(q, p, i, nodes, db,
                         Load(edge, i, q.withs[i].value, nodes, db), Load(edge, i, p.withs[i].value, nodes, db));
      }
    }
  }

  lemma {:induction false} AfterLoadSimilar(q: Query, p: Query, i: nat, nodes: seq<Entity>, db: DB, a: Outcome, b: Outcome)
    requires Similar(q, p) && WellFormed(q) && WellFormed(p) && i < |q.withs| && q.withs[i].Some?
    requires forall n :: n in nodes ==> |n.slots| == |q.withs|
    requires a == Load(EdgesOf(q.kind)[i], i, q.withs[i].value, nodes, db)
    requires b == Load(EdgesOf(q.kind)[i], i, p.withs[i].value, nodes, db)
    requires a.result == b.result && Similar(a.query, b.query)
    ensures LoadFrom(q, i, nodes, db).1 == LoadFrom(p, i, nodes, db).1
    ensures SimilarSlots(LoadFrom(q, i, nodes, db).0, LoadFrom(p, i, nodes, db).0)
    decreases Depth(q), 0, |q.withs| - i, 0
  {
    LoadFromStep(q, i, nodes, db, a);
    LoadFromStep(p, i, nodes, db, b);
    if a.result.Ok? {
      var loaded := a.result.value;
      LoadFromSimilar(q, p, i + 1, loaded, db);
      SlotsCons(Some(a.query), Some(b.query), LoadFrom(q, i + 1, loaded, db).0, LoadFrom(p, i + 1, loaded, db).0);
    } else {
      SlotsCons(Some(a.query), Some(b.query), q.withs[i + 1..], p.withs[i + 1..]);
    }
  }

  // ---------- A second run ----------

  /** A run only appends predicates and updates nested queries. */
  lemma AllKeepsBuilder(q: Query, db: DB)
    requires WellFormed(q)
    ensures var r := All(q, db).query;
            r == q.(preds := q.preds + Traverse(q.inters).0, withs := r.withs) && |r.withs| == |q.withs|
  {
  }

  /** After a run, narrowing the nested query to the same keys again adds nothing new. */
  lemma NarrowAgain(edge: Edge, c: Query, nodes: seq<Entity>, db: DB)
    requires WellFormed(c)
    ensures var after := All(Narrow(edge, c, nodes), db).query; Similar(Narrow(edge, after, nodes), after)
  {
    var narrowed := Narrow(edge, c, nodes);
    var after := All(narrowed, db).query;
    var again := Narrow(edge, after, nodes);
    AllKeepsBuilder(narrowed, db);
    var keys := Keys(nodes, edge.SourceColumn());
    var used := if edge.Cardinality() == O2M then keys else Dedup(keys);
    Absorb(c.preds, [InValues(edge.TargetColumn(), used)], Traverse(c.inters).0);
    SlotsRefl(after.withs);
    assert forall i :: 0 <= i < |after.withs| ==> SimilarSlot(after.withs[i], after.withs[i]);
    assert again.fields == after.fields;
  }

  lemma {:induction false} LoadFromKeepsRequests(q: Query, i: nat, nodes: seq<Entity>, db: DB)
    requires WellFormed(q) && i <= |q.withs|
    requires forall n :: n in nodes ==> |n.slots| == |q.withs|
    ensures SameRequests(LoadFrom(q, i, nodes, db).0, q.withs[i..])
    decreases |q.withs| - i
  {
    if i < |q.withs| {
      assert q.withs[i..] == [q.withs[i]] + q.withs[i + 1..];
      if q.withs[i].None? {
        LoadFromKeepsRequests(q, i + 1, nodes, db);
        RequestsCons(None, None, LoadFrom(q, i + 1, nodes, db).0, q.withs[i + 1..]);
      } else {
        var load := Load(EdgesOf(q.kind)[i], i, q.withs[i].value, nodes, db);
        LoadFromStep(q, i, nodes, db, load);
        if load.result.Ok? {
          LoadFromKeepsRequests(q, i + 1, load.result.value, db);
          RequestsCons(Some(load.query), q.withs[i], LoadFrom(q, i + 1, load.result.value, db).0, q.withs[i + 1..]);
        } else {
          RequestsCons(Some(load.query), q.withs[i], q.withs[i + 1..], q.withs[i + 1..]);
        }
      }
    }
  }

  lemma RequestsCons(w: Option<Query>, v: Option<Query>, ws: seq<Option<Query>>, vs: seq<Option<Query>>)
    requires w.Some? == v.Some? && SameRequests(ws, vs)
    ensures SameRequests([w] + ws, [v] + vs)
  {
  }

  /** Running a query that a run left behind gives the same answer, and leaves an equivalent query. */
  lemma {:induction false} AllAgain(q: Query, db: DB)
    requires WellFormed(q)
    ensures var first := All(q, db);
            && WellFormed(first.query)
            && All(first.query, db).result == first.result
            && Similar(All(first.query, db).query, first.query)
    decreases Depth(q), 1, 0
  {
    var first := All(q, db).query;
    var (own, err) := PrepareOwn(q);
    var (own', err') := PrepareOwn(first);
    DepthOfNestingOnly(q, own, |q.withs|);
    AllWellFormed(q, db);
    AllKeepsBuilder(q, db);
    assert SamePreds(own.preds, own'.preds) by {
      Absorb(q.preds, Traverse(q.inters).0, []);
      assert own.preds + [] == own.preds;
    }
    assert err' == err;
    if err.None? {
      var from := Table(own.kind);
      SqlAllAgain(own, own', from, from, db);
      assert All(first, db) == SqlAll(own', from, db);
    } else {
      SlotsRefl(q.withs);
    }
  }

  lemma {:induction false} SqlAllAgain(q: Query, p: Query, f: From, g: From, db: DB)
    requires WellFormed(q) && WellFormed(p) && FromRows(f, db) == FromRows(g, db)
    requires p == q.(preds := p.preds, withs := SqlAll(q, f, db).query.withs) && SamePreds(q.preds, p.preds)
    ensures SqlAll(p, g, db).result == SqlAll(q, f, db).result
    ensures Similar(SqlAll(p, g, db).query, SqlAll(q, f, db).query)
    decreases Depth(q), 0, |q.withs| + 1
  {
    var rows := QueryNodes(Spec(q, f), db);
    var nodes := Map((r: Row) => NewEntity(q, r), rows);
    if nodes == [] {
      SlotsRefl(q.withs);
      SameNodes(q, p, f, g, db);
    } else {
      LoadFromKeepsRequests(q, 0, nodes, db);
      SameNodes(q, p, f, g, db);
      assert nodes == Map((r: Row) => NewEntity(p, r), rows);
      LoadFromAgain(q, p, 0, nodes, db);
    }
  }

  /** `p` is a prepared query whose slots from `i` on are the ones the loaders of `q` left behind. */
  lemma {:induction false} LoadFromAgain(q: Query, p: Query, i: nat, nodes: seq<Entity>, db: DB)
    requires WellFormed(q) && WellFormed(p) && p.kind == q.kind && i <= |q.withs|
    requires forall n :: n in nodes ==> |n.slots| == |q.withs|
    requires p.withs[i..] == LoadFrom(q, i, nodes, db).0
    ensures LoadFrom(p, i, nodes, db).1 == LoadFrom(q, i, nodes, db).1
    ensures SimilarSlots(LoadFrom(p, i, nodes, db).0, p.withs[i..])
    decreases Depth(q), 0, |q.withs| - i, 1
  {
    if i < |q.withs| {
      assert p.withs[i..][0] == p.withs[i] && p.withs[i..][1..] == p.withs[i + 1..];
      if q.withs[i].None? {
        LoadFromAgain(q, p, i + 1, nodes, db);
        SlotsCons(None, None, LoadFrom(p, i + 1, nodes, db).0, p.withs[i + 1..]);
      } else {
        var edge := EdgesOf(q.kind)[i];
        var child := q.withs[i].value;
        NestedIsShallower(q, |q.withs|, i);
        LoadAgain(edge, i, child, nodes, db);
        var a := Load(edge, i, child, nodes, db);
        AfterLoadAgain(q, p, i, nodes, db, a, Load(edge, i, a.query, nodes, db));
      }
    }
  }

  lemma {:induction false} AfterLoadAgain(q: Query, p: Query, i: nat, nodes: seq<Entity>, db: DB, a: Outcome, b: Outcome)
    requires WellFormed(q) && WellFormed(p) && p.kind == q.kind && i < |q.withs| && q.withs[i].Some?
    requires forall n :: n in nodes ==> |n.slots| == |q.withs|
    requires a == Load(EdgesOf(q.kind)[i], i, q.withs[i].value, nodes, db)
    requires WellFormed(a.query) && b == Load(EdgesOf(q.kind)[i], i, a.query, nodes, db)
    requires p.withs[i..] == LoadFrom(q, i, nodes, db).0
    requires p.withs[i] == Some(a.query)
    requires b.result == a.result && Similar(b.query, a.query)
    ensures LoadFrom(p, i, nodes, db).1 == LoadFrom(q, i, nodes, db).1
    ensures SimilarSlots(LoadFrom(p, i, nodes, db).0, p.withs[i..])
    decreases Depth(q), 0, |q.withs| - i, 0
  {
    var rest := p.withs[i + 1..];
    assert p.withs[i..] == [Some(a.query)] + rest;
    LoadFromStep(q, i, nodes, db, a);
    LoadFromStep(p, i, nodes, db, b);
    if a.result.Ok? {
      var loaded := a.result.value;
      assert rest == p.withs[i..][1..] == LoadFrom(q, i + 1, loaded, db).0;
      LoadFromAgain(q, p, i + 1, loaded, db);
      SlotsCons(Some(b.query), Some(a.query), LoadFrom(p, i + 1, loaded, db).0, rest);
    } else {
      SlotsRefl(rest);
      SlotsCons(Some(b.query), Some(a.query), rest, rest);
    }
  }

  lemma {:induction false} LoadAgain(edge: Edge, i: nat, child: Query, nodes: seq<Entity>, db: DB)
    requires WellFormed(child)
    requires forall n :: n in nodes ==> i < |n.slots|
    ensures var a := Load(edge, i, child, nodes, db);
            && WellFormed(a.query)
            && Load(edge, i, a.query, nodes, db).result == a.result
            && Similar(Load(edge, i, a.query, nodes, db).query, a.query)
    decreases Depth(child), 2, 0
  {
    var narrowed := Narrow(edge, child, nodes);
    DepthOfNestingOnly(child, narrowed, |child.withs|);
    var after := All(narrowed, db).query;
    var again := Narrow(edge, after, nodes);
    AllAgain(narrowed, db);
    NarrowAgain(edge, child, nodes, db);
    SimilarRefl(after);
    SimilarWellFormed(after, after);
    assert WellFormed(again);
    AllSimilar(again, after, db);
    SimilarTrans(All(again, db).query, All(after, db).query, after);
    LoadOfRun(edge, i, child, after, nodes, db);
  }

  /** What a loader returns depends on its nested query only through what the narrowed query's run returns. */
  lemma LoadOfRun(edge: Edge, i: nat, c: Query, d: Query, nodes: seq<Entity>, db: DB)
    requires WellFormed(c) && WellFormed(d)
    requires forall n :: n in nodes ==> i < |n.slots|
    requires All(Narrow(edge, c, nodes), db).result == All(Narrow(edge, d, nodes), db).result
    ensures Load(edge, i, c, nodes, db).result == Load(edge, i, d, nodes, db).result
    ensures Load(edge, i, c, nodes, db).query == All(Narrow(edge, c, nodes), db).query
    ensures Load(edge, i, d, nodes, db).query == All(Narrow(edge, d, nodes), db).query
  {
  }

  // ---------- Any number of runs of a traversal ----------

  /** Equal but for redundant predicates and for the nested queries, which a traversal source does not use. */
  ghost predicate FlatSame(q: Query, p: Query) {
    p == q.(preds := p.preds, withs := p.withs) && SamePreds(q.preds, p.preds)
  }

  ghost predicate FlatSameChain(cs: seq<Query>, ds: seq<Query>) {
    |cs| == |ds| && forall i :: 0 <= i < |cs| ==> FlatSame(cs[i], ds[i])
  }

  lemma FlatSameCons(c: Query, d: Query, cs: seq<Query>, ds: seq<Query>)
    requires FlatSame(c, d) && FlatSameChain(cs, ds)
    ensures FlatSameChain([c] + cs, [d] + ds)
  {
  }

  lemma PrepareOwnFlat(q: Query, p: Query)
    requires FlatSame(q, p)
    ensures FlatSame(PrepareOwn(q).0, PrepareOwn(p).0) && PrepareOwn(q).1 == PrepareOwn(p).1
  {
    SamePredsConcat(q.preds, p.preds, Traverse(q.inters).0);
  }

  lemma PrepareOwnTwice(q: Query)
    ensures FlatSame(PrepareOwn(PrepareOwn(q).0).0, PrepareOwn(q).0)
    ensures PrepareOwn(PrepareOwn(q).0).1 == PrepareOwn(q).1
  {
    Absorb(q.preds, Traverse(q.inters).0, []);
    assert q.preds + Traverse(q.inters).0 + [] == q.preds + Traverse(q.inters).0;
  }

  lemma {:induction false} PrepareFlat(cs: seq<Query>, ds: seq<Query>)
    requires cs != [] && FlatSameChain(cs, ds)
    ensures FlatSameChain(Prepare(cs).0, Prepare(ds).0) && Prepare(cs).1 == Prepare(ds).1
    ensures Prepare(cs).0[0] == PrepareOwn(cs[0]).0
  {
    PrepareOwnFlat(cs[0], ds[0]);
    var (c, err) := PrepareOwn(cs[0]);
    var (d, _) := PrepareOwn(ds[0]);
    if err.Some? {
      FlatSameCons(c, d, cs[1..], ds[1..]);
    } else if |cs| > 1 {
      PrepareFlat(cs[1..], ds[1..]);
      FlatSameCons(c, d, Prepare(cs[1..]).0, Prepare(ds[1..]).0);
    }
  }

  lemma FlatSameChainTrans(a: seq<Query>, b: seq<Query>, c: seq<Query>)
    requires FlatSameChain(a, b) && FlatSameChain(b, c)
    ensures FlatSameChain(a, c)
  {
    forall i | 0 <= i < |a| ensures FlatSame(a[i], c[i]) {
      FlatSameTrans(a[i], b[i], c[i]);
    }
  }

  lemma FlatSameTrans(a: Query, b: Query, c: Query)
    requires FlatSame(a, b) && FlatSame(b, c)
    ensures FlatSame(a, c)
  {
  }

  lemma FlatSameRefl(cs: seq<Query>)
    ensures FlatSameChain(cs, cs)
  {
  }

  lemma {:induction false} PrepareTwice(cs: seq<Query>)
    requires cs != []
    ensures FlatSameChain(Prepare(Prepare(cs).0).0, Prepare(cs).0) && Prepare(Prepare(cs).0).1 == Prepare(cs).1
  {
    PrepareOwnTwice(cs[0]);
    var (own, err) := PrepareOwn(cs[0]);
    var (own', _) := PrepareOwn(own);
    var prepared := Prepare(cs).0;
    if err.Some? {
      assert prepared[1..] == cs[1..];
      FlatSameRefl(cs[1..]);
      FlatSameCons(own', own, cs[1..], cs[1..]);
    } else if |cs| > 1 {
      var rest := Prepare(cs[1..]).0;
      assert prepared[1..] == rest;
      PrepareTwice(cs[1..]);
      FlatSameCons(own', own, Prepare(rest).0, rest);
    }
  }

  /** The rows a chain feeds to its outermost query depend only on what the queries' predicates mean. */
  lemma {:induction false} SourceAgrees(cs: seq<Query>, ds: seq<Query>, db: DB)
    requires cs != [] && FlatSameChain(cs, ds)
    ensures FromRows(Source(cs), db) == FromRows(Source(ds), db)
  {
    if |cs| > 1 && cs[0].via.Some? {
      SourceAgrees(cs[1..], ds[1..], db);
      assert cs[1] == cs[1..][0] && ds[1] == ds[1..][0];
      assert FlatSame(cs[1], ds[1]);
      var s, t := SqlQuery(cs[1], Source(cs[1..])), SqlQuery(ds[1], Source(ds[1..]));
      OrderedAgrees(s, t, db);
      assert Whole(s, db) == Whole(t, db);
    }
  }

  ghost predicate SimilarChains(cs: seq<Query>, ds: seq<Query>) {
    cs != [] && FlatSameChain(cs, ds) && Similar(cs[0], ds[0])
  }

  lemma AllOfSimilar(cs: seq<Query>, ds: seq<Query>, db: DB)
    requires SimilarChains(cs, ds) && WellFormed(cs[0]) && WellFormed(ds[0])
    ensures AllOf(cs, db).1 == AllOf(ds, db).1
    ensures SimilarChains(AllOf(cs, db).0, AllOf(ds, db).0)
  {
    PrepareFlat(cs, ds);
    PrepareFlat(ds, ds);
    var (cs', err) := Prepare(cs);
    var (ds', _) := Prepare(ds);
    PrepareOwnFlat(cs[0], ds[0]);
    assert FlatSame(cs'[0], ds'[0]);
    assert Similar(cs'[0], ds'[0]);
    if err.None? {
      SourceAgrees(cs', ds', db);
      SqlAllSimilar(cs'[0], ds'[0], Source(cs'), Source(ds'), db);
      FlatSameCons(SqlAll(cs'[0], Source(cs'), db).query, SqlAll(ds'[0], Source(ds'), db).query, cs'[1..], ds'[1..]);
    }
  }

  lemma AllOfAgain(cs: seq<Query>, db: DB)
    requires cs != [] && WellFormed(cs[0])
    ensures var first := AllOf(cs, db);
            && first.0 != [] && WellFormed(first.0[0])
            && AllOf(first.0, db).1 == first.1
            && SimilarChains(AllOf(first.0, db).0, first.0)
  {
    var (prepared, err) := Prepare(cs);
    PrepareTwice(cs);
    FlatSameRefl(cs);
    PrepareFlat(cs, cs);
    if err.Some? {
      FlatSameRefl(prepared);
      PrepareFlat(prepared, prepared);
      SlotsRefl(prepared[0].withs);
    } else {
      AllOfAgainPrepared(cs, prepared, db);
    }
  }

  lemma AllOfAgainPrepared(cs: seq<Query>, prepared: seq<Query>, db: DB)
    requires cs != [] && WellFormed(cs[0]) && Prepare(cs) == (prepared, None) && WellFormed(prepared[0])
    requires FlatSameChain(Prepare(prepared).0, prepared) && Prepare(prepared).1 == None
    ensures var first := AllOf(cs, db);
            && first.0 != [] && WellFormed(first.0[0])
            && AllOf(first.0, db).1 == first.1
            && SimilarChains(AllOf(first.0, db).0, first.0)
  {
    var run := SqlAll(prepared[0], Source(prepared), db);
    SqlAllWellFormed(prepared[0], Source(prepared), db);
    var left := [run.query] + prepared[1..];
    FlatSameRefl(prepared);
    assert FlatSameChain(left, prepared);
    PrepareFlat(left, prepared);
    var again := Prepare(left).0;
    FlatSameChainTrans(again, Prepare(prepared).0, prepared);
    SourceAgrees(prepared, again, db);
    SqlAllAgain(prepared[0], again[0], Source(prepared), Source(again), db);
    FlatSameCons(SqlAll(again[0], Source(again), db).query, run.query, again[1..], prepared[1..]);
  }

  /** The chain after `n` runs of `All` on its outermost query. */
  ghost function Runs(chain: seq<Query>, db: DB, n: nat): (r: seq<Query>)
    requires chain != [] && WellFormed(chain[0])
    ensures r != [] && WellFormed(r[0])
  {
    if n == 0 then chain else
      AllOfAgain(Runs(chain, db, n - 1), db);
      AllOf(Runs(chain, db, n - 1), db).0
  }

  /** However often `All` ran before over the same tables, it returns the same nodes with the same edges. */
  lemma {:induction false} RunsAgree(chain: seq<Query>, db: DB, n: nat)
    requires chain != [] && WellFormed(chain[0])
    ensures AllOf(Runs(chain, db, n), db).1 == AllOf(chain, db).1
    ensures n > 0 ==> SimilarChains(Runs(chain, db, n), Runs(chain, db, 1))
  {
    if n == 1 {
      AllOfAgain(chain, db);
      var once := Runs(chain, db, 1);
      assert once == AllOf(Runs(chain, db, 0), db).0;
      SimilarRefl(once[0]);
    } else if n > 1 {
      var before, once := Runs(chain, db, n - 1), Runs(chain, db, 1);
      RunsAgree(chain, db, n - 1);
      AllOfAgain(chain, db);
      assert once == AllOf(Runs(chain, db, 0), db).0;
      AllOfAgain(before, db);
      AllOfSimilar(before, once, db);
      var after, twice := Runs(chain, db, n), AllOf(once, db).0;
      SimilarTrans(after[0], twice[0], once[0]);
      forall i | 0 <= i < |after| ensures FlatSame(after[i], once[i]) {
        assert FlatSame(after[i], twice[i]) && FlatSame(twice[i], once[i]);
      }
    }
  }
}
