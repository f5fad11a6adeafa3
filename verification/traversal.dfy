/** Chained traversals (`QueryMembers().QueryUser()...`): what a chain of any length selects, and when it is accepted. */
module Traversal {
  import opened Common
  import opened Schema
  import opened Sequences
  import opened Selectors
  import opened Queries
  import opened EagerLoading
  import opened Decisions
  import H = Hooks
  import NestedLoop

  // ---------- Acceptance ----------

  ghost predicate Accepts(inter: Interceptor) {
    match inter
    case NilInterceptor => false
    case Plain(_) => true
    case Traverser(_, refusal) => refusal.None?
  }

  ghost predicate Acceptable(q: Query) {
    && (forall inter :: inter in q.inters ==> Accepts(inter))
    && (forall f :: f in q.fields ==> ValidColumn(q.kind, f))
  }

  lemma {:induction false} TraverseAccepts(inters: seq<Interceptor>)
    ensures Traverse(inters).1 == None <==> forall inter :: inter in inters ==> Accepts(inter)
  {
    if inters != [] {
      var rest := inters[1..];
      TraverseAccepts(rest);
      assert inters[0] in inters;
      assert forall inter :: inter in rest ==> inter in inters;
      assert forall inter :: inter in inters ==> inter == inters[0] || inter in rest;
      assert Traverse(inters).1 == None <==> Accepts(inters[0]) && Traverse(rest).1 == None;
    }
  }

  lemma {:induction false} FieldsAccepted(kind: Kind, fields: seq<string>)
    ensures FirstInvalid(kind, fields) == None <==> forall f :: f in fields ==> ValidColumn(kind, f)
  {
    if fields != [] {
      FieldsAccepted(kind, fields[1..]);
      assert forall f :: f in fields <==> f == fields[0] || f in fields[1..];
    }
  }

  /**
   * `prepareQuery` accepts a chain exactly when no query in it has a nil or refusing interceptor or an unknown field.
   * So whenever `withInterceptors` is reached, it calls no nil interceptor.
   */
  lemma {:induction false} PrepareAccepts(chain: seq<Query>)
    requires chain != []
    ensures Prepare(chain).1 == None <==> forall q :: q in chain ==> Acceptable(q)
  {
    TraverseAccepts(chain[0].inters);
    FieldsAccepted(chain[0].kind, chain[0].fields);
    assert chain[0] in chain;
    assert forall q :: q in chain[1..] ==> q in chain;
    assert forall q :: q in chain ==> q == chain[0] || q in chain[1..];
    assert PrepareOwn(chain[0]).1 == None <==> Acceptable(chain[0]);
    if |chain| > 1 {
      PrepareAccepts(chain[1..]);
    }
  }

  /** The first interceptor that does not let the query pass. */
  ghost predicate Stops(inters: seq<Interceptor>, k: nat) {
    k < |inters| && !Accepts(inters[k]) && forall i :: 0 <= i < k ==> Accepts(inters[i])
  }

  ghost predicate FirstUnknown(kind: Kind, fields: seq<string>, k: nat) {
    k < |fields| && fields[k] !in Columns(kind) && forall i :: 0 <= i < k ==> fields[i] in Columns(kind)
  }

  /** The error of a query on its own: that of its first refusing interceptor, or else its first unknown field. */
  ghost predicate Reports(q: Query, e: Error) {
    || (exists k: nat :: Stops(q.inters, k)
                    && e == if q.inters[k].NilInterceptor? then UninitializedInterceptor
                            else TraverseError(q.inters[k].refusal.value))
    || ((forall inter :: inter in q.inters ==> Accepts(inter))
        && exists k: nat :: FirstUnknown(q.kind, q.fields, k) && e == ValidationError(q.fields[k]))
  }

  lemma {:induction false} TraverseReports(inters: seq<Interceptor>) returns (k: nat)
    requires Traverse(inters).1.Some?
    ensures Stops(inters, k)
    ensures Traverse(inters).1.value ==
            if inters[k].NilInterceptor? then UninitializedInterceptor else TraverseError(inters[k].refusal.value)
  {
    k := 0;
    if Accepts(inters[0]) {
      var rest := inters[1..];
      k := TraverseReports(rest);
      assert inters == [inters[0]] + rest;
      k := k + 1;
    }
  }

  lemma {:induction false} FieldsReport(kind: Kind, fields: seq<string>) returns (k: nat)
    requires FirstInvalid(kind, fields).Some?
    ensures FirstUnknown(kind, fields, k) && FirstInvalid(kind, fields).value == ValidationError(fields[k])
  {
    k := 0;
    if ValidColumn(kind, fields[0]) {
      var rest := fields[1..];
      k := FieldsReport(kind, rest);
      assert fields == [fields[0]] + rest;
      k := k + 1;
    }
  }

  lemma OwnReports(q: Query)
    requires PrepareOwn(q).1.Some?
    ensures !Acceptable(q) && Reports(q, PrepareOwn(q).1.value)
  {
    TraverseAccepts(q.inters);
    FieldsAccepted(q.kind, q.fields);
    if Traverse(q.inters).1.Some? {
      var _ := TraverseReports(q.inters);
    } else {
      var _ := FieldsReport(q.kind, q.fields);
    }
  }

  /** A refused chain reports the first query, from the outside, that is not acceptable, and leaves the queries
      that feed that one as they were. */
  lemma {:induction false} PrepareReports(chain: seq<Query>) returns (i: nat)
    requires chain != [] && Prepare(chain).1.Some?
    ensures i < |chain| && !Acceptable(chain[i]) && forall j :: 0 <= j < i ==> Acceptable(chain[j])
    ensures Reports(chain[i], Prepare(chain).1.value)
    ensures forall j :: i < j < |chain| ==> Prepare(chain).0[j] == chain[j]
  {
    i := 0;
    if PrepareOwn(chain[0]).1.Some? {
      OwnReports(chain[0]);
    } else {
      PrepareAccepts([chain[0]]);
      assert chain[0] in [chain[0]];
      i := PrepareReports(chain[1..]);
      assert forall j :: 0 < j < |chain| ==> chain[j] == chain[1..][j - 1] && Prepare(chain).0[j] == Prepare(chain[1..]).0[j - 1];
      i := i + 1;
    }
  }

  /**
   * `All` up to its interceptors: `prepareQuery` on the whole chain, then `withInterceptors` on the interceptors it has
   * looked at. The latter has no guard of its own; that it never calls a nil interceptor follows from the former.
   */
  method Intercepted<V, W>(chain: seq<Query>, registered: seq<H.Hook<seq<Query>, V, W>>,
                           querier: H.Mutator<seq<Query>, V, W>, world: W)
    returns (r: Result<V>, after: W)
    requires chain != [] && |registered| == |chain[0].inters|
    requires forall i :: 0 <= i < |registered| ==> (registered[i].NilHook? <==> chain[0].inters[i].NilInterceptor?)
    ensures (exists q :: q in chain && !Acceptable(q)) ==> r.Err? && after == world
    ensures (forall q :: q in chain ==> Acceptable(q)) ==>
              && H.Initialized(registered)
              && var (v, w) := H.Compose(registered, querier)(H.Is(Prepare(chain).0), world);
                 r == H.Unwrap(v) && after == w
  {
    PrepareAccepts(chain);
    var (prepared, err) := Prepare(chain);
    if err.Some? {
      return Err(err.value), world;
    }
    forall i | 0 <= i < |registered| ensures registered[i].Hook? {
      assert chain[0] in chain && Acceptable(chain[0]) && chain[0].inters[i] in chain[0].inters;
    }
    r, after := H.WithInterceptors(prepared, querier, registered, world);
  }

  // ---------- Meaning ----------

  /** A trail through the tables: one row per query of the chain, outermost first, each related to the next. */
  ghost predicate Trail(chain: seq<Query>, trail: seq<Row>, db: DB) {
    && |trail| == |chain|
    && (forall i :: 0 <= i < |chain| ==> trail[i] in TableRows(db, chain[i].kind) && Holds(chain[i].preds, db, trail[i]))
    && (forall i :: 0 <= i < |chain| - 1 ==> chain[i].via.Some? && Related(chain[i].via.value, trail[i + 1], trail[i]))
  }

  /** No query that feeds another one has a limit or an offset. */
  ghost predicate Unwindowed(chain: seq<Query>) {
    forall i :: 1 <= i < |chain| ==> chain[i].limit.None? && chain[i].offset.None?
  }

  lemma {:induction false} ImageIn(edge: Edge, sources: seq<Row>, targets: seq<Row>, t: Row)
    ensures t in Image(edge, sources, targets) <==> t in targets && exists s :: s in sources && Related(edge, s, t)
  {
    if sources != [] {
      var p := (t: Row) => Related(edge, Last(sources), t);
      ImageIn(edge, Init(sources), targets, t);
      FilterIn(t => Related(edge, Last(sources), t), targets, t);
      assert sources == Init(sources) + [Last(sources)];
    }
  }

  lemma OrderedIn(sel: Selector, db: DB, r: Row)
    ensures r in Ordered(sel, db) <==> r in FromRows(sel.from, db) && Holds(sel.preds, db, r)
  {
    var filtered := Filter(Where(sel.preds, db), FromRows(sel.from, db));
    SortIn(Leq(sel.order, db), filtered, r);
    FilterIn(Where(sel.preds, db), FromRows(sel.from, db), r);
  }

  /** Removing duplicates or not, an unwindowed source has the same rows. */
  lemma WholeIn(sel: Selector, db: DB, r: Row)
    requires sel.offset.None? && sel.limit.None?
    ensures r in Whole(sel, db) <==> r in FromRows(sel.from, db) && Holds(sel.preds, db, r)
  {
    OrderedIn(sel, db, r);
    DedupIn(Ordered(sel, db), r);
    assert Whole(sel, db) == if sel.distinct then Dedup(Ordered(sel, db)) else Ordered(sel, db);
  }

  lemma TrailCons(chain: seq<Query>, head: Row, rest: seq<Row>, db: DB)
    requires |chain| > 1 && Trail(chain[1..], rest, db)
    requires head in TableRows(db, chain[0].kind) && Holds(chain[0].preds, db, head)
    requires chain[0].via.Some? && Related(chain[0].via.value, rest[0], head)
    ensures Trail(chain, [head] + rest, db)
  {
    var trail := [head] + rest;
    forall i | 0 <= i < |chain|
      ensures trail[i] in TableRows(db, chain[i].kind) && Holds(chain[i].preds, db, trail[i])
    {
      if i > 0 {
        assert chain[i] == chain[1..][i - 1] && trail[i] == rest[i - 1];
      }
    }
    forall i | 0 <= i < |chain| - 1
      ensures chain[i].via.Some? && Related(chain[i].via.value, trail[i + 1], trail[i])
    {
      if i > 0 {
        assert chain[i] == chain[1..][i - 1] && trail[i] == rest[i - 1];
      }
    }
  }

  lemma TrailTail(chain: seq<Query>, trail: seq<Row>, db: DB)
    requires |chain| > 1 && Trail(chain, trail, db)
    ensures Trail(chain[1..], trail[1..], db)
  {
  }

  /** `r` ends some trail through the chain. */
  ghost predicate Ends(chain: seq<Query>, r: Row, db: DB) {
    exists trail :: Trail(chain, trail, db) && trail != [] && trail[0] == r
  }

  lemma EndsTail(chain: seq<Query>, r: Row, db: DB) returns (s: Row)
    requires |chain| > 1 && chain[0].via.Some? && Ends(chain, r, db)
    ensures r in TableRows(db, chain[0].kind) && Holds(chain[0].preds, db, r)
    ensures Ends(chain[1..], s, db) && Related(chain[0].via.value, s, r)
  {
    var trail :| Trail(chain, trail, db) && trail != [] && trail[0] == r;
    TrailTail(chain, trail, db);
    s := trail[1];
    assert trail[1..][0] == s;
  }

  lemma EndsCons(chain: seq<Query>, r: Row, s: Row, db: DB)
    requires |chain| > 1 && chain[0].via.Some? && Ends(chain[1..], s, db) && Related(chain[0].via.value, s, r)
    requires r in TableRows(db, chain[0].kind) && Holds(chain[0].preds, db, r)
    ensures Ends(chain, r, db)
  {
    var rest :| Trail(chain[1..], rest, db) && rest != [] && rest[0] == s;
    TrailCons(chain, r, rest, db);
    assert ([r] + rest)[0] == r;
  }

  lemma EndsNext(chain: seq<Query>, r: Row, db: DB)
    requires IsChain(chain) && |chain| > 1
    ensures Ends(chain, r, db) <==>
            && r in TableRows(db, chain[0].kind) && Holds(chain[0].preds, db, r)
            && exists s :: Ends(chain[1..], s, db) && Related(chain[0].via.value, s, r)
  {
    if Ends(chain, r, db) {
      var _ := EndsTail(chain, r, db);
    }
    if s :| Ends(chain[1..], s, db) && Related(chain[0].via.value, s, r)
            && r in TableRows(db, chain[0].kind) && Holds(chain[0].preds, db, r) {
      EndsCons(chain, r, s, db);
    }
  }

  lemma ChainTail(chain: seq<Query>)
    requires IsChain(chain) && |chain| > 1
    ensures IsChain(chain[1..]) && (Unwindowed(chain) ==> Unwindowed(chain[1..]))
    ensures chain[1..][0] == chain[1]
  {
  }

  /**
   * The candidate rows of the outermost query of a chain of any length, with no window in between, are exactly the
   * ends of the trails: the composition of the edge relations, filtered at every hop. Neither orders nor unique flags
   * of the queries in between matter.
   */
  lemma {:induction false} ChainComposes(chain: seq<Query>, db: DB, r: Row)
    requires IsChain(chain) && Unwindowed(chain)
    ensures r in FromRows(Source(chain), db) && Holds(chain[0].preds, db, r) <==> Ends(chain, r, db)
  {
    if |chain| == 1 {
      if r in TableRows(db, chain[0].kind) && Holds(chain[0].preds, db, r) {
        assert Trail(chain, [r], db);
      }
    } else {
      ChainTail(chain);
      EndsNext(chain, r, db);
      var up, edge := SqlQuery(chain[1], Source(chain[1..])), chain[0].via.value;
      ImageIn(edge, Whole(up, db), TableRows(db, edge.Target()), r);
      forall s ensures s in Whole(up, db) <==> Ends(chain[1..], s, db) {
        WholeIn(up, db, s);
        ChainComposes(chain[1..], db, s);
      }
    }
  }

  /** What `All` returns for a prepared traversal: no duplicates unless they were asked for. */
  lemma TraversalHasNoDuplicates(chain: seq<Query>, db: DB)
    requires IsChain(chain) && |chain| > 1 && chain[0].unique != Some(false) && |chain[0].withs| == |EdgesOf(chain[0].kind)|
    ensures NoDuplicates(QueryNodes(Spec(chain[0], Source(chain)), db))
  {
    var sel := SpecSelector(Spec(chain[0], Source(chain)));
    assert sel.distinct;
    DedupNoDuplicates(Map(Projection(sel.columns), Ordered(sel, db)));
  }

  /** The rows `All` returns for a prepared, unwindowed traversal are the projected ends of the trails. */
  lemma TraversalRows(chain: seq<Query>, db: DB, p: Row)
    requires IsChain(chain) && Unwindowed(chain) && |chain[0].withs| == |EdgesOf(chain[0].kind)|
    requires chain[0].limit.None? && chain[0].offset.None?
    ensures p in QueryNodes(Spec(chain[0], Source(chain)), db)
            <==> exists r :: Ends(chain, r, db) && p == Project(r, SpecColumns(chain[0]))
  {
    var sel := SpecSelector(Spec(chain[0], Source(chain)));
    var rows := Map(Projection(sel.columns), Ordered(sel, db));
    DedupIn(rows, p);
    assert Denote(sel, db) == if sel.distinct then Dedup(rows) else rows;
    if p in rows {
      var i :| 0 <= i < |rows| && rows[i] == p;
      var r := Ordered(sel, db)[i];
      OrderedIn(sel, db, r);
      ChainComposes(chain, db, r);
    }
    if r :| Ends(chain, r, db) && p == Project(r, SpecColumns(chain[0])) {
      OrderedIn(sel, db, r);
      ChainComposes(chain, db, r);
      var i :| 0 <= i < |Ordered(sel, db)| && Ordered(sel, db)[i] == r;
      assert rows[i] == p;
    }
  }

  lemma SameTrail(chain: seq<Query>, other: seq<Query>, db: DB, trail: seq<Row>)
    requires |chain| == |other| && Trail(chain, trail, db)
    requires forall i :: 0 <= i < |chain| ==>
               chain[i].kind == other[i].kind && chain[i].preds == other[i].preds && chain[i].via == other[i].via
    ensures Trail(other, trail, db)
  {
    forall i | 0 <= i < |other|
      ensures trail[i] in TableRows(db, other[i].kind) && Holds(other[i].preds, db, trail[i])
    {
      assert chain[i].kind == other[i].kind;
    }
    forall i | 0 <= i < |other| - 1 ensures other[i].via.Some? && Related(other[i].via.value, trail[i + 1], trail[i]) {
      assert chain[i].via == other[i].via;
    }
  }

  lemma SameEnds(chain: seq<Query>, other: seq<Query>, db: DB, r: Row)
    requires |chain| == |other|
    requires forall i :: 0 <= i < |chain| ==>
               chain[i].kind == other[i].kind && chain[i].preds == other[i].preds && chain[i].via == other[i].via
    ensures Ends(chain, r, db) ==> Ends(other, r, db)
  {
    if Ends(chain, r, db) {
      var trail :| Trail(chain, trail, db) && trail != [] && trail[0] == r;
      SameTrail(chain, other, db, trail);
    }
  }

  /** Orders, unique flags, selected fields and eager edges of the queries in between do not change what a chain selects. */
  lemma InBetweenFlagsInvisible(chain: seq<Query>, other: seq<Query>, db: DB, r: Row)
    requires IsChain(chain) && Unwindowed(chain) && IsChain(other) && Unwindowed(other) && |chain| == |other|
    requires forall i :: 0 <= i < |chain| ==>
               chain[i].kind == other[i].kind && chain[i].preds == other[i].preds && chain[i].via == other[i].via
    ensures r in FromRows(Source(chain), db) && Holds(chain[0].preds, db, r)
            <==> r in FromRows(Source(other), db) && Holds(other[0].preds, db, r)
  {
    ChainComposes(chain, db, r);
    ChainComposes(other, db, r);
    SameEnds(chain, other, db, r);
    SameEnds(other, chain, db, r);
  }

  lemma {:induction false} PrepareKeepsChain(chain: seq<Query>)
    requires IsChain(chain)
    ensures IsChain(Prepare(chain).0)
    ensures forall i :: 0 <= i < |chain| ==> SameShape(chain[i], Prepare(chain).0[i])
  {
    if |chain| > 1 {
      ChainTail(chain);
      PrepareKeepsChain(chain[1..]);
      var prepared := Prepare(chain).0;
      forall i | 0 <= i < |chain| ensures SameShape(chain[i], prepared[i]) {
        if i > 0 && PrepareOwn(chain[0]).1.None? {
          assert prepared[i] == Prepare(chain[1..]).0[i - 1] && chain[i] == chain[1..][i - 1];
        }
      }
      assert Last(prepared).via == Last(chain).via;
    }
  }

  ghost predicate SameShape(q: Query, p: Query) {
    p == q.(preds := p.preds)
  }

  lemma PreparedStaysUnwindowed(chain: seq<Query>)
    requires IsChain(chain) && Unwindowed(chain)
    ensures IsChain(Prepare(chain).0) && Unwindowed(Prepare(chain).0)
  {
    PrepareKeepsChain(chain);
    var prepared := Prepare(chain).0;
    forall i | 1 <= i < |prepared| ensures prepared[i].limit.None? && prepared[i].offset.None? {
      assert SameShape(chain[i], prepared[i]);
    }
  }

  /** An accepted chain runs: it returns the rows its prepared form selects. */
  lemma AcceptedChainRuns(chain: seq<Query>, db: DB)
    requires IsChain(chain) && WellFormed(chain[0]) && HealthyBelow(chain[0])
    requires forall q :: q in chain ==> Acceptable(q)
    ensures var prepared := Prepare(chain).0;
            && prepared[0] == chain[0].(preds := prepared[0].preds) && WellFormed(prepared[0])
            && AllOf(chain, db).1.Ok?
            && RowsOf(AllOf(chain, db).1.value) == QueryNodes(Spec(prepared[0], Source(prepared)), db)
  {
    var prepared := Prepare(chain).0;
    PrepareAccepts(chain);
    PrepareKeepsChain(chain);
    assert SameShape(chain[0], prepared[0]);
    assert WellFormed(prepared[0]) && HealthyBelow(prepared[0]);
    HealthySqlAll(prepared[0], Source(prepared), db);
  }

  /**
   * `All` on an accepted, unwindowed traversal: the rows are the projected ends of the trails through the prepared
   * chain, each once.
   */
  lemma AllOfTraversal(chain: seq<Query>, db: DB, p: Row) returns (prepared: seq<Query>)
    requires IsChain(chain) && |chain| > 1 && Unwindowed(chain) && chain[0].limit.None? && chain[0].offset.None?
    requires WellFormed(chain[0]) && HealthyBelow(chain[0]) && chain[0].unique != Some(false)
    requires forall q :: q in chain ==> Acceptable(q)
    ensures prepared == Prepare(chain).0 && prepared != [] && WellFormed(prepared[0])
    ensures AllOf(chain, db).1.Ok? && NoDuplicates(RowsOf(AllOf(chain, db).1.value))
    ensures p in RowsOf(AllOf(chain, db).1.value)
            <==> exists r :: Ends(prepared, r, db) && p == Project(r, SpecColumns(prepared[0]))
  {
    prepared := Prepare(chain).0;
    AcceptedChainRuns(chain, db);
    PreparedStaysUnwindowed(chain);
    TraversalHasNoDuplicates(prepared, db);
    TraversalRows(prepared, db, p);
  }
}
