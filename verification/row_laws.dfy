/**
 * The rows a run returns, from the fields of its query alone: which rows, in what order, with which columns, and which part
 * of them.
 */
module RowLaws {
  import opened Common
  import opened Schema
  import opened Sequences
  import opened Selectors
  import opened Queries
  import opened EagerLoading
  import opened NestedLoop
  import opened Decisions
  import opened Traversal
  import BuilderCalls
  import Rerun

  // ---------- Order ----------

  /** The rows have the same rank in every term. */
  predicate Ties(order: seq<OrderTerm>, db: DB, a: Row, b: Row) {
    forall i :: 0 <= i < |order| ==> order[i](db, a) == order[i](db, b)
  }

  /** In the first term in which the rows differ, if there is one, `a` has the smaller rank. */
  ghost predicate Before(order: seq<OrderTerm>, db: DB, a: Row, b: Row) {
    forall k :: 0 <= k < |order| && Ties(order[..k], db, a, b) ==> order[k](db, a) <= order[k](db, b)
  }

  function TiedWith(order: seq<OrderTerm>, db: DB, r: Row): Row -> bool {
    (a: Row) => Ties(order, db, a, r)
  }

  /** Rows that tie are in the same order in both. */
  ghost predicate TiesKept(order: seq<OrderTerm>, db: DB, xs: seq<Row>, ys: seq<Row>) {
    forall r: Row :: Filter(TiedWith(order, db, r), ys) == Filter(TiedWith(order, db, r), xs)
  }

  ghost predicate Ranked(order: seq<OrderTerm>, db: DB, ys: seq<Row>) {
    forall i, j :: 0 <= i < j < |ys| ==> Before(order, db, ys[i], ys[j])
  }

  /** `ys` is `xs` in order: rearranged by rank, rows that tie being left in the order they had. */
  ghost predicate Arranged(order: seq<OrderTerm>, db: DB, xs: seq<Row>, ys: seq<Row>) {
    multiset(ys) == multiset(xs) && Ranked(order, db, ys) && TiesKept(order, db, xs, ys)
  }

  lemma {:induction false} BeforeIsRanked(order: seq<OrderTerm>, db: DB, a: Row, b: Row)
    ensures RankedBefore(order, db, a, b) <==> Before(order, db, a, b)
  {
    if order != [] {
      var rest := order[1..];
      BeforeIsRanked(rest, db, a, b);
      assert Ties(order[..0], db, a, b);
      assert forall k :: 0 < k < |order| ==> order[k] == rest[k - 1] && order[..k] == [order[0]] + rest[..k - 1];
      if order[0](db, a) == order[0](db, b) {
        forall k | 0 < k < |order| ensures Ties(order[..k], db, a, b) <==> Ties(rest[..k - 1], db, a, b) {
          TiesCons(order[0], rest[..k - 1], db, a, b);
        }
        if Before(order, db, a, b) {
          forall k | 0 <= k < |rest| && Ties(rest[..k], db, a, b) ensures rest[k](db, a) <= rest[k](db, b) {
            assert Ties(order[..k + 1], db, a, b) && order[k + 1] == rest[k];
          }
        }
      } else {
        forall k | 0 < k < |order| ensures !Ties(order[..k], db, a, b) {
          assert order[..k][0] == order[0];
        }
      }
    }
  }

  lemma TiesCons(term: OrderTerm, rest: seq<OrderTerm>, db: DB, a: Row, b: Row)
    ensures Ties([term] + rest, db, a, b) <==> term(db, a) == term(db, b) && Ties(rest, db, a, b)
  {
    var order := [term] + rest;
    assert forall i :: 0 <= i < |rest| ==> order[i + 1] == rest[i];
    assert order[0] == term;
  }

  lemma TiesRank(order: seq<OrderTerm>, db: DB, a: Row, b: Row)
    ensures Ties(order, db, a, b) ==> Before(order, db, a, b) && Before(order, db, b, a)
    ensures Before(order, db, a, b) && Before(order, db, b, a) ==> Ties(order, db, a, b)
  {
    if Before(order, db, a, b) && Before(order, db, b, a) {
      for k := 0 to |order|
        invariant Ties(order[..k], db, a, b) && Ties(order[..k], db, b, a)
      {
        assert order[k](db, a) == order[k](db, b);
        assert forall i :: 0 <= i < k ==> order[..k + 1][i] == order[..k][i];
      }
      assert order[..|order|] == order;
    }
  }

  lemma {:induction false} SortTied(leq: (Row, Row) -> bool, rows: seq<Row>)
    requires forall a, b :: a in rows && b in rows ==> leq(a, b)
    ensures Sort(leq, rows) == rows
  {
    if rows != [] {
      SortTied(leq, Init(rows));
      assert Init(rows) != [] ==> Last(Init(rows)) in rows;
    }
  }

  lemma SortArranges(order: seq<OrderTerm>, db: DB, rows: seq<Row>)
    ensures Arranged(order, db, rows, Sort(Leq(order, db), rows))
  {
    var leq := Leq(order, db);
    var ys := Sort(leq, rows);
    LeqIsPreorder(order, db);
    SortSorted(leq, rows);
    SortMultiset(leq, rows);
    forall i, j | 0 <= i < j < |ys| ensures Before(order, db, ys[i], ys[j]) {
      assert leq(ys[i], ys[j]);
      BeforeIsRanked(order, db, ys[i], ys[j]);
    }
    forall r: Row ensures Filter(TiedWith(order, db, r), ys) == Filter(TiedWith(order, db, r), rows) {
      var tied := TiedWith(order, db, r);
      FilterSort(leq, tied, rows);
      forall a, b | a in Filter(tied, rows) && b in Filter(tied, rows) ensures leq(a, b) {
        FilterIn(tied, rows, a);
        FilterIn(tied, rows, b);
        TiesRank(order, db, a, b);
        BeforeIsRanked(order, db, a, b);
      }
      SortTied(leq, Filter(tied, rows));
    }
  }

  /** There is only one such arrangement. */
  lemma OneArrangement(order: seq<OrderTerm>, db: DB, xs: seq<Row>, ys: seq<Row>, zs: seq<Row>)
    requires Arranged(order, db, xs, ys) && Arranged(order, db, xs, zs)
    ensures ys == zs
  {
    SameArrangement(order, db, ys, zs);
  }

  lemma {:induction false} SameArrangement(order: seq<OrderTerm>, db: DB, ys: seq<Row>, zs: seq<Row>)
    requires multiset(ys) == multiset(zs) && Ranked(order, db, ys) && Ranked(order, db, zs) && TiesKept(order, db, ys, zs)
    ensures ys == zs
  {
    assert |ys| == |multiset(ys)| == |multiset(zs)| == |zs|;
    if ys != [] {
      SameLast(order, db, ys, zs);
      InitsKeepTies(order, db, ys, zs);
      InitsHaveTheSame(ys, zs);
      assert Ranked(order, db, Init(ys)) && Ranked(order, db, Init(zs));
      SameArrangement(order, db, Init(ys), Init(zs));
    }
  }

  lemma InitsHaveTheSame<T>(ys: seq<T>, zs: seq<T>)
    requires multiset(ys) == multiset(zs) && ys != [] && zs != [] && Last(ys) == Last(zs)
    ensures multiset(Init(ys)) == multiset(Init(zs))
  {
    assert ys == Init(ys) + [Last(ys)] && zs == Init(zs) + [Last(zs)];
    assert multiset(Init(ys)) == multiset(ys) - multiset{Last(ys)};
    assert multiset(Init(zs)) == multiset(zs) - multiset{Last(zs)};
  }

  lemma InitsKeepTies(order: seq<OrderTerm>, db: DB, ys: seq<Row>, zs: seq<Row>)
    requires TiesKept(order, db, ys, zs) && ys != [] && zs != [] && Last(ys) == Last(zs)
    ensures TiesKept(order, db, Init(ys), Init(zs))
  {
    forall r: Row ensures Filter(TiedWith(order, db, r), Init(ys)) == Filter(TiedWith(order, db, r), Init(zs)) {
      var tied := TiedWith(order, db, r);
      assert Filter(tied, ys) == Filter(tied, zs);
      if tied(Last(ys)) {
        assert Init(Filter(tied, ys)) == Filter(tied, Init(ys)) && Init(Filter(tied, zs)) == Filter(tied, Init(zs));
      }
    }
  }

  lemma SameLast(order: seq<OrderTerm>, db: DB, ys: seq<Row>, zs: seq<Row>)
    requires multiset(ys) == multiset(zs) && Ranked(order, db, ys) && Ranked(order, db, zs) && TiesKept(order, db, ys, zs)
    requires ys != [] && zs != []
    ensures Last(ys) == Last(zs)
  {
    var y, z := Last(ys), Last(zs);
    assert y in multiset(ys) && z in multiset(zs);
    RankedLast(order, db, ys, z);
    RankedLast(order, db, zs, y);
    TiesRank(order, db, y, z);
    var tied := TiedWith(order, db, y);
    assert tied(y) && tied(z);
    assert Last(Filter(tied, ys)) == y && Last(Filter(tied, zs)) == z;
    assert Filter(tied, ys) == Filter(tied, zs);
  }

  lemma RankedLast(order: seq<OrderTerm>, db: DB, ys: seq<Row>, r: Row)
    requires Ranked(order, db, ys) && r in ys
    ensures Before(order, db, r, Last(ys))
  {
    var i :| 0 <= i < |ys| && ys[i] == r;
    TiesRank(order, db, r, r);
  }

  // ---------- Columns and windows ----------

  /** `shown` are the rows `ys`, reduced to some columns, or whole. */
  ghost predicate Shows(columns: Option<set<string>>, ys: seq<Row>, shown: seq<Row>) {
    if columns.None? then shown == ys else
      && |shown| == |ys|
      && forall i :: 0 <= i < |ys| ==>
           && (forall c :: c in shown[i] <==> c in ys[i] && c in columns.value)
           && (forall c :: c in shown[i] ==> shown[i][c] == ys[i][c])
  }

  /** `rows` are those of `all` after the first `offset`, at most `limit` of them. */
  ghost predicate Part(rows: seq<Row>, all: seq<Row>, offset: nat, limit: Option<nat>) {
    && |rows| <= |all|
    && |rows| == (if |all| <= offset then 0
                  else if limit.Some? && limit.value < |all| - offset then limit.value
                  else |all| - offset)
    && forall i :: 0 <= i < |rows| ==> rows[i] == all[offset + i]
  }

  /** What a query has to offer before its window: its candidates in order, reduced to columns, de-duplicated if asked. */
  ghost predicate Offers(all: seq<Row>, candidates: seq<Row>, order: seq<OrderTerm>, columns: Option<set<string>>,
                         distinct: bool, db: DB) {
    exists ys, shown ::
      Arranged(order, db, candidates, ys) && Shows(columns, ys, shown) && all == if distinct then Dedup(shown) else shown
  }

  lemma SelectorOffers(sel: Selector, whole: bool, db: DB) returns (all: seq<Row>)
    ensures Offers(all, Filter(Where(sel.preds, db), FromRows(sel.from, db)), sel.order,
                   if whole then None else Some(set c | c in sel.columns), sel.distinct, db)
    ensures (if whole then Whole(sel, db) else Denote(sel, db)) == Window(all, sel.offset, sel.limit)
  {
    var ys := Ordered(sel, db);
    SortArranges(sel.order, db, Filter(Where(sel.preds, db), FromRows(sel.from, db)));
    var shown := if whole then ys else Map(Projection(sel.columns), ys);
    all := if sel.distinct then Dedup(shown) else shown;
    assert Shows(if whole then None else Some(set c | c in sel.columns), ys, shown);
  }

  lemma WindowIsPart(all: seq<Row>, offset: Option<nat>, limit: Option<nat>)
    ensures Part(Window(all, offset, limit), all, if offset.Some? then offset.value else 0, limit)
  {
  }

  lemma OneShowing(columns: Option<set<string>>, ys: seq<Row>, shown: seq<Row>, seen: seq<Row>)
    requires Shows(columns, ys, shown) && Shows(columns, ys, seen)
    ensures shown == seen
  {
    if columns.Some? {
      forall i | 0 <= i < |ys| ensures shown[i] == seen[i] {
        assert forall c :: c in shown[i] <==> c in seen[i];
      }
    }
  }

  /** There is only one answer. */
  lemma OneOffer(all: seq<Row>, others: seq<Row>, candidates: seq<Row>, order: seq<OrderTerm>, columns: Option<set<string>>,
                 distinct: bool, db: DB)
    requires Offers(all, candidates, order, columns, distinct, db) && Offers(others, candidates, order, columns, distinct, db)
    ensures all == others
  {
    var ys, shown :| Arranged(order, db, candidates, ys) && Shows(columns, ys, shown)
                     && all == if distinct then Dedup(shown) else shown;
    var zs, seen :| Arranged(order, db, candidates, zs) && Shows(columns, zs, seen)
                    && others == if distinct then Dedup(seen) else seen;
    OneArrangement(order, db, candidates, ys, zs);
    OneShowing(columns, ys, shown, seen);
  }

  // ---------- Candidates ----------

  /** The row satisfies the query's predicates and those every traverser of the query adds. */
  predicate Passes(q: Query, db: DB, r: Row) {
    && (forall i :: 0 <= i < |q.preds| ==> q.preds[i](db, r))
    && (forall k :: 0 <= k < |q.inters| && q.inters[k].Traverser? ==>
          forall i :: 0 <= i < |q.inters[k].adds| ==> q.inters[k].adds[i](db, r))
  }

  function Passing(q: Query, db: DB): Row -> bool {
    (r: Row) => Passes(q, db, r)
  }

  lemma {:induction false} TraverseAdds(inters: seq<Interceptor>, db: DB, r: Row)
    requires Traverse(inters).1 == None
    ensures Holds(Traverse(inters).0, db, r) <==>
            forall k :: 0 <= k < |inters| && inters[k].Traverser? ==> Holds(inters[k].adds, db, r)
  {
    if inters != [] {
      var rest := inters[1..];
      TraverseAdds(rest, db, r);
      assert forall k :: 0 < k < |inters| ==> inters[k] == rest[k - 1];
      assert (forall k :: 0 <= k < |inters| && inters[k].Traverser? ==> Holds(inters[k].adds, db, r)) <==>
             (inters[0].Traverser? ==> Holds(inters[0].adds, db, r)) && Holds(Traverse(rest).0, db, r) by {
        if (inters[0].Traverser? ==> Holds(inters[0].adds, db, r)) && Holds(Traverse(rest).0, db, r) {
          forall k | 0 <= k < |inters| && inters[k].Traverser? ensures Holds(inters[k].adds, db, r) {
            assert k > 0 ==> rest[k - 1] == inters[k];
          }
        }
        if forall k :: 0 <= k < |inters| && inters[k].Traverser? ==> Holds(inters[k].adds, db, r) {
          forall k | 0 <= k < |rest| && rest[k].Traverser? ensures Holds(rest[k].adds, db, r) {
            assert inters[k + 1] == rest[k];
          }
        }
      }
      if inters[0].Traverser? {
        Rerun.HoldsConcat(inters[0].adds, Traverse(rest).0, db, r);
      }
    }
  }

  /** Once accepted, the query selects by exactly these. */
  lemma PreparedPasses(q: Query, db: DB, r: Row)
    requires PrepareOwn(q).1 == None
    ensures Holds(PrepareOwn(q).0.preds, db, r) <==> Passes(q, db, r)
  {
    TraverseAdds(q.inters, db, r);
    Rerun.HoldsConcat(q.preds, Traverse(q.inters).0, db, r);
  }

  lemma PreparedCandidates(q: Query, source: seq<Row>, db: DB)
    requires PrepareOwn(q).1 == None
    ensures Filter(Where(PrepareOwn(q).0.preds, db), source) == Filter(Passing(q, db), source)
  {
    forall r ensures Where(PrepareOwn(q).0.preds, db)(r) == Passing(q, db)(r) {
      PreparedPasses(q, db, r);
    }
    FilterAgree(Where(PrepareOwn(q).0.preds, db), Passing(q, db), source);
  }

  /** The rows that the outermost query of an accepted chain chooses from. */
  function SourceRows(chain: seq<Query>, db: DB): seq<Row>
    requires chain != []
  {
    FromRows(Source(Prepare(chain).0), db)
  }

  function Candidates(chain: seq<Query>, db: DB): seq<Row>
    requires chain != []
  {
    Filter(Passing(chain[0], db), SourceRows(chain, db))
  }

  // ---------- All ----------

  /** The columns of a run: all of them, or the ID, the selected ones, and the foreign keys of the requested to-one edges. */
  function Fetched(q: Query): set<string>
    requires |q.withs| == |EdgesOf(q.kind)|
  {
    if q.fields == [] then set c | c in Columns(q.kind) else
      {"id"} + (set c | c in q.fields)
      + set i | 0 <= i < |q.withs| && q.withs[i].Some? && EdgesOf(q.kind)[i].Cardinality() == M2O :: EdgesOf(q.kind)[i].SourceColumn()
  }

  lemma {:induction false} WithKeysAre(q: Query, columns: seq<string>, n: nat, c: string)
    requires n <= |q.withs| && n <= |EdgesOf(q.kind)|
    ensures c in WithKeys(q, columns, n) <==>
            c in columns || exists i :: 0 <= i < n && q.withs[i].Some? && EdgesOf(q.kind)[i].Cardinality() == M2O
                                        && c == EdgesOf(q.kind)[i].SourceColumn()
  {
    if n > 0 {
      WithKeysAre(q, columns, n - 1, c);
    }
  }

  lemma FetchesExactly(q: Query)
    requires |q.withs| == |EdgesOf(q.kind)|
    ensures (set c | c in SpecColumns(q)) == Fetched(q)
  {
    forall c ensures c in SpecColumns(q) <==> c in Fetched(q) {
      if q.fields != [] {
        WithKeysAre(q, SelectedColumns(q.fields), |q.withs|, c);
        FilterIn(NotId, q.fields, c);
      }
    }
  }

  /** A run is distinct if so configured, and otherwise if it is a traversal. */
  predicate RunsDistinct(q: Query) {
    q.unique == Some(true) || (q.unique == None && q.via.Some?)
  }

  /** What `sqlAll` selects. */
  lemma SpecOffers(q: Query, from: From, db: DB) returns (all: seq<Row>)
    requires |q.withs| == |EdgesOf(q.kind)|
    ensures Offers(all, Filter(Where(q.preds, db), FromRows(from, db)), q.order, Some(Fetched(q)), RunsDistinct(q), db)
    ensures Part(QueryNodes(Spec(q, from), db), all, if q.offset.Some? then q.offset.value else 0,
                 if q.limit == Some(0) then None else q.limit)
  {
    var sel := SpecSelector(Spec(q, from));
    FetchesExactly(q);
    all := SelectorOffers(sel, false, db);
    WindowIsPart(all, sel.offset, sel.limit);
  }

  lemma {:induction false} LoadFromKeepsKind(q: Query, i: nat, nodes: seq<Entity>, db: DB)
    requires WellFormed(q) && i <= |q.withs|
    requires forall n :: n in nodes ==> |n.slots| == |q.withs| && n.kind == q.kind
    ensures var r := LoadFrom(q, i, nodes, db).1; r.Ok? ==> forall n :: n in r.value ==> n.kind == q.kind
    decreases |q.withs| - i
  {
    if i < |q.withs| {
      if q.withs[i].None? {
        LoadFromKeepsKind(q, i + 1, nodes, db);
      } else {
        var load := Load(EdgesOf(q.kind)[i], i, q.withs[i].value, nodes, db);
        if load.result.Ok? {
          assert forall k :: 0 <= k < |nodes| ==> nodes[k] in nodes && load.result.value[k].kind == nodes[k].kind;
          LoadFromKeepsKind(q, i + 1, load.result.value, db);
        }
      }
    }
  }

  lemma SqlAllKinds(q: Query, from: From, db: DB)
    requires WellFormed(q)
    ensures var r := SqlAll(q, from, db).result; r.Ok? ==> forall n :: n in r.value ==> n.kind == q.kind
  {
    LoadFromKeepsKind(q, 0, Map((r: Row) => NewEntity(q, r), QueryNodes(Spec(q, from), db)), db);
  }

  /**
   * A successful run returns its candidates ranked by the query's own order, ties in the order of the source, with the
   * columns that were asked for, once or as often as they occur, from its own offset on, and as many as its limit says
   * (zero being no limit).
   */
  lemma RunReturns(chain: seq<Query>, db: DB) returns (all: seq<Row>)
    requires chain != [] && WellFormed(chain[0]) && AllOf(chain, db).1.Ok?
    ensures forall n :: n in AllOf(chain, db).1.value ==> n.kind == chain[0].kind
    ensures var q := chain[0];
            && Offers(all, Candidates(chain, db), q.order, Some(Fetched(q)), RunsDistinct(q), db)
            && Part(RowsOf(AllOf(chain, db).1.value), all, if q.offset.Some? then q.offset.value else 0,
                    if q.limit == Some(0) then None else q.limit)
  {
    var prepared := Prepare(chain).0;
    var q := chain[0];
    PrepareHead(chain);
    assert PrepareOwn(q).1 == None && WellFormed(prepared[0]);
    assert Fetched(prepared[0]) == Fetched(q);
    SqlAllRows(prepared[0], Source(prepared), db);
    SqlAllKinds(prepared[0], Source(prepared), db);
    all := SpecOffers(prepared[0], Source(prepared), db);
    PreparedCandidates(q, SourceRows(chain, db), db);
  }

  /** With uniqueness switched off, a run without a window returns one row for each candidate, duplicates included. */
  lemma DuplicatesStay(chain: seq<Query>, db: DB)
    requires chain != [] && WellFormed(chain[0]) && AllOf(chain, db).1.Ok?
    requires chain[0].unique == Some(false) && chain[0].limit.None? && chain[0].offset.None?
    ensures |AllOf(chain, db).1.value| == |Candidates(chain, db)|
  {
    var all := RunReturns(chain, db);
    OffersAll(all, Candidates(chain, db), chain[0].order, Some(Fetched(chain[0])), db);
    assert |RowsOf(AllOf(chain, db).1.value)| == |AllOf(chain, db).1.value|;
  }

  lemma OffersAll(all: seq<Row>, candidates: seq<Row>, order: seq<OrderTerm>, columns: Option<set<string>>, db: DB)
    requires Offers(all, candidates, order, columns, false, db)
    ensures |all| == |candidates|
  {
    var ys, shown :| Arranged(order, db, candidates, ys) && Shows(columns, ys, shown) && all == shown;
    assert |ys| == |multiset(ys)| == |candidates|;
  }

  /** A query just made returns its table, with all columns. */
  lemma NewQueryReturns(kind: Kind, db: DB)
    ensures var run := AllOf([BuilderCalls.NewQuery(kind, [], None)], db).1;
            run.Ok? && Shows(Some(set c | c in Columns(kind)), TableRows(db, kind), RowsOf(run.value))
  {
    var q := BuilderCalls.NewQuery(kind, [], None);
    NewQueryRuns(q, db);
    var all := RunReturns([q], db);
    UnrestrictedOffers(TableRows(db, kind), all, Some(Fetched(q)), db);
    assert RowsOf(AllOf([q], db).1.value) == all;
  }

  lemma NewQueryRuns(q: Query, db: DB)
    requires q == BuilderCalls.NewQuery(q.kind, [], None)
    ensures AllOf([q], db).1.Ok? && Candidates([q], db) == TableRows(db, q.kind)
  {
    assert q.preds + [] == q.preds && [q][1..] == [];
    assert PrepareOwn(q) == (q, None) && Prepare([q]) == ([q], None);
    HealthySqlAll(q, Table(q.kind), db);
    FilterAgree(Passing(q, db), Anything(), TableRows(db, q.kind));
    FilterAnything(TableRows(db, q.kind));
  }

  /** Without order terms and uniqueness, the candidates come as they are. */
  lemma UnrestrictedOffers(candidates: seq<Row>, all: seq<Row>, columns: Option<set<string>>, db: DB)
    requires Offers(all, candidates, [], columns, false, db)
    ensures Shows(columns, candidates, all)
  {
    var ys, shown :| Arranged([], db, candidates, ys) && Shows(columns, ys, shown) && all == shown;
    SortArranges([], db, candidates);
    OneArrangement([], db, candidates, ys, Sort(Leq([], db), candidates));
    SortTied(Leq([], db), candidates);
  }

  function Anything(): Row -> bool {
    (r: Row) => true
  }

  lemma {:induction false} FilterAnything(rows: seq<Row>)
    ensures Filter(Anything(), rows) == rows
  {
    if rows != [] {
      FilterAnything(Init(rows));
    }
  }

  lemma {:induction false} DedupHead<T>(s: seq<T>)
    requires s != []
    ensures Dedup(s) != [] && Dedup(s)[0] == s[0]
  {
    if |s| > 1 {
      DedupHead(Init(s));
    }
  }

  /** The row `y`, reduced to the fetched columns. */
  ghost predicate Reduced(q: Query, y: Row, row: Row)
    requires |q.withs| == |EdgesOf(q.kind)|
  {
    (forall c :: c in row <==> c in y && c in Fetched(q)) && (forall c :: c in row ==> row[c] == y[c])
  }

  /** `y` comes first: it ranks before every candidate, and of those it ties with it is the first. */
  ghost predicate Leads(y: Row, candidates: seq<Row>, order: seq<OrderTerm>, db: DB) {
    && y in candidates
    && (forall r :: r in candidates ==> Before(order, db, y, r))
    && Filter(TiedWith(order, db, y), candidates) != []
    && Filter(TiedWith(order, db, y), candidates)[0] == y
  }

  lemma {:induction false} FilterHead<T>(p: T -> bool, s: seq<T>)
    requires s != [] && p(s[0])
    ensures Filter(p, s) != [] && Filter(p, s)[0] == s[0]
  {
    if |s| > 1 {
      FilterHead(p, Init(s));
    }
  }

  lemma ArrangedHead(order: seq<OrderTerm>, db: DB, xs: seq<Row>, ys: seq<Row>)
    requires Arranged(order, db, xs, ys) && ys != []
    ensures Leads(ys[0], xs, order, db)
  {
    var y := ys[0];
    assert y in multiset(ys);
    TiesRank(order, db, y, y);
    forall r | r in xs ensures Before(order, db, y, r) {
      assert r in multiset(xs) && r in multiset(ys);
      var i :| 0 <= i < |ys| && ys[i] == r;
    }
    FilterHead(TiedWith(order, db, y), ys);
  }

  /** `First` on a query without an offset returns the candidate that ranks first, or says that there is none. */
  lemma FirstIsLeast(chain: seq<Query>, db: DB)
    requires chain != [] && WellFormed(chain[0]) && chain[0].offset.None?
    ensures WellFormed(Limited(chain, Some(1))[0])
    ensures var q, run := chain[0], AllOf(Limited(chain, Some(1)), db).1;
            run.Ok? ==>
              if Candidates(chain, db) == [] then FirstOf(q.kind, run) == Err(NotFound(Label(q.kind)))
              else exists y :: Leads(y, Candidates(chain, db), q.order, db)
                               && FirstOf(q.kind, run).Ok? && Reduced(q, y, FirstOf(q.kind, run).value.row)
  {
    assert WellFormed(Limited(chain, Some(1))[0]);
    var run := AllOf(Limited(chain, Some(1)), db).1;
    if run.Ok? {
      var all := LimitedReturns(chain, db);
      OffersHead(chain[0], all, Candidates(chain, db), RunsDistinct(chain[0]), db);
      HeadOfPart(run.value, all);
    }
  }

  lemma LimitedReturns(chain: seq<Query>, db: DB) returns (all: seq<Row>)
    requires chain != [] && WellFormed(chain[0]) && chain[0].offset.None? && WellFormed(Limited(chain, Some(1))[0])
    requires AllOf(Limited(chain, Some(1)), db).1.Ok?
    ensures var q := chain[0];
            && Offers(all, Candidates(chain, db), q.order, Some(Fetched(q)), RunsDistinct(q), db)
            && Part(RowsOf(AllOf(Limited(chain, Some(1)), db).1.value), all, 0, Some(1))
  {
    var q, limited := chain[0], Limited(chain, Some(1));
    LimitedCandidates(chain, Some(1), db);
    all := RunReturns(limited, db);
    assert limited[0] == q.(limit := Some(1)) && Fetched(limited[0]) == Fetched(q);
  }

  lemma HeadOfPart(nodes: seq<Entity>, all: seq<Row>)
    requires Part(RowsOf(nodes), all, 0, Some(1))
    ensures nodes == [] <==> all == []
    ensures nodes != [] ==> nodes[0].row == all[0]
  {
    assert |RowsOf(nodes)| == |nodes|;
  }

  /** `First` and `Only` name the entity they did not find. */
  lemma NothingFound(chain: seq<Query>, db: DB)
    requires chain != [] && WellFormed(chain[0]) && chain[0].offset.None? && Candidates(chain, db) == []
    ensures WellFormed(Limited(chain, Some(1))[0])
    ensures var kind, run := chain[0].kind, AllOf(Limited(chain, Some(1)), db).1;
            run.Ok? ==>
              && (kind == Organization ==> FirstOf(kind, run) == OnlyOf(kind, run) == Err(NotFound("organization")))
              && (kind == OrgMember ==> FirstOf(kind, run) == OnlyOf(kind, run) == Err(NotFound("org_member")))
  {
    FirstIsLeast(chain, db);
  }

  lemma OffersHead(q: Query, all: seq<Row>, candidates: seq<Row>, distinct: bool, db: DB)
    requires |q.withs| == |EdgesOf(q.kind)| && Offers(all, candidates, q.order, Some(Fetched(q)), distinct, db)
    ensures all == [] <==> candidates == []
    ensures all != [] ==> exists y :: Leads(y, candidates, q.order, db) && Reduced(q, y, all[0])
  {
    var ys, shown :| Arranged(q.order, db, candidates, ys) && Shows(Some(Fetched(q)), ys, shown)
                     && all == if distinct then Dedup(shown) else shown;
    assert |ys| == |multiset(ys)| == |candidates|;
    if ys != [] {
      DedupHead(shown);
      ArrangedHead(q.order, db, candidates, ys);
      assert Reduced(q, ys[0], shown[0]);
    }
  }

  lemma LimitedCandidates(chain: seq<Query>, limit: Option<nat>, db: DB)
    requires chain != []
    ensures Candidates(Limited(chain, limit), db) == Candidates(chain, db)
    ensures SourceRows(Limited(chain, limit), db) == SourceRows(chain, db)
  {
    PrepareLimited(chain, limit);
    PrepareLimited(Prepare(chain).0, limit);
    FilterAgree(Passing(Limited(chain, limit)[0], db), Passing(chain[0], db), SourceRows(chain, db));
  }

  // ---------- Sources, IDs and Exist ----------

  /** A limit is mandatory next to an offset. */
  function SelectorLimit(q: Query): Option<nat> {
    if q.limit.None? && q.offset.Some? then Some(0x7fff_ffff) else q.limit
  }

  /** The columns a selector has: the selected ones, or all. */
  function Chosen(q: Query): set<string> {
    if q.fields == [] then set c | c in Columns(q.kind) else set c | c in q.fields
  }

  /** What `sqlQuery` selects, as whole rows for a traversal step, or the selected columns for `IDs`. */
  lemma QueryOffers(q: Query, from: From, whole: bool, db: DB) returns (all: seq<Row>)
    ensures Offers(all, Filter(Where(q.preds, db), FromRows(from, db)), q.order,
                   if whole then None else Some(Chosen(q)),
                   q.unique == Some(true), db)
    ensures Part(if whole then Whole(SqlQuery(q, from), db) else Denote(SqlQuery(q, from), db), all,
                 if q.offset.Some? then q.offset.value else 0, SelectorLimit(q))
  {
    var sel := SqlQuery(q, from);
    all := SelectorOffers(sel, whole, db);
    WindowIsPart(all, sel.offset, sel.limit);
  }

  /** An offset without a limit keeps the whole tail exactly if the tail has at most 2^31 - 1 rows. */
  lemma OffsetTail(q: Query, from: From, whole: bool, db: DB) returns (all: seq<Row>)
    requires q.offset.Some? && q.limit.None?
    ensures Offers(all, Filter(Where(q.preds, db), FromRows(from, db)), q.order,
                   if whole then None else Some(Chosen(q)),
                   q.unique == Some(true), db)
    ensures Part(if whole then Whole(SqlQuery(q, from), db) else Denote(SqlQuery(q, from), db), all, q.offset.value, None)
            <==> |all| <= q.offset.value + 0x7fff_ffff
  {
    all := QueryOffers(q, from, whole, db);
    var rows := if whole then Whole(SqlQuery(q, from), db) else Denote(SqlQuery(q, from), db);
    TailIsWhole(rows, all, q.offset.value, 0x7fff_ffff);
  }

  lemma TailIsWhole(rows: seq<Row>, all: seq<Row>, offset: nat, limit: nat)
    requires Part(rows, all, offset, Some(limit))
    ensures Part(rows, all, offset, None) <==> |all| <= offset + limit
  {
  }

  /**
   * The rows a query of an accepted chain chooses from: its table, or, on a traversal, those related to the rows of the query
   * before it: that one's candidates in its own order, distinct if so configured, from its own offset on, as many as its
   * limit says or, next to an offset, 2^31 - 1.
   */
  lemma SourceReturns(chain: seq<Query>, db: DB) returns (all: seq<Row>, rows: seq<Row>)
    requires IsChain(chain) && Prepare(chain).1 == None
    ensures |chain| == 1 ==> SourceRows(chain, db) == TableRows(db, chain[0].kind)
    ensures |chain| > 1 ==>
              var up, edge := chain[1], chain[0].via.value;
              && Offers(all, Candidates(chain[1..], db), up.order, None, up.unique == Some(true), db)
              && Part(rows, all, if up.offset.Some? then up.offset.value else 0, SelectorLimit(up))
              && SourceRows(chain, db) == Image(edge, rows, TableRows(db, edge.Target()))
  {
    all, rows := [], [];
    if |chain| > 1 {
      var rest := Prepare(chain[1..]).0;
      PrepareHead(chain);
      assert Prepare(chain).0 == [PrepareOwn(chain[0]).0] + rest && Prepare(chain).0[1..] == rest;
      PrepareHead(chain[1..]);
      assert PrepareOwn(chain[1]).1 == None;
      all := QueryOffers(rest[0], Source(rest), true, db);
      rows := Whole(SqlQuery(rest[0], Source(rest)), db);
      PreparedCandidates(chain[1], SourceRows(chain[1..], db), db);
    }
  }

  /** The columns `IDs` selects. */
  function SelectedWithId(q: Query): set<string> {
    (set c | c in q.fields) + {"id"}
  }

  lemma IdsPrepared(chain: seq<Query>, db: DB)
    requires chain != [] && Prepare(SelectIds(chain)).1 == None
    ensures var ids := Prepare(SelectIds(chain)).0;
            && ids[0] == SelectIds(chain)[0].(preds := ids[0].preds)
            && Filter(Where(ids[0].preds, db), FromRows(Source(ids), db)) == Candidates(chain, db)
  {
    var made := SelectIds(chain);
    PrepareHead(made);
    assert made[1..] == chain[1..] && made[0].kind == chain[0].kind && made[0].via == chain[0].via;
    PreparedCandidates(made[0], SourceRows(made, db), db);
    FieldsAccepted(made[0].kind, made[0].fields);
    FieldsAccepted(chain[0].kind, chain[0].fields);
    assert PrepareOwn(chain[0]).1 == None;
    assert Prepare(made).0[1..] == Prepare(chain).0[1..];
    assert SourceRows(made, db) == SourceRows(chain, db);
    FilterAgree(Passing(made[0], db), Passing(chain[0], db), SourceRows(chain, db));
  }

  /** The text of an ID cell, which is empty for NULL. */
  predicate IsIdOf(id: string, row: Row) {
    if "id" in row && row["id"].Str? then row["id"].s == id else id == ""
  }

  lemma ChosenWithId(q: Query, p: Query)
    requires p.fields == q.fields + [FIELD_ID]
    ensures Chosen(p) == SelectedWithId(q)
  {
  }

  lemma IdTextsAre(rows: seq<Row>)
    ensures |IdTexts(rows)| == |rows| && forall i :: 0 <= i < |rows| ==> IsIdOf(IdTexts(rows)[i], rows[i])
  {
  }

  /** The ID texts of the rows of `all` after the first `offset`, at most `limit` of them. */
  ghost predicate IdsOfPart(ids: seq<string>, all: seq<Row>, offset: nat, limit: Option<nat>) {
    exists rows :: Part(rows, all, offset, limit) && |ids| == |rows| && forall i :: 0 <= i < |ids| ==> IsIdOf(ids[i], rows[i])
  }

  lemma AnyIds(ids: seq<string>, all: seq<Row>, offset: nat)
    requires IdsOfPart(ids, all, offset, Some(1))
    ensures ids != [] <==> |all| > offset
  {
    var rows :| Part(rows, all, offset, Some(1)) && |ids| == |rows| && forall i :: 0 <= i < |ids| ==> IsIdOf(ids[i], rows[i]);
  }

  /** `IDs` returns the ID texts of the candidates in order, de-duplicated with the selected columns if the query is distinct,
      from its offset on, as many as its limit says or, next to an offset, 2^31 - 1. */
  lemma IdsReturn(chain: seq<Query>, db: DB) returns (all: seq<Row>)
    requires chain != [] && IdsOf(chain, db).1.Ok?
    ensures var q, ids := chain[0], IdsOf(chain, db).1.value;
            && Offers(all, Candidates(chain, db), q.order, Some(SelectedWithId(q)), RunsDistinct(q), db)
            && IdsOfPart(ids, all, if q.offset.Some? then q.offset.value else 0, SelectorLimit(q))
  {
    var q := chain[0];
    var prepared := Prepare(SelectIds(chain)).0;
    IdsPrepared(chain, db);
    all := QueryOffers(prepared[0], Source(prepared), false, db);
    var rows := Denote(SqlQuery(prepared[0], Source(prepared)), db);
    ChosenWithId(q, prepared[0]);
    IdTextsAre(rows);
  }

  /** Over keyed tables, no ID is returned twice, unless a traversal switched uniqueness off. */
  lemma IdsAreDistinct(chain: seq<Query>, db: DB)
    requires IsChain(chain) && IdsOf(chain, db).1.Ok? && Keyed(db)
    requires |chain| > 1 ==> chain[0].unique != Some(false)
    ensures NoDuplicates(IdsOf(chain, db).1.value)
  {
    var prepared := Prepare(SelectIds(chain)).0;
    var sel := SqlQuery(prepared[0], Source(prepared));
    IdsSelector(chain, sel);
    if |chain| == 1 {
      DenoteDistinctIds(sel, db);
    } else {
      TraversalIds(chain[0].via.value, sel, db);
    }
    DistinctTexts(Denote(sel, db));
  }

  lemma DistinctTexts(rows: seq<Row>)
    requires DistinctIds(rows)
    ensures NoDuplicates(IdTexts(rows))
  {
    forall i, j | 0 <= i < j < |rows| ensures IdTexts(rows)[i] != IdTexts(rows)[j] {
      assert Text(rows[i], FIELD_ID) != Text(rows[j], FIELD_ID);
    }
  }

  lemma IdsSelector(chain: seq<Query>, sel: Selector)
    requires chain != [] && (|chain| > 1 <==> chain[0].via.Some?)
    requires sel == SqlQuery(Prepare(SelectIds(chain)).0[0], Source(Prepare(SelectIds(chain)).0))
    ensures FIELD_ID in sel.columns
    ensures |chain| == 1 ==> sel.from == Table(chain[0].kind)
    ensures |chain| > 1 ==> sel.from.Neighbors? && sel.from.edge == chain[0].via.value
    ensures |chain| > 1 && chain[0].unique != Some(false) ==> sel.distinct
  {
    PrepareHead(SelectIds(chain));
    var q, columns := chain[0], chain[0].fields + [FIELD_ID];
    if q.unique.Some? && !q.unique.value {
      assert q.unique == Some(false);
    }
    assert columns[|chain[0].fields|] == FIELD_ID && sel.columns == columns;
  }

  lemma TraversalIds(edge: Edge, sel: Selector, db: DB)
    requires Keyed(db) && sel.from.Neighbors? && sel.from.edge == edge && sel.distinct && FIELD_ID in sel.columns
    ensures DistinctIds(Denote(sel, db))
  {
    var shown := Map(Projection(sel.columns), Ordered(sel, db));
    var all, table := Dedup(shown), TableRows(db, edge.Target());
    DedupNoDuplicates(shown);
    forall i, j | 0 <= i < j < |all| ensures Text(all[i], FIELD_ID) != Text(all[j], FIELD_ID) {
      var y := TraversedRow(edge, sel, all[i], db);
      var z := TraversedRow(edge, sel, all[j], db);
      var m :| 0 <= m < |table| && table[m] == y;
      var n :| 0 <= n < |table| && table[n] == z;
      assert m != n;
    }
    WindowDistinctIds(all, sel.offset, sel.limit);
  }

  lemma TraversedRow(edge: Edge, sel: Selector, shown: Row, db: DB) returns (y: Row)
    requires sel.from.Neighbors? && sel.from.edge == edge && FIELD_ID in sel.columns
    requires shown in Dedup(Map(Projection(sel.columns), Ordered(sel, db)))
    ensures y in TableRows(db, edge.Target()) && shown == Project(y, sel.columns) && Text(shown, FIELD_ID) == Text(y, FIELD_ID)
  {
    var rows := Map(Projection(sel.columns), Ordered(sel, db));
    DedupIn(rows, shown);
    var i :| 0 <= i < |rows| && rows[i] == shown;
    y := Ordered(sel, db)[i];
    OrderedIn(sel, db, y);
    ImageIn(edge, Whole(sel.from.upstream, db), TableRows(db, edge.Target()), y);
  }

  /** `Exist` is true exactly if the query offers more rows than its offset skips, whatever its limit; if preparing the query
      fails, that is reported as a failure to check. */
  lemma ExistDecides(chain: seq<Query>, db: DB) returns (all: seq<Row>)
    requires chain != []
    ensures var q, err := chain[0], Prepare(chain).1;
            if err.Some? then ExistOf(chain, db).1 == Err(CheckExistence(err.value)) else
              && Offers(all, Candidates(chain, db), q.order, Some(SelectedWithId(q)), RunsDistinct(q), db)
              && ExistOf(chain, db).1 == Ok(|all| > if q.offset.Some? then q.offset.value else 0)
  {
    all := [];
    LimitedIds(chain, db);
    SelectingIdsIsAccepted(chain);
    if Prepare(chain).1.None? {
      all := LimitedIdsReturn(chain, db);
    }
  }

  lemma LimitedIdsReturn(chain: seq<Query>, db: DB) returns (all: seq<Row>)
    requires chain != [] && IdsOf(Limited(chain, Some(1)), db).1.Ok?
    ensures var q := chain[0];
            && Offers(all, Candidates(chain, db), q.order, Some(SelectedWithId(q)), RunsDistinct(q), db)
            && (IdsOf(Limited(chain, Some(1)), db).1.value != [] <==> |all| > if q.offset.Some? then q.offset.value else 0)
  {
    var q, limited := chain[0], Limited(chain, Some(1));
    LimitedCandidates(chain, Some(1), db);
    all := IdsReturn(limited, db);
    assert limited[0] == q.(limit := Some(1)) && SelectedWithId(limited[0]) == SelectedWithId(q);
    AnyIds(IdsOf(limited, db).1.value, all, if q.offset.Some? then q.offset.value else 0);
  }

  lemma {:induction false} IdIsValid(kind: Kind, fields: seq<string>)
    ensures FirstInvalid(kind, fields + [FIELD_ID]) == FirstInvalid(kind, fields)
  {
    if fields == [] {
      assert Columns(kind)[0] == FIELD_ID && [FIELD_ID][1..] == [];
    } else {
      IdIsValid(kind, fields[1..]);
      assert (fields + [FIELD_ID])[1..] == fields[1..] + [FIELD_ID];
    }
  }

  /** Selecting the ID as well is never what fails. */
  lemma SelectingIdsIsAccepted(chain: seq<Query>)
    requires chain != []
    ensures Prepare(SelectIds(chain)).1 == Prepare(chain).1
  {
    IdIsValid(chain[0].kind, chain[0].fields);
    assert SelectIds(chain)[1..] == chain[1..];
  }

  lemma LimitedIds(chain: seq<Query>, db: DB)
    requires chain != []
    ensures var err, ids := Prepare(SelectIds(chain)).1, IdsOf(Limited(chain, Some(1)), db).1;
            && (err.Some? ==> ExistOf(chain, db).1 == Err(CheckExistence(err.value)))
            && (err.None? ==> ids.Ok? && ExistOf(chain, db).1 == Ok(ids.value != []))
  {
    assert SelectIds(Limited(chain, Some(1))) == Limited(SelectIds(chain), Some(1));
    PrepareLimited(SelectIds(chain), Some(1));
  }
}
