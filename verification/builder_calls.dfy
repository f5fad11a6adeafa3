/** What any sequence of builder calls and runs makes of a query, as values. */
module BuilderCalls {
  import opened Common
  import opened Schema
  import opened Sequences
  import opened Selectors
  import opened Queries
  import opened Decisions

  /** A call on a builder. `With` carries the interceptors registered for the edge's target and the options' calls. */
  datatype Call =
    | Where(ps: seq<Pred>) | Limit(n: nat) | Offset(n: nat) | Unique(b: bool) | Order(terms: seq<OrderTerm>)
    | Select(columns: seq<string>) | With(i: nat, inters: seq<Interceptor>, opts: seq<Call>)
    | All | First | Only | IDs | Exist

  predicate Setter(call: Call) {
    call.Where? || call.Limit? || call.Offset? || call.Unique? || call.Order? || call.Select?
  }

  predicate Run(call: Call) {
    call.All? || call.First? || call.Only? || call.IDs? || call.Exist?
  }

  function SetBy(q: Query, call: Call): (r: Query)
    requires Setter(call)
    ensures r.kind == q.kind && r.withs == q.withs && r.via == q.via
  {
    match call
    case Where(ps) => q.(preds := q.preds + ps)
    case Limit(n) => q.(limit := Some(n))
    case Offset(n) => q.(offset := Some(n))
    case Unique(b) => q.(unique := Some(b))
    case Order(terms) => q.(order := q.order + terms)
    case Select(columns) => q.(fields := q.fields + columns)
  }

  /** The chain a run leaves behind. */
  function RunBy(chain: seq<Query>, call: Call, db: DB): (r: seq<Query>)
    requires chain != [] && WellFormed(chain[0]) && Run(call)
  {
    match call
    case All => AllOf(chain, db).0
    case First => SameShapeWellFormed(chain[0], Limited(chain, Some(1))[0]); AllOf(Limited(chain, Some(1)), db).0
    case Only => SameShapeWellFormed(chain[0], Limited(chain, Some(2))[0]); AllOf(Limited(chain, Some(2)), db).0
    case IDs => IdsOf(chain, db).0
    case Exist => ExistOf(chain, db).0
  }

  lemma SameShapeWellFormed(q: Query, p: Query)
    requires WellFormed(q) && p.kind == q.kind && p.withs == q.withs
    ensures WellFormed(p)
  {
  }

  lemma AllOfWellFormed(chain: seq<Query>, db: DB)
    requires chain != [] && WellFormed(chain[0])
    ensures var r := AllOf(chain, db).0; r != [] && WellFormed(r[0]) && r[0].kind == chain[0].kind && r[0].via == chain[0].via
  {
    var (prepared, err) := Prepare(chain);
    SameShapeWellFormed(chain[0], prepared[0]);
    if err.None? {
      SqlAllWellFormed(prepared[0], Source(prepared), db);
    }
  }

  lemma RunByWellFormed(chain: seq<Query>, call: Call, db: DB)
    requires chain != [] && WellFormed(chain[0]) && Run(call)
    ensures var r := RunBy(chain, call, db); r != [] && WellFormed(r[0]) && r[0].kind == chain[0].kind && r[0].via == chain[0].via
  {
    match call
    case All => AllOfWellFormed(chain, db);
    case First =>
      SameShapeWellFormed(chain[0], Limited(chain, Some(1))[0]);
      AllOfWellFormed(Limited(chain, Some(1)), db);
    case Only =>
      SameShapeWellFormed(chain[0], Limited(chain, Some(2))[0]);
      AllOfWellFormed(Limited(chain, Some(2)), db);
    case IDs => SameShapeWellFormed(chain[0], IdsOf(chain, db).0[0]);
    case Exist => SameShapeWellFormed(chain[0], ExistOf(chain, db).0[0]);
  }

  /** A query as `NewXClient(...).Query()` makes it. */
  function NewQuery(kind: Kind, inters: seq<Interceptor>, via: Option<Edge>): (q: Query)
    ensures WellFormed(q)
  {
    Query(kind, [], None, None, None, [], inters, [], seq(|EdgesOf(kind)|, i => None), via)
  }

  /** The chain after a call on its outermost query. */
  function CallOf(chain: seq<Query>, call: Call, db: DB): (r: seq<Query>)
    requires chain != [] && WellFormed(chain[0])
    ensures r != [] && WellFormed(r[0]) && r[0].kind == chain[0].kind && r[0].via == chain[0].via
    decreases call, 1, 0
  {
    var q := chain[0];
    if Setter(call) then
      SameShapeWellFormed(q, SetBy(q, call));
      [SetBy(q, call)] + chain[1..]
    else if call.With? then
      if call.i >= |q.withs| then chain else
        var child := NestedOf(EdgesOf(q.kind)[call.i].Target(), call, |call.opts|, db)[0];
        [q.(withs := q.withs[call.i := Some(child)])] + chain[1..]
    else
      RunByWellFormed(chain, call, db);
      RunBy(chain, call, db)
  }

  /** The query a `With` call installs, after its first `n` options. */
  function NestedOf(kind: Kind, call: Call, n: nat, db: DB): (r: seq<Query>)
    requires call.With? && n <= |call.opts|
    ensures r != [] && WellFormed(r[0]) && r[0].kind == kind && r[0].via == None
    decreases call, 0, n
  {
    if n == 0 then [NewQuery(kind, call.inters, None)] else CallOf(NestedOf(kind, call, n - 1, db), call.opts[n - 1], db)
  }

  function CallsOf(chain: seq<Query>, calls: seq<Call>, db: DB): (r: seq<Query>)
    requires chain != [] && WellFormed(chain[0])
    ensures r != [] && WellFormed(r[0])
  {
    if calls == [] then chain else CallOf(CallsOf(chain, Init(calls), db), Last(calls), db)
  }

  lemma RunIsCall(chain: seq<Query>, call: Call, db: DB)
    requires chain != [] && WellFormed(chain[0]) && Run(call)
    ensures CallOf(chain, call, db) == RunBy(chain, call, db)
  {
  }

  /** A call that only configures the builder leaves the rest of its chain alone. */
  lemma ConfigureIsCall(chain: seq<Query>, call: Call, db: DB)
    requires chain != [] && WellFormed(chain[0]) && !Run(call)
    ensures CallOf(chain, call, db) == [CallOf([chain[0]], call, db)[0]] + chain[1..]
  {
    assert [chain[0]][1..] == [];
  }

  // ---------- What the calls amount to ----------

  function Wheres(calls: seq<Call>): seq<Pred> {
    if calls == [] then [] else Wheres(Init(calls)) + if Last(calls).Where? then Last(calls).ps else []
  }

  function Orders(calls: seq<Call>): seq<OrderTerm> {
    if calls == [] then [] else Orders(Init(calls)) + if Last(calls).Order? then Last(calls).terms else []
  }

  function Selects(calls: seq<Call>): seq<string> {
    if calls == [] then [] else Selects(Init(calls)) + if Last(calls).Select? then Last(calls).columns else []
  }

  function Limits(calls: seq<Call>): seq<nat> {
    if calls == [] then [] else Limits(Init(calls)) + if Last(calls).Limit? then [Last(calls).n] else []
  }

  function Offsets(calls: seq<Call>): seq<nat> {
    if calls == [] then [] else Offsets(Init(calls)) + if Last(calls).Offset? then [Last(calls).n] else []
  }

  function Uniques(calls: seq<Call>): seq<bool> {
    if calls == [] then [] else Uniques(Init(calls)) + if Last(calls).Unique? then [Last(calls).b] else []
  }

  function Withs(calls: seq<Call>, i: nat): seq<Call> {
    if calls == [] then [] else Withs(Init(calls), i) + if Last(calls).With? && Last(calls).i == i then [Last(calls)] else []
  }

  function Newest<T>(args: seq<T>, default: Option<T>): Option<T> {
    if args == [] then default else Some(Last(args))
  }

  /** The query that `WithX` installs: a new one of the edge's target, configured by the options. */
  function Installed(edge: Edge, call: Call, db: DB): Query
    requires call.With?
  {
    CallsOf([NewQuery(edge.Target(), call.inters, None)], call.opts, db)[0]
  }

  lemma {:induction false} NestedIsCalls(kind: Kind, call: Call, n: nat, db: DB)
    requires call.With? && n <= |call.opts|
    ensures NestedOf(kind, call, n, db) == CallsOf([NewQuery(kind, call.inters, None)], call.opts[..n], db)
  {
    if n > 0 {
      NestedIsCalls(kind, call, n - 1, db);
      assert Init(call.opts[..n]) == call.opts[..n - 1];
    }
  }

  lemma {:induction false} WithsAre(calls: seq<Call>, i: nat)
    ensures forall c :: c in Withs(calls, i) ==> c.With?
  {
    if calls != [] {
      WithsAre(Init(calls), i);
    }
  }

  /** Predicates, order terms and fields accumulate; of limits, offsets and flags the newest counts; an edge has the query of
      its newest `WithX`. Nothing else changes. */
  ghost predicate Configured(q: Query, calls: seq<Call>, r: Query, db: DB)
    requires WellFormed(q)
  {
    && r == FieldsConfigured(q, calls).(withs := r.withs)
    && |r.withs| == |q.withs|
    && forall i :: 0 <= i < |q.withs| ==> EdgeConfigured(q, calls, r, i, db)
  }

  function FieldsConfigured(q: Query, calls: seq<Call>): Query {
    Query(q.kind, q.fields + Selects(calls), Newest(Limits(calls), q.limit), Newest(Offsets(calls), q.offset),
          Newest(Uniques(calls), q.unique), q.order + Orders(calls), q.inters, q.preds + Wheres(calls), q.withs, q.via)
  }

  ghost predicate EdgeConfigured(q: Query, calls: seq<Call>, r: Query, i: nat, db: DB)
    requires WellFormed(q) && i < |q.withs| == |r.withs|
  {
    NewestInstalled(EdgesOf(q.kind)[i], q.withs[i], Withs(calls, i), r.withs[i], db)
  }

  ghost predicate NewestInstalled(edge: Edge, before: Option<Query>, calls: seq<Call>, after: Option<Query>, db: DB) {
    if calls == [] then after == before else Last(calls).With? && after == Some(Installed(edge, Last(calls), db))
  }

  /** Any calls but runs on the outermost query of a chain configure that query, and no other. */
  lemma {:induction false} CallsConfigure(chain: seq<Query>, calls: seq<Call>, db: DB)
    requires chain != [] && WellFormed(chain[0]) && forall c :: c in calls ==> !Run(c)
    ensures Configured(chain[0], calls, CallsOf(chain, calls, db)[0], db) && CallsOf(chain, calls, db)[1..] == chain[1..]
  {
    if calls != [] {
      var before := CallsOf(chain, Init(calls), db);
      assert calls == Init(calls) + [Last(calls)];
      CallsConfigure(chain, Init(calls), db);
      assert !Run(Last(calls));
      ConfiguredNext(chain[0], Init(calls), before[0], Last(calls), db);
      ConfigureIsCall(before, Last(calls), db);
      assert Init(calls) + [Last(calls)] == calls;
    }
  }

  lemma GatheredNext(calls: seq<Call>, call: Call)
    ensures var all := calls + [call];
            && Wheres(all) == Wheres(calls) + (if call.Where? then call.ps else [])
            && Orders(all) == Orders(calls) + (if call.Order? then call.terms else [])
            && Selects(all) == Selects(calls) + (if call.Select? then call.columns else [])
            && Limits(all) == Limits(calls) + (if call.Limit? then [call.n] else [])
            && Offsets(all) == Offsets(calls) + (if call.Offset? then [call.n] else [])
            && Uniques(all) == Uniques(calls) + (if call.Unique? then [call.b] else [])
  {
    assert Init(calls + [call]) == calls;
  }

  lemma Appended<T>(a: seq<T>, b: seq<T>, c: seq<T>)
    ensures a + (b + c) == a + b + c && a + [] == a
  {
  }

  lemma FieldsNext(q: Query, calls: seq<Call>, call: Call)
    ensures FieldsConfigured(q, calls + [call]) ==
            if Setter(call) then SetBy(FieldsConfigured(q, calls), call) else FieldsConfigured(q, calls)
  {
    GatheredNext(calls, call);
    match call
    case Where(ps) => Appended(q.preds, Wheres(calls), ps);
    case Order(terms) => Appended(q.order, Orders(calls), terms);
    case Select(columns) => Appended(q.fields, Selects(calls), columns);
    case _ =>
  }

  lemma WithsNext(calls: seq<Call>, call: Call, i: nat)
    ensures Withs(calls + [call], i) == Withs(calls, i) + if call.With? && call.i == i then [call] else []
  {
    assert Init(calls + [call]) == calls;
  }

  /** What a call does to the query it is made on. */
  lemma ConfiguredBy(r: Query, call: Call, db: DB)
    requires WellFormed(r) && !Run(call)
    ensures CallOf([r], call, db)[0] ==
            if Setter(call) then SetBy(r, call)
            else if call.i < |r.withs| then r.(withs := r.withs[call.i := Some(Installed(EdgesOf(r.kind)[call.i], call, db))])
            else r
  {
    if call.With? && call.i < |r.withs| {
      NestedIsCalls(EdgesOf(r.kind)[call.i].Target(), call, |call.opts|, db);
      assert call.opts[..|call.opts|] == call.opts;
    }
  }

  lemma EdgeNext(q: Query, calls: seq<Call>, r: Query, call: Call, s: Query, i: nat, db: DB)
    requires WellFormed(q) && i < |q.withs| == |r.withs| == |s.withs| && EdgeConfigured(q, calls, r, i, db)
    requires s.withs[i] == if call.With? && call.i == i then Some(Installed(EdgesOf(q.kind)[i], call, db)) else r.withs[i]
    ensures EdgeConfigured(q, calls + [call], s, i, db)
  {
    WithsNext(calls, call, i);
  }

  lemma ConfiguredNext(q: Query, calls: seq<Call>, r: Query, call: Call, db: DB)
    requires WellFormed(q) && WellFormed(r) && Configured(q, calls, r, db) && !Run(call)
    ensures Configured(q, calls + [call], CallOf([r], call, db)[0], db)
  {
    var s := CallOf([r], call, db)[0];
    ConfiguredBy(r, call, db);
    FieldsNext(q, calls, call);
    assert s == FieldsConfigured(q, calls + [call]).(withs := s.withs);
    forall i | 0 <= i < |q.withs| ensures EdgeConfigured(q, calls + [call], s, i, db) {
      EdgeNext(q, calls, r, call, s, i, db);
    }
  }
}
