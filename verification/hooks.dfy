/**
 * Hooks and interceptors: how a list of wrappers is composed around an operation.
 *
 * A mutator takes a mutation and the state of the world, and returns a value or an error and the world it leaves behind.
 * `M` is the builder's mutation type and `V` its value type; hooks may also hand over mutations and values of other types.
 */
module Hooks {
  import opened Common

  /** An `any`: a value of the expected type, or of some other one. */
  datatype Any<+T> = Is(value: T) | Other

  type Mutator<!M, !V, !W> = (Any<M>, W) -> (Result<Any<V>>, W)

  datatype Hook<!M, !V, !W> = NilHook | Hook(wrap: Mutator<M, V, W> -> Mutator<M, V, W>)

  /** The mutator that sets the builder's mutation and runs its operation. */
  function Base<M, V, W>(exec: (M, W) -> (Result<V>, W)): Mutator<M, V, W> {
    (m: Any<M>, w: W) =>
      if m.Other? then (Err(UnexpectedMutationType), w) else
        var (r, after) := exec(m.value, w);
        (match r case Ok(v) => Ok(Is(v)) case Err(e) => Err(e), after)
  }

  /** The value a builder returns for what its outermost mutator returned. */
  function Unwrap<V>(r: Result<Any<V>>): Result<V> {
    match r
    case Err(e) => Err(e)
    case Ok(Other) => Err(UnexpectedNodeType)
    case Ok(Is(v)) => Ok(v)
  }

  ghost predicate Initialized<M, V, W>(hooks: seq<Hook<M, V, W>>) {
    forall i :: 0 <= i < |hooks| ==> hooks[i].Hook?
  }

  /** The first hook is the outermost one. */
  function Compose<M, V, W>(hooks: seq<Hook<M, V, W>>, inner: Mutator<M, V, W>): Mutator<M, V, W>
    requires Initialized(hooks)
  {
    if hooks == [] then inner else hooks[0].wrap(Compose(hooks[1..], inner))
  }

  /** `withHooks`. With an uninitialized hook anywhere in the list the operation does not run and the world is untouched. */
  method WithHooks<M, V, W>(exec: (M, W) -> (Result<V>, W), mutation: M, hooks: seq<Hook<M, V, W>>, world: W)
    returns (r: Result<V>, after: W)
    ensures !Initialized(hooks) ==> r == Err(UninitializedHook) && after == world
    ensures Initialized(hooks) ==>
              var (v, w) := Compose(hooks, Base(exec))(Is(mutation), world);
              r == Unwrap(v) && after == w
  {
    if |hooks| == 0 {
      var (v, w) := exec(mutation, world);
      return v, w;
    }
    var mut := Base(exec);
    var i := |hooks|;
    while i > 0
      invariant 0 <= i <= |hooks|
      invariant Initialized(hooks[i..]) && mut == Compose(hooks[i..], Base(exec))
    {
      i := i - 1;
      if hooks[i].NilHook? {
        return Err(UninitializedHook), world;
      }
      assert hooks[i..][1..] == hooks[i + 1..];
      mut := hooks[i].wrap(mut);
    }
    assert hooks[0..] == hooks;
    var (v, w) := mut(Is(mutation), world);
    after := w;
    if v.Err? {
      return Err(v.error), after;
    }
    if v.value.Other? {
      return Err(UnexpectedNodeType), after;
    }
    r := Ok(v.value.value);
  }

  /** Without hooks, the operation runs on the builder's mutation and its outcome is the outcome. */
  lemma NoHooks<M, V, W>(exec: (M, W) -> (Result<V>, W), mutation: M, world: W)
    ensures var (v, w) := Compose([], Base(exec))(Is(mutation), world);
            (Unwrap(v), w) == exec(mutation, world)
  {
    var (r, after) := exec(mutation, world);
    assert Base(exec)(Is(mutation), world) == (match r case Ok(v) => Ok(Is(v)) case Err(e) => Err(e), after);
  }

  /** `withInterceptors`: the same composition without a guard, so it may only be called with initialized interceptors. */
  method WithInterceptors<Q, V, W>(query: Q, querier: Mutator<Q, V, W>, inters: seq<Hook<Q, V, W>>, world: W)
    returns (r: Result<V>, after: W)
    requires Initialized(inters)
    ensures var (v, w) := Compose(inters, querier)(Is(query), world);
            r == Unwrap(v) && after == w
  {
    var qr := querier;
    var i := |inters|;
    while i > 0
      invariant 0 <= i <= |inters|
      invariant qr == Compose(inters[i..], querier)
    {
      i := i - 1;
      assert inters[i..][1..] == inters[i + 1..];
      qr := inters[i].wrap(qr);
    }
    assert inters[0..] == inters;
    var (v, w) := qr(Is(query), world);
    after := w;
    if v.Err? {
      return Err(v.error), after;
    }
    if v.value.Other? {
      return Err(UnexpectedNodeType), after;
    }
    r := Ok(v.value.value);
  }

  /** Registering `f` and then `g` composes like registering both at once: later hooks are inside earlier ones. */
  lemma {:induction false} ComposeConcat<M, V, W>(f: seq<Hook<M, V, W>>, g: seq<Hook<M, V, W>>, inner: Mutator<M, V, W>)
    requires Initialized(f) && Initialized(g)
    ensures Initialized(f + g) && Compose(f + g, inner) == Compose(f, Compose(g, inner))
  {
    if f == [] {
      assert f + g == g;
    } else {
      ComposeConcat(f[1..], g, inner);
      assert (f + g)[1..] == f[1..] + g && (f + g)[0] == f[0];
    }
  }

  // ---------- Onion order ----------

  /** A hook that calls its next mutator once, between an action of its own before and one after. */
  datatype Layer<!M, !V, !W> = Layer(
    before: (Any<M>, W) -> (Any<M>, W),
    after: (Result<Any<V>>, W) -> (Result<Any<V>>, W))

  function Around<M, V, W>(l: Layer<M, V, W>): Hook<M, V, W> {
    Hook((next: Mutator<M, V, W>) =>
      (m: Any<M>, w: W) =>
        var (m1, w1) := l.before(m, w);
        var (r, w2) := next(m1, w1);
        l.after(r, w2))
  }

  function Hooked<M, V, W>(layers: seq<Layer<M, V, W>>): (hooks: seq<Hook<M, V, W>>)
    ensures |hooks| == |layers| && Initialized(hooks)
  {
    seq(|layers|, i requires 0 <= i < |layers| => Around(layers[i]))
  }

  /** All the actions before, from the first layer to the last. */
  function Enter<M, V, W>(layers: seq<Layer<M, V, W>>, m: Any<M>, w: W): (Any<M>, W) {
    if layers == [] then (m, w) else
      var (m1, w1) := Enter(layers[..|layers| - 1], m, w);
      layers[|layers| - 1].before(m1, w1)
  }

  /** All the actions after, from the last layer to the first. */
  function Leave<M, V, W>(layers: seq<Layer<M, V, W>>, r: Result<Any<V>>, w: W): (Result<Any<V>>, W) {
    if layers == [] then (r, w) else
      var (r1, w1) := Leave(layers[1..], r, w);
      layers[0].after(r1, w1)
  }

  lemma {:induction false} EnterFirst<M, V, W>(layers: seq<Layer<M, V, W>>, m: Any<M>, w: W)
    requires layers != []
    ensures Enter(layers, m, w) == var (m1, w1) := layers[0].before(m, w); Enter(layers[1..], m1, w1)
  {
    if |layers| == 1 {
      assert layers[..0] == [] && layers[1..] == [];
    } else {
      var shorter := layers[..|layers| - 1];
      EnterFirst(shorter, m, w);
      assert shorter[1..] == layers[1..][..|layers[1..]| - 1];
    }
  }

  /** The onion: every layer enters in order, the operation runs on what they made of the mutation, and every layer leaves
      in reverse order. */
  lemma {:induction false} Onion<M, V, W>(layers: seq<Layer<M, V, W>>, inner: Mutator<M, V, W>, m: Any<M>, w: W)
    ensures Compose(Hooked(layers), inner)(m, w) ==
            var (m1, w1) := Enter(layers, m, w);
            var (r, w2) := inner(m1, w1);
            Leave(layers, r, w2)
  {
    if layers != [] {
      assert Hooked(layers)[1..] == Hooked(layers[1..]);
      var (m1, w1) := layers[0].before(m, w);
      Onion(layers[1..], inner, m1, w1);
      EnterFirst(layers, m, w);
    }
  }

  datatype Event = Entered(i: nat) | Ran | Left(i: nat)

  /** The layer that only records when it is entered and left. */
  function Tracing<M, V>(i: nat): Layer<M, V, seq<Event>> {
    Layer((m: Any<M>, w: seq<Event>) => (m, w + [Entered(i)]),
          (r: Result<Any<V>>, w: seq<Event>) => (r, w + [Left(i)]))
  }

  function TracingFrom<M, V>(lo: nat, hi: nat): (layers: seq<Layer<M, V, seq<Event>>>)
    requires lo <= hi
    ensures |layers| == hi - lo
  {
    seq(hi - lo, i requires 0 <= i < hi - lo => Tracing<M, V>(lo + i))
  }

  function Entries(lo: nat, hi: nat): (r: seq<Event>)
    requires lo <= hi
    ensures |r| == hi - lo && forall i :: 0 <= i < hi - lo ==> r[i] == Entered(lo + i)
  {
    seq(hi - lo, i requires 0 <= i < hi - lo => Entered(lo + i))
  }

  function Exits(lo: nat, hi: nat): (r: seq<Event>)
    requires lo <= hi
    ensures |r| == hi - lo && forall i :: 0 <= i < hi - lo ==> r[i] == Left(hi - 1 - i)
  {
    seq(hi - lo, i requires 0 <= i < hi - lo => Left(hi - 1 - i))
  }

  lemma {:induction false} EnterTrace<M, V>(lo: nat, hi: nat, m: Any<M>, w: seq<Event>)
    requires lo <= hi
    ensures Enter<M, V, seq<Event>>(TracingFrom(lo, hi), m, w) == (m, w + Entries(lo, hi))
    decreases hi - lo
  {
    if lo < hi {
      EnterTrace<M, V>(lo, hi - 1, m, w);
      var layers := TracingFrom<M, V>(lo, hi);
      assert layers[..|layers| - 1] == TracingFrom<M, V>(lo, hi - 1);
      assert layers[|layers| - 1] == Tracing<M, V>(hi - 1);
      var before := Tracing<M, V>(hi - 1).before;
      assert before(m, w + Entries(lo, hi - 1)) == (m, w + Entries(lo, hi - 1) + [Entered(hi - 1)]);
      assert w + Entries(lo, hi - 1) + [Entered(hi - 1)] == w + Entries(lo, hi);
    } else {
      assert w + Entries(lo, hi) == w;
    }
  }

  lemma {:induction false} LeaveTrace<M, V>(lo: nat, hi: nat, r: Result<Any<V>>, w: seq<Event>)
    requires lo <= hi
    ensures Leave<M, V, seq<Event>>(TracingFrom(lo, hi), r, w) == (r, w + Exits(lo, hi))
    decreases hi - lo
  {
    if lo < hi {
      LeaveTrace<M, V>(lo + 1, hi, r, w);
      var layers := TracingFrom<M, V>(lo, hi);
      assert layers[1..] == TracingFrom<M, V>(lo + 1, hi);
      assert layers[0] == Tracing<M, V>(lo);
      var after := Tracing<M, V>(lo).after;
      assert after(r, w + Exits(lo + 1, hi)) == (r, w + Exits(lo + 1, hi) + [Left(lo)]);
      assert w + Exits(lo + 1, hi) + [Left(lo)] == w + Exits(lo, hi);
    } else {
      assert w + Exits(lo, hi) == w;
    }
  }

  function Recording<M, V>(result: Result<Any<V>>): Mutator<M, V, seq<Event>> {
    (m: Any<M>, w: seq<Event>) => (result, w + [Ran])
  }

  /** For any number of hooks: h0 to h(n-1) are entered in that order, the operation runs once, h(n-1) to h0 are left. */
  lemma TraceOrder<M, V>(n: nat, result: Result<Any<V>>, m: Any<M>, w: seq<Event>)
    ensures Compose(Hooked(TracingFrom<M, V>(0, n)), Recording<M, V>(result))(m, w) ==
            (result, w + Entries(0, n) + [Ran] + Exits(0, n))
  {
    Onion(TracingFrom<M, V>(0, n), Recording<M, V>(result), m, w);
    EnterTrace<M, V>(0, n, m, w);
    LeaveTrace<M, V>(0, n, result, w + Entries(0, n) + [Ran]);
  }
}
