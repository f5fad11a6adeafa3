/**
 * `OrgMemberCreateBulk.Save`: a chain of mutators in continuation style. Mutator `i` runs the hooks of builder `i`, checks
 * and plans its row, and calls mutator `i + 1`; only the last one writes, and completion flags are set on the way back.
 */
module BulkCreate {
  import opened Common
  import opened Sequences
  import opened Members

  /**
   * A hook that calls its next mutator once with the same mutation: it may edit that mutation first, or refuse it without
   * calling on, and it may replace the result afterwards.
   */
  datatype Hook = Hook(edit: Mutation -> Result<Mutation>, finish: Result<Member> -> Result<Member>)

  datatype DbError = DbError(constraint: bool, cause: Error)

  type Batch = seq<Option<CreateSpec>>

  /** Builders are named by the index of their mutation, so one builder may occur repeatedly. `hooks` has their hooks;
      `db` is what the database answers to a batch, which it writes entirely or not at all. */
  datatype Job = Job(builders: seq<nat>, hooks: seq<seq<Hook>>, db: Batch -> Option<DbError>)

  datatype State = State(
    muts: seq<Mutation>,
    specs: Batch,
    nodes: seq<Option<Member>>,
    batches: seq<Batch>)

  ghost predicate Sound(job: Job, builders: nat) {
    |job.hooks| == builders && forall i :: 0 <= i < |job.builders| ==> job.builders[i] < builders
  }

  ghost predicate Fits(job: Job, s: State) {
    Sound(job, |s.muts|) && |s.specs| == |s.nodes| == |job.builders|
  }

  /** Hooks cannot reach the completion flag. */
  function Edit(h: Hook, m: Mutation): Result<Mutation> {
    match h.edit(m)
    case Err(e) => Err(e)
    case Ok(edited) => Ok(edited.(done := m.done))
  }

  function Wrapped(e: DbError): Error {
    if e.constraint then ConstraintError(e.cause) else e.cause
  }

  /** `BatchCreate` on everything planned so far. */
  function Write(job: Job, s: State): (State, Option<Error>) {
    (s.(batches := s.batches + [s.specs]), match job.db(s.specs) case None => None case Some(e) => Some(Wrapped(e)))
  }

  /** The node and the spec of builder `i` are in place. */
  function Slotted(s: State, i: nat, m: Mutation): State
    requires i < |s.specs| == |s.nodes|
  {
    s.(nodes := s.nodes[i := Some(NodeOf(m))], specs := s.specs[i := Some(SpecOf(m))])
  }

  /** What mutator `i` does after mutator `i + 1` has returned, or the database has answered. */
  function Complete(job: Job, s: State, i: nat, m: Mutation, err: Option<Error>): (State, Result<Member>)
    requires i < |job.builders| && job.builders[i] < |s.muts|
  {
    var b := job.builders[i];
    if err.Some? then (s, Err(err.value))
    else (s.(muts := s.muts[b := s.muts[b].(id := Some(NodeOf(m).id), done := true)]), Ok(NodeOf(m)))
  }

  /** Mutator `i` from its `h`-th hook on. */
  function Run(job: Job, s: State, i: nat, h: nat): (out: (State, Result<Member>))
    requires Fits(job, s) && i < |job.builders| && h <= |job.hooks[job.builders[i]]|
    ensures Fits(job, out.0) && |out.0.muts| == |s.muts|
    ensures out.0.nodes[..i] == s.nodes[..i] && out.0.specs[..i] == s.specs[..i]
    decreases |job.builders| - i, |job.hooks[job.builders[i]]| - h
  {
    var b := job.builders[i];
    if h < |job.hooks[b]| then
      match Edit(job.hooks[b][h], s.muts[b])
      case Err(e) => (s, Err(e))
      case Ok(m) =>
        var (s1, r) := Run(job, s.(muts := s.muts[b := m]), i, h + 1);
        (s1, job.hooks[b][h].finish(r))
    else if Check(s.muts[b]).Some? then (s, Err(Check(s.muts[b]).value))
    else
      var s1 := Slotted(s, i, s.muts[b]);
      var (s2, err) :=
        if i + 1 < |job.builders| then
          var (t, r) := Run(job, s1, i + 1, 0);
          assert t.nodes[..i] == t.nodes[..i + 1][..i] && t.specs[..i] == t.specs[..i + 1][..i];
          assert s1.nodes[..i] == s1.nodes[..i + 1][..i] && s1.specs[..i] == s1.specs[..i + 1][..i];
          (t, if r.Err? then Some(r.error) else None)
        else Write(job, s1);
      Complete(job, s2, i, s.muts[b], err)
  }

  function DefaultsUpTo(job: Job, muts: seq<Mutation>, clock: nat -> int, n: nat): (r: seq<Mutation>)
    requires Sound(job, |muts|) && n <= |job.builders|
    ensures |r| == |muts|
  {
    if n == 0 then muts else
      var rest := DefaultsUpTo(job, muts, clock, n - 1);
      var b := job.builders[n - 1];
      rest[b := Defaults(rest[b], clock(2 * n - 2), clock(2 * n - 1))]
  }

  /** The state in which the first mutator is called. */
  function Start(job: Job, muts: seq<Mutation>, batches: seq<Batch>, clock: nat -> int): (s: State)
    requires Sound(job, |muts|)
    ensures Fits(job, s)
  {
    var n := |job.builders|;
    State(DefaultsUpTo(job, muts, clock, n), seq(n, i => None), seq(n, i => None), batches)
  }

  class OrgMemberCreateBulk {
    const job: Job
    const err: Option<Error>
    const muts: array<Mutation>
    var batches: seq<Batch>

    constructor (job: Job, err: Option<Error>, muts: array<Mutation>)
      requires Sound(job, muts.Length)
      ensures this.job == job && this.err == err && this.muts == muts && batches == []
    {
      this.job, this.err, this.muts, batches := job, err, muts, [];
    }

    method Save(clock: nat -> int) returns (r: Result<seq<Option<Member>>>)
      requires Sound(job, muts.Length)
      modifies muts, this`batches
      ensures err.Some? || job.builders == [] ==> muts[..] == old(muts[..]) && batches == old(batches)
      ensures err.Some? ==> r == Err(err.value)
      ensures err.None? && job.builders == [] ==> r == Ok([])
      ensures err.None? && job.builders != [] ==>
                var (s, v) := Run(job, Start(job, old(muts[..]), old(batches), clock), 0, 0);
                && muts[..] == s.muts && batches == s.batches
                && r == match v case Err(e) => Err(e) case Ok(_) => Ok(s.nodes)
    {
      if err.Some? {
        return Err(err.value);
      }
      var n := |job.builders|;
      var specs := new Option<CreateSpec>[n](i => None);
      var nodes := new Option<Member>[n](i => None);
      for i := 0 to n
        invariant muts[..] == DefaultsUpTo(job, old(muts[..]), clock, i)
        invariant batches == old(batches)
        invariant forall j :: 0 <= j < n ==> specs[j] == None && nodes[j] == None
      {
        var b := job.builders[i];
        muts[b] := Defaults(muts[b], clock(2 * i), clock(2 * i + 1));
      }
      if n > 0 {
        ghost var start := Start(job, old(muts[..]), old(batches), clock);
        assert specs[..] == start.specs && nodes[..] == start.nodes;
        var v := Mutate(specs, nodes, 0, 0);
        if v.Err? {
          return Err(v.error);
        }
      }
      assert n == 0 ==> nodes[..] == [];
      r := Ok(nodes[..]);
    }

    ghost function Now(specs: array<Option<CreateSpec>>, nodes: array<Option<Member>>): State
      reads this, muts, specs, nodes
    {
      State(muts[..], specs[..], nodes[..], batches)
    }

    method Mutate(specs: array<Option<CreateSpec>>, nodes: array<Option<Member>>, i: nat, h: nat) returns (r: Result<Member>)
      requires Fits(job, Now(specs, nodes)) && i < |job.builders| && h <= |job.hooks[job.builders[i]]|
      modifies muts, specs, nodes, this`batches
      ensures (Now(specs, nodes), r) == Run(job, old(Now(specs, nodes)), i, h)
      decreases |job.builders| - i, |job.hooks[job.builders[i]]| - h
    {
      var b := job.builders[i];
      if h < |job.hooks[b]| {
        var edited := Edit(job.hooks[b][h], muts[b]);
        if edited.Err? {
          return Err(edited.error);
        }
        muts[b] := edited.value;
        r := Mutate(specs, nodes, i, h + 1);
        r := job.hooks[b][h].finish(r);
      } else {
        var failure := Check(muts[b]);
        if failure.Some? {
          return Err(failure.value);
        }
        var node, spec := BuildSpec(muts[b]);
        nodes[i], specs[i] := Some(node), Some(spec);
        if i + 1 < |job.builders| {
          var inner := Mutate(specs, nodes, i + 1, 0);
          if inner.Err? {
            return Err(inner.error);
          }
        } else {
          batches := batches + [specs[..]];
          var refused := job.db(specs[..]);
          if refused.Some? {
            return Err(Wrapped(refused.value));
          }
        }
        muts[b] := muts[b].(id := Some(node.id), done := true);
        r := Ok(node);
      }
    }
  }

  // ---------- The plain form: plan everything, then write once ----------

  /** A mutation after the hooks' edits, if none refuses it and it passes its checks. */
  function Prepared(hooks: seq<Hook>, m: Mutation): Result<Mutation> {
    if hooks == [] then
      if Check(m).Some? then Err(Check(m).value) else Ok(m)
    else
      match Edit(hooks[0], m)
      case Err(e) => Err(e)
      case Ok(edited) => Prepared(hooks[1..], edited)
  }

  /** The mutations to be written for builder `i` and those after it, or the first failure among them. */
  function Plan(job: Job, muts: seq<Mutation>, i: nat, h: nat): Result<seq<Mutation>>
    requires Sound(job, |muts|) && i < |job.builders| && h <= |job.hooks[job.builders[i]]|
    decreases |job.builders| - i
  {
    var b := job.builders[i];
    match Prepared(job.hooks[b][h..], muts[b])
    case Err(e) => Err(e)
    case Ok(m) =>
      if i + 1 == |job.builders| then Ok([m]) else
        match Plan(job, muts[b := m], i + 1, 0)
        case Err(e) => Err(e)
        case Ok(rest) => Ok([m] + rest)
  }

  function Planned(ms: seq<Mutation>): Batch {
    Map((m: Mutation) => Some(SpecOf(m)), ms)
  }

  function Built(ms: seq<Mutation>): seq<Option<Member>> {
    Map((m: Mutation) => Some(NodeOf(m)), ms)
  }

  lemma PlanStep(job: Job, muts: seq<Mutation>, i: nat, h: nat)
    requires Sound(job, |muts|) && i < |job.builders| && h < |job.hooks[job.builders[i]]|
    ensures var b := job.builders[i];
            Plan(job, muts, i, h) ==
            match Edit(job.hooks[b][h], muts[b])
            case Err(e) => Err(e)
            case Ok(m) => Plan(job, muts[b := m], i, h + 1)
  {
    var b := job.builders[i];
    assert job.hooks[b][h..][1..] == job.hooks[b][h + 1..] && job.hooks[b][h..][0] == job.hooks[b][h];
    match Edit(job.hooks[b][h], muts[b])
    case Err(_) =>
    case Ok(m) =>
      match Prepared(job.hooks[b][h + 1..], m)
      case Err(_) =>
      case Ok(last) => assert muts[b := m][b := last] == muts[b := last];
  }

  lemma {:induction false} PlanPasses(job: Job, muts: seq<Mutation>, i: nat, h: nat)
    requires Sound(job, |muts|) && i < |job.builders| && h <= |job.hooks[job.builders[i]]|
    requires Plan(job, muts, i, h).Ok?
    ensures |Plan(job, muts, i, h).value| == |job.builders| - i
    ensures forall j :: 0 <= j < |job.builders| - i ==> Check(Plan(job, muts, i, h).value[j]) == None
    decreases |job.builders| - i, |job.hooks[job.builders[i]]| - h
  {
    var b := job.builders[i];
    if h < |job.hooks[b]| {
      PlanStep(job, muts, i, h);
      PlanPasses(job, muts[b := Edit(job.hooks[b][h], muts[b]).value], i, h + 1);
    } else {
      assert job.hooks[b][h..] == [];
      if i + 1 < |job.builders| {
        assert muts[b := muts[b]] == muts;
        PlanPasses(job, muts, i + 1, 0);
      }
    }
  }

  /** From `s` to `t`, nothing was written if the plan failed; else the planned specs were, as one batch. */
  ghost predicate Wrote(s: State, i: nat, plan: Result<seq<Mutation>>, t: State)
    requires i <= |s.specs| == |s.nodes|
  {
    match plan
    case Err(_) => t.batches == s.batches
    case Ok(ms) => t.batches == s.batches + [s.specs[..i] + Planned(ms)] && t.nodes == s.nodes[..i] + Built(ms)
  }

  /**
   * Whatever the hooks do with results: the chain writes at most once, and exactly when the whole plan succeeds, that is,
   * after every builder's hooks let its mutation through and every check passed. The batch then has one spec per builder,
   * in index order, and so have the nodes.
   */
  lemma {:induction false} WritesThePlanOnce(job: Job, s: State, i: nat, h: nat)
    requires Fits(job, s) && i < |job.builders| && h <= |job.hooks[job.builders[i]]|
    ensures Wrote(s, i, Plan(job, s.muts, i, h), Run(job, s, i, h).0)
    decreases |job.builders| - i, |job.hooks[job.builders[i]]| - h + 1
  {
    var b := job.builders[i];
    if h < |job.hooks[b]| {
      PlanStep(job, s.muts, i, h);
      if Edit(job.hooks[b][h], s.muts[b]).Ok? {
        WritesThePlanOnce(job, s.(muts := s.muts[b := Edit(job.hooks[b][h], s.muts[b]).value]), i, h + 1);
      }
    } else {
      WritesThePlanInner(job, s, i);
    }
  }

  lemma Prepend(m: Mutation, rest: seq<Mutation>)
    ensures Planned([m] + rest) == [Some(SpecOf(m))] + Planned(rest)
    ensures Built([m] + rest) == [Some(NodeOf(m))] + Built(rest)
  {
  }

  lemma Regroup<T>(before: seq<T>, x: T, after: seq<T>)
    ensures (before + [x]) + after == before + ([x] + after)
  {
  }

  lemma SlottedPrefix(s: State, i: nat, m: Mutation)
    requires i < |s.specs| == |s.nodes|
    ensures Slotted(s, i, m).specs[..i + 1] == s.specs[..i] + [Some(SpecOf(m))]
    ensures Slotted(s, i, m).nodes[..i + 1] == s.nodes[..i] + [Some(NodeOf(m))]
  {
  }

  lemma SlottedWhole(s: State, i: nat, m: Mutation)
    requires i + 1 == |s.specs| == |s.nodes|
    ensures Slotted(s, i, m).specs == s.specs[..i] + Planned([m])
    ensures Slotted(s, i, m).nodes == s.nodes[..i] + Built([m])
  {
  }

  /** The first builder's slot, and the writing of the rest, are the writing of it all. */
  lemma WroteCons(s: State, i: nat, m: Mutation, rest: Result<seq<Mutation>>, t: State)
    requires i + 1 <= |s.specs| == |s.nodes| && Wrote(Slotted(s, i, m), i + 1, rest, t)
    ensures Wrote(s, i, match rest case Err(e) => Err(e) case Ok(ms) => Ok([m] + ms), t)
  {
    if rest.Ok? {
      SlottedPrefix(s, i, m);
      Prepend(m, rest.value);
      Regroup(s.specs[..i], Some(SpecOf(m)), Planned(rest.value));
      Regroup(s.nodes[..i], Some(NodeOf(m)), Built(rest.value));
    }
  }

  lemma {:induction false} WritesThePlanInner(job: Job, s: State, i: nat)
    requires Fits(job, s) && i < |job.builders|
    ensures var h := |job.hooks[job.builders[i]]|;
            Wrote(s, i, Plan(job, s.muts, i, h), Run(job, s, i, h).0)
    decreases |job.builders| - i, 0
  {
    var b := job.builders[i];
    var h := |job.hooks[b]|;
    var m := s.muts[b];
    assert job.hooks[b][h..] == [];
    if Check(m) == None {
      assert s.muts[b := m] == s.muts;
      if i + 1 < |job.builders| {
        WritesThePlanOnce(job, Slotted(s, i, m), i + 1, 0);
        WroteCons(s, i, m, Plan(job, s.muts, i + 1, 0), Run(job, Slotted(s, i, m), i + 1, 0).0);
      } else {
        SlottedWhole(s, i, m);
      }
    }
  }

  // ---------- The way back: results, errors and completion flags ----------

  /** What a hook stack makes of its innermost result. */
  function Finished(hooks: seq<Hook>, r: Result<Member>): Result<Member> {
    if hooks == [] then r else hooks[0].finish(Finished(hooks[1..], r))
  }

  function ErrorOf(r: Result<Member>): Option<Error> {
    if r.Err? then Some(r.error) else None
  }

  function Verdict(job: Job, batch: Batch): Option<Error> {
    match job.db(batch) case None => None case Some(e) => Some(Wrapped(e))
  }

  function HooksAt(job: Job, i: nat): seq<Hook>
    requires Sound(job, |job.hooks|) && i < |job.builders|
  {
    job.hooks[job.builders[i]]
  }

  /** What mutator `i` itself returns, inside its hooks, once everything was planned (`ms`) and the database has answered:
      its node, unless the answer, or what the stack of mutator `i + 1` makes of it, is an error. */
  function Reached(job: Job, i: nat, ms: seq<Mutation>, verdict: Option<Error>): Result<Member>
    requires Sound(job, |job.hooks|) && i < |job.builders| && |ms| == |job.builders| - i
    decreases |ms|
  {
    var err := if |ms| == 1 then verdict
               else ErrorOf(Finished(HooksAt(job, i + 1), Reached(job, i + 1, ms[1..], verdict)));
    if err.Some? then Err(err.value) else Ok(NodeOf(ms[0]))
  }

  /** The `j`-th builder is `c`, and its mutator completes. */
  ghost predicate CompletesAt(job: Job, i: nat, ms: seq<Mutation>, verdict: Option<Error>, c: nat, j: int)
    requires Sound(job, |job.hooks|) && |ms| == |job.builders| - i
  {
    i <= j < |job.builders| && job.builders[j] == c && Reached(job, j, ms[j - i..], verdict).Ok?
  }

  ghost predicate Completes(job: Job, i: nat, ms: seq<Mutation>, verdict: Option<Error>, c: nat)
    requires Sound(job, |job.hooks|) && |ms| == |job.builders| - i
  {
    exists j :: CompletesAt(job, i, ms, verdict, c, j)
  }

  lemma CompletesShift(job: Job, i: nat, ms: seq<Mutation>, verdict: Option<Error>, c: nat, j: int)
    requires Sound(job, |job.hooks|) && i < |job.builders| && |ms| == |job.builders| - i && i < j
    ensures CompletesAt(job, i, ms, verdict, c, j) <==> CompletesAt(job, i + 1, ms[1..], verdict, c, j)
  {
    if j < |job.builders| {
      assert ms[j - i..] == ms[1..][j - (i + 1)..];
    }
  }

  lemma CompletesHere(job: Job, i: nat, ms: seq<Mutation>, verdict: Option<Error>, c: nat)
    requires Sound(job, |job.hooks|) && i < |job.builders| && |ms| == |job.builders| - i
    ensures CompletesAt(job, i, ms, verdict, c, i) <==> job.builders[i] == c && Reached(job, i, ms, verdict).Ok?
  {
    assert ms[i - i..] == ms;
  }

  lemma CompletesStep(job: Job, i: nat, ms: seq<Mutation>, verdict: Option<Error>, c: nat)
    requires Sound(job, |job.hooks|) && i < |job.builders| && |ms| == |job.builders| - i
    ensures Completes(job, i, ms, verdict, c) <==>
            (job.builders[i] == c && Reached(job, i, ms, verdict).Ok?) || Completes(job, i + 1, ms[1..], verdict, c)
  {
    CompletesHere(job, i, ms, verdict, c);
    if Completes(job, i, ms, verdict, c) {
      var j :| CompletesAt(job, i, ms, verdict, c, j);
      if j > i {
        CompletesShift(job, i, ms, verdict, c, j);
      }
    }
    if Completes(job, i + 1, ms[1..], verdict, c) {
      var j :| CompletesAt(job, i + 1, ms[1..], verdict, c, j);
      CompletesShift(job, i, ms, verdict, c, j);
    }
  }

  /** What a run whose plan succeeds returns, and which flags it leaves set: a function of the hooks' finishes alone. */
  ghost predicate Unwound(job: Job, s: State, i: nat, h: nat, ms: seq<Mutation>, t: State, r: Result<Member>)
    requires Fits(job, s) && i < |job.builders| && |ms| == |job.builders| - i && h <= |HooksAt(job, i)|
  {
    var verdict := Verdict(job, s.specs[..i] + Planned(ms));
    && |t.muts| == |s.muts|
    && r == Finished(HooksAt(job, i)[h..], Reached(job, i, ms, verdict))
    && forall c :: 0 <= c < |s.muts| ==> (t.muts[c].done <==> s.muts[c].done || Completes(job, i, ms, verdict, c))
  }

  lemma {:induction false} Unwinds(job: Job, s: State, i: nat, h: nat)
    requires Fits(job, s) && i < |job.builders| && h <= |HooksAt(job, i)|
    requires Plan(job, s.muts, i, h).Ok?
    ensures var ms := Plan(job, s.muts, i, h).value;
            && |ms| == |job.builders| - i
            && Unwound(job, s, i, h, ms, Run(job, s, i, h).0, Run(job, s, i, h).1)
    decreases |job.builders| - i, |HooksAt(job, i)| - h + 1
  {
    PlanPasses(job, s.muts, i, h);
    var b := job.builders[i];
    if h < |job.hooks[b]| {
      PlanStep(job, s.muts, i, h);
      Unwinds(job, s.(muts := s.muts[b := Edit(job.hooks[b][h], s.muts[b]).value]), i, h + 1);
      assert HooksAt(job, i)[h..][1..] == HooksAt(job, i)[h + 1..];
    } else {
      UnwindsInner(job, s, i);
    }
  }

  /** The verdict on a batch does not depend on how much of it was planned before builder `i`. */
  lemma SameVerdict(job: Job, s: State, i: nat, m: Mutation, rest: seq<Mutation>)
    requires i < |s.specs| == |s.nodes|
    ensures Verdict(job, Slotted(s, i, m).specs[..i + 1] + Planned(rest)) == Verdict(job, s.specs[..i] + Planned([m] + rest))
  {
    SlottedPrefix(s, i, m);
    Prepend(m, rest);
    Regroup(s.specs[..i], Some(SpecOf(m)), Planned(rest));
  }

  lemma UnwoundCons(job: Job, s: State, i: nat, m: Mutation, rest: seq<Mutation>, t: State, r: Result<Member>)
    requires Fits(job, s) && i + 1 < |job.builders| && |rest| == |job.builders| - i - 1
    requires Unwound(job, Slotted(s, i, m), i + 1, 0, rest, t, r)
    ensures var (t1, r1) := Complete(job, t, i, m, ErrorOf(r));
            Unwound(job, s, i, |HooksAt(job, i)|, [m] + rest, t1, r1)
  {
    var ms, h := [m] + rest, |HooksAt(job, i)|;
    var verdict := Verdict(job, s.specs[..i] + Planned(ms));
    SameVerdict(job, s, i, m, rest);
    assert ms[1..] == rest && HooksAt(job, i)[h..] == [] && HooksAt(job, i + 1)[0..] == HooksAt(job, i + 1);
    assert Reached(job, i, ms, verdict) == Complete(job, t, i, m, ErrorOf(r)).1;
    forall c | 0 <= c < |s.muts|
      ensures Completes(job, i, ms, verdict, c) <==>
              (job.builders[i] == c && Reached(job, i, ms, verdict).Ok?) || Completes(job, i + 1, rest, verdict, c)
    {
      CompletesStep(job, i, ms, verdict, c);
    }
  }

  lemma UnwoundLast(job: Job, s: State, i: nat, m: Mutation)
    requires Fits(job, s) && i + 1 == |job.builders|
    ensures var (t, err) := Write(job, Slotted(s, i, m));
            var (t1, r1) := Complete(job, t, i, m, err);
            Unwound(job, s, i, |HooksAt(job, i)|, [m], t1, r1)
  {
    SlottedWhole(s, i, m);
    var verdict := Verdict(job, s.specs[..i] + Planned([m]));
    assert Write(job, Slotted(s, i, m)).1 == verdict;
    assert HooksAt(job, i)[|HooksAt(job, i)|..] == [];
    forall c | 0 <= c < |s.muts|
      ensures Completes(job, i, [m], verdict, c) <==> job.builders[i] == c && Reached(job, i, [m], verdict).Ok?
    {
      CompletesStep(job, i, [m], verdict, c);
    }
  }

  lemma {:induction false} UnwindsInner(job: Job, s: State, i: nat)
    requires Fits(job, s) && i < |job.builders|
    requires Plan(job, s.muts, i, |HooksAt(job, i)|).Ok?
    ensures var h := |HooksAt(job, i)|;
            var ms := Plan(job, s.muts, i, h).value;
            && |ms| == |job.builders| - i
            && Unwound(job, s, i, h, ms, Run(job, s, i, h).0, Run(job, s, i, h).1)
    decreases |job.builders| - i, 0
  {
    var b, h := job.builders[i], |HooksAt(job, i)|;
    var m := s.muts[b];
    assert job.hooks[b][h..] == [] && s.muts[b := m] == s.muts;
    if i + 1 < |job.builders| {
      Unwinds(job, Slotted(s, i, m), i + 1, 0);
      var (t, r) := Run(job, Slotted(s, i, m), i + 1, 0);
      UnwoundCons(job, s, i, m, Plan(job, s.muts, i + 1, 0).value, t, r);
      assert Run(job, s, i, h) == Complete(job, t, i, m, ErrorOf(r));
    } else {
      UnwoundLast(job, s, i, m);
    }
  }
}
