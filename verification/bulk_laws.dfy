/** What bulk creation guarantees: all or nothing, when hooks break that, and agreement with single creates. */
module BulkLaws {
  import opened Common
  import opened Sequences
  import opened Members
  import opened BulkCreate

  // ---------- All or nothing ----------

  /** The hook reports an error exactly when it was given one. */
  ghost predicate Faithful(h: Hook) {
    forall r :: h.finish(r).Ok? <==> r.Ok?
  }

  ghost predicate AllFaithful(job: Job) {
    forall b, k :: 0 <= b < |job.hooks| && 0 <= k < |job.hooks[b]| ==> Faithful(job.hooks[b][k])
  }

  lemma {:induction false} FaithfulFinished(hooks: seq<Hook>, r: Result<Member>)
    requires forall k :: 0 <= k < |hooks| ==> Faithful(hooks[k])
    ensures Finished(hooks, r).Ok? <==> r.Ok?
  {
    if hooks != [] {
      FaithfulFinished(hooks[1..], r);
    }
  }

  lemma {:induction false} FaithfulReached(job: Job, i: nat, ms: seq<Mutation>, verdict: Option<Error>)
    requires Sound(job, |job.hooks|) && i < |job.builders| && |ms| == |job.builders| - i && AllFaithful(job)
    ensures Reached(job, i, ms, verdict).Ok? <==> verdict == None
    decreases |ms|
  {
    if |ms| > 1 {
      FaithfulReached(job, i + 1, ms[1..], verdict);
      FaithfulFinished(HooksAt(job, i + 1), Reached(job, i + 1, ms[1..], verdict));
    }
  }

  ghost predicate SameFlags(a: State, b: State) {
    |a.muts| == |b.muts| && forall c :: 0 <= c < |a.muts| ==> a.muts[c].done == b.muts[c].done
  }

  /** A plan that fails surfaces as an error and leaves every flag alone. */
  lemma {:induction false} FailedPlan(job: Job, s: State, i: nat, h: nat)
    requires Fits(job, s) && i < |job.builders| && h <= |HooksAt(job, i)| && AllFaithful(job)
    requires Plan(job, s.muts, i, h).Err?
    ensures Run(job, s, i, h).1.Err? && SameFlags(s, Run(job, s, i, h).0)
    decreases |job.builders| - i, |HooksAt(job, i)| - h
  {
    var b := job.builders[i];
    if h < |job.hooks[b]| {
      PlanStep(job, s.muts, i, h);
      if Edit(job.hooks[b][h], s.muts[b]).Ok? {
        FailedPlan(job, s.(muts := s.muts[b := Edit(job.hooks[b][h], s.muts[b]).value]), i, h + 1);
        assert Faithful(job.hooks[b][h]);
      }
    } else {
      assert job.hooks[b][h..] == [] && s.muts[b := s.muts[b]] == s.muts;
      if Check(s.muts[b]) == None && i + 1 < |job.builders| {
        FailedPlan(job, Slotted(s, i, s.muts[b]), i + 1, 0);
      }
    }
  }

  /**
   * With hooks that neither swallow nor invent errors, bulk creation is all or nothing. It succeeds exactly when every
   * mutation is let through and passes its checks and the database accepts the one batch; then every builder's flag is set
   * and the nodes are the planned ones. Otherwise no flag changes.
   */
  lemma AllOrNothing(job: Job, s: State)
    requires Fits(job, s) && job.builders != [] && AllFaithful(job)
    ensures var (t, r) := Run(job, s, 0, 0);
            var plan := Plan(job, s.muts, 0, 0);
            && (r.Ok? <==> plan.Ok? && job.db(Planned(plan.value)) == None)
            && (r.Ok? ==> t.nodes == Built(plan.value)
                          && forall j :: 0 <= j < |job.builders| ==> t.muts[job.builders[j]].done)
            && (r.Err? ==> SameFlags(s, t))
  {
    var plan := Plan(job, s.muts, 0, 0);
    if plan.Err? {
      FailedPlan(job, s, 0, 0);
    } else {
      var ms := plan.value;
      Unwinds(job, s, 0, 0);
      WritesThePlanOnce(job, s, 0, 0);
      var verdict := Verdict(job, s.specs[..0] + Planned(ms));
      assert s.specs[..0] + Planned(ms) == Planned(ms) && s.nodes[..0] + Built(ms) == Built(ms);
      assert HooksAt(job, 0)[0..] == HooksAt(job, 0);
      FaithfulReached(job, 0, ms, verdict);
      FaithfulFinished(HooksAt(job, 0), Reached(job, 0, ms, verdict));
      if verdict == None {
        forall j | 0 <= j < |job.builders| ensures CompletesAt(job, 0, ms, verdict, job.builders[j], j) {
          FaithfulReached(job, j, ms[j - 0..], verdict);
        }
      } else {
        forall c, j | 0 <= c < |s.muts| && CompletesAt(job, 0, ms, verdict, c, j) ensures false {
          FaithfulReached(job, j, ms[j - 0..], verdict);
        }
      }
    }
  }

  // ---------- Exactly when any hooks keep it ----------

  /** What mutator `j` of a planned run returns to its own hooks. */
  function At(job: Job, ms: seq<Mutation>, verdict: Option<Error>, j: nat): Result<Member>
    requires Sound(job, |job.hooks|) && j < |job.builders| == |ms|
  {
    Reached(job, j, ms[j..], verdict)
  }

  /** What the hooks of builder `j` make of it. */
  function Past(job: Job, ms: seq<Mutation>, verdict: Option<Error>, j: nat): Result<Member>
    requires Sound(job, |job.hooks|) && j < |job.builders| == |ms|
  {
    Finished(HooksAt(job, j), At(job, ms, verdict, j))
  }

  lemma AtStep(job: Job, ms: seq<Mutation>, verdict: Option<Error>, j: nat)
    requires Sound(job, |job.hooks|) && j < |job.builders| == |ms|
    ensures At(job, ms, verdict, j).Ok? <==> if j + 1 == |ms| then verdict == None else Past(job, ms, verdict, j + 1).Ok?
    ensures At(job, ms, verdict, j).Ok? ==> At(job, ms, verdict, j) == Ok(NodeOf(ms[j]))
  {
    assert ms[j..][1..] == ms[j + 1..] && ms[j..][0] == ms[j];
  }

  /** No builder was saved before. */
  ghost predicate Unflagged(s: State) {
    forall c :: 0 <= c < |s.muts| ==> !s.muts[c].done
  }

  /** Distinct builders whose flags are all clear. */
  ghost predicate Clear(job: Job, s: State) {
    NoDuplicates(job.builders) && Unflagged(s)
  }

  /** A builder's flag then tells whether its own mutator completed. */
  lemma ClearRun(job: Job, s: State, ms: seq<Mutation>)
    requires Fits(job, s) && job.builders != [] && Clear(job, s) && Plan(job, s.muts, 0, 0) == Ok(ms)
    ensures |ms| == |job.builders|
    ensures var (t, r) := Run(job, s, 0, 0);
            var verdict := Verdict(job, Planned(ms));
            && |t.muts| == |s.muts| && r == Past(job, ms, verdict, 0)
            && (forall j :: 0 <= j < |ms| ==> (t.muts[job.builders[j]].done <==> At(job, ms, verdict, j).Ok?))
            && (forall c :: 0 <= c < |s.muts| && t.muts[c].done ==> c in job.builders)
  {
    var (t, r) := Run(job, s, 0, 0);
    Unwinds(job, s, 0, 0);
    assert s.specs[..0] + Planned(ms) == Planned(ms);
    assert HooksAt(job, 0)[0..] == HooksAt(job, 0) && ms[0..] == ms;
    var verdict := Verdict(job, Planned(ms));
    forall j | 0 <= j < |ms| ensures t.muts[job.builders[j]].done <==> At(job, ms, verdict, j).Ok? {
      var c := job.builders[j];
      assert CompletesAt(job, 0, ms, verdict, c, j) <==> At(job, ms, verdict, j).Ok?;
      if Completes(job, 0, ms, verdict, c) {
        var k :| CompletesAt(job, 0, ms, verdict, c, k);
        assert k == j;
      }
    }
    forall c | 0 <= c < |s.muts| && t.muts[c].done ensures c in job.builders {
      var j :| CompletesAt(job, 0, ms, verdict, c, j);
    }
  }

  ghost predicate AllFlagged(job: Job, t: State) {
    forall j :: 0 <= j < |job.builders| ==> job.builders[j] < |t.muts| && t.muts[job.builders[j]].done
  }

  /** Every builder's hooks turn its finished node into a success. */
  ghost predicate KeepSuccess(job: Job, ms: seq<Mutation>)
    requires Sound(job, |job.hooks|) && |ms| == |job.builders|
  {
    forall j :: 0 <= j < |ms| ==> Finished(HooksAt(job, j), Ok(NodeOf(ms[j]))).Ok?
  }

  lemma {:induction false} KeptSuccess(job: Job, ms: seq<Mutation>, j: nat)
    requires Sound(job, |job.hooks|) && j < |ms| == |job.builders| && KeepSuccess(job, ms)
    ensures At(job, ms, None, j) == Ok(NodeOf(ms[j])) && Past(job, ms, None, j).Ok?
    decreases |ms| - j
  {
    AtStep(job, ms, None, j);
    if j + 1 < |ms| {
      KeptSuccess(job, ms, j + 1);
    }
  }

  lemma SuccessKept(job: Job, ms: seq<Mutation>)
    requires Sound(job, |job.hooks|) && 0 < |ms| == |job.builders|
    ensures KeepSuccess(job, ms) <==> Past(job, ms, None, 0).Ok? && forall j :: 0 <= j < |ms| ==> At(job, ms, None, j).Ok?
  {
    if KeepSuccess(job, ms) {
      forall j | 0 <= j < |ms| ensures At(job, ms, None, j).Ok? && Past(job, ms, None, j).Ok? {
        KeptSuccess(job, ms, j);
      }
    } else {
      var j :| 0 <= j < |ms| && Finished(HooksAt(job, j), Ok(NodeOf(ms[j]))).Err?;
      AtStep(job, ms, None, j);
      if j > 0 {
        AtStep(job, ms, None, j - 1);
      }
    }
  }

  /**
   * When the database accepted the batch: the save succeeds with every flag set exactly if every builder's hooks turn its
   * finished node into a success. The hooks' finishes decide, and nothing else.
   */
  lemma CommitReported(job: Job, s: State, ms: seq<Mutation>)
    requires Fits(job, s) && job.builders != [] && Clear(job, s) && Plan(job, s.muts, 0, 0) == Ok(ms)
    requires job.db(Planned(ms)) == None
    ensures |ms| == |job.builders|
    ensures Run(job, s, 0, 0).1.Ok? && AllFlagged(job, Run(job, s, 0, 0).0) <==> KeepSuccess(job, ms)
  {
    ClearRun(job, s, ms);
    assert Verdict(job, Planned(ms)) == None;
    SuccessKept(job, ms);
    assert AllFlagged(job, Run(job, s, 0, 0).0) <==> forall j :: 0 <= j < |ms| ==> At(job, ms, None, j).Ok?;
  }

  /**
   * Where a run fails: at the first refusing hook or failing check, or else at the database. The hooks `0..through` of that
   * builder are those the error passes on its way out.
   */
  datatype Fault = Fault(builder: nat, through: nat, error: Error)

  ghost predicate Located(job: Job, f: Fault) {
    Sound(job, |job.hooks|) && f.builder < |job.builders| && f.through <= |HooksAt(job, f.builder)|
  }

  /** The fault of a run from mutator `i` and hook `h` on, if the database would answer with `refusal`. */
  function FaultOf(job: Job, muts: seq<Mutation>, i: nat, h: nat, refusal: Error): (f: Fault)
    requires Sound(job, |muts|) && i < |job.builders| && h <= |HooksAt(job, i)|
    ensures Located(job, f) && i <= f.builder && (f.builder == i ==> h <= f.through)
    decreases |job.builders| - i, |HooksAt(job, i)| - h
  {
    var b := job.builders[i];
    if h < |job.hooks[b]| then
      match Edit(job.hooks[b][h], muts[b])
      case Err(e) => Fault(i, h, e)
      case Ok(m) => FaultOf(job, muts[b := m], i, h + 1, refusal)
    else if Check(muts[b]).Some? then Fault(i, h, Check(muts[b]).value)
    else if i + 1 == |job.builders| then Fault(i, h, refusal)
    else FaultOf(job, muts, i + 1, 0, refusal)
  }

  /** The hooks of builder `j` that an error coming from the fault passes. */
  function Stack(job: Job, f: Fault, j: nat): seq<Hook>
    requires Located(job, f) && j <= f.builder
  {
    if j == f.builder then HooksAt(job, j)[..f.through] else HooksAt(job, j)
  }

  /** The error that reaches the hooks of builder `j`, as long as those inside it let it through. */
  function Incoming(job: Job, f: Fault, j: nat): Error
    requires Located(job, f) && j <= f.builder
    decreases f.builder - j
  {
    if j == f.builder then f.error else
      var passed := Finished(Stack(job, f, j + 1), Err(Incoming(job, f, j + 1)));
      if passed.Err? then passed.error else f.error
  }

  /** The hooks of builder `j` turn the error that reaches them into an error. */
  ghost predicate KeepsErrorAt(job: Job, f: Fault, j: nat)
    requires Located(job, f) && j <= f.builder
  {
    Finished(Stack(job, f, j), Err(Incoming(job, f, j))).Err?
  }

  /** No hook stack from builder `i` to the fault turns the error that reaches it into a success. */
  ghost predicate KeepErrorFrom(job: Job, f: Fault, i: nat)
    requires Located(job, f)
  {
    forall j: nat :: i <= j <= f.builder ==> KeepsErrorAt(job, f, j)
  }

  /** The part of the stack of builder `i` that mutator `i` still has to pass at hook `h`. */
  function Rest(job: Job, f: Fault, i: nat, h: nat): seq<Hook>
    requires Located(job, f) && i <= f.builder && h <= |HooksAt(job, i)| && (f.builder == i ==> h <= f.through)
  {
    Stack(job, f, i)[h..]
  }

  lemma RestStep(job: Job, f: Fault, i: nat, h: nat)
    requires Located(job, f) && i <= f.builder && h < |HooksAt(job, i)| && (f.builder == i ==> h < f.through)
    ensures Rest(job, f, i, h) == [HooksAt(job, i)[h]] + Rest(job, f, i, h + 1)
    ensures Rest(job, f, i, h)[1..] == Rest(job, f, i, h + 1)
  {
  }

  /** The plan fails, or the database answers the batch with `refusal`. */
  ghost predicate Doomed(job: Job, s: State, i: nat, h: nat, refusal: Error)
    requires Fits(job, s) && i < |job.builders| && h <= |HooksAt(job, i)|
  {
    match Plan(job, s.muts, i, h)
    case Err(_) => true
    case Ok(ms) => Verdict(job, s.specs[..i] + Planned(ms)) == Some(refusal)
  }

  /** A doomed run returns what the remaining hooks make of the error that reaches them, and changes no flag, exactly if the
      hooks further in let the error through. */
  ghost predicate Surfaces(job: Job, s: State, i: nat, h: nat, f: Fault, t: State, r: Result<Member>)
    requires Located(job, f) && i <= f.builder && h <= |HooksAt(job, i)| && (f.builder == i ==> h <= f.through)
  {
    if KeepErrorFrom(job, f, i + 1) then r == Finished(Rest(job, f, i, h), Err(Incoming(job, f, i))) && SameFlags(s, t)
    else !SameFlags(s, t)
  }

  /** The error reaching hook `h` of builder `i` from further in goes through that hook as well. */
  lemma PassesHook(job: Job, s: State, i: nat, h: nat, refusal: Error)
    requires Fits(job, s) && i < |job.builders| && h < |HooksAt(job, i)|
    requires Edit(HooksAt(job, i)[h], s.muts[job.builders[i]]).Ok?
    requires var b := job.builders[i];
             var edited := s.(muts := s.muts[b := Edit(job.hooks[b][h], s.muts[b]).value]);
             var (t, r) := Run(job, edited, i, h + 1);
             Surfaces(job, edited, i, h + 1, FaultOf(job, edited.muts, i, h + 1, refusal), t, r)
    ensures var (t, r) := Run(job, s, i, h); Surfaces(job, s, i, h, FaultOf(job, s.muts, i, h, refusal), t, r)
  {
    RestStep(job, FaultOf(job, s.muts, i, h, refusal), i, h);
  }

  lemma {:induction false} DoomedRun(job: Job, s: State, i: nat, h: nat, refusal: Error)
    requires Fits(job, s) && i < |job.builders| && h <= |HooksAt(job, i)| && Unflagged(s) && Doomed(job, s, i, h, refusal)
    ensures var (t, r) := Run(job, s, i, h); Surfaces(job, s, i, h, FaultOf(job, s.muts, i, h, refusal), t, r)
    decreases |job.builders| - i, |HooksAt(job, i)| - h + 1
  {
    var b := job.builders[i];
    if h < |job.hooks[b]| {
      PlanStep(job, s.muts, i, h);
      var edited := Edit(job.hooks[b][h], s.muts[b]);
      if edited.Ok? {
        DoomedRun(job, s.(muts := s.muts[b := edited.value]), i, h + 1, refusal);
        PassesHook(job, s, i, h, refusal);
      }
    } else {
      DoomedInner(job, s, i, refusal);
    }
  }

  lemma {:induction false} DoomedInner(job: Job, s: State, i: nat, refusal: Error)
    requires Fits(job, s) && i < |job.builders| && Unflagged(s) && Doomed(job, s, i, |HooksAt(job, i)|, refusal)
    ensures var h := |HooksAt(job, i)|;
            var (t, r) := Run(job, s, i, h);
            Surfaces(job, s, i, h, FaultOf(job, s.muts, i, h, refusal), t, r)
    decreases |job.builders| - i, 0
  {
    var b, h := job.builders[i], |HooksAt(job, i)|;
    var m := s.muts[b];
    assert job.hooks[b][h..] == [] && s.muts[b := m] == s.muts;
    if Check(m) == None {
      if i + 1 < |job.builders| {
        var plan := Plan(job, s.muts, i + 1, 0);
        if plan.Ok? {
          SameVerdict(job, s, i, m, plan.value);
        }
        DoomedRun(job, Slotted(s, i, m), i + 1, 0, refusal);
        var (t, r) := Run(job, Slotted(s, i, m), i + 1, 0);
        SurfacesOutwards(job, s, i, m, FaultOf(job, s.muts, i + 1, 0, refusal), t, r);
        assert Run(job, s, i, h) == Complete(job, t, i, m, ErrorOf(r));
      } else {
        SlottedWhole(s, i, m);
      }
    }
  }

  /** What mutator `i + 1` surfaces, mutator `i` does. */
  lemma SurfacesOutwards(job: Job, s: State, i: nat, m: Mutation, f: Fault, t: State, r: Result<Member>)
    requires Fits(job, s) && i < f.builder && Located(job, f) && Unflagged(s)
    requires |t.muts| == |s.muts| && Surfaces(job, Slotted(s, i, m), i + 1, 0, f, t, r)
    ensures var (t1, r1) := Complete(job, t, i, m, ErrorOf(r)); Surfaces(job, s, i, |HooksAt(job, i)|, f, t1, r1)
  {
    assert Rest(job, f, i + 1, 0) == Stack(job, f, i + 1) && Rest(job, f, i, |HooksAt(job, i)|) == [];
    assert KeepErrorFrom(job, f, i + 1) <==> KeepErrorFrom(job, f, i + 2) && KeepsErrorAt(job, f, i + 1);
    var t1 := Complete(job, t, i, m, ErrorOf(r)).0;
    if r.Ok? {
      assert t1.muts[job.builders[i]].done && !s.muts[job.builders[i]].done;
    }
    if !SameFlags(Slotted(s, i, m), t) {
      var c :| 0 <= c < |t.muts| && t.muts[c].done != s.muts[c].done;
      assert t1.muts[c].done;
    }
  }

  /**
   * When a hook refuses or a check fails: the save fails and no flag changes exactly if no hook stack from the failing
   * builder outwards turns the error that reaches it into a success.
   */
  lemma FailureReported(job: Job, s: State)
    requires Fits(job, s) && job.builders != [] && Unflagged(s) && Plan(job, s.muts, 0, 0).Err?
    ensures Run(job, s, 0, 0).1.Err? && SameFlags(s, Run(job, s, 0, 0).0) <==>
            KeepErrorFrom(job, FaultOf(job, s.muts, 0, 0, Plan(job, s.muts, 0, 0).error), 0)
  {
    var refusal := Plan(job, s.muts, 0, 0).error;
    DoomedRun(job, s, 0, 0, refusal);
    FromTheOutside(job, FaultOf(job, s.muts, 0, 0, refusal));
  }

  lemma FromTheOutside(job: Job, f: Fault)
    requires Located(job, f)
    ensures Rest(job, f, 0, 0) == Stack(job, f, 0)
    ensures KeepErrorFrom(job, f, 0) <==> KeepErrorFrom(job, f, 1) && KeepsErrorAt(job, f, 0)
  {
  }

  /** The fault of a run whose plan succeeds is the database's refusal, and its error passes all hooks. */
  lemma {:induction false} FaultOfPlan(job: Job, muts: seq<Mutation>, i: nat, h: nat, refusal: Error)
    requires Sound(job, |muts|) && i < |job.builders| && h <= |HooksAt(job, i)| && Plan(job, muts, i, h).Ok?
    ensures FaultOf(job, muts, i, h, refusal) == Refused(job, refusal)
    decreases |job.builders| - i, |HooksAt(job, i)| - h
  {
    var b := job.builders[i];
    if h < |job.hooks[b]| {
      PlanStep(job, muts, i, h);
      FaultOfPlan(job, muts[b := Edit(job.hooks[b][h], muts[b]).value], i, h + 1, refusal);
    } else {
      assert job.hooks[b][h..] == [] && muts[b := muts[b]] == muts;
      if i + 1 < |job.builders| {
        FaultOfPlan(job, muts, i + 1, 0, refusal);
      }
    }
  }

  function Refused(job: Job, refusal: Error): (f: Fault)
    requires Sound(job, |job.hooks|) && job.builders != []
    ensures Located(job, f)
  {
    var last := |job.builders| - 1;
    Fault(last, |HooksAt(job, last)|, refusal)
  }

  /** When the database refused the batch: the save fails with no flag set exactly if, passing the refusal outwards, every
      builder's hooks turn the error that reaches them into an error. */
  lemma RefusalReported(job: Job, s: State, ms: seq<Mutation>)
    requires Fits(job, s) && job.builders != [] && Unflagged(s) && Plan(job, s.muts, 0, 0) == Ok(ms)
    requires job.db(Planned(ms)).Some?
    ensures Run(job, s, 0, 0).1.Err? && SameFlags(s, Run(job, s, 0, 0).0) <==>
            var e := job.db(Planned(ms)).value;
            KeepErrorFrom(job, Refused(job, if e.constraint then ConstraintError(e.cause) else e.cause), 0)
  {
    var refusal := Wrapped(job.db(Planned(ms)).value);
    assert s.specs[..0] + Planned(ms) == Planned(ms);
    DoomedRun(job, s, 0, 0, refusal);
    FaultOfPlan(job, s.muts, 0, 0, refusal);
    FromTheOutside(job, Refused(job, refusal));
  }

  /** Every mutation is let through and passes its checks, and the database accepts the batch. */
  ghost predicate Commits(job: Job, s: State)
    requires Fits(job, s) && job.builders != []
  {
    Plan(job, s.muts, 0, 0).Ok? && job.db(Planned(Plan(job, s.muts, 0, 0).value)) == None
  }

  /** All or nothing: a run that commits succeeds with every flag set, and any other run fails with no flag changed. */
  ghost predicate IsAllOrNothing(job: Job, s: State)
    requires Fits(job, s) && job.builders != []
  {
    var (t, r) := Run(job, s, 0, 0);
    if Commits(job, s) then r.Ok? && AllFlagged(job, t) else r.Err? && SameFlags(s, t)
  }

  /** The hooks keep each finished node a success, or the error of the fault an error all the way out. */
  ghost predicate HooksReport(job: Job, s: State)
    requires Fits(job, s) && job.builders != []
  {
    match Plan(job, s.muts, 0, 0)
    case Err(e) => KeepErrorFrom(job, FaultOf(job, s.muts, 0, 0, e), 0)
    case Ok(ms) =>
      match job.db(Planned(ms))
      case Some(e) => KeepErrorFrom(job, Refused(job, if e.constraint then ConstraintError(e.cause) else e.cause), 0)
      case None => |ms| == |job.builders| && KeepSuccess(job, ms)
  }

  /**
   * For any hooks, bulk creation of builders that were not saved before is all or nothing exactly if the hooks' finishes,
   * applied to the finished nodes or to the error passed outwards from where it occurs, report it. A builder that occurs
   * twice has one flag for both, so for runs that commit the builders are distinct.
   */
  lemma AllOrNothingExactly(job: Job, s: State)
    requires Fits(job, s) && job.builders != [] && Unflagged(s) && (Commits(job, s) ==> NoDuplicates(job.builders))
    ensures IsAllOrNothing(job, s) <==> HooksReport(job, s)
  {
    match Plan(job, s.muts, 0, 0)
    case Err(_) => FailureReported(job, s);
    case Ok(ms) =>
      if job.db(Planned(ms)).Some? {
        RefusalReported(job, s, ms);
      } else {
        CommitReported(job, s, ms);
      }
  }

  // ---------- What is left in the mutations ----------

  /** A mutation whose builder has completed: it has the node's ID, which is empty if it had none. */
  function Completed(m: Mutation): Mutation {
    m.(id := Some(if m.id.Some? then m.id.value else ""), done := true)
  }

  ghost predicate LeavesAt(job: Job, i: nat, ms: seq<Mutation>, verdict: Option<Error>, t: State, j: int)
    requires Sound(job, |t.muts|) && Sound(job, |job.hooks|) && |ms| == |job.builders| - i && i <= j < |job.builders|
  {
    t.muts[job.builders[j]] == if Reached(job, j, ms[j - i..], verdict).Ok? then Completed(ms[j - i]) else ms[j - i]
  }

  /** The builders from `i` on have their planned mutations, completed or not; the others have the ones they had. */
  ghost predicate Leaves(job: Job, s: State, i: nat, ms: seq<Mutation>, t: State)
    requires Fits(job, s) && i < |job.builders| && |ms| == |job.builders| - i
  {
    var verdict := Verdict(job, s.specs[..i] + Planned(ms));
    && |t.muts| == |s.muts|
    && (forall j :: i <= j < |job.builders| ==> LeavesAt(job, i, ms, verdict, t, j))
    && (forall c :: 0 <= c < |s.muts| && c !in job.builders[i..] ==> t.muts[c] == s.muts[c])
  }

  lemma CompletesWith(job: Job, s: State, i: nat, m: Mutation, rest: seq<Mutation>, t: State, r: Result<Member>)
    requires Fits(job, s) && i + 1 < |job.builders| && |rest| == |job.builders| - i - 1
    requires Unwound(job, Slotted(s, i, m), i + 1, 0, rest, t, r) && t.muts[job.builders[i]] == m
    ensures var b, ms := job.builders[i], [m] + rest;
            var verdict := Verdict(job, s.specs[..i] + Planned(ms));
            && verdict == Verdict(job, Slotted(s, i, m).specs[..i + 1] + Planned(rest))
            && Complete(job, t, i, m, ErrorOf(r)).0.muts
               == t.muts[b := if Reached(job, i, ms, verdict).Ok? then Completed(m) else m]
  {
    SameVerdict(job, s, i, m, rest);
    assert ([m] + rest)[1..] == rest && HooksAt(job, i + 1)[0..] == HooksAt(job, i + 1);
    assert t.muts[job.builders[i] := m] == t.muts;
  }

  lemma LeavesLater(job: Job, i: nat, m: Mutation, rest: seq<Mutation>, verdict: Option<Error>, t: State, u: State, j: nat)
    requires Sound(job, |t.muts|) && Sound(job, |u.muts|) && Sound(job, |job.hooks|)
    requires i < j < |job.builders| && |rest| == |job.builders| - i - 1 && t.muts[job.builders[j]] == u.muts[job.builders[j]]
    requires LeavesAt(job, i + 1, rest, verdict, t, j)
    ensures LeavesAt(job, i, [m] + rest, verdict, u, j)
  {
    var ms := [m] + rest;
    assert ms[j - i..] == rest[j - (i + 1)..] && ms[j - i] == rest[j - (i + 1)];
  }

  lemma LeavesCons(job: Job, s: State, i: nat, m: Mutation, rest: seq<Mutation>, t: State, r: Result<Member>)
    requires Fits(job, s) && i + 1 < |job.builders| && |rest| == |job.builders| - i - 1 && NoDuplicates(job.builders)
    requires m == s.muts[job.builders[i]] && Leaves(job, Slotted(s, i, m), i + 1, rest, t)
    requires Unwound(job, Slotted(s, i, m), i + 1, 0, rest, t, r)
    ensures Leaves(job, s, i, [m] + rest, Complete(job, t, i, m, ErrorOf(r)).0)
  {
    var ms, b := [m] + rest, job.builders[i];
    var u := Complete(job, t, i, m, ErrorOf(r)).0;
    var verdict := Verdict(job, s.specs[..i] + Planned(ms));
    assert b !in job.builders[i + 1..] && job.builders[i..] == [b] + job.builders[i + 1..];
    CompletesWith(job, s, i, m, rest, t, r);
    forall j | i <= j < |job.builders| ensures LeavesAt(job, i, ms, verdict, u, j) {
      if j == i {
        assert ms[i - i..] == ms;
      } else {
        LeavesLater(job, i, m, rest, verdict, t, u, j);
      }
    }
  }

  lemma LeavesLast(job: Job, s: State, i: nat, m: Mutation)
    requires Fits(job, s) && i + 1 == |job.builders| && m == s.muts[job.builders[i]]
    ensures var (t, err) := Write(job, Slotted(s, i, m));
            Leaves(job, s, i, [m], Complete(job, t, i, m, err).0)
  {
    var (t, err) := Write(job, Slotted(s, i, m));
    var verdict := Verdict(job, s.specs[..i] + Planned([m]));
    SlottedWhole(s, i, m);
    assert err == verdict && t.muts == s.muts && [m][i - i..] == [m];
    assert job.builders[i..] == [job.builders[i]];
    var u := Complete(job, t, i, m, err).0;
    assert u.muts == s.muts[job.builders[i] := if verdict == None then Completed(m) else m];
    assert LeavesAt(job, i, [m], verdict, u, i);
  }

  /** Whatever the hooks do with results: once everything was planned, each builder is left with its planned mutation, which
      has its ID and its flag set exactly if the builder's own mutator completed. */
  lemma {:induction false} RunLeaves(job: Job, s: State, i: nat, h: nat)
    requires Fits(job, s) && i < |job.builders| && h <= |HooksAt(job, i)| && NoDuplicates(job.builders)
    requires Plan(job, s.muts, i, h).Ok?
    ensures var ms := Plan(job, s.muts, i, h).value;
            |ms| == |job.builders| - i && Leaves(job, s, i, ms, Run(job, s, i, h).0)
    decreases |job.builders| - i, |HooksAt(job, i)| - h + 1
  {
    PlanPasses(job, s.muts, i, h);
    var b := job.builders[i];
    if h < |job.hooks[b]| {
      PlanStep(job, s.muts, i, h);
      assert job.builders[i..][0] == b;
      RunLeaves(job, s.(muts := s.muts[b := Edit(job.hooks[b][h], s.muts[b]).value]), i, h + 1);
    } else {
      RunLeavesInner(job, s, i);
    }
  }

  lemma {:induction false} RunLeavesInner(job: Job, s: State, i: nat)
    requires Fits(job, s) && i < |job.builders| && NoDuplicates(job.builders)
    requires Plan(job, s.muts, i, |HooksAt(job, i)|).Ok?
    ensures var ms := Plan(job, s.muts, i, |HooksAt(job, i)|).value;
            |ms| == |job.builders| - i && Leaves(job, s, i, ms, Run(job, s, i, |HooksAt(job, i)|).0)
    decreases |job.builders| - i, 0
  {
    var b, h := job.builders[i], |HooksAt(job, i)|;
    var m := s.muts[b];
    PlanPasses(job, s.muts, i, h);
    assert job.hooks[b][h..] == [] && s.muts[b := m] == s.muts;
    if i + 1 < |job.builders| {
      RunLeaves(job, Slotted(s, i, m), i + 1, 0);
      LeavesNext(job, s, i, m, Plan(job, s.muts, i + 1, 0).value);
    } else {
      LeavesLast(job, s, i, m);
    }
  }

  lemma LeavesNext(job: Job, s: State, i: nat, m: Mutation, rest: seq<Mutation>)
    requires Fits(job, s) && i + 1 < |job.builders| && NoDuplicates(job.builders)
    requires m == s.muts[job.builders[i]] && Check(m) == None
    requires Plan(job, s.muts, i + 1, 0) == Ok(rest) && |rest| == |job.builders| - i - 1
    requires Leaves(job, Slotted(s, i, m), i + 1, rest, Run(job, Slotted(s, i, m), i + 1, 0).0)
    ensures Leaves(job, s, i, [m] + rest, Run(job, s, i, |HooksAt(job, i)|).0)
  {
    Unwinds(job, Slotted(s, i, m), i + 1, 0);
    var (t, r) := Run(job, Slotted(s, i, m), i + 1, 0);
    LeavesCons(job, s, i, m, rest, t, r);
    assert Run(job, s, i, |HooksAt(job, i)|) == Complete(job, t, i, m, ErrorOf(r));
  }

  /** For distinct builders not saved before, and any hooks: after a run that planned everything, a builder's mutation is the
      planned one, and it has the ID of the returned node and the flag, or neither. */
  lemma IdWithFlag(job: Job, s: State, ms: seq<Mutation>, j: nat)
    requires Fits(job, s) && Clear(job, s) && j < |job.builders| && Plan(job, s.muts, 0, 0) == Ok(ms)
    ensures |ms| == |job.builders|
    ensures var m := Run(job, s, 0, 0).0.muts[job.builders[j]];
            m == if m.done then ms[j].(id := Some(if ms[j].id.Some? then ms[j].id.value else ""), done := true)
                 else ms[j].(done := false)
  {
    RunLeaves(job, s, 0, 0);
    ClearRun(job, s, ms);
    assert s.specs[..0] + Planned(ms) == Planned(ms);
    var verdict := Verdict(job, Planned(ms));
    assert LeavesAt(job, 0, ms, verdict, Run(job, s, 0, 0).0, j);
    assert ms[j - 0..] == ms[j..] && ms[j - 0] == ms[j];
  }

  // ---------- Hooks that break it ----------

  function Unedited(): Mutation -> Result<Mutation> {
    (m: Mutation) => Ok(m)
  }

  function Failing(reason: string): Hook {
    Hook(Unedited(), (r: Result<Member>) => Err(DriverError(reason)))
  }

  function Swallowing(): Hook {
    Hook(Unedited(), (r: Result<Member>) => Ok(BLANK))
  }

  lemma OneHookPlan(h: Hook, m: Mutation)
    requires h.edit == Unedited() && Check(m) == None
    ensures Prepared([h], m) == Ok(m)
  {
    assert [h][1..] == [];
  }

  lemma TwoBuildersPlan(job: Job, a: Mutation, b: Mutation)
    requires job.builders == [0, 1] && |job.hooks| == 2 && Check(a) == None && Check(b) == None
    requires forall k :: 0 <= k < 2 ==> |job.hooks[k]| <= 1 && (|job.hooks[k]| == 1 ==> job.hooks[k][0].edit == Unedited())
    ensures Plan(job, [a, b], 0, 0) == Ok([a, b])
  {
    forall k, m | 0 <= k < 2 && Check(m) == None ensures Prepared(job.hooks[k][0..], m) == Ok(m) {
      assert job.hooks[k][0..] == job.hooks[k];
      if |job.hooks[k]| == 1 {
        OneHookPlan(job.hooks[k][0], m);
        assert job.hooks[k] == [job.hooks[k][0]];
      }
    }
    assert [a, b][0 := a] == [a, b] && [a] + [b] == [a, b];
    assert Plan(job, [a, b], 1, 0) == Ok([b]);
  }

  lemma PlannedIsWritten(job: Job, s: State, ms: seq<Mutation>)
    requires Fits(job, s) && job.builders != [] && Plan(job, s.muts, 0, 0) == Ok(ms) && s.batches == []
    ensures Run(job, s, 0, 0).0.batches == [Planned(ms)]
  {
    WritesThePlanOnce(job, s, 0, 0);
    assert s.specs[..0] + Planned(ms) == Planned(ms) && [] + [Planned(ms)] == [Planned(ms)];
  }

  /** A run of two valid mutations whose hooks edit nothing. */
  lemma TwoBuildersRun(job: Job, a: Mutation, b: Mutation, s: State, verdict: Option<Error>)
    requires job.builders == [0, 1] && |job.hooks| == 2 && Check(a) == None && Check(b) == None
    requires forall k :: 0 <= k < 2 ==> |job.hooks[k]| <= 1 && (|job.hooks[k]| == 1 ==> job.hooks[k][0].edit == Unedited())
    requires !a.done && !b.done && s == State([a, b], [None, None], [None, None], [])
    requires verdict == Verdict(job, Planned([a, b]))
    ensures var (t, r) := Run(job, s, 0, 0);
            && t.batches == [Planned([a, b])] && |t.muts| == 2
            && r == Past(job, [a, b], verdict, 0)
            && (t.muts[1].done <==> verdict == None)
            && (t.muts[0].done <==> Past(job, [a, b], verdict, 1).Ok?)
            && (t.muts[0].done ==> At(job, [a, b], verdict, 0).Ok?)
  {
    var ms := [a, b];
    TwoBuildersPlan(job, a, b);
    PlannedIsWritten(job, s, ms);
    ClearRun(job, s, ms);
    assert job.builders[0] == 0 && job.builders[1] == 1;
    AtStep(job, ms, verdict, 1);
    AtStep(job, ms, verdict, 0);
  }

  lemma OneHookFinish(h: Hook, r: Result<Member>)
    ensures Finished([h], r) == h.finish(r) && Finished([], r) == r
  {
    assert [h][1..] == [];
  }

  /** A hook that calls its next mutator and then reports an error of its own: the batch was written and every flag is set,
      yet the save fails. */
  lemma CommittedButFailed(a: Mutation, b: Mutation, s: State, reason: string)
    requires Check(a) == None && Check(b) == None && !a.done && !b.done
    requires s == State([a, b], [None, None], [None, None], [])
    ensures var job := Job([0, 1], [[Failing(reason)], []], batch => None);
            var (t, r) := Run(job, s, 0, 0);
            r.Err? && t.batches == [Planned([a, b])] && AllFlagged(job, t)
  {
    var job := Job([0, 1], [[Failing(reason)], []], (batch: Batch) => None);
    TwoBuildersRun(job, a, b, s, None);
    AtStep(job, [a, b], None, 1);
    OneHookFinish(Failing(reason), At(job, [a, b], None, 1));
    OneHookFinish(Failing(reason), At(job, [a, b], None, 0));
  }

  /** A hook that turns the errors of its next mutator into a success: the database refused the only batch, yet the save
      succeeds and the flag of the builder before it is set. */
  lemma RefusedButSucceeded(a: Mutation, b: Mutation, s: State, e: DbError)
    requires Check(a) == None && Check(b) == None && !a.done && !b.done
    requires s == State([a, b], [None, None], [None, None], [])
    ensures var job := Job([0, 1], [[], [Swallowing()]], batch => Some(e));
            var (t, r) := Run(job, s, 0, 0);
            r.Ok? && t.batches == [Planned([a, b])] && |t.muts| == 2 && t.muts[0].done && !t.muts[1].done
  {
    var job := Job([0, 1], [[], [Swallowing()]], (batch: Batch) => Some(e));
    var refusal := Some(Wrapped(e));
    TwoBuildersRun(job, a, b, s, refusal);
    OneHookFinish(Swallowing(), At(job, [a, b], refusal, 1));
    OneHookFinish(Swallowing(), At(job, [a, b], refusal, 0));
  }

  /** The chain behind the first builder, when the second one fails its check. */
  lemma SecondFails(job: Job, s: State, a: Mutation, b: Mutation)
    requires job.builders == [0, 1] && |job.hooks| == 2 && job.hooks[1] == []
    requires Fits(job, s) && s.muts == [a, b] && Check(b).Some?
    ensures Run(job, s, 1, 0) == (s, Err(Check(b).value))
  {
  }

  /** The same hook on the first of two builders, the second of which fails its check: the save succeeds with a nil node, and
      nothing was handed to the database. */
  lemma FailedCheckButSucceeded(a: Mutation, b: Mutation, s: State, db: Batch -> Option<DbError>)
    requires Check(a) == None && Check(b).Some?
    requires s == State([a, b], [None, None], [None, None], [])
    ensures var job := Job([0, 1], [[Swallowing()], []], db);
            var (t, r) := Run(job, s, 0, 0);
            r.Ok? && t.batches == [] && t.nodes == [Some(NodeOf(a)), None] && t.muts == [a, b]
  {
    var job := Job([0, 1], [[Swallowing()], []], db);
    var slotted := Slotted(s, 0, a);
    SecondFails(job, slotted, a, b);
    assert [a, b][0 := a] == [a, b] && [None, None][0 := Some(NodeOf(a))] == [Some(NodeOf(a)), None];
    assert Edit(Swallowing(), a) == Ok(a);
    assert Run(job, s, 0, 1) == (slotted, Err(Check(b).value));
  }

  /** And on the second builder: the flag of the first one is set too. */
  lemma FailedCheckButFlagged(a: Mutation, b: Mutation, s: State, db: Batch -> Option<DbError>)
    requires Check(a) == None && Check(b).Some?
    requires s == State([a, b], [None, None], [None, None], [])
    ensures var job := Job([0, 1], [[], [Swallowing()]], db);
            var (t, r) := Run(job, s, 0, 0);
            r.Ok? && t.batches == [] && |t.muts| == 2 && t.muts[0].done
  {
    var job := Job([0, 1], [[], [Swallowing()]], db);
    var slotted := Slotted(s, 0, a);
    assert [a, b][1 := b] == [a, b];
    assert Edit(Swallowing(), b) == Ok(b);
    assert Run(job, slotted, 1, 1) == (slotted, Err(Check(b).value));
    assert Run(job, slotted, 1, 0) == (slotted, Ok(BLANK));
    assert Run(job, s, 0, 0) == Complete(job, slotted, 0, a, None);
  }
}
