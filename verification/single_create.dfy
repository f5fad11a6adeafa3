/** `OrgMemberCreate.Save`, and how bulk creation without hooks agrees with it. */
module SingleCreate {
  import opened Common
  import opened Sequences
  import opened Members
  import opened BulkCreate
  import H = Hooks

  /** What the driver leaves in the ID value of the spec. */
  datatype IdValue = NilId | TextId(s: string) | OtherId

  datatype Answer = Created(id: IdValue) | Refused(e: DbError)

  type Database = CreateSpec -> Answer

  /** The builder's mutation, and the specs the database has accepted. */
  datatype World = World(builder: Mutation, created: seq<CreateSpec>)

  function Finish(w: World, node: Member): (Result<Member>, World) {
    (Ok(node), w.(builder := w.builder.(id := Some(node.id), done := true)))
  }

  /** `sqlSave` on the mutation that reached it. */
  function SqlSave(db: Database): (Mutation, World) -> (Result<Member>, World) {
    (m: Mutation, before: World) =>
      var w := before.(builder := m);
      if Check(m).Some? then (Err(Check(m).value), w)
      else
        match db(SpecOf(m))
        case Refused(e) => (Err(Wrapped(e)), w)
        case Created(id) =>
          var written := w.(created := w.created + [SpecOf(m)]);
          match id
          case NilId => Finish(written, NodeOf(m))
          case TextId(text) => Finish(written, NodeOf(m).(id := text))
          case OtherId => (Err(UnexpectedIdType), written)
  }

  class OrgMemberCreate {
    const hooks: seq<H.Hook<Mutation, Member, World>>
    var mutation: Mutation
    var created: seq<CreateSpec>

    constructor (hooks: seq<H.Hook<Mutation, Member, World>>, mutation: Mutation)
      ensures this.hooks == hooks && this.mutation == mutation && created == []
    {
      this.hooks, this.mutation, created := hooks, mutation, [];
    }

    method SetDefaults(createdAt: int, updatedAt: int)
      modifies this`mutation
      ensures mutation == Defaults(old(mutation), createdAt, updatedAt)
    {
      if mutation.createdAt.None? {
        mutation := mutation.(createdAt := Some(createdAt));
      }
      if mutation.updatedAt.None? {
        mutation := mutation.(updatedAt := Some(updatedAt));
      }
    }

    method Save(db: Database, createdAt: int, updatedAt: int) returns (r: Result<Member>)
      modifies this
      ensures var m := Defaults(old(mutation), createdAt, updatedAt);
              if !H.Initialized(hooks) then
                r == Err(UninitializedHook) && mutation == m && created == old(created)
              else
                var (v, w) := H.Compose(hooks, H.Base(SqlSave(db)))(H.Is(m), World(m, old(created)));
                r == H.Unwrap(v) && mutation == w.builder && created == w.created
    {
      SetDefaults(createdAt, updatedAt);
      var w;
      r, w := H.WithHooks(SqlSave(db), mutation, hooks, World(mutation, created));
      mutation, created := w.builder, w.created;
    }
  }

  /** The result of a create without hooks. */
  function Create(db: Database, m: Mutation, createdAt: int, updatedAt: int): Result<Member> {
    var m := Defaults(m, createdAt, updatedAt);
    SqlSave(db)(m, World(m, [])).0
  }

  /** What became of a create: the error of the checks, or of the database with constraint violations marked as such, or the
      node with the ID the database left. */
  ghost predicate Became(m: Mutation, a: Answer, r: Result<Member>) {
    if Check(m).Some? then r == Err(Check(m).value)
    else if a.Refused? then r == Err(if a.e.constraint then ConstraintError(a.e.cause) else a.e.cause)
    else if a.id.OtherId? then r == Err(UnexpectedIdType)
    else r == Ok(NodeOf(m).(id := if a.id.TextId? then a.id.s else if m.id.Some? then m.id.value else ""))
  }

  /** The flag is set exactly on success, with the node's ID, and nothing else of the mutation changes; an error means that
      nothing was written, except that an ID of an unexpected type is only noticed after the write. */
  lemma SaveOutcome(db: Database, m: Mutation)
    requires !m.done
    ensures var (r, w) := SqlSave(db)(m, World(m, []));
            && Became(m, db(SpecOf(m)), r)
            && (w.builder.done <==> r.Ok?)
            && w.builder == (if r.Ok? then m.(id := Some(r.value.id), done := true) else m)
            && w.created == (if Check(m) == None && db(SpecOf(m)).Created? then [SpecOf(m)] else [])
            && (r.Err? && w.created != [] <==> Check(m) == None && db(SpecOf(m)) == Created(OtherId))
  {
    var (r, w) := SqlSave(db)(m, World(m, []));
    if Check(m) == None && db(SpecOf(m)).Created? {
      assert [] + [SpecOf(m)] == [SpecOf(m)];
      match db(SpecOf(m)).id
      case NilId =>
      case TextId(_) =>
      case OtherId =>
    }
  }

  /** A constraint violation is reported as one, and no other refusal is: the database's causes are not constraint errors of
      this layer. */
  lemma ViolationsReported(db: Database, m: Mutation, createdAt: int, updatedAt: int)
    requires var a := db(SpecOf(Defaults(m, createdAt, updatedAt))); a.Refused? ==> !a.e.cause.ConstraintError?
    ensures var r, a := Create(db, m, createdAt, updatedAt), db(SpecOf(Defaults(m, createdAt, updatedAt)));
            && (r.Err? && r.error.ConstraintError? <==>
                  NonEmpty(m.organization) && NonEmpty(m.user) && NonEmpty(m.role) && a.Refused? && a.e.constraint)
            && (r.Err? && r.error.ConstraintError? ==> r.error.cause == a.e.cause)
  {
    var d := Defaults(m, createdAt, updatedAt);
    DefaultsFill(m, createdAt, updatedAt);
    CheckAccepts(d);
    assert Create(db, m, createdAt, updatedAt) == SqlSave(db)(d, World(d, [])).0;
  }

  /** A create without hooks. */
  method PlainSave(m: Mutation, db: Database, createdAt: int, updatedAt: int) returns (builder: OrgMemberCreate, r: Result<Member>)
    requires !m.done
    ensures r == Create(db, m, createdAt, updatedAt)
    ensures var d := Defaults(m, createdAt, updatedAt);
            && Became(d, db(SpecOf(d)), r)
            && builder.mutation == (if r.Ok? then d.(id := Some(r.value.id), done := true) else d)
            && builder.created == (if Check(d) == None && db(SpecOf(d)).Created? then [SpecOf(d)] else [])
  {
    builder := new OrgMemberCreate([], m);
    r := builder.Save(db, createdAt, updatedAt);
    var d := Defaults(m, createdAt, updatedAt);
    H.NoHooks(SqlSave(db), d, World(d, []));
    SaveOutcome(db, d);
  }

  // ---------- Bulk creation without hooks ----------

  ghost predicate HookFree(job: Job) {
    forall b :: 0 <= b < |job.hooks| ==> job.hooks[b] == []
  }

  /** The first failing check among mutations, in order. */
  function FirstFailing(ms: seq<Mutation>): Option<Error> {
    if ms == [] then None else if Check(ms[0]).Some? then Check(ms[0]) else FirstFailing(ms[1..])
  }

  lemma {:induction false} FirstFailingAt(ms: seq<Mutation>) returns (k: nat)
    requires FirstFailing(ms).Some?
    ensures k < |ms| && Check(ms[k]) == FirstFailing(ms) && forall i :: 0 <= i < k ==> Check(ms[i]) == None
  {
    if Check(ms[0]).Some? {
      k := 0;
    } else {
      k := FirstFailingAt(ms[1..]);
      assert forall i :: 0 < i <= k + 1 ==> ms[i] == ms[1..][i - 1];
      k := k + 1;
    }
  }

  lemma {:induction false} NoneFailing(ms: seq<Mutation>, k: nat)
    requires FirstFailing(ms).None? && k < |ms|
    ensures Check(ms[k]) == None
  {
    if k > 0 {
      NoneFailing(ms[1..], k - 1);
    }
  }

  /** The mutations of the builders, in index order. */
  function Listed(job: Job, muts: seq<Mutation>, i: nat): (r: seq<Mutation>)
    requires Sound(job, |muts|) && i <= |job.builders|
    ensures |r| == |job.builders| - i
  {
    seq(|job.builders| - i, j requires 0 <= j < |job.builders| - i => muts[job.builders[i + j]])
  }

  lemma ListedCons(job: Job, muts: seq<Mutation>, i: nat)
    requires Sound(job, |muts|) && i < |job.builders|
    ensures Listed(job, muts, i) == [muts[job.builders[i]]] + Listed(job, muts, i + 1)
    ensures Listed(job, muts, i)[1..] == Listed(job, muts, i + 1)
  {
  }

  lemma {:induction false} HookFreePlan(job: Job, muts: seq<Mutation>, i: nat)
    requires Sound(job, |muts|) && i < |job.builders| && HookFree(job)
    ensures Plan(job, muts, i, 0) == match FirstFailing(Listed(job, muts, i))
                                     case Some(e) => Err(e)
                                     case None => Ok(Listed(job, muts, i))
    decreases |job.builders| - i
  {
    var b := job.builders[i];
    ListedCons(job, muts, i);
    assert job.hooks[b] == [] && job.hooks[b][0..] == [];
    assert muts[b := muts[b]] == muts;
    if i + 1 < |job.builders| {
      HookFreePlan(job, muts, i + 1);
    } else {
      assert Listed(job, muts, i + 1) == [] && Listed(job, muts, i) == [muts[b]];
    }
  }

  lemma {:induction false} HookFreeFailure(job: Job, s: State, i: nat)
    requires Fits(job, s) && i < |job.builders| && HookFree(job) && Plan(job, s.muts, i, 0).Err?
    ensures Run(job, s, i, 0).1 == Err(Plan(job, s.muts, i, 0).error) && Run(job, s, i, 0).0.muts == s.muts
    decreases |job.builders| - i
  {
    var b := job.builders[i];
    assert job.hooks[b] == [] && job.hooks[b][0..] == [];
    assert s.muts[b := s.muts[b]] == s.muts;
    if Check(s.muts[b]) == None && i + 1 < |job.builders| {
      HookFreeFailure(job, Slotted(s, i, s.muts[b]), i + 1);
    }
  }

  /**
   * Without hooks, bulk creation is: check the builders in order; report the first failure, with nothing written and no
   * mutation touched; otherwise write the spec of every mutation, in order and as one batch, and return their nodes exactly
   * if the database accepts.
   */
  lemma HookFreeRun(job: Job, s: State)
    requires Fits(job, s) && job.builders != [] && HookFree(job)
    ensures var (t, r) := Run(job, s, 0, 0);
            var ms := Listed(job, s.muts, 0);
            match FirstFailing(ms)
            case Some(e) => r == Err(e) && t.batches == s.batches && t.muts == s.muts
            case None =>
              && t.batches == s.batches + [Planned(ms)] && t.nodes == Built(ms)
              && (r.Ok? <==> job.db(Planned(ms)) == None)
              && (r.Err? ==> var e := job.db(Planned(ms)).value;
                             r.error == if e.constraint then ConstraintError(e.cause) else e.cause)
  {
    var ms := Listed(job, s.muts, 0);
    HookFreePlan(job, s.muts, 0);
    WritesThePlanOnce(job, s, 0, 0);
    if FirstFailing(ms).None? {
      Unwinds(job, s, 0, 0);
      assert s.specs[..0] + Planned(ms) == Planned(ms) && s.nodes[..0] + Built(ms) == Built(ms);
      var verdict := Verdict(job, Planned(ms));
      assert HooksAt(job, 0)[0..] == [];
      HookFreeReached(job, 0, ms, verdict);
    } else {
      HookFreeFailure(job, s, 0);
    }
  }

  lemma {:induction false} HookFreeReached(job: Job, i: nat, ms: seq<Mutation>, verdict: Option<Error>)
    requires Sound(job, |job.hooks|) && i < |job.builders| && |ms| == |job.builders| - i && HookFree(job)
    ensures Reached(job, i, ms, verdict) == if verdict.Some? then Err(verdict.value) else Ok(NodeOf(ms[0]))
    decreases |ms|
  {
    if |ms| > 1 {
      HookFreeReached(job, i + 1, ms[1..], verdict);
    }
  }

  lemma {:induction false} DefaultsEach(job: Job, muts: seq<Mutation>, clock: nat -> int, n: nat, j: nat)
    requires Sound(job, |muts|) && j < |job.builders| && n <= |job.builders| && NoDuplicates(job.builders)
    ensures DefaultsUpTo(job, muts, clock, n)[job.builders[j]] ==
            if j < n then Defaults(muts[job.builders[j]], clock(2 * j), clock(2 * j + 1)) else muts[job.builders[j]]
  {
    if n > 0 {
      DefaultsEach(job, muts, clock, n - 1, j);
      DefaultsEach(job, muts, clock, n - 1, n - 1);
    }
  }

  /** The mutation that builder `j` saves. */
  function Saved(job: Job, muts: seq<Mutation>, clock: nat -> int, j: nat): Mutation
    requires Sound(job, |muts|) && j < |job.builders|
  {
    Defaults(muts[job.builders[j]], clock(2 * j), clock(2 * j + 1))
  }

  lemma SavedAt(job: Job, muts: seq<Mutation>, batches: seq<Batch>, clock: nat -> int, j: nat)
    requires Sound(job, |muts|) && j < |job.builders| && NoDuplicates(job.builders)
    ensures Listed(job, Start(job, muts, batches, clock).muts, 0)[j] == Saved(job, muts, clock, j)
  {
    DefaultsEach(job, muts, clock, |job.builders|, j);
  }

  /** The driver leaves the ID of the spec as it was: nil for a mutation without one, and its own otherwise. */
  ghost predicate KeepsId(m: Mutation, a: Answer) {
    a.Created? && (a.id == NilId || a.id == TextId(NodeOf(m).id))
  }

  lemma CreateKeepsId(m: Mutation, db: Database, createdAt: int, updatedAt: int)
    ensures var d := Defaults(m, createdAt, updatedAt);
            Create(db, m, createdAt, updatedAt) == Ok(NodeOf(d)) <==> Check(d) == None && KeepsId(d, db(SpecOf(d)))
  {
    var d := Defaults(m, createdAt, updatedAt);
    assert Create(db, m, createdAt, updatedAt) == SqlSave(db)(d, World(d, [])).0;
  }

  /**
   * On success, bulk creation without hooks of distinct builders writes the specs, in order, that the same builders would
   * write one by one, and returns the nodes they would return, except for generated IDs: a single create returns the same
   * node exactly when the driver reports no ID but the mutation's own.
   */
  lemma BulkRefinesSingles(job: Job, muts: seq<Mutation>, batches: seq<Batch>, clock: nat -> int, db: Database, j: nat)
    requires Sound(job, |muts|) && j < |job.builders| && NoDuplicates(job.builders) && HookFree(job)
    requires Run(job, Start(job, muts, batches, clock), 0, 0).1.Ok?
    ensures var t := Run(job, Start(job, muts, batches, clock), 0, 0).0;
            var m := Saved(job, muts, clock, j);
            && (exists batch: Batch :: t.batches == batches + [batch]
                                       && |batch| == |job.builders| && batch[j] == Some(SpecOf(m)))
            && |t.nodes| == |job.builders| && t.nodes[j] == Some(NodeOf(m))
            && (Create(db, muts[job.builders[j]], clock(2 * j), clock(2 * j + 1)) == Ok(t.nodes[j].value)
                <==> KeepsId(m, db(SpecOf(m))))
  {
    var s := Start(job, muts, batches, clock);
    var ms := Listed(job, s.muts, 0);
    var m := Saved(job, muts, clock, j);
    HookFreeRun(job, s);
    SavedAt(job, muts, batches, clock, j);
    NoneFailing(ms, j);
    assert Planned(ms)[j] == Some(SpecOf(m)) && Built(ms)[j] == Some(NodeOf(m));
    CreateKeepsId(muts[job.builders[j]], db, clock(2 * j), clock(2 * j + 1));
  }

  /** And if it writes nothing, it fails with the error of the first builder whose single create fails its checks. */
  lemma BulkFailsLikeSingles(job: Job, muts: seq<Mutation>, batches: seq<Batch>, clock: nat -> int, db: Database)
    returns (j: nat)
    requires Sound(job, |muts|) && job.builders != [] && NoDuplicates(job.builders) && HookFree(job)
    requires Run(job, Start(job, muts, batches, clock), 0, 0).0.batches == batches
    ensures j < |job.builders|
    ensures forall i :: 0 <= i < j ==> Check(Saved(job, muts, clock, i)) == None
    ensures Run(job, Start(job, muts, batches, clock), 0, 0).1.Err?
    ensures Create(db, muts[job.builders[j]], clock(2 * j), clock(2 * j + 1)) ==
            Run(job, Start(job, muts, batches, clock), 0, 0).1
  {
    var s := Start(job, muts, batches, clock);
    var ms := Listed(job, s.muts, 0);
    HookFreeRun(job, s);
    assert |batches + [Planned(ms)]| == |batches| + 1;
    j := FirstFailingAt(ms);
    forall i | 0 <= i <= j ensures ms[i] == Saved(job, muts, clock, i) {
      SavedAt(job, muts, batches, clock, i);
    }
    var m := Saved(job, muts, clock, j);
    assert Create(db, muts[job.builders[j]], clock(2 * j), clock(2 * j + 1)) == SqlSave(db)(m, World(m, [])).0;
  }
}
