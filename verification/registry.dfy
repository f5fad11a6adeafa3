/**
 * The hook registry: clients that share a configuration share one registry, builders take a snapshot of the slice header,
 * and `append` writes into the backing array whenever it has room.
 */
module Registry {
  import opened Common
  import opened Schema
  import opened Sequences

  // ---------- What registration means ----------

  datatype Op<T> =
    | Open
    | Use(client: nat, kind: Kind, hooks: seq<T>)
    | UseAll(client: nat, hooks: seq<T>)
    | Begin(client: nat)
    | Create(client: nat, kind: Kind)
    | Save(builder: nat)

  datatype ClientModel = ClientModel(registry: nat, tx: bool)

  /** The hooks of every registry by entity kind, the clients, the hooks each builder has, and the hooks each save ran. */
  datatype Model<T> = Model(
    registered: seq<map<Kind, seq<T>>>,
    clients: seq<ClientModel>,
    builders: seq<seq<T>>,
    runs: seq<(nat, seq<T>)>)

  const EVERY_KIND := [Tenant, Organization, OrgMember, OrgInvitation, SAMLConnection, User, Role]

  function HooksOf<T>(registered: map<Kind, seq<T>>, kind: Kind): seq<T> {
    if kind in registered then registered[kind] else []
  }

  /** The hooks of one kind in one registry, followed by more. */
  function Enroll<T>(m: Model<T>, i: nat, kind: Kind, hooks: seq<T>): Model<T>
    requires i < |m.registered|
  {
    m.(registered := m.registered[i := m.registered[i][kind := HooksOf(m.registered[i], kind) + hooks]])
  }

  function Registering<T>(m: Model<T>, client: nat, kinds: seq<Kind>, hooks: seq<T>): (r: Model<T>)
    requires client < |m.clients| && m.clients[client].registry < |m.registered|
    ensures r.clients == m.clients && r.builders == m.builders && r.runs == m.runs && |r.registered| == |m.registered|
  {
    if kinds == [] then m else
      var rest := Registering(m, client, Init(kinds), hooks);
      Enroll(rest, m.clients[client].registry, Last(kinds), hooks)
  }

  ghost predicate Sane<T>(m: Model<T>) {
    forall c :: 0 <= c < |m.clients| ==> m.clients[c].registry < |m.registered|
  }

  /** One operation. An operation on a client or builder that does not exist yet is not possible and changes nothing. */
  function Step<T>(m: Model<T>, op: Op<T>): (r: Model<T>)
    requires Sane(m)
    ensures Sane(r)
  {
    match op
    case Open => m.(registered := m.registered + [map[]], clients := m.clients + [ClientModel(|m.registered|, false)])
    case Use(c, kind, hooks) => if c < |m.clients| then Registering(m, c, [kind], hooks) else m
    case UseAll(c, hooks) => if c < |m.clients| then Registering(m, c, EVERY_KIND, hooks) else m
    case Begin(c) =>
      if c < |m.clients| && !m.clients[c].tx then m.(clients := m.clients + [ClientModel(m.clients[c].registry, true)]) else m
    case Create(c, kind) =>
      if c < |m.clients| then m.(builders := m.builders + [HooksOf(m.registered[m.clients[c].registry], kind)]) else m
    case Save(b) => if b < |m.builders| then m.(runs := m.runs + [(b, m.builders[b])]) else m
  }

  function After<T>(ops: seq<Op<T>>): (m: Model<T>)
    ensures Sane(m)
  {
    if ops == [] then Model([], [], [], []) else Step(After(Init(ops)), Last(ops))
  }

  // ---------- Slices ----------

  /** A Go slice that starts at the beginning of its backing array. */
  datatype Slice<T> = NilSlice | Slice(arr: array<T>, len: nat)

  ghost predicate Holds<T>(s: Slice<T>) {
    s.Slice? ==> s.len <= s.arr.Length
  }

  ghost function Elements<T>(s: Slice<T>): seq<T>
    requires Holds(s)
    reads if s.Slice? then {s.arr} else {}
  {
    if s.Slice? then s.arr[..s.len] else []
  }

  /** `append`: in place when the capacity allows it, into a new and possibly larger array otherwise. */
  method Append<T>(s: Slice<T>, xs: seq<T>) returns (r: Slice<T>)
    requires Holds(s)
    modifies if s.Slice? then {s.arr} else {}
    ensures Holds(r) && Elements(r) == old(Elements(s)) + xs
    ensures xs == [] ==> r == s
    ensures xs != [] ==> r.Slice? && if s.Slice? && s.len + |xs| <= s.arr.Length then r.arr == s.arr else fresh(r.arr)
    ensures s.Slice? ==> s.arr[..s.len] == old(s.arr[..s.len])
    ensures s.Slice? && (xs == [] || r.arr != s.arr) ==> s.arr[..] == old(s.arr[..])
  {
    if |xs| == 0 {
      return s;
    }
    var len := if s.Slice? then s.len else 0;
    if s.Slice? && len + |xs| <= s.arr.Length {
      forall i | 0 <= i < |xs| {
        s.arr[len + i] := xs[i];
      }
      r := Slice(s.arr, len + |xs|);
    } else {
      var slack: nat :| true;
      var before := if s.Slice? then s.arr[..len] else [];
      var arr := new T[len + |xs| + slack](i => xs[0]);
      forall i | 0 <= i < len + |xs| {
        arr[i] := (before + xs)[i];
      }
      r := Slice(arr, len + |xs|);
    }
  }

  // ---------- The running program ----------

  /** The `hooks` struct a configuration points to, by address, and one of its fields. */
  datatype Field = Field(pointer: nat, kind: Kind)

  class Program<T> {
    var structs: nat
    var slices: map<Field, Slice<T>>
    /** Clients are configurations copied by value: a pointer to a `hooks` struct, and whether the driver is a transaction. */
    var clients: seq<ClientModel>
    var builders: seq<Slice<T>>
    var runs: seq<(nat, seq<T>)>
    /** Every backing array in use. */
    ghost var arrays: set<array<T>>

    function At(f: Field): Slice<T>
      reads this`slices
    {
      if f in slices then slices[f] else NilSlice
    }

    ghost predicate Owned(s: Slice<T>)
      reads this`arrays
    {
      s.Slice? ==> s.arr in arrays && s.len <= s.arr.Length
    }

    /** Different fields do not share a backing array, and a builder's snapshot never reaches beyond what is registered in
        the array it shares. */
    ghost predicate Valid()
      reads this
    {
      && (forall f: Field :: Owned(At(f)))
      && (forall f: Field, g: Field :: f != g && At(f).Slice? && At(g).Slice? ==> At(f).arr != At(g).arr)
      && (forall b :: 0 <= b < |builders| ==> Owned(builders[b]))
      && (forall b, f: Field :: 0 <= b < |builders| ==> Behind(builders[b], At(f)))
    }

    ghost predicate Models(m: Model<T>)
      requires Valid()
      reads this, arrays
    {
      && Sane(m) && structs == |m.registered| && clients == m.clients && |builders| == |m.builders| && runs == m.runs
      && (forall f: Field :: Elements(At(f)) == if f.pointer < structs then HooksOf(m.registered[f.pointer], f.kind) else [])
      && (forall b :: 0 <= b < |builders| ==> Elements(builders[b]) == m.builders[b])
    }

    constructor ()
      ensures Valid() && Models(After([])) && fresh(arrays)
    {
      structs, slices, clients, builders, runs, arrays := 0, map[], [], [], [], {};
    }

    method AppendTo(f: Field, hooks: seq<T>)
      requires Valid()
      modifies this`slices, this`arrays, arrays
      ensures Valid() && fresh(arrays - old(arrays))
      ensures Elements(At(f)) == old(Elements(At(f))) + hooks
      ensures forall g: Field :: g != f ==> At(g) == old(At(g)) && Elements(At(g)) == old(Elements(At(g)))
      ensures forall b :: 0 <= b < |builders| ==> Elements(builders[b]) == old(Elements(builders[b]))
    {
      var s := At(f);
      var r := Append(s, hooks);
      Store(f, r);
      forall b | 0 <= b < |builders| ensures Elements(builders[b]) == old(Elements(builders[b])) {
        assert Behind(builders[b], s);
      }
    }

    /** The field holds a slice that extends its own, or one with an array of its own. */
    method Store(f: Field, r: Slice<T>)
      requires Valid() && Holds(r)
      requires r.Slice? && r.arr in arrays ==> At(f).Slice? && At(f).arr == r.arr && At(f).len <= r.len
      modifies this`slices, this`arrays
      ensures Valid() && At(f) == r && forall g: Field :: g != f ==> At(g) == old(At(g))
      ensures arrays == old(arrays) + if r.Slice? then {r.arr} else {}
    {
      arrays := arrays + if r.Slice? then {r.arr} else {};
      assert forall g: Field :: old(Owned(At(g))) ==> Owned(At(g));
      slices := slices[f := r];
      assert At(f) == r && forall g: Field :: g != f ==> At(g) == old(At(g));
    }

    /** `Use` on one entity client: `append` to the slice of its kind. */
    method Register(c: nat, kind: Kind, hooks: seq<T>, ghost m: Model<T>)
      requires Valid() && Models(m) && c < |clients|
      modifies this, arrays
      ensures Valid() && Models(Enroll(m, m.clients[c].registry, kind, hooks))
      ensures fresh(arrays - old(arrays)) && clients == old(clients)
    {
      var f := Field(clients[c].registry, kind);
      AppendTo(f, hooks);
      ghost var after := Enroll(m, f.pointer, kind, hooks);
      forall g: Field ensures Elements(At(g)) == if g.pointer < structs then HooksOf(after.registered[g.pointer], g.kind) else [] {
        if g == f {
          assert after.registered[f.pointer] == m.registered[f.pointer][kind := HooksOf(m.registered[f.pointer], kind) + hooks];
        }
      }
    }

    /** `Client.Use`: the hooks go to the client of every kind, in turn. */
    method RegisterAll(c: nat, hooks: seq<T>, ghost m: Model<T>)
      requires Valid() && Models(m) && c < |clients|
      modifies this, arrays
      ensures Valid() && Models(Registering(m, c, EVERY_KIND, hooks))
      ensures fresh(arrays - old(arrays))
    {
      for i := 0 to |EVERY_KIND|
        invariant Valid() && clients == old(clients) && fresh(arrays - old(arrays))
        invariant Models(Registering(m, c, EVERY_KIND[..i], hooks))
      {
        Register(c, EVERY_KIND[i], hooks, Registering(m, c, EVERY_KIND[..i], hooks));
        assert Init(EVERY_KIND[..i + 1]) == EVERY_KIND[..i];
      }
      assert EVERY_KIND[..|EVERY_KIND|] == EVERY_KIND;
    }

    /** `NewClient`: a configuration with a `hooks` struct of its own. */
    method OpenClient(ghost m: Model<T>)
      requires Valid() && Models(m)
      modifies this`clients, this`structs
      ensures Valid() && Models(Step(m, Open))
    {
      assert forall k :: HooksOf<T>(map[], k) == [];
      clients := clients + [ClientModel(structs, false)];
      structs := structs + 1;
    }

    /** `Tx`: copies the configuration, pointer included, except inside a transaction. */
    method Begin(c: nat, ghost m: Model<T>) returns (ok: bool)
      requires Valid() && Models(m) && c < |clients|
      modifies this`clients
      ensures ok <==> !m.clients[c].tx
      ensures Valid() && Models(Step(m, Op.Begin(c)))
    {
      if clients[c].tx {
        return false;
      }
      clients := clients + [clients[c].(tx := true)];
      ok := true;
    }

    /** `Create`: the new builder gets the slice header, not a copy of the hooks. */
    method Create(c: nat, kind: Kind, ghost m: Model<T>)
      requires Valid() && Models(m) && c < |clients|
      modifies this`builders
      ensures Valid() && Models(Step(m, Op.Create(c, kind)))
    {
      var f := Field(clients[c].registry, kind);
      assert Elements(At(f)) == HooksOf(m.registered[m.clients[c].registry], kind);
      builders := builders + [At(f)];
    }

    /** `Save`: runs the hooks the builder's slice has now. */
    method Save(b: nat, ghost m: Model<T>)
      requires Valid() && Models(m) && b < |builders|
      modifies this`runs
      ensures Valid() && Models(Step(m, Op.Save(b)))
    {
      var hooks := builders[b];
      assert Elements(hooks) == m.builders[b];
      runs := runs + [(b, if hooks.Slice? then hooks.arr[..hooks.len] else [])];
    }

    method Execute(op: Op<T>, ghost m: Model<T>)
      requires Valid() && Models(m)
      modifies this, arrays
      ensures Valid() && Models(Step(m, op)) && fresh(arrays - old(arrays))
    {
      match op
      case Open => OpenClient(m);
      case Use(c, kind, hooks) =>
        if c < |clients| {
          Register(c, kind, hooks, m);
          assert Init([kind]) == [] && Registering(m, c, [], hooks) == m;
          assert Step(m, op) == Enroll(m, m.clients[c].registry, kind, hooks);
        }
      case UseAll(c, hooks) =>
        if c < |clients| {
          RegisterAll(c, hooks, m);
        }
      case Begin(c) =>
        if c < |clients| {
          var _ := Begin(c, m);
        }
      case Create(c, kind) =>
        if c < |clients| {
          Create(c, kind, m);
        }
      case Save(b) =>
        if b < |builders| {
          Save(b, m);
        }
    }
  }

  ghost predicate Behind<T>(snapshot: Slice<T>, current: Slice<T>) {
    snapshot.Slice? && current.Slice? && snapshot.arr == current.arr ==> snapshot.len <= current.len
  }

  /** Any interleaving of operations on the shared slices does what it does on values. */
  method RunProgram<T>(ops: seq<Op<T>>) returns (p: Program<T>)
    ensures p.Valid() && p.Models(After(ops))
  {
    p := new Program<T>();
    for i := 0 to |ops|
      invariant fresh(p) && fresh(p.arrays) && p.Valid() && p.Models(After(ops[..i]))
    {
      p.Execute(ops[i], After(ops[..i]));
      assert Init(ops[..i + 1]) == ops[..i];
    }
    assert ops[..|ops|] == ops;
  }

  // ---------- Which hooks a builder runs ----------

  /** The hooks that one operation registers for a kind in a registry. */
  function Contribution<T>(m: Model<T>, op: Op<T>, registry: nat, kind: Kind): seq<T> {
    match op
    case Use(c, k, hooks) => if c < |m.clients| && m.clients[c].registry == registry && k == kind then hooks else []
    case UseAll(c, hooks) => if c < |m.clients| && m.clients[c].registry == registry then hooks else []
    case _ => []
  }

  /** Everything registered for a kind through clients that share a registry, in order. */
  function History<T>(ops: seq<Op<T>>, registry: nat, kind: Kind): seq<T> {
    if ops == [] then [] else
      History(Init(ops), registry, kind) + Contribution(After(Init(ops)), Last(ops), registry, kind)
  }

  lemma {:induction false} RegisteringAt<T>(m: Model<T>, c: nat, kinds: seq<Kind>, hooks: seq<T>, registry: nat, kind: Kind)
    requires c < |m.clients| && m.clients[c].registry < |m.registered| && registry < |m.registered| && NoDuplicates(kinds)
    ensures HooksOf(Registering(m, c, kinds, hooks).registered[registry], kind) ==
            HooksOf(m.registered[registry], kind) + if m.clients[c].registry == registry && kind in kinds then hooks else []
    decreases |kinds|
  {
    if kinds != [] {
      RegisteringAt(m, c, Init(kinds), hooks, registry, kind);
      assert kinds == Init(kinds) + [Last(kinds)];
    }
  }

  lemma StepRegisters<T>(m: Model<T>, op: Op<T>, registry: nat, kind: Kind)
    requires Sane(m) && registry < |m.registered|
    ensures registry < |Step(m, op).registered|
    ensures HooksOf(Step(m, op).registered[registry], kind) ==
            HooksOf(m.registered[registry], kind) + Contribution(m, op, registry, kind)
  {
    match op
    case Use(c, k, hooks) =>
      if c < |m.clients| {
        RegisteringAt(m, c, [k], hooks, registry, kind);
      }
    case UseAll(c, hooks) =>
      if c < |m.clients| {
        EveryKind(kind);
        RegisteringAt(m, c, EVERY_KIND, hooks, registry, kind);
      }
    case _ =>
  }

  lemma StepOpens<T>(m: Model<T>, op: Op<T>, registry: nat, kind: Kind)
    requires Sane(m) && |m.registered| <= registry
    ensures Contribution(m, op, registry, kind) == []
    ensures registry < |Step(m, op).registered| ==> HooksOf(Step(m, op).registered[registry], kind) == []
  {
  }

  lemma {:induction false} RegisteredIsHistory<T>(ops: seq<Op<T>>, registry: nat, kind: Kind)
    ensures History(ops, registry, kind) ==
            if registry < |After(ops).registered| then HooksOf(After(ops).registered[registry], kind) else []
    decreases |ops|
  {
    if ops != [] {
      var m := After(Init(ops));
      RegisteredIsHistory(Init(ops), registry, kind);
      if registry < |m.registered| {
        StepRegisters(m, Last(ops), registry, kind);
      } else {
        StepOpens(m, Last(ops), registry, kind);
      }
    }
  }

  lemma EveryKind(kind: Kind)
    ensures kind in EVERY_KIND && NoDuplicates(EVERY_KIND)
  {
    var k := match kind case Tenant => 0 case Organization => 1 case OrgMember => 2 case OrgInvitation => 3
                        case SAMLConnection => 4 case User => 5 case Role => 6;
    assert EVERY_KIND[k] == kind;
  }

  lemma StepStays<T>(m: Model<T>, op: Op<T>)
    requires Sane(m)
    ensures m.builders <= Step(m, op).builders && m.clients <= Step(m, op).clients
  {
  }

  lemma {:induction false} BuildersStay<T>(ops: seq<Op<T>>, more: seq<Op<T>>)
    ensures After(ops).builders <= After(ops + more).builders
    decreases |more|
  {
    if more == [] {
      assert ops + more == ops;
    } else {
      BuildersStay(ops, Init(more));
      assert Init(ops + more) == ops + Init(more);
      StepStays(After(ops + Init(more)), Last(more));
    }
  }

  lemma AfterSnoc<T>(ops: seq<Op<T>>, op: Op<T>)
    ensures After(ops + [op]) == Step(After(ops), op)
  {
    assert Init(ops + [op]) == ops;
  }

  /**
   * Whatever happens in between, a builder runs exactly the hooks that were registered for its kind before it was created,
   * through any client that shares the registry of its own client, in registration order.
   */
  lemma SnapshotSafety<T>(before: seq<Op<T>>, c: nat, kind: Kind, between: seq<Op<T>>)
    requires c < |After(before).clients|
    ensures var b := |After(before).builders|;
            var runs := After(before + [Op.Create(c, kind)] + between + [Op.Save(b)]).runs;
            && runs != [] && Last(runs) == (b, History(before, After(before).clients[c].registry, kind))
  {
    var m := After(before);
    var b := |m.builders|;
    var created := before + [Op.Create(c, kind)];
    AfterSnoc(before, Op.Create(c, kind));
    RegisteredIsHistory(before, m.clients[c].registry, kind);
    assert After(created).builders[b] == History(before, m.clients[c].registry, kind);
    BuildersStay(created, between);
    AfterSnoc(created + between, Op.Save(b));
  }

  lemma SavedAtOnce<T>(ops: seq<Op<T>>, c: nat, kind: Kind)
    requires c < |After(ops).clients|
    ensures var b := |After(ops).builders|;
            var runs := After(ops + [Op.Create(c, kind), Op.Save(b)]).runs;
            runs != [] && Last(runs) == (b, History(ops, After(ops).clients[c].registry, kind))
  {
    var b := |After(ops).builders|;
    SnapshotSafety(ops, c, kind, []);
    assert ops + [Op.Create(c, kind)] + [] + [Op.Save(b)] == ops + [Op.Create(c, kind), Op.Save(b)];
  }

  /** A new client has a registry that no client before it has. */
  lemma OpenIsSeparate<T>(ops: seq<Op<T>>)
    ensures var before, after := After(ops).clients, After(ops + [Op.Open]).clients;
            && |after| == |before| + 1 && after[..|before|] == before && !after[|before|].tx
            && (forall c :: 0 <= c < |before| ==> after[c].registry != after[|before|].registry)
            && forall kind :: History(ops + [Op.Open], after[|before|].registry, kind) == []
  {
    AfterSnoc(ops, Op.Open);
    forall kind ensures History(ops + [Op.Open], |After(ops).registered|, kind) == [] {
      RegisteredIsHistory(ops + [Op.Open], |After(ops).registered|, kind);
    }
  }

  /** A transaction is one more client, with the registry of the client it was started on; inside a transaction there is no
      other. */
  lemma BeginShares<T>(ops: seq<Op<T>>, c: nat)
    requires c < |After(ops).clients|
    ensures var before, after := After(ops).clients, After(ops + [Op.Begin(c)]).clients;
            if before[c].tx then After(ops + [Op.Begin(c)]) == After(ops) else
              && |after| == |before| + 1 && after[..|before|] == before
              && after[|before|].tx && after[|before|].registry == before[c].registry
  {
    AfterSnoc(ops, Op.Begin(c));
  }

  /**
   * A transaction runs the hooks of the client it was started on: those registered before it began, and those registered
   * afterwards through either of them.
   */
  lemma TransactionRuns<T>(before: seq<Op<T>>, c: nat, kind: Kind, between: seq<Op<T>>)
    requires c < |After(before).clients| && !After(before).clients[c].tx
    ensures var tx, registry := |After(before).clients|, After(before).clients[c].registry;
            var ops := before + [Op.Begin(c)] + between;
            var b := |After(ops).builders|;
            && tx < |After(ops).clients| && After(ops).clients[c].registry == After(ops).clients[tx].registry == registry
            && var runs := After(ops + [Op.Create(tx, kind), Op.Save(b)]).runs;
            && runs != [] && Last(runs) == (b, History(ops, registry, kind))
            && History(before, registry, kind) <= History(ops, registry, kind)
  {
    var tx, registry := |After(before).clients|, After(before).clients[c].registry;
    var begun := before + [Op.Begin(c)];
    TransactionStays(before, c, between);
    SavedAtOnce(begun + between, tx, kind);
    HistoryGrows(before, [Op.Begin(c)], registry, kind);
    HistoryGrows(begun, between, registry, kind);
  }

  lemma TransactionStays<T>(before: seq<Op<T>>, c: nat, between: seq<Op<T>>)
    requires c < |After(before).clients| && !After(before).clients[c].tx
    ensures var tx, clients := |After(before).clients|, After(before + [Op.Begin(c)] + between).clients;
            tx < |clients| && clients[c].registry == clients[tx].registry == After(before).clients[c].registry
  {
    var begun := before + [Op.Begin(c)];
    BeginShares(before, c);
    ClientsStay(begun, between);
    assert After(begun).clients[c] == After(before).clients[c];
  }

  lemma {:induction false} ClientsStay<T>(ops: seq<Op<T>>, more: seq<Op<T>>)
    ensures After(ops).clients <= After(ops + more).clients
    decreases |more|
  {
    if more == [] {
      assert ops + more == ops;
    } else {
      ClientsStay(ops, Init(more));
      assert Init(ops + more) == ops + Init(more);
      StepStays(After(ops + Init(more)), Last(more));
    }
  }

  /** A hook registered through one client is run by every later builder of every client that shares its registry, and by
      no builder of any other client. */
  lemma SharedRegistration<T>(before: seq<Op<T>>, c: nat, d: nat, kind: Kind, hooks: seq<T>, between: seq<Op<T>>)
    requires c < |After(before).clients|
    requires d < |After(before + [Op.Use(c, kind, hooks)] + between).clients|
    ensures var ops := before + [Op.Use(c, kind, hooks)] + between;
            var registry := After(ops).clients[d].registry;
            var b := |After(ops).builders|;
            var runs := After(ops + [Op.Create(d, kind), Op.Save(b)]).runs;
            && runs != [] && Last(runs) == (b, History(ops, registry, kind))
            && (registry == After(before).clients[c].registry ==>
                  History(before, registry, kind) + hooks <= History(ops, registry, kind))
            && (registry != After(before).clients[c].registry ==>
                  History(before + [Op.Use(c, kind, hooks)], registry, kind) == History(before, registry, kind))
  {
    var used := before + [Op.Use(c, kind, hooks)];
    var ops := used + between;
    var registry := After(ops).clients[d].registry;
    SavedAtOnce(ops, d, kind);
    assert Init(used) == before;
    HistoryGrows(used, between, registry, kind);
  }

  lemma {:induction false} HistoryGrows<T>(ops: seq<Op<T>>, more: seq<Op<T>>, registry: nat, kind: Kind)
    ensures History(ops, registry, kind) <= History(ops + more, registry, kind)
    decreases |more|
  {
    if more == [] {
      assert ops + more == ops;
    } else {
      HistoryGrows(ops, Init(more), registry, kind);
      assert Init(ops + more) == ops + Init(more);
    }
  }
}
