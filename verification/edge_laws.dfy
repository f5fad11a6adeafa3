/** What the emitted edge specs do to the stored foreign keys, for every sequence of builder calls. */
module EdgeLaws {
  import opened Common
  import opened Schema
  import opened Sequences
  import opened EdgeUpdate

  /** The foreign keys: the organization of each child for a list edge, the tenant of each organization for the tenant edge. */
  type Store = map<Edge, map<string, string>>

  function Links(store: Store, e: Edge): map<string, string> {
    if e in store then store[e] else map[]
  }

  function KeyOf(store: Store, e: Edge, row: string): Option<string> {
    if row in Links(store, e) then Some(Links(store, e)[row]) else None
  }

  /** Clearing an edge of the given organizations: all of it if the spec has no targets, otherwise only the targets. */
  predicate Unlinks(s: EdgeSpec, orgs: set<string>, row: string, key: string) {
    if s.edge.Cardinality() == O2M then key in orgs && (s.targets == [] || row in s.targets)
    else row in orgs && (s.targets == [] || key in s.targets)
  }

  function ClearOne(store: Store, orgs: set<string>, s: EdgeSpec): Store {
    var links := Links(store, s.edge);
    store[s.edge := map row | row in links && !Unlinks(s, orgs, row, links[row]) :: links[row]]
  }

  /** Adding an edge: the targets of a list edge get the owner, and the organizations get the target of a unique one. */
  function AddOne(store: Store, orgs: set<string>, owner: string, s: EdgeSpec): Store {
    var links := Links(store, s.edge);
    if s.edge.Cardinality() == O2M then store[s.edge := links + map row | row in s.targets :: owner]
    else if s.targets == [] then store
    else store[s.edge := links + map row | row in orgs :: s.targets[0]]
  }

  function ClearAll(store: Store, orgs: set<string>, specs: seq<EdgeSpec>): Store {
    if specs == [] then store else ClearOne(ClearAll(store, orgs, Init(specs)), orgs, Last(specs))
  }

  function AddAll(store: Store, orgs: set<string>, owner: string, specs: seq<EdgeSpec>): Store {
    if specs == [] then store else AddOne(AddAll(store, orgs, owner, Init(specs)), orgs, owner, Last(specs))
  }

  /** The update of the matched organizations: clear specs first, then add specs. */
  function Applied(store: Store, orgs: set<string>, owner: string, spec: UpdateSpec): Store {
    AddAll(ClearAll(store, orgs, spec.clear), orgs, owner, spec.add)
  }

  // ---------- One edge, one row ----------

  ghost predicate Clears(specs: seq<EdgeSpec>, e: Edge, row: string) {
    exists s :: s in specs && s.edge == e && (s.targets == [] || row in s.targets)
  }

  ghost predicate Adds(specs: seq<EdgeSpec>, e: Edge, row: string) {
    exists s :: s in specs && s.edge == e && row in s.targets
  }

  predicate ListEdge(e: Edge) {
    e == OrgMembers || e == OrgInvitations || e == OrgSamlConnections
  }

  lemma HitsLast(specs: seq<EdgeSpec>, e: Edge, row: string)
    requires specs != []
    ensures var s := Last(specs);
            && (Clears(specs, e, row) <==> Clears(Init(specs), e, row) || (s.edge == e && (s.targets == [] || row in s.targets)))
            && (Adds(specs, e, row) <==> Adds(Init(specs), e, row) || (s.edge == e && row in s.targets))
  {
    assert specs == Init(specs) + [Last(specs)];
  }

  lemma ClearOneKey(store: Store, orgs: set<string>, s: EdgeSpec, e: Edge, row: string)
    requires ListEdge(e)
    ensures KeyOf(ClearOne(store, orgs, s), e, row) ==
            var key := KeyOf(store, e, row);
            if key.Some? && key.value in orgs && s.edge == e && (s.targets == [] || row in s.targets) then None else key
  {
  }

  lemma AddOneKey(store: Store, orgs: set<string>, owner: string, s: EdgeSpec, e: Edge, row: string)
    requires ListEdge(e)
    ensures KeyOf(AddOne(store, orgs, owner, s), e, row) ==
            if s.edge == e && row in s.targets then Some(owner) else KeyOf(store, e, row)
  {
  }

  lemma {:induction false} ClearedKey(store: Store, orgs: set<string>, specs: seq<EdgeSpec>, e: Edge, row: string)
    requires ListEdge(e)
    ensures KeyOf(ClearAll(store, orgs, specs), e, row) ==
            var key := KeyOf(store, e, row);
            if key.Some? && key.value in orgs && Clears(specs, e, row) then None else key
  {
    if specs != [] {
      ClearedKey(store, orgs, Init(specs), e, row);
      ClearOneKey(ClearAll(store, orgs, Init(specs)), orgs, Last(specs), e, row);
      HitsLast(specs, e, row);
    }
  }

  lemma {:induction false} AddedKey(store: Store, orgs: set<string>, owner: string, specs: seq<EdgeSpec>, e: Edge, row: string)
    requires ListEdge(e)
    ensures KeyOf(AddAll(store, orgs, owner, specs), e, row) ==
            if Adds(specs, e, row) then Some(owner) else KeyOf(store, e, row)
  {
    if specs != [] {
      AddedKey(store, orgs, owner, Init(specs), e, row);
      AddOneKey(AddAll(store, orgs, owner, Init(specs)), orgs, owner, Last(specs), e, row);
      HitsLast(specs, e, row);
    }
  }

  lemma ClearIntentsOf(m: Changes, x: Intent)
    requires ListEdge(x.edge)
    ensures x in ClearIntents(m) <==> x in Cleared(m, x.edge)
  {
    assert forall e, y :: y in Cleared(m, e) ==> y.edge == e;
  }

  lemma AddIntentsOf(m: Changes, x: Intent)
    requires ListEdge(x.edge)
    ensures x in AddIntents(m) <==> x in Added(m, x.edge)
  {
    assert forall e, y :: y in Added(m, e) ==> y.edge == e;
  }

  lemma HasIntent(specs: seq<EdgeSpec>, s: EdgeSpec)
    requires s in specs
    ensures IntentOf(s) in Map(IntentOf, specs) && (s.targets == [] <==> IntentOf(s).targets == {})
  {
    var i :| 0 <= i < |specs| && specs[i] == s;
    assert Map(IntentOf, specs)[i] == IntentOf(s);
    assert s.targets != [] ==> s.targets[0] in IntentOf(s).targets;
  }

  lemma FromIntent(specs: seq<EdgeSpec>, x: Intent) returns (s: EdgeSpec)
    requires x in Map(IntentOf, specs)
    ensures s in specs && IntentOf(s) == x && (s.targets == [] <==> x.targets == {})
  {
    var i :| 0 <= i < |specs| && Map(IntentOf, specs)[i] == x;
    s := specs[i];
    HasIntent(specs, s);
  }

  /** The clear specs a mutation emits for a list edge hit exactly its removed targets, or everything if it was cleared. */
  lemma EmittedClears(m: Changes, spec: UpdateSpec, e: Edge, row: string)
    requires Emits(m, spec) && ListEdge(e)
    ensures Clears(spec.clear, e, row) <==> ChangeOf(m, e).cleared || row in ChangeOf(m, e).removed
  {
    if Clears(spec.clear, e, row) {
      var s :| s in spec.clear && s.edge == e && (s.targets == [] || row in s.targets);
      HasIntent(spec.clear, s);
      ClearIntentsOf(m, IntentOf(s));
    }
    if ChangeOf(m, e).cleared || row in ChangeOf(m, e).removed {
      ClearIntentsOf(m, Cleared(m, e)[0]);
      var s := FromIntent(spec.clear, Cleared(m, e)[0]);
      assert row in s.targets <==> row in IntentOf(s).targets;
    }
  }

  /** The add specs a mutation emits for a list edge hit exactly its added targets. */
  lemma EmittedAdds(m: Changes, spec: UpdateSpec, e: Edge, row: string)
    requires Emits(m, spec) && ListEdge(e)
    ensures Adds(spec.add, e, row) <==> row in ChangeOf(m, e).added
  {
    if Adds(spec.add, e, row) {
      var s :| s in spec.add && s.edge == e && row in s.targets;
      HasIntent(spec.add, s);
      AddIntentsOf(m, IntentOf(s));
    }
    if row in ChangeOf(m, e).added {
      AddIntentsOf(m, Added(m, e)[0]);
      var s := FromIntent(spec.add, Added(m, e)[0]);
      assert row in s.targets <==> row in IntentOf(s).targets;
    }
  }

  /** Where one child of one edge ends up. */
  lemma ChildAfter(m: Changes, spec: UpdateSpec, store: Store, orgs: set<string>, owner: string, e: Edge, row: string)
    requires Emits(m, spec) && ListEdge(e)
    ensures KeyOf(Applied(store, orgs, owner, spec), e, row) ==
            var c := ChangeOf(m, e);
            var key := KeyOf(store, e, row);
            if row in c.added then Some(owner)
            else if key.Some? && key.value in orgs && (c.cleared || row in c.removed) then None
            else key
  {
    EmittedClears(m, spec, e, row);
    EmittedAdds(m, spec, e, row);
    ClearedKey(store, orgs, spec.clear, e, row);
    AddedKey(ClearAll(store, orgs, spec.clear), orgs, owner, spec.add, e, row);
  }

  function Children(store: Store, e: Edge, org: string): set<string> {
    set row | row in Links(store, e) && Links(store, e)[row] == org
  }

  /**
   * The edge algebra, for each list edge on its own: an updated organization keeps (if cleared, nothing; otherwise what was
   * not removed), its owner gains what was added, and everyone else loses what the owner gained.
   */
  lemma EdgeAlgebra(m: Changes, spec: UpdateSpec, store: Store, orgs: set<string>, owner: string, e: Edge, org: string)
    requires Emits(m, spec) && ListEdge(e) && owner in orgs
    ensures var c := ChangeOf(m, e);
            var before, after := Children(store, e, org), Children(Applied(store, orgs, owner, spec), e, org);
            var kept := if org !in orgs then before else if c.cleared then {} else before - c.removed;
            after == if org == owner then kept + c.added else kept - c.added
  {
    var c := ChangeOf(m, e);
    var before, after := Children(store, e, org), Children(Applied(store, orgs, owner, spec), e, org);
    forall row ensures row in after <==> KeyOf(Applied(store, orgs, owner, spec), e, row) == Some(org) {
    }
    forall row ensures row in before <==> KeyOf(store, e, row) == Some(org) {
    }
    var kept := if org !in orgs then before else if c.cleared then {} else before - c.removed;
    forall row ensures row in after <==> row in (if org == owner then kept + c.added else kept - c.added) {
      ChildAfter(m, spec, store, orgs, owner, e, row);
    }
  }

  // ---------- The tenant edge ----------

  lemma {:induction false} TenantCleared(store: Store, orgs: set<string>, specs: seq<EdgeSpec>, org: string)
    requires forall s :: s in specs && s.edge == OrgTenant ==> s.targets == []
    ensures KeyOf(ClearAll(store, orgs, specs), OrgTenant, org) ==
            if org in orgs && (exists s :: s in specs && s.edge == OrgTenant) then None else KeyOf(store, OrgTenant, org)
  {
    if specs != [] {
      assert specs == Init(specs) + [Last(specs)];
      TenantCleared(store, orgs, Init(specs), org);
      assert (exists s :: s in specs && s.edge == OrgTenant) <==>
             (exists s :: s in Init(specs) && s.edge == OrgTenant) || Last(specs).edge == OrgTenant;
    }
  }

  lemma {:induction false} TenantAdded(store: Store, orgs: set<string>, owner: string, specs: seq<EdgeSpec>, id: string, org: string)
    requires forall s :: s in specs && s.edge == OrgTenant ==> s.targets != [] && s.targets[0] == id
    ensures KeyOf(AddAll(store, orgs, owner, specs), OrgTenant, org) ==
            if org in orgs && (exists s :: s in specs && s.edge == OrgTenant) then Some(id) else KeyOf(store, OrgTenant, org)
  {
    if specs != [] {
      assert specs == Init(specs) + [Last(specs)];
      TenantAdded(store, orgs, owner, Init(specs), id, org);
      assert (exists s :: s in specs && s.edge == OrgTenant) <==>
             (exists s :: s in Init(specs) && s.edge == OrgTenant) || Last(specs).edge == OrgTenant;
    }
  }

  /** A mutation emits a clear spec for the tenant exactly when it cleared it, and an add spec exactly when it set it. */
  lemma EmittedTenant(m: Changes, spec: UpdateSpec)
    requires Emits(m, spec)
    ensures (exists s :: s in spec.clear && s.edge == OrgTenant) <==> m.tenantCleared
    ensures (exists s :: s in spec.add && s.edge == OrgTenant) <==> m.tenant.Some?
    ensures forall s :: s in spec.clear && s.edge == OrgTenant ==> s.targets == []
    ensures forall s :: s in spec.add && s.edge == OrgTenant ==>
              m.tenant.Some? && s.targets != [] && s.targets[0] == m.tenant.value
  {
    TenantIntents(m);
    forall s | s in spec.clear && s.edge == OrgTenant ensures m.tenantCleared && s.targets == [] {
      HasIntent(spec.clear, s);
    }
    forall s | s in spec.add && s.edge == OrgTenant
      ensures m.tenant.Some? && s.targets != [] && s.targets[0] == m.tenant.value
    {
      HasIntent(spec.add, s);
      assert s.targets != [] ==> s.targets[0] in IntentOf(s).targets;
    }
    if m.tenantCleared {
      var s := FromIntent(spec.clear, Intent(OrgTenant, {}));
    }
    if m.tenant.Some? {
      var s := FromIntent(spec.add, Intent(OrgTenant, {m.tenant.value}));
    }
  }

  lemma TenantIntents(m: Changes)
    ensures forall x :: x in ClearIntents(m) && x.edge == OrgTenant <==> m.tenantCleared && x == Intent(OrgTenant, {})
    ensures forall x :: x in AddIntents(m) && x.edge == OrgTenant <==>
                        m.tenant.Some? && x == Intent(OrgTenant, {m.tenant.value})
  {
    assert forall e, y :: y in Cleared(m, e) || y in Added(m, e) ==> y.edge == e;
    if m.tenantCleared {
      assert ClearIntents(m)[0] == Intent(OrgTenant, {});
    }
    if m.tenant.Some? {
      assert AddIntents(m)[0] == Intent(OrgTenant, {m.tenant.value});
    }
  }

  /** The tenant of an updated organization: the one set, else none if it was cleared, else the old one. */
  lemma TenantAfter(m: Changes, spec: UpdateSpec, store: Store, orgs: set<string>, owner: string, org: string)
    requires Emits(m, spec)
    ensures KeyOf(Applied(store, orgs, owner, spec), OrgTenant, org) ==
            if org !in orgs then KeyOf(store, OrgTenant, org)
            else if m.tenant.Some? then m.tenant
            else if m.tenantCleared then None
            else KeyOf(store, OrgTenant, org)
  {
    EmittedTenant(m, spec);
    TenantCleared(store, orgs, spec.clear, org);
    var id := if m.tenant.Some? then m.tenant.value else "";
    TenantAdded(ClearAll(store, orgs, spec.clear), orgs, owner, spec.add, id, org);
  }

  /** What a mutation needs to pass, given the first failing validator of its plain fields. */
  predicate Acceptable(m: Changes, fields: Option<Error>) {
    m.tenant != Some("") && fields.None? && !(m.tenantCleared && m.tenant.Some?)
  }

  /** The check passes exactly then; otherwise an empty tenant is reported first, then a failing validator, then the clearing
      of a required edge that was also set. */
  lemma CheckAccepts(m: Changes, fields: Option<Error>)
    ensures Check(m, fields) == None <==> Acceptable(m, fields)
    ensures m.tenant == Some("") ==> Check(m, fields) == Some(ValidationError("tenant_id"))
    ensures m.tenant != Some("") && fields.Some? ==> Check(m, fields) == fields
    ensures m.tenant != Some("") && fields.None? && m.tenantCleared && m.tenant.Some? ==>
              Check(m, fields) == Some(ClearingRequiredEdge("tenant"))
  {
  }

  /** A mutation emits both a clear and an add spec for the tenant exactly if it is one the check would refuse for it: with
      a tenant and valid fields it is refused, and a passing one never emits both. */
  lemma NeverBoth(m: Changes, fields: Option<Error>, spec: UpdateSpec)
    requires Emits(m, spec)
    ensures var both := (exists s :: s in spec.clear && s.edge == OrgTenant) && (exists s :: s in spec.add && s.edge == OrgTenant);
            && (Check(m, fields) == None <==> m.tenant != Some("") && fields.None? && !both)
            && (both ==> Check(m, fields) ==
                           if m.tenant == Some("") then Some(ValidationError("tenant_id"))
                           else if fields.Some? then fields
                           else Some(ClearingRequiredEdge("tenant")))
  {
    EmittedTenant(m, spec);
    CheckAccepts(m, fields);
  }

  /** Clearing the required tenant edge without setting a new tenant is not refused: the emitted specs leave the updated
      organizations without one. */
  lemma ClearTenantAlonePasses(calls: seq<Call>, spec: UpdateSpec, store: Store, orgs: set<string>, owner: string, org: string)
    requires After(calls).tenant == None && org in orgs
    requires Emits(After(calls + [ClearTenant]), spec)
    ensures Check(After(calls + [ClearTenant]), None) == None
    ensures KeyOf(Applied(store, orgs, owner, spec), OrgTenant, org) == None
  {
    assert Init(calls + [ClearTenant]) == calls;
    TenantAfter(After(calls + [ClearTenant]), spec, store, orgs, owner, org);
  }

  // ---------- Any sequence of builder calls ----------

  datatype Mention = Never | Connected | Disconnected

  /** What the last call said about one target of an edge, since the edge was last reset. */
  function LastMention(calls: seq<Call>, e: Edge, row: string): Mention {
    if calls == [] then Never else
      match Last(calls)
      case Add(x, ids) => if x == e && row in ids then Connected else LastMention(Init(calls), e, row)
      case Remove(x, ids) => if x == e && row in ids then Disconnected else LastMention(Init(calls), e, row)
      case Reset(x) => if x == e then Never else LastMention(Init(calls), e, row)
      case _ => LastMention(Init(calls), e, row)
  }

  /** Whether, since the edge was last reset, some call cleared it or removed the target. */
  predicate Dropped(calls: seq<Call>, e: Edge, row: string) {
    calls != [] &&
    match Last(calls)
    case Clear(x) => x == e || Dropped(Init(calls), e, row)
    case Remove(x, ids) => (x == e && row in ids) || Dropped(Init(calls), e, row)
    case Reset(x) => x != e && Dropped(Init(calls), e, row)
    case _ => Dropped(Init(calls), e, row)
  }

  lemma StepHistory(m: Changes, call: Call, e: Edge, row: string)
    ensures row in ChangeOf(Step(m, call), e).added <==>
            match call
            case Add(x, ids) => (x == e && row in ids) || row in ChangeOf(m, e).added
            case Remove(x, ids) => !(x == e && row in ids) && row in ChangeOf(m, e).added
            case Reset(x) => x != e && row in ChangeOf(m, e).added
            case _ => row in ChangeOf(m, e).added
    ensures ChangeOf(Step(m, call), e).cleared || row in ChangeOf(Step(m, call), e).removed <==>
            match call
            case Clear(x) => x == e || ChangeOf(m, e).cleared || row in ChangeOf(m, e).removed
            case Remove(x, ids) => (x == e && row in ids) || ChangeOf(m, e).cleared || row in ChangeOf(m, e).removed
            case Reset(x) => x != e && (ChangeOf(m, e).cleared || row in ChangeOf(m, e).removed)
            case _ => ChangeOf(m, e).cleared || row in ChangeOf(m, e).removed
  {
  }

  lemma {:induction false} ChangeHistory(calls: seq<Call>, e: Edge, row: string)
    ensures var c := ChangeOf(After(calls), e);
            && (row in c.added <==> LastMention(calls, e, row) == Connected)
            && (c.cleared || row in c.removed <==> Dropped(calls, e, row))
  {
    if calls != [] {
      ChangeHistory(Init(calls), e, row);
      StepHistory(After(Init(calls)), Last(calls), e, row);
    }
  }

  /**
   * For any sequence of builder calls: a target whose last mention connects it ends up with the owner, whatever was cleared
   * or removed before or after; any other child of an updated organization is unlinked exactly if it was removed or its edge
   * cleared since the last reset; every other child stays.
   */
  lemma CallsDecide(calls: seq<Call>, spec: UpdateSpec, store: Store, orgs: set<string>, owner: string, e: Edge, row: string)
    requires Emits(After(calls), spec) && ListEdge(e)
    ensures KeyOf(Applied(store, orgs, owner, spec), e, row) ==
            var key := KeyOf(store, e, row);
            if LastMention(calls, e, row) == Connected then Some(owner)
            else if key.Some? && key.value in orgs && Dropped(calls, e, row) then None
            else key
  {
    ChangeHistory(calls, e, row);
    ChildAfter(After(calls), spec, store, orgs, owner, e, row);
  }

  /** Call `j` sets or resets the tenant, and no later call does. */
  ghost predicate LastSetting(calls: seq<Call>, j: nat) {
    && j < |calls| && (calls[j].SetTenant? || calls[j] == ResetTenant)
    && forall i :: j < i < |calls| ==> !calls[i].SetTenant? && calls[i] != ResetTenant
  }

  /** The tenant was cleared after it was last reset, if it ever was. */
  ghost predicate ClearedSince(calls: seq<Call>) {
    exists j :: 0 <= j < |calls| && calls[j] == ClearTenant && forall i :: j < i < |calls| ==> calls[i] != ResetTenant
  }

  lemma {:induction false} TenantHistory(calls: seq<Call>)
    ensures After(calls).tenantCleared <==> ClearedSince(calls)
    ensures (exists j: nat :: LastSetting(calls, j)) || After(calls).tenant == None
    ensures forall j: nat :: LastSetting(calls, j) ==>
              After(calls).tenant == if calls[j].SetTenant? then Some(calls[j].id) else None
  {
    if calls != [] {
      var before, n := Init(calls), |calls| - 1;
      TenantHistory(before);
      assert forall i :: 0 <= i < n ==> calls[i] == before[i];
      assert Last(calls).SetTenant? || Last(calls) == ResetTenant ==> LastSetting(calls, n);
      assert !(Last(calls).SetTenant? || Last(calls) == ResetTenant) ==>
               forall j: nat :: LastSetting(calls, j) <==> LastSetting(before, j);
    }
  }

  /**
   * For any sequence of builder calls, an updated organization has the tenant that was last set and not
   * reset; if there is none, it loses its tenant exactly if the edge was cleared and not reset since.
   */
  lemma CallsDecideTenant(calls: seq<Call>, spec: UpdateSpec, store: Store, orgs: set<string>, owner: string, org: string)
    requires Emits(After(calls), spec) && org in orgs
    ensures forall j: nat :: LastSetting(calls, j) && calls[j].SetTenant? ==>
              KeyOf(Applied(store, orgs, owner, spec), OrgTenant, org) == Some(calls[j].id)
    ensures (forall j: nat :: LastSetting(calls, j) ==> calls[j] == ResetTenant) ==>
              KeyOf(Applied(store, orgs, owner, spec), OrgTenant, org) ==
              if ClearedSince(calls) then None else KeyOf(store, OrgTenant, org)
  {
    TenantHistory(calls);
    TenantAfter(After(calls), spec, store, orgs, owner, org);
  }

  /** Clearing an edge does not take back what was added before it: the owner ends up with exactly the added targets. */
  lemma ClearKeepsEarlierAdds(calls: seq<Call>, e: Edge, spec: UpdateSpec, store: Store, owner: string)
    requires ListEdge(e) && Emits(After(calls + [Clear(e)]), spec)
    ensures Children(Applied(store, {owner}, owner, spec), e, owner) == ChangeOf(After(calls), e).added
  {
    assert Init(calls + [Clear(e)]) == calls;
    EdgeAlgebra(After(calls + [Clear(e)]), spec, store, {owner}, owner, e, owner);
  }

  // ---------- Saving ----------

  /** What the database answers to an update. */
  datatype Answer = Updated(n: nat) | Missing | Refused(constraint: bool, cause: Error)

  class OrganizationUpdate {
    const mutation: OrganizationMutation
    /** The first failing validator of the plain fields, if any. */
    const fields: Option<Error>

    constructor (mutation: OrganizationMutation, fields: Option<Error>)
      ensures this.mutation == mutation && this.fields == fields
    {
      this.mutation, this.fields := mutation, fields;
    }

    /** `sqlSave`: the flag is set, and the stored edges change, exactly when the update succeeds. */
    method SqlSave(store: Store, orgs: set<string>, owner: string, answer: Answer) returns (r: Result<nat>, after: Store)
      requires owner in orgs
      modifies mutation`done
      ensures var m := mutation.Value();
              && (r.Ok? <==> Acceptable(m, fields) && answer.Updated?)
              && mutation.done == (old(mutation.done) || r.Ok?)
              && (r.Err? ==> after == store)
              && (r.Ok? ==> r.value == answer.n
                            && exists spec :: Emits(m, spec) && after == Applied(store, orgs, owner, spec))
              && (m.tenant == Some("") ==> r == Err(ValidationError("tenant_id")))
              && (m.tenant != Some("") && fields.Some? ==> r == Err(fields.value))
              && (m.tenant != Some("") && fields.None? && m.tenantCleared && m.tenant.Some? ==>
                    r == Err(ClearingRequiredEdge("tenant")))
              && (Acceptable(m, fields) && answer.Missing? ==> r == Err(NotFound("organization")))
              && (Acceptable(m, fields) && answer.Refused? ==>
                    r == Err(if answer.constraint then ConstraintError(answer.cause) else answer.cause))
    {
      after := store;
      CheckAccepts(mutation.Value(), fields);
      var refusal := Check(Changes(mutation.edges, mutation.tenant, mutation.tenantCleared), fields);
      if refusal.Some? {
        return Err(refusal.value), after;
      }
      var spec := mutation.EdgeSpecs();
      match answer
      case Missing => return Err(NotFound(Label(Organization))), after;
      case Refused(constraint, cause) =>
        return Err(if constraint then ConstraintError(cause) else cause), after;
      case Updated(n) =>
        mutation.done := true;
        return Ok(n), Applied(store, orgs, owner, spec);
    }
  }
}
