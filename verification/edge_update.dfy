/**
 * Edge changes of an Organization update: the sets a mutation collects, the Clear and Add specs `sqlSave` emits for them,
 * and what those do to the stored foreign keys.
 */
module EdgeUpdate {
  import opened Common
  import opened Schema
  import opened Sequences

  // ---------- The mutation ----------

  datatype Change = Change(added: set<string>, removed: set<string>, cleared: bool)

  const UNCHANGED := Change({}, {}, false)

  datatype Changes = Changes(edges: map<Edge, Change>, tenant: Option<string>, tenantCleared: bool)

  const NO_CHANGES := Changes(map[], None, false)

  datatype Call =
    | Add(edge: Edge, ids: seq<string>)
    | Remove(edge: Edge, ids: seq<string>)
    | Clear(edge: Edge)
    | Reset(edge: Edge)
    | SetTenant(id: string)
    | ClearTenant
    | ResetTenant

  function ChangeOf(m: Changes, e: Edge): Change {
    if e in m.edges then m.edges[e] else UNCHANGED
  }

  function SetOf(ids: seq<string>): set<string> {
    set id | id in ids
  }

  function Step(m: Changes, call: Call): Changes {
    match call
    case Add(e, ids) =>
      var c := ChangeOf(m, e);
      m.(edges := m.edges[e := c.(added := c.added + SetOf(ids))])
    case Remove(e, ids) =>
      var c := ChangeOf(m, e);
      m.(edges := m.edges[e := c.(added := c.added - SetOf(ids), removed := c.removed + SetOf(ids))])
    case Clear(e) => m.(edges := m.edges[e := ChangeOf(m, e).(cleared := true)])
    case Reset(e) => m.(edges := m.edges[e := UNCHANGED])
    case SetTenant(id) => m.(tenant := Some(id))
    case ClearTenant => m.(tenantCleared := true)
    case ResetTenant => m.(tenant := None, tenantCleared := false)
  }

  function After(calls: seq<Call>): Changes {
    if calls == [] then NO_CHANGES else Step(After(Init(calls)), Last(calls))
  }

  // ---------- The specs ----------

  datatype EdgeSpec = EdgeSpec(edge: Edge, targets: seq<string>)

  datatype UpdateSpec = UpdateSpec(clear: seq<EdgeSpec>, add: seq<EdgeSpec>)

  /** A spec up to the order in which its targets were listed. */
  datatype Intent = Intent(edge: Edge, targets: set<string>)

  function IntentOf(s: EdgeSpec): Intent {
    Intent(s.edge, SetOf(s.targets))
  }

  function TenantIDs(m: Changes): seq<string> {
    if m.tenant.Some? then [m.tenant.value] else []
  }

  function Cleared(m: Changes, e: Edge): seq<Intent> {
    var c := ChangeOf(m, e);
    if c.cleared then [Intent(e, {})] else if c.removed != {} then [Intent(e, c.removed)] else []
  }

  function Added(m: Changes, e: Edge): seq<Intent> {
    if ChangeOf(m, e).added != {} then [Intent(e, ChangeOf(m, e).added)] else []
  }

  function ClearIntents(m: Changes): seq<Intent> {
    (if m.tenantCleared then [Intent(OrgTenant, {})] else [])
    + Cleared(m, OrgMembers) + Cleared(m, OrgInvitations) + Cleared(m, OrgSamlConnections)
  }

  function AddIntents(m: Changes): seq<Intent> {
    (if m.tenant.Some? then [Intent(OrgTenant, {m.tenant.value})] else [])
    + Added(m, OrgMembers) + Added(m, OrgInvitations) + Added(m, OrgSamlConnections)
  }

  /** The spec emitted for a mutation; Go lists the IDs of a set in any order. */
  ghost predicate Emits(m: Changes, spec: UpdateSpec) {
    Map(IntentOf, spec.clear) == ClearIntents(m) && Map(IntentOf, spec.add) == AddIntents(m)
  }

  /** `check`, given the first failing validator of the plain fields. */
  function Check(m: Changes, fields: Option<Error>): Option<Error> {
    if m.tenant == Some("") then Some(ValidationError(FIELD_TENANT_ID))
    else if fields.Some? then fields
    else if m.tenantCleared && |TenantIDs(m)| > 0 then Some(ClearingRequiredEdge(OrgTenant.Name()))
    else None
  }

  class OrganizationMutation {
    var edges: map<Edge, Change>
    var tenant: Option<string>
    var tenantCleared: bool
    var done: bool

    constructor ()
      ensures Value() == NO_CHANGES && !done
    {
      edges, tenant, tenantCleared, done := map[], None, false, false;
    }

    ghost function Value(): Changes
      reads this
    {
      Changes(edges, tenant, tenantCleared)
    }

    function Of(e: Edge): (c: Change)
      reads this
      ensures c == ChangeOf(Value(), e)
    {
      if e in edges then edges[e] else UNCHANGED
    }

    method AddIDs(e: Edge, ids: seq<string>)
      modifies this`edges
      ensures Value() == Step(old(Value()), Add(e, ids))
    {
      ghost var c := Of(e);
      edges := edges[e := Of(e)];
      for i := 0 to |ids|
        invariant e in edges && edges == old(edges)[e := edges[e]]
        invariant edges[e] == c.(added := c.added + SetOf(ids[..i]))
      {
        edges := edges[e := edges[e].(added := edges[e].added + {ids[i]})];
        assert SetOf(ids[..i + 1]) == SetOf(ids[..i]) + {ids[i]};
        assert c.added + SetOf(ids[..i + 1]) == c.added + SetOf(ids[..i]) + {ids[i]};
      }
      assert ids[..|ids|] == ids;
    }

    method RemoveIDs(e: Edge, ids: seq<string>)
      modifies this`edges
      ensures Value() == Step(old(Value()), Remove(e, ids))
    {
      ghost var c := Of(e);
      edges := edges[e := Of(e)];
      for i := 0 to |ids|
        invariant e in edges && edges == old(edges)[e := edges[e]]
        invariant edges[e] == c.(added := c.added - SetOf(ids[..i]), removed := c.removed + SetOf(ids[..i]))
      {
        edges := edges[e := edges[e].(added := edges[e].added - {ids[i]})];
        edges := edges[e := edges[e].(removed := edges[e].removed + {ids[i]})];
        assert SetOf(ids[..i + 1]) == SetOf(ids[..i]) + {ids[i]};
        assert c.added - SetOf(ids[..i + 1]) == c.added - SetOf(ids[..i]) - {ids[i]};
        assert c.removed + SetOf(ids[..i + 1]) == c.removed + SetOf(ids[..i]) + {ids[i]};
      }
      assert ids[..|ids|] == ids;
    }

    method Apply(call: Call)
      modifies this`edges, this`tenant, this`tenantCleared
      ensures Value() == Step(old(Value()), call)
    {
      match call
      case Add(e, ids) => AddIDs(e, ids);
      case Remove(e, ids) => RemoveIDs(e, ids);
      case Clear(e) => edges := edges[e := Of(e).(cleared := true)];
      case Reset(e) => edges := edges[e := UNCHANGED];
      case SetTenant(id) => tenant := Some(id);
      case ClearTenant => tenantCleared := true;
      case ResetTenant => tenant, tenantCleared := None, false;
    }

    /** The edge specs of `sqlSave`, tenant first, then the list edges. */
    method EdgeSpecs() returns (spec: UpdateSpec)
      ensures Emits(Value(), spec)
    {
      spec := TenantSpecs();
      spec := ListEdgeSpecs(OrgMembers, spec);
      spec := ListEdgeSpecs(OrgInvitations, spec);
      spec := ListEdgeSpecs(OrgSamlConnections, spec);
    }

    method TenantSpecs() returns (spec: UpdateSpec)
      ensures Map(IntentOf, spec.clear) == if tenantCleared then [Intent(OrgTenant, {})] else []
      ensures Map(IntentOf, spec.add) == if tenant.Some? then [Intent(OrgTenant, {tenant.value})] else []
    {
      spec := UpdateSpec([], []);
      IntentSnoc([], EdgeSpec(OrgTenant, []));
      if tenantCleared {
        spec := spec.(clear := spec.clear + [EdgeSpec(OrgTenant, [])]);
      }
      var nodes := TenantIDs(Changes(edges, tenant, tenantCleared));
      if |nodes| > 0 {
        var edge := Targeting(OrgTenant, nodes);
        IntentSnoc([], edge);
        spec := spec.(add := spec.add + [edge]);
      }
    }

    method ListEdgeSpecs(e: Edge, before: UpdateSpec) returns (spec: UpdateSpec)
      ensures Map(IntentOf, spec.clear) == Map(IntentOf, before.clear) + Cleared(Value(), e)
      ensures Map(IntentOf, spec.add) == Map(IntentOf, before.add) + Added(Value(), e)
    {
      spec := before;
      if Of(e).cleared {
        IntentSnoc(spec.clear, EdgeSpec(e, []));
        spec := spec.(clear := spec.clear + [EdgeSpec(e, [])]);
      }
      var nodes := IDs(Of(e).removed);
      if |nodes| > 0 && !Of(e).cleared {
        var edge := Targeting(e, nodes);
        IntentSnoc(spec.clear, edge);
        spec := spec.(clear := spec.clear + [edge]);
      }
      nodes := IDs(Of(e).added);
      if |nodes| > 0 {
        var edge := Targeting(e, nodes);
        IntentSnoc(spec.add, edge);
        spec := spec.(add := spec.add + [edge]);
      }
    }
  }

  lemma IntentSnoc(specs: seq<EdgeSpec>, spec: EdgeSpec)
    ensures Map(IntentOf, specs + [spec]) == Map(IntentOf, specs) + [IntentOf(spec)]
    ensures IntentOf(spec).targets == {} <==> spec.targets == []
    ensures |spec.targets| == 1 ==> IntentOf(spec).targets == {spec.targets[0]}
  {
    assert spec.targets != [] ==> spec.targets[0] in IntentOf(spec).targets;
  }

  method Targeting(e: Edge, nodes: seq<string>) returns (edge: EdgeSpec)
    ensures edge == EdgeSpec(e, nodes)
  {
    edge := EdgeSpec(e, []);
    for i := 0 to |nodes|
      invariant edge == EdgeSpec(e, nodes[..i])
    {
      edge := edge.(targets := edge.targets + [nodes[i]]);
    }
  }

  /** The keys of a map, in whatever order the loop meets them. */
  method IDs(s: set<string>) returns (ids: seq<string>)
    ensures SetOf(ids) == s && NoDuplicates(ids) && (ids == [] <==> s == {})
  {
    ids := [];
    var rest := s;
    while rest != {}
      invariant rest <= s && NoDuplicates(ids)
      invariant forall id :: id in ids <==> id in s && id !in rest
      decreases rest
    {
      var id :| id in rest;
      ids := ids + [id];
      rest := rest - {id};
    }
    assert ids != [] ==> ids[0] in s;
  }
}
