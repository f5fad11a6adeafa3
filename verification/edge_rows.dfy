/** Edge by edge, with the tables and columns spelled out: what eager loading joins, and what a traversal step relates. */
module EdgeRows {
  import opened Common
  import opened Schema
  import opened Sequences
  import opened Selectors
  import opened Queries
  import opened EagerLoading
  import opened NestedLoop
  import opened RowLaws
  import opened JoinLaws
  import Rerun

  /** The row is one the nested query selects, and its column holds the key. */
  predicate IsLinked(child: Query, column: string, key: string, db: DB, r: Row) {
    Passes(child, db, r) && column in r && r[column] == Str(key)
  }

  function Linked(child: Query, column: string, key: string, db: DB): Row -> bool {
    (r: Row) => IsLinked(child, column, key, db, r)
  }

  /** The nested query's columns, and the one it is joined by. */
  function JoinColumns(child: Query, column: string): set<string>
    requires |child.withs| == |EdgesOf(child.kind)|
  {
    if child.fields == [] then Fetched(child) else Fetched(child) + {column}
  }

  /** `list` are the rows of the table that the nested query selects and whose column holds the key, in its own order. */
  ghost predicate Joined(db: DB, table: Kind, child: Query, column: string, key: string, list: seq<Entity>)
    requires |child.withs| == |EdgesOf(child.kind)|
  {
    && (forall e :: e in list ==> e.kind == table)
    && Offers(RowsOf(list), Filter(Linked(child, column, key, db), TableRows(db, table)), child.order,
              Some(JoinColumns(child, column)), child.unique == Some(true), db)
  }

  lemma PerRowPasses(edge: Edge, child: Query, row: Row, db: DB, r: Row)
    requires PrepareOwn(child).1 == None
    ensures Holds(PrepareOwn(PerRow(edge, child, row)).0.preds, db, r) <==>
            IsLinked(child, edge.TargetColumn(), Text(row, edge.SourceColumn()), db, r)
  {
    var key := InValues(edge.TargetColumn(), [Text(row, edge.SourceColumn())]);
    PreparedPasses(child, db, r);
    OnePredicateDiffers(child.preds, key, Traverse(child.inters).0, db, r);
    OnePredicateDiffers(child.preds, key, [], db, r);
    Rerun.HoldsConcat(child.preds, Traverse(child.inters).0, db, r);
  }

  lemma PerRowColumns(edge: Edge, child: Query, row: Row)
    requires |child.withs| == |EdgesOf(child.kind)|
    ensures Fetched(PrepareOwn(PerRow(edge, child, row)).0) == JoinColumns(child, edge.TargetColumn())
  {
    var own := PrepareOwn(PerRow(edge, child, row)).0;
    if child.fields != [] {
      assert (set c | c in own.fields) + {"id"} == (set c | c in child.fields) + {edge.TargetColumn()} + {"id"};
    }
  }

  lemma PerRowLinked(edge: Edge, child: Query, row: Row, db: DB, rows: seq<Row>)
    requires PrepareOwn(child).1 == None
    ensures Filter(Where(PrepareOwn(PerRow(edge, child, row)).0.preds, db), rows) ==
            Filter(Linked(child, edge.TargetColumn(), Text(row, edge.SourceColumn()), db), rows)
  {
    var where := Where(PrepareOwn(PerRow(edge, child, row)).0.preds, db);
    var linked := Linked(child, edge.TargetColumn(), Text(row, edge.SourceColumn()), db);
    forall r ensures where(r) == linked(r) {
      PerRowPasses(edge, child, row, db, r);
    }
    FilterAgree(where, linked, rows);
  }

  lemma WholePart(rows: seq<Row>, all: seq<Row>)
    requires Part(rows, all, 0, None)
    ensures rows == all
  {
  }

  lemma AloneOffers(edge: Edge, child: Query, row: Row, db: DB)
    requires WellFormed(child) && child.via.None? && PrepareOwn(child).1 == None && child.limit.None? && child.offset.None?
    ensures Offers(AloneRows(edge, child, row, db),
                   Filter(Linked(child, edge.TargetColumn(), Text(row, edge.SourceColumn()), db), TableRows(db, child.kind)),
                   child.order, Some(JoinColumns(child, edge.TargetColumn())), child.unique == Some(true), db)
  {
    var own := PrepareOwn(PerRow(edge, child, row)).0;
    var all := SpecOffers(own, Table(child.kind), db);
    WholePart(AloneRows(edge, child, row, db), all);
    PerRowColumns(edge, child, row);
    PerRowLinked(edge, child, row, db, TableRows(db, child.kind));
  }

  lemma NestedIsAlone(edge: Edge, child: Query, row: Row, db: DB)
    requires WellFormed(child)
    ensures WellFormed(PerRow(edge, child, row))
    ensures RowsOf(Nested(PerRow(edge, child, row), db)) == AloneRows(edge, child, row, db)
    ensures forall e :: e in Nested(PerRow(edge, child, row), db) ==> e.kind == child.kind
  {
    assert WellFormed(PerRow(edge, child, row));
  }

  /** What the nested loop finds for one row. */
  lemma NestedJoins(edge: Edge, child: Query, row: Row, db: DB)
    requires WellFormed(child) && child.kind == edge.Target() && child.via.None? && PrepareOwn(child).1 == None
    requires child.limit.None? && child.offset.None?
    ensures WellFormed(PerRow(edge, child, row))
    ensures Joined(db, edge.Target(), child, edge.TargetColumn(), Text(row, edge.SourceColumn()),
                   Nested(PerRow(edge, child, row), db))
  {
    NestedIsAlone(edge, child, row, db);
    AloneOffers(edge, child, row, db);
  }

  /** A to-many slot holds what is joined; a to-one slot its last row, or nothing. */
  ghost predicate Holding(db: DB, slot: Slot, rel: Rel, table: Kind, child: Query, column: string, key: string)
    requires |child.withs| == |EdgesOf(child.kind)|
  {
    exists list ::
      && Joined(db, table, child, column, key, list)
      && slot == match rel
                 case O2M => Many(list)
                 case M2O => if list == [] then Unset else One(Last(list))
  }

  /** Slot `j` of an entity, as its edge and its nested query say. */
  ghost predicate SlotHolds(q: Query, node: Entity, j: nat, db: DB)
    requires WellFormed(q) && j < |q.withs| && q.withs[j].Some?
  {
    var edge, child := EdgesOf(q.kind)[j], q.withs[j].value;
    && WellFormed(child) && |node.slots| == |q.withs|
    && Holding(db, node.slots[j], edge.Cardinality(), edge.Target(), child, edge.TargetColumn(), node.Get(edge.SourceColumn()))
  }

  lemma NestedHolds(q: Query, row: Row, j: nat, db: DB)
    requires WellFormed(q) && Healthy(q) && NestedUnwindowed(q) && j < |q.withs| && q.withs[j].Some?
    ensures SlotHolds(q, NestedEntity(q, row, |q.withs|, db), j, db)
  {
    var edge, child := EdgesOf(q.kind)[j], q.withs[j].value;
    assert WellFormed(child) && Healthy(child);
    NestedJoins(edge, child, row, db);
    var list := Nested(PerRow(edge, child, row), db);
    assert NestedSlot(q, j, row, db) == match edge.Cardinality()
                                        case O2M => Many(list)
                                        case M2O => if list == [] then Unset else One(Last(list));
  }

  lemma EverySlotHolds(q: Query, from: From, db: DB, k: nat) returns (node: Entity)
    requires WellFormed(q) && Healthy(q) && NestedUnwindowed(q) && Keyed(db) && DistinctIds(QueryNodes(Spec(q, from), db))
    requires k < |QueryNodes(Spec(q, from), db)|
    ensures SqlAll(q, from, db).result.Ok? && |SqlAll(q, from, db).result.value| == |QueryNodes(Spec(q, from), db)|
    ensures node == SqlAll(q, from, db).result.value[k] && |node.slots| == |q.withs|
    ensures forall j :: 0 <= j < |q.withs| && q.withs[j].Some? ==> SlotHolds(q, node, j, db)
  {
    SqlAllIsNested(q, from, db);
    var row := QueryNodes(Spec(q, from), db)[k];
    node := NestedEntity(q, row, |q.withs|, db);
    forall j | 0 <= j < |q.withs| && q.withs[j].Some? ensures SlotHolds(q, node, j, db) {
      NestedHolds(q, row, j, db);
    }
  }

  ghost predicate HoldsIf(db: DB, slot: Slot, rel: Rel, table: Kind, with: Option<Query>, column: string, key: string) {
    with.Some? ==> |with.value.withs| == |EdgesOf(with.value.kind)| && Holding(db, slot, rel, table, with.value, column, key)
  }

  /** The tenant is the one whose `id` is the organization's `tenant_id`; members, invitations and SAML connections are those
      whose `organization_id` is its `id`. */
  ghost predicate OrganizationHolds(q: Query, o: Entity, db: DB) {
    && |q.withs| == |o.slots| == 4
    && HoldsIf(db, o.slots[0], M2O, Tenant, q.withs[0], "id", o.Get("tenant_id"))
    && HoldsIf(db, o.slots[1], O2M, OrgMember, q.withs[1], "organization_id", o.Get("id"))
    && HoldsIf(db, o.slots[2], O2M, OrgInvitation, q.withs[2], "organization_id", o.Get("id"))
    && HoldsIf(db, o.slots[3], O2M, SAMLConnection, q.withs[3], "organization_id", o.Get("id"))
  }

  /** The organization, user and role are those whose `id` is the member's key. */
  ghost predicate MemberHolds(q: Query, m: Entity, db: DB) {
    && |q.withs| == |m.slots| == 3
    && HoldsIf(db, m.slots[0], M2O, Organization, q.withs[0], "id", m.Get("organization_id"))
    && HoldsIf(db, m.slots[1], M2O, User, q.withs[1], "id", m.Get("user_id"))
    && HoldsIf(db, m.slots[2], M2O, Role, q.withs[2], "id", m.Get("role_id"))
  }

  lemma HoldsAt(q: Query, node: Entity, j: nat, db: DB)
    requires WellFormed(q) && j < |q.withs| == |node.slots| && (q.withs[j].Some? ==> SlotHolds(q, node, j, db))
    ensures var edge := EdgesOf(q.kind)[j];
            HoldsIf(db, node.slots[j], edge.Cardinality(), edge.Target(), q.withs[j], edge.TargetColumn(), node.Get(edge.SourceColumn()))
  {
  }

  lemma OrganizationSlots(q: Query, o: Entity, db: DB)
    requires WellFormed(q) && q.kind == Organization && |o.slots| == |q.withs|
    requires forall j :: 0 <= j < |q.withs| && q.withs[j].Some? ==> SlotHolds(q, o, j, db)
    ensures OrganizationHolds(q, o, db)
  {
    HoldsAt(q, o, 0, db);
    HoldsAt(q, o, 1, db);
    HoldsAt(q, o, 2, db);
    HoldsAt(q, o, 3, db);
  }

  lemma MemberSlots(q: Query, m: Entity, db: DB)
    requires WellFormed(q) && q.kind == OrgMember && |m.slots| == |q.withs|
    requires forall j :: 0 <= j < |q.withs| && q.withs[j].Some? ==> SlotHolds(q, m, j, db)
    ensures MemberHolds(q, m, db)
  {
    HoldsAt(q, m, 0, db);
    HoldsAt(q, m, 1, db);
    HoldsAt(q, m, 2, db);
  }

  /** After a successful run over organizations, each edge of each of them holds what its nested query selects and orders
      among the rows that the edge's columns join it with. */
  lemma OrganizationJoins(q: Query, from: From, db: DB, k: nat)
    requires WellFormed(q) && Healthy(q) && NestedUnwindowed(q) && Keyed(db) && DistinctIds(QueryNodes(Spec(q, from), db))
    requires q.kind == Organization && k < |QueryNodes(Spec(q, from), db)|
    ensures SqlAll(q, from, db).result.Ok? && |SqlAll(q, from, db).result.value| == |QueryNodes(Spec(q, from), db)|
    ensures OrganizationHolds(q, SqlAll(q, from, db).result.value[k], db)
  {
    var o := EverySlotHolds(q, from, db, k);
    OrganizationSlots(q, o, db);
  }

  /** And so does each edge of each member. */
  lemma MemberJoins(q: Query, from: From, db: DB, k: nat)
    requires WellFormed(q) && Healthy(q) && NestedUnwindowed(q) && Keyed(db) && DistinctIds(QueryNodes(Spec(q, from), db))
    requires q.kind == OrgMember && k < |QueryNodes(Spec(q, from), db)|
    ensures SqlAll(q, from, db).result.Ok? && |SqlAll(q, from, db).result.value| == |QueryNodes(Spec(q, from), db)|
    ensures MemberHolds(q, SqlAll(q, from, db).result.value[k], db)
  {
    var m := EverySlotHolds(q, from, db, k);
    MemberSlots(q, m, db);
  }

  // ---------- Accessor errors ----------

  ghost predicate OneFails(o: Entity, edge: Edge, i: nat, with: Option<Query>, name: string, target: string)
    requires i < |o.slots| == |o.loaded|
  {
    && (with.None? ==> OneOrErr(o, edge, i) == Err(NotLoaded(name)))
    && (with.Some? && OneOrErr(o, edge, i).Err? ==> OneOrErr(o, edge, i) == Err(NotFound(target)))
  }

  ghost predicate ManyFails(o: Entity, edge: Edge, i: nat, with: Option<Query>, name: string)
    requires i < |o.slots| == |o.loaded|
  {
    if with.None? then ManyOrErr(o, edge, i) == Err(NotLoaded(name)) else ManyOrErr(o, edge, i).Ok?
  }

  ghost predicate AccessorFails(o: Entity, edge: Edge, i: nat, with: Option<Query>)
    requires i < |o.slots| == |o.loaded|
  {
    if edge.Cardinality() == M2O then OneFails(o, edge, i, with, edge.Name(), Label(edge.Target()))
    else ManyFails(o, edge, i, with, edge.Name())
  }

  lemma AccessorAt(q: Query, from: From, db: DB, j: nat, k: nat)
    requires WellFormed(q) && SqlAll(q, from, db).result.Ok? && j < |q.withs|
    requires k < |SqlAll(q, from, db).result.value|
    ensures var o := SqlAll(q, from, db).result.value[k];
            |o.slots| == |o.loaded| == |q.withs| && AccessorFails(o, EdgesOf(q.kind)[j], j, q.withs[j])
  {
    EverySlot(q, from, db, j, k);
  }

  /** The errors of the accessors of an organization after a run. */
  lemma OrganizationAccessors(q: Query, from: From, db: DB, k: nat)
    requires WellFormed(q) && q.kind == Organization && SqlAll(q, from, db).result.Ok?
    requires k < |SqlAll(q, from, db).result.value|
    ensures var o := SqlAll(q, from, db).result.value[k];
            && |o.slots| == |o.loaded| == |q.withs| == 4
            && OneFails(o, OrgTenant, 0, q.withs[0], "tenant", "tenant")
            && ManyFails(o, OrgMembers, 1, q.withs[1], "members")
            && ManyFails(o, OrgInvitations, 2, q.withs[2], "invitations")
            && ManyFails(o, OrgSamlConnections, 3, q.withs[3], "saml_connections")
  {
    AccessorAt(q, from, db, 0, k);
    AccessorAt(q, from, db, 1, k);
    AccessorAt(q, from, db, 2, k);
    AccessorAt(q, from, db, 3, k);
  }

  /** And of a member. */
  lemma MemberAccessors(q: Query, from: From, db: DB, k: nat)
    requires WellFormed(q) && q.kind == OrgMember && SqlAll(q, from, db).result.Ok?
    requires k < |SqlAll(q, from, db).result.value|
    ensures var m := SqlAll(q, from, db).result.value[k];
            && |m.slots| == |m.loaded| == |q.withs| == 3
            && OneFails(m, MemberOrganization, 0, q.withs[0], "organization", "organization")
            && OneFails(m, MemberUser, 1, q.withs[1], "user", "user")
            && OneFails(m, MemberRole, 2, q.withs[2], "role", "role")
  {
    AccessorAt(q, from, db, 0, k);
    AccessorAt(q, from, db, 1, k);
    AccessorAt(q, from, db, 2, k);
  }

  // ---------- Traversal steps ----------

  /** Both columns hold the same text; NULL is not a text. */
  predicate SameText(a: Row, x: string, b: Row, y: string) {
    x in a && y in b && a[x].Str? && a[x] == b[y]
  }

  /** The rows a traversal step goes from and to. */
  lemma StepRelates(edge: Edge, a: Row, b: Row)
    ensures Related(edge, a, b) <==>
            match edge
            case OrgTenant => SameText(a, "tenant_id", b, "id")
            case OrgMembers | OrgInvitations | OrgSamlConnections => SameText(a, "id", b, "organization_id")
            case MemberOrganization => SameText(a, "organization_id", b, "id")
            case MemberUser => SameText(a, "user_id", b, "id")
            case MemberRole => SameText(a, "role_id", b, "id")
    ensures edge.Target() == match edge
                             case OrgTenant => Tenant
                             case OrgMembers => OrgMember
                             case OrgInvitations => OrgInvitation
                             case OrgSamlConnections => SAMLConnection
                             case MemberOrganization => Organization
                             case MemberUser => User
                             case MemberRole => Role
  {
  }
}
