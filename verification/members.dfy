/** The OrgMember entity and its mutation: defaults, checks, and the node and row spec a create produces. */
module Members {
  import opened Common
  import opened Schema
  import opened Sequences
  import opened Selectors

  datatype Member = Member(
    id: string,
    organizationId: string,
    userId: string,
    roleId: string,
    assignedBy: Option<string>,
    updatedBy: Option<string>,
    createdAt: int,
    updatedAt: int)

  /** A freshly allocated OrgMember: every field has its zero value. */
  const BLANK := Member("", "", "", "", None, None, 0, 0)

  datatype Mutation = Mutation(
    id: Option<string>,
    organization: Option<string>,
    user: Option<string>,
    role: Option<string>,
    assignedBy: Option<string>,
    updatedBy: Option<string>,
    createdAt: Option<int>,
    updatedAt: Option<int>,
    done: bool)

  /** `sqlgraph.CreateSpec`: the ID if there is one, field values, and one foreign-key column per M2O edge. */
  datatype CreateSpec = CreateSpec(id: Option<string>, fields: seq<(string, Cell)>, edges: seq<EdgeSpec>)

  datatype EdgeSpec = EdgeSpec(column: string, targets: seq<string>)

  /** `defaults`, given the two clock readings it takes. */
  function Defaults(m: Mutation, created: int, updated: int): Mutation {
    var m := if m.createdAt.None? then m.(createdAt := Some(created)) else m;
    if m.updatedAt.None? then m.(updatedAt := Some(updated)) else m
  }

  /** The edge IDs of a mutation: at most one for a unique edge. */
  function TargetIDs(v: Option<string>): seq<string> {
    if v.Some? then [v.value] else []
  }

  function RequiredText(name: string, v: Option<string>): Option<Error> {
    if v.None? then Some(MissingField(name)) else if v.value == "" then Some(ValidationError(name)) else None
  }

  function RequiredTime(name: string, v: Option<int>): Option<Error> {
    if v.None? then Some(MissingField(name)) else None
  }

  function RequiredEdge(edge: Edge, ids: seq<string>): Option<Error> {
    if |ids| == 0 then Some(MissingEdge(edge.Name())) else None
  }

  /** The first failure wins. */
  function Then(a: Option<Error>, b: Option<Error>): Option<Error> {
    if a.Some? then a else b
  }

  function Check(m: Mutation): Option<Error> {
    Then(RequiredText(FIELD_ORGANIZATION_ID, m.organization),
    Then(RequiredText(FIELD_USER_ID, m.user),
    Then(RequiredText(FIELD_ROLE_ID, m.role),
    Then(RequiredTime(FIELD_CREATED_AT, m.createdAt),
    Then(RequiredTime(FIELD_UPDATED_AT, m.updatedAt),
    Then(RequiredEdge(MemberOrganization, TargetIDs(m.organization)),
    Then(RequiredEdge(MemberUser, TargetIDs(m.user)),
         RequiredEdge(MemberRole, TargetIDs(m.role)))))))))
  }

  ghost predicate NonEmpty(v: Option<string>) {
    v.Some? && v.value != ""
  }

  /** A mutation passes exactly when its three keys are non-empty and both timestamps are set. Otherwise the first of these
      that is missing or empty is reported; a missing edge is always reported as a missing field. */
  lemma CheckAccepts(m: Mutation)
    ensures Check(m) == None <==>
            NonEmpty(m.organization) && NonEmpty(m.user) && NonEmpty(m.role) && m.createdAt.Some? && m.updatedAt.Some?
    ensures Check(m).Some? ==> Check(m).value.MissingField? || Check(m).value.ValidationError?
    ensures !NonEmpty(m.organization) ==> Check(m) == Some(Lacking("organization_id", m.organization))
    ensures NonEmpty(m.organization) && !NonEmpty(m.user) ==> Check(m) == Some(Lacking("user_id", m.user))
    ensures NonEmpty(m.organization) && NonEmpty(m.user) && !NonEmpty(m.role) ==> Check(m) == Some(Lacking("role_id", m.role))
    ensures NonEmpty(m.organization) && NonEmpty(m.user) && NonEmpty(m.role) ==>
              && (m.createdAt.None? ==> Check(m) == Some(MissingField("created_at")))
              && (m.createdAt.Some? && m.updatedAt.None? ==> Check(m) == Some(MissingField("updated_at")))
  {
  }

  /** The error for a key that is unset or empty. */
  ghost function Lacking(name: string, v: Option<string>): Error {
    if v.None? then MissingField(name) else ValidationError(name)
  }

  /** Defaults fill the timestamps that are unset and change nothing else, so that only a key can then fail the checks. */
  lemma DefaultsFill(m: Mutation, created: int, updated: int)
    ensures var d := Defaults(m, created, updated);
            && (m.createdAt.Some? ==> d.createdAt == m.createdAt) && (m.createdAt.None? ==> d.createdAt == Some(created))
            && (m.updatedAt.Some? ==> d.updatedAt == m.updatedAt) && (m.updatedAt.None? ==> d.updatedAt == Some(updated))
            && d == m.(createdAt := d.createdAt, updatedAt := d.updatedAt)
            && (Check(d) == None <==> NonEmpty(m.organization) && NonEmpty(m.user) && NonEmpty(m.role))
  {
    CheckAccepts(Defaults(m, created, updated));
  }

  function GetOr<T>(v: Option<T>, default: T): T {
    if v.Some? then v.value else default
  }

  /** The node a create returns. */
  function NodeOf(m: Mutation): Member {
    Member(GetOr(m.id, ""), GetOr(m.organization, ""), GetOr(m.user, ""), GetOr(m.role, ""), m.assignedBy, m.updatedBy,
           GetOr(m.createdAt, 0), GetOr(m.updatedAt, 0))
  }

  function WithText(fields: seq<(string, Cell)>, column: string, v: Option<string>): seq<(string, Cell)> {
    if v.Some? then fields + [(column, Str(v.value))] else fields
  }

  function WithTime(fields: seq<(string, Cell)>, column: string, v: Option<int>): seq<(string, Cell)> {
    if v.Some? then fields + [(column, Time(v.value))] else fields
  }

  function WithEdge(edges: seq<EdgeSpec>, column: string, targets: seq<string>): seq<EdgeSpec> {
    if |targets| > 0 then edges + [EdgeSpec(column, targets)] else edges
  }

  function FieldsOf(m: Mutation): seq<(string, Cell)> {
    WithTime(WithTime(WithText(WithText([],
      FIELD_ASSIGNED_BY_USER_ID, m.assignedBy), FIELD_UPDATED_BY_USER_ID, m.updatedBy),
      FIELD_CREATED_AT, m.createdAt), FIELD_UPDATED_AT, m.updatedAt)
  }

  function EdgeSpecsOf(m: Mutation): seq<EdgeSpec> {
    WithEdge(WithEdge(WithEdge([],
      FIELD_ORGANIZATION_ID, TargetIDs(m.organization)), FIELD_USER_ID, TargetIDs(m.user)),
      FIELD_ROLE_ID, TargetIDs(m.role))
  }

  /** The spec a create hands to the database. */
  function SpecOf(m: Mutation): CreateSpec {
    CreateSpec(m.id, FieldsOf(m), EdgeSpecsOf(m))
  }

  method BuildFields(m: Mutation) returns (node: Member, fields: seq<(string, Cell)>)
    ensures node == NodeOf(m).(id := "", organizationId := "", userId := "", roleId := "")
    ensures fields == FieldsOf(m)
  {
    node, fields := BLANK, [];
    if m.assignedBy.Some? {
      fields := fields + [(FIELD_ASSIGNED_BY_USER_ID, Str(m.assignedBy.value))];
      node := node.(assignedBy := m.assignedBy);
    }
    if m.updatedBy.Some? {
      fields := fields + [(FIELD_UPDATED_BY_USER_ID, Str(m.updatedBy.value))];
      node := node.(updatedBy := m.updatedBy);
    }
    if m.createdAt.Some? {
      fields := fields + [(FIELD_CREATED_AT, Time(m.createdAt.value))];
      node := node.(createdAt := m.createdAt.value);
    }
    if m.updatedAt.Some? {
      fields := fields + [(FIELD_UPDATED_AT, Time(m.updatedAt.value))];
      node := node.(updatedAt := m.updatedAt.value);
    }
  }

  method BuildEdge(column: string, nodes: seq<string>) returns (edge: EdgeSpec)
    ensures edge == EdgeSpec(column, nodes)
  {
    edge := EdgeSpec(column, []);
    for i := 0 to |nodes|
      invariant edge == EdgeSpec(column, nodes[..i])
    {
      edge := edge.(targets := edge.targets + [nodes[i]]);
    }
  }

  /** `createSpec`: fills the node and the spec side by side. */
  method BuildSpec(m: Mutation) returns (node: Member, spec: CreateSpec)
    ensures node == NodeOf(m) && spec == SpecOf(m)
  {
    var fields;
    node, fields := BuildFields(m);
    spec := CreateSpec(None, fields, []);
    if m.id.Some? {
      node := node.(id := m.id.value);
      spec := spec.(id := m.id);
    }
    var nodes := TargetIDs(m.organization);
    if |nodes| > 0 {
      var edge := BuildEdge(FIELD_ORGANIZATION_ID, nodes);
      node := node.(organizationId := nodes[0]);
      spec := spec.(edges := spec.edges + [edge]);
    }
    nodes := TargetIDs(m.user);
    if |nodes| > 0 {
      var edge := BuildEdge(FIELD_USER_ID, nodes);
      node := node.(userId := nodes[0]);
      spec := spec.(edges := spec.edges + [edge]);
    }
    nodes := TargetIDs(m.role);
    if |nodes| > 0 {
      var edge := BuildEdge(FIELD_ROLE_ID, nodes);
      node := node.(roleId := nodes[0]);
      spec := spec.(edges := spec.edges + [edge]);
    }
  }

  // ---------- The row a spec writes ----------

  function SetFields(row: Row, fields: seq<(string, Cell)>): Row {
    if fields == [] then row else SetFields(row, Init(fields))[Last(fields).0 := Last(fields).1]
  }

  function SetEdges(row: Row, edges: seq<EdgeSpec>): Row {
    if edges == [] then row else
      var rest := SetEdges(row, Init(edges));
      if Last(edges).targets == [] then rest else rest[Last(edges).column := Str(Last(edges).targets[0])]
  }

  /** The stored row: unset columns are NULL, and a missing ID is whatever the database generates. */
  function StoredRow(spec: CreateSpec, generated: Cell): Row {
    var nulls: Row := map c | c in ORG_MEMBER_COLUMNS :: Null;
    var keyed := nulls[FIELD_ID := if spec.id.Some? then Str(spec.id.value) else generated];
    SetEdges(SetFields(keyed, spec.fields), spec.edges)
  }

  // ---------- A member as a row ----------

  predicate IsText(column: string) {
    column == FIELD_ID || column == FIELD_ORGANIZATION_ID || column == FIELD_USER_ID || column == FIELD_ROLE_ID
    || column == FIELD_ASSIGNED_BY_USER_ID || column == FIELD_UPDATED_BY_USER_ID
  }

  predicate IsTime(column: string) {
    column == FIELD_CREATED_AT || column == FIELD_UPDATED_AT
  }

  lemma ColumnTypes(column: string)
    ensures column in ORG_MEMBER_COLUMNS <==> IsText(column) || IsTime(column)
  {
    assert ORG_MEMBER_COLUMNS[0] == FIELD_ID && ORG_MEMBER_COLUMNS[1] == FIELD_ORGANIZATION_ID;
    assert ORG_MEMBER_COLUMNS[2] == FIELD_USER_ID && ORG_MEMBER_COLUMNS[3] == FIELD_ROLE_ID;
    assert ORG_MEMBER_COLUMNS[4] == FIELD_ASSIGNED_BY_USER_ID && ORG_MEMBER_COLUMNS[5] == FIELD_UPDATED_BY_USER_ID;
    assert ORG_MEMBER_COLUMNS[6] == FIELD_CREATED_AT && ORG_MEMBER_COLUMNS[7] == FIELD_UPDATED_AT;
  }

  lemma DistinctColumns()
    ensures NoDuplicates(ORG_MEMBER_COLUMNS)
  {
    assert |FIELD_ID| == 2 && |FIELD_ORGANIZATION_ID| == 15 && |FIELD_USER_ID| == 7 && |FIELD_ROLE_ID| == 7;
    assert |FIELD_ASSIGNED_BY_USER_ID| == 19 && |FIELD_UPDATED_BY_USER_ID| == 18;
    assert |FIELD_CREATED_AT| == 10 && |FIELD_UPDATED_AT| == 10;
    assert FIELD_USER_ID[0] == 'u' && FIELD_ROLE_ID[0] == 'r' && FIELD_CREATED_AT[0] == 'c' && FIELD_UPDATED_AT[0] == 'u';
  }

  function OptCell(v: Option<string>): Cell {
    if v.Some? then Str(v.value) else Null
  }

  /** A member's field as the cell that stores it. */
  function FieldCell(m: Member, column: string): Cell {
    if column == FIELD_ID then Str(m.id)
    else if column == FIELD_ORGANIZATION_ID then Str(m.organizationId)
    else if column == FIELD_USER_ID then Str(m.userId)
    else if column == FIELD_ROLE_ID then Str(m.roleId)
    else if column == FIELD_ASSIGNED_BY_USER_ID then OptCell(m.assignedBy)
    else if column == FIELD_UPDATED_BY_USER_ID then OptCell(m.updatedBy)
    else if column == FIELD_CREATED_AT then Time(m.createdAt)
    else if column == FIELD_UPDATED_AT then Time(m.updatedAt)
    else Null
  }

  lemma SameFields(a: Member, b: Member)
    requires forall c :: IsText(c) || IsTime(c) ==> FieldCell(a, c) == FieldCell(b, c)
    ensures a == b
  {
    DistinctColumns();
    var cs := ORG_MEMBER_COLUMNS;
    assert forall i :: 0 <= i < |cs| ==> FieldCell(a, cs[i]) == FieldCell(b, cs[i]) by {
      forall i | 0 <= i < |cs| ensures FieldCell(a, cs[i]) == FieldCell(b, cs[i]) {
        ColumnTypes(cs[i]);
      }
    }
    assert cs[0] == FIELD_ID && cs[1] == FIELD_ORGANIZATION_ID && cs[2] == FIELD_USER_ID && cs[3] == FIELD_ROLE_ID;
    assert cs[4] == FIELD_ASSIGNED_BY_USER_ID && cs[5] == FIELD_UPDATED_BY_USER_ID;
    assert cs[6] == FIELD_CREATED_AT && cs[7] == FIELD_UPDATED_AT;
  }
}
