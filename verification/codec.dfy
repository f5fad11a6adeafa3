/** Reading rows back: the holders `scanValues` makes, and what `assignValues` does with them. */
module Codec {
  import opened Common
  import opened Schema
  import opened Sequences
  import opened Selectors
  import opened Members

  /** What a scanned value can be: a nullable string or time, or a value of unknown type. */
  datatype Holder = NullString(valid: bool, s: string) | NullTime(valid: bool, t: int) | UnknownType(cell: Cell)

  datatype HolderKind = StringHolder | TimeHolder | UnknownHolder

  function HolderFor(column: string): HolderKind {
    if IsText(column) then StringHolder else if IsTime(column) then TimeHolder else UnknownHolder
  }

  /** `scanValues`. */
  method ScanValues(columns: seq<string>) returns (values: array<HolderKind>)
    ensures fresh(values) && values[..] == Map(HolderFor, columns)
  {
    values := new HolderKind[|columns|](i => UnknownHolder);
    for i := 0 to |columns|
      invariant forall j :: 0 <= j < i ==> values[j] == HolderFor(columns[j])
    {
      if IsText(columns[i]) {
        values[i] := StringHolder;
      } else if IsTime(columns[i]) {
        values[i] := TimeHolder;
      } else {
        values[i] := UnknownHolder;
      }
    }
  }

  /** The database can store a cell in a holder. */
  predicate Fits(kind: HolderKind, cell: Cell) {
    match kind
    case StringHolder => cell.Null? || cell.Str?
    case TimeHolder => cell.Null? || cell.Time?
    case UnknownHolder => true
  }

  /** `rows.Scan`: a holder after the database stored a cell in it. */
  function Fill(kind: HolderKind, cell: Cell): Holder
    requires Fits(kind, cell)
  {
    match kind
    case StringHolder => if cell.Null? then NullString(false, "") else NullString(true, cell.s)
    case TimeHolder => if cell.Null? then NullTime(false, 0) else NullTime(true, cell.t)
    case UnknownHolder => UnknownType(cell)
  }

  /** An OrgMember under construction, with the dynamically selected extras. */
  datatype Loaded = Loaded(member: Member, extras: map<string, Holder>)

  /** One round of `assignValues`. */
  function AssignOne(l: Loaded, column: string, v: Holder): Result<Loaded> {
    if IsText(column) then
      if !v.NullString? then Err(UnexpectedValueType(column))
      else if !v.valid then Ok(l)
      else Ok(l.(member := SetString(l.member, column, v.s)))
    else if IsTime(column) then
      if !v.NullTime? then Err(UnexpectedValueType(column))
      else if !v.valid then Ok(l)
      else Ok(l.(member := SetTime(l.member, column, v.t)))
    else Ok(l.(extras := l.extras[column := v]))
  }

  function SetString(m: Member, column: string, s: string): Member {
    if column == FIELD_ID then m.(id := s)
    else if column == FIELD_ORGANIZATION_ID then m.(organizationId := s)
    else if column == FIELD_USER_ID then m.(userId := s)
    else if column == FIELD_ROLE_ID then m.(roleId := s)
    else if column == FIELD_ASSIGNED_BY_USER_ID then m.(assignedBy := Some(s))
    else if column == FIELD_UPDATED_BY_USER_ID then m.(updatedBy := Some(s))
    else m
  }

  function SetTime(m: Member, column: string, t: int): Member {
    if column == FIELD_CREATED_AT then m.(createdAt := t)
    else if column == FIELD_UPDATED_AT then m.(updatedAt := t)
    else m
  }

  /** `assignValues`: the entity it leaves behind and the error it returns. */
  function AssignAll(l: Loaded, columns: seq<string>, values: seq<Holder>): (Loaded, Option<Error>)
    decreases |columns|
  {
    if |values| < |columns| then (l, Some(MismatchedValues))
    else if columns == [] then (l, None)
    else
      match AssignOne(l, columns[0], values[0])
      case Err(e) => (l, Some(e))
      case Ok(next) => AssignAll(next, columns[1..], values[1..])
  }

  class OrgMember {
    var id: string
    var organizationId: string
    var userId: string
    var roleId: string
    var assignedBy: Option<string>
    var updatedBy: Option<string>
    var createdAt: int
    var updatedAt: int
    var extras: map<string, Holder>

    constructor ()
      ensures Value() == Loaded(BLANK, map[])
    {
      id, organizationId, userId, roleId := "", "", "", "";
      assignedBy, updatedBy, createdAt, updatedAt, extras := None, None, 0, 0, map[];
    }

    function Value(): Loaded
      reads this
    {
      Loaded(Member(id, organizationId, userId, roleId, assignedBy, updatedBy, createdAt, updatedAt), extras)
    }

    method AssignValues(columns: seq<string>, values: seq<Holder>) returns (err: Option<Error>)
      modifies this
      ensures (Value(), err) == AssignAll(old(Value()), columns, values)
    {
      if |values| < |columns| {
        return Some(MismatchedValues);
      }
      var i := 0;
      while i < |columns|
        invariant 0 <= i <= |columns|
        invariant AssignAll(Value(), columns[i..], values[i..]) == AssignAll(old(Value()), columns, values)
      {
        err := Assign(columns[i], values[i]);
        if err.Some? {
          return;
        }
        assert columns[i..][1..] == columns[i + 1..] && values[i..][1..] == values[i + 1..];
        i := i + 1;
      }
      err := None;
    }

    /** The switch inside the loop. */
    method Assign(column: string, v: Holder) returns (err: Option<Error>)
      modifies this
      ensures match AssignOne(old(Value()), column, v)
              case Ok(next) => Value() == next && err == None
              case Err(e) => Value() == old(Value()) && err == Some(e)
    {
      err := None;
      if IsText(column) {
        if !v.NullString? {
          return Some(UnexpectedValueType(column));
        }
        if v.valid {
          AssignString(column, v.s);
        }
      } else if IsTime(column) {
        if !v.NullTime? {
          return Some(UnexpectedValueType(column));
        }
        if v.valid {
          if column == FIELD_CREATED_AT {
            createdAt := v.t;
          } else if column == FIELD_UPDATED_AT {
            updatedAt := v.t;
          }
        }
      } else {
        extras := extras[column := v];
      }
    }

    method AssignString(column: string, s: string)
      modifies this
      ensures Value() == old(Value()).(member := SetString(old(Value()).member, column, s))
    {
      if column == FIELD_ID {
        id := s;
      } else if column == FIELD_ORGANIZATION_ID {
        organizationId := s;
      } else if column == FIELD_USER_ID {
        userId := s;
      } else if column == FIELD_ROLE_ID {
        roleId := s;
      } else if column == FIELD_ASSIGNED_BY_USER_ID {
        assignedBy := Some(s);
      } else if column == FIELD_UPDATED_BY_USER_ID {
        updatedBy := Some(s);
      }
    }
  }

  // ---------- Scanning and assigning agree ----------

  predicate Known(column: string) {
    IsText(column) || IsTime(column)
  }

  predicate Accepted(column: string, v: Holder) {
    (IsText(column) ==> v.NullString?) && (IsTime(column) ==> v.NullTime?)
  }

  /** `assignValues` succeeds exactly when there is a value for every column and each has the type of its column. */
  lemma {:induction false} AssignAccepts(l: Loaded, columns: seq<string>, values: seq<Holder>)
    ensures AssignAll(l, columns, values).1 == None <==>
            |columns| <= |values| && forall i :: 0 <= i < |columns| ==> Accepted(columns[i], values[i])
    decreases |columns|
  {
    if |columns| <= |values| && columns != [] && AssignOne(l, columns[0], values[0]).Ok? {
      AssignAccepts(AssignOne(l, columns[0], values[0]).value, columns[1..], values[1..]);
      assert forall i :: 0 < i < |columns| ==> columns[i] == columns[1..][i - 1] && values[i] == values[1..][i - 1];
    }
  }

  /** The cells of a result row, in the order of its columns, have the types of the schema. */
  ghost predicate Fitting(columns: seq<string>, cells: seq<Cell>) {
    |cells| == |columns| && forall i :: 0 <= i < |columns| ==> Fits(HolderFor(columns[i]), cells[i])
  }

  /** The holders of `scanValues` after the database scanned a row into them. */
  function Scanned(columns: seq<string>, cells: seq<Cell>): (values: seq<Holder>)
    requires Fitting(columns, cells)
    ensures |values| == |columns|
  {
    seq(|columns|, i requires 0 <= i < |columns| => Fill(HolderFor(columns[i]), cells[i]))
  }

  /** The `i`-th column is the last one of that name whose cell is not NULL. */
  ghost predicate IsLast(columns: seq<string>, cells: seq<Cell>, column: string, i: int)
    requires |cells| == |columns|
  {
    && 0 <= i < |columns| && columns[i] == column && !cells[i].Null?
    && forall j :: i < j < |columns| && columns[j] == column ==> cells[j].Null?
  }

  /** The last non-null cell that the result row has for a column. */
  function LastNonNull(columns: seq<string>, cells: seq<Cell>, column: string): (r: Option<Cell>)
    requires |cells| == |columns|
    ensures r == None <==> forall i :: 0 <= i < |columns| && columns[i] == column ==> cells[i].Null?
    ensures r.Some? ==> exists i :: IsLast(columns, cells, column, i) && cells[i] == r.value
  {
    if columns == [] then None
    else if Last(columns) == column && !Last(cells).Null? then
      assert IsLast(columns, cells, column, |columns| - 1);
      Some(Last(cells))
    else
      var r := LastNonNull(Init(columns), Init(cells), column);
      assert forall i :: 0 <= i < |columns| - 1 ==> columns[i] == Init(columns)[i] && cells[i] == Init(cells)[i];
      assert forall i :: IsLast(Init(columns), Init(cells), column, i) ==> IsLast(columns, cells, column, i);
      r
  }

  lemma LastNonNullTail(columns: seq<string>, cells: seq<Cell>, column: string)
    requires |cells| == |columns| && columns != []
    ensures LastNonNull(columns, cells, column) ==
            match LastNonNull(columns[1..], cells[1..], column)
            case Some(cell) => Some(cell)
            case None => if columns[0] == column && !cells[0].Null? then Some(cells[0]) else None
  {
    if |columns| > 1 {
      LastNonNullTail(Init(columns), Init(cells), column);
      InitTail(columns);
      InitTail(cells);
    }
  }

  /** One round of `assignValues` sets the field of its column, unless the cell is NULL, and no other field. */
  lemma AssignOneField(l: Loaded, column: string, cell: Cell, field: string)
    requires Known(field) && Fits(HolderFor(column), cell)
    ensures AssignOne(l, column, Fill(HolderFor(column), cell)).Ok?
    ensures FieldCell(AssignOne(l, column, Fill(HolderFor(column), cell)).value.member, field) ==
            if column == field && !cell.Null? then cell else FieldCell(l.member, field)
  {
  }

  /** What a column list leaves in a field: its last non-null value, or what was there. */
  function FieldAfter(m: Member, columns: seq<string>, cells: seq<Cell>, field: string): Cell
    requires |cells| == |columns|
  {
    GetOr(LastNonNull(columns, cells, field), FieldCell(m, field))
  }

  /** For every column list, with repeated and unknown names and NULLs: no type error, and each field ends with the last
      non-null value of its column. */
  lemma {:induction false} ScanAssign(l: Loaded, columns: seq<string>, cells: seq<Cell>, field: string)
    requires Fitting(columns, cells) && Known(field)
    ensures AssignAll(l, columns, Scanned(columns, cells)).1 == None
    ensures FieldCell(AssignAll(l, columns, Scanned(columns, cells)).0.member, field) == FieldAfter(l.member, columns, cells, field)
    decreases |columns|
  {
    if columns != [] {
      AssignOneField(l, columns[0], cells[0], field);
      var next := AssignOne(l, columns[0], Scanned(columns, cells)[0]).value;
      assert Scanned(columns, cells)[1..] == Scanned(columns[1..], cells[1..]);
      ScanAssign(next, columns[1..], cells[1..], field);
      LastNonNullTail(columns, cells, field);
    }
  }

  /** Unknown columns, and no others, end up among the dynamically selected values. */
  lemma {:induction false} ScanAssignExtras(l: Loaded, columns: seq<string>, cells: seq<Cell>)
    requires Fitting(columns, cells)
    ensures AssignAll(l, columns, Scanned(columns, cells)).0.extras.Keys ==
            l.extras.Keys + set i | 0 <= i < |columns| && !Known(columns[i]) :: columns[i]
    decreases |columns|
  {
    if columns != [] {
      AssignOneField(l, columns[0], cells[0], FIELD_ID);
      var next := AssignOne(l, columns[0], Scanned(columns, cells)[0]).value;
      assert Scanned(columns, cells)[1..] == Scanned(columns[1..], cells[1..]);
      ScanAssignExtras(next, columns[1..], cells[1..]);
      var all := set i | 0 <= i < |columns| && !Known(columns[i]) :: columns[i];
      var rest := set i | 0 <= i < |columns[1..]| && !Known(columns[1..][i]) :: columns[1..][i];
      assert rest <= all by {
        forall c | c in rest ensures c in all {
          var i :| 0 <= i < |columns[1..]| && !Known(columns[1..][i]) && c == columns[1..][i];
          assert c == columns[i + 1];
        }
      }
      forall c | c in all ensures c in rest || c == columns[0] {
        var i :| 0 <= i < |columns| && !Known(columns[i]) && c == columns[i];
        assert i > 0 ==> c == columns[1..][i - 1];
      }
    }
  }

  /** The `i`-th column is the last one of that name. */
  ghost predicate LastNamed(columns: seq<string>, column: string, i: int) {
    0 <= i < |columns| && columns[i] == column && forall j :: i < j < |columns| ==> columns[j] != column
  }

  /** And each of them with the cell of its last occurrence, NULL included. */
  lemma {:induction false} ScanAssignExtra(l: Loaded, columns: seq<string>, cells: seq<Cell>, column: string)
    requires Fitting(columns, cells) && !Known(column)
    ensures var extras := AssignAll(l, columns, Scanned(columns, cells)).0.extras;
            && (column !in columns ==> (column in extras <==> column in l.extras)
                                       && (column in extras ==> extras[column] == l.extras[column]))
            && (forall i :: LastNamed(columns, column, i) ==> column in extras && extras[column] == UnknownType(cells[i]))
    decreases |columns|
  {
    if columns != [] {
      AssignOneField(l, columns[0], cells[0], FIELD_ID);
      var next := AssignOne(l, columns[0], Scanned(columns, cells)[0]).value;
      assert Scanned(columns, cells)[1..] == Scanned(columns[1..], cells[1..]);
      ScanAssignExtra(next, columns[1..], cells[1..], column);
      forall i | LastNamed(columns, column, i)
        ensures if i == 0 then column !in columns[1..] && next.extras[column] == UnknownType(cells[0])
                else LastNamed(columns[1..], column, i - 1) && cells[1..][i - 1] == cells[i]
      {
        assert forall j :: 0 < j < |columns| ==> columns[1..][j - 1] == columns[j];
      }
    }
  }

  // ---------- Create, then read ----------

  function CellOf(row: Row, column: string): Cell {
    if column in row then row[column] else Null
  }

  function CellsOf(row: Row, columns: seq<string>): (cells: seq<Cell>)
    ensures |cells| == |columns|
  {
    Map((c: string) => CellOf(row, c), columns)
  }

  ghost predicate WellTyped(row: Row) {
    forall c :: c in row ==> Fits(HolderFor(c), row[c])
  }

  /** The member that a query returns for a row, read through the given columns. */
  function ReadRow(row: Row, columns: seq<string>): Member
    requires WellTyped(row)
  {
    AssignAll(Loaded(BLANK, map[]), columns, Scanned(columns, CellsOf(row, columns))).0.member
  }

  lemma LastNonNullOfRow(row: Row, columns: seq<string>, column: string)
    ensures LastNonNull(columns, CellsOf(row, columns), column) ==
            if column in columns && !CellOf(row, column).Null? then Some(CellOf(row, column)) else None
  {
    var cells := CellsOf(row, columns);
    if column in columns {
      var i :| 0 <= i < |columns| && columns[i] == column;
      assert cells[i] == CellOf(row, column);
    }
  }

  /** A field read back from a row is the row's cell; it keeps its zero value if the cell is NULL or was not fetched. */
  lemma ReadField(row: Row, columns: seq<string>, field: string)
    requires WellTyped(row) && Known(field)
    ensures FieldCell(ReadRow(row, columns), field) ==
            if field in columns && !CellOf(row, field).Null? then CellOf(row, field) else FieldCell(BLANK, field)
  {
    ScanAssign(Loaded(BLANK, map[]), columns, CellsOf(row, columns), field);
    LastNonNullOfRow(row, columns, field);
  }

  lemma SetField(row: Row, fields: seq<(string, Cell)>, entry: (string, Cell))
    ensures SetFields(row, fields + [entry]) == SetFields(row, fields)[entry.0 := entry.1]
  {
    assert Init(fields + [entry]) == fields;
  }

  lemma SetEdge(row: Row, edges: seq<EdgeSpec>, edge: EdgeSpec)
    requires edge.targets != []
    ensures SetEdges(row, edges + [edge]) == SetEdges(row, edges)[edge.column := Str(edge.targets[0])]
  {
    assert Init(edges + [edge]) == edges;
  }

  /** The cell a create writes for an optional value, on top of what is already there. */
  function Written(before: Cell, column: string, v: Option<Cell>, c: string): Cell {
    if c == column && v.Some? then v.value else before
  }

  function TextValue(v: Option<string>): Option<Cell> {
    if v.Some? then Some(Str(v.value)) else None
  }

  function TimeValue(v: Option<int>): Option<Cell> {
    if v.Some? then Some(Time(v.value)) else None
  }

  lemma WithTextCell(row: Row, fields: seq<(string, Cell)>, column: string, v: Option<string>, c: string)
    ensures CellOf(SetFields(row, WithText(fields, column, v)), c) ==
            Written(CellOf(SetFields(row, fields), c), column, TextValue(v), c)
  {
    if v.Some? {
      SetField(row, fields, (column, Str(v.value)));
    }
  }

  lemma WithTimeCell(row: Row, fields: seq<(string, Cell)>, column: string, v: Option<int>, c: string)
    ensures CellOf(SetFields(row, WithTime(fields, column, v)), c) ==
            Written(CellOf(SetFields(row, fields), c), column, TimeValue(v), c)
  {
    if v.Some? {
      SetField(row, fields, (column, Time(v.value)));
    }
  }

  lemma WithEdgeCell(row: Row, edges: seq<EdgeSpec>, column: string, v: Option<string>, c: string)
    ensures CellOf(SetEdges(row, WithEdge(edges, column, TargetIDs(v))), c) ==
            Written(CellOf(SetEdges(row, edges), c), column, TextValue(v), c)
  {
    if v.Some? {
      var edge := EdgeSpec(column, TargetIDs(v));
      assert WithEdge(edges, column, TargetIDs(v)) == edges + [edge] && edge.targets[0] == v.value;
      SetEdge(row, edges, edge);
    }
  }

  lemma FieldsCell(row: Row, m: Mutation, c: string)
    ensures CellOf(SetFields(row, FieldsOf(m)), c) ==
            Written(Written(Written(Written(CellOf(row, c),
              FIELD_ASSIGNED_BY_USER_ID, TextValue(m.assignedBy), c), FIELD_UPDATED_BY_USER_ID, TextValue(m.updatedBy), c),
              FIELD_CREATED_AT, TimeValue(m.createdAt), c), FIELD_UPDATED_AT, TimeValue(m.updatedAt), c)
  {
    var f1 := WithText([], FIELD_ASSIGNED_BY_USER_ID, m.assignedBy);
    var f2 := WithText(f1, FIELD_UPDATED_BY_USER_ID, m.updatedBy);
    var f3 := WithTime(f2, FIELD_CREATED_AT, m.createdAt);
    WithTextCell(row, [], FIELD_ASSIGNED_BY_USER_ID, m.assignedBy, c);
    WithTextCell(row, f1, FIELD_UPDATED_BY_USER_ID, m.updatedBy, c);
    WithTimeCell(row, f2, FIELD_CREATED_AT, m.createdAt, c);
    WithTimeCell(row, f3, FIELD_UPDATED_AT, m.updatedAt, c);
  }

  lemma EdgesCell(row: Row, m: Mutation, c: string)
    ensures CellOf(SetEdges(row, EdgeSpecsOf(m)), c) ==
            Written(Written(Written(CellOf(row, c),
              FIELD_ORGANIZATION_ID, TextValue(m.organization), c), FIELD_USER_ID, TextValue(m.user), c),
              FIELD_ROLE_ID, TextValue(m.role), c)
  {
    var e1 := WithEdge([], FIELD_ORGANIZATION_ID, TargetIDs(m.organization));
    var e2 := WithEdge(e1, FIELD_USER_ID, TargetIDs(m.user));
    WithEdgeCell(row, [], FIELD_ORGANIZATION_ID, m.organization, c);
    WithEdgeCell(row, e1, FIELD_USER_ID, m.user, c);
    WithEdgeCell(row, e2, FIELD_ROLE_ID, m.role, c);
  }

  /** What a create writes to a column, over the cell that its ID, or NULL, put there. */
  function WrittenTo(m: Mutation, before: Cell, c: string): Cell {
    Written(Written(Written(
      Written(Written(Written(Written(before,
        FIELD_ASSIGNED_BY_USER_ID, TextValue(m.assignedBy), c), FIELD_UPDATED_BY_USER_ID, TextValue(m.updatedBy), c),
        FIELD_CREATED_AT, TimeValue(m.createdAt), c), FIELD_UPDATED_AT, TimeValue(m.updatedAt), c),
      FIELD_ORGANIZATION_ID, TextValue(m.organization), c), FIELD_USER_ID, TextValue(m.user), c),
      FIELD_ROLE_ID, TextValue(m.role), c)
  }

  lemma WrittenCell(m: Mutation, generated: Cell, c: string)
    ensures CellOf(StoredRow(SpecOf(m), generated), c) ==
            WrittenTo(m, if c == FIELD_ID then (if m.id.Some? then Str(m.id.value) else generated) else Null, c)
  {
    var nulls: Row := map c | c in ORG_MEMBER_COLUMNS :: Null;
    var keyed := nulls[FIELD_ID := if m.id.Some? then Str(m.id.value) else generated];
    FieldsCell(keyed, m, c);
    EdgesCell(SetFields(keyed, FieldsOf(m)), m, c);
  }

  lemma WrittenField(m: Mutation, before: Cell, c: string)
    requires Check(m) == None && (c != FIELD_ID ==> before == Null)
    ensures WrittenTo(m, before, c) == if c == FIELD_ID then before else FieldCell(NodeOf(m), c)
  {
    CheckAccepts(m);
    DistinctColumns();
    var cs := ORG_MEMBER_COLUMNS;
    assert cs[0] == FIELD_ID && cs[1] == FIELD_ORGANIZATION_ID && cs[2] == FIELD_USER_ID && cs[3] == FIELD_ROLE_ID;
    assert cs[4] == FIELD_ASSIGNED_BY_USER_ID && cs[5] == FIELD_UPDATED_BY_USER_ID;
    assert cs[6] == FIELD_CREATED_AT && cs[7] == FIELD_UPDATED_AT;
  }

  /** Every column of the row a create stores holds the field of the node it returns; only a generated ID may differ. */
  lemma StoredCell(m: Mutation, generated: Cell, c: string)
    requires Check(m) == None
    ensures CellOf(StoredRow(SpecOf(m), generated), c) ==
            if c == FIELD_ID && m.id.None? then generated else FieldCell(NodeOf(m), c)
  {
    WrittenCell(m, generated, c);
    WrittenField(m, if c == FIELD_ID then (if m.id.Some? then Str(m.id.value) else generated) else Null, c);
  }

  function TextOrNull(v: Option<string>): Cell {
    if v.Some? then Str(v.value) else Null
  }

  /** Column by column, what a create stores of its mutation and returns of it. */
  lemma CreatedCells(m: Mutation, generated: Cell)
    requires Check(m) == None
    ensures var row, node := StoredRow(SpecOf(m), generated), NodeOf(m);
            && CellOf(row, "id") == (if m.id.Some? then Str(m.id.value) else generated)
            && m.organization.Some? && CellOf(row, "organization_id") == Str(m.organization.value) == Str(node.organizationId)
            && m.user.Some? && CellOf(row, "user_id") == Str(m.user.value) == Str(node.userId)
            && m.role.Some? && CellOf(row, "role_id") == Str(m.role.value) == Str(node.roleId)
            && CellOf(row, "assigned_by_user_id") == TextOrNull(m.assignedBy) == TextOrNull(node.assignedBy)
            && CellOf(row, "updated_by_user_id") == TextOrNull(m.updatedBy) == TextOrNull(node.updatedBy)
            && m.createdAt.Some? && CellOf(row, "created_at") == Time(m.createdAt.value) == Time(node.createdAt)
            && m.updatedAt.Some? && CellOf(row, "updated_at") == Time(m.updatedAt.value) == Time(node.updatedAt)
  {
    CheckAccepts(m);
    DistinctColumns();
    var cs := ORG_MEMBER_COLUMNS;
    assert cs[0] == FIELD_ID && cs[1] == FIELD_ORGANIZATION_ID && cs[2] == FIELD_USER_ID && cs[3] == FIELD_ROLE_ID;
    assert cs[4] == FIELD_ASSIGNED_BY_USER_ID && cs[5] == FIELD_UPDATED_BY_USER_ID;
    assert cs[6] == FIELD_CREATED_AT && cs[7] == FIELD_UPDATED_AT;
    forall k | 0 <= k < |cs| ensures CellOf(StoredRow(SpecOf(m), generated), cs[k]) ==
                                     if cs[k] == FIELD_ID && m.id.None? then generated else FieldCell(NodeOf(m), cs[k]) {
      StoredCell(m, generated, cs[k]);
    }
  }

  lemma StoredRowTyped(m: Mutation, generated: Cell)
    requires Check(m) == None && Fits(StringHolder, generated)
    ensures WellTyped(StoredRow(SpecOf(m), generated))
  {
    var row := StoredRow(SpecOf(m), generated);
    forall c | c in row ensures Fits(HolderFor(c), row[c]) {
      StoredCell(m, generated, c);
    }
  }

  /** Reading a created row back, through any column list that has every column (in any order, with repetitions and extra
      names), rebuilds the entity the create returned: unset optional fields are nil again and set ones are not, even if
      empty. The ID alone may differ, exactly when the mutation had none and the database generated one. */
  lemma CreateThenRead(m: Mutation, generated: Cell, columns: seq<string>)
    requires Check(m) == None && Fits(StringHolder, generated)
    requires forall i :: 0 <= i < |ORG_MEMBER_COLUMNS| ==> ORG_MEMBER_COLUMNS[i] in columns
    ensures WellTyped(StoredRow(SpecOf(m), generated))
    ensures var read := ReadRow(StoredRow(SpecOf(m), generated), columns);
            && read.(id := "") == NodeOf(m).(id := "")
            && (read == NodeOf(m) <==> m.id.Some? || generated == Null || generated == Str(""))
  {
    StoredRowTyped(m, generated);
    var row := StoredRow(SpecOf(m), generated);
    var read := ReadRow(row, columns);
    forall c | IsText(c) || IsTime(c)
      ensures FieldCell(read, c) == if c == FIELD_ID && m.id.None? then
                                      (if generated.Str? then generated else Str(""))
                                    else FieldCell(NodeOf(m), c)
    {
      ColumnTypes(c);
      assert c in columns by {
        var i :| 0 <= i < |ORG_MEMBER_COLUMNS| && ORG_MEMBER_COLUMNS[i] == c;
      }
      StoredCell(m, generated, c);
      ReadField(row, columns, c);
    }
    assert FieldCell(read, FIELD_ID) == Str(read.id);
    SameFields(read.(id := ""), NodeOf(m).(id := ""));
  }

  /** The keys a query reads off a decoded member are those of the fetched part of its row. */
  lemma DecodedKeys(row: Row, columns: seq<string>)
    requires WellTyped(row)
    ensures ReadRow(row, columns).id == Text(Project(row, columns), FIELD_ID)
    ensures ReadRow(row, columns).organizationId == Text(Project(row, columns), FIELD_ORGANIZATION_ID)
    ensures ReadRow(row, columns).userId == Text(Project(row, columns), FIELD_USER_ID)
    ensures ReadRow(row, columns).roleId == Text(Project(row, columns), FIELD_ROLE_ID)
  {
    DistinctColumns();
    var cs := ORG_MEMBER_COLUMNS;
    assert cs[0] == FIELD_ID && cs[1] == FIELD_ORGANIZATION_ID && cs[2] == FIELD_USER_ID && cs[3] == FIELD_ROLE_ID;
    ReadField(row, columns, FIELD_ID);
    ReadField(row, columns, FIELD_ORGANIZATION_ID);
    ReadField(row, columns, FIELD_USER_ID);
    ReadField(row, columns, FIELD_ROLE_ID);
  }
}
