/** Tables, selectors, and what a selector returns when the database evaluates it. */
module Selectors {
  import opened Common
  import opened Schema
  import opened Sequences

  datatype Cell = Null | Str(s: string) | Time(t: int)

  type Row = map<string, Cell>

  type DB = map<Kind, seq<Row>>

  /** A storage-level predicate may look at other tables (`HasMembersWith`), hence the database argument. */
  type Pred = (DB, Row) -> bool

  /** An ordering term gives each row a rank; smaller ranks come first. */
  type OrderTerm = (DB, Row) -> real

  datatype From = Table(kind: Kind) | Neighbors(upstream: Selector, edge: Edge)

  datatype Selector = Selector(
    from: From,
    columns: seq<string>,
    distinct: bool,
    preds: seq<Pred>,
    order: seq<OrderTerm>,
    offset: Option<nat>,
    limit: Option<nat>)

  function TableRows(db: DB, kind: Kind): seq<Row> {
    if kind in db then db[kind] else []
  }

  /** The value a string field has after decoding: the zero value when the column is NULL or was not fetched. */
  function Text(row: Row, column: string): string {
    if column in row && row[column].Str? then row[column].s else ""
  }

  predicate HasText(row: Row, column: string, values: seq<string>) {
    column in row && row[column].Str? && row[column].s in values
  }

  /** SQL equality of two string columns; NULL equals nothing. */
  predicate Joins(a: Row, aColumn: string, b: Row, bColumn: string) {
    HasText(a, aColumn, [Text(b, bColumn)]) && HasText(b, bColumn, [Text(a, aColumn)])
  }

  predicate Related(edge: Edge, from: Row, to: Row) {
    Joins(from, edge.SourceColumn(), to, edge.TargetColumn())
  }

  /** `IDIn(values...)` and `sql.InValues(column, values...)`. */
  function InValues(column: string, values: seq<string>): Pred {
    (db: DB, r: Row) => HasText(r, column, values)
  }

  predicate Holds(preds: seq<Pred>, db: DB, row: Row) {
    forall i :: 0 <= i < |preds| ==> preds[i](db, row)
  }

  predicate RankedBefore(order: seq<OrderTerm>, db: DB, a: Row, b: Row) {
    order == [] || order[0](db, a) < order[0](db, b)
    || (order[0](db, a) == order[0](db, b) && RankedBefore(order[1..], db, a, b))
  }

  function Leq(order: seq<OrderTerm>, db: DB): (Row, Row) -> bool {
    (a: Row, b: Row) => RankedBefore(order, db, a, b)
  }

  function Where(preds: seq<Pred>, db: DB): Row -> bool {
    (r: Row) => Holds(preds, db, r)
  }

  function Project(row: Row, columns: seq<string>): Row {
    map c | c in columns && c in row :: row[c]
  }

  function Projection(columns: seq<string>): Row -> Row {
    (r: Row) => Project(r, columns)
  }

  function Window<T>(s: seq<T>, offset: Option<nat>, limit: Option<nat>): seq<T> {
    var start := if offset.None? then 0 else if offset.value <= |s| then offset.value else |s|;
    var tail := s[start..];
    if limit.None? || |tail| <= limit.value then tail else tail[..limit.value]
  }

  /** `SetNeighbors`: one copy of each target row for every source row it is related to. */
  function Image(edge: Edge, sources: seq<Row>, targets: seq<Row>): seq<Row> {
    if sources == [] then [] else
      Image(edge, Init(sources), targets) + Filter(t => Related(edge, Last(sources), t), targets)
  }

  function FromRows(from: From, db: DB): seq<Row>
    decreases from
  {
    match from
    case Table(kind) => TableRows(db, kind)
    case Neighbors(up, edge) => Image(edge, Whole(up, db), TableRows(db, edge.Target()))
  }

  function Ordered(sel: Selector, db: DB): seq<Row>
    decreases sel, 0
  {
    Sort(Leq(sel.order, db), Filter(Where(sel.preds, db), FromRows(sel.from, db)))
  }

  /** The rows of a selector that is used as the source of a traversal step: the join reads the full rows. */
  function Whole(sel: Selector, db: DB): seq<Row>
    decreases sel, 1
  {
    var rows := Ordered(sel, db);
    Window(if sel.distinct then Dedup(rows) else rows, sel.offset, sel.limit)
  }

  /** The rows a selector returns to the client. */
  function Denote(sel: Selector, db: DB): seq<Row> {
    var rows := Map(Projection(sel.columns), Ordered(sel, db));
    Window(if sel.distinct then Dedup(rows) else rows, sel.offset, sel.limit)
  }
}
