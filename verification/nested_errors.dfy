/** A case in which a nested query that is not accepted makes the whole run fail, while the truncated run does not notice. */
module NestedErrors {
  import opened Common
  import opened Schema
  import opened Sequences
  import opened Selectors
  import opened Queries
  import opened EagerLoading
  import opened NestedLoop
  import opened Failures
  import opened Decisions
  import BuilderCalls
  import Traversal

  /** Users through an interceptor that was never initialized, below members, below organizations. */
  function Users(): Query {
    BuilderCalls.NewQuery(User, [NilInterceptor], None)
  }

  function MembersWithUsers(): Query {
    BuilderCalls.NewQuery(OrgMember, [], None).(withs := [None, Some(Users()), None])
  }

  function OrganizationsWithMembers(): Query {
    BuilderCalls.NewQuery(Organization, [], None).(withs := [None, Some(MembersWithUsers()), None, None])
  }

  lemma Shapes()
    ensures WellFormed(Users()) && WellFormed(MembersWithUsers()) && WellFormed(OrganizationsWithMembers())
  {
    assert EdgesOf(OrgMember)[1] == MemberUser && EdgesOf(Organization)[1] == OrgMembers;
  }

  /** The members of one organization row. */
  function MembersOf(row: Row, db: DB): seq<Row> {
    Shapes();
    AloneRows(OrgMembers, MembersWithUsers(), row, db)
  }

  /** If only edge `i` is requested, with an accepted query all of whose rows fail, a row fails exactly if it has a neighbour. */
  lemma FailsByEdge(q: Query, i: nat, child: Query, row: Row, db: DB)
    requires WellFormed(q) && i < |q.withs| && q.withs[i] == Some(child) && WellFormed(child) && PrepareOwn(child).1.None?
    requires forall j :: 0 <= j < |q.withs| && j != i ==> q.withs[j].None?
    requires forall r: Row :: Fails(child, r, db)
    ensures Fails(q, row, db) <==> AloneRows(EdgesOf(q.kind)[i], child, row, db) != []
  {
    var rows := AloneRows(EdgesOf(q.kind)[i], child, row, db);
    if rows != [] {
      assert rows[0] in rows && Fails(child, rows[0], db);
      RowFails(q, i, row, db);
    }
    if Fails(q, row, db) {
      var j := FailingEdge(q, row, db);
      assert j == i;
    }
  }

  lemma EveryMemberFails(member: Row, db: DB)
    ensures WellFormed(MembersWithUsers()) && Fails(MembersWithUsers(), member, db)
  {
    Shapes();
    assert MembersWithUsers().withs[1] == Some(Users()) && PrepareOwn(Users()).1.Some?;
    RowFails(MembersWithUsers(), 1, member, db);
  }

  /** Every member fails, so an organization fails exactly if it has one. */
  lemma FailsIfMember(q: Query, row: Row, db: DB)
    requires WellFormed(q) && q.kind == Organization && q.withs == OrganizationsWithMembers().withs
    ensures Fails(q, row, db) <==> MembersOf(row, db) != []
  {
    Shapes();
    assert EdgesOf(Organization)[1] == OrgMembers && q.withs[1] == Some(MembersWithUsers());
    forall member: Row ensures Fails(MembersWithUsers(), member, db) {
      EveryMemberFails(member, db);
    }
    FailsByEdge(q, 1, MembersWithUsers(), row, db);
  }

  lemma NoWindows(q: Query)
    requires q.withs == OrganizationsWithMembers().withs
    ensures NestedUnwindowed(q)
  {
    assert NestedUnwindowed(Users()) && NestedUnwindowed(MembersWithUsers());
  }

  ghost predicate SomeHasMembers(rows: seq<Row>, db: DB) {
    exists r :: r in rows && MembersOf(r, db) != []
  }

  /** A run over organizations fails exactly if one of the organizations it returns has a member. */
  lemma FailsIfMembers(q: Query, from: From, db: DB)
    requires WellFormed(q) && q.kind == Organization && q.withs == OrganizationsWithMembers().withs
    ensures SqlAll(q, from, db).result.Err? <==> SomeHasMembers(QueryNodes(Spec(q, from), db), db)
  {
    NoWindows(q);
    RunFails(q, from, db);
    SomeFailIfMembers(q, QueryNodes(Spec(q, from), db), db);
  }

  lemma SomeFailIfMembers(q: Query, rows: seq<Row>, db: DB)
    requires WellFormed(q) && q.kind == Organization && q.withs == OrganizationsWithMembers().withs
    ensures SomeFails(q, rows, db) <==> SomeHasMembers(rows, db)
  {
    if r: Row :| r in rows && Fails(q, r, db) {
      FailsIfMember(q, r, db);
    }
    if r: Row :| r in rows && MembersOf(r, db) != [] {
      FailsIfMember(q, r, db);
    }
  }

  // ---------- A concrete case ----------

  lemma {:induction false} SortUnordered(db: DB, rows: seq<Row>)
    ensures Sort(Leq([], db), rows) == rows
  {
    if rows != [] {
      var leq := Leq([], db);
      SortUnordered(db, Init(rows));
      assert leq(if Init(rows) == [] then Last(rows) else Last(Init(rows)), Last(rows));
      assert Insert(leq, Init(rows), Last(rows)) == Init(rows) + [Last(rows)];
    }
  }

  lemma {:induction false} FilterAll(db: DB, rows: seq<Row>)
    ensures Filter(Where([], db), rows) == rows
  {
    if rows != [] {
      FilterAll(db, Init(rows));
    }
  }

  /** Two organizations; the second has a member. */
  function FirstOrganization(): Row {
    map[FIELD_ID := Str("1")]
  }

  function SecondOrganization(): Row {
    map[FIELD_ID := Str("2")]
  }

  function TheMember(): Row {
    map[FIELD_ID := Str("m"), FIELD_ORGANIZATION_ID := Str("2")]
  }

  function TwoOrganizations(): DB {
    map[Organization := [FirstOrganization(), SecondOrganization()], OrgMember := [TheMember()]]
  }

  lemma AllRows(db: DB)
    ensures |OrganizationsWithMembers().withs| == 4
    ensures QueryNodes(Spec(OrganizationsWithMembers(), Table(Organization)), db) ==
            Map(Projection(SpecColumns(OrganizationsWithMembers())), TableRows(db, Organization))
  {
    var rows := TableRows(db, Organization);
    FilterAll(db, rows);
    SortUnordered(db, rows);
  }

  /** The organization with ID "2" has a member, and no other. */
  lemma HasMember(row: Row)
    ensures MembersOf(row, TwoOrganizations()) != [] <==> Text(row, FIELD_ID) == "2"
  {
    Shapes();
    var db := TwoOrganizations();
    var p := InValues(FIELD_ORGANIZATION_ID, [Text(row, FIELD_ID)]);
    var own := PrepareOwn(PerRow(OrgMembers, MembersWithUsers(), row)).0;
    var sel := SpecSelector(Spec(own, Table(OrgMember)));
    assert own.preds == [p] && |MembersOf(row, db)| == |Ordered(sel, db)|;
    assert |FIELD_ID| == 2 && |FIELD_ORGANIZATION_ID| == 15;
    assert TableRows(db, OrgMember) == [TheMember()] && TheMember() in TableRows(db, OrgMember);
    forall r ensures r in Ordered(sel, db) <==> r == TheMember() && Text(row, FIELD_ID) == "2" {
      Traversal.OrderedIn(sel, db, r);
      assert sel.preds[0] == p;
      assert Holds(sel.preds, db, r) <==> p(db, r);
    }
    if Ordered(sel, db) != [] {
      assert Ordered(sel, db)[0] in Ordered(sel, db);
    }
  }

  lemma ProjectedIds(rows: seq<Row>, columns: seq<string>)
    requires FIELD_ID in columns
    ensures |Map(Projection(columns), rows)| == |rows|
    ensures forall i :: 0 <= i < |rows| ==> Text(Map(Projection(columns), rows)[i], FIELD_ID) == Text(rows[i], FIELD_ID)
  {
  }

  lemma TheTable()
    ensures var rows := TableRows(TwoOrganizations(), Organization);
            |rows| == 2 && Text(rows[0], FIELD_ID) == "1" && Text(rows[1], FIELD_ID) == "2"
  {
  }

  lemma TheRows()
    ensures |OrganizationsWithMembers().withs| == 4
    ensures var rows := QueryNodes(Spec(OrganizationsWithMembers(), Table(Organization)), TwoOrganizations());
            |rows| == 2 && Text(rows[0], FIELD_ID) == "1" && Text(rows[1], FIELD_ID) == "2"
  {
    Shapes();
    TheTable();
    AllRows(TwoOrganizations());
    FetchesEveryKey(OrganizationsWithMembers(), 4);
    ProjectedIds(TableRows(TwoOrganizations(), Organization), SpecColumns(OrganizationsWithMembers()));
  }

  lemma TheFirstRow()
    ensures WellFormed(OrganizationsWithMembers().(limit := Some(1)))
    ensures var rows := QueryNodes(Spec(OrganizationsWithMembers().(limit := Some(1)), Table(Organization)), TwoOrganizations());
            |rows| == 1 && Text(rows[0], FIELD_ID) == "1"
  {
    Shapes();
    TheRows();
    var q := OrganizationsWithMembers();
    assert q.(limit := None) == q;
    LimitTakes(q, Table(Organization), 1, TwoOrganizations());
  }

  lemma WholeRunFails()
    ensures WellFormed(OrganizationsWithMembers())
    ensures SqlAll(OrganizationsWithMembers(), Table(Organization), TwoOrganizations()).result.Err?
  {
    Shapes();
    TheRows();
    var rows := QueryNodes(Spec(OrganizationsWithMembers(), Table(Organization)), TwoOrganizations());
    HasMember(rows[1]);
    assert rows[1] in rows;
    FailsIfMembers(OrganizationsWithMembers(), Table(Organization), TwoOrganizations());
  }

  /** The run with limit one returns the first organization, while the whole run fails on the second one's member. */
  lemma TruncatedRunMissesError()
    ensures WellFormed(OrganizationsWithMembers()) && WellFormed(OrganizationsWithMembers().(limit := Some(1)))
    ensures SqlAll(OrganizationsWithMembers(), Table(Organization), TwoOrganizations()).result.Err?
    ensures SqlAll(OrganizationsWithMembers().(limit := Some(1)), Table(Organization), TwoOrganizations()).result.Ok?
  {
    WholeRunFails();
    TruncatedRunSucceeds(OrganizationsWithMembers().(limit := Some(1)));
  }

  lemma FirstHasNoMember(rows: seq<Row>)
    requires |rows| == 1 && Text(rows[0], FIELD_ID) == "1"
    ensures !SomeHasMembers(rows, TwoOrganizations())
  {
    assert "1"[0] != "2"[0];
    HasMember(rows[0]);
    assert forall r :: r in rows ==> r == rows[0];
  }

  lemma TruncatedRunSucceeds(p: Query)
    requires p == OrganizationsWithMembers().(limit := Some(1))
    ensures WellFormed(p) && SqlAll(p, Table(Organization), TwoOrganizations()).result.Ok?
  {
    TheFirstRow();
    FirstHasNoMember(QueryNodes(Spec(p, Table(Organization)), TwoOrganizations()));
    FailsIfMembers(p, Table(Organization), TwoOrganizations());
  }
}
