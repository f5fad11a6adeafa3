/** The query builders themselves: objects updated in place, proved against the value-level account in `Queries`. */
module QueryBuilders {
  import opened Common
  import opened Schema
  import opened Sequences
  import opened Selectors
  import opened Queries
  import opened Loaders
  import opened Decisions
  import opened BuilderCalls
  import opened SharedUpstream

  class QueryBuilder {
    const kind: Kind
    /** The query this one was chained from, and the edge of the step between them. */
    const path: QueryBuilder?
    const edge: Edge
    ghost const upstream: seq<QueryBuilder>

    var fields: seq<string>
    var limit: Option<nat>
    var offset: Option<nat>
    var unique: Option<bool>
    var order: seq<OrderTerm>
    var inters: seq<Interceptor>
    var predicates: seq<Pred>
    var withs: seq<QueryBuilder?>
    var sql: Option<From>

    ghost var Repr: set<object>
    ghost var Model: Query

    /** The object's own fields agree with `Model`; the nested queries are a tree of separate valid objects. */
    ghost predicate Valid()
      reads this, Repr
      decreases Repr
    {
      && this in Repr
      && Model == Query(kind, fields, limit, offset, unique, order, inters, predicates, Model.withs,
                        if path == null then None else Some(edge))
      && (path == null ==> sql == None)
      && |withs| == |Model.withs| == |EdgesOf(kind)|
      && (forall i :: 0 <= i < |withs| ==>
            if withs[i] == null then Model.withs[i] == None else
              && withs[i] in Repr && withs[i].Repr <= Repr && this !in withs[i].Repr
              && withs[i].Valid()
              && withs[i].path == null && withs[i].upstream == []
              && withs[i].kind == EdgesOf(kind)[i].Target()
              && Model.withs[i] == Some(withs[i].Model))
      && (forall i, j :: 0 <= i < j < |withs| && withs[i] != null && withs[j] != null ==>
            withs[i].Repr !! withs[j].Repr)
    }

    /** This query and the queries it was chained from: all valid, sharing nothing. */
    ghost predicate ValidChain()
      reads this, Repr, upstream, set u, o | u in upstream && o in u.Repr :: o
      decreases |upstream|
    {
      && Valid()
      && (if path == null then upstream == [] else
            && upstream == [path] + path.upstream
            && edge.Source() == path.kind && edge.Target() == kind
            && (assert path == upstream[0] && path.upstream == upstream[1..]; path.ValidChain())
            && (forall u :: u in upstream ==> u !in Repr && u.Repr !! Repr))
    }

    /** The chain as values, outermost query first. */
    ghost function Models(): (r: seq<Query>)
      requires ValidChain()
      reads this, Repr, upstream, set u, o | u in upstream && o in u.Repr :: o
      ensures r != [] && r[0] == Model
      decreases |upstream|
    {
      [Model] + if path == null then [] else (assert path == upstream[0] && path.upstream == upstream[1..]; path.Models())
    }

    /** Changes within this query's own footprint leave the rest of its chain alone. */
    twostate lemma ChainStays()
      requires old(ValidChain()) && Valid() && fresh(Repr - old(Repr))
      requires unchanged(upstream) && forall u, o | u in upstream && o in old(u.Repr) :: unchanged(o)
      ensures ValidChain() && Models() == [Model] + old(Models())[1..]
      ensures path != null ==> path.ValidChain() && path.Models() == old(path.Models())
    {
      if path != null {
        assert path == upstream[0] && path.upstream == upstream[1..];
        assert path.ValidChain() && path.Models() == old(path.Models());
      }
    }

    /** A query none of whose objects changes stays as it is. */
    twostate lemma Undisturbed()
      requires old(Valid()) && forall o :: o in old(Repr) ==> unchanged(o)
      ensures Valid() && Repr == old(Repr) && Model == old(Model)
    {
    }

    lemma ValidIsWellFormed()
      requires Valid()
      ensures WellFormed(Model)
      decreases Repr
    {
      forall i | 0 <= i < |Model.withs| && Model.withs[i].Some?
        ensures WellFormed(Model.withs[i].value) && Model.withs[i].value.via.None?
        ensures Model.withs[i].value.kind == EdgesOf(kind)[i].Target()
      {
        withs[i].ValidIsWellFormed();
      }
    }

    /** `XClient.Query()`: a new query with the interceptors registered so far. */
    constructor OfKind(kind: Kind, inters: seq<Interceptor>)
      ensures ValidChain() && fresh(Repr) && this.kind == kind && path == null && upstream == []
      ensures Model == Query(kind, [], None, None, None, [], inters, [], seq(|EdgesOf(kind)|, i => None), None)
    {
      this.kind, this.inters := kind, inters;
      path, edge, upstream := null, OrgTenant, [];
      fields, limit, offset, unique, order, predicates, sql := [], None, None, None, [], [], None;
      withs := seq(|EdgesOf(kind)|, i => null);
      Repr := {this};
      Model := Query(kind, [], None, None, None, [], inters, [], seq(|EdgesOf(kind)|, i => None), None);
    }

    constructor Chained(from: QueryBuilder, edge: Edge, inters: seq<Interceptor>)
      ensures Valid() && Repr == {this} && kind == edge.Target() && path == from && this.edge == edge
      ensures upstream == [from] + from.upstream
      ensures Model == Query(edge.Target(), [], None, None, None, [], inters, [],
                             seq(|EdgesOf(edge.Target())|, i => None), Some(edge))
    {
      this.kind, this.inters := edge.Target(), inters;
      path, this.edge, upstream := from, edge, [from] + from.upstream;
      fields, limit, offset, unique, order, predicates, sql := [], None, None, None, [], [], None;
      withs := seq(|EdgesOf(edge.Target())|, i => null);
      Repr := {this};
      Model := Query(edge.Target(), [], None, None, None, [], inters, [], seq(|EdgesOf(edge.Target())|, i => None),
                     Some(edge));
    }

    /** `QueryX`: a new query fed by this one along `edge`. */
    method QueryEdge(edge: Edge, inters: seq<Interceptor>) returns (q: QueryBuilder)
      requires ValidChain() && edge.Source() == kind
      ensures ValidChain() && Models() == old(Models())
      ensures q.ValidChain() && fresh(q.Repr) && q.upstream == [this] + upstream
      ensures q.Models() == [Query(edge.Target(), [], None, None, None, [], inters, [],
                                   seq(|EdgesOf(edge.Target())|, i => None), Some(edge))] + Models()
    {
      q := new QueryBuilder.Chained(this, edge, inters);
    }
  
    // ---------- Builder calls ----------

    method Where(ps: seq<Pred>)
      requires Valid()
      modifies this`predicates, this`Model
      ensures Valid() && Model == old(Model).(preds := old(Model).preds + ps)
    {
      predicates := predicates + ps;
      Model := Model.(preds := predicates);
    }

    method Limit(n: nat)
      requires Valid()
      modifies this`limit, this`Model
      ensures Valid() && Model == old(Model).(limit := Some(n))
    {
      limit := Some(n);
      Model := Model.(limit := limit);
    }

    method Offset(n: nat)
      requires Valid()
      modifies this`offset, this`Model
      ensures Valid() && Model == old(Model).(offset := Some(n))
    {
      offset := Some(n);
      Model := Model.(offset := offset);
    }

    method Unique(b: bool)
      requires Valid()
      modifies this`unique, this`Model
      ensures Valid() && Model == old(Model).(unique := Some(b))
    {
      unique := Some(b);
      Model := Model.(unique := unique);
    }

    method Order(terms: seq<OrderTerm>)
      requires Valid()
      modifies this`order, this`Model
      ensures Valid() && Model == old(Model).(order := old(Model).order + terms)
    {
      order := order + terms;
      Model := Model.(order := order);
    }

    method Select(columns: seq<string>)
      requires Valid()
      modifies this`fields, this`Model
      ensures Valid() && Model == old(Model).(fields := old(Model).fields + columns)
    {
      fields := fields + columns;
      Model := Model.(fields := fields);
    }

    /** `QueryContext.AppendFieldOnce`. */
    method AppendFieldOnce(column: string)
      requires Valid()
      modifies this`fields, this`Model
      ensures Valid() && Model == old(Model).(fields := AppendOnce(old(Model).fields, column))
    {
      if column !in fields {
        fields := fields + [column];
        Model := Model.(fields := fields);
      }
    }

    // ---------- Compilation ----------

    /** The interceptor loop of `prepareQuery`. */
    method TraverseAll() returns (err: Option<Error>)
      requires Valid()
      modifies this`predicates, this`Model
      ensures Valid()
      ensures var (adds, e) := Traverse(inters); Model == old(Model).(preds := old(Model).preds + adds) && err == e
    {
      var i := 0;
      while i < |inters|
        invariant 0 <= i <= |inters| && Valid()
        invariant Model == old(Model).(preds := predicates)
        invariant var (adds, e) := Traverse(inters[i..]); var (all, e') := Traverse(inters);
                  predicates + adds == old(predicates) + all && e == e'
      {
        match inters[i] {
          case NilInterceptor =>
            return Some(UninitializedInterceptor);
          case Plain(_) =>
          case Traverser(adds, refusal) =>
            Where(adds);
            if refusal.Some? {
              return Some(TraverseError(refusal.value));
            }
        }
        i := i + 1;
      }
      err := None;
    }

    /** The field loop of `prepareQuery`. */
    method CheckFields() returns (err: Option<Error>)
      ensures err == FirstInvalid(kind, fields)
    {
      var i := 0;
      while i < |fields|
        invariant 0 <= i <= |fields|
        invariant FirstInvalid(kind, fields[i..]) == FirstInvalid(kind, fields)
      {
        if !ValidColumn(kind, fields[i]) {
          return Some(ValidationError(fields[i]));
        }
        i := i + 1;
      }
      err := None;
    }

    /** The part of `prepareQuery` that concerns this query alone. */
    method PrepareOwnPart() returns (err: Option<Error>)
      requires Valid()
      modifies this`predicates, this`Model
      ensures Valid() && Model == PrepareOwn(old(Model)).0 && err == PrepareOwn(old(Model)).1
    {
      err := TraverseAll();
      if err.None? {
        err := CheckFields();
      }
    }

    method PrepareSelf() returns (err: Option<Error>)
      requires ValidChain()
      modifies this`predicates, this`Model
      ensures ValidChain() && Model == PrepareOwn(old(Model)).0 && err == PrepareOwn(old(Model)).1
      ensures path != null ==> path.ValidChain() && path.Models() == old(path.Models())
    {
      err := PrepareOwnPart();
      ChainStays();
    }

    /** Runs the traversals and the field checks of the whole chain, then rebuilds the source selector. */
    method PrepareQuery() returns (err: Option<Error>)
      requires ValidChain()
      modifies this`predicates, this`Model, this`sql, upstream
      ensures ValidChain()
      ensures forall u :: u in upstream ==> u.Repr == old(u.Repr)
      ensures Models() == Prepare(old(Models())).0 && err == Prepare(old(Models())).1
      ensures err == None ==> (if path == null then sql == None else sql == Some(Source(Models())))
      decreases |upstream|
    {
      err := PrepareSelf();
      if err.None? && path != null {
        err := PrepareUpstream();
        if err.None? {
          RebuildSource();
        }
      }
    }

    method PrepareUpstream() returns (err: Option<Error>)
      requires ValidChain() && path != null
      modifies upstream
      ensures ValidChain()
      ensures forall u :: u in upstream ==> u.Repr == old(u.Repr)
      ensures path.ValidChain() && path.Models() == Prepare(old(path.Models())).0 && err == Prepare(old(path.Models())).1
      ensures err == None ==> path.sql == (if path.path == null then None else Some(Source(path.Models())))
      decreases |upstream|, 0
    {
      assert path == upstream[0] && path.upstream == upstream[1..];
      err := path.PrepareQuery();
      assert Valid();
    }

    method RebuildSource()
      requires ValidChain() && path != null
      requires path.sql == (if path.path == null then None else Some(Source(path.Models())))
      modifies this`sql
      ensures ValidChain() && Models() == old(Models()) && sql == Some(Source(Models()))
    {
      var selector := path.SqlQuery();
      sql := Some(Neighbors(selector, edge));
      ChainStays();
    }

    /** The selector of this query, on top of the source that `PrepareQuery` stored. */
    method SqlQuery() returns (selector: Selector)
      requires Valid()
      ensures selector == Queries.SqlQuery(Model, if sql.Some? then sql.value else Table(kind))
    {
      var columns := fields;
      if |columns| == 0 {
        columns := Columns(kind);
      }
      selector := Selector(Table(kind), columns, false, [], [], None, None);
      if sql.Some? {
        selector := selector.(from := sql.value);
      }
      if unique == Some(true) {
        selector := selector.(distinct := true);
      }
      selector := selector.(preds := predicates, order := order);
      if offset.Some? {
        selector := selector.(offset := offset, limit := Some(MAX_INT32));
      }
      if limit.Some? {
        selector := selector.(limit := limit);
      }
    }

    method Selected() returns (columns: seq<string>)
      ensures columns == SelectedColumns(fields)
    {
      columns := [FIELD_ID];
      for i := 0 to |fields|
        invariant columns == SelectedColumns(fields[..i])
      {
        FilterSnoc(NotId, fields[..i], fields[i]);
        assert fields[..i + 1] == fields[..i] + [fields[i]];
        if fields[i] != FIELD_ID {
          columns := columns + [fields[i]];
        }
      }
      assert fields[..|fields|] == fields;
    }

    /** The columns a run fetches when fields were selected: ID, selected fields, foreign keys of the requested edges. */
    method FetchedColumns() returns (columns: seq<string>)
      requires Valid()
      ensures columns == WithKeys(Model, SelectedColumns(fields), |withs|)
    {
      columns := Selected();
      for i := 0 to |withs|
        invariant columns == WithKeys(Model, SelectedColumns(fields), i)
      {
        var e := EdgesOf(kind)[i];
        if withs[i] != null && e.Cardinality() == M2O {
          columns := AppendOnce(columns, e.SourceColumn());
        }
      }
    }

    method QuerySpec() returns (spec: QuerySpec)
      requires Valid()
      ensures spec == Spec(Model, if sql.Some? then sql.value else Table(kind))
    {
      spec := Queries.QuerySpec(if sql.Some? then sql.value else Table(kind), Columns(kind), false, predicates, order, 0, 0);
      if unique.Some? {
        spec := spec.(unique := unique.value);
      } else if path != null {
        spec := spec.(unique := true);
      }
      if |fields| > 0 {
        var columns := FetchedColumns();
        spec := spec.(columns := columns);
      }
      if limit.Some? {
        spec := spec.(limit := limit.value);
      }
      if offset.Some? {
        spec := spec.(offset := offset.value);
      }
    }
  
    // ---------- Loaders ----------

    /** The restriction a to-many loader puts on its nested query. */
    method NarrowToMany(column: string, keys: seq<string>)
      requires Valid()
      modifies this`fields, this`predicates, this`Model
      ensures Valid()
      ensures Model == old(Model).(fields := if old(Model).fields == [] then [] else AppendOnce(old(Model).fields, column),
                                   preds := old(Model).preds + [InValues(column, keys)])
    {
      if |fields| > 0 {
        AppendFieldOnce(column);
      }
      Where([InValues(column, keys)]);
    }

    /** Narrows this nested query to the keys of the loading nodes, whose values are `before`, and runs it. */
    method FetchToMany(edge: Edge, keys: seq<string>, db: DB, ghost before: seq<Entity>)
      returns (neighbors: seq<Node>, err: Option<Error>)
      requires Valid() && path == null && upstream == [] && WellFormed(Model)
      requires edge.Cardinality() == O2M && keys == Keys(before, edge.SourceColumn())
      modifies Repr - {this}, this`fields, this`predicates, this`Model, this`sql
      ensures Valid() && fresh(neighbors) && Distinct(neighbors)
      ensures var run := Queries.All(Narrow(edge, old(Model), before), db);
              Model == run.query && run.result == if err.Some? then Err(err.value) else Ok(Values(neighbors))
      decreases Repr, 8
    {
      NarrowToMany(edge.TargetColumn(), keys);
      neighbors, err := AllNested(db);
    }

    method FetchToOne(edge: Edge, ids: seq<string>, db: DB, ghost before: seq<Entity>)
      returns (neighbors: seq<Node>, err: Option<Error>)
      requires Valid() && path == null && upstream == [] && WellFormed(Model)
      requires edge.Cardinality() == M2O && ids == Dedup(Keys(before, edge.SourceColumn()))
      modifies Repr - {this}, this`predicates, this`Model, this`sql
      ensures Valid() && fresh(neighbors) && Distinct(neighbors)
      ensures var run := Queries.All(Narrow(edge, old(Model), before), db);
              Model == run.query && run.result == if err.Some? then Err(err.value) else Ok(Values(neighbors))
      decreases Repr, 8
    {
      Where([InValues(edge.TargetColumn(), ids)]);
      neighbors, err := AllNested(db);
    }

    /** `loadMembers` and the other to-many loaders. */
    static method LoadToMany(edge: Edge, i: nat, child: QueryBuilder, nodes: seq<Node>, db: DB) returns (err: Option<Error>)
      requires edge.Cardinality() == O2M
      requires child.Valid() && child.path == null && child.upstream == [] && WellFormed(child.Model)
      requires Distinct(nodes) && HaveSlot(nodes, i) && forall k :: 0 <= k < |nodes| ==> nodes[k] !in child.Repr
      modifies child.Repr - {child}, child`fields, child`predicates, child`Model, child`sql, nodes
      ensures child.Valid()
      ensures child.Model == Load(edge, i, old(child.Model), old(Values(nodes)), db).query
      ensures Load(edge, i, old(child.Model), old(Values(nodes)), db).result
              == if err.Some? then Err(err.value) else Ok(Values(nodes))
      decreases child.Repr, 9
    {
      ghost var before := Values(nodes);
      var keys, index := IndexToMany(edge.SourceColumn(), i, nodes);
      var neighbors;
      neighbors, err := child.FetchToMany(edge, keys, db, before);
      if err.None? {
        err := FinishToMany(edge, i, nodes, index, Values(neighbors), before);
      }
    }

    /** `loadOrganization`, `loadTenant` and the other to-one loaders. */
    static method LoadToOne(edge: Edge, i: nat, child: QueryBuilder, nodes: seq<Node>, db: DB) returns (err: Option<Error>)
      requires edge.Cardinality() == M2O
      requires child.Valid() && child.path == null && child.upstream == [] && WellFormed(child.Model)
      requires Distinct(nodes) && HaveSlot(nodes, i) && forall k :: 0 <= k < |nodes| ==> nodes[k] !in child.Repr
      modifies child.Repr - {child}, child`fields, child`predicates, child`Model, child`sql, nodes
      ensures child.Valid()
      ensures child.Model == Load(edge, i, old(child.Model), old(Values(nodes)), db).query
      ensures Load(edge, i, old(child.Model), old(Values(nodes)), db).result
              == if err.Some? then Err(err.value) else Ok(Values(nodes))
      decreases child.Repr, 9
    {
      ghost var before := Values(nodes);
      var ids, index := IndexToOne(edge.SourceColumn(), nodes);
      var neighbors;
      neighbors, err := child.FetchToOne(edge, ids, db, before);
      if err.None? {
        err := FinishToOne(edge, i, nodes, index, Values(neighbors), before);
      }
    }

    // ---------- All ----------

    static method LoadChild(edge: Edge, i: nat, child: QueryBuilder, nodes: seq<Node>, db: DB) returns (err: Option<Error>)
      requires child.Valid() && child.path == null && child.upstream == [] && WellFormed(child.Model)
      requires Distinct(nodes) && HaveSlot(nodes, i) && forall k :: 0 <= k < |nodes| ==> nodes[k] !in child.Repr
      modifies child.Repr - {child}, child`fields, child`predicates, child`Model, child`sql, nodes
      ensures child.Valid()
      ensures child.Model == Load(edge, i, old(child.Model), old(Values(nodes)), db).query
      ensures Load(edge, i, old(child.Model), old(Values(nodes)), db).result
              == if err.Some? then Err(err.value) else Ok(Values(nodes))
      decreases child.Repr, 10
    {
      match edge.Cardinality() {
        case O2M => err := LoadToMany(edge, i, child, nodes, db);
        case M2O => err := LoadToOne(edge, i, child, nodes, db);
      }
    }

    /** Runs the loader of edge `i`; `Model` does not know yet. */
    method LoadOwnChild(i: nat, nodes: seq<Node>, db: DB) returns (err: Option<Error>, ghost run: Query)
      requires Valid() && WellFormed(Model) && i < |withs| && withs[i] != null
      requires Distinct(nodes) && HaveSlot(nodes, i) && forall k :: 0 <= k < |nodes| ==> nodes[k] !in Repr
      modifies Repr - {this}, nodes
      ensures forall j :: 0 <= j < |withs| && withs[j] != null ==>
                && withs[j].Valid() && withs[j].Repr == old(withs[j].Repr)
                && withs[j].Model == if j == i then run else old(withs[j].Model)
      ensures var load := Load(EdgesOf(kind)[i], i, old(Model.withs[i].value), old(Values(nodes)), db);
              run == load.query && load.result == if err.Some? then Err(err.value) else Ok(Values(nodes))
      decreases Repr, 0
    {
      err := LoadChild(EdgesOf(kind)[i], i, withs[i], nodes, db);
      run := withs[i].Model;
    }

    /** Records in `Model` that nested query `i` has become `run`. */
    ghost method Record(i: nat, run: Query)
      requires i < |withs| == |Model.withs| == |EdgesOf(kind)| && withs[i] != null
      requires this in Repr && (path == null ==> sql == None)
      requires Model == Query(kind, fields, limit, offset, unique, order, inters, predicates, Model.withs,
                              if path == null then None else Some(edge))
      requires forall j :: 0 <= j < |withs| ==>
                 if withs[j] == null then Model.withs[j] == None else
                   && withs[j] in Repr && withs[j].Repr <= Repr && this !in withs[j].Repr
                   && withs[j].Valid()
                   && withs[j].path == null && withs[j].upstream == [] && withs[j].kind == EdgesOf(kind)[j].Target()
                   && (if j == i then withs[j].Model == run else Model.withs[j] == Some(withs[j].Model))
      requires forall j, k :: 0 <= j < k < |withs| && withs[j] != null && withs[k] != null ==> withs[j].Repr !! withs[k].Repr
      modifies this`Model
      ensures Valid() && Model == old(Model).(withs := old(Model).withs[i := Some(run)])
    {
      Model := Model.(withs := Model.withs[i := Some(run)]);
    }

    /** Runs the loader of edge `i`, which must have been requested. */
    method LoadEdge(i: nat, nodes: seq<Node>, db: DB) returns (err: Option<Error>)
      requires Valid() && WellFormed(Model) && i < |withs| && withs[i] != null
      requires Distinct(nodes) && HaveSlot(nodes, i) && forall k :: 0 <= k < |nodes| ==> nodes[k] !in Repr
      modifies Repr - {this}, this`Model, nodes
      ensures Valid()
      ensures var load := Load(EdgesOf(kind)[i], i, old(Model.withs[i].value), old(Values(nodes)), db);
              && Model == old(Model).(withs := old(Model).withs[i := Some(load.query)])
              && load.result == if err.Some? then Err(err.value) else Ok(Values(nodes))
      decreases Repr, 1
    {
      ghost var run;
      err, run := LoadOwnChild(i, nodes, db);
      Record(i, run);
    }

    /** The turn of edge `i` in `LoadEdges`, which started as `q` and would end in `total`. */
    method LoadTurn(i: nat, nodes: seq<Node>, db: DB, ghost q: Query, ghost total: (seq<Option<Query>>, Result<seq<Entity>>))
      returns (err: Option<Error>)
      requires Valid() && WellFormed(q) && i < |withs|
      requires Distinct(nodes) && forall k :: 0 <= k < |nodes| ==> nodes[k] !in Repr
      requires Remaining(q, i, total, Model, Values(nodes), db)
      modifies Repr - {this}, this`Model, nodes
      ensures Valid()
      ensures err.None? ==> Remaining(q, i + 1, total, Model, Values(nodes), db)
      ensures err.Some? ==> Model == old(Model).(withs := total.0) && total.1 == Err(err.value)
      decreases Repr, 2
    {
      ghost var now, current := Model, Values(nodes);
      if withs[i] == null {
        RemainingSkip(q, i, total, now, current, db);
        return None;
      }
      ValidIsWellFormed();
      assert forall k :: 0 <= k < |nodes| ==> nodes[k].Value() == current[k] && current[k] in current;
      ghost var load := Load(EdgesOf(kind)[i], i, q.withs[i].value, current, db);
      err := LoadEdge(i, nodes, db);
      if err.Some? {
        RemainingStop(q, i, total, now, current, load, db);
      } else {
        RemainingStep(q, i, total, now, current, load, db);
      }
    }

    /** The loaders of all requested edges, in order, up to the first error. */
    method LoadEdges(nodes: seq<Node>, db: DB) returns (err: Option<Error>)
      requires Valid() && WellFormed(Model)
      requires Distinct(nodes) && forall k :: 0 <= k < |nodes| ==> nodes[k] !in Repr && |nodes[k].slots| == |withs|
      modifies Repr - {this}, this`Model, nodes
      ensures Valid()
      ensures var (ws, result) := LoadFrom(old(Model), 0, old(Values(nodes)), db);
              Model == old(Model).(withs := ws) && result == if err.Some? then Err(err.value) else Ok(Values(nodes))
      decreases Repr, 3
    {
      ghost var q := Model;
      ghost var total := LoadFrom(q, 0, Values(nodes), db);
      for i := 0 to |withs|
        invariant Valid() && Remaining(q, i, total, Model, Values(nodes), db)
      {
        err := LoadTurn(i, nodes, db, q, total);
        if err.Some? {
          return;
        }
      }
      err := None;
    }

    method SqlAll(db: DB) returns (nodes: seq<Node>, err: Option<Error>)
      requires Valid() && WellFormed(Model)
      modifies Repr - {this}, this`Model
      ensures Valid()
      ensures fresh(nodes) && Distinct(nodes)
      ensures var run := Queries.SqlAll(old(Model), if sql.Some? then sql.value else Table(kind), db);
              Model == run.query && run.result == if err.Some? then Err(err.value) else Ok(Values(nodes))
      decreases Repr, 4
    {
      var spec := QuerySpec();
      var rows := QueryNodes(spec, db);
      var loaded := seq(|withs|, i requires 0 <= i < |withs| reads this => withs[i] != null);
      ghost var q := Model;
      assert loaded == Requested(q);
      nodes := Allocate(kind, rows, loaded);
      err := None;
      assert Values(nodes) == Map((r: Row) => NewEntity(q, r), rows);
      if |nodes| > 0 {
        err := LoadEdges(nodes, db);
      }
    }

    method SqlAllOfChain(db: DB) returns (nodes: seq<Node>, err: Option<Error>)
      requires ValidChain() && WellFormed(Model)
      modifies Repr - {this}, this`Model
      ensures ValidChain()
      ensures fresh(nodes) && Distinct(nodes)
      ensures var run := Queries.SqlAll(old(Model), if sql.Some? then sql.value else Table(kind), db);
              && Models() == [run.query] + old(Models())[1..]
              && run.result == if err.Some? then Err(err.value) else Ok(Values(nodes))
      decreases Repr, 5
    {
      nodes, err := SqlAll(db);
      ChainStays();
    }

    /** Runs the query: its nodes with every requested edge loaded, or the first error. */
    method All(db: DB) returns (nodes: seq<Node>, err: Option<Error>)
      requires ValidChain() && WellFormed(Model)
      modifies Repr - {this}, this`predicates, this`Model, this`sql, upstream
      ensures ValidChain() && forall u :: u in upstream ==> u.Repr == old(u.Repr)
      ensures fresh(nodes) && Distinct(nodes)
      ensures Models() == AllOf(old(Models()), db).0
      ensures AllOf(old(Models()), db).1 == if err.Some? then Err(err.value) else Ok(Values(nodes))
      decreases Repr, 6
    {
      nodes := [];
      err := PrepareQuery();
      if err.None? {
        ValidIsWellFormed();
        nodes, err := SqlAllOfChain(db);
      }
    }

    /** `All` as the loaders see it: on a query that is not a traversal. */
    method AllNested(db: DB) returns (nodes: seq<Node>, err: Option<Error>)
      requires Valid() && path == null && upstream == [] && WellFormed(Model)
      modifies Repr - {this}, this`predicates, this`Model, this`sql
      ensures Valid()
      ensures fresh(nodes) && Distinct(nodes)
      ensures var run := Queries.All(old(Model), db);
              Model == run.query && run.result == if err.Some? then Err(err.value) else Ok(Values(nodes))
      decreases Repr, 7
    {
      AllOfSingle(Model, db);
      nodes, err := All(db);
    }
  
    // ---------- Clone ----------

    constructor Copy(of: QueryBuilder, withs: seq<QueryBuilder?>, ghost footprint: set<object>)
      ensures kind == of.kind && path == of.path && edge == of.edge && upstream == of.upstream
      ensures fields == of.fields && limit == of.limit && offset == of.offset && unique == of.unique
      ensures order == of.order && inters == of.inters && predicates == of.predicates && sql == of.sql
      ensures this.withs == withs && Model == of.Model && Repr == {this} + footprint
    {
      kind, path, edge, upstream := of.kind, of.path, of.edge, of.upstream;
      fields, limit, offset, unique := of.fields, of.limit, of.offset, of.unique;
      order, inters, predicates, sql := of.order, of.inters, of.predicates, of.sql;
      this.withs, Model, Repr := withs, of.Model, {this} + footprint;
    }

    /** `copy` duplicates nested query `i` (or both are absent), inside `footprint`. */
    ghost predicate Duplicate(i: nat, copy: QueryBuilder?, footprint: set<object>)
      requires i < |withs|
      reads this, Repr, footprint
    {
      if withs[i] == null then copy == null else
        && withs[i] in Repr
        && copy != null && copy in footprint && copy.Repr <= footprint
        && copy.Valid() && copy.Model == withs[i].Model
        && copy.path == null && copy.upstream == [] && copy.kind == withs[i].kind
    }

    method CloneNested() returns (copies: seq<QueryBuilder?>, ghost footprint: set<object>)
      requires Valid()
      ensures fresh(footprint) && |copies| == |withs|
      ensures forall j :: 0 <= j < |withs| ==> Duplicate(j, copies[j], footprint)
      ensures forall j, k :: 0 <= j < k < |withs| && copies[j] != null && copies[k] != null ==> copies[j].Repr !! copies[k].Repr
      decreases Repr, 0
    {
      copies, footprint := [], {};
      for i := 0 to |withs|
        invariant |copies| == i && fresh(footprint)
        invariant forall j :: 0 <= j < i ==> Duplicate(j, copies[j], footprint)
        invariant forall j, k :: 0 <= j < k < i && copies[j] != null && copies[k] != null ==> copies[j].Repr !! copies[k].Repr
        modifies {}
      {
        if withs[i] == null {
          copies := copies + [null];
        } else {
          var copy := withs[i].Clone();
          copies, footprint := copies + [copy], footprint + copy.Repr;
        }
      }
    }

    /** A duplicate that shares the traversal source, but neither its own state nor that of any nested query. */
    method Clone() returns (c: QueryBuilder)
      requires Valid()
      ensures c.Valid() && fresh(c.Repr) && c.Model == Model && c.sql == sql
      ensures c.kind == kind && c.path == path && c.edge == edge && c.upstream == upstream
      decreases Repr, 1
    {
      ghost var footprint;
      var copies;
      copies, footprint := CloneNested();
      c := new QueryBuilder.Copy(this, copies, footprint);
      assert forall j :: 0 <= j < |withs| ==> Duplicate(j, copies[j], footprint);
    }

    /** A query chained from the same queries has the same upstream chain. */
    lemma SharesChain(c: QueryBuilder)
      requires ValidChain() && c.Valid()
      requires c.path == path && c.edge == edge && c.upstream == upstream && c.kind == kind
      requires forall u :: u in upstream ==> u !in c.Repr && u.Repr !! c.Repr
      ensures c.ValidChain() && c.Models() == [c.Model] + Models()[1..]
    {
      if path != null {
        assert path == upstream[0] && path.upstream == upstream[1..];
        assert c.Models() == [c.Model] + path.Models() && Models() == [Model] + path.Models();
      }
    }
  
    // ---------- Terminal calls ----------

    /** The clone as a chain. */
    method CloneChain() returns (c: QueryBuilder)
      requires ValidChain()
      ensures ValidChain() && c.ValidChain() && fresh(c.Repr) && c.Models() == Models() == old(Models())
      ensures c.kind == kind && c.path == path && c.edge == edge && c.upstream == upstream
    {
      c := Clone();
      SharesChain(c);
    }

    /** After calls on this query, a query that shares its upstream chain returns what it would have returned before. */
    lemma SharesResult(c: QueryBuilder, chain: seq<Query>, calls: seq<Call>, db: DB)
      requires ValidChain() && chain != [] && WellFormed(chain[0]) && Models() == CallsOf(chain, calls, db)
      requires c.Valid() && c.Model == chain[0]
      requires c.path == path && c.edge == edge && c.upstream == upstream && c.kind == kind
      requires forall u :: u in upstream ==> u !in c.Repr && u.Repr !! c.Repr
      ensures c.ValidChain()
      ensures forall later :: AllOf(c.Models(), later).1 == AllOf(chain, later).1
    {
      SharesChain(c);
      CallsOnCloneInvisible(chain, calls, db);
    }

    method Truncate(n: nat)
      requires ValidChain()
      modifies this`limit, this`Model
      ensures ValidChain() && Models() == Limited(old(Models()), Some(n))
    {
      Limit(n);
      ChainStays();
    }

    /** `First`: leaves the limit behind. */
    method First(db: DB) returns (node: Node?, err: Option<Error>)
      requires ValidChain() && WellFormed(Model)
      modifies Repr, upstream
      ensures ValidChain() && Repr == old(Repr) && forall u :: u in upstream ==> u.Repr == old(u.Repr)
      ensures WellFormed(Limited(old(Models()), Some(1))[0])
      ensures var (left, result) := AllOf(Limited(old(Models()), Some(1)), db);
              && Models() == left
              && (node == null <==> err.Some?)
              && FirstOf(kind, result) == if node == null then Err(err.value) else Ok(node.Value())
    {
      Truncate(1);
      ValidIsWellFormed();
      var nodes;
      nodes, err := All(db);
      node := null;
      if err.None? {
        if |nodes| == 0 {
          err := Some(NotFound(Label(kind)));
        } else {
          node := nodes[0];
        }
      }
    }

    /** `Only`: leaves the limit behind. */
    method Only(db: DB) returns (node: Node?, err: Option<Error>)
      requires ValidChain() && WellFormed(Model)
      modifies Repr, upstream
      ensures ValidChain() && Repr == old(Repr) && forall u :: u in upstream ==> u.Repr == old(u.Repr)
      ensures WellFormed(Limited(old(Models()), Some(2))[0])
      ensures var (left, result) := AllOf(Limited(old(Models()), Some(2)), db);
              && Models() == left
              && (node == null <==> err.Some?)
              && OnlyOf(kind, result) == if node == null then Err(err.value) else Ok(node.Value())
    {
      Truncate(2);
      ValidIsWellFormed();
      var nodes;
      nodes, err := All(db);
      node := null;
      if err.None? {
        match |nodes| {
          case 1 => node := nodes[0];
          case 0 => err := Some(NotFound(Label(kind)));
          case _ => err := Some(NotSingular(Label(kind)));
        }
      }
    }

    /** The changes `IDs` makes to the builder before it runs. */
    method BeginIDs()
      requires ValidChain()
      modifies this`unique, this`fields, this`Model
      ensures ValidChain() && Models() == SelectIds(old(Models()))
    {
      if unique.None? && path != null {
        Unique(true);
      }
      Select([FIELD_ID]);
      ChainStays();
    }

    method PrepareIDs() returns (err: Option<Error>)
      requires ValidChain()
      modifies this`unique, this`fields, this`predicates, this`sql, this`Model, upstream
      ensures ValidChain() && forall u :: u in upstream ==> u.Repr == old(u.Repr)
      ensures Models() == Prepare(SelectIds(old(Models()))).0 && err == Prepare(SelectIds(old(Models()))).1
      ensures err == None ==> (if path == null then sql == None else sql == Some(Source(Models())))
    {
      BeginIDs();
      err := PrepareQuery();
    }

    /** Runs the prepared query's selector for its ID column. */
    method ScanIDs(db: DB) returns (ids: seq<string>)
      requires Valid()
      ensures ids == IdTexts(Denote(Queries.SqlQuery(Model, if sql.Some? then sql.value else Table(kind)), db))
    {
      var selector := SqlQuery();
      ids := IdTexts(Denote(selector, db));
    }

    /** `IDs`: leaves the selected ID field, and on traversals the unique flag, behind. */
    method IDs(db: DB) returns (ids: seq<string>, err: Option<Error>)
      requires ValidChain()
      modifies this`unique, this`fields, this`predicates, this`sql, this`Model, upstream
      ensures ValidChain() && forall u :: u in upstream ==> u.Repr == old(u.Repr)
      ensures IdsOf(old(Models()), db) == (Models(), if err.Some? then Err(err.value) else Ok(ids))
    {
      ids := [];
      err := PrepareIDs();
      if err.None? {
        label prepared:
        ids := ScanIDs(db);
        ChainStays@prepared();
      }
    }

    /** `Exist`: leaves the limit and everything `IDs` leaves behind. */
    method Exist(db: DB) returns (exist: bool, err: Option<Error>)
      requires ValidChain()
      modifies this`limit, this`unique, this`fields, this`predicates, this`sql, this`Model, upstream
      ensures ValidChain() && forall u :: u in upstream ==> u.Repr == old(u.Repr)
      ensures ExistOf(old(Models()), db) == (Models(), if err.Some? then Err(err.value) else Ok(exist))
    {
      Truncate(1);
      var ids;
      ids, err := IDs(db);
      exist := err.None? && |ids| > 0;
      if err.Some? {
        err := Some(CheckExistence(err.value));
      }
    }
  
    // ---------- Independence of clones ----------

    /** `WithX`: installs a separate query for edge `i`, replacing the one installed before. */
    method Install(i: nat, child: QueryBuilder)
      requires Valid() && i < |withs|
      requires child.Valid() && child.path == null && child.upstream == [] && child.kind == EdgesOf(kind)[i].Target()
      requires child.Repr !! Repr
      modifies this`withs, this`Repr, this`Model
      ensures Valid() && Repr == old(Repr) + child.Repr
      ensures Model == old(Model).(withs := old(Model).withs[i := Some(child.Model)])
    {
      withs := withs[i := child];
      Repr := Repr + child.Repr;
      Model := Model.(withs := Model.withs[i := Some(child.Model)]);
      child.Undisturbed();
      Installed(i);
    }

    /** A separate valid query put in the place of nested query `i`, everything else kept, leaves a valid query. */
    twostate lemma Installed(i: nat)
      requires old(Valid()) && forall o :: o in old(Repr) && o != this ==> unchanged(o)
      requires i < |withs| == |old(withs)| && forall j :: 0 <= j < |withs| && j != i ==> withs[j] == old(withs[j])
      requires sql == old(sql) && fields == old(fields) && limit == old(limit) && offset == old(offset)
      requires unique == old(unique) && order == old(order) && inters == old(inters) && predicates == old(predicates)
      requires withs[i] != null && withs[i].Valid() && withs[i].path == null && withs[i].upstream == []
      requires withs[i].kind == EdgesOf(kind)[i].Target() && withs[i].Repr !! old(Repr) && Repr == old(Repr) + withs[i].Repr
      requires Model == old(Model).(withs := old(Model).withs[i := Some(withs[i].Model)])
      ensures Valid()
    {
      forall j | 0 <= j < |withs| && j != i && withs[j] != null
        ensures withs[j] == old(withs[j]) && unchanged(withs[j]) && withs[j].Valid()
        ensures withs[j].path == null && withs[j].upstream == [] && withs[j].kind == EdgesOf(kind)[j].Target()
        ensures withs[j] in Repr && withs[j].Repr <= old(Repr) && this !in withs[j].Repr && Model.withs[j] == Some(withs[j].Model)
      {
        old(withs[j]).Undisturbed();
      }
    }

    /** A fresh query for an edge's target, configured by the options of a `WithX` call. */
    static method Configured(kind: Kind, call: Call, db: DB) returns (child: QueryBuilder)
      requires call.With?
      ensures child.ValidChain() && fresh(child.Repr) && child.kind == kind && child.path == null && child.upstream == []
      ensures child.Models() == NestedOf(kind, call, |call.opts|, db)
      decreases call, 1, 1
    {
      child := new QueryBuilder.OfKind(kind, call.inters);
      child.ApplyOptions(call, db);
    }

    method ApplyOptions(call: Call, db: DB)
      requires ValidChain() && path == null && upstream == [] && call.With? && Models() == NestedOf(kind, call, 0, db)
      modifies Repr
      ensures ValidChain() && fresh(Repr - old(Repr)) && Models() == NestedOf(kind, call, |call.opts|, db)
      decreases call, 1, 0
    {
      for k := 0 to |call.opts|
        invariant ValidChain() && fresh(Repr - old(Repr)) && Models() == NestedOf(kind, call, k, db)
      {
        ApplyOption(call, k, db);
      }
    }

    method ApplyOption(call: Call, k: nat, db: DB)
      requires ValidChain() && upstream == [] && call.With? && k < |call.opts| && Models() == NestedOf(kind, call, k, db)
      modifies Repr
      ensures ValidChain() && fresh(Repr - old(Repr)) && Models() == NestedOf(kind, call, k + 1, db)
      decreases call, 0, 0
    {
      Apply(call.opts[k], db);
    }

    /** `WithX(opts...)`. */
    method WithEdge(call: Call, db: DB)
      requires Valid() && call.With? && call.i < |withs|
      modifies this`withs, this`Repr, this`Model
      ensures Valid() && fresh(Repr - old(Repr))
      ensures var child := NestedOf(EdgesOf(kind)[call.i].Target(), call, |call.opts|, db)[0];
              Model == old(Model).(withs := old(Model).withs[call.i := Some(child)])
      decreases call, 2
    {
      var child := Configured(EdgesOf(kind)[call.i].Target(), call, db);
      Install(call.i, child);
    }

    method ApplyRun(call: Call, db: DB)
      requires ValidChain() && WellFormed(Model) && Run(call)
      modifies Repr, upstream
      ensures ValidChain() && Repr == old(Repr) && forall u :: u in upstream ==> u.Repr == old(u.Repr)
      ensures Models() == RunBy(old(Models()), call, db)
    {
      match call {
        case All => var _, _ := All(db);
        case First => var _, _ := First(db);
        case Only => var _, _ := Only(db);
        case IDs => var _, _ := IDs(db);
        case Exist => var _, _ := Exist(db);
      }
    }

    method ApplySetter(call: Call)
      requires Valid() && Setter(call)
      modifies this`predicates, this`limit, this`offset, this`unique, this`order, this`fields, this`Model
      ensures Valid() && Model == SetBy(old(Model), call)
    {
      match call {
        case Where(ps) => Where(ps);
        case Limit(n) => Limit(n);
        case Offset(n) => Offset(n);
        case Unique(b) => Unique(b);
        case Order(terms) => Order(terms);
        case Select(columns) => Select(columns);
      }
    }

    /** A call that only configures the builder. */
    method Configure(call: Call, db: DB)
      requires Valid() && WellFormed(Model) && !Run(call)
      modifies this
      ensures Valid() && fresh(Repr - old(Repr))
      ensures Model == CallOf([old(Model)], call, db)[0]
      decreases call, 3
    {
      if Setter(call) {
        ApplySetter(call);
      } else if call.i < |withs| {
        WithEdge(call, db);
      }
    }

    /** Any builder call or run. */
    method Apply(call: Call, db: DB)
      requires ValidChain() && WellFormed(Model)
      modifies Repr, upstream
      ensures ValidChain() && fresh(Repr - old(Repr)) && forall u :: u in upstream ==> u.Repr == old(u.Repr)
      ensures Models() == CallOf(old(Models()), call, db)
      decreases call, 4
    {
      ghost var chain := Models();
      if Run(call) {
        ApplyRun(call, db);
        RunIsCall(chain, call, db);
      } else {
        Configure(call, db);
        ChainStays();
        ConfigureIsCall(chain, call, db);
      }
    }

    /** Any sequence of builder calls and runs. */
    method ApplyAll(calls: seq<Call>, db: DB)
      requires ValidChain() && WellFormed(Model)
      modifies Repr, upstream
      ensures ValidChain() && fresh(Repr - old(Repr)) && forall u :: u in upstream ==> u.Repr == old(u.Repr)
      ensures Models() == CallsOf(old(Models()), calls, db)
    {
      for k := 0 to |calls|
        invariant ValidChain() && fresh(Repr - old(Repr)) && forall u :: u in upstream ==> u.Repr == old(u.Repr)
        invariant Models() == CallsOf(old(Models()), calls[..k], db)
      {
        assert Init(calls[..k + 1]) == calls[..k];
        Apply(calls[k], db);
      }
      assert calls[..|calls|] == calls;
    }

    /** The same beside a query that shares only the upstream chain. */
    method ApplyAllBeside(c: QueryBuilder, calls: seq<Call>, db: DB)
      requires ValidChain() && WellFormed(Model) && c.Valid() && c.Repr !! Repr
      requires forall u :: u in upstream ==> u !in c.Repr && u.Repr !! c.Repr
      modifies Repr, upstream
      ensures ValidChain() && Models() == CallsOf(old(Models()), calls, db)
      ensures c.Valid() && c.Model == old(c.Model) && c.Repr == old(c.Repr) && c.Repr !! Repr
      ensures forall u :: u in upstream ==> u !in c.Repr && u.Repr !! c.Repr
    {
      ApplyAll(calls, db);
      c.Undisturbed();
    }
  }

  /** Whatever is done with a clone afterwards, the original and its nested queries stay as they were and return what they
      would have returned, although both prepare the queries they were chained from; and the clone does what the original
      would have done. */
  method UseClone(q: QueryBuilder, calls: seq<Call>, db: DB) returns (c: QueryBuilder)
    requires q.ValidChain() && WellFormed(q.Model)
    modifies q.upstream
    ensures q.ValidChain() && q.Model == old(q.Model)
    ensures forall later :: AllOf(q.Models(), later).1 == AllOf(old(q.Models()), later).1
    ensures c.ValidChain() && fresh(c.Repr)
    ensures c.Models() == CallsOf(old(q.Models()), calls, db)
  {
    ghost var chain := q.Models();
    c := q.CloneChain();
    c.ApplyAll(calls, db);
    q.Undisturbed();
    c.SharesResult(q, chain, calls, db);
  }

  /** Whatever is done with the original afterwards, the clone keeps the state it was made with and returns what the
      original would have returned. */
  method UseOriginal(q: QueryBuilder, calls: seq<Call>, db: DB) returns (c: QueryBuilder)
    requires q.ValidChain() && WellFormed(q.Model)
    modifies q.Repr, q.upstream
    ensures c.ValidChain() && c.Model == old(q.Model) && c.Repr !! q.Repr
    ensures forall later :: AllOf(c.Models(), later).1 == AllOf(old(q.Models()), later).1
    ensures q.ValidChain() && q.Models() == CallsOf(old(q.Models()), calls, db)
  {
    ghost var chain := q.Models();
    c := q.Clone();
    q.ApplyAllBeside(c, calls, db);
    q.SharesResult(c, chain, calls, db);
  }
}
