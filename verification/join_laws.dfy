/** What a batched load means node by node: whose neighbours go where, and that none is lost. */
module JoinLaws {
  import opened Common
  import opened Schema
  import opened Sequences
  import opened Selectors
  import opened Queries
  import opened EagerLoading
  import opened NestedLoop

  // ---------- Every slot of a result ----------

  /** Loading depends on the nodes' rows only, not on what other edges put into them. */
  lemma SameRowsLoadAlike(edge: Edge, child: Query, nodes: seq<Entity>, others: seq<Entity>, slot: Slot,
                          neighbors: seq<Entity>, k: nat)
    requires RowsOf(nodes) == RowsOf(others) && |nodes| == |others| && k < |nodes|
    ensures Narrow(edge, child, nodes) == Narrow(edge, child, others)
    ensures LoadedSlot(edge, slot, nodes, neighbors, k) == LoadedSlot(edge, slot, others, neighbors, k)
  {
    SameKeys(nodes, others, edge.SourceColumn());
    assert forall j :: 0 <= j < |nodes| ==> nodes[j].row == RowsOf(nodes)[j] == others[j].row;
  }

  /** The neighbours the loader of edge `i` sees, when it loads for these nodes. */
  function Neighbors(q: Query, i: nat, nodes: seq<Entity>, db: DB): Result<seq<Entity>>
    requires WellFormed(q) && i < |q.withs| && q.withs[i].Some?
  {
    assert WellFormed(q.withs[i].value);
    All(Narrow(EdgesOf(q.kind)[i], q.withs[i].value, nodes), db).result
  }

  lemma LoadScatters(q: Query, i: nat, nodes: seq<Entity>, db: DB, k: nat) returns (loaded: seq<Entity>)
    requires WellFormed(q) && i < |q.withs| && q.withs[i].Some? && k < |nodes|
    requires forall n :: n in nodes ==> |n.slots| == |q.withs|
    requires Load(EdgesOf(q.kind)[i], i, q.withs[i].value, nodes, db).result.Ok?
    ensures Load(EdgesOf(q.kind)[i], i, q.withs[i].value, nodes, db).result == Ok(loaded)
    ensures Neighbors(q, i, nodes, db).Ok? && RowsOf(loaded) == RowsOf(nodes) && |loaded| == |nodes|
    ensures i < |nodes[k].slots|
    ensures loaded[k] == nodes[k].(slots := nodes[k].slots[
              i := LoadedSlot(EdgesOf(q.kind)[i], nodes[k].slots[i], nodes, Neighbors(q, i, nodes, db).value, k)])
  {
    assert nodes[k] in nodes;
    loaded := Load(EdgesOf(q.kind)[i], i, q.withs[i].value, nodes, db).result.value;
    ScatterKeepsRows(EdgesOf(q.kind)[i], i, nodes, Neighbors(q, i, nodes, db).value);
  }

  /** Slot `j` of node `k` in `r`, after the edges from `i` on were loaded for `nodes`. */
  ghost predicate Filled(q: Query, i: nat, nodes: seq<Entity>, r: seq<Entity>, db: DB, j: nat, k: nat)
    requires WellFormed(q) && j < |q.withs| && k < |nodes| && |nodes[k].slots| == |q.withs|
  {
    && |r| == |nodes| && |r[k].slots| == |q.withs| && r[k].loaded == nodes[k].loaded && RowsOf(r) == RowsOf(nodes)
    && (j < i || q.withs[j].None? ==> r[k].slots[j] == nodes[k].slots[j])
    && (j >= i && q.withs[j].Some? ==>
          && Neighbors(q, j, nodes, db).Ok?
          && r[k].slots[j] == LoadedSlot(EdgesOf(q.kind)[j], nodes[k].slots[j], nodes, Neighbors(q, j, nodes, db).value, k))
  }

  lemma FilledStep(q: Query, i: nat, nodes: seq<Entity>, loaded: seq<Entity>, r: seq<Entity>, db: DB, j: nat, k: nat)
    requires WellFormed(q) && i < |q.withs| && q.withs[i].Some? && j < |q.withs| && k < |nodes| == |loaded|
    requires |nodes[k].slots| == |q.withs| && RowsOf(loaded) == RowsOf(nodes) && Neighbors(q, i, nodes, db).Ok?
    requires loaded[k] == nodes[k].(slots := nodes[k].slots[
               i := LoadedSlot(EdgesOf(q.kind)[i], nodes[k].slots[i], nodes, Neighbors(q, i, nodes, db).value, k)])
    requires Filled(q, i + 1, loaded, r, db, j, k)
    ensures Filled(q, i, nodes, r, db, j, k)
  {
    if j > i && q.withs[j].Some? {
      SameRowsLoadAlike(EdgesOf(q.kind)[j], q.withs[j].value, nodes, loaded, nodes[k].slots[j],
                        Neighbors(q, j, loaded, db).value, k);
    }
  }

  lemma {:induction false} LoadFromSlots(q: Query, i: nat, nodes: seq<Entity>, db: DB, j: nat, k: nat)
    requires WellFormed(q) && i <= |q.withs| && j < |q.withs| && k < |nodes|
    requires forall n :: n in nodes ==> |n.slots| == |q.withs|
    requires LoadFrom(q, i, nodes, db).1.Ok?
    ensures |nodes[k].slots| == |q.withs| && Filled(q, i, nodes, LoadFrom(q, i, nodes, db).1.value, db, j, k)
    decreases |q.withs| - i
  {
    assert nodes[k] in nodes;
    if i < |q.withs| {
      if q.withs[i].None? {
        LoadFromSlots(q, i + 1, nodes, db, j, k);
      } else {
        LoadFromRequested(q, i, nodes, db, j, k);
      }
    }
  }

  lemma {:induction false} LoadFromRequested(q: Query, i: nat, nodes: seq<Entity>, db: DB, j: nat, k: nat)
    requires WellFormed(q) && i < |q.withs| && j < |q.withs| && k < |nodes| && q.withs[i].Some?
    requires forall n :: n in nodes ==> |n.slots| == |q.withs|
    requires LoadFrom(q, i, nodes, db).1.Ok? && |nodes[k].slots| == |q.withs|
    ensures Filled(q, i, nodes, LoadFrom(q, i, nodes, db).1.value, db, j, k)
    decreases |q.withs| - i, 0
  {
    LoadFromStep(q, i, nodes, db, Load(EdgesOf(q.kind)[i], i, q.withs[i].value, nodes, db));
    var loaded := LoadScatters(q, i, nodes, db, k);
    LoadFromSlots(q, i + 1, loaded, db, j, k);
    FilledStep(q, i, nodes, loaded, LoadFrom(q, i, nodes, db).1.value, db, j, k);
  }

  /** After `sqlAll`, every requested slot of every node is the join of the nodes with that edge's own run. */
  lemma EverySlot(q: Query, from: From, db: DB, j: nat, k: nat)
    requires WellFormed(q) && SqlAll(q, from, db).result.Ok? && j < |q.withs|
    requires k < |SqlAll(q, from, db).result.value|
    ensures var nodes := SqlAll(q, from, db).result.value;
            && |nodes[k].slots| == |nodes[k].loaded| == |q.withs| && nodes[k].loaded[j] == q.withs[j].Some?
            && (if q.withs[j].None? then nodes[k].slots[j] == Unset else
                  && Neighbors(q, j, nodes, db).Ok?
                  && nodes[k].slots[j] == LoadedSlot(EdgesOf(q.kind)[j], Unset, nodes, Neighbors(q, j, nodes, db).value, k))
  {
    var bare := Map((r: Row) => NewEntity(q, r), QueryNodes(Spec(q, from), db));
    var nodes := SqlAll(q, from, db).result.value;
    LoadFromKeepsRows(q, 0, bare, db);
    assert |nodes| == |RowsOf(nodes)| == |RowsOf(bare)| == |bare|;
    LoadFromSlots(q, 0, bare, db, j, k);
    if q.withs[j].Some? {
      SameRowsLoadAlike(EdgesOf(q.kind)[j], q.withs[j].value, nodes, bare, Unset, Neighbors(q, j, bare, db).value, k);
    }
  }

  // ---------- Accessors ----------

  /** `TenantOrErr`, `OrganizationOrErr`, `UserOrErr`, `RoleOrErr`: the accessor of to-one edge `i`. */
  function OneOrErr(e: Entity, edge: Edge, i: nat): Result<Entity>
    requires i < |e.slots| == |e.loaded|
  {
    if e.slots[i].One? then Ok(e.slots[i].entity)
    else if e.loaded[i] then Err(NotFound(Label(edge.Target())))
    else Err(NotLoaded(edge.Name()))
  }

  /** `MembersOrErr` and the other to-many accessors. */
  function ManyOrErr(e: Entity, edge: Edge, i: nat): Result<seq<Entity>>
    requires i < |e.slots| == |e.loaded|
  {
    if e.loaded[i] then Ok(if e.slots[i].Many? then e.slots[i].entities else []) else Err(NotLoaded(edge.Name()))
  }

  /** A to-one accessor is lookup by key: the matching neighbour, not found, or not loaded if it was not requested. */
  lemma OneAccessor(q: Query, from: From, db: DB, j: nat, k: nat)
    requires WellFormed(q) && SqlAll(q, from, db).result.Ok? && j < |q.withs|
    requires k < |SqlAll(q, from, db).result.value| && EdgesOf(q.kind)[j].Cardinality() == M2O
    ensures var nodes, edge := SqlAll(q, from, db).result.value, EdgesOf(q.kind)[j];
            && j < |nodes[k].slots| == |nodes[k].loaded|
            && if q.withs[j].None? then OneOrErr(nodes[k], edge, j) == Err(NotLoaded(edge.Name())) else
                 && Neighbors(q, j, nodes, db).Ok?
                 && match OneOrErr(nodes[k], edge, j)
                    case Ok(e) => e in Neighbors(q, j, nodes, db).value && e.Get(FIELD_ID) == nodes[k].Get(edge.SourceColumn())
                    case Err(err) =>
                      && err == NotFound(Label(edge.Target()))
                      && forall e :: e in Neighbors(q, j, nodes, db).value ==> e.Get(FIELD_ID) != nodes[k].Get(edge.SourceColumn())
  {
    EverySlot(q, from, db, j, k);
    if q.withs[j].Some? {
      var nodes, edge := SqlAll(q, from, db).result.value, EdgesOf(q.kind)[j];
      var neighbors, key := Neighbors(q, j, nodes, db).value, nodes[k].Get(edge.SourceColumn());
      var mine := Having(neighbors, FIELD_ID, key);
      forall e: Entity ensures e in mine <==> e in neighbors && e.Get(FIELD_ID) == key {
        FilterIn((n: Entity) => n.Get(FIELD_ID) == key, neighbors, e);
      }
      if mine != [] {
        assert Last(mine) in mine;
      }
    }
  }

  /** A to-many accessor returns, for distinct IDs, exactly the subsequence of neighbours that refer to the node. */
  lemma ManyAccessor(q: Query, from: From, db: DB, j: nat, k: nat)
    requires WellFormed(q) && SqlAll(q, from, db).result.Ok? && j < |q.withs|
    requires DistinctIds(RowsOf(SqlAll(q, from, db).result.value))
    requires k < |SqlAll(q, from, db).result.value| && EdgesOf(q.kind)[j].Cardinality() == O2M
    ensures var nodes, edge := SqlAll(q, from, db).result.value, EdgesOf(q.kind)[j];
            && j < |nodes[k].slots| == |nodes[k].loaded|
            && if q.withs[j].None? then ManyOrErr(nodes[k], edge, j) == Err(NotLoaded(edge.Name())) else
                 && Neighbors(q, j, nodes, db).Ok?
                 && ManyOrErr(nodes[k], edge, j)
                    == Ok(Having(Neighbors(q, j, nodes, db).value, edge.TargetColumn(), nodes[k].Get(FIELD_ID)))
  {
    EverySlot(q, from, db, j, k);
    var nodes := SqlAll(q, from, db).result.value;
    assert IsLastBearer(nodes, FIELD_ID, k) by {
      var rows := RowsOf(nodes);
      forall m | k < m < |nodes| ensures nodes[m].Get(FIELD_ID) != nodes[k].Get(FIELD_ID) {
        assert Text(rows[k], FIELD_ID) != Text(rows[m], FIELD_ID);
      }
    }
  }

  // ---------- Conservation ----------

  function Listed(slot: Slot): seq<Entity> {
    if slot.Many? then slot.entities else []
  }

  /** What the nodes are given: one list per node. */
  ghost function Shares(edge: Edge, nodes: seq<Entity>, neighbors: seq<Entity>): seq<seq<Entity>> {
    seq(|nodes|, k requires 0 <= k < |nodes| => Listed(LoadedSlot(edge, Unset, nodes, neighbors, k)))
  }

  /** The lists in slot `i`. */
  ghost function Lists(nodes: seq<Entity>, i: nat): seq<seq<Entity>>
    requires forall n :: n in nodes ==> i < |n.slots|
  {
    seq(|nodes|, k requires 0 <= k < |nodes| => assert nodes[k] in nodes; Listed(nodes[k].slots[i]))
  }

  ghost function Union(lists: seq<seq<Entity>>): multiset<Entity> {
    if lists == [] then multiset{} else Union(Init(lists)) + multiset(Last(lists))
  }

  lemma {:induction false} UnionGrows(lists: seq<seq<Entity>>, p: nat, x: Entity)
    requires p < |lists|
    ensures Union(lists[p := lists[p] + [x]]) == Union(lists) + multiset{x}
  {
    var after := lists[p := lists[p] + [x]];
    if p == |lists| - 1 {
      assert Init(after) == Init(lists) && Last(after) == Last(lists) + [x];
    } else {
      UnionGrows(Init(lists), p, x);
      assert Init(after) == Init(lists)[p := lists[p] + [x]] && Last(after) == Last(lists);
    }
  }

  lemma {:induction false} UnionOfNothing(lists: seq<seq<Entity>>)
    requires forall k :: 0 <= k < |lists| ==> lists[k] == []
    ensures Union(lists) == multiset{}
  {
    if lists != [] {
      UnionOfNothing(Init(lists));
    }
  }

  lemma LastBearerExists(nodes: seq<Entity>, column: string, key: string) returns (p: nat)
    requires key in Keys(nodes, column)
    ensures p < |nodes| && nodes[p].Get(column) == key && forall j :: p < j < |nodes| ==> nodes[j].Get(column) != key
  {
    var keys := Keys(nodes, column);
    var m :| 0 <= m < |keys| && keys[m] == key;
    p := |nodes| - 1;
    while nodes[p].Get(column) != key
      invariant m <= p < |nodes| && forall j :: p < j < |nodes| ==> nodes[j].Get(column) != key
      decreases p
    {
      p := p - 1;
    }
  }

  /** Node `p` is the last to bear the key of neighbour `x`. */
  ghost predicate Receives(edge: Edge, nodes: seq<Entity>, x: Entity, p: nat) {
    && p < |nodes| && nodes[p].Get(edge.SourceColumn()) == x.Get(edge.TargetColumn())
    && forall j :: p < j < |nodes| ==> nodes[j].Get(edge.SourceColumn()) != x.Get(edge.TargetColumn())
  }

  lemma ShareNext(edge: Edge, nodes: seq<Entity>, neighbors: seq<Entity>, x: Entity, k: nat, p: nat)
    requires edge.Cardinality() == O2M && k < |nodes| && Receives(edge, nodes, x, p)
    ensures var before, after := LoadedSlot(edge, Unset, nodes, neighbors, k), LoadedSlot(edge, Unset, nodes, neighbors + [x], k);
            Listed(after) == if k == p then Listed(before) + [x] else Listed(before)
  {
    var column, key := edge.SourceColumn(), nodes[k].Get(edge.SourceColumn());
    FilterSnoc((n: Entity) => n.Get(edge.TargetColumn()) == key, neighbors, x);
    if k == p {
      assert IsLastBearer(nodes, column, k);
    } else if key == x.Get(edge.TargetColumn()) {
      assert k < p && nodes[p].Get(column) == key;
      assert !IsLastBearer(nodes, column, k);
    }
  }

  lemma {:induction false} AllGiven(edge: Edge, nodes: seq<Entity>, neighbors: seq<Entity>)
    requires edge.Cardinality() == O2M
    requires forall x :: x in neighbors ==> x.Get(edge.TargetColumn()) in Keys(nodes, edge.SourceColumn())
    ensures Union(Shares(edge, nodes, neighbors)) == multiset(neighbors)
  {
    if neighbors == [] {
      UnionOfNothing(Shares(edge, nodes, neighbors));
    } else {
      var rest, x := Init(neighbors), Last(neighbors);
      assert neighbors == rest + [x];
      AllGiven(edge, nodes, rest);
      var p := LastBearerExists(nodes, edge.SourceColumn(), x.Get(edge.TargetColumn()));
      var before, after := Shares(edge, nodes, rest), Shares(edge, nodes, neighbors);
      forall k | 0 <= k < |nodes| ensures after[k] == before[p := before[p] + [x]][k] {
        ShareNext(edge, nodes, rest, x, k, p);
      }
      assert after == before[p := before[p] + [x]];
      UnionGrows(before, p, x);
    }
  }

  lemma {:induction false} StrayFree(neighbors: seq<Entity>, column: string, keys: seq<string>)
    requires FirstStray(neighbors, column, keys) == None
    ensures forall x :: x in neighbors ==> x.Get(column) in keys
  {
    if neighbors != [] {
      StrayFree(neighbors[1..], column, keys);
      assert forall x :: x in neighbors ==> x == neighbors[0] || x in neighbors[1..];
    }
  }

  /** Even when IDs repeat, a successful to-many load hands out every neighbour exactly once. */
  lemma Conservation(edge: Edge, i: nat, nodes: seq<Entity>, neighbors: seq<Entity>)
    requires edge.Cardinality() == O2M && forall n :: n in nodes ==> i < |n.slots|
    requires Scatter(edge, i, nodes, neighbors).Ok?
    ensures forall n :: n in Scatter(edge, i, nodes, neighbors).value ==> i < |n.slots|
    ensures Union(Lists(Scatter(edge, i, nodes, neighbors).value, i)) == multiset(neighbors)
  {
    var after := Scatter(edge, i, nodes, neighbors).value;
    forall n | n in after ensures i < |n.slots| {
      var k :| 0 <= k < |after| && after[k] == n;
      assert nodes[k] in nodes;
    }
    StrayFree(neighbors, edge.TargetColumn(), Keys(nodes, edge.SourceColumn()));
    AllGiven(edge, nodes, neighbors);
    forall k | 0 <= k < |nodes| ensures Lists(after, i)[k] == Shares(edge, nodes, neighbors)[k] {
      assert nodes[k] in nodes && after[k] in after;
    }
    assert Lists(after, i) == Shares(edge, nodes, neighbors);
  }
}
