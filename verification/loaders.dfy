/** The nodes a run allocates, and the loops that scatter neighbours over them in place. */
module Loaders {
  import opened Common
  import opened Schema
  import opened Sequences
  import opened Selectors
  import opened Queries

  /** A node on the heap. `sqlAll` allocates one per row; the loaders assign to its slots. */
  class Node {
    const kind: Kind
    const row: Row
    const loaded: seq<bool>
    var slots: seq<Slot>

    constructor (kind: Kind, row: Row, loaded: seq<bool>)
      ensures Value() == Entity(kind, row, loaded, seq(|loaded|, i => Unset))
    {
      this.kind, this.row, this.loaded := kind, row, loaded;
      slots := seq(|loaded|, i => Unset);
    }

    function Value(): Entity
      reads this
    {
      Entity(kind, row, loaded, slots)
    }
  }

  function Values(nodes: seq<Node>): seq<Entity>
    reads nodes
  {
    seq(|nodes|, k requires 0 <= k < |nodes| reads nodes => nodes[k].Value())
  }

  /** The `Assign` closure, once per returned row. */
  method Allocate(kind: Kind, rows: seq<Row>, loaded: seq<bool>) returns (nodes: seq<Node>)
    ensures |nodes| == |rows| && fresh(nodes) && Distinct(nodes)
    ensures forall k :: 0 <= k < |rows| ==> nodes[k].Value() == Entity(kind, rows[k], loaded, seq(|loaded|, i => Unset))
  {
    nodes := [];
    for k := 0 to |rows|
      invariant |nodes| == k && fresh(nodes) && Distinct(nodes)
      invariant forall j :: 0 <= j < k ==> nodes[j].Value() == Entity(kind, rows[j], loaded, seq(|loaded|, i => Unset))
    {
      var node := new Node(kind, rows[k], loaded);
      nodes := nodes + [node];
    }
  }

  ghost predicate Distinct(nodes: seq<Node>) {
    forall i, j :: 0 <= i < j < |nodes| ==> nodes[i] != nodes[j]
  }

  ghost predicate HaveSlot(nodes: seq<Node>, i: nat)
    reads nodes
  {
    forall k :: 0 <= k < |nodes| ==> i < |nodes[k].slots|
  }

  function KeyOf(n: Node, column: string): string {
    Text(n.row, column)
  }

  /** The last node that bears `key`. */
  ghost function Bearer(nodes: seq<Node>, column: string, key: string): Node? {
    if nodes == [] then null
    else if KeyOf(Last(nodes), column) == key then Last(nodes)
    else Bearer(Init(nodes), column, key)
  }

  lemma BearerSnoc(nodes: seq<Node>, column: string, n: Node)
    ensures forall key :: Bearer(nodes + [n], column, key) == if KeyOf(n, column) == key then n else Bearer(nodes, column, key)
  {
    assert Init(nodes + [n]) == nodes;
  }

  lemma {:induction false} BearerBears(nodes: seq<Node>, column: string, key: string)
    ensures Bearer(nodes, column, key) == null <==> forall k :: 0 <= k < |nodes| ==> KeyOf(nodes[k], column) != key
    ensures Bearer(nodes, column, key) != null ==>
              Bearer(nodes, column, key) in nodes && KeyOf(Bearer(nodes, column, key), column) == key
  {
    if nodes != [] {
      BearerBears(Init(nodes), column, key);
      assert nodes == Init(nodes) + [Last(nodes)];
    }
  }

  lemma {:induction false} BearerIsLast(nodes: seq<Node>, column: string, k: nat)
    requires Distinct(nodes) && k < |nodes|
    ensures Bearer(nodes, column, KeyOf(nodes[k], column)) == nodes[k]
            <==> forall j :: k < j < |nodes| ==> KeyOf(nodes[j], column) != KeyOf(nodes[k], column)
  {
    if k < |nodes| - 1 {
      BearerIsLast(Init(nodes), column, k);
      if KeyOf(Last(nodes), column) != KeyOf(nodes[k], column) {
        assert forall j :: k < j < |nodes| - 1 ==> Init(nodes)[j] == nodes[j];
      }
    }
  }

  // ---------- Loading a to-many edge ----------

  ghost predicate IndexesLast(index: map<string, Node>, nodes: seq<Node>, column: string) {
    forall key :: (if key in index then index[key] else null) == Bearer(nodes, column, key)
  }

  /** First loop of a to-many loader: collects the keys, indexes the nodes, and gives each node an empty list. */
  method IndexToMany(column: string, i: nat, nodes: seq<Node>) returns (keys: seq<string>, index: map<string, Node>)
    requires Distinct(nodes) && HaveSlot(nodes, i)
    modifies nodes
    ensures keys == Keys(old(Values(nodes)), column)
    ensures IndexesLast(index, nodes, column)
    ensures forall k :: 0 <= k < |nodes| ==> nodes[k].slots == old(nodes[k].slots)[i := Many([])]
  {
    keys, index := [], map[];
    for k := 0 to |nodes|
      invariant |keys| == k && forall j :: 0 <= j < k ==> keys[j] == KeyOf(nodes[j], column)
      invariant IndexesLast(index, nodes[..k], column)
      invariant forall j :: 0 <= j < k ==> nodes[j].slots == old(nodes[j].slots)[i := Many([])]
      invariant forall j :: k <= j < |nodes| ==> nodes[j].slots == old(nodes[j].slots)
    {
      keys := keys + [KeyOf(nodes[k], column)];
      BearerSnoc(nodes[..k], column, nodes[k]);
      assert nodes[..k + 1] == nodes[..k] + [nodes[k]];
      index := index[KeyOf(nodes[k], column) := nodes[k]];
      nodes[k].slots := nodes[k].slots[i := Many([])];
    }
    assert nodes[..|nodes|] == nodes;
  }

  /** The list a to-many loader builds for node `k`. */
  ghost function Share(nodes: seq<Node>, column: string, k: nat, neighbors: seq<Entity>, target: string): Slot
    requires k < |nodes|
  {
    var key := KeyOf(nodes[k], column);
    Many(if Bearer(nodes, column, key) == nodes[k] then Having(neighbors, target, key) else [])
  }

  lemma ShareNext(nodes: seq<Node>, column: string, neighbors: seq<Entity>, j: nat, target: string)
    requires Distinct(nodes) && j < |neighbors|
    ensures forall k :: 0 <= k < |nodes| ==>
              Share(nodes, column, k, neighbors[..j + 1], target)
              == if nodes[k] == Bearer(nodes, column, neighbors[j].Get(target))
                 then Many(Share(nodes, column, k, neighbors[..j], target).entities + [neighbors[j]])
                 else Share(nodes, column, k, neighbors[..j], target)
  {
    HavingNext(neighbors, j, target);
    BearerBears(nodes, column, neighbors[j].Get(target));
  }

  /** The nodes after the neighbours so far were appended, given their slots before the loop. */
  ghost predicate SharedUpTo(nodes: seq<Node>, column: string, i: nat, before: seq<seq<Slot>>, neighbors: seq<Entity>, target: string)
    reads nodes
  {
    && |before| == |nodes|
    && forall k :: 0 <= k < |nodes| ==>
         i < |before[k]| && nodes[k].slots == before[k][i := Share(nodes, column, k, neighbors, target)]
  }

  /** Second loop of a to-many loader: appends every neighbour to the list of the node its key leads to. */
  method ScatterToMany(column: string, target: string, i: nat, nodes: seq<Node>, index: map<string, Node>,
                       neighbors: seq<Entity>, ghost before: seq<seq<Slot>>)
    returns (err: Option<Error>)
    requires Distinct(nodes) && IndexesLast(index, nodes, column)
    requires SharedUpTo(nodes, column, i, before, [], target)
    modifies nodes
    ensures err == FirstStray(neighbors, target, Keys(old(Values(nodes)), column))
    ensures err == None ==> SharedUpTo(nodes, column, i, before, neighbors, target)
  {
    ghost var keys := Keys(Values(nodes), column);
    assert forall k :: 0 <= k < |nodes| ==> keys[k] == KeyOf(nodes[k], column);
    var j := 0;
    while j < |neighbors|
      invariant 0 <= j <= |neighbors|
      invariant FirstStray(neighbors, target, keys) == FirstStray(neighbors[j..], target, keys)
      invariant SharedUpTo(nodes, column, i, before, neighbors[..j], target)
    {
      var key := neighbors[j].Get(target);
      BearerBears(nodes, column, key);
      if key !in index {
        return Some(UnexpectedForeignKey(target, key));
      }
      AppendNeighbor(column, target, i, nodes, index[key], neighbors, j, before);
      j := j + 1;
    }
    assert neighbors[..|neighbors|] == neighbors;
    err := None;
  }

  method AppendNeighbor(column: string, target: string, i: nat, nodes: seq<Node>, node: Node,
                        neighbors: seq<Entity>, j: nat, ghost before: seq<seq<Slot>>)
    requires Distinct(nodes) && j < |neighbors| && node == Bearer(nodes, column, neighbors[j].Get(target)) && node in nodes
    requires SharedUpTo(nodes, column, i, before, neighbors[..j], target)
    modifies node
    ensures SharedUpTo(nodes, column, i, before, neighbors[..j + 1], target)
  {
    ShareNext(nodes, column, neighbors, j, target);
    node.slots := node.slots[i := Many(node.slots[i].entities + [neighbors[j]])];
  }

  lemma HavingNext(neighbors: seq<Entity>, j: nat, column: string)
    requires j < |neighbors|
    ensures forall key :: Having(neighbors[..j + 1], column, key)
              == if neighbors[j].Get(column) == key then Having(neighbors[..j], column, key) + [neighbors[j]]
                 else Having(neighbors[..j], column, key)
  {
    assert neighbors[..j + 1] == neighbors[..j] + [neighbors[j]];
    forall key ensures Having(neighbors[..j + 1], column, key)
              == if neighbors[j].Get(column) == key then Having(neighbors[..j], column, key) + [neighbors[j]]
                 else Having(neighbors[..j], column, key)
    {
      FilterSnoc((n: Entity) => n.Get(column) == key, neighbors[..j], neighbors[j]);
    }
  }

  // ---------- Loading a to-one edge ----------

  function Group(nodes: seq<Node>, column: string, key: string): seq<Node> {
    Filter((n: Node) => KeyOf(n, column) == key, nodes)
  }

  ghost predicate IndexesGroups(index: map<string, seq<Node>>, nodes: seq<Node>, column: string) {
    forall key :: (if key in index then index[key] else []) == Group(nodes, column, key)
                  && (key in index ==> index[key] != [])
  }

  lemma GroupSnoc(nodes: seq<Node>, column: string, n: Node)
    ensures forall key :: Group(nodes + [n], column, key)
              == if KeyOf(n, column) == key then Group(nodes, column, key) + [n] else Group(nodes, column, key)
  {
    forall key ensures Group(nodes + [n], column, key)
              == if KeyOf(n, column) == key then Group(nodes, column, key) + [n] else Group(nodes, column, key)
    {
      FilterSnoc((n: Node) => KeyOf(n, column) == key, nodes, n);
    }
  }

  lemma {:induction false} GroupMembers(nodes: seq<Node>, column: string, key: string)
    ensures forall k :: 0 <= k < |nodes| ==> (nodes[k] in Group(nodes, column, key) <==> KeyOf(nodes[k], column) == key)
    ensures forall t :: 0 <= t < |Group(nodes, column, key)| ==> Group(nodes, column, key)[t] in nodes
    ensures Group(nodes, column, key) == [] <==> forall k :: 0 <= k < |nodes| ==> KeyOf(nodes[k], column) != key
  {
    var p := (n: Node) => KeyOf(n, column) == key;
    var g := Group(nodes, column, key);
    forall k | 0 <= k < |nodes| ensures nodes[k] in g <==> KeyOf(nodes[k], column) == key {
      FilterIn(p, nodes, nodes[k]);
    }
    forall t | 0 <= t < |g| ensures g[t] in nodes && KeyOf(g[t], column) == key {
      FilterIn(p, nodes, g[t]);
    }
    if g != [] {
      assert g[0] in nodes;
      var k :| 0 <= k < |nodes| && nodes[k] == g[0];
      assert KeyOf(nodes[k], column) == key;
    }
  }

  lemma GroupsExtend(index: map<string, seq<Node>>, nodes: seq<Node>, column: string, n: Node)
    requires IndexesGroups(index, nodes, column)
    ensures var fk := KeyOf(n, column);
            IndexesGroups(index[fk := (if fk in index then index[fk] else []) + [n]], nodes + [n], column)
  {
    GroupSnoc(nodes, column, n);
  }

  function KeysOf(nodes: seq<Node>, column: string): seq<string> {
    Map((n: Node) => KeyOf(n, column), nodes)
  }

  lemma KnownKey(index: map<string, seq<Node>>, nodes: seq<Node>, column: string, key: string)
    requires IndexesGroups(index, nodes, column)
    ensures key in index <==> key in KeysOf(nodes, column)
  {
    GroupMembers(nodes, column, key);
    var keys := KeysOf(nodes, column);
    assert forall k :: 0 <= k < |nodes| ==> keys[k] == KeyOf(nodes[k], column);
  }

  /** The keys of some nodes, each once, and the nodes grouped by key. */
  ghost predicate Indexes(ids: seq<string>, index: map<string, seq<Node>>, nodes: seq<Node>, column: string) {
    ids == Dedup(KeysOf(nodes, column)) && IndexesGroups(index, nodes, column)
  }

  lemma IndexesNext(ids: seq<string>, index: map<string, seq<Node>>, nodes: seq<Node>, column: string, n: Node)
    requires Indexes(ids, index, nodes, column)
    ensures var fk := KeyOf(n, column);
            Indexes(if fk in index then ids else ids + [fk],
                    index[fk := (if fk in index then index[fk] else []) + [n]], nodes + [n], column)
  {
    var fk := KeyOf(n, column);
    GroupsExtend(index, nodes, column, n);
    KnownKey(index, nodes, column, fk);
    assert KeysOf(nodes + [n], column) == KeysOf(nodes, column) + [fk];
    DedupSnoc(KeysOf(nodes, column), fk);
  }

  lemma IndexesNothing(column: string)
    ensures Indexes([], map[], [], column)
  {
  }

  lemma KeysOfValues(nodes: seq<Node>, column: string)
    ensures KeysOf(nodes, column) == Keys(Values(nodes), column)
  {
  }

  /** One round of `IndexToOne`, after `nodes`. */
  method IndexNode(ids: seq<string>, index: map<string, seq<Node>>, column: string, n: Node, ghost nodes: seq<Node>)
    returns (ids': seq<string>, index': map<string, seq<Node>>)
    requires Indexes(ids, index, nodes, column)
    ensures Indexes(ids', index', nodes + [n], column)
  {
    IndexesNext(ids, index, nodes, column, n);
    ids', index' := ids, index;
    var fk := KeyOf(n, column);
    if fk !in index {
      ids' := ids + [fk];
    }
    index' := index[fk := (if fk in index then index[fk] else []) + [n]];
  }

  /** First loop of a to-one loader: collects each foreign key once, and groups the nodes by it. */
  method IndexToOne(column: string, nodes: seq<Node>) returns (ids: seq<string>, index: map<string, seq<Node>>)
    ensures ids == Dedup(Keys(Values(nodes), column))
    ensures IndexesGroups(index, nodes, column)
  {
    ids, index := [], map[];
    IndexesNothing(column);
    for k := 0 to |nodes|
      invariant Indexes(ids, index, nodes[..k], column)
    {
      assert nodes[..k + 1] == nodes[..k] + [nodes[k]];
      ids, index := IndexNode(ids, index, column, nodes[k], nodes[..k]);
    }
    assert nodes[..|nodes|] == nodes;
    KeysOfValues(nodes, column);
  }

  /** What a to-one loader leaves in a slot of node `n`: the last neighbour its key selects, if any. */
  function Assigned(n: Node, column: string, slot: Slot, neighbors: seq<Entity>, target: string): Slot {
    var mine := Having(neighbors, target, KeyOf(n, column));
    if mine == [] then slot else One(Last(mine))
  }

  lemma AssignedNext(nodes: seq<Node>, column: string, neighbors: seq<Entity>, j: nat, target: string)
    requires j < |neighbors|
    ensures forall k, slot :: 0 <= k < |nodes| ==>
              Assigned(nodes[k], column, slot, neighbors[..j + 1], target)
              == if nodes[k] in Group(nodes, column, neighbors[j].Get(target)) then One(neighbors[j])
                 else Assigned(nodes[k], column, slot, neighbors[..j], target)
  {
    HavingNext(neighbors, j, target);
    GroupMembers(nodes, column, neighbors[j].Get(target));
    forall k, slot | 0 <= k < |nodes|
      ensures Assigned(nodes[k], column, slot, neighbors[..j + 1], target)
              == if nodes[k] in Group(nodes, column, neighbors[j].Get(target)) then One(neighbors[j])
                 else Assigned(nodes[k], column, slot, neighbors[..j], target)
    {
      var before, after := Having(neighbors[..j], target, KeyOf(nodes[k], column)),
                           Having(neighbors[..j + 1], target, KeyOf(nodes[k], column));
      assert after == before || after == before + [neighbors[j]];
    }
  }

  /** The nodes after the first `j` neighbours were assigned, given their slots before the loop. */
  ghost predicate AssignedUpTo(nodes: seq<Node>, column: string, i: nat, before: seq<seq<Slot>>, neighbors: seq<Entity>, target: string)
    reads nodes
  {
    && |before| == |nodes|
    && forall k :: 0 <= k < |nodes| ==>
         && i < |before[k]|
         && nodes[k].slots == before[k][i := Assigned(nodes[k], column, before[k][i], neighbors, target)]
  }

  /** Second loop of a to-one loader: assigns every neighbour to all nodes whose foreign key is its ID. */
  method ScatterToOne(column: string, target: string, i: nat, nodes: seq<Node>, index: map<string, seq<Node>>,
                      neighbors: seq<Entity>, ghost before: seq<seq<Slot>>)
    returns (err: Option<Error>)
    requires IndexesGroups(index, nodes, column)
    requires AssignedUpTo(nodes, column, i, before, [], target)
    modifies nodes
    ensures err == FirstStray(neighbors, target, Keys(old(Values(nodes)), column))
    ensures err == None ==> AssignedUpTo(nodes, column, i, before, neighbors, target)
  {
    ghost var keys := Keys(Values(nodes), column);
    assert KeysOf(nodes, column) == keys;
    var j := 0;
    while j < |neighbors|
      invariant 0 <= j <= |neighbors|
      invariant FirstStray(neighbors, target, keys) == FirstStray(neighbors[j..], target, keys)
      invariant AssignedUpTo(nodes, column, i, before, neighbors[..j], target)
    {
      var key := neighbors[j].Get(target);
      KnownKey(index, nodes, column, key);
      if key !in index {
        return Some(UnexpectedForeignKey(target, key));
      }
      AssignNeighbor(column, target, i, nodes, index[key], neighbors, j, before);
      j := j + 1;
    }
    assert neighbors[..|neighbors|] == neighbors;
    err := None;
  }

  method AssignNeighbor(column: string, target: string, i: nat, nodes: seq<Node>, group: seq<Node>,
                        neighbors: seq<Entity>, j: nat, ghost before: seq<seq<Slot>>)
    requires j < |neighbors| && group == Group(nodes, column, neighbors[j].Get(target))
    requires AssignedUpTo(nodes, column, i, before, neighbors[..j], target)
    modifies nodes
    ensures AssignedUpTo(nodes, column, i, before, neighbors[..j + 1], target)
  {
    AssignedNext(nodes, column, neighbors, j, target);
    GroupMembers(nodes, column, neighbors[j].Get(target));
    AssignGroup(i, nodes, group, neighbors[j]);
  }

  /** The inner loop: `for i := range nodes { assign(nodes[i], n) }`. */
  method AssignGroup(i: nat, nodes: seq<Node>, group: seq<Node>, n: Entity)
    requires HaveSlot(nodes, i) && forall t :: 0 <= t < |group| ==> group[t] in nodes
    modifies nodes
    ensures forall k :: 0 <= k < |nodes| ==>
              nodes[k].slots == if nodes[k] in group then old(nodes[k].slots)[i := One(n)] else old(nodes[k].slots)
  {
    for t := 0 to |group|
      invariant forall k :: 0 <= k < |nodes| ==>
                  nodes[k].slots == if nodes[k] in group[..t] then old(nodes[k].slots)[i := One(n)] else old(nodes[k].slots)
    {
      assert group[t] in nodes;
      group[t].slots := group[t].slots[i := One(n)];
      assert group[..t + 1] == group[..t] + [group[t]];
    }
    assert group[..|group|] == group;
  }

  // ---------- The loaders' loops compute the value-level scatter ----------

  lemma ToManyIsScatter(edge: Edge, i: nat, nodes: seq<Node>, before: seq<Entity>, neighbors: seq<Entity>)
    requires edge.Cardinality() == O2M && Distinct(nodes) && |before| == |nodes|
    requires forall k :: 0 <= k < |nodes| ==>
               && i < |before[k].slots|
               && nodes[k].Value() == before[k].(slots := before[k].slots[i :=
                    Share(nodes, edge.SourceColumn(), k, neighbors, edge.TargetColumn())])
    requires FirstStray(neighbors, edge.TargetColumn(), Keys(before, edge.SourceColumn())) == None
    ensures Scatter(edge, i, before, neighbors) == Ok(Values(nodes))
  {
    forall k | 0 <= k < |nodes|
      ensures Share(nodes, edge.SourceColumn(), k, neighbors, edge.TargetColumn())
              == LoadedSlot(edge, before[k].slots[i], before, neighbors, k)
    {
      BearerIsLast(nodes, edge.SourceColumn(), k);
      assert forall j :: 0 <= j < |nodes| ==> before[j].Get(edge.SourceColumn()) == KeyOf(nodes[j], edge.SourceColumn());
    }
    ScatterOk(edge, i, before, neighbors, Values(nodes));
  }

  lemma ToOneIsScatter(edge: Edge, i: nat, nodes: seq<Node>, before: seq<Entity>, neighbors: seq<Entity>)
    requires edge.Cardinality() == M2O && |before| == |nodes|
    requires forall k :: 0 <= k < |nodes| ==>
               && i < |before[k].slots|
               && nodes[k].Value() == before[k].(slots := before[k].slots[i :=
                    Assigned(nodes[k], edge.SourceColumn(), before[k].slots[i], neighbors, edge.TargetColumn())])
    requires FirstStray(neighbors, edge.TargetColumn(), Keys(before, edge.SourceColumn())) == None
    ensures Scatter(edge, i, before, neighbors) == Ok(Values(nodes))
  {
    ScatterOk(edge, i, before, neighbors, Values(nodes));
  }

  method FinishToMany(edge: Edge, i: nat, nodes: seq<Node>, index: map<string, Node>, neighbors: seq<Entity>,
                      ghost before: seq<Entity>)
    returns (err: Option<Error>)
    requires edge.Cardinality() == O2M && Distinct(nodes) && IndexesLast(index, nodes, edge.SourceColumn())
    requires |before| == |nodes| && forall k :: 0 <= k < |nodes| ==>
               i < |before[k].slots| && nodes[k].Value() == before[k].(slots := before[k].slots[i := Many([])])
    modifies nodes
    ensures forall b :: b in before ==> i < |b.slots|
    ensures Scatter(edge, i, before, neighbors) == if err.Some? then Err(err.value) else Ok(Values(nodes))
  {
    assert Keys(Values(nodes), edge.SourceColumn()) == Keys(before, edge.SourceColumn());
    ghost var slots := Map((e: Entity) => e.slots, before);
    err := ScatterToMany(edge.SourceColumn(), edge.TargetColumn(), i, nodes, index, neighbors, slots);
    if err.None? {
      ToManyIsScatter(edge, i, nodes, before, neighbors);
    }
  }

  method FinishToOne(edge: Edge, i: nat, nodes: seq<Node>, index: map<string, seq<Node>>, neighbors: seq<Entity>,
                     ghost before: seq<Entity>)
    returns (err: Option<Error>)
    requires edge.Cardinality() == M2O && IndexesGroups(index, nodes, edge.SourceColumn())
    requires before == Values(nodes) && HaveSlot(nodes, i)
    modifies nodes
    ensures forall b :: b in before ==> i < |b.slots|
    ensures Scatter(edge, i, before, neighbors) == if err.Some? then Err(err.value) else Ok(Values(nodes))
  {
    ghost var slots := Map((e: Entity) => e.slots, before);
    assert AssignedUpTo(nodes, edge.SourceColumn(), i, slots, [], edge.TargetColumn()) by {
      assert forall k :: 0 <= k < |nodes| ==> slots[k][i := slots[k][i]] == slots[k];
    }
    err := ScatterToOne(edge.SourceColumn(), edge.TargetColumn(), i, nodes, index, neighbors, slots);
    if err.None? {
      ToOneIsScatter(edge, i, nodes, before, neighbors);
    }
  }
}
