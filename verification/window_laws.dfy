/** What a limit or an offset on an eager-loaded edge does: one window is shared by all nodes. */
module WindowLaws {
  import opened Common
  import opened Schema
  import opened Sequences
  import opened Selectors
  import opened Queries
  import opened EagerLoading
  import opened NestedLoop

  // ---------- Rows of one key ----------

  function Restricted(rows: seq<Row>, column: string, key: string): seq<Row> {
    Filter(r => Bears(r, column, key), rows)
  }

  lemma RestrictedLast(rows: seq<Row>, column: string, key: string)
    requires rows != []
    ensures Restricted(rows, column, key) ==
            Restricted(Init(rows), column, key) + if Text(Last(rows), column) == key then [Last(rows)] else []
  {
    assert rows == Init(rows) + [Last(rows)];
    FilterSnoc(r => Bears(r, column, key), Init(rows), Last(rows));
  }

  lemma {:induction false} RestrictedAll(rows: seq<Row>, column: string, key: string)
    ensures |Restricted(rows, column, key)| <= |rows|
    ensures |Restricted(rows, column, key)| == |rows| ==> Restricted(rows, column, key) == rows
    ensures |Restricted(rows, column, key)| == |rows| <==> forall i :: 0 <= i < |rows| ==> Text(rows[i], column) == key
  {
    if rows != [] {
      RestrictedLast(rows, column, key);
      RestrictedAll(Init(rows), column, key);
      assert forall i :: 0 <= i < |rows| - 1 ==> rows[i] == Init(rows)[i];
    }
  }

  lemma {:induction false} RestrictedNone(rows: seq<Row>, column: string, key: string)
    ensures Restricted(rows, column, key) == [] <==> forall i :: 0 <= i < |rows| ==> Text(rows[i], column) != key
  {
    if rows != [] {
      RestrictedLast(rows, column, key);
      RestrictedNone(Init(rows), column, key);
      assert forall i :: 0 <= i < |rows| - 1 ==> rows[i] == Init(rows)[i];
    }
  }

  lemma RestrictedSize(rows: seq<Row>, column: string, key: string)
    ensures |Restricted(rows, column, key)| <= |rows|
    ensures |Restricted(rows, column, key)| == |rows| ==> Restricted(rows, column, key) == rows
    ensures |Restricted(rows, column, key)| == |rows| <==> forall i :: 0 <= i < |rows| ==> Text(rows[i], column) == key
    ensures Restricted(rows, column, key) == [] <==> forall i :: 0 <= i < |rows| ==> Text(rows[i], column) != key
  {
    RestrictedAll(rows, column, key);
    RestrictedNone(rows, column, key);
  }

  lemma RestrictedPrefix(rows: seq<Row>, column: string, key: string, n: nat)
    requires n <= |rows|
    ensures Restricted(rows, column, key) == Restricted(rows[..n], column, key) + Restricted(rows[n..], column, key)
  {
    assert rows == rows[..n] + rows[n..];
    FilterConcat(r => Bears(r, column, key), rows[..n], rows[n..]);
  }

  ghost predicate OneKey(rows: seq<Row>, column: string) {
    forall i :: 0 <= i < |rows| ==> Text(rows[i], column) == Text(rows[0], column)
  }

  // ---------- One window for all keys, or one per key ----------

  function Cut<T>(s: seq<T>, offset: nat, limit: Option<nat>): seq<T> {
    Window(s, Some(offset), limit)
  }

  /** The key gets from the shared window what a window of its own would give it. */
  ghost predicate FairTo(rows: seq<Row>, column: string, key: string, offset: nat, limit: Option<nat>) {
    Restricted(Cut(rows, offset, limit), column, key) == Cut(Restricted(rows, column, key), offset, limit)
  }

  ghost predicate Fair(rows: seq<Row>, column: string, offset: nat, limit: Option<nat>) {
    forall key :: FairTo(rows, column, key, offset, limit)
  }

  lemma OneKeyIsFair(rows: seq<Row>, column: string, key: string, offset: nat, limit: Option<nat>)
    requires OneKey(rows, column)
    ensures FairTo(rows, column, key, offset, limit)
  {
    var cut := Cut(rows, offset, limit);
    var start := if offset <= |rows| then offset else |rows|;
    assert forall i :: 0 <= i < |cut| ==> cut[i] == rows[start + i];
    RestrictedSize(rows, column, key);
    RestrictedSize(cut, column, key);
    if rows != [] && Text(rows[0], column) != key {
      assert Restricted(rows, column, key) == [] && Restricted(cut, column, key) == [];
    }
  }

  // ---------- A limit ----------

  lemma LimitIsFair(rows: seq<Row>, column: string, key: string, n: nat)
    requires |rows| <= n
    ensures FairTo(rows, column, key, 0, Some(n))
  {
    RestrictedSize(rows, column, key);
  }

  /** The first row cut off would have been within its own key's limit. */
  lemma CutOffRow(rows: seq<Row>, column: string, n: nat)
    requires n < |rows| && |Restricted(rows[..n], column, Text(rows[n], column))| < n
    ensures !FairTo(rows, column, Text(rows[n], column), 0, Some(n))
  {
    var key := Text(rows[n], column);
    RestrictedPrefix(rows, column, key, n);
    RestrictedNone(rows[n..], column, key);
    assert Text(rows[n..][0], column) == key;
    assert Cut(rows, 0, Some(n)) == rows[..n];
  }

  /** If all the rows that were kept have one key, some other key lost all its rows. */
  lemma LostKey(rows: seq<Row>, column: string, n: nat) returns (other: string)
    requires 0 < n < |rows| && !OneKey(rows, column)
    requires |Restricted(rows[..n], column, Text(rows[n], column))| >= n
    ensures !FairTo(rows, column, other, 0, Some(n))
  {
    var kept := rows[..n];
    assert forall i :: 0 <= i < n ==> kept[i] == rows[i];
    RestrictedAll(kept, column, Text(rows[n], column));
    var i :| 0 <= i < |rows| && Text(rows[i], column) != Text(rows[0], column);
    other := Text(rows[i], column);
    assert Text(kept[0], column) == Text(rows[0], column);
    RestrictedNone(kept, column, other);
    RestrictedNone(rows, column, other);
    assert Cut(rows, 0, Some(n)) == kept;
  }

  lemma LimitFair(rows: seq<Row>, column: string, n: nat)
    requires n > 0
    ensures Fair(rows, column, 0, Some(n)) <==> |rows| <= n || OneKey(rows, column)
  {
    if |rows| <= n || OneKey(rows, column) {
      forall key ensures FairTo(rows, column, key, 0, Some(n)) {
        if OneKey(rows, column) {
          OneKeyIsFair(rows, column, key, 0, Some(n));
        } else {
          LimitIsFair(rows, column, key, n);
        }
      }
    } else if |Restricted(rows[..n], column, Text(rows[n], column))| < n {
      CutOffRow(rows, column, n);
    } else {
      var _ := LostKey(rows, column, n);
    }
  }

  // ---------- An offset ----------

  /** Nothing is left, together or alone. */
  lemma AllSkipped(rows: seq<Row>, column: string, key: string, m: nat, limit: Option<nat>)
    requires |rows| <= m
    ensures FairTo(rows, column, key, m, limit)
  {
    RestrictedSize(rows, column, key);
    assert Cut(rows, m, limit) == [];
    assert Cut(Restricted(rows, column, key), m, limit) == [];
  }

  /** The first row kept, unless only rows of its key were skipped, would have been skipped alone. */
  lemma KeptRow(rows: seq<Row>, column: string, m: nat)
    requires m < |rows| && |Restricted(rows[..m], column, Text(rows[m], column))| < m
    ensures !FairTo(rows, column, Text(rows[m], column), m, None)
  {
    var key := Text(rows[m], column);
    RestrictedPrefix(rows, column, key, m);
    RestrictedNone(rows[m..], column, key);
    assert Text(rows[m..][0], column) == key;
    assert Cut(rows, m, None) == rows[m..];
  }

  /** If all the rows that were skipped have one key, some other key lost none of its rows. */
  lemma UnskippedKey(rows: seq<Row>, column: string, m: nat) returns (other: string)
    requires 0 < m < |rows| && !OneKey(rows, column)
    requires |Restricted(rows[..m], column, Text(rows[m], column))| >= m
    ensures !FairTo(rows, column, other, m, None)
  {
    var skipped := rows[..m];
    assert forall i :: 0 <= i < m ==> skipped[i] == rows[i];
    RestrictedAll(skipped, column, Text(rows[m], column));
    var i :| 0 <= i < |rows| && Text(rows[i], column) != Text(rows[0], column);
    other := Text(rows[i], column);
    assert Text(skipped[0], column) == Text(rows[0], column);
    RestrictedNone(skipped, column, other);
    RestrictedNone(rows, column, other);
    RestrictedPrefix(rows, column, other, m);
    assert Cut(rows, m, None) == rows[m..];
  }

  lemma OffsetFair(rows: seq<Row>, column: string, m: nat)
    requires m > 0
    ensures Fair(rows, column, m, None) <==> |rows| <= m || OneKey(rows, column)
  {
    if |rows| <= m || OneKey(rows, column) {
      forall key ensures FairTo(rows, column, key, m, None) {
        if OneKey(rows, column) {
          OneKeyIsFair(rows, column, key, m, None);
        } else {
          AllSkipped(rows, column, key, m, None);
        }
      }
    } else if |Restricted(rows[..m], column, Text(rows[m], column))| < m {
      KeptRow(rows, column, m);
    } else {
      var _ := UnskippedKey(rows, column, m);
    }
  }

  // ---------- Both ----------

  /** All rows up to the end of the window have one key, and no other key has rows beyond the offset. */
  ghost predicate OneKeyInWindow(rows: seq<Row>, column: string, m: nat, n: nat) {
    && OneKey(Cut(rows, 0, Some(m + n)), column)
    && OthersWithin(rows, column, m)
  }

  /** No key but that of the first row has more than `m` rows. */
  ghost predicate OthersWithin(rows: seq<Row>, column: string, m: nat) {
    forall i :: 0 <= i < |rows| && Text(rows[i], column) != Text(rows[0], column) ==>
      |Restricted(rows, column, Text(rows[i], column))| <= m
  }

  function End<T>(s: seq<T>, n: nat): nat {
    if n <= |s| then n else |s|
  }

  /** The rows up to the end of the window, and what of them one key has. */
  lemma InWindow(rows: seq<Row>, column: string, key: string, m: nat, n: nat)
    requires m < |rows| && n > 0
    ensures m < End(rows, m + n)
    ensures Cut(rows, 0, Some(m + n)) == rows[..End(rows, m + n)] && Cut(rows, m, Some(n)) == rows[m..End(rows, m + n)]
    ensures Restricted(rows, column, key) ==
            Restricted(rows[..m], column, key) + Restricted(rows[m..End(rows, m + n)], column, key)
            + Restricted(rows[End(rows, m + n)..], column, key)
  {
    var head := rows[..End(rows, m + n)];
    RestrictedPrefix(rows, column, key, End(rows, m + n));
    RestrictedPrefix(head, column, key, m);
    assert head[..m] == rows[..m] && head[m..] == rows[m..End(rows, m + n)];
  }

  lemma CutMiddle<T>(before: seq<T>, kept: seq<T>, beyond: seq<T>, n: nat)
    requires |kept| == n || (|kept| < n && beyond == [])
    ensures Cut(before + kept + beyond, |before|, Some(n)) == kept
  {
    var all := before + kept + beyond;
    assert all[|before|..] == kept + beyond;
  }

  lemma OneKeyPart(rows: seq<Row>, column: string, lo: nat, hi: nat, end: nat, key: string)
    requires lo <= hi <= end <= |rows| && OneKey(rows[..end], column) && end > 0
    ensures Restricted(rows[lo..hi], column, key) == if key == Text(rows[0], column) then rows[lo..hi] else []
  {
    var part, head := rows[lo..hi], rows[..end];
    assert head[0] == rows[0];
    forall i | 0 <= i < |part| ensures Text(part[i], column) == Text(rows[0], column) {
      assert part[i] == head[lo + i];
    }
    RestrictedSize(part, column, key);
  }

  lemma FairToFirst(rows: seq<Row>, column: string, m: nat, n: nat)
    requires m < |rows| && n > 0 && OneKey(Cut(rows, 0, Some(m + n)), column)
    ensures FairTo(rows, column, Text(rows[0], column), m, Some(n))
  {
    var key, end := Text(rows[0], column), End(rows, m + n);
    InWindow(rows, column, key, m, n);
    OneKeyPart(rows, column, 0, m, end, key);
    OneKeyPart(rows, column, m, end, end, key);
    var beyond := Restricted(rows[end..], column, key);
    RestrictedAll(rows[end..], column, key);
    assert rows[0..m] == rows[..m];
    CutMiddle(rows[..m], rows[m..end], beyond, n);
  }

  lemma FewOthers(rows: seq<Row>, column: string, key: string, m: nat, n: nat)
    requires rows != [] && OthersWithin(rows, column, m) && key != Text(rows[0], column)
    ensures |Restricted(rows, column, key)| <= m
    ensures Cut(Restricted(rows, column, key), m, Some(n)) == []
  {
    RestrictedNone(rows, column, key);
    if Restricted(rows, column, key) != [] {
      var i :| 0 <= i < |rows| && Text(rows[i], column) == key;
      assert |Restricted(rows, column, Text(rows[i], column))| <= m;
    }
    NothingBeyond(Restricted(rows, column, key), m, n);
  }

  lemma NothingBeyond<T>(s: seq<T>, m: nat, n: nat)
    requires |s| <= m
    ensures Cut(s, m, Some(n)) == []
  {
  }

  lemma FairToOthers(rows: seq<Row>, column: string, key: string, m: nat, n: nat)
    requires m < |rows| && n > 0 && OneKeyInWindow(rows, column, m, n) && key != Text(rows[0], column)
    ensures FairTo(rows, column, key, m, Some(n))
  {
    InWindow(rows, column, key, m, n);
    OneKeyPart(rows, column, m, End(rows, m + n), End(rows, m + n), key);
    FewOthers(rows, column, key, m, n);
  }

  lemma RestrictedDistinct(rows: seq<Row>, column: string, key: string)
    requires NoDuplicates(rows)
    ensures NoDuplicates(Restricted(rows, column, key))
    ensures forall r :: r in Restricted(rows, column, key) ==> r in rows && Text(r, column) == key
  {
    if rows != [] {
      RestrictedLast(rows, column, key);
      RestrictedDistinct(Init(rows), column, key);
      assert forall r :: r in Init(rows) ==> r in rows && r != Last(rows);
    }
  }

  /** If the first row kept is also the first one its key keeps alone, only rows of its key were skipped. */
  lemma SkippedOneKey(rows: seq<Row>, column: string, m: nat, n: nat)
    requires m < |rows| && n > 0 && NoDuplicates(rows) && FairTo(rows, column, Text(rows[m], column), m, Some(n))
    ensures |Restricted(rows[..m], column, Text(rows[m], column))| == m
  {
    var key, end := Text(rows[m], column), End(rows, m + n);
    InWindow(rows, column, key, m, n);
    var mine := Restricted(rows, column, key);
    var before, kept := Restricted(rows[..m], column, key), Restricted(rows[m..end], column, key);
    FirstRestricted(rows[m..end], column);
    assert rows[m..end][0] == rows[m];
    assert mine[|before|] == rows[m] && Cut(mine, m, Some(n))[0] == rows[m];
    RestrictedDistinct(rows, column, key);
    assert mine[m] == rows[m];
  }

  lemma {:induction false} FirstRestricted(rows: seq<Row>, column: string)
    requires rows != []
    ensures var mine := Restricted(rows, column, Text(rows[0], column)); mine != [] && mine[0] == rows[0]
  {
    RestrictedLast(rows, column, Text(rows[0], column));
    if |rows| > 1 {
      FirstRestricted(Init(rows), column);
    }
  }

  /** A key none of whose rows were skipped keeps none, unless it would keep its first row alone. */
  lemma KeepsNone(rows: seq<Row>, column: string, key: string, m: nat, n: nat)
    requires 0 < m < |rows| && n > 0 && NoDuplicates(rows) && FairTo(rows, column, key, m, Some(n))
    requires Restricted(rows[..m], column, key) == []
    ensures Restricted(rows[m..End(rows, m + n)], column, key) == [] && |Restricted(rows, column, key)| <= m
  {
    InWindow(rows, column, key, m, n);
    var mine, kept := Restricted(rows, column, key), Restricted(rows[m..End(rows, m + n)], column, key);
    RestrictedDistinct(rows, column, key);
    HeadIsNotTail(mine, kept, m, n);
  }

  lemma HeadIsNotTail<T>(s: seq<T>, head: seq<T>, m: nat, n: nat)
    requires m > 0 && n > 0 && NoDuplicates(s) && head <= s && head == Cut(s, m, Some(n))
    ensures head == [] && |s| <= m
  {
    if |s| > m {
      CutStarts(s, m, n);
    }
  }

  lemma CutStarts<T>(s: seq<T>, m: nat, n: nat)
    requires |s| > m && n > 0
    ensures Cut(s, m, Some(n)) != [] && Cut(s, m, Some(n))[0] == s[m]
  {
  }

  lemma FairWindow(rows: seq<Row>, column: string, m: nat, n: nat)
    requires 0 < m < |rows| && n > 0 && NoDuplicates(rows) && Fair(rows, column, m, Some(n))
    ensures OneKeyInWindow(rows, column, m, n)
  {
    var key, end := Text(rows[m], column), End(rows, m + n);
    var head := Cut(rows, 0, Some(m + n));
    InWindow(rows, column, key, m, n);
    assert FairTo(rows, column, key, m, Some(n));
    SkippedOneKey(rows, column, m, n);
    RestrictedAll(rows[..m], column, key);
    assert rows[..m][0] == rows[0];
    assert forall i :: 0 <= i < m ==> rows[..m][i] == rows[i];
    assert forall i :: m <= i < end ==> rows[m..end][i - m] == rows[i];
    forall i | 0 <= i < |rows| && Text(rows[i], column) != Text(rows[0], column)
      ensures |Restricted(rows, column, Text(rows[i], column))| <= m && i >= end
    {
      var other := Text(rows[i], column);
      assert FairTo(rows, column, other, m, Some(n));
      RestrictedNone(rows[..m], column, other);
      KeepsNone(rows, column, other, m, n);
      RestrictedNone(rows[m..end], column, other);
    }
    assert forall i :: 0 <= i < |head| ==> head[i] == rows[i];
  }

  lemma WindowFair(rows: seq<Row>, column: string, m: nat, n: nat)
    requires m > 0 && n > 0 && NoDuplicates(rows)
    ensures Fair(rows, column, m, Some(n)) <==> |rows| <= m || OneKeyInWindow(rows, column, m, n)
  {
    if |rows| <= m {
      forall key ensures FairTo(rows, column, key, m, Some(n)) {
        AllSkipped(rows, column, key, m, Some(n));
      }
    } else if OneKeyInWindow(rows, column, m, n) {
      forall key ensures FairTo(rows, column, key, m, Some(n)) {
        if key == Text(rows[0], column) {
          FairToFirst(rows, column, m, n);
        } else {
          FairToOthers(rows, column, key, m, n);
        }
      }
    } else if Fair(rows, column, m, Some(n)) {
      FairWindow(rows, column, m, n);
    }
  }

  /** Fairness can be decided on any list of keys that has all those that occur. */
  lemma KnownKeys(rows: seq<Row>, column: string, keys: seq<string>, m: nat, limit: Option<nat>)
    requires forall i :: 0 <= i < |rows| ==> Text(rows[i], column) in keys
    ensures (forall k :: 0 <= k < |keys| ==> FairTo(rows, column, keys[k], m, limit)) <==> Fair(rows, column, m, limit)
  {
    if forall k :: 0 <= k < |keys| ==> FairTo(rows, column, keys[k], m, limit) {
      forall key ensures FairTo(rows, column, key, m, limit) {
        if key in keys {
          var k :| 0 <= k < |keys| && keys[k] == key;
        } else {
          FairToNobody(rows, column, key, m, limit);
        }
      }
    }
  }

  lemma FairToNobody(rows: seq<Row>, column: string, key: string, m: nat, limit: Option<nat>)
    requires forall i :: 0 <= i < |rows| ==> Text(rows[i], column) != key
    ensures FairTo(rows, column, key, m, limit)
  {
    var cut := Cut(rows, m, limit);
    assert forall i :: 0 <= i < |cut| ==> cut[i] == rows[m + i];
    RestrictedNone(rows, column, key);
    RestrictedNone(cut, column, key);
  }

  // ---------- Nested queries ----------

  /** Node `k` gets from the batch what its own query would give it alone. */
  ghost predicate GetsItsOwn(edge: Edge, child: Query, nodes: seq<Entity>, k: nat, db: DB)
    requires WellFormed(child) && k < |nodes|
  {
    AloneRows(edge, child, nodes[k].row, db)
    == Restricted(BatchRows(edge, child, nodes, db), edge.TargetColumn(), nodes[k].Get(edge.SourceColumn()))
  }

  ghost predicate EachGetsItsOwn(edge: Edge, child: Query, nodes: seq<Entity>, db: DB)
    requires WellFormed(child)
  {
    forall k :: 0 <= k < |nodes| ==> GetsItsOwn(edge, child, nodes, k, db)
  }

  /** The nested query with an offset and a limit. */
  function Windowed(q: Query, m: nat, limit: Option<nat>): Query {
    q.(offset := if m == 0 then None else Some(m), limit := limit)
  }

  /** An offset and a positive limit cut the rows the same query returns without them. */
  lemma WindowCuts(q: Query, from: From, m: nat, limit: Option<nat>, db: DB)
    requires WellFormed(q) && q.offset.None? && q.limit.None? && limit != Some(0)
    ensures WellFormed(Windowed(q, m, limit))
    ensures QueryNodes(Spec(Windowed(q, m, limit), from), db) == Cut(QueryNodes(Spec(q, from), db), m, limit)
  {
    var p := Windowed(q, m, limit);
    assert WellFormed(p);
    SpecColumnsAgree(p, q);
    var s, t := SpecSelector(Spec(p, from)), SpecSelector(Spec(q, from));
    assert Ordered(s, db) == Ordered(t, db);
  }

  lemma BatchWindow(edge: Edge, child: Query, nodes: seq<Entity>, m: nat, limit: Option<nat>, db: DB)
    requires WellFormed(child) && child.offset.None? && child.limit.None? && limit != Some(0)
    ensures WellFormed(Windowed(child, m, limit))
    ensures BatchRows(edge, Windowed(child, m, limit), nodes, db) == Cut(BatchRows(edge, child, nodes, db), m, limit)
  {
    var own := PrepareOwn(Narrow(edge, child, nodes)).0;
    assert WellFormed(own) && WellFormed(Windowed(child, m, limit));
    assert PrepareOwn(Narrow(edge, Windowed(child, m, limit), nodes)).0 == Windowed(own, m, limit);
    WindowCuts(own, Table(child.kind), m, limit, db);
  }

  lemma AloneWindow(edge: Edge, child: Query, row: Row, m: nat, limit: Option<nat>, db: DB)
    requires WellFormed(child) && child.offset.None? && child.limit.None? && limit != Some(0)
    ensures WellFormed(Windowed(child, m, limit))
    ensures AloneRows(edge, Windowed(child, m, limit), row, db) == Cut(AloneRows(edge, child, row, db), m, limit)
  {
    var own := PrepareOwn(PerRow(edge, child, row)).0;
    assert WellFormed(own) && WellFormed(Windowed(child, m, limit));
    assert PrepareOwn(PerRow(edge, Windowed(child, m, limit), row)).0 == Windowed(own, m, limit);
    WindowCuts(own, Table(child.kind), m, limit, db);
  }

  lemma NestedWindow(edge: Edge, child: Query, nodes: seq<Entity>, m: nat, limit: Option<nat>, db: DB)
    requires WellFormed(child) && child.kind == edge.Target() && child.offset.None? && child.limit.None? && limit != Some(0)
    ensures WellFormed(Windowed(child, m, limit))
    ensures EachGetsItsOwn(edge, Windowed(child, m, limit), nodes, db)
            <==> Fair(BatchRows(edge, child, nodes, db), edge.TargetColumn(), m, limit)
  {
    var all, column, keys := BatchRows(edge, child, nodes, db), edge.TargetColumn(), Keys(nodes, edge.SourceColumn());
    assert WellFormed(Windowed(child, m, limit));
    forall k | 0 <= k < |nodes|
      ensures GetsItsOwn(edge, Windowed(child, m, limit), nodes, k, db) <==> FairTo(all, column, keys[k], m, limit)
    {
      BatchWindow(edge, child, nodes, m, limit, db);
      AloneWindow(edge, child, nodes[k].row, m, limit, db);
      BatchRestricted(edge, child, nodes, k, db);
    }
    forall i | 0 <= i < |all| ensures Text(all[i], column) in keys {
      RowsAreKnown(edge, child, nodes, db, all[i]);
    }
    KnownKeys(all, column, keys, m, limit);
  }

  /**
   * A limit on an eager-loaded edge is shared by all nodes: every node gets what its own limited query would give it
   * exactly when the batch fits within the limit or all of it belongs to one key.
   */
  lemma NestedLimitIsShared(edge: Edge, child: Query, nodes: seq<Entity>, n: nat, db: DB)
    requires WellFormed(child) && child.kind == edge.Target() && child.limit.None? && child.offset.None? && n > 0
    ensures WellFormed(Windowed(child, 0, Some(n)))
    ensures var all := BatchRows(edge, child, nodes, db);
            EachGetsItsOwn(edge, Windowed(child, 0, Some(n)), nodes, db) <==> |all| <= n || OneKey(all, edge.TargetColumn())
  {
    NestedWindow(edge, child, nodes, 0, Some(n), db);
    LimitFair(BatchRows(edge, child, nodes, db), edge.TargetColumn(), n);
  }

  /** And so is an offset: exactly when it skips the whole batch, or all of it belongs to one key. */
  lemma NestedOffsetIsShared(edge: Edge, child: Query, nodes: seq<Entity>, m: nat, db: DB)
    requires WellFormed(child) && child.kind == edge.Target() && child.limit.None? && child.offset.None? && m > 0
    ensures WellFormed(Windowed(child, m, None))
    ensures var all := BatchRows(edge, child, nodes, db);
            EachGetsItsOwn(edge, Windowed(child, m, None), nodes, db) <==> |all| <= m || OneKey(all, edge.TargetColumn())
  {
    NestedWindow(edge, child, nodes, m, None, db);
    OffsetFair(BatchRows(edge, child, nodes, db), edge.TargetColumn(), m);
  }

  /** And an offset together with a limit, over keyed tables: exactly when the offset skips the whole batch, or all rows up
      to the end of the window belong to one key and no other key has rows beyond the offset. */
  lemma NestedWindowIsShared(edge: Edge, child: Query, nodes: seq<Entity>, m: nat, n: nat, db: DB)
    requires WellFormed(child) && child.kind == edge.Target() && child.limit.None? && child.offset.None? && m > 0 && n > 0
    requires Keyed(db)
    ensures WellFormed(Windowed(child, m, Some(n)))
    ensures var all := BatchRows(edge, child, nodes, db);
            EachGetsItsOwn(edge, Windowed(child, m, Some(n)), nodes, db)
            <==> |all| <= m || OneKeyInWindow(all, edge.TargetColumn(), m, n)
  {
    NestedWindow(edge, child, nodes, m, Some(n), db);
    var own := PrepareOwn(Narrow(edge, child, nodes)).0;
    assert WellFormed(own);
    TableNodesDistinct(own, db);
    DistinctIdsDistinct(BatchRows(edge, child, nodes, db));
    WindowFair(BatchRows(edge, child, nodes, db), edge.TargetColumn(), m, n);
  }
}
