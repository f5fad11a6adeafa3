/** Finite-sequence vocabulary used to give queries a meaning. Every recursion peels the LAST element. */
module Sequences {

  function Last<T>(s: seq<T>): T
    requires s != []
  {
    s[|s| - 1]
  }

  function Init<T>(s: seq<T>): seq<T>
    requires s != []
  {
    s[..|s| - 1]
  }

  function Map<S, T>(f: S -> T, s: seq<S>): (r: seq<T>)
    ensures |r| == |s| && forall i :: 0 <= i < |s| ==> r[i] == f(s[i])
  {
    seq(|s|, i requires 0 <= i < |s| => f(s[i]))
  }

  function Filter<T>(p: T -> bool, s: seq<T>): seq<T> {
    if s == [] then [] else
      var f := Filter(p, Init(s));
      if p(Last(s)) then f + [Last(s)] else f
  }

  /** Duplicate elimination that keeps the first occurrence of every element. */
  function Dedup<T(==)>(s: seq<T>): seq<T> {
    if s == [] then [] else
      var d := Dedup(Init(s));
      if Last(s) in d then d else d + [Last(s)]
  }

  /** Stable insertion: `x` goes after every element that may precede it. */
  function Insert<T>(leq: (T, T) -> bool, s: seq<T>, x: T): seq<T> {
    if s == [] || leq(Last(s), x) then s + [x] else Insert(leq, Init(s), x) + [Last(s)]
  }

  /** Stable sort. */
  function Sort<T>(leq: (T, T) -> bool, s: seq<T>): seq<T> {
    if s == [] then [] else Insert(leq, Sort(leq, Init(s)), Last(s))
  }

  ghost predicate NoDuplicates<T>(s: seq<T>) {
    forall i, j :: 0 <= i < j < |s| ==> s[i] != s[j]
  }

  ghost predicate Sorted<T>(leq: (T, T) -> bool, s: seq<T>) {
    forall i, j :: 0 <= i < j < |s| ==> leq(s[i], s[j])
  }

  ghost predicate TotalPreorder<T(!new)>(leq: (T, T) -> bool) {
    && (forall x, y :: leq(x, y) || leq(y, x))
    && (forall x, y, z :: leq(x, y) && leq(y, z) ==> leq(x, z))
  }

  lemma InitTail<T>(s: seq<T>)
    requires |s| > 1
    ensures Init(s)[1..] == Init(s[1..]) && Last(s[1..]) == Last(s) && Init(s)[0] == s[0]
  {
  }

  // ---------- Filter ----------

  lemma FilterIn<T>(p: T -> bool, s: seq<T>, x: T)
    ensures x in Filter(p, s) <==> x in s && p(x)
  {
    if s != [] {
      FilterIn(p, Init(s), x);
      assert s == Init(s) + [Last(s)];
    }
  }

  lemma FilterSnoc<T>(p: T -> bool, s: seq<T>, x: T)
    ensures Filter(p, s + [x]) == if p(x) then Filter(p, s) + [x] else Filter(p, s)
  {
    assert Init(s + [x]) == s;
  }

  lemma FilterAgree<T>(p: T -> bool, q: T -> bool, s: seq<T>)
    requires forall x :: x in s ==> p(x) == q(x)
    ensures Filter(p, s) == Filter(q, s)
  {
    if s != [] {
      FilterAgree(p, q, Init(s));
    }
  }

  lemma FilterConcat<T>(p: T -> bool, s: seq<T>, t: seq<T>)
    ensures Filter(p, s + t) == Filter(p, s) + Filter(p, t)
  {
    if t == [] {
      assert s + t == s;
    } else {
      FilterConcat(p, s, Init(t));
      assert Init(s + t) == s + Init(t);
    }
  }

  function Both<T>(p: T -> bool, q: T -> bool): T -> bool {
    x => p(x) && q(x)
  }

  lemma FilterFilter<T>(p: T -> bool, q: T -> bool, s: seq<T>)
    ensures Filter(p, Filter(q, s)) == Filter(Both(q, p), s)
  {
    if s != [] {
      FilterFilter(p, q, Init(s));
      FilterSnoc(p, Filter(q, Init(s)), Last(s));
    }
  }

  /** Filtering commutes with an element-wise map that preserves the property. */
  lemma FilterMap<S, T>(f: S -> T, p: T -> bool, q: S -> bool, s: seq<S>)
    requires forall x :: x in s ==> p(f(x)) == q(x)
    ensures Filter(p, Map(f, s)) == Map(f, Filter(q, s))
  {
    if s != [] {
      FilterMap(f, p, q, Init(s));
      assert Init(Map(f, s)) == Map(f, Init(s));
      assert q(Last(s)) ==> Map(f, Filter(q, s)) == Map(f, Filter(q, Init(s))) + [f(Last(s))];
    }
  }

  // ---------- Dedup ----------

  lemma DedupIn<T>(s: seq<T>, x: T)
    ensures x in Dedup(s) <==> x in s
  {
    if s != [] {
      DedupIn(Init(s), x);
      assert s == Init(s) + [Last(s)];
    }
  }

  lemma DedupNoDuplicates<T>(s: seq<T>)
    ensures NoDuplicates(Dedup(s))
  {
    if s != [] {
      DedupNoDuplicates(Init(s));
    }
  }

  lemma DedupOfDistinct<T>(s: seq<T>)
    requires NoDuplicates(s)
    ensures Dedup(s) == s
  {
    if s != [] {
      DedupOfDistinct(Init(s));
      assert s == Init(s) + [Last(s)];
    }
  }

  lemma DedupSnoc<T>(s: seq<T>, x: T)
    ensures Dedup(s + [x]) == if x in s then Dedup(s) else Dedup(s) + [x]
  {
    assert Init(s + [x]) == s;
    DedupIn(s, x);
  }

  lemma FilterDedup<T>(p: T -> bool, s: seq<T>)
    ensures Filter(p, Dedup(s)) == Dedup(Filter(p, s))
  {
    if s != [] {
      var t, x := Init(s), Last(s);
      assert s == t + [x];
      FilterDedup(p, t);
      DedupSnoc(t, x);
      FilterSnoc(p, t, x);
      FilterSnoc(p, Dedup(t), x);
      DedupSnoc(Filter(p, t), x);
      FilterIn(p, t, x);
    }
  }

  // ---------- Sort ----------

  lemma InsertMultiset<T>(leq: (T, T) -> bool, s: seq<T>, x: T)
    ensures multiset(Insert(leq, s, x)) == multiset(s) + multiset{x}
  {
    if s != [] && !leq(Last(s), x) {
      InsertMultiset(leq, Init(s), x);
      assert s == Init(s) + [Last(s)];
    }
  }

  lemma SortMultiset<T>(leq: (T, T) -> bool, s: seq<T>)
    ensures multiset(Sort(leq, s)) == multiset(s)
  {
    if s != [] {
      assert s == Init(s) + [Last(s)];
      assert multiset(s) == multiset(Init(s)) + multiset{Last(s)};
      SortMultiset(leq, Init(s));
      InsertMultiset(leq, Sort(leq, Init(s)), Last(s));
    }
  }

  lemma SortIn<T>(leq: (T, T) -> bool, s: seq<T>, x: T)
    ensures x in Sort(leq, s) <==> x in s
  {
    SortMultiset(leq, s);
    assert x in s <==> x in multiset(s);
    assert x in Sort(leq, s) <==> x in multiset(Sort(leq, s));
  }

  lemma InsertIn<T>(leq: (T, T) -> bool, s: seq<T>, x: T, y: T)
    ensures y in Insert(leq, s, x) <==> y in s || y == x
  {
    InsertMultiset(leq, s, x);
    assert y in s <==> y in multiset(s);
    assert y in Insert(leq, s, x) <==> y in multiset(Insert(leq, s, x));
  }

  lemma InsertSorted<T(!new)>(leq: (T, T) -> bool, s: seq<T>, x: T)
    requires TotalPreorder(leq) && Sorted(leq, s)
    ensures Sorted(leq, Insert(leq, s, x))
  {
    if s != [] && !leq(Last(s), x) {
      InsertSorted(leq, Init(s), x);
      var r := Insert(leq, Init(s), x);
      forall i | 0 <= i < |r| ensures leq(r[i], Last(s)) {
        InsertIn(leq, Init(s), x, r[i]);
      }
    }
  }

  lemma SortSorted<T(!new)>(leq: (T, T) -> bool, s: seq<T>)
    requires TotalPreorder(leq)
    ensures Sorted(leq, Sort(leq, s))
  {
    if s != [] {
      SortSorted(leq, Init(s));
      InsertSorted(leq, Sort(leq, Init(s)), Last(s));
    }
  }

  lemma InsertSnoc<T>(leq: (T, T) -> bool, s: seq<T>, y: T, x: T)
    ensures Insert(leq, s + [y], x) == if leq(y, x) then s + [y, x] else Insert(leq, s, x) + [y]
  {
    assert Init(s + [y]) == s;
    assert s + [y, x] == s + [y] + [x];
  }

  lemma FilterInsert<T(!new)>(leq: (T, T) -> bool, p: T -> bool, s: seq<T>, x: T)
    requires TotalPreorder(leq) && Sorted(leq, s)
    ensures Filter(p, Insert(leq, s, x)) == if p(x) then Insert(leq, Filter(p, s), x) else Filter(p, s)
  {
    FilterSnoc(p, s, x);
    if s == [] {
    } else if leq(Last(s), x) {
      var f := Filter(p, s);
      if f != [] {
        var y, z := Last(f), Last(s);
        FilterIn(p, s, y);
        assert y == z || leq(y, z);
      }
    } else {
      var t, y := Init(s), Last(s);
      assert s == t + [y];
      FilterInsert(leq, p, t, x);
      FilterSnoc(p, Insert(leq, t, x), y);
      FilterSnoc(p, t, y);
      InsertSnoc(leq, Filter(p, t), y, x);
    }
  }

  lemma SortSnoc<T>(leq: (T, T) -> bool, s: seq<T>, x: T)
    ensures Sort(leq, s + [x]) == Insert(leq, Sort(leq, s), x)
  {
    assert Init(s + [x]) == s;
  }

  /** A stable sort can be filtered before or after. */
  lemma FilterSort<T(!new)>(leq: (T, T) -> bool, p: T -> bool, s: seq<T>)
    requires TotalPreorder(leq)
    ensures Filter(p, Sort(leq, s)) == Sort(leq, Filter(p, s))
  {
    if s != [] {
      var t, x := Init(s), Last(s);
      assert s == t + [x];
      FilterSort(leq, p, t);
      SortSorted(leq, t);
      FilterInsert(leq, p, Sort(leq, t), x);
      FilterSnoc(p, t, x);
      SortSnoc(leq, Filter(p, t), x);
    }
  }
}
