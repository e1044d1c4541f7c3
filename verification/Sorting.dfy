/** A stable sort by a strict comparator, standing for `Array.prototype.sort`. */
module Sorting {
  /** The comparator is a strict weak order. */
  ghost predicate StrictWeak<T(!new)>(lt: (T, T) -> bool) {
    && (forall a, b :: lt(a, b) ==> !lt(b, a))
    && (forall a, b, c :: !lt(a, b) && !lt(b, c) ==> !lt(a, c))
  }

  ghost predicate Sorted<T>(s: seq<T>, lt: (T, T) -> bool) {
    forall i, j :: 0 <= i < j < |s| ==> !lt(s[j], s[i])
  }

  /** Neighbours are strictly increasing, so the list has no repetition. */
  ghost predicate Increasing<T>(s: seq<T>, lt: (T, T) -> bool) {
    forall i, j :: 0 <= i < j < |s| ==> lt(s[i], s[j])
  }

  ghost predicate Distinct<T>(s: seq<T>) {
    forall i, j :: 0 <= i < j < |s| ==> s[i] != s[j]
  }

  function Insert<T>(x: T, s: seq<T>, lt: (T, T) -> bool): (r: seq<T>)
    ensures multiset(r) == multiset(s) + multiset{x}
  {
    if s == [] || !lt(s[0], x) then [x] + s
    else
      assert s == [s[0]] + s[1..];
      [s[0]] + Insert(x, s[1..], lt)
  }

  function Sort<T>(s: seq<T>, lt: (T, T) -> bool): (r: seq<T>)
    ensures multiset(r) == multiset(s)
    ensures |r| == |s|
  {
    if s == [] then []
    else
      assert s == [s[0]] + s[1..];
      var r := Insert(s[0], Sort(s[1..], lt), lt);
      assert |multiset(r)| == |multiset(s)|;
      r
  }

  lemma SamePresence<T>(a: seq<T>, b: seq<T>)
    requires multiset(a) == multiset(b)
    ensures forall x :: x in a <==> x in b
    ensures |a| == |b|
  {
    forall x ensures x in a <==> x in b {
      assert x in a <==> x in multiset(a);
      assert x in b <==> x in multiset(b);
    }
    assert |multiset(a)| == |multiset(b)|;
  }

  lemma {:induction false} InsertSorted<T(!new)>(x: T, s: seq<T>, lt: (T, T) -> bool)
    requires StrictWeak(lt) && Sorted(s, lt)
    ensures Sorted(Insert(x, s, lt), lt)
  {
    var r := Insert(x, s, lt);
    if s == [] || !lt(s[0], x) {
      forall j | 0 < j < |r| ensures !lt(r[j], x) {
        if j > 1 { assert !lt(s[j - 1], s[0]); }
      }
    } else {
      var rest := Insert(x, s[1..], lt);
      InsertSorted(x, s[1..], lt);
      forall j | 0 <= j < |rest| ensures !lt(rest[j], s[0]) {
        assert rest[j] in multiset(rest);
        if rest[j] != x {
          assert rest[j] in multiset(s[1..]);
          var k :| 0 <= k < |s[1..]| && s[1..][k] == rest[j];
          assert !lt(s[k + 1], s[0]);
        }
      }
    }
  }

  lemma {:induction false} SortSorted<T(!new)>(s: seq<T>, lt: (T, T) -> bool)
    requires StrictWeak(lt)
    ensures Sorted(Sort(s, lt), lt)
  {
    if s != [] {
      SortSorted(s[1..], lt);
      InsertSorted(s[0], Sort(s[1..], lt), lt);
    }
  }

  lemma DistinctByCount<T>(s: seq<T>, t: seq<T>)
    requires multiset(s) == multiset(t) && Distinct(s)
    ensures Distinct(t)
  {
    forall i, j | 0 <= i < j < |t| ensures t[i] != t[j] {
      if t[i] == t[j] {
        assert t == t[..i] + [t[i]] + t[i + 1..j] + [t[j]] + t[j + 1..];
        assert multiset(t)[t[i]] >= 2;
        DistinctCount(s, t[i]);
      }
    }
  }

  lemma {:induction false} DistinctCount<T>(s: seq<T>, x: T)
    requires Distinct(s)
    ensures multiset(s)[x] <= 1
  {
    if s != [] {
      assert s == [s[0]] + s[1..];
      DistinctCount(s[1..], x);
      if s[0] == x { assert x !in s[1..]; }
    }
  }

  /** Distinct keys under a comparator that separates them are sorted strictly. */
  lemma SortIncreasing<T(!new)>(s: seq<T>, lt: (T, T) -> bool)
    requires StrictWeak(lt) && Distinct(s)
    requires forall x, y :: x in s && y in s && x != y ==> lt(x, y) || lt(y, x)
    ensures Increasing(Sort(s, lt), lt)
  {
    var r := Sort(s, lt);
    SortSorted(s, lt);
    DistinctByCount(s, r);
    SamePresence(s, r);
    forall i, j | 0 <= i < j < |r| ensures lt(r[i], r[j]) {
      assert r[i] in r && r[j] in r;
    }
  }

  lemma HasMember<T>(s: seq<T>)
    requires s != []
    ensures exists x :: x in s
  {
    assert s[0] in s;
  }

  /** A strictly increasing list is determined by the set of its members. */
  lemma {:induction false} IncreasingUnique<T(!new)>(s: seq<T>, t: seq<T>, lt: (T, T) -> bool)
    requires StrictWeak(lt) && Increasing(s, lt) && Increasing(t, lt)
    requires forall x :: x in s <==> x in t
    ensures s == t
  {
    if s != [] {
      assert s[0] in t;
      assert t[0] in s;
      assert s[0] == t[0];
      forall x ensures x in s[1..] <==> x in t[1..] {
        if x in s[1..] { assert x in t && x != s[0]; }
        if x in t[1..] { assert x in s && x != t[0]; }
      }
      IncreasingUnique(s[1..], t[1..], lt);
      assert s == [s[0]] + s[1..] && t == [t[0]] + t[1..];
    } else if t != [] {
      HasMember(t);
    }
  }

  lemma SmallestFirst<T>(s: seq<T>, x: T, lt: (T, T) -> bool)
    requires Sorted(s, lt) && x in s
    ensures x == s[0] || !lt(x, s[0])
  {
    var i :| 0 <= i < |s| && s[i] == x;
  }

  lemma DropFirst<T>(s: seq<T>)
    requires s != []
    ensures multiset(s[1..]) == multiset(s) - multiset{s[0]}
  {
    assert s == [s[0]] + s[1..];
  }

  /** A sorted list with repetitions is determined by its multiset when the order separates members. */
  lemma {:induction false} SortedUnique<T(!new)>(s: seq<T>, t: seq<T>, lt: (T, T) -> bool)
    requires Sorted(s, lt) && Sorted(t, lt) && multiset(s) == multiset(t)
    requires forall x, y :: x != y ==> lt(x, y) || lt(y, x)
    ensures s == t
  {
    SamePresence(s, t);
    if s != [] {
      assert t[0] in t && s[0] in s;
      SmallestFirst(s, t[0], lt);
      SmallestFirst(t, s[0], lt);
      DropFirst(s);
      DropFirst(t);
      SortedUnique(s[1..], t[1..], lt);
      assert s == [s[0]] + s[1..] && t == [t[0]] + t[1..];
    }
  }

  /** Sorting forgets the order of its input when the comparator separates the members. */
  lemma SortForgetsOrder<T(!new)>(s: seq<T>, t: seq<T>, lt: (T, T) -> bool)
    requires StrictWeak(lt) && Distinct(s) && Distinct(t)
    requires forall x :: x in s <==> x in t
    requires forall x, y :: x in s && y in s && x != y ==> lt(x, y) || lt(y, x)
    ensures Sort(s, lt) == Sort(t, lt)
  {
    SortIncreasing(s, lt);
    SortIncreasing(t, lt);
    SamePresence(s, Sort(s, lt));
    SamePresence(t, Sort(t, lt));
    IncreasingUnique(Sort(s, lt), Sort(t, lt), lt);
  }

  // ---- sorting positions instead of members ---------------------------------------------------

  function Mapped<T>(f: int -> T, s: seq<int>): (r: seq<T>)
    ensures |r| == |s|
  {
    seq(|s|, i requires 0 <= i < |s| => f(s[i]))
  }

  lemma MappedSplits<T>(f: int -> T, x: int, s: seq<int>)
    ensures Mapped(f, [x] + s) == [f(x)] + Mapped(f, s)
    ensures s != [] ==> Mapped(f, s)[1..] == Mapped(f, s[1..])
  {
  }

  lemma {:induction false} InsertMaps<T>(f: int -> T, x: int, s: seq<int>, lt: (T, T) -> bool,
                                         before: (int, int) -> bool)
    requires forall k :: 0 <= k < |s| ==> (lt(f(s[k]), f(x)) <==> before(s[k], x))
    ensures Insert(f(x), Mapped(f, s), lt) == Mapped(f, Insert(x, s, before))
  {
    if s == [] || !before(s[0], x) {
      MappedSplits(f, x, s);
    } else {
      MappedSplits(f, x, s);
      InsertMaps(f, x, s[1..], lt, before);
      MappedSplits(f, s[0], Insert(x, s[1..], before));
    }
  }

  /** Sorting positions by what they stand for, the earlier first on a tie, is the stable sort. */
  lemma {:induction false} SortMaps<T>(f: int -> T, s: seq<int>, lt: (T, T) -> bool, before: (int, int) -> bool)
    requires forall i, j :: 0 <= i < j < |s| ==> (lt(f(s[j]), f(s[i])) <==> before(s[j], s[i]))
    ensures Sort(Mapped(f, s), lt) == Mapped(f, Sort(s, before))
  {
    if s != [] {
      MappedSplits(f, s[0], s);
      SortMaps(f, s[1..], lt, before);
      SortHolds(f, s[0], s[1..], lt, before);
      InsertMaps(f, s[0], Sort(s[1..], before), lt, before);
    }
  }

  lemma SortHolds<T>(f: int -> T, x: int, s: seq<int>, lt: (T, T) -> bool, before: (int, int) -> bool)
    requires forall k :: 0 <= k < |s| ==> (lt(f(s[k]), f(x)) <==> before(s[k], x))
    ensures forall k :: 0 <= k < |Sort(s, before)| ==>
      (lt(f(Sort(s, before)[k]), f(x)) <==> before(Sort(s, before)[k], x))
  {
    var r := Sort(s, before);
    SamePresence(s, r);
    forall k | 0 <= k < |r| ensures lt(f(r[k]), f(x)) <==> before(r[k], x) {
      assert r[k] in r;
      var j :| 0 <= j < |s| && s[j] == r[k];
    }
  }

  function ItemAt<T>(items: seq<T>): int -> T
    requires items != []
  {
    (i: int) => if 0 <= i < |items| then items[i] else items[0]
  }

  /** By what the positions stand for, the earlier position first on a tie. */
  function PositionBefore<T>(items: seq<T>, lt: (T, T) -> bool): (int, int) -> bool
    requires items != []
  {
    (i: int, j: int) =>
      lt(ItemAt(items)(i), ItemAt(items)(j)) || (!lt(ItemAt(items)(j), ItemAt(items)(i)) && i < j)
  }

  /** One of two positions comes before the other, and never both. */
  lemma PositionsAlternate<T(!new)>(items: seq<T>, lt: (T, T) -> bool, i: int, j: int)
    requires items != [] && StrictWeak(lt)
    ensures PositionBefore(items, lt)(i, j) ==> !PositionBefore(items, lt)(j, i)
    ensures i != j ==> PositionBefore(items, lt)(i, j) || PositionBefore(items, lt)(j, i)
  {
    var a, b := ItemAt(items)(i), ItemAt(items)(j);
    assert lt(a, b) ==> !lt(b, a);
  }

  lemma PositionsChain<T(!new)>(items: seq<T>, lt: (T, T) -> bool, i: int, j: int, k: int)
    requires items != [] && StrictWeak(lt)
    requires !PositionBefore(items, lt)(i, j) && !PositionBefore(items, lt)(j, k)
    ensures !PositionBefore(items, lt)(i, k)
  {
    var a, b, c := ItemAt(items)(i), ItemAt(items)(j), ItemAt(items)(k);
    assert !lt(a, c);
    assert !lt(c, a) ==> !lt(c, b) && !lt(b, a);
  }

  lemma PositionsSort<T(!new)>(items: seq<T>, lt: (T, T) -> bool)
    requires items != [] && StrictWeak(lt)
    ensures StrictWeak(PositionBefore(items, lt))
    ensures forall i, j :: i != j ==> PositionBefore(items, lt)(i, j) || PositionBefore(items, lt)(j, i)
  {
    var before := PositionBefore(items, lt);
    forall i, j | before(i, j) ensures !before(j, i) { PositionsAlternate(items, lt, i, j); }
    forall i, j | i != j ensures before(i, j) || before(j, i) { PositionsAlternate(items, lt, i, j); }
    forall i, j, k | !before(i, j) && !before(j, k) ensures !before(i, k) { PositionsChain(items, lt, i, j, k); }
  }

  function Positions(n: nat): (s: seq<int>)
    ensures |s| == n && forall i :: 0 <= i < n ==> s[i] == i
    ensures forall i :: i in s <==> 0 <= i < n
  {
    if n == 0 then [] else Positions(n - 1) + [n - 1]
  }

  lemma PositionsMap<T>(items: seq<T>)
    requires items != []
    ensures Mapped(ItemAt(items), Positions(|items|)) == items
  {
  }

  /** Position `i` comes before `j`: its item is smaller, or the two tie and `i` is the earlier position. */
  predicate Earlier<T>(items: seq<T>, lt: (T, T) -> bool, i: int, j: int)
    requires 0 <= i < |items| && 0 <= j < |items|
  {
    lt(items[i], items[j]) || (!lt(items[j], items[i]) && i < j)
  }

  /** `order` lists every position of `items` once, ascending. */
  ghost predicate Orders<T>(items: seq<T>, lt: (T, T) -> bool, order: seq<int>) {
    && |order| == |items|
    && (forall k :: 0 <= k < |order| ==> 0 <= order[k] < |items|)
    && (forall i :: 0 <= i < |items| ==> i in order)
    && (forall k, l :: 0 <= k < l < |order| ==> Earlier(items, lt, order[k], order[l]))
  }

  lemma SortPositions<T(!new)>(items: seq<T>, lt: (T, T) -> bool) returns (order: seq<int>)
    requires items != [] && StrictWeak(lt)
    ensures |order| == |items| && Sort(items, lt) == Mapped(ItemAt(items), order)
    ensures forall i :: i in order <==> 0 <= i < |items|
    ensures Increasing(order, PositionBefore(items, lt))
  {
    var all, before := Positions(|items|), PositionBefore(items, lt);
    order := Sort(all, before);
    PositionsMap(items);
    PositionsCommute(items, lt);
    PositionsIncrease(items, lt);
    SamePresence(all, order);
  }

  lemma PositionsAgree<T>(items: seq<T>, lt: (T, T) -> bool, i: int, j: int)
    requires items != [] && i < j
    ensures lt(ItemAt(items)(j), ItemAt(items)(i)) <==> PositionBefore(items, lt)(j, i)
  {
  }

  lemma PositionsCommute<T>(items: seq<T>, lt: (T, T) -> bool)
    requires items != []
    ensures Sort(Mapped(ItemAt(items), Positions(|items|)), lt)
         == Mapped(ItemAt(items), Sort(Positions(|items|), PositionBefore(items, lt)))
  {
    var f, all, before := ItemAt(items), Positions(|items|), PositionBefore(items, lt);
    forall i, j | 0 <= i < j < |all| ensures lt(f(all[j]), f(all[i])) <==> before(all[j], all[i]) {
      PositionsAgree(items, lt, all[i], all[j]);
    }
    SortMaps(f, all, lt, before);
  }

  lemma PositionsIncrease<T(!new)>(items: seq<T>, lt: (T, T) -> bool)
    requires items != [] && StrictWeak(lt)
    ensures Increasing(Sort(Positions(|items|), PositionBefore(items, lt)), PositionBefore(items, lt))
  {
    PositionsSort(items, lt);
    SortIncreasing(Positions(|items|), PositionBefore(items, lt));
  }

  /** Sorting lists every member once, in ascending order, equals in the order they came. */
  lemma SortOrders<T(!new)>(items: seq<T>, lt: (T, T) -> bool) returns (order: seq<int>)
    requires StrictWeak(lt)
    ensures Orders(items, lt, order)
    ensures |Sort(items, lt)| == |items|
    ensures forall k :: 0 <= k < |items| ==> Sort(items, lt)[k] == items[order[k]]
  {
    if items == [] {
      order := [];
    } else {
      order := SortPositions(items, lt);
      forall k | 0 <= k < |order| ensures 0 <= order[k] < |items| { assert order[k] in order; }
      forall k, l | 0 <= k < l < |order| ensures Earlier(items, lt, order[k], order[l]) {
        assert PositionBefore(items, lt)(order[k], order[l]);
      }
    }
  }

  /** The order of numbers. */
  predicate Below(a: int, b: int) {
    a < b
  }

  /** The members of a set in one arbitrary order, as a `Set` iterates. */
  method Listing<T>(s: set<T>) returns (q: seq<T>)
    ensures Distinct(q) && forall x :: x in q <==> x in s
  {
    q := [];
    var rest := s;
    while rest != {}
      invariant rest <= s && Distinct(q)
      invariant forall x :: x in q <==> x in s && x !in rest
      decreases rest
    {
      var x :| x in rest;
      q := q + [x];
      rest := rest - {x};
    }
  }

  ghost function Enumerated<T(!new)>(s: set<T>): (q: seq<T>)
    ensures Distinct(q) && forall x :: x in q <==> x in s
  {
    if s == {} then [] else var x :| x in s; [x] + Enumerated(s - {x})
  }

  /** The members of a set in ascending order: `[...set].sort()`. */
  ghost function Ascending<T(!new)>(s: set<T>, lt: (T, T) -> bool): (q: seq<T>)
    ensures forall x :: x in q <==> x in s
  {
    SamePresence(Enumerated(s), Sort(Enumerated(s), lt));
    Sort(Enumerated(s), lt)
  }

  /** Whatever order the set was listed in, sorting it gives the same list. */
  lemma SortedListing<T(!new)>(q: seq<T>, s: set<T>, lt: (T, T) -> bool)
    requires StrictWeak(lt) && Distinct(q)
    requires forall x :: x in q <==> x in s
    requires forall x, y :: x in s && y in s && x != y ==> lt(x, y) || lt(y, x)
    ensures Sort(q, lt) == Ascending(s, lt) && Increasing(Ascending(s, lt), lt)
  {
    SortForgetsOrder(q, Enumerated(s), lt);
    SortIncreasing(q, lt);
  }
}
