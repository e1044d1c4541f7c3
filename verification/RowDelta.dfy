/** Comparing two keyed payloads: what was added, removed and changed, and the patch that is. */
module RowDelta {
  import opened Outcomes
  import Sorting

  datatype Row<K, V> = Row(key: K, value: V)
  datatype Change<K, V> = Change(key: K, before: V, after: V)
  datatype Delta<K, V> = Delta(restricted: bool, compared: nat, added: seq<Row<K, V>>, removed: seq<Row<K, V>>,
                               changed: seq<Change<K, V>>)
  datatype DeltaError = DuplicateKey

  // ---- payloads as maps -------------------------------------------------------------------

  predicate DistinctKeys<K(==), V>(rows: seq<Row<K, V>>) {
    forall i, j :: 0 <= i < j < |rows| ==> rows[i].key != rows[j].key
  }

  /** `new Map(rows.map(...))`: a later row wins. */
  function MapOf<K, V>(rows: seq<Row<K, V>>): map<K, V> {
    if rows == [] then map[] else MapOf(rows[..|rows| - 1])[rows[|rows| - 1].key := rows[|rows| - 1].value]
  }

  lemma {:induction false} KeysOfMap<K, V>(rows: seq<Row<K, V>>)
    ensures forall k :: k in MapOf(rows) <==> exists i :: 0 <= i < |rows| && rows[i].key == k
    ensures |MapOf(rows)| <= |rows|
    ensures |MapOf(rows)| == |rows| <==> DistinctKeys(rows)
  {
    if rows != [] {
      var n := |rows| - 1;
      var front, last := rows[..n], rows[n];
      KeysOfMap(front);
      forall k ensures k in MapOf(rows) <==> exists i :: 0 <= i < |rows| && rows[i].key == k {
        if k in MapOf(front) {
          var i :| 0 <= i < n && front[i].key == k;
          assert rows[i].key == k;
        }
        if i :| 0 <= i < |rows| && rows[i].key == k {
          if i < n { assert front[i].key == k; }
        }
      }
      SizeGrows(MapOf(front), last.key, last.value);
      if last.key in MapOf(front) {
        var i :| 0 <= i < n && front[i].key == last.key;
        assert rows[i].key == rows[n].key;
      } else {
        assert DistinctKeys(front) ==> DistinctKeys(rows) by {
          forall i | 0 <= i < n ensures rows[i].key != last.key { assert front[i].key == rows[i].key; }
        }
        assert DistinctKeys(rows) ==> DistinctKeys(front);
      }
    }
  }

  lemma SizeGrows<K, V>(m: map<K, V>, k: K, v: V)
    ensures |m[k := v]| == if k in m then |m| else |m| + 1
  {
    if k in m {
      assert m[k := v].Keys == m.Keys;
    } else {
      assert m[k := v].Keys == m.Keys + {k};
    }
  }

  /** With distinct keys the map holds exactly the rows. */
  lemma {:induction false} RowsOfMap<K, V>(rows: seq<Row<K, V>>)
    requires DistinctKeys(rows)
    ensures forall k, v :: (k in MapOf(rows) && MapOf(rows)[k] == v) <==> Row(k, v) in rows
  {
    if rows != [] {
      var n := |rows| - 1;
      var front, last := rows[..n], rows[n];
      RowsOfMap(front);
      assert rows == front + [last];
      forall i | 0 <= i < n ensures front[i].key != last.key { assert rows[i].key == front[i].key; }
    }
  }

  // ---- the delta ------------------------------------------------------------------------------

  ghost predicate IsAdded<K(!new), V(!new)>(o: map<K, V>, n: map<K, V>, restricted: bool, row: Row<K, V>) {
    !restricted && row.key in n && n[row.key] == row.value && row.key !in o
  }

  ghost predicate IsRemoved<K(!new), V(!new)>(o: map<K, V>, n: map<K, V>, row: Row<K, V>) {
    row.key in o && o[row.key] == row.value && row.key !in n
  }

  ghost predicate IsChange<K(!new), V(!new)>(o: map<K, V>, n: map<K, V>, change: Change<K, V>) {
    change.key in o && change.key in n && o[change.key] == change.before && n[change.key] == change.after
    && change.before != change.after
  }

  /** The delta reports each difference between the two maps and nothing else. */
  ghost predicate IsDelta<K(!new), V(!new)>(o: map<K, V>, n: map<K, V>, delta: Delta<K, V>) {
    && (forall row :: row in delta.added <==> IsAdded(o, n, delta.restricted, row))
    && (forall row :: row in delta.removed <==> IsRemoved(o, n, row))
    && (forall change :: change in delta.changed <==> IsChange(o, n, change))
    && delta.compared == |o.Keys * n.Keys|
  }

  // ---- what a delta is worth -------------------------------------------------------------------

  ghost function KeysOf<K, V>(rows: seq<Row<K, V>>): set<K> {
    set row | row in rows :: row.key
  }

  /** The old payload with the removals taken out, the additions put in and the changes made. */
  ghost function Patched<K(!new), V(!new)>(o: map<K, V>, delta: Delta<K, V>): map<K, V> {
    var kept := o - KeysOf(delta.removed);
    map k | k in kept.Keys + KeysOf(delta.added) :: PatchedAt(kept, delta, k)
  }

  ghost function PatchedAt<K(!new), V(!new)>(kept: map<K, V>, delta: Delta<K, V>, k: K): V
    requires k in kept.Keys + KeysOf(delta.added)
  {
    if k in KeysOf(delta.added) then (var row :| row in delta.added && row.key == k; row.value)
    else if exists c :: c in delta.changed && c.key == k then (var c :| c in delta.changed && c.key == k; c.after)
    else kept[k]
  }

  /** An unrestricted delta turns the old payload into the new one. */
  lemma DeltaIsPatch<K(!new), V(!new)>(o: map<K, V>, n: map<K, V>, delta: Delta<K, V>)
    requires IsDelta(o, n, delta) && !delta.restricted
    ensures Patched(o, delta) == n
  {
    var kept := o - KeysOf(delta.removed);
    forall k
      ensures k in kept.Keys + KeysOf(delta.added) <==> k in n
      ensures k in n && k in kept.Keys + KeysOf(delta.added) ==> PatchedAt(kept, delta, k) == n[k]
    {
      KeysPatch(o, n, delta, k);
      if k in n { ValuePatches(o, n, delta, k); }
    }
  }

  lemma KeysPatch<K(!new), V(!new)>(o: map<K, V>, n: map<K, V>, delta: Delta<K, V>, k: K)
    requires IsDelta(o, n, delta) && !delta.restricted
    ensures k in KeysOf(delta.removed) <==> k in o && k !in n
    ensures k in KeysOf(delta.added) <==> k in n && k !in o
  {
    if k in o && k !in n { assert IsRemoved(o, n, Row(k, o[k])) && Row(k, o[k]) in delta.removed; }
    if k in n && k !in o { assert IsAdded(o, n, false, Row(k, n[k])) && Row(k, n[k]) in delta.added; }
  }

  lemma ValuePatches<K(!new), V(!new)>(o: map<K, V>, n: map<K, V>, delta: Delta<K, V>, k: K)
    requires IsDelta(o, n, delta) && !delta.restricted && k in n
    ensures var kept := o - KeysOf(delta.removed);
      k in kept.Keys + KeysOf(delta.added) && PatchedAt(kept, delta, k) == n[k]
  {
    KeysPatch(o, n, delta, k);
    if k in o && o[k] != n[k] {
      var c := Change(k, o[k], n[k]);
      assert IsChange(o, n, c) && c in delta.changed;
    }
  }

  /** The new payload cut down to the old keys. */
  function CutDown<K, V>(o: map<K, V>, n: map<K, V>): map<K, V> {
    map k | k in n && k in o :: n[k]
  }

  lemma CutDownAgrees<K(!new), V(!new)>(o: map<K, V>, n: map<K, V>)
    ensures o.Keys * CutDown(o, n).Keys == o.Keys * n.Keys
    ensures forall row :: IsRemoved(o, n, row) <==> IsRemoved(o, CutDown(o, n), row)
    ensures forall c :: IsChange(o, n, c) <==> IsChange(o, CutDown(o, n), c)
    ensures forall row :: !IsAdded(o, CutDown(o, n), false, row)
  {
  }

  /** A restricted delta sees exactly what happened to the old keys. */
  lemma RestrictedDeltaIsPatch<K(!new), V(!new)>(o: map<K, V>, n: map<K, V>, delta: Delta<K, V>)
    requires IsDelta(o, n, delta) && delta.restricted
    ensures delta.added == []
    ensures IsDelta(o, CutDown(o, n), delta.(restricted := false))
  {
    SomeMember(delta.added);
    CutDownAgrees(o, n);
  }

  /** Each key of either side is added, removed, changed or unchanged, and only one of these. */
  lemma BucketsPartitionKeys<K(!new), V(!new)>(o: map<K, V>, n: map<K, V>, delta: Delta<K, V>, k: K)
    requires IsDelta(o, n, delta) && !delta.restricted && (k in o || k in n)
    ensures var added := k in KeysOf(delta.added); var removed := k in KeysOf(delta.removed);
      var changed := exists c :: c in delta.changed && c.key == k;
      var same := k in o && k in n && o[k] == n[k];
      && (added || removed || changed || same)
      && !(added && removed) && !(added && changed) && !(added && same) && !(removed && changed) && !(removed && same)
      && !(changed && same)
  {
    KeysPatch(o, n, delta, k);
    if k in o && k in n && o[k] != n[k] {
      var c := Change(k, o[k], n[k]);
      assert IsChange(o, n, c) && c in delta.changed;
    }
  }

  lemma SomeMember<T>(s: seq<T>)
    ensures s == [] || exists x :: x in s
  {
    if s != [] { Sorting.HasMember(s); }
  }

  /** Nothing is reported exactly when the payloads are equal. */
  lemma EmptyDeltaMeansEqual<K(!new), V(!new)>(o: map<K, V>, n: map<K, V>, delta: Delta<K, V>)
    requires IsDelta(o, n, delta) && !delta.restricted
    ensures delta.added == [] && delta.removed == [] && delta.changed == [] <==> o == n
  {
    if delta.added == [] && delta.removed == [] && delta.changed == [] {
      forall k ensures (k in o <==> k in n) && (k in o && k in n ==> o[k] == n[k]) {
        if k in o || k in n { BucketsPartitionKeys(o, n, delta, k); }
      }
    }
    SomeMember(delta.added);
    SomeMember(delta.removed);
    SomeMember(delta.changed);
  }

  // ---- computing it ------------------------------------------------------------------------------

  /** How many of the rows have a counterpart. */
  function Common<K(==), V>(rows: seq<Row<K, V>>, n: map<K, V>): nat {
    if rows == [] then 0 else Common(rows[..|rows| - 1], n) + if rows[|rows| - 1].key in n then 1 else 0
  }

  lemma {:induction false} CommonCounts<K, V>(rows: seq<Row<K, V>>, n: map<K, V>)
    requires DistinctKeys(rows)
    ensures Common(rows, n) == |MapOf(rows).Keys * n.Keys|
  {
    if rows == [] {
      assert MapOf(rows).Keys * n.Keys == {};
    } else {
      var last := |rows| - 1;
      var front, row := rows[..last], rows[last];
      CommonCounts(front, n);
      KeysOfMap(front);
      assert row.key !in MapOf(front) by {
        forall i | 0 <= i < last ensures front[i].key != row.key { assert rows[i].key == front[i].key; }
      }
      var before := MapOf(front).Keys * n.Keys;
      assert MapOf(rows).Keys * n.Keys == before + if row.key in n then {row.key} else {};
    }
  }

  /** The old rows met so far, sorted into removals and changes. */
  ghost predicate OldSide<K(!new), V(!new)>(met: seq<Row<K, V>>, n: map<K, V>, removed: seq<Row<K, V>>,
                                            changed: seq<Change<K, V>>)
  {
    && (forall row :: row in removed <==> row in met && row.key !in n)
    && (forall c :: c in changed <==>
          Row(c.key, c.before) in met && c.key in n && n[c.key] == c.after && c.before != c.after)
  }

  lemma NewKey<K, V>(rows: seq<Row<K, V>>, i: nat)
    requires DistinctKeys(rows) && i < |rows|
    ensures forall row :: row in rows[..i] ==> row.key != rows[i].key
  {
    forall row | row in rows[..i] ensures row.key != rows[i].key {
      var j :| 0 <= j < i && rows[j] == row;
    }
  }

  lemma OneMoreRow<K(!new), V(!new)>(met: seq<Row<K, V>>, row: Row<K, V>, n: map<K, V>, removed: seq<Row<K, V>>,
                                    changed: seq<Change<K, V>>)
    requires OldSide(met, n, removed, changed) && forall r :: r in met ==> r.key != row.key
    requires Sorting.Distinct(removed) && Sorting.Distinct(changed)
    ensures row.key !in n ==> OldSide(met + [row], n, removed + [row], changed) && Sorting.Distinct(removed + [row])
    ensures row.key in n && n[row.key] == row.value ==> OldSide(met + [row], n, removed, changed)
    ensures row.key in n && n[row.key] != row.value ==>
      var change := Change(row.key, row.value, n[row.key]);
      OldSide(met + [row], n, removed, changed + [change]) && Sorting.Distinct(changed + [change])
  {
    assert row !in removed;
    if row.key in n {
      var change := Change(row.key, row.value, n[row.key]);
      assert change in changed ==> Row(change.key, change.before) in met;
    }
  }

  method CompareOld<K(==, !new), V(==, !new)>(rows: seq<Row<K, V>>, n: map<K, V>)
    returns (removed: seq<Row<K, V>>, changed: seq<Change<K, V>>, compared: nat)
    requires DistinctKeys(rows)
    ensures OldSide(rows, n, removed, changed) && compared == Common(rows, n)
    ensures Sorting.Distinct(removed) && Sorting.Distinct(changed)
  {
    removed, changed, compared := [], [], 0;
    for i := 0 to |rows|
      invariant OldSide(rows[..i], n, removed, changed) && compared == Common(rows[..i], n)
      invariant Sorting.Distinct(removed) && Sorting.Distinct(changed)
    {
      var row := rows[i];
      NewKey(rows, i);
      OneMoreRow(rows[..i], row, n, removed, changed);
      assert rows[..i + 1] == rows[..i] + [row] && rows[..i + 1][..i] == rows[..i];
      if row.key !in n {
        removed := removed + [row];
        continue;
      }
      compared := compared + 1;
      if n[row.key] != row.value { changed := changed + [Change(row.key, row.value, n[row.key])]; }
    }
    assert rows[..|rows|] == rows;
  }

  method CollectAdded<K(==, !new), V(==, !new)>(rows: seq<Row<K, V>>, o: map<K, V>) returns (added: seq<Row<K, V>>)
    requires DistinctKeys(rows)
    ensures forall row :: row in added <==> row in rows && row.key !in o
    ensures Sorting.Distinct(added)
  {
    added := [];
    for i := 0 to |rows|
      invariant forall row :: row in added <==> row in rows[..i] && row.key !in o
      invariant Sorting.Distinct(added)
    {
      NewKey(rows, i);
      assert rows[..i + 1] == rows[..i] + [rows[i]];
      if rows[i].key !in o { added := added + [rows[i]]; }
    }
    assert rows[..|rows|] == rows;
  }

  method ToMap<K(==), V>(rows: seq<Row<K, V>>) returns (m: map<K, V>)
    ensures m == MapOf(rows)
  {
    m := map[];
    for i := 0 to |rows|
      invariant m == MapOf(rows[..i])
    {
      assert rows[..i + 1][..i] == rows[..i];
      m := m[rows[i].key := rows[i].value];
    }
    assert rows[..|rows|] == rows;
  }

  /** A strict total order. */
  ghost predicate Orders<K(!new)>(before: (K, K) -> bool) {
    Sorting.StrictWeak(before) && forall a, b :: a == b || before(a, b) || before(b, a)
  }

  /** The comparison throws exactly on a repeated key; otherwise it reports every difference once, in key order. */
  method ComputeDelta<K(==, !new), V(==, !new)>(oldRows: seq<Row<K, V>>, newRows: seq<Row<K, V>>, restricted: bool,
                                                before: (K, K) -> bool)
    returns (result: Outcome<Delta<K, V>, DeltaError>)
    ensures result.Thrown? <==> !DistinctKeys(oldRows) || !DistinctKeys(newRows)
    ensures result.Ok? ==> IsDelta(MapOf(oldRows), MapOf(newRows), result.value) && result.value.restricted == restricted
    ensures result.Ok? && Orders(before) ==> InKeyOrder(result.value, before)
  {
    var o := ToMap(oldRows);
    var n := ToMap(newRows);
    KeysOfMap(oldRows);
    KeysOfMap(newRows);
    if |o| != |oldRows| || |n| != |newRows| { return Thrown(DuplicateKey); }
    var removed, changed, compared := CompareOld(oldRows, n);
    var added: seq<Row<K, V>> := [];
    if !restricted { added := CollectAdded(newRows, o); }
    var delta := Delta(restricted, compared, added, removed, changed);
    ComparedIsDelta(oldRows, newRows, delta);
    SortedIsDelta(o, n, delta, before);
    if Orders(before) { SortedInOrder(o, n, delta, before); }
    result := Ok(SortedDelta(delta, before));
  }

  function ByRow<K, V>(before: (K, K) -> bool): (Row<K, V>, Row<K, V>) -> bool {
    (a: Row<K, V>, b: Row<K, V>) => before(a.key, b.key)
  }

  function ByChange<K, V>(before: (K, K) -> bool): (Change<K, V>, Change<K, V>) -> bool {
    (a: Change<K, V>, b: Change<K, V>) => before(a.key, b.key)
  }

  function SortedDelta<K, V>(delta: Delta<K, V>, before: (K, K) -> bool): Delta<K, V> {
    Delta(delta.restricted, delta.compared, Sorting.Sort(delta.added, ByRow(before)),
          Sorting.Sort(delta.removed, ByRow(before)), Sorting.Sort(delta.changed, ByChange(before)))
  }

  lemma SameMembersIsDelta<K(!new), V(!new)>(o: map<K, V>, n: map<K, V>, a: Delta<K, V>, b: Delta<K, V>)
    requires IsDelta(o, n, a) && a.restricted == b.restricted && a.compared == b.compared
    requires forall row :: row in a.added <==> row in b.added
    requires forall row :: row in a.removed <==> row in b.removed
    requires forall c :: c in a.changed <==> c in b.changed
    ensures IsDelta(o, n, b)
  {
    forall row ensures row in b.added <==> IsAdded(o, n, b.restricted, row) { assert row in a.added <==> row in b.added; }
    forall row ensures row in b.removed <==> IsRemoved(o, n, row) { assert row in a.removed <==> row in b.removed; }
    forall c ensures c in b.changed <==> IsChange(o, n, c) { assert c in a.changed <==> c in b.changed; }
  }

  lemma SortedIsDelta<K(!new), V(!new)>(o: map<K, V>, n: map<K, V>, delta: Delta<K, V>, before: (K, K) -> bool)
    requires IsDelta(o, n, delta)
    ensures IsDelta(o, n, SortedDelta(delta, before))
  {
    SameMembers(delta.added, ByRow(before));
    SameMembers(delta.removed, ByRow(before));
    SameMembers(delta.changed, ByChange(before));
    SameMembersIsDelta(o, n, delta, SortedDelta(delta, before));
  }

  lemma SameMembers<T(!new)>(s: seq<T>, before: (T, T) -> bool)
    ensures forall x :: x in s <==> x in Sorting.Sort(s, before)
  {
    Sorting.SamePresence(s, Sorting.Sort(s, before));
  }

  /** Every list runs strictly upwards, so nothing is reported twice. */
  ghost predicate InKeyOrder<K, V>(delta: Delta<K, V>, before: (K, K) -> bool) {
    && Sorting.Increasing(delta.added, ByRow(before)) && Sorting.Increasing(delta.removed, ByRow(before))
    && Sorting.Increasing(delta.changed, ByChange(before))
  }

  lemma RowsSort<K(!new), V(!new)>(before: (K, K) -> bool)
    requires Orders(before)
    ensures Sorting.StrictWeak<Row<K, V>>(ByRow(before)) && Sorting.StrictWeak<Change<K, V>>(ByChange(before))
  {
    var byRow: (Row<K, V>, Row<K, V>) -> bool := ByRow(before);
    var byChange: (Change<K, V>, Change<K, V>) -> bool := ByChange(before);
    forall a, b | byRow(a, b) ensures !byRow(b, a) { assert before(a.key, b.key); }
    forall a, b, c | !byRow(a, b) && !byRow(b, c) ensures !byRow(a, c) {
      assert !before(a.key, b.key) && !before(b.key, c.key);
    }
    forall a, b | byChange(a, b) ensures !byChange(b, a) { assert before(a.key, b.key); }
    forall a, b, c | !byChange(a, b) && !byChange(b, c) ensures !byChange(a, c) {
      assert !before(a.key, b.key) && !before(b.key, c.key);
    }
  }

  /** The payloads and the scope decide the whole delta, order included. */
  lemma DeltaIsUnique<K(!new), V(!new)>(o: map<K, V>, n: map<K, V>, a: Delta<K, V>, b: Delta<K, V>, before: (K, K) -> bool)
    requires Orders(before) && IsDelta(o, n, a) && IsDelta(o, n, b) && a.restricted == b.restricted
    requires InKeyOrder(a, before) && InKeyOrder(b, before)
    ensures a == b
  {
    RowsSort<K, V>(before);
    forall row ensures row in a.added <==> row in b.added { assert row in a.added <==> IsAdded(o, n, a.restricted, row); }
    forall row ensures row in a.removed <==> row in b.removed { assert row in a.removed <==> IsRemoved(o, n, row); }
    forall c ensures c in a.changed <==> c in b.changed { assert c in a.changed <==> IsChange(o, n, c); }
    Sorting.IncreasingUnique(a.added, b.added, ByRow(before));
    Sorting.IncreasingUnique(a.removed, b.removed, ByRow(before));
    Sorting.IncreasingUnique(a.changed, b.changed, ByChange(before));
  }

  lemma RowsInOrder<K(!new), V(!new)>(m: map<K, V>, rows: seq<Row<K, V>>, before: (K, K) -> bool)
    requires Orders(before) && Sorting.Distinct(rows)
    requires forall row :: row in rows ==> row.key in m && m[row.key] == row.value
    ensures Sorting.Increasing(Sorting.Sort(rows, ByRow(before)), ByRow(before))
  {
    var byRow: (Row<K, V>, Row<K, V>) -> bool := ByRow(before);
    RowsSort<K, V>(before);
    forall a, b | a in rows && b in rows && a != b ensures byRow(a, b) || byRow(b, a) {
      assert a == Row(a.key, a.value) && b == Row(b.key, b.value);
      assert a.key == b.key || before(a.key, b.key) || before(b.key, a.key);
    }
    Sorting.SortIncreasing(rows, byRow);
  }

  lemma ChangesInOrder<K(!new), V(!new)>(o: map<K, V>, n: map<K, V>, changed: seq<Change<K, V>>, before: (K, K) -> bool)
    requires Orders(before) && Sorting.Distinct(changed)
    requires forall c :: c in changed ==> IsChange(o, n, c)
    ensures Sorting.Increasing(Sorting.Sort(changed, ByChange(before)), ByChange(before))
  {
    var byChange: (Change<K, V>, Change<K, V>) -> bool := ByChange(before);
    RowsSort<K, V>(before);
    forall a, b | a in changed && b in changed && a != b ensures byChange(a, b) || byChange(b, a) {
      assert IsChange(o, n, a) && IsChange(o, n, b);
      assert a == Change(a.key, a.before, a.after) && b == Change(b.key, b.before, b.after);
      assert a.key == b.key || before(a.key, b.key) || before(b.key, a.key);
    }
    Sorting.SortIncreasing(changed, byChange);
  }

  lemma SortedInOrder<K(!new), V(!new)>(o: map<K, V>, n: map<K, V>, delta: Delta<K, V>, before: (K, K) -> bool)
    requires Orders(before) && IsDelta(o, n, delta)
    requires Sorting.Distinct(delta.added) && Sorting.Distinct(delta.removed) && Sorting.Distinct(delta.changed)
    ensures InKeyOrder(SortedDelta(delta, before), before)
  {
    RowsInOrder(n, delta.added, before);
    RowsInOrder(o, delta.removed, before);
    ChangesInOrder(o, n, delta.changed, before);
  }

  lemma AddedRows<K(!new), V(!new)>(newRows: seq<Row<K, V>>, o: map<K, V>, added: seq<Row<K, V>>)
    requires DistinctKeys(newRows) && forall row :: row in added <==> row in newRows && row.key !in o
    ensures forall row :: row in added <==> IsAdded(o, MapOf(newRows), false, row)
  {
    RowsOfMap(newRows);
    forall row: Row<K, V> ensures row in added <==> IsAdded(o, MapOf(newRows), false, row) {
      assert row == Row(row.key, row.value);
    }
  }

  lemma OldRows<K(!new), V(!new)>(oldRows: seq<Row<K, V>>, n: map<K, V>, removed: seq<Row<K, V>>,
                                  changed: seq<Change<K, V>>)
    requires DistinctKeys(oldRows) && OldSide(oldRows, n, removed, changed)
    ensures forall row :: row in removed <==> IsRemoved(MapOf(oldRows), n, row)
    ensures forall c :: c in changed <==> IsChange(MapOf(oldRows), n, c)
  {
    RowsOfMap(oldRows);
    forall row: Row<K, V> ensures row in removed <==> IsRemoved(MapOf(oldRows), n, row) {
      assert row == Row(row.key, row.value);
    }
  }

  lemma ComparedIsDelta<K(!new), V(!new)>(oldRows: seq<Row<K, V>>, newRows: seq<Row<K, V>>, delta: Delta<K, V>)
    requires DistinctKeys(oldRows) && DistinctKeys(newRows)
    requires OldSide(oldRows, MapOf(newRows), delta.removed, delta.changed)
    requires delta.compared == Common(oldRows, MapOf(newRows))
    requires if delta.restricted then delta.added == []
             else forall row :: row in delta.added <==> row in newRows && row.key !in MapOf(oldRows)
    ensures IsDelta(MapOf(oldRows), MapOf(newRows), delta)
  {
    CommonCounts(oldRows, MapOf(newRows));
    OldRows(oldRows, MapOf(newRows), delta.removed, delta.changed);
    if !delta.restricted { AddedRows(newRows, MapOf(oldRows), delta.added); }
  }
}
