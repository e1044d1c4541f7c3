/** The order of the payload diffs and the outcome class of a re-pin, said of the payloads themselves. */
module DeltaTheorems {
  import opened CodeUnits
  import opened Outcomes
  import opened RowDelta
  import O = OpenbibleDelta
  import V = VerseId
  import W = WebDelta
  import Sorting

  /** The key's value came, went, or changed; with a restricted witness nothing is seen to come. */
  predicate Moved<K, V(==)>(o: map<K, V>, n: map<K, V>, restricted: bool, k: K) {
    || (k in o && k !in n)
    || (k in o && k in n && o[k] != n[k])
    || (!restricted && k !in o && k in n)
  }

  /** A delta moves exactly the moved keys. */
  lemma MovementIsMoved<K(!new), V(!new)>(o: map<K, V>, n: map<K, V>, delta: Delta<K, V>, touches: K -> bool)
    requires IsDelta(o, n, delta)
    ensures O.AnyMovementIn(delta, touches) <==> exists k :: Moved(o, n, delta.restricted, k) && touches(k)
  {
    if O.AnyMovementIn(delta, touches) { MovementMoves(o, n, delta, touches); }
    if k :| Moved(o, n, delta.restricted, k) && touches(k) { MovedMoves(o, n, delta, touches, k); }
  }

  lemma MovementMoves<K(!new), V(!new)>(o: map<K, V>, n: map<K, V>, delta: Delta<K, V>, touches: K -> bool)
    requires IsDelta(o, n, delta) && O.AnyMovementIn(delta, touches)
    ensures exists k :: Moved(o, n, delta.restricted, k) && touches(k)
  {
    if i :| 0 <= i < |delta.changed| && touches(delta.changed[i].key) {
      assert delta.changed[i] in delta.changed && IsChange(o, n, delta.changed[i]);
      assert Moved(o, n, delta.restricted, delta.changed[i].key);
    } else if i :| 0 <= i < |delta.added| && touches(delta.added[i].key) {
      assert delta.added[i] in delta.added && IsAdded(o, n, delta.restricted, delta.added[i]);
      assert Moved(o, n, delta.restricted, delta.added[i].key);
    } else {
      var i :| 0 <= i < |delta.removed| && touches(delta.removed[i].key);
      assert delta.removed[i] in delta.removed && IsRemoved(o, n, delta.removed[i]);
      assert Moved(o, n, delta.restricted, delta.removed[i].key);
    }
  }

  lemma MovedMoves<K(!new), V(!new)>(o: map<K, V>, n: map<K, V>, delta: Delta<K, V>, touches: K -> bool, k: K)
    requires IsDelta(o, n, delta) && Moved(o, n, delta.restricted, k) && touches(k)
    ensures O.AnyMovementIn(delta, touches)
  {
    if k in o && k in n {
      var c := Change(k, o[k], n[k]);
      assert IsChange(o, n, c) && c in delta.changed;
      var i :| 0 <= i < |delta.changed| && delta.changed[i] == c;
      assert touches(delta.changed[i].key);
    } else if k in o {
      var row := Row(k, o[k]);
      assert IsRemoved(o, n, row) && row in delta.removed;
      var i :| 0 <= i < |delta.removed| && delta.removed[i] == row;
      assert touches(delta.removed[i].key);
    } else {
      var row := Row(k, n[k]);
      assert IsAdded(o, n, delta.restricted, row) && row in delta.added;
      var i :| 0 <= i < |delta.added| && delta.added[i] == row;
      assert touches(delta.added[i].key);
    }
  }

  lemma SomethingMoved<K(!new), V(!new)>(o: map<K, V>, n: map<K, V>, delta: Delta<K, V>) returns (k: K)
    requires IsDelta(o, n, delta) && (delta.changed != [] || delta.added != [] || delta.removed != [])
    ensures Moved(o, n, delta.restricted, k)
  {
    if delta.changed != [] {
      k := delta.changed[0].key;
      assert delta.changed[0] in delta.changed && IsChange(o, n, delta.changed[0]);
    } else if delta.added != [] {
      k := delta.added[0].key;
      assert delta.added[0] in delta.added && IsAdded(o, n, delta.restricted, delta.added[0]);
    } else {
      k := delta.removed[0].key;
      assert delta.removed[0] in delta.removed && IsRemoved(o, n, delta.removed[0]);
    }
  }

  lemma NothingMoved<K(!new), V(!new)>(o: map<K, V>, n: map<K, V>, delta: Delta<K, V>)
    requires IsDelta(o, n, delta)
    ensures delta.changed == [] && delta.added == [] && delta.removed == []
       <==> forall k :: !Moved(o, n, delta.restricted, k)
  {
    if delta.changed != [] || delta.added != [] || delta.removed != [] { var k := SomethingMoved(o, n, delta); }
    if k :| Moved(o, n, delta.restricted, k) { MovedMoves(o, n, delta, (k: K) => true, k); }
  }

  lemma ListsInOrder<K(!new), V(!new)>(delta: Delta<K, V>, before: (K, K) -> bool, i: nat, j: nat)
    requires InKeyOrder(delta, before) && i < j
    ensures j < |delta.added| ==> before(delta.added[i].key, delta.added[j].key)
    ensures j < |delta.removed| ==> before(delta.removed[i].key, delta.removed[j].key)
    ensures j < |delta.changed| ==> before(delta.changed[i].key, delta.changed[j].key)
  {
    if j < |delta.added| { assert ByRow<K, V>(before)(delta.added[i], delta.added[j]); }
    if j < |delta.removed| { assert ByRow<K, V>(before)(delta.removed[i], delta.removed[j]); }
    if j < |delta.changed| { assert ByChange<K, V>(before)(delta.changed[i], delta.changed[j]); }
  }

  // ---- cross-references ----------------------------------------------------------------------------

  predicate EdgesAscend(a: O.Edge, b: O.Edge) {
    || a.fromVerseId < b.fromVerseId
    || (a.fromVerseId == b.fromVerseId && a.toStart < b.toStart)
    || (a.fromVerseId == b.fromVerseId && a.toStart == b.toStart && a.toEnd < b.toEnd)
  }

  /** Additions, removals and vote shifts each come by verse, then by first and last target. */
  lemma EdgesInOrder(delta: Delta<O.Edge, int>, i: nat, j: nat)
    requires InKeyOrder(delta, O.EdgeBefore) && i < j
    ensures j < |delta.added| ==> EdgesAscend(delta.added[i].key, delta.added[j].key)
    ensures j < |delta.removed| ==> EdgesAscend(delta.removed[i].key, delta.removed[j].key)
    ensures j < |delta.changed| ==> EdgesAscend(delta.changed[i].key, delta.changed[j].key)
  {
    ListsInOrder(delta, O.EdgeBefore, i, j);
  }

  /** A shift enters the build when it reaches one vote, and leaves it when it drops below. */
  lemma CrossesAtOneVote(c: Change<O.Edge, int>)
    ensures O.Importability(c) == Some(O.EntersBuild) <==> c.before < 1 <= c.after
    ensures O.Importability(c) == Some(O.LeavesBuild) <==> c.after < 1 <= c.before
  {
  }

  /** The class of a cross-reference payload: whether edges moved, and whether a committed one did. */
  lemma XrefClass(o: map<O.Edge, int>, n: map<O.Edge, int>, delta: Delta<O.Edge, int>, stop: bool, known: bool,
                  committed: Option<set<O.Edge>>)
    requires IsDelta(o, n, delta)
    ensures O.ClassifyXrefDelta(delta, stop, known, committed)
         == if stop then O.LicenseStop
            else if forall k :: !Moved(o, n, delta.restricted, k) then O.Identical
            else if known && committed.Some? && exists k :: Moved(o, n, delta.restricted, k) && k in committed.value
                 then O.ScopeMovement
            else O.OutsideScope
  {
    NothingMoved(o, n, delta);
    MovementIsMoved(o, n, delta, O.Touches(committed));
    if committed.Some? {
      assert forall k :: O.Touches(committed)(k) <==> k in committed.value;
    }
  }

  // ---- topics --------------------------------------------------------------------------------------

  predicate RangesAscend(a: O.TopicRange, b: O.TopicRange) {
    || Less(a.topic, b.topic)
    || (a.topic == b.topic && a.startVerseId < b.startVerseId)
    || (a.topic == b.topic && a.startVerseId == b.startVerseId && a.endVerseId < b.endVerseId)
  }

  /** Additions, removals and score shifts each come by topic, then by range. */
  lemma RangesInOrder(delta: Delta<O.TopicRange, real>, i: nat, j: nat)
    requires InKeyOrder(delta, O.RangeBefore) && i < j
    ensures j < |delta.added| ==> RangesAscend(delta.added[i].key, delta.added[j].key)
    ensures j < |delta.removed| ==> RangesAscend(delta.removed[i].key, delta.removed[j].key)
    ensures j < |delta.changed| ==> RangesAscend(delta.changed[i].key, delta.changed[j].key)
  {
    ListsInOrder(delta, O.RangeBefore, i, j);
  }

  lemma ConsumedMoved(o: map<O.TopicRange, real>, n: map<O.TopicRange, real>, delta: Delta<O.TopicRange, real>,
                      consumed: Option<set<Str>>)
    requires IsDelta(o, n, delta)
    ensures O.AnyMovementIn(delta, O.TouchesTopic(consumed)) <==>
      consumed.Some? && exists k :: Moved(o, n, delta.restricted, k) && k.topic in consumed.value
  {
    MovementIsMoved(o, n, delta, O.TouchesTopic(consumed));
    if consumed.Some? {
      assert forall k :: O.TouchesTopic(consumed)(k) <==> k.topic in consumed.value;
    }
  }

  /** Without its topic lists the class is that of the rows. */
  lemma TopicRowsClass(o: map<O.TopicRange, real>, n: map<O.TopicRange, real>, consumed: Option<set<Str>>,
                       d: O.TopicDelta, stop: bool, known: bool)
    requires IsDelta(o, n, d.rows)
    requires O.ClassifyTopicDelta(d, false, known, consumed)
          == if d.rows.changed == [] && d.rows.added == [] && d.rows.removed == [] then O.Identical
             else if known && O.AnyMovementIn(d.rows, O.TouchesTopic(consumed)) then O.ScopeMovement
             else O.OutsideScope
    ensures O.ClassifyTopicDelta(d, stop, known, consumed)
         == if stop then O.LicenseStop
            else if forall k {:trigger Moved(o, n, d.rows.restricted, k)} :: !Moved(o, n, d.rows.restricted, k)
                 then O.Identical
            else if known && consumed.Some? && exists k {:trigger Moved(o, n, d.rows.restricted, k)} ::
                   Moved(o, n, d.rows.restricted, k) && k.topic in consumed.value
                 then O.ScopeMovement
            else O.OutsideScope
  {
    NothingMoved(o, n, d.rows);
    ConsumedMoved(o, n, d.rows, consumed);
  }

  /** The class of a topic payload: whether rows moved, and whether one of a consumed topic did. */
  lemma TopicClass(oldRows: seq<Row<O.TopicRange, real>>, newRows: seq<Row<O.TopicRange, real>>,
                   o: map<O.TopicRange, real>, n: map<O.TopicRange, real>, consumed: Option<set<Str>>, d: O.TopicDelta,
                   stop: bool, known: bool)
    requires DistinctKeys(oldRows) && DistinctKeys(newRows) && O.IsTopicDelta(oldRows, newRows, consumed, d)
    requires o == MapOf(oldRows) && n == MapOf(newRows)
    ensures O.ClassifyTopicDelta(d, stop, known, consumed)
         == if stop then O.LicenseStop
            else if forall k {:trigger Moved(o, n, d.rows.restricted, k)} :: !Moved(o, n, d.rows.restricted, k)
                 then O.Identical
            else if known && consumed.Some? && exists k {:trigger Moved(o, n, d.rows.restricted, k)} ::
                   Moved(o, n, d.rows.restricted, k) && k.topic in consumed.value
                 then O.ScopeMovement
            else O.OutsideScope
  {
    O.TopicListsAddNothing(oldRows, newRows, consumed, d, known);
    TopicRowsClass(o, n, consumed, d, stop, known);
  }

  // ---- verses --------------------------------------------------------------------------------------

  /** The verse's text is gone, or changed in its tokens. */
  predicate Revised(o: map<int, Str>, n: map<int, Str>, sameTokens: (Str, Str) -> bool, id: int) {
    || (id in o && id !in n)
    || (id in o && id in n && o[id] != n[id] && !sameTokens(o[id], n[id]))
  }

  /** A fixture names the verse, or its whole chapter. */
  predicate InFixtures(id: int, scope: W.FixtureScope) {
    id in scope.verses || (id / 1_000_000, id % 1_000_000 / 1_000) in scope.chapters
  }

  lemma {:induction false} ScopeHits(ids: seq<int>, scope: W.FixtureScope)
    requires forall id :: id in ids ==> W.Parses(id)
    ensures W.AnyInScope(ids, scope) == Ok(exists id :: id in ids && InFixtures(id, scope))
  {
    if ids != [] {
      assert ids[0] in ids;
      ScopeHits(ids[1..], scope);
      assert W.RefInScope(ids[0], scope) == Ok(InFixtures(ids[0], scope));
      if id :| id in ids && InFixtures(id, scope) { assert id == ids[0] || id in ids[1..]; }
      if id :| id in ids[1..] && InFixtures(id, scope) { assert id in ids; }
    }
  }

  /** What the revisions and the removals of a delta are. */
  ghost predicate ListsRevised(o: map<int, Str>, n: map<int, Str>, sameTokens: (Str, Str) -> bool, d: W.VerseDelta) {
    && (forall c :: c in d.genuineRevisions <==> IsChange(o, n, c) && !sameTokens(c.before, c.after))
    && (forall row :: row in d.removed <==> IsRemoved(o, n, row))
  }

  lemma RevisionsAreListed(o: map<int, Str>, n: map<int, Str>, sameTokens: (Str, Str) -> bool, d: W.VerseDelta)
    requires W.IsVerseDelta(o, n, sameTokens, d)
    ensures ListsRevised(o, n, sameTokens, d)
  {
    var delta := d.AsDelta();
    forall c ensures c in d.genuineRevisions <==> IsChange(o, n, c) && !sameTokens(c.before, c.after) {
      assert c in delta.changed <==> c in d.typographyOnly || c in d.genuineRevisions;
    }
    forall row ensures row in d.removed <==> IsRemoved(o, n, row) { assert row in delta.removed <==> row in d.removed; }
  }

  lemma TouchingAreRevised(o: map<int, Str>, n: map<int, Str>, sameTokens: (Str, Str) -> bool, d: W.VerseDelta)
    requires W.IsVerseDelta(o, n, sameTokens, d)
    ensures forall id :: id in W.TouchingIds(d) <==> Revised(o, n, sameTokens, id)
  {
    RevisionsAreListed(o, n, sameTokens, d);
    forall id ensures id in W.TouchingIds(d) <==> Revised(o, n, sameTokens, id) {
      if id in W.TouchingIds(d) {
        var k :| 0 <= k < |W.TouchingIds(d)| && W.TouchingIds(d)[k] == id;
        TouchingIsRevised(o, n, sameTokens, d, k);
      }
      if Revised(o, n, sameTokens, id) {
        var k := RevisedTouches(o, n, sameTokens, d, id);
        assert W.TouchingIds(d)[k] == id;
      }
    }
  }

  lemma TouchingIsRevised(o: map<int, Str>, n: map<int, Str>, sameTokens: (Str, Str) -> bool, d: W.VerseDelta, k: nat)
    requires ListsRevised(o, n, sameTokens, d) && k < |W.TouchingIds(d)|
    ensures Revised(o, n, sameTokens, W.TouchingIds(d)[k])
  {
    if k < |d.genuineRevisions| {
      assert d.genuineRevisions[k] in d.genuineRevisions;
    } else {
      assert d.removed[k - |d.genuineRevisions|] in d.removed;
    }
  }

  lemma RevisedTouches(o: map<int, Str>, n: map<int, Str>, sameTokens: (Str, Str) -> bool, d: W.VerseDelta, id: int)
    returns (k: nat)
    requires ListsRevised(o, n, sameTokens, d) && Revised(o, n, sameTokens, id)
    ensures k < |W.TouchingIds(d)| && W.TouchingIds(d)[k] == id
  {
    if id in n {
      var c := Change(id, o[id], n[id]);
      assert IsChange(o, n, c) && c in d.genuineRevisions;
      k :| 0 <= k < |d.genuineRevisions| && d.genuineRevisions[k] == c;
    } else {
      var row := Row(id, o[id]);
      assert IsRemoved(o, n, row) && row in d.removed;
      var i :| 0 <= i < |d.removed| && d.removed[i] == row;
      k := |d.genuineRevisions| + i;
    }
  }

  /** The verse came, and the witness could have shown it before. */
  predicate Came(o: map<int, Str>, n: map<int, Str>, restricted: bool, id: int) {
    !restricted && id !in o && id in n
  }

  lemma CameIsAdded(o: map<int, Str>, n: map<int, Str>, sameTokens: (Str, Str) -> bool, d: W.VerseDelta)
    requires W.IsVerseDelta(o, n, sameTokens, d)
    ensures d.added != [] <==> exists id :: Came(o, n, d.restricted, id)
  {
    var delta := d.AsDelta();
    if delta.added != [] {
      assert delta.added[0] in delta.added && IsAdded(o, n, delta.restricted, delta.added[0]);
      assert Came(o, n, d.restricted, delta.added[0].key);
    }
    if id :| Came(o, n, d.restricted, id) {
      assert IsAdded(o, n, delta.restricted, Row(id, n[id])) && Row(id, n[id]) in delta.added;
    }
  }

  lemma RevisedIsTouching(o: map<int, Str>, n: map<int, Str>, sameTokens: (Str, Str) -> bool, d: W.VerseDelta)
    requires W.IsVerseDelta(o, n, sameTokens, d)
    ensures d.genuineRevisions != [] || d.removed != [] <==> exists id :: Revised(o, n, sameTokens, id)
  {
    TouchingAreRevised(o, n, sameTokens, d);
    var ids := W.TouchingIds(d);
    assert |ids| == |d.genuineRevisions| + |d.removed|;
    if ids != [] { assert ids[0] in ids; }
    if id :| Revised(o, n, sameTokens, id) { assert id in ids; }
  }

  lemma VersesMoved(o: map<int, Str>, n: map<int, Str>, sameTokens: (Str, Str) -> bool, d: W.VerseDelta)
    requires W.IsVerseDelta(o, n, sameTokens, d)
    ensures d.genuineRevisions == [] && d.removed == [] && d.added == [] && d.typographyOnly == []
       <==> forall id :: !Moved(o, n, d.restricted, id)
  {
    var delta := d.AsDelta();
    NothingMoved(o, n, delta);
    assert |delta.changed| == |d.typographyOnly| + |d.genuineRevisions|;
    if delta.changed == [] && delta.added == [] && delta.removed == [] {
      assert |d.typographyOnly| == 0 && |d.genuineRevisions| == 0;
      forall id: int ensures !Moved(o, n, d.restricted, id) { assert !Moved(o, n, delta.restricted, id); }
    } else {
      var id := SomethingMoved(o, n, delta);
      assert Moved(o, n, d.restricted, id);
    }
  }

  /** A fixture is hit exactly when a lost or revised verse is in its scope. */
  lemma ScopeIsHit(o: map<int, Str>, n: map<int, Str>, sameTokens: (Str, Str) -> bool, d: W.VerseDelta,
                   scope: W.FixtureScope)
    requires W.IsVerseDelta(o, n, sameTokens, d)
    requires forall id :: W.Reported(o, n, d.restricted, id) ==> W.Parses(id)
    ensures W.AnyInScope(W.TouchingIds(d), scope)
         == Ok(exists id {:trigger Revised(o, n, sameTokens, id)} :: Revised(o, n, sameTokens, id) && InFixtures(id, scope))
  {
    TouchingAreRevised(o, n, sameTokens, d);
    var ids := W.TouchingIds(d);
    forall id | id in ids ensures W.Parses(id) { assert Revised(o, n, sameTokens, id); }
    ScopeHits(ids, scope);
    if id :| id in ids && InFixtures(id, scope) { assert Revised(o, n, sameTokens, id); }
    if id :| Revised(o, n, sameTokens, id) && InFixtures(id, scope) {
      assert id in ids;
    }
  }

  /** Something was lost, revised or added. */
  lemma GenuineMoves(o: map<int, Str>, n: map<int, Str>, sameTokens: (Str, Str) -> bool, d: W.VerseDelta)
    requires W.IsVerseDelta(o, n, sameTokens, d)
    ensures d.genuineRevisions != [] || d.removed != [] || d.added != []
       <==> exists id {:trigger Revised(o, n, sameTokens, id)} {:trigger Came(o, n, d.restricted, id)} ::
              Revised(o, n, sameTokens, id) || Came(o, n, d.restricted, id)
  {
    CameIsAdded(o, n, sameTokens, d);
    RevisedIsTouching(o, n, sameTokens, d);
    if id :| Revised(o, n, sameTokens, id) { assert Revised(o, n, sameTokens, id) || Came(o, n, d.restricted, id); }
    if id :| Came(o, n, d.restricted, id) { assert Revised(o, n, sameTokens, id) || Came(o, n, d.restricted, id); }
  }

  /**
   * The class of a verse payload whose moved verses have references: nothing moved; a fixture's verse
   * or chapter lost or revised a verse; something else was lost, revised or added; or only typography.
   */
  lemma VerseClass(o: map<int, Str>, n: map<int, Str>, sameTokens: (Str, Str) -> bool, d: W.VerseDelta,
                   scope: Option<W.FixtureScope>)
    requires W.IsVerseDelta(o, n, sameTokens, d)
    requires forall id :: W.Reported(o, n, d.restricted, id) ==> W.Parses(id)
    ensures W.ClassifyDelta(d, scope)
         == Ok(if forall id {:trigger Moved(o, n, d.restricted, id)} :: !Moved(o, n, d.restricted, id) then W.Identical
               else if scope.Some? && exists id {:trigger Revised(o, n, sameTokens, id)} ::
                      Revised(o, n, sameTokens, id) && InFixtures(id, scope.value)
                    then W.GenuineInside
               else if exists id {:trigger Revised(o, n, sameTokens, id)} {:trigger Came(o, n, d.restricted, id)} ::
                      Revised(o, n, sameTokens, id) || Came(o, n, d.restricted, id)
                    then W.GenuineOutside
               else W.TypographyOnly)
  {
    VersesMoved(o, n, sameTokens, d);
    GenuineMoves(o, n, sameTokens, d);
    if scope.Some? { ScopeIsHit(o, n, sameTokens, d, scope.value); }
  }
}
