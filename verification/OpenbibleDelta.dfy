/** The cross-reference and topic diffs, and the outcome class of a re-pin. */
module OpenbibleDelta {
  import opened CodeUnits
  import opened Outcomes
  import opened RowDelta
  import Sorting

  datatype Edge = Edge(fromVerseId: int, toStart: int, toEnd: int)
  datatype TopicRange = TopicRange(topic: Str, startVerseId: int, endVerseId: int)
  datatype Crossing = EntersBuild | LeavesBuild
  datatype OutcomeClass = Identical | OutsideScope | ScopeMovement | LicenseStop

  const IMPORT_MIN_VOTES := 1

  predicate EdgeBefore(a: Edge, b: Edge) {
    if a.fromVerseId != b.fromVerseId then a.fromVerseId < b.fromVerseId
    else if a.toStart != b.toStart then a.toStart < b.toStart
    else a.toEnd < b.toEnd
  }

  predicate RangeBefore(a: TopicRange, b: TopicRange) {
    if a.topic != b.topic then Less(a.topic, b.topic)
    else if a.startVerseId != b.startVerseId then a.startVerseId < b.startVerseId
    else a.endVerseId < b.endVerseId
  }

  lemma EdgesSort()
    ensures Orders(EdgeBefore)
  {
  }

  lemma RangesSort()
    ensures Orders(RangeBefore)
  {
    LessSorts();
    forall a, b, c | !RangeBefore(a, b) && !RangeBefore(b, c) ensures !RangeBefore(a, c) {
      assert a.topic == b.topic || !Less(a.topic, b.topic);
      assert b.topic == c.topic || !Less(b.topic, c.topic);
      assert a.topic == b.topic || b.topic == c.topic || !Less(a.topic, c.topic);
    }
  }

  // ---- cross-references --------------------------------------------------------------------

  predicate Importable(votes: int) {
    votes >= IMPORT_MIN_VOTES
  }

  /** Whether a vote shift crosses the import threshold. */
  function Importability(c: Change<Edge, int>): Option<Crossing> {
    if Importable(c.before) == Importable(c.after) then None
    else if Importable(c.after) then Some(EntersBuild)
    else Some(LeavesBuild)
  }

  method ComputeXrefDelta(oldRows: seq<Row<Edge, int>>, newRows: seq<Row<Edge, int>>, restricted: bool)
    returns (result: Outcome<Delta<Edge, int>, DeltaError>)
    ensures result.Thrown? <==> !DistinctKeys(oldRows) || !DistinctKeys(newRows)
    ensures result.Ok? ==> IsDelta(MapOf(oldRows), MapOf(newRows), result.value) && result.value.restricted == restricted
    ensures result.Ok? ==> InKeyOrder(result.value, EdgeBefore)
  {
    EdgesSort();
    result := ComputeDelta(oldRows, newRows, restricted, EdgeBefore);
  }

  /** The edges a build would import. */
  function Imported(m: map<Edge, int>): set<Edge> {
    set k | k in m && Importable(m[k])
  }

  ghost function Crossed(delta: Delta<Edge, int>, crossing: Crossing): set<Edge> {
    set c | c in delta.changed && Importability(c) == Some(crossing) :: c.key
  }

  ghost function ImportableKeys(rows: seq<Row<Edge, int>>): set<Edge> {
    set row | row in rows && Importable(row.value) :: row.key
  }

  /** Cutting both sides down to importable edges agrees with the flags of the uncut delta. */
  lemma ImportabilityAgrees(o: map<Edge, int>, n: map<Edge, int>, delta: Delta<Edge, int>)
    requires IsDelta(o, n, delta) && !delta.restricted
    ensures Imported(n) - Imported(o) == Crossed(delta, EntersBuild) + ImportableKeys(delta.added)
    ensures Imported(o) - Imported(n) == Crossed(delta, LeavesBuild) + ImportableKeys(delta.removed)
  {
    forall k
      ensures k in Imported(n) - Imported(o) <==> k in Crossed(delta, EntersBuild) + ImportableKeys(delta.added)
      ensures k in Imported(o) - Imported(n) <==> k in Crossed(delta, LeavesBuild) + ImportableKeys(delta.removed)
    {
      EdgeAgrees(o, n, delta, k);
    }
  }

  lemma EdgeAgrees(o: map<Edge, int>, n: map<Edge, int>, delta: Delta<Edge, int>, k: Edge)
    requires IsDelta(o, n, delta) && !delta.restricted
    ensures k in Crossed(delta, EntersBuild) <==> k in o && k in n && !Importable(o[k]) && Importable(n[k])
    ensures k in Crossed(delta, LeavesBuild) <==> k in o && k in n && Importable(o[k]) && !Importable(n[k])
    ensures k in ImportableKeys(delta.added) <==> k !in o && k in n && Importable(n[k])
    ensures k in ImportableKeys(delta.removed) <==> k in o && k !in n && Importable(o[k])
  {
    if k in o && k in n && o[k] != n[k] {
      var c := Change(k, o[k], n[k]);
      assert IsChange(o, n, c) && c in delta.changed;
    }
    if k in n && k !in o {
      var row := Row(k, n[k]);
      assert IsAdded(o, n, false, row) && row in delta.added;
    }
    if k in o && k !in n {
      var row := Row(k, o[k]);
      assert IsRemoved(o, n, row) && row in delta.removed;
    }
  }

  // ---- topics -------------------------------------------------------------------------------

  datatype TopicDelta = TopicDelta(rows: Delta<TopicRange, real>, topicsAdded: seq<Str>, topicsRemoved: seq<Str>,
                                   consumedTopicsMissing: seq<Str>)

  function TopicsOf(rows: seq<Row<TopicRange, real>>): set<Str> {
    set row | row in rows :: row.key.topic
  }

  function Consumed(consumed: Option<set<Str>>, topic: Str): bool {
    consumed.Some? && topic in consumed.value
  }

  function Kept(topics: seq<Str>, consumed: Option<set<Str>>): (kept: seq<Str>)
    ensures forall t :: t in kept <==> t in topics && Consumed(consumed, t)
  {
    if topics == [] then [] else (if Consumed(consumed, topics[0]) then [topics[0]] else []) + Kept(topics[1..], consumed)
  }

  /** What the topic diff promises: its rows, its topic lists, and the order of both. */
  ghost predicate IsTopicDelta(oldRows: seq<Row<TopicRange, real>>, newRows: seq<Row<TopicRange, real>>,
                               consumed: Option<set<Str>>, d: TopicDelta)
  {
    && IsDelta(MapOf(oldRows), MapOf(newRows), d.rows)
    && (forall t :: t in d.topicsAdded <==> !d.rows.restricted && t in TopicsOf(newRows) && t !in TopicsOf(oldRows))
    && (forall t :: t in d.topicsRemoved <==> t in TopicsOf(oldRows) && t !in TopicsOf(newRows))
    && (forall t :: t in d.consumedTopicsMissing <==> t in d.topicsRemoved && Consumed(consumed, t))
    && InKeyOrder(d.rows, RangeBefore)
    && Sorting.Increasing(d.topicsAdded, Less) && Sorting.Increasing(d.topicsRemoved, Less)
    && Sorting.Increasing(d.consumedTopicsMissing, Less)
  }

  lemma {:induction false} KeptInOrder(topics: seq<Str>, consumed: Option<set<Str>>)
    requires Sorting.Increasing(topics, Less)
    ensures Sorting.Increasing(Kept(topics, consumed), Less)
  {
    if topics != [] {
      KeptInOrder(topics[1..], consumed);
      forall t | t in Kept(topics[1..], consumed) ensures Less(topics[0], t) {
        var i :| 0 <= i < |topics[1..]| && topics[1..][i] == t;
        assert topics[i + 1] == t;
      }
    }
  }

  method SortedTopics(topics: set<Str>) returns (sorted: seq<Str>)
    ensures (forall t :: t in sorted <==> t in topics) && Sorting.Increasing(sorted, Less)
  {
    var listed := Sorting.Listing(topics);
    LessSorts();
    Sorting.SortIncreasing(listed, Less);
    Sorting.SamePresence(listed, Sorting.Sort(listed, Less));
    sorted := Sorting.Sort(listed, Less);
  }

  method ComputeTopicDelta(oldRows: seq<Row<TopicRange, real>>, newRows: seq<Row<TopicRange, real>>,
                           consumed: Option<set<Str>>, restricted: bool)
    returns (result: Outcome<TopicDelta, DeltaError>)
    ensures result.Thrown? <==> !DistinctKeys(oldRows) || !DistinctKeys(newRows)
    ensures result.Ok? ==> IsTopicDelta(oldRows, newRows, consumed, result.value) && result.value.rows.restricted == restricted
  {
    RangesSort();
    var rows :- ComputeDelta(oldRows, newRows, restricted, RangeBefore);
    var added: seq<Str> := [];
    if !restricted { added := SortedTopics(TopicsOf(newRows) - TopicsOf(oldRows)); }
    var removed := SortedTopics(TopicsOf(oldRows) - TopicsOf(newRows));
    KeptInOrder(removed, consumed);
    result := Ok(TopicDelta(rows, added, removed, Kept(removed, consumed)));
  }

  // ---- the outcome class -----------------------------------------------------------------------

  function Severity(c: OutcomeClass): nat {
    match c
    case Identical => 0
    case OutsideScope => 1
    case ScopeMovement => 2
    case LicenseStop => 3
  }

  predicate AnyChangeIn<K(==), V>(changes: seq<Change<K, V>>, touches: K -> bool) {
    exists i :: 0 <= i < |changes| && touches(changes[i].key)
  }

  predicate AnyRowIn<K(==), V>(rows: seq<Row<K, V>>, touches: K -> bool) {
    exists i :: 0 <= i < |rows| && touches(rows[i].key)
  }

  predicate AnyMovementIn<K(==), V>(delta: Delta<K, V>, touches: K -> bool) {
    AnyChangeIn(delta.changed, touches) || AnyRowIn(delta.added, touches) || AnyRowIn(delta.removed, touches)
  }

  function Touches(committed: Option<set<Edge>>): Edge -> bool {
    (edge: Edge) => committed.Some? && edge in committed.value
  }

  function TouchesTopic(consumed: Option<set<Str>>): TopicRange -> bool {
    (range: TopicRange) => Consumed(consumed, range.topic)
  }

  function ClassifyXrefDelta(delta: Delta<Edge, int>, stop: bool, scopeKnown: bool, committed: Option<set<Edge>>): OutcomeClass {
    if stop then LicenseStop
    else if delta.changed == [] && delta.added == [] && delta.removed == [] then Identical
    else if scopeKnown && AnyMovementIn(delta, Touches(committed)) then ScopeMovement
    else OutsideScope
  }

  function ClassifyTopicDelta(d: TopicDelta, stop: bool, scopeKnown: bool, consumed: Option<set<Str>>): OutcomeClass {
    if stop then LicenseStop
    else if d.rows.changed == [] && d.rows.added == [] && d.rows.removed == [] && d.topicsAdded == [] && d.topicsRemoved == []
    then Identical
    else if scopeKnown && (d.consumedTopicsMissing != [] || AnyMovementIn(d.rows, TouchesTopic(consumed))) then ScopeMovement
    else OutsideScope
  }

  lemma MovementGrows<K, V>(delta: Delta<K, V>, narrow: K -> bool, wide: K -> bool)
    requires forall k :: narrow(k) ==> wide(k)
    requires AnyMovementIn(delta, narrow)
    ensures AnyMovementIn(delta, wide)
  {
    if i :| 0 <= i < |delta.changed| && narrow(delta.changed[i].key) {
      assert wide(delta.changed[i].key);
    } else if i :| 0 <= i < |delta.added| && narrow(delta.added[i].key) {
      assert wide(delta.added[i].key);
    } else {
      var i :| 0 <= i < |delta.removed| && narrow(delta.removed[i].key);
      assert wide(delta.removed[i].key);
    }
  }

  /** Committing more edges, or learning what is committed, never lowers the class. */
  lemma MoreCommittedNeverLowers(delta: Delta<Edge, int>, stop: bool, known: bool, known': bool,
                                 committed: Option<set<Edge>>, committed': Option<set<Edge>>)
    requires known ==> known'
    requires committed.Some? ==> committed'.Some? && committed.value <= committed'.value
    ensures Severity(ClassifyXrefDelta(delta, stop, known, committed))
         <= Severity(ClassifyXrefDelta(delta, stop, known', committed'))
  {
    if AnyMovementIn(delta, Touches(committed)) { MovementGrows(delta, Touches(committed), Touches(committed')); }
  }

  /** Without a licence stop the class is identical exactly when the edges are. */
  lemma IdenticalMeansSameEdges(o: map<Edge, int>, n: map<Edge, int>, delta: Delta<Edge, int>, known: bool,
                                committed: Option<set<Edge>>)
    requires IsDelta(o, n, delta) && !delta.restricted
    ensures ClassifyXrefDelta(delta, false, known, committed) == Identical <==> o == n
  {
    EmptyDeltaMeansEqual(o, n, delta);
  }

  /** A topic that comes or goes shows in the rows, so the topic lists decide no class on their own. */
  lemma TopicListsAddNothing(oldRows: seq<Row<TopicRange, real>>, newRows: seq<Row<TopicRange, real>>,
                             consumed: Option<set<Str>>, d: TopicDelta, known: bool)
    requires DistinctKeys(oldRows) && DistinctKeys(newRows) && IsTopicDelta(oldRows, newRows, consumed, d)
    ensures ClassifyTopicDelta(d, false, known, consumed) ==
      if d.rows.changed == [] && d.rows.added == [] && d.rows.removed == [] then Identical
      else if known && AnyMovementIn(d.rows, TouchesTopic(consumed)) then ScopeMovement
      else OutsideScope
  {
    SomeMember(d.topicsAdded);
    SomeMember(d.topicsRemoved);
    SomeMember(d.consumedTopicsMissing);
    forall t | t in d.topicsRemoved ensures RemovesTopic(d.rows.removed, t) { RemovedTopicRemovesRow(oldRows, newRows, consumed, d, t); }
    forall t | t in d.topicsAdded ensures d.rows.added != [] { AddedTopicAddsRow(oldRows, newRows, consumed, d, t); }
    forall t | t in d.consumedTopicsMissing ensures AnyMovementIn(d.rows, TouchesTopic(consumed)) {
      assert RemovesTopic(d.rows.removed, t);
      var i :| 0 <= i < |d.rows.removed| && d.rows.removed[i].key.topic == t;
      assert TouchesTopic(consumed)(d.rows.removed[i].key);
    }
  }

  ghost predicate RemovesTopic(rows: seq<Row<TopicRange, real>>, topic: Str) {
    exists i :: 0 <= i < |rows| && rows[i].key.topic == topic
  }

  lemma KeyHasTopic(rows: seq<Row<TopicRange, real>>, k: TopicRange)
    requires DistinctKeys(rows)
    ensures k in MapOf(rows) ==> k.topic in TopicsOf(rows)
  {
    RowsOfMap(rows);
    if k in MapOf(rows) { assert Row(k, MapOf(rows)[k]) in rows; }
  }

  lemma RemovedTopicRemovesRow(oldRows: seq<Row<TopicRange, real>>, newRows: seq<Row<TopicRange, real>>,
                               consumed: Option<set<Str>>, d: TopicDelta, topic: Str)
    requires DistinctKeys(oldRows) && DistinctKeys(newRows) && IsTopicDelta(oldRows, newRows, consumed, d)
    requires topic in d.topicsRemoved
    ensures RemovesTopic(d.rows.removed, topic)
  {
    RowsOfMap(oldRows);
    RowsOfMap(newRows);
    var row :| row in oldRows && row.key.topic == topic;
    assert row == Row(row.key, row.value);
    KeyHasTopic(newRows, row.key);
    assert IsRemoved(MapOf(oldRows), MapOf(newRows), row) && row in d.rows.removed;
  }

  lemma AddedTopicAddsRow(oldRows: seq<Row<TopicRange, real>>, newRows: seq<Row<TopicRange, real>>,
                          consumed: Option<set<Str>>, d: TopicDelta, topic: Str)
    requires DistinctKeys(oldRows) && DistinctKeys(newRows) && IsTopicDelta(oldRows, newRows, consumed, d)
    requires topic in d.topicsAdded
    ensures d.rows.added != []
  {
    RowsOfMap(oldRows);
    RowsOfMap(newRows);
    var row :| row in newRows && row.key.topic == topic;
    assert row == Row(row.key, row.value);
    KeyHasTopic(oldRows, row.key);
    assert IsAdded(MapOf(oldRows), MapOf(newRows), d.rows.restricted, row) && row in d.rows.added;
  }

  /** Subscribing to more topics, or learning what is subscribed, never lowers the class. */
  lemma MoreSubscribedNeverLowers(oldRows: seq<Row<TopicRange, real>>, newRows: seq<Row<TopicRange, real>>,
                                  consumed: Option<set<Str>>, consumed': Option<set<Str>>,
                                  d: TopicDelta, d': TopicDelta, stop: bool, known: bool, known': bool)
    requires DistinctKeys(oldRows) && DistinctKeys(newRows) && d.rows.restricted == d'.rows.restricted
    requires IsTopicDelta(oldRows, newRows, consumed, d) && IsTopicDelta(oldRows, newRows, consumed', d')
    requires known ==> known'
    requires consumed.Some? ==> consumed'.Some? && consumed.value <= consumed'.value
    ensures Severity(ClassifyTopicDelta(d, stop, known, consumed))
         <= Severity(ClassifyTopicDelta(d', stop, known', consumed'))
  {
    RangesSort();
    DeltaIsUnique(MapOf(oldRows), MapOf(newRows), d.rows, d'.rows, RangeBefore);
    TopicListsAddNothing(oldRows, newRows, consumed, d, known);
    TopicListsAddNothing(oldRows, newRows, consumed', d', known');
    if AnyMovementIn(d.rows, TouchesTopic(consumed)) {
      MovementGrows(d.rows, TouchesTopic(consumed), TouchesTopic(consumed'));
    }
  }
}
