/** The verse payload diff and the outcome class of a re-pin. */
module WebDelta {
  import opened CodeUnits
  import opened Outcomes
  import opened RowDelta
  import opened VerseId
  import Sorting

  type Verse = Row<int, Str>
  type Revision = Change<int, Str>

  datatype VerseDelta = VerseDelta(restricted: bool, compared: nat, added: seq<Verse>, removed: seq<Verse>,
                                   typographyOnly: seq<Revision>, genuineRevisions: seq<Revision>)
  {
    function AsDelta(): Delta<int, Str> {
      Delta(restricted, compared, added, removed, typographyOnly + genuineRevisions)
    }
  }

  datatype WebError = DuplicateVerse | NoSuchVerse

  predicate Parses(verseId: int) {
    ParseVerseId(verseId).Ok?
  }

  /** The verse shows up in the delta, so its reference has to be formatted. */
  predicate Reported(o: map<int, Str>, n: map<int, Str>, restricted: bool, id: int) {
    || (id !in o && id in n && !restricted)
    || (id in o && id !in n)
    || (id in o && id in n && o[id] != n[id])
  }

  ghost predicate KeysAscend(rows: seq<Verse>) {
    forall i, j :: 0 <= i < j < |rows| ==> rows[i].key < rows[j].key
  }

  ghost predicate ChangesAscend(changes: seq<Revision>) {
    forall i, j :: 0 <= i < j < |changes| ==> changes[i].key < changes[j].key
  }

  // ---- the walk over the sorted ids -----------------------------------------------------------

  ghost predicate RowsSoFar(o: map<int, Str>, n: map<int, Str>, met: seq<int>, d: VerseDelta) {
    && (forall row :: row in d.added <==> IsAdded(o, n, d.restricted, row) && row.key in met)
    && (forall row :: row in d.removed <==> IsRemoved(o, n, row) && row.key in met)
    && KeysAscend(d.added) && KeysAscend(d.removed)
  }

  ghost predicate ChangesSoFar(o: map<int, Str>, n: map<int, Str>, sameTokens: (Str, Str) -> bool, met: seq<int>, d: VerseDelta) {
    && (forall c :: c in d.typographyOnly <==> IsChange(o, n, c) && c.key in met && sameTokens(c.before, c.after))
    && (forall c :: c in d.genuineRevisions <==> IsChange(o, n, c) && c.key in met && !sameTokens(c.before, c.after))
    && ChangesAscend(d.typographyOnly) && ChangesAscend(d.genuineRevisions)
  }

  function Shared(o: map<int, Str>, n: map<int, Str>, met: seq<int>): set<int> {
    set id | id in met && id in o && id in n
  }

  /** One verse id of the walk. */
  function Walk(o: map<int, Str>, n: map<int, Str>, sameTokens: (Str, Str) -> bool, d: VerseDelta, id: int): VerseDelta
    requires id in o || id in n
  {
    if id !in o then if d.restricted then d else d.(added := d.added + [Row(id, n[id])])
    else if id !in n then d.(removed := d.removed + [Row(id, o[id])])
    else if o[id] == n[id] then d.(compared := d.compared + 1)
    else
      var change := Change(id, o[id], n[id]);
      if sameTokens(o[id], n[id]) then d.(compared := d.compared + 1, typographyOnly := d.typographyOnly + [change])
      else d.(compared := d.compared + 1, genuineRevisions := d.genuineRevisions + [change])
  }

  lemma AppendAscends(rows: seq<Verse>, row: Verse, met: seq<int>)
    requires KeysAscend(rows) && forall r :: r in rows ==> r.key in met
    requires forall k :: k in met ==> k < row.key
    ensures KeysAscend(rows + [row])
  {
    forall i | 0 <= i < |rows| ensures rows[i].key < row.key { assert rows[i] in rows; }
  }

  lemma AppendChangeAscends(changes: seq<Revision>, c: Revision, met: seq<int>)
    requires ChangesAscend(changes) && forall r :: r in changes ==> r.key in met
    requires forall k :: k in met ==> k < c.key
    ensures ChangesAscend(changes + [c])
  {
    forall i | 0 <= i < |changes| ensures changes[i].key < c.key { assert changes[i] in changes; }
  }

  lemma WalkRows(o: map<int, Str>, n: map<int, Str>, sameTokens: (Str, Str) -> bool, met: seq<int>, d: VerseDelta, id: int)
    requires (id in o || id in n) && RowsSoFar(o, n, met, d) && forall k :: k in met ==> k < id
    ensures RowsSoFar(o, n, met + [id], Walk(o, n, sameTokens, d, id))
  {
    if id in n && id !in o { AppendAscends(d.added, Row(id, n[id]), met); }
    if id in o && id !in n { AppendAscends(d.removed, Row(id, o[id]), met); }
  }

  lemma WalkChanges(o: map<int, Str>, n: map<int, Str>, sameTokens: (Str, Str) -> bool, met: seq<int>, d: VerseDelta, id: int)
    requires (id in o || id in n) && ChangesSoFar(o, n, sameTokens, met, d) && forall k :: k in met ==> k < id
    ensures ChangesSoFar(o, n, sameTokens, met + [id], Walk(o, n, sameTokens, d, id))
  {
    if id in o && id in n {
      AppendChangeAscends(d.typographyOnly, Change(id, o[id], n[id]), met);
      AppendChangeAscends(d.genuineRevisions, Change(id, o[id], n[id]), met);
    }
  }

  lemma WalkCounts(o: map<int, Str>, n: map<int, Str>, met: seq<int>, id: int)
    requires id !in met
    ensures |Shared(o, n, met + [id])| == |Shared(o, n, met)| + if id in o && id in n then 1 else 0
  {
    assert Shared(o, n, met + [id]) == Shared(o, n, met) + if id in o && id in n then {id} else {};
  }

  /** Both payloads' verse ids, ascending and without repetition. */
  method SortedIds(o: map<int, Str>, n: map<int, Str>) returns (ids: seq<int>)
    ensures forall i, j :: 0 <= i < j < |ids| ==> ids[i] < ids[j]
    ensures AllMet(o, n, ids)
  {
    var listed := Sorting.Listing(o.Keys + n.Keys);
    Sorting.SortIncreasing(listed, Sorting.Below);
    Sorting.SamePresence(listed, Sorting.Sort(listed, Sorting.Below));
    ids := Sorting.Sort(listed, Sorting.Below);
    forall i, j | 0 <= i < j < |ids| ensures ids[i] < ids[j] { assert Sorting.Below(ids[i], ids[j]); }
  }

  /** What a full walk promises. */
  ghost predicate IsVerseDelta(o: map<int, Str>, n: map<int, Str>, sameTokens: (Str, Str) -> bool, d: VerseDelta) {
    && IsDelta(o, n, d.AsDelta())
    && (forall c :: c in d.typographyOnly ==> sameTokens(c.before, c.after))
    && (forall c :: c in d.genuineRevisions ==> !sameTokens(c.before, c.after))
    && KeysAscend(d.added) && KeysAscend(d.removed) && ChangesAscend(d.typographyOnly) && ChangesAscend(d.genuineRevisions)
  }

  ghost predicate AllMet(o: map<int, Str>, n: map<int, Str>, ids: seq<int>) {
    (forall id :: id in ids ==> id in o || id in n) && (forall id :: id in o ==> id in ids) && (forall id :: id in n ==> id in ids)
  }

  lemma MetWhenKnown(o: map<int, Str>, n: map<int, Str>, ids: seq<int>, id: int)
    requires AllMet(o, n, ids)
    ensures id in ids <==> id in o || id in n
  {
  }

  lemma SharedAll(o: map<int, Str>, n: map<int, Str>, ids: seq<int>)
    requires AllMet(o, n, ids)
    ensures Shared(o, n, ids) == o.Keys * n.Keys
  {
    forall id ensures id in Shared(o, n, ids) <==> id in o.Keys * n.Keys { MetWhenKnown(o, n, ids, id); }
  }

  lemma RowsComplete(o: map<int, Str>, n: map<int, Str>, ids: seq<int>, d: VerseDelta)
    requires AllMet(o, n, ids) && RowsSoFar(o, n, ids, d)
    ensures forall row :: row in d.added <==> IsAdded(o, n, d.restricted, row)
    ensures forall row :: row in d.removed <==> IsRemoved(o, n, row)
  {
    forall row
      ensures row in d.added <==> IsAdded(o, n, d.restricted, row)
      ensures row in d.removed <==> IsRemoved(o, n, row)
    {
      MetWhenKnown(o, n, ids, row.key);
    }
  }

  lemma ChangesComplete(o: map<int, Str>, n: map<int, Str>, sameTokens: (Str, Str) -> bool, ids: seq<int>, d: VerseDelta)
    requires AllMet(o, n, ids) && ChangesSoFar(o, n, sameTokens, ids, d)
    ensures forall c :: c in d.typographyOnly + d.genuineRevisions <==> IsChange(o, n, c)
  {
    forall c ensures c in d.typographyOnly + d.genuineRevisions <==> IsChange(o, n, c) {
      MetWhenKnown(o, n, ids, c.key);
    }
  }

  lemma FullWalk(o: map<int, Str>, n: map<int, Str>, sameTokens: (Str, Str) -> bool, ids: seq<int>, d: VerseDelta)
    requires AllMet(o, n, ids)
    requires RowsSoFar(o, n, ids, d) && ChangesSoFar(o, n, sameTokens, ids, d) && d.compared == |Shared(o, n, ids)|
    ensures IsVerseDelta(o, n, sameTokens, d)
  {
    SharedAll(o, n, ids);
    RowsComplete(o, n, ids, d);
    ChangesComplete(o, n, sameTokens, ids, d);
  }

  method WalkIds(o: map<int, Str>, n: map<int, Str>, sameTokens: (Str, Str) -> bool, restricted: bool, ids: seq<int>)
    returns (result: Outcome<VerseDelta, WebError>)
    requires forall i, j :: 0 <= i < j < |ids| ==> ids[i] < ids[j]
    requires AllMet(o, n, ids)
    ensures result.Thrown? <==> exists id :: Reported(o, n, restricted, id) && !Parses(id)
    ensures result.Thrown? ==> result.error == NoSuchVerse
    ensures result.Ok? ==> result.value.restricted == restricted && IsVerseDelta(o, n, sameTokens, result.value)
  {
    var d := VerseDelta(restricted, 0, [], [], [], []);
    assert Shared(o, n, []) == {};
    for i := 0 to |ids|
      invariant d.restricted == restricted && d.compared == |Shared(o, n, ids[..i])|
      invariant RowsSoFar(o, n, ids[..i], d) && ChangesSoFar(o, n, sameTokens, ids[..i], d)
      invariant forall id :: id in ids[..i] && Reported(o, n, restricted, id) ==> Parses(id)
    {
      var id := ids[i];
      assert id in ids && ids[..i + 1] == ids[..i] + [id];
      if Reported(o, n, restricted, id) && !Parses(id) { return Thrown(NoSuchVerse); }
      WalkRows(o, n, sameTokens, ids[..i], d, id);
      WalkChanges(o, n, sameTokens, ids[..i], d, id);
      WalkCounts(o, n, ids[..i], id);
      d := Walk(o, n, sameTokens, d, id);
    }
    assert ids[..|ids|] == ids;
    FullWalk(o, n, sameTokens, ids, d);
    result := Ok(d);
  }

  /** A repeated verse or an unformattable reference throws; otherwise every difference is reported once. */
  method ComputeVerseDelta(oldVerses: seq<Verse>, newVerses: seq<Verse>, sameTokens: (Str, Str) -> bool, restricted: bool)
    returns (result: Outcome<VerseDelta, WebError>)
    ensures result == Thrown(DuplicateVerse) <==> !DistinctKeys(oldVerses) || !DistinctKeys(newVerses)
    ensures result == Thrown(NoSuchVerse) <==>
      && DistinctKeys(oldVerses) && DistinctKeys(newVerses)
      && exists id :: Reported(MapOf(oldVerses), MapOf(newVerses), restricted, id) && !Parses(id)
    ensures result.Ok? ==>
      && result.value.restricted == restricted
      && IsVerseDelta(MapOf(oldVerses), MapOf(newVerses), sameTokens, result.value)
  {
    var o := ToMap(oldVerses);
    var n := ToMap(newVerses);
    KeysOfMap(oldVerses);
    KeysOfMap(newVerses);
    if |o| != |oldVerses| || |n| != |newVerses| { return Thrown(DuplicateVerse); }
    var ids := SortedIds(o, n);
    result := WalkIds(o, n, sameTokens, restricted, ids);
  }

  /** An unrestricted verse delta applied to the old payload gives the new one. */
  lemma VerseDeltaIsPatch(o: map<int, Str>, n: map<int, Str>, sameTokens: (Str, Str) -> bool, d: VerseDelta)
    requires IsVerseDelta(o, n, sameTokens, d) && !d.restricted
    ensures Patched(o, d.AsDelta()) == n
  {
    DeltaIsPatch(o, n, d.AsDelta());
  }

  // ---- the outcome class -------------------------------------------------------------------------

  datatype FixtureScope = FixtureScope(verses: set<int>, chapters: set<(int, int)>)
  datatype OutcomeClass = Identical | TypographyOnly | GenuineOutside | GenuineInside

  function Severity(c: OutcomeClass): nat {
    match c
    case Identical => 0
    case TypographyOnly => 1
    case GenuineOutside => 2
    case GenuineInside => 3
  }

  function RefInScope(verseId: int, scope: FixtureScope): Outcome<bool, RangeError> {
    if verseId in scope.verses then Ok(true)
    else
      var location :- ParseVerseId(verseId);
      Ok((location.bookId, location.chapter) in scope.chapters)
  }

  /** `filter(...).length > 0` over the ids; it throws at the first id that does not parse. */
  function AnyInScope(ids: seq<int>, scope: FixtureScope): Outcome<bool, RangeError> {
    if ids == [] then Ok(false)
    else
      var first :- RefInScope(ids[0], scope);
      var rest :- AnyInScope(ids[1..], scope);
      Ok(first || rest)
  }

  /** The ids of revisions and removals, the differences that can touch an existing fixture. */
  function TouchingIds(d: VerseDelta): seq<int> {
    seq(|d.genuineRevisions|, i requires 0 <= i < |d.genuineRevisions| => d.genuineRevisions[i].key)
    + seq(|d.removed|, i requires 0 <= i < |d.removed| => d.removed[i].key)
  }

  function ClassifyDelta(d: VerseDelta, scope: Option<FixtureScope>): Outcome<OutcomeClass, RangeError> {
    var genuine := d.genuineRevisions != [] || d.removed != [] || d.added != [];
    if !genuine && d.typographyOnly == [] then Ok(Identical)
    else
      var hit :- if scope.None? then Ok(false) else AnyInScope(TouchingIds(d), scope.value);
      Ok(if hit then GenuineInside else if genuine then GenuineOutside else TypographyOnly)
  }

  /** The scope `narrow` names nothing that `wide` does not; no scope is the narrowest. */
  predicate Narrower(narrow: Option<FixtureScope>, wide: Option<FixtureScope>) {
    narrow.Some? ==> wide.Some? && narrow.value.verses <= wide.value.verses && narrow.value.chapters <= wide.value.chapters
  }

  lemma {:induction false} HitsGrow(ids: seq<int>, narrow: FixtureScope, wide: FixtureScope)
    requires Narrower(Some(narrow), Some(wide)) && AnyInScope(ids, narrow).Ok?
    ensures AnyInScope(ids, wide).Ok? && (AnyInScope(ids, narrow).value ==> AnyInScope(ids, wide).value)
  {
    if ids != [] { HitsGrow(ids[1..], narrow, wide); }
  }

  lemma {:induction false} ParsedIdsClassify(ids: seq<int>, scope: FixtureScope)
    requires forall id :: id in ids ==> Parses(id)
    ensures AnyInScope(ids, scope).Ok?
  {
    if ids != [] {
      assert ids[0] in ids;
      ParsedIdsClassify(ids[1..], scope);
    }
  }

  /** A delta whose verses parse, as every computed one does, is always classified. */
  lemma ComputedDeltasClassify(o: map<int, Str>, n: map<int, Str>, sameTokens: (Str, Str) -> bool, d: VerseDelta,
                               scope: Option<FixtureScope>)
    requires IsVerseDelta(o, n, sameTokens, d)
    requires forall id :: Reported(o, n, d.restricted, id) ==> Parses(id)
    ensures ClassifyDelta(d, scope).Ok?
  {
    var ids := TouchingIds(d);
    forall k | 0 <= k < |ids| ensures Parses(ids[k]) { TouchingIdParses(o, n, sameTokens, d, k); }
    if scope.Some? { ParsedIdsClassify(ids, scope.value); }
  }

  lemma RevisionIsReported(o: map<int, Str>, n: map<int, Str>, sameTokens: (Str, Str) -> bool, d: VerseDelta,
                           c: Revision)
    requires IsVerseDelta(o, n, sameTokens, d) && c in d.genuineRevisions
    ensures Reported(o, n, d.restricted, c.key)
  {
    assert c in d.AsDelta().changed;
    assert IsChange(o, n, c);
  }

  lemma RemovalIsReported(o: map<int, Str>, n: map<int, Str>, sameTokens: (Str, Str) -> bool, d: VerseDelta,
                          row: Verse)
    requires IsVerseDelta(o, n, sameTokens, d) && row in d.removed
    ensures Reported(o, n, d.restricted, row.key)
  {
    assert row in d.AsDelta().removed;
    assert IsRemoved(o, n, row);
  }

  lemma {:induction false} TouchingIdParses(o: map<int, Str>, n: map<int, Str>, sameTokens: (Str, Str) -> bool,
                                            d: VerseDelta, k: nat)
    requires IsVerseDelta(o, n, sameTokens, d) && k < |TouchingIds(d)|
    requires forall id :: Reported(o, n, d.restricted, id) ==> Parses(id)
    ensures Parses(TouchingIds(d)[k])
  {
    if k < |d.genuineRevisions| {
      RevisionIsReported(o, n, sameTokens, d, d.genuineRevisions[k]);
    } else {
      RemovalIsReported(o, n, sameTokens, d, d.removed[k - |d.genuineRevisions|]);
    }
  }

  /** Enlarging the fixture scope never lowers the outcome class. */
  lemma WiderScopeNeverLowers(d: VerseDelta, narrow: Option<FixtureScope>, wide: Option<FixtureScope>)
    requires Narrower(narrow, wide) && ClassifyDelta(d, narrow).Ok? && ClassifyDelta(d, wide).Ok?
    ensures Severity(ClassifyDelta(d, narrow).value) <= Severity(ClassifyDelta(d, wide).value)
  {
    if narrow.Some? && AnyInScope(TouchingIds(d), narrow.value).Ok? {
      HitsGrow(TouchingIds(d), narrow.value, wide.value);
    }
  }

  /** The class is identical exactly when the payloads are. */
  lemma IdenticalMeansEqual(o: map<int, Str>, n: map<int, Str>, sameTokens: (Str, Str) -> bool, d: VerseDelta,
                            scope: Option<FixtureScope>)
    requires IsVerseDelta(o, n, sameTokens, d) && !d.restricted
    ensures ClassifyDelta(d, scope) == Ok(Identical) <==> o == n
  {
    EmptyDeltaMeansEqual(o, n, d.AsDelta());
    assert d.AsDelta().changed == [] <==> d.typographyOnly == [] && d.genuineRevisions == [];
  }
}
