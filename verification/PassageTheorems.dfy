/**
 * What an output row of a collapsed page shows, said of the page itself: which results share a row,
 * and the row's verses, excerpt, label, score, chips and grouping.
 */
module PassageTheorems {
  import opened CodeUnits
  import opened CollapseModel
  import opened CollapseTheorems
  import opened Outcomes
  import opened Texts
  import Runs = CollapseRuns
  import Sorting

  // ---- who belongs together -------------------------------------------------------------------

  /** The results an anchor span covers. */
  ghost function Covered(p: Page, span: Str): set<nat> {
    set j | 0 <= j < |p.results| && p.results[j].targetId in p.anchorSpans
            && span in p.anchorSpans[p.results[j].targetId]
  }

  ghost function CoveredBelow(p: Page, span: Str, n: nat): set<nat> {
    set j | 0 <= j < n && j < |p.results| && p.results[j].targetId in p.anchorSpans
            && span in p.anchorSpans[p.results[j].targetId]
  }

  lemma {:induction false} CoverageCounts(p: Page, span: Str, n: nat)
    requires n <= |p.results|
    ensures p.Coverage(span, n) == |CoveredBelow(p, span, n)|
  {
    if n == 0 {
      assert CoveredBelow(p, span, 0) == {};
    } else {
      CoverageCounts(p, span, n - 1);
      if span in p.SpansAt(n - 1) {
        assert CoveredBelow(p, span, n) == CoveredBelow(p, span, n - 1) + {n - 1};
      } else {
        assert CoveredBelow(p, span, n) == CoveredBelow(p, span, n - 1);
      }
    }
  }

  lemma CoverageIsCount(p: Page, span: Str)
    ensures p.Coverage(span, |p.results|) == |Covered(p, span)|
  {
    CoverageCounts(p, span, |p.results|);
    assert CoveredBelow(p, span, |p.results|) == Covered(p, span);
  }

  /**
   * A result travels under an anchor span exactly when its verse is known and some span covers it;
   * the span covers more of the page than any other span of that result, or as much and is first.
   */
  lemma AnchorGoverns(p: Page, keys: seq<GroupKey>, i: nat)
    requires p.Keyed(keys) && i < |keys|
    ensures var t := p.results[i].targetId;
      keys[i].Span? <==> t in p.verses && t in p.anchorSpans && p.anchorSpans[t] != {}
    ensures keys[i].Span? ==> keys[i].span in p.anchorSpans[p.results[i].targetId]
    ensures keys[i].Span? ==> forall other :: other in p.anchorSpans[p.results[i].targetId] && other != keys[i].span ==>
      || |Covered(p, keys[i].span)| > |Covered(p, other)|
      || (|Covered(p, keys[i].span)| == |Covered(p, other)| && Less(keys[i].span, other))
  {
    assert p.KeyAt(i) == keys[i];
    if keys[i].Span? {
      CoverageIsCount(p, keys[i].span);
      forall other | other in p.anchorSpans[p.results[i].targetId] && other != keys[i].span
        ensures |Covered(p, keys[i].span)| > |Covered(p, other)|
             || (|Covered(p, keys[i].span)| == |Covered(p, other)| && Less(keys[i].span, other))
      {
        CoverageIsCount(p, other);
        assert p.Beats(keys[i].span, other);
      }
    }
  }

  /** Result `k` has a known verse in a section and no anchor span. */
  predicate InSection(p: Page, k: int) {
    && 0 <= k < |p.results|
    && (var t := p.results[k].targetId;
        && t in p.verses && p.verses[t].verseId in p.pericopeOf
        && !(t in p.anchorSpans && p.anchorSpans[t] != {}))
  }

  /** Two results in the same section, one verse id apart. */
  predicate Touch(p: Page, a: int, b: int) {
    && InSection(p, a) && InSection(p, b)
    && (var v, w := p.verses[p.results[a].targetId].verseId, p.verses[p.results[b].targetId].verseId;
        && p.pericopeOf[v].span.startVerseId == p.pericopeOf[w].span.startVerseId
        && (v == w + 1 || w == v + 1))
  }

  lemma TouchIsLinked(p: Page, k: int)
    ensures p.Linked(k) <==> Touch(p, k, k + 1)
  {
  }

  lemma {:induction false} LinkedBack(p: Page, a: nat, b: nat)
    requires a <= b < |p.results| && forall k :: a <= k < b ==> p.Linked(k)
    ensures p.RunStart(a) == p.RunStart(b)
  {
    if a < b { LinkedBack(p, a, b - 1); }
  }

  /**
   * Two results share a section row exactly when every two rank neighbours from the one to the other
   * are in the same section, one verse id apart and free of anchor spans.
   */
  lemma SectionRowsAreChains(p: Page, keys: seq<GroupKey>, a: nat, b: nat)
    requires p.Keyed(keys) && a < b < |keys|
    ensures keys[a].Run? && keys[a] == keys[b] <==>
      forall k {:trigger Touch(p, k, k + 1)} :: a <= k < b ==> Touch(p, k, k + 1)
  {
    assert p.KeyAt(a) == keys[a] && p.KeyAt(b) == keys[b];
    if keys[a].Run? && keys[a] == keys[b] {
      RunIsMaximalBlock(p, keys, a);
      RunIsMaximalBlock(p, keys, b);
      forall k {:trigger Touch(p, k, k + 1)} | a <= k < b ensures Touch(p, k, k + 1) {
        assert p.Linked(k);
        TouchIsLinked(p, k);
      }
    }
    if forall k {:trigger Touch(p, k, k + 1)} :: a <= k < b ==> Touch(p, k, k + 1) {
      forall k | a <= k < b ensures p.Linked(k) {
        assert Touch(p, k, k + 1);
        TouchIsLinked(p, k);
      }
      LinkedBack(p, a, b);
      assert p.Linked(a) && p.Linked(b - 1);
    }
  }

  /** Results that share a row are governed by one anchor span, or linked from rank to rank. */
  lemma SameRow(p: Page, keys: seq<GroupKey>, a: nat, b: nat)
    requires p.Keyed(keys) && a < b < |keys| && keys[a] == keys[b]
    ensures keys[a].Span? || forall k {:trigger Touch(p, k, k + 1)} :: a <= k < b ==> Touch(p, k, k + 1)
  {
    assert p.KeyAt(a) == keys[a] && p.KeyAt(b) == keys[b];
    if keys[a].Run? { SectionRowsAreChains(p, keys, a, b); }
  }

  // ---- the ranks of a group ------------------------------------------------------------------------

  /** The first `n` ranks that carry the key, best first. */
  ghost function RanksOf(keys: seq<GroupKey>, key: GroupKey, n: nat): (ranks: seq<int>)
    requires n <= |keys|
    ensures forall j :: j in ranks <==> 0 <= j < n && keys[j] == key
    ensures forall k, l :: 0 <= k < l < |ranks| ==> ranks[k] < ranks[l]
  {
    if n == 0 then []
    else
      var before := RanksOf(keys, key, n - 1);
      assert forall k :: 0 <= k < |before| ==> before[k] in before;
      if keys[n - 1] == key then before + [n - 1] else before
  }

  const NOBODY: Hit := Hit([], [], [], 0.0, [])

  function HitAt(results: seq<Hit>): int -> Hit {
    (r: int) => if 0 <= r < |results| then results[r] else NOBODY
  }

  lemma {:induction false} GroupIsRanks(results: seq<Hit>, keys: seq<GroupKey>, key: GroupKey, n: nat)
    requires n <= |results| == |keys|
    ensures Group(results, keys, key, n) == Sorting.Mapped(HitAt(results), RanksOf(keys, key, n))
  {
    if n > 0 {
      GroupIsRanks(results, keys, key, n - 1);
      MappedGrows(results, RanksOf(keys, key, n - 1), n - 1);
    }
  }

  lemma MappedGrows(results: seq<Hit>, ranks: seq<int>, r: nat)
    requires r < |results|
    ensures Sorting.Mapped(HitAt(results), ranks + [r]) == Sorting.Mapped(HitAt(results), ranks) + [results[r]]
  {
  }

  /** By verse id, then by rank. */
  function EarlierRank(p: Page): (int, int) -> bool {
    (a: int, b: int) => RankBefore(p, a, b)
  }

  predicate RankBefore(p: Page, a: int, b: int) {
    var v, w := VerseIdOf(p, HitAt(p.results)(a)), VerseIdOf(p, HitAt(p.results)(b));
    v < w || (v == w && a < b)
  }

  lemma RankOrder(p: Page)
    ensures Sorting.StrictWeak(EarlierRank(p))
  {
  }

  lemma RanksMap(p: Page, ranks: seq<int>)
    requires forall k, l :: 0 <= k < l < |ranks| ==> ranks[k] < ranks[l]
    ensures Sorting.Sort(Sorting.Mapped(HitAt(p.results), ranks), EarlierVerse(p))
         == Sorting.Mapped(HitAt(p.results), Sorting.Sort(ranks, EarlierRank(p)))
  {
    var f, lt, before := HitAt(p.results), EarlierVerse(p), EarlierRank(p);
    forall i, j | 0 <= i < j < |ranks| ensures lt(f(ranks[j]), f(ranks[i])) <==> before(ranks[j], ranks[i]) {
      assert ranks[i] < ranks[j];
    }
    Sorting.SortMaps(f, ranks, lt, before);
  }

  lemma RanksIncrease(p: Page, ranks: seq<int>)
    requires forall k, l :: 0 <= k < l < |ranks| ==> ranks[k] < ranks[l]
    ensures Sorting.Increasing(Sorting.Sort(ranks, EarlierRank(p)), EarlierRank(p))
  {
    RankOrder(p);
    forall x, y | x in ranks && y in ranks && x != y ensures EarlierRank(p)(x, y) || EarlierRank(p)(y, x) {
      assert RankBefore(p, x, y) || RankBefore(p, y, x);
    }
    assert Sorting.Distinct(ranks);
    Sorting.SortIncreasing(ranks, EarlierRank(p));
  }

  // ---- the members of a row ---------------------------------------------------------------------------

  /** Another result shares the row of rank `i`. */
  ghost predicate Shared(keys: seq<GroupKey>, i: nat)
    requires i < |keys|
  {
    exists j :: 0 <= j < |keys| && j != i && keys[j] == keys[i]
  }

  /** `order` lists the ranks that share the row of rank `i`, by verse id and then by rank. */
  ghost predicate Members(p: Page, keys: seq<GroupKey>, i: nat, order: seq<int>)
    requires |keys| == |p.results| && i < |keys|
  {
    && (forall r :: r in order <==> 0 <= r < |keys| && keys[r] == keys[i])
    && (forall k :: 0 <= k < |order| ==> 0 <= order[k] < |p.results| && p.results[order[k]].targetId in p.verses)
    && (forall k, l :: 0 <= k < l < |order| ==>
          var v, w := p.verses[p.results[order[k]].targetId].verseId, p.verses[p.results[order[l]].targetId].verseId;
          v < w || (v == w && order[k] < order[l]))
  }

  lemma GroupSize(keys: seq<GroupKey>, i: nat)
    requires i < |keys|
    ensures |RanksOf(keys, keys[i], |keys|)| >= 1
    ensures Shared(keys, i) <==> |RanksOf(keys, keys[i], |keys|)| >= 2
  {
    var ranks := RanksOf(keys, keys[i], |keys|);
    assert i in ranks;
    if Shared(keys, i) {
      var j :| 0 <= j < |keys| && j != i && keys[j] == keys[i];
      assert j in ranks;
      var a :| 0 <= a < |ranks| && ranks[a] == i;
      var b :| 0 <= b < |ranks| && ranks[b] == j;
    }
    if |ranks| >= 2 {
      assert ranks[0] in ranks && ranks[1] in ranks && ranks[0] < ranks[1];
      assert keys[ranks[if ranks[0] == i then 1 else 0]] == keys[i];
    }
  }

  /** The grouping a shared row carries, before it is spelled out. */
  ghost function GroupingAt(p: Page, keys: seq<GroupKey>, i: nat): Option<Grouping>
    requires p.Keyed(keys) && i < |keys|
  {
    assert p.KeyAt(i) == keys[i];
    match keys[i]
    case Alone(_) => None
    case Run(_) => Some(SectionGrouping(p.SectionAt(i)))
    case Span(span) => if span in p.spanInfo then Some(AnchorGrouping(p.spanInfo[span])) else None
  }

  lemma SharedIsMany(p: Page, keys: seq<GroupKey>, i: nat)
    requires p.Keyed(keys) && i < |keys|
    ensures |p.GroupAt(keys, i)| >= 1 && (Shared(keys, i) <==> |p.GroupAt(keys, i)| >= 2)
  {
    GroupSize(keys, i);
    GroupIsRanks(p.results, keys, keys[i], |keys|);
  }

  lemma SharedIsNotAlone(p: Page, keys: seq<GroupKey>, i: nat)
    requires p.Keyed(keys) && i < |keys| && Shared(keys, i)
    ensures !keys[i].Alone? && Located(p, p.GroupAt(keys, i))
  {
    assert p.KeyAt(i) == keys[i];
    var j :| 0 <= j < |keys| && j != i && keys[j] == keys[i];
    assert p.KeyAt(j) == keys[j];
    GroupIsLocated(p, keys, i);
  }

  lemma ManyAreMerged(p: Page, keys: seq<GroupKey>, i: nat)
    requires p.Keyed(keys) && i < |keys| && !keys[i].Alone? && |p.GroupAt(keys, i)| >= 2
    requires Located(p, p.GroupAt(keys, i))
    ensures p.RowAt(keys, i) == Merged(p, p.results[i], p.GroupAt(keys, i), GroupingAt(p, keys, i))
  {
    assert p.KeyAt(i) == keys[i];
  }

  lemma SharedRowIsMerged(p: Page, keys: seq<GroupKey>, i: nat)
    requires p.Keyed(keys) && i < |keys| && Shared(keys, i)
    ensures !keys[i].Alone? && Located(p, p.GroupAt(keys, i))
    ensures p.RowAt(keys, i) == Merged(p, p.results[i], p.GroupAt(keys, i), GroupingAt(p, keys, i))
  {
    SharedIsNotAlone(p, keys, i);
    SharedIsMany(p, keys, i);
    ManyAreMerged(p, keys, i);
  }

  /** A result that shares its row with no other is shown as it came. */
  lemma LoneRowIsTheHit(p: Page, keys: seq<GroupKey>, i: nat)
    requires p.Keyed(keys) && i < |keys| && !Shared(keys, i)
    ensures var hit := p.results[i];
      p.RowAt(keys, i) == Row(hit.targetId, Given(hit.reference), hit.excerpt, hit.score, hit.reasons, None, None)
  {
    assert p.KeyAt(i) == keys[i];
    SharedIsMany(p, keys, i);
    GroupHolds(p.results, keys, i, |keys|);
    if keys[i].Run? { RunIsMaximalBlock(p, keys, i); }
  }

  lemma CanonicalIsRanks(p: Page, group: seq<Hit>, ranks: seq<int>) returns (order: seq<int>)
    requires Located(p, group) && group == Sorting.Mapped(HitAt(p.results), ranks)
    requires forall k, l :: 0 <= k < l < |ranks| ==> ranks[k] < ranks[l]
    ensures Canonical(p, group) == Sorting.Mapped(HitAt(p.results), order)
    ensures |order| == |group| && forall r :: r in order <==> r in ranks
    ensures Sorting.Increasing(order, EarlierRank(p))
  {
    order := Sorting.Sort(ranks, EarlierRank(p));
    RanksMap(p, ranks);
    RanksIncrease(p, ranks);
    Sorting.SamePresence(ranks, order);
  }

  /** The canonical list of a shared row lists its members by rank. */
  lemma CanonicalOrder(p: Page, keys: seq<GroupKey>, i: nat) returns (order: seq<int>)
    requires p.Keyed(keys) && i < |keys| && Shared(keys, i)
    ensures Located(p, p.GroupAt(keys, i)) && |order| >= 2
    ensures Canonical(p, p.GroupAt(keys, i)) == Sorting.Mapped(HitAt(p.results), order)
    ensures Members(p, keys, i, order)
  {
    SharedIsNotAlone(p, keys, i);
    SharedIsMany(p, keys, i);
    GroupIsRanks(p.results, keys, keys[i], |keys|);
    order := CanonicalIsRanks(p, p.GroupAt(keys, i), RanksOf(keys, keys[i], |keys|));
    OrderIsMembers(p, keys, i, order);
  }

  lemma OrderIsMembers(p: Page, keys: seq<GroupKey>, i: nat, order: seq<int>)
    requires p.Keyed(keys) && i < |keys| && !keys[i].Alone?
    requires forall r :: r in order <==> 0 <= r < |keys| && keys[r] == keys[i]
    requires Sorting.Increasing(order, EarlierRank(p))
    ensures Members(p, keys, i, order)
  {
    assert p.KeyAt(i) == keys[i];
    forall k | 0 <= k < |order| ensures 0 <= order[k] < |p.results| && p.results[order[k]].targetId in p.verses {
      assert order[k] in order;
      assert p.KeyAt(order[k]) == keys[order[k]];
    }
    forall k, l | 0 <= k < l < |order| ensures RankBefore(p, order[k], order[l]) {
      assert EarlierRank(p)(order[k], order[l]);
    }
  }

  /** A merged row, given the ranks of its canonical list. */
  lemma MergedShows(p: Page, head: Hit, group: seq<Hit>, grouping: Option<Grouping>, order: seq<int>, row: Row)
    returns (texts: seq<Str>)
    requires Located(p, group) && row == Merged(p, head, group, grouping)
    requires Canonical(p, group) == Sorting.Mapped(HitAt(p.results), order)
    requires forall k :: 0 <= k < |order| ==> 0 <= order[k] < |p.results|
    ensures |texts| == |order| && forall k :: 0 <= k < |order| ==> texts[k] == p.results[order[k]].excerpt
    ensures row.excerpt == JoinWith(texts, 0x20)
    ensures row.targetId == head.targetId && row.grouping == grouping
    ensures row.verses.Some? <==> grouping.Some?
    ensures row.verses.Some? ==>
      |row.verses.value| == |order| && forall k :: 0 <= k < |order| ==> row.verses.value[k] == p.results[order[k]]
  {
    var canonical := Canonical(p, group);
    texts := Excerpts(canonical);
    ExcerptJoinsEveryVerse(canonical);
  }

  lemma BestScoreIsShown(results: seq<Hit>, group: seq<Hit>, canonical: seq<Hit>, order: seq<int>)
    requires group != [] && multiset(group) == multiset(canonical)
    requires |canonical| == |order|
    requires forall k :: 0 <= k < |order| ==> 0 <= order[k] < |results| && canonical[k] == results[order[k]]
    ensures forall k :: 0 <= k < |order| ==> results[order[k]].score <= MaxScore(group)
    ensures exists k :: 0 <= k < |order| && results[order[k]].score == MaxScore(group)
  {
    Sorting.SamePresence(group, canonical);
    forall k | 0 <= k < |order| ensures results[order[k]].score <= MaxScore(group) {
      assert canonical[k] in canonical;
    }
    var m :| 0 <= m < |group| && group[m].score == MaxScore(group);
    assert group[m] in canonical;
    var k :| 0 <= k < |canonical| && canonical[k] == group[m];
    assert results[order[k]].score == MaxScore(group);
  }

  lemma MembersShow(p: Page, keys: seq<GroupKey>, i: nat, group: seq<Hit>, order: seq<int>, row: Row)
    returns (texts: seq<Str>)
    requires p.Keyed(keys) && i < |keys| && Located(p, group) && Members(p, keys, i, order)
    requires Canonical(p, group) == Sorting.Mapped(HitAt(p.results), order)
    requires row == Merged(p, p.results[i], group, GroupingAt(p, keys, i))
    ensures |texts| == |order| && forall k :: 0 <= k < |order| ==> texts[k] == p.results[order[k]].excerpt
    ensures row.excerpt == JoinWith(texts, 0x20) && row.targetId == p.results[i].targetId
    ensures row.verses.Some? <==> keys[i].Run? || (keys[i].Span? && keys[i].span in p.spanInfo)
    ensures row.verses.Some? ==>
      |row.verses.value| == |order| && forall k :: 0 <= k < |order| ==> row.verses.value[k] == p.results[order[k]]
    ensures forall k :: 0 <= k < |order| ==> p.results[order[k]].score <= row.score
    ensures exists k :: 0 <= k < |order| && p.results[order[k]].score == row.score
  {
    texts := MergedShows(p, p.results[i], group, GroupingAt(p, keys, i), order, row);
    BestScoreIsShown(p.results, group, Canonical(p, group), order);
  }

  /**
   * What a row shared by several results shows: their texts in verse order with one space between,
   * the results themselves in that order if the row explains its grouping, the target of the best
   * ranked, and the best score.
   */
  lemma SharedRowShowsItsMembers(p: Page, keys: seq<GroupKey>, i: nat) returns (order: seq<int>, texts: seq<Str>)
    requires p.Keyed(keys) && i < |keys| && Shared(keys, i)
    ensures Members(p, keys, i, order) && |order| == |texts| >= 2
    ensures forall k :: 0 <= k < |order| ==> texts[k] == p.results[order[k]].excerpt
    ensures p.RowAt(keys, i).excerpt == JoinWith(texts, 0x20)
    ensures p.RowAt(keys, i).targetId == p.results[i].targetId
    ensures p.RowAt(keys, i).verses.Some? <==> keys[i].Run? || (keys[i].Span? && keys[i].span in p.spanInfo)
    ensures p.RowAt(keys, i).verses.Some? ==>
      && |p.RowAt(keys, i).verses.value| == |order|
      && forall k :: 0 <= k < |order| ==> p.RowAt(keys, i).verses.value[k] == p.results[order[k]]
    ensures forall k :: 0 <= k < |order| ==> p.results[order[k]].score <= p.RowAt(keys, i).score
    ensures exists k :: 0 <= k < |order| && p.results[order[k]].score == p.RowAt(keys, i).score
  {
    order := CanonicalOrder(p, keys, i);
    SharedRowIsMerged(p, keys, i);
    texts := MembersShow(p, keys, i, p.GroupAt(keys, i), order, p.RowAt(keys, i));
  }

  /** Distinct verses come strictly one after the other. */
  lemma MembersAscend(p: Page, keys: seq<GroupKey>, i: nat, order: seq<int>)
    requires |keys| == |p.results| && i < |keys| && Members(p, keys, i, order)
    requires DistinctVerses(p)
    ensures forall k, l :: 0 <= k < l < |order| ==>
      p.verses[p.results[order[k]].targetId].verseId < p.verses[p.results[order[l]].targetId].verseId
  {
    forall k, l | 0 <= k < l < |order|
      ensures p.verses[p.results[order[k]].targetId].verseId < p.verses[p.results[order[l]].targetId].verseId
    {
      var a, b := order[k], order[l];
      if a < b { assert p.Known(a) && p.Known(b); } else { assert p.Known(b) && p.Known(a); }
    }
  }

  /** The label names the first and the last of these results, and the chapter of the last only if it differs. */
  predicate NamesEnds(p: Page, name: Label, order: seq<int>)
    requires order != []
    requires 0 <= order[0] < |p.results| && p.results[order[0]].targetId in p.verses
    requires 0 <= order[|order| - 1] < |p.results| && p.results[order[|order| - 1]].targetId in p.verses
  {
    var first, last := p.verses[p.results[order[0]].targetId], p.verses[p.results[order[|order| - 1]].targetId];
    name == (if first.verseId == last.verseId then Given(p.results[order[0]].reference)
             else if first.chapter == last.chapter then WithinChapter(first, last.verse)
             else AcrossChapters(first, last.chapter, last.verse))
  }

  lemma MergedIsLabelled(p: Page, canonical: seq<Hit>, order: seq<int>)
    requires Located(p, canonical) && |canonical| == |order|
    requires forall k :: 0 <= k < |order| ==> 0 <= order[k] < |p.results| && canonical[k] == p.results[order[k]]
    ensures p.results[order[0]].targetId in p.verses && p.results[order[|order| - 1]].targetId in p.verses
    ensures NamesEnds(p, GroupLabel(p, canonical), order)
  {
  }

  /** The label of a shared row names its first and its last member in verse order. */
  lemma LabelNamesTheEnds(p: Page, keys: seq<GroupKey>, i: nat, order: seq<int>)
    requires p.Keyed(keys) && i < |keys| && Shared(keys, i) && Members(p, keys, i, order)
    ensures |order| >= 2 && NamesEnds(p, p.RowAt(keys, i).reference, order)
  {
    var other := CanonicalOrder(p, keys, i);
    MembersAreUnique(p, keys, i, order, other);
    SharedRowIsMerged(p, keys, i);
    MergedIsLabelled(p, Canonical(p, p.GroupAt(keys, i)), order);
  }

  /** Every member lies between the two ends. */
  lemma MembersLieBetween(p: Page, keys: seq<GroupKey>, i: nat, order: seq<int>, k: nat)
    requires |keys| == |p.results| && i < |keys| && Members(p, keys, i, order) && k < |order|
    ensures p.verses[p.results[order[0]].targetId].verseId <= p.verses[p.results[order[k]].targetId].verseId
         <= p.verses[p.results[order[|order| - 1]].targetId].verseId
  {
  }

  lemma MembersAreUnique(p: Page, keys: seq<GroupKey>, i: nat, order: seq<int>, other: seq<int>)
    requires |keys| == |p.results| && i < |keys| && Members(p, keys, i, order) && Members(p, keys, i, other)
    ensures order == other
  {
    MembersIncrease(p, keys, i, order);
    MembersIncrease(p, keys, i, other);
    RankOrder(p);
    Sorting.IncreasingUnique(order, other, EarlierRank(p));
  }

  lemma MembersIncrease(p: Page, keys: seq<GroupKey>, i: nat, order: seq<int>)
    requires |keys| == |p.results| && i < |keys| && Members(p, keys, i, order)
    ensures Sorting.Increasing(order, EarlierRank(p))
  {
  }

  // ---- groupings ------------------------------------------------------------------------------------

  /** A section row cites the bounds, the votes and the one source of the section its results lie in. */
  lemma SectionRowCitesTheSection(p: Page, keys: seq<GroupKey>, i: nat)
    requires p.Keyed(keys) && i < |keys| && keys[i].Run?
    ensures p.results[i].targetId in p.verses && p.verses[p.results[i].targetId].verseId in p.pericopeOf
    ensures var section := p.pericopeOf[p.verses[p.results[i].targetId].verseId];
      p.RowAt(keys, i).grouping
      == Some(Grouping(section.span.startVerseId, section.span.endVerseId, [section.sourceId],
                       Some(section.span.boundaryVotes)))
  {
    assert p.KeyAt(i) == keys[i];
  }

  /**
   * A shared anchor row cites the bounds of the governing span and every source of it once, in
   * ascending order; without provenance it cites nothing.
   */
  lemma AnchorRowCitesTheSpan(p: Page, keys: seq<GroupKey>, i: nat)
    requires p.Keyed(keys) && i < |keys| && keys[i].Span? && Shared(keys, i)
    ensures p.RowAt(keys, i).grouping.Some? <==> keys[i].span in p.spanInfo
    ensures p.RowAt(keys, i).grouping.Some? ==>
      var cited, info := p.RowAt(keys, i).grouping.value, p.spanInfo[keys[i].span];
      && cited.startVerseId == info.startVerseId && cited.endVerseId == info.endVerseId && cited.boundaryVotes.None?
      && (forall id :: id in cited.sourceIds <==> id in info.sourceIds)
      && (forall a, b :: 0 <= a < b < |cited.sourceIds| ==> Less(cited.sourceIds[a], cited.sourceIds[b]))
  {
    SharedRowIsMerged(p, keys, i);
    if keys[i].span in p.spanInfo {
      var ids := p.spanInfo[keys[i].span].sourceIds;
      LessSorts();
      Sorting.SortedListing(Sorting.Enumerated(ids), ids, Less);
    }
  }

  // ---- chips ----------------------------------------------------------------------------------------

  function Offset(hits: seq<Hit>, h: nat): nat
    requires h <= |hits|
  {
    |AllReasons(hits[..h])|
  }

  lemma ReasonsStep(hits: seq<Hit>, h: nat)
    requires h < |hits|
    ensures AllReasons(hits[..h + 1]) == AllReasons(hits[..h]) + hits[h].reasons
    ensures Offset(hits, h + 1) == Offset(hits, h) + |hits[h].reasons|
  {
    assert hits[..h + 1][..h] == hits[..h];
  }

  lemma {:induction false} ReasonsGrow(hits: seq<Hit>, h: nat, n: nat)
    requires h <= n <= |hits|
    ensures AllReasons(hits[..h]) <= AllReasons(hits[..n])
  {
    if h < n {
      ReasonsGrow(hits, h, n - 1);
      ReasonsStep(hits, n - 1);
    }
  }

  /** Reason `k` of member `h` has a place in the list of all reasons. */
  lemma ReasonIsListed(hits: seq<Hit>, h: nat, k: nat)
    requires h < |hits| && k < |hits[h].reasons|
    ensures Offset(hits, h) + k < |AllReasons(hits)| && AllReasons(hits)[Offset(hits, h) + k] == hits[h].reasons[k]
  {
    ReasonsStep(hits, h);
    ReasonsGrow(hits, h + 1, |hits|);
    assert hits[..|hits|] == hits;
    assert AllReasons(hits[..h + 1])[Offset(hits, h) + k] == hits[h].reasons[k];
  }

  lemma {:induction false} ReasonComesFrom(hits: seq<Hit>, n: nat, f: nat) returns (h: nat, k: nat)
    requires n <= |hits| && f < Offset(hits, n)
    ensures h < n && k < |hits[h].reasons| && f == Offset(hits, h) + k
  {
    ReasonsStep(hits, n - 1);
    if f < Offset(hits, n - 1) {
      h, k := ReasonComesFrom(hits, n - 1, f);
    } else {
      h, k := n - 1, f - Offset(hits, n - 1);
    }
  }

  /** Places follow the order of members, then of their reasons. */
  lemma PlacesAreOrdered(hits: seq<Hit>, h: nat, k: nat, h': nat, k': nat)
    requires h < |hits| && k < |hits[h].reasons| && h' < |hits| && k' < |hits[h'].reasons|
    requires h < h' || (h == h' && k < k')
    ensures Offset(hits, h) + k < Offset(hits, h') + k'
  {
    if h < h' {
      ReasonsStep(hits, h);
      ReasonsGrow(hits, h + 1, h');
    }
  }

  /** Reason `k` of the result at rank `r` belongs to a member of the row of rank `i`. */
  ghost predicate Offers(p: Page, keys: seq<GroupKey>, i: nat, r: int, k: int)
    requires |keys| == |p.results| && i < |keys|
  {
    0 <= r < |keys| && keys[r] == keys[i] && 0 <= k < |p.results[r].reasons|
  }

  /** The strongest reason the row's members offer under its label, and the first one that strong. */
  ghost predicate IsStrongest(p: Page, keys: seq<GroupKey>, i: nat, r: int, k: int)
    requires |keys| == |p.results| && i < |keys|
  {
    && Offers(p, keys, i, r, k)
    && forall r', k' {:trigger Offers(p, keys, i, r', k')} :: Offers(p, keys, i, r', k') ==>
         var mine, other := p.results[r].reasons[k], p.results[r'].reasons[k'];
         other.name == mine.name ==>
           other.points <= mine.points && (r' < r || (r' == r && k' < k) ==> other.points < mine.points)
  }

  /** Every reason on the list has a chip of its label that is at least as strong. */
  lemma ListIsCovered(reasons: seq<Reason>, chips: seq<Reason>, f: nat) returns (c: nat)
    requires f < |reasons| && OnePerLabel(reasons, chips)
    ensures c < |chips| && chips[c].name == reasons[f].name && reasons[f].points <= chips[c].points
  {
    assert Labelled(chips, reasons[f].name);
    var chip :| chip in chips && chip.name == reasons[f].name;
    assert StrongestOfLabel(reasons, chip);
    var k :| 0 <= k < |reasons| && reasons[k] == chip && StrongestAt(reasons, k);
    c :| 0 <= c < |chips| && chips[c] == chip;
  }

  /** The members of the row of rank `i`, best ranked first. */
  ghost predicate Gathers(p: Page, keys: seq<GroupKey>, i: nat, hits: seq<Hit>)
    requires |keys| == |p.results| && i < |keys|
  {
    hits == Sorting.Mapped(HitAt(p.results), RanksOf(keys, keys[i], |keys|))
  }

  lemma RankIsMember(p: Page, keys: seq<GroupKey>, i: nat, hits: seq<Hit>, r: int) returns (h: nat)
    requires |keys| == |p.results| && i < |keys| && Gathers(p, keys, i, hits)
    requires 0 <= r < |keys| && keys[r] == keys[i]
    ensures h < |hits| && hits[h] == p.results[r]
    ensures h < |RanksOf(keys, keys[i], |keys|)| && RanksOf(keys, keys[i], |keys|)[h] == r
  {
    var ranks := RanksOf(keys, keys[i], |keys|);
    assert r in ranks;
    h :| 0 <= h < |ranks| && ranks[h] == r;
  }

  lemma MemberIsRank(p: Page, keys: seq<GroupKey>, i: nat, hits: seq<Hit>, h: nat) returns (r: int)
    requires |keys| == |p.results| && i < |keys| && Gathers(p, keys, i, hits) && h < |hits|
    ensures 0 <= r < |keys| && keys[r] == keys[i] && hits[h] == p.results[r]
    ensures h < |RanksOf(keys, keys[i], |keys|)| && RanksOf(keys, keys[i], |keys|)[h] == r
  {
    r := RanksOf(keys, keys[i], |keys|)[h];
    assert r in RanksOf(keys, keys[i], |keys|);
  }

  lemma ChipsOfRow(p: Page, keys: seq<GroupKey>, i: nat) returns (hits: seq<Hit>)
    requires p.Keyed(keys) && i < |keys| && Shared(keys, i)
    ensures Gathers(p, keys, i, hits) && OnePerLabel(AllReasons(hits), p.RowAt(keys, i).reasons)
    ensures Sorting.Increasing(p.RowAt(keys, i).reasons, Outranks)
  {
    hits := p.GroupAt(keys, i);
    GroupIsRanks(p.results, keys, keys[i], |keys|);
    SharedRowIsMerged(p, keys, i);
    ReasonsExplainTheGroup(AllReasons(hits));
  }

  lemma MemberIsCovered(p: Page, keys: seq<GroupKey>, i: nat, hits: seq<Hit>, chips: seq<Reason>, r: int, k: int)
    returns (c: nat)
    requires |keys| == |p.results| && i < |keys| && Gathers(p, keys, i, hits) && Offers(p, keys, i, r, k)
    requires OnePerLabel(AllReasons(hits), chips)
    ensures var mine := p.results[r].reasons[k];
      c < |chips| && chips[c].name == mine.name && mine.points <= chips[c].points
  {
    var h := RankIsMember(p, keys, i, hits, r);
    ReasonIsListed(hits, h, k);
    c := ListIsCovered(AllReasons(hits), chips, Offset(hits, h) + k);
  }

  /** Every reason of every member has a chip of its label that is at least as strong. */
  lemma ChipsCoverEveryMember(p: Page, keys: seq<GroupKey>, i: nat, r: int, k: int) returns (c: nat)
    requires p.Keyed(keys) && i < |keys| && Shared(keys, i) && Offers(p, keys, i, r, k)
    ensures var chips, mine := p.RowAt(keys, i).reasons, p.results[r].reasons[k];
      c < |chips| && chips[c].name == mine.name && mine.points <= chips[c].points
  {
    var hits := ChipsOfRow(p, keys, i);
    c := MemberIsCovered(p, keys, i, hits, p.RowAt(keys, i).reasons, r, k);
  }

  lemma ListPlace(reasons: seq<Reason>, chips: seq<Reason>, c: nat) returns (f: nat)
    requires c < |chips| && OnePerLabel(reasons, chips)
    ensures f < |reasons| && reasons[f] == chips[c] && StrongestAt(reasons, f)
  {
    assert chips[c] in chips && StrongestOfLabel(reasons, chips[c]);
    f :| 0 <= f < |reasons| && reasons[f] == chips[c] && StrongestAt(reasons, f);
  }

  lemma ChipHasPlace(hits: seq<Hit>, chips: seq<Reason>, c: nat) returns (h: nat, k: nat)
    requires c < |chips| && OnePerLabel(AllReasons(hits), chips)
    ensures h < |hits| && k < |hits[h].reasons| && hits[h].reasons[k] == chips[c]
    ensures Offset(hits, h) + k < |AllReasons(hits)| && StrongestAt(AllReasons(hits), Offset(hits, h) + k)
  {
    var f := ListPlace(AllReasons(hits), chips, c);
    assert hits[..|hits|] == hits;
    h, k := ReasonComesFrom(hits, |hits|, f);
    ReasonIsListed(hits, h, k);
  }

  lemma RanksFollow(keys: seq<GroupKey>, key: GroupKey, a: nat, b: nat)
    requires a < |RanksOf(keys, key, |keys|)| && b < |RanksOf(keys, key, |keys|)|
    ensures RanksOf(keys, key, |keys|)[a] < RanksOf(keys, key, |keys|)[b] ==> a < b
    ensures RanksOf(keys, key, |keys|)[a] == RanksOf(keys, key, |keys|)[b] ==> a == b
  {
  }

  /** What is strongest on the list is strongest among the members. */
  lemma StrongestOfMembers(p: Page, keys: seq<GroupKey>, i: nat, hits: seq<Hit>, h: nat, k: nat,
                           r: int, r': int, k': int)
    requires |keys| == |p.results| && i < |keys| && Gathers(p, keys, i, hits)
    requires h < |hits| && k < |hits[h].reasons| && Offset(hits, h) + k < |AllReasons(hits)|
    requires StrongestAt(AllReasons(hits), Offset(hits, h) + k)
    requires 0 <= r < |keys| && hits[h] == p.results[r]
    requires h < |RanksOf(keys, keys[i], |keys|)| && RanksOf(keys, keys[i], |keys|)[h] == r
    requires Offers(p, keys, i, r', k') && p.results[r'].reasons[k'].name == p.results[r].reasons[k].name
    ensures p.results[r'].reasons[k'].points <= p.results[r].reasons[k].points
    ensures r' < r || (r' == r && k' < k) ==> p.results[r'].reasons[k'].points < p.results[r].reasons[k].points
  {
    var h' := RankIsMember(p, keys, i, hits, r');
    ReasonIsListed(hits, h, k);
    ReasonIsListed(hits, h', k');
    if r' < r || (r' == r && k' < k) {
      RanksFollow(keys, keys[i], h', h);
      PlacesAreOrdered(hits, h', k', h, k);
    }
  }

  lemma ChipComesFromMember(p: Page, keys: seq<GroupKey>, i: nat, hits: seq<Hit>, chips: seq<Reason>, c: nat)
    returns (r: int, k: nat)
    requires |keys| == |p.results| && i < |keys| && Gathers(p, keys, i, hits)
    requires c < |chips| && OnePerLabel(AllReasons(hits), chips)
    ensures IsStrongest(p, keys, i, r, k) && chips[c] == p.results[r].reasons[k]
  {
    var h;
    h, k := ChipHasPlace(hits, chips, c);
    r := MemberIsRank(p, keys, i, hits, h);
    forall r', k' {:trigger Offers(p, keys, i, r', k')}
      | Offers(p, keys, i, r', k') && p.results[r'].reasons[k'].name == p.results[r].reasons[k].name
      ensures p.results[r'].reasons[k'].points <= p.results[r].reasons[k].points
      ensures r' < r || (r' == r && k' < k) ==> p.results[r'].reasons[k'].points < p.results[r].reasons[k].points
    {
      StrongestOfMembers(p, keys, i, hits, h, k, r, r', k');
    }
  }

  /** Every chip is the reason of a member: the strongest under its label, the best ranked of those. */
  lemma ChipsComeFromMembers(p: Page, keys: seq<GroupKey>, i: nat, c: nat) returns (r: int, k: nat)
    requires p.Keyed(keys) && i < |keys| && Shared(keys, i) && c < |p.RowAt(keys, i).reasons|
    ensures IsStrongest(p, keys, i, r, k) && p.RowAt(keys, i).reasons[c] == p.results[r].reasons[k]
  {
    var hits := ChipsOfRow(p, keys, i);
    r, k := ChipComesFromMember(p, keys, i, hits, p.RowAt(keys, i).reasons, c);
  }

  /** Chips come strongest first, and by label on a tie; so no label comes twice. */
  lemma ChipsAreOrdered(p: Page, keys: seq<GroupKey>, i: nat, a: nat, b: nat)
    requires p.Keyed(keys) && i < |keys| && Shared(keys, i) && a < b < |p.RowAt(keys, i).reasons|
    ensures var chips := p.RowAt(keys, i).reasons;
      && (chips[a].points > chips[b].points
          || (chips[a].points == chips[b].points && Less(chips[a].name, chips[b].name)))
      && chips[a].name != chips[b].name
  {
    var hits := ChipsOfRow(p, keys, i);
    var chips := p.RowAt(keys, i).reasons;
    assert chips[a] in chips && chips[b] in chips && Outranks(chips[a], chips[b]);
    LessIsStrict(chips[a].name);
  }

  // ---- the page -------------------------------------------------------------------------------------

  /**
   * The page lists one row per group, in the order of the best ranked members: its ranks are exactly
   * those that share their row with no better ranked result.
   */
  lemma {:induction false} PageListsLeaders(p: Page, keys: seq<GroupKey>, n: nat) returns (ranks: seq<nat>)
    requires p.Keyed(keys) && n <= |keys|
    ensures |p.Emitted(keys, n)| == |ranks|
    ensures forall k :: 0 <= k < |ranks| ==> ranks[k] < n && p.Emitted(keys, n)[k] == p.RowAt(keys, ranks[k])
    ensures forall k, l :: 0 <= k < l < |ranks| ==> ranks[k] < ranks[l]
    ensures forall r :: r in ranks <==> 0 <= r < n && forall j :: 0 <= j < r ==> keys[j] != keys[r]
  {
    RowsFollowLeaders(p, keys, n);
    ranks := Leaders(keys, n);
    LeadersAreAll(keys, n);
  }

  lemma {:induction false} LeadersAreAll(keys: seq<GroupKey>, n: nat)
    requires n <= |keys|
    ensures forall r :: r in Leaders(keys, n) <==> 0 <= r < n && forall j :: 0 <= j < r ==> keys[j] != keys[r]
  {
    if n > 0 {
      LeadersAreAll(keys, n - 1);
      var leaders := Leaders(keys, n - 1);
      forall r ensures r in Leaders(keys, n) <==> 0 <= r < n && forall j :: 0 <= j < r ==> keys[j] != keys[r] {
        assert r in Leaders(keys, n) <==> r in leaders || (r == n - 1 && Leads(keys, n - 1));
      }
    }
  }
}
