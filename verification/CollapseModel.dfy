/**
 * What a results page is and which rows belong together: the anchor span that governs a
 * result, the section runs among the others, and the merged row of a group.
 */
module CollapseModel {
  import opened CodeUnits
  import opened Outcomes
  import Pericopes
  import Sorting

  type Section = Pericopes.Section

  datatype Verse = Verse(verseId: int, bookName: Str, chapter: int, verse: int)
  datatype Reason = Reason(name: Str, points: real, family: Str)
  datatype Hit = Hit(targetId: Str, reference: Str, excerpt: Str, score: real, reasons: seq<Reason>)
  datatype SpanInfo = SpanInfo(startVerseId: int, endVerseId: int, sourceIds: set<Str>)

  /** A reference label, before it is printed. */
  datatype Label =
    | Given(text: Str)
    | WithinChapter(first: Verse, lastVerse: int)
    | AcrossChapters(first: Verse, lastChapter: int, lastVerse: int)

  datatype Grouping = Grouping(startVerseId: int, endVerseId: int, sourceIds: seq<Str>, boundaryVotes: Option<int>)

  datatype Row = Row(targetId: Str, reference: Label, excerpt: Str, score: real, reasons: seq<Reason>,
                     verses: Option<seq<Hit>>, grouping: Option<Grouping>)

  /** The arguments of `collapseRuns`. */
  datatype Page = Page(results: seq<Hit>, verses: map<Str, Verse>, anchorSpans: map<Str, set<Str>>,
                       spanInfo: map<Str, SpanInfo>, pericopeOf: map<int, Section>)
  {
    /** The ranker names each target once. */
    ghost predicate Ranked() {
      forall i, j {:trigger Separate(i, j)} :: 0 <= i < j < |results| ==> Separate(i, j)
    }

    predicate Separate(i: nat, j: nat)
      requires i < |results| && j < |results|
    {
      results[i].targetId != results[j].targetId
    }

    predicate Known(i: nat)
      requires i < |results|
    {
      results[i].targetId in verses
    }

    function VerseAt(i: nat): Verse
      requires i < |results| && Known(i)
    {
      verses[results[i].targetId]
    }

    function SpansAt(i: nat): set<Str>
      requires i < |results|
    {
      if results[i].targetId in anchorSpans then anchorSpans[results[i].targetId] else {}
    }

    predicate Anchored(i: nat)
      requires i < |results|
    {
      SpansAt(i) != {} && Known(i)
    }

    /** How many of the first `n` results a span covers. */
    function Coverage(span: Str, n: nat): nat
      requires n <= |results|
    {
      if n == 0 then 0 else Coverage(span, n - 1) + if span in SpansAt(n - 1) then 1 else 0
    }

    predicate Beats(a: Str, b: Str) {
      var ca, cb := Coverage(a, |results|), Coverage(b, |results|);
      ca > cb || (ca == cb && Less(a, b))
    }

    /** `span` claims result `i` and beats every other claimant. */
    ghost predicate Governs(span: Str, i: nat)
      requires i < |results|
    {
      span in SpansAt(i) && forall other :: other in SpansAt(i) && other != span ==> Beats(span, other)
    }

    ghost function GoverningSpan(i: nat): (span: Str)
      requires i < |results| && Anchored(i)
      ensures Governs(span, i)
    {
      BestExists(this, SpansAt(i));
      var span :| span in SpansAt(i) && forall other :: other in SpansAt(i) && other != span ==> Beats(span, other);
      span
    }

    /** No anchor claims the result and its verse lies in a section. */
    predicate Sectioned(i: nat)
      requires i < |results|
    {
      !Anchored(i) && Known(i) && VerseAt(i).verseId in pericopeOf
    }

    function SectionAt(i: nat): Section
      requires i < |results| && Sectioned(i)
    {
      pericopeOf[VerseAt(i).verseId]
    }

    /** Results `i` and `i + 1` travel together: one section, neighbouring verse ids. */
    predicate Linked(i: int) {
      0 <= i < |results| - 1 && Sectioned(i) && Sectioned(i + 1)
      && SectionAt(i).span.startVerseId == SectionAt(i + 1).span.startVerseId
      && Adjacent(VerseAt(i).verseId, VerseAt(i + 1).verseId)
    }

    function RunStart(i: nat): (start: nat)
      requires i < |results|
      ensures start <= i
    {
      if Linked(i - 1) then RunStart(i - 1) else i
    }

    ghost function KeyAt(i: nat): GroupKey
      requires i < |results|
    {
      if Anchored(i) then Span(GoverningSpan(i))
      else if Linked(i - 1) || Linked(i) then Run(RunStart(i))
      else Alone(i)
    }

    /** The group keys of the first `n` ranks. */
    ghost function Keys(n: nat): (keys: seq<GroupKey>)
      requires n <= |results|
      ensures |keys| == n
    {
      if n == 0 then [] else Keys(n - 1) + [KeyAt(n - 1)]
    }

    /** `keys` lists the group of every rank. */
    ghost predicate Keyed(keys: seq<GroupKey>) {
      |keys| == |results| && forall i {:trigger KeyAt(i)} :: 0 <= i < |results| ==> keys[i] == KeyAt(i)
    }

    ghost function GroupAt(keys: seq<GroupKey>, i: nat): seq<Hit>
      requires |keys| == |results| && i < |keys|
    {
      Group(results, keys, keys[i], |keys|)
    }

    ghost function RowAt(keys: seq<GroupKey>, i: nat): Row
      requires Keyed(keys) && i < |keys|
    {
      GroupIsLocated(this, keys, i);
      match KeyAt(i)
      case Alone(_) => Single(results[i])
      case Run(_) => Merged(this, results[i], GroupAt(keys, i), Some(SectionGrouping(SectionAt(i))))
      case Span(span) =>
        if |GroupAt(keys, i)| == 1 then Single(results[i])
        else Merged(this, results[i], GroupAt(keys, i),
                    if span in spanInfo then Some(AnchorGrouping(spanInfo[span])) else None)
    }

    /** The rows the first `n` ranks emit. */
    ghost function Emitted(keys: seq<GroupKey>, n: nat): seq<Row>
      requires Keyed(keys) && n <= |keys|
    {
      if n == 0 then [] else Emitted(keys, n - 1) + if Leads(keys, n - 1) then [RowAt(keys, n - 1)] else []
    }
  }

  /** What binds results into one row. */
  datatype GroupKey = Alone(rank: nat) | Span(span: Str) | Run(start: nat)

  /** The first `n` results that carry `key`, in rank order. */
  ghost function Group(results: seq<Hit>, keys: seq<GroupKey>, key: GroupKey, n: nat): seq<Hit>
    requires n <= |results| == |keys|
  {
    if n == 0 then []
    else Group(results, keys, key, n - 1) + if keys[n - 1] == key then [results[n - 1]] else []
  }

  /** No better-ranked result shares the group. */
  ghost predicate Leads(keys: seq<GroupKey>, i: nat)
    requires i < |keys|
  {
    forall j :: 0 <= j < i ==> keys[j] != keys[i]
  }

  predicate Adjacent(a: int, b: int) {
    a - b == 1 || b - a == 1
  }

  lemma BeatsSeparates(p: Page, a: Str, b: Str)
    requires a != b
    ensures p.Beats(a, b) <==> !p.Beats(b, a)
  {
    LessIsTotal(a, b);
    if Less(a, b) { LessIsAsymmetric(a, b); } else { LessIsAsymmetric(b, a); }
  }

  lemma BeatsIsTransitive(p: Page, a: Str, b: Str, c: Str)
    requires p.Beats(a, b) && p.Beats(b, c)
    ensures p.Beats(a, c)
  {
    if Less(a, b) && Less(b, c) { LessIsTransitive(a, b, c); }
  }

  lemma {:induction false} BestExists(p: Page, spans: set<Str>)
    requires spans != {}
    ensures exists best :: best in spans && forall other :: other in spans && other != best ==> p.Beats(best, other)
  {
    var one :| one in spans;
    var rest := spans - {one};
    if rest == {} {
      assert forall other :: other in spans && other != one ==> other in rest;
    } else {
      BestExists(p, rest);
      var best :| best in rest && forall other :: other in rest && other != best ==> p.Beats(best, other);
      BeatsSeparates(p, one, best);
      var winner := if p.Beats(one, best) then one else best;
      forall other | other in spans && other != winner ensures p.Beats(winner, other) {
        if winner == one && other != best { BeatsIsTransitive(p, one, best, other); }
      }
    }
  }

  /** The governing span is unique, so no iteration order of the span sets can change it. */
  lemma GoverningIsUnique(p: Page, i: nat, a: Str, b: Str)
    requires i < |p.results| && p.Governs(a, i) && p.Governs(b, i)
    ensures a == b
  {
    if a != b { BeatsSeparates(p, a, b); }
  }

  lemma {:induction false} KeysList(p: Page, n: nat)
    requires n <= |p.results|
    ensures forall i {:trigger p.KeyAt(i)} :: 0 <= i < n ==> p.Keys(n)[i] == p.KeyAt(i)
  {
    if n > 0 { KeysList(p, n - 1); }
  }

  /** Merged groups hold only results whose verse is known. */
  lemma GroupIsLocated(p: Page, keys: seq<GroupKey>, i: nat)
    requires p.Keyed(keys) && i < |keys|
    ensures !p.KeyAt(i).Alone? ==> Located(p, p.GroupAt(keys, i))
  {
    GroupComesFrom(p.results, keys, keys[i], |keys|);
    GroupHolds(p.results, keys, i, |keys|);
    var group := p.GroupAt(keys, i);
    assert p.KeyAt(i) == keys[i];
    forall k | 0 <= k < |group| && !keys[i].Alone? ensures group[k].targetId in p.verses {
      assert group[k] in group;
      var j :| 0 <= j < |keys| && keys[j] == keys[i] && p.results[j] == group[k];
      assert p.KeyAt(j) == keys[i];
    }
  }

  /** Every member of a group is a result that carries its key. */
  lemma {:induction false} GroupComesFrom(results: seq<Hit>, keys: seq<GroupKey>, key: GroupKey, n: nat)
    requires n <= |results| == |keys|
    ensures forall hit :: hit in Group(results, keys, key, n) ==>
      exists j :: 0 <= j < n && keys[j] == key && results[j] == hit
  {
    if n > 0 {
      GroupComesFrom(results, keys, key, n - 1);
      forall hit | hit in Group(results, keys, key, n)
        ensures exists j :: 0 <= j < n && keys[j] == key && results[j] == hit
      {
        if hit !in Group(results, keys, key, n - 1) { assert results[n - 1] == hit; }
      }
    }
  }

  /** Every result belongs to the group of its own key. */
  lemma {:induction false} GroupHolds(results: seq<Hit>, keys: seq<GroupKey>, i: nat, n: nat)
    requires i < n <= |results| == |keys|
    ensures results[i] in Group(results, keys, keys[i], n)
  {
    if i < n - 1 { GroupHolds(results, keys, i, n - 1); }
  }

  function Single(hit: Hit): Row {
    Row(hit.targetId, Given(hit.reference), hit.excerpt, hit.score, hit.reasons, None, None)
  }

  function SectionGrouping(section: Section): Grouping {
    Grouping(section.span.startVerseId, section.span.endVerseId, [section.sourceId], Some(section.span.boundaryVotes))
  }

  ghost function AnchorGrouping(info: SpanInfo): Grouping {
    Grouping(info.startVerseId, info.endVerseId, Sorting.Ascending(info.sourceIds, Less), None)
  }

  // ---- the merged row -------------------------------------------------------

  predicate Located(p: Page, group: seq<Hit>) {
    group != [] && forall k :: 0 <= k < |group| ==> group[k].targetId in p.verses
  }

  /** Hits in canonical verse order; hits without a verse never reach the comparison. */
  function EarlierVerse(p: Page): (Hit, Hit) -> bool {
    (a: Hit, b: Hit) => VerseIdOf(p, a) < VerseIdOf(p, b)
  }

  function VerseIdOf(p: Page, hit: Hit): int {
    if hit.targetId in p.verses then p.verses[hit.targetId].verseId else 0
  }

  function Canonical(p: Page, group: seq<Hit>): (c: seq<Hit>)
    requires Located(p, group)
    ensures Located(p, c)
  {
    var c := Sorting.Sort(group, EarlierVerse(p));
    Sorting.SamePresence(group, c);
    assert forall k :: 0 <= k < |c| ==> c[k] in group;
    c
  }

  function GroupLabel(p: Page, canonical: seq<Hit>): Label
    requires Located(p, canonical)
  {
    var first := p.verses[canonical[0].targetId];
    var final := p.verses[canonical[|canonical| - 1].targetId];
    if first.verseId == final.verseId then Given(canonical[0].reference)
    else if first.chapter == final.chapter then WithinChapter(first, final.verse)
    else AcrossChapters(first, final.chapter, final.verse)
  }

  /** Excerpts joined with a space. */
  function JoinedExcerpts(hits: seq<Hit>): Str {
    if hits == [] then []
    else if |hits| == 1 then hits[0].excerpt
    else JoinedExcerpts(hits[..|hits| - 1]) + [0x20] + hits[|hits| - 1].excerpt
  }

  function MaxScore(hits: seq<Hit>): (m: real)
    requires hits != []
    ensures forall k :: 0 <= k < |hits| ==> hits[k].score <= m
    ensures exists k :: 0 <= k < |hits| && hits[k].score == m
  {
    var last := hits[|hits| - 1].score;
    if |hits| == 1 then last
    else
      var m := MaxScore(hits[..|hits| - 1]);
      if m < last then last else m
  }

  /** Every reason of a group, member after member. */
  function AllReasons(hits: seq<Hit>): seq<Reason> {
    if hits == [] then [] else AllReasons(hits[..|hits| - 1]) + hits[|hits| - 1].reasons
  }

  /** The `byLabel` map, with the insertion order a `Map` keeps. */
  datatype ByLabel = ByLabel(order: seq<Str>, best: map<Str, Reason>) {
    /** Keeps the stronger reason of a label, the earlier one on a tie. */
    function Admit(reason: Reason): ByLabel {
      if reason.name !in best then ByLabel(order + [reason.name], best[reason.name := reason])
      else if reason.points > best[reason.name].points then ByLabel(order, best[reason.name := reason])
      else this
    }

    ghost predicate Valid() {
      && Sorting.Distinct(order)
      && (forall k :: 0 <= k < |order| ==> order[k] in best && best[order[k]].name == order[k])
    }

    function Values(): seq<Reason>
      requires Valid()
    {
      seq(|order|, k requires 0 <= k < |order| => best[order[k]])
    }
  }

  function Grouped(reasons: seq<Reason>): (byLabel: ByLabel)
    ensures byLabel.Valid()
    ensures forall l :: l in byLabel.best <==> l in byLabel.order
  {
    if reasons == [] then ByLabel([], map[])
    else Grouped(reasons[..|reasons| - 1]).Admit(reasons[|reasons| - 1])
  }

  predicate Outranks(a: Reason, b: Reason) {
    if a.points != b.points then a.points > b.points else Less(a.name, b.name)
  }

  function MergedReasons(reasons: seq<Reason>): seq<Reason> {
    Sorting.Sort(Grouped(reasons).Values(), Outranks)
  }

  ghost function Merged(p: Page, head: Hit, group: seq<Hit>, grouping: Option<Grouping>): Row
    requires Located(p, group)
  {
    var canonical := Canonical(p, group);
    Row(head.targetId, GroupLabel(p, canonical), JoinedExcerpts(canonical), MaxScore(group),
        MergedReasons(AllReasons(group)),
        if grouping.Some? then Some(canonical) else None, grouping)
  }
}
