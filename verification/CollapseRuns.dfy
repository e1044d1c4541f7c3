/**
 * `collapseRuns` step by step: count the spans, let each result choose its governing span,
 * detect section runs, then emit one row per group in rank order.
 */
module CollapseRuns {
  import opened CodeUnits
  import opened Outcomes
  import opened CollapseModel
  import Sorting

  /** `map.get(key) ?? 0`. */
  function Counted(counts: map<Str, nat>, span: Str): nat {
    if span in counts then counts[span] else 0
  }

  /** The bucket of a span, empty when it was never opened. */
  function Bucket(members: map<Str, seq<Hit>>, span: Str): seq<Hit> {
    if span in members then members[span] else []
  }

  ghost predicate CountHolds(p: Page, counts: map<Str, nat>, span: Str, n: nat)
    requires n <= |p.results|
  {
    Counted(counts, span) == p.Coverage(span, n)
  }

  ghost predicate CountsCoverage(p: Page, counts: map<Str, nat>, n: nat)
    requires n <= |p.results|
  {
    forall s {:trigger CountHolds(p, counts, s, n)} :: CountHolds(p, counts, s, n)
  }

  method CountSpans(p: Page) returns (counts: map<Str, nat>)
    ensures CountsCoverage(p, counts, |p.results|)
  {
    counts := map[];
    for i := 0 to |p.results|
      invariant CountsCoverage(p, counts, i)
    {
      ghost var before := counts;
      counts := CountOne(p.SpansAt(i), counts);
      ghost var n := i + 1;
      forall s ensures CountHolds(p, counts, s, n) {
        assert CountHolds(p, before, s, i);
      }
    }
  }

  method CountOne(spans: set<Str>, counts: map<Str, nat>) returns (counts': map<Str, nat>)
    ensures forall s :: Counted(counts', s) == Counted(counts, s) + if s in spans then 1 else 0
  {
    counts' := counts;
    var rest := spans;
    while rest != {}
      invariant rest <= spans
      invariant forall s :: Counted(counts', s) == Counted(counts, s) + if s in spans && s !in rest then 1 else 0
      decreases rest
    {
      var span :| span in rest;
      counts' := counts'[span := Counted(counts', span) + 1];
      rest := rest - {span};
    }
  }

  /** The span of result `i` that the loop over a set's members settles on. */
  method ChooseSpan(p: Page, counts: map<Str, nat>, i: nat) returns (span: Str)
    requires i < |p.results| && p.Anchored(i)
    requires CountsCoverage(p, counts, |p.results|)
    ensures span == p.GoverningSpan(i)
  {
    var rest := p.SpansAt(i);
    var chosen: Option<Str> := None;
    while rest != {}
      invariant rest <= p.SpansAt(i)
      invariant chosen.None? ==> rest == p.SpansAt(i)
      invariant chosen.Some? ==> chosen.value in p.SpansAt(i) - rest
      invariant chosen.Some? ==>
        forall s :: s in p.SpansAt(i) - rest && s != chosen.value ==> p.Beats(chosen.value, s)
      decreases rest
    {
      var s :| s in rest;
      assert CountHolds(p, counts, s, |p.results|);
      assert chosen.Some? ==> CountHolds(p, counts, chosen.value, |p.results|);
      if chosen.None? || Counted(counts, s) > Counted(counts, chosen.value)
         || (Counted(counts, s) == Counted(counts, chosen.value) && Less(s, chosen.value))
      {
        if chosen.Some? {
          forall t | t in p.SpansAt(i) - rest && t != chosen.value ensures p.Beats(s, t) {
            BeatsIsTransitive(p, s, chosen.value, t);
          }
        }
        chosen := Some(s);
      } else {
        BeatsSeparates(p, s, chosen.value);
      }
      rest := rest - {s};
    }
    span := chosen.value;
    GoverningIsUnique(p, i, span, p.GoverningSpan(i));
  }

  /** The governing span of result `i`, if any anchor claims it. */
  method SpanAt(p: Page, counts: map<Str, nat>, ghost keys: seq<GroupKey>, i: nat) returns (span: Option<Str>)
    requires p.Keyed(keys) && i < |p.results|
    requires CountsCoverage(p, counts, |p.results|)
    ensures span.Some? <==> keys[i].Span?
    ensures span.Some? ==> keys[i] == Span(span.value)
  {
    assert keys[i] == p.KeyAt(i);
    if !p.Anchored(i) { return None; }
    var chosen := ChooseSpan(p, counts, i);
    span := Some(chosen);
  }

  ghost predicate SpanKnown(results: seq<Hit>, keys: seq<GroupKey>, i: nat, governing: map<Str, Str>)
    requires i < |results| == |keys|
  {
    var id := results[i].targetId;
    (id in governing <==> keys[i].Span?) && (id in governing ==> governing[id] == keys[i].span)
  }

  ghost predicate Absent<T>(results: seq<Hit>, i: nat, table: map<Str, T>)
    requires i < |results|
  {
    results[i].targetId !in table
  }

  /** The first `n` results and no others know their governing span. */
  ghost predicate SpansSettled(results: seq<Hit>, keys: seq<GroupKey>, n: nat, governing: map<Str, Str>)
    requires n <= |results| == |keys|
  {
    && (forall i {:trigger SpanKnown(results, keys, i, governing)} :: 0 <= i < n ==> SpanKnown(results, keys, i, governing))
    && (forall i {:trigger Absent(results, i, governing)} :: n <= i < |results| ==> Absent(results, i, governing))
  }

  /** `governing.set` and the bucket's `push`, when an anchor claims the result. */
  function Assign(governing: map<Str, Str>, hit: Hit, span: Option<Str>): map<Str, Str> {
    if span.Some? then governing[hit.targetId := span.value] else governing
  }

  function Join(members: map<Str, seq<Hit>>, hit: Hit, span: Option<Str>): map<Str, seq<Hit>> {
    if span.Some? then members[span.value := Bucket(members, span.value) + [hit]] else members
  }

  lemma SpanEntered(p: Page, keys: seq<GroupKey>, i: nat, governing: map<Str, Str>, span: Option<Str>)
    requires p.Ranked() && i < |p.results| == |keys|
    requires span.Some? <==> keys[i].Span?
    requires span.Some? ==> keys[i] == Span(span.value)
    requires SpansSettled(p.results, keys, i, governing)
    ensures SpansSettled(p.results, keys, i + 1, Assign(governing, p.results[i], span))
  {
    var governing' := Assign(governing, p.results[i], span);
    assert Absent(p.results, i, governing);
    forall j | 0 <= j <= i ensures SpanKnown(p.results, keys, j, governing') {
      assert j < i ==> p.Separate(j, i) && SpanKnown(p.results, keys, j, governing);
    }
    forall j | i < j < |keys| ensures Absent(p.results, j, governing') {
      assert p.Separate(i, j) && Absent(p.results, j, governing);
    }
  }

  ghost predicate BucketHolds(results: seq<Hit>, keys: seq<GroupKey>, n: nat, members: map<Str, seq<Hit>>, span: Str)
    requires n <= |results| == |keys|
  {
    Bucket(members, span) == Group(results, keys, Span(span), n)
  }

  /** Every bucket holds the results met so far that its span governs. */
  ghost predicate Bucketed(results: seq<Hit>, keys: seq<GroupKey>, n: nat, members: map<Str, seq<Hit>>)
    requires n <= |results| == |keys|
  {
    forall s {:trigger BucketHolds(results, keys, n, members, s)} :: BucketHolds(results, keys, n, members, s)
  }

  lemma MemberEntered(results: seq<Hit>, keys: seq<GroupKey>, i: nat, members: map<Str, seq<Hit>>, span: Option<Str>)
    requires i < |results| == |keys| && Bucketed(results, keys, i, members)
    requires span.Some? <==> keys[i].Span?
    requires span.Some? ==> keys[i] == Span(span.value)
    ensures Bucketed(results, keys, i + 1, Join(members, results[i], span))
  {
    var members' := Join(members, results[i], span);
    var n := i + 1;
    forall s ensures BucketHolds(results, keys, n, members', s) {
      assert BucketHolds(results, keys, i, members, s);
    }
  }

  method Claim(p: Page, ghost keys: seq<GroupKey>, i: nat, span: Option<Str>,
               governing: map<Str, Str>, members: map<Str, seq<Hit>>)
    returns (governing': map<Str, Str>, members': map<Str, seq<Hit>>)
    requires p.Ranked() && i < |p.results| == |keys|
    requires span.Some? <==> keys[i].Span?
    requires span.Some? ==> keys[i] == Span(span.value)
    requires SpansSettled(p.results, keys, i, governing) && Bucketed(p.results, keys, i, members)
    ensures SpansSettled(p.results, keys, i + 1, governing') && Bucketed(p.results, keys, i + 1, members')
  {
    SpanEntered(p, keys, i, governing, span);
    MemberEntered(p.results, keys, i, members, span);
    governing' := Assign(governing, p.results[i], span);
    members' := Join(members, p.results[i], span);
  }

  method ChooseSpans(p: Page, counts: map<Str, nat>, ghost keys: seq<GroupKey>)
    returns (governing: map<Str, Str>, members: map<Str, seq<Hit>>)
    requires p.Ranked() && p.Keyed(keys)
    requires CountsCoverage(p, counts, |p.results|)
    ensures SpansSettled(p.results, keys, |keys|, governing)
    ensures Bucketed(p.results, keys, |keys|, members)
  {
    governing, members := map[], map[];
    for i := 0 to |p.results|
      invariant SpansSettled(p.results, keys, i, governing)
      invariant Bucketed(p.results, keys, i, members)
    {
      var span := SpanAt(p, counts, keys, i);
      governing, members := Claim(p, keys, i, span, governing, members);
    }
  }

  // ---- section runs ---------------------------------------------------------

  lemma {:induction false} GroupOfInterval(results: seq<Hit>, keys: seq<GroupKey>, key: GroupKey,
                                           lo: nat, hi: nat, n: nat)
    requires lo <= hi <= |results| && n <= |results| == |keys|
    requires forall j :: 0 <= j < n ==> (keys[j] == key <==> lo <= j < hi)
    ensures Group(results, keys, key, n) == if n <= lo then [] else results[lo..if hi < n then hi else n]
  {
    if n > 0 {
      GroupOfInterval(results, keys, key, lo, hi, n - 1);
    }
  }

  lemma {:induction false} RunStartInBlock(p: Page, lo: nat, j: nat)
    requires lo <= j < |p.results| && !p.Linked(lo - 1)
    requires forall k :: lo <= k < j ==> p.Linked(k)
    ensures p.RunStart(j) == lo
  {
    if j > lo {
      assert p.Linked(j - 1);
      RunStartInBlock(p, lo, j - 1);
    }
  }

  lemma {:induction false} RunStartPastBlock(p: Page, hi: nat, j: nat)
    requires hi <= j < |p.results| && !p.Linked(hi - 1)
    ensures p.RunStart(j) >= hi
  {
    if j > hi && p.Linked(j - 1) { RunStartPastBlock(p, hi, j - 1); }
  }

  /** A maximal linked block of two or more results is exactly one run group. */
  lemma BlockIsRun(p: Page, keys: seq<GroupKey>, lo: nat, hi: nat)
    requires p.Keyed(keys)
    requires lo < hi <= |p.results| && !p.Linked(lo - 1) && !p.Linked(hi - 1)
    requires forall k :: lo <= k < hi - 1 ==> p.Linked(k)
    ensures hi - lo == 1 ==> !keys[lo].Run?
    ensures hi - lo > 1 ==> Group(p.results, keys, Run(lo), |keys|) == p.results[lo..hi]
    ensures forall j :: 0 <= j < |keys| ==> (keys[j] == Run(lo) <==> hi - lo > 1 && lo <= j < hi)
  {
    if hi - lo > 1 { assert p.Linked(lo); }
    assert p.KeyAt(lo) == keys[lo];
    forall j | 0 <= j < |p.results| ensures keys[j] == Run(lo) <==> hi - lo > 1 && lo <= j < hi {
      assert p.KeyAt(j) == keys[j];
      if j >= hi {
        RunStartPastBlock(p, hi, j);
      } else if j >= lo {
        RunStartInBlock(p, lo, j);
        if hi - lo > 1 { assert p.Linked(j) || p.Linked(j - 1); }
      }
    }
    if hi - lo > 1 {
      GroupOfInterval(p.results, keys, Run(lo), lo, hi, |p.results|);
    }
  }

  ghost predicate RunKnown(results: seq<Hit>, keys: seq<GroupKey>, i: nat, runOf: map<Str, nat>, runs: seq<seq<Hit>>)
    requires i < |results| == |keys|
  {
    var id := results[i].targetId;
    && (id in runOf <==> keys[i].Run?)
    && (id in runOf ==> runOf[id] < |runs| && runs[runOf[id]] == Group(results, keys, keys[i], |keys|))
  }

  /** Two results share a run exactly when they share a group. */
  ghost predicate RunsAgree(results: seq<Hit>, keys: seq<GroupKey>, i: nat, j: nat, runOf: map<Str, nat>)
    requires i < |results| == |keys| && j < |keys|
  {
    results[i].targetId in runOf && results[j].targetId in runOf ==>
      (runOf[results[i].targetId] == runOf[results[j].targetId] <==> keys[i] == keys[j])
  }

  /** Ranks below `n` know their run; the others have none yet. */
  ghost predicate RunsSettled(results: seq<Hit>, keys: seq<GroupKey>, n: nat, runOf: map<Str, nat>, runs: seq<seq<Hit>>)
    requires n <= |results| == |keys|
  {
    && (forall i {:trigger RunKnown(results, keys, i, runOf, runs)} :: 0 <= i < n ==> RunKnown(results, keys, i, runOf, runs))
    && (forall i {:trigger Absent(results, i, runOf)} :: n <= i < |results| ==> Absent(results, i, runOf))
    && (forall i, j {:trigger RunsAgree(results, keys, i, j, runOf)} :: 0 <= i < n && 0 <= j < n ==>
          RunsAgree(results, keys, i, j, runOf))
  }

  method Flush(p: Page, ghost keys: seq<GroupKey>, ghost lo: nat, current: seq<Hit>,
               runOf: map<Str, nat>, runs: seq<seq<Hit>>)
    returns (runOf': map<Str, nat>, runs': seq<seq<Hit>>)
    requires p.Ranked() && |p.results| == |keys|
    requires lo + |current| <= |p.results| && current == p.results[lo..lo + |current|]
    requires RunsSettled(p.results, keys, lo, runOf, runs)
    requires |current| == 1 ==> !keys[lo].Run?
    requires |current| > 1 ==> Group(p.results, keys, Run(lo), |keys|) == current
    requires |current| > 1 ==> forall j :: 0 <= j < |keys| ==> (keys[j] == Run(lo) <==> lo <= j < lo + |current|)
    ensures RunsSettled(p.results, keys, lo + |current|, runOf', runs')
  {
    runOf', runs' := runOf, runs;
    if |current| >= 2 {
      var index := |runs|;
      runs' := runs + [current];
      for k := 0 to |current|
        invariant runOf'.Keys == runOf.Keys + set m | 0 <= m < k :: current[m].targetId
        invariant forall t :: t in runOf' ==> runOf'[t] == if t in runOf then runOf[t] else index
      {
        assert Absent(p.results, lo + k, runOf);
        runOf' := runOf'[current[k].targetId := index];
      }
      SettleBlock(p, keys, lo, current, runOf, runs, runOf');
    } else if |current| == 1 {
      NoRunSettles(p.results, keys, lo, runOf, runs);
    }
  }

  lemma SettleBlock(p: Page, keys: seq<GroupKey>, lo: nat, current: seq<Hit>,
                    runOf: map<Str, nat>, runs: seq<seq<Hit>>, runOf': map<Str, nat>)
    requires p.Ranked() && |p.results| == |keys| && |current| > 1
    requires lo + |current| <= |p.results| && current == p.results[lo..lo + |current|]
    requires RunsSettled(p.results, keys, lo, runOf, runs)
    requires Group(p.results, keys, Run(lo), |keys|) == current
    requires forall j :: 0 <= j < |keys| ==> (keys[j] == Run(lo) <==> lo <= j < lo + |current|)
    requires runOf'.Keys == runOf.Keys + set m | 0 <= m < |current| :: current[m].targetId
    requires forall t :: t in runOf' ==> runOf'[t] == if t in runOf then runOf[t] else |runs|
    ensures RunsSettled(p.results, keys, lo + |current|, runOf', runs + [current])
  {
    var hi := lo + |current|;
    forall i | 0 <= i < |keys|
      ensures p.results[i].targetId in runOf' <==> p.results[i].targetId in runOf || lo <= i < hi
      ensures lo <= i < |keys| ==> p.results[i].targetId !in runOf
    {
      if lo <= i < hi { assert current[i - lo].targetId == p.results[i].targetId; }
      forall m | 0 <= m < |current| && !(lo <= i < hi) ensures current[m].targetId != p.results[i].targetId {
        assert if i < lo then p.Separate(i, lo + m) else p.Separate(lo + m, i);
      }
      if lo <= i { assert Absent(p.results, i, runOf); }
    }
    forall i | 0 <= i < hi ensures RunKnown(p.results, keys, i, runOf', runs + [current]) {
      if i < lo { assert RunKnown(p.results, keys, i, runOf, runs); }
    }
    forall i, j | 0 <= i < hi && 0 <= j < hi ensures RunsAgree(p.results, keys, i, j, runOf') {
      if i < lo { assert RunKnown(p.results, keys, i, runOf, runs); }
      if j < lo { assert RunKnown(p.results, keys, j, runOf, runs); }
      if i < lo && j < lo { assert RunsAgree(p.results, keys, i, j, runOf); }
    }
  }

  /** The block being built: linked throughout, not linked to what came before. */
  ghost predicate OpenBlock(p: Page, lo: nat, i: nat, pericope: Option<Section>)
    requires lo <= i <= |p.results|
  {
    && !p.Linked(lo - 1)
    && (forall k :: lo <= k < i - 1 ==> p.Linked(k))
    && (pericope.Some? <==> lo < i)
    && (lo < i ==> p.Sectioned(i - 1) && p.SectionAt(i - 1).span.startVerseId == pericope.value.span.startVerseId)
    && (lo == i > 0 ==> !p.Sectioned(i - 1))
  }

  /** What `flush` needs to know about a block that result `i` does not extend. */
  lemma BlockEnds(p: Page, keys: seq<GroupKey>, lo: nat, i: nat, pericope: Option<Section>)
    requires p.Keyed(keys) && lo <= i <= |keys| && OpenBlock(p, lo, i, pericope) && !p.Linked(i - 1)
    ensures i - lo == 1 ==> !keys[lo].Run?
    ensures i - lo > 1 ==> Group(p.results, keys, Run(lo), |keys|) == p.results[lo..i]
    ensures i - lo > 1 ==> forall j :: 0 <= j < |keys| ==> (keys[j] == Run(lo) <==> lo <= j < i)
  {
    if lo < i { BlockIsRun(p, keys, lo, i); }
  }

  /** The result has a verse in some section and no governing anchor. */
  predicate Eligible(p: Page, i: nat, governing: map<Str, Str>)
    requires i < |p.results|
  {
    var id := p.results[i].targetId;
    id !in governing && id in p.verses && p.verses[id].verseId in p.pericopeOf
  }

  /** Whether result `i` extends the open block. */
  method Joins(p: Page, i: nat, current: seq<Hit>, currentPericope: Option<Section>, governing: map<Str, Str>)
    returns (joins: bool)
    requires i < |p.results| && |current| <= i && current == p.results[i - |current|..i]
    requires p.results[i].targetId in governing <==> p.Anchored(i)
    requires OpenBlock(p, i - |current|, i, currentPericope)
    ensures joins <==> p.Linked(i - 1)
  {
    joins := false;
    if Eligible(p, i, governing) && currentPericope.Some? {
      var verse := p.verses[p.results[i].targetId];
      var last := p.verses[current[|current| - 1].targetId];
      joins := p.pericopeOf[verse.verseId].span.startVerseId == currentPericope.value.span.startVerseId
               && Adjacent(verse.verseId, last.verseId);
    }
  }

  /** A result outside every section carries no run key. */
  lemma UnsectionedSettles(p: Page, keys: seq<GroupKey>, i: nat, runOf: map<Str, nat>, runs: seq<seq<Hit>>)
    requires p.Keyed(keys) && i < |keys| && !p.Sectioned(i)
    requires RunsSettled(p.results, keys, i, runOf, runs)
    ensures RunsSettled(p.results, keys, i + 1, runOf, runs)
  {
    assert keys[i] == p.KeyAt(i);
    NoRunSettles(p.results, keys, i, runOf, runs);
  }

  lemma NoRunSettles(results: seq<Hit>, keys: seq<GroupKey>, i: nat, runOf: map<Str, nat>, runs: seq<seq<Hit>>)
    requires i < |results| == |keys| && !keys[i].Run?
    requires RunsSettled(results, keys, i, runOf, runs)
    ensures RunsSettled(results, keys, i + 1, runOf, runs)
  {
    assert Absent(results, i, runOf);
    forall j, k | 0 <= j < i + 1 && 0 <= k < i + 1 ensures RunsAgree(results, keys, j, k, runOf) {
      if j < i && k < i { assert RunsAgree(results, keys, j, k, runOf); }
    }
  }

  ghost predicate Detecting(p: Page, keys: seq<GroupKey>, i: nat, current: seq<Hit>, pericope: Option<Section>,
                            runOf: map<Str, nat>, runs: seq<seq<Hit>>)
    requires i <= |p.results| == |keys|
  {
    && |current| <= i && current == p.results[i - |current|..i]
    && RunsSettled(p.results, keys, i - |current|, runOf, runs)
    && OpenBlock(p, i - |current|, i, pericope)
  }

  lemma AnchoredAt(p: Page, keys: seq<GroupKey>, governing: map<Str, Str>, i: nat)
    requires p.Keyed(keys) && SpansSettled(p.results, keys, |keys|, governing) && i < |keys|
    ensures p.results[i].targetId in governing <==> p.Anchored(i)
  {
    assert p.KeyAt(i) == keys[i];
    assert SpanKnown(p.results, keys, i, governing);
  }

  lemma BlockExtends(p: Page, lo: nat, i: nat, pericope: Option<Section>)
    requires lo <= i < |p.results| && OpenBlock(p, lo, i, pericope) && p.Linked(i - 1)
    ensures lo < i && OpenBlock(p, lo, i + 1, pericope)
  {
  }

  lemma BlockRestarts(p: Page, i: nat)
    requires i < |p.results| && !p.Linked(i - 1)
    ensures p.Sectioned(i) ==> OpenBlock(p, i, i + 1, Some(p.SectionAt(i)))
    ensures !p.Sectioned(i) ==> OpenBlock(p, i + 1, i + 1, None)
  {
  }

  lemma RestartDetects(p: Page, keys: seq<GroupKey>, i: nat, runOf: map<Str, nat>, runs: seq<seq<Hit>>)
    requires p.Keyed(keys) && i < |keys| && !p.Linked(i - 1)
    requires RunsSettled(p.results, keys, i, runOf, runs)
    ensures p.Sectioned(i) ==> Detecting(p, keys, i + 1, [p.results[i]], Some(p.SectionAt(i)), runOf, runs)
    ensures !p.Sectioned(i) ==> Detecting(p, keys, i + 1, [], None, runOf, runs)
  {
    BlockRestarts(p, i);
    if !p.Sectioned(i) { UnsectionedSettles(p, keys, i, runOf, runs); }
  }

  /** One result of the scan. */
  method Visit(p: Page, ghost keys: seq<GroupKey>, i: nat, governing: map<Str, Str>,
               current: seq<Hit>, pericope: Option<Section>, runOf: map<Str, nat>, runs: seq<seq<Hit>>)
    returns (current': seq<Hit>, pericope': Option<Section>, runOf': map<Str, nat>, runs': seq<seq<Hit>>)
    requires p.Ranked() && p.Keyed(keys) && i < |p.results|
    requires SpansSettled(p.results, keys, |keys|, governing)
    requires Detecting(p, keys, i, current, pericope, runOf, runs)
    ensures Detecting(p, keys, i + 1, current', pericope', runOf', runs')
  {
    var result := p.results[i];
    AnchoredAt(p, keys, governing, i);
    var joins := Joins(p, i, current, pericope, governing);
    if joins {
      BlockExtends(p, i - |current|, i, pericope);
      assert current + [result] == p.results[i - |current|..i + 1];
      return current + [result], pericope, runOf, runs;
    }
    BlockEnds(p, keys, i - |current|, i, pericope);
    runOf', runs' := Flush(p, keys, i - |current|, current, runOf, runs);
    RestartDetects(p, keys, i, runOf', runs');
    if Eligible(p, i, governing) {
      return [result], Some(p.pericopeOf[p.verses[result.targetId].verseId]), runOf', runs';
    }
    return [], None, runOf', runs';
  }

  method DetectRuns(p: Page, ghost keys: seq<GroupKey>, governing: map<Str, Str>)
    returns (runOf: map<Str, nat>, runs: seq<seq<Hit>>)
    requires p.Ranked() && p.Keyed(keys)
    requires SpansSettled(p.results, keys, |keys|, governing)
    ensures RunsSettled(p.results, keys, |p.results|, runOf, runs)
  {
    runOf, runs := map[], [];
    var current: seq<Hit> := [];
    var pericope: Option<Section> := None;
    for i := 0 to |p.results|
      invariant Detecting(p, keys, i, current, pericope, runOf, runs)
    {
      current, pericope, runOf, runs := Visit(p, keys, i, governing, current, pericope, runOf, runs);
    }
    BlockEnds(p, keys, |p.results| - |current|, |p.results|, pericope);
    runOf, runs := Flush(p, keys, |p.results| - |current|, current, runOf, runs);
  }

  // ---- the merged row -------------------------------------------------------

  /** The two nested loops over a group's reasons. */
  method StrongestPerLabel(group: seq<Hit>) returns (byLabel: ByLabel)
    ensures byLabel == Grouped(AllReasons(group))
  {
    byLabel := ByLabel([], map[]);
    for i := 0 to |group|
      invariant byLabel == Grouped(AllReasons(group[..i]))
    {
      byLabel := AdmitAll(byLabel, group[i].reasons, AllReasons(group[..i]));
      assert group[..i + 1][..i] == group[..i];
    }
    assert group[..|group|] == group;
  }

  lemma GroupedStep(met: seq<Reason>, reasons: seq<Reason>, j: nat)
    requires j < |reasons|
    ensures Grouped(met + reasons[..j + 1]) == Grouped(met + reasons[..j]).Admit(reasons[j])
  {
    var all := met + reasons[..j + 1];
    assert all[..|all| - 1] == met + reasons[..j];
  }

  method AdmitAll(byLabel: ByLabel, reasons: seq<Reason>, ghost met: seq<Reason>) returns (byLabel': ByLabel)
    requires byLabel == Grouped(met)
    ensures byLabel' == Grouped(met + reasons)
  {
    byLabel' := byLabel;
    assert met + reasons[..0] == met;
    for j := 0 to |reasons|
      invariant byLabel' == Grouped(met + reasons[..j])
    {
      var reason := reasons[j];
      GroupedStep(met, reasons, j);
      if reason.name !in byLabel'.best {
        byLabel' := ByLabel(byLabel'.order + [reason.name], byLabel'.best[reason.name := reason]);
      } else if reason.points > byLabel'.best[reason.name].points {
        byLabel' := ByLabel(byLabel'.order, byLabel'.best[reason.name := reason]);
      }
    }
    assert reasons[..|reasons|] == reasons;
  }

  method MergeGroup(p: Page, head: Hit, group: seq<Hit>, grouping: Option<Grouping>) returns (row: Row)
    requires Located(p, group)
    ensures row == Merged(p, head, group, grouping)
  {
    var canonical := Canonical(p, group);
    var byLabel := StrongestPerLabel(group);
    var reasons := Sorting.Sort(byLabel.Values(), Outranks);
    row := Row(head.targetId, GroupLabel(p, canonical), JoinedExcerpts(canonical), MaxScore(group), reasons,
               if grouping.Some? then Some(canonical) else None, grouping);
  }

  method GroupAnchor(info: SpanInfo) returns (grouping: Grouping)
    ensures grouping == AnchorGrouping(info)
  {
    var ids := Sorting.Listing(info.sourceIds);
    LessSorts();
    Sorting.SortedListing(ids, info.sourceIds, Less);
    grouping := Grouping(info.startVerseId, info.endVerseId, Sorting.Sort(ids, Less), None);
  }

  // ---- emission -------------------------------------------------------------

  method AnchorRow(p: Page, ghost keys: seq<GroupKey>, i: nat, span: Str, group: seq<Hit>) returns (row: Row)
    requires p.Keyed(keys) && i < |keys| && p.KeyAt(i) == Span(span) && group == p.GroupAt(keys, i)
    ensures row == p.RowAt(keys, i)
  {
    if |group| == 1 { return Single(p.results[i]); }
    var grouping: Option<Grouping> := None;
    if span in p.spanInfo {
      var anchor := GroupAnchor(p.spanInfo[span]);
      grouping := Some(anchor);
    }
    GroupIsLocated(p, keys, i);
    row := MergeGroup(p, p.results[i], group, grouping);
  }

  method SectionRow(p: Page, ghost keys: seq<GroupKey>, i: nat, group: seq<Hit>) returns (row: Row)
    requires p.Keyed(keys) && i < |keys| && p.KeyAt(i).Run? && group == p.GroupAt(keys, i)
    ensures row == p.RowAt(keys, i)
  {
    GroupIsLocated(p, keys, i);
    var pericope := p.pericopeOf[p.verses[p.results[i].targetId].verseId];
    row := MergeGroup(p, p.results[i], group, Some(SectionGrouping(pericope)));
  }

  /** `runOf.get(id)`, or any number for an unlisted id. */
  function RunIndex(runOf: map<Str, nat>, hit: Hit): nat {
    if hit.targetId in runOf then runOf[hit.targetId] else 0
  }

  /** The groups already emitted when rank `i` comes up. */
  ghost predicate EmittedGroups(results: seq<Hit>, keys: seq<GroupKey>, i: nat, runOf: map<Str, nat>,
                                emitted: set<Str>, emittedRuns: set<nat>)
    requires i <= |results| == |keys|
  {
    && (forall s :: s in emitted <==> exists j :: 0 <= j < i && keys[j] == Span(s))
    && (forall r :: r in emittedRuns <==> exists j :: 0 <= j < i && keys[j].Run? && RunIndex(runOf, results[j]) == r)
  }

  lemma LeadsItsGroup(p: Page, keys: seq<GroupKey>, i: nat, runOf: map<Str, nat>, runs: seq<seq<Hit>>,
                      emitted: set<Str>, emittedRuns: set<nat>)
    requires p.Keyed(keys) && i < |keys|
    requires RunsSettled(p.results, keys, |keys|, runOf, runs)
    requires EmittedGroups(p.results, keys, i, runOf, emitted, emittedRuns)
    ensures keys[i].Alone? ==> Leads(keys, i)
    ensures keys[i].Span? ==> (keys[i].span !in emitted <==> Leads(keys, i))
    ensures keys[i].Run? ==> (RunIndex(runOf, p.results[i]) !in emittedRuns <==> Leads(keys, i))
  {
    assert p.KeyAt(i) == keys[i];
    assert RunKnown(p.results, keys, i, runOf, runs);
    forall j | 0 <= j < i
      ensures keys[i].Alone? ==> keys[j] != keys[i]
      ensures keys[j].Run? && keys[i].Run? ==>
        (RunIndex(runOf, p.results[i]) == RunIndex(runOf, p.results[j]) <==> keys[i] == keys[j])
    {
      assert p.KeyAt(j) == keys[j];
      assert RunKnown(p.results, keys, j, runOf, runs);
      assert RunsAgree(p.results, keys, i, j, runOf);
    }
  }

  lemma EmittedGrows(results: seq<Hit>, keys: seq<GroupKey>, i: nat, runOf: map<Str, nat>,
                     emitted: set<Str>, emittedRuns: set<nat>)
    requires i < |results| == |keys|
    requires EmittedGroups(results, keys, i, runOf, emitted, emittedRuns)
    ensures EmittedGroups(results, keys, i + 1, runOf,
                          if keys[i].Span? then emitted + {keys[i].span} else emitted,
                          if keys[i].Run? then emittedRuns + {RunIndex(runOf, results[i])} else emittedRuns)
  {
  }

  method CollapseRuns(p: Page) returns (output: seq<Row>)
    requires p.Ranked()
    ensures p.Keyed(p.Keys(|p.results|)) && output == p.Emitted(p.Keys(|p.results|), |p.results|)
  {
    KeysList(p, |p.results|);
    output := Collapse(p, p.Keys(|p.results|));
  }

  /** Pass 2 at one rank: the row it emits, if any, and the groups emitted since. */
  method EmitAt(p: Page, ghost keys: seq<GroupKey>, i: nat, governing: map<Str, Str>, members: map<Str, seq<Hit>>,
                runOf: map<Str, nat>, runs: seq<seq<Hit>>, emitted: set<Str>, emittedRuns: set<nat>)
    returns (rows: seq<Row>, emitted': set<Str>, emittedRuns': set<nat>)
    requires p.Keyed(keys) && i < |keys|
    requires SpansSettled(p.results, keys, |keys|, governing) && RunsSettled(p.results, keys, |keys|, runOf, runs)
    requires Bucketed(p.results, keys, |keys|, members)
    requires EmittedGroups(p.results, keys, i, runOf, emitted, emittedRuns)
    ensures rows == if Leads(keys, i) then [p.RowAt(keys, i)] else []
    ensures EmittedGroups(p.results, keys, i + 1, runOf, emitted', emittedRuns')
  {
    var result := p.results[i];
    rows, emitted', emittedRuns' := [], emitted, emittedRuns;
    LeadsItsGroup(p, keys, i, runOf, runs, emitted, emittedRuns);
    EmittedGrows(p.results, keys, i, runOf, emitted, emittedRuns);
    assert keys[i] == p.KeyAt(i);
    assert SpanKnown(p.results, keys, i, governing);
    assert RunKnown(p.results, keys, i, runOf, runs);
    if result.targetId !in governing {
      if result.targetId !in runOf { return [Single(result)], emitted, emittedRuns; }
      var runIndex := runOf[result.targetId];
      if runIndex in emittedRuns { return [], emitted, emittedRuns; }
      var row := SectionRow(p, keys, i, runs[runIndex]);
      return [row], emitted, emittedRuns + {runIndex};
    }
    var span := governing[result.targetId];
    if span in emitted { return [], emitted, emittedRuns; }
    GroupHolds(p.results, keys, i, |keys|);
    assert BucketHolds(p.results, keys, |keys|, members, span);
    var row := AnchorRow(p, keys, i, span, members[span]);
    return [row], emitted + {span}, emittedRuns;
  }

  method Collapse(p: Page, ghost keys: seq<GroupKey>) returns (output: seq<Row>)
    requires p.Ranked() && p.Keyed(keys)
    ensures output == p.Emitted(keys, |keys|)
  {
    var counts := CountSpans(p);
    var governing, members := ChooseSpans(p, counts, keys);
    var runOf, runs := DetectRuns(p, keys, governing);
    var emitted: set<Str> := {};
    var emittedRuns: set<nat> := {};
    output := [];
    for i := 0 to |p.results|
      invariant output == p.Emitted(keys, i)
      invariant EmittedGroups(p.results, keys, i, runOf, emitted, emittedRuns)
    {
      var rows;
      rows, emitted, emittedRuns := EmitAt(p, keys, i, governing, members, runOf, runs, emitted, emittedRuns);
      output := output + rows;
    }
  }
}
