/**
 * Pericope derivation: one sweep over the present verses, then a self-check that this
 * module proves can never fail. The stored pericopes are looked up by verse at query time.
 */
module Pericopes {
  import opened CodeUnits
  import opened Outcomes
  import Sorting

  datatype SectionSpan = SectionSpan(startVerseId: int, endVerseId: int, votes: int)
  datatype Pericope = Pericope(startVerseId: int, endVerseId: int, boundaryVotes: int)

  /** A stored pericope with its source. */
  datatype Section = Section(span: Pericope, sourceId: Str)

  datatype TilingError = Inverted(Pericope) | Overlaps(Pericope) | Uncovered(covered: nat, present: nat)

  function BookOf(verseId: int): int {
    verseId / 1_000_000
  }

  // ---- votes ----------------------------------------------------------------

  /** The votes of every row that starts at `verseId`. */
  function VoteSum(rows: seq<SectionSpan>, verseId: int): int {
    if rows == [] then 0
    else
      var last := rows[|rows| - 1];
      VoteSum(rows[..|rows| - 1], verseId) + if last.startVerseId == verseId then last.votes else 0
  }

  function SumAt(sums: map<int, int>, verseId: int): int {
    if verseId in sums then sums[verseId] else 0
  }

  method BoundaryVotes(rows: seq<SectionSpan>) returns (sums: map<int, int>)
    ensures forall v :: SumAt(sums, v) == VoteSum(rows, v)
    ensures forall v :: v in sums <==> exists k :: 0 <= k < |rows| && rows[k].startVerseId == v
  {
    sums := map[];
    for i := 0 to |rows|
      invariant forall v :: SumAt(sums, v) == VoteSum(rows[..i], v)
      invariant forall v :: v in sums <==> exists k :: 0 <= k < i && rows[k].startVerseId == v
    {
      var row := rows[i];
      sums := sums[row.startVerseId := SumAt(sums, row.startVerseId) + row.votes];
      assert rows[..i + 1][..i] == rows[..i];
    }
    assert rows[..|rows|] == rows;
  }

  // ---- the tiling -----------------------------------------------------------

  /** A verse that must open a pericope: its book's first present verse, or enough votes. */
  predicate Opens(present: seq<int>, k: nat, sums: map<int, int>, threshold: int)
    requires k < |present|
  {
    k == 0 || BookOf(present[k]) != BookOf(present[k - 1]) || SumAt(sums, present[k]) >= threshold
  }

  ghost predicate Ascends(present: seq<int>) {
    forall i, j :: 0 <= i < j < |present| ==> present[i] < present[j]
  }

  /** The positions below `n` that open a pericope. */
  function Cuts(present: seq<int>, n: nat, sums: map<int, int>, threshold: int): (cuts: seq<nat>)
    requires n <= |present|
    ensures forall t :: 0 <= t < |cuts| ==> cuts[t] < n && Opens(present, cuts[t], sums, threshold)
    ensures forall t, u :: 0 <= t < u < |cuts| ==> cuts[t] < cuts[u]
    ensures n > 0 ==> cuts != [] && cuts[0] == 0
  {
    if n == 0 then []
    else Cuts(present, n - 1, sums, threshold) + if Opens(present, n - 1, sums, threshold) then [n - 1] else []
  }

  /** Where pericope `t` stops: at the next opening position, or at `n`. */
  function Stop(cuts: seq<nat>, t: nat, n: nat): nat
    requires t < |cuts|
  {
    if t + 1 < |cuts| then cuts[t + 1] else n
  }

  /** The pericope from one opening position up to the next. */
  function Between(present: seq<int>, sums: map<int, int>, open: nat, stop: nat): Pericope
    requires open < stop <= |present|
  {
    Pericope(present[open], present[stop - 1], SumAt(sums, present[open]))
  }

  /** Pericope `t` of the tiling. */
  function PericopeAt(present: seq<int>, sums: map<int, int>, threshold: int, t: nat): Pericope
    requires t < |Cuts(present, |present|, sums, threshold)|
  {
    var cuts := Cuts(present, |present|, sums, threshold);
    Between(present, sums, cuts[t], Stop(cuts, t, |present|))
  }

  ghost predicate IsTiling(present: seq<int>, sums: map<int, int>, threshold: int, pericopes: seq<Pericope>) {
    && |pericopes| == |Cuts(present, |present|, sums, threshold)|
    && forall t {:trigger PericopeAt(present, sums, threshold, t)} :: 0 <= t < |pericopes| ==>
         pericopes[t] == PericopeAt(present, sums, threshold, t)
  }

  /** Where pericope `t` of a tiling lies among the present verses. */
  lemma PericopeBounds(present: seq<int>, sums: map<int, int>, threshold: int, pericopes: seq<Pericope>, t: nat)
    returns (open: nat, stop: nat)
    requires IsTiling(present, sums, threshold, pericopes) && t < |pericopes|
    ensures open == Cuts(present, |present|, sums, threshold)[t]
    ensures stop == Stop(Cuts(present, |present|, sums, threshold), t, |present|)
    ensures open < stop <= |present| && pericopes[t] == Between(present, sums, open, stop)
  {
    open := Cuts(present, |present|, sums, threshold)[t];
    stop := Stop(Cuts(present, |present|, sums, threshold), t, |present|);
    assert pericopes[t] == PericopeAt(present, sums, threshold, t);
  }

  /** No opening position lies strictly inside a pericope. */
  lemma NoCutInside(cuts: seq<nat>, t: nat, u: nat, n: nat)
    requires t < |cuts| && u < |cuts|
    requires forall i, j :: 0 <= i < j < |cuts| ==> cuts[i] < cuts[j]
    ensures !(cuts[t] < cuts[u] < Stop(cuts, t, n))
  {
  }

  // ---- the sweep ------------------------------------------------------------

  /** The open pericope: where it started, its votes and the verse before this one. */
  datatype Sweeping = Sweeping(openStart: Option<int>, openVotes: int, previous: Option<int>)

  /** Every pericope but the open one has been pushed. */
  ghost predicate Swept(present: seq<int>, sums: map<int, int>, threshold: int, n: nat,
                        state: Sweeping, pericopes: seq<Pericope>)
    requires n <= |present|
  {
    var cuts := Cuts(present, n, sums, threshold);
    && |pericopes| == (if n == 0 then 0 else |cuts| - 1)
    && (forall t :: 0 <= t < |pericopes| ==> pericopes[t] == Between(present, sums, cuts[t], cuts[t + 1]))
    && (n == 0 ==> state == Sweeping(None, 0, None))
    && (n > 0 ==> var open := cuts[|cuts| - 1];
          state == Sweeping(Some(present[open]), SumAt(sums, present[open]), Some(present[n - 1])))
  }

  /** `close`. */
  function Close(state: Sweeping, pericopes: seq<Pericope>): seq<Pericope> {
    if state.openStart.Some? && state.previous.Some?
    then pericopes + [Pericope(state.openStart.value, state.previous.value, state.openVotes)]
    else pericopes
  }

  lemma SweptOpens(present: seq<int>, sums: map<int, int>, threshold: int, n: nat, state: Sweeping, pericopes: seq<Pericope>)
    requires n < |present| && Swept(present, sums, threshold, n, state, pericopes)
    requires Opens(present, n, sums, threshold)
    ensures Swept(present, sums, threshold, n + 1,
                  Sweeping(Some(present[n]), SumAt(sums, present[n]), Some(present[n])), Close(state, pericopes))
  {
    var before := Cuts(present, n, sums, threshold);
    var cuts := Cuts(present, n + 1, sums, threshold);
    assert cuts == before + [n];
    var closed := Close(state, pericopes);
    forall t | 0 <= t < |closed| ensures closed[t] == Between(present, sums, cuts[t], cuts[t + 1]) {
      if t < |pericopes| { assert closed[t] == pericopes[t]; }
    }
  }

  lemma SweptContinues(present: seq<int>, sums: map<int, int>, threshold: int, n: nat, state: Sweeping, pericopes: seq<Pericope>)
    requires n < |present| && Swept(present, sums, threshold, n, state, pericopes)
    requires !Opens(present, n, sums, threshold)
    ensures Swept(present, sums, threshold, n + 1, state.(previous := Some(present[n])), pericopes)
  {
    assert Cuts(present, n + 1, sums, threshold) == Cuts(present, n, sums, threshold);
  }

  lemma SweptCloses(present: seq<int>, sums: map<int, int>, threshold: int, state: Sweeping, pericopes: seq<Pericope>)
    requires Swept(present, sums, threshold, |present|, state, pericopes)
    ensures IsTiling(present, sums, threshold, Close(state, pericopes))
  {
  }

  method Sweep(present: seq<int>, sums: map<int, int>, threshold: int) returns (pericopes: seq<Pericope>)
    ensures IsTiling(present, sums, threshold, pericopes)
  {
    pericopes := [];
    var state := Sweeping(None, 0, None);
    for i := 0 to |present|
      invariant Swept(present, sums, threshold, i, state, pericopes)
    {
      var verseId := present[i];
      var bookBoundary := state.previous.None? || BookOf(verseId) != BookOf(state.previous.value);
      var voteSum := SumAt(sums, verseId);
      if bookBoundary || voteSum >= threshold {
        SweptOpens(present, sums, threshold, i, state, pericopes);
        pericopes := Close(state, pericopes);
        state := Sweeping(Some(verseId), voteSum, Some(verseId));
      } else {
        SweptContinues(present, sums, threshold, i, state, pericopes);
        state := state.(previous := Some(verseId));
      }
    }
    SweptCloses(present, sums, threshold, state, pericopes);
    pericopes := Close(state, pericopes);
  }

  // ---- the self-check -------------------------------------------------------

  function InRange(ids: set<int>, lo: int, hi: int): set<int> {
    set v | v in ids && lo <= v <= hi
  }

  /** How many present verses the pericopes cover, counted pericope by pericope. */
  function CoveredBy(pericopes: seq<Pericope>, ids: set<int>): nat {
    if pericopes == [] then 0
    else
      var last := pericopes[|pericopes| - 1];
      CoveredBy(pericopes[..|pericopes| - 1], ids) + |InRange(ids, last.startVerseId, last.endVerseId)|
  }

  ghost predicate Ordered(pericopes: seq<Pericope>) {
    && (forall t :: 0 <= t < |pericopes| ==> pericopes[t].startVerseId <= pericopes[t].endVerseId)
    && (forall t :: 0 < t < |pericopes| ==> pericopes[t - 1].endVerseId < pericopes[t].startVerseId)
  }

  method CountCovered(pericope: Pericope, ids: set<int>, covered: nat) returns (covered': nat)
    requires pericope.startVerseId <= pericope.endVerseId
    ensures covered' == covered + |InRange(ids, pericope.startVerseId, pericope.endVerseId)|
  {
    covered' := covered;
    var id := pericope.startVerseId;
    assert InRange(ids, id, id - 1) == {};
    while id <= pericope.endVerseId
      invariant pericope.startVerseId <= id <= pericope.endVerseId + 1
      invariant covered' == covered + |InRange(ids, pericope.startVerseId, id - 1)|
    {
      ghost var before := InRange(ids, pericope.startVerseId, id - 1);
      assert InRange(ids, pericope.startVerseId, id) == if id in ids then before + {id} else before;
      if id in ids {
        covered' := covered' + 1;
      }
      id := id + 1;
    }
  }

  /** The runtime verification: it passes exactly the ordered lists that cover as many verses as there are. */
  method SelfCheck(pericopes: seq<Pericope>, ids: set<int>) returns (checked: Outcome<(), TilingError>)
    ensures checked.Ok? <==> Ordered(pericopes) && CoveredBy(pericopes, ids) == |ids|
  {
    var covered := 0;
    var lastEnd := None;
    for t := 0 to |pericopes|
      invariant Ordered(pericopes[..t])
      invariant lastEnd == if t == 0 then None else Some(pericopes[t - 1].endVerseId)
      invariant covered == CoveredBy(pericopes[..t], ids)
    {
      var pericope := pericopes[t];
      if pericope.startVerseId > pericope.endVerseId { return Thrown(Inverted(pericope)); }
      if lastEnd.Some? && pericope.startVerseId <= lastEnd.value { return Thrown(Overlaps(pericope)); }
      lastEnd := Some(pericope.endVerseId);
      covered := CountCovered(pericope, ids, covered);
      assert pericopes[..t + 1][..t] == pericopes[..t];
    }
    assert pericopes[..|pericopes|] == pericopes;
    if covered != |ids| { return Thrown(Uncovered(covered, |ids|)); }
    return Ok(());
  }

  /** A tiling is ordered: pericopes neither overlap nor change places. */
  lemma TilingIsOrdered(present: seq<int>, sums: map<int, int>, threshold: int, pericopes: seq<Pericope>)
    requires Ascends(present) && IsTiling(present, sums, threshold, pericopes)
    ensures Ordered(pericopes)
  {
    forall t | 0 <= t < |pericopes|
      ensures pericopes[t].startVerseId <= pericopes[t].endVerseId
      ensures t > 0 ==> pericopes[t - 1].endVerseId < pericopes[t].startVerseId
    {
      var open, stop := PericopeBounds(present, sums, threshold, pericopes, t);
      if t > 0 { var _, before := PericopeBounds(present, sums, threshold, pericopes, t - 1); }
    }
  }

  function UpTo(ids: set<int>, hi: int): set<int> {
    set v | v in ids && v <= hi
  }

  /** Below pericope `t` there is nothing but the pericopes before it. */
  lemma NothingBetween(present: seq<int>, sums: map<int, int>, threshold: int, pericopes: seq<Pericope>, t: nat, v: int)
    requires Ascends(present) && IsTiling(present, sums, threshold, pericopes)
    requires t < |pericopes| && v in present && v < pericopes[t].startVerseId
    ensures t > 0 && v <= pericopes[t - 1].endVerseId
  {
    var open, _ := PericopeBounds(present, sums, threshold, pericopes, t);
    var k :| 0 <= k < |present| && present[k] == v;
    if t > 0 { var _, before := PericopeBounds(present, sums, threshold, pericopes, t - 1); }
  }

  /** The first `n` pericopes cover every present verse up to the last one's end. */
  lemma {:induction false} TilingCovers(present: seq<int>, ids: set<int>, sums: map<int, int>, threshold: int,
                                        pericopes: seq<Pericope>, n: nat)
    requires Ascends(present) && IsTiling(present, sums, threshold, pericopes)
    requires 0 < n <= |pericopes| && forall v :: v in present <==> v in ids
    ensures CoveredBy(pericopes[..n], ids) == |UpTo(ids, pericopes[n - 1].endVerseId)|
  {
    TilingIsOrdered(present, sums, threshold, pericopes);
    var p := pericopes[n - 1];
    assert pericopes[..n][..n - 1] == pericopes[..n - 1];
    var upTo, mine := UpTo(ids, p.endVerseId), InRange(ids, p.startVerseId, p.endVerseId);
    forall v | v in upTo && v !in mine ensures n > 1 && v <= pericopes[n - 2].endVerseId {
      assert v in present;
      NothingBetween(present, sums, threshold, pericopes, n - 1, v);
    }
    if n == 1 {
      assert upTo == mine;
    } else {
      TilingCovers(present, ids, sums, threshold, pericopes, n - 1);
      var before := UpTo(ids, pericopes[n - 2].endVerseId);
      assert upTo == before + mine && before !! mine;
    }
  }

  /** The self-check can never fail on what the sweep produced. */
  lemma TilingPassesSelfCheck(present: seq<int>, ids: set<int>, sums: map<int, int>, threshold: int, pericopes: seq<Pericope>)
    requires Ascends(present) && IsTiling(present, sums, threshold, pericopes)
    requires forall v :: v in present <==> v in ids
    ensures Ordered(pericopes) && CoveredBy(pericopes, ids) == |ids|
  {
    TilingIsOrdered(present, sums, threshold, pericopes);
    assert pericopes[..|pericopes|] == pericopes;
    if present == [] {
      assert forall v :: v in ids ==> v in present;
      assert ids == {};
    } else {
      TilingCovers(present, ids, sums, threshold, pericopes, |pericopes|);
      LastReachesAll(present, ids, sums, threshold, pericopes);
    }
  }

  lemma LastReachesAll(present: seq<int>, ids: set<int>, sums: map<int, int>, threshold: int, pericopes: seq<Pericope>)
    requires Ascends(present) && IsTiling(present, sums, threshold, pericopes) && present != []
    requires forall v :: v in present <==> v in ids
    ensures pericopes != [] && UpTo(ids, pericopes[|pericopes| - 1].endVerseId) == ids
  {
    var _, stop := PericopeBounds(present, sums, threshold, pericopes, |pericopes| - 1);
    forall v | v in ids ensures v <= pericopes[|pericopes| - 1].endVerseId {
      var k :| 0 <= k < |present| && present[k] == v;
    }
  }

  /** Deriving pericopes never throws, whatever the rows, the present verses and the threshold. */
  method DerivePericopes(rows: seq<SectionSpan>, presentVerseIds: set<int>, threshold: int)
    returns (result: Outcome<seq<Pericope>, TilingError>)
    ensures result.Ok?
    ensures exists sums ::
      (forall v :: SumAt(sums, v) == VoteSum(rows, v))
      && IsTiling(Sorting.Ascending(presentVerseIds, Sorting.Below), sums, threshold, result.value)
  {
    var sums := BoundaryVotes(rows);
    var listed := Sorting.Listing(presentVerseIds);
    Sorting.SortedListing(listed, presentVerseIds, Sorting.Below);
    var present := Sorting.Sort(listed, Sorting.Below);
    assert Ascends(present) by {
      forall i, j | 0 <= i < j < |present| ensures present[i] < present[j] {
        assert Sorting.Below(present[i], present[j]);
      }
    }
    var pericopes := Sweep(present, sums, threshold);
    TilingPassesSelfCheck(present, presentVerseIds, sums, threshold, pericopes);
    var checked := SelfCheck(pericopes, presentVerseIds);
    result := match checked case Ok(_) => Ok(pericopes) case Thrown(error) => Thrown(error);
  }

  // ---- what a tiling is worth -----------------------------------------------

  /** The position of the pericope that covers the present verse at position `k`. */
  lemma {:induction false} CoveringCut(present: seq<int>, sums: map<int, int>, threshold: int, n: nat, k: nat)
    returns (t: nat)
    requires k < n <= |present|
    ensures var cuts := Cuts(present, n, sums, threshold); t < |cuts| && cuts[t] <= k < Stop(cuts, t, n)
  {
    var cuts := Cuts(present, n, sums, threshold);
    if k < n - 1 {
      t := CoveringCut(present, sums, threshold, n - 1, k);
    } else {
      t := |cuts| - 1;
    }
  }

  /** Every present verse lies in exactly one pericope. */
  lemma EachVerseOnce(present: seq<int>, sums: map<int, int>, threshold: int, pericopes: seq<Pericope>, k: nat)
    returns (t: nat)
    requires Ascends(present) && IsTiling(present, sums, threshold, pericopes) && k < |present|
    ensures t < |pericopes| && pericopes[t].startVerseId <= present[k] <= pericopes[t].endVerseId
    ensures forall u :: 0 <= u < |pericopes| && pericopes[u].startVerseId <= present[k] <= pericopes[u].endVerseId ==> u == t
  {
    t := CoveringCut(present, sums, threshold, |present|, k);
    var open, stop := PericopeBounds(present, sums, threshold, pericopes, t);
    TilingIsOrdered(present, sums, threshold, pericopes);
    forall u | 0 <= u < |pericopes| && pericopes[u].startVerseId <= present[k] <= pericopes[u].endVerseId
      ensures u == t
    {
      OrderedApart(pericopes, if t < u then t else u, if t < u then u else t);
    }
  }

  lemma {:induction false} OneBook(present: seq<int>, sums: map<int, int>, threshold: int, open: nat, k: nat)
    requires open <= k < |present| && forall j :: open < j <= k ==> !Opens(present, j, sums, threshold)
    ensures BookOf(present[k]) == BookOf(present[open])
  {
    if open < k {
      assert !Opens(present, k, sums, threshold);
      OneBook(present, sums, threshold, open, k - 1);
    }
  }

  lemma {:induction false} OpensAreCuts(present: seq<int>, sums: map<int, int>, threshold: int, n: nat, k: nat)
    requires k < n <= |present|
    ensures Opens(present, k, sums, threshold) <==> k in Cuts(present, n, sums, threshold)
  {
    var cuts := Cuts(present, n, sums, threshold);
    if k < n - 1 {
      OpensAreCuts(present, sums, threshold, n - 1, k);
      assert cuts == Cuts(present, n - 1, sums, threshold)
                   + if Opens(present, n - 1, sums, threshold) then [n - 1] else [];
    } else {
      if k in cuts { var t :| 0 <= t < |cuts| && cuts[t] == k; }
      assert Opens(present, k, sums, threshold) ==> cuts == Cuts(present, n - 1, sums, threshold) + [k];
    }
  }

  /** Strictly inside a pericope no verse opens another. */
  lemma NothingOpensInside(present: seq<int>, sums: map<int, int>, threshold: int, t: nat, j: nat)
    requires t < |Cuts(present, |present|, sums, threshold)|
    requires var cuts := Cuts(present, |present|, sums, threshold); cuts[t] < j < Stop(cuts, t, |present|)
    ensures j < |present| && !Opens(present, j, sums, threshold)
  {
    var cuts := Cuts(present, |present|, sums, threshold);
    assert j < |present|;
    OpensAreCuts(present, sums, threshold, |present|, j);
    assert forall u :: 0 <= u < |cuts| ==> cuts[u] <= cuts[t] || Stop(cuts, t, |present|) <= cuts[u];
  }

  /**
   * What each pericope is: it starts at an opening verse, ends at a present verse, stays in
   * one book, opens nowhere inside, and stores all the votes at its start.
   */
  lemma PericopeIsSound(present: seq<int>, sums: map<int, int>, threshold: int, pericopes: seq<Pericope>, t: nat)
    requires Ascends(present) && IsTiling(present, sums, threshold, pericopes) && t < |pericopes|
    ensures pericopes[t].startVerseId in present && pericopes[t].endVerseId in present
    ensures pericopes[t].boundaryVotes == SumAt(sums, pericopes[t].startVerseId)
    ensures forall k :: 0 <= k < |present| && pericopes[t].startVerseId <= present[k] <= pericopes[t].endVerseId ==>
      && BookOf(present[k]) == BookOf(pericopes[t].startVerseId)
      && (Opens(present, k, sums, threshold) <==> present[k] == pericopes[t].startVerseId)
  {
    var open, stop := PericopeBounds(present, sums, threshold, pericopes, t);
    forall j | open < j < stop ensures !Opens(present, j, sums, threshold) {
      NothingOpensInside(present, sums, threshold, t, j);
    }
    forall k | 0 <= k < |present| && pericopes[t].startVerseId <= present[k] <= pericopes[t].endVerseId
      ensures open <= k < stop && BookOf(present[k]) == BookOf(present[open])
    {
      assert open <= k < stop;
      OneBook(present, sums, threshold, open, k);
    }
  }

  lemma {:induction false} VotesAdd(rows: seq<SectionSpan>, more: seq<SectionSpan>, verseId: int)
    ensures VoteSum(rows + more, verseId) == VoteSum(rows, verseId) + VoteSum(more, verseId)
  {
    if more == [] {
      assert rows + more == rows;
    } else {
      VotesAdd(rows, more[..|more| - 1], verseId);
      assert (rows + more)[..|rows + more| - 1] == rows + more[..|more| - 1];
    }
  }

  /** Votes add up row by row: a row votes for the verse it starts at and for no other. */
  lemma VotesSpell(rows: seq<SectionSpan>, row: SectionSpan, verseId: int)
    ensures VoteSum([], verseId) == 0
    ensures VoteSum([row], verseId) == if row.startVerseId == verseId then row.votes else 0
    ensures VoteSum(rows + [row], verseId) == VoteSum(rows, verseId) + VoteSum([row], verseId)
  {
    VotesAdd(rows, [row], verseId);
    assert [row][..0] == [];
  }

  /** Position `k` starts a pericope: the first verse, the first of its book, or a verse with enough votes. */
  predicate Starts(rows: seq<SectionSpan>, present: seq<int>, threshold: int, k: nat)
    requires k < |present|
  {
    || k == 0
    || present[k] / 1_000_000 != present[k - 1] / 1_000_000
    || VoteSum(rows, present[k]) >= threshold
  }

  /**
   * The tiling, said without its cuts: pericopes run from each starting position to the next, each
   * with the verses at its ends and the votes at its start.
   */
  lemma TilingSpells(rows: seq<SectionSpan>, present: seq<int>, sums: map<int, int>, threshold: int,
                     pericopes: seq<Pericope>)
    returns (starts: seq<nat>)
    requires IsTiling(present, sums, threshold, pericopes) && forall v :: SumAt(sums, v) == VoteSum(rows, v)
    ensures |starts| == |pericopes| && forall t :: 0 <= t < |starts| ==> starts[t] < |present|
    ensures forall k :: 0 <= k < |present| ==> (k in starts <==> Starts(rows, present, threshold, k))
    ensures forall t, u :: 0 <= t < u < |starts| ==> starts[t] < starts[u]
    ensures forall t :: 0 <= t < |pericopes| ==>
      var stop := if t + 1 < |starts| then starts[t + 1] else |present|;
      starts[t] < stop
      && pericopes[t] == Pericope(present[starts[t]], present[stop - 1], VoteSum(rows, present[starts[t]]))
  {
    starts := Cuts(present, |present|, sums, threshold);
    forall k | 0 <= k < |present| ensures k in starts <==> Starts(rows, present, threshold, k) {
      OpensAreCuts(present, sums, threshold, |present|, k);
    }
    forall t | 0 <= t < |pericopes|
      ensures var stop := if t + 1 < |starts| then starts[t + 1] else |present|;
        starts[t] < stop
        && pericopes[t] == Pericope(present[starts[t]], present[stop - 1], VoteSum(rows, present[starts[t]]))
    {
      var open, stop := PericopeBounds(present, sums, threshold, pericopes, t);
    }
  }

  /** A higher threshold opens fewer pericopes, so it only unions neighbours. */
  lemma HigherThresholdUnions(present: seq<int>, sums: map<int, int>, low: int, high: int,
                              fine: seq<Pericope>, coarse: seq<Pericope>, t: nat)
    returns (u: nat)
    requires Ascends(present) && low <= high && t < |fine|
    requires IsTiling(present, sums, low, fine) && IsTiling(present, sums, high, coarse)
    ensures u < |coarse| && coarse[u].startVerseId <= fine[t].startVerseId && fine[t].endVerseId <= coarse[u].endVerseId
  {
    var open, stop := PericopeBounds(present, sums, low, fine, t);
    u := CoveringCut(present, sums, high, |present|, open);
    var wideOpen, wideStop := PericopeBounds(present, sums, high, coarse, u);
    forall j | open < j < stop ensures !Opens(present, j, sums, low) {
      NothingOpensInside(present, sums, low, t, j);
    }
    assert wideStop < |present| ==> Opens(present, wideStop, sums, high);
    assert wideStop < |present| ==> Opens(present, wideStop, sums, low);
  }

  // ---- the query-time map ---------------------------------------------------

  predicate Holds(row: Section, verseId: int) {
    row.span.startVerseId <= verseId <= row.span.endVerseId
  }

  /** What the map promises. */
  ghost predicate Looks(rows: seq<Section>, ungoverned: seq<int>, m: map<int, Section>) {
    && (forall v :: v in m ==> v in ungoverned && m[v] in rows && Holds(m[v], v))
    && (forall v, row :: v in ungoverned && row in rows && Holds(row, v) ==> v in m)
  }

  /** The map filled row after row, verse after verse. */
  method PericopeOf(rows: seq<Section>, ungoverned: seq<int>) returns (pericopeOf: map<int, Section>)
    ensures Looks(rows, ungoverned, pericopeOf)
    ensures forall v :: v in pericopeOf ==>
      && v in ungoverned && pericopeOf[v] in rows
      && pericopeOf[v].span.startVerseId <= v <= pericopeOf[v].span.endVerseId
    ensures forall v, row :: v in ungoverned && row in rows && row.span.startVerseId <= v <= row.span.endVerseId ==>
      v in pericopeOf
  {
    pericopeOf := map[];
    for i := 0 to |rows|
      invariant forall v :: v in pericopeOf ==> v in ungoverned && pericopeOf[v] in rows[..i] && Holds(pericopeOf[v], v)
      invariant forall v, row :: v in ungoverned && row in rows[..i] && Holds(row, v) ==> v in pericopeOf
    {
      for j := 0 to |ungoverned|
        invariant forall v :: v in pericopeOf ==>
          v in ungoverned && pericopeOf[v] in rows[..i + 1] && Holds(pericopeOf[v], v)
        invariant forall v, row :: v in ungoverned && row in rows[..i] && Holds(row, v) ==> v in pericopeOf
        invariant forall v :: v in ungoverned[..j] && Holds(rows[i], v) ==> v in pericopeOf
      {
        var verseId := ungoverned[j];
        if Holds(rows[i], verseId) {
          assert rows[..i + 1][i] == rows[i];
          pericopeOf := pericopeOf[verseId := rows[i]];
        }
        assert ungoverned[..j + 1] == ungoverned[..j] + [verseId];
      }
      assert ungoverned[..|ungoverned|] == ungoverned;
      assert rows[..i + 1] == rows[..i] + [rows[i]];
    }
    assert rows[..|rows|] == rows;
  }

  /** The rows store pericopes of the tiling, each at most once. */
  ghost predicate Stores(rows: seq<Section>, tiling: seq<Pericope>) {
    && (forall row :: row in rows ==> row.span in tiling)
    && (forall row, other :: row in rows && other in rows && row.span == other.span ==> row == other)
  }

  /** Two stored pericopes that hold the same verse are the same row. */
  lemma HoldersAgree(tiling: seq<Pericope>, rows: seq<Section>, row: Section, other: Section, v: int)
    requires Ordered(tiling) && Stores(rows, tiling)
    requires row in rows && other in rows && Holds(row, v) && Holds(other, v)
    ensures row == other
  {
    var t :| 0 <= t < |tiling| && tiling[t] == row.span;
    var u :| 0 <= u < |tiling| && tiling[u] == other.span;
    OrderedApart(tiling, if t < u then t else u, if t < u then u else t);
  }

  /** Over ordered pericopes the query-time map depends on neither row order nor verse order. */
  lemma LookupForgetsOrder(tiling: seq<Pericope>, rows: seq<Section>, rows': seq<Section>,
                           ids: seq<int>, ids': seq<int>, m: map<int, Section>, m': map<int, Section>)
    requires Ordered(tiling) && Stores(rows, tiling)
    requires forall row :: row in rows <==> row in rows'
    requires forall v :: v in ids <==> v in ids'
    requires Looks(rows, ids, m) && Looks(rows', ids', m')
    ensures m == m'
  {
    forall v | v in m ensures v in m' && m[v] == m'[v] {
      assert m[v] in rows' && v in ids';
      HoldersAgree(tiling, rows, m[v], m'[v], v);
    }
    forall v | v in m' ensures v in m { assert m'[v] in rows && v in ids; }
  }

  lemma {:induction false} OrderedApart(tiling: seq<Pericope>, t: nat, u: nat)
    requires Ordered(tiling) && t <= u < |tiling|
    ensures t < u ==> tiling[t].endVerseId < tiling[u].startVerseId
  {
    if t < u { OrderedApart(tiling, t, u - 1); }
  }
}
