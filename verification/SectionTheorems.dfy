/**
 * From derived sections to merged rows: a page whose lookup reads stored pericopes groups exactly
 * the rank-neighbours of one derived pericope, and no boundary ever lies inside a section row.
 */
module SectionTheorems {
  import opened CollapseModel
  import opened CollapseTheorems
  import opened Outcomes
  import P = Pericopes

  /** The derived tiling of the present verses, stored in full. */
  datatype Derivation = Derivation(present: seq<int>, sums: map<int, int>, threshold: int, tiling: seq<P.Pericope>,
                                   rows: seq<Section>)
  {
    ghost predicate Valid() {
      && P.Ascends(present) && P.IsTiling(present, sums, threshold, tiling)
      && P.Stores(rows, tiling)
      && forall t :: 0 <= t < |tiling| ==> exists row :: row in rows && row.span == tiling[t]
    }
  }

  /** The page looked up every verse no anchor span claims. */
  ghost predicate LooksUp(p: Page, d: Derivation, ungoverned: seq<int>) {
    && P.Looks(d.rows, ungoverned, p.pericopeOf)
    && forall i :: 0 <= i < |p.results| && p.Known(i) && !p.Anchored(i) ==> p.VerseAt(i).verseId in ungoverned
  }

  predicate Within(section: P.Pericope, verseId: int) {
    section.startVerseId <= verseId <= section.endVerseId
  }

  /** Which pericope a looked-up section is. */
  lemma SectionIsDerived(p: Page, d: Derivation, ungoverned: seq<int>, i: nat) returns (t: nat)
    requires d.Valid() && LooksUp(p, d, ungoverned) && i < |p.results| && p.Sectioned(i)
    ensures t < |d.tiling| && p.SectionAt(i).span == d.tiling[t] && Within(d.tiling[t], p.VerseAt(i).verseId)
  {
    assert p.SectionAt(i) in d.rows && P.Holds(p.SectionAt(i), p.VerseAt(i).verseId);
    t :| 0 <= t < |d.tiling| && d.tiling[t] == p.SectionAt(i).span;
  }

  /** Pericopes that start together are one. */
  lemma StartsDiffer(d: Derivation, t: nat, u: nat)
    requires d.Valid() && t < |d.tiling| && u < |d.tiling|
    requires d.tiling[t].startVerseId == d.tiling[u].startVerseId
    ensures t == u
  {
    P.TilingIsOrdered(d.present, d.sums, d.threshold, d.tiling);
    if t < u { P.OrderedApart(d.tiling, t, u); }
    if u < t { P.OrderedApart(d.tiling, u, t); }
  }

  /** A verse of a pericope that no anchor claims is looked up in that pericope. */
  lemma VerseIsSectioned(p: Page, d: Derivation, ungoverned: seq<int>, i: nat, t: nat)
    requires d.Valid() && LooksUp(p, d, ungoverned) && i < |p.results| && t < |d.tiling|
    requires p.Known(i) && !p.Anchored(i) && Within(d.tiling[t], p.VerseAt(i).verseId)
    ensures p.Sectioned(i) && p.SectionAt(i).span == d.tiling[t]
  {
    var row :| row in d.rows && row.span == d.tiling[t];
    assert P.Holds(row, p.VerseAt(i).verseId);
    P.TilingIsOrdered(d.present, d.sums, d.threshold, d.tiling);
    P.HoldersAgree(d.tiling, d.rows, row, p.SectionAt(i), p.VerseAt(i).verseId);
  }

  /** Some derived pericope holds both verses. */
  ghost predicate OnePericope(d: Derivation, v: int, w: int) {
    exists t :: 0 <= t < |d.tiling| && Within(d.tiling[t], v) && Within(d.tiling[t], w)
  }

  /**
   * Two rank-neighbours travel together exactly when no anchor claims either, their ids are one
   * apart, and one derived pericope holds both.
   */
  lemma LinkedMeansOnePericope(p: Page, d: Derivation, ungoverned: seq<int>, i: nat)
    requires d.Valid() && LooksUp(p, d, ungoverned) && i + 1 < |p.results|
    ensures p.Linked(i) <==>
      && p.Known(i) && p.Known(i + 1) && !p.Anchored(i) && !p.Anchored(i + 1)
      && Adjacent(p.VerseAt(i).verseId, p.VerseAt(i + 1).verseId)
      && OnePericope(d, p.VerseAt(i).verseId, p.VerseAt(i + 1).verseId)
  {
    if p.Linked(i) {
      var t := SectionIsDerived(p, d, ungoverned, i);
      var u := SectionIsDerived(p, d, ungoverned, i + 1);
      StartsDiffer(d, t, u);
    }
    if p.Known(i) && p.Known(i + 1) && !p.Anchored(i) && !p.Anchored(i + 1)
       && OnePericope(d, p.VerseAt(i).verseId, p.VerseAt(i + 1).verseId)
    {
      var t :| 0 <= t < |d.tiling| && Within(d.tiling[t], p.VerseAt(i).verseId)
               && Within(d.tiling[t], p.VerseAt(i + 1).verseId);
      VerseIsSectioned(p, d, ungoverned, i, t);
      VerseIsSectioned(p, d, ungoverned, i + 1, t);
    }
  }

  /** No present verse after the first one of the pericope starts a book or has the votes to open one. */
  ghost predicate NoBoundaryInside(d: Derivation, section: P.Pericope) {
    forall k :: 0 <= k < |d.present| && section.startVerseId < d.present[k] <= section.endVerseId ==>
      P.BookOf(d.present[k]) == P.BookOf(section.startVerseId) && P.SumAt(d.sums, d.present[k]) < d.threshold
  }

  lemma NothingOpens(d: Derivation, t: nat)
    requires d.Valid() && t < |d.tiling|
    ensures NoBoundaryInside(d, d.tiling[t])
  {
    P.PericopeIsSound(d.present, d.sums, d.threshold, d.tiling, t);
  }

  /** The members of a section run all lie in this pericope. */
  ghost predicate RunLiesIn(p: Page, section: P.Pericope, lo: nat, hi: nat) {
    lo < hi <= |p.results| && forall k :: lo <= k < hi ==> p.Known(k) && Within(section, p.VerseAt(k).verseId)
  }

  /**
   * A section row comes from one derived pericope: all its members lie in it, the row cites its
   * range and the sum of all votes at its start, and no boundary lies inside.
   */
  lemma SectionRowIsOnePericope(p: Page, d: Derivation, ungoverned: seq<int>, keys: seq<GroupKey>, i: nat)
    returns (t: nat)
    requires d.Valid() && LooksUp(p, d, ungoverned) && p.Keyed(keys) && i < |keys| && keys[i].Run?
    ensures t < |d.tiling| && keys[i].start < |p.results|
    ensures RunLiesIn(p, d.tiling[t], keys[i].start, RunEnd(p, keys[i].start))
    ensures NoBoundaryInside(d, d.tiling[t])
    ensures var grouping := p.RowAt(keys, i).grouping;
      && grouping.Some? && grouping.value.startVerseId == d.tiling[t].startVerseId
      && grouping.value.endVerseId == d.tiling[t].endVerseId
      && grouping.value.boundaryVotes == Some(P.SumAt(d.sums, d.tiling[t].startVerseId))
  {
    RunIsMaximalBlock(p, keys, i);
    assert p.KeyAt(i) == keys[i];
    var lo := keys[i].start;
    t := SectionIsDerived(p, d, ungoverned, i);
    forall k | lo <= k < RunEnd(p, lo) ensures p.Known(k) && Within(d.tiling[t], p.VerseAt(k).verseId) {
      var u := SectionIsDerived(p, d, ungoverned, k);
      StartsDiffer(d, t, u);
    }
    NothingOpens(d, t);
    P.PericopeIsSound(d.present, d.sums, d.threshold, d.tiling, t);
  }

  /** The page does not depend on the order in which the stored pericopes or the verses were listed. */
  lemma PageForgetsOrder(p: Page, p': Page, d: Derivation, rows: seq<Section>, ids: seq<int>, ids': seq<int>)
    requires d.Valid() && p' == p.(pericopeOf := p'.pericopeOf)
    requires (forall row :: row in d.rows <==> row in rows) && forall v :: v in ids <==> v in ids'
    requires P.Looks(d.rows, ids, p.pericopeOf) && P.Looks(rows, ids', p'.pericopeOf)
    ensures p' == p
  {
    P.TilingIsOrdered(d.present, d.sums, d.threshold, d.tiling);
    P.LookupForgetsOrder(d.tiling, d.rows, rows, ids, ids', p.pericopeOf, p'.pericopeOf);
  }
}
