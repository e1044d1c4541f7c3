/** Recovering an author's spans: consecutive verses with one body become one document. */
module Expositions {
  import opened CodeUnits
  import opened VerseId

  datatype Entry = Entry(verseId: int, bookId: int, chapter: int, verse: int, body: Str)
  datatype Source = Source(id: Str, authorId: Str)

  /** The printed locator: one verse, or a span whose end leaves out the book. */
  datatype Locator =
    | OneVerse(bookId: int, chapter: int, verse: int)
    | Span(bookId: int, chapter: int, verse: int, lastChapter: int, lastVerse: int)

  datatype Document = Document(startVerseId: int, endVerseId: int, sourceId: Str, authorId: Str, locator: Locator,
                               body: Str)

  /** The entry at `k` goes on with the run opened at `open`. */
  predicate Continues(entries: seq<Entry>, open: nat, k: nat)
    requires open <= k < |entries|
  {
    entries[k].bookId == entries[open].bookId && entries[k].body == entries[open].body
  }

  /** The run from `open` up to `stop`, and no further. */
  ghost predicate IsRun(entries: seq<Entry>, open: nat, stop: nat) {
    && open < stop <= |entries|
    && (forall k :: open <= k < stop ==> Continues(entries, open, k))
    && (stop < |entries| ==> !Continues(entries, open, stop))
  }

  function LocatorOf(first: Entry, last: Entry): Locator {
    if first.verseId == last.verseId then OneVerse(first.bookId, first.chapter, first.verse)
    else Span(first.bookId, first.chapter, first.verse, last.chapter, last.verse)
  }

  function RunDocument(source: Source, entries: seq<Entry>, open: nat, stop: nat): Document
    requires open < stop <= |entries|
  {
    Document(entries[open].verseId, entries[stop - 1].verseId, source.id, source.authorId,
             LocatorOf(entries[open], entries[stop - 1]), entries[open].body)
  }

  /** `bounds` cuts the entries into maximal runs and the documents are those runs. */
  ghost predicate IsCollapse(source: Source, entries: seq<Entry>, documents: seq<Document>, bounds: seq<nat>,
                             upTo: nat)
  {
    && |bounds| == |documents| + 1 && bounds[0] == 0 && bounds[|documents|] == upTo <= |entries|
    && forall d {:trigger DocumentAt(source, entries, documents, bounds, d)} :: 0 <= d < |documents| ==>
         DocumentAt(source, entries, documents, bounds, d)
  }

  /** Document `d` is the run between its two bounds. */
  ghost predicate DocumentAt(source: Source, entries: seq<Entry>, documents: seq<Document>, bounds: seq<nat>, d: nat)
    requires |bounds| == |documents| + 1 && d < |documents|
  {
    IsRun(entries, bounds[d], bounds[d + 1]) && documents[d] == RunDocument(source, entries, bounds[d], bounds[d + 1])
  }

  lemma OneMoreRun(source: Source, entries: seq<Entry>, documents: seq<Document>, bounds: seq<nat>, index: nat,
                   end: nat)
    requires IsCollapse(source, entries, documents, bounds, index) && IsRun(entries, index, end)
    ensures IsCollapse(source, entries, documents + [RunDocument(source, entries, index, end)], bounds + [end], end)
  {
    var more, cuts := documents + [RunDocument(source, entries, index, end)], bounds + [end];
    forall d | 0 <= d < |more| ensures DocumentAt(source, entries, more, cuts, d) {
      if d < |documents| { assert DocumentAt(source, entries, documents, bounds, d); }
    }
  }

  method CollapseRepeatedBodies(source: Source, entries: seq<Entry>)
    returns (documents: seq<Document>, ghost bounds: seq<nat>)
    ensures IsCollapse(source, entries, documents, bounds, |entries|)
  {
    documents, bounds := [], [0];
    var index := 0;
    while index < |entries|
      invariant IsCollapse(source, entries, documents, bounds, index)
    {
      var first := entries[index];
      var end := index + 1;
      while end < |entries| && entries[end].bookId == first.bookId && entries[end].body == first.body
        invariant index < end <= |entries|
        invariant forall k :: index <= k < end ==> Continues(entries, index, k)
      {
        end := end + 1;
      }
      OneMoreRun(source, entries, documents, bounds, index, end);
      var last := entries[end - 1];
      documents := documents + [Document(first.verseId, last.verseId, source.id, source.authorId,
                                         if first.verseId == last.verseId
                                         then OneVerse(first.bookId, first.chapter, first.verse)
                                         else Span(first.bookId, first.chapter, first.verse, last.chapter, last.verse),
                                         first.body)];
      bounds := bounds + [end];
      index := end;
    }
  }

  ghost predicate Ascends(entries: seq<Entry>) {
    forall i, j :: 0 <= i < j < |entries| ==> entries[i].verseId < entries[j].verseId
  }

  lemma {:induction false} BoundsAscend(source: Source, entries: seq<Entry>, documents: seq<Document>,
                                        bounds: seq<nat>, d: nat, e: nat)
    requires IsCollapse(source, entries, documents, bounds, |entries|) && d <= e <= |documents|
    ensures bounds[d] <= bounds[e] <= |entries| && (d < e ==> bounds[d] < bounds[e])
    decreases e - d
  {
    if d < e {
      BoundsAscend(source, entries, documents, bounds, d, e - 1);
      assert DocumentAt(source, entries, documents, bounds, e - 1);
    } else if d < |documents| {
      assert DocumentAt(source, entries, documents, bounds, d);
    }
  }

  /** The run that holds entry `k`. */
  lemma {:induction false} RunOf(source: Source, entries: seq<Entry>, documents: seq<Document>, bounds: seq<nat>,
                                 k: nat, n: nat)
    returns (d: nat)
    requires IsCollapse(source, entries, documents, bounds, |entries|) && n <= |documents| && k < bounds[n]
    ensures d < n && bounds[d] <= k < bounds[d + 1]
  {
    if bounds[n - 1] <= k { d := n - 1; } else { d := RunOf(source, entries, documents, bounds, k, n - 1); }
  }

  /** Nothing is lost: every entry lies in exactly one document, and its body is that document's. */
  lemma EachEntryOnce(source: Source, entries: seq<Entry>, documents: seq<Document>, bounds: seq<nat>, k: nat)
    returns (d: nat)
    requires IsCollapse(source, entries, documents, bounds, |entries|) && Ascends(entries) && k < |entries|
    ensures d < |documents| && documents[d].startVerseId <= entries[k].verseId <= documents[d].endVerseId
    ensures documents[d].body == entries[k].body
    ensures forall e ::
      0 <= e < |documents| && documents[e].startVerseId <= entries[k].verseId <= documents[e].endVerseId ==> e == d
  {
    d := RunOf(source, entries, documents, bounds, k, |documents|);
    assert DocumentAt(source, entries, documents, bounds, d);
    assert Continues(entries, bounds[d], k);
    forall e | 0 <= e < |documents| && documents[e].startVerseId <= entries[k].verseId <= documents[e].endVerseId
      ensures e == d
    {
      OnlyIn(source, entries, documents, bounds, k, d, e);
    }
  }

  lemma OnlyIn(source: Source, entries: seq<Entry>, documents: seq<Document>, bounds: seq<nat>, k: nat, d: nat, e: nat)
    requires IsCollapse(source, entries, documents, bounds, |entries|) && Ascends(entries) && k < |entries|
    requires d < |documents| && bounds[d] <= k < bounds[d + 1] && e < |documents|
    requires documents[e].startVerseId <= entries[k].verseId <= documents[e].endVerseId
    ensures e == d
  {
    assert DocumentAt(source, entries, documents, bounds, e);
    if e < d { BoundsAscend(source, entries, documents, bounds, e + 1, d); }
    if d < e { BoundsAscend(source, entries, documents, bounds, d + 1, e); }
  }

  /** Documents are in verse order, apart, inside one book, and neighbours differ in body or book. */
  lemma DocumentsAreMaximal(source: Source, entries: seq<Entry>, documents: seq<Document>, bounds: seq<nat>, d: nat)
    requires IsCollapse(source, entries, documents, bounds, |entries|) && Ascends(entries) && d < |documents|
    ensures bounds[d] < bounds[d + 1] <= |entries| && documents[d].startVerseId <= documents[d].endVerseId
    ensures documents[d].startVerseId == entries[bounds[d]].verseId
    ensures documents[d].endVerseId == entries[bounds[d + 1] - 1].verseId
    ensures forall k :: bounds[d] <= k < bounds[d + 1] ==>
      entries[k].bookId == entries[bounds[d]].bookId && entries[k].body == documents[d].body
    ensures d + 1 < |documents| ==>
      && bounds[d + 1] < |entries|
      && documents[d].endVerseId < documents[d + 1].startVerseId
      && (documents[d].body != documents[d + 1].body || entries[bounds[d]].bookId != entries[bounds[d + 1]].bookId)
  {
    assert DocumentAt(source, entries, documents, bounds, d);
    forall k | bounds[d] <= k < bounds[d + 1]
      ensures entries[k].bookId == entries[bounds[d]].bookId && entries[k].body == documents[d].body
    {
      assert Continues(entries, bounds[d], k);
    }
    if d + 1 < |documents| {
      assert DocumentAt(source, entries, documents, bounds, d + 1);
      assert !Continues(entries, bounds[d], bounds[d + 1]);
    }
  }

  /** Entries whose ids are those of their verses. */
  ghost predicate Located(entries: seq<Entry>) {
    forall k {:trigger entries[k]} :: 0 <= k < |entries| ==>
      Encodes(entries[k].verseId, entries[k].bookId, entries[k].chapter, entries[k].verse)
  }

  /** A locator names the range of its document, although it gives the book only once. */
  lemma LocatorNamesRange(source: Source, entries: seq<Entry>, documents: seq<Document>, bounds: seq<nat>, d: nat)
    requires IsCollapse(source, entries, documents, bounds, |entries|) && Located(entries) && d < |documents|
    ensures documents[d].sourceId == source.id && documents[d].authorId == source.authorId
    ensures match documents[d].locator
            case OneVerse(bookId, chapter, verse) =>
              documents[d].startVerseId == documents[d].endVerseId
              && Encodes(documents[d].startVerseId, bookId, chapter, verse)
            case Span(bookId, chapter, verse, lastChapter, lastVerse) =>
              documents[d].startVerseId != documents[d].endVerseId
              && Encodes(documents[d].startVerseId, bookId, chapter, verse)
              && Encodes(documents[d].endVerseId, bookId, lastChapter, lastVerse)
  {
    assert DocumentAt(source, entries, documents, bounds, d);
    BoundsAscend(source, entries, documents, bounds, d + 1, |documents|);
    assert Continues(entries, bounds[d], bounds[d + 1] - 1);
  }
}
