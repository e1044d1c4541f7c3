/** The BBCCCVVV verse-id codec. */
module VerseId {
  import opened Outcomes

  datatype Location = Location(bookId: int, chapter: int, verse: int)
  datatype RangeError = BadBook | BadChapter | BadVerse | BadId

  const MAX_BOOK_ID := 66
  const MAX_CHAPTER := 999
  const MAX_VERSE := 999

  function MakeVerseId(bookId: int, chapter: int, verse: int): Outcome<int, RangeError> {
    if bookId < 1 || bookId > MAX_BOOK_ID then Thrown(BadBook)
    else if chapter < 1 || chapter > MAX_CHAPTER then Thrown(BadChapter)
    else if verse < 1 || verse > MAX_VERSE then Thrown(BadVerse)
    else Ok(bookId * 1_000_000 + chapter * 1_000 + verse)
  }

  function ParseVerseId(verseId: int): Outcome<Location, RangeError> {
    if verseId < 1_001_001 || verseId > 66_999_999 then Thrown(BadId)
    else
      var bookId := verseId / 1_000_000;
      var chapter := verseId % 1_000_000 / 1_000;
      var verse := verseId % 1_000;
      var _ :- MakeVerseId(bookId, chapter, verse);
      Ok(Location(bookId, chapter, verse))
  }

  /** Where a verse sits agrees with the id it carries. */
  predicate Encodes(verseId: int, bookId: int, chapter: int, verse: int) {
    MakeVerseId(bookId, chapter, verse) == Ok(verseId)
  }

  /** Parsing inverts making, and accepts nothing that was not made. */
  lemma ParseInvertsMake(verseId: int, bookId: int, chapter: int, verse: int)
    ensures Encodes(verseId, bookId, chapter, verse)
       <==> ParseVerseId(verseId) == Ok(Location(bookId, chapter, verse))
  {
    if Encodes(verseId, bookId, chapter, verse) {
      assert verseId / 1_000_000 == bookId;
      assert verseId % 1_000_000 == chapter * 1_000 + verse;
      assert verseId % 1_000 == verse;
    }
  }

  /** An id takes a book from 1 to 66, a chapter and a verse from 1 to 999; the first out of range is named. */
  lemma MakeSpells(bookId: int, chapter: int, verse: int)
    ensures MakeVerseId(bookId, chapter, verse)
         == if !(1 <= bookId <= 66) then Thrown(BadBook)
            else if !(1 <= chapter <= 999) then Thrown(BadChapter)
            else if !(1 <= verse <= 999) then Thrown(BadVerse)
            else Ok(bookId * 1_000_000 + chapter * 1_000 + verse)
  {
  }

  /** Parsing takes exactly the ids of such a place, and gives the place back. */
  lemma ParseSpells(verseId: int)
    ensures var bookId, chapter, verse := verseId / 1_000_000, verseId % 1_000_000 / 1_000, verseId % 1_000;
      && (ParseVerseId(verseId).Ok? <==> 1 <= bookId <= 66 && chapter >= 1 && verse >= 1)
      && (ParseVerseId(verseId).Ok? ==> ParseVerseId(verseId).value == Location(bookId, chapter, verse))
  {
  }

  /** One id step never leaves a chapter: there is no verse 0 and no verse 1000. */
  lemma NeighbourStaysInChapter(a: int, b: int, la: Location, lb: Location)
    requires Encodes(a, la.bookId, la.chapter, la.verse) && Encodes(b, lb.bookId, lb.chapter, lb.verse)
    requires b == a + 1
    ensures lb == la.(verse := la.verse + 1)
  {
    var chapters := 1_000 * (lb.bookId - la.bookId) + (lb.chapter - la.chapter);
    assert 1_000 * chapters == la.verse + 1 - lb.verse;
    assert chapters == 0;
  }
}
