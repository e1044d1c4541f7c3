/**
 * The bytes the pipeline feeds its hashes: text records as UTF-8, each behind its length.
 * Node replaces a lone surrogate by U+FFFD before it encodes.
 */
module HashFeed {
  import opened CodeUnits
  import opened RecordStream
  import opened Utf8
  import Sorting

  // ---- lone surrogates -------------------------------------------------------------

  predicate Lone(text: Str, i: nat)
    requires i < |text|
  {
    || (High(text[i]) && !(i + 1 < |text| && Low(text[i + 1])))
    || (Low(text[i]) && !(0 < i && High(text[i - 1])))
  }

  function Repaired(text: Str): (r: Str)
    ensures |r| == |text|
  {
    seq(|text|, i requires 0 <= i < |text| => if Lone(text, i) then 0xFFFD else text[i])
  }

  lemma RepairedIsWellFormed(text: Str)
    ensures WellFormed(Repaired(text)) && (WellFormed(text) <==> Repaired(text) == text)
  {
    var r := Repaired(text);
    forall i | 0 <= i < |r| ensures High(r[i]) ==> i + 1 < |r| && Low(r[i + 1]) {
      if High(r[i]) { assert !Lone(text, i) && !Lone(text, i + 1); }
    }
    forall i | 0 <= i < |r| ensures Low(r[i]) ==> 0 < i && High(r[i - 1]) {
      if Low(r[i]) { assert !Lone(text, i) && !Lone(text, i - 1); }
    }
  }

  lemma WellFormedJoins(a: Str, b: Str)
    requires WellFormed(a) && WellFormed(b)
    ensures WellFormed(a + b)
  {
    var t := a + b;
    forall i | 0 <= i < |t| && High(t[i]) ensures i + 1 < |t| && Low(t[i + 1]) {
      if i < |a| { assert High(a[i]); } else { assert High(b[i - |a|]); }
    }
    forall i | 0 <= i < |t| && Low(t[i]) ensures 0 < i && High(t[i - 1]) {
      if i < |a| { assert Low(a[i]); } else { assert Low(b[i - |a|]); }
    }
  }

  // ---- encoding a concatenation ------------------------------------------------------

  lemma {:induction false} PointsOfSecond(a: Str, b: Str, j: nat)
    requires j <= |b|
    ensures Points(a + b, |a| + j) == Points(b, j)
    decreases |b| - j
  {
    if j < |b| {
      assert (a + b)[|a| + j] == b[j];
      assert j + 1 < |b| ==> (a + b)[|a| + j + 1] == b[j + 1];
      PointsOfSecond(a, b, After(b, j));
    }
  }

  lemma {:induction false} PointsOfBoth(a: Str, b: Str, i: nat)
    requires i <= |a| && WellFormed(a)
    ensures Points(a + b, i) == Points(a, i) + Points(b, 0)
    decreases |a| - i
  {
    if i == |a| {
      PointsOfSecond(a, b, 0);
    } else {
      assert (a + b)[i] == a[i];
      assert i + 1 < |a| ==> (a + b)[i + 1] == a[i + 1];
      assert After(a + b, i) == After(a, i);
      PointsOfBoth(a, b, After(a, i));
    }
  }

  lemma {:induction false} EncodeAllJoins(p: seq<int>, q: seq<int>)
    requires forall k :: 0 <= k < |p| ==> 0 <= p[k] < 0x11_0000
    requires forall k :: 0 <= k < |q| ==> 0 <= q[k] < 0x11_0000
    ensures EncodeAll(p + q) == EncodeAll(p) + EncodeAll(q)
  {
    if p == [] {
      assert p + q == q;
    } else {
      EncodeAllJoins(p[1..], q);
      assert (p + q)[1..] == p[1..] + q;
    }
  }

  /** After a well-formed text, encoding goes on where it stopped. */
  lemma EncodedJoins(a: Str, b: Str)
    requires WellFormed(a)
    ensures Encoded(a + b) == Encoded(a) + Encoded(b)
  {
    PointsOfBoth(a, b, 0);
    EncodeAllJoins(Points(a, 0), Points(b, 0));
  }

  // ---- record streams ------------------------------------------------------------------

  const DIGITS: Str := [0x30, 0x31, 0x32, 0x33, 0x34, 0x35, 0x36, 0x37, 0x38, 0x39]
  const SPACED: Alphabet<Unit> := Alphabet(DIGITS, 0x20)

  const BYTE_DIGITS: seq<Byte> := [0x30, 0x31, 0x32, 0x33, 0x34, 0x35, 0x36, 0x37, 0x38, 0x39]
  const COLONED: Alphabet<Byte> := Alphabet(BYTE_DIGITS, 0x3A)

  lemma AlphabetsAreValid()
    ensures SPACED.Valid() && COLONED.Valid()
  {
  }

  function NodeBytes(text: Str): seq<Byte> {
    Encoded(Repaired(text))
  }

  function RepairAll(records: seq<Str>): seq<Str> {
    seq(|records|, i requires 0 <= i < |records| => Repaired(records[i]))
  }

  /** The bytes a hash has met after these records. */
  function Fed(records: seq<Str>): seq<Byte> {
    Encoded(Stream(SPACED, RepairAll(records)))
  }

  lemma {:induction false} DecimalIsPlain(n: nat)
    ensures forall i :: 0 <= i < |Decimal(SPACED, n)| ==> Decimal(SPACED, n)[i] < 0x3A
  {
    if n >= 10 { DecimalIsPlain(n / 10); }
  }

  lemma PlainIsWellFormed(text: Str)
    requires forall i :: 0 <= i < |text| ==> text[i] < 0xD800
    ensures WellFormed(text) && Repaired(text) == text
  {
  }

  lemma FrameIsWellFormed(record: Str)
    requires WellFormed(record)
    ensures WellFormed(Frame(SPACED, record))
  {
    DecimalIsPlain(|record|);
    PlainIsWellFormed(Decimal(SPACED, |record|) + [0x20]);
    WellFormedJoins(Decimal(SPACED, |record|) + [0x20], record);
  }

  lemma {:induction false} StreamIsWellFormed(records: seq<Str>)
    requires forall i :: 0 <= i < |records| ==> WellFormed(records[i])
    ensures WellFormed(Stream(SPACED, records))
  {
    if records != [] {
      StreamIsWellFormed(records[1..]);
      FrameIsWellFormed(records[0]);
      WellFormedJoins(Frame(SPACED, records[0]), Stream(SPACED, records[1..]));
    }
  }

  lemma RepairedStreamIsWellFormed(records: seq<Str>)
    ensures WellFormed(Stream(SPACED, RepairAll(records)))
  {
    forall i | 0 <= i < |records| ensures WellFormed(RepairAll(records)[i]) {
      RepairedIsWellFormed(records[i]);
    }
    StreamIsWellFormed(RepairAll(records));
  }

  /** Two feeds give the same bytes exactly when their records agree up to lone surrogates. */
  lemma FedIsInjective(a: seq<Str>, b: seq<Str>)
    ensures Fed(a) == Fed(b) <==> RepairAll(a) == RepairAll(b)
    ensures (forall r :: r in a + b ==> WellFormed(r)) ==> (Fed(a) == Fed(b) <==> a == b)
  {
    AlphabetsAreValid();
    EncodingIsInjective(Stream(SPACED, RepairAll(a)), Stream(SPACED, RepairAll(b)));
    StreamIsInjective(SPACED, RepairAll(a), RepairAll(b));
    if forall r :: r in a + b ==> WellFormed(r) {
      RepairKeeps(a);
      RepairKeeps(b);
    }
  }

  lemma RepairKeeps(records: seq<Str>)
    requires forall r :: r in records ==> WellFormed(r)
    ensures RepairAll(records) == records
  {
    forall i | 0 <= i < |records| ensures RepairAll(records)[i] == records[i] {
      assert records[i] in records;
      RepairedIsWellFormed(records[i]);
    }
  }

  // ---- the running hash -----------------------------------------------------------------

  lemma FrameEncodes(front: Str, length: Str, gap: Str, record: Str)
    requires WellFormed(front) && WellFormed(length) && WellFormed(gap)
    ensures Encoded(front + length + gap + record)
         == Encoded(front) + Encoded(length) + Encoded(gap) + Encoded(record)
  {
    EncodedJoins(front, length);
    WellFormedJoins(front, length);
    EncodedJoins(front + length, gap);
    WellFormedJoins(front + length, gap);
    EncodedJoins(front + length + gap, record);
  }

  lemma PrefixIsPlain(record: Str, length: Str, gap: Str)
    requires length == Decimal(SPACED, |record|) && gap == [SPACED.separator]
    ensures WellFormed(length) && Repaired(length) == length
    ensures WellFormed(gap) && Repaired(gap) == gap
  {
    DecimalIsPlain(|record|);
    PlainIsWellFormed(length);
    PlainIsWellFormed(gap);
  }

  lemma RepairedGrows(records: seq<Str>, record: Str)
    ensures RepairAll(records + [record]) == RepairAll(records) + [Repaired(record)]
  {
  }

  lemma FeedAppends(records: seq<Str>, record: Str, length: Str, gap: Str)
    requires length == Decimal(SPACED, |record|) && gap == [SPACED.separator]
    ensures Fed(records + [record]) == Fed(records) + NodeBytes(length) + NodeBytes(gap) + NodeBytes(record)
  {
    PrefixIsPlain(record, length, gap);
    RepairedStreamIsWellFormed(records);
    RepairedGrows(records, record);
    StreamGrows(SPACED, RepairAll(records), Repaired(record));
    FrameEncodes(Stream(SPACED, RepairAll(records)), length, gap, Repaired(record));
  }

  class Hash {
    var met: seq<Byte>

    constructor ()
      ensures met == [] && met == Fed([])
    {
      met := [];
    }

    method Update(text: Str)
      modifies this
      ensures met == old(met) + NodeBytes(text)
    {
      var bytes := Utf8Bytes(Repaired(text));
      met := met + bytes;
    }

    /** The three updates of one record. */
    method Feed(record: Str, ghost records: seq<Str>)
      requires met == Fed(records)
      modifies this
      ensures met == Fed(records + [record])
    {
      var length, gap := Decimal(SPACED, |record|), [SPACED.separator];
      FeedAppends(records, record, length, gap);
      Update(length);
      Update(gap);
      Update(record);
    }

    /** The three updates of one row record. */
    method FeedRow(record: Str, ghost records: seq<Str>)
      requires met == Stream(COLONED, BytesOf(records))
      modifies this
      ensures met == Stream(COLONED, BytesOf(records + [record]))
    {
      var bytes := NodeBytes(record);
      assert BytesOf(records + [record]) == BytesOf(records) + [bytes];
      StreamGrows(COLONED, BytesOf(records), bytes);
      met := met + Decimal(COLONED, |bytes|);
      met := met + [COLONED.separator];
      met := met + bytes;
    }
  }

  function BytesOf(records: seq<Str>): seq<seq<Byte>> {
    seq(|records|, i requires 0 <= i < |records| => NodeBytes(records[i]))
  }

  // ---- row digests -----------------------------------------------------------------------

  /** What a digest of rows hashes: the sorted records, each behind its length in bytes. */
  function RowStream(records: seq<Str>): seq<Byte> {
    Stream(COLONED, BytesOf(Sorting.Sort(records, Less)))
  }

  /** `digestRows` and `tableDigest`, once a row is a record. */
  method DigestRows<D>(records: seq<Str>, sha256: seq<Byte> -> D) returns (digest: D)
    ensures digest == sha256(RowStream(records))
  {
    var sorted := Sorting.Sort(records, Less);
    var hash := new Hash();
    for i := 0 to |sorted|
      invariant hash.met == Stream(COLONED, BytesOf(sorted[..i]))
    {
      hash.FeedRow(sorted[i], sorted[..i]);
      assert sorted[..i + 1] == sorted[..i] + [sorted[i]];
    }
    assert sorted[..|sorted|] == sorted;
    digest := sha256(hash.met);
  }

  lemma BytesOfIsInjective(a: seq<Str>, b: seq<Str>)
    requires forall r :: r in a ==> WellFormed(r)
    requires forall r :: r in b ==> WellFormed(r)
    requires BytesOf(a) == BytesOf(b)
    ensures a == b
  {
    assert |BytesOf(a)| == |BytesOf(b)|;
    forall i | 0 <= i < |a| ensures a[i] == b[i] {
      assert a[i] in a && b[i] in b;
      assert BytesOf(a)[i] == BytesOf(b)[i];
      RepairedIsWellFormed(a[i]);
      RepairedIsWellFormed(b[i]);
      EncodingIsInjective(a[i], b[i]);
    }
  }

  /** Two tables hash the same stream exactly when they hold the same rows, in any order. */
  lemma RowStreamCountsRows(a: seq<Str>, b: seq<Str>)
    requires forall r :: r in a ==> WellFormed(r)
    requires forall r :: r in b ==> WellFormed(r)
    ensures RowStream(a) == RowStream(b) <==> multiset(a) == multiset(b)
  {
    var sa, sb := Sorting.Sort(a, Less), Sorting.Sort(b, Less);
    LessSorts();
    Sorting.SortSorted(a, Less);
    Sorting.SortSorted(b, Less);
    Sorting.SamePresence(a, sa);
    Sorting.SamePresence(b, sb);
    AlphabetsAreValid();
    StreamIsInjective(COLONED, BytesOf(sa), BytesOf(sb));
    if multiset(a) == multiset(b) {
      Sorting.SortedUnique(sa, sb, Less);
    }
    if RowStream(a) == RowStream(b) {
      BytesOfIsInjective(sa, sb);
    }
  }
}
