/** Length-delimited record streams: decimal length, separator, record, one after the other. */
module RecordStream {
  import opened Outcomes

  /** The symbols of the length prefix. */
  datatype Alphabet<T> = Alphabet(digits: seq<T>, separator: T) {
    ghost predicate Valid() {
      |digits| == 10 && separator !in digits && forall i, j :: 0 <= i < j < 10 ==> digits[i] != digits[j]
    }
  }

  function Decimal<T>(alphabet: Alphabet<T>, n: nat): seq<T>
    requires |alphabet.digits| == 10
  {
    if n < 10 then [alphabet.digits[n]] else Decimal(alphabet, n / 10) + [alphabet.digits[n % 10]]
  }

  function Frame<T>(alphabet: Alphabet<T>, record: seq<T>): seq<T>
    requires |alphabet.digits| == 10
  {
    Decimal(alphabet, |record|) + [alphabet.separator] + record
  }

  function Stream<T>(alphabet: Alphabet<T>, records: seq<seq<T>>): seq<T>
    requires |alphabet.digits| == 10
  {
    if records == [] then [] else Frame(alphabet, records[0]) + Stream(alphabet, records[1..])
  }

  // ---- reading a stream ------------------------------------------------------------

  /** The value of a digit, or 10 for any other symbol. */
  function DigitValue<T(==)>(digits: seq<T>, x: T): (d: nat)
    ensures d <= |digits| && (d < |digits| ==> digits[d] == x) && (d == |digits| <==> x !in digits)
  {
    if digits == [] || digits[0] == x then 0 else 1 + DigitValue(digits[1..], x)
  }

  /** The digits at the head of `s`, read onto `n`. */
  function ReadNumber<T(==)>(alphabet: Alphabet<T>, s: seq<T>, n: nat): (r: (nat, seq<T>))
    ensures |r.1| <= |s|
  {
    if s == [] || s[0] !in alphabet.digits then (n, s)
    else ReadNumber(alphabet, s[1..], n * 10 + DigitValue(alphabet.digits, s[0]))
  }

  function Parse<T(==)>(alphabet: Alphabet<T>, s: seq<T>): Option<seq<seq<T>>>
    decreases |s|
  {
    if s == [] then Some([])
    else
      var (n, rest) := ReadNumber(alphabet, s, 0);
      if rest == [] || rest[0] != alphabet.separator || |rest| < 1 + n then None
      else match Parse(alphabet, rest[1 + n..])
        case None => None
        case Some(records) => Some([rest[1..1 + n]] + records)
  }

  // ---- decoding ----------------------------------------------------------------------

  lemma DigitValueOf<T>(alphabet: Alphabet<T>, d: nat)
    requires alphabet.Valid() && d < 10
    ensures alphabet.digits[d] in alphabet.digits && DigitValue(alphabet.digits, alphabet.digits[d]) == d
  {
    assert alphabet.digits[d] in alphabet.digits;
  }

  lemma ReadDigit<T>(alphabet: Alphabet<T>, d: nat, tail: seq<T>, n: nat)
    requires alphabet.Valid() && d < 10
    ensures ReadNumber(alphabet, [alphabet.digits[d]] + tail, n) == ReadNumber(alphabet, tail, n * 10 + d)
  {
    DigitValueOf(alphabet, d);
    assert ([alphabet.digits[d]] + tail)[1..] == tail;
  }

  lemma Reassociate<T>(a: seq<T>, b: seq<T>, c: seq<T>)
    ensures a + b + c == a + (b + c)
  {
  }

  lemma {:induction false} DecimalReads<T>(alphabet: Alphabet<T>, n: nat, tail: seq<T>)
    requires alphabet.Valid()
    ensures ReadNumber(alphabet, Decimal(alphabet, n) + tail, 0) == ReadNumber(alphabet, tail, n)
  {
    if n < 10 {
      ReadDigit(alphabet, n, tail, 0);
    } else {
      var front, last := Decimal(alphabet, n / 10), [alphabet.digits[n % 10]];
      DecimalReads(alphabet, n / 10, last + tail);
      ReadDigit(alphabet, n % 10, tail, n / 10);
      Reassociate(front, last, tail);
    }
  }

  lemma FrameReads<T>(alphabet: Alphabet<T>, record: seq<T>, tail: seq<T>)
    requires alphabet.Valid()
    ensures Parse(alphabet, Frame(alphabet, record) + tail)
         == match Parse(alphabet, tail) case None => None case Some(records) => Some([record] + records)
  {
    var body := [alphabet.separator] + record + tail;
    DecimalReads(alphabet, |record|, body);
    assert Frame(alphabet, record) + tail == Decimal(alphabet, |record|) + body;
    assert ReadNumber(alphabet, body, |record|) == (|record|, body);
    assert body[1..1 + |record|] == record && body[1 + |record|..] == tail;
  }

  /** The stream says exactly which records it was fed, for any records. */
  lemma {:induction false} StreamDecodes<T>(alphabet: Alphabet<T>, records: seq<seq<T>>)
    requires alphabet.Valid()
    ensures Parse(alphabet, Stream(alphabet, records)) == Some(records)
  {
    if records != [] {
      StreamDecodes(alphabet, records[1..]);
      FrameReads(alphabet, records[0], Stream(alphabet, records[1..]));
      assert records == [records[0]] + records[1..];
    }
  }

  /** Differently split records never give the same stream. */
  lemma StreamIsInjective<T>(alphabet: Alphabet<T>, a: seq<seq<T>>, b: seq<seq<T>>)
    requires alphabet.Valid()
    ensures Stream(alphabet, a) == Stream(alphabet, b) <==> a == b
  {
    StreamDecodes(alphabet, a);
    StreamDecodes(alphabet, b);
  }

  lemma {:induction false} StreamAppends<T>(alphabet: Alphabet<T>, a: seq<seq<T>>, b: seq<seq<T>>)
    requires |alphabet.digits| == 10
    ensures Stream(alphabet, a + b) == Stream(alphabet, a) + Stream(alphabet, b)
  {
    if a == [] {
      assert a + b == b;
    } else {
      StreamAppends(alphabet, a[1..], b);
      assert (a + b)[1..] == a[1..] + b && (a + b)[0] == a[0];
      Reassociate(Frame(alphabet, a[0]), Stream(alphabet, a[1..]), Stream(alphabet, b));
    }
  }

  lemma StreamGrows<T>(alphabet: Alphabet<T>, records: seq<seq<T>>, record: seq<T>)
    requires |alphabet.digits| == 10
    ensures Stream(alphabet, records + [record])
         == Stream(alphabet, records) + Decimal(alphabet, |record|) + [alphabet.separator] + record
  {
    StreamAppends(alphabet, records, [record]);
    assert Stream(alphabet, [record]) == Frame(alphabet, record);
  }
}
