/**
 * The UTF-8 encoder of the conformance kit, over UTF-16 code units that may hold lone
 * surrogates.
 */
module Utf8 {
  import opened BitOps
  import opened CodeUnits
  import opened Outcomes

  newtype Byte = x: int | 0 <= x < 256

  predicate High(unit: Unit) {
    0xD800 <= unit <= 0xDBFF
  }

  predicate Low(unit: Unit) {
    0xDC00 <= unit <= 0xDFFF
  }

  // ---- code points ----------------------------------------------------------

  predicate Paired(text: Str, i: nat)
    requires i < |text|
  {
    High(text[i]) && i + 1 < |text| && Low(text[i + 1])
  }

  function CodeAt(text: Str, i: nat): (code: int)
    requires i < |text|
    ensures 0 <= code < 0x11_0000
    ensures Paired(text, i) <==> code >= 0x1_0000
  {
    if Paired(text, i) then 0x1_0000 + (text[i] as int - 0xD800) * 0x400 + (text[i + 1] as int - 0xDC00)
    else text[i] as int
  }

  function After(text: Str, i: nat): (next: nat)
    requires i < |text|
    ensures i < next <= |text|
  {
    if Paired(text, i) then i + 2 else i + 1
  }

  /** The code points of `text` from unit `i` on; a lone surrogate stands for itself. */
  function Points(text: Str, i: nat): (points: seq<int>)
    requires i <= |text|
    ensures forall k :: 0 <= k < |points| ==> 0 <= points[k] < 0x11_0000
    decreases |text| - i
  {
    if i == |text| then [] else [CodeAt(text, i)] + Points(text, After(text, i))
  }

  /** A number without its lowest six bits. */
  function Rest(v: nat): nat {
    v / 0x40
  }

  function Low6(v: nat): (low: nat)
    ensures low < 0x40 && v == 0x40 * Rest(v) + low
  {
    v % 0x40
  }

  function TailOf(v: nat): Byte {
    (0x80 + Low6(v)) as Byte
  }

  /** One code point in the byte layout of RFC 3629, section 3. */
  function Encode(code: int): (bytes: seq<Byte>)
    requires 0 <= code < 0x11_0000
    ensures bytes != []
  {
    if code < 0x80 then [code as Byte]
    else if code < 0x800 then [(0xC0 + Rest(code)) as Byte, TailOf(code)]
    else if code < 0x1_0000 then [(0xE0 + Rest(Rest(code))) as Byte, TailOf(Rest(code)), TailOf(code)]
    else [(0xF0 + Rest(Rest(Rest(code)))) as Byte, TailOf(Rest(Rest(code))), TailOf(Rest(code)), TailOf(code)]
  }

  function EncodeAll(points: seq<int>): seq<Byte>
    requires forall k :: 0 <= k < |points| ==> 0 <= points[k] < 0x11_0000
  {
    if points == [] then [] else Encode(points[0]) + EncodeAll(points[1..])
  }

  function Encoded(text: Str): seq<Byte> {
    EncodeAll(Points(text, 0))
  }

  // ---- the encoder ----------------------------------------------------------

  lemma Pow2Values()
    ensures Pow2(3) == 8 && Pow2(4) == 0x10 && Pow2(5) == 0x20 && Pow2(6) == 0x40
    ensures Pow2(10) == 0x400 && Pow2(12) == 0x1000 && Pow2(18) == 0x4_0000
  {
  }

  /** `lead | top`, the top bits of a code point filling the zeros of a lead byte. */
  lemma LeadByte(top: nat)
    ensures top < 0x20 ==> JsOr(0xC0, top) == 0xC0 + top
    ensures top < 0x10 ==> JsOr(0xE0, top) == 0xE0 + top
    ensures top < 8 ==> JsOr(0xF0, top) == 0xF0 + top
  {
    Pow2Values();
    if top < 0x20 { OrByte(6, top, 5); }
    if top < 0x10 { OrByte(14, top, 4); }
    if top < 8 { OrByte(30, top, 3); }
  }

  lemma OrByte(lead: nat, top: nat, n: nat)
    requires top < Pow2(n) && lead * Pow2(n) + top < 0x100
    ensures JsOr(lead * Pow2(n), top) == lead * Pow2(n) + top
  {
    SmallOperators(lead * Pow2(n), top);
    OrAdds(top, lead, n);
    OrCommutes(top, lead * Pow2(n));
  }

  /** `0x80 | (v & 0x3f)`. */
  lemma TailByte(v: nat)
    requires v < 0x8000_0000
    ensures JsOr(0x80, JsAnd(v, 0x3F)) == 0x80 + Low6(v)
  {
    SmallOperators(v, 0x3F);
    Mask6(Rest(v), Low6(v));
    Or80(Low6(v));
  }

  lemma Mask6(high: nat, low: nat)
    requires low < 0x40
    ensures And(0x40 * high + low, 0x3F) == low
  {
    Pow2Values();
    AndMasks(high, low, 6);
  }

  lemma Or80(low: nat)
    requires low < 0x40
    ensures JsOr(0x80, low) == 0x80 + low
  {
    Pow2Values();
    OrByte(2, low, 6);
  }

  /** `code >> 6`, `code >> 12` and `code >> 18`. */
  lemma Shifts(code: nat)
    requires code < 0x11_0000
    ensures JsShiftRightSigned(code, 6) == Rest(code)
    ensures JsShiftRightSigned(code, 12) == Rest(Rest(code))
    ensures JsShiftRightSigned(code, 18) == Rest(Rest(Rest(code)))
  {
    Pow2Values();
    SmallIsUnsigned(code);
  }

  /** `0x80 | (v & 0x3f)` as a pushed byte. */
  method TailPush(v: int) returns (b: Byte)
    requires 0 <= v < 0x8000_0000
    ensures b == TailOf(v)
  {
    TailByte(v);
    b := JsOr(0x80, JsAnd(v, 0x3F)) as Byte;
  }

  /** `lead | top` as a pushed byte. */
  method LeadPush(lead: int, top: int) returns (b: Byte)
    requires 0 <= top && ((lead == 0xC0 && top < 0x20) || (lead == 0xE0 && top < 0x10) || (lead == 0xF0 && top < 8))
    ensures b as int == lead + top
  {
    LeadByte(top);
    b := JsOr(lead, top) as Byte;
  }

  method ShiftCode(code: int) returns (by6: int, by12: int, by18: int)
    requires 0 <= code < 0x11_0000
    ensures by6 == Rest(code) && by12 == Rest(Rest(code)) && by18 == Rest(Rest(Rest(code)))
  {
    Shifts(code);
    by6, by12, by18 := JsShiftRightSigned(code, 6), JsShiftRightSigned(code, 12), JsShiftRightSigned(code, 18);
  }

  /** The pushes of one code point, in JavaScript's operators. */
  method PushCode(code: int) returns (bytes: seq<Byte>)
    requires 0 <= code < 0x11_0000
    ensures bytes == Encode(code)
  {
    if code < 0x80 { return [code as Byte]; }
    var by6, by12, by18 := ShiftCode(code);
    var last := TailPush(code);
    if code < 0x800 {
      var lead := LeadPush(0xC0, by6);
      return [lead, last];
    }
    var third := TailPush(by6);
    if code < 0x1_0000 {
      var lead := LeadPush(0xE0, by12);
      return [lead, third, last];
    }
    var second := TailPush(by12);
    var lead := LeadPush(0xF0, by18);
    return [lead, second, third, last];
  }

  /** `(code - 0xd800) << 10`. */
  lemma HighHalf(d: nat)
    requires d < 0x400
    ensures JsShiftLeft(d, 10) == d * 0x400
  {
    Pow2Values();
    SmallIsUnsigned(d);
    SmallIsUnsigned(d * 0x400);
  }

  /** The code point that starts at unit `i`, and the last unit it takes. */
  method ReadCode(text: Str, i: nat) returns (code: int, last: nat)
    requires i < |text|
    ensures code == CodeAt(text, i) && last + 1 == After(text, i)
  {
    code, last := text[i] as int, i;
    if code >= 0xD800 && code <= 0xDBFF && i + 1 < |text| {
      var low := text[i + 1] as int;
      if low >= 0xDC00 && low <= 0xDFFF {
        HighHalf(code - 0xD800);
        code := 0x1_0000 + JsShiftLeft(code - 0xD800, 10) + (low - 0xDC00);
        last := i + 1;
      }
    }
  }

  lemma EncodeStep(bytes: seq<Byte>, text: Str, i: nat)
    requires i < |text|
    ensures bytes + EncodeAll(Points(text, i))
         == bytes + Encode(CodeAt(text, i)) + EncodeAll(Points(text, After(text, i)))
  {
    var rest := Points(text, After(text, i));
    assert Points(text, i) == [CodeAt(text, i)] + rest;
    assert Points(text, i)[1..] == rest;
  }

  method Utf8Bytes(text: Str) returns (bytes: seq<Byte>)
    ensures bytes == Encoded(text)
  {
    bytes := [];
    var i := 0;
    while i < |text|
      invariant 0 <= i <= |text|
      invariant bytes + EncodeAll(Points(text, i)) == Encoded(text)
    {
      var code, last := ReadCode(text, i);
      var pushed := PushCode(code);
      EncodeStep(bytes, text, i);
      bytes := bytes + pushed;
      i := last + 1;
    }
  }

  // ---- decoding -------------------------------------------------------------

  /** How many bytes the sequence opened by `lead` has. */
  function Width(lead: Byte): nat {
    if lead < 0x80 then 1 else if lead < 0xE0 then 2 else if lead < 0xF0 then 3 else 4
  }

  function Tail(b: Byte): int {
    b as int - 0x80
  }

  /** The code point of one sequence, read off its bit positions. */
  function DecodeOne(bytes: seq<Byte>): int
    requires bytes != [] && |bytes| >= Width(bytes[0])
  {
    var lead := bytes[0] as int;
    match Width(bytes[0])
    case 1 => lead
    case 2 => (lead - 0xC0) * 0x40 + Tail(bytes[1])
    case 3 => ((lead - 0xE0) * 0x40 + Tail(bytes[1])) * 0x40 + Tail(bytes[2])
    case _ => (((lead - 0xF0) * 0x40 + Tail(bytes[1])) * 0x40 + Tail(bytes[2])) * 0x40 + Tail(bytes[3])
  }

  function DecodeAll(bytes: seq<Byte>): Option<seq<int>> {
    if bytes == [] then Some([])
    else if |bytes| < Width(bytes[0]) then None
    else match DecodeAll(bytes[Width(bytes[0])..])
      case None => None
      case Some(rest) => Some([DecodeOne(bytes)] + rest)
  }

  /** The UTF-16 units of a code point. */
  function UnitsOf(code: int): Str
    requires 0 <= code < 0x11_0000
  {
    if code < 0x1_0000 then [code as Unit]
    else [(0xD800 + (code - 0x1_0000) / 0x400) as Unit, (0xDC00 + (code - 0x1_0000) % 0x400) as Unit]
  }

  function Units(points: seq<int>): Str {
    if points == [] then []
    else (if 0 <= points[0] < 0x11_0000 then UnitsOf(points[0]) else []) + Units(points[1..])
  }

  function Decoded(bytes: seq<Byte>): Option<Str> {
    match DecodeAll(bytes)
    case None => None
    case Some(points) => Some(Units(points))
  }

  lemma DecodeOneEncoded(code: int, rest: seq<Byte>)
    requires 0 <= code < 0x11_0000
    ensures var bytes := Encode(code) + rest;
      Width(bytes[0]) == |Encode(code)| && DecodeOne(bytes) == code && bytes[Width(bytes[0])..] == rest
  {
  }

  lemma {:induction false} DecodeEncodes(points: seq<int>)
    requires forall k :: 0 <= k < |points| ==> 0 <= points[k] < 0x11_0000
    ensures DecodeAll(EncodeAll(points)) == Some(points)
  {
    if points != [] {
      DecodeEncodes(points[1..]);
      DecodeOneEncoded(points[0], EncodeAll(points[1..]));
      assert points == [points[0]] + points[1..];
    }
  }

  lemma UnitsOfCode(text: Str, i: nat)
    requires i < |text|
    ensures UnitsOf(CodeAt(text, i)) == text[i..After(text, i)]
  {
    if Paired(text, i) {
      var high, low := text[i] as int - 0xD800, text[i + 1] as int - 0xDC00;
      assert (high * 0x400 + low) / 0x400 == high && (high * 0x400 + low) % 0x400 == low;
    }
  }

  lemma {:induction false} UnitsStep(code: int, points: seq<int>)
    requires 0 <= code < 0x11_0000
    ensures Units([code] + points) == UnitsOf(code) + Units(points)
  {
    assert ([code] + points)[1..] == points;
  }

  lemma SplitAt(text: Str, i: nat, next: nat)
    requires i <= next <= |text|
    ensures text[i..] == text[i..next] + text[next..]
  {
  }

  lemma {:induction false} UnitsOfPoints(text: Str, i: nat)
    requires i <= |text|
    ensures Units(Points(text, i)) == text[i..]
    decreases |text| - i
  {
    if i < |text| {
      var next := After(text, i);
      UnitsOfPoints(text, next);
      UnitsStep(CodeAt(text, i), Points(text, next));
      UnitsOfCode(text, i);
      SplitAt(text, i, next);
    }
  }

  /** Every text is recovered from its bytes, lone surrogates included. */
  lemma RoundTrip(text: Str)
    ensures Decoded(Encoded(text)) == Some(text)
  {
    DecodeEncodes(Points(text, 0));
    UnitsOfPoints(text, 0);
    assert text[0..] == text;
  }

  /** Different texts never share their bytes. */
  lemma EncodingIsInjective(a: Str, b: Str)
    ensures Encoded(a) == Encoded(b) <==> a == b
  {
    RoundTrip(a);
    RoundTrip(b);
  }

  // ---- well-formed texts and valid bytes ------------------------------------

  /** Every surrogate of the text is half of a pair. */
  predicate WellFormed(text: Str) {
    && (forall i :: 0 <= i < |text| && High(text[i]) ==> i + 1 < |text| && Low(text[i + 1]))
    && (forall i :: 0 <= i < |text| && Low(text[i]) ==> 0 < i && High(text[i - 1]))
  }

  predicate IsTail(b: Byte) {
    0x80 <= b <= 0xBF
  }

  /** One sequence of the ABNF of RFC 3629, section 4. */
  predicate ValidOne(bytes: seq<Byte>)
    requires bytes != [] && |bytes| >= Width(bytes[0])
  {
    var lead := bytes[0];
    match Width(lead)
    case 1 => true
    case 2 => 0xC2 <= lead && IsTail(bytes[1])
    case 3 =>
      && IsTail(bytes[1]) && IsTail(bytes[2])
      && (lead == 0xE0 ==> 0xA0 <= bytes[1]) && (lead == 0xED ==> bytes[1] <= 0x9F)
    case _ =>
      && lead <= 0xF4 && IsTail(bytes[1]) && IsTail(bytes[2]) && IsTail(bytes[3])
      && (lead == 0xF0 ==> 0x90 <= bytes[1]) && (lead == 0xF4 ==> bytes[1] <= 0x8F)
  }

  predicate ValidUtf8(bytes: seq<Byte>) {
    bytes == [] || (|bytes| >= Width(bytes[0]) && ValidOne(bytes) && ValidUtf8(bytes[Width(bytes[0])..]))
  }

  predicate Scalar(code: int) {
    0 <= code < 0xD800 || 0xE000 <= code < 0x11_0000
  }

  lemma ValidOneEncoded(code: int, rest: seq<Byte>)
    requires 0 <= code < 0x11_0000
    ensures var bytes := Encode(code) + rest; ValidUtf8(bytes) <==> Scalar(code) && ValidUtf8(rest)
  {
    DecodeOneEncoded(code, rest);
  }

  lemma {:induction false} ValidWhenScalar(points: seq<int>)
    requires forall k :: 0 <= k < |points| ==> 0 <= points[k] < 0x11_0000
    ensures ValidUtf8(EncodeAll(points)) <==> AllScalar(points)
  {
    if points != [] {
      ValidWhenScalar(points[1..]);
      ValidOneEncoded(points[0], EncodeAll(points[1..]));
      assert forall k :: 1 <= k < |points| ==> points[k] == points[1..][k - 1];
    }
  }

  predicate PairedAt(text: Str, i: nat, j: nat)
    requires i <= j < |text|
  {
    (High(text[j]) ==> j + 1 < |text| && Low(text[j + 1])) && (Low(text[j]) ==> i < j && High(text[j - 1]))
  }

  /** No surrogate from unit `i` on is unpaired, reading left to right. */
  ghost predicate PairedFrom(text: Str, i: nat) {
    forall j {:trigger PairedAt(text, i, j)} :: i <= j < |text| ==> PairedAt(text, i, j)
  }

  predicate AllScalar(points: seq<int>) {
    forall k :: 0 <= k < |points| ==> Scalar(points[k])
  }

  lemma PairedSteps(text: Str, i: nat)
    requires i < |text|
    ensures PairedFrom(text, i) <==> Scalar(CodeAt(text, i)) && PairedFrom(text, After(text, i))
  {
    var next := After(text, i);
    if PairedFrom(text, i) {
      assert PairedAt(text, i, i);
      forall j | next <= j < |text| ensures PairedAt(text, next, j) {
        assert PairedAt(text, i, j);
        if j == next { assert Paired(text, i) ==> PairedAt(text, i, i + 1); }
      }
    }
    if Scalar(CodeAt(text, i)) && PairedFrom(text, next) {
      forall j | i <= j < |text| ensures PairedAt(text, i, j) {
        if j >= next { assert PairedAt(text, next, j); }
      }
    }
  }

  lemma {:induction false} ScalarWhenPaired(text: Str, i: nat)
    requires i <= |text|
    ensures PairedFrom(text, i) <==> AllScalar(Points(text, i))
    decreases |text| - i
  {
    if i < |text| {
      ScalarWhenPaired(text, After(text, i));
      PairedSteps(text, i);
      AllScalarCons(CodeAt(text, i), Points(text, After(text, i)));
    }
  }

  lemma AllScalarCons(code: int, rest: seq<int>)
    ensures AllScalar([code] + rest) <==> Scalar(code) && AllScalar(rest)
  {
    var points := [code] + rest;
    assert points[0] == code && forall k :: 0 <= k < |rest| ==> rest[k] == points[k + 1];
  }

  lemma PairedIsWellFormed(text: Str)
    ensures PairedFrom(text, 0) <==> WellFormed(text)
  {
    if PairedFrom(text, 0) {
      forall i | 0 <= i < |text| && High(text[i]) ensures i + 1 < |text| && Low(text[i + 1]) {
        assert PairedAt(text, 0, i);
      }
      forall i | 0 <= i < |text| && Low(text[i]) ensures 0 < i && High(text[i - 1]) {
        assert PairedAt(text, 0, i);
      }
    }
    if WellFormed(text) {
      forall j | 0 <= j < |text| ensures PairedAt(text, 0, j) {
      }
    }
  }

  /** The bytes are valid UTF-8 exactly when the text is well-formed UTF-16. */
  lemma ValidExactlyWhenWellFormed(text: Str)
    ensures ValidUtf8(Encoded(text)) <==> WellFormed(text)
  {
    ValidWhenScalar(Points(text, 0));
    ScalarWhenPaired(text, 0);
    PairedIsWellFormed(text);
  }

  /** A lone surrogate is encoded, but not as valid UTF-8. */
  lemma LoneSurrogateIsNotValid()
    ensures Encoded([0xD800]) == [0xED, 0xA0, 0x80] && !ValidUtf8(Encoded([0xD800]))
  {
    assert Points([0xD800], 0) == [0xD800];
    ValidExactlyWhenWellFormed([0xD800]);
    assert Encoded([0xD800]) == Encode(0xD800) + EncodeAll([]);
  }
}
