/**
 * The conformance kit's SHA-256: JavaScript's signed 32-bit operators and exact float sums,
 * proved to compute FIPS 180-4.
 */
module Sha256 {
  import opened BitOps
  import opened CodeUnits
  import opened Fips180
  import opened Outcomes
  import opened Utf8

  /** The 32-bit word a JavaScript number stands for. */
  function U(x: int): Word {
    ToUint32(x) as Word
  }

  /** Integers a double holds exactly, so that a sum of them is not rounded. */
  predicate Exact(x: int) {
    -0x20_0000_0000_0000 <= x <= 0x20_0000_0000_0000
  }

  predicate Signed(x: int) {
    -0x8000_0000 <= x < 0x8000_0000
  }

  predicate Unsigned(x: int) {
    0 <= x < TWO32
  }

  // ---- operators --------------------------------------------------------------

  lemma ModScale(u: nat, p: nat, q: nat)
    requires p > 0 && q > 0
    ensures p * q > 0 && u * q % (p * q) == u % p * q
  {
    var high, low := u / p, u % p;
    MulOrder(q, low + 1, p);
    assert u * q == (p * high + low) * q == (p * q) * high + low * q;
    DivModUnique(u * q, p * q, high, low * q);
  }

  /** `x << (32 - n)` moves the low `n` bits to the top. */
  lemma ShiftLeftWraps(x: int, n: nat)
    requires 0 < n < 32
    ensures ToUint32(JsShiftLeft(x, 32 - n)) == ToUint32(x) % Pow2(n) * Pow2(32 - n)
  {
    Pow2Is32();
    Pow2Adds(n, 32 - n);
    ModScale(ToUint32(x), Pow2(n), Pow2(32 - n));
    UnsignedOfSigned(ToUint32(x) * Pow2(32 - n));
  }

  /** `(x >>> n) | (x << (32 - n))` is the circular shift. */
  lemma RotrRefines(x: int, n: nat)
    requires 0 < n < 32
    ensures U(JsOr(JsShiftRight(x, n), JsShiftLeft(x, 32 - n))) == Rotr(U(x), n)
  {
    var u := ToUint32(x);
    ShiftLeftWraps(x, n);
    RotrFits(u, n);
    ShrFits(u, n);
    OrOfParts(JsShiftRight(x, n), JsShiftLeft(x, 32 - n), u % Pow2(n), 32 - n);
    RotrOfParts(u as Word, n);
  }

  lemma DivIdentity(x: nat, p: nat)
    requires p > 0
    ensures x == p * (x / p) + x % p && 0 <= x % p < p && 0 <= x / p
  {
    DivFits(x, p);
  }

  lemma RotrOfParts(x: Word, n: nat)
    requires 0 < n < 32
    ensures Rotr(x, n) as int == x as int / Pow2(n) + x as int % Pow2(n) * Pow2(32 - n)
  {
    DivIdentity(x as int, Pow2(n));
    RotrExchanges(x, n, x as int / Pow2(n), x as int % Pow2(n));
  }

  lemma OrOfParts(low: int, top: int, high: nat, n: nat)
    requires 0 <= low < TWO32 && low < Pow2(n) && ToUint32(top) == high * Pow2(n)
    ensures ToUint32(JsOr(low, top)) == low + high * Pow2(n)
  {
    OrAdds(low, high, n);
    OrReads(low, top, high * Pow2(n));
  }

  lemma OrReads(low: int, top: int, t: nat)
    requires 0 <= low < TWO32 && ToUint32(top) == t
    ensures ToUint32(JsOr(low, top)) == Or(low, t)
  {
    SignedOperators(low, top);
    InRangeIsUnsigned(low);
  }

  lemma InRangeIsUnsigned(x: int)
    requires 0 <= x < TWO32
    ensures ToUint32(x) == x
  {
  }

  method Rotate(x: int, n: nat) returns (r: int)
    requires 0 < n < 32
    ensures Signed(r) && U(r) == Rotr(U(x), n)
  {
    RotrRefines(x, n);
    r := JsOr(JsShiftRight(x, n), JsShiftLeft(x, 32 - n));
  }

  method ShiftRight(x: int, n: nat) returns (r: int)
    ensures Unsigned(r) && U(r) == Shr(U(x), n)
  {
    ShrFits(ToUint32(x), n);
    ShrDivides(U(x), n);
    r := JsShiftRight(x, n);
    InRangeIsUnsigned(r);
  }

  method ExclusiveOr(x: int, y: int) returns (r: int)
    ensures Signed(r) && U(r) == WordXor(U(x), U(y))
  {
    SignedOperators(x, y);
    r := JsXor(x, y);
  }

  method Both(x: int, y: int) returns (r: int)
    ensures Signed(r) && U(r) == WordAnd(U(x), U(y))
  {
    SignedOperators(x, y);
    r := JsAnd(x, y);
  }

  method Complement(x: int) returns (r: int)
    ensures Signed(r) && U(r) == WordNot(U(x))
  {
    SignedOperators(x, 0);
    r := JsNot(x);
  }

  /** Three terms exclusive-or'ed from the left. */
  method Xor3(x: int, y: int, z: int) returns (r: int)
    ensures Signed(r) && U(r) == WordXor(WordXor(U(x), U(y)), U(z))
  {
    var xy := ExclusiveOr(x, y);
    r := ExclusiveOr(xy, z);
  }

  method Rotate3(x: int, i: nat, j: nat, k: nat) returns (r: int)
    requires 0 < i < 32 && 0 < j < 32 && 0 < k < 32
    ensures Signed(r) && U(r) == WordXor(WordXor(Rotr(U(x), i), Rotr(U(x), j)), Rotr(U(x), k))
  {
    var ri := Rotate(x, i);
    var rj := Rotate(x, j);
    var rk := Rotate(x, k);
    r := Xor3(ri, rj, rk);
  }

  method RotateShift(x: int, i: nat, j: nat, k: nat) returns (r: int)
    requires 0 < i < 32 && 0 < j < 32
    ensures Signed(r) && U(r) == WordXor(WordXor(Rotr(U(x), i), Rotr(U(x), j)), Shr(U(x), k))
  {
    var ri := Rotate(x, i);
    var rj := Rotate(x, j);
    var sk := ShiftRight(x, k);
    r := Xor3(ri, rj, sk);
  }

  method Choose(e: int, f: int, g: int) returns (r: int)
    ensures Signed(r) && U(r) == Ch(U(e), U(f), U(g))
  {
    var ef := Both(e, f);
    var notE := Complement(e);
    var notEG := Both(notE, g);
    r := ExclusiveOr(ef, notEG);
  }

  method Majority(a: int, b: int, c: int) returns (r: int)
    ensures Signed(r) && U(r) == Maj(U(a), U(b), U(c))
  {
    var ab := Both(a, b);
    var ac := Both(a, c);
    var bc := Both(b, c);
    r := Xor3(ab, ac, bc);
  }

  /** Reading a sum unsigned adds the words modulo 2^32. */
  lemma AddRefines(x: int, y: int)
    ensures U(x + y) == Add(U(x), U(y))
  {
  }

  lemma UnsignedIsWord(w: Word)
    ensures U(w as int) == w
  {
  }

  lemma UnsignedReading(x: int)
    ensures U(ToUint32(x)) == U(x)
  {
  }

  /** `(x + y) >>> 0` */
  method Sum2(x: int, y: int) returns (r: int)
    requires Exact(x + y)
    ensures Unsigned(r) && U(r) == Add(U(x), U(y))
  {
    AddRefines(x, y);
    UnsignedReading(x + y);
    r := ToUint32(x + y);
  }

  // ---- one block --------------------------------------------------------------

  /** The eight working variables. */
  datatype Vars = Vars(a: int, b: int, c: int, d: int, e: int, f: int, g: int, hh: int) {
    ghost predicate InRange() {
      && Unsigned(a) && Unsigned(b) && Unsigned(c) && Unsigned(d)
      && Unsigned(e) && Unsigned(f) && Unsigned(g) && Unsigned(hh)
    }

    ghost function Word(): State {
      State(U(a), U(b), U(c), U(d), U(e), U(f), U(g), U(hh))
    }
  }

  /** `(hh + s1 + ch + K[t] + w[t]) >>> 0` */
  method Temp1(hh: int, s1: int, ch: int, k: Word, w: Word) returns (r: int)
    requires Unsigned(hh) && Signed(s1) && Signed(ch)
    ensures Unsigned(r) && U(r) == Add(Add(Add(Add(U(hh), U(s1)), U(ch)), k), w)
  {
    AddRefines(hh, s1);
    AddRefines(hh + s1, ch);
    AddRefines(hh + s1 + ch, k as int);
    AddRefines(hh + s1 + ch + k as int, w as int);
    UnsignedIsWord(k);
    UnsignedIsWord(w);
    var sum := hh + s1 + ch + k as int + w as int;
    assert Exact(sum);
    UnsignedReading(sum);
    r := ToUint32(sum);
  }

  method RoundStep(v: Vars, k: Word, w: Word) returns (v': Vars)
    requires v.InRange()
    ensures v'.InRange() && v'.Word() == Round(v.Word(), k, w)
  {
    var s1 := Rotate3(v.e, 6, 11, 25);
    var ch := Choose(v.e, v.f, v.g);
    var temp1 := Temp1(v.hh, s1, ch, k, w);
    var s0 := Rotate3(v.a, 2, 13, 22);
    var maj := Majority(v.a, v.b, v.c);
    var temp2 := Sum2(s0, maj);
    var e := Sum2(v.d, temp1);
    var a := Sum2(temp1, temp2);
    v' := Vars(a, v.a, v.b, v.c, e, v.e, v.f, v.g);
  }

  method SmallSigma0(w15: Word) returns (s0: int)
    ensures Signed(s0) && U(s0) == Sigma0(w15)
  {
    UnsignedIsWord(w15);
    s0 := RotateShift(w15 as int, 7, 18, 3);
  }

  method SmallSigma1(w2: Word) returns (s1: int)
    ensures Signed(s1) && U(s1) == Sigma1(w2)
  {
    UnsignedIsWord(w2);
    s1 := RotateShift(w2 as int, 17, 19, 10);
  }

  /** `(w16 + s0 + w7 + s1) >>> 0` */
  method ScheduleSum(w16: Word, s0: int, w7: Word, s1: int) returns (r: Word)
    requires Signed(s0) && Signed(s1)
    ensures r == Add(Add(Add(w16, U(s0)), w7), U(s1))
  {
    UnsignedIsWord(w16);
    UnsignedIsWord(w7);
    var sum := w16 as int + s0 + w7 as int + s1;
    assert Exact(sum);
    AddRefines(w16 as int, s0);
    AddRefines(w16 as int + s0, w7 as int);
    AddRefines(w16 as int + s0 + w7 as int, s1);
    r := ToUint32(sum) as Word;
  }

  method ScheduleWord(w16: Word, w15: Word, w7: Word, w2: Word) returns (r: Word)
    ensures r == Add(Add(Add(Sigma1(w2), w7), Sigma0(w15)), w16)
  {
    var s0 := SmallSigma0(w15);
    var s1 := SmallSigma1(w2);
    r := ScheduleSum(w16, s0, w7, s1);
    AddsCommute(w16, U(s0), w7, U(s1));
  }

  lemma AddsCommute(a: Word, b: Word, c: Word, d: Word)
    ensures Add(Add(Add(a, b), c), d) == Add(Add(Add(d, c), b), a)
  {
    AddsUp(a, b, c, d);
    AddsUp(d, c, b, a);
  }

  lemma AddsUp(a: Word, b: Word, c: Word, d: Word)
    ensures Add(Add(Add(a, b), c), d) == U(a as int + b as int + c as int + d as int)
  {
    UnsignedIsWord(a);
    UnsignedIsWord(b);
    UnsignedIsWord(c);
    UnsignedIsWord(d);
    AddRefines(a as int, b as int);
    AddRefines(a as int + b as int, c as int);
    AddRefines(a as int + b as int + c as int, d as int);
  }

  lemma ScheduleGrows(view: seq<Byte>, offset: nat, n: nat)
    requires offset + 64 <= |view|
    ensures Schedule(view, offset, n + 1) == Schedule(view, offset, n) + [
      if n < 16 then WordAt(view, offset + 4 * n)
      else var w := Schedule(view, offset, n);
        Add(Add(Add(Sigma1(w[n - 2]), w[n - 7]), Sigma0(w[n - 15])), w[n - 16])]
  {
  }

  method FillSchedule(w: array<Word>, view: seq<Byte>, offset: nat)
    requires w.Length == 64 && offset + 64 <= |view|
    modifies w
    ensures w[..] == Schedule(view, offset, 64)
  {
    for t := 0 to 16
      invariant w[..t] == Schedule(view, offset, t)
    {
      ScheduleGrows(view, offset, t);
      w[t] := WordAt(view, offset + t * 4);
      assert w[..t + 1] == w[..t] + [w[t]];
    }
    ExtendSchedule(w, view, offset);
    assert w[..64] == w[..];
  }

  method ExtendSchedule(w: array<Word>, view: seq<Byte>, offset: nat)
    requires w.Length == 64 && offset + 64 <= |view|
    requires w[..16] == Schedule(view, offset, 16)
    modifies w
    ensures w[..64] == Schedule(view, offset, 64)
  {
    for t := 16 to 64
      invariant w[..t] == Schedule(view, offset, t)
    {
      ghost var before := w[..t];
      assert before[t - 16] == w[t - 16] && before[t - 15] == w[t - 15] && before[t - 7] == w[t - 7] && before[t - 2] == w[t - 2];
      ScheduleGrows(view, offset, t);
      w[t] := ScheduleWord(w[t - 16], w[t - 15], w[t - 7], w[t - 2]);
      assert w[..t + 1] == before + [w[t]];
    }
  }

  ghost predicate DoesRound(step: (State, nat) -> State, k: seq<Word>, w: seq<Word>, s: State, t: nat)
    requires t < |k| && t < |w|
  {
    step(s, t) == Round(s, k[t], w[t])
  }

  /** `step` is the round function of a block. */
  ghost predicate DoesRounds(step: (State, nat) -> State, k: seq<Word>, w: seq<Word>) {
    forall s, t {:trigger DoesRound(step, k, w, s, t)} :: 0 <= t < |k| && t < |w| ==> DoesRound(step, k, w, s, t)
  }

  method RoundNumber(v: Vars, k: seq<Word>, w: seq<Word>, t: nat, ghost step: (State, nat) -> State) returns (v': Vars)
    requires v.InRange() && t < |k| && t < |w| && DoesRounds(step, k, w)
    ensures v'.InRange() && v'.Word() == step(v.Word(), t)
  {
    v' := RoundStep(v, k[t], w[t]);
    assert DoesRound(step, k, w, v.Word(), t);
  }

  method RunRounds(init: Vars, k: seq<Word>, w: seq<Word>, ghost step: (State, nat) -> State) returns (v: Vars)
    requires init.InRange() && |w| == |k| && DoesRounds(step, k, w)
    ensures v.InRange() && v.Word() == Iterate(step, init.Word(), |k|)
  {
    v := init;
    for t := 0 to |k|
      invariant v.InRange() && v.Word() == Iterate(step, init.Word(), t)
    {
      v := RoundNumber(v, k, w, t, step);
    }
  }

  /** `(h + x) >>> 0` */
  method AddWord(h: Word, x: int) returns (r: Word)
    requires Unsigned(x)
    ensures r == Add(h, U(x))
  {
    UnsignedIsWord(h);
    var sum := Sum2(h as int, x);
    r := sum as Word;
  }

  /** The eight additions that end a block. */
  method AddState(h: array<Word>, v: Vars, ghost s: State)
    requires h.Length == 8 && v.InRange() && h[..] == Words(s)
    modifies h
    ensures h[..] == Words(Accumulate(s, v.Word()))
  {
    var h0 := AddWord(h[0], v.a);
    var h1 := AddWord(h[1], v.b);
    var h2 := AddWord(h[2], v.c);
    var h3 := AddWord(h[3], v.d);
    var h4 := AddWord(h[4], v.e);
    var h5 := AddWord(h[5], v.f);
    var h6 := AddWord(h[6], v.g);
    var h7 := AddWord(h[7], v.hh);
    h[0], h[1], h[2], h[3], h[4], h[5], h[6], h[7] := h0, h1, h2, h3, h4, h5, h6, h7;
  }

  /** `let [a, b, c, d, e, f, g, hh] = [h[0], ...]` */
  method LoadState(h: seq<Word>, ghost s: State) returns (v: Vars)
    requires h == Words(s)
    ensures v.InRange() && v.Word() == s
  {
    v := Vars(h[0] as int, h[1] as int, h[2] as int, h[3] as int, h[4] as int, h[5] as int, h[6] as int, h[7] as int);
  }

  ghost predicate DoesBlock(step: (State, nat) -> State, k: seq<Word>, view: seq<Byte>, s: State, n: nat)
    requires 64 * n + 64 <= |view|
  {
    step(s, n) == Compress(s, k, view, 64 * n)
  }

  /** `step` is the block function of a padded message. */
  ghost predicate DoesBlocks(step: (State, nat) -> State, k: seq<Word>, view: seq<Byte>) {
    forall s, n {:trigger DoesBlock(step, k, view, s, n)} :: 0 <= n && 64 * n + 64 <= |view| ==> DoesBlock(step, k, view, s, n)
  }

  method HashBlock(h: array<Word>, w: array<Word>, k: seq<Word>, view: seq<Byte>, offset: nat,
                   ghost s: State, ghost n: nat, ghost step: (State, nat) -> State)
    requires |k| == 64 && h.Length == 8 && w.Length == 64 && h != w
    requires offset == 64 * n && offset + 64 <= |view| && DoesBlocks(step, k, view)
    requires h[..] == Words(s)
    modifies h, w
    ensures h[..] == Words(step(s, n))
  {
    FillSchedule(w, view, offset);
    var init := LoadState(h[..], s);
    ghost var round := RoundAt(k, w[..]);
    assert DoesRounds(round, k, w[..]);
    var v := RunRounds(init, k, w[..], round);
    AddState(h, v, s);
    assert DoesBlock(step, k, view, s, n);
  }

  // ---- padding ------------------------------------------------------------------

  /** `(((length + 8) >> 6) + 1) << 6` */
  function PaddedLength(length: nat): int {
    JsShiftLeft(JsShiftRightSigned(length + 8, 6) + 1, 6)
  }

  const LENGTH_LIMIT := 0x8000_0000 - 72

  /** Below 2^31 - 72 bytes the padded length is the standard's. */
  lemma PaddedLengthFits(length: nat)
    requires length < LENGTH_LIMIT
    ensures PaddedLength(length) == length + 9 + ZeroCount(length)
  {
    Pow2Values();
    SmallIsUnsigned(length + 8);
    var blocks := (length + 8) / 64 + 1;
    SmallIsUnsigned(blocks);
    SmallIsUnsigned(blocks * 64);
  }

  /** From there on the 32-bit shifts wrap: the buffer's length is negative or too small. */
  lemma PaddedLengthWraps(length: nat)
    requires length >= LENGTH_LIMIT
    ensures PaddedLength(length) < length
  {
    if length < 0x8000_0000 - 8 {
      Pow2Values();
      SmallIsUnsigned(length + 8);
      assert JsShiftRightSigned(length + 8, 6) + 1 == 0x200_0000;
      assert ToUint32(0x200_0000) == 0x200_0000;
      assert JsShiftLeft(0x200_0000, 6) == ToInt32(0x8000_0000);
    } else {
      MultipleOf64(JsShiftRightSigned(length + 8, 6) + 1);
    }
  }

  lemma MultipleOf64(x: int)
    ensures JsShiftLeft(x, 6) <= 0x8000_0000 - 64
  {
    Pow2Values();
  }

  /** The length the buffer is asked for. */
  method BufferSize(length: nat) returns (size: int)
    ensures if length < LENGTH_LIMIT then size == length + 9 + ZeroCount(length) else size < length
  {
    if length >= LENGTH_LIMIT { PaddedLengthWraps(length); } else { PaddedLengthFits(length); }
    size := PaddedLength(length);
  }

  lemma ThreeParts<T>(s: seq<T>, i: nat, j: nat)
    requires i <= j <= |s|
    ensures s == s[..i] + s[i..j] + s[j..]
  {
  }

  /** `view.setUint32(at, value, false)`, between the bytes before and after. */
  method SetUint32(bytes: array<Byte>, at: nat, value: int, ghost before: seq<Byte>, ghost after: seq<Byte>)
    requires at + 4 <= bytes.Length && bytes[..at] == before && bytes[at + 4..] == after
    modifies bytes
    ensures bytes[..] == before + BigEndian(ToUint32(value), 4) + after
  {
    var b := BigEndian(ToUint32(value), 4);
    bytes[at], bytes[at + 1], bytes[at + 2], bytes[at + 3] := b[0], b[1], b[2], b[3];
    assert bytes[..][..at] == before && bytes[..][at + 4..] == after && bytes[..][at..at + 4] == b;
    ThreeParts(bytes[..], at, at + 4);
  }

  lemma BigEndianStep(n: nat, k: nat)
    requires k > 0
    ensures BigEndian(n, k) == BigEndian(n / 256, k - 1) + [(n % 256) as Byte]
  {
  }

  /** Eight big-endian bytes are the high word's four and the low word's four. */
  lemma LengthWords(n: nat)
    ensures BigEndian(n, 8) == BigEndian(n / TWO32, 4) + BigEndian(n % TWO32, 4)
  {
    SplitByte(n, 0x100_0000);
    SplitByte(n / 256, 0x1_0000);
    SplitByte(n / 256 / 256, 0x100);
    BigEndianFour(n, 4);
    BigEndianFour(n % TWO32, 0);
  }

  lemma SplitByte(n: nat, p: nat)
    requires p > 0
    ensures n % (256 * p) / 256 == n / 256 % p && n % (256 * p) % 256 == n % 256
  {
    var q, r := n / 256 / p, n / 256 % p;
    assert n == (256 * p) * q + (256 * r + n % 256) by { assert n / 256 == p * q + r; }
    DivModUnique(n, 256 * p, q, 256 * r + n % 256);
  }

  lemma BigEndianFour(n: nat, k: nat)
    ensures BigEndian(n, k + 4) == BigEndian(n / TWO32, k)
      + [(n / 256 / 256 / 256 % 256) as Byte, (n / 256 / 256 % 256) as Byte, (n / 256 % 256) as Byte, (n % 256) as Byte]
  {
    BigEndianStep(n, k + 4);
    BigEndianStep(n / 256, k + 3);
    BigEndianStep(n / 256 / 256, k + 2);
    BigEndianStep(n / 256 / 256 / 256, k + 1);
  }

  /** The zero-filled buffer with the data and the 0x80 byte written. */
  method StartBuffer(data: seq<Byte>, size: nat) returns (padded: array<Byte>)
    requires size >= |data| + 9
    ensures fresh(padded) && padded[..] == data + [0x80] + Zeros(size - |data| - 1)
  {
    padded := new Byte[size](_ => 0);
    forall i | 0 <= i < |data| {
      padded[i] := data[i];
    }
    padded[|data|] := 0x80;
  }

  method PadBuffer(data: seq<Byte>, size: nat) returns (padded: array<Byte>)
    requires |data| < LENGTH_LIMIT && size == |data| + 9 + ZeroCount(|data|)
    ensures fresh(padded) && padded[..] == Pad(data)
  {
    var bitLength := |data| * 8;
    padded := StartBuffer(data, size);
    ghost var front := data + [0x80] + Zeros(ZeroCount(|data|));
    ghost var high := BigEndian(ToUint32(bitLength / 0x1_0000_0000), 4);
    StartSplits(data, size);
    assert padded[..][..size - 8] == front && padded[..][size - 4..] == Zeros(4);
    SetUint32(padded, size - 8, bitLength / 0x1_0000_0000, front, Zeros(4));
    assert padded[..][..size - 4] == front + high && padded[..][size..] == [];
    SetUint32(padded, size - 4, ToUint32(bitLength), front + high, []);
    PadLength(front, bitLength);
  }

  lemma StartSplits(data: seq<Byte>, size: nat)
    requires size == |data| + 9 + ZeroCount(|data|)
    ensures data + [0x80] + Zeros(size - |data| - 1)
         == data + [0x80] + Zeros(ZeroCount(|data|)) + Zeros(4) + Zeros(4)
  {
  }

  lemma PadLength(front: seq<Byte>, bitLength: nat)
    requires bitLength < 0x4_0000_0000
    ensures front + BigEndian(ToUint32(bitLength / 0x1_0000_0000), 4) + BigEndian(ToUint32(ToUint32(bitLength)), 4) + []
         == front + BigEndian(bitLength, 8)
  {
    LengthWords(bitLength);
    InRangeIsUnsigned(bitLength / 0x1_0000_0000);
    InRangeIsUnsigned(ToUint32(bitLength));
  }

  // ---- hexadecimal ----------------------------------------------------------------

  const DIGITS: string := "0123456789abcdef"

  function Pow16(k: nat): nat {
    if k == 0 then 1 else 16 * Pow16(k - 1)
  }

  lemma Pow16Is32()
    ensures Pow16(8) == TWO32
  {
  }

  /** `n.toString(16)` */
  function ToString16(n: nat): (s: string)
    ensures s != []
  {
    if n < 16 then [DIGITS[n]] else ToString16(n / 16) + [DIGITS[n % 16]]
  }

  function PadStart(s: string, width: nat): string {
    if |s| >= width then s else seq(width - |s|, _ => '0') + s
  }

  /** The lowest `k` hexadecimal digits of `n`. */
  function HexDigits(n: nat, k: nat): (s: string)
    ensures |s| == k
  {
    if k == 0 then [] else HexDigits(n / 16, k - 1) + [DIGITS[n % 16]]
  }

  function DigitValue(c: char): nat {
    if '0' <= c <= '9' then c as int - '0' as int
    else if 'a' <= c <= 'f' then c as int - 'a' as int + 10
    else 0
  }

  function FromHex(s: string): nat {
    if s == [] then 0 else FromHex(s[..|s| - 1]) * 16 + DigitValue(s[|s| - 1])
  }

  lemma {:induction false} HexOfZero(k: nat)
    ensures HexDigits(0, k) == seq(k, _ => '0')
  {
    if k > 0 {
      HexOfZero(k - 1);
      assert seq(k, _ => '0') == seq(k - 1, _ => '0') + ['0'];
    }
  }

  lemma PadStartStep(s: string, last: char, k: nat)
    requires k > 0
    ensures PadStart(s + [last], k) == PadStart(s, k - 1) + [last]
  {
    if |s| < k - 1 {
      assert seq(k - (|s| + 1), _ => '0') == seq(k - 1 - |s|, _ => '0');
    }
  }

  /** Padding with '0' writes every leading digit. */
  lemma {:induction false} PadStartIsDigits(n: nat, k: nat)
    requires k > 0 && n < Pow16(k)
    ensures PadStart(ToString16(n), k) == HexDigits(n, k) && |ToString16(n)| <= k
  {
    if n < 16 {
      HexOfZero(k - 1);
      PadStartOne(DIGITS[n], k);
    } else {
      PadStartIsDigits(n / 16, k - 1);
      PadStartStep(ToString16(n / 16), DIGITS[n % 16], k);
    }
  }

  lemma PadStartOne(digit: char, k: nat)
    requires k > 0
    ensures PadStart([digit], k) == seq(k - 1, _ => '0') + [digit]
  {
  }

  lemma {:induction false} HexInverts(n: nat, k: nat)
    requires n < Pow16(k)
    ensures FromHex(HexDigits(n, k)) == n
  {
    if k > 0 {
      HexInverts(n / 16, k - 1);
      assert HexDigits(n, k)[..k - 1] == HexDigits(n / 16, k - 1);
      DigitInverts(n % 16);
    }
  }

  lemma DigitInverts(d: nat)
    requires d < 16
    ensures DigitValue(DIGITS[d]) == d
  {
  }

  function HexOfWords(words: seq<Word>): (s: string)
    ensures |s| == 8 * |words|
  {
    if words == [] then [] else HexOfWords(words[..|words| - 1]) + HexDigits(words[|words| - 1] as int, 8)
  }

  /** The hexadecimal text says exactly which words it was made from. */
  lemma {:induction false} HexOfWordsDecodes(words: seq<Word>, i: nat)
    requires i < |words|
    ensures FromHex(HexOfWords(words)[8 * i..8 * i + 8]) == words[i] as int
  {
    var n := |words| - 1;
    if i == n {
      Pow16Is32();
      HexInverts(words[n] as int, 8);
      assert HexOfWords(words)[8 * i..8 * i + 8] == HexDigits(words[n] as int, 8);
    } else {
      HexOfWordsDecodes(words[..n], i);
      assert HexOfWords(words)[8 * i..8 * i + 8] == HexOfWords(words[..n])[8 * i..8 * i + 8];
    }
  }

  method ToHex(h: array<Word>) returns (hex: string)
    ensures hex == HexOfWords(h[..])
  {
    hex := "";
    for i := 0 to h.Length
      invariant hex == HexOfWords(h[..i])
    {
      Pow16Is32();
      PadStartIsDigits(h[i] as int, 8);
      hex := hex + PadStart(ToString16(h[i] as int), 8);
      assert h[..i + 1][..i] == h[..i];
    }
    assert h[..h.Length] == h[..];
  }

  // ---- the digest -------------------------------------------------------------------

  datatype BufferError = BadLength | TooSmall

  /**
   * `sha256Hex` over bytes. The buffer throws exactly from 2^31 - 72 bytes on; below that the
   * text is the hexadecimal form of the standard's digest.
   */
  method Sha256Hex(data: seq<Byte>) returns (result: Outcome<string, BufferError>)
    ensures result.Thrown? <==> |data| >= LENGTH_LIMIT
    ensures result.Ok? ==> result.value == HexOfWords(Words(Digest(data))) && |result.value| == 64
  {
    var size := BufferSize(|data|);
    if size < 0 { return Thrown(BadLength); }
    if size < |data| { return Thrown(TooSmall); }
    var padded := PadBuffer(data, size);
    ghost var step := BlockAt(K, Pad(data));
    BlockAtDoesBlocks(K, Pad(data));
    var h := HashBuffer(K, padded[..], |Pad(data)| / 64, step);
    var hex := ToHex(h);
    return Ok(hex);
  }

  lemma BlockAtDoesBlocks(k: seq<Word>, view: seq<Byte>)
    ensures DoesBlocks(BlockAt(k, view), k, view)
  {
  }

  method InitialHash() returns (h: array<Word>)
    ensures fresh(h) && h.Length == 8 && h[..] == Words(H0)
  {
    h := new Word[8] [0x6a09_e667, 0xbb67_ae85, 0x3c6e_f372, 0xa54f_f53a, 0x510e_527f, 0x9b05_688c, 0x1f83_d9ab, 0x5be0_cd19];
  }

  method HashBuffer(k: seq<Word>, view: seq<Byte>, ghost blocks: nat, ghost step: (State, nat) -> State)
    returns (h: array<Word>)
    requires |k| == 64 && |view| == 64 * blocks && DoesBlocks(step, k, view)
    ensures h[..] == Words(Iterate(step, H0, blocks))
  {
    h := InitialHash();
    var w := new Word[64];
    var offset := 0;
    ghost var n := 0;
    while offset < |view|
      invariant offset == 64 * n && n <= blocks
      invariant h[..] == Words(Iterate(step, H0, n))
    {
      HashBlock(h, w, k, view, offset, Iterate(step, H0, n), n, step);
      offset := offset + 64;
      n := n + 1;
    }
  }

  /** `sha256Hex` over a string: the digest of its UTF-8 bytes. */
  method Sha256HexOfText(text: Str) returns (result: Outcome<string, BufferError>)
    ensures result.Thrown? <==> |Encoded(text)| >= LENGTH_LIMIT
    ensures result.Ok? ==> result.value == HexOfWords(Words(Digest(Encoded(text))))
  {
    var data := Utf8Bytes(text);
    result := Sha256Hex(data);
  }

  /** Equal digest texts mean equal digests, word for word. */
  lemma HexIsFaithful(s: State, t: State)
    ensures HexOfWords(Words(s)) == HexOfWords(Words(t)) <==> s == t
  {
    if HexOfWords(Words(s)) == HexOfWords(Words(t)) {
      forall i | 0 <= i < 8 ensures Words(s)[i] == Words(t)[i] {
        HexOfWordsDecodes(Words(s), i);
        HexOfWordsDecodes(Words(t), i);
      }
      assert s == State(Words(s)[0], Words(s)[1], Words(s)[2], Words(s)[3], Words(s)[4], Words(s)[5], Words(s)[6], Words(s)[7]);
      assert t == State(Words(t)[0], Words(t)[1], Words(t)[2], Words(t)[3], Words(t)[4], Words(t)[5], Words(t)[6], Words(t)[7]);
    }
  }
}
