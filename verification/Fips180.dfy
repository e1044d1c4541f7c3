/** The secure hash standard FIPS 180-4, for messages of whole bytes. */
module Fips180 {
  import opened BitOps
  import opened Utf8

  newtype Word = x: int | 0 <= x < 0x1_0000_0000

  // ---- words (sections 2.2.2, 3.2 and 4.1.2) ---------------------------------

  function Add(x: Word, y: Word): Word {
    ((x as int + y as int) % TWO32) as Word
  }

  function WordAnd(x: Word, y: Word): Word {
    WordsFit(x as int, y as int);
    And(x as int, y as int) as Word
  }

  function WordXor(x: Word, y: Word): Word {
    WordsFit(x as int, y as int);
    Xor(x as int, y as int) as Word
  }

  function WordNot(x: Word): Word {
    0xFFFF_FFFF - x
  }

  /** Circular right shift, one bit at a time: the lowest bit reappears on top. */
  function Rotr(x: Word, n: nat): Word
    decreases x, n
  {
    if n == 0 then x
    else
      var y := Rotr(x, n - 1);
      y / 2 + y % 2 * 0x8000_0000
  }

  /** Right shift, one bit at a time. */
  function Shr(x: Word, n: nat): Word
    decreases x, n
  {
    if n == 0 then x else Shr(x, n - 1) / 2
  }

  lemma {:induction false} ShrDivides(x: Word, n: nat)
    ensures Shr(x, n) as int == x as int / Pow2(n)
  {
    if n > 0 {
      ShrDivides(x, n - 1);
      DivTwice(x as int, Pow2(n - 1));
    }
  }

  lemma DivTwice(x: nat, p: nat)
    requires p > 0
    ensures x / p / 2 == x / (2 * p)
  {
    var q, r := x / p / 2, x / p % 2;
    assert x == (2 * p) * q + (p * r + x % p) by { assert x / p == 2 * q + r; }
    DivModUnique(x, 2 * p, q, p * r + x % p);
  }

  /** The two parts of a word split at bit `n`, exchanged. */
  lemma {:induction false} RotrExchanges(x: Word, n: nat, high: nat, low: nat)
    requires n <= 32 && x as int == Pow2(n) * high + low && low < Pow2(n)
    ensures Rotr(x, n) as int == high + low * Pow2(32 - n)
  {
    if n > 0 {
      var p := Pow2(n - 1);
      var bit := if low < p then 0 else 1;
      var rest := if low < p then low else low - p;
      SplitLower(x as int, p, high, bit, rest);
      RotrExchanges(x, n - 1, 2 * high + bit, rest);
      HalfWord(n);
      RotateOnce(high, bit, rest, p, Pow2(32 - n), Rotr(x, n - 1));
    }
  }

  lemma HalfWord(n: nat)
    requires 0 < n <= 32
    ensures Pow2(n - 1) * Pow2(32 - n) == 0x8000_0000 && Pow2(32 - (n - 1)) == 2 * Pow2(32 - n)
  {
    Pow2Is32();
    Pow2Adds(n - 1, 32 - n);
  }

  lemma SplitLower(x: nat, p: nat, high: nat, bit: nat, rest: nat)
    requires x == 2 * p * high + (p * bit + rest)
    ensures x == p * (2 * high + bit) + rest
  {
  }

  lemma RotateOnce(high: nat, bit: nat, rest: nat, p: nat, q: nat, y: Word)
    requires bit <= 1 && p * q == 0x8000_0000
    requires y as int == 2 * high + bit + rest * (2 * q)
    ensures (y / 2 + y % 2 * 0x8000_0000) as int == high + (p * bit + rest) * q
  {
    assert rest * (2 * q) == 2 * (rest * q);
    assert y as int == 2 * (high + rest * q) + bit;
    assert (p * bit + rest) * q == bit * (p * q) + rest * q;
  }

  lemma ShrFits(x: nat, n: nat)
    ensures 0 <= x / Pow2(n) <= x
  {
    DivFits(x, Pow2(n));
  }

  lemma DivFits(x: nat, p: nat)
    requires p > 0
    ensures 0 <= x / p <= x
  {
    MulGrows(p - 1, x / p);
  }

  lemma MulGrows(a: nat, b: nat)
    ensures a * b >= 0
  {
  }

  lemma RotrFits(x: nat, n: nat)
    requires x < TWO32 && 0 < n < 32
    ensures x / Pow2(n) < Pow2(32 - n)
    ensures x / Pow2(n) + x % Pow2(n) * Pow2(32 - n) < TWO32
  {
    Pow2Is32();
    Pow2Adds(n, 32 - n);
    RotateFits(x, Pow2(n), Pow2(32 - n));
  }

  lemma RotateFits(x: nat, p: nat, q: nat)
    requires p > 0 && x < p * q
    ensures x / p < q && x / p + x % p * q < p * q
  {
    HalvesFit(x / p, x % p, p, q);
  }

  /** The two parts of a number below `p * q`, exchanged, still fit below `p * q`. */
  lemma HalvesFit(high: nat, low: nat, p: nat, q: nat)
    requires low < p && p * high + low < p * q
    ensures high < q && high + low * q < p * q
  {
    MulOrder(p, high, q);
    MulOrder(q, low, p - 1);
  }

  lemma MulOrder(a: nat, b: nat, c: nat)
    ensures a * b < a * c ==> b < c
    ensures b <= c ==> a * b <= a * c
  {
    if b <= c { MulGrows(a, c - b); } else { MulGrows(a, b - c); }
  }

  function Ch(x: Word, y: Word, z: Word): Word {
    WordXor(WordAnd(x, y), WordAnd(WordNot(x), z))
  }

  function Maj(x: Word, y: Word, z: Word): Word {
    WordXor(WordXor(WordAnd(x, y), WordAnd(x, z)), WordAnd(y, z))
  }

  function Sum0(x: Word): Word {
    WordXor(WordXor(Rotr(x, 2), Rotr(x, 13)), Rotr(x, 22))
  }

  function Sum1(x: Word): Word {
    WordXor(WordXor(Rotr(x, 6), Rotr(x, 11)), Rotr(x, 25))
  }

  function Sigma0(x: Word): Word {
    WordXor(WordXor(Rotr(x, 7), Rotr(x, 18)), Shr(x, 3))
  }

  function Sigma1(x: Word): Word {
    WordXor(WordXor(Rotr(x, 17), Rotr(x, 19)), Shr(x, 10))
  }

  // ---- constants (sections 4.2.2 and 5.3.3) ----------------------------------

  const K0: seq<Word> := [
    0x428a_2f98, 0x7137_4491, 0xb5c0_fbcf, 0xe9b5_dba5, 0x3956_c25b, 0x59f1_11f1, 0x923f_82a4, 0xab1c_5ed5
  ]
  const K1: seq<Word> := [
    0xd807_aa98, 0x1283_5b01, 0x2431_85be, 0x550c_7dc3, 0x72be_5d74, 0x80de_b1fe, 0x9bdc_06a7, 0xc19b_f174
  ]
  const K2: seq<Word> := [
    0xe49b_69c1, 0xefbe_4786, 0x0fc1_9dc6, 0x240c_a1cc, 0x2de9_2c6f, 0x4a74_84aa, 0x5cb0_a9dc, 0x76f9_88da
  ]
  const K3: seq<Word> := [
    0x983e_5152, 0xa831_c66d, 0xb003_27c8, 0xbf59_7fc7, 0xc6e0_0bf3, 0xd5a7_9147, 0x06ca_6351, 0x1429_2967
  ]
  const K4: seq<Word> := [
    0x27b7_0a85, 0x2e1b_2138, 0x4d2c_6dfc, 0x5338_0d13, 0x650a_7354, 0x766a_0abb, 0x81c2_c92e, 0x9272_2c85
  ]
  const K5: seq<Word> := [
    0xa2bf_e8a1, 0xa81a_664b, 0xc24b_8b70, 0xc76c_51a3, 0xd192_e819, 0xd699_0624, 0xf40e_3585, 0x106a_a070
  ]
  const K6: seq<Word> := [
    0x19a4_c116, 0x1e37_6c08, 0x2748_774c, 0x34b0_bcb5, 0x391c_0cb3, 0x4ed8_aa4a, 0x5b9c_ca4f, 0x682e_6ff3
  ]
  const K7: seq<Word> := [
    0x748f_82ee, 0x78a5_636f, 0x84c8_7814, 0x8cc7_0208, 0x90be_fffa, 0xa450_6ceb, 0xbef9_a3f7, 0xc671_78f2
  ]
  const K: seq<Word> := K0 + K1 + K2 + K3 + K4 + K5 + K6 + K7

  const H0: State :=
    State(0x6a09_e667, 0xbb67_ae85, 0x3c6e_f372, 0xa54f_f53a, 0x510e_527f, 0x9b05_688c, 0x1f83_d9ab, 0x5be0_cd19)

  datatype State = State(a: Word, b: Word, c: Word, d: Word, e: Word, f: Word, g: Word, h: Word)

  // ---- padding (section 5.1.1) ------------------------------------------------

  /** `n` as `k` bytes, most significant first. */
  function BigEndian(n: nat, k: nat): (bytes: seq<Byte>)
    ensures |bytes| == k
  {
    if k == 0 then [] else BigEndian(n / 256, k - 1) + [(n % 256) as Byte]
  }

  function FromBigEndian(bytes: seq<Byte>): nat {
    if bytes == [] then 0 else FromBigEndian(bytes[..|bytes| - 1]) * 256 + bytes[|bytes| - 1] as nat
  }

  function Zeros(n: nat): (z: seq<Byte>)
    ensures |z| == n && forall i :: 0 <= i < n ==> z[i] == 0
  {
    seq(n, _ => 0)
  }

  /** The number of zero bytes between the 0x80 and the length. */
  function ZeroCount(length: nat): nat {
    (55 - length) % 64
  }

  function Pad(data: seq<Byte>): (padded: seq<Byte>)
    ensures |padded| % 64 == 0 && |padded| >= |data| + 9
  {
    data + [0x80] + Zeros(ZeroCount(|data|)) + BigEndian(8 * |data|, 8)
  }

  // ---- hashing (section 6.2.2) --------------------------------------------------

  /** Word `t` of a 64-byte block. */
  function WordAt(bytes: seq<Byte>, at: nat): Word
    requires at + 4 <= |bytes|
  {
    (((bytes[at] as int * 256 + bytes[at + 1] as int) * 256 + bytes[at + 2] as int) * 256 + bytes[at + 3] as int) as Word
  }

  /** The first `n` words of the message schedule of the block at `offset`. */
  function Schedule(padded: seq<Byte>, offset: nat, n: nat): (w: seq<Word>)
    requires offset + 64 <= |padded|
    ensures |w| == n
  {
    if n == 0 then []
    else
      var w, t := Schedule(padded, offset, n - 1), n - 1;
      w + [if t < 16 then WordAt(padded, offset + 4 * t)
           else Add(Add(Add(Sigma1(w[t - 2]), w[t - 7]), Sigma0(w[t - 15])), w[t - 16])]
  }

  function Round(s: State, k: Word, w: Word): State {
    var t1 := Add(Add(Add(Add(s.h, Sum1(s.e)), Ch(s.e, s.f, s.g)), k), w);
    var t2 := Add(Sum0(s.a), Maj(s.a, s.b, s.c));
    State(Add(t1, t2), s.a, s.b, s.c, Add(s.d, t1), s.e, s.f, s.g)
  }

  /** `n` steps from `s`, numbered from zero. */
  function Iterate(step: (State, nat) -> State, s: State, n: nat): State {
    if n == 0 then s else step(Iterate(step, s, n - 1), n - 1)
  }

  /** Round `t` of a block with constants `k` and schedule `w`. */
  function RoundAt(k: seq<Word>, w: seq<Word>): (State, nat) -> State {
    (s: State, t: nat) => if t < |k| && t < |w| then Round(s, k[t], w[t]) else s
  }

  function Accumulate(s: State, r: State): State {
    State(Add(s.a, r.a), Add(s.b, r.b), Add(s.c, r.c), Add(s.d, r.d),
          Add(s.e, r.e), Add(s.f, r.f), Add(s.g, r.g), Add(s.h, r.h))
  }

  function Compress(s: State, k: seq<Word>, padded: seq<Byte>, offset: nat): State
    requires offset + 64 <= |padded|
  {
    Accumulate(s, Iterate(RoundAt(k, Schedule(padded, offset, |k|)), s, |k|))
  }

  /** Block `n` of a padded message. */
  function BlockAt(k: seq<Word>, padded: seq<Byte>): (State, nat) -> State {
    (s: State, n: nat) => if 64 * n + 64 <= |padded| then Compress(s, k, padded, 64 * n) else s
  }

  function Digest(data: seq<Byte>): State {
    Iterate(BlockAt(K, Pad(data)), H0, |Pad(data)| / 64)
  }

  function Words(s: State): seq<Word> {
    [s.a, s.b, s.c, s.d, s.e, s.f, s.g, s.h]
  }

  // ---- padding properties ---------------------------------------------------

  lemma {:induction false} BigEndianInverts(n: nat, k: nat)
    requires n < Pow2(8 * k)
    ensures FromBigEndian(BigEndian(n, k)) == n
  {
    if k > 0 {
      Pow2Adds(8, 8 * (k - 1));
      assert Pow2(8) == 256;
      BigEndianInverts(n / 256, k - 1);
      assert BigEndian(n, k)[..k - 1] == BigEndian(n / 256, k - 1);
    }
  }

  /** Padding adds the fewest zeros that complete a block. */
  lemma PadIsShortest(data: seq<Byte>, zeros: nat)
    requires (|data| + 1 + zeros + 8) % 64 == 0
    ensures ZeroCount(|data|) <= zeros
  {
  }

  /** The message a padded one carries: its last eight bytes say how long it is. */
  function Unpad(padded: seq<Byte>): seq<Byte> {
    if |padded| < 8 || FromBigEndian(padded[|padded| - 8..]) / 8 > |padded| then []
    else padded[..FromBigEndian(padded[|padded| - 8..]) / 8]
  }

  /** Padding can be undone, so different messages never pad to the same blocks. */
  lemma PadIsInvertible(data: seq<Byte>)
    requires 8 * |data| < Pow2(64)
    ensures Unpad(Pad(data)) == data
  {
    var padded := Pad(data);
    assert padded[|padded| - 8..] == BigEndian(8 * |data|, 8);
    BigEndianInverts(8 * |data|, 8);
  }
}
