/**
 * SHA-256 said again, without the functions of the program: the operators bit by bit, a block as two
 * recurrences over sums modulo 2^32, the padded message byte by byte, the digest digit by digit.
 */
module HashStandard {
  import opened BitOps
  import opened Fips180
  import opened Utf8
  import opened CodeUnits
  import HashConstants
  import HashFeed
  import Sha256

  // ---- bits ----------------------------------------------------------------------------------------

  /** Bit `k` of a number, the lowest being bit 0. */
  function Bit(x: nat, k: nat): (b: nat)
    ensures b <= 1
  {
    if k == 0 then x % 2 else Bit(x / 2, k - 1)
  }

  lemma {:induction false} BitOfZero(k: nat)
    ensures Bit(0, k) == 0
  {
    if k > 0 { BitOfZero(k - 1); }
  }

  lemma {:induction false} AndBit(x: nat, y: nat, k: nat)
    ensures Bit(And(x, y), k) == if Bit(x, k) == 1 && Bit(y, k) == 1 then 1 else 0
    decreases k
  {
    if x == 0 || y == 0 {
      BitOfZero(k);
    } else if k > 0 {
      AndBit(x / 2, y / 2, k - 1);
    }
  }

  lemma {:induction false} XorBit(x: nat, y: nat, k: nat)
    ensures Bit(Xor(x, y), k) == (Bit(x, k) + Bit(y, k)) % 2
    decreases k
  {
    if x == 0 || y == 0 {
      BitOfZero(k);
    } else if k > 0 {
      XorBit(x / 2, y / 2, k - 1);
    }
  }

  lemma {:induction false} NotBit(x: nat, n: nat, k: nat)
    requires x < Pow2(n) && k < n
    ensures Bit(Pow2(n) - 1 - x, k) == 1 - Bit(x, k)
    decreases n
  {
    if k > 0 {
      assert (Pow2(n) - 1 - x) / 2 == Pow2(n - 1) - 1 - x / 2;
      NotBit(x / 2, n - 1, k - 1);
    }
  }

  /** A number below 2^n has no bit from `n` on. */
  lemma {:induction false} NoHighBit(x: nat, n: nat, k: nat)
    requires x < Pow2(n) <= Pow2(k) && n <= k
    ensures Bit(x, k) == 0
    decreases k
  {
    if x == 0 {
      BitOfZero(k);
    } else if k > 0 {
      NoHighBitStep(n, k);
      NoHighBit(x / 2, n - 1, k - 1);
    }
  }

  lemma NoHighBitStep(n: nat, k: nat)
    requires 0 < n <= k && Pow2(n) <= Pow2(k)
    ensures Pow2(n - 1) <= Pow2(k - 1)
  {
  }

  lemma {:induction false} TopBit(v: nat, b: nat, n: nat, k: nat)
    requires v < Pow2(n) && b <= 1 && k <= n
    ensures Bit(v + b * Pow2(n), k) == if k < n then Bit(v, k) else b
    decreases n
  {
    if n > 0 && k > 0 {
      assert (v + b * Pow2(n)) / 2 == v / 2 + b * Pow2(n - 1);
      TopBit(v / 2, b, n - 1, k - 1);
    }
  }

  lemma WordBits(x: Word, k: nat)
    requires k >= 32
    ensures Bit(x as int, k) == 0
  {
    Pow2Is32();
    Pow2Adds(32, k - 32);
    MulOrder(Pow2(32), 1, Pow2(k - 32));
    NoHighBit(x as int, 32, k);
  }

  // ---- the operators (sections 3.2 and 4.1.2) ------------------------------------------------------

  lemma {:induction false} ShiftBit(x: Word, n: nat, k: nat)
    ensures Bit(Shr(x, n) as int, k) == Bit(x as int, k + n)
    decreases n
  {
    if n > 0 { ShiftBit(x, n - 1, k + 1); }
  }

  lemma RotateOnceBit(y: Word, k: nat)
    requires k < 32
    ensures Bit((y / 2 + y % 2 * 0x8000_0000) as int, k) == Bit(y as int, (k + 1) % 32)
  {
    Pow2Is32();
    var high, low := y as int / 2, y as int % 2;
    assert (y / 2 + y % 2 * 0x8000_0000) as int == high + low * Pow2(31);
    TopBit(high, low, 31, k);
    if k == 31 { assert Bit(y as int, 0) == low; }
  }

  /** Rotating by `n` moves bit `k + n`, counted around, to bit `k`. */
  lemma {:induction false} RotateBit(x: Word, n: nat, k: nat)
    requires k < 32
    ensures Bit(Rotr(x, n) as int, k) == Bit(x as int, (k + n) % 32)
    decreases n
  {
    if n > 0 {
      RotateOnceBit(Rotr(x, n - 1), k);
      RotateBit(x, n - 1, (k + 1) % 32);
      assert ((k + 1) % 32 + (n - 1)) % 32 == (k + n) % 32;
    }
  }

  lemma BothBits(x: Word, y: Word, k: nat)
    ensures Bit(WordAnd(x, y) as int, k) == if Bit(x as int, k) == 1 && Bit(y as int, k) == 1 then 1 else 0
  {
    AndBit(x as int, y as int, k);
  }

  lemma EitherBits(x: Word, y: Word, k: nat)
    ensures Bit(WordXor(x, y) as int, k) == (Bit(x as int, k) + Bit(y as int, k)) % 2
  {
    XorBit(x as int, y as int, k);
  }

  lemma OtherBits(x: Word, k: nat)
    requires k < 32
    ensures Bit(WordNot(x) as int, k) == 1 - Bit(x as int, k)
  {
    Pow2Is32();
    NotBit(x as int, 32, k);
  }

  lemma ThreeBits(a: Word, b: Word, c: Word, k: nat)
    ensures Bit(WordXor(WordXor(a, b), c) as int, k) == (Bit(a as int, k) + Bit(b as int, k) + Bit(c as int, k)) % 2
  {
    EitherBits(a, b, k);
    EitherBits(WordXor(a, b), c, k);
  }

  /** Ch picks the second word where the first has a one, the third where it has a zero. */
  lemma ChooseBits(x: Word, y: Word, z: Word, k: nat)
    requires k < 32
    ensures Bit(Ch(x, y, z) as int, k) == if Bit(x as int, k) == 1 then Bit(y as int, k) else Bit(z as int, k)
  {
    OtherBits(x, k);
    BothBits(x, y, k);
    BothBits(WordNot(x), z, k);
    EitherBits(WordAnd(x, y), WordAnd(WordNot(x), z), k);
  }

  /** Maj is one where at least two of the words are. */
  lemma MajorityBits(x: Word, y: Word, z: Word, k: nat)
    requires k < 32
    ensures Bit(Maj(x, y, z) as int, k) == if Bit(x as int, k) + Bit(y as int, k) + Bit(z as int, k) >= 2 then 1 else 0
  {
    BothBits(x, y, k);
    BothBits(x, z, k);
    BothBits(y, z, k);
    ThreeBits(WordAnd(x, y), WordAnd(x, z), WordAnd(y, z), k);
  }

  lemma ShiftedBit(x: Word, n: nat, k: nat)
    ensures Bit(Shr(x, n) as int, k) == if k + n < 32 then Bit(x as int, k + n) else 0
  {
    ShiftBit(x, n, k);
    if k + n >= 32 { WordBits(x, k + n); }
  }

  /** The four sigma functions: parities of three bits, each so many places up and around or off the end. */
  lemma SigmaBits(x: Word, k: nat)
    requires k < 32
    ensures Bit(Sum0(x) as int, k)
         == (Bit(x as int, (k + 2) % 32) + Bit(x as int, (k + 13) % 32) + Bit(x as int, (k + 22) % 32)) % 2
    ensures Bit(Sum1(x) as int, k)
         == (Bit(x as int, (k + 6) % 32) + Bit(x as int, (k + 11) % 32) + Bit(x as int, (k + 25) % 32)) % 2
    ensures Bit(Sigma0(x) as int, k)
         == (Bit(x as int, (k + 7) % 32) + Bit(x as int, (k + 18) % 32)
             + if k + 3 < 32 then Bit(x as int, k + 3) else 0) % 2
    ensures Bit(Sigma1(x) as int, k)
         == (Bit(x as int, (k + 17) % 32) + Bit(x as int, (k + 19) % 32)
             + if k + 10 < 32 then Bit(x as int, k + 10) else 0) % 2
  {
    BigSigmaBits(x, k);
    SmallSigmaBits(x, k);
    RotateBit(x, 17, k);
    RotateBit(x, 19, k);
    ShiftedBit(x, 10, k);
    ThreeBits(Rotr(x, 17), Rotr(x, 19), Shr(x, 10), k);
  }

  lemma SmallSigmaBits(x: Word, k: nat)
    requires k < 32
    ensures Bit(Sigma0(x) as int, k)
         == (Bit(x as int, (k + 7) % 32) + Bit(x as int, (k + 18) % 32)
             + if k + 3 < 32 then Bit(x as int, k + 3) else 0) % 2
  {
    RotateBit(x, 7, k);
    RotateBit(x, 18, k);
    ShiftedBit(x, 3, k);
    ThreeBits(Rotr(x, 7), Rotr(x, 18), Shr(x, 3), k);
  }

  lemma BigSigmaBits(x: Word, k: nat)
    requires k < 32
    ensures Bit(Sum0(x) as int, k)
         == (Bit(x as int, (k + 2) % 32) + Bit(x as int, (k + 13) % 32) + Bit(x as int, (k + 22) % 32)) % 2
    ensures Bit(Sum1(x) as int, k)
         == (Bit(x as int, (k + 6) % 32) + Bit(x as int, (k + 11) % 32) + Bit(x as int, (k + 25) % 32)) % 2
  {
    RotateBit(x, 2, k);
    RotateBit(x, 13, k);
    RotateBit(x, 22, k);
    ThreeBits(Rotr(x, 2), Rotr(x, 13), Rotr(x, 22), k);
    RotateBit(x, 6, k);
    RotateBit(x, 11, k);
    RotateBit(x, 25, k);
    ThreeBits(Rotr(x, 6), Rotr(x, 11), Rotr(x, 25), k);
  }

  // ---- a block (section 6.2.2) ---------------------------------------------------------------------

  lemma Sum2(x: Word, y: Word)
    ensures Add(x, y) as int == (x as int + y as int) % 0x1_0000_0000
  {
  }

  lemma {:induction false} SumMod(x: int, y: int, m: int)
    requires m > 0
    ensures (x % m + y) % m == (x + y) % m
  {
    var q := x / m;
    var r := (x % m + y) % m;
    assert x + y == m * (q + (x % m + y) / m) + r;
    DivModUnique(x + y, m, q + (x % m + y) / m, r);
  }

  /** A chain of additions is one sum, reduced once. */
  lemma Sum4(a: Word, b: Word, c: Word, d: Word)
    ensures Add(Add(Add(a, b), c), d) as int == (a as int + b as int + c as int + d as int) % 0x1_0000_0000
  {
    SumMod(a as int + b as int, c as int, 0x1_0000_0000);
    SumMod(a as int + b as int + c as int, d as int, 0x1_0000_0000);
  }

  lemma Sum5(a: Word, b: Word, c: Word, d: Word, e: Word)
    ensures Add(Add(Add(Add(a, b), c), d), e) as int
         == (a as int + b as int + c as int + d as int + e as int) % 0x1_0000_0000
  {
    Sum4(a, b, c, d);
    SumMod(a as int + b as int + c as int + d as int, e as int, 0x1_0000_0000);
  }

  lemma ModOfBoth(x: int, y: int, m: int)
    requires m > 0
    ensures (x % m + y % m) % m == (x + y) % m
  {
    SumMod(x, y % m, m);
    SumMod(y, x, m);
  }

  /** The sum that both new registers of round `t` share, before it is reduced. */
  function FirstSum(e: seq<Word>, t: nat, k: Word, w: Word): int
    requires t + 4 <= |e|
  {
    e[t] as int + Sum1(e[t + 3]) as int + Ch(e[t + 3], e[t + 2], e[t + 1]) as int + k as int + w as int
  }

  /** The two recurrences of round `t`. */
  predicate Recurs(a: seq<Word>, e: seq<Word>, t: nat, k: Word, w: Word)
    requires t + 5 <= |a| && t + 5 <= |e|
  {
    && e[t + 4] as int == (a[t] as int + FirstSum(e, t, k, w)) % 0x1_0000_0000
    && a[t + 4] as int == (FirstSum(e, t, k, w) + Sum0(a[t + 3]) as int
                           + Maj(a[t + 3], a[t + 2], a[t + 1]) as int) % 0x1_0000_0000
  }

  /** The registers after `n` rounds are the last four of either history. */
  predicate Ends(s: State, a: seq<Word>, e: seq<Word>) {
    |a| == |e| >= 4
    && (var n := |a| - 4;
        s == State(a[n + 3], a[n + 2], a[n + 1], a[n], e[n + 3], e[n + 2], e[n + 1], e[n]))
  }

  lemma RoundRecurs(s: State, a: seq<Word>, e: seq<Word>, k: Word, w: Word)
    requires Ends(s, a, e)
    ensures Ends(Round(s, k, w), a + [Round(s, k, w).a], e + [Round(s, k, w).e])
    ensures Recurs(a + [Round(s, k, w).a], e + [Round(s, k, w).e], |a| - 4, k, w)
  {
    var t := |a| - 4;
    var first := Add(Add(Add(Add(s.h, Sum1(s.e)), Ch(s.e, s.f, s.g)), k), w);
    var sum := s.h as int + Sum1(s.e) as int + Ch(s.e, s.f, s.g) as int + k as int + w as int;
    Sum5(s.h, Sum1(s.e), Ch(s.e, s.f, s.g), k, w);
    SumMod(sum, s.d as int, 0x1_0000_0000);
    var second := Sum0(s.a) as int + Maj(s.a, s.b, s.c) as int;
    ModOfBoth(sum, second, 0x1_0000_0000);
    RoundSums(s, k, w, first, sum, second);
  }

  lemma RoundSums(s: State, k: Word, w: Word, first: Word, sum: int, second: int)
    requires first == Add(Add(Add(Add(s.h, Sum1(s.e)), Ch(s.e, s.f, s.g)), k), w)
    requires first as int == sum % 0x1_0000_0000
    requires second == Sum0(s.a) as int + Maj(s.a, s.b, s.c) as int
    requires (sum % 0x1_0000_0000 + s.d as int) % 0x1_0000_0000 == (sum + s.d as int) % 0x1_0000_0000
    requires (sum % 0x1_0000_0000 + second % 0x1_0000_0000) % 0x1_0000_0000 == (sum + second) % 0x1_0000_0000
    ensures Round(s, k, w).e as int == (s.d as int + sum) % 0x1_0000_0000
    ensures Round(s, k, w).a as int == (sum + second) % 0x1_0000_0000
    ensures Round(s, k, w).b == s.a && Round(s, k, w).c == s.b && Round(s, k, w).d == s.c
    ensures Round(s, k, w).f == s.e && Round(s, k, w).g == s.f && Round(s, k, w).h == s.g
  {
  }

  // ---- whole blocks ----------------------------------------------------------------------------------

  /** Word `t` of a schedule: four bytes of the block, or a sum of four earlier words. */
  predicate Scheduled(bytes: seq<Byte>, offset: nat, w: seq<Word>, t: nat)
    requires offset + 64 <= |bytes| && t < |w|
  {
    if t < 16 then
      w[t] as int == bytes[offset + 4 * t] as int * 0x100_0000 + bytes[offset + 4 * t + 1] as int * 0x1_0000
                     + bytes[offset + 4 * t + 2] as int * 0x100 + bytes[offset + 4 * t + 3] as int
    else
      w[t] as int == (Sigma1(w[t - 2]) as int + w[t - 7] as int + Sigma0(w[t - 15]) as int + w[t - 16] as int)
                     % 0x1_0000_0000
  }

  lemma ScheduledStays(bytes: seq<Byte>, offset: nat, w: seq<Word>, more: Word, t: nat)
    requires offset + 64 <= |bytes| && t < |w| && Scheduled(bytes, offset, w, t)
    ensures Scheduled(bytes, offset, w + [more], t)
  {
  }

  lemma LastIsScheduled(bytes: seq<Byte>, offset: nat, n: nat)
    requires offset + 64 <= |bytes| && n > 0
    ensures Scheduled(bytes, offset, Schedule(bytes, offset, n), n - 1)
  {
    var w, t := Schedule(bytes, offset, n - 1), n - 1;
    var r := Schedule(bytes, offset, n);
    if t < 16 {
      assert r[t] == WordAt(bytes, offset + 4 * t);
    } else {
      assert r[t - 2] == w[t - 2] && r[t - 7] == w[t - 7] && r[t - 15] == w[t - 15] && r[t - 16] == w[t - 16];
      Sum4(Sigma1(w[t - 2]), w[t - 7], Sigma0(w[t - 15]), w[t - 16]);
    }
  }

  lemma {:induction false} ScheduleHolds(bytes: seq<Byte>, offset: nat, n: nat)
    requires offset + 64 <= |bytes|
    ensures forall t {:trigger Scheduled(bytes, offset, Schedule(bytes, offset, n), t)} :: 0 <= t < n ==>
      Scheduled(bytes, offset, Schedule(bytes, offset, n), t)
    decreases n
  {
    if n > 0 {
      ScheduleHolds(bytes, offset, n - 1);
      LastIsScheduled(bytes, offset, n);
      var w, r := Schedule(bytes, offset, n - 1), Schedule(bytes, offset, n);
      assert r == w + [r[n - 1]];
      forall t {:trigger Scheduled(bytes, offset, r, t)} | 0 <= t < n ensures Scheduled(bytes, offset, r, t) {
        if t < n - 1 { ScheduledStays(bytes, offset, w, r[n - 1], t); }
      }
    }
  }

  lemma RecursStays(a: seq<Word>, e: seq<Word>, x: Word, y: Word, t: nat, k: Word, w: Word)
    requires t + 5 <= |a| && t + 5 <= |e| && Recurs(a, e, t, k, w)
    ensures Recurs(a + [x], e + [y], t, k, w)
  {
  }

  /** Every one of the first `n` rounds follows its recurrences. */
  ghost predicate AllRecur(a: seq<Word>, e: seq<Word>, k: seq<Word>, w: seq<Word>, n: nat)
    requires n <= |k| && n <= |w| && |a| == |e| == n + 4
  {
    forall t {:trigger Recurs(a, e, t, k[t], w[t])} :: 0 <= t < n ==> Recurs(a, e, t, k[t], w[t])
  }

  lemma {:induction false} RoundsRecur(s: State, k: seq<Word>, w: seq<Word>, n: nat)
    returns (a: seq<Word>, e: seq<Word>)
    requires n <= |k| && n <= |w|
    ensures |a| == |e| == n + 4 && Ends(Iterate(RoundAt(k, w), s, n), a, e) && AllRecur(a, e, k, w, n)
    ensures a[0] == s.d && a[1] == s.c && a[2] == s.b && a[3] == s.a
    ensures e[0] == s.h && e[1] == s.g && e[2] == s.f && e[3] == s.e
    decreases n
  {
    if n == 0 {
      a, e := [s.d, s.c, s.b, s.a], [s.h, s.g, s.f, s.e];
    } else {
      var b, f := RoundsRecur(s, k, w, n - 1);
      var before := Iterate(RoundAt(k, w), s, n - 1);
      var next := Round(before, k[n - 1], w[n - 1]);
      assert Iterate(RoundAt(k, w), s, n) == next;
      RoundRecurs(before, b, f, k[n - 1], w[n - 1]);
      a, e := b + [next.a], f + [next.e];
      forall t {:trigger Recurs(a, e, t, k[t], w[t])} | 0 <= t < n ensures Recurs(a, e, t, k[t], w[t]) {
        if t < n - 1 {
          assert Recurs(b, f, t, k[t], w[t]);
          RecursStays(b, f, next.a, next.e, t, k[t], w[t]);
        }
      }
    }
  }

  /** The new hash adds the last four of either history to the old hash, modulo 2^32. */
  predicate Accumulates(s: State, r: State, a: seq<Word>, e: seq<Word>)
    requires |a| == |e| == 68
  {
    && r.a as int == (s.a as int + a[67] as int) % 0x1_0000_0000
    && r.b as int == (s.b as int + a[66] as int) % 0x1_0000_0000
    && r.c as int == (s.c as int + a[65] as int) % 0x1_0000_0000
    && r.d as int == (s.d as int + a[64] as int) % 0x1_0000_0000
    && r.e as int == (s.e as int + e[67] as int) % 0x1_0000_0000
    && r.f as int == (s.f as int + e[66] as int) % 0x1_0000_0000
    && r.g as int == (s.g as int + e[65] as int) % 0x1_0000_0000
    && r.h as int == (s.h as int + e[64] as int) % 0x1_0000_0000
  }

  lemma EndsAccumulate(s: State, last: State, a: seq<Word>, e: seq<Word>)
    requires |a| == |e| == 68 && Ends(last, a, e)
    ensures Accumulates(s, Accumulate(s, last), a, e)
  {
  }

  /**
   * Hashing a block: sixty-four scheduled words, two histories that start from the old hash and follow
   * their recurrences, and their last words added to the old hash.
   */
  lemma BlockIsTwoRecurrences(s: State, bytes: seq<Byte>, offset: nat)
    returns (w: seq<Word>, a: seq<Word>, e: seq<Word>)
    requires offset + 64 <= |bytes|
    ensures |w| == |K| == 64 && |a| == |e| == 68
    ensures forall t {:trigger Scheduled(bytes, offset, w, t)} :: 0 <= t < 64 ==> Scheduled(bytes, offset, w, t)
    ensures a[0] == s.d && a[1] == s.c && a[2] == s.b && a[3] == s.a
    ensures e[0] == s.h && e[1] == s.g && e[2] == s.f && e[3] == s.e
    ensures AllRecur(a, e, K, w, 64)
    ensures Accumulates(s, Compress(s, K, bytes, offset), a, e)
  {
    HashConstants.ConstantIsListed(0);
    w := Schedule(bytes, offset, |K|);
    ScheduleHolds(bytes, offset, |K|);
    a, e := RoundsRecur(s, K, w, |K|);
    EndsAccumulate(s, Iterate(RoundAt(K, w), s, |K|), a, e);
  }

  // ---- whole messages ------------------------------------------------------------------------------

  /** Block `i` of the padded message leads from one hash to the next. */
  predicate BlockLeads(k: seq<Word>, bytes: seq<Byte>, i: nat, g: State, h: State) {
    64 * i + 64 <= |bytes| && h == Compress(g, k, bytes, 64 * i)
  }

  lemma BlockStep(k: seq<Word>, bytes: seq<Byte>, s: State, i: nat)
    requires 64 * i + 64 <= |bytes|
    ensures BlockLeads(k, bytes, i, Iterate(BlockAt(k, bytes), s, i), Iterate(BlockAt(k, bytes), s, i + 1))
  {
  }

  lemma {:induction false} BlocksChain(k: seq<Word>, bytes: seq<Byte>, s: State, n: nat) returns (h: seq<State>)
    requires 64 * n <= |bytes|
    ensures |h| == n + 1 && h[0] == s && h[n] == Iterate(BlockAt(k, bytes), s, n)
    ensures forall i {:trigger h[i]} :: 0 <= i < n ==> BlockLeads(k, bytes, i, h[i], h[i + 1])
    decreases n
  {
    if n == 0 {
      h := [s];
    } else {
      var g := BlocksChain(k, bytes, s, n - 1);
      BlockStep(k, bytes, s, n - 1);
      h := g + [Iterate(BlockAt(k, bytes), s, n)];
    }
  }

  /** The digest is the last of a chain of hashes, one more per block of the padded message. */
  lemma DigestIsChain(data: seq<Byte>) returns (h: seq<State>)
    ensures |h| == |Pad(data)| / 64 + 1 && h[0] == H0 && h[|h| - 1] == Digest(data)
    ensures forall i {:trigger h[i]} :: 0 <= i < |h| - 1 ==> BlockLeads(K, Pad(data), i, h[i], h[i + 1])
  {
    h := BlocksChain(K, Pad(data), H0, |Pad(data)| / 64);
  }

  lemma NestedParts(a: nat, b: nat, q: nat, r: nat, z: nat)
    requires r < b && z < a
    ensures a * (b * q + r) + z == (a * b) * q + (a * r + z)
    ensures 0 <= a * r + z < a * b
  {
    MulOrder(a, r + 1, b);
    assert a * (r + 1) == a * r + a;
    assert a * (b * q) == (a * b) * q;
  }

  lemma DivDiv(n: nat, a: nat, b: nat)
    requires a > 0 && b > 0
    ensures n / a / b == n / (a * b)
  {
    var m, z := n / a, n % a;
    var q, r := m / b, m % b;
    NestedParts(a, b, q, r, z);
    DivModUnique(n, a * b, q, a * r + z);
  }

  lemma {:induction false} BigEndianByte(n: nat, k: nat, j: nat)
    requires j < k
    ensures BigEndian(n, k)[j] as int == n / Pow2(8 * (k - 1 - j)) % 256
    decreases k
  {
    if j < k - 1 {
      BigEndianByte(n / 256, k - 1, j);
      var m := 8 * (k - 2 - j);
      Pow2Adds(8, m);
      assert Pow2(8) == 256;
      DivDiv(n, 256, Pow2(m));
      assert 8 + m == 8 * (k - 1 - j);
    }
  }

  /** The padded message: the message, a one bit, as few zeros as fill the last block, and eight bytes more. */
  lemma PaddedBytes(data: seq<Byte>)
    ensures var padded := Pad(data);
      && |padded| % 64 == 0 && |data| + 9 <= |padded| < |data| + 73
      && padded[..|data|] == data && padded[|data|] == 0x80
      && forall k :: |data| < k < |padded| - 8 ==> padded[k] == 0
  {
  }

  /** The last eight bytes are the length in bits, the most significant first. */
  lemma LengthBytes(data: seq<Byte>, j: nat)
    requires j < 8
    ensures Pad(data)[|Pad(data)| - 8 + j] as int == 8 * |data| / Pow2(8 * (7 - j)) % 256
  {
    BigEndianByte(8 * |data|, 8, j);
    LastEight(data, j);
  }

  lemma LastEight(data: seq<Byte>, j: nat)
    requires j < 8
    ensures Pad(data)[|Pad(data)| - 8 + j] == BigEndian(8 * |data|, 8)[j]
  {
  }

  // ---- digits --------------------------------------------------------------------------------------

  lemma {:induction false} HexDigitAt(n: nat, k: nat, j: nat)
    requires j < k
    ensures Sha256.HexDigits(n, k)[j] == "0123456789abcdef"[n / Pow2(4 * (k - 1 - j)) % 16]
    decreases k
  {
    if j < k - 1 {
      HexDigitAt(n / 16, k - 1, j);
      var m := 4 * (k - 2 - j);
      Pow2Adds(4, m);
      assert Pow2(4) == 16;
      DivDiv(n, 16, Pow2(m));
      assert 4 + m == 4 * (k - 1 - j);
    }
  }

  /** Eight lower-case digits per word, the most significant first. */
  lemma {:induction false} DigestDigits(words: seq<Word>, i: nat, j: nat)
    requires i < |words| && j < 8
    ensures Sha256.HexOfWords(words)[8 * i + j] == "0123456789abcdef"[words[i] as int / Pow2(4 * (7 - j)) % 16]
    decreases |words|
  {
    var n := |words| - 1;
    if i < n {
      DigestDigits(words[..n], i, j);
    } else {
      HexDigitAt(words[n] as int, 8, j);
    }
  }

  // ---- text ----------------------------------------------------------------------------------------

  /** The code point of a surrogate pair. */
  function PairCode(high: Unit, low: Unit): int {
    0x1_0000 + (high as int - 0xD800) * 0x400 + (low as int - 0xDC00)
  }

  /** The bytes of a code point (section 3 of RFC 3629), the shortest layout that holds it. */
  function CodeBytes(c: int): seq<int> {
    if c < 0x80 then [c]
    else if c < 0x800 then [0xC0 + c / 0x40, 0x80 + c % 0x40]
    else if c < 0x1_0000 then [0xE0 + c / 0x1000, 0x80 + c / 0x40 % 0x40, 0x80 + c % 0x40]
    else [0xF0 + c / 0x4_0000, 0x80 + c / 0x1000 % 0x40, 0x80 + c / 0x40 % 0x40, 0x80 + c % 0x40]
  }

  predicate SameBytes(bytes: seq<Byte>, numbers: seq<int>) {
    |bytes| == |numbers| && forall i :: 0 <= i < |bytes| ==> bytes[i] as int == numbers[i]
  }

  lemma CodeSpells(c: int)
    requires 0 <= c < 0x11_0000
    ensures SameBytes(Encode(c), CodeBytes(c))
  {
    assert Rest(Rest(c)) == c / 0x1000 && Rest(Rest(Rest(c))) == c / 0x4_0000;
  }

  lemma RestOfPoints(text: Str, n: nat)
    requires n <= |text|
    ensures Points(text, n) == Points(text[n..], 0)
  {
    HashFeed.PointsOfSecond(text[..n], text[n..], 0);
    assert text[..n] + text[n..] == text;
  }

  /**
   * A text is encoded from its front: a surrogate pair as one code point, any other unit, a lone
   * surrogate included, as itself.
   */
  lemma EncodingSpells(text: Str) returns (first: seq<Byte>, units: nat)
    requires text != []
    ensures units == if |text| >= 2 && 0xD800 <= text[0] <= 0xDBFF && 0xDC00 <= text[1] <= 0xDFFF then 2 else 1
    ensures SameBytes(first, CodeBytes(if units == 2 then PairCode(text[0], text[1]) else text[0] as int))
    ensures Encoded(text) == first + Encoded(text[units..]) && Encoded([]) == []
  {
    units := After(text, 0);
    var code := CodeAt(text, 0);
    first := Encode(code);
    CodeSpells(code);
    RestOfPoints(text, units);
    assert Points(text, 0) == [code] + Points(text, units);
    assert ([code] + Points(text, units))[1..] == Points(text, units);
  }
}
