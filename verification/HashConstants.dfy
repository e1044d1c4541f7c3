/**
 * The constants of SHA-256 (sections 4.2.2 and 5.3.3 of FIPS 180-4): the first thirty-two bits of the
 * fractional parts of the cube roots of the first sixty-four primes, and of the square roots of the
 * first eight.
 */
module HashConstants {
  import opened Fips180
  import BitOps

  const P0: seq<nat> := [2, 3, 5, 7, 11, 13, 17, 19]
  const P1: seq<nat> := [23, 29, 31, 37, 41, 43, 47, 53]
  const P2: seq<nat> := [59, 61, 67, 71, 73, 79, 83, 89]
  const P3: seq<nat> := [97, 101, 103, 107, 109, 113, 127, 131]
  const P4: seq<nat> := [137, 139, 149, 151, 157, 163, 167, 173]
  const P5: seq<nat> := [179, 181, 191, 193, 197, 199, 211, 223]
  const P6: seq<nat> := [227, 229, 233, 239, 241, 251, 257, 263]
  const P7: seq<nat> := [269, 271, 277, 281, 283, 293, 307, 311]

  /** Prime `i` of the list, counted from zero. */
  function Prime(i: nat): nat
    requires i < 64
  {
    if i < 8 then P0[i] else if i < 16 then P1[i - 8] else if i < 24 then P2[i - 16] else if i < 32 then P3[i - 24]
    else if i < 40 then P4[i - 32] else if i < 48 then P5[i - 40] else if i < 56 then P6[i - 48] else P7[i - 56]
  }

  // ---- primes ---------------------------------------------------------------------------------------

  predicate IsPrime(n: nat) {
    n >= 2 && forall d :: 2 <= d < n ==> n % d != 0
  }

  /** No prime up to 17 divides `n`, or `n` is that prime. */
  predicate Sifted(n: nat) {
    && (n % 2 != 0 || n == 2) && (n % 3 != 0 || n == 3) && (n % 5 != 0 || n == 5) && (n % 7 != 0 || n == 7)
    && (n % 11 != 0 || n == 11) && (n % 13 != 0 || n == 13) && (n % 17 != 0 || n == 17)
  }

  lemma Multiple(n: nat, d: nat, q: nat)
    requires d > 0 && n == d * q
    ensures n % d == 0
  {
    BitOps.DivModUnique(n, d, q, 0);
  }

  lemma FactorIsSmall(n: nat, d: nat, q: nat)
    requires n < 361 && n == d * q && d >= 19
    ensures q < 19
  {
    if q >= 19 {
      MulOrder(19, 19, d);
      MulOrder(d, 19, q);
    }
  }

  /** A number below 361 with a proper divisor has one below 19. */
  lemma SmallDivisor(n: nat, d: nat) returns (e: nat)
    requires 2 <= d < n < 361 && n % d == 0
    ensures 2 <= e < 19 && e < n && n % e == 0
  {
    e := d;
    if d >= 19 {
      e := n / d;
      FactorIsSmall(n, d, e);
      assert e != 0 && e != 1;
      Multiple(n, e, d);
    }
  }

  lemma DivisorDivides(n: nat, e: nat, p: nat)
    requires p > 0 && e > 0 && n % e == 0 && e % p == 0
    ensures n % p == 0
  {
    assert n == p * (e / p) * (n / e) == p * ((e / p) * (n / e));
    Multiple(n, p, (e / p) * (n / e));
  }

  /** Whatever divides `n` below 19 is sifted out by one of the seven primes. */
  lemma SmallIsSifted(n: nat, e: nat)
    requires 2 <= e < 19 && e < n && n % e == 0
    ensures !Sifted(n)
  {
    var p := if e % 2 == 0 then 2 else if e % 3 == 0 then 3 else e;
    DivisorDivides(n, e, p);
    assert p in {2, 3, 5, 7, 11, 13, 17};
  }

  lemma PrimeIsSifted(n: nat)
    requires 2 <= n < 361
    ensures IsPrime(n) <==> Sifted(n)
  {
    if !IsPrime(n) {
      var d :| 2 <= d < n && n % d == 0;
      var e := SmallDivisor(n, d);
      SmallIsSifted(n, e);
    }
    if !Sifted(n) {
      var d :| d in {2, 3, 5, 7, 11, 13, 17} && n % d == 0 && n != d;
      assert d < n;
    }
  }

  /** No sifted number from `n` on is below `q`. */
  predicate Barren(n: nat, q: nat)
    decreases q - n
  {
    n >= q || (!Sifted(n) && Barren(n + 1, q))
  }

  lemma {:induction false} BarrenHoldsNone(n: nat, q: nat, m: nat)
    requires Barren(n, q) && n <= m < q
    ensures !Sifted(m)
    decreases q - n
  {
    if n < m { BarrenHoldsNone(n + 1, q, m); }
  }

  /** `q` is the prime after `p`. */
  predicate Follows(p: nat, q: nat) {
    p < q < 361 && Sifted(q) && Barren(p + 1, q)
  }

  lemma Row0()
    ensures Follows(1, 2) && Follows(2, 3) && Follows(3, 5) && Follows(5, 7)
    ensures Follows(7, 11) && Follows(11, 13) && Follows(13, 17) && Follows(17, 19)
  {
  }

  lemma Row1()
    ensures Follows(19, 23) && Follows(23, 29) && Follows(29, 31) && Follows(31, 37)
    ensures Follows(37, 41) && Follows(41, 43) && Follows(43, 47) && Follows(47, 53)
  {
  }

  lemma Row2()
    ensures Follows(53, 59) && Follows(59, 61) && Follows(61, 67) && Follows(67, 71)
    ensures Follows(71, 73) && Follows(73, 79) && Follows(79, 83) && Follows(83, 89)
  {
  }

  lemma Row3()
    ensures Follows(89, 97) && Follows(97, 101) && Follows(101, 103) && Follows(103, 107)
    ensures Follows(107, 109) && Follows(109, 113) && Follows(113, 127) && Follows(127, 131)
  {
  }

  lemma Row4()
    ensures Follows(131, 137) && Follows(137, 139) && Follows(139, 149) && Follows(149, 151)
    ensures Follows(151, 157) && Follows(157, 163) && Follows(163, 167) && Follows(167, 173)
  {
  }

  lemma Row5()
    ensures Follows(173, 179) && Follows(179, 181) && Follows(181, 191) && Follows(191, 193)
    ensures Follows(193, 197) && Follows(197, 199) && Follows(199, 211) && Follows(211, 223)
  {
  }

  lemma Row6()
    ensures Follows(223, 227) && Follows(227, 229) && Follows(229, 233) && Follows(233, 239)
    ensures Follows(239, 241) && Follows(241, 251) && Follows(251, 257) && Follows(257, 263)
  {
  }

  lemma Row7()
    ensures Follows(263, 269) && Follows(269, 271) && Follows(271, 277) && Follows(277, 281)
    ensures Follows(281, 283) && Follows(283, 293) && Follows(293, 307) && Follows(307, 311)
  {
  }

  // ---- the first sixty-four -------------------------------------------------------------------------

  /** The prime before prime `i`, or one. */
  function Before(i: nat): nat
    requires i < 64
  {
    if i == 0 then 1 else Prime(i - 1)
  }

  lemma RowFollows0(i: nat)
    requires 0 <= i < 8
    ensures Follows(Before(i), Prime(i))
  {
    Row0();
  }

  lemma RowFollows1(i: nat)
    requires 8 <= i < 16
    ensures Follows(Before(i), Prime(i))
  {
    Row1();
  }

  lemma RowFollows2(i: nat)
    requires 16 <= i < 24
    ensures Follows(Before(i), Prime(i))
  {
    Row2();
  }

  lemma RowFollows3(i: nat)
    requires 24 <= i < 32
    ensures Follows(Before(i), Prime(i))
  {
    Row3();
  }

  lemma RowFollows4(i: nat)
    requires 32 <= i < 40
    ensures Follows(Before(i), Prime(i))
  {
    Row4();
  }

  lemma RowFollows5(i: nat)
    requires 40 <= i < 48
    ensures Follows(Before(i), Prime(i))
  {
    Row5();
  }

  lemma RowFollows6(i: nat)
    requires 48 <= i < 56
    ensures Follows(Before(i), Prime(i))
  {
    Row6();
  }

  lemma RowFollows7(i: nat)
    requires 56 <= i < 64
    ensures Follows(Before(i), Prime(i))
  {
    Row7();
  }

  lemma NextPrime(i: nat)
    requires i < 64
    ensures Follows(Before(i), Prime(i))
  {
    match i / 8 {
      case 0 => RowFollows0(i);
      case 1 => RowFollows1(i);
      case 2 => RowFollows2(i);
      case 3 => RowFollows3(i);
      case 4 => RowFollows4(i);
      case 5 => RowFollows5(i);
      case 6 => RowFollows6(i);
      case _ => RowFollows7(i);
    }
  }

  lemma {:induction false} PrimesAscend(i: nat, j: nat)
    requires i < j < 64
    ensures Prime(i) < Prime(j)
  {
    NextPrime(j);
    if i < j - 1 { PrimesAscend(i, j - 1); }
  }

  lemma {:induction false} PrimeIsListed(n: nat, i: nat) returns (j: nat)
    requires i < 64 && 2 <= n <= Prime(i) && Sifted(n)
    ensures j <= i && Prime(j) == n
  {
    NextPrime(i);
    if n == Prime(i) {
      j := i;
    } else if i > 0 && n <= Prime(i - 1) {
      j := PrimeIsListed(n, i - 1);
    } else {
      BarrenHoldsNone(Before(i) + 1, Prime(i), n);
      assert false;
    }
  }

  lemma ListedIsPrime(i: nat)
    requires i < 64
    ensures IsPrime(Prime(i)) && Prime(i) < 361
  {
    NextPrime(i);
    if i > 0 { PrimesAscend(0, i); }
    PrimeIsSifted(Prime(i));
  }

  /** The list holds the first sixty-four primes in ascending order. */
  lemma PrimesAreTheFirst()
    ensures forall i, j :: 0 <= i < j < 64 ==> Prime(i) < Prime(j)
    ensures forall n: nat :: IsPrime(n) && n <= Prime(63) <==> exists i :: 0 <= i < 64 && Prime(i) == n
  {
    forall i, j | 0 <= i < j < 64 ensures Prime(i) < Prime(j) { PrimesAscend(i, j); }
    ListedIsPrime(63);
    forall n: nat ensures IsPrime(n) && n <= Prime(63) <==> exists i :: 0 <= i < 64 && Prime(i) == n {
      if i: nat :| i < 64 && Prime(i) == n { ListedIsPrime(i); }
      if IsPrime(n) && n <= Prime(63) {
        PrimeIsSifted(n);
        var j := PrimeIsListed(n, 63);
      }
    }
  }

  // ---- roots ------------------------------------------------------------------------------------------

  /** With `c` the integer part of the cube root of `p`, `k` is the next thirty-two bits of that root. */
  predicate CubeRootBits(p: nat, c: nat, k: Word) {
    var x := c * 0x1_0000_0000 + k as int;
    && c * c * c <= p < (c + 1) * (c + 1) * (c + 1)
    && x * x * x <= p * 0x1_0000_0000_0000_0000_0000_0000 < (x + 1) * (x + 1) * (x + 1)
  }

  /** The same for the square root. */
  predicate SquareRootBits(p: nat, c: nat, k: Word) {
    var x := c * 0x1_0000_0000 + k as int;
    && c * c <= p < (c + 1) * (c + 1)
    && x * x <= p * 0x1_0000_0000_0000_0000 < (x + 1) * (x + 1)
  }

  lemma Cubes0()
    ensures CubeRootBits(2, 1, 0x428a_2f98) && CubeRootBits(3, 1, 0x7137_4491)
    ensures CubeRootBits(5, 1, 0xb5c0_fbcf) && CubeRootBits(7, 1, 0xe9b5_dba5)
    ensures CubeRootBits(11, 2, 0x3956_c25b) && CubeRootBits(13, 2, 0x59f1_11f1)
    ensures CubeRootBits(17, 2, 0x923f_82a4) && CubeRootBits(19, 2, 0xab1c_5ed5)
  {
  }

  lemma Cubes1()
    ensures CubeRootBits(23, 2, 0xd807_aa98) && CubeRootBits(29, 3, 0x1283_5b01)
    ensures CubeRootBits(31, 3, 0x2431_85be) && CubeRootBits(37, 3, 0x550c_7dc3)
    ensures CubeRootBits(41, 3, 0x72be_5d74) && CubeRootBits(43, 3, 0x80de_b1fe)
    ensures CubeRootBits(47, 3, 0x9bdc_06a7) && CubeRootBits(53, 3, 0xc19b_f174)
  {
  }

  lemma Cubes2()
    ensures CubeRootBits(59, 3, 0xe49b_69c1) && CubeRootBits(61, 3, 0xefbe_4786)
    ensures CubeRootBits(67, 4, 0x0fc1_9dc6) && CubeRootBits(71, 4, 0x240c_a1cc)
    ensures CubeRootBits(73, 4, 0x2de9_2c6f) && CubeRootBits(79, 4, 0x4a74_84aa)
    ensures CubeRootBits(83, 4, 0x5cb0_a9dc) && CubeRootBits(89, 4, 0x76f9_88da)
  {
  }

  lemma Cubes3()
    ensures CubeRootBits(97, 4, 0x983e_5152) && CubeRootBits(101, 4, 0xa831_c66d)
    ensures CubeRootBits(103, 4, 0xb003_27c8) && CubeRootBits(107, 4, 0xbf59_7fc7)
    ensures CubeRootBits(109, 4, 0xc6e0_0bf3) && CubeRootBits(113, 4, 0xd5a7_9147)
    ensures CubeRootBits(127, 5, 0x06ca_6351) && CubeRootBits(131, 5, 0x1429_2967)
  {
  }

  lemma Cubes4()
    ensures CubeRootBits(137, 5, 0x27b7_0a85) && CubeRootBits(139, 5, 0x2e1b_2138)
    ensures CubeRootBits(149, 5, 0x4d2c_6dfc) && CubeRootBits(151, 5, 0x5338_0d13)
    ensures CubeRootBits(157, 5, 0x650a_7354) && CubeRootBits(163, 5, 0x766a_0abb)
    ensures CubeRootBits(167, 5, 0x81c2_c92e) && CubeRootBits(173, 5, 0x9272_2c85)
  {
  }

  lemma Cubes5()
    ensures CubeRootBits(179, 5, 0xa2bf_e8a1) && CubeRootBits(181, 5, 0xa81a_664b)
    ensures CubeRootBits(191, 5, 0xc24b_8b70) && CubeRootBits(193, 5, 0xc76c_51a3)
    ensures CubeRootBits(197, 5, 0xd192_e819) && CubeRootBits(199, 5, 0xd699_0624)
    ensures CubeRootBits(211, 5, 0xf40e_3585) && CubeRootBits(223, 6, 0x106a_a070)
  {
  }

  lemma Cubes6()
    ensures CubeRootBits(227, 6, 0x19a4_c116) && CubeRootBits(229, 6, 0x1e37_6c08)
    ensures CubeRootBits(233, 6, 0x2748_774c) && CubeRootBits(239, 6, 0x34b0_bcb5)
    ensures CubeRootBits(241, 6, 0x391c_0cb3) && CubeRootBits(251, 6, 0x4ed8_aa4a)
    ensures CubeRootBits(257, 6, 0x5b9c_ca4f) && CubeRootBits(263, 6, 0x682e_6ff3)
  {
  }

  lemma Cubes7()
    ensures CubeRootBits(269, 6, 0x748f_82ee) && CubeRootBits(271, 6, 0x78a5_636f)
    ensures CubeRootBits(277, 6, 0x84c8_7814) && CubeRootBits(281, 6, 0x8cc7_0208)
    ensures CubeRootBits(283, 6, 0x90be_fffa) && CubeRootBits(293, 6, 0xa450_6ceb)
    ensures CubeRootBits(307, 6, 0xbef9_a3f7) && CubeRootBits(311, 6, 0xc671_78f2)
  {
  }

  /** Round constant `i`. */
  function Constant(i: nat): Word
    requires i < 64
  {
    if i < 8 then K0[i] else if i < 16 then K1[i - 8] else if i < 24 then K2[i - 16] else if i < 32 then K3[i - 24]
    else if i < 40 then K4[i - 32] else if i < 48 then K5[i - 40] else if i < 56 then K6[i - 48] else K7[i - 56]
  }

  lemma ConstantIsListed(i: nat)
    requires i < 64
    ensures |K| == 64 && K[i] == Constant(i)
  {
  }

  /** The integer part of the cube root of a prime of the list. */
  function CubeRoot(p: nat): nat {
    if p < 8 then 1 else if p < 27 then 2 else if p < 64 then 3 else if p < 125 then 4 else if p < 216 then 5 else 6
  }

  lemma CubesInRow0(i: nat)
    requires 0 <= i < 8
    ensures CubeRootBits(Prime(i), CubeRoot(Prime(i)), Constant(i))
  {
    Cubes0();
  }

  lemma CubesInRow1(i: nat)
    requires 8 <= i < 16
    ensures CubeRootBits(Prime(i), CubeRoot(Prime(i)), Constant(i))
  {
    Cubes1();
  }

  lemma CubesInRow2(i: nat)
    requires 16 <= i < 24
    ensures CubeRootBits(Prime(i), CubeRoot(Prime(i)), Constant(i))
  {
    Cubes2();
  }

  lemma CubesInRow3(i: nat)
    requires 24 <= i < 32
    ensures CubeRootBits(Prime(i), CubeRoot(Prime(i)), Constant(i))
  {
    Cubes3();
  }

  lemma CubesInRow4(i: nat)
    requires 32 <= i < 40
    ensures CubeRootBits(Prime(i), CubeRoot(Prime(i)), Constant(i))
  {
    Cubes4();
  }

  lemma CubesInRow5(i: nat)
    requires 40 <= i < 48
    ensures CubeRootBits(Prime(i), CubeRoot(Prime(i)), Constant(i))
  {
    Cubes5();
  }

  lemma CubesInRow6(i: nat)
    requires 48 <= i < 56
    ensures CubeRootBits(Prime(i), CubeRoot(Prime(i)), Constant(i))
  {
    Cubes6();
  }

  lemma CubesInRow7(i: nat)
    requires 56 <= i < 64
    ensures CubeRootBits(Prime(i), CubeRoot(Prime(i)), Constant(i))
  {
    Cubes7();
  }

  /** Round constant `i` is the first thirty-two bits of the fractional part of the cube root of prime `i`. */
  lemma RoundConstantsAreCubeRoots(i: nat) returns (c: nat)
    requires i < 64
    ensures |K| == 64 && CubeRootBits(Prime(i), c, K[i])
  {
    c := CubeRoot(Prime(i));
    ConstantIsListed(i);
    match i / 8 {
      case 0 => CubesInRow0(i);
      case 1 => CubesInRow1(i);
      case 2 => CubesInRow2(i);
      case 3 => CubesInRow3(i);
      case 4 => CubesInRow4(i);
      case 5 => CubesInRow5(i);
      case 6 => CubesInRow6(i);
      case _ => CubesInRow7(i);
    }
  }

  lemma Squares()
    ensures SquareRootBits(2, 1, 0x6a09_e667) && SquareRootBits(3, 1, 0xbb67_ae85)
    ensures SquareRootBits(5, 2, 0x3c6e_f372) && SquareRootBits(7, 2, 0xa54f_f53a)
    ensures SquareRootBits(11, 3, 0x510e_527f) && SquareRootBits(13, 3, 0x9b05_688c)
    ensures SquareRootBits(17, 4, 0x1f83_d9ab) && SquareRootBits(19, 4, 0x5be0_cd19)
  {
  }

  /** Word `i` of the initial hash is the same of the square root of prime `i`. */
  lemma InitialHashIsSquareRoots(i: nat) returns (c: nat)
    requires i < 8
    ensures |Words(H0)| == 8 && SquareRootBits(Prime(i), c, Words(H0)[i])
  {
    Squares();
    c := if i < 2 then 1 else if i < 4 then 2 else if i < 6 then 3 else 4;
  }
}
