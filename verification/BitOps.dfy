/** Bitwise operations on natural numbers, and JavaScript's 32-bit operators on top of them. */
module BitOps {
  const TWO32: int := 0x1_0000_0000

  function Pow2(n: nat): (p: nat)
    ensures p > 0
  {
    if n == 0 then 1 else 2 * Pow2(n - 1)
  }

  function And(x: nat, y: nat): nat {
    if x == 0 || y == 0 then 0
    else (if x % 2 == 1 && y % 2 == 1 then 1 else 0) + 2 * And(x / 2, y / 2)
  }

  function Or(x: nat, y: nat): nat {
    if x == 0 then y
    else if y == 0 then x
    else (if x % 2 == 1 || y % 2 == 1 then 1 else 0) + 2 * Or(x / 2, y / 2)
  }

  function Xor(x: nat, y: nat): nat {
    if x == 0 then y
    else if y == 0 then x
    else (if x % 2 != y % 2 then 1 else 0) + 2 * Xor(x / 2, y / 2)
  }

  // ---- bounds and disjoint bits ---------------------------------------------

  lemma {:induction false} OperatorsFit(x: nat, y: nat, n: nat)
    requires x < Pow2(n) && y < Pow2(n)
    ensures And(x, y) < Pow2(n) && Or(x, y) < Pow2(n) && Xor(x, y) < Pow2(n)
  {
    if n > 0 && x > 0 && y > 0 { OperatorsFit(x / 2, y / 2, n - 1); }
  }

  /** Or-ing bits that do not overlap adds them. */
  lemma {:induction false} OrAdds(low: nat, high: nat, n: nat)
    requires low < Pow2(n)
    ensures Or(low, high * Pow2(n)) == low + high * Pow2(n)
  {
    if n > 0 && low > 0 && high > 0 {
      var shifted := high * Pow2(n - 1);
      assert high * Pow2(n) == 2 * shifted;
      OrAdds(low / 2, high, n - 1);
    }
  }

  lemma {:induction false} OrCommutes(x: nat, y: nat)
    ensures Or(x, y) == Or(y, x)
  {
    if x > 0 && y > 0 { OrCommutes(x / 2, y / 2); }
  }

  /** Masking with `n` ones keeps the lowest `n` bits. */
  lemma {:induction false} AndMasks(high: nat, low: nat, n: nat)
    requires low < Pow2(n)
    ensures And(high * Pow2(n) + low, Pow2(n) - 1) == low
  {
    if n > 0 {
      var shifted := high * Pow2(n - 1);
      assert high * Pow2(n) == 2 * shifted;
      AndMasks(high, low / 2, n - 1);
      AndOdd(2 * shifted + low, Pow2(n - 1) - 1);
      assert (2 * shifted + low) / 2 == shifted + low / 2;
    } else {
      assert And(high, 0) == 0;
    }
  }

  lemma AndOdd(x: nat, y: nat)
    ensures And(x, 2 * y + 1) == x % 2 + 2 * And(x / 2, y)
  {
    assert (2 * y + 1) / 2 == y && (2 * y + 1) % 2 == 1;
  }

  /** Quotient and remainder are unique. */
  lemma DivModUnique(x: int, m: int, q: int, r: int)
    requires m > 0 && x == m * q + r && 0 <= r < m
    ensures x / m == q && x % m == r
  {
    var d := x / m - q;
    assert m * d == r - x % m;
    assert (d >= 1 ==> m * d >= m) && (d <= -1 ==> m * d <= -m);
  }

  lemma {:induction false} Pow2Adds(a: nat, b: nat)
    ensures Pow2(a + b) == Pow2(a) * Pow2(b)
  {
    if a > 0 { Pow2Adds(a - 1, b); }
  }

  lemma Pow2Is32()
    ensures Pow2(31) == 0x8000_0000 && Pow2(32) == TWO32
  {
    assert Pow2(8) == 256;
    Pow2Adds(8, 8);
    Pow2Adds(15, 16);
    Pow2Adds(16, 16);
  }

  lemma WordsFit(x: nat, y: nat)
    requires x < TWO32 && y < TWO32
    ensures And(x, y) < TWO32 && Or(x, y) < TWO32 && Xor(x, y) < TWO32
    ensures x < 0x8000_0000 && y < 0x8000_0000 ==> And(x, y) < 0x8000_0000 && Or(x, y) < 0x8000_0000
  {
    Pow2Is32();
    OperatorsFit(x, y, 32);
    if x < Pow2(31) && y < Pow2(31) { OperatorsFit(x, y, 31); }
  }

  // ---- JavaScript -----------------------------------------------------------

  /** The unsigned 32-bit reading of a number: `x >>> 0`. */
  function ToUint32(x: int): (u: int)
    ensures 0 <= u < TWO32
  {
    x % TWO32
  }

  /** The signed 32-bit reading every bitwise operator starts from and returns. */
  function ToInt32(x: int): (i: int)
    ensures -0x8000_0000 <= i < 0x8000_0000
  {
    if ToUint32(x) >= 0x8000_0000 then ToUint32(x) - TWO32 else ToUint32(x)
  }

  function JsAnd(x: int, y: int): int {
    ToInt32(And(ToUint32(x), ToUint32(y)))
  }

  function JsOr(x: int, y: int): int {
    ToInt32(Or(ToUint32(x), ToUint32(y)))
  }

  function JsXor(x: int, y: int): int {
    ToInt32(Xor(ToUint32(x), ToUint32(y)))
  }

  function JsNot(x: int): int {
    -ToInt32(x) - 1
  }

  /** `x << n` for a shift count below 32. */
  function JsShiftLeft(x: int, n: nat): int {
    ToInt32(ToUint32(x) * Pow2(n))
  }

  /** `x >>> n` */
  function JsShiftRight(x: int, n: nat): int {
    ToUint32(x) / Pow2(n)
  }

  /** `x >> n`: the sign is kept. */
  function JsShiftRightSigned(x: int, n: nat): int {
    ToInt32(x) / Pow2(n)
  }

  /** Reading a signed result as unsigned undoes the sign. */
  lemma UnsignedOfSigned(x: int)
    ensures ToUint32(ToInt32(x)) == ToUint32(x)
  {
  }

  lemma ComplementOfSigned(x: int)
    ensures ToUint32(JsNot(x)) == TWO32 - 1 - ToUint32(x)
  {
  }

  lemma WordOfSigned(word: nat)
    requires word < TWO32
    ensures ToUint32(ToInt32(word)) == word
  {
    UnsignedOfSigned(word);
  }

  /** The signed operators compute the bitwise words. */
  lemma {:induction false} SignedOperators(x: int, y: int)
    ensures ToUint32(JsAnd(x, y)) == And(ToUint32(x), ToUint32(y))
    ensures ToUint32(JsOr(x, y)) == Or(ToUint32(x), ToUint32(y))
    ensures ToUint32(JsXor(x, y)) == Xor(ToUint32(x), ToUint32(y))
    ensures ToUint32(JsNot(x)) == TWO32 - 1 - ToUint32(x)
  {
    var a, b := ToUint32(x), ToUint32(y);
    WordsFit(a, b);
    WordOfSigned(And(a, b));
    WordOfSigned(Or(a, b));
    WordOfSigned(Xor(a, b));
    ComplementOfSigned(x);
  }

  lemma SmallIsUnsigned(v: nat)
    requires v < 0x8000_0000
    ensures ToUint32(v) == v && ToInt32(v) == v
  {
  }

  /** On numbers below 2^31 the signed operators are the plain ones. */
  lemma SmallOperators(x: nat, y: nat)
    requires x < 0x8000_0000 && y < 0x8000_0000
    ensures JsAnd(x, y) == And(x, y) && JsOr(x, y) == Or(x, y)
  {
    WordsFit(x, y);
    SmallIsUnsigned(x);
    SmallIsUnsigned(y);
    SmallIsUnsigned(And(x, y));
    SmallIsUnsigned(Or(x, y));
  }
}
