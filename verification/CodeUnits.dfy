/** JavaScript strings: sequences of 16-bit code units, compared unit by unit. */
module CodeUnits {
  import Sorting

  newtype Unit = x: int | 0 <= x < 0x1_0000
  type Str = seq<Unit>

  /** The units of an ASCII literal. */
  function Lit(text: string): (s: Str)
    ensures |s| == |text|
  {
    seq(|text|, i requires 0 <= i < |text| => ((text[i] as int) % 0x1_0000) as Unit)
  }

  /** JavaScript's `a < b` on strings. */
  predicate Less(a: Str, b: Str) {
    b != [] && (a == [] || a[0] < b[0] || (a[0] == b[0] && Less(a[1..], b[1..])))
  }

  /** The texts agree up to `k`, where `a` ends or has the smaller unit. */
  predicate DiffersAt(a: Str, b: Str, k: nat) {
    k < |b| && k <= |a| && a[..k] == b[..k] && (k == |a| || a[k] < b[k])
  }

  /** The order is that of the first unit in which two texts differ; a text comes after its prefixes. */
  lemma {:induction false} LessSpells(a: Str, b: Str)
    ensures Less(a, b) <==> exists k: nat :: DiffersAt(a, b, k)
    decreases |a|
  {
    if a != [] && b != [] && a[0] == b[0] {
      LessSpells(a[1..], b[1..]);
      if k: nat :| DiffersAt(a[1..], b[1..], k) {
        assert a[..k + 1] == [a[0]] + a[1..][..k] && b[..k + 1] == [b[0]] + b[1..][..k];
        assert DiffersAt(a, b, k + 1);
      }
      if k: nat :| DiffersAt(a, b, k) {
        assert k > 0 && a[1..][..k - 1] == a[..k][1..] && b[1..][..k - 1] == b[..k][1..];
        assert DiffersAt(a[1..], b[1..], k - 1);
      }
    } else {
      if Less(a, b) { assert DiffersAt(a, b, 0); }
      if k: nat :| DiffersAt(a, b, k) { assert k > 0 ==> a[..k][0] == b[..k][0]; }
    }
  }

  lemma LessIsStrict(a: Str)
    ensures !Less(a, a)
  {
    if a != [] { LessIsStrict(a[1..]); }
  }

  lemma LessIsTotal(a: Str, b: Str)
    ensures a == b || Less(a, b) || Less(b, a)
  {
    if a != [] && b != [] && a[0] == b[0] {
      LessIsTotal(a[1..], b[1..]);
      assert a == [a[0]] + a[1..] && b == [b[0]] + b[1..];
    }
  }

  lemma LessIsTransitive(a: Str, b: Str, c: Str)
    requires Less(a, b) && Less(b, c)
    ensures Less(a, c)
  {
    if a != [] && a[0] == b[0] && b[0] == c[0] { LessIsTransitive(a[1..], b[1..], c[1..]); }
  }

  lemma LessIsAsymmetric(a: Str, b: Str)
    requires Less(a, b)
    ensures !Less(b, a)
  {
    if Less(b, a) {
      LessIsTransitive(a, b, a);
      LessIsStrict(a);
    }
  }

  /** Code-unit order sorts strings totally. */
  lemma LessSorts()
    ensures Sorting.StrictWeak(Less)
    ensures forall a, b :: a == b || Less(a, b) || Less(b, a)
  {
    forall a, b ensures a == b || Less(a, b) || Less(b, a) { LessIsTotal(a, b); }
    forall a, b | Less(a, b) ensures !Less(b, a) { LessIsAsymmetric(a, b); }
    forall a, b, c | !Less(a, b) && !Less(b, c) ensures !Less(a, c) {
      LessIsTotal(a, b);
      LessIsTotal(b, c);
      if Less(a, c) {
        if a == b || b == c {
        } else {
          LessIsTransitive(c, b, a);
          LessIsAsymmetric(a, c);
        }
      }
    }
  }
}
