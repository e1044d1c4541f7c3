/** Unbiased rejection sampling without replacement, over a prefix of the 32-bit draw stream. */
module Sampling {
  import BitOps
  import opened Outcomes

  function Limit(poolSize: nat, total: nat): nat
    requires poolSize > 0
  {
    total - total % poolSize
  }

  /** The pool index a draw stands for; draws from the limit on are rejected. */
  function IndexOf(poolSize: nat, limit: nat, draw: nat): Option<nat>
    requires poolSize > 0
  {
    if draw >= limit then None else Some(draw % poolSize)
  }

  /** The accepted draws as pool indexes, each kept only where it comes first. */
  function Picks(poolSize: nat, limit: nat, draws: seq<nat>): (picks: seq<nat>)
    requires poolSize > 0
    ensures |picks| <= |draws|
    ensures forall k :: 0 <= k < |picks| ==> picks[k] < poolSize
    ensures forall j, k :: 0 <= j < k < |picks| ==> picks[j] != picks[k]
  {
    if draws == [] then []
    else
      var before := Picks(poolSize, limit, draws[..|draws| - 1]);
      match IndexOf(poolSize, limit, draws[|draws| - 1])
      case None => before
      case Some(index) => if index in before then before else before + [index]
  }

  function Identity(poolSize: nat): seq<nat> {
    seq(poolSize, i requires 0 <= i < poolSize => i)
  }

  /** What sampling returns once it has met these draws; nothing when it still wants more. */
  function Sample(poolSize: int, count: int, total: nat, draws: seq<nat>): Option<seq<nat>> {
    if poolSize <= 0 then Some([])
    else if poolSize <= count then Some(Identity(poolSize))
    else
      var picks := Picks(poolSize, Limit(poolSize, total), draws);
      if count <= 0 then Some([])
      else if |picks| < count then None
      else Some(picks[..count])
  }

  lemma PicksStep(poolSize: nat, limit: nat, draws: seq<nat>, met: nat)
    requires poolSize > 0 && met < |draws|
    ensures Picks(poolSize, limit, draws[..met + 1])
         == var before := Picks(poolSize, limit, draws[..met]);
            match IndexOf(poolSize, limit, draws[met])
            case None => before
            case Some(index) => if index in before then before else before + [index]
  {
    assert draws[..met + 1][..met] == draws[..met];
  }

  /** The loop: draws until `count` different indexes are chosen, or until the prefix is used up. */
  method Draw(poolSize: nat, count: int, limit: nat, draws: seq<nat>) returns (order: seq<nat>, met: nat)
    requires poolSize > 0
    ensures met <= |draws| && order == Picks(poolSize, limit, draws[..met])
    ensures |order| < count ==> met == |draws|
    ensures |order| >= count ==> |order| == if count > 0 then count else 0
  {
    var chosen: set<nat> := {};
    order, met := [], 0;
    while |order| < count && met < |draws|
      invariant met <= |draws| && order == Picks(poolSize, limit, draws[..met])
      invariant forall x :: x in chosen <==> x in order
      invariant |order| <= if count > 0 then count else 0
      decreases |draws| - met
    {
      var draw := draws[met];
      PicksStep(poolSize, limit, draws, met);
      met := met + 1;
      if draw >= limit { continue; }
      var index := draw % poolSize;
      if index in chosen { continue; }
      chosen := chosen + {index};
      order := order + [index];
    }
  }

  method SampleDistinctIndexes(poolSize: int, count: int, total: nat, draws: seq<nat>) returns (result: Option<seq<nat>>)
    ensures result == Sample(poolSize, count, total, draws)
  {
    if poolSize <= 0 { return Some([]); }
    if poolSize <= count { return Some(Identity(poolSize)); }
    var limit := Limit(poolSize, total);
    var order, met := Draw(poolSize, count, limit, draws);
    DrawnIsSample(poolSize, limit, draws, count, order, met);
    if |order| < count { return None; }
    result := Some(order);
  }

  /** The loop stops with the first `count` picks of the whole stream, or with all there are. */
  lemma {:induction false} DrawnIsSample(poolSize: nat, limit: nat, draws: seq<nat>, count: int, order: seq<nat>, met: nat)
    requires poolSize > 0 && met <= |draws| && order == Picks(poolSize, limit, draws[..met])
    requires |order| < count ==> met == |draws|
    requires |order| >= count ==> |order| == if count > 0 then count else 0
    ensures var picks := Picks(poolSize, limit, draws);
      if count <= 0 then order == [] else if |picks| < count then |order| < count else order == picks[..count]
  {
    PicksGrow(poolSize, limit, draws[..met], draws[met..]);
    assert draws[..met] + draws[met..] == draws;
    if |order| < count {
      assert draws[..met] == draws;
    } else if count > 0 {
      TakePrefix(order, Picks(poolSize, limit, draws), count);
    }
  }

  lemma TakePrefix(a: seq<nat>, b: seq<nat>, n: nat)
    requires a <= b && n <= |a|
    ensures n <= |b| && a[..n] == b[..n]
  {
  }

  lemma {:induction false} PicksGrow(poolSize: nat, limit: nat, draws: seq<nat>, more: seq<nat>)
    requires poolSize > 0
    ensures Picks(poolSize, limit, draws) <= Picks(poolSize, limit, draws + more)
  {
    if more == [] {
      assert draws + more == draws;
    } else {
      PicksGrow(poolSize, limit, draws, more[..|more| - 1]);
      assert (draws + more)[..|draws + more| - 1] == draws + more[..|more| - 1];
    }
  }

  /** A sample holds different indexes of the pool, as many as asked for or as there are. */
  lemma SampleIsSound(poolSize: int, count: int, total: nat, draws: seq<nat>)
    requires Sample(poolSize, count, total, draws).Some?
    ensures var order := Sample(poolSize, count, total, draws).value;
      && |order| == (if poolSize <= 0 || count <= 0 then 0 else if poolSize <= count then poolSize else count)
      && (forall k :: 0 <= k < |order| ==> order[k] < poolSize)
      && (forall j, k :: 0 <= j < k < |order| ==> order[j] != order[k])
  {
  }

  /** Pick `k` is the residue of an accepted draw. */
  predicate PickedFrom(poolSize: nat, limit: nat, draws: seq<nat>, picks: seq<nat>, at: seq<nat>, k: nat)
    requires poolSize > 0 && k < |at| == |picks|
  {
    at[k] < |draws| && draws[at[k]] < limit && picks[k] == draws[at[k]] % poolSize
  }

  /** The residue of draw `i`, when accepted, is picked from that draw or an earlier one. */
  ghost predicate PickedBy(poolSize: nat, limit: nat, draws: seq<nat>, picks: seq<nat>, at: seq<nat>, i: nat)
    requires poolSize > 0 && i < |draws| && |at| == |picks|
  {
    draws[i] < limit ==> exists k :: 0 <= k < |at| && at[k] <= i && picks[k] == draws[i] % poolSize
  }

  predicate Climbs(at: seq<nat>) {
    forall j, k :: 0 <= j < k < |at| ==> at[j] < at[k]
  }

  /**
   * The picks are the residues of the accepted draws in the order they first occur: each is that of a
   * draw below the limit, later picks come from later draws, and every accepted draw's residue has
   * been picked by then.
   */
  ghost predicate FirstResidues(poolSize: nat, limit: nat, draws: seq<nat>, picks: seq<nat>, at: seq<nat>)
    requires poolSize > 0
  {
    && |at| == |picks|
    && Climbs(at)
    && (forall k :: 0 <= k < |at| ==> PickedFrom(poolSize, limit, draws, picks, at, k))
    && (forall i :: 0 <= i < |draws| ==> PickedBy(poolSize, limit, draws, picks, at, i))
  }

  lemma {:induction false} PicksSpell(poolSize: nat, limit: nat, draws: seq<nat>) returns (at: seq<nat>)
    requires poolSize > 0
    ensures FirstResidues(poolSize, limit, draws, Picks(poolSize, limit, draws), at)
    decreases |draws|
  {
    if draws == [] {
      at := [];
    } else {
      var n := |draws| - 1;
      var front, draw := draws[..n], draws[n];
      var before := Picks(poolSize, limit, front);
      var met := PicksSpell(poolSize, limit, front);
      assert draws == front + [draw];
      if draw < limit && draw % poolSize !in before {
        at := met + [n];
        NewPick(poolSize, limit, front, draw, before, met);
      } else {
        at := met;
        OldPick(poolSize, limit, front, draw, before, met);
      }
    }
  }

  lemma {:induction false} PickStays(poolSize: nat, limit: nat, draws: seq<nat>, draw: nat, picks: seq<nat>, at: seq<nat>,
                                     more: seq<nat>, later: seq<nat>)
    requires poolSize > 0 && FirstResidues(poolSize, limit, draws, picks, at) && |more| == |later|
    ensures forall k :: 0 <= k < |at| ==> PickedFrom(poolSize, limit, draws + [draw], picks + more, at + later, k)
    ensures forall i :: 0 <= i < |draws| ==> PickedBy(poolSize, limit, draws + [draw], picks + more, at + later, i)
  {
    var all, wider, longer := draws + [draw], picks + more, at + later;
    forall k | 0 <= k < |at| ensures PickedFrom(poolSize, limit, all, wider, longer, k) {
      assert PickedFrom(poolSize, limit, draws, picks, at, k);
      assert longer[k] == at[k] && wider[k] == picks[k] && all[at[k]] == draws[at[k]];
    }
    forall i | 0 <= i < |draws| ensures PickedBy(poolSize, limit, all, wider, longer, i) {
      assert PickedBy(poolSize, limit, draws, picks, at, i) && all[i] == draws[i];
      if draws[i] < limit {
        var k :| 0 <= k < |at| && at[k] <= i && picks[k] == draws[i] % poolSize;
        assert longer[k] == at[k] && wider[k] == picks[k];
      }
    }
  }

  lemma {:induction false} OldPick(poolSize: nat, limit: nat, draws: seq<nat>, draw: nat, picks: seq<nat>, at: seq<nat>)
    requires poolSize > 0 && FirstResidues(poolSize, limit, draws, picks, at)
    requires draw < limit ==> draw % poolSize in picks
    ensures FirstResidues(poolSize, limit, draws + [draw], picks, at)
  {
    var n := |draws|;
    PickStays(poolSize, limit, draws, draw, picks, at, [], []);
    assert picks + [] == picks && at + [] == at;
    assert PickedBy(poolSize, limit, draws + [draw], picks, at, n) by {
      assert (draws + [draw])[n] == draw;
      if draw < limit {
        var k :| 0 <= k < |picks| && picks[k] == draw % poolSize;
        assert PickedFrom(poolSize, limit, draws, picks, at, k);
        assert at[k] <= n;
      }
    }
  }

  lemma {:induction false} NewPick(poolSize: nat, limit: nat, draws: seq<nat>, draw: nat, picks: seq<nat>, at: seq<nat>)
    requires poolSize > 0 && FirstResidues(poolSize, limit, draws, picks, at) && draw < limit
    ensures FirstResidues(poolSize, limit, draws + [draw], picks + [draw % poolSize], at + [|draws|])
  {
    var n, index := |draws|, draw % poolSize;
    var all, wider, longer := draws + [draw], picks + [index], at + [n];
    PickStays(poolSize, limit, draws, draw, picks, at, [index], [n]);
    assert all[n] == draw && longer[|at|] == n && wider[|at|] == index;
    assert PickedFrom(poolSize, limit, all, wider, longer, |at|);
    assert PickedBy(poolSize, limit, all, wider, longer, n);
    assert Climbs(longer) by {
      forall j, k | 0 <= j < k < |longer| ensures longer[j] < longer[k] {
        if k == |at| { assert PickedFrom(poolSize, limit, draws, picks, at, j); }
      }
    }
  }

  /** A pool no larger than the count is taken whole, in order; an empty one gives nothing. */
  lemma WholePool(poolSize: int, count: int, total: nat, draws: seq<nat>)
    requires poolSize <= 0 || poolSize <= count
    ensures Sample(poolSize, count, total, draws).Some?
    ensures |Sample(poolSize, count, total, draws).value| == if poolSize <= 0 then 0 else poolSize
    ensures forall k :: 0 <= k < poolSize ==> Sample(poolSize, count, total, draws).value[k] == k
  {
  }

  /**
   * A larger pool gives as many first picks as asked for, from draws below the largest multiple of the
   * pool size that the draws can reach.
   */
  lemma SampleSpells(poolSize: int, count: int, total: nat, draws: seq<nat>) returns (limit: nat)
    requires 0 < poolSize && count < poolSize
    ensures limit % poolSize == 0 && limit <= total < limit + poolSize
    ensures var picks := Picks(poolSize, limit, draws);
      Sample(poolSize, count, total, draws)
      == if count <= 0 then Some([]) else if |picks| < count then None else Some(picks[..count])
  {
    limit := Limit(poolSize, total);
    LimitIsMultiple(poolSize, total, limit);
  }

  /** Draws after the sample is complete change nothing. */
  lemma {:induction false} LaterDrawsAreIgnored(poolSize: int, count: int, total: nat, draws: seq<nat>, more: seq<nat>)
    requires Sample(poolSize, count, total, draws).Some?
    ensures Sample(poolSize, count, total, draws + more) == Sample(poolSize, count, total, draws)
  {
    if 0 < poolSize && 0 < count < poolSize {
      PicksGrow(poolSize, Limit(poolSize, total), draws, more);
      TakePrefix(Picks(poolSize, Limit(poolSize, total), draws), Picks(poolSize, Limit(poolSize, total), draws + more), count);
    }
  }

  /** On one stream a smaller sample starts the larger one. */
  lemma SmallerSampleIsPrefix(poolSize: int, few: int, many: int, total: nat, draws: seq<nat>)
    requires few <= many < poolSize && Sample(poolSize, many, total, draws).Some?
    ensures Sample(poolSize, few, total, draws).Some?
    ensures Sample(poolSize, few, total, draws).value <= Sample(poolSize, many, total, draws).value
  {
  }

  // ---- every index is equally likely ------------------------------------------------------

  /** How many of the draws below `n` are accepted for this index. */
  function Accepting(poolSize: nat, limit: nat, index: nat, n: nat): nat
    requires poolSize > 0
  {
    if n == 0 then 0
    else Accepting(poolSize, limit, index, n - 1) + if IndexOf(poolSize, limit, n - 1) == Some(index) then 1 else 0
  }

  lemma NextQuotient(n: nat, m: nat)
    requires m > 0
    ensures n % m + 1 < m ==> (n + 1) / m == n / m && (n + 1) % m == n % m + 1
    ensures n % m + 1 == m ==> (n + 1) / m == n / m + 1 && (n + 1) % m == 0
  {
    var q, r := n / m, n % m;
    assert n + 1 == m * q + (r + 1);
    if r + 1 < m {
      BitOps.DivModUnique(n + 1, m, q, r + 1);
    } else {
      assert n + 1 == m * (q + 1) + 0;
      BitOps.DivModUnique(n + 1, m, q + 1, 0);
    }
  }

  lemma {:induction false} BelowLimit(poolSize: nat, limit: nat, index: nat, n: nat)
    requires index < poolSize && n <= limit
    ensures Accepting(poolSize, limit, index, n) == n / poolSize + if index < n % poolSize then 1 else 0
  {
    if n > 0 {
      BelowLimit(poolSize, limit, index, n - 1);
      NextQuotient(n - 1, poolSize);
    } else {
      BitOps.DivModUnique(0, poolSize, 0, 0);
    }
  }

  lemma {:induction false} AboveLimit(poolSize: nat, limit: nat, index: nat, n: nat)
    requires poolSize > 0 && n >= limit
    ensures Accepting(poolSize, limit, index, n) == Accepting(poolSize, limit, index, limit)
  {
    if n > limit { AboveLimit(poolSize, limit, index, n - 1); }
  }

  /**
   * Out of `total` equally likely draws each index is accepted from exactly limit / poolSize of
   * them, and fewer than poolSize draws are rejected. With total = 2^32 and a larger pool the
   * limit is 0 and nothing is ever accepted.
   */
  lemma EveryIndexIsEquallyLikely(poolSize: nat, total: nat, index: nat)
    requires index < poolSize
    ensures var limit := Limit(poolSize, total);
      && Accepting(poolSize, limit, index, total) == limit / poolSize
      && total - limit < poolSize
      && (limit == 0 <==> total < poolSize)
  {
    var limit := Limit(poolSize, total);
    LimitIsMultiple(poolSize, total, limit);
    BelowLimit(poolSize, limit, index, limit);
    AboveLimit(poolSize, limit, index, total);
  }

  lemma LimitIsMultiple(poolSize: nat, total: nat, limit: nat)
    requires poolSize > 0 && limit == Limit(poolSize, total)
    ensures limit % poolSize == 0 && total - limit < poolSize && (limit == 0 <==> total < poolSize)
  {
    var q, r := total / poolSize, total % poolSize;
    assert limit == poolSize * q + 0;
    BitOps.DivModUnique(limit, poolSize, q, 0);
    assert q >= 1 ==> poolSize * q >= poolSize;
  }
}
