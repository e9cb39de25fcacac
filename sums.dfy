/** Exact sums over the keys of a map, in no particular order: the model of a
    Python loop that accumulates over `counts.keys()`. */
module Sums {

  /** The sum of `m[k]` over the keys `ks`, taken in an arbitrary order. */
  ghost function SumOver(m: map<nat, real>, ks: set<nat>): real
    requires ks <= m.Keys
    decreases ks
  {
    if ks == {} then 0.0 else var k :| k in ks; m[k] + SumOver(m, ks - {k})
  }

  /** The sum does not depend on the order: any key may be taken first. */
  lemma SumOverPick(m: map<nat, real>, ks: set<nat>, k: nat)
    requires ks <= m.Keys && k in ks
    ensures SumOver(m, ks) == m[k] + SumOver(m, ks - {k})
    decreases ks
  {
    var j :| j in ks && SumOver(m, ks) == m[j] + SumOver(m, ks - {j});
    if j != k {
      SumOverPick(m, ks - {j}, k);
      SumOverPick(m, ks - {k}, j);
      assert ks - {j} - {k} == ks - {k} - {j};
    }
  }

  /** Summing a pointwise smaller map gives a smaller sum. */
  lemma {:induction false} SumOverMono(m1: map<nat, real>, m2: map<nat, real>, ks: set<nat>)
    requires ks <= m1.Keys && ks <= m2.Keys
    requires forall k :: k in ks ==> m1[k] <= m2[k]
    ensures SumOver(m1, ks) <= SumOver(m2, ks)
    decreases ks
  {
    if ks != {} {
      var k :| k in ks;
      SumOverPick(m1, ks, k);
      SumOverPick(m2, ks, k);
      SumOverMono(m1, m2, ks - {k});
    }
  }

  /** A sum of non-negative terms is non-negative. */
  lemma {:induction false} SumOverNonneg(m: map<nat, real>, ks: set<nat>)
    requires ks <= m.Keys
    requires forall k :: k in ks ==> m[k] >= 0.0
    ensures SumOver(m, ks) >= 0.0
    decreases ks
  {
    if ks != {} {
      var k :| k in ks;
      SumOverPick(m, ks, k);
      SumOverNonneg(m, ks - {k});
    }
  }

  /** A sum of zeros is zero. */
  lemma {:induction false} SumOverZero(m: map<nat, real>, ks: set<nat>)
    requires ks <= m.Keys
    requires forall k :: k in ks ==> m[k] == 0.0
    ensures SumOver(m, ks) == 0.0
    decreases ks
  {
    if ks != {} {
      var k :| k in ks;
      SumOverPick(m, ks, k);
      SumOverZero(m, ks - {k});
    }
  }

  /** A common factor can be taken out of the sum. */
  lemma {:induction false} SumOverScale(m1: map<nat, real>, m2: map<nat, real>, c: real, ks: set<nat>)
    requires ks <= m1.Keys && ks <= m2.Keys
    requires forall k :: k in ks ==> m1[k] == c * m2[k]
    ensures SumOver(m1, ks) == c * SumOver(m2, ks)
    decreases ks
  {
    if ks != {} {
      var k :| k in ks;
      SumOverPick(m1, ks, k);
      SumOverPick(m2, ks, k);
      SumOverScale(m1, m2, c, ks - {k});
    }
  }

  /** A real number or minus infinity: `cost_best` starts at `-np.inf`. */
  datatype ExtReal = NegInfinity | Finite(value: real)

  /** Python's `max(b, c)`: c when it is larger, b otherwise. */
  function Max(b: ExtReal, c: real): (m: ExtReal)
    ensures m.Finite? && m.value >= c && (b.Finite? ==> m.value >= b.value)
    ensures m == b || m == Finite(c)
  {
    if b.Finite? && b.value >= c then b else Finite(c)
  }

  /** b is the largest element of S, or minus infinity when S is empty. */
  predicate IsMaxOf(b: ExtReal, S: set<real>)
  {
    if S == {} then b == NegInfinity else b.Finite? && b.value in S && forall c :: c in S ==> c <= b.value
  }

  /** Taking `max` with one more value gives the maximum of the larger set. */
  lemma MaxStep(b: ExtReal, S: set<real>, c: real)
    requires IsMaxOf(b, S)
    ensures IsMaxOf(Max(b, c), S + {c})
  {
  }
}
