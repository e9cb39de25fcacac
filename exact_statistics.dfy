/** The statevector branches of `successProbability` and
    `measurementStatistics`. A statevector run gives the probability of every
    basis state (the squared magnitudes of the amplitudes, taken here as given
    reals) together with the bitstrings `state_strings` naming those states;
    the statistics are inner products of the cost, or of the exact-cover test,
    of every state with these probabilities. */
module ExactStatistics {
  import opened CostModel
  import opened Sums

  /** Every state string names an outcome of the R-qubit register. */
  predicate States(p: Problem, states: seq<string>)
  {
    forall i :: 0 <= i < |states| ==> IsBinary(states[i]) && |states[i]| == Qubits(p)
  }

  /** The sum of the first n entries of v. */
  function Total(v: seq<real>, n: nat): real
    requires n <= |v|
  {
    if n == 0 then 0.0 else Total(v, n - 1) + v[n - 1]
  }

  /** A probability vector: non-negative entries adding up to one. */
  predicate Distribution(probs: seq<real>)
  {
    (forall i :: 0 <= i < |probs| ==> probs[i] >= 0.0) && Total(probs, |probs|) == 1.0
  }

  /** `u @ v` over the first n entries. */
  function Inner(u: seq<real>, v: seq<real>, n: nat): real
    requires n <= |u| && n <= |v|
  {
    if n == 0 then 0.0 else Inner(u, v, n - 1) + u[n - 1] * v[n - 1]
  }

  /** `vector_cost(state_strings)`: the cost of every state. */
  function Costs(p: Problem, states: seq<string>): (c: seq<real>)
    requires WellFormed(p) && States(p, states)
    ensures |c| == |states|
  {
    seq(|states|, i requires 0 <= i < |states| && States(p, states) => Cost(p, states[i]))
  }

  /** `vector_is_solution(state_strings)`, with True read as 1. */
  function Indicators(p: Problem, states: seq<string>): (c: seq<real>)
    requires WellFormed(p) && States(p, states)
    ensures |c| == |states|
    ensures forall i :: 0 <= i < |states| ==> c[i] == 0.0 || c[i] == 1.0
  {
    seq(|states|, i requires 0 <= i < |states| && States(p, states) => if IsSolution(p, states[i]) then 1.0 else 0.0)
  }

  /** `s_prob = vector_is_solution(state_strings) @ probs`. */
  function ExactSuccessProbability(p: Problem, states: seq<string>, probs: seq<real>): real
    requires WellFormed(p) && States(p, states) && |probs| == |states|
  {
    Inner(Indicators(p, states), probs, |states|)
  }

  /** `E = costs @ probs`. */
  function ExactExpectation(p: Problem, states: seq<string>, probs: seq<real>): real
    requires WellFormed(p) && States(p, states) && |probs| == |states|
  {
    Inner(Costs(p, states), probs, |states|)
  }

  /** `np.ceil`: the least integer not below x. */
  function Ceil(x: real): (c: int)
    ensures c as real >= x && (c - 1) as real < x
  {
    -((-x).Floor)
  }

  /** `np.ceil(probs)`. */
  function CeilAll(probs: seq<real>): (c: seq<real>)
    ensures |c| == |probs|
  {
    seq(|probs|, i requires 0 <= i < |probs| => Ceil(probs[i]) as real)
  }

  /** `np.max(costs @ np.ceil(probs))` as written: the maximum of a single
      number, the inner product itself. */
  function BestAsWritten(p: Problem, states: seq<string>, probs: seq<real>): real
    requires WellFormed(p) && States(p, states) && |probs| == |states|
  {
    Inner(Costs(p, states), CeilAll(probs), |states|)
  }

  /** The sum of the costs of the states among the first n with positive
      probability. */
  function SupportSum(p: Problem, states: seq<string>, probs: seq<real>, n: nat): real
    requires WellFormed(p) && States(p, states) && |probs| == |states| && n <= |states|
  {
    if n == 0 then 0.0
    else SupportSum(p, states, probs, n - 1) + (if probs[n - 1] > 0.0 then Cost(p, states[n - 1]) else 0.0)
  }

  /** The costs of the states among the first n that can be measured. */
  function SupportCosts(p: Problem, states: seq<string>, probs: seq<real>, n: nat): set<real>
    requires WellFormed(p) && States(p, states) && |probs| == |states| && n <= |states|
  {
    set i | 0 <= i < n && probs[i] > 0.0 :: Cost(p, states[i])
  }

  /** The best cost of a state that can be measured: the running maximum of
      the costs of the states with positive probability, minus infinity when
      there is none. */
  function BestCost(p: Problem, states: seq<string>, probs: seq<real>, n: nat): ExtReal
    requires WellFormed(p) && States(p, states) && |probs| == |states| && n <= |states|
  {
    if n == 0 then NegInfinity
    else
      var best := BestCost(p, states, probs, n - 1);
      if probs[n - 1] > 0.0 then Max(best, Cost(p, states[n - 1])) else best
  }

  /** The result of the statevector branch of `measurementStatistics`: one
      expectation per experiment, of which only the first is filled in, and
      the best cost (the variances are `None`). */
  datatype Statistics = Statistics(expectations: seq<real>, costBest: ExtReal)

  /** Every entry is a probability, as a squared amplitude of a normalised
      state is. */
  predicate Probabilities(probs: seq<real>)
  {
    forall i :: 0 <= i < |probs| ==> 0.0 <= probs[i] <= 1.0
  }

  /** The statevector branch of `measurementStatistics` as written, for a job
      of n experiments (n >= 1, since `expectations[0]` is written): only the
      first expectation is filled in, and the best cost is
      `max(-inf, np.max(costs @ np.ceil(probs)))`, which on probabilities is
      the sum of the costs of all the states that can be measured. */
  function ExactMeasurementStatistics(p: Problem, states: seq<string>, probs: seq<real>, n: nat): (r: Statistics)
    requires WellFormed(p) && States(p, states) && |probs| == |states| && n >= 1
    ensures |r.expectations| == n && r.expectations[0] == ExactExpectation(p, states, probs)
    ensures forall i :: 1 <= i < n ==> r.expectations[i] == 0.0
    ensures r.costBest.Finite?
    ensures Probabilities(probs) ==> r.costBest == Finite(SupportSum(p, states, probs, |states|))
  {
    var best := BestAsWritten(p, states, probs);
    assert Probabilities(probs) ==> best == SupportSum(p, states, probs, |states|) by {
      if Probabilities(probs) {
        BestAsWrittenIsSupportSum(p, states, probs, |states|);
      }
    }
    Statistics([ExactExpectation(p, states, probs)] + seq(n - 1, _ => 0.0), Max(NegInfinity, best))
  }

  /** The statevector branch of `measurementStatistics` with the best cost
      taken, as in the sampled branch, as the largest cost of a state that can
      be measured. */
  function CorrectedMeasurementStatistics(p: Problem, states: seq<string>, probs: seq<real>, n: nat): (r: Statistics)
    requires WellFormed(p) && States(p, states) && |probs| == |states| && n >= 1
    ensures |r.expectations| == n && r.expectations[0] == ExactExpectation(p, states, probs)
    ensures forall i :: 1 <= i < n ==> r.expectations[i] == 0.0
    ensures IsMaxOf(r.costBest, SupportCosts(p, states, probs, |states|))
    ensures Distribution(probs) ==> r.costBest.Finite? && r.expectations[0] <= r.costBest.value
  {
    var best := BestCost(p, states, probs, |states|);
    BestCostIsMax(p, states, probs, |states|);
    assert Distribution(probs) ==> best.Finite? && ExactExpectation(p, states, probs) <= best.value by {
      if Distribution(probs) {
        ExactExpectationAtMostBest(p, states, probs);
      }
    }
    Statistics([ExactExpectation(p, states, probs)] + seq(n - 1, _ => 0.0), best)
  }

  // ---------------------------------------------------------------------
  // Properties

  /** A product is bounded by the bound of its first factor when the second
      is non-negative. */
  lemma ScaleBound(u: real, hi: real, v: real)
    requires v >= 0.0 && (v > 0.0 ==> u <= hi)
    ensures u * v <= hi * v
  {
    if v > 0.0 {
      assert (hi - u) * v >= 0.0;
    }
  }

  /** Multiplication distributes over the last term of a running sum. */
  lemma ScaleSum(c: real, a: real, b: real)
    ensures c * (a + b) == c * a + c * b
  {
  }

  /** Terms with positive weight below hi give an inner product of at most
      hi times the total weight. */
  lemma {:induction false} InnerAtMost(u: seq<real>, v: seq<real>, n: nat, hi: real)
    requires n <= |u| && n <= |v|
    requires forall i :: 0 <= i < n ==> v[i] >= 0.0 && (v[i] > 0.0 ==> u[i] <= hi)
    ensures Inner(u, v, n) <= hi * Total(v, n)
  {
    if n > 0 {
      InnerAtMost(u, v, n - 1, hi);
      ScaleBound(u[n - 1], hi, v[n - 1]);
      ScaleSum(hi, Total(v, n - 1), v[n - 1]);
    }
  }

  /** Terms with positive weight above lo give an inner product of at least
      lo times the total weight. */
  lemma {:induction false} InnerAtLeast(u: seq<real>, v: seq<real>, n: nat, lo: real)
    requires n <= |u| && n <= |v|
    requires forall i :: 0 <= i < n ==> v[i] >= 0.0 && (v[i] > 0.0 ==> lo <= u[i])
    ensures lo * Total(v, n) <= Inner(u, v, n)
  {
    if n > 0 {
      InnerAtLeast(u, v, n - 1, lo);
      ScaleBound(lo, u[n - 1], v[n - 1]);
      ScaleSum(lo, Total(v, n - 1), v[n - 1]);
    }
  }

  /** Over a distribution, the success probability is a probability. */
  lemma ExactSuccessBounds(p: Problem, states: seq<string>, probs: seq<real>)
    requires WellFormed(p) && States(p, states) && |probs| == |states| && Distribution(probs)
    ensures 0.0 <= ExactSuccessProbability(p, states, probs) <= 1.0
  {
    var c := Indicators(p, states);
    InnerAtMost(c, probs, |states|, 1.0);
    InnerAtLeast(c, probs, |states|, 0.0);
  }

  /** Over a distribution, the expectation lies between any lower and upper
      bound of the costs of the states that can be measured. */
  lemma ExactExpectationBetween(p: Problem, states: seq<string>, probs: seq<real>, lo: real, hi: real)
    requires WellFormed(p) && States(p, states) && |probs| == |states| && Distribution(probs)
    requires forall i :: 0 <= i < |states| && probs[i] > 0.0 ==> lo <= Cost(p, states[i]) <= hi
    ensures lo <= ExactExpectation(p, states, probs) <= hi
  {
    var c := Costs(p, states);
    InnerAtMost(c, probs, |states|, hi);
    InnerAtLeast(c, probs, |states|, lo);
  }

  /** The ceiling of a probability is 1 when it is positive and 0 when it is
      zero. */
  lemma CeilOfProbability(q: real)
    requires 0.0 <= q <= 1.0
    ensures Ceil(q) == if q > 0.0 then 1 else 0
  {
  }

  /** Line 298 as written sums the costs of all the states that can be
      measured, rather than taking their maximum. */
  lemma {:induction false} BestAsWrittenIsSupportSum(p: Problem, states: seq<string>, probs: seq<real>, n: nat)
    requires WellFormed(p) && States(p, states) && |probs| == |states| && n <= |states|
    requires Probabilities(probs)
    ensures Inner(Costs(p, states), CeilAll(probs), n) == SupportSum(p, states, probs, n)
  {
    if n > 0 {
      BestAsWrittenIsSupportSum(p, states, probs, n - 1);
      CeilOfProbability(probs[n - 1]);
    }
  }

  /** BestCost is the largest cost of a state that can be measured. */
  lemma {:induction false} BestCostIsMax(p: Problem, states: seq<string>, probs: seq<real>, n: nat)
    requires WellFormed(p) && States(p, states) && |probs| == |states| && n <= |states|
    ensures IsMaxOf(BestCost(p, states, probs, n), SupportCosts(p, states, probs, n))
  {
    if n > 0 {
      BestCostIsMax(p, states, probs, n - 1);
      var before := SupportCosts(p, states, probs, n - 1);
      if probs[n - 1] > 0.0 {
        MaxStep(BestCost(p, states, probs, n - 1), before, Cost(p, states[n - 1]));
        assert SupportCosts(p, states, probs, n) == before + {Cost(p, states[n - 1])};
      } else {
        assert SupportCosts(p, states, probs, n) == before;
      }
    }
  }

  /** Weights that are all zero add up to zero. */
  lemma {:induction false} TotalOfZeros(v: seq<real>, n: nat)
    requires n <= |v| && forall i :: 0 <= i < n ==> v[i] == 0.0
    ensures Total(v, n) == 0.0
  {
    if n > 0 {
      TotalOfZeros(v, n - 1);
    }
  }

  /** Over a distribution some state can be measured, and the expectation is
      at most the best cost of those states. */
  lemma ExactExpectationAtMostBest(p: Problem, states: seq<string>, probs: seq<real>)
    requires WellFormed(p) && States(p, states) && |probs| == |states| && Distribution(probs)
    ensures BestCost(p, states, probs, |states|).Finite?
    ensures ExactExpectation(p, states, probs) <= BestCost(p, states, probs, |states|).value
  {
    var n := |states|;
    var S := SupportCosts(p, states, probs, n);
    BestCostIsMax(p, states, probs, n);
    if forall i :: 0 <= i < n ==> probs[i] == 0.0 {
      TotalOfZeros(probs, n);
      assert false;
    }
    var j :| 0 <= j < n && probs[j] != 0.0;
    assert Cost(p, states[j]) in S;
    var best := BestCost(p, states, probs, n).value;
    forall i | 0 <= i < n && probs[i] > 0.0 ensures Cost(p, states[i]) <= best {
      assert Cost(p, states[i]) in S;
    }
    InnerAtMost(Costs(p, states), probs, n, best);
  }

  /** Entry i of `vector_cost(state_strings)` is the cost of state i: with
      mu >= 0 it is at most minus the route cost of the state, and with mu > 0
      it reaches that bound exactly when entry i of
      `vector_is_solution(state_strings)` is 1. */
  lemma CostsAndIndicators(p: Problem, states: seq<string>, i: nat)
    requires WellFormed(p) && States(p, states) && i < |states| && p.mu >= 0.0
    ensures Costs(p, states)[i] <= -(Dot(p.CR, Assignment(states[i])) as real)
    ensures p.mu > 0.0 ==>
      (Costs(p, states)[i] == -(Dot(p.CR, Assignment(states[i])) as real) <==> Indicators(p, states)[i] == 1.0)
  {
    CostBoundedByLinearPart(p, states[i]);
  }

  /** For a 0/1 matrix, entry i of `vector_is_solution(state_strings)` is 1
      exactly when state i serves every flight by exactly one route. */
  lemma IndicatorsAreExactCovers(p: Problem, states: seq<string>, i: nat)
    requires WellFormed(p) && IsIncidence(p) && States(p, states) && i < |states|
    ensures Indicators(p, states)[i] == 1.0 <==> forall f :: 0 <= f < |p.FR| ==> CoveredOnce(p.FR[f], Assignment(states[i]))
  {
    IsSolutionIsExactCover(p, states[i]);
  }

  /** One flight covered by one resource of cost 2 with mu = 1: the string "0"
      leaves the flight uncovered (cost -1), "1" covers it (cost -2). With equal
      probabilities, line 298 reports -3, below even the expectation -1.5,
      while the best cost of a measurable state is -1. */
  lemma BestAsWrittenCounterexample()
    ensures var p, states, probs := Problem([[1]], [2], 1.0), ["0", "1"], [0.5, 0.5];
      WellFormed(p) && States(p, states) && Distribution(probs)
      && BestAsWritten(p, states, probs) == -3.0
      && ExactExpectation(p, states, probs) == -1.5
      && BestCost(p, states, probs, 2) == Finite(-1.0)
      && ExactMeasurementStatistics(p, states, probs, 1).costBest == Finite(-3.0)
      && CorrectedMeasurementStatistics(p, states, probs, 1).costBest == Finite(-1.0)
  {
    var p, states, probs := Problem([[1]], [2], 1.0), ["0", "1"], [0.5, 0.5];
    assert Assignment("0") == [0];
    assert Assignment("1") == [1];
    assert Cost(p, "0") == -1.0;
    assert Cost(p, "1") == -2.0;
    assert Costs(p, states) == [-1.0, -2.0];
    assert CeilAll(probs) == [1.0, 1.0];
  }
}
