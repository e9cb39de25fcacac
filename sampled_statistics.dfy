/** The statistics of a sampled run (the non-statevector branches of
    `successProbability` and `measurementStatistics`): each experiment
    reports its number of shots and a count per measured key; every key is
    decoded to an R-character bitstring and the counts are accumulated as
    fractions of the shots. The loops over `counts.keys()` visit the keys in
    an order the model leaves open. */
module SampledStatistics {
  import opened CostModel
  import opened Sums
  import opened Keys

  /** One experiment of a job result: `result.shots` and `result.data.counts`,
      with the keys already read as numbers (`int(hexkey, 0)`). */
  datatype Experiment = Experiment(shots: nat, counts: map<nat, nat>)

  /** What the loops need of an experiment: every key names an outcome of the
      R-qubit register (R >= 1), so that it decodes to R characters, and the
      shots are positive when some key was counted, since each count is
      divided by them. */
  predicate Readable(p: Problem, e: Experiment)
  {
    Qubits(p) >= 1
    && (forall k :: k in e.counts ==> k < Pow2(Qubits(p)))
    && (e.counts.Keys != {} ==> e.shots > 0)
  }

  predicate AllReadable(p: Problem, results: seq<Experiment>)
  {
    forall i :: 0 <= i < |results| ==> Readable(p, results[i])
  }

  /** `"{0:b}".format(k).zfill(R)` with R = `np.size(FR[0,:])` = |CR|: the
      bitstring key k decodes to. */
  function KeyOutcome(p: Problem, k: nat): (s: string)
    requires Qubits(p) >= 1 && k < Pow2(Qubits(p))
    ensures IsBinary(s) && |s| == Qubits(p)
  {
    KeyStringRoundTrip(k, Qubits(p));
    KeyString(k, Qubits(p))
  }

  // ---------------------------------------------------------------------
  // Specification: sums over the counted keys

  /** `count / n_shots` for every counted key. */
  function Fractions(e: Experiment): map<nat, real>
    requires e.counts.Keys != {} ==> e.shots > 0
  {
    map k | k in e.counts :: (e.counts[k] as real) / (e.shots as real)
  }

  /** The fractions of the keys that decode to an exact cover, 0 for the others. */
  function SolutionFractions(p: Problem, e: Experiment): map<nat, real>
    requires WellFormed(p) && Readable(p, e)
  {
    map k | k in e.counts :: if IsSolution(p, KeyOutcome(p, k)) then (e.counts[k] as real) / (e.shots as real) else 0.0
  }

  /** `cost * count / n_shots`: a cost weighted by its share of the shots. */
  function Weighted(cost: real, count: nat, shots: nat): real
    requires shots > 0
  {
    cost * (count as real) / (shots as real)
  }

  /** The weighted cost of every counted key. */
  function CostFractions(p: Problem, e: Experiment): map<nat, real>
    requires WellFormed(p) && Readable(p, e)
  {
    map k | k in e.counts :: Weighted(Cost(p, KeyOutcome(p, k)), e.counts[k], e.shots)
  }

  /** The share of the shots of one experiment that measured a solution. */
  ghost function SuccessShare(p: Problem, e: Experiment): real
    requires WellFormed(p) && Readable(p, e)
  {
    SumOver(SolutionFractions(p, e), e.counts.Keys)
  }

  /** The success shares of all experiments, added up. */
  ghost function SuccessTotal(p: Problem, results: seq<Experiment>): real
    requires WellFormed(p) && AllReadable(p, results)
  {
    if results == [] then 0.0
    else SuccessTotal(p, results[..|results| - 1]) + SuccessShare(p, results[|results| - 1])
  }

  /** The sampled expectation of the cost in one experiment. */
  ghost function Expectation(p: Problem, e: Experiment): real
    requires WellFormed(p) && Readable(p, e)
  {
    SumOver(CostFractions(p, e), e.counts.Keys)
  }

  /** The expectation of every experiment, in order. */
  ghost function Expectations(p: Problem, results: seq<Experiment>): (es: seq<real>)
    requires WellFormed(p) && AllReadable(p, results)
    ensures |es| == |results|
  {
    if results == [] then []
    else Expectations(p, results[..|results| - 1]) + [Expectation(p, results[|results| - 1])]
  }

  /** The costs of the keys `ks` of experiment e. */
  function KeyCosts(p: Problem, e: Experiment, ks: set<nat>): set<real>
    requires WellFormed(p) && Readable(p, e) && ks <= e.counts.Keys
  {
    set k | k in ks :: Cost(p, KeyOutcome(p, k))
  }

  /** The costs of every key counted in any of the experiments. */
  function CountedCosts(p: Problem, results: seq<Experiment>): set<real>
    requires WellFormed(p) && AllReadable(p, results)
  {
    if results == [] then {}
    else
      var last := results[|results| - 1];
      CountedCosts(p, results[..|results| - 1]) + KeyCosts(p, last, last.counts.Keys)
  }

  // ---------------------------------------------------------------------
  // Accumulating over the keys

  /** Adding the term of one more key to a sum over keys. */
  lemma SumOverAdd(m: map<nat, real>, done: set<nat>, k: nat)
    requires done <= m.Keys && k in m.Keys && k !in done
    ensures SumOver(m, done + {k}) == SumOver(m, done) + m[k]
  {
    SumOverPick(m, done + {k}, k);
    assert done + {k} - {k} == done;
  }

  /** Taking `max` with the cost of one more key k gives the largest cost
      of the keys seen so far and k. */
  lemma BestStep(p: Problem, e: Experiment, done: set<nat>, k: nat, before: set<real>, best: ExtReal, cost: real)
    requires WellFormed(p) && Readable(p, e) && done <= e.counts.Keys && k in e.counts
    requires IsMaxOf(best, before + KeyCosts(p, e, done))
    requires cost == Cost(p, KeyOutcome(p, k))
    ensures IsMaxOf(Max(best, cost), before + KeyCosts(p, e, done + {k}))
  {
    MaxStep(best, before + KeyCosts(p, e, done), cost);
    KeyCostsAdd(p, e, done, k, cost);
    assert before + KeyCosts(p, e, done) + {cost} == before + KeyCosts(p, e, done + {k});
  }

  /** The key costs of one more key. */
  lemma KeyCostsAdd(p: Problem, e: Experiment, done: set<nat>, k: nat, cost: real)
    requires WellFormed(p) && Readable(p, e) && done <= e.counts.Keys && k in e.counts
    requires cost == Cost(p, KeyOutcome(p, k))
    ensures KeyCosts(p, e, done + {k}) == KeyCosts(p, e, done) + {cost}
  {
  }

  /** One more experiment adds its success share. */
  lemma SuccessTotalStep(p: Problem, results: seq<Experiment>, i: nat)
    requires WellFormed(p) && AllReadable(p, results) && i < |results|
    ensures SuccessTotal(p, results[..i + 1]) == SuccessTotal(p, results[..i]) + SuccessShare(p, results[i])
  {
    assert results[..i + 1][..i] == results[..i];
  }

  /** Entry j of the expectations is the expectation of experiment j. */
  lemma {:induction false} ExpectationsAt(p: Problem, results: seq<Experiment>, j: nat)
    requires WellFormed(p) && AllReadable(p, results) && j < |results|
    ensures Expectations(p, results)[j] == Expectation(p, results[j])
  {
    var front := results[..|results| - 1];
    if j < |front| {
      ExpectationsAt(p, front, j);
      assert front[j] == results[j];
    }
  }

  /** One more experiment appends its expectation. */
  lemma ExpectationsStep(p: Problem, results: seq<Experiment>, i: nat, es: seq<real>, E: real)
    requires WellFormed(p) && AllReadable(p, results) && i < |results|
    requires es == Expectations(p, results[..i]) && E == Expectation(p, results[i])
    ensures es + [E] == Expectations(p, results[..i + 1])
  {
    assert results[..i + 1][..i] == results[..i];
  }

  /** One more experiment adds the costs of its keys. */
  lemma CountedCostsStep(p: Problem, results: seq<Experiment>, i: nat)
    requires WellFormed(p) && AllReadable(p, results) && i < |results|
    ensures CountedCosts(p, results[..i + 1])
      == CountedCosts(p, results[..i]) + KeyCosts(p, results[i], results[i].counts.Keys)
  {
    assert results[..i + 1][..i] == results[..i];
  }

  /** Adding `cost * count / n_shots` for one more key k, with the cost of
      k's bitstring, extends the expectation sum to k. */
  lemma ExpectationStep(p: Problem, e: Experiment, done: set<nat>, k: nat, E: real, cost: real, count: nat, shots: nat)
    requires WellFormed(p) && Readable(p, e) && done <= e.counts.Keys && k in e.counts && k !in done
    requires E == SumOver(CostFractions(p, e), done)
    requires cost == Cost(p, KeyOutcome(p, k)) && count == e.counts[k] && shots == e.shots
    ensures shots > 0 && E + Weighted(cost, count, shots) == SumOver(CostFractions(p, e), done + {k})
  {
    SumOverAdd(CostFractions(p, e), done, k);
  }

  /** The state of the key loop of `measurementStatistics` after the keys
      `done`: E is the expectation sum over them and best the largest cost
      of `before` and of their costs. */
  ghost predicate Accumulated(p: Problem, e: Experiment, before: set<real>, done: set<nat>, E: real, best: ExtReal)
    requires WellFormed(p) && Readable(p, e)
  {
    done <= e.counts.Keys
    && E == SumOver(CostFractions(p, e), done)
    && IsMaxOf(best, before + KeyCosts(p, e, done))
  }

  /** One more key k extends the loop state to k. */
  lemma KeyStep(p: Problem, e: Experiment, before: set<real>, done: set<nat>, k: nat, E: real, best: ExtReal, cost: real, count: nat, shots: nat)
    requires WellFormed(p) && Readable(p, e) && Accumulated(p, e, before, done, E, best)
    requires k in e.counts && k !in done
    requires cost == Cost(p, KeyOutcome(p, k)) && count == e.counts[k] && shots == e.shots
    ensures shots > 0 && Accumulated(p, e, before, done + {k}, E + Weighted(cost, count, shots), Max(best, cost))
  {
    BestStep(p, e, done, k, before, best, cost);
    ExpectationStep(p, e, done, k, E, cost, count, shots);
  }

  /** Adding `count / n_shots` for one more key k when its bitstring is a
      solution extends the success sum to k. */
  lemma SuccessStep(p: Problem, e: Experiment, done: set<nat>, k: nat, base: real, s: real, solution: bool, count: nat, shots: nat)
    requires WellFormed(p) && Readable(p, e) && done <= e.counts.Keys && k in e.counts && k !in done
    requires s == base + SumOver(SolutionFractions(p, e), done)
    requires solution == IsSolution(p, KeyOutcome(p, k)) && count == e.counts[k] && shots == e.shots
    ensures shots > 0
    ensures (if solution then s + (count as real) / (shots as real) else s)
      == base + SumOver(SolutionFractions(p, e), done + {k})
  {
    SumOverAdd(SolutionFractions(p, e), done, k);
  }

  // ---------------------------------------------------------------------
  // The sampled branches

  /** The sampled branch of `successProbability`: for every experiment and
      every counted key whose bitstring is an exact cover, add
      `count / n_shots`. */
  method SuccessProbability(p: Problem, results: seq<Experiment>) returns (sProb: real)
    requires WellFormed(p) && AllReadable(p, results)
    ensures sProb == SuccessTotal(p, results)
  {
    sProb := 0.0;
    for i := 0 to |results|
      invariant sProb == SuccessTotal(p, results[..i])
    {
      var e := results[i];
      var nShots := e.shots;
      var keys := e.counts.Keys;
      ghost var done: set<nat> := {};
      ghost var base := sProb;
      while keys != {}
        invariant keys !! done && keys + done == e.counts.Keys
        invariant sProb == base + SumOver(SolutionFractions(p, e), done)
        decreases keys
      {
        var k :| k in keys;
        var count := e.counts[k];
        var solution := IsSolution(p, KeyOutcome(p, k));
        SuccessStep(p, e, done, k, base, sProb, solution, count, nShots);
        if solution {
          sProb := sProb + (count as real) / (nShots as real);
        }
        keys, done := keys - {k}, done + {k};
      }
      SuccessTotalStep(p, results, i);
    }
    assert results[..|results|] == results;
  }

  /** The body of the loop of `measurementStatistics` over one experiment:
      the expectation of the cost over its counted keys, and the running
      maximum `cost_best` extended by the cost of each of them. */
  method ExperimentStatistics(p: Problem, e: Experiment, ghost before: set<real>, best: ExtReal)
    returns (E: real, costBest: ExtReal)
    requires WellFormed(p) && Readable(p, e)
    requires IsMaxOf(best, before)
    ensures E == Expectation(p, e)
    ensures IsMaxOf(costBest, before + KeyCosts(p, e, e.counts.Keys))
  {
    var nShots := e.shots;
    E, costBest := 0.0, best;
    var keys := e.counts.Keys;
    ghost var done: set<nat> := {};
    assert before + KeyCosts(p, e, done) == before;
    while keys != {}
      invariant keys <= e.counts.Keys && done == e.counts.Keys - keys
      invariant Accumulated(p, e, before, done, E, costBest)
      decreases keys
    {
      var k :| k in keys;
      var count := e.counts[k];
      var cost := Cost(p, KeyOutcome(p, k));
      KeyStep(p, e, before, done, k, E, costBest, cost, count, nShots);
      costBest := Max(costBest, cost);
      E := E + Weighted(cost, count, nShots);
      keys, done := keys - {k}, done + {k};
    }
    assert done == e.counts.Keys;
  }

  /** The sampled branch of `measurementStatistics`: per experiment the
      expectation `sum cost * count / n_shots` is written into
      `expectations[i]`, and `cost_best` is the running maximum of the cost
      of every counted key, starting from minus infinity. The variances are
      `None`. */
  method MeasurementStatistics(p: Problem, results: seq<Experiment>) returns (expectations: array<real>, costBest: ExtReal)
    requires WellFormed(p) && |p.FR| >= 1 && AllReadable(p, results)
    ensures fresh(expectations) && expectations.Length == |results|
    ensures forall i :: 0 <= i < |results| ==> expectations[i] == Expectation(p, results[i])
    ensures IsMaxOf(costBest, CountedCosts(p, results))
  {
    costBest := NegInfinity;
    expectations := new real[|results|](_ => 0.0);
    for i := 0 to |results|
      invariant expectations[..i] == Expectations(p, results[..i])
      invariant IsMaxOf(costBest, CountedCosts(p, results[..i]))
    {
      var E;
      E, costBest := ExperimentStatistics(p, results[i], CountedCosts(p, results[..i]), costBest);
      ExpectationsStep(p, results, i, expectations[..i], E);
      expectations[i] := E;
      assert expectations[..i + 1] == expectations[..i] + [E];
      CountedCostsStep(p, results, i);
    }
    assert results[..|results|] == results;
    assert expectations[..] == expectations[..|results|];
    forall j | 0 <= j < |results| ensures expectations[j] == Expectation(p, results[j]) {
      ExpectationsAt(p, results, j);
    }
  }

  // ---------------------------------------------------------------------
  // Properties of the sampled statistics

  /** Decoding a key and reading the bitstring back as a number gives the
      key again. */
  lemma KeyOutcomeValue(p: Problem, k: nat)
    requires Qubits(p) >= 1 && k < Pow2(Qubits(p))
    ensures Value(KeyOutcome(p, k)) == k
  {
    KeyStringRoundTrip(k, Qubits(p));
  }

  /** The counts of an experiment as reals. */
  function CountValues(e: Experiment): map<nat, real>
  {
    map k | k in e.counts :: e.counts[k] as real
  }

  /** A complete experiment: it ran at least one shot and its counts add up
      to its shots, as the counts of a backend run do. */
  ghost predicate Complete(e: Experiment)
  {
    e.shots > 0 && SumOver(CountValues(e), e.counts.Keys) == e.shots as real
  }

  /** `count / n_shots` is the count scaled by `1 / n_shots`. */
  lemma DivideAsScale(c: real, s: real)
    requires s > 0.0
    ensures c / s == (1.0 / s) * c
  {
  }

  /** The fractions of a complete experiment add up to one. */
  lemma FractionsSumToOne(e: Experiment)
    requires Complete(e)
    ensures SumOver(Fractions(e), e.counts.Keys) == 1.0
  {
    var s := e.shots as real;
    forall k | k in e.counts.Keys ensures Fractions(e)[k] == (1.0 / s) * CountValues(e)[k] {
      DivideAsScale(e.counts[k] as real, s);
    }
    SumOverScale(Fractions(e), CountValues(e), 1.0 / s, e.counts.Keys);
  }

  /** The success share of a complete experiment is a probability. */
  lemma SuccessShareBounds(p: Problem, e: Experiment)
    requires WellFormed(p) && Readable(p, e) && Complete(e)
    ensures 0.0 <= SuccessShare(p, e) <= 1.0
  {
    var ks := e.counts.Keys;
    forall k | k in ks ensures 0.0 <= SolutionFractions(p, e)[k] <= Fractions(e)[k] {
      assert (e.counts[k] as real) / (e.shots as real) >= 0.0;
    }
    SumOverNonneg(SolutionFractions(p, e), ks);
    SumOverMono(SolutionFractions(p, e), Fractions(e), ks);
    FractionsSumToOne(e);
  }

  /** When every counted key decodes to an exact cover the success share is
      one ... */
  lemma SuccessShareAllSolutions(p: Problem, e: Experiment)
    requires WellFormed(p) && Readable(p, e) && Complete(e)
    requires forall k :: k in e.counts ==> IsSolution(p, KeyOutcome(p, k))
    ensures SuccessShare(p, e) == 1.0
  {
    forall k | k in e.counts.Keys ensures SolutionFractions(p, e)[k] == Fractions(e)[k] { }
    assert SolutionFractions(p, e) == Fractions(e);
    FractionsSumToOne(e);
  }

  /** ... and when none does it is zero. */
  lemma SuccessShareNoSolutions(p: Problem, e: Experiment)
    requires WellFormed(p) && Readable(p, e)
    requires forall k :: k in e.counts ==> !IsSolution(p, KeyOutcome(p, k))
    ensures SuccessShare(p, e) == 0.0
  {
    forall k | k in e.counts.Keys ensures SolutionFractions(p, e)[k] == 0.0 { }
    SumOverZero(SolutionFractions(p, e), e.counts.Keys);
  }

  /** `successProbability` adds the shares of the experiments without
      averaging them: over complete experiments it lies between zero and
      their number. */
  lemma {:induction false} SuccessTotalBounds(p: Problem, results: seq<Experiment>)
    requires WellFormed(p) && AllReadable(p, results)
    requires forall i :: 0 <= i < |results| ==> Complete(results[i])
    ensures 0.0 <= SuccessTotal(p, results) <= |results| as real
  {
    if results != [] {
      var n := |results| - 1;
      SuccessTotalBounds(p, results[..n]);
      SuccessShareBounds(p, results[n]);
    }
  }

  /** `cost * count / n_shots` is the cost times the fraction `count / n_shots`. */
  lemma WeightedAsFraction(cost: real, count: nat, shots: nat)
    requires shots > 0
    ensures Weighted(cost, count, shots) == cost * ((count as real) / (shots as real))
  {
  }

  /** A larger cost weighs more. */
  lemma WeightedMono(c1: real, c2: real, count: nat, shots: nat)
    requires shots > 0 && c1 <= c2
    ensures Weighted(c1, count, shots) <= Weighted(c2, count, shots)
  {
    var f := (count as real) / (shots as real);
    WeightedAsFraction(c1, count, shots);
    WeightedAsFraction(c2, count, shots);
    assert f >= 0.0;
    assert (c2 - c1) * f >= 0.0;
  }

  /** The weighted sum of a constant cost over a complete experiment is that
      cost. */
  lemma ConstantExpectation(e: Experiment, b: real)
    requires Complete(e)
    ensures SumOver(map k | k in e.counts :: Weighted(b, e.counts[k], e.shots), e.counts.Keys) == b
  {
    var m := map k | k in e.counts :: Weighted(b, e.counts[k], e.shots);
    forall k | k in e.counts.Keys ensures m[k] == b * Fractions(e)[k] {
      WeightedAsFraction(b, e.counts[k], e.shots);
    }
    SumOverScale(m, Fractions(e), b, e.counts.Keys);
    FractionsSumToOne(e);
  }

  /** The sampled expectation of a complete experiment is at most the
      largest cost of its counted keys ... */
  lemma ExpectationAtMost(p: Problem, e: Experiment, hi: real)
    requires WellFormed(p) && Readable(p, e) && Complete(e)
    requires forall k :: k in e.counts ==> Cost(p, KeyOutcome(p, k)) <= hi
    ensures Expectation(p, e) <= hi
  {
    var high := map k | k in e.counts :: Weighted(hi, e.counts[k], e.shots);
    forall k | k in e.counts.Keys ensures CostFractions(p, e)[k] <= high[k] {
      WeightedMono(Cost(p, KeyOutcome(p, k)), hi, e.counts[k], e.shots);
    }
    SumOverMono(CostFractions(p, e), high, e.counts.Keys);
    ConstantExpectation(e, hi);
  }

  /** ... and at least the smallest. */
  lemma ExpectationAtLeast(p: Problem, e: Experiment, lo: real)
    requires WellFormed(p) && Readable(p, e) && Complete(e)
    requires forall k :: k in e.counts ==> lo <= Cost(p, KeyOutcome(p, k))
    ensures lo <= Expectation(p, e)
  {
    var low := map k | k in e.counts :: Weighted(lo, e.counts[k], e.shots);
    forall k | k in e.counts.Keys ensures low[k] <= CostFractions(p, e)[k] {
      WeightedMono(lo, Cost(p, KeyOutcome(p, k)), e.counts[k], e.shots);
    }
    SumOverMono(low, CostFractions(p, e), e.counts.Keys);
    ConstantExpectation(e, lo);
  }

  /** The costs of experiment i are among the costs of all experiments. */
  lemma {:induction false} CountedCostsContains(p: Problem, results: seq<Experiment>, i: nat)
    requires WellFormed(p) && AllReadable(p, results) && i < |results|
    ensures KeyCosts(p, results[i], results[i].counts.Keys) <= CountedCosts(p, results)
  {
    var n := |results| - 1;
    if i < n {
      CountedCostsContains(p, results[..n], i);
      assert results[..n][i] == results[i];
    }
  }

  /** The expectation of every complete experiment is at most the best cost
      `measurementStatistics` reports. */
  lemma ExpectationAtMostBest(p: Problem, results: seq<Experiment>, i: nat, best: ExtReal)
    requires WellFormed(p) && AllReadable(p, results) && i < |results| && Complete(results[i])
    requires IsMaxOf(best, CountedCosts(p, results))
    ensures best.Finite? && Expectation(p, results[i]) <= best.value
  {
    var e := results[i];
    CountedCostsContains(p, results, i);
    assert e.counts.Keys != {};
    var k :| k in e.counts;
    assert Cost(p, KeyOutcome(p, k)) in KeyCosts(p, e, e.counts.Keys);
    forall j | j in e.counts ensures Cost(p, KeyOutcome(p, j)) <= best.value {
      assert Cost(p, KeyOutcome(p, j)) in KeyCosts(p, e, e.counts.Keys);
    }
    ExpectationAtMost(p, e, best.value);
  }
}
