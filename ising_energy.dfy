/** The objective in spins, compared with the Hamiltonian the phase
    separators evolve. With spins s_r = 1 - 2 x_r the objective is

      Objective(x) = sum_r h_r s_r - (mu / 2) sum_{r < t} (FR[:,r] @ FR[:,t]) s_r s_t - Offset

    with h_r = CR[r] / 2 + (mu / 2) FR[:,r] @ (rowsum - 2). The separators of
    `apply_exco` and `apply_hamiltonian` use exactly these fields h_r, but the
    couplings `+ FR[:,r] @ FR[:,r_] / 2`: opposite in sign to the fields' and
    without the factor mu. Their energy is therefore not a function of the
    cost (`AsWrittenEnergy`, `CouplingSignCounterexample`); with the couplings
    `- mu FR[:,r] @ FR[:,r_] / 2` it is the cost plus a constant
    (`IntendedEnergy`). */
module IsingEnergy {
  import opened CostModel
  import opened Gates
  import opened PhaseSemantics
  import opened Ising

  /** The exact-cover field weights `FR[:,r] @ (rowsum - 2)` of all qubits. */
  function ExcoWeights(p: Problem): (v: seq<int>)
    requires WellFormed(p)
    ensures |v| == Qubits(p)
  {
    seq(Qubits(p), r requires 0 <= r < Qubits(p) => Dot(Column(p, r), RowSumsLessTwo(p)))
  }

  /** The overlaps `FR[:,r] @ FR[:,t]` of all pairs of qubits. */
  function Gram(p: Problem): (G: seq<seq<int>>)
    requires WellFormed(p)
    ensures |G| == Qubits(p) && IsSquare(G)
  {
    seq(Qubits(p), r requires 0 <= r < Qubits(p) =>
      seq(Qubits(p), t requires 0 <= t < Qubits(p) => Dot(Column(p, r), Column(p, t))))
  }

  lemma {:induction false} ExcoWeightsAreSums(p: Problem)
    requires WellFormed(p)
    ensures ExcoWeights(p) == ExcoUpTo(p, |p.FR|)
  {
    forall r | 0 <= r < Qubits(p)
      ensures ExcoWeights(p)[r] == ExcoUpTo(p, |p.FR|)[r]
    {
      DotIsDotUpTo(Column(p, r), RowSumsLessTwo(p));
    }
  }

  lemma {:induction false} GramRow(p: Problem, r: nat)
    requires WellFormed(p) && r < Qubits(p)
    ensures Gram(p)[r] == GramUpTo(p, |p.FR|)[r]
  {
    forall t | 0 <= t < Qubits(p)
      ensures Gram(p)[r][t] == GramUpTo(p, |p.FR|)[r][t]
    {
      DotIsDotUpTo(Column(p, r), Column(p, t));
    }
  }

  lemma {:induction false} GramIsSum(p: Problem)
    requires WellFormed(p)
    ensures Gram(p) == GramUpTo(p, |p.FR|)
  {
    forall r | 0 <= r < Qubits(p)
      ensures Gram(p)[r] == GramUpTo(p, |p.FR|)[r]
    {
      GramRow(p, r);
    }
  }

  // The integer sums as real numbers. Products with mu are taken of these
  // (non-recursive) values, so that every statement below names each product
  // in the same way.

  /** The spin sum of the weights v over all qubits. */
  function SpinSum(v: seq<int>, z: seq<bool>): real
    requires |v| == |z|
  {
    Lin(v, z, |z|) as real
  }

  /** The pair sum of the table G over all qubits. */
  function PairSum(G: seq<seq<int>>, z: seq<bool>): real
    requires IsSquare(G) && |G| == |z|
  {
    PairInt(G, z, |z|) as real
  }

  /** The constant part of the penalty in spins. */
  function SquareSum(p: Problem): real
    requires WellFormed(p)
  {
    Squares(p, |p.FR|) as real
  }

  /** The exact-cover penalty of an assignment. */
  function PenaltyValue(p: Problem, x: seq<int>): real
    requires WellFormed(p) && |x| == Qubits(p)
  {
    Penalty(p, x, |p.FR|) as real
  }

  /** The constant that separates the objective from its spin form. */
  function Offset(p: Problem): real
    requires WellFormed(p)
  {
    (Sum(p.CR) as real) / 2.0 + p.mu * SquareSum(p) / 4.0
  }

  /** Four times the penalty in spins, with the weights summed the other way. */
  lemma {:induction false} PenaltyTerm(p: Problem, z: seq<bool>)
    requires WellFormed(p) && |z| == Qubits(p)
    ensures 4 * Penalty(p, Bits(z), |p.FR|)
      == Squares(p, |p.FR|) - 2 * Lin(ExcoWeights(p), z, |z|) + 2 * PairInt(Gram(p), z, |z|)
  {
    PenaltyInSpins(p, z, |p.FR|);
    ExcoWeightsAreSums(p);
    GramIsSum(p);
  }

  lemma {:induction false} PenaltyTermReal(p: Problem, z: seq<bool>)
    requires WellFormed(p) && |z| == Qubits(p)
    ensures PenaltyValue(p, Bits(z)) == SquareSum(p) / 4.0 - 0.5 * SpinSum(ExcoWeights(p), z) + 0.5 * PairSum(Gram(p), z)
  {
    PenaltyTerm(p, z);
  }

  lemma {:induction false} CostTermReal(p: Problem, z: seq<bool>)
    requires |z| == Qubits(p)
    ensures (Dot(p.CR, Bits(z)) as real) == (Sum(p.CR) as real) / 2.0 - 0.5 * SpinSum(p.CR, z)
  {
    BitsAndSpins(p.CR, z);
  }

  lemma {:induction false} ScaleQuarter(mu: real, pen: real, k: real, le: real, pr: real)
    requires pen == k / 4.0 - 0.5 * le + 0.5 * pr
    ensures mu * pen == mu * k / 4.0 - (0.5 * mu) * le + (0.5 * mu) * pr
  {
  }

  /** mu times the penalty in spins. */
  lemma {:induction false} ScaledPenalty(p: Problem, z: seq<bool>)
    requires WellFormed(p) && |z| == Qubits(p)
    ensures p.mu * PenaltyValue(p, Bits(z))
      == p.mu * SquareSum(p) / 4.0 - (0.5 * p.mu) * SpinSum(ExcoWeights(p), z) + (0.5 * p.mu) * PairSum(Gram(p), z)
  {
    PenaltyTermReal(p, z);
    ScaleQuarter(p.mu, PenaltyValue(p, Bits(z)), SquareSum(p), SpinSum(ExcoWeights(p), z), PairSum(Gram(p), z));
  }

  /** The objective is minus the cost part minus mu times the penalty. */
  lemma {:induction false} ObjectiveParts(p: Problem, x: seq<int>)
    requires WellFormed(p) && |x| == Qubits(p)
    ensures Objective(p, x) == -((Dot(p.CR, x) as real) + p.mu * PenaltyValue(p, x))
  {
  }

  /** The objective of a basis state in spins: half the cost spin sum, plus
      mu/2 times the exact-cover field spin sum, minus mu/2 times the overlap
      pair sum, minus the offset. */
  lemma {:induction false} ObjectiveInSpins(p: Problem, z: seq<bool>)
    requires WellFormed(p) && |z| == Qubits(p)
    ensures Objective(p, Bits(z))
      == 0.5 * SpinSum(p.CR, z) + (0.5 * p.mu) * SpinSum(ExcoWeights(p), z) - (0.5 * p.mu) * PairSum(Gram(p), z) - Offset(p)
  {
    ObjectiveParts(p, Bits(z));
    CostTermReal(p, z);
    ScaledPenalty(p, z);
  }

  // ---------------------------------------------------------------------
  // The energy of the fields and couplings of a separator

  lemma {:induction false} SignedScaled(c: real, g: int, b: bool)
    ensures Signed(c * (g as real), b) == c * (SignedInt(g, b) as real)
  {
  }

  lemma {:induction false} ScaleStep(c: real, a: int, b: int)
    ensures c * (a as real) + c * (b as real) == c * ((a + b) as real)
  {
  }

  /** A table of couplings c * G has c times the pair sum of G, qubit by qubit. */
  lemma {:induction false} CouplingEnergyScaled(J: seq<seq<real>>, G: seq<seq<int>>, c: real, z: seq<bool>, r: nat, m: nat)
    requires IsSquare(J) && IsSquare(G) && |J| == |G| == |z| && r < m <= |J|
    requires forall t :: r < t < m ==> J[r][t] == c * (G[r][t] as real)
    ensures CouplingEnergy(J, z, r, m) == c * (CouplingInt(G, z, r, m) as real)
    decreases m
  {
    if m > r + 1 {
      var t := m - 1;
      CouplingEnergyScaled(J, G, c, z, r, t);
      SignedScaled(c, G[r][t], z[r] != z[t]);
      ScaleStep(c, CouplingInt(G, z, r, t), SignedInt(G[r][t], z[r] != z[t]));
    }
  }

  /** A table of couplings c * G has c times the pair sum of G. */
  lemma {:induction false} PairEnergyScaled(J: seq<seq<real>>, G: seq<seq<int>>, c: real, z: seq<bool>, n: nat)
    requires IsSquare(J) && IsSquare(G) && |J| == |G| == |z| && n <= |J|
    requires forall r, t :: 0 <= r < t < |J| ==> J[r][t] == c * (G[r][t] as real)
    ensures PairEnergy(J, z, n) == c * (PairInt(G, z, n) as real)
  {
    if n > 0 {
      PairEnergyScaled(J, G, c, z, n - 1);
      CouplingEnergyScaled(J, G, c, z, n - 1, |J|);
      ScaleStep(c, PairInt(G, z, n - 1), CouplingInt(G, z, n - 1, |J|));
    }
  }

  /** A list of fields c * v has c times the spin sum of v. */
  lemma {:induction false} FieldEnergyScaled(h: seq<real>, v: seq<int>, c: real, z: seq<bool>, n: nat)
    requires |v| == |h| == |z| && n <= |h|
    requires forall r :: 0 <= r < n ==> h[r] == c * (v[r] as real)
    ensures FieldEnergy(h, z, n) == c * (Lin(v, z, n) as real)
  {
    if n > 0 {
      FieldEnergyScaled(h, v, c, z, n - 1);
      SignedScaled(c, v[n - 1], z[n - 1]);
      ScaleStep(c, Lin(v, z, n - 1), SignedInt(v[n - 1], z[n - 1]));
    }
  }

  /** The same over all qubits, as a spin sum. */
  lemma {:induction false} FieldEnergyIsSpinSum(h: seq<real>, v: seq<int>, c: real, z: seq<bool>)
    requires |v| == |h| == |z|
    requires forall r :: 0 <= r < |z| ==> h[r] == c * (v[r] as real)
    ensures FieldEnergy(h, z, |z|) == c * SpinSum(v, z)
  {
    FieldEnergyScaled(h, v, c, z, |z|);
  }

  lemma {:induction false} SignedSum(a: real, b: real, bit: bool)
    ensures Signed(a + b, bit) == Signed(a, bit) + Signed(b, bit)
  {
  }

  /** The fields of `apply_hamiltonian` are those of `apply_cost` plus those
      of `apply_exco`, and so is their energy. */
  lemma {:induction false} CombinedFieldSplit(p: Problem, z: seq<bool>, n: nat)
    requires WellFormed(p) && |z| == Qubits(p) && n <= |z|
    ensures FieldEnergy(Fields(p, Combined), z, n) == CostEnergy(p, z, n) + FieldEnergy(Fields(p, ExactCover), z, n)
  {
    if n > 0 {
      var r := n - 1;
      CombinedFieldSplit(p, z, r);
      FullFieldIsSum(p, r);
      SignedSum(CostField(p, r), ExcoField(p, r), z[r]);
    }
  }

  /** The cost fields give half the spin sum of CR. */
  lemma {:induction false} CostEnergyInSpins(p: Problem, z: seq<bool>, n: nat)
    requires |z| == Qubits(p) && n <= |z|
    ensures CostEnergy(p, z, n) == 0.5 * (Lin(p.CR, z, n) as real)
  {
    if n > 0 {
      var r := n - 1;
      CostEnergyInSpins(p, z, r);
      SignedScaled(0.5, p.CR[r], z[r]);
      ScaleStep(0.5, Lin(p.CR, z, r), SignedInt(p.CR[r], z[r]));
    }
  }

  /** The exact-cover fields give mu/2 times the spin sum of the weights. */
  lemma {:induction false} ExcoFieldEnergy(p: Problem, z: seq<bool>)
    requires WellFormed(p) && |z| == Qubits(p)
    ensures FieldEnergy(Fields(p, ExactCover), z, |z|) == (0.5 * p.mu) * SpinSum(ExcoWeights(p), z)
  {
    FieldEnergyIsSpinSum(Fields(p, ExactCover), ExcoWeights(p), 0.5 * p.mu, z);
  }

  /** The fields of `apply_hamiltonian` are exactly the linear part of the
      objective in spins. */
  lemma {:induction false} CombinedFieldEnergy(p: Problem, z: seq<bool>)
    requires WellFormed(p) && |z| == Qubits(p)
    ensures FieldEnergy(Fields(p, Combined), z, |z|)
      == 0.5 * SpinSum(p.CR, z) + (0.5 * p.mu) * SpinSum(ExcoWeights(p), z)
  {
    CombinedFieldSplit(p, z, |z|);
    CostEnergyInSpins(p, z, |z|);
    ExcoFieldEnergy(p, z);
  }

  // ---------------------------------------------------------------------
  // The separator as written

  /** The couplings of `apply_hamiltonian` contribute half the overlap pair sum. */
  lemma {:induction false} AsWrittenPairEnergy(p: Problem, z: seq<bool>)
    requires WellFormed(p) && |z| == Qubits(p)
    ensures PairEnergy(CouplingTable(p), z, |z|) == 0.5 * PairSum(Gram(p), z)
  {
    PairEnergyScaled(CouplingTable(p), Gram(p), 0.5, z, |z|);
  }

  /** The energy that `apply_hamiltonian` evolves, in spins. */
  lemma {:induction false} AsWrittenSpinForm(p: Problem, z: seq<bool>)
    requires WellFormed(p) && |z| == Qubits(p)
    ensures Energy(Fields(p, Combined), CouplingTable(p), z)
      == 0.5 * SpinSum(p.CR, z) + (0.5 * p.mu) * SpinSum(ExcoWeights(p), z)
       + 0.5 * PairSum(Gram(p), z)
  {
    CombinedFieldEnergy(p, z);
    AsWrittenPairEnergy(p, z);
  }

  /** The energy that `apply_hamiltonian` evolves is the objective plus the
      offset plus (1 + mu)/2 times the overlap pair sum: the couplings enter
      with the wrong sign and without mu. */
  lemma {:induction false} AsWrittenEnergy(p: Problem, z: seq<bool>)
    requires WellFormed(p) && |z| == Qubits(p)
    ensures Energy(Fields(p, Combined), CouplingTable(p), z)
      == Objective(p, Bits(z)) + Offset(p) + 0.5 * PairSum(Gram(p), z) + (0.5 * p.mu) * PairSum(Gram(p), z)
  {
    AsWrittenSpinForm(p, z);
    ObjectiveInSpins(p, z);
  }

  /** One flight served by all three resources, no costs and mu = 1. */
  function SharedTask(): (p: Problem)
    ensures WellFormed(p) && Qubits(p) == 3
  {
    Problem([[1, 1, 1]], [0, 0, 0], 1.0)
  }

  /** The states 000 and 011 of SharedTask both have objective -1: neither
      covers the flight exactly once, and neither costs anything. */
  lemma SharedTaskObjectives()
    ensures Objective(SharedTask(), Bits([false, false, false])) == -1.0
    ensures Objective(SharedTask(), Bits([false, true, true])) == -1.0
  {
    var p := SharedTask();
    var x0, x1 := Bits([false, false, false]), Bits([false, true, true]);
    assert x0 == [0, 0, 0] && x1 == [0, 1, 1];
    assert Dot([1], [1]) == 1 && Dot([1, 1], [1, 1]) == 2 && Dot([1, 1, 1], [0, 1, 1]) == 2;
    assert Dot([0], [0]) == 0 && Dot([0, 0], [0, 0]) == 0 && Dot([0, 0, 0], [0, 0, 0]) == 0;
    assert Coverage(p, x0, 0) == 0 && Coverage(p, x1, 0) == 2;
    assert Penalty(p, x0, 1) == 1 && Penalty(p, x1, 1) == 1;
    assert Dot(p.CR, x0) == 0 && Dot(p.CR, x1) == 0;
  }

  /** Every pair of resources of SharedTask overlaps on the flight. */
  lemma SharedTaskGram()
    ensures Gram(SharedTask()) == [[1, 1, 1], [1, 1, 1], [1, 1, 1]]
  {
    var p := SharedTask();
    forall r, t | 0 <= r < 3 && 0 <= t < 3
      ensures Gram(p)[r][t] == 1
    {
      assert Column(p, r) == [1] && Column(p, t) == [1];
      assert Dot([1], [1]) == 1;
    }
    forall r | 0 <= r < 3
      ensures Gram(p)[r] == [1, 1, 1]
    {
    }
  }

  /** The pair sum of SharedTask is 3 on 000 and -1 on 011. */
  lemma SharedTaskPairSums()
    ensures PairSum(Gram(SharedTask()), [false, false, false]) == 3.0
    ensures PairSum(Gram(SharedTask()), [false, true, true]) == -1.0
  {
    SharedTaskGram();
    var G := [[1, 1, 1], [1, 1, 1], [1, 1, 1]];
    var z0, z1 := [false, false, false], [false, true, true];
    assert CouplingInt(G, z0, 0, 3) == 2 && CouplingInt(G, z0, 1, 3) == 1 && CouplingInt(G, z0, 2, 3) == 0;
    assert CouplingInt(G, z1, 0, 3) == -2 && CouplingInt(G, z1, 1, 3) == 1 && CouplingInt(G, z1, 2, 3) == 0;
    assert PairInt(G, z0, 3) == 3 && PairInt(G, z1, 3) == -1;
  }

  /** On SharedTask the states 000 and 011 have the same objective, but
      `apply_hamiltonian` gives them energies four apart: its phase separator
      tells apart states the objective does not. */
  lemma CouplingSignCounterexample()
    ensures var p, z0, z1 := SharedTask(), [false, false, false], [false, true, true];
      Objective(p, Bits(z0)) == Objective(p, Bits(z1))
      && Energy(Fields(p, Combined), CouplingTable(p), z0)
         == Energy(Fields(p, Combined), CouplingTable(p), z1) + 4.0
  {
    var p, z0, z1 := SharedTask(), [false, false, false], [false, true, true];
    SharedTaskObjectives();
    SharedTaskPairSums();
    AsWrittenEnergy(p, z0);
    AsWrittenEnergy(p, z1);
  }

  // ---------------------------------------------------------------------
  // The separator with the couplings the objective calls for

  /** `-mu/2 * FR[:,r] @ FR[:,t]`: the coupling of qubits r and t in the
      objective. */
  function IntendedCoupling(p: Problem, r: nat, t: nat): real
    requires WellFormed(p) && r < Qubits(p) && t < Qubits(p)
  {
    -0.5 * p.mu * (Dot(Column(p, r), Column(p, t)) as real)
  }

  function IntendedCouplingTable(p: Problem): (J: seq<seq<real>>)
    requires WellFormed(p)
    ensures |J| == Qubits(p) && IsSquare(J)
  {
    seq(Qubits(p), r requires 0 <= r < Qubits(p) =>
      seq(Qubits(p), t requires 0 <= t < Qubits(p) => IntendedCoupling(p, r, t)))
  }

  /** The intended couplings contribute -mu/2 times the overlap pair sum. */
  lemma {:induction false} IntendedPairEnergy(p: Problem, z: seq<bool>)
    requires WellFormed(p) && |z| == Qubits(p)
    ensures PairEnergy(IntendedCouplingTable(p), z, |z|) == (-0.5 * p.mu) * PairSum(Gram(p), z)
  {
    PairEnergyScaled(IntendedCouplingTable(p), Gram(p), -0.5 * p.mu, z, |z|);
  }

  /** The energy of the intended separator, in spins. */
  lemma {:induction false} IntendedSpinForm(p: Problem, z: seq<bool>)
    requires WellFormed(p) && |z| == Qubits(p)
    ensures Energy(Fields(p, Combined), IntendedCouplingTable(p), z)
      == 0.5 * SpinSum(p.CR, z) + (0.5 * p.mu) * SpinSum(ExcoWeights(p), z)
       + (-0.5 * p.mu) * PairSum(Gram(p), z)
  {
    CombinedFieldEnergy(p, z);
    IntendedPairEnergy(p, z);
  }

  /** With the fields of `apply_hamiltonian` and the intended couplings, the
      energy of every basis state is its objective plus a constant. */
  lemma {:induction false} IntendedEnergy(p: Problem, z: seq<bool>)
    requires WellFormed(p) && |z| == Qubits(p)
    ensures Energy(Fields(p, Combined), IntendedCouplingTable(p), z) == Objective(p, Bits(z)) + Offset(p)
  {
    IntendedSpinForm(p, z);
    ObjectiveInSpins(p, z);
  }

  /** The basis state a measured bitstring names: qubit r is character R-1-r. */
  function BasisState(s: string): (z: seq<bool>)
    requires IsBinary(s)
    ensures |z| == |s|
  {
    seq(|s|, r requires 0 <= r < |s| => s[|s| - 1 - r] == '1')
  }

  lemma {:induction false} BitsOfBasisState(s: string)
    requires IsBinary(s)
    ensures Bits(BasisState(s)) == Assignment(s)
  {
    var z := BasisState(s);
    forall r | 0 <= r < |s|
      ensures Bits(z)[r] == Assignment(s)[r]
    {
      assert z[r] == (s[|s| - 1 - r] == '1');
    }
  }

  /** The intended energy of the basis state of bitstring s is `cost(s)`
      plus the offset. */
  lemma {:induction false} IntendedEnergyOfBitString(p: Problem, s: string)
    requires WellFormed(p) && IsBinary(s) && |s| == Qubits(p)
    ensures Energy(Fields(p, Combined), IntendedCouplingTable(p), BasisState(s)) == Cost(p, s) + Offset(p)
  {
    IntendedEnergy(p, BasisState(s));
    BitsOfBasisState(s);
  }
}
