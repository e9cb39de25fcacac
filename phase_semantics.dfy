/** What the phase separators do to a computational basis state. Rz and Cx
    map a basis state |z> to a phase times a basis state: Rz(theta) on qubit q
    multiplies by exp(-i theta s_q / 2), where s_q = +1 when qubit q is 0 and
    -1 when it is 1, and Cx(c, t) flips qubit t when qubit c is 1. A run of
    such gates is therefore described exactly by the final basis state and the
    accumulated angle A, the phase being exp(-i A / 2). */
module PhaseSemantics {
  import opened CostModel
  import opened Gates

  /** theta times the spin of a qubit in state b: the eigenvalue s of Z,
      +1 on a qubit in state 0 (false) and -1 in state 1 (true). */
  function Signed(theta: real, b: bool): real
  {
    if b then -theta else theta
  }

  /** Rotating by gamma times a field, then taking the spin, is gamma times
      the signed field. */
  lemma {:induction false} SignedAngle(gamma: real, h: real, b: bool)
    ensures Signed(Angle(gamma, h), b) == gamma * Signed(h, b)
  {
    if b {
      assert Angle(gamma, h) == gamma * h;
      assert -(gamma * h) == gamma * (-h);
    }
  }

  lemma {:induction false} Distribute(gamma: real, e: real, h: real)
    ensures gamma * e + gamma * h == gamma * (e + h)
  {
  }

  /** A basis state and the angle accumulated so far. */
  datatype Outcome = Outcome(z: seq<bool>, angle: real)

  /** One gate on a basis state. The semantics covers the gates of the phase
      separators, which are Rz and Cx gates on qubits of the register
      (`Gates.PhaseSeparatorSize`); a barrier does nothing, and the gates it does
      not cover (Init, RxAll, Measure, or a qubit outside the register) are
      left without effect here. */
  function Step(o: Outcome, g: Gate): (o': Outcome)
    ensures |o'.z| == |o.z|
  {
    match g
    case Rz(theta, q) => if q < |o.z| then Outcome(o.z, o.angle + Signed(theta, o.z[q])) else o
    case Cx(c, t) => if c < |o.z| && t < |o.z| then Outcome(o.z[t := o.z[t] != o.z[c]], o.angle) else o
    case _ => o
  }

  /** The gates applied in order. */
  function Run(gs: seq<Gate>, o: Outcome): (o': Outcome)
    ensures |o'.z| == |o.z|
  {
    if gs == [] then o else Step(Run(gs[..|gs| - 1], o), gs[|gs| - 1])
  }

  /** Running two gate lists one after the other is running their concatenation. */
  lemma {:induction false} RunAppend(a: seq<Gate>, b: seq<Gate>, o: Outcome)
    ensures Run(a + b, o) == Run(b, Run(a, o))
    decreases |b|
  {
    if b == [] {
      assert a + b == a;
    } else {
      assert (a + b)[..|a + b| - 1] == a + b[..|b| - 1];
      RunAppend(a, b[..|b| - 1], o);
    }
  }

  lemma {:induction false} RunSingle(g: Gate, o: Outcome)
    ensures Run([g], o) == Step(o, g)
  {
    assert [g][..0] == [];
  }

  lemma {:induction false} RunThree(g1: Gate, g2: Gate, g3: Gate, o: Outcome)
    ensures Run([g1, g2, g3], o) == Step(Step(Step(o, g1), g2), g3)
  {
    var gs := [g1, g2, g3];
    assert gs[..2] == [g1, g2];
    assert gs[..2][..1] == [g1];
    assert gs[..2][..1][..0] == [];
    assert Run([g1], o) == Step(o, g1);
    assert Run([g1, g2], o) == Step(Step(o, g1), g2);
  }

  /** Cx, Rz(theta) on the target, Cx leaves the basis state as it was and
      adds theta times the product of the two spins: the gate exp(-i theta Z Z / 2). */
  lemma {:induction false} RunTriple(theta: real, c: nat, t: nat, o: Outcome)
    requires c < t < |o.z|
    ensures Run([Cx(c, t), Rz(theta, t), Cx(c, t)], o)
      == Outcome(o.z, o.angle + Signed(theta, o.z[c] != o.z[t]))
  {
    RunThree(Cx(c, t), Rz(theta, t), Cx(c, t), o);
    var z1 := o.z[t := o.z[t] != o.z[c]];
    var a := o.angle + Signed(theta, o.z[c] != o.z[t]);
    assert Step(o, Cx(c, t)) == Outcome(z1, o.angle);
    assert Step(Outcome(z1, o.angle), Rz(theta, t)) == Outcome(z1, a);
    FlipTwice(o.z, c, t);
  }

  /** Flipping the target twice with the same control restores the state. */
  lemma {:induction false} FlipTwice(z: seq<bool>, c: nat, t: nat)
    requires c < t < |z|
    ensures var z1 := z[t := z[t] != z[c]]; z1[t := z1[t] != z1[c]] == z
  {
  }

  // ---------------------------------------------------------------------
  // The angle a separator accumulates, per basis state

  /** Angle contributed by the couplings of qubit r with the qubits r+1 .. m-1. */
  function CouplingAngle(J: seq<seq<real>>, gamma: real, z: seq<bool>, r: nat, m: nat): real
    requires IsSquare(J) && r < m <= |J| == |z|
    decreases m
  {
    if m == r + 1 then 0.0
    else CouplingAngle(J, gamma, z, r, m - 1) + Signed(Angle(gamma, J[r][m - 1]), z[r] != z[m - 1])
  }

  /** Angle contributed by the blocks of the qubits 0 .. n-1. */
  function SeparatorAngle(h: seq<real>, J: seq<seq<real>>, gamma: real, z: seq<bool>, n: nat): real
    requires IsSquare(J) && |h| == |J| == |z| && n <= |J|
  {
    if n == 0 then 0.0
    else
      SeparatorAngle(h, J, gamma, z, n - 1) + Signed(Angle(gamma, h[n - 1]), z[n - 1])
      + CouplingAngle(J, gamma, z, n - 1, |J|)
  }

  /** Angle contributed by the cost rotations of the qubits 0 .. n-1. */
  function CostAngle(p: Problem, gamma: real, z: seq<bool>, n: nat): real
    requires n <= Qubits(p) == |z|
  {
    if n == 0 then 0.0 else CostAngle(p, gamma, z, n - 1) + Signed(Angle(gamma, CostField(p, n - 1)), z[n - 1])
  }

  lemma {:induction false} RunCouplings(J: seq<seq<real>>, gamma: real, r: nat, m: nat, o: Outcome)
    requires IsSquare(J) && r < m <= |J| == |o.z|
    ensures Run(CouplingGates(J, gamma, r, m), o) == Outcome(o.z, o.angle + CouplingAngle(J, gamma, o.z, r, m))
    decreases m
  {
    if m > r + 1 {
      var t := m - 1;
      var prefix := CouplingGates(J, gamma, r, t);
      var theta := Angle(gamma, J[r][t]);
      RunAppend(prefix, CouplingTriple(theta, r, t), o);
      RunCouplings(J, gamma, r, t, o);
      RunTriple(theta, r, t, Run(prefix, o));
    }
  }

  /** A separator leaves every basis state in place and adds its angle. */
  lemma {:induction false} RunSeparator(h: seq<real>, J: seq<seq<real>>, gamma: real, n: nat, o: Outcome)
    requires IsSquare(J) && |h| == |J| == |o.z| && n <= |J|
    ensures Run(Separator(h, J, gamma, n), o) == Outcome(o.z, o.angle + SeparatorAngle(h, J, gamma, o.z, n))
  {
    if n > 0 {
      var r := n - 1;
      var prefix := Separator(h, J, gamma, r);
      var rot := Rz(Angle(gamma, h[r]), r);
      var couplings := CouplingGates(J, gamma, r, |J|);
      assert Separator(h, J, gamma, n) == prefix + ([rot] + couplings);
      RunAppend(prefix, [rot] + couplings, o);
      RunSeparator(h, J, gamma, r, o);
      var o1 := Run(prefix, o);
      assert o1 == Outcome(o.z, o.angle + SeparatorAngle(h, J, gamma, o.z, r));
      RunAppend([rot], couplings, o1);
      RunSingle(rot, o1);
      var o2 := Run([rot], o1);
      assert o2 == Outcome(o.z, o1.angle + Signed(Angle(gamma, h[r]), o.z[r]));
      RunCouplings(J, gamma, r, |J|, o2);
    }
  }

  /** `apply_cost(gamma)` leaves every basis state in place and adds its cost angle. */
  lemma {:induction false} RunCostGates(p: Problem, gamma: real, n: nat, o: Outcome)
    requires n <= Qubits(p) == |o.z|
    ensures Run(CostGates(p, gamma, n), o) == Outcome(o.z, o.angle + CostAngle(p, gamma, o.z, n))
  {
    if n > 0 {
      var r := n - 1;
      var rot := Rz(Angle(gamma, CostField(p, r)), r);
      RunCostGates(p, gamma, r, o);
      RunAppend(CostGates(p, gamma, r), [rot], o);
      RunSingle(rot, Run(CostGates(p, gamma, r), o));
    }
  }

  // ---------------------------------------------------------------------
  // The angles are gamma times energies that do not depend on gamma

  /** Field energy sum over r < n of h[r] s_r. */
  function FieldEnergy(h: seq<real>, z: seq<bool>, n: nat): real
    requires n <= |h| == |z|
  {
    if n == 0 then 0.0 else FieldEnergy(h, z, n - 1) + Signed(h[n - 1], z[n - 1])
  }

  /** Coupling energy of qubit r with the qubits r+1 .. m-1: the sum of
      J[r][t] s_r s_t. */
  function CouplingEnergy(J: seq<seq<real>>, z: seq<bool>, r: nat, m: nat): real
    requires IsSquare(J) && r < m <= |J| == |z|
    decreases m
  {
    if m == r + 1 then 0.0
    else CouplingEnergy(J, z, r, m - 1) + Signed(J[r][m - 1], z[r] != z[m - 1])
  }

  /** Coupling energy of the pairs whose smaller qubit is below n. */
  function PairEnergy(J: seq<seq<real>>, z: seq<bool>, n: nat): real
    requires IsSquare(J) && |J| == |z| && n <= |J|
  {
    if n == 0 then 0.0 else PairEnergy(J, z, n - 1) + CouplingEnergy(J, z, n - 1, |J|)
  }

  /** The Ising energy sum of h[r] s_r plus the sum over r < t of J[r][t] s_r s_t
      that a separator with fields h and couplings J evolves. */
  function Energy(h: seq<real>, J: seq<seq<real>>, z: seq<bool>): real
    requires IsSquare(J) && |h| == |J| == |z|
  {
    FieldEnergy(h, z, |J|) + PairEnergy(J, z, |J|)
  }

  /** Field energy of the cost part on the qubits 0 .. n-1. */
  function CostEnergy(p: Problem, z: seq<bool>, n: nat): real
    requires n <= Qubits(p) == |z|
  {
    if n == 0 then 0.0 else CostEnergy(p, z, n - 1) + Signed(CostField(p, n - 1), z[n - 1])
  }

  lemma {:induction false} CouplingAngleScales(J: seq<seq<real>>, gamma: real, z: seq<bool>, r: nat, m: nat)
    requires IsSquare(J) && r < m <= |J| == |z|
    ensures CouplingAngle(J, gamma, z, r, m) == gamma * CouplingEnergy(J, z, r, m)
    decreases m
  {
    if m > r + 1 {
      CouplingAngleScales(J, gamma, z, r, m - 1);
      SignedAngle(gamma, J[r][m - 1], z[r] != z[m - 1]);
      Distribute(gamma, CouplingEnergy(J, z, r, m - 1), Signed(J[r][m - 1], z[r] != z[m - 1]));
    }
  }

  lemma {:induction false} ScaledSum(gamma: real, a: real, f: real, ha: real, h: real, ca: real, c: real, e: real)
    requires a == gamma * (f + e) && ha == gamma * h && ca == gamma * c
    ensures a + ha + ca == gamma * ((f + h) + (e + c))
  {
  }

  lemma {:induction false} SeparatorAngleScales(h: seq<real>, J: seq<seq<real>>, gamma: real, z: seq<bool>, n: nat)
    requires IsSquare(J) && |h| == |J| == |z| && n <= |J|
    ensures SeparatorAngle(h, J, gamma, z, n) == gamma * (FieldEnergy(h, z, n) + PairEnergy(J, z, n))
  {
    if n > 0 {
      var r := n - 1;
      var a := SeparatorAngle(h, J, gamma, z, r);
      var f, e := FieldEnergy(h, z, r), PairEnergy(J, z, r);
      var ha, hr := Signed(Angle(gamma, h[r]), z[r]), Signed(h[r], z[r]);
      var ca, c := CouplingAngle(J, gamma, z, r, |J|), CouplingEnergy(J, z, r, |J|);
      assert a == gamma * (f + e) by {
        SeparatorAngleScales(h, J, gamma, z, r);
      }
      assert ha == gamma * hr by {
        SignedAngle(gamma, h[r], z[r]);
      }
      assert ca == gamma * c by {
        CouplingAngleScales(J, gamma, z, r, |J|);
      }
      ScaledSum(gamma, a, f, ha, hr, ca, c, e);
    }
  }

  lemma {:induction false} CostAngleScales(p: Problem, gamma: real, z: seq<bool>, n: nat)
    requires n <= Qubits(p) == |z|
    ensures CostAngle(p, gamma, z, n) == gamma * CostEnergy(p, z, n)
  {
    if n > 0 {
      CostAngleScales(p, gamma, z, n - 1);
      SignedAngle(gamma, CostField(p, n - 1), z[n - 1]);
      Distribute(gamma, CostEnergy(p, z, n - 1), Signed(CostField(p, n - 1), z[n - 1]));
    }
  }

  /** Over the whole register, a separator with fields h and couplings J
      accumulates gamma times the Ising energy of the basis state, which is
      the phase exp(-i gamma E(z) / 2). */
  lemma {:induction false} SeparatorAngleIsEnergy(h: seq<real>, J: seq<seq<real>>, gamma: real, z: seq<bool>)
    requires IsSquare(J) && |h| == |J| == |z|
    ensures SeparatorAngle(h, J, gamma, z, |J|) == gamma * Energy(h, J, z)
  {
    SeparatorAngleScales(h, J, gamma, z, |J|);
  }

  /** A whole separator leaves every basis state in place and turns its
      phase by gamma times the state's Ising energy. */
  lemma {:induction false} SeparatorPhase(h: seq<real>, J: seq<seq<real>>, gamma: real, o: Outcome)
    requires IsSquare(J) && |h| == |J| == |o.z|
    ensures Run(Separator(h, J, gamma, |J|), o) == Outcome(o.z, o.angle + gamma * Energy(h, J, o.z))
  {
    RunSeparator(h, J, gamma, |J|, o);
    SeparatorAngleIsEnergy(h, J, gamma, o.z);
  }

  /** `apply_hamiltonian(gamma)` turns the phase of every basis state by
      gamma times its energy under the fields and couplings it uses. */
  lemma {:induction false} HamiltonianPhase(p: Problem, gamma: real, o: Outcome)
    requires WellFormed(p) && |o.z| == Qubits(p)
    ensures Run(PhaseGates(p, Combined, gamma, Qubits(p)), o)
      == Outcome(o.z, o.angle + gamma * Energy(Fields(p, Combined), CouplingTable(p), o.z))
  {
    SeparatorPhase(Fields(p, Combined), CouplingTable(p), gamma, o);
  }

  /** Signed rotation angles add up like their fields. */
  lemma {:induction false} SignedAngleSum(gamma: real, h1: real, h2: real, b: bool)
    ensures Signed(Angle(gamma, h1 + h2), b) == Signed(Angle(gamma, h1), b) + Signed(Angle(gamma, h2), b)
  {
    assert Angle(gamma, h1 + h2) == Angle(gamma, h1) + Angle(gamma, h2);
  }

  /** The combined angle is the cost angle plus the exact-cover angle. */
  lemma {:induction false} CombinedAngleSplit(p: Problem, gamma: real, z: seq<bool>, n: nat)
    requires WellFormed(p) && n <= Qubits(p) == |z|
    ensures SeparatorAngle(Fields(p, Combined), CouplingTable(p), gamma, z, n)
      == CostAngle(p, gamma, z, n) + SeparatorAngle(Fields(p, ExactCover), CouplingTable(p), gamma, z, n)
  {
    if n > 0 {
      CombinedAngleSplit(p, gamma, z, n - 1);
      FullFieldIsSum(p, n - 1);
      SignedAngleSum(gamma, CostField(p, n - 1), ExcoField(p, n - 1), z[n - 1]);
    }
  }

  /** `apply_hamiltonian(gamma)` acts on every basis state exactly as
      `apply_cost(gamma)` followed by `apply_exco(gamma)`: one rotation with
      the summed field equals the two rotations. */
  lemma {:induction false} HamiltonianIsCostThenExco(p: Problem, gamma: real, o: Outcome)
    requires WellFormed(p) && Qubits(p) == |o.z|
    ensures Run(CostGates(p, gamma, Qubits(p)) + PhaseGates(p, ExactCover, gamma, Qubits(p)), o)
      == Run(PhaseGates(p, Combined, gamma, Qubits(p)), o)
  {
    var R := Qubits(p);
    var J := CouplingTable(p);
    RunAppend(CostGates(p, gamma, R), PhaseGates(p, ExactCover, gamma, R), o);
    RunCostGates(p, gamma, R, o);
    RunSeparator(Fields(p, ExactCover), J, gamma, R, Run(CostGates(p, gamma, R), o));
    RunSeparator(Fields(p, Combined), J, gamma, R, o);
    CombinedAngleSplit(p, gamma, o.z, R);
  }
}
