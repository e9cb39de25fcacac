/** The gate sequences the circuit builders append, as functions of the
    problem data: the Hamiltonian coefficients hr and Jrr_, the phase
    separators of `apply_cost`, `apply_exco` and `apply_hamiltonian`, the mixer
    of `mix_states`, and the layered circuits of both `createCircuit`s. */
module Gates {
  import opened CostModel

  /** One instruction of the circuit `qc`. `RxAll` is an Rx rotation on the
      whole register, `Init` the initial state prepared by the base class. */
  datatype Gate = Init | Rz(angle: real, q: nat) | Cx(c: nat, t: nat) | RxAll(angle: real) | Barrier | Measure

  /** The angle `gamma * h` of the rotation that evolves a field or coupling
      h for time gamma. */
  function Angle(gamma: real, h: real): real
  {
    gamma * h
  }

  lemma AppendAssoc(a: seq<Gate>, b: seq<Gate>, c: seq<Gate>)
    ensures (a + b) + c == a + (b + c)
  {
  }

  /** `FR[:,r]`: which tasks resource r serves. */
  function Column(p: Problem, r: nat): (col: seq<int>)
    requires WellFormed(p) && r < Qubits(p)
    ensures |col| == |p.FR|
    ensures forall f :: 0 <= f < |p.FR| ==> col[f] == p.FR[f][r]
  {
    seq(|p.FR|, f requires 0 <= f < |p.FR| => p.FR[f][r])
  }

  function Sum(row: seq<int>): int
  {
    if row == [] then 0 else row[0] + Sum(row[1..])
  }

  /** `np.sum(FR, axis = 1) - 2`: per task, how many resources serve it, less two. */
  function RowSumsLessTwo(p: Problem): (v: seq<int>)
    ensures |v| == |p.FR|
    ensures forall f :: 0 <= f < |p.FR| ==> v[f] == Sum(p.FR[f]) - 2
  {
    seq(|p.FR|, f requires 0 <= f < |p.FR| => Sum(p.FR[f]) - 2)
  }

  /** Local field of the cost part on qubit r (`apply_cost`): `0.5 * CR[r]`. */
  function CostField(p: Problem, r: nat): real
    requires r < Qubits(p)
  {
    0.5 * (p.CR[r] as real)
  }

  /** Local field of the exact-cover part on qubit r (`apply_exco`):
      `0.5 * mu * FR[:,r] @ (rowsum - 2)`, where rowsum holds the row sums
      of FR. */
  function ExcoField(p: Problem, r: nat): real
    requires WellFormed(p) && r < Qubits(p)
  {
    0.5 * p.mu * (Dot(Column(p, r), RowSumsLessTwo(p)) as real)
  }

  /** Local field of the whole Hamiltonian on qubit r (`apply_hamiltonian`),
      written as the source writes it. */
  function FullField(p: Problem, r: nat): real
    requires WellFormed(p) && r < Qubits(p)
  {
    0.5 * (p.CR[r] as real) + 0.5 * p.mu * (Dot(Column(p, r), RowSumsLessTwo(p)) as real)
  }

  /** The combined field is the sum of the cost field and the exact-cover
      field, so one rotation can replace the two. */
  lemma FullFieldIsSum(p: Problem, r: nat)
    requires WellFormed(p) && r < Qubits(p)
    ensures FullField(p, r) == CostField(p, r) + ExcoField(p, r)
  {
  }

  /** The coupling `Jrr_ = 0.5 * FR[:,r] @ FR[:,r_]` of qubits r and r2. */
  function Coupling(p: Problem, r: nat, r2: nat): real
    requires WellFormed(p) && r < Qubits(p) && r2 < Qubits(p)
  {
    0.5 * (Dot(Column(p, r), Column(p, r2)) as real)
  }

  /** The coupling does not depend on the order of the pair. */
  lemma CouplingSymmetric(p: Problem, r: nat, r2: nat)
    requires WellFormed(p) && r < Qubits(p) && r2 < Qubits(p)
    ensures Coupling(p, r, r2) == Coupling(p, r2, r)
  {
    DotSymmetric(Column(p, r), Column(p, r2));
  }

  /** Which single-qubit field a phase separator uses. */
  datatype Part = ExactCover | Combined

  function Field(p: Problem, part: Part, r: nat): real
    requires WellFormed(p) && r < Qubits(p)
  {
    match part
    case ExactCover => ExcoField(p, r)
    case Combined => FullField(p, r)
  }

  /** The first n gates of `apply_cost(gamma)`: one Rz per qubit. */
  function CostGates(p: Problem, gamma: real, n: nat): seq<Gate>
    requires n <= Qubits(p)
  {
    if n == 0 then [] else CostGates(p, gamma, n - 1) + [Rz(Angle(gamma, CostField(p, n - 1)), n - 1)]
  }

  /** The fields of a part, one per qubit. */
  function Fields(p: Problem, part: Part): (h: seq<real>)
    requires WellFormed(p)
    ensures |h| == Qubits(p)
    ensures forall r :: 0 <= r < Qubits(p) ==> h[r] == Field(p, part, r)
  {
    seq(Qubits(p), r requires 0 <= r < Qubits(p) => Field(p, part, r))
  }

  /** An R x R table of couplings, indexed by control and target qubit. */
  predicate IsSquare<T>(J: seq<seq<T>>)
  {
    forall r :: 0 <= r < |J| ==> |J[r]| == |J|
  }

  /** The couplings `Jrr_` of all pairs of qubits. */
  function CouplingTable(p: Problem): (J: seq<seq<real>>)
    requires WellFormed(p)
    ensures |J| == Qubits(p) && IsSquare(J)
    ensures forall r, t :: 0 <= r < Qubits(p) && 0 <= t < Qubits(p) ==> J[r][t] == Coupling(p, r, t)
  {
    seq(Qubits(p), r requires 0 <= r < Qubits(p) =>
      seq(Qubits(p), t requires 0 <= t < Qubits(p) => Coupling(p, r, t)))
  }

  /** The entangle-rotate-disentangle triple that couples qubits r and t. */
  function CouplingTriple(theta: real, r: nat, t: nat): seq<Gate>
  {
    [Cx(r, t), Rz(theta, t), Cx(r, t)]
  }

  /** The coupling triples of qubit r with the qubits r+1 .. m-1, for the
      coupling table J. */
  function CouplingGates(J: seq<seq<real>>, gamma: real, r: nat, m: nat): seq<Gate>
    requires IsSquare(J) && r < m <= |J|
    decreases m
  {
    if m == r + 1 then [] else CouplingGates(J, gamma, r, m - 1) + CouplingTriple(Angle(gamma, J[r][m - 1]), r, m - 1)
  }

  /** The gates the outer loop emits for qubit r: its field rotation, then its
      couplings with every later qubit. */
  function Block(h: seq<real>, J: seq<seq<real>>, gamma: real, r: nat): seq<Gate>
    requires IsSquare(J) && |h| == |J| && r < |J|
  {
    [Rz(Angle(gamma, h[r]), r)] + CouplingGates(J, gamma, r, |J|)
  }

  /** The blocks of the qubits 0 .. n-1 of a phase separator with fields h
      and couplings J. */
  function Separator(h: seq<real>, J: seq<seq<real>>, gamma: real, n: nat): seq<Gate>
    requires IsSquare(J) && |h| == |J| && n <= |J|
  {
    if n == 0 then [] else Separator(h, J, gamma, n - 1) + Block(h, J, gamma, n - 1)
  }

  lemma SeparatorStep(h: seq<real>, J: seq<seq<real>>, gamma: real, r: nat)
    requires IsSquare(J) && |h| == |J| && r < |J|
    ensures Separator(h, J, gamma, r + 1) == Separator(h, J, gamma, r) + Block(h, J, gamma, r)
  {
  }

  /** The first n blocks of `apply_exco(gamma)` (part ExactCover) or
      `apply_hamiltonian(gamma)` (part Combined). */
  function PhaseGates(p: Problem, part: Part, gamma: real, n: nat): seq<Gate>
    requires WellFormed(p) && n <= Qubits(p)
  {
    Separator(Fields(p, part), CouplingTable(p), gamma, n)
  }

  /** Appending the block of qubit r, built from its field value, extends the
      first r blocks of a phase separator to r + 1. */
  lemma PhaseGatesStep(p: Problem, part: Part, gamma: real, r: nat, hr: real, start: seq<Gate>, before: seq<Gate>, after: seq<Gate>)
    requires WellFormed(p) && r < Qubits(p) && hr == Field(p, part, r)
    requires before == start + PhaseGates(p, part, gamma, r)
    requires after == before + [Rz(Angle(gamma, hr), r)] + CouplingGates(CouplingTable(p), gamma, r, Qubits(p))
    ensures after == start + PhaseGates(p, part, gamma, r + 1)
  {
    var h, J := Fields(p, part), CouplingTable(p);
    SeparatorStep(h, J, gamma, r);
    assert [Rz(Angle(gamma, hr), r)] + CouplingGates(J, gamma, r, Qubits(p)) == Block(h, J, gamma, r);
    AppendAssoc(before, [Rz(Angle(gamma, hr), r)], CouplingGates(J, gamma, r, Qubits(p)));
    AppendAssoc(start, Separator(h, J, gamma, r), Block(h, J, gamma, r));
  }

  /** `mix_states(beta)`: one Rx(-2 beta) on the whole register. */
  function Mixer(beta: real): Gate
  {
    RxAll(-2.0 * beta)
  }

  function Barriers(useBarrier: bool): seq<Gate>
  {
    if useBarrier then [Barrier] else []
  }

  /** The final measurement, skipped on a statevector backend. */
  function Measurement(statevector: bool): seq<Gate>
  {
    if statevector then [] else [Measure]
  }

  /** One layer of the standard builder: the Hamiltonian, then the mixer. */
  function StandardLayer(p: Problem, gamma: real, beta: real, useBarrier: bool): seq<Gate>
    requires WellFormed(p)
  {
    PhaseGates(p, Combined, gamma, Qubits(p)) + Barriers(useBarrier) + [Mixer(beta)] + Barriers(useBarrier)
  }

  /** Layers 0 .. n-1 of the standard builder; layer d reads `params[2d]`
      (gamma) and `params[2d + 1]` (beta). */
  function StandardLayers(p: Problem, params: seq<real>, n: nat, useBarrier: bool): seq<Gate>
    requires WellFormed(p) && 2 * n <= |params|
  {
    if n == 0 then []
    else
      StandardLayers(p, params, n - 1, useBarrier)
      + StandardLayer(p, params[2 * (n - 1)], params[2 * (n - 1) + 1], useBarrier)
  }

  /** One layer of the interlaced builder: cost part, mixer, exact-cover part, mixer. */
  function InterlacedLayer(p: Problem, gamma: real, beta: real, delta: real, useBarrier: bool): seq<Gate>
    requires WellFormed(p)
  {
    CostGates(p, delta, Qubits(p)) + Barriers(useBarrier) + [Mixer(beta)] + Barriers(useBarrier)
      + PhaseGates(p, ExactCover, gamma, Qubits(p)) + [Mixer(beta)] + Barriers(useBarrier)
  }

  /** Layers 0 .. n-1 of the interlaced builder; layer d reads `params[3d]`
      (gamma), `params[3d + 1]` (beta) and `params[3d + 2]` (delta). */
  function InterlacedLayers(p: Problem, params: seq<real>, n: nat, useBarrier: bool): seq<Gate>
    requires WellFormed(p) && 3 * n <= |params|
  {
    if n == 0 then []
    else
      InterlacedLayers(p, params, n - 1, useBarrier)
      + InterlacedLayer(p, params[3 * (n - 1)], params[3 * (n - 1) + 1], params[3 * (n - 1) + 2], useBarrier)
  }

  lemma StandardLayersStep(p: Problem, params: seq<real>, n: nat, useBarrier: bool)
    requires WellFormed(p) && 2 * (n + 1) <= |params|
    ensures StandardLayers(p, params, n + 1, useBarrier)
      == StandardLayers(p, params, n, useBarrier) + StandardLayer(p, params[2 * n], params[2 * n + 1], useBarrier)
  {
  }

  lemma InterlacedLayersStep(p: Problem, params: seq<real>, n: nat, useBarrier: bool)
    requires WellFormed(p) && 3 * (n + 1) <= |params|
    ensures InterlacedLayers(p, params, n + 1, useBarrier)
      == InterlacedLayers(p, params, n, useBarrier)
        + InterlacedLayer(p, params[3 * n], params[3 * n + 1], params[3 * n + 2], useBarrier)
  {
  }

  /** The circuit after n + 1 layers is the circuit after n layers followed
      by layer n. */
  lemma StandardPrefixStep(p: Problem, params: seq<real>, n: nat, useBarrier: bool)
    requires WellFormed(p) && 2 * (n + 1) <= |params|
    ensures [Init] + StandardLayers(p, params, n + 1, useBarrier)
      == ([Init] + StandardLayers(p, params, n, useBarrier)) + StandardLayer(p, params[2 * n], params[2 * n + 1], useBarrier)
  {
    StandardLayersStep(p, params, n, useBarrier);
    AppendAssoc([Init], StandardLayers(p, params, n, useBarrier), StandardLayer(p, params[2 * n], params[2 * n + 1], useBarrier));
  }

  lemma InterlacedPrefixStep(p: Problem, params: seq<real>, n: nat, useBarrier: bool)
    requires WellFormed(p) && 3 * (n + 1) <= |params|
    ensures [Init] + InterlacedLayers(p, params, n + 1, useBarrier)
      == ([Init] + InterlacedLayers(p, params, n, useBarrier))
        + InterlacedLayer(p, params[3 * n], params[3 * n + 1], params[3 * n + 2], useBarrier)
  {
    InterlacedLayersStep(p, params, n, useBarrier);
    AppendAssoc([Init], InterlacedLayers(p, params, n, useBarrier),
      InterlacedLayer(p, params[3 * n], params[3 * n + 1], params[3 * n + 2], useBarrier));
  }

  /** The whole circuit of the standard `createCircuit`. */
  function StandardCircuit(p: Problem, params: seq<real>, depth: nat, useBarrier: bool, statevector: bool): seq<Gate>
    requires WellFormed(p) && 2 * depth <= |params|
  {
    [Init] + StandardLayers(p, params, depth, useBarrier) + Measurement(statevector)
  }

  /** The whole circuit of the interlaced `createCircuit`. */
  function InterlacedCircuit(p: Problem, params: seq<real>, depth: nat, useBarrier: bool, statevector: bool): seq<Gate>
    requires WellFormed(p) && 3 * depth <= |params|
  {
    [Init] + InterlacedLayers(p, params, depth, useBarrier) + Measurement(statevector)
  }

  // ---------------------------------------------------------------------
  // Shape of the phase separators

  /** A gate a phase separator may hold on an R-qubit register: an Rz on a
      qubit of the register, or a Cx whose control is below its target. */
  predicate InPhaseSeparator(g: Gate, R: nat)
  {
    match g
    case Rz(_, q) => q < R
    case Cx(c, t) => c < t < R
    case _ => false
  }

  /** How often the gate Cx(c, t) occurs in a gate list. */
  function CxCount(gs: seq<Gate>, c: nat, t: nat): nat
  {
    if gs == [] then 0
    else CxCount(gs[..|gs| - 1], c, t) + (if gs[|gs| - 1] == Cx(c, t) then 1 else 0)
  }

  lemma {:induction false} CxCountAppend(a: seq<Gate>, b: seq<Gate>, c: nat, t: nat)
    ensures CxCount(a + b, c, t) == CxCount(a, c, t) + CxCount(b, c, t)
    decreases |b|
  {
    if b != [] {
      assert (a + b)[..|a + b| - 1] == a + b[..|b| - 1];
      CxCountAppend(a, b[..|b| - 1], c, t);
    } else {
      assert a + b == a;
    }
  }

  lemma CxCountTriple(theta: real, r: nat, u: nat, c: nat, t: nat)
    ensures CxCount(CouplingTriple(theta, r, u), c, t) == if c == r && t == u then 2 else 0
  {
    var s := CouplingTriple(theta, r, u);
    assert s[0] == s[2] == Cx(r, u) && s[1].Rz?;
    assert s[..2] == [s[0], s[1]];
    assert s[..2][..1] == [s[0]];
    assert s[..2][..1][..0] == [];
    var hit := if c == r && t == u then 1 else 0;
    assert CxCount(s[..2][..1], c, t) == hit;
    assert CxCount(s[..2], c, t) == hit;
    assert CxCount(s, c, t) == 2 * hit;
  }

  lemma {:induction false} CouplingsShape(J: seq<seq<real>>, gamma: real, r: nat, m: nat)
    requires IsSquare(J) && r < m <= |J|
    ensures |CouplingGates(J, gamma, r, m)| == 3 * (m - r - 1)
    ensures forall g :: g in CouplingGates(J, gamma, r, m) ==> InPhaseSeparator(g, |J|)
    decreases m
  {
    if m > r + 1 {
      CouplingsShape(J, gamma, r, m - 1);
    }
  }

  lemma {:induction false} CouplingsPairs(J: seq<seq<real>>, gamma: real, r: nat, m: nat, c: nat, t: nat)
    requires IsSquare(J) && r < m <= |J|
    ensures CxCount(CouplingGates(J, gamma, r, m), c, t) == (if c == r && r < t < m then 2 else 0)
    decreases m
  {
    if m > r + 1 {
      CouplingsPairs(J, gamma, r, m - 1, c, t);
      var theta := Angle(gamma, J[r][m - 1]);
      CxCountAppend(CouplingGates(J, gamma, r, m - 1), CouplingTriple(theta, r, m - 1), c, t);
      CxCountTriple(theta, r, m - 1, c, t);
    }
  }

  /** A separator emits n + 3 n (2R - n - 1) / 2 gates for the first n
      qubits, and only Rz gates and Cx gates whose control is below the target. */
  lemma {:induction false} SeparatorShape(h: seq<real>, J: seq<seq<real>>, gamma: real, n: nat)
    requires IsSquare(J) && |h| == |J| && n <= |J|
    ensures 2 * |Separator(h, J, gamma, n)| == 2 * n + 3 * n * (2 * |J| - n - 1)
    ensures forall g :: g in Separator(h, J, gamma, n) ==> InPhaseSeparator(g, |J|)
  {
    if n > 0 {
      var R := |J|;
      SeparatorShape(h, J, gamma, n - 1);
      CouplingsShape(J, gamma, n - 1, R);
      var block := Block(h, J, gamma, n - 1);
      assert |block| == 1 + 3 * (R - n);
      LengthStep(n, R);
    }
  }

  lemma LengthStep(n: int, R: int)
    ensures 3 * n * (2 * R - n - 1) == 3 * (n - 1) * (2 * R - n) + 6 * (R - n)
  {
  }

  /** The block of qubit r couples r with every later qubit, once each. */
  lemma BlockPairs(h: seq<real>, J: seq<seq<real>>, gamma: real, r: nat, c: nat, t: nat)
    requires IsSquare(J) && |h| == |J| && r < |J|
    ensures CxCount(Block(h, J, gamma, r), c, t) == (if c == r && r < t < |J| then 2 else 0)
  {
    var rz := [Rz(Angle(gamma, h[r]), r)];
    assert CxCount(rz, c, t) == 0 by {
      assert rz[..0] == [];
    }
    CxCountAppend(rz, CouplingGates(J, gamma, r, |J|), c, t);
    CouplingsPairs(J, gamma, r, |J|, c, t);
  }

  /** Among the first n qubits as controls, every pair c < t is coupled once:
      its Cx gate occurs exactly twice, and no other Cx occurs. */
  lemma {:induction false} SeparatorPairs(h: seq<real>, J: seq<seq<real>>, gamma: real, n: nat, c: nat, t: nat)
    requires IsSquare(J) && |h| == |J| && n <= |J|
    ensures CxCount(Separator(h, J, gamma, n), c, t) == (if c < n && c < t < |J| then 2 else 0)
  {
    if n > 0 {
      SeparatorPairs(h, J, gamma, n - 1, c, t);
      CxCountAppend(Separator(h, J, gamma, n - 1), Block(h, J, gamma, n - 1), c, t);
      BlockPairs(h, J, gamma, n - 1, c, t);
    }
  }

  /** The phase separator of `apply_exco` or `apply_hamiltonian` has
      R + 3 R (R - 1) / 2 gates, all Rz or Cx with control below target, and
      every pair c < t of qubits is coupled exactly once. */
  lemma PhaseSeparatorSize(p: Problem, part: Part, gamma: real)
    requires WellFormed(p)
    ensures 2 * |PhaseGates(p, part, gamma, Qubits(p))| == 2 * Qubits(p) + 3 * Qubits(p) * (Qubits(p) - 1)
    ensures forall g :: g in PhaseGates(p, part, gamma, Qubits(p)) ==> InPhaseSeparator(g, Qubits(p))
    ensures forall c: nat, t: nat :: c < t < Qubits(p) ==> CxCount(PhaseGates(p, part, gamma, Qubits(p)), c, t) == 2
  {
    var h, J := Fields(p, part), CouplingTable(p);
    SeparatorShape(h, J, gamma, Qubits(p));
    forall c: nat, t: nat | c < t < Qubits(p) ensures CxCount(PhaseGates(p, part, gamma, Qubits(p)), c, t) == 2 {
      SeparatorPairs(h, J, gamma, Qubits(p), c, t);
    }
  }
}
