/** The circuit-building side of QAOATailAssignment and
    TailAssignmentInterlaced: an object holding the problem data and the
    circuit `qc` under construction, whose methods append gates to `qc`. */
module Circuit {
  import opened CostModel
  import opened Gates

  class TailAssignment {
    /** FR, CR and mu, fixed at construction. */
    const prob: Problem
    /** `options['usebarrier']`. */
    const useBarrier: bool
    /** Whether the backend is a statevector simulator (its name has a
        `statevector` component); such circuits are not measured. */
    const statevector: bool
    /** Number of layers `self.depth`. */
    var depth: nat
    /** The circuit under construction, `self.qc`. */
    var qc: seq<Gate>

    constructor (p: Problem, useBarrier: bool, statevector: bool, depth: nat)
      requires WellFormed(p)
      ensures prob == p && this.useBarrier == useBarrier && this.statevector == statevector
      ensures this.depth == depth && qc == []
    {
      prob := p;
      this.useBarrier := useBarrier;
      this.statevector := statevector;
      this.depth := depth;
      qc := [];
    }

    /** `initial_state(R)` of the base class: start a fresh circuit in the
        initial state. */
    method InitialState()
      modifies this`qc
      ensures qc == [Init]
    {
      qc := [Init];
    }

    /** `if self.options['usebarrier']: self.qc.barrier()`. */
    method MaybeBarrier()
      modifies this`qc
      ensures qc == old(qc) + Barriers(useBarrier)
    {
      if useBarrier {
        qc := qc + [Barrier];
      }
    }

    /** `mix_states(beta)`: one Rx(-2 beta) on every qubit at once. */
    method MixStates(beta: real)
      modifies this`qc
      ensures qc == old(qc) + [Mixer(beta)]
    {
      qc := qc + [RxAll(-2.0 * beta)];
    }

    /** `apply_cost(gamma)`: Rz(gamma * CR[r] / 2) on each qubit r in turn. */
    method ApplyCost(gamma: real)
      requires WellFormed(prob)
      modifies this`qc
      ensures qc == old(qc) + CostGates(prob, gamma, Qubits(prob))
    {
      for r := 0 to Qubits(prob)
        invariant qc == old(qc) + CostGates(prob, gamma, r)
      {
        var hr := CostField(prob, r);
        qc := qc + [Rz(Angle(gamma, hr), r)];
      }
    }

    /** The inner loop shared by `apply_exco` and `apply_hamiltonian`: couple
        qubit r with every later qubit by Cx, Rz(gamma * Jrr_), Cx. */
    method ApplyCouplings(gamma: real, r: nat)
      requires WellFormed(prob) && r < Qubits(prob)
      modifies this`qc
      ensures qc == old(qc) + CouplingGates(CouplingTable(prob), gamma, r, Qubits(prob))
    {
      ghost var J := CouplingTable(prob);
      for r2 := r + 1 to Qubits(prob)
        invariant qc == old(qc) + CouplingGates(J, gamma, r, r2)
      {
        var jrr := 0.5 * (Dot(Column(prob, r), Column(prob, r2)) as real);
        ghost var before := qc;
        qc := qc + [Cx(r, r2)];
        qc := qc + [Rz(Angle(gamma, jrr), r2)];
        qc := qc + [Cx(r, r2)];
        ghost var triple := CouplingTriple(Angle(gamma, jrr), r, r2);
        assert qc == before + triple;
        assert jrr == J[r][r2];
        assert CouplingGates(J, gamma, r, r2 + 1) == CouplingGates(J, gamma, r, r2) + triple;
        AppendAssoc(old(qc), CouplingGates(J, gamma, r, r2), triple);
      }
    }

    /** `apply_exco(gamma)`: for each qubit r, its exact-cover field rotation
        followed by its couplings with the later qubits. */
    method ApplyExco(gamma: real)
      requires WellFormed(prob)
      modifies this`qc
      ensures qc == old(qc) + PhaseGates(prob, ExactCover, gamma, Qubits(prob))
    {
      for r := 0 to Qubits(prob)
        invariant qc == old(qc) + PhaseGates(prob, ExactCover, gamma, r)
      {
        var hr := ExcoField(prob, r);
        ghost var before := qc;
        qc := qc + [Rz(Angle(gamma, hr), r)];
        ApplyCouplings(gamma, r);
        PhaseGatesStep(prob, ExactCover, gamma, r, hr, old(qc), before, qc);
      }
    }

    /** `apply_hamiltonian(gamma)`: as `apply_exco`, with the cost field added
        into each single-qubit rotation. */
    method ApplyHamiltonian(gamma: real)
      requires WellFormed(prob)
      modifies this`qc
      ensures qc == old(qc) + PhaseGates(prob, Combined, gamma, Qubits(prob))
    {
      for r := 0 to Qubits(prob)
        invariant qc == old(qc) + PhaseGates(prob, Combined, gamma, r)
      {
        var hr := FullField(prob, r);
        ghost var before := qc;
        qc := qc + [Rz(Angle(gamma, hr), r)];
        ApplyCouplings(gamma, r);
        PhaseGatesStep(prob, Combined, gamma, r, hr, old(qc), before, qc);
      }
    }

    /** The body of the layer loop of `QAOATailAssignment.createCircuit`. */
    method ApplyStandardLayer(gamma: real, beta: real)
      requires WellFormed(prob)
      modifies this`qc
      ensures qc == old(qc) + StandardLayer(prob, gamma, beta, useBarrier)
    {
      var bars := Barriers(useBarrier);
      ApplyHamiltonian(gamma);
      ghost var layer := PhaseGates(prob, Combined, gamma, Qubits(prob));
      MaybeBarrier();
      AppendAssoc(old(qc), layer, bars);
      layer := layer + bars;
      MixStates(beta);
      AppendAssoc(old(qc), layer, [Mixer(beta)]);
      layer := layer + [Mixer(beta)];
      MaybeBarrier();
      AppendAssoc(old(qc), layer, bars);
    }

    /** The body of the layer loop of `TailAssignmentInterlaced.createCircuit`. */
    method ApplyInterlacedLayer(gamma: real, beta: real, delta: real)
      requires WellFormed(prob)
      modifies this`qc
      ensures qc == old(qc) + InterlacedLayer(prob, gamma, beta, delta, useBarrier)
    {
      var bars := Barriers(useBarrier);
      ApplyCost(delta);
      ghost var layer := CostGates(prob, delta, Qubits(prob));
      MaybeBarrier();
      AppendAssoc(old(qc), layer, bars);
      layer := layer + bars;
      MixStates(beta);
      AppendAssoc(old(qc), layer, [Mixer(beta)]);
      layer := layer + [Mixer(beta)];
      MaybeBarrier();
      AppendAssoc(old(qc), layer, bars);
      layer := layer + bars;
      ApplyExco(gamma);
      AppendAssoc(old(qc), layer, PhaseGates(prob, ExactCover, gamma, Qubits(prob)));
      layer := layer + PhaseGates(prob, ExactCover, gamma, Qubits(prob));
      MixStates(beta);
      AppendAssoc(old(qc), layer, [Mixer(beta)]);
      layer := layer + [Mixer(beta)];
      MaybeBarrier();
      AppendAssoc(old(qc), layer, bars);
    }

    /** `QAOATailAssignment.createCircuit(params)`: the initial state, then per
        layer the Hamiltonian with gamma and the mixer with beta, each followed
        by a barrier when barriers are on, and a measurement unless the backend
        is a statevector simulator. Layer d reads gamma = params[2d] and
        beta = params[2d + 1]; an array shorter than 2 * depth makes the
        source fail with an index error, which callers never let happen. */
    method CreateCircuit(params: seq<real>) returns (c: seq<Gate>)
      requires WellFormed(prob) && 2 * depth <= |params|
      modifies this`qc
      ensures qc == StandardCircuit(prob, params, depth, useBarrier, statevector)
      ensures c == qc
    {
      InitialState();
      for d := 0 to depth
        invariant qc == [Init] + StandardLayers(prob, params, d, useBarrier)
      {
        var gamma := params[2 * d];
        var beta := params[2 * d + 1];
        ApplyStandardLayer(gamma, beta);
        StandardPrefixStep(prob, params, d, useBarrier);
      }
      if !statevector {
        qc := qc + [Measure];
      }
      c := qc;
    }

    /** `TailAssignmentInterlaced.createCircuit(params)`: per layer the cost
        part with delta, the mixer with beta, the exact-cover part with gamma
        and the mixer with beta again, with three barriers per layer when
        barriers are on. Layer d reads gamma = params[3d],
        beta = params[3d + 1] and delta = params[3d + 2]. */
    method CreateCircuitInterlaced(params: seq<real>) returns (c: seq<Gate>)
      requires WellFormed(prob) && 3 * depth <= |params|
      modifies this`qc
      ensures qc == InterlacedCircuit(prob, params, depth, useBarrier, statevector)
      ensures c == qc
    {
      InitialState();
      for d := 0 to depth
        invariant qc == [Init] + InterlacedLayers(prob, params, d, useBarrier)
      {
        var gamma := params[3 * d];
        var beta := params[3 * d + 1];
        var delta := params[3 * d + 2];
        ApplyInterlacedLayer(gamma, beta, delta);
        InterlacedPrefixStep(prob, params, d, useBarrier);
      }
      if !statevector {
        qc := qc + [Measure];
      }
      c := qc;
    }
  }
}
