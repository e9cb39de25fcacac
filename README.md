# Tail assignment with QAOA: a Dafny model

This project models the tail-assignment part of a QAOA (quantum approximate
optimisation algorithm) package. In the tail-assignment problem, a set of
flights F is covered by choosing routes (resources) R. The data are:

- `FR`, an F x R incidence matrix (flight f lies on route r);
- `CR`, the route costs;
- `mu`, a penalty weight.

A choice is a bitstring with one qubit per route. Its `cost` is
`-(CR @ x + mu * sum((1 - FR @ x)**2))`. It `is_solution` when every flight is
covered exactly once.

`QAOATailAssignment` builds the circuit. Each layer applies the phase
separator of the problem Hamiltonian (`apply_hamiltonian`), then the mixer
(`mix_states`). `TailAssignmentInterlaced` splits each layer differently: the
cost part (`apply_cost`), a mixer, the exact-cover part (`apply_exco`), and a
mixer again. After execution, `successProbability` and `measurementStatistics`
turn the results into the following quantities:

- the share of exact covers;
- the expected cost;
- the best cost seen.

Each of these is computed either from sampled counts or from the
probabilities of a statevector simulation.

The model, module by module:

- `CostModel` (cost_model.dfy) holds `cost` and `is_solution` on bitstrings in
  backend order (the string is reversed before reading qubits). It proves the
  bitstring/assignment round trip. It also proves that `is_solution` means
  "every flight covered exactly once" for 0/1 matrices, and that the cost of a
  solution is minus its route cost.
- `Keys` (keys.dfy) decodes an outcome key to a zero-padded binary string of
  R characters, and proves that decoding gives back the key.
- `Gates` (gates.dfy) defines the gate sequences each circuit operation
  appends, as functions of the problem data. It proves their shape: gate
  counts, and two CNOTs per qubit pair.
- `CircuitLayout` (circuit_layout.dfy) proves where everything sits in a
  built circuit. The initial state comes first. Layer d follows at a fixed
  offset and is built from its own slice of `params`. The measurement comes
  last, and only when the backend is not a statevector simulator.
- `Circuit` (circuit.dfy) is the circuit builder. `TailAssignment` is a class
  whose methods append gates to its field `qc`, with one loop per loop of the
  source. Each method is proved to append exactly the gates of its `Gates`
  function.
- `PhaseSemantics` (phase_semantics.dfy) gives the action of Rz/CNOT circuits
  on basis states. It proves that a phase separator multiplies a basis state
  by a phase proportional to an Ising energy. It also proves that
  `apply_cost` followed by `apply_exco` has the same effect as
  `apply_hamiltonian`.
- `Ising` and `IsingEnergy` (ising.dfy, ising_energy.dfy) rewrite the cost in
  spin variables. They compare that form with the energy the separators
  actually evolve.
- `SampledStatistics` (sampled_statistics.dfy) covers the counts branches of
  `successProbability` and `measurementStatistics`. They are methods with the
  source's nested loops, proved against order-independent sums over the
  counted keys.
- `ExactStatistics` (exact_statistics.dfy) covers the statevector branches, as
  functions of the basis states and their probabilities. The best cost is
  modelled twice. `ExactMeasurementStatistics` computes it as the source
  writes it. `CorrectedMeasurementStatistics` computes what the code
  evidently intends (see "## Findings").

## Model

| member | source | states |
|---|---|---|
| `CostModel.BitStringOfAssignment` | tailassignment_oop.py:28 | reading a bitstring as an assignment loses nothing: printing the assignment back in backend order gives the original string |
| `CostModel.AssignmentOfBitString` | tailassignment_oop.py:28 | every 0/1 assignment is the reading of some bitstring |
| `CostModel.Penalty` | tailassignment_oop.py:29 | the penalty `sum((1 - FR @ x)**2)` is never negative |
| `CostModel.PenaltyZeroIff` | tailassignment_oop.py:29 | the penalty is zero exactly when every flight has coverage one |
| `CostModel.CostOfSolution` | tailassignment_oop.py:25-29 | on an exact cover the cost is minus the route cost `CR @ x`: the penalty vanishes |
| `CostModel.CostBoundedByLinearPart` | tailassignment_oop.py:25-29 | with mu >= 0 the cost never exceeds minus the route cost, and with mu > 0 it equals it exactly on solutions |
| `CostModel.DotOfBits` | tailassignment_oop.py:218 | for 0/1 vectors the coverage of a flight is 0 iff no chosen route serves it and 1 iff exactly one does |
| `CostModel.IsSolutionIsExactCover` | tailassignment_oop.py:216-218 | for a 0/1 matrix, `is_solution` holds iff every flight is served by exactly one chosen route |
| `CostModel.IdentityExample` | tailassignment_oop.py:25-29 | for FR = I, CR = [1, 1] and mu = 1, the string "11" is a solution and costs -2 |
| `CostModel.DotSymmetric` | tailassignment_oop.py:62 | the overlap `FR[:,r] @ FR[:,r_]` does not depend on the order of the two columns |
| `Keys.KeyStringRoundTrip` | tailassignment_oop.py:315 | for a key below 2^R the zero-filled binary string has exactly R characters and reads back as the key |
| `Keys.ValueOfBinary` | tailassignment_oop.py:315 | `"{0:b}".format(n)` reads back as n |
| `Keys.ValueOfPadded` | tailassignment_oop.py:315 | `zfill` does not change the value of a binary string |
| `Keys.BinaryLength` | tailassignment_oop.py:315 | a key below 2^R needs at most R binary digits, so `zfill(R)` only pads |
| `Keys.AssignmentBit` | tailassignment_oop.py:28 | qubit r of a bitstring is bit r of the number it spells (the reversal puts the least significant bit first) |
| `Keys.KeyQubit` | tailassignment_oop.py:315-316 | in the decoded key, qubit r is bit r of the key |
| `Gates.FullFieldIsSum` | tailassignment_oop.py:100 | the single-qubit field of `apply_hamiltonian` is the sum of the fields of `apply_cost` (line 83) and `apply_exco` (line 57) |
| `Gates.CouplingSymmetric` | tailassignment_oop.py:62 | the coupling `Jrr_` between two qubits is symmetric |
| `Gates.CouplingsPairs` | tailassignment_oop.py:61-68 | the couplings of qubit r place exactly two CNOTs on each pair (r, t) with t > r, and none elsewhere |
| `Gates.SeparatorShape` | tailassignment_oop.py:56-68 | a separator over n of R qubits has n rotations plus 3 gates per coupled pair, all of them Rz or CNOT on register qubits |
| `Gates.SeparatorPairs` | tailassignment_oop.py:56-68 | a separator over n qubits puts exactly two CNOTs on every pair (c, t) with c < n and c < t < R |
| `Gates.PhaseSeparatorSize` | tailassignment_oop.py:99-111 | a full separator has R + 3R(R-1)/2 gates, all Rz or CNOT on register qubits, and exactly two CNOTs on every pair of qubits |
| `CircuitLayout.StandardLayerShape` | tailassignment_oop.py:139-152 | every standard layer has the same number of gates whatever its angles, and holds no measurement |
| `CircuitLayout.InterlacedLayerShape` | tailassignment_oop.py:356-373 | every interlaced layer has the same number of gates whatever its angles, and holds no measurement |
| `CircuitLayout.StandardLayersShape` | tailassignment_oop.py:130-152 | `depth` standard layers take `depth` times the width W of one layer and hold no measurement |
| `CircuitLayout.InterlacedLayersShape` | tailassignment_oop.py:345-373 | `depth` interlaced layers take `depth` times the width W of one layer and hold no measurement |
| `CircuitLayout.StandardLayerAt` | tailassignment_oop.py:130-152 | gates d * W .. (d + 1) * W of the standard layers are layer d, built from gamma = params[2d] and beta = params[2d+1] |
| `CircuitLayout.InterlacedLayerAt` | tailassignment_oop.py:345-373 | gates d * W .. (d + 1) * W of the interlaced layers are layer d, built from gamma, beta, delta = params[3d], params[3d+1], params[3d+2] |
| `CircuitLayout.StandardCircuitLayout` | tailassignment_oop.py:113-159 | the standard circuit starts with the initial state, has 1 + depth * W gates plus one for the measurement, holds layer d (params[2d], params[2d+1]) at gates 1 + d * W .. 1 + (d + 1) * W, and contains a measurement exactly when the backend is not a statevector simulator, as its last gate |
| `CircuitLayout.InterlacedCircuitLayout` | tailassignment_oop.py:328-380 | the interlaced circuit starts with the initial state, has 1 + depth * W gates plus one for the measurement, holds layer d (params[3d], params[3d+1], params[3d+2]) at gates 1 + d * W .. 1 + (d + 1) * W, and contains a measurement exactly when the backend is not a statevector simulator, as its last gate |
| `Circuit.TailAssignment.constructor` | tailassignment_oop.py:5-22 | the object holds FR, CR and mu, the barrier option, the backend kind and the depth, and starts with no circuit |
| `Circuit.TailAssignment.InitialState` | tailassignment_oop.py:128 | the circuit is restarted with the initial state |
| `Circuit.TailAssignment.MaybeBarrier` | tailassignment_oop.py:145-146 | a barrier is appended exactly when barriers are enabled, and nothing else changes |
| `Circuit.TailAssignment.MixStates` | tailassignment_oop.py:31-42 | exactly one Rx(-2 beta) on the whole register is appended |
| `Circuit.TailAssignment.ApplyCost` | tailassignment_oop.py:70-85 | exactly the R rotations Rz(gamma * CR[r] / 2) on qubits 0..R-1, in order, are appended |
| `Circuit.TailAssignment.ApplyCouplings` | tailassignment_oop.py:61-68 | the coupling triples CNOT, Rz(gamma * Jrr_), CNOT of qubit r with qubits r+1..R-1 are appended in order |
| `Circuit.TailAssignment.ApplyExco` | tailassignment_oop.py:44-69 | exactly the exact-cover separator is appended: per qubit its field rotation, then its couplings |
| `Circuit.TailAssignment.ApplyHamiltonian` | tailassignment_oop.py:87-111 | exactly the combined separator is appended, with the cost and exact-cover fields summed in each rotation |
| `Circuit.TailAssignment.ApplyStandardLayer` | tailassignment_oop.py:139-152 | one standard layer is appended: separator, optional barrier, mixer, optional barrier |
| `Circuit.TailAssignment.ApplyInterlacedLayer` | tailassignment_oop.py:356-373 | one interlaced layer is appended: cost part with delta, barrier, mixer, barrier, exact-cover part with gamma, mixer, barrier |
| `Circuit.TailAssignment.CreateCircuit` | tailassignment_oop.py:113-159 | the circuit and the returned value are the initial state, `depth` standard layers, and a measurement unless the backend is a statevector simulator |
| `Circuit.TailAssignment.CreateCircuitInterlaced` | tailassignment_oop.py:328-380 | the circuit and the returned value are the initial state, `depth` interlaced layers, and a measurement unless the backend is a statevector simulator |
| `PhaseSemantics.RunTriple` | tailassignment_oop.py:66-68 | CNOT, Rz(theta) on the target, CNOT leaves a basis state unchanged and adds theta times the product of the two spins to its angle |
| `PhaseSemantics.RunCouplings` | tailassignment_oop.py:61-68 | the coupling loop of qubit r leaves the basis state unchanged and adds the coupling angles of r with the later qubits |
| `PhaseSemantics.SeparatorPhase` | tailassignment_oop.py:56-68 | a separator with fields h and couplings J multiplies a basis state by the phase of gamma times its Ising energy |
| `PhaseSemantics.RunCostGates` | tailassignment_oop.py:82-85 | `apply_cost` leaves a basis state unchanged and adds the angles of its cost fields |
| `PhaseSemantics.HamiltonianPhase` | tailassignment_oop.py:99-111 | `apply_hamiltonian` multiplies a basis state by the phase of gamma times the energy with the combined fields and the coupling table |
| `PhaseSemantics.HamiltonianIsCostThenExco` | tailassignment_oop.py:139-143 | `apply_cost` followed by `apply_exco` acts on every basis state exactly as `apply_hamiltonian` (the equivalent implementation noted in the comment) |
| `Ising.PenaltyInSpins` | tailassignment_oop.py:29 | four times the penalty over the first n flights equals a constant, minus twice the spin sum weighted by `FR[:,r] @ (rowsum - 2)`, plus twice the overlap pair sum in spins |
| `IsingEnergy.ObjectiveInSpins` | tailassignment_oop.py:29 | in spins the objective is half the cost spin sum plus mu/2 times the exact-cover spin sum, minus mu/2 times the overlap pair sum, minus a constant offset |
| `IsingEnergy.CombinedFieldEnergy` | tailassignment_oop.py:100 | the field term of `apply_hamiltonian` is half the cost spin sum plus mu/2 times the exact-cover spin sum: the fields of the objective |
| `IsingEnergy.AsWrittenEnergy` | tailassignment_oop.py:99-111 | the energy the source's separator evolves is the objective plus the offset plus (1 + mu)/2 times the overlap pair sum |
| `IsingEnergy.CouplingSignCounterexample` | tailassignment_oop.py:105 | with one flight on all three routes, no costs and mu = 1, "000" and "011" have equal objective but energies 4 apart |
| `IsingEnergy.IntendedEnergy` | tailassignment_oop.py:99-111 | with couplings -mu/2 times the overlaps, the separator's energy is exactly the objective plus a constant |
| `IsingEnergy.IntendedEnergyOfBitString` | tailassignment_oop.py:25-29 | with corrected couplings, the energy of the basis state of a bitstring is its `cost` plus a constant |
| `SampledStatistics.KeyOutcomeValue` | tailassignment_oop.py:315 | the bitstring a key decodes to reads back as the key |
| `SampledStatistics.SuccessProbability` | tailassignment_oop.py:245-260 | the result is the sum, over all experiments and all counted keys, of count / shots for the keys that decode to an exact cover, whatever the key order |
| `SampledStatistics.ExperimentStatistics` | tailassignment_oop.py:307-320 | one experiment's loop returns its expectation, the sum of cost * count / shots over its keys, and the maximum of the best so far and its keys' costs |
| `SampledStatistics.MeasurementStatistics` | tailassignment_oop.py:280-323 | a fresh array holds each experiment's expectation at its index, and the best cost is the maximum cost of any counted key (minus infinity when none is counted) |
| `SampledStatistics.FractionsSumToOne` | tailassignment_oop.py:318 | when the counts add up to the shots, the fractions count / shots add up to one |
| `SampledStatistics.SuccessShareBounds` | tailassignment_oop.py:254-258 | one experiment contributes a success share between 0 and 1 |
| `SampledStatistics.SuccessShareAllSolutions` | tailassignment_oop.py:254-258 | when every counted key is an exact cover, the experiment's share is 1 |
| `SampledStatistics.SuccessShareNoSolutions` | tailassignment_oop.py:254-258 | when no counted key is an exact cover, the experiment's share is 0 |
| `SampledStatistics.SuccessTotalBounds` | tailassignment_oop.py:247-260 | the success probability of a job lies between 0 and the number of experiments |
| `SampledStatistics.ConstantExpectation` | tailassignment_oop.py:313-318 | if every key had the same cost b, the accumulated expectation would be b |
| `SampledStatistics.ExpectationAtMost` | tailassignment_oop.py:313-318 | the expectation is at most any upper bound of the counted keys' costs |
| `SampledStatistics.ExpectationAtLeast` | tailassignment_oop.py:313-318 | the expectation is at least any lower bound of the counted keys' costs |
| `SampledStatistics.CountedCostsContains` | tailassignment_oop.py:317 | the best cost ranges over the costs of every experiment's keys |
| `SampledStatistics.ExpectationAtMostBest` | tailassignment_oop.py:317-320 | every experiment's expectation is at most the reported best cost, which is finite |
| `ExactStatistics.CostsAndIndicators` | tailassignment_oop.py:13-14 | with mu >= 0, entry i of `vector_cost` is at most minus the route cost of state i; with mu > 0 it equals that bound exactly when entry i of `vector_is_solution` is 1 |
| `ExactStatistics.IndicatorsAreExactCovers` | tailassignment_oop.py:14 | for a 0/1 matrix, entry i of `vector_is_solution` is 1 exactly when state i serves every flight by exactly one chosen route |
| `ExactStatistics.ExactSuccessBounds` | tailassignment_oop.py:237-243 | over a probability distribution the statevector success probability lies between 0 and 1 |
| `ExactStatistics.ExactExpectationBetween` | tailassignment_oop.py:295-296 | the statevector expectation lies between any lower and upper bound of the costs of states with positive probability |
| `ExactStatistics.Ceil` | tailassignment_oop.py:298 | `np.ceil(x)` is the least integer not below x |
| `ExactStatistics.CeilOfProbability` | tailassignment_oop.py:298 | the ceiling of a probability is 1 if it is positive and 0 if it is zero |
| `ExactStatistics.BestAsWrittenIsSupportSum` | tailassignment_oop.py:298 | line 298 as written computes the sum of the costs of all states with positive probability |
| `ExactStatistics.BestAsWrittenCounterexample` | tailassignment_oop.py:298-299 | with one flight on one route of cost 2 and equal probabilities, line 298 reports -3, below the expectation -1.5, while the best measurable cost is -1 |
| `ExactStatistics.BestCostIsMax` | tailassignment_oop.py:298-299 | the corrected best cost is the largest cost among states with positive probability, minus infinity if there are none |
| `ExactStatistics.ExactMeasurementStatistics` | tailassignment_oop.py:290-301 | the statevector branch as written returns one expectation per experiment, the first `costs @ probs` and the others zero; its best cost `max(-inf, np.max(costs @ np.ceil(probs)))` is always finite and, over probabilities, is the sum of the costs of all states with positive probability |
| `ExactStatistics.CorrectedMeasurementStatistics` | tailassignment_oop.py:290-301 | the same expectations, with the best cost taken as the largest cost of a state with positive probability (minus infinity if none); over a distribution it is finite and at least the expectation |
| `ExactStatistics.ExactExpectationAtMostBest` | tailassignment_oop.py:296-299 | over a distribution some state is measurable, and the expectation never exceeds the corrected best cost |

## Left out

- Circuit execution, the backend, noise models and Qiskit's job objects are
  not modelled. A run is represented by its results: a list of experiments with
  shot counts and counts per outcome key (sampled), or a list of state strings
  with their probabilities (statevector).
- The statevector amplitudes are complex numbers. The model takes their
  squared magnitudes `probs` as given reals, and takes `state_strings`, which
  the base class builds, as an input.
- `initial_state` belongs to the base class, which is not part of this model.
  It is represented by a single `Init` instruction that starts the circuit.
- Outcome keys are taken as already-parsed numbers (`int(hexkey, 0)`).
- Floating-point arithmetic is modelled with exact reals. Rounding in
  `count/n_shots` and in the inner products is not modelled.
- `simulation_statistics` and plotting are left out. They only re-run the
  circuit and repeat the statistics shown here.
- The variances returned as `None` by `measurementStatistics` are not modelled.
- Gates are recorded as symbolic instructions. The model states what gates are
  appended and what they do to basis states, not the full unitary on
  superpositions.
- `TailAssignmentInterlaced` is a subclass that overrides `createCircuit`.
  Here both builders are methods of one class:
  `CreateCircuit` and `CreateCircuitInterlaced`.
- `SampledStatistics.SuccessProbability`: the counts branch of
  `successProbability` refers to `rN`, `FR` and `is_Solution`, which are not
  defined in this file. The model reads them as the register size R, the
  object's `FR` and its `is_solution`.
- `SampledStatistics.SuccessProbability`: the success shares of all
  experiments are added without averaging, as in the source. The job-level
  bound is therefore the number of experiments; the [0, 1] bound holds per
  experiment (`SuccessShareBounds`).
- `SampledStatistics.MeasurementStatistics` requires FR to have at least one
  row, because R is read from `FR[0,:]`. Every key must also decode to R
  characters (a key of 2^R or more makes the cost fail in the source).
- `Circuit.TailAssignment.CreateCircuit` requires `2 * depth <= |params|`.
  With a shorter `params`, `gammas[d]` or `betas[d]` raises an IndexError
  in the source (lines 135-136). That error path is not modelled.
- `Circuit.TailAssignment.CreateCircuitInterlaced` requires
  `3 * depth <= |params|`. With a shorter `params`, `gammas[d]`, `betas[d]`
  or `deltas[d]` raises an IndexError in the source (lines 351-353). That
  error path is not modelled.
- `SampledStatistics.SuccessProbability` and
  `SampledStatistics.MeasurementStatistics` require every experiment to be
  `Readable`. There are two conditions. First, an experiment with counted
  keys has `shots > 0`; otherwise `count/n_shots` raises ZeroDivisionError
  (lines 258 and 318). Second, every key is below 2^R; otherwise the
  decoded string is longer than R and the cost fails. Neither error path is
  modelled.
- `ExactStatistics.ExactMeasurementStatistics` requires at least one
  experiment (`n >= 1`). With an empty result list, `expectations[0]`
  raises an IndexError (line 301). That error path is not modelled.
- The order in which the source visits `counts.keys()` is left open. The
  methods are proved for every order.

## Findings

| source | as written | input that shows it | evidently intended | confidence | as-written member | corrected member |
|---|---|---|---|---|---|---|
| tailassignment_oop.py:298 | `np.max(costs @ np.ceil(probs))` takes the maximum of a scalar inner product, which is the sum of the costs of every state with positive probability | FR = [[1]], CR = [2], mu = 1, states "0" and "1" with probability 0.5 each: reports -3, while the expectation is -1.5 and the best measurable cost is -1 | the largest cost among states with positive probability, `np.max(costs[probs > 0])` | high (not executed) | `ExactStatistics.BestAsWrittenCounterexample` | `ExactStatistics.CorrectedMeasurementStatistics` |
| tailassignment_oop.py:105 | the couplings are `+0.5 * FR[:,r] @ FR[:,r_]`. Their sign is opposite to the fields', and they lack the factor mu, so the evolved energy is the cost plus (1 + mu)/2 times the overlap pair sum | FR = [[1, 1, 1]], CR = [0, 0, 0], mu = 1: "000" and "011" both cost -1, but their energies differ by 4 | couplings `-0.5 * mu * FR[:,r] @ FR[:,r_]`, for which the energy is the cost plus a constant | medium (not executed) | `IsingEnergy.CouplingSignCounterexample` | `IsingEnergy.IntendedEnergy` |

The same couplings appear in `apply_exco` at line 62. The circuit builders in
`Circuit` keep the couplings as written, because they model the code. The
corrected couplings `IsingEnergy.IntendedCouplingTable` are the reference
against which the intended energy is proved.
