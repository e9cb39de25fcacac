/** Where things sit in the circuits the two `createCircuit`s build: the
    initial state first, then layer after layer at fixed offsets, each built
    from its own slice of `params`, and the measurement last and only when the
    backend is not a statevector simulator. */
module CircuitLayout {
  import opened CostModel
  import opened Gates

  /** The offset d * W of block d in a run of blocks of W gates each. */
  function Start(d: nat, W: nat): nat
  {
    if d == 0 then 0 else Start(d - 1, W) + W
  }

  lemma {:induction false} StartIsProduct(d: nat, W: nat)
    ensures Start(d, W) == d * W
  {
    if d > 0 {
      StartIsProduct(d - 1, W);
    }
  }

  lemma {:induction false} StartMono(d: nat, n: nat, W: nat)
    requires d <= n
    ensures Start(d, W) <= Start(n, W)
  {
    if d < n {
      StartMono(d, n - 1, W);
    }
  }

  /** Block d of a run of blocks of W gates each: gates Start(d, W) ..
      Start(d + 1, W) of `s`, or nothing when `s` is too short to hold it. */
  function Block(s: seq<Gate>, d: nat, W: nat): seq<Gate>
  {
    if Start(d + 1, W) <= |s| then s[Start(d, W)..Start(d + 1, W)] else []
  }

  /** Appending a block keeps the blocks before it where they were. */
  lemma BlockOfAppend(before: seq<Gate>, last: seq<Gate>, d: nat, n: nat, W: nat)
    requires |before| == Start(n, W) && d < n
    ensures Block(before + last, d, W) == Block(before, d, W)
  {
    StartMono(d + 1, n, W);
    assert (before + last)[Start(d, W)..Start(d + 1, W)] == before[Start(d, W)..Start(d + 1, W)];
  }

  /** Appending a block of W gates to n blocks makes it block n. */
  lemma BlockOfLast(before: seq<Gate>, last: seq<Gate>, n: nat, W: nat)
    requires |before| == Start(n, W) && |last| == W
    ensures Block(before + last, n, W) == last
  {
    assert (before + last)[Start(n, W)..Start(n + 1, W)] == last;
  }

  /** The last gate of a circuit. */
  function Last(c: seq<Gate>): Gate
  {
    if c == [] then Init else c[|c| - 1]
  }

  /** A circuit made of the initial state, n blocks without a measurement and
      the optional measurement. */
  lemma CircuitShape(c: seq<Gate>, layers: seq<Gate>, statevector: bool, n: nat, W: nat)
    requires c == [Init] + layers + Measurement(statevector)
    requires |layers| == Start(n, W) && Measure !in layers
    ensures c[0] == Init && |c| == 1 + Start(n, W) + (if statevector then 0 else 1)
    ensures forall d :: 0 <= d < n ==> Block(c[1..], d, W) == Block(layers, d, W)
    ensures Measure in c <==> !statevector
    ensures !statevector ==> Last(c) == Measure
  {
    assert c[1..] == layers + Measurement(statevector);
    forall d | 0 <= d < n
      ensures Block(c[1..], d, W) == Block(layers, d, W)
    {
      BlockOfAppend(layers, Measurement(statevector), d, n, W);
    }
  }

  /** A phase separator has the same number of gates whatever its angle. */
  lemma PhaseGatesLength(p: Problem, part: Part, gamma: real)
    requires WellFormed(p)
    ensures |PhaseGates(p, part, gamma, Qubits(p))| == |PhaseGates(p, part, 0.0, Qubits(p))|
  {
    SeparatorShape(Fields(p, part), CouplingTable(p), gamma, Qubits(p));
    SeparatorShape(Fields(p, part), CouplingTable(p), 0.0, Qubits(p));
  }

  /** The cost part of the interlaced layer is one Rz per qubit. */
  lemma {:induction false} CostGatesShape(p: Problem, gamma: real, n: nat)
    requires n <= Qubits(p)
    ensures |CostGates(p, gamma, n)| == n
    ensures Measure !in CostGates(p, gamma, n)
  {
    if n > 0 {
      CostGatesShape(p, gamma, n - 1);
    }
  }

  /** A phase separator holds no measurement. */
  lemma PhaseGatesUnmeasured(p: Problem, part: Part, gamma: real)
    requires WellFormed(p)
    ensures Measure !in PhaseGates(p, part, gamma, Qubits(p))
  {
    SeparatorShape(Fields(p, part), CouplingTable(p), gamma, Qubits(p));
  }

  /** The number of gates of one standard layer. */
  function StandardWidth(p: Problem, useBarrier: bool): nat
    requires WellFormed(p)
  {
    |StandardLayer(p, 0.0, 0.0, useBarrier)|
  }

  /** The number of gates of one interlaced layer. */
  function InterlacedWidth(p: Problem, useBarrier: bool): nat
    requires WellFormed(p)
  {
    |InterlacedLayer(p, 0.0, 0.0, 0.0, useBarrier)|
  }

  /** Every standard layer has the same width and holds no measurement. */
  lemma StandardLayerShape(p: Problem, gamma: real, beta: real, useBarrier: bool)
    requires WellFormed(p)
    ensures |StandardLayer(p, gamma, beta, useBarrier)| == StandardWidth(p, useBarrier)
    ensures Measure !in StandardLayer(p, gamma, beta, useBarrier)
  {
    PhaseGatesLength(p, Combined, gamma);
    PhaseGatesUnmeasured(p, Combined, gamma);
  }

  /** Every interlaced layer has the same width and holds no measurement. */
  lemma InterlacedLayerShape(p: Problem, gamma: real, beta: real, delta: real, useBarrier: bool)
    requires WellFormed(p)
    ensures |InterlacedLayer(p, gamma, beta, delta, useBarrier)| == InterlacedWidth(p, useBarrier)
    ensures Measure !in InterlacedLayer(p, gamma, beta, delta, useBarrier)
  {
    PhaseGatesLength(p, ExactCover, gamma);
    PhaseGatesUnmeasured(p, ExactCover, gamma);
    CostGatesShape(p, delta, Qubits(p));
    CostGatesShape(p, 0.0, Qubits(p));
  }

  /** n standard layers take n widths and hold no measurement. */
  lemma {:induction false} StandardLayersShape(p: Problem, params: seq<real>, n: nat, useBarrier: bool)
    requires WellFormed(p) && 2 * n <= |params|
    ensures |StandardLayers(p, params, n, useBarrier)| == Start(n, StandardWidth(p, useBarrier))
    ensures Measure !in StandardLayers(p, params, n, useBarrier)
  {
    if n > 0 {
      StandardLayersShape(p, params, n - 1, useBarrier);
      StandardLayerShape(p, params[2 * (n - 1)], params[2 * (n - 1) + 1], useBarrier);
    }
  }

  /** The last of n standard layers, d = n - 1, is block d. */
  lemma StandardLastLayer(p: Problem, params: seq<real>, n: nat, useBarrier: bool, d: nat)
    requires WellFormed(p) && 2 * n <= |params| && d + 1 == n
    ensures Block(StandardLayers(p, params, n, useBarrier), d, StandardWidth(p, useBarrier))
      == StandardLayer(p, params[2 * d], params[2 * d + 1], useBarrier)
  {
    var before := StandardLayers(p, params, d, useBarrier);
    var last := StandardLayer(p, params[2 * d], params[2 * d + 1], useBarrier);
    StandardLayersShape(p, params, d, useBarrier);
    StandardLayerShape(p, params[2 * d], params[2 * d + 1], useBarrier);
    assert StandardLayers(p, params, n, useBarrier) == before + last;
    BlockOfLast(before, last, d, StandardWidth(p, useBarrier));
  }

  /** Adding a standard layer leaves the blocks before it unchanged. */
  lemma StandardEarlierLayer(p: Problem, params: seq<real>, n: nat, useBarrier: bool, d: nat)
    requires WellFormed(p) && 2 * n <= |params| && d < n - 1
    ensures Block(StandardLayers(p, params, n, useBarrier), d, StandardWidth(p, useBarrier))
      == Block(StandardLayers(p, params, n - 1, useBarrier), d, StandardWidth(p, useBarrier))
  {
    StandardLayersShape(p, params, n - 1, useBarrier);
    BlockOfAppend(StandardLayers(p, params, n - 1, useBarrier), StandardLayer(p, params[2 * (n - 1)], params[2 * (n - 1) + 1], useBarrier), d, n - 1, StandardWidth(p, useBarrier));
  }

  /** Block d < n of n standard layers (gates d * W .. (d + 1) * W,
      `StartIsProduct`) is the layer built from `params[2d]` and `params[2d + 1]`. */
  lemma {:induction false} StandardLayerAt(p: Problem, params: seq<real>, n: nat, useBarrier: bool, d: nat)
    requires WellFormed(p) && 2 * n <= |params| && d < n
    ensures Block(StandardLayers(p, params, n, useBarrier), d, StandardWidth(p, useBarrier))
      == StandardLayer(p, params[2 * d], params[2 * d + 1], useBarrier)
  {
    if d == n - 1 {
      StandardLastLayer(p, params, n, useBarrier, d);
    } else {
      StandardEarlierLayer(p, params, n, useBarrier, d);
      StandardLayerAt(p, params, n - 1, useBarrier, d);
    }
  }

  /** n interlaced layers take n widths and hold no measurement. */
  lemma {:induction false} InterlacedLayersShape(p: Problem, params: seq<real>, n: nat, useBarrier: bool)
    requires WellFormed(p) && 3 * n <= |params|
    ensures |InterlacedLayers(p, params, n, useBarrier)| == Start(n, InterlacedWidth(p, useBarrier))
    ensures Measure !in InterlacedLayers(p, params, n, useBarrier)
  {
    if n > 0 {
      InterlacedLayersShape(p, params, n - 1, useBarrier);
      InterlacedLayerShape(p, params[3 * (n - 1)], params[3 * (n - 1) + 1], params[3 * (n - 1) + 2], useBarrier);
    }
  }

  /** The last of n interlaced layers, d = n - 1, is block d. */
  lemma InterlacedLastLayer(p: Problem, params: seq<real>, n: nat, useBarrier: bool, d: nat)
    requires WellFormed(p) && 3 * n <= |params| && d + 1 == n
    ensures Block(InterlacedLayers(p, params, n, useBarrier), d, InterlacedWidth(p, useBarrier))
      == InterlacedLayer(p, params[3 * d], params[3 * d + 1], params[3 * d + 2], useBarrier)
  {
    var before := InterlacedLayers(p, params, d, useBarrier);
    var last := InterlacedLayer(p, params[3 * d], params[3 * d + 1], params[3 * d + 2], useBarrier);
    InterlacedLayersShape(p, params, d, useBarrier);
    InterlacedLayerShape(p, params[3 * d], params[3 * d + 1], params[3 * d + 2], useBarrier);
    assert InterlacedLayers(p, params, n, useBarrier) == before + last;
    BlockOfLast(before, last, d, InterlacedWidth(p, useBarrier));
  }

  /** Adding a interlaced layer leaves the blocks before it unchanged. */
  lemma InterlacedEarlierLayer(p: Problem, params: seq<real>, n: nat, useBarrier: bool, d: nat)
    requires WellFormed(p) && 3 * n <= |params| && d < n - 1
    ensures Block(InterlacedLayers(p, params, n, useBarrier), d, InterlacedWidth(p, useBarrier))
      == Block(InterlacedLayers(p, params, n - 1, useBarrier), d, InterlacedWidth(p, useBarrier))
  {
    InterlacedLayersShape(p, params, n - 1, useBarrier);
    BlockOfAppend(InterlacedLayers(p, params, n - 1, useBarrier), InterlacedLayer(p, params[3 * (n - 1)], params[3 * (n - 1) + 1], params[3 * (n - 1) + 2], useBarrier), d, n - 1, InterlacedWidth(p, useBarrier));
  }

  /** Block d < n of n interlaced layers (gates d * W .. (d + 1) * W,
      `StartIsProduct`) is the layer built from `params[3d]`, `params[3d + 1]` and `params[3d + 2]`. */
  lemma {:induction false} InterlacedLayerAt(p: Problem, params: seq<real>, n: nat, useBarrier: bool, d: nat)
    requires WellFormed(p) && 3 * n <= |params| && d < n
    ensures Block(InterlacedLayers(p, params, n, useBarrier), d, InterlacedWidth(p, useBarrier))
      == InterlacedLayer(p, params[3 * d], params[3 * d + 1], params[3 * d + 2], useBarrier)
  {
    if d == n - 1 {
      InterlacedLastLayer(p, params, n, useBarrier, d);
    } else {
      InterlacedEarlierLayer(p, params, n, useBarrier, d);
      InterlacedLayerAt(p, params, n - 1, useBarrier, d);
    }
  }

  /** The standard circuit starts in the initial state, holds after it the
      `depth` standard layers, layer d built from `params[2d]` and
      `params[2d + 1]`, and is measured, in its last gate and nowhere else,
      exactly when the backend is not a statevector simulator. */
  lemma StandardCircuitLayout(p: Problem, params: seq<real>, depth: nat, useBarrier: bool, statevector: bool)
    requires WellFormed(p) && 2 * depth <= |params|
    ensures StandardCircuit(p, params, depth, useBarrier, statevector)[0] == Init
    ensures |StandardCircuit(p, params, depth, useBarrier, statevector)|
      == 1 + Start(depth, StandardWidth(p, useBarrier)) + (if statevector then 0 else 1)
    ensures forall d :: 0 <= d < depth ==>
      Block(StandardCircuit(p, params, depth, useBarrier, statevector)[1..], d, StandardWidth(p, useBarrier))
      == StandardLayer(p, params[2 * d], params[2 * d + 1], useBarrier)
    ensures Measure in StandardCircuit(p, params, depth, useBarrier, statevector) <==> !statevector
    ensures !statevector ==> Last(StandardCircuit(p, params, depth, useBarrier, statevector)) == Measure
  {
    var layers := StandardLayers(p, params, depth, useBarrier);
    var c := StandardCircuit(p, params, depth, useBarrier, statevector);
    StandardLayersShape(p, params, depth, useBarrier);
    forall d | 0 <= d < depth
      ensures Block(layers, d, StandardWidth(p, useBarrier)) == StandardLayer(p, params[2 * d], params[2 * d + 1], useBarrier)
    {
      StandardLayerAt(p, params, depth, useBarrier, d);
    }
    CircuitShape(c, layers, statevector, depth, StandardWidth(p, useBarrier));
  }

  /** The interlaced circuit starts in the initial state, holds after it the
      `depth` interlaced layers, layer d built from `params[3d]`,
      `params[3d + 1]` and `params[3d + 2]`, and is measured, in its last gate
      and nowhere else, exactly when the backend is not a statevector
      simulator. */
  lemma InterlacedCircuitLayout(p: Problem, params: seq<real>, depth: nat, useBarrier: bool, statevector: bool)
    requires WellFormed(p) && 3 * depth <= |params|
    ensures InterlacedCircuit(p, params, depth, useBarrier, statevector)[0] == Init
    ensures |InterlacedCircuit(p, params, depth, useBarrier, statevector)|
      == 1 + Start(depth, InterlacedWidth(p, useBarrier)) + (if statevector then 0 else 1)
    ensures forall d :: 0 <= d < depth ==>
      Block(InterlacedCircuit(p, params, depth, useBarrier, statevector)[1..], d, InterlacedWidth(p, useBarrier))
      == InterlacedLayer(p, params[3 * d], params[3 * d + 1], params[3 * d + 2], useBarrier)
    ensures Measure in InterlacedCircuit(p, params, depth, useBarrier, statevector) <==> !statevector
    ensures !statevector ==> Last(InterlacedCircuit(p, params, depth, useBarrier, statevector)) == Measure
  {
    var layers := InterlacedLayers(p, params, depth, useBarrier);
    var c := InterlacedCircuit(p, params, depth, useBarrier, statevector);
    InterlacedLayersShape(p, params, depth, useBarrier);
    forall d | 0 <= d < depth
      ensures Block(layers, d, InterlacedWidth(p, useBarrier)) == InterlacedLayer(p, params[3 * d], params[3 * d + 1], params[3 * d + 2], useBarrier)
    {
      InterlacedLayerAt(p, params, depth, useBarrier, d);
    }
    CircuitShape(c, layers, statevector, depth, InterlacedWidth(p, useBarrier));
  }
}
