/** The classical cost model of the tail-assignment problem: the objective
    `cost` and the exact-cover predicate `is_solution`, both evaluated on a
    measured bitstring whose characters are in backend order (most significant
    qubit first). */
module CostModel {

  /** The problem data of one QAOATailAssignment object: the F x R resource
      matrix FR, the length-R cost vector CR and the penalty weight mu. */
  datatype Problem = Problem(FR: seq<seq<int>>, CR: seq<int>, mu: real)

  /** Number of qubits R, one per resource (the size of CR). */
  function Qubits(p: Problem): nat { |p.CR| }

  /** Every row of FR has one entry per resource, so that FR is F x R. */
  predicate WellFormed(p: Problem)
  {
    forall f :: 0 <= f < |p.FR| ==> |p.FR[f]| == |p.CR|
  }

  /** A string of '0' and '1' characters, as printed by the backend. */
  predicate IsBinary(s: string)
  {
    forall i :: 0 <= i < |s| ==> s[i] == '0' || s[i] == '1'
  }

  /** A 0/1 vector. */
  predicate IsBits(x: seq<int>)
  {
    forall i :: 0 <= i < |x| ==> x[i] == 0 || x[i] == 1
  }

  function Digit(c: char): (d: int)
    requires c == '0' || c == '1'
    ensures d == 0 || d == 1
    ensures d == 1 <==> c == '1'
  {
    if c == '1' then 1 else 0
  }

  function DigitChar(d: int): (c: char)
    requires d == 0 || d == 1
    ensures (c == '0' || c == '1') && Digit(c) == d
  {
    if d == 1 then '1' else '0'
  }

  /** The assignment vector x of a measured bitstring,
      `map(int, binstring[::-1])`: the string is reversed first, so qubit r
      is read from character R-1-r. */
  function Assignment(s: string): (x: seq<int>)
    requires IsBinary(s)
    ensures |x| == |s| && IsBits(x)
    ensures forall r :: 0 <= r < |s| ==> x[r] == Digit(s[|s| - 1 - r])
  {
    seq(|s|, r requires 0 <= r < |s| => Digit(s[|s| - 1 - r]))
  }

  /** The backend string of an assignment vector: qubit R-1 first. */
  function BitString(x: seq<int>): (s: string)
    requires IsBits(x)
    ensures |s| == |x| && IsBinary(s)
    ensures forall i :: 0 <= i < |x| ==> Digit(s[i]) == x[|x| - 1 - i]
  {
    if x == [] then [] else [DigitChar(x[|x| - 1])] + BitString(x[..|x| - 1])
  }

  /** Reading a printed assignment back gives the same vector. */
  lemma AssignmentOfBitString(x: seq<int>)
    requires IsBits(x)
    ensures Assignment(BitString(x)) == x
  {
    var y := Assignment(BitString(x));
    forall r | 0 <= r < |x| ensures y[r] == x[r] {
      AssignmentOfBitStringAt(x, r);
    }
  }

  lemma AssignmentOfBitStringAt(x: seq<int>, r: nat)
    requires IsBits(x) && r < |x|
    ensures Assignment(BitString(x))[r] == x[r]
  {
    var s := BitString(x);
    var i := |x| - 1 - r;
    assert Assignment(s)[r] == Digit(s[i]);
    assert Digit(s[i]) == x[|x| - 1 - i];
  }

  /** Printing the assignment of a bitstring gives the same string. */
  lemma BitStringOfAssignment(s: string)
    requires IsBinary(s)
    ensures BitString(Assignment(s)) == s
  {
    var x := Assignment(s);
    var t := BitString(x);
    forall i | 0 <= i < |s| ensures t[i] == s[i] {
      assert Digit(t[i]) == x[|x| - 1 - i] == Digit(s[i]);
    }
  }

  /** The dot product `u @ v`. */
  function Dot(u: seq<int>, v: seq<int>): int
    requires |u| == |v|
  {
    if u == [] then 0 else u[0] * v[0] + Dot(u[1..], v[1..])
  }

  /** The dot product is symmetric. */
  lemma {:induction false} DotSymmetric(u: seq<int>, v: seq<int>)
    requires |u| == |v|
    ensures Dot(u, v) == Dot(v, u)
  {
    if u != [] {
      DotSymmetric(u[1..], v[1..]);
    }
  }

  /** Row f of `FR @ x`: how often task f is covered by the chosen resources. */
  function Coverage(p: Problem, x: seq<int>, f: nat): int
    requires WellFormed(p) && |x| == Qubits(p) && f < |p.FR|
  {
    Dot(p.FR[f], x)
  }

  /** `np.sum((1 - FR @ x)**2)` over the rows f < n. */
  function Penalty(p: Problem, x: seq<int>, n: nat): (s: int)
    requires WellFormed(p) && |x| == Qubits(p) && n <= |p.FR|
    ensures s >= 0
  {
    if n == 0 then 0
    else Penalty(p, x, n - 1) + (1 - Coverage(p, x, n - 1)) * (1 - Coverage(p, x, n - 1))
  }

  /** The tail-assignment objective on an assignment vector, negated for
      maximisation: `-(CR @ x + mu * sum((1 - FR @ x)**2))`. */
  function Objective(p: Problem, x: seq<int>): real
    requires WellFormed(p) && |x| == Qubits(p)
  {
    -((Dot(p.CR, x) as real) + p.mu * (Penalty(p, x, |p.FR|) as real))
  }

  /** Every task is covered exactly once: `FR @ x == 1` row by row. */
  predicate Feasible(p: Problem, x: seq<int>)
    requires WellFormed(p) && |x| == Qubits(p)
  {
    forall f :: 0 <= f < |p.FR| ==> Coverage(p, x, f) == 1
  }

  /** `cost(binstring)`: the objective of the reversed bitstring. */
  function Cost(p: Problem, s: string): real
    requires WellFormed(p) && IsBinary(s) && |s| == Qubits(p)
  {
    Objective(p, Assignment(s))
  }

  /** `is_solution(binstring)`: the reversed bitstring is an exact cover. */
  predicate IsSolution(p: Problem, s: string)
    requires WellFormed(p) && IsBinary(s) && |s| == Qubits(p)
  {
    Feasible(p, Assignment(s))
  }

  /** The penalty vanishes exactly when every counted row is covered once. */
  lemma {:induction false} PenaltyZeroIff(p: Problem, x: seq<int>, n: nat)
    requires WellFormed(p) && |x| == Qubits(p) && n <= |p.FR|
    ensures Penalty(p, x, n) == 0 <==> forall f :: 0 <= f < n ==> Coverage(p, x, f) == 1
  {
    if n > 0 {
      PenaltyZeroIff(p, x, n - 1);
      var c := 1 - Coverage(p, x, n - 1);
      assert c * c >= 0;
      assert c * c == 0 <==> c == 0;
    }
  }

  /** On a solution the penalty term is zero and the cost is the negated
      linear cost `-(CR @ x)`. */
  lemma CostOfSolution(p: Problem, s: string)
    requires WellFormed(p) && IsBinary(s) && |s| == Qubits(p)
    requires IsSolution(p, s)
    ensures Cost(p, s) == -(Dot(p.CR, Assignment(s)) as real)
  {
    PenaltyZeroIff(p, Assignment(s), |p.FR|);
  }

  /** With a non-negative penalty weight no string costs more than its
      linear part, and with a positive weight the bound is reached exactly by
      the solutions. */
  lemma CostBoundedByLinearPart(p: Problem, s: string)
    requires WellFormed(p) && IsBinary(s) && |s| == Qubits(p)
    requires p.mu >= 0.0
    ensures Cost(p, s) <= -(Dot(p.CR, Assignment(s)) as real)
    ensures p.mu > 0.0 ==> (Cost(p, s) == -(Dot(p.CR, Assignment(s)) as real) <==> IsSolution(p, s))
  {
    var x := Assignment(s);
    var pen := Penalty(p, x, |p.FR|) as real;
    PenaltyZeroIff(p, x, |p.FR|);
    assert pen >= 0.0;
    assert p.mu * pen >= 0.0;
    if p.mu > 0.0 && p.mu * pen == 0.0 {
      assert pen == 0.0;
    }
  }

  /** Task f is served by exactly one selected resource. */
  predicate CoveredOnce(row: seq<int>, x: seq<int>)
    requires |row| == |x|
  {
    exists r :: 0 <= r < |x| && row[r] == 1 && x[r] == 1 &&
      forall r' :: 0 <= r' < |x| && row[r'] == 1 && x[r'] == 1 ==> r' == r
  }

  /** No resource is selected that serves the flight. */
  predicate Uncovered(row: seq<int>, x: seq<int>)
    requires |row| == |x|
  {
    forall r :: 0 <= r < |x| ==> !(row[r] == 1 && x[r] == 1)
  }

  /** Peeling off the first resource: no covering resource at all. */
  lemma UncoveredCons(row: seq<int>, x: seq<int>)
    requires |row| == |x| > 0
    ensures Uncovered(row, x) <==> !(row[0] == 1 && x[0] == 1) && Uncovered(row[1..], x[1..])
  {
    var row', x' := row[1..], x[1..];
    if !(row[0] == 1 && x[0] == 1) && Uncovered(row', x') {
      forall r | 0 <= r < |x| ensures !(row[r] == 1 && x[r] == 1) {
        if r > 0 { assert row[r] == row'[r - 1] && x[r] == x'[r - 1]; }
      }
    }
    if Uncovered(row, x) {
      forall k | 0 <= k < |x'| ensures !(row'[k] == 1 && x'[k] == 1) {
        assert row'[k] == row[k + 1] && x'[k] == x[k + 1];
      }
    }
  }

  /** Peeling off the first resource: exactly one covering resource. */
  lemma CoveredOnceCons(row: seq<int>, x: seq<int>)
    requires |row| == |x| > 0
    ensures CoveredOnce(row, x) <==>
      if row[0] == 1 && x[0] == 1 then Uncovered(row[1..], x[1..]) else CoveredOnce(row[1..], x[1..])
  {
    var row', x' := row[1..], x[1..];
    if CoveredOnce(row, x) {
      var r :| 0 <= r < |x| && row[r] == 1 && x[r] == 1 &&
        forall r' :: 0 <= r' < |x| && row[r'] == 1 && x[r'] == 1 ==> r' == r;
      if row[0] == 1 && x[0] == 1 {
        forall k | 0 <= k < |x'| ensures !(row'[k] == 1 && x'[k] == 1) {
          assert row'[k] == row[k + 1] && x'[k] == x[k + 1];
        }
      } else {
        forall r' | 0 <= r' < |x'| && row'[r'] == 1 && x'[r'] == 1 ensures r' == r - 1 {
          assert row[r' + 1] == 1 && x[r' + 1] == 1;
        }
        assert row'[r - 1] == 1 && x'[r - 1] == 1;
      }
    }
    if row[0] == 1 && x[0] == 1 && Uncovered(row', x') {
      forall k | 0 < k < |x| ensures !(row[k] == 1 && x[k] == 1) {
        assert row[k] == row'[k - 1] && x[k] == x'[k - 1];
      }
    }
    if !(row[0] == 1 && x[0] == 1) && CoveredOnce(row', x') {
      var r :| 0 <= r < |x'| && row'[r] == 1 && x'[r] == 1 &&
        forall r' :: 0 <= r' < |x'| && row'[r'] == 1 && x'[r'] == 1 ==> r' == r;
      forall r' | 0 <= r' < |x| && row[r'] == 1 && x[r'] == 1 ensures r' == r + 1 {
        assert r' > 0 && row'[r' - 1] == 1 && x'[r' - 1] == 1;
      }
      assert row[r + 1] == 1 && x[r + 1] == 1;
    }
  }

  /** For 0/1 data a row sum of 0 means no covering resource, and 1 exactly one. */
  lemma {:induction false} DotOfBits(row: seq<int>, x: seq<int>)
    requires |row| == |x| && IsBits(row) && IsBits(x)
    ensures Dot(row, x) >= 0
    ensures Dot(row, x) == 0 <==> Uncovered(row, x)
    ensures Dot(row, x) == 1 <==> CoveredOnce(row, x)
  {
    if row == [] {
      assert !CoveredOnce(row, x);
    } else {
      DotOfBits(row[1..], x[1..]);
      UncoveredCons(row, x);
      CoveredOnceCons(row, x);
      assert row[0] * x[0] == (if row[0] == 1 && x[0] == 1 then 1 else 0);
    }
  }

  /** A 0/1 resource matrix. */
  predicate IsIncidence(p: Problem)
  {
    forall f :: 0 <= f < |p.FR| ==> IsBits(p.FR[f])
  }

  /** For a 0/1 resource matrix, `is_solution` is the exact-cover condition:
      every task is served by exactly one selected resource. */
  lemma IsSolutionIsExactCover(p: Problem, s: string)
    requires WellFormed(p) && IsIncidence(p) && IsBinary(s) && |s| == Qubits(p)
    ensures IsSolution(p, s) <==> forall f :: 0 <= f < |p.FR| ==> CoveredOnce(p.FR[f], Assignment(s))
  {
    var x := Assignment(s);
    forall f | 0 <= f < |p.FR| ensures Coverage(p, x, f) == 1 <==> CoveredOnce(p.FR[f], x) {
      DotOfBits(p.FR[f], x);
    }
  }

  /** The end-to-end example: with FR the 2 x 2 identity, CR = [1, 1] and
      mu = 1, the string "11" selects both resources, is a solution and costs -2. */
  lemma IdentityExample()
    ensures var p := Problem([[1, 0], [0, 1]], [1, 1], 1.0);
      WellFormed(p) && IsSolution(p, "11") && Cost(p, "11") == -2.0
  {
    var p := Problem([[1, 0], [0, 1]], [1, 1], 1.0);
    var x := Assignment("11");
    assert x == [1, 1];
    assert Coverage(p, x, 0) == 1 && Coverage(p, x, 1) == 1;
  }
}
