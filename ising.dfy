/** The Ising form of the tail-assignment objective. A basis state z gives
    every qubit r a bit x_r (1 when the qubit is 1) and a spin
    s_r = 1 - 2 x_r. Written in spins, the objective
    -(CR @ x + mu * sum((1 - FR @ x)**2)) is a constant plus a field term
    sum_r h_r s_r plus a coupling term sum_{r < t} J_rt s_r s_t; this module
    computes h and J and compares them with the fields and couplings the
    phase separators use. All sums are exact integer sums; the reals only
    enter through CR, mu and the factor one half. */
module Ising {
  import opened CostModel
  import opened Gates
  import opened PhaseSemantics

  // ---------------------------------------------------------------------
  // Spins and bits of a basis state

  /** v times the spin of a qubit in state b. */
  function SignedInt(v: int, b: bool): int
  {
    if b then -v else v
  }

  /** The product of two spins is the spin of b1 != b2. */
  lemma {:induction false} SignedIntProduct(u: int, v: int, b1: bool, b2: bool)
    ensures SignedInt(u * v, b1 != b2) == SignedInt(u, b1) * SignedInt(v, b2)
  {
  }

  /** A spin squared is one. */
  lemma {:induction false} SignedIntSquare(u: int, b: bool)
    ensures SignedInt(u, b) * SignedInt(u, b) == u * u
  {
  }

  lemma {:induction false} SignedIntLinear(u: int, v: int, c: int, b: bool)
    ensures SignedInt(u + c * v, b) == SignedInt(u, b) + c * SignedInt(v, b)
  {
    if b {
      assert -(u + c * v) == -u + c * (-v);
    }
  }

  /** The assignment vector x of a basis state. */
  function Bits(z: seq<bool>): (x: seq<int>)
    ensures |x| == |z| && IsBits(x)
    ensures forall r :: 0 <= r < |z| ==> (x[r] == 1 <==> z[r])
  {
    seq(|z|, r requires 0 <= r < |z| => if z[r] then 1 else 0)
  }

  /** `sum_{r < n} v[r] s_r`. */
  function Lin(v: seq<int>, z: seq<bool>, n: nat): int
    requires n <= |v| && n <= |z|
  {
    if n == 0 then 0 else Lin(v, z, n - 1) + SignedInt(v[n - 1], z[n - 1])
  }

  /** `sum_{i < n} u[i] v[i]`: the dot product accumulated front to back. */
  function DotUpTo(u: seq<int>, v: seq<int>, n: nat): int
    requires n <= |u| && n <= |v|
  {
    if n == 0 then 0 else DotUpTo(u, v, n - 1) + u[n - 1] * v[n - 1]
  }

  function SumUpTo(u: seq<int>, n: nat): int
    requires n <= |u|
  {
    if n == 0 then 0 else SumUpTo(u, n - 1) + u[n - 1]
  }

  lemma {:induction false} DotUpToTail(u: seq<int>, v: seq<int>, n: nat)
    requires 1 <= n <= |u| && n <= |v|
    ensures DotUpTo(u, v, n) == u[0] * v[0] + DotUpTo(u[1..], v[1..], n - 1)
  {
    if n > 1 {
      DotUpToTail(u, v, n - 1);
    }
  }

  /** The dot product `u @ v` summed in the other order. */
  lemma {:induction false} DotIsDotUpTo(u: seq<int>, v: seq<int>)
    requires |u| == |v|
    ensures Dot(u, v) == DotUpTo(u, v, |u|)
    decreases |u|
  {
    if u != [] {
      DotIsDotUpTo(u[1..], v[1..]);
      DotUpToTail(u, v, |u|);
    }
  }

  lemma {:induction false} SumUpToTail(u: seq<int>, n: nat)
    requires 1 <= n <= |u|
    ensures SumUpTo(u, n) == u[0] + SumUpTo(u[1..], n - 1)
  {
    if n > 1 {
      SumUpToTail(u, n - 1);
    }
  }

  lemma {:induction false} SumIsSumUpTo(u: seq<int>)
    ensures Sum(u) == SumUpTo(u, |u|)
    decreases |u|
  {
    if u != [] {
      SumIsSumUpTo(u[1..]);
      SumUpToTail(u, |u|);
    }
  }

  lemma {:induction false} BitsAndSpinsUpTo(u: seq<int>, z: seq<bool>, n: nat)
    requires n <= |u| == |z|
    ensures 2 * DotUpTo(u, Bits(z), n) == SumUpTo(u, n) - Lin(u, z, n)
  {
    if n > 0 {
      BitsAndSpinsUpTo(u, z, n - 1);
    }
  }

  /** With x = (1 - s) / 2: `2 (u @ x) == sum(u) - sum_r u_r s_r`. */
  lemma {:induction false} BitsAndSpins(u: seq<int>, z: seq<bool>)
    requires |u| == |z|
    ensures 2 * Dot(u, Bits(z)) == Sum(u) - Lin(u, z, |u|)
  {
    BitsAndSpinsUpTo(u, z, |u|);
    DotIsDotUpTo(u, Bits(z));
    SumIsSumUpTo(u);
  }

  /** The spin sum is linear in the weights. */
  lemma {:induction false} LinCombine(u: seq<int>, v: seq<int>, w: seq<int>, c: int, z: seq<bool>, n: nat)
    requires n <= |u| && n <= |v| && n <= |w| && n <= |z|
    requires forall r :: 0 <= r < n ==> w[r] == u[r] + c * v[r]
    ensures Lin(w, z, n) == Lin(u, z, n) + c * Lin(v, z, n)
  {
    if n > 0 {
      LinCombine(u, v, w, c, z, n - 1);
      SignedIntLinear(u[n - 1], v[n - 1], c, z[n - 1]);
    }
  }

  lemma {:induction false} LinZero(v: seq<int>, z: seq<bool>, n: nat)
    requires n <= |v| && n <= |z|
    requires forall r :: 0 <= r < n ==> v[r] == 0
    ensures Lin(v, z, n) == 0
  {
    if n > 0 {
      LinZero(v, z, n - 1);
    }
  }

  // ---------------------------------------------------------------------
  // Pair sums sum_{r < t} G[r][t] s_r s_t

  /** `sum_{r < t < m} G[r][t] s_r s_t`. */
  function CouplingInt(G: seq<seq<int>>, z: seq<bool>, r: nat, m: nat): int
    requires IsSquare(G) && r < m <= |G| == |z|
    decreases m
  {
    if m == r + 1 then 0
    else CouplingInt(G, z, r, m - 1) + SignedInt(G[r][m - 1], z[r] != z[m - 1])
  }

  /** `sum_{r < n, r < t} G[r][t] s_r s_t`. */
  function PairInt(G: seq<seq<int>>, z: seq<bool>, n: nat): int
    requires IsSquare(G) && |G| == |z| && n <= |G|
  {
    if n == 0 then 0 else PairInt(G, z, n - 1) + CouplingInt(G, z, n - 1, |G|)
  }

  lemma {:induction false} CouplingAdd(G: seq<seq<int>>, H: seq<seq<int>>, S: seq<seq<int>>, z: seq<bool>, r: nat, m: nat)
    requires IsSquare(G) && IsSquare(H) && IsSquare(S) && |G| == |H| == |S| == |z| && r < m <= |G|
    requires forall t :: r < t < m ==> S[r][t] == G[r][t] + H[r][t]
    ensures CouplingInt(S, z, r, m) == CouplingInt(G, z, r, m) + CouplingInt(H, z, r, m)
    decreases m
  {
    if m > r + 1 {
      CouplingAdd(G, H, S, z, r, m - 1);
      SignedIntLinear(G[r][m - 1], H[r][m - 1], 1, z[r] != z[m - 1]);
    }
  }

  /** The pair sum is additive in the table. */
  lemma {:induction false} PairAdd(G: seq<seq<int>>, H: seq<seq<int>>, S: seq<seq<int>>, z: seq<bool>, n: nat)
    requires IsSquare(G) && IsSquare(H) && IsSquare(S) && |G| == |H| == |S| == |z| && n <= |G|
    requires forall r, t :: 0 <= r < t < |G| ==> S[r][t] == G[r][t] + H[r][t]
    ensures PairInt(S, z, n) == PairInt(G, z, n) + PairInt(H, z, n)
  {
    if n > 0 {
      PairAdd(G, H, S, z, n - 1);
      CouplingAdd(G, H, S, z, n - 1, |G|);
    }
  }

  lemma {:induction false} CouplingZero(G: seq<seq<int>>, z: seq<bool>, r: nat, m: nat)
    requires IsSquare(G) && r < m <= |G| == |z|
    requires forall t :: r < t < m ==> G[r][t] == 0
    ensures CouplingInt(G, z, r, m) == 0
    decreases m
  {
    if m > r + 1 {
      CouplingZero(G, z, r, m - 1);
    }
  }

  lemma {:induction false} PairZero(G: seq<seq<int>>, z: seq<bool>, n: nat)
    requires IsSquare(G) && |G| == |z| && n <= |G|
    requires forall r, t :: 0 <= r < t < |G| ==> G[r][t] == 0
    ensures PairInt(G, z, n) == 0
  {
    if n > 0 {
      PairZero(G, z, n - 1);
      CouplingZero(G, z, n - 1, |G|);
    }
  }

  /** The table `row[r] * row[t]` of one row of FR. */
  function Outer(row: seq<int>): (G: seq<seq<int>>)
    ensures |G| == |row| && IsSquare(G)
    ensures forall r, t :: 0 <= r < |row| && 0 <= t < |row| ==> G[r][t] == row[r] * row[t]
  {
    seq(|row|, r requires 0 <= r < |row| => seq(|row|, t requires 0 <= t < |row| => row[r] * row[t]))
  }

  lemma {:induction false} FactorStep(a: int, b: int, prev: int, l0: int, lr: int, c: int)
    requires prev == a * (l0 - lr) && c == a * b
    ensures prev + c == a * ((l0 + b) - lr)
  {
  }

  /** The couplings of qubit r in an outer product factor through the spin sum. */
  lemma {:induction false} CouplingOuter(row: seq<int>, z: seq<bool>, r: nat, m: nat)
    requires r < m <= |row| == |z|
    ensures CouplingInt(Outer(row), z, r, m) == SignedInt(row[r], z[r]) * (Lin(row, z, m) - Lin(row, z, r + 1))
    decreases m
  {
    if m > r + 1 {
      CouplingOuter(row, z, r, m - 1);
      var t := m - 1;
      SignedIntProduct(row[r], row[t], z[r], z[t]);
      FactorStep(SignedInt(row[r], z[r]), SignedInt(row[t], z[t]), CouplingInt(Outer(row), z, r, t),
        Lin(row, z, t), Lin(row, z, r + 1), SignedInt(row[r] * row[t], z[r] != z[t]));
    }
  }

  lemma {:induction false} PrefixSquareStep(a: int, u: int, p0: int, s0: int, q0: int, sq: int, c: int)
    requires 2 * q0 == 2 * (p0 * u) - p0 * p0 - s0
    requires a * a == sq && c == a * (u - (p0 + a))
    ensures 2 * (q0 + c) == 2 * ((p0 + a) * u) - (p0 + a) * (p0 + a) - (s0 + sq)
  {
  }

  /** With P(n) the spin sum of the first n weights and u the whole spin
      sum: `2 sum_{r < n, r < t} a_r a_t == 2 P(n) u - P(n)^2 - sum_{r < n} row_r^2`. */
  lemma {:induction false} PairOuterUpTo(row: seq<int>, z: seq<bool>, n: nat)
    requires n <= |row| == |z|
    ensures 2 * PairInt(Outer(row), z, n)
      == 2 * (Lin(row, z, n) * Lin(row, z, |row|)) - Lin(row, z, n) * Lin(row, z, n) - DotUpTo(row, row, n)
  {
    if n > 0 {
      var r := n - 1;
      PairOuterUpTo(row, z, r);
      CouplingOuter(row, z, r, |row|);
      var a := SignedInt(row[r], z[r]);
      SignedIntSquare(row[r], z[r]);
      PrefixSquareStep(a, Lin(row, z, |row|), Lin(row, z, r), DotUpTo(row, row, r), PairInt(Outer(row), z, r),
        row[r] * row[r], CouplingInt(Outer(row), z, r, |row|));
    }
  }

  /** `(sum_r a_r s_r)^2 == sum_r a_r^2 + 2 sum_{r < t} a_r a_t s_r s_t`. */
  lemma {:induction false} SquareOfLin(row: seq<int>, z: seq<bool>)
    requires |row| == |z|
    ensures Lin(row, z, |row|) * Lin(row, z, |row|) == DotUpTo(row, row, |row|) + 2 * PairInt(Outer(row), z, |row|)
  {
    PairOuterUpTo(row, z, |row|);
    var u := Lin(row, z, |row|);
    WholePrefix(u * u, PairInt(Outer(row), z, |row|), DotUpTo(row, row, |row|));
  }

  lemma {:induction false} WholePrefix(uu: int, q: int, s: int)
    requires 2 * q == 2 * uu - uu - s
    ensures uu == s + 2 * q
  {
  }

  // ---------------------------------------------------------------------
  // The penalty in spins, row by row

  /** Per qubit r, `sum_{f < n} FR[f][r] * (sum(FR[f]) - 2)`. */
  function ExcoUpTo(p: Problem, n: nat): (v: seq<int>)
    requires WellFormed(p) && n <= |p.FR|
    ensures |v| == Qubits(p)
    ensures forall r :: 0 <= r < Qubits(p) ==> v[r] == DotUpTo(Column(p, r), RowSumsLessTwo(p), n)
  {
    seq(Qubits(p), r requires 0 <= r < Qubits(p) => DotUpTo(Column(p, r), RowSumsLessTwo(p), n))
  }

  /** Per pair of qubits, `sum_{f < n} FR[f][r] * FR[f][t]`. */
  function GramUpTo(p: Problem, n: nat): (G: seq<seq<int>>)
    requires WellFormed(p) && n <= |p.FR|
    ensures |G| == Qubits(p) && IsSquare(G)
    ensures forall r, t :: 0 <= r < Qubits(p) && 0 <= t < Qubits(p) ==> G[r][t] == DotUpTo(Column(p, r), Column(p, t), n)
  {
    seq(Qubits(p), r requires 0 <= r < Qubits(p) =>
      seq(Qubits(p), t requires 0 <= t < Qubits(p) => DotUpTo(Column(p, r), Column(p, t), n)))
  }

  /** Row f's share of four times the constant part of the penalty:
      `(sum(FR[f]) - 2)^2 + sum_r FR[f][r]^2`. */
  function RowConstant(p: Problem, f: nat): int
    requires WellFormed(p) && f < |p.FR|
  {
    var row := p.FR[f];
    (Sum(row) - 2) * (Sum(row) - 2) + DotUpTo(row, row, |row|)
  }

  /** Row f's share of the exact-cover field term: `(sum(FR[f]) - 2) * sum_r FR[f][r] s_r`. */
  function RowField(p: Problem, z: seq<bool>, f: nat): int
    requires WellFormed(p) && |z| == Qubits(p) && f < |p.FR|
  {
    (Sum(p.FR[f]) - 2) * Lin(p.FR[f], z, |z|)
  }

  /** The constant part of four times the penalty of the rows f < n. */
  function Squares(p: Problem, n: nat): int
    requires WellFormed(p) && n <= |p.FR|
  {
    if n == 0 then 0 else Squares(p, n - 1) + RowConstant(p, n - 1)
  }

  lemma {:induction false} RowArith(c: int, a: int, w: int, sq: int, po: int, k: int, e: int)
    requires 2 * c == a - w && w * w == sq + 2 * po
    requires k == (a - 2) * (a - 2) + sq && e == (a - 2) * w
    ensures 4 * ((1 - c) * (1 - c)) == k - 2 * e + 2 * po
  {
    var d := 2 - 2 * c;
    assert d == w - (a - 2);
    assert 4 * ((1 - c) * (1 - c)) == d * d;
    assert d * d == w * w - 2 * ((a - 2) * w) + (a - 2) * (a - 2);
  }

  /** One row of the penalty in spins: with w the spin sum of the row,
      `4 (1 - FR[f] @ x)^2 == (sum(FR[f]) - 2 - w)^2`, expanded. */
  lemma {:induction false} RowInSpins(p: Problem, z: seq<bool>, f: nat)
    requires WellFormed(p) && |z| == Qubits(p) && f < |p.FR|
    ensures var c := Coverage(p, Bits(z), f);
      4 * ((1 - c) * (1 - c)) == RowConstant(p, f) - 2 * RowField(p, z, f) + 2 * PairInt(Outer(p.FR[f]), z, |z|)
  {
    var row := p.FR[f];
    var c, a, w := Coverage(p, Bits(z), f), Sum(row), Lin(row, z, |z|);
    assert 2 * c == a - w by {
      BitsAndSpins(row, z);
    }
    var sq, po := DotUpTo(row, row, |row|), PairInt(Outer(row), z, |z|);
    assert w * w == sq + 2 * po by {
      SquareOfLin(row, z);
    }
    var k, e := RowConstant(p, f), RowField(p, z, f);
    assert k == (a - 2) * (a - 2) + sq;
    assert e == (a - 2) * w;
    RowArith(c, a, w, sq, po, k, e);
  }

  lemma {:induction false} ExcoStep(p: Problem, n: nat, z: seq<bool>)
    requires WellFormed(p) && 0 < n <= |p.FR| && |z| == Qubits(p)
    ensures Lin(ExcoUpTo(p, n), z, |z|) == Lin(ExcoUpTo(p, n - 1), z, |z|) + RowField(p, z, n - 1)
  {
    var row := p.FR[n - 1];
    var u, w := ExcoUpTo(p, n - 1), ExcoUpTo(p, n);
    var b := Sum(row) - 2;
    assert RowSumsLessTwo(p)[n - 1] == b;
    forall r | 0 <= r < |z| ensures w[r] == u[r] + b * row[r] {
      var col := Column(p, r);
      assert col[n - 1] == row[r];
      assert DotUpTo(col, RowSumsLessTwo(p), n) == DotUpTo(col, RowSumsLessTwo(p), n - 1) + row[r] * b;
    }
    LinCombine(u, row, w, b, z, |z|);
  }

  lemma {:induction false} GramStep(p: Problem, n: nat, z: seq<bool>)
    requires WellFormed(p) && 0 < n <= |p.FR| && |z| == Qubits(p)
    ensures PairInt(GramUpTo(p, n), z, |z|) == PairInt(GramUpTo(p, n - 1), z, |z|) + PairInt(Outer(p.FR[n - 1]), z, |z|)
  {
    var row := p.FR[n - 1];
    var G, S := GramUpTo(p, n - 1), GramUpTo(p, n);
    forall r, t | 0 <= r < t < |z| ensures S[r][t] == G[r][t] + Outer(row)[r][t] {
      assert Column(p, r)[n - 1] == row[r] && Column(p, t)[n - 1] == row[t];
    }
    PairAdd(G, Outer(row), S, z, |z|);
  }

  lemma {:induction false} PenaltyCombine(pen': int, pen: int, sqc: int, k': int, k: int, rc: int,
                       l': int, l: int, rf: int, q': int, q: int, po: int)
    requires pen' == pen + sqc && 4 * sqc == rc - 2 * rf + 2 * po
    requires 4 * pen == k - 2 * l + 2 * q && k' == k + rc && l' == l + rf && q' == q + po
    ensures 4 * pen' == k' - 2 * l' + 2 * q'
  {
  }

  /** Four times the penalty of the rows f < n, in spins: the constant
      Squares, minus twice the spin sum of the exact-cover field weights,
      plus twice the pair sum of the overlaps of the columns. */
  lemma {:induction false} PenaltyInSpins(p: Problem, z: seq<bool>, n: nat)
    requires WellFormed(p) && |z| == Qubits(p) && n <= |p.FR|
    ensures 4 * Penalty(p, Bits(z), n)
      == Squares(p, n) - 2 * Lin(ExcoUpTo(p, n), z, |z|) + 2 * PairInt(GramUpTo(p, n), z, |z|)
  {
    if n == 0 {
      LinZero(ExcoUpTo(p, 0), z, |z|);
      PairZero(GramUpTo(p, 0), z, |z|);
    } else {
      var x := Bits(z);
      var c := Coverage(p, x, n - 1);
      var pen, pen', sqc := Penalty(p, x, n - 1), Penalty(p, x, n), (1 - c) * (1 - c);
      assert pen' == pen + sqc;
      var rc, rf, po := RowConstant(p, n - 1), RowField(p, z, n - 1), PairInt(Outer(p.FR[n - 1]), z, |z|);
      assert 4 * sqc == rc - 2 * rf + 2 * po by {
        RowInSpins(p, z, n - 1);
      }
      var k, l, q := Squares(p, n - 1), Lin(ExcoUpTo(p, n - 1), z, |z|), PairInt(GramUpTo(p, n - 1), z, |z|);
      assert 4 * pen == k - 2 * l + 2 * q by {
        PenaltyInSpins(p, z, n - 1);
      }
      var l' := Lin(ExcoUpTo(p, n), z, |z|);
      assert l' == l + rf by {
        ExcoStep(p, n, z);
      }
      var q' := PairInt(GramUpTo(p, n), z, |z|);
      assert q' == q + po by {
        GramStep(p, n, z);
      }
      PenaltyCombine(pen', pen, sqc, Squares(p, n), k, rc, l', l, rf, q', q, po);
    }
  }
}
