/** Decoding of a measured outcome key: the backend reports each outcome as an
    integer, which the statistics print in binary and left-pad with zeros to R
    characters (`"{0:b}".format(n).zfill(R)`). */
module Keys {
  import opened CostModel

  function Pow2(n: nat): (r: nat)
    ensures r >= 1
  {
    if n == 0 then 1 else 2 * Pow2(n - 1)
  }

  /** `"{0:b}".format(n)`: binary digits without leading zeros, "0" for 0. */
  function Binary(n: nat): (s: string)
    ensures IsBinary(s) && |s| >= 1
    decreases n
  {
    if n < 2 then [DigitChar(n)] else Binary(n / 2) + [DigitChar(n % 2)]
  }

  /** `s.zfill(width)`: pad on the left with '0' up to `width` characters. */
  function ZFill(s: string, width: nat): (t: string)
    requires IsBinary(s)
    ensures IsBinary(t)
    ensures |t| == if |s| >= width then |s| else width
  {
    if |s| >= width then s else seq(width - |s|, _ => '0') + s
  }

  /** The string a key decodes to, for a register of `width` qubits. */
  function KeyString(n: nat, width: nat): (s: string)
    ensures IsBinary(s)
  {
    ZFill(Binary(n), width)
  }

  /** The number a binary string denotes, most significant character first. */
  function Value(s: string): nat
    requires IsBinary(s)
  {
    if s == [] then 0 else 2 * Value(s[..|s| - 1]) + Digit(s[|s| - 1])
  }

  lemma {:induction false} ValueOfBinary(n: nat)
    ensures Value(Binary(n)) == n
    decreases n
  {
    if n >= 2 {
      var s := Binary(n);
      assert s[..|s| - 1] == Binary(n / 2);
      ValueOfBinary(n / 2);
    }
  }

  /** Leading zeros do not change the value. */
  lemma {:induction false} ValueOfPadded(k: nat, s: string)
    requires IsBinary(s)
    ensures IsBinary(seq(k, _ => '0') + s) && Value(seq(k, _ => '0') + s) == Value(s)
    decreases |s|
  {
    var t := seq(k, _ => '0') + s;
    if s == [] {
      ValueOfZeros(k);
      assert t == seq(k, _ => '0');
    } else {
      assert t[..|t| - 1] == seq(k, _ => '0') + s[..|s| - 1];
      ValueOfPadded(k, s[..|s| - 1]);
    }
  }

  lemma {:induction false} ValueOfZeros(k: nat)
    ensures IsBinary(seq(k, _ => '0')) && Value(seq(k, _ => '0')) == 0
  {
    if k > 0 {
      assert seq(k, _ => '0')[..k - 1] == seq(k - 1, _ => '0');
      ValueOfZeros(k - 1);
    }
  }

  /** A number below 2^w has at most w binary digits (w >= 1). */
  lemma {:induction false} BinaryLength(n: nat, w: nat)
    requires w >= 1 && n < Pow2(w)
    ensures |Binary(n)| <= w
    decreases n
  {
    if n >= 2 {
      assert w != 1;
      BinaryLength(n / 2, w - 1);
    }
  }

  /** Decoding key n for an R-qubit register (R >= 1) gives an R-character
      binary string whose value is n. */
  lemma KeyStringRoundTrip(n: nat, width: nat)
    requires width >= 1 && n < Pow2(width)
    ensures |KeyString(n, width)| == width
    ensures Value(KeyString(n, width)) == n
  {
    BinaryLength(n, width);
    ValueOfBinary(n);
    var b := Binary(n);
    if |b| < width {
      ValueOfPadded(width - |b|, b);
    }
  }

  /** Bit r of n: `(n >> r) & 1`. */
  function Bit(n: nat, r: nat): (b: nat)
    ensures b < 2
  {
    if r == 0 then n % 2 else Bit(n / 2, r - 1)
  }

  /** Qubit r of a binary string (read through the reversal of `cost`) is
      bit r of the string's value. */
  lemma {:induction false} AssignmentBit(s: string, r: nat)
    requires IsBinary(s) && r < |s|
    ensures Assignment(s)[r] == Bit(Value(s), r)
    decreases |s|
  {
    var s' := s[..|s| - 1];
    var d := Digit(s[|s| - 1]);
    if r > 0 {
      AssignmentBit(s', r - 1);
      assert Assignment(s)[r] == Assignment(s')[r - 1];
      assert Value(s) / 2 == Value(s');
    }
  }

  /** The measured key n sets qubit r exactly when bit r of n is set: the
      string reversal of `cost` and `is_solution` undoes the most-significant-
      first printing of the key. */
  lemma KeyQubit(n: nat, width: nat, r: nat)
    requires width >= 1 && n < Pow2(width) && r < width
    ensures |KeyString(n, width)| == width
    ensures Assignment(KeyString(n, width))[r] == Bit(n, r)
  {
    KeyStringRoundTrip(n, width);
    AssignmentBit(KeyString(n, width), r);
  }
}
