/**
 * The C# primitives the DFU library relies on, at the value level: the
 * 32-bit `int` with its unchecked wrap-around, the unsigned `byte`, and the
 * decimal text that `int.ToString()` produces (as string concatenation with
 * an `int` does), together with the parser that inverts it.
 */
module CSharp {

  const Int32Min: int := -0x8000_0000
  const Int32Max: int := 0x7FFF_FFFF

  /** A C# `int`. */
  type Int32 = x: int | Int32Min <= x <= Int32Max

  /** A C# `byte` (unsigned). */
  type Byte = x: int | 0 <= x < 0x100

  datatype Option<T> = None | Some(value: T)

  function Min(a: int, b: int): int { if a <= b then a else b }

  /**
   * The result of an unchecked C# `int` operation whose exact value is `x`:
   * `x` itself when it fits, otherwise `x` moved by 2^32 into range (stated
   * for the values one addition or doubling of two `int`s can produce).
   */
  function Wrap32(x: int): (r: Int32)
    ensures Int32Min <= x <= Int32Max ==> r == x
    ensures Int32Max < x <= Int32Max + 0x1_0000_0000 ==> r == x - 0x1_0000_0000
    ensures Int32Min - 0x1_0000_0000 <= x < Int32Min ==> r == x + 0x1_0000_0000
  {
    var m := x % 0x1_0000_0000;
    if m <= Int32Max then m else m - 0x1_0000_0000
  }

  // ---------------------------------------------------------------------
  // Bitwise operators on non-negative ints, one bit at a time

  function Pow2(k: nat): (r: nat)
    ensures r >= 1
  {
    if k == 0 then 1 else 2 * Pow2(k - 1)
  }

  /** `a | b` for non-negative C# ints. */
  function BitOr(a: nat, b: nat): (r: nat)
    ensures a <= r && b <= r && r <= a + b
  {
    if a == 0 then b
    else if b == 0 then a
    else 2 * BitOr(a / 2, b / 2) + (if a % 2 == 1 || b % 2 == 1 then 1 else 0)
  }

  /** `a & b` for non-negative C# ints. */
  function BitAnd(a: nat, b: nat): (r: nat)
    ensures r <= a && r <= b
  {
    if a == 0 || b == 0 then 0
    else 2 * BitAnd(a / 2, b / 2) + (if a % 2 == 1 && b % 2 == 1 then 1 else 0)
  }

  /**
   * Whether bit `k` is set in the two's-complement form of `x`. For a positive
   * divisor Dafny's `/` rounds toward negative infinity, which is the
   * arithmetic right shift `x >> k`, so this is right for negative `x` too.
   */
  predicate HasBit(x: int, k: nat)
  {
    (x / Pow2(k)) % 2 == 1
  }

  lemma Pow2Values()
    ensures Pow2(0) == 1 && Pow2(1) == 2 && Pow2(2) == 4
    ensures Pow2(12) == 0x1000 && Pow2(13) == 0x2000 && Pow2(14) == 0x4000 && Pow2(15) == 0x8000
  {
    assert Pow2(4) == 16;
    assert Pow2(8) == 256;
    assert Pow2(11) == 0x800;
  }

  /** OR with a single bit above every bit of `x` is addition. */
  lemma {:induction false} OrHighBit(k: nat, x: nat)
    requires x < Pow2(k)
    ensures BitOr(Pow2(k), x) == Pow2(k) + x
  {
    if k > 0 && x > 0 {
      OrHighBit(k - 1, x / 2);
    }
  }

  /** Two different single bits have nothing in common. */
  lemma {:induction false} AndDistinctBits(i: nat, j: nat)
    requires i != j
    ensures BitAnd(Pow2(i), Pow2(j)) == 0
  {
    if i > 0 && j > 0 {
      AndDistinctBits(i - 1, j - 1);
    }
  }

  /** `Pow2(k) & x` is `Pow2(k)` exactly when bit k of `x` is set, and 0 otherwise. */
  lemma {:induction false} AndSingleBit(k: nat, x: nat)
    ensures BitAnd(Pow2(k), x) == if HasBit(x, k) then Pow2(k) else 0
  {
    if x == 0 {
      assert x / Pow2(k) == 0;
    } else if k == 0 {
      assert BitAnd(1, x) == 2 * BitAnd(0, x / 2) + (if x % 2 == 1 then 1 else 0);
    } else {
      var p := Pow2(k - 1);
      assert Pow2(k) == 2 * p;
      assert BitAnd(Pow2(k), x) == 2 * BitAnd(p, x / 2) by {
        assert Pow2(k) / 2 == p && Pow2(k) % 2 == 0;
      }
      AndSingleBit(k - 1, x / 2);
      HalveDivide(x, p);
    }
  }

  /** `(x / 2) / p == x / (2 * p)`: shifting by one and then by k is shifting by k + 1. */
  lemma HalveDivide(x: int, p: int)
    requires p > 0
    ensures (x / 2) / p == x / (2 * p)
  {
    var q, r := (x / 2) / p, (x / 2) % p;
    assert x == q * (2 * p) + (2 * r + x % 2);
    DivUnique(x, 2 * p, q, 2 * r + x % 2);
  }

  /**
   * `x & ~(1 << k)` when bit k of `x` is set, for any int `x`: subtracting
   * 2^k keeps the bits below k, clears bit k and keeps the bits above it.
   */
  lemma ClearBit(x: int, k: nat)
    requires HasBit(x, k)
    ensures (x - Pow2(k)) % Pow2(k) == x % Pow2(k)
    ensures (x - Pow2(k)) / Pow2(k) / 2 == x / Pow2(k) / 2
    ensures !HasBit(x - Pow2(k), k)
  {
    var p, q, r := Pow2(k), x / Pow2(k), x % Pow2(k);
    assert x - p == (q - 1) * p + r;
    DivUnique(x - p, p, q - 1, r);
  }

  lemma DivUnique(n: int, d: int, q: int, r: int)
    requires d > 0 && 0 <= r < d && n == q * d + r
    ensures n / d == q
  {
    var q', r' := n / d, n % d;
    assert q' * d + r' == q * d + r;
    if q' > q {
      assert (q' - q) * d == q' * d - q * d;
      MulAtLeast(q' - q, d);
    } else if q' < q {
      assert (q - q') * d == q * d - q' * d;
      MulAtLeast(q - q', d);
    }
  }

  lemma MulAtLeast(a: int, d: int)
    requires a >= 1 && d > 0
    ensures a * d >= d
  {
  }

  // ---------------------------------------------------------------------
  // Decimal text of an int, as int.ToString() writes it

  /** The character of decimal digit `d`. */
  function DigitChar(d: int): char
    requires 0 <= d < 10
  {
    ('0' as int + d) as char
  }

  predicate IsDigit(c: char) { '0' <= c <= '9' }

  function DigitValue(c: char): int
    requires IsDigit(c)
  {
    c as int - '0' as int
  }

  /** Decimal digits of a natural number, most significant first, no leading zero. */
  function NatDecimal(n: nat): (s: string)
    decreases n
  {
    if n < 10 then [DigitChar(n)] else NatDecimal(n / 10) + [DigitChar(n % 10)]
  }

  /** `n.ToString()` for a C# int: a minus sign for negatives, then the digits. */
  function Decimal(n: int): string
  {
    if n < 0 then "-" + NatDecimal(-n) else NatDecimal(n)
  }

  /** The value of a string of decimal digits (0 for the empty string). */
  function DigitsValue(s: string): nat
    requires forall i :: 0 <= i < |s| ==> IsDigit(s[i])
  {
    if s == [] then 0 else 10 * DigitsValue(s[..|s| - 1]) + DigitValue(s[|s| - 1])
  }

  /** Parses the text `Decimal` writes; `None` for anything else. */
  function DecimalValue(s: string): Option<int>
  {
    if |s| > 0 && s[0] == '-' then
      if |s| > 1 && forall i :: 1 <= i < |s| ==> IsDigit(s[i]) then Some(-(DigitsValue(s[1..]) as int)) else None
    else if |s| > 0 && forall i :: 0 <= i < |s| ==> IsDigit(s[i]) then Some(DigitsValue(s) as int)
    else None
  }

  lemma {:induction false} NatDecimalDigits(n: nat)
    ensures |NatDecimal(n)| > 0
    ensures forall i :: 0 <= i < |NatDecimal(n)| ==> IsDigit(NatDecimal(n)[i])
    ensures DigitsValue(NatDecimal(n)) == n
    decreases n
  {
    if n >= 10 {
      NatDecimalDigits(n / 10);
      var s := NatDecimal(n);
      assert s[..|s| - 1] == NatDecimal(n / 10);
    }
  }

  /** `Decimal` loses nothing: its text parses back to the same int. */
  lemma DecimalRoundTrip(n: int)
    ensures DecimalValue(Decimal(n)) == Some(n)
  {
    if n < 0 {
      NatDecimalDigits(-n);
      var s := Decimal(n);
      assert s[0] == '-' && s[1..] == NatDecimal(-n);
      assert DecimalValue(s) == Some(-(DigitsValue(s[1..]) as int));
    } else {
      NatDecimalDigits(n);
    }
  }

  /** Distinct ints have distinct decimal texts. */
  lemma DecimalInjective(a: int, b: int)
    requires Decimal(a) == Decimal(b)
    ensures a == b
  {
    DecimalRoundTrip(a);
    DecimalRoundTrip(b);
  }

  /** Every character of a decimal text is a digit or the leading minus sign. */
  lemma DecimalAlphabet(n: int)
    ensures |Decimal(n)| > 0
    ensures forall i :: 0 <= i < |Decimal(n)| ==> IsDigit(Decimal(n)[i]) || (i == 0 && n < 0 && Decimal(n)[i] == '-')
    ensures Decimal(n)[0] == '-' <==> n < 0
  {
    if n < 0 { NatDecimalDigits(-n); } else { NatDecimalDigits(n); }
  }
}
