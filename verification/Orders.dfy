/** What the orders of the three column types mean, said without the functions
    that decide them: strings by their first difference, floats by their value. */
module Orders {
  import opened Types

  // ----- strings -----

  /** The strings agree on their first `k` bytes, and there `a` ends or has the smaller byte. */
  predicate PrecedesAt(a: seq<Byte>, b: seq<Byte>, k: nat) {
    && k <= |a| && k <= |b| && a[..k] == b[..k]
    && (if k == |a| then k < |b| else k < |b| && a[k] < b[k])
  }

  ghost predicate Precedes(a: seq<Byte>, b: seq<Byte>) { exists k: nat :: PrecedesAt(a, b, k) }

  lemma PrecedesAtTail(a: seq<Byte>, b: seq<Byte>, k: nat)
    requires a != [] && b != [] && a[0] == b[0]
    ensures PrecedesAt(a, b, k + 1) <==> PrecedesAt(a[1..], b[1..], k)
  {
    if k + 1 <= |a| && k + 1 <= |b| {
      assert a[..k + 1] == [a[0]] + a[1..][..k] && b[..k + 1] == [b[0]] + b[1..][..k];
    }
  }

  /** The order of std::string_view is the lexicographic one. */
  lemma {:induction false} StrLessIsLexicographic(a: seq<Byte>, b: seq<Byte>)
    ensures StrLess(a, b) <==> Precedes(a, b)
    decreases |a|
  {
    if a == [] || b == [] || a[0] != b[0] {
      PrecedesHere(a, b);
    } else {
      StrLessIsLexicographic(a[1..], b[1..]);
      if k: nat :| PrecedesAt(a[1..], b[1..], k) { PrecedesAtTail(a, b, k); }
      if k: nat :| PrecedesAt(a, b, k) && k > 0 { PrecedesAtTail(a, b, k - 1); }
    }
  }

  lemma LaterAgreesFirst(a: seq<Byte>, b: seq<Byte>, k: nat)
    requires PrecedesAt(a, b, k) && k > 0
    ensures a != [] && b != [] && a[0] == b[0]
  {
    assert a[..k][0] == b[..k][0];
  }

  /** Without a common first byte the first position decides. */
  lemma PrecedesHere(a: seq<Byte>, b: seq<Byte>)
    requires a == [] || b == [] || a[0] != b[0]
    ensures Precedes(a, b) <==> PrecedesAt(a, b, 0)
  {
    if k: nat :| PrecedesAt(a, b, k) && k > 0 { LaterAgreesFirst(a, b, k); }
  }

  // ----- floats -----

  const MANTISSA: nat := 0x80_0000
  const INFINITE: nat := 255

  function Power2(n: nat): (p: nat)
    ensures p >= 1
  {
    if n == 0 then 1 else 2 * Power2(n - 1)
  }

  function Exponent(f: Float32): nat { f % TWO31 / MANTISSA }
  function Fraction(f: Float32): nat { f % MANTISSA }
  predicate Negative(f: Float32) { f >= TWO31 }

  /** The magnitude of a subnormal or normal number, in units of the smallest
      positive one; the infinity comes out above all of them. */
  function Units(exponent: nat, fraction: nat): int {
    if exponent == 0 then fraction else (MANTISSA + fraction) * Power2(exponent - 1)
  }

  /** The number an IEEE pattern stands for, times 2^149. */
  function Scaled(f: Float32): int { Signed(Negative(f), Units(Exponent(f), Fraction(f))) }

  function Signed(negative: bool, magnitude: int): int { if negative then -magnitude else magnitude }

  lemma {:induction false} Power2Grows(a: nat, b: nat)
    requires a <= b
    ensures 1 <= Power2(a) <= Power2(b)
  {
    if a < b { Power2Grows(a, b - 1); } else if a > 0 { Power2Grows(a - 1, a - 1); }
  }

  lemma ScaleUp(x: nat, y: nat, p: nat, q: nat)
    requires x <= y && p <= q
    ensures x * p <= y * q
  {
    var d: nat, e: nat := y - x, q - p;
    assert y * q == y * (p + e) == y * p + y * e && y * p == (x + d) * p == x * p + d * p;
  }

  lemma ScaleStrictly(x: nat, y: nat, p: nat)
    requires x < y && p >= 1
    ensures x * p < y * p
  {
    var d: nat := y - x;
    assert y * p == (x + d) * p == x * p + d * p;
    ScaleUp(1, d, p, p);
  }

  /** The units grow with the pattern. */
  lemma UnitsGrow(e: nat, m: nat, e': nat, m': nat)
    requires m < MANTISSA && m' < MANTISSA && (e < e' || (e == e' && m < m'))
    ensures Units(e, m) < Units(e', m')
  {
    Power2Grows(0, e' - (if e' > 0 then 1 else 0));
    if e == e' {
      if e > 0 {
        Power2Grows(0, e - 1);
        ScaleStrictly(MANTISSA + m, MANTISSA + m', Power2(e - 1));
      }
    } else {
      var p := Power2(e' - 1);
      ScaleUp(MANTISSA, MANTISSA + m', p, p);
      if e > 0 {
        Power2Grows(0, e - 1);
        ScaleStrictly(MANTISSA + m, 2 * MANTISSA, Power2(e - 1));
        Power2Grows(e, e' - 1);
        ScaleUp(MANTISSA, MANTISSA, Power2(e), p);
        assert 2 * MANTISSA * Power2(e - 1) == MANTISSA * Power2(e);
      } else {
        ScaleUp(MANTISSA, MANTISSA, 1, p);
      }
    }
  }

  lemma PatternParts(f: Float32)
    ensures f % TWO31 == Exponent(f) * MANTISSA + Fraction(f) && Fraction(f) < MANTISSA
  {
  }

  lemma MagnitudeOrder(a: Float32, b: Float32)
    ensures a % TWO31 < b % TWO31 <==> Units(Exponent(a), Fraction(a)) < Units(Exponent(b), Fraction(b))
    ensures a % TWO31 == b % TWO31 <==> Units(Exponent(a), Fraction(a)) == Units(Exponent(b), Fraction(b))
  {
    PatternParts(a);
    PatternParts(b);
    if a % TWO31 < b % TWO31 { UnitsGrow(Exponent(a), Fraction(a), Exponent(b), Fraction(b)); }
    if b % TWO31 < a % TWO31 { UnitsGrow(Exponent(b), Fraction(b), Exponent(a), Fraction(a)); }
  }

  lemma ZeroUnits(f: Float32)
    ensures Units(Exponent(f), Fraction(f)) == 0 <==> f % TWO31 == 0
    ensures Units(Exponent(f), Fraction(f)) >= 0
  {
    MagnitudeOrder(f, 0);
    if f % TWO31 != 0 { MagnitudeOrder(0, f); }
  }

  lemma SignedOrder(s: bool, m: int, u: int, s': bool, m': int, u': int)
    requires m >= 0 && m' >= 0 && u >= 0 && u' >= 0
    requires (m < m' <==> u < u') && (m == m' <==> u == u') && (m == 0 <==> u == 0) && (m' == 0 <==> u' == 0)
    ensures Signed(s, m) < Signed(s', m') <==> Signed(s, u) < Signed(s', u')
    ensures Signed(s, m) == Signed(s', m') <==> Signed(s, u) == Signed(s', u')
  {
  }

  lemma KeyIsSigned(f: Float32)
    ensures FloatKey(f) == Signed(Negative(f), f % TWO31)
  {
  }

  /** A pattern is a NaN exactly when its exponent is all ones and its fraction is not zero. */
  lemma NaNIsPattern(f: Float32)
    ensures IsNaN(f) <==> Exponent(f) == INFINITE && Fraction(f) != 0
  {
    PatternParts(f);
  }

  /** The order of two numbers is the order of their values; +0 and -0 are one
      value, and a NaN is neither less than nor equal to anything. */
  lemma FloatOrderIsNumeric(a: Float32, b: Float32)
    ensures FloatLess(a, b) <==> !IsNaN(a) && !IsNaN(b) && Scaled(a) < Scaled(b)
    ensures FloatEqual(a, b) <==> !IsNaN(a) && !IsNaN(b) && Scaled(a) == Scaled(b)
  {
    MagnitudeOrder(a, b);
    ZeroUnits(a);
    ZeroUnits(b);
    SignedOrder(Negative(a), a % TWO31, Units(Exponent(a), Fraction(a)),
                Negative(b), b % TWO31, Units(Exponent(b), Fraction(b)));
    KeyIsSigned(a);
    KeyIsSigned(b);
  }
}
