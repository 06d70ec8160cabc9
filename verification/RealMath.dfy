/** Real arithmetic shared by the privacy and optimisation modules. */
module RealMath {

  /** x multiplied by itself n times. */
  function Pow(x: real, n: nat): real {
    if n == 0 then 1.0 else x * Pow(x, n - 1)
  }

  /** A base of at least one grows with the exponent. */
  lemma {:induction false} PowGrowsWithExponent(x: real, m: nat, n: nat)
    requires x >= 1.0 && m <= n
    ensures 1.0 <= Pow(x, m) <= Pow(x, n)
  {
    if m == 0 {
      if n > 0 {
        PowGrowsWithExponent(x, 0, n - 1);
        MulMono(1.0, x, Pow(x, n - 1), Pow(x, n - 1));
      }
    } else {
      PowGrowsWithExponent(x, m - 1, n - 1);
      MulMono(x, x, Pow(x, m - 1), Pow(x, n - 1));
      MulMono(1.0, x, 1.0, Pow(x, m - 1));
    }
  }

  lemma {:induction false} PowGrowsWithBase(x: real, y: real, n: nat)
    requires 0.0 <= x <= y
    ensures 0.0 <= Pow(x, n) <= Pow(y, n)
  {
    if n > 0 {
      PowGrowsWithBase(x, y, n - 1);
      MulMono(x, y, Pow(x, n - 1), Pow(y, n - 1));
    }
  }

  lemma {:induction false} PowPositive(x: real, n: nat)
    requires x > 0.0
    ensures Pow(x, n) > 0.0
  {
    if n > 0 {
      PowPositive(x, n - 1);
      MulPositive(x, Pow(x, n - 1), Pow(x, n));
    }
  }

  lemma {:induction false} PowStrict(x: real, y: real, n: nat)
    requires 0.0 < x < y && n > 0
    ensures Pow(x, n) < Pow(y, n)
  {
    PowPositive(x, n - 1);
    PowGrowsWithBase(x, y, n - 1);
    var p, q := Pow(x, n - 1), Pow(y, n - 1);
    MulPositive(y - x, p, (y - x) * p);
    MulMono(0.0, y, 0.0, q - p);
    assert y * q - x * p == (y - x) * p + y * (q - p);
  }

  /** A product under a name, so that linear reasoning can treat it as one quantity. */
  function Mul(x: real, y: real): real { x * y }

  lemma MulAdd(x: real, y: real, z: real)
    ensures Mul(x + y, z) == Mul(x, z) + Mul(y, z)
  {}

  lemma MulZero(x: real)
    ensures Mul(0.0, x) == 0.0
  {}

  lemma MulGrows(x: real, y: real, z: real)
    requires x >= 0.0 && y <= z
    ensures Mul(x, y) <= Mul(x, z)
  {
    MulMono(0.0, x, 0.0, z - y);
    assert Mul(x, z) - Mul(x, y) == x * (z - y);
  }

  lemma MulAssoc(a: real, b: real, c: real)
    ensures (a * b) * c == a * (b * c)
  {}

  lemma MulMono(a: real, b: real, c: real, d: real)
    requires 0.0 <= a <= b && 0.0 <= c <= d
    ensures 0.0 <= a * c <= b * d
  {
    assert a * c <= b * c;
    assert b * c <= b * d;
  }

  function Abs(x: real): real { if x < 0.0 then -x else x }

  lemma DivMono(x: real, y: real, d: real)
    requires x <= y && d > 0.0
    ensures x / d <= y / d && (x / d == y / d <==> x == y)
  {
    assert y / d - x / d == (y - x) / d;
  }

  lemma MulPositive(a: real, b: real, p: real)
    requires a > 0.0 && b > 0.0 && p == a * b
    ensures p > 0.0
  {}

  lemma SquarePositive(x: real, p: real)
    requires x != 0.0 && p == x * x
    ensures p > 0.0
  {
    if x > 0.0 { MulPositive(x, x, p); } else { MulPositive(-x, -x, p); }
  }

  lemma RootMono(d: real, e: real)
    requires e >= 0.0 && d * d <= e * e
    ensures -e <= d <= e
  {
    var p := d * d - e * e;
    if d > e { MulPositive(d - e, d + e, p); }
    if d < -e { MulPositive(-d - e, e - d, p); }
  }

  /** The sum of a sequence of reals. */
  function Sum(s: seq<real>): real {
    if s == [] then 0.0 else s[0] + Sum(s[1..])
  }

  lemma {:induction false} SumSnoc(s: seq<real>, x: real)
    ensures Sum(s + [x]) == Sum(s) + x
  {
    if s == [] {
      assert [x][1..] == [] && [] + [x] == [x];
    } else {
      assert (s + [x])[1..] == s[1..] + [x] && (s + [x])[0] == s[0];
      SumSnoc(s[1..], x);
    }
  }

  /** Real functions the code takes from its mathematics library. */
  datatype RealFns = RealFns(exp: real -> real, log: real -> real, sqrt: real -> real)

  /** Written out so that a quantifier can hang on it. */
  function Total(x: real, y: real): real { x + y }

  /** What the model assumes of them: exp turns sums into products and increases, log is its inverse,
      sqrt returns the non-negative root. */
  ghost predicate Standard(m: RealFns) {
    && m.exp(0.0) == 1.0
    && (forall x, y {:trigger Total(x, y)} :: m.exp(Total(x, y)) == m.exp(x) * m.exp(y))
    && (forall x, y {:trigger Total(x, y)} :: x < y ==> m.exp(x) < m.exp(y))
    && (forall x {:trigger m.exp(x)} :: m.exp(x) > 0.0 && m.log(m.exp(x)) == x)
    && (forall y {:trigger m.log(y)} :: y > 0.0 ==> m.exp(m.log(y)) == y)
    && (forall x {:trigger m.sqrt(x)} :: x >= 0.0 ==> m.sqrt(x) >= 0.0 && m.sqrt(x) * m.sqrt(x) == x)
  }

  lemma ExpAdd(m: RealFns, x: real, y: real)
    requires Standard(m)
    ensures m.exp(x + y) == m.exp(x) * m.exp(y)
  {
    assert Total(x, y) == x + y;
  }

  lemma ExpMono(m: RealFns, x: real, y: real)
    requires Standard(m) && x <= y
    ensures m.exp(x) <= m.exp(y)
  {
    assert Total(x, y) == x + y;
  }

  lemma LogMono(m: RealFns, x: real, y: real)
    requires Standard(m) && 0.0 < x <= y
    ensures m.log(x) <= m.log(y)
  {
    var trigger := Total(m.log(y), m.log(x));
    assert m.log(y) < m.log(x) ==> m.exp(m.log(y)) < m.exp(m.log(x));
  }

  lemma LogOne(m: RealFns)
    requires Standard(m)
    ensures m.log(1.0) == 0.0
  {
    assert m.exp(0.0) == 1.0;
  }

  function Scaled(n: nat, x: real): real { n as real * x }

  /** exp of an n-fold sum is an n-fold product. */
  lemma {:induction false} ExpScaled(m: RealFns, n: nat, x: real)
    requires Standard(m)
    ensures m.exp(Scaled(n, x)) == Pow(m.exp(x), n)
  {
    if n == 0 {
      assert Scaled(n, x) == 0.0;
    } else {
      ExpScaled(m, n - 1, x);
      assert Scaled(n, x) == x + Scaled(n - 1, x);
      ExpAdd(m, x, Scaled(n - 1, x));
    }
  }
}
