/** State dictionaries as flat real vectors, with the Euclidean facts clipping relies on. */
module Vectors {
  import opened RealMath

  /** The float tensors of a state dictionary, laid end to end in key order. */
  type Vec = seq<real>

  function Zero(n: nat): (v: Vec)
    ensures |v| == n
  {
    seq(n, _ => 0.0)
  }

  function Plus(a: Vec, b: Vec): (v: Vec)
    requires |a| == |b|
    ensures |v| == |a| && forall i :: 0 <= i < |v| ==> v[i] == a[i] + b[i]
  {
    seq(|a|, i requires 0 <= i < |a| => a[i] + b[i])
  }

  function Minus(a: Vec, b: Vec): (v: Vec)
    requires |a| == |b|
    ensures |v| == |a| && forall i :: 0 <= i < |v| ==> v[i] == a[i] - b[i]
  {
    seq(|a|, i requires 0 <= i < |a| => a[i] - b[i])
  }

  function Scale(k: real, a: Vec): (v: Vec)
    ensures |v| == |a| && forall i :: 0 <= i < |v| ==> v[i] == Mul(k, a[i])
  {
    seq(|a|, i requires 0 <= i < |a| => Mul(k, a[i]))
  }

  lemma PlusZero(a: Vec)
    ensures Plus(a, Zero(|a|)) == a
  {}

  function Dot(a: Vec, b: Vec): real
    requires |a| == |b|
  {
    if a == [] then 0.0 else a[0] * b[0] + Dot(a[1..], b[1..])
  }

  function NormSq(a: Vec): real { Dot(a, a) }

  lemma {:induction false} NormSqNonNegative(a: Vec)
    ensures NormSq(a) >= 0.0
    ensures NormSq(a) == 0.0 ==> forall i :: 0 <= i < |a| ==> a[i] == 0.0
  {
    if a != [] {
      NormSqNonNegative(a[1..]);
      var p := a[0] * a[0];
      if a[0] != 0.0 { SquarePositive(a[0], p); }
      assert NormSq(a) == p + NormSq(a[1..]);
      assert forall i :: 1 <= i < |a| ==> a[i] == a[1..][i - 1];
    }
  }

  lemma {:induction false} DotZero(a: Vec, b: Vec)
    requires |a| == |b| && forall i :: 0 <= i < |b| ==> b[i] == 0.0
    ensures Dot(a, b) == 0.0
  {
    if a != [] {
      assert a[0] * b[0] == 0.0;
      DotZero(a[1..], b[1..]);
    }
  }

  /** |x a + y b|^2 in terms of n = |a|^2, d = a.b and k = |b|^2. */
  function Quadratic(x: real, n: real, y: real, d: real, k: real): real {
    x * x * n + 2.0 * (x * y) * d + y * y * k
  }

  lemma {:induction false} NormSqCombination(x: real, a: Vec, y: real, b: Vec)
    requires |a| == |b|
    ensures NormSq(Plus(Scale(x, a), Scale(y, b))) == Quadratic(x, NormSq(a), y, Dot(a, b), NormSq(b))
  {
    var c := Plus(Scale(x, a), Scale(y, b));
    if a != [] {
      CombinationTail(x, a, y, b);
      NormSqCombination(x, a[1..], y, b[1..]);
      QuadraticStep(x, a[0], y, b[0], c[0], NormSq(a[1..]), Dot(a[1..], b[1..]), NormSq(b[1..]),
                    NormSq(a), Dot(a, b), NormSq(b));
    }
  }

  lemma CombinationTail(x: real, a: Vec, y: real, b: Vec)
    requires |a| == |b| > 0
    ensures Plus(Scale(x, a), Scale(y, b))[1..] == Plus(Scale(x, a[1..]), Scale(y, b[1..]))
  {
    var c, t := Plus(Scale(x, a), Scale(y, b)), Plus(Scale(x, a[1..]), Scale(y, b[1..]));
    forall i | 0 <= i < |t| ensures c[1..][i] == t[i] {
      assert a[1..][i] == a[i + 1] && b[1..][i] == b[i + 1];
    }
  }

  lemma QuadraticStep(x: real, p: real, y: real, q: real, c: real, n: real, d: real, k: real,
                      n': real, d': real, k': real)
    requires c == x * p + y * q && n' == p * p + n && d' == p * q + d && k' == q * q + k
    ensures c * c + Quadratic(x, n, y, d, k) == Quadratic(x, n', y, d', k')
  {}

  lemma CauchySchwarz(a: Vec, b: Vec)
    requires |a| == |b|
    ensures Dot(a, b) * Dot(a, b) <= NormSq(a) * NormSq(b)
  {
    var n, d, k := NormSq(a), Dot(a, b), NormSq(b);
    NormSqNonNegative(a);
    NormSqNonNegative(b);
    if k == 0.0 {
      DotZero(a, b);
    } else {
      var y := -d;
      NormSqCombination(k, a, y, b);
      NormSqNonNegative(Plus(Scale(k, a), Scale(y, b)));
      Discriminant(n, d, k, y, NormSq(Plus(Scale(k, a), Scale(y, b))));
    }
  }

  lemma Discriminant(n: real, d: real, k: real, y: real, v: real)
    requires k > 0.0 && y == -d && v >= 0.0
    requires v == Quadratic(k, n, y, d, k)
    ensures d * d <= n * k
  {
    var gap := n * k - d * d;
    assert v == k * gap;
    if gap < 0.0 { MulPositive(k, -gap, -v); }
  }

  /** Norm bounds add up under vector addition. */
  lemma Triangle(a: Vec, b: Vec, s: real, c: real)
    requires |a| == |b| && s >= 0.0 && c >= 0.0
    requires NormSq(a) <= s * s && NormSq(b) <= c * c
    ensures NormSq(Plus(a, b)) <= (s + c) * (s + c)
  {
    NormSqNonNegative(a);
    NormSqNonNegative(b);
    CauchySchwarz(a, b);
    NormSqCombination(1.0, a, 1.0, b);
    assert Plus(Scale(1.0, a), Scale(1.0, b)) == Plus(a, b);
    MulMono(NormSq(a), s * s, NormSq(b), c * c);
    var d, e := Dot(a, b), s * c;
    assert d * d <= e * e by { assert (s * s) * (c * c) == e * e; }
    assert e >= 0.0 by { MulMono(0.0, s, 0.0, c); }
    RootMono(d, e);
    assert (s + c) * (s + c) == s * s + 2.0 * e + c * c;
  }

  lemma NormSqScale(k: real, a: Vec)
    ensures NormSq(Scale(k, a)) == Mul(k * k, NormSq(a))
  {
    NormSqCombination(k, a, 0.0, a);
    assert Plus(Scale(k, a), Scale(0.0, a)) == Scale(k, a);
  }

  /** flat_l2_norm. */
  function Norm(m: RealFns, a: Vec): real {
    m.sqrt(NormSq(a))
  }

  lemma NormBound(m: RealFns, a: Vec, c: real)
    requires Standard(m) && c >= 0.0
    ensures Norm(m, a) >= 0.0 && Norm(m, a) * Norm(m, a) == NormSq(a)
    ensures Norm(m, a) <= c <==> NormSq(a) <= c * c
  {
    NormSqNonNegative(a);
    var n := Norm(m, a);
    if n <= c { MulMono(n, c, n, c); }
    if n * n <= c * c { RootMono(n, c); }
  }

  /** The norm is the non-negative root of the sum of the squared entries. */
  lemma NormIsEuclidean(m: RealFns, a: Vec)
    requires Standard(m)
    ensures Norm(m, a) >= 0.0
    ensures Norm(m, a) * Norm(m, a) == Sum(seq(|a|, i requires 0 <= i < |a| => a[i] * a[i]))
  {
    NormBound(m, a, 0.0);
    NormSqIsSum(a);
  }

  lemma {:induction false} NormSqIsSum(a: Vec)
    ensures NormSq(a) == Sum(seq(|a|, i requires 0 <= i < |a| => a[i] * a[i]))
  {
    var squares := seq(|a|, i requires 0 <= i < |a| => a[i] * a[i]);
    if a != [] {
      NormSqIsSum(a[1..]);
      var rest := seq(|a[1..]|, i requires 0 <= i < |a[1..]| => a[1..][i] * a[1..][i]);
      forall i | 0 <= i < |rest| ensures squares[1..][i] == rest[i] { assert a[1..][i] == a[i + 1]; }
      assert squares[1..] == rest;
    }
  }

  /** NormSq from the back, as a loop accumulates it. */
  lemma {:induction false} NormSqSnoc(a: Vec, x: real)
    ensures NormSq(a + [x]) == NormSq(a) + x * x
  {
    if a == [] {
      assert ([] + [x])[1..] == [];
    } else {
      assert (a + [x])[1..] == a[1..] + [x];
      NormSqSnoc(a[1..], x);
    }
  }
}
