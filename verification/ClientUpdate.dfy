/** What a client sends: the clipped update and the SCAFFOLD control variate. */
module ClientUpdate {
  import opened RealMath
  import opened SortedInts
  import opened Vectors

  method FlatL2Norm(m: RealFns, state: Vec) returns (norm: real)
    ensures norm == Norm(m, state)
  {
    var total := 0.0;
    for i := 0 to |state|
      invariant total == NormSq(state[..i])
    {
      assert state[..i + 1] == state[..i] + [state[i]];
      NormSqSnoc(state[..i], state[i]);
      total := total + state[i] * state[i];
    }
    assert state[..|state|] == state;
    return m.sqrt(total);
  }

  const EPS := 0.000000000001

  function ClipFactor(norm: real, clipNorm: real): (f: real)
    requires norm >= 0.0 && clipNorm > 0.0
  {
    var ratio := clipNorm / (norm + EPS);
    if ratio < 1.0 then ratio else 1.0
  }

  /** The factor is 1 unless the norm with its guard exceeds the clip norm; then it brings exactly that down to it. */
  lemma ClipFactorBounds(norm: real, clipNorm: real)
    requires norm >= 0.0 && clipNorm > 0.0
    ensures 0.0 < ClipFactor(norm, clipNorm) <= 1.0
    ensures ClipFactor(norm, clipNorm) < 1.0 <==> norm + 0.000000000001 > clipNorm
    ensures norm + 0.000000000001 > clipNorm ==> Mul(ClipFactor(norm, clipNorm), norm + 0.000000000001) == clipNorm
    ensures ClipFactor(norm, clipNorm) * norm <= clipNorm
  {
    var d, f := norm + EPS, ClipFactor(norm, clipNorm);
    var ratio := clipNorm / d;
    assert ratio * d == clipNorm;
    if ratio <= 0.0 { MulMono(0.0, -ratio, 0.0, d); }
    if ratio < 1.0 {
      MulPositive(1.0 - ratio, d, d - clipNorm);
      MulMono(ratio, ratio, norm, d);
    } else {
      MulMono(1.0, ratio, d, d);
    }
  }

  datatype Clipped = Clipped(update: Vec, norm: real, factor: real, wasClipped: bool)

  /** A clipped update has the clip norm, up to the guard, and points where the raw update pointed; it is the raw update
      itself unless the raw norm with the guard exceeds the clip norm. */
  method ClipStateUpdate(m: RealFns, delta: Vec, clipNorm: real) returns (r: Outcome<Clipped>)
    requires Standard(m)
    ensures r.Ok? <==> clipNorm > 0.0
    ensures r.Ok? ==> r.value.norm == Norm(m, delta) && Norm(m, r.value.update) <= clipNorm
    ensures r.Ok? ==> 0.0 < r.value.factor <= 1.0 && r.value.update == Scale(r.value.factor, delta)
    ensures r.Ok? ==> (r.value.wasClipped <==> Norm(m, delta) + 0.000000000001 > clipNorm)
    ensures r.Ok? && r.value.wasClipped ==>
      && Mul(r.value.factor, r.value.norm + 0.000000000001) == clipNorm
      && Norm(m, r.value.update) >= clipNorm - 0.000000000001
    ensures r.Ok? && !r.value.wasClipped ==> r.value.factor == 1.0 && r.value.update == delta
  {
    if clipNorm <= 0.0 { return Error("clip_norm must be > 0."); }
    var norm := FlatL2Norm(m, delta);
    NormBound(m, delta, clipNorm);
    var factor := ClipFactor(norm, clipNorm);
    var clipped := seq(|delta|, i requires 0 <= i < |delta| => delta[i] * factor);
    ScaledAs(delta, factor, clipped);
    ClippedNorm(m, delta, clipNorm);
    hide ClipFactor, Norm, Scale, Standard;
    ClipFactorBounds(norm, clipNorm);
    if factor == 1.0 { ScaleOne(delta); }
    return Ok(Clipped(clipped, norm, factor, factor < 1.0));
  }

  lemma ScaledAs(delta: Vec, factor: real, clipped: Vec)
    requires |clipped| == |delta| && forall i :: 0 <= i < |delta| ==> clipped[i] == delta[i] * factor
    ensures clipped == Scale(factor, delta)
  {
    forall i | 0 <= i < |delta| ensures clipped[i] == Scale(factor, delta)[i] {
      assert delta[i] * factor == Mul(factor, delta[i]);
    }
  }

  lemma ScaleOne(delta: Vec)
    ensures Scale(1.0, delta) == delta
  {}

  /** The norm of a clipped update: the clip norm, up to the guard, if anything is clipped. */
  lemma ClippedNorm(m: RealFns, delta: Vec, clipNorm: real)
    requires Standard(m) && clipNorm > 0.0
    ensures Norm(m, delta) >= 0.0
    ensures var clipped := Norm(m, Scale(ClipFactor(Norm(m, delta), clipNorm), delta));
      && clipped <= clipNorm
      && (Norm(m, delta) + 0.000000000001 > clipNorm ==> clipped >= clipNorm - 0.000000000001)
  {
    NormBound(m, delta, clipNorm);
    var n := Norm(m, delta);
    var f := ClipFactor(n, clipNorm);
    ClipFactorBounds(n, clipNorm);
    hide Norm, Standard, ClipFactor;
    NormOfScaled(m, f, delta);
    if n + 0.000000000001 > clipNorm { JustClipped(f, n, clipNorm); }
  }

  lemma JustClipped(f: real, n: real, clipNorm: real)
    requires 0.0 < f <= 1.0 && Mul(f, n + 0.000000000001) == clipNorm
    ensures f * n >= clipNorm - 0.000000000001
  {
    assert Mul(f, n + 0.000000000001) == f * n + f * 0.000000000001;
  }

  lemma NormOfScaled(m: RealFns, f: real, delta: Vec)
    requires Standard(m) && f >= 0.0
    ensures Norm(m, Scale(f, delta)) == f * Norm(m, delta)
  {
    var n, clipped, p := Norm(m, delta), Scale(f, delta), f * Norm(m, delta);
    NormBound(m, delta, 0.0);
    NormBound(m, clipped, 0.0);
    assert 0.0 <= p by { MulMono(0.0, f, 0.0, n); }
    NormSqScale(f, delta);
    SquareOfProduct(f, n, p, NormSq(delta), NormSq(clipped));
    RootMono(Norm(m, clipped), p);
    RootMono(p, Norm(m, clipped));
  }

  lemma SquareOfProduct(f: real, n: real, p: real, s: real, t: real)
    requires p == f * n && s == n * n && t == Mul(f * f, s)
    ensures t == p * p
  {}

  /** The new local control variate c_i - c - delta / (tau lr). */
  function NewControl(cLocal: Vec, cGlobal: Vec, delta: Vec, localSteps: nat, lr: real): (c: Vec)
    requires |cLocal| == |cGlobal| == |delta| && localSteps > 0 && lr > 0.0
    ensures |c| == |delta|
  {
    MulPositive(localSteps as real, lr, localSteps as real * lr);
    seq(|delta|, i requires 0 <= i < |delta| => cLocal[i] - cGlobal[i] - delta[i] / (localSteps as real * lr))
  }

  // ----- what the control variate estimates -----

  /** SGD steps as SCAFFOLD takes them, without momentum: every batch gradient is shifted by c - c_i, and the optimizer
      adds its weight decay. */
  function Descend(start: Vec, cLocal: Vec, cGlobal: Vec, gradients: seq<Vec>, lr: real, decay: real): (x: Vec)
    requires |cLocal| == |cGlobal| == |start| && forall i :: 0 <= i < |gradients| ==> |gradients[i]| == |start|
    ensures |x| == |start|
  {
    if gradients == [] then start
    else
      var before := Descend(start, cLocal, cGlobal, gradients[..|gradients| - 1], lr, decay);
      var shifted := Plus(gradients[|gradients| - 1], Minus(cGlobal, cLocal));
      Minus(before, Scale(lr, Plus(shifted, Scale(decay, before))))
  }

  /** The sum, at one coordinate, of the gradients of the regularised loss along the way: batch gradient plus weight
      decay at the point where it was taken. */
  function GradientSum(start: Vec, cLocal: Vec, cGlobal: Vec, gradients: seq<Vec>, lr: real, decay: real, j: nat): real
    requires |cLocal| == |cGlobal| == |start| && forall i :: 0 <= i < |gradients| ==> |gradients[i]| == |start|
    requires j < |start|
  {
    if gradients == [] then 0.0
    else
      var earlier := gradients[..|gradients| - 1];
      GradientSum(start, cLocal, cGlobal, earlier, lr, decay, j) + gradients[|gradients| - 1][j]
      + Mul(decay, Descend(start, cLocal, cGlobal, earlier, lr, decay)[j])
  }

  lemma DescendStep(start: Vec, cLocal: Vec, cGlobal: Vec, gradients: seq<Vec>, lr: real, decay: real, j: nat)
    requires |cLocal| == |cGlobal| == |start| && forall i :: 0 <= i < |gradients| ==> |gradients[i]| == |start|
    requires gradients != [] && j < |start|
    ensures var before := Descend(start, cLocal, cGlobal, gradients[..|gradients| - 1], lr, decay)[j];
            Descend(start, cLocal, cGlobal, gradients, lr, decay)[j]
            == before - Mul(lr, gradients[|gradients| - 1][j] + (cGlobal[j] - cLocal[j]) + Mul(decay, before))
    ensures var before := Descend(start, cLocal, cGlobal, gradients[..|gradients| - 1], lr, decay)[j];
            GradientSum(start, cLocal, cGlobal, gradients, lr, decay, j)
            == GradientSum(start, cLocal, cGlobal, gradients[..|gradients| - 1], lr, decay, j)
               + gradients[|gradients| - 1][j] + Mul(decay, before)
  {}

  lemma {:induction false} Descended(start: Vec, cLocal: Vec, cGlobal: Vec, gradients: seq<Vec>, lr: real, decay: real,
                                     j: nat)
    requires |cLocal| == |cGlobal| == |start| && forall i :: 0 <= i < |gradients| ==> |gradients[i]| == |start|
    requires j < |start|
    ensures start[j] - Descend(start, cLocal, cGlobal, gradients, lr, decay)[j]
         == Mul(lr, GradientSum(start, cLocal, cGlobal, gradients, lr, decay, j)
                    + Mul(|gradients| as real, cGlobal[j] - cLocal[j]))
  {
    var shift, n := cGlobal[j] - cLocal[j], |gradients|;
    if n > 0 {
      hide Descend, GradientSum, Mul;
      var earlier := gradients[..n - 1];
      var before := Descend(start, cLocal, cGlobal, earlier, lr, decay)[j];
      DescendStep(start, cLocal, cGlobal, gradients, lr, decay, j);
      Descended(start, cLocal, cGlobal, earlier, lr, decay, j);
      NextGap(start[j], before, Descend(start, cLocal, cGlobal, gradients, lr, decay)[j],
              GradientSum(start, cLocal, cGlobal, earlier, lr, decay, j),
              GradientSum(start, cLocal, cGlobal, gradients, lr, decay, j),
              gradients[n - 1][j], Mul(decay, before), shift, lr, n as real);
    } else {
      TimesNothing(lr, shift);
    }
  }

  lemma NextGap(start: real, before: real, after: real, sum: real, total: real, g: real, w: real, shift: real, lr: real,
                n: real)
    requires start - before == Mul(lr, sum + Mul(n - 1.0, shift))
    requires after == before - Mul(lr, g + shift + w) && total == sum + g + w
    ensures start - after == Mul(lr, total + Mul(n, shift))
  {
    assert Mul(n, shift) == Mul(n - 1.0, shift) + shift;
    StepsAdd(lr, sum + Mul(n - 1.0, shift), g + shift + w);
  }

  lemma StepsAdd(lr: real, a: real, b: real)
    ensures Mul(lr, a) + Mul(lr, b) == Mul(lr, a + b)
  {}

  lemma TimesNothing(lr: real, shift: real)
    ensures Mul(lr, 0.0 + Mul(0.0, shift)) == 0.0
  {}

  lemma NewControlAt(cLocal: Vec, cGlobal: Vec, delta: Vec, localSteps: nat, lr: real, d: real, j: nat)
    requires |cLocal| == |cGlobal| == |delta| && localSteps > 0 && lr > 0.0 && j < |delta|
    requires d == Mul(localSteps as real, lr) > 0.0
    ensures NewControl(cLocal, cGlobal, delta, localSteps, lr)[j] == cLocal[j] - cGlobal[j] - delta[j] / d
  {}

  /** After SCAFFOLD's local steps the new control variate is the mean of the regularised gradients that the client saw:
      the global and the old local variate, which shifted every step, cancel. */
  lemma ControlIsMeanGradient(start: Vec, cLocal: Vec, cGlobal: Vec, gradients: seq<Vec>, lr: real, decay: real, j: nat)
    requires |cLocal| == |cGlobal| == |start| && forall i :: 0 <= i < |gradients| ==> |gradients[i]| == |start|
    requires gradients != [] && lr > 0.0 && j < |start|
    ensures var delta := Minus(Descend(start, cLocal, cGlobal, gradients, lr, decay), start);
            NewControl(cLocal, cGlobal, delta, |gradients|, lr)[j]
            == GradientSum(start, cLocal, cGlobal, gradients, lr, decay, j) / |gradients| as real
  {
    var delta, k := Minus(Descend(start, cLocal, cGlobal, gradients, lr, decay), start), |gradients| as real;
    Descended(start, cLocal, cGlobal, gradients, lr, decay, j);
    MulPositive(k, lr, k * lr);
    NewControlAt(cLocal, cGlobal, delta, |gradients|, lr, Mul(k, lr), j);
    hide Descend, GradientSum, NewControl;
    MeanGradient(delta[j], k, lr, GradientSum(start, cLocal, cGlobal, gradients, lr, decay, j), cGlobal[j] - cLocal[j]);
  }

  lemma MeanGradient(delta: real, k: real, lr: real, s: real, shift: real)
    requires k > 0.0 && lr > 0.0 && k * lr > 0.0 && -delta == Mul(lr, s + Mul(k, shift))
    ensures -shift - delta / (k * lr) == s / k
  {
    var d, total := k * lr, s + k * shift;
    assert -delta == lr * total;
    assert (s / k) * k == s;
    assert total == k * (s / k + shift) by { assert k * (s / k + shift) == k * (s / k) + k * shift; }
    MulAssoc(lr, k, s / k + shift);
    assert -delta == d * (s / k + shift);
    Quotient(-delta, d, s / k + shift);
  }

  lemma Quotient(x: real, d: real, y: real)
    requires d > 0.0 && x == d * y
    ensures x / d == y && (-x) / d == -y
  {}
}
