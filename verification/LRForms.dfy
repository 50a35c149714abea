/**
 * The flat learning-rate schedulers: the closed form of each, its incremental ("chained") form, and
 * that the incremental form follows the closed form. Rates are exact reals.
 */
module LRForms {
  import opened RealFacts

  datatype Config =
    | ConstantLR(factor: real, totalIters: int)
    | StepLR(stepSize: int, gamma: real)
    | LinearLR(startFactor: real, endFactor: real, totalIters: int)
    | LambdaLR(lambda: int -> real)
    | SequentialLR(milestones: seq<int>)
    | ChainedScheduler

  predicate Flat(c: Config) {
    !c.SequentialLR? && !c.ChainedScheduler?
  }

  /** The CHECKs of the constructors. */
  predicate Accepted(c: Config) {
    match c
    case ConstantLR(factor, _) => 0.0 < factor <= 1.0
    case StepLR(stepSize, gamma) => stepSize > 0 && gamma > 0.0
    case LinearLR(start, end, total) => 0.0 < start <= 1.0 && 0.0 <= end <= 1.0 && total > 0
    case LambdaLR(_) => true
    case SequentialLR(milestones) => forall i :: 0 < i < |milestones| ==> milestones[i - 1] < milestones[i]
    case ChainedScheduler => true
  }

  function Pow(x: real, n: nat): real {
    if n == 0 then 1.0 else x * Pow(x, n - 1)
  }

  /** Integer division as in C++: towards zero. */
  function Quot(a: int, b: int): int
    requires b > 0
  {
    if a >= 0 then a / b else -(-a / b)
  }

  /** std::pow with an integral exponent. */
  function PowInt(x: real, n: int): real
    requires x > 0.0
  {
    if n >= 0 then Pow(x, n) else (PowPositive(x, -n); 1.0 / Pow(x, -n))
  }

  lemma PowPositive(x: real, n: nat)
    requires x > 0.0
    ensures Pow(x, n) > 0.0
  {
  }

  /** The factor by which the closed form multiplies the base rate. */
  function Factor(c: Config, t: int): real
    requires Flat(c) && Accepted(c)
  {
    match c
    case ConstantLR(factor, total) => if t < total then factor else 1.0
    case StepLR(stepSize, gamma) => PowInt(gamma, Quot(t, stepSize))
    case LinearLR(start, end, total) =>
      if t >= total then end else start + (end - start) * (t as real) / (total as real)
    case LambdaLR(lambda) => lambda(t)
  }

  /** GetClosedFormLR */
  function ClosedForm(c: Config, base: real, t: int): real
    requires Flat(c) && Accepted(c)
  {
    base * Factor(c, t)
  }

  /** The two denominators of LinearLR::GetChainedFormLR. */
  function LinearPrevFactor(c: Config): real
    requires c.LinearLR? && Accepted(c)
  {
    c.startFactor + (c.endFactor - c.startFactor) * ((c.totalIters - 1) as real) / (c.totalIters as real)
  }

  function LinearDenominator(c: Config, t: int): real
    requires c.LinearLR? && Accepted(c)
  {
    c.startFactor * (c.totalIters as real) + ((t - 1) as real) * (c.endFactor - c.startFactor)
  }

  /** No division by zero at any step a run can come to. */
  lemma LinearNeverDividesByZero(c: Config, t: int)
    requires c.LinearLR? && Accepted(c)
    ensures LinearPrevFactor(c) > 0.0
    ensures 0 < t < c.totalIters ==> LinearDenominator(c, t) > 0.0
  {
    var s, e, n := c.startFactor, c.endFactor, c.totalIters as real;
    var p := (c.totalIters - 1) as real;
    LinearPoint(s, e, p, n);
    assert LinearPrevFactor(c) == s + (e - s) * p / n;
    assert e * p >= 0.0;
    QuotientPositive(s + e * p, n);
    if 0 < t < c.totalIters {
      var q := (t - 1) as real;
      assert LinearDenominator(c, t) == s * (n - q) + e * q;
      assert s * (n - q) > 0.0;
      assert e * q >= 0.0;
    }
  }

  lemma LinearPoint(s: real, e: real, p: real, n: real)
    requires n == p + 1.0 && n > 0.0
    ensures s + (e - s) * p / n == (s + e * p) / n
  {
    IsQuotient(s, s * n, n);
    AddQuotients(s * n, (e - s) * p, n);
    assert s * n + (e - s) * p == s + e * p;
  }

  /** Division made total; LinearNeverDividesByZero shows that its zero case is never met. */
  function Div(x: real, y: real): real {
    if y == 0.0 then 0.0 else x / y
  }

  /** GetChainedFormLR: the new rate from the rate of the step before. */
  function ChainedForm(c: Config, base: real, t: int, initial: bool, lr: real): real
    requires Flat(c) && Accepted(c)
  {
    match c
    case ConstantLR(factor, total) =>
      if t == 0 then lr * factor
      else if t < total then lr
      else if t == total then lr / factor
      else lr
    case StepLR(stepSize, gamma) =>
      if t == 0 || t % stepSize != 0 then lr else lr * gamma
    case LinearLR(start, end, total) =>
      if t == 0 then lr * start
      else if t > total || initial then lr
      else if t == total then lr * Div(end, LinearPrevFactor(c))
      else lr * (1.0 + Div(end - start, LinearDenominator(c, t)))
    case LambdaLR(_) => ClosedForm(c, base, t)
  }

  // ---------------------------------------------------------------- chained form = closed form

  /** The condition on which ConstantLR's two forms agree. */
  predicate Regular(c: Config) {
    c.ConstantLR? ==> c.totalIters >= 1 || c.factor == 1.0
  }

  lemma StepRatioAdvances(c: Config, t: int)
    requires c.StepLR? && Accepted(c) && t > 0
    ensures Factor(c, t - 1) * Ratio(c, t) == Factor(c, t)
  {
    QuotientNonnegative(t, c.stepSize);
    QuotientNonnegative(t - 1, c.stepSize);
    if t % c.stepSize != 0 {
      QuotientSame(t, c.stepSize);
    } else {
      QuotientNext(t, c.stepSize);
    }
  }

  lemma ConstantRatioAdvances(c: Config, t: int)
    requires c.ConstantLR? && Accepted(c) && Regular(c) && t > 0
    ensures Factor(c, t - 1) * Ratio(c, t) == Factor(c, t)
  {
    MulQuotient(c.factor, 1.0, c.factor);
    IsQuotient(1.0, c.factor, c.factor);
  }

  /** One step of the linear ramp below its end: scaling by 1 + (e-s)/denominator moves one point on. */
  lemma LinearAdvance(s: real, e: real, q: real, n: real)
    requires n > 0.0 && s * n + q * (e - s) > 0.0
    ensures (s + (e - s) * q / n) * (1.0 + (e - s) / (s * n + q * (e - s))) == s + (e - s) * (q + 1.0) / n
  {
    var d := s * n + q * (e - s);
    IsQuotient(s, s * n, n);
    AddQuotients(s * n, (e - s) * q, n);
    AddQuotients(s * n, (e - s) * (q + 1.0), n);
    assert s * n + (e - s) * (q + 1.0) == d + (e - s);
    IsQuotient(1.0, d, d);
    AddQuotients(d, e - s, d);
    Cancel(d, d + (e - s), n);
  }

  /** The ratio by which one chained step scales the rate (not for LambdaLR, which sets it). */
  function Ratio(c: Config, t: int): real
    requires Flat(c) && Accepted(c) && !c.LambdaLR?
  {
    match c
    case ConstantLR(factor, total) =>
      if t == 0 then factor else if t == total then 1.0 / factor else 1.0
    case StepLR(stepSize, gamma) =>
      if t == 0 || t % stepSize != 0 then 1.0 else gamma
    case LinearLR(start, end, total) =>
      if t == 0 then start
      else if t > total then 1.0
      else if t == total then Div(end, LinearPrevFactor(c))
      else 1.0 + Div(end - start, LinearDenominator(c, t))
  }

  lemma ChainedScales(c: Config, base: real, t: int, lr: real)
    requires Flat(c) && Accepted(c) && !c.LambdaLR?
    ensures ChainedForm(c, base, t, false, lr) == lr * Ratio(c, t)
  {
    hide Div;
    if c.ConstantLR? {
      MulQuotient(lr, 1.0, c.factor);
    }
  }

  /** One step: the ratio takes the factor at t - 1 to the factor at t. */
  lemma RatioAdvances(c: Config, t: int)
    requires Flat(c) && Accepted(c) && !c.LambdaLR? && Regular(c) && t > 0
    ensures Factor(c, t - 1) * Ratio(c, t) == Factor(c, t)
  {
    hide Factor, Ratio, Regular;
    match c
    case ConstantLR(_, _) => ConstantRatioAdvances(c, t);
    case StepLR(_, _) => StepRatioAdvances(c, t);
    case LinearLR(_, _, _) => LinearRatioAdvances(c, t);
  }

  lemma LinearBelowEnd(c: Config, t: int)
    requires c.LinearLR? && Accepted(c) && 0 < t < c.totalIters
    ensures Factor(c, t - 1) * Ratio(c, t) == Factor(c, t)
  {
    LinearNeverDividesByZero(c, t);
    LinearAdvance(c.startFactor, c.endFactor, (t - 1) as real, c.totalIters as real);
  }

  lemma LinearAtEnd(c: Config, t: int)
    requires c.LinearLR? && Accepted(c) && t == c.totalIters
    ensures Factor(c, t - 1) * Ratio(c, t) == Factor(c, t)
  {
    LinearNeverDividesByZero(c, t);
    var p := LinearPrevFactor(c);
    MulQuotient(p, c.endFactor, p);
    IsQuotient(c.endFactor, p * c.endFactor, p);
  }

  lemma LinearRatioAdvances(c: Config, t: int)
    requires c.LinearLR? && Accepted(c) && t > 0
    ensures Factor(c, t - 1) * Ratio(c, t) == Factor(c, t)
  {
    if t < c.totalIters {
      LinearBelowEnd(c, t);
    } else if t == c.totalIters {
      LinearAtEnd(c, t);
    }
  }

  /** The first step, at 0, scales by the factor at 0, whether it is the initial step or not. */
  lemma ChainedAtZero(c: Config, base: real, initial: bool, lr: real)
    requires Flat(c) && Accepted(c) && !c.LambdaLR? && Regular(c)
    ensures ChainedForm(c, base, 0, initial, lr) == lr * Factor(c, 0)
  {
    if c.StepLR? {
      QuotientUnique(0, c.stepSize, 0, 0);
    }
  }

  lemma ChainedAfterZero(c: Config, base: real, t: int)
    requires Flat(c) && Accepted(c) && !c.LambdaLR? && Regular(c) && t > 0
    ensures ChainedForm(c, base, t, false, base * Factor(c, t - 1)) == base * Factor(c, t)
  {
    hide Factor, Ratio, ChainedForm, Regular, Accepted;
    ChainedScales(c, base, t, base * Factor(c, t - 1));
    RatioAdvances(c, t);
    ScaleOn(base, Factor(c, t - 1), Ratio(c, t), Factor(c, t));
  }

  /**
   * The incremental form follows the closed form: from the closed form of the step before (or from
   * the base rate at step 0) it makes the closed form of this step.
   */
  lemma ChainedFollowsClosed(c: Config, base: real, t: int, initial: bool, lr: real)
    requires Flat(c) && Accepted(c) && Regular(c) && t >= 0
    requires lr == if t == 0 then base else ClosedForm(c, base, t - 1)
    requires initial ==> t == 0
    ensures ChainedForm(c, base, t, initial, lr) == ClosedForm(c, base, t)
  {
    if !c.LambdaLR? {
      if t == 0 {
        ChainedAtZero(c, base, initial, lr);
      } else {
        ChainedAfterZero(c, base, t);
      }
    }
  }

  /** The rate after t chained steps from the base rate. */
  function ChainedRun(c: Config, base: real, t: nat): real
    requires Flat(c) && Accepted(c)
  {
    ChainedForm(c, base, t, t == 0, if t == 0 then base else ChainedRun(c, base, t - 1))
  }

  lemma {:induction false} RunFollowsClosed(c: Config, base: real, t: nat)
    requires Flat(c) && Accepted(c) && Regular(c)
    ensures ChainedRun(c, base, t) == ClosedForm(c, base, t)
  {
    if t > 0 {
      RunFollowsClosed(c, base, t - 1);
    }
    ChainedFollowsClosed(c, base, t, t == 0, if t == 0 then base else ChainedRun(c, base, t - 1));
  }

  /**
   * Exactly when: the two forms agree at every step if and only if the scheduler is not a ConstantLR
   * with no iterations and a factor other than 1 (or the base rate is 0).
   */
  lemma ChainedIsClosedExactlyWhen(c: Config, base: real)
    requires Flat(c) && Accepted(c)
    ensures (forall t: nat :: ChainedRun(c, base, t) == ClosedForm(c, base, t)) <==> Regular(c) || base == 0.0
  {
    if Regular(c) {
      forall t: nat
        ensures ChainedRun(c, base, t) == ClosedForm(c, base, t)
      {
        RunFollowsClosed(c, base, t);
      }
    } else if base == 0.0 {
      forall t: nat
        ensures ChainedRun(c, base, t) == ClosedForm(c, base, t)
      {
        ZeroStaysZero(c, t);
      }
    } else {
      assert ChainedRun(c, base, 0) == base * c.factor;
      assert ClosedForm(c, base, 0) == base;
      ScaledDiffers(base, c.factor);
    }
  }

  /**
   * A ConstantLR of no iterations and factor 1/2: at step 0 the chained form halves the rate, the
   * closed form does not.
   */
  lemma ConstantForNoStepsDiffers()
    ensures ChainedRun(ConstantLR(0.5, 0), 1.0, 0) == 0.5 && ClosedForm(ConstantLR(0.5, 0), 1.0, 0) == 1.0
  {
  }

  lemma {:induction false} ZeroStaysZero(c: Config, t: nat)
    requires c.ConstantLR? && Accepted(c)
    ensures ChainedRun(c, 0.0, t) == 0.0
  {
    if t > 0 {
      ZeroStaysZero(c, t - 1);
    }
  }
}
