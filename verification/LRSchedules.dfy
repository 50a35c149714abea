/**
 * The schedules in figures: the optimizer's rate n steps after a flat scheduler is created, and after
 * CreateLRScheduler has put warm-up and decay together.
 */
module LRSchedules {
  import opened RealFacts
  import opened LRForms
  import opened LRTrees

  // ---------------------------------------------------------------- flat schedulers

  /** A LambdaLR sets the rate to the base rate times lambda of the step, whatever it was. */
  lemma {:induction false} LambdaSchedule(lambda: int -> real, base: real, lr: real, n: nat)
    ensures var created := Create(LambdaLR(lambda), base, [], lr);
            && created.Done? && WellFormed(created.sched)
            && Steps(created.sched, created.lr, n) == Done(Sched(LambdaLR(lambda), n, 0.0, base, []), base * lambda(n))
  {
    if n > 0 {
      LambdaSchedule(lambda, base, lr, n - 1);
    }
  }

  lemma {:induction false} FlatRun(c: Config, base: real, n: nat)
    requires Flat(c) && Accepted(c)
    ensures var created := Create(c, base, [], base);
            && created.Done? && WellFormed(created.sched)
            && Steps(created.sched, created.lr, n) == Done(Sched(c, n, 0.0, base, []), ChainedRun(c, base, n))
  {
    hide ChainedForm;
    if n > 0 {
      FlatRun(c, base, n - 1);
    }
  }

  /** A StepLR multiplies the rate by gamma every stepSize steps. */
  lemma StepSchedule(stepSize: int, gamma: real, base: real, n: nat)
    requires stepSize > 0 && gamma > 0.0
    ensures 0 <= n / stepSize
    ensures var created := Create(StepLR(stepSize, gamma), base, [], base);
            && created.Done? && WellFormed(created.sched)
            && var r := Steps(created.sched, created.lr, n);
            r.Done? && r.sched.last == n && r.lr == base * Pow(gamma, n / stepSize)
  {
    QuotientNonnegative(n, stepSize);
    FlatRun(StepLR(stepSize, gamma), base, n);
    RunFollowsClosed(StepLR(stepSize, gamma), base, n);
    hide Create, Steps, ChainedRun, Pow;
  }

  /** A LinearLR goes from start to end in equal steps, and stays there. */
  lemma LinearSchedule(start: real, end: real, total: int, base: real, n: nat)
    requires 0.0 < start <= 1.0 && 0.0 <= end <= 1.0 && total > 0
    ensures var created := Create(LinearLR(start, end, total), base, [], base);
            && created.Done? && WellFormed(created.sched)
            && var r := Steps(created.sched, created.lr, n);
            && r.Done? && r.sched.last == n
            && r.lr == if n >= total then base * end
                       else base * (start + (end - start) * (n as real) / (total as real))
  {
    FlatRun(LinearLR(start, end, total), base, n);
    RunFollowsClosed(LinearLR(start, end, total), base, n);
    LinearFigures(start, end, total, base, n);
    hide Create, Steps, ChainedRun, ClosedForm, Accepted;
  }

  lemma LinearFigures(start: real, end: real, total: int, base: real, n: int)
    requires Accepted(LinearLR(start, end, total))
    ensures ClosedForm(LinearLR(start, end, total), base, n) ==
            if n >= total then base * end else base * (start + (end - start) * (n as real) / (total as real))
  {
    ClosedIs(LinearLR(start, end, total), base, n,
      if n >= total then end else start + (end - start) * (n as real) / (total as real));
    hide ClosedForm, Factor, Accepted;
  }

  lemma ClosedIs(c: Config, base: real, t: int, f: real)
    requires Flat(c) && Accepted(c) && Factor(c, t) == f
    ensures ClosedForm(c, base, t) == base * f
  {
  }

  /** A ConstantLR scales the rate until total; with no iterations it never stops. */
  lemma {:induction false} ConstantSchedule(factor: real, total: int, base: real, n: nat)
    requires 0.0 < factor <= 1.0
    ensures var created := Create(ConstantLR(factor, total), base, [], base);
            && created.Done? && WellFormed(created.sched)
            && var r := Steps(created.sched, created.lr, n);
            && r.Done? && r.sched.last == n
            && r.lr == if total < 1 || n < total then base * factor else base
  {
    FlatRun(ConstantLR(factor, total), base, n);
    if total >= 1 {
      RunFollowsClosed(ConstantLR(factor, total), base, n);
      hide Create, Steps, ChainedRun;
    } else {
      NeverStops(factor, total, base, n);
      hide Create, Steps, ChainedRun;
    }
  }

  lemma {:induction false} NeverStops(factor: real, total: int, base: real, n: nat)
    requires 0.0 < factor <= 1.0 && total < 1
    ensures ChainedRun(ConstantLR(factor, total), base, n) == base * factor
  {
    if n > 0 {
      NeverStops(factor, total, base, n - 1);
    }
  }

  /** A jump to an epoch, back or forth, sets the rate of that epoch. */
  lemma EpochRates(t: Sched, e: int)
    requires Accepted(t.config) && Flat(t.config)
    ensures StepTo(t, e).Done? && StepTo(t, e).sched == t.(last := e)
    ensures t.config.LambdaLR? ==> StepTo(t, e).lr == t.base * t.config.lambda(e)
    ensures t.config.ConstantLR? ==>
              StepTo(t, e).lr == if e < t.config.totalIters then t.base * t.config.factor else t.base
    ensures t.config.LinearLR? && e >= t.config.totalIters ==> StepTo(t, e).lr == t.base * t.config.endFactor
    ensures t.config.LinearLR? && e < t.config.totalIters ==>
              StepTo(t, e).lr ==
              t.base * (t.config.startFactor +
                        (t.config.endFactor - t.config.startFactor) * (e as real) / (t.config.totalIters as real))
    ensures t.config.StepLR? && e >= 0 ==>
              0 <= e / t.config.stepSize && StepTo(t, e).lr == t.base * Pow(t.config.gamma, e / t.config.stepSize)
  {
    if t.config.StepLR? && e >= 0 {
      QuotientNonnegative(e, t.config.stepSize);
    }
  }

  // ---------------------------------------------------------------- SequentialLR inside SequentialLR

  /** A LambdaLR that stands at step last. */
  function At(f: int -> real, base: real, last: int): Sched {
    Sched(LambdaLR(f), last, 0.0, base, [])
  }

  function TwoLambdas(f: int -> real, g: int -> real, m: int, base: real, last: int, i: int, j: int): Sched {
    Sched(SequentialLR([m]), last, 0.0, base, [At(f, base, i), At(g, base, j)])
  }

  lemma TwoLambdasStart(f: int -> real, g: int -> real, m: int, base: real, last: int, i: int, j: int, lr: real)
    ensures var t := TwoLambdas(f, g, m, base, last, i, j);
            && WellFormed(t)
            && InitialStep(t, lr) == Done(TwoLambdas(f, g, m, base, last + 1, i, j - 1), base * f(i))
  {
    var t := TwoLambdas(f, g, m, base, last, i, j);
    assert WellFormed(t);
    SequentialInitialStepUnfolds(t, lr);
    assert Undo(t.kids) == [At(f, base, i - 1), At(g, base, j - 1)];
    assert InitialStep(At(f, base, i - 1), base) == Done(At(f, base, i), base * f(i));
    assert [At(f, base, i - 1), At(g, base, j - 1)][0 := At(f, base, i)] == [At(f, base, i), At(g, base, j - 1)];
  }

  /**
   * A SequentialLR made the first child of another: the initial steps of its own children are undone once
   * too often, and the run begins with the rate of step -1, not of step 0.
   */
  lemma NestedStartsEarly(f: int -> real, g: int -> real, h: int -> real, m: int, m': int, base: real, lr: real)
    ensures WellFormed(TwoLambdas(f, g, m, base, -1, 0, 0))
    ensures var inner := InitialStep(TwoLambdas(f, g, m, base, -1, 0, 0), lr);
            && inner.Done? && inner.lr == base * f(0)
            && var kids := [inner.sched, At(h, base, 0)];
            && WellFormed(Sched(SequentialLR([m']), -1, 0.0, base, kids))
            && var outer := Create(SequentialLR([m']), base, kids, inner.lr);
            && outer.Done? && outer.lr == base * f(-1)
            && outer.sched == Sched(SequentialLR([m']), 0, 0.0, base,
                                    [TwoLambdas(f, g, m, base, 0, -1, -3), At(h, base, -1)])
  {
    TwoLambdasStart(f, g, m, base, -1, 0, 0, lr);
    var inner := TwoLambdas(f, g, m, base, 0, 0, -1);
    TwoLambdasStart(f, g, m, base, 0, 0, -1, lr);
    TwoLambdasStart(f, g, m, base, -1, -1, -2, base);
    var t := Sched(SequentialLR([m']), -1, 0.0, base, [inner, At(h, base, 0)]);
    assert WellFormed(t.kids[0]) && WellFormed(t.kids[1]);
    assert WellFormed(t);
    SequentialInitialStepUnfolds(t, inner.base * f(0));
    var undone := TwoLambdas(f, g, m, base, -1, -1, -2);
    assert Undo(inner.kids) == undone.kids;
    assert Undo(t.kids) == [undone, At(h, base, -1)];
    hide InitialStep, WellFormed, Undo;
  }

  // ---------------------------------------------------------------- CreateLRScheduler

  datatype Style = NoScheduler | Constant | Linear | Cosine | InverseSquareRoot | Unsupported

  datatype TrainingConfig = TrainingConfig(
    style: Style, lr: real, minLr: real, decayIters: int, warmupIters: int, warmupInit: real)

  /** Cosine of pi times its argument, and square root, as the program's library has them. */
  datatype Library = Library(cosPi: real -> real, sqrt: real -> real)

  /** The greatest rate: the configured one or, if that is 0, the optimizer's. */
  function MaxLr(c: TrainingConfig, lr: real): real {
    if c.lr != 0.0 then c.lr else lr
  }

  /** The CHECKs, for an optimizer whose rate is lr. */
  predicate Checks(c: TrainingConfig, lr: real) {
    && MaxLr(c, lr) > 0.0 && c.warmupInit >= 0.0 && c.minLr >= 0.0 && MaxLr(c, lr) >= c.minLr
    && c.warmupInit <= MaxLr(c, lr) && c.warmupIters >= 0 && c.decayIters > 0 && c.warmupIters < c.decayIters
    && !c.style.Unsupported?
  }

  function Max(x: real, y: real): real {
    if x < y then y else x
  }

  /** A step count as a real number, at least 1. */
  function AtLeastOne(n: int): real {
    if n < 1 then 1.0 else n as real
  }

  /** At step n of the whole run. */
  function InverseSquareRootFraction(c: TrainingConfig, m: real, l: Library, n: int): real
    requires m > 0.0
  {
    if n > c.decayIters then c.minLr / m
    else Max(c.minLr, Decayed(m, l.sqrt(AtLeastOne(c.warmupIters)), l.sqrt(AtLeastOne(n)))) / m
  }

  /** The scheduler after the warm-up. */
  function MainConfig(c: TrainingConfig, m: real, l: Library): (r: Config)
    requires m > 0.0 && m >= c.minLr >= 0.0 && 0 <= c.warmupIters < c.decayIters
    ensures Flat(r) && Accepted(r)
  {
    var after := c.decayIters - c.warmupIters;
    match c.style
    case Linear =>
      FractionOf(c.minLr, m);
      LinearLR(1.0, c.minLr / m, after)
    case Cosine =>
      LambdaLR((step: int) =>
        if step > after then c.minLr / m
        else (c.minLr + 0.5 * (l.cosPi(step as real / after as real) + 1.0) * (m - c.minLr)) / m)
    case InverseSquareRoot =>
      LambdaLR((step: int) => InverseSquareRootFraction(c, m, l, step + c.warmupIters))
    case _ => LambdaLR(_ => 1.0)
  }

  /** m * w / x, with division made total. */
  function Decayed(m: real, w: real, x: real): real {
    if x == 0.0 then 0.0 else m * w / x
  }

  lemma FractionOf(x: real, m: real)
    requires 0.0 <= x <= m && m > 0.0
    ensures 0.0 <= x / m <= 1.0
  {
  }

  function WarmupConfig(c: TrainingConfig, m: real): (r: Config)
    requires m > 0.0 && c.warmupIters > 0
    ensures Flat(r) && Accepted(r)
  {
    LambdaLR((step: int) => (c.warmupInit + (m - c.warmupInit) * (step as real / c.warmupIters as real)) / m)
  }

  datatype Built = Nothing | Rejected | Built(sched: Sched, lr: real)

  /** CreateLRScheduler on an optimizer whose rate is lr and whose initial rate, the base rate, is base. */
  ghost function CreateLRScheduler(c: TrainingConfig, base: real, lr: real, l: Library): Built {
    if c.style.NoScheduler? then Nothing
    else if !Checks(c, lr) then Rejected
    else
      var m := MaxLr(c, lr);
      var main := Create(MainConfig(c, m, l), base, [], lr);
      if c.warmupIters == 0 then Built(main.sched, main.lr)
      else
        var warmup := Create(WarmupConfig(c, m), base, [], main.lr);
        var kids := [warmup.sched, main.sched];
        TwoKidsWellFormed(WarmupConfig(c, m), MainConfig(c, m, l), c.warmupIters, base);
        var both := Create(SequentialLR([c.warmupIters]), base, kids, warmup.lr);
        if both.Fatal? then Rejected else Built(both.sched, both.lr)
  }

  lemma TwoKidsWellFormed(w: Config, d: Config, m: int, base: real)
    requires Flat(w) && Accepted(w) && Flat(d) && Accepted(d)
    ensures forall lr, lr' ::
              WellFormed(Sched(SequentialLR([m]), -1, 0.0, base,
                [Create(w, base, [], lr).sched, Create(d, base, [], lr').sched]))
  {
  }

  // ---------------------------------------------------------------- the rates

  /** A SequentialLR of two flat schedulers: the first until the milestone, the second from there. */
  lemma SequentialOfTwo(w: Config, d: Config, m: int, base: real, lr: real, n: nat)
    requires Flat(w) && Accepted(w) && Regular(w) && Flat(d) && Accepted(d) && Regular(d) && m > 0
    ensures var kids := [Sched(w, 0, 0.0, base, []), Sched(d, 0, 0.0, base, [])];
            && WellFormed(Sched(SequentialLR([m]), -1, 0.0, base, kids))
            && var both := Create(SequentialLR([m]), base, kids, lr);
            && both.Done? && WellFormed(both.sched)
            && var r := Steps(both.sched, both.lr, n);
            && r.Done? && |r.sched.kids| == 2
            && r.sched.kids[if n < m then 0 else 1].last == (if n < m then n else n - m)
            && r.lr == if n < m then ClosedForm(w, base, n) else ClosedForm(d, base, n - m)
  {
    var cs, kids := [w, d], [Sched(w, 0, 0.0, base, []), Sched(d, 0, 0.0, base, [])];
    TwoKids(w, d, base, base);
    SequentialFromCreation(cs, [m], base, base, n);
    TwoKidsAnyRate(w, d, m, base, CreateFlat(cs, base, base).1, lr);
    assert Active([m], n) == if n < m then 0 else 1;
    var both := Create(SequentialLR([m]), base, kids, lr);
    hide ClosedForm, CreateFlat, Create;
    StepsKeepKids(both.sched, both.lr, n);
  }

  lemma TwoKids(w: Config, d: Config, base: real, lr: real)
    requires Flat(w) && Accepted(w) && Flat(d) && Accepted(d)
    ensures CreateFlat([w, d], base, lr).0 == [Sched(w, 0, 0.0, base, []), Sched(d, 0, 0.0, base, [])]
  {
    CreatedKids([w, d], base, lr);
  }

  /** The rate that the optimizer has when a SequentialLR is created does not matter. */
  lemma TwoKidsAnyRate(w: Config, d: Config, m: int, base: real, lr: real, lr': real)
    requires Flat(w) && Accepted(w) && Flat(d) && Accepted(d)
    ensures var kids := [Sched(w, 0, 0.0, base, []), Sched(d, 0, 0.0, base, [])];
            && WellFormed(Sched(SequentialLR([m]), -1, 0.0, base, kids))
            && Create(SequentialLR([m]), base, kids, lr) == Create(SequentialLR([m]), base, kids, lr')
  {
  }

  lemma {:induction false} StepsKeepKids(t: Sched, lr: real, n: nat)
    requires WellFormed(t) && t.config.SequentialLR?
    ensures Steps(t, lr, n).Done? ==>
              Steps(t, lr, n).sched.config == t.config && |Steps(t, lr, n).sched.kids| == |t.kids|
  {
    if n > 0 {
      StepsKeepKids(t, lr, n - 1);
      hide ClosedForm, ChainedForm;
    }
  }

  /** What CreateLRScheduler makes of its two parts. */
  lemma TrainingParts(c: TrainingConfig, base: real, l: Library, n: nat)
    requires !c.style.NoScheduler? && Checks(c, base)
    ensures var m, built := MaxLr(c, base), CreateLRScheduler(c, base, base, l);
            && built.Built? && WellFormed(built.sched)
            && var r := Steps(built.sched, built.lr, n);
            && r.Done?
            && (n < c.warmupIters ==> r.lr == ClosedForm(WarmupConfig(c, m), base, n))
            && (n >= c.warmupIters ==> r.lr == ClosedForm(MainConfig(c, m, l), base, n - c.warmupIters))
  {
    var m := MaxLr(c, base);
    var d := MainConfig(c, m, l);
    if c.warmupIters == 0 {
      FlatRun(d, base, n);
      RunFollowsClosed(d, base, n);
    } else {
      var w := WarmupConfig(c, m);
      var main := Create(d, base, [], base);
      var warmup := Create(w, base, [], main.lr);
      assert warmup.sched == Sched(w, 0, 0.0, base, []) && main.sched == Sched(d, 0, 0.0, base, []);
      hide ClosedForm, Steps, MainConfig, WarmupConfig;
      SequentialOfTwo(w, d, c.warmupIters, base, warmup.lr, n);
    }
  }

  /** The rate n steps after CreateLRScheduler on an optimizer that has its initial rate, base. */
  ghost function RateAfter(c: TrainingConfig, base: real, l: Library, n: nat): real
    requires !c.style.NoScheduler? && Checks(c, base)
  {
    TrainingParts(c, base, l, n);
    var built := CreateLRScheduler(c, base, base, l);
    Steps(built.sched, built.lr, n).lr
  }

  lemma RateIs(c: TrainingConfig, base: real, l: Library, n: nat, f: real)
    requires !c.style.NoScheduler? && Checks(c, base)
    requires n < c.warmupIters ==> Factor(WarmupConfig(c, MaxLr(c, base)), n) == f
    requires n >= c.warmupIters ==> Factor(MainConfig(c, MaxLr(c, base), l), n - c.warmupIters) == f
    ensures RateAfter(c, base, l, n) == base * f
  {
    TrainingParts(c, base, l, n);
    hide Steps, CreateLRScheduler, Factor, MainConfig, WarmupConfig, Checks, ClosedForm;
    var m := MaxLr(c, base);
    if n < c.warmupIters {
      ClosedIs(WarmupConfig(c, m), base, n, f);
    } else {
      ClosedIs(MainConfig(c, m, l), base, n - c.warmupIters, f);
    }
  }

  lemma WarmupFactor(c: TrainingConfig, m: real, n: int, f: real)
    requires m > 0.0 && c.warmupIters > 0
    requires f == (c.warmupInit + (m - c.warmupInit) * (n as real / c.warmupIters as real)) / m
    ensures Factor(WarmupConfig(c, m), n) == f
  {
  }

  /** Warm-up: from warmupInit to the greatest rate m, in proportion to base. */
  lemma WarmupRate(c: TrainingConfig, base: real, l: Library, n: nat, m: real, f: real)
    requires !c.style.NoScheduler? && Checks(c, base) && n < c.warmupIters
    requires m == if c.lr != 0.0 then c.lr else base
    requires f == (c.warmupInit + (m - c.warmupInit) * (n as real / c.warmupIters as real)) / m
    ensures RateAfter(c, base, l, n) == base * f
  {
    WarmupFactor(c, m, n, f);
    hide RateAfter, Factor, WarmupConfig;
    RateIs(c, base, l, n, f);
  }

  lemma ConstantRate(c: TrainingConfig, base: real, l: Library, n: nat)
    requires c.style.Constant? && Checks(c, base) && n >= c.warmupIters
    ensures RateAfter(c, base, l, n) == base
  {
    TrainingParts(c, base, l, n);
    hide Steps, CreateLRScheduler;
  }

  /** s steps after the warm-up. */
  lemma LinearFactor(c: TrainingConfig, m: real, l: Library, s: int, after: int, f: real)
    requires m > 0.0 && m >= c.minLr >= 0.0 && 0 <= c.warmupIters < c.decayIters && c.style.Linear?
    requires after == c.decayIters - c.warmupIters
    requires f == if s >= after then c.minLr / m else 1.0 + (c.minLr / m - 1.0) * (s as real) / (after as real)
    ensures Factor(MainConfig(c, m, l), s) == f
  {
  }

  /** Linear decay, s steps after the warm-up: in equal steps from m to minLr, in proportion to base. */
  lemma LinearRate(c: TrainingConfig, base: real, l: Library, s: nat, m: real, after: int, f: real)
    requires c.style.Linear? && Checks(c, base)
    requires m == (if c.lr != 0.0 then c.lr else base) && after == c.decayIters - c.warmupIters
    requires f == if s >= after then c.minLr / m else 1.0 + (c.minLr / m - 1.0) * (s as real) / (after as real)
    ensures RateAfter(c, base, l, c.warmupIters + s) == base * f
  {
    LinearFactor(c, m, l, s, after, f);
    hide RateAfter, Factor, MainConfig;
    RateIs(c, base, l, c.warmupIters + s, f);
  }

  lemma CosineFactor(c: TrainingConfig, m: real, l: Library, s: int, after: int, f: real)
    requires m > 0.0 && m >= c.minLr >= 0.0 && 0 <= c.warmupIters < c.decayIters && c.style.Cosine?
    requires after == c.decayIters - c.warmupIters
    requires f == if s > after then c.minLr / m
                  else (c.minLr + 0.5 * (l.cosPi(s as real / after as real) + 1.0) * (m - c.minLr)) / m
    ensures Factor(MainConfig(c, m, l), s) == f
  {
  }

  /** Cosine decay, s steps after the warm-up. */
  lemma CosineRate(c: TrainingConfig, base: real, l: Library, s: nat, m: real, after: int, f: real)
    requires c.style.Cosine? && Checks(c, base)
    requires m == (if c.lr != 0.0 then c.lr else base) && after == c.decayIters - c.warmupIters
    requires f == if s > after then c.minLr / m
                  else (c.minLr + 0.5 * (l.cosPi(s as real / after as real) + 1.0) * (m - c.minLr)) / m
    ensures RateAfter(c, base, l, c.warmupIters + s) == base * f
  {
    CosineFactor(c, m, l, s, after, f);
    hide RateAfter, Factor, MainConfig;
    RateIs(c, base, l, c.warmupIters + s, f);
  }

  lemma InverseSquareRootFactor(c: TrainingConfig, m: real, l: Library, n: int, w: real, x: real, y: real, f: real)
    requires m > 0.0 && m >= c.minLr >= 0.0 && 0 <= c.warmupIters < c.decayIters && c.style.InverseSquareRoot?
    requires w == l.sqrt(if c.warmupIters < 1 then 1.0 else c.warmupIters as real)
    requires x == l.sqrt(if n < 1 then 1.0 else n as real) && y == if x == 0.0 then 0.0 else m * w / x
    requires f == if n > c.decayIters then c.minLr / m else (if c.minLr < y then y else c.minLr) / m
    ensures Factor(MainConfig(c, m, l), n - c.warmupIters) == f
  {
    InverseSquareRootIs(c, m, l, n, w, x, y, f);
    assert n - c.warmupIters + c.warmupIters == n;
    hide InverseSquareRootFraction;
  }

  lemma DecayedIs(m: real, w: real, x: real, y: real)
    requires y == if x == 0.0 then 0.0 else m * w / x
    ensures Decayed(m, w, x) == y
  {
  }

  lemma InverseSquareRootIs(c: TrainingConfig, m: real, l: Library, n: int, w: real, x: real, y: real, f: real)
    requires m > 0.0
    requires w == l.sqrt(if c.warmupIters < 1 then 1.0 else c.warmupIters as real)
    requires x == l.sqrt(if n < 1 then 1.0 else n as real) && y == if x == 0.0 then 0.0 else m * w / x
    requires f == if n > c.decayIters then c.minLr / m else (if c.minLr < y then y else c.minLr) / m
    ensures InverseSquareRootFraction(c, m, l, n) == f
  {
    assert l.sqrt(AtLeastOne(n)) == x && l.sqrt(AtLeastOne(c.warmupIters)) == w;
    DecayedIs(m, w, x, y);
    hide Decayed;
  }

  /** Inverse square root decay, n steps after the beginning. */
  lemma InverseSquareRootRate(c: TrainingConfig, base: real, l: Library, n: nat,
                              m: real, w: real, x: real, y: real, f: real)
    requires c.style.InverseSquareRoot? && Checks(c, base) && n >= c.warmupIters
    requires m == if c.lr != 0.0 then c.lr else base
    requires w == l.sqrt(if c.warmupIters < 1 then 1.0 else c.warmupIters as real)
    requires x == l.sqrt(if n < 1 then 1.0 else n as real) && y == if x == 0.0 then 0.0 else m * w / x
    requires f == if n > c.decayIters then c.minLr / m else (if c.minLr < y then y else c.minLr) / m
    ensures RateAfter(c, base, l, n) == base * f
  {
    InverseSquareRootFactor(c, m, l, n, w, x, y, f);
    hide RateAfter, Factor, MainConfig;
    RateIs(c, base, l, n, f);
  }

  /** When the greatest rate is the optimizer's, a linear run goes from warmupInit up to it and down to minLr. */
  lemma LinearTraining(c: TrainingConfig, base: real, l: Library, n: nat)
    requires c.style.Linear? && Checks(c, base) && (c.lr == 0.0 || c.lr == base)
    ensures n == 0 && c.warmupIters > 0 ==> RateAfter(c, base, l, n) == c.warmupInit
    ensures n == c.warmupIters ==> RateAfter(c, base, l, n) == base
    ensures n >= c.decayIters ==> RateAfter(c, base, l, n) == c.minLr
  {
    hide RateAfter;
    var w, after := c.warmupIters, c.decayIters - c.warmupIters;
    if n == 0 && w > 0 {
      WarmupRate(c, base, l, 0, base, c.warmupInit / base);
      WholeOf(base, c.warmupInit);
    } else if n == w {
      ZeroOf(c.minLr / base - 1.0, after as real);
      LinearRate(c, base, l, 0, base, after, 1.0);
    } else if n >= c.decayIters {
      LinearRate(c, base, l, n - w, base, after, c.minLr / base);
      WholeOf(base, c.minLr);
    }
  }

  lemma WholeOf(b: real, x: real)
    requires b > 0.0
    ensures b * (x / b) == x
  {
  }

  lemma ZeroOf(x: real, y: real)
    requires y > 0.0
    ensures x * 0.0 / y == 0.0
  {
  }
}
