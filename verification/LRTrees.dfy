/**
 * Scheduler trees and their runs: what Step, InitialStep and the composites SequentialLR and
 * ChainedScheduler do to the shared optimizer rate, as functions, and the schedules that result.
 */
module LRTrees {
  import opened RealFacts
  import opened LRForms

  /** last_step_, recover_lr_ and base_lr_ of a scheduler, with its configuration and children. */
  datatype Sched = Sched(config: Config, last: int, recover: real, base: real, kids: seq<Sched>)

  /** Fatal is a LOG(FATAL): the closed form of a composite. */
  datatype Outcome = Fatal | Done(sched: Sched, lr: real)

  datatype AllOutcome = AllFatal | AllDone(kids: seq<Sched>, lr: real)

  ghost predicate WellFormed(t: Sched) {
    && Accepted(t.config)
    && (match t.config
        case SequentialLR(milestones) => |t.kids| > 0 && |milestones| == |t.kids| - 1
        case ChainedScheduler => |t.kids| > 0
        case _ => t.kids == [])
    && forall i :: 0 <= i < |t.kids| ==> WellFormed(t.kids[i])
  }

  /** std::upper_bound: how many milestones have been reached. */
  function Active(milestones: seq<int>, t: int): (n: nat)
    ensures n <= |milestones|
  {
    if milestones == [] || t < milestones[0] then 0 else 1 + Active(milestones[1..], t)
  }

  /** Step(epoch): jump to an epoch with the closed form. */
  function StepTo(t: Sched, epoch: int): Outcome
    requires Accepted(t.config)
  {
    if Flat(t.config) then Done(t.(last := epoch), ClosedForm(t.config, t.base, epoch)) else Fatal
  }

  function FlatStep(t: Sched, initial: bool, lr: real): Outcome
    requires Flat(t.config) && Accepted(t.config)
  {
    Done(t.(last := t.last + 1), ChainedForm(t.config, t.base, t.last + 1, initial, lr))
  }

  ghost function Step(t: Sched, lr: real): (r: Outcome)
    requires WellFormed(t)
    decreases t
  {
    match t.config
    case SequentialLR(milestones) =>
      var n := t.last + 1;
      var i := Active(milestones, n);
      assert WellFormed(t.kids[i]);
      var r := if i > 0 && milestones[i - 1] == n then StepTo(t.kids[i], 0) else Step(t.kids[i], lr);
      if r.Fatal? then Fatal else Done(t.(last := n, kids := t.kids[i := r.sched]), r.lr)
    case ChainedScheduler =>
      var r := StepAll(t.kids, lr);
      if r.AllFatal? then Fatal else Done(t.(last := t.last + 1, kids := r.kids), r.lr)
    case _ => FlatStep(t, false, lr)
  }

  ghost function StepAll(kids: seq<Sched>, lr: real): (r: AllOutcome)
    requires forall i :: 0 <= i < |kids| ==> WellFormed(kids[i])
    decreases kids
  {
    if kids == [] then AllDone([], lr)
    else
      var r := Step(kids[0], lr);
      if r.Fatal? then AllFatal
      else
        var rest := StepAll(kids[1..], r.lr);
        if rest.AllFatal? then AllFatal else AllDone([r.sched] + rest.kids, rest.lr)
  }

  lemma SequentialStepUnfolds(t: Sched, lr: real, i: nat)
    requires WellFormed(t) && t.config.SequentialLR? && i == Active(t.config.milestones, t.last + 1)
    ensures i < |t.kids| && WellFormed(t.kids[i])
    ensures var n := t.last + 1;
            var r := if i > 0 && t.config.milestones[i - 1] == n then StepTo(t.kids[i], 0) else Step(t.kids[i], lr);
            Step(t, lr) == if r.Fatal? then Fatal else Done(t.(last := n, kids := t.kids[i := r.sched]), r.lr)
  {
    assert WellFormed(t.kids[i]);
  }

  lemma ChainedStepUnfolds(t: Sched, lr: real)
    requires WellFormed(t) && t.config.ChainedScheduler?
    ensures forall i :: 0 <= i < |t.kids| ==> WellFormed(t.kids[i])
    ensures Step(t, lr) ==
            var r := StepAll(t.kids, lr);
            if r.AllFatal? then Fatal else Done(t.(last := t.last + 1, kids := r.kids), r.lr)
  {
  }

  /** The outcome of stepping all children, when those in done have been stepped and r is the rest. */
  ghost function Combine(done: seq<Sched>, r: AllOutcome): AllOutcome {
    if r.AllFatal? then AllFatal else AllDone(done + r.kids, r.lr)
  }

  lemma CombineStart(kids: seq<Sched>, lr: real)
    requires forall i :: 0 <= i < |kids| ==> WellFormed(kids[i])
    ensures kids[0..] == kids && Combine([], StepAll(kids[0..], lr)) == StepAll(kids, lr)
  {
    assert kids[0..] == kids;
  }

  lemma CombineStep(done: seq<Sched>, kids: seq<Sched>, i: nat, lr: real)
    requires i < |kids| && forall j :: 0 <= j < |kids| ==> WellFormed(kids[j])
    ensures var r := Step(kids[i], lr);
            Combine(done, StepAll(kids[i..], lr)) ==
            if r.Fatal? then AllFatal else Combine(done + [r.sched], StepAll(kids[i + 1..], r.lr))
  {
    hide Step, WellFormed;
    assert kids[i..][1..] == kids[i + 1..];
  }

  lemma CombineEnd(done: seq<Sched>, kids: seq<Sched>, lr: real)
    ensures Combine(done, StepAll(kids[|kids|..], lr)) == AllDone(done, lr)
  {
  }

  /** UndoChildInitialSteps */
  function Undo(kids: seq<Sched>): (r: seq<Sched>)
    ensures |r| == |kids|
    decreases kids
  {
    if kids == [] then []
    else
      var k := kids[0];
      var k1 := if k.config.SequentialLR? then k.(kids := Undo(k.kids)) else k;
      [k1.(last := k.last - 1)] + Undo(kids[1..])
  }

  lemma UndoAt(kids: seq<Sched>, i: nat)
    requires i < |kids|
    ensures var k := kids[i];
            Undo(kids)[i] == (if k.config.SequentialLR? then k.(kids := Undo(k.kids)) else k).(last := k.last - 1)
  {
    if i > 0 {
      UndoAt(kids[1..], i - 1);
    }
  }

  ghost function Size(t: Sched): nat
    decreases t
  {
    1 + SizeAll(t.kids)
  }

  ghost function SizeAll(kids: seq<Sched>): nat
    decreases kids
  {
    if kids == [] then 0 else Size(kids[0]) + SizeAll(kids[1..])
  }

  lemma UndoKeepsSize(kids: seq<Sched>)
    ensures SizeAll(Undo(kids)) == SizeAll(kids)
    decreases kids
  {
    if kids != [] {
      UndoKeepsSize(kids[1..]);
      if kids[0].config.SequentialLR? {
        UndoKeepsSize(kids[0].kids);
      }
    }
  }

  lemma UndoneKidIsSmaller(t: Sched)
    requires t.kids != []
    ensures Size(Undo(t.kids)[0]) < Size(t)
  {
    UndoKeepsSize(t.kids);
    UndoAt(t.kids, 0);
  }

  lemma {:induction false} UndoKeepsWellFormed(kids: seq<Sched>)
    requires forall i :: 0 <= i < |kids| ==> WellFormed(kids[i])
    ensures forall i :: 0 <= i < |kids| ==> WellFormed(Undo(kids)[i])
    decreases kids
  {
    forall i | 0 <= i < |kids|
      ensures WellFormed(Undo(kids)[i])
    {
      UndoAt(kids, i);
      assert WellFormed(kids[i]);
      if kids[i].config.SequentialLR? {
        UndoKeepsWellFormed(kids[i].kids);
      }
    }
  }

  ghost function InitialStep(t: Sched, lr: real): Outcome
    requires WellFormed(t)
    decreases Size(t)
  {
    match t.config
    case SequentialLR(_) =>
      UndoKeepsWellFormed(t.kids);
      UndoneKidIsSmaller(t);
      var kids := Undo(t.kids);
      var r := InitialStep(kids[0], t.kids[0].base);
      if r.Fatal? then Fatal else Done(t.(last := t.last + 1, kids := kids[0 := r.sched]), r.lr)
    case ChainedScheduler => Done(t.(last := 0), lr)
    case _ => FlatStep(t, true, lr)
  }

  lemma SequentialInitialStepUnfolds(t: Sched, lr: real)
    requires WellFormed(t) && t.config.SequentialLR?
    ensures var kids := Undo(t.kids);
            && WellFormed(kids[0])
            && var r := InitialStep(kids[0], t.kids[0].base);
            InitialStep(t, lr) == if r.Fatal? then Fatal
              else Done(t.(last := t.last + 1, kids := kids[0 := r.sched]), r.lr)
  {
    UndoKeepsWellFormed(t.kids);
  }

  /** LRScheduler::Create for a scheduler that starts before its first step. */
  ghost function Create(config: Config, base: real, kids: seq<Sched>, lr: real): Outcome
    requires WellFormed(Sched(config, -1, 0.0, base, kids))
  {
    InitialStep(Sched(config, -1, 0.0, base, kids), lr)
  }

  // ---------------------------------------------------------------- building flat children

  predicate AllFlat(cs: seq<Config>) {
    forall i :: 0 <= i < |cs| ==> Flat(cs[i]) && Accepted(cs[i])
  }

  /** The children of a composite are created one after the other on the shared optimizer. */
  ghost function CreateFlat(cs: seq<Config>, base: real, lr: real): (r: (seq<Sched>, real))
    requires AllFlat(cs)
    ensures |r.0| == |cs|
  {
    if cs == [] then ([], lr)
    else
      var first := Create(cs[0], base, [], lr);
      var rest := CreateFlat(cs[1..], base, first.lr);
      ([first.sched] + rest.0, rest.1)
  }

  lemma CreatedKids(cs: seq<Config>, base: real, lr: real)
    requires AllFlat(cs)
    ensures CreateFlat(cs, base, lr).0 == seq(|cs|, i requires 0 <= i < |cs| => Sched(cs[i], 0, 0.0, base, []))
  {
  }

  ghost function Steps(t: Sched, lr: real, n: nat): Outcome
    requires WellFormed(t)
    decreases n
  {
    if n == 0 then Done(t, lr)
    else
      var r := Steps(t, lr, n - 1);
      if r.Fatal? || !WellFormed(r.sched) then Fatal else Step(r.sched, r.lr)
  }

  // ---------------------------------------------------------------- SequentialLR

  /** The step at which child i takes over. */
  function Start(milestones: seq<int>, i: nat): int
    requires i <= |milestones|
  {
    if i == 0 then 0 else milestones[i - 1]
  }

  lemma {:induction false} ActiveIsUpperBound(milestones: seq<int>, t: int)
    requires Accepted(SequentialLR(milestones))
    ensures forall j :: 0 <= j < Active(milestones, t) ==> milestones[j] <= t
    ensures forall j :: Active(milestones, t) <= j < |milestones| ==> t < milestones[j]
  {
    if milestones != [] {
      if t < milestones[0] {
        FirstIsLeast(milestones);
      } else {
        assert Accepted(SequentialLR(milestones[1..]));
        ActiveIsUpperBound(milestones[1..], t);
      }
    }
  }

  lemma {:induction false} FirstIsLeast(milestones: seq<int>)
    requires Accepted(SequentialLR(milestones)) && milestones != []
    ensures forall j :: 0 <= j < |milestones| ==> milestones[0] <= milestones[j]
  {
    if |milestones| > 1 {
      assert Accepted(SequentialLR(milestones[1..]));
      FirstIsLeast(milestones[1..]);
    }
  }

  /** A SequentialLR whose children are flat, with the first milestone above 0. */
  ghost predicate FlatSequential(t: Sched) {
    && WellFormed(t) && t.config.SequentialLR?
    && (t.config.milestones != [] ==> t.config.milestones[0] > 0)
    && forall i :: 0 <= i < |t.kids| ==> Flat(t.kids[i].config) && Regular(t.kids[i].config)
  }

  /** After n steps: the child in charge stands at its own step count and the rate is its closed form. */
  ghost predicate FollowsChild(t: Sched, lr: real, n: int)
    requires FlatSequential(t)
  {
    var i := Active(t.config.milestones, n);
    var k := t.kids[i];
    && t.last == n
    && k.last == n - Start(t.config.milestones, i)
    && lr == (assert WellFormed(k); ClosedForm(k.config, k.base, k.last))
  }

  /** From one step to the next the same child stays in charge, or the next one starts at its milestone. */
  lemma {:induction false} ActiveAdvances(milestones: seq<int>, n: int)
    requires Accepted(SequentialLR(milestones))
    ensures var i, i' := Active(milestones, n), Active(milestones, n + 1);
            || (i' == i && (i > 0 ==> milestones[i - 1] != n + 1))
            || (i' == i + 1 && milestones[i] == n + 1)
  {
    if milestones != [] {
      assert Accepted(SequentialLR(milestones[1..]));
      if milestones[0] <= n {
        ActiveAdvances(milestones[1..], n);
      } else if |milestones| > 1 {
        assert milestones[0] < milestones[1];
      }
    }
  }

  ghost predicate SameConfig(t: Sched, t': Sched) {
    && t'.config == t.config && t'.base == t.base && |t'.kids| == |t.kids|
    && forall i :: 0 <= i < |t.kids| ==> t'.kids[i].config == t.kids[i].config && t'.kids[i].base == t.kids[i].base
  }

  lemma KidReplaced(t: Sched, i: nat, k: Sched, last: int)
    requires FlatSequential(t) && i < |t.kids|
    requires WellFormed(k) && k.config == t.kids[i].config && k.base == t.kids[i].base
    ensures var t' := t.(last := last, kids := t.kids[i := k]);
            FlatSequential(t') && SameConfig(t, t')
  {
    var t' := t.(last := last, kids := t.kids[i := k]);
    forall j | 0 <= j < |t'.kids|
      ensures WellFormed(t'.kids[j])
    {
      assert WellFormed(t.kids[j]);
    }
  }

  lemma SequentialStep(t: Sched, lr: real, n: nat)
    requires FlatSequential(t) && FollowsChild(t, lr, n)
    ensures var r := Step(t, lr);
            r.Done? && FlatSequential(r.sched) && FollowsChild(r.sched, r.lr, n + 1) && SameConfig(t, r.sched)
  {
    var ms := t.config.milestones;
    var i, i' := Active(ms, n), Active(ms, n + 1);
    ActiveAdvances(ms, n);
    ActiveIsUpperBound(ms, n);
    var k := t.kids[i'];
    assert WellFormed(k) && Flat(k.config) && Regular(k.config);
    var last' := if i' == i then k.last + 1 else 0;
    if i' == i {
      assert k.last >= 0;
      ChainedFollowsClosed(k.config, k.base, last', false, lr);
    }
    KidReplaced(t, i', k.(last := last'), n + 1);
    assert Step(t, lr) ==
           Done(t.(last := n + 1, kids := t.kids[i' := k.(last := last')]), ClosedForm(k.config, k.base, last'));
  }

  /** A flat SequentialLR n steps after its creation, built from t0. */
  ghost predicate OnSchedule(t0: Sched, t: Sched, lr: real, n: int) {
    FlatSequential(t) && FollowsChild(t, lr, n) && SameConfig(t0, t)
  }

  lemma ScheduleStep(t0: Sched, t: Sched, lr: real, n: nat)
    requires OnSchedule(t0, t, lr, n)
    ensures WellFormed(t)
    ensures var r := Step(t, lr); r.Done? && OnSchedule(t0, r.sched, r.lr, n + 1)
  {
    hide FollowsChild, Step;
    SequentialStep(t, lr, n);
  }

  /**
   * After any number of steps the rate of a flat SequentialLR is the closed form of the child in
   * charge at its own step count, and that child's last_step_ is exactly that count.
   */
  lemma {:induction false} SequentialSchedule(t: Sched, lr: real, n: nat)
    requires WellFormed(t) && OnSchedule(t, t, lr, 0)
    ensures var r := Steps(t, lr, n);
            r.Done? && OnSchedule(t, r.sched, r.lr, n)
  {
    hide OnSchedule, Step, WellFormed;
    if n > 0 {
      SequentialSchedule(t, lr, n - 1);
      var r := Steps(t, lr, n - 1);
      ScheduleStep(t, r.sched, r.lr, n - 1);
    }
  }

  ghost predicate AllRegular(cs: seq<Config>) {
    forall i :: 0 <= i < |cs| ==> Regular(cs[i])
  }

  lemma CreatedSequential(cs: seq<Config>, milestones: seq<int>, base: real, lr: real)
    requires AllFlat(cs) && AllRegular(cs) && |cs| > 0 && |milestones| == |cs| - 1
    requires Accepted(SequentialLR(milestones)) && (milestones != [] ==> milestones[0] > 0)
    ensures var kids := CreateFlat(cs, base, lr).0;
            WellFormed(Sched(SequentialLR(milestones), -1, 0.0, base, kids))
    ensures var (kids, lr1) := CreateFlat(cs, base, lr);
            var r := Create(SequentialLR(milestones), base, kids, lr1);
            && r.Done? && OnSchedule(r.sched, r.sched, r.lr, 0)
            && r.sched.config.milestones == milestones && |r.sched.kids| == |cs|
            && forall i :: 0 <= i < |cs| ==> r.sched.kids[i].config == cs[i] && r.sched.kids[i].base == base
  {
    CreatedKids(cs, base, lr);
    var (kids, lr1) := CreateFlat(cs, base, lr);
    forall i | 0 <= i < |kids|
      ensures WellFormed(kids[i]) && Undo(kids)[i] == Sched(cs[i], -1, 0.0, base, [])
    {
      UndoAt(kids, i);
    }
    ChainedFollowsClosed(cs[0], base, 0, true, base);
    var r := Create(SequentialLR(milestones), base, kids, lr1);
    assert InitialStep(Undo(kids)[0], base) == Done(Sched(cs[0], 0, 0.0, base, []), ClosedForm(cs[0], base, 0));
    assert r.sched.kids == Undo(kids)[0 := Sched(cs[0], 0, 0.0, base, [])];
    forall i | 0 <= i < |r.sched.kids|
      ensures WellFormed(r.sched.kids[i])
    {
    }
    assert FlatSequential(r.sched);
    assert FollowsChild(r.sched, r.lr, 0);
  }

  /**
   * The schedule of a SequentialLR from its creation: after n steps the optimizer's rate is the
   * closed form of child i at n - m(i-1), where i is the number of milestones up to n.
   */
  lemma SequentialFromCreation(cs: seq<Config>, milestones: seq<int>, base: real, lr: real, n: nat)
    requires AllFlat(cs) && AllRegular(cs) && |cs| > 0 && |milestones| == |cs| - 1
    requires Accepted(SequentialLR(milestones)) && (milestones != [] ==> milestones[0] > 0)
    ensures var (kids, lr1) := CreateFlat(cs, base, lr);
            && WellFormed(Sched(SequentialLR(milestones), -1, 0.0, base, kids))
            && var created := Create(SequentialLR(milestones), base, kids, lr1);
            && created.Done? && WellFormed(created.sched)
            && var r := Steps(created.sched, created.lr, n);
            var i := Active(milestones, n);
            && r.Done? && i < |r.sched.kids|
            && r.sched.kids[i].last == n - Start(milestones, i)
            && r.lr == ClosedForm(cs[i], base, n - Start(milestones, i))
  {
    CreatedSequential(cs, milestones, base, lr);
    var (kids, lr1) := CreateFlat(cs, base, lr);
    hide Create, InitialStep, Step, Steps, CreateFlat, WellFormed, Accepted, OnSchedule, ClosedForm;
    var created := Create(SequentialLR(milestones), base, kids, lr1);
    ScheduleIsOfTree(created.sched, created.sched, created.lr, 0);
    SequentialSchedule(created.sched, created.lr, n);
    var r := Steps(created.sched, created.lr, n);
    ScheduleSays(created.sched, r.sched, r.lr, n, cs, base);
  }

  lemma ScheduleIsOfTree(t0: Sched, t: Sched, lr: real, n: int)
    requires OnSchedule(t0, t, lr, n)
    ensures WellFormed(t)
  {
    hide FollowsChild;
  }

  /** What OnSchedule says about the child in charge. */
  lemma ScheduleSays(t0: Sched, t: Sched, lr: real, n: int, cs: seq<Config>, base: real)
    requires OnSchedule(t0, t, lr, n) && t0.config.SequentialLR? && |t0.kids| == |cs| && AllFlat(cs)
    requires forall i :: 0 <= i < |cs| ==> t0.kids[i].config == cs[i] && t0.kids[i].base == base
    ensures var i := Active(t0.config.milestones, n);
            && i < |t.kids| == |cs| && i <= |t0.config.milestones|
            && t.kids[i].last == n - Start(t0.config.milestones, i)
            && lr == ClosedForm(cs[i], base, n - Start(t0.config.milestones, i))
  {
    hide ClosedForm;
  }

  // ---------------------------------------------------------------- ChainedScheduler

  /** The product of the children's factors at step t. */
  ghost function Product(cs: seq<Config>, t: int): real
    requires AllFlat(cs)
  {
    if cs == [] then 1.0 else Mul(Factor(cs[0], t), Product(cs[1..], t))
  }

  /** Children whose step scales the rate, by a regular schedule. */
  ghost predicate Scaling(cs: seq<Config>) {
    AllFlat(cs) && AllRegular(cs) && forall i :: 0 <= i < |cs| ==> !cs[i].LambdaLR?
  }

  ghost predicate KidsAt(kids: seq<Sched>, cs: seq<Config>, base: real, t: int) {
    |kids| == |cs| && forall i :: 0 <= i < |cs| ==> kids[i] == Sched(cs[i], t, 0.0, base, [])
  }

  lemma KidsWellFormed(kids: seq<Sched>, cs: seq<Config>, base: real, t: int)
    requires KidsAt(kids, cs, base, t) && AllFlat(cs)
    ensures forall i :: 0 <= i < |kids| ==> WellFormed(kids[i])
  {
  }

  /** One child's step inside the product. */
  lemma FirstKidScales(cs: seq<Config>, base: real, t: int, x: real, lr: real)
    requires Scaling(cs) && t > 0 && cs != [] && lr == x * Product(cs, t - 1)
    ensures var k := Sched(cs[0], t - 1, 0.0, base, []);
            && WellFormed(k)
            && var r := Step(k, lr);
            && r.Done? && r.sched == k.(last := t) && r.lr == (x * Factor(cs[0], t)) * Product(cs[1..], t - 1)
  {
    hide Factor, Ratio, ChainedForm;
    var whole := Product(cs, t - 1);
    ChainedScales(cs[0], base, t, lr);
    RatioAdvances(cs[0], t);
    ScaleFirst(x, Factor(cs[0], t - 1), Product(cs[1..], t - 1), Ratio(cs[0], t), Factor(cs[0], t), whole, lr);
  }

  /** One pass over the children takes the product of their factors from t - 1 to t. */
  lemma {:induction false} StepAllScales(kids: seq<Sched>, cs: seq<Config>, base: real, t: int, x: real, lr: real)
    requires Scaling(cs) && t > 0 && KidsAt(kids, cs, base, t - 1) && lr == x * Product(cs, t - 1)
    requires forall i :: 0 <= i < |kids| ==> WellFormed(kids[i])
    ensures var r := StepAll(kids, lr);
            r.AllDone? && KidsAt(r.kids, cs, base, t) && r.lr == x * Product(cs, t)
  {
    hide Factor, Step, WellFormed;
    if cs != [] {
      FirstKidScales(cs, base, t, x, lr);
      StepAllScales(kids[1..], cs[1..], base, t, x * Factor(cs[0], t), Step(kids[0], lr).lr);
      MulAssociates(x, Factor(cs[0], t), Product(cs[1..], t));
    }
  }

  /** A ChainedScheduler n steps after its creation: base rate times the product of the factors. */
  ghost predicate OnProduct(t: Sched, cs: seq<Config>, base: real, lr: real, n: int) {
    && WellFormed(t) && t.config == ChainedScheduler && t.last == n
    && Scaling(cs) && KidsAt(t.kids, cs, base, n) && lr == base * Product(cs, n)
  }

  lemma ChainedStep(t: Sched, cs: seq<Config>, base: real, lr: real, n: nat)
    requires OnProduct(t, cs, base, lr, n)
    ensures WellFormed(t)
    ensures var r := Step(t, lr); r.Done? && OnProduct(r.sched, cs, base, r.lr, n + 1)
  {
    hide Factor, Product;
    StepAllScales(t.kids, cs, base, n + 1, base, lr);
    KidsWellFormed(Step(t, lr).sched.kids, cs, base, n + 1);
  }

  lemma {:induction false} ChainedSchedule(t: Sched, cs: seq<Config>, base: real, lr: real, n: nat)
    requires WellFormed(t) && OnProduct(t, cs, base, lr, 0)
    ensures var r := Steps(t, lr, n); r.Done? && OnProduct(r.sched, cs, base, r.lr, n)
  {
    hide OnProduct, Step, WellFormed;
    if n > 0 {
      ChainedSchedule(t, cs, base, lr, n - 1);
      var r := Steps(t, lr, n - 1);
      ChainedStep(r.sched, cs, base, r.lr, n - 1);
    }
  }

  /** Creating the children one after the other multiplies the rate by their factors at 0. */
  lemma {:induction false} CreatedProduct(cs: seq<Config>, base: real, x: real)
    requires Scaling(cs)
    ensures CreateFlat(cs, base, x).1 == x * Product(cs, 0)
  {
    hide Factor, ChainedForm;
    if cs != [] {
      ChainedAtZero(cs[0], base, true, x);
      var x1 := Create(cs[0], base, [], x).lr;
      assert x1 == x * Factor(cs[0], 0);
      CreatedProduct(cs[1..], base, x1);
      ProductStep(x, Factor(cs[0], 0), Product(cs[1..], 0), x1);
    }
  }

  /**
   * The schedule of a ChainedScheduler from its creation: after n steps the rate is the base rate
   * times the product of the children's factors.
   */
  lemma ChainedFromCreation(cs: seq<Config>, base: real, n: nat)
    requires Scaling(cs) && |cs| > 0
    ensures var (kids, lr1) := CreateFlat(cs, base, base);
            && WellFormed(Sched(ChainedScheduler, -1, 0.0, base, kids))
            && var created := Create(ChainedScheduler, base, kids, lr1);
            && created.Done? && WellFormed(created.sched)
            && var r := Steps(created.sched, created.lr, n);
            r.Done? && r.lr == base * Product(cs, n)
  {
    hide Factor, Product, Step, CreateFlat;
    CreatedKids(cs, base, base);
    CreatedProduct(cs, base, base);
    var (kids, lr1) := CreateFlat(cs, base, base);
    KidsWellFormed(kids, cs, base, 0);
    var created := Create(ChainedScheduler, base, kids, lr1);
    assert WellFormed(created.sched);
    ChainedSchedule(created.sched, cs, base, created.lr, n);
  }

  /** Any entry may be taken out of the product first. */
  lemma {:induction false} ProductRemove(cs: seq<Config>, i: nat, t: int)
    requires AllFlat(cs) && i < |cs|
    ensures AllFlat(cs[..i] + cs[i + 1..])
    ensures Product(cs, t) == Mul(Factor(cs[i], t), Product(cs[..i] + cs[i + 1..], t))
  {
    hide Factor;
    var rest := cs[..i] + cs[i + 1..];
    if i == 0 {
      assert rest == cs[1..];
    } else {
      var rest' := cs[1..][..i - 1] + cs[1..][i..];
      ProductRemove(cs[1..], i - 1, t);
      assert rest[1..] == rest' && rest[0] == cs[0];
      SwapFactors(Factor(cs[0], t), Factor(cs[i], t), Product(rest[1..], t));
    }
  }

  lemma ProductFirst(cs: seq<Config>, t: int)
    requires AllFlat(cs) && cs != []
    ensures Product(cs, t) == Mul(Factor(cs[0], t), Product(cs[1..], t))
  {
    hide Factor, Mul;
  }

  /** The order of the children does not matter. */
  lemma {:induction false} ProductAnyOrder(cs: seq<Config>, cs': seq<Config>, t: int)
    requires AllFlat(cs) && AllFlat(cs') && multiset(cs) == multiset(cs')
    ensures Product(cs, t) == Product(cs', t)
    decreases |cs|
  {
    if cs == [] {
      assert |multiset(cs')| == 0;
    } else {
      hide Factor, Product, Mul;
      var i := PickOut(cs, cs');
      ProductFirst(cs, t);
      var rest := cs'[..i] + cs'[i + 1..];
      ProductRemove(cs', i, t);
      ProductAnyOrder(cs[1..], rest, t);
    }
  }
}
