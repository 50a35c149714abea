/** CreateLRScheduler and a training run, on the objects. */
module TrainingSchedulers {
  import opened LRForms
  import opened LRTrees
  import opened LRSchedules
  import opened LRSchedulers

  /** The base rate of a scheduler made for the optimizer. */
  function BaseRate(optimizer: Optimizer): real
    reads optimizer
  {
    if optimizer.initialLrSet then optimizer.initialLearningRate else optimizer.learningRate
  }

  method CreateFlat(optimizer: Optimizer, config: Config) returns (s: LRScheduler)
    requires Flat(config) && Accepted(config)
    modifies optimizer
    ensures fresh(s) && s.Valid() && s.optimizer == optimizer && s.repr == {s}
    ensures BaseRate(optimizer) == old(BaseRate(optimizer))
    ensures LRTrees.Create(config, old(BaseRate(optimizer)), [], old(optimizer.learningRate)) ==
            Done(s.Model(), optimizer.learningRate)
  {
    hide ChainedForm;
    s := LRScheduler.Create(optimizer, config, []);
  }

  method CreateSequentialOfTwo(optimizer: Optimizer, first: LRScheduler, second: LRScheduler, milestone: int)
    returns (s: LRScheduler)
    requires first.Valid() && second.Valid() && first.repr !! second.repr
    requires first.optimizer == second.optimizer == optimizer
    modifies optimizer, first.repr, second.repr
    ensures s.Valid() && s.optimizer == optimizer && fresh(s) && s.repr == {s} + first.repr + second.repr
    ensures var kids := [old(first.Model()), old(second.Model())];
            var config := SequentialLR([milestone]);
            && WellFormed(Sched(config, -1, 0.0, old(BaseRate(optimizer)), kids))
            && LRTrees.Create(config, old(BaseRate(optimizer)), kids, old(optimizer.learningRate)) ==
               Done(s.Model(), optimizer.learningRate)
  {
    hide WellFormed, LRTrees.Create, LRTrees.InitialStep;
    ghost var kids := LRScheduler.ModelsOf([first, second]);
    assert kids == [first.Model(), second.Model()];
    s := LRScheduler.Create(optimizer, SequentialLR([milestone]), [first, second]);
    BothReprs(first, second);
  }

  lemma BothReprs(first: LRScheduler, second: LRScheduler)
    ensures LRScheduler.Reprs([first, second]) == first.repr + second.repr
  {
    var cs := [first, second];
    assert cs[0] == first && cs[1] == second;
  }

  /** Null for style none; not ok where a CHECK fails. */
  method CreateLRScheduler(optimizer: Optimizer, c: TrainingConfig, l: Library) returns (ok: bool, s: LRScheduler?)
    modifies optimizer
    ensures s != null ==> s.optimizer == optimizer && s.Valid() && fresh(s.repr)
    ensures LRSchedules.CreateLRScheduler(c, old(BaseRate(optimizer)), old(optimizer.learningRate), l) ==
            if !ok then Rejected else if s == null then Nothing else Built(s.Model(), optimizer.learningRate)
  {
    if c.style.NoScheduler? {
      return true, null;
    }
    if !Checks(c, optimizer.learningRate) {
      return false, null;
    }
    hide ClosedForm, ChainedForm, Checks, LRTrees.Create, WellFormed, MainConfig, WarmupConfig;
    var m := MaxLr(c, optimizer.learningRate);
    var main := CreateFlat(optimizer, MainConfig(c, m, l));
    if c.warmupIters == 0 {
      return true, main;
    }
    ghost var mainSched := main.Model();
    var warmup := CreateFlat(optimizer, WarmupConfig(c, m));
    assert main.Model() == mainSched;
    s := CreateSequentialOfTwo(optimizer, warmup, main, c.warmupIters);
    ok := true;
  }

  lemma RejectedExactlyWhen(c: TrainingConfig, base: real, l: Library)
    requires !c.style.NoScheduler?
    ensures var built := LRSchedules.CreateLRScheduler(c, base, base, l);
            && (built.Rejected? <==> !Checks(c, base)) && !built.Nothing?
            && (built.Built? ==> WellFormed(built.sched))
  {
    if Checks(c, base) {
      TrainingParts(c, base, l, 0);
    }
  }

  /** Training on a new optimizer: after n steps its rate is the one that LRSchedules gives in figures. */
  method Train(optimizer: Optimizer, c: TrainingConfig, l: Library, n: nat) returns (ok: bool)
    requires !optimizer.initialLrSet && !c.style.NoScheduler?
    modifies optimizer
    ensures ok <==> Checks(c, old(optimizer.learningRate))
    ensures ok ==> optimizer.learningRate == RateAfter(c, old(optimizer.learningRate), l, n)
  {
    hide LRTrees.Step, LRSchedules.CreateLRScheduler, Checks, WellFormed;
    ghost var base := optimizer.learningRate;
    RejectedExactlyWhen(c, base, l);
    var s;
    ok, s := CreateLRScheduler(optimizer, c, l);
    if ok {
      ghost var m0, lr0 := s.Model(), optimizer.learningRate;
      for i := 0 to n
        invariant s.Valid() && s.optimizer == optimizer && fresh(s.repr)
        invariant Steps(m0, lr0, i) == Done(s.Model(), optimizer.learningRate)
      {
        TrainingParts(c, base, l, i + 1);
        StepOnce(s, m0, lr0, i);
      }
    }
  }

  /** One more step of a run that does not fail there. */
  method StepOnce(s: LRScheduler, ghost m0: Sched, ghost lr0: real, ghost i: nat)
    requires s.Valid() && WellFormed(m0)
    requires Steps(m0, lr0, i) == Done(s.Model(), s.optimizer.learningRate) && Steps(m0, lr0, i + 1).Done?
    modifies s.repr, s.optimizer
    ensures s.Valid() && Steps(m0, lr0, i + 1) == Done(s.Model(), s.optimizer.learningRate)
  {
    hide LRTrees.Step, WellFormed;
    s.ModelWellFormed();
    var ok := s.Step();
  }
}
