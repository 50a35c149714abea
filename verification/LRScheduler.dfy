/**
 * The scheduler objects: a tree of LRScheduler objects over one shared Optimizer. Every method is
 * proved against the functions of LRTrees and LRState on the tree's abstract value, Model().
 */
module LRSchedulers {
  import opened StateValues
  import opened LRForms
  import opened LRTrees
  import opened LRState

  class Optimizer {
    var learningRate: real
    var initialLearningRate: real
    var initialLrSet: bool

    constructor (lr: real)
      ensures learningRate == lr && !initialLrSet
    {
      learningRate, initialLearningRate, initialLrSet := lr, 0.0, false;
    }
  }

  class LRScheduler {
    const optimizer: Optimizer
    const config: Config
    const children: seq<LRScheduler>
    ghost const height: nat
    ghost const repr: set<LRScheduler>

    var lastStep: int
    var recoverLr: real
    var baseLr: real
    var isInitial: bool

    /** The objects form a tree over one optimizer, with the shape the configuration asks for. */
    ghost predicate Tree()
      decreases height
    {
      && this in repr
      && Accepted(config)
      && (match config
          case SequentialLR(milestones) => |children| > 0 && |milestones| == |children| - 1
          case ChainedScheduler => |children| > 0
          case _ => children == [])
      && (forall i :: 0 <= i < |children| ==>
            && children[i].height < height && children[i].repr <= repr && this !in children[i].repr
            && children[i] in children[i].repr
            && children[i].optimizer == optimizer && children[i].Tree())
      && (forall i, j :: 0 <= i < j < |children| ==> children[i].repr !! children[j].repr)
    }

    ghost predicate Valid()
      reads repr
    {
      Tree() && forall s :: s in repr ==> !s.isInitial
    }

    /** The abstract value of the tree. */
    ghost function Model(): Sched
      requires Tree()
      reads repr
      decreases height, 1
    {
      Sched(config, lastStep, recoverLr, baseLr, Models())
    }

    ghost function Models(): (r: seq<Sched>)
      requires Tree()
      ensures |r| == |children| && forall i :: 0 <= i < |r| ==>
              children[i].height < height && r[i] == children[i].Model()
      reads repr
      decreases height, 0
    {
      seq(|children|, i requires 0 <= i < |children| reads repr => children[i].Model())
    }

    lemma ModelWellFormed()
      requires Tree()
      ensures WellFormed(Model())
      decreases height
    {
      forall i | 0 <= i < |children|
        ensures WellFormed(Model().kids[i])
      {
        children[i].ModelWellFormed();
      }
    }

    static ghost function Reprs(cs: seq<LRScheduler>): set<LRScheduler> {
      set s, i | 0 <= i < |cs| && s in cs[i].repr :: s
    }

    /** What the constructors check, and that no child is shared. */
    static ghost predicate Composable(optimizer: Optimizer, config: Config, children: seq<LRScheduler>)
      reads Reprs(children)
    {
      && Accepted(config)
      && (match config
          case SequentialLR(milestones) => |children| > 0 && |milestones| == |children| - 1
          case ChainedScheduler => |children| > 0
          case _ => children == [])
      && (forall i :: 0 <= i < |children| ==>
            children[i].Tree() && children[i].Valid() && children[i].optimizer == optimizer)
      && (forall i, j :: 0 <= i < j < |children| ==> children[i].repr !! children[j].repr)
    }

    static ghost function ModelsOf(cs: seq<LRScheduler>): seq<Sched>
      requires forall i :: 0 <= i < |cs| ==> cs[i].Tree()
      reads Reprs(cs)
    {
      seq(|cs|, i requires 0 <= i < |cs| reads Reprs(cs) => cs[i].Model())
    }

    static ghost function MaxHeight(cs: seq<LRScheduler>): (h: nat)
      ensures forall i :: 0 <= i < |cs| ==> cs[i].height <= h
    {
      if cs == [] then 0
      else
        var rest := MaxHeight(cs[1..]);
        if cs[0].height > rest then cs[0].height else rest
    }

    /** The constructor: the base rate is the optimizer's initial rate, recorded on first use. */
    constructor (optimizer: Optimizer, config: Config, children: seq<LRScheduler>, lastStep: int)
      requires Composable(optimizer, config, children)
      modifies optimizer
      ensures Valid() && fresh(this) && this.optimizer == optimizer && this.config == config &&
              this.children == children
      ensures optimizer.learningRate == old(optimizer.learningRate) && optimizer.initialLrSet
      ensures optimizer.initialLearningRate ==
              if old(optimizer.initialLrSet) then old(optimizer.initialLearningRate) else old(optimizer.learningRate)
      ensures repr == {this} + Reprs(children)
      ensures Model() == Sched(config, lastStep, 0.0, optimizer.initialLearningRate, old(ModelsOf(children)))
    {
      this.optimizer, this.config, this.children := optimizer, config, children;
      this.repr := {this} + Reprs(children);
      this.height := MaxHeight(children) + 1;
      this.lastStep := lastStep;
      recoverLr, isInitial := 0.0, false;
      if !optimizer.initialLrSet {
        optimizer.initialLearningRate := optimizer.learningRate;
        optimizer.initialLrSet := true;
      }
      baseLr := optimizer.initialLearningRate;
      new;
      assert Tree() by {
        hide Accepted;
      }
      assert Models() == ModelsOf(children);
    }

    // ---------------------------------------------------------------- stepping

    method ApplyLR(lr: real)
      modifies optimizer`learningRate
      ensures optimizer.learningRate == lr
    {
      optimizer.learningRate := lr;
    }

    /** GetChainedFormLR of a flat scheduler. */
    method GetChainedFormLR() returns (lr: real)
      requires Flat(config) && Accepted(config)
      ensures lr == ChainedForm(config, baseLr, lastStep, isInitial, optimizer.learningRate)
    {
      lr := ChainedForm(config, baseLr, lastStep, isInitial, optimizer.learningRate);
    }

    /** Step() of a flat scheduler, initial or not. */
    method FlatStepOnce()
      requires Tree() && Flat(config)
      modifies this`lastStep, optimizer`learningRate
      ensures FlatStep(old(Model()), isInitial, old(optimizer.learningRate)) == Done(Model(), optimizer.learningRate)
    {
      lastStep := lastStep + 1;
      var lr := GetChainedFormLR();
      ApplyLR(lr);
    }

    /** Step(epoch): the closed form at an epoch; fatal for the composites. */
    method StepToEpoch(epoch: int) returns (ok: bool)
      requires Valid()
      modifies this`lastStep, optimizer`learningRate
      ensures Valid()
      ensures StepTo(old(Model()), epoch) == if ok then Done(Model(), optimizer.learningRate) else Fatal
    {
      lastStep := epoch;
      if !Flat(config) {
        return false;
      }
      ApplyLR(ClosedForm(config, baseLr, lastStep));
      ok := true;
    }

    /** std::upper_bound on the milestones. */
    static method UpperBound(milestones: seq<int>, t: int) returns (n: nat)
      requires Accepted(SequentialLR(milestones))
      ensures n == Active(milestones, t)
    {
      ActiveIsUpperBound(milestones, t);
      var lo, hi := 0, |milestones|;
      while lo < hi
        invariant 0 <= lo <= Active(milestones, t) <= hi <= |milestones|
      {
        var mid := (lo + hi) / 2;
        if milestones[mid] <= t {
          lo := mid + 1;
        } else {
          hi := mid;
        }
      }
      n := lo;
    }

    method Step() returns (ok: bool)
      requires Valid()
      modifies repr, optimizer`learningRate
      ensures Valid()
      ensures WellFormed(old(Model()))
      ensures LRTrees.Step(old(Model()), old(optimizer.learningRate)) ==
              if ok then Done(Model(), optimizer.learningRate) else Fatal
      decreases height
    {
      ModelWellFormed();
      if config.SequentialLR? {
        ok := SequentialStep();
      } else if config.ChainedScheduler? {
        ok := ChainedStep();
      } else {
        FlatStepOnce();
        ok := true;
      }
    }

    /** Step child i, or jump it to its step 0; the other children stay as they are. */
    method StepChild(i: nat, jump: bool) returns (ok: bool)
      requires Valid() && i < |children|
      modifies children[i].repr, optimizer`learningRate
      ensures Valid() && this !in children[i].repr
      ensures WellFormed(old(children[i].Model()))
      ensures (if jump then StepTo(old(children[i].Model()), 0)
               else LRTrees.Step(old(children[i].Model()), old(optimizer.learningRate))) ==
              if ok then Done(children[i].Model(), optimizer.learningRate) else Fatal
      ensures Models() == old(Models())[i := children[i].Model()]
      decreases height, 0
    {
      hide WellFormed, ClosedForm, ChainedForm, LRTrees.Step;
      children[i].ModelWellFormed();
      if jump {
        ok := children[i].StepToEpoch(0);
      } else {
        ok := children[i].Step();
      }
      forall j | 0 <= j < |children| && j != i
        ensures children[j].Model() == old(children[j].Model())
      {
        assert children[j].repr !! children[i].repr;
      }
    }

    method SequentialStep() returns (ok: bool)
      requires Valid() && config.SequentialLR?
      modifies repr, optimizer`learningRate
      ensures Valid()
      ensures WellFormed(old(Model()))
      ensures LRTrees.Step(old(Model()), old(optimizer.learningRate)) ==
              if ok then Done(Model(), optimizer.learningRate) else Fatal
      decreases height, 1
    {
      hide WellFormed, ClosedForm, ChainedForm, LRTrees.Step;
      ModelWellFormed();
      ghost var m0, lr0 := Model(), optimizer.learningRate;
      lastStep := lastStep + 1;
      var i := UpperBound(config.milestones, lastStep);
      SequentialStepUnfolds(m0, lr0, i);
      assert Models() == m0.kids;
      ok := StepChild(i, i > 0 && config.milestones[i - 1] == lastStep);
    }

    method ChainedStep() returns (ok: bool)
      requires Valid() && config.ChainedScheduler?
      modifies repr, optimizer`learningRate
      ensures Valid()
      ensures WellFormed(old(Model()))
      ensures LRTrees.Step(old(Model()), old(optimizer.learningRate)) ==
              if ok then Done(Model(), optimizer.learningRate) else Fatal
      decreases height, 1
    {
      hide WellFormed, LRTrees.Step, StepAll, Combine;
      ModelWellFormed();
      ghost var m0, lr0 := Model(), optimizer.learningRate;
      ghost var k0 := m0.kids;
      ChainedStepUnfolds(m0, lr0);
      CombineStart(k0, lr0);
      lastStep := lastStep + 1;
      assert Models() == k0 && Models()[..0] == [];
      for i := 0 to |children|
        invariant Valid() && lastStep == m0.last + 1 && baseLr == m0.base && recoverLr == m0.recover
        invariant forall j :: i <= j < |children| ==> Models()[j] == k0[j]
        invariant StepAll(k0, lr0) == Combine(Models()[..i], StepAll(k0[i..], optimizer.learningRate))
      {
        ghost var ms := Models();
        CombineStep(ms[..i], k0, i, optimizer.learningRate);
        ok := StepChild(i, false);
        if !ok {
          return;
        }
        assert Models()[..i + 1] == ms[..i] + [children[i].Model()];
      }
      CombineEnd(Models(), k0, optimizer.learningRate);
      assert Models()[..|children|] == Models();
      ok := true;
    }

    // ---------------------------------------------------------------- the initial step

    method ResetStep(step: int)
      requires Tree()
      modifies this`lastStep
      ensures lastStep == step && Models() == old(Models())
    {
      lastStep := step;
    }

    /** One child's share of UndoChildInitialSteps; the other children stay as they are. */
    method UndoChild(i: nat)
      requires Valid() && i < |children|
      modifies children[i].repr
      ensures Valid() && this !in children[i].repr
      ensures Models() == old(Models())[i := Undo(old(Models()))[i]]
      decreases height, 0
    {
      UndoAt(Models(), i);
      var child := children[i];
      if child.config.SequentialLR? {
        child.UndoChildInitialSteps();
      }
      child.ResetStep(child.lastStep - 1);
      forall j | 0 <= j < |children| && j != i
        ensures children[j].Model() == old(children[j].Model())
      {
        assert children[j].repr !! children[i].repr;
      }
    }

    method UndoChildInitialSteps()
      requires Valid()
      modifies repr - {this}
      ensures Valid()
      ensures Models() == Undo(old(Models()))
      decreases height, 1
    {
      ghost var k0 := Models();
      for i := 0 to |children|
        invariant Valid()
        invariant forall j :: 0 <= j < i ==> Models()[j] == Undo(k0)[j]
        invariant forall j :: i <= j < |children| ==> Models()[j] == k0[j]
      {
        UndoAt(k0, i);
        UndoAt(Models(), i);
        UndoChild(i);
      }
    }

    method InitialStep()
      requires Valid()
      modifies repr, optimizer`learningRate
      ensures Valid()
      ensures WellFormed(old(Model()))
      ensures LRTrees.InitialStep(old(Model()), old(optimizer.learningRate)) == Done(Model(), optimizer.learningRate)
      decreases height
    {
      ModelWellFormed();
      if config.SequentialLR? {
        SequentialInitialStep();
      } else if config.ChainedScheduler? {
        ResetStep(0);
      } else {
        isInitial := true;
        FlatStepOnce();
        isInitial := false;
      }
    }

    /** The first child's initial step, its siblings staying as they are. */
    method StartFirstChild()
      requires Valid() && |children| > 0
      modifies children[0].repr, optimizer`learningRate
      ensures Valid() && this !in children[0].repr
      ensures WellFormed(old(children[0].Model()))
      ensures LRTrees.InitialStep(old(children[0].Model()), old(optimizer.learningRate)) ==
              Done(children[0].Model(), optimizer.learningRate)
      ensures Models() == old(Models())[0 := children[0].Model()]
      decreases height, 0
    {
      hide WellFormed, LRTrees.InitialStep;
      children[0].InitialStep();
      forall j | 0 < j < |children|
        ensures children[j].Model() == old(children[j].Model())
      {
        assert children[j].repr !! children[0].repr;
      }
    }

    method SequentialInitialStep()
      requires Valid() && config.SequentialLR?
      modifies repr, optimizer`learningRate
      ensures Valid()
      ensures WellFormed(old(Model()))
      ensures LRTrees.InitialStep(old(Model()), old(optimizer.learningRate)) == Done(Model(), optimizer.learningRate)
      decreases height, 1
    {
      hide WellFormed, LRTrees.InitialStep, Undo, Accepted, ChainedForm, ClosedForm;
      ModelWellFormed();
      ghost var m0, lr0 := Model(), optimizer.learningRate;
      SequentialInitialStepUnfolds(m0, lr0);
      optimizer.learningRate := children[0].baseLr;
      UndoChildInitialSteps();
      lastStep := lastStep + 1;
      assert Models() == Undo(m0.kids);
      StartFirstChild();
    }

    /** LRScheduler::Create: construct, then make the initial step. */
    static method Create(optimizer: Optimizer, config: Config, children: seq<LRScheduler>) returns (s: LRScheduler)
      requires Composable(optimizer, config, children)
      modifies optimizer, Reprs(children)
      ensures s.Valid() && s.optimizer == optimizer && fresh(s) && s.repr == {s} + Reprs(children)
      ensures optimizer.initialLrSet
      ensures optimizer.initialLearningRate ==
              if old(optimizer.initialLrSet) then old(optimizer.initialLearningRate) else old(optimizer.learningRate)
      ensures var base := if old(optimizer.initialLrSet) then old(optimizer.initialLearningRate)
              else old(optimizer.learningRate);
              var kids := old(ModelsOf(children));
              && WellFormed(Sched(config, -1, 0.0, base, kids))
              && LRTrees.Create(config, base, kids, old(optimizer.learningRate)) ==
                Done(s.Model(), optimizer.learningRate)
    {
      hide WellFormed, LRTrees.InitialStep;
      s := new LRScheduler(optimizer, config, children, -1);
      s.ModelWellFormed();
      s.InitialStep();
    }

    // ---------------------------------------------------------------- the state dictionary

    /** state[prefix + key] = value for every entry of sub, in any order. */
    static method AddPrefixed(state: Dict, p: string, sub: Dict) returns (r: Dict)
      ensures r == state + WithPrefix(p, sub)
    {
      hide WithPrefix;
      r := state;
      var left := sub.Keys;
      WithPrefixOfNone(p);
      assert sub - left == map[];
      while left != {}
        invariant left <= sub.Keys
        invariant r == state + WithPrefix(p, sub - left)
      {
        var key :| key in left;
        WithPrefixGrows(p, sub - left, key, sub[key]);
        assert sub - (left - {key}) == (sub - left)[key := sub[key]];
        left := left - {key};
        r := r[p + key := sub[key]];
      }
      assert sub - left == sub;
    }

    method StateDict() returns (state: Dict)
      requires Valid()
      ensures state == Save(Model(), optimizer.learningRate)
      decreases height
    {
      hide WithPrefix, SaveKids, OwnState;
      SaveUnfolds(Model(), optimizer.learningRate);
      state := map[LAST_STEP := Int64(lastStep), RECOVER_LR := Float(optimizer.learningRate), BASE_LR := Float(baseLr)];
      ghost var m, lr := Model(), optimizer.learningRate;
      for i := 0 to |children|
        invariant state + SaveKids(m.kids[i..], i, lr) == Save(m, lr)
      {
        SaveKidsUnfolds(m.kids, i, lr, state);
        var sub := children[i].StateDict();
        state := AddPrefixed(state, Prefix(i), sub);
      }
      SaveKidsEnds(m.kids, lr);
    }

    /** The entries under a prefix, in any order of the dictionary. */
    static method StripPrefix(p: string, d: Dict) returns (sub: Dict)
      ensures sub == Strip(p, d)
    {
      hide Strip;
      sub := map[];
      var left := d.Keys;
      StripOfNone(p);
      assert d - left == map[];
      while left != {}
        invariant left <= d.Keys
        invariant sub == Strip(p, d - left)
      {
        var key :| key in left;
        StripGrows(p, d - left, key, d[key]);
        assert d - (left - {key}) == (d - left)[key := d[key]];
        left := left - {key};
        if p <= key {
          sub := sub[key[|p|..] := d[key]];
        }
      }
      assert d - left == d;
    }

    /** Load child i from its part of the dictionary; the other children stay as they are. */
    method LoadChild(i: nat, d: Dict) returns (ok: bool)
      requires Valid() && i < |children|
      modifies children[i].repr, optimizer`learningRate
      ensures Valid() && this !in children[i].repr
      ensures LoadKid(old(children[i].Model()), i, d, old(optimizer.learningRate)) ==
              if ok then Loaded(children[i].Model(), optimizer.learningRate) else Throws
      ensures Models() == old(Models())[i := children[i].Model()]
      decreases height, 0
    {
      hide Load;
      var sub := StripPrefix(Prefix(i), d);
      ok := true;
      if sub != map[] {
        ok := children[i].LoadStateDict(sub);
      }
      forall j | 0 <= j < |children| && j != i
        ensures children[j].Model() == old(children[j].Model())
      {
        assert children[j].repr !! children[i].repr;
      }
    }

    method LoadChildren(d: Dict) returns (ok: bool)
      requires Valid()
      modifies repr - {this}, optimizer`learningRate
      ensures Valid()
      ensures LoadKids(old(Models()), 0, d, old(optimizer.learningRate)) ==
              if ok then AllLoaded(Models(), optimizer.learningRate) else AllThrow
      decreases height, 1
    {
      hide LoadKids, LoadKid, CombineLoad;
      ghost var k0, lr0 := Models(), optimizer.learningRate;
      CombineLoadStart(k0, d, lr0);
      for i := 0 to |children|
        invariant Valid()
        invariant forall j :: i <= j < |children| ==> Models()[j] == k0[j]
        invariant LoadKids(k0, 0, d, lr0) == CombineLoad(Models()[..i], LoadKids(k0[i..], i, d, optimizer.learningRate))
      {
        ghost var ms := Models();
        CombineLoadStep(ms[..i], k0, i, d, optimizer.learningRate);
        ok := LoadChild(i, d);
        if !ok {
          return;
        }
        assert Models()[..i + 1] == ms[..i] + [children[i].Model()];
      }
      CombineLoadEnd(Models(), k0, d, optimizer.learningRate);
      assert Models()[..|children|] == Models();
      ok := true;
    }

    /** state.at and std::get throw on a missing key or a value of another type. */
    method LoadStateDict(d: Dict) returns (ok: bool)
      requires Valid()
      modifies repr, optimizer`learningRate
      ensures Valid()
      ensures Load(old(Model()), d, old(optimizer.learningRate)) ==
              if ok then Loaded(Model(), optimizer.learningRate) else Throws
      decreases height
    {
      hide LoadKids;
      ghost var m0 := Model();
      if LAST_STEP !in d || !d[LAST_STEP].Int64? {
        return false;
      }
      lastStep := d[LAST_STEP].i;
      if RECOVER_LR !in d || !d[RECOVER_LR].Float? {
        return false;
      }
      recoverLr := d[RECOVER_LR].x;
      if BASE_LR !in d || !d[BASE_LR].Float? {
        return false;
      }
      baseLr := d[BASE_LR].x;
      if !config.SequentialLR? {
        ApplyLR(recoverLr);
      }
      assert Models() == m0.kids;
      ok := LoadChildren(d);
      if config.SequentialLR? {
        ApplyLR(recoverLr);
      }
    }
  }
}
