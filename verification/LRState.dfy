/**
 * The state dictionary of a scheduler tree: one flat string-keyed map in which the entries of child
 * i carry the prefix "scheduler_<i>.". Loading undoes saving, at every nesting depth.
 */
module LRState {
  import opened StateValues
  import opened Decimals
  import opened LRTrees

  type Value = StateValue<real, real, string>

  type Dict = map<string, Value>

  const LAST_STEP := "last_step"
  const RECOVER_LR := "recover_lr"
  const BASE_LR := "base_lr"

  // ---------------------------------------------------------------- prefixes

  function Prefix(i: nat): string {
    "scheduler_" + Decimal(i) + "."
  }

  /** The prefixes of different children are separable: no key of child j starts with the prefix of i. */
  lemma PrefixesAreSeparable(i: nat, j: nat, x: string)
    requires Prefix(i) <= Prefix(j) + x
    ensures i == j
  {
    var p, q := Prefix(i), Prefix(j) + x;
    var a, b := Decimal(i), Decimal(j);
    assert p[10..] == a + "." && q[10..] == b + "." + x;
    assert a + "." <= b + "." + x;
    assert (a + ".")[|a|] == '.' && (b + "." + x)[|b|] == '.';
    assert forall k :: 0 <= k < |b| ==> (b + "." + x)[k] == b[k];
    assert forall k :: 0 <= k < |a| ==> (a + ".")[k] == a[k];
    assert |a| == |b|;
    assert a == (a + ".")[..|a|] == (b + "." + x)[..|a|] == b;
    DecimalInjective(i, j);
  }

  lemma OwnKeysHaveNoPrefix(i: nat)
    ensures !(Prefix(i) <= LAST_STEP) && !(Prefix(i) <= RECOVER_LR) && !(Prefix(i) <= BASE_LR)
  {
    assert Prefix(i)[0] == 's';
  }

  // ---------------------------------------------------------------- saving

  /** All entries of sub, each key under the prefix. */
  function WithPrefix(p: string, sub: Dict): Dict {
    map k | k in (set x | x in sub :: p + x) :: sub[k[|p|..]]
  }

  /** The entries whose key starts with the prefix, each key without it. */
  function Strip(p: string, d: Dict): Dict {
    map x | x in (set k | k in d && p <= k :: k[|p|..]) && p + x in d :: d[p + x]
  }

  function OwnState(last: int, lr: real, base: real): Dict {
    map[LAST_STEP := Int64(last), RECOVER_LR := Float(lr), BASE_LR := Float(base)]
  }

  /** StateDict: the scheduler's own entries, with the optimizer's rate, and those of its children. */
  function Save(t: Sched, lr: real): Dict
    decreases t, 0
  {
    OwnState(t.last, lr, t.base) + SaveKids(t.kids, 0, lr)
  }

  function SaveKids(kids: seq<Sched>, i: nat, lr: real): Dict
    decreases kids, 1
  {
    if kids == [] then map[]
    else WithPrefix(Prefix(i), Save(kids[0], lr)) + SaveKids(kids[1..], i + 1, lr)
  }

  lemma SaveUnfolds(t: Sched, lr: real)
    ensures Save(t, lr) ==
            map[LAST_STEP := Int64(t.last), RECOVER_LR := Float(lr), BASE_LR := Float(t.base)] +
              SaveKids(t.kids[0..], 0, lr)
  {
    assert t.kids[0..] == t.kids;
  }

  lemma SaveKidsUnfolds(kids: seq<Sched>, i: nat, lr: real, state: Dict)
    requires i < |kids|
    ensures state + SaveKids(kids[i..], i, lr) ==
            (state + WithPrefix(Prefix(i), Save(kids[i], lr))) + SaveKids(kids[i + 1..], i + 1, lr)
  {
    hide WithPrefix, Save, Prefix;
    assert kids[i..][1..] == kids[i + 1..];
  }

  lemma SaveKidsEnds(kids: seq<Sched>, lr: real)
    ensures SaveKids(kids[|kids|..], |kids|, lr) == map[]
  {
  }

  lemma WithPrefixHas(p: string, sub: Dict, k: string)
    ensures k in WithPrefix(p, sub) <==> p <= k && k[|p|..] in sub
    ensures k in WithPrefix(p, sub) ==> WithPrefix(p, sub)[k] == sub[k[|p|..]]
  {
    if p <= k && k[|p|..] in sub {
      assert k == p + k[|p|..];
    }
    if k in WithPrefix(p, sub) {
      var x :| x in sub && k == p + x;
      assert k[|p|..] == x;
    }
  }

  lemma StripHas(p: string, d: Dict, x: string)
    ensures x in Strip(p, d) <==> p + x in d
    ensures x in Strip(p, d) ==> Strip(p, d)[x] == d[p + x]
  {
    if p + x in d {
      assert p <= p + x && (p + x)[|p|..] == x;
    }
  }

  lemma WithPrefixOfNone(p: string)
    ensures WithPrefix(p, map[]) == map[]
  {
  }

  lemma StripOfNone(p: string)
    ensures Strip(p, map[]) == map[]
  {
  }

  lemma WithPrefixGrows(p: string, sub: Dict, k: string, v: Value)
    requires k !in sub
    ensures WithPrefix(p, sub[k := v]) == WithPrefix(p, sub)[p + k := v]
  {
    hide WithPrefix;
    var a, b := WithPrefix(p, sub[k := v]), WithPrefix(p, sub)[p + k := v];
    forall x
      ensures x in a <==> x in b
      ensures x in a ==> a[x] == b[x]
    {
      WithPrefixHas(p, sub[k := v], x);
      WithPrefixHas(p, sub, x);
      assert p <= x && x[|p|..] == k ==> x == p + k;
      assert p <= p + k && (p + k)[|p|..] == k;
    }
  }

  lemma StripGrows(p: string, d: Dict, k: string, v: Value)
    requires k !in d
    ensures Strip(p, d[k := v]) == if p <= k then Strip(p, d)[k[|p|..] := v] else Strip(p, d)
  {
    hide Strip;
    var a := Strip(p, d[k := v]);
    var b := if p <= k then Strip(p, d)[k[|p|..] := v] else Strip(p, d);
    forall x
      ensures x in a <==> x in b
      ensures x in a ==> a[x] == b[x]
    {
      StripHas(p, d[k := v], x);
      StripHas(p, d, x);
      assert p <= k && x == k[|p|..] ==> p + x == k;
      assert p <= p + x && (p + x)[|p|..] == x;
    }
  }

  /** Which keys the children contribute: exactly the prefixed keys of each. */
  lemma {:induction false} SaveKidsHas(kids: seq<Sched>, i: nat, lr: real, j: nat, x: string)
    ensures Prefix(j) + x in SaveKids(kids, i, lr) <==> i <= j < i + |kids| && x in Save(kids[j - i], lr)
    ensures Prefix(j) + x in SaveKids(kids, i, lr) ==> SaveKids(kids, i, lr)[Prefix(j) + x] == Save(kids[j - i], lr)[x]
    decreases |kids|
  {
    if kids != [] {
      var k := Prefix(j) + x;
      SaveKidsHas(kids[1..], i + 1, lr, j, x);
      WithPrefixHas(Prefix(i), Save(kids[0], lr), k);
      if Prefix(i) <= k {
        PrefixesAreSeparable(i, j, x);
        assert k[|Prefix(i)|..] == x;
      }
      if j == i {
        assert Prefix(i) <= k && k[|Prefix(i)|..] == x;
      }
    }
  }

  /** The children's keys all carry a prefix, so the scheduler's own entries survive. */
  lemma {:induction false} OwnKeysSurvive(kids: seq<Sched>, i: nat, lr: real)
    ensures LAST_STEP !in SaveKids(kids, i, lr) && RECOVER_LR !in SaveKids(kids, i, lr) &&
            BASE_LR !in SaveKids(kids, i, lr)
    decreases |kids|
  {
    if kids != [] {
      OwnKeysSurvive(kids[1..], i + 1, lr);
      OwnKeysHaveNoPrefix(i);
      WithPrefixHas(Prefix(i), Save(kids[0], lr), LAST_STEP);
      WithPrefixHas(Prefix(i), Save(kids[0], lr), RECOVER_LR);
      WithPrefixHas(Prefix(i), Save(kids[0], lr), BASE_LR);
    }
  }

  lemma SavedUnderPrefix(t: Sched, lr: real, i: nat, x: string)
    requires i < |t.kids|
    ensures Prefix(i) + x in Save(t, lr) <==> x in Save(t.kids[i], lr)
    ensures x in Save(t.kids[i], lr) ==> Save(t, lr)[Prefix(i) + x] == Save(t.kids[i], lr)[x]
  {
    hide Prefix;
    SaveKidsHas(t.kids, 0, lr, i, x);
    OwnKeysHaveNoPrefix(i);
    assert Prefix(i) <= Prefix(i) + x;
  }

  /** Stripping the prefix of child i from a saved dictionary gives exactly what child i saved. */
  lemma StripGivesChild(t: Sched, lr: real, i: nat)
    requires i < |t.kids|
    ensures Strip(Prefix(i), Save(t, lr)) == Save(t.kids[i], lr)
  {
    hide Prefix, Save, Strip;
    forall x
      ensures x in Strip(Prefix(i), Save(t, lr)) <==> x in Save(t.kids[i], lr)
      ensures x in Strip(Prefix(i), Save(t, lr)) ==> Strip(Prefix(i), Save(t, lr))[x] == Save(t.kids[i], lr)[x]
    {
      StripHas(Prefix(i), Save(t, lr), x);
      SavedUnderPrefix(t, lr, i, x);
    }
  }

  /** The dictionary by its keys: three entries of the scheduler's own, and those of child i under its prefix. */
  lemma SavedEntries(t: Sched, lr: real, i: nat)
    ensures var d := Save(t, lr);
            && "last_step" in d && d["last_step"] == Int64(t.last)
            && "recover_lr" in d && d["recover_lr"] == Float(lr)
            && "base_lr" in d && d["base_lr"] == Float(t.base)
    ensures i < |t.kids| ==>
              var d, p := Save(t, lr), "scheduler_" + Decimal(i) + ".";
              && p + "last_step" in d && d[p + "last_step"] == Int64(t.kids[i].last)
              && p + "recover_lr" in d && d[p + "recover_lr"] == Float(lr)
              && p + "base_lr" in d && d[p + "base_lr"] == Float(t.kids[i].base)
  {
    OwnKeysSurvive(t.kids, 0, lr);
    if i < |t.kids| {
      OwnKeysSurvive(t.kids[i].kids, 0, lr);
      SavedUnderPrefix(t, lr, i, LAST_STEP);
      SavedUnderPrefix(t, lr, i, RECOVER_LR);
      SavedUnderPrefix(t, lr, i, BASE_LR);
    }
  }

  lemma PrefixByExample()
    ensures Prefix(0) == "scheduler_0." && Prefix(1) == "scheduler_1." && Prefix(10) == "scheduler_10."
  {
    assert Decimal(10) == Decimal(1) + "0";
  }

  // ---------------------------------------------------------------- loading

  /** A missing key or a value of another type makes LoadStateDict throw. */
  datatype LoadOutcome = Throws | Loaded(sched: Sched, lr: real)

  datatype LoadAllOutcome = AllThrow | AllLoaded(kids: seq<Sched>, lr: real)

  predicate HasOwnState(d: Dict) {
    && LAST_STEP in d && d[LAST_STEP].Int64?
    && RECOVER_LR in d && d[RECOVER_LR].Float?
    && BASE_LR in d && d[BASE_LR].Float?
  }

  /** LoadStateDict on a tree, whose shape and configuration stay; lr is the optimizer's rate. */
  function Load(t: Sched, d: Dict, lr: real): LoadOutcome
    decreases t, 0
  {
    if !HasOwnState(d) then Throws
    else
      var own := t.(last := d[LAST_STEP].i, recover := d[RECOVER_LR].x, base := d[BASE_LR].x);
      var r := LoadKids(t.kids, 0, d, if t.config.SequentialLR? then lr else own.recover);
      if r.AllThrow? then Throws
      else Loaded(own.(kids := r.kids), if t.config.SequentialLR? then own.recover else r.lr)
  }

  function LoadKids(kids: seq<Sched>, i: nat, d: Dict, lr: real): LoadAllOutcome
    decreases kids, 2
  {
    if kids == [] then AllLoaded([], lr)
    else
      var first := LoadKid(kids[0], i, d, lr);
      if first.Throws? then AllThrow
      else
        var rest := LoadKids(kids[1..], i + 1, d, first.lr);
        if rest.AllThrow? then AllThrow else AllLoaded([first.sched] + rest.kids, rest.lr)
  }

  /** Child i loads what its prefix selects, unless that is nothing. */
  function LoadKid(kid: Sched, i: nat, d: Dict, lr: real): LoadOutcome
    decreases kid, 1
  {
    var sub := Strip(Prefix(i), d);
    if sub != map[] then Load(kid, sub, lr) else Loaded(kid, lr)
  }

  /** The outcome of loading all children, when those in done have been loaded and r is the rest. */
  function CombineLoad(done: seq<Sched>, r: LoadAllOutcome): LoadAllOutcome {
    if r.AllThrow? then AllThrow else AllLoaded(done + r.kids, r.lr)
  }

  lemma CombineLoadStart(kids: seq<Sched>, d: Dict, lr: real)
    ensures kids[0..] == kids && CombineLoad([], LoadKids(kids[0..], 0, d, lr)) == LoadKids(kids, 0, d, lr)
  {
    assert kids[0..] == kids;
  }

  lemma CombineLoadStep(done: seq<Sched>, kids: seq<Sched>, i: nat, d: Dict, lr: real)
    requires i < |kids|
    ensures var r := LoadKid(kids[i], i, d, lr);
            CombineLoad(done, LoadKids(kids[i..], i, d, lr)) ==
            if r.Throws? then AllThrow else CombineLoad(done + [r.sched], LoadKids(kids[i + 1..], i + 1, d, r.lr))
  {
    hide LoadKid;
    assert kids[i..][1..] == kids[i + 1..];
  }

  lemma CombineLoadEnd(done: seq<Sched>, kids: seq<Sched>, d: Dict, lr: real)
    ensures CombineLoad(done, LoadKids(kids[|kids|..], |kids|, d, lr)) == AllLoaded(done, lr)
  {
  }

  /** Built from the same configuration: same tree, any counters and rates. */
  ghost predicate SameTree(t: Sched, t': Sched) {
    t'.config == t.config && |t'.kids| == |t.kids| &&
    forall i :: 0 <= i < |t.kids| ==> SameTree(t.kids[i], t'.kids[i])
  }

  /** The tree with recover_lr_ set everywhere, the one field that loading does not copy but sets to the rate. */
  function WithRecover(t: Sched, lr: real): Sched {
    t.(recover := lr, kids := AllWithRecover(t.kids, lr))
  }

  function AllWithRecover(kids: seq<Sched>, lr: real): (r: seq<Sched>)
    ensures |r| == |kids|
  {
    if kids == [] then [] else [WithRecover(kids[0], lr)] + AllWithRecover(kids[1..], lr)
  }

  /** Loading what t saved into a tree of the same configuration gives t back, and the rate. */
  lemma {:induction false} LoadUndoesSave(t: Sched, lr: real, blank: Sched, lr0: real)
    requires SameTree(t, blank)
    ensures Load(blank, Save(t, lr), lr0) == Loaded(WithRecover(t, lr), lr)
    decreases t, 0
  {
    OwnKeysSurvive(t.kids, 0, lr);
    var d := Save(t, lr);
    assert HasOwnState(d) && d[LAST_STEP] == Int64(t.last) && d[RECOVER_LR] == Float(lr) && d[BASE_LR] == Float(t.base);
    LoadKidsUndoesSave(t, lr, blank, 0, if blank.config.SequentialLR? then lr0 else lr);
  }

  lemma SameTreeKid(t: Sched, t': Sched, i: nat)
    requires SameTree(t, t') && i < |t.kids|
    ensures |t'.kids| == |t.kids| && SameTree(t.kids[i], t'.kids[i])
  {
  }

  /** Child i gets from the whole dictionary what it saved. */
  lemma LoadKidGets(t: Sched, lr: real, kid: Sched, i: nat, lr0: real)
    requires i < |t.kids|
    ensures LoadKid(kid, i, Save(t, lr), lr0) == Load(kid, Save(t.kids[i], lr), lr0)
  {
    StripGivesChild(t, lr, i);
    assert LAST_STEP in Save(t.kids[i], lr) by {
      OwnKeysSurvive(t.kids[i].kids, 0, lr);
    }
    hide Load, Save, Strip;
  }

  lemma {:induction false} LoadKidsUndoesSave(t: Sched, lr: real, blank: Sched, i: nat, lr0: real)
    requires SameTree(t, blank) && i <= |t.kids|
    ensures LoadKids(blank.kids[i..], i, Save(t, lr), lr0) ==
            AllLoaded(AllWithRecover(t.kids[i..], lr), if i == |t.kids| then lr0 else lr)
    decreases t, 0, |t.kids| - i
  {
    if i < |t.kids| {
      hide Save, LoadKid, LoadKids, WithRecover, AllWithRecover, SameTree;
      SameTreeKid(t, blank, i);
      LoadUndoesSave(t.kids[i], lr, blank.kids[i], lr0);
      LoadKidGets(t, lr, blank.kids[i], i, lr0);
      LoadKidsUndoesSave(t, lr, blank, i + 1, lr);
      LoadKidsUnfolds(blank.kids, i, Save(t, lr), lr0, WithRecover(t.kids[i], lr), lr,
        AllWithRecover(t.kids[i + 1..], lr), lr);
      AllWithRecoverUnfolds(t.kids, i, lr);
    }
  }

  lemma LoadKidsUnfolds(kids: seq<Sched>, i: nat, d: Dict, lr: real, kid: Sched, lr1: real, rest: seq<Sched>, lr2: real)
    requires i < |kids| && LoadKid(kids[i], i, d, lr) == Loaded(kid, lr1) &&
             LoadKids(kids[i + 1..], i + 1, d, lr1) == AllLoaded(rest, lr2)
    ensures LoadKids(kids[i..], i, d, lr) == AllLoaded([kid] + rest, lr2)
  {
    hide LoadKid;
    assert kids[i..][1..] == kids[i + 1..];
  }

  lemma AllWithRecoverUnfolds(kids: seq<Sched>, i: nat, lr: real)
    requires i < |kids|
    ensures AllWithRecover(kids[i..], lr) == [WithRecover(kids[i], lr)] + AllWithRecover(kids[i + 1..], lr)
  {
    hide WithRecover;
    assert kids[i..][1..] == kids[i + 1..];
  }

  // ---------------------------------------------------------------- resuming

  /** The same tree up to recover_lr_, which no step reads. */
  ghost predicate Alike(t: Sched, t': Sched) {
    t'.config == t.config && t'.last == t.last && t'.base == t.base && AlikeAll(t.kids, t'.kids)
  }

  ghost predicate AlikeAll(kids: seq<Sched>, kids': seq<Sched>) {
    |kids'| == |kids| && forall i :: 0 <= i < |kids| ==> Alike(kids[i], kids'[i])
  }

  lemma {:induction false} AlikeWellFormed(t: Sched, t': Sched)
    requires Alike(t, t') && WellFormed(t)
    ensures WellFormed(t')
    decreases t
  {
    forall i | 0 <= i < |t'.kids|
      ensures WellFormed(t'.kids[i])
    {
      AlikeWellFormed(t.kids[i], t'.kids[i]);
    }
  }

  lemma {:induction false} WithRecoverIsAlike(t: Sched, lr: real)
    ensures Alike(t, WithRecover(t, lr))
    decreases t, 0
  {
    AllWithRecoverIsAlike(t.kids, lr);
  }

  lemma {:induction false} AllWithRecoverIsAlike(kids: seq<Sched>, lr: real)
    ensures AlikeAll(kids, AllWithRecover(kids, lr))
    decreases kids, 1
  {
    if kids != [] {
      WithRecoverIsAlike(kids[0], lr);
      AllWithRecoverIsAlike(kids[1..], lr);
    }
  }

  ghost predicate SameResult(r: Outcome, r': Outcome) {
    r.Fatal? == r'.Fatal? && (r.Done? ==> r'.lr == r.lr && Alike(r.sched, r'.sched))
  }

  lemma {:induction false} StepsAlike(t: Sched, t': Sched, lr: real)
    requires Alike(t, t') && WellFormed(t) && WellFormed(t')
    ensures SameResult(Step(t, lr), Step(t', lr))
    decreases t, 0
  {
    match t.config
    case SequentialLR(milestones) =>
      var i := Active(milestones, t.last + 1);
      assert WellFormed(t.kids[i]) && WellFormed(t'.kids[i]);
      StepsAlike(t.kids[i], t'.kids[i], lr);
    case ChainedScheduler => StepAllAlike(t.kids, t'.kids, lr);
    case _ =>
  }

  lemma {:induction false} StepAllAlike(kids: seq<Sched>, kids': seq<Sched>, lr: real)
    requires AlikeAll(kids, kids')
    requires forall i :: 0 <= i < |kids| ==> WellFormed(kids[i])
    requires forall i :: 0 <= i < |kids'| ==> WellFormed(kids'[i])
    ensures var r, r' := StepAll(kids, lr), StepAll(kids', lr);
            r.AllFatal? == r'.AllFatal? && (r.AllDone? ==> r'.lr == r.lr && AlikeAll(r.kids, r'.kids))
    decreases kids, 1
  {
    if kids != [] {
      StepsAlike(kids[0], kids'[0], lr);
      var r := Step(kids[0], lr);
      if r.Done? {
        StepAllAlike(kids[1..], kids'[1..], r.lr);
      }
    }
  }

  lemma {:induction false} RunsAlike(t: Sched, t': Sched, lr: real, n: nat)
    requires Alike(t, t') && WellFormed(t) && WellFormed(t')
    ensures SameResult(Steps(t, lr, n), Steps(t', lr, n))
  {
    if n > 0 {
      hide Step, WellFormed, Alike;
      RunsAlike(t, t', lr, n - 1);
      var r, r' := Steps(t, lr, n - 1), Steps(t', lr, n - 1);
      if r.Done? {
        AlikeSymmetric(r.sched, r'.sched);
        if WellFormed(r.sched) {
          AlikeWellFormed(r.sched, r'.sched);
          StepsAlike(r.sched, r'.sched, r.lr);
        } else if WellFormed(r'.sched) {
          AlikeWellFormed(r'.sched, r.sched);
        }
      }
    }
  }

  lemma {:induction false} AlikeSymmetric(t: Sched, t': Sched)
    requires Alike(t, t')
    ensures Alike(t', t)
    decreases t
  {
    forall i | 0 <= i < |t.kids|
      ensures Alike(t'.kids[i], t.kids[i])
    {
      AlikeSymmetric(t.kids[i], t'.kids[i]);
    }
  }

  /**
   * Resuming: save a scheduler tree, however nested, load the dictionary into a tree freshly built
   * from the same configuration, and step n times: the rates are those of the uninterrupted run.
   */
  lemma ResumeEqualsUninterrupted(t: Sched, lr: real, blank: Sched, lr0: real, n: nat)
    requires WellFormed(t) && SameTree(t, blank)
    ensures var loaded := Load(blank, Save(t, lr), lr0);
            && loaded.Loaded? && loaded.lr == lr && WellFormed(loaded.sched)
            && SameResult(Steps(t, lr, n), Steps(loaded.sched, loaded.lr, n))
  {
    hide Load, Save, Steps, Alike;
    LoadUndoesSave(t, lr, blank, lr0);
    WithRecoverIsAlike(t, lr);
    AlikeWellFormed(t, WithRecover(t, lr));
    RunsAlike(t, WithRecover(t, lr), lr, n);
  }
}
