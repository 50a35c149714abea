/**
 * Loading any state dictionary, complete or not, into a scheduler tree: which entry every field of every
 * scheduler in the tree is taken from, which schedulers keep what they had, and when loading throws.
 */
module LRLoading {
  import opened Decimals
  import opened LRTrees
  import opened LRState

  /** An entry of the scheduler under prefix p, or of a scheduler below it, is missing or of another type. */
  ghost predicate Lacks(d: Dict, p: string) {
    !(&& p + "last_step" in d && d[p + "last_step"].Int64?
      && p + "recover_lr" in d && d[p + "recover_lr"].Float?
      && p + "base_lr" in d && d[p + "base_lr"].Float?)
  }

  /** Some key begins with p. */
  ghost predicate Mentions(d: Dict, p: string) {
    exists k :: k in d && p <= k
  }

  function ChildPrefix(p: string, i: nat): string {
    p + "scheduler_" + Decimal(i) + "."
  }

  /** Loading throws: entries are lacking for the scheduler, or for a child of which the dictionary has some. */
  ghost predicate Incomplete(t: Sched, d: Dict, p: string)
    decreases t, 0
  {
    Lacks(d, p) || exists i :: 0 <= i < |t.kids| && ChildIncomplete(t.kids[i], d, ChildPrefix(p, i))
  }

  ghost predicate ChildIncomplete(kid: Sched, d: Dict, p: string)
    decreases kid, 1
  {
    Mentions(d, p) && Incomplete(kid, d, p)
  }

  /** t' is t with every field taken from its entry, and children that the dictionary does not mention as they were. */
  ghost predicate TakenFrom(t': Sched, t: Sched, d: Dict, p: string)
    decreases t, 0
  {
    && !Lacks(d, p)
    && t'.config == t.config && t'.last == d[p + "last_step"].i
    && t'.recover == d[p + "recover_lr"].x && t'.base == d[p + "base_lr"].x
    && |t'.kids| == |t.kids| && forall i :: 0 <= i < |t.kids| ==>
      ChildTaken(t'.kids[i], t.kids[i], d, ChildPrefix(p, i))
  }

  ghost predicate ChildTaken(kid': Sched, kid: Sched, d: Dict, p: string)
    decreases kid, 1
  {
    if Mentions(d, p) then TakenFrom(kid', kid, d, p) else kid' == kid
  }

  lemma PrefixAppended(p: string, i: nat, x: string)
    ensures p + Prefix(i) == ChildPrefix(p, i)
    ensures p + (Prefix(i) + x) == ChildPrefix(p, i) + x
  {
    hide Decimal;
    assert p + Prefix(i) == ChildPrefix(p, i);
    hide Prefix, ChildPrefix;
    assert p + (Prefix(i) + x) == (p + Prefix(i)) + x;
  }

  /** What the prefix of a child selects of what the prefix p selects. */
  lemma StripTwice(p: string, i: nat, d: Dict)
    ensures Strip(Prefix(i), Strip(p, d)) == Strip(ChildPrefix(p, i), d)
  {
    hide Prefix, ChildPrefix, Strip;
    var a, b := Strip(Prefix(i), Strip(p, d)), Strip(ChildPrefix(p, i), d);
    forall x
      ensures x in a <==> x in b
      ensures x in a ==> a[x] == b[x]
    {
      PrefixAppended(p, i, x);
      StripHas(Prefix(i), Strip(p, d), x);
      StripHas(p, d, Prefix(i) + x);
      StripHas(ChildPrefix(p, i), d, x);
    }
  }

  lemma StripNothing(p: string, d: Dict)
    ensures Strip(p, d) != map[] <==> Mentions(d, p)
  {
    hide Strip;
    if Strip(p, d) != map[] {
      var x :| x in Strip(p, d);
      StripHas(p, d, x);
      assert p <= p + x;
    }
    if k :| k in d && p <= k {
      StripHas(p, d, k[|p|..]);
      assert p + k[|p|..] == k;
    }
  }

  lemma OwnEntries(p: string, d: Dict)
    ensures HasOwnState(Strip(p, d)) <==> !Lacks(d, p)
    ensures !Lacks(d, p) ==>
              var own := Strip(p, d);
              && own["last_step"] == d[p + "last_step"] && own["recover_lr"] == d[p + "recover_lr"]
              && own["base_lr"] == d[p + "base_lr"]
  {
    hide Strip;
    StripHas(p, d, "last_step");
    StripHas(p, d, "recover_lr");
    StripHas(p, d, "base_lr");
  }

  /** Whatever the dictionary and the tree. */
  lemma {:induction false} LoadTakes(t: Sched, d: Dict, p: string, lr: real)
    ensures var r := Load(t, Strip(p, d), lr);
            && (r.Throws? <==> Incomplete(t, d, p))
            && (r.Loaded? ==> TakenFrom(r.sched, t, d, p))
    decreases t, 0
  {
    hide Strip, ChildPrefix, LoadKids, ChildIncomplete, ChildTaken;
    OwnEntries(p, d);
    var own := Strip(p, d);
    if HasOwnState(own) {
      var lr1 := if t.config.SequentialLR? then lr else own["recover_lr"].x;
      LoadKidsTake(t.kids, 0, d, p, lr1);
    }
  }

  lemma {:induction false} LoadKidTakes(kid: Sched, i: nat, d: Dict, p: string, lr: real)
    ensures var r := LoadKid(kid, i, Strip(p, d), lr);
            && (r.Throws? <==> ChildIncomplete(kid, d, ChildPrefix(p, i)))
            && (r.Loaded? ==> ChildTaken(r.sched, kid, d, ChildPrefix(p, i)))
    decreases kid, 1
  {
    hide Strip, ChildPrefix, Load, Mentions, Incomplete, TakenFrom, Prefix;
    StripTwice(p, i, d);
    StripNothing(ChildPrefix(p, i), d);
    LoadTakes(kid, d, ChildPrefix(p, i), lr);
  }

  lemma {:induction false} LoadKidsTake(kids: seq<Sched>, i: nat, d: Dict, p: string, lr: real)
    ensures var r := LoadKids(kids, i, Strip(p, d), lr);
            && (r.AllThrow? <==> exists j :: 0 <= j < |kids| && ChildIncomplete(kids[j], d, ChildPrefix(p, i + j)))
            && (r.AllLoaded? ==> |r.kids| == |kids|)
            && (r.AllLoaded? ==>
                  forall j :: 0 <= j < |kids| ==> ChildTaken(r.kids[j], kids[j], d, ChildPrefix(p, i + j)))
    decreases kids, 2
  {
    hide Strip, ChildPrefix, LoadKid, ChildIncomplete, ChildTaken;
    if kids != [] {
      LoadKidTakes(kids[0], i, d, p, lr);
      var first := LoadKid(kids[0], i, Strip(p, d), lr);
      if first.Loaded? {
        LoadKidsTake(kids[1..], i + 1, d, p, first.lr);
        assert forall j :: 0 < j < |kids| ==> kids[j] == kids[1..][j - 1] && i + j == (i + 1) + (j - 1);
      } else {
        assert ChildIncomplete(kids[0], d, ChildPrefix(p, i + 0));
      }
    }
  }

  /**
   * LoadStateDict throws exactly when the dictionary lacks an entry of the root or of a scheduler of which it
   * mentions any; otherwise every field comes from its entry.
   */
  lemma LoadsExactlyWhen(t: Sched, d: Dict, lr: real)
    ensures Load(t, d, lr).Throws? <==> Incomplete(t, d, "")
    ensures Load(t, d, lr).Loaded? ==> TakenFrom(Load(t, d, lr).sched, t, d, "")
  {
    hide Load, Incomplete, TakenFrom, Strip;
    WholeIsStripped(d);
    LoadTakes(t, d, "", lr);
  }

  lemma WholeIsStripped(d: Dict)
    ensures Strip("", d) == d
  {
    hide Strip;
    forall x
      ensures x in Strip("", d) <==> x in d
      ensures x in d ==> Strip("", d)[x] == d[x]
    {
      StripHas("", d, x);
      assert "" + x == x;
    }
  }

  /** Loading leaves the optimizer at the root's recover_lr, unless children of a ChainedScheduler set it after. */
  lemma RateAfterLoad(t: Sched, d: Dict, lr: real)
    requires Load(t, d, lr).Loaded?
    ensures t.config.SequentialLR? || t.kids == [] ==> Load(t, d, lr).lr == d["recover_lr"].x
  {
    hide LoadKid;
    LoadsExactlyWhen(t, d, lr);
    assert "" + "recover_lr" == "recover_lr";
  }

  lemma {:induction false} SameAsItself(t: Sched)
    ensures SameTree(t, t)
    decreases t
  {
    forall i | 0 <= i < |t.kids|
      ensures SameTree(t.kids[i], t.kids[i])
    {
      SameAsItself(t.kids[i]);
    }
  }

  /** What a tree saves holds, for every scheduler at every depth, its counter, its base rate and the rate. */
  lemma SavedEverywhere(t: Sched, lr: real)
    ensures TakenFrom(WithRecover(t, lr), t, Save(t, lr), "")
  {
    hide Load, Save, WithRecover, TakenFrom, Incomplete, SameTree;
    SameAsItself(t);
    LoadUndoesSave(t, lr, t, lr);
    LoadsExactlyWhen(t, Save(t, lr), lr);
  }
}
