/** The main result about one call of Tensor.Backward. */
module AutogradPasses {
  import opened AutogradMachine
  import opened AutogradRuns
  import opened AutogradHistory

  /** Every consumer of a function reachable from r is reachable from r, and every output is consumed. */
  ghost predicate Enclosed<G>(s: State<G>, r: nat) {
    && (forall v :: Reaches(s, r, v) ==> Consumed(s, v))
    && (forall m :: m in s.route && s.route[m].node != r && Reaches(s, r, s.route[m].node) ==>
          m.Wire? && Reaches(s, r, m.f))
  }

  lemma EnclosedStays<G>(s: State<G>, s': State<G>, r: nat)
    requires SameGraph(s, s') && Enclosed(s, r)
    ensures Enclosed(s', r)
  {
    forall v | Reaches(s', r, v)
      ensures Consumed(s', v)
    {
      ReachesStays(s', s, r, v);
      SameTables(s, s', v);
    }
    forall m | m in s'.route && s'.route[m].node != r && Reaches(s', r, s'.route[m].node)
      ensures m.Wire? && Reaches(s', r, m.f)
    {
      ReachesStays(s', s, r, s'.route[m].node);
      ReachesStays(s, s', r, m.f);
    }
  }

  /** What a root that has not fired reaches has not fired either. */
  lemma {:induction false} ReachableWaits<G(!new)>(s: State<G>, r: nat, v: nat)
    requires Inv(s) && r !in s.log && Reaches(s, r, v)
    ensures v !in s.log
    decreases Height(s, v)
  {
    if v != r && v in s.log {
      var m :| m in s.route && m.Wire? && s.route[m].node == v
               && m.f < |s.nodes| && Rank(s, v) < Rank(s, m.f) && Reaches(s, r, m.f);
      assert m in Into(s, v);
      FiredNodeHasFiredConsumers(s, v);
      ReachableWaits(s, r, m.f);
      assert false;
    }
  }

  lemma SeedIsContained<G(!new)>(s: State<G>, u: nat, k: nat, g: G)
    requires Settled(s) && CanSeed(s, u, k)
    ensures Inv(NewSeed(s, u, k, g)) && Contained(NewSeed(s, u, k, g), u)
  {
    hide Inv;
    NewSeedKeepsInv(s, u, k, g);
    SeedIsInFlight(s, u, k, g);
    var s1 := NewSeed(s, u, k, g);
    assert Reaches(s1, u, u);
    forall m | m in InFlight(s1)
      ensures Reaches(s1, u, s1.route[m].node)
    {
      assert m in InFlight(s1) - {Seed(|s.seeds|)} || m == Seed(|s.seeds|);
    }
  }

  lemma SeededRootFires<G(!new)>(s: State<G>, u: nat)
    requires Settled(s) && u < |s.nodes| && u in s.roots && Consumed(s, u) && Into(s, u) != {}
    ensures u in s.log
  {
    forall m | m in Into(s, u)
      ensures m.Seed?
    {
      assert RouteInv(s, m);
    }
    ServedNodeFires(s, u);
  }

  /**
   * A backward pass from u fires exactly the functions reachable from u: each of them once (see
   * FiresAtMostOnceAfterConsumers), after all its consumers, on its reverse-mode total (see
   * FiredOnTotal); and no function that had fired before is reachable.
   */
  lemma BackwardFiresTheReachable<G(!new)>(s: State<G>, u: nat, k: nat, g: G, ms: seq<Msg>, v: nat)
    requires Settled(s) && CanSeed(s, u, k)
    requires var s1 := NewSeed(s, u, k, g);
             Enclosed(s1, u) && Schedule(s1, ms) && InFlight(After(s1, ms)) == {}
    ensures var s1 := NewSeed(s, u, k, g);
            Reaches(s1, u, v) <==> v in After(s1, ms).log && v !in s.log
  {
    hide Inv, InFlight, Schedule, After, Reaches, Consumed;
    var s1 := NewSeed(s, u, k, g);
    var s2 := After(s1, ms);
    SeedIsContained(s, u, k, g);
    AfterProperties(s1, ms);
    if v in s2.log && v !in s.log {
      OnlyReachableFunctionsFire(s1, ms, u, v);
    }
    if Reaches(s1, u, v) {
      ReachableWaits(s1, u, v);
      RootFires(s1, s2, u, Seed(|s.seeds|));
      EnclosedStays(s1, s2, u);
      ReachesStays(s1, s2, u, v);
      EveryReachableFunctionFires(s2, u, v);
    }
  }

  lemma RootFires<G(!new)>(s1: State<G>, s2: State<G>, u: nat, m: Msg)
    requires SameGraph(s1, s2) && Settled(s2) && Enclosed(s1, u) && u < |s1.nodes|
    requires u in s1.roots && m in s1.route && s1.route[m].node == u
    ensures u in s2.log
  {
    hide Inv, InFlight;
    assert Reaches(s1, u, u);
    SameTables(s1, s2, u);
    assert m in Into(s2, u);
    SeededRootFires(s2, u);
  }
}
