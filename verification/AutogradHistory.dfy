/**
 * Building graphs and running backward passes in any interleaving: every action of a program keeps
 * the invariant of the autograd machine.
 */
module AutogradHistory {
  import opened Wrappers
  import opened GradientSums
  import opened AutogradMachine

  // ---------------------------------------------------------------- actions other than delivery

  /** A new leaf tensor that requires a gradient. */
  function NewLeaf<G>(s: State<G>, grad: Option<G>): State<G> {
    s.(leaves := s.leaves + [Leaf(grad, false, None, grad, {})])
  }

  /** grad or the overwrite flag is written from outside: ZeroGrad, MarkGradOverwriteOnNextAccum, an optimizer. */
  ghost function WriteLeaf<G>(s: State<G>, t: nat, grad: Option<G>, overwrite: bool): State<G>
    requires t < |s.leaves|
  {
    var l := s.leaves[t].(grad := grad, overwrite := overwrite);
    s.(leaves := s.leaves[t := l.(
      base := Plus(s.add, if overwrite then None else grad, Pending(s, l)),
      counted := s.got.Keys)])
  }

  /** The start of Apply: counters reset, non-differentiable outputs counted as reached. */
  ghost function NewFunction<G>(s: State<G>, backward: seq<Option<G>> -> seq<Option<G>>, diff: seq<bool>): State<G> {
    var outs := seq(|diff|, _ => None);
    s.(nodes := s.nodes + [Node(Operator(backward, diff), [], false, 0, 0, |Covered<G>(outs, diff)|, outs, [], [])])
  }

  /** grad_accumulator() of a leaf that has none. */
  function NewAccumulator<G>(s: State<G>, t: nat): State<G>
    requires t < |s.leaves|
  {
    s.(nodes := s.nodes + [Node(Accumulate(t), [], true, 0, 0, 0, [None], [], [])],
       leaves := s.leaves[t := s.leaves[t].(acc := Some(|s.nodes|))])
  }

  /** Apply records one edge and counts it at its target. */
  function NewEdge<G>(s: State<G>, f: nat, e: Edge): State<G>
    requires f < |s.nodes| && (e.target.Some? ==> e.target.value < |s.nodes| && e.target.value != f)
  {
    var n := s.nodes[f];
    var s1 := s.(nodes := s.nodes[f := n.(wires := n.wires + [e])]);
    if e.target.None? then s1
    else
      var u := e.target.value;
      s1.(nodes := s1.nodes[u := s1.nodes[u].(depNum := s1.nodes[u].depNum + 1)],
          route := s.route[Wire(f, |n.wires|) := Dest(u, e.idx)])
  }

  /** The end of Apply. */
  function Complete<G>(s: State<G>, f: nat): State<G>
    requires f < |s.nodes|
  {
    s.(nodes := s.nodes[f := s.nodes[f].(complete := true)])
  }

  /** Tensor.Backward hands its gradient to the function that made the tensor. */
  function NewSeed<G>(s: State<G>, u: nat, k: nat, g: G): State<G> {
    s.(seeds := s.seeds + [g], route := s.route[Seed(|s.seeds|) := Dest(u, k)], roots := s.roots + {u})
  }

  // ---------------------------------------------------------------- when each is allowed

  ghost predicate CanStartFunction(diff: seq<bool>) {
    exists k :: 0 <= k < |diff| && diff[k]
  }

  /** An edge goes to a function that is complete, has not fired and has not been seeded. */
  ghost predicate CanAddEdge<G>(s: State<G>, f: nat, e: Edge) {
    && f < |s.nodes| && !s.nodes[f].complete && f !in s.log
    && (e.target.Some? ==>
          var u := e.target.value;
          && u < |s.nodes| && s.nodes[u].complete && u !in s.log && u !in s.roots
          && e.idx < |Diff(s.nodes[u].op)| && Diff(s.nodes[u].op)[e.idx]
          && Rank(s, u) < Rank(s, f))
  }

  ghost predicate CanSeed<G>(s: State<G>, u: nat, k: nat) {
    && u < |s.nodes| && s.nodes[u].complete && s.nodes[u].op.Operator? && u !in s.log
    && k < |Diff(s.nodes[u].op)| && Diff(s.nodes[u].op)[k]
    && Into(s, u) <= s.got.Keys
    && (u in s.roots || Into(s, u) == {})
  }

  lemma CoversLast<G>(outs: seq<Option<G>>, diff: seq<bool>, d: bool)
    requires |outs| == |diff|
    ensures |Covered(outs + [None], diff + [d])| == |Covered(outs, diff)| + if d then 0 else 1
  {
    assert Covered(outs + [None], diff + [d]) == Covered(outs, diff) + if d then {} else {|outs|};
  }

  // ---------------------------------------------------------------- invariance

  /** New nodes and leaves at the end; everything old is as it was. */
  ghost predicate Extends<G>(s: State<G>, s': State<G>) {
    && s'.add == s.add && s'.seeds == s.seeds && s'.route == s.route && s'.got == s.got
    && s'.log == s.log && s'.roots == s.roots
    && s.nodes <= s'.nodes && |s.leaves| <= |s'.leaves|
    && (forall t :: 0 <= t < |s.leaves| ==>
          s'.leaves[t].base == s.leaves[t].base && s'.leaves[t].counted == s.leaves[t].counted
          && s'.leaves[t].grad == s.leaves[t].grad && s'.leaves[t].overwrite == s.leaves[t].overwrite
          && (s'.leaves[t].acc == s.leaves[t].acc || s.leaves[t].acc.None?))
  }

  lemma ExtendRoutes<G>(s: State<G>, s': State<G>)
    requires Extends(s, s') && RoutesInv(s) && LogInv(s) && SeedInv(s)
    ensures RoutesInv(s') && LogInv(s') && SeedInv(s')
  {
    forall m | m in s'.route
      ensures RouteInv(s', m)
    {
      assert RouteInv(s, m);
    }
    forall m | m in s'.got
      ensures GotInv(s', m)
    {
      assert GotInv(s, m);
    }
  }

  lemma ExtendNode<G(!new)>(s: State<G>, s': State<G>, u: nat)
    requires Extends(s, s') && u < |s.nodes| && NodeInv(s, u)
    ensures NodeInv(s', u)
  {
    assert Into(s', u) == Into(s, u) && Arrived(s', u) == Arrived(s, u);
    assert forall k :: Contrib(s', u, k) == Contrib(s, u, k);
  }

  lemma ExtendReceived<G>(s: State<G>, s': State<G>, t: nat)
    requires Extends(s, s') && t < |s.leaves| && RoutesInv(s)
    ensures Received(s', t) == Received(s, t)
  {
    forall m | m in s.route
      ensures FeedsLeaf(s', m, t) == FeedsLeaf(s, m, t)
    {
      assert RouteInv(s, m);
    }
  }

  lemma ExtendLeaf<G(!new)>(s: State<G>, s': State<G>, t: nat)
    requires Extends(s, s') && t < |s.leaves| && LeafInv(s, t) && RoutesInv(s) && LogInv(s)
    requires s'.leaves[t].acc == s.leaves[t].acc ||
             exists a :: |s.nodes| <= a < |s'.nodes| && s'.leaves[t].acc == Some(a) &&
                         s'.nodes[a].op == Accumulate(t) && s'.nodes[a].outs == [None]
    ensures LeafInv(s', t)
  {
    ExtendReceived(s, s', t);
  }

  lemma NewNodeHasNoMessages<G>(s: State<G>, s': State<G>, u: nat)
    requires Extends(s, s') && RoutesInv(s) && |s.nodes| <= u
    ensures Into(s', u) == {} && Arrived(s', u) == {}
    ensures forall k :: Contrib(s', u, k) == map[]
  {
    forall m | m in s'.route
      ensures s'.route[m].node < |s.nodes|
    {
      assert RouteInv(s, m);
    }
  }

  lemma ExtendKeepsInv<G(!new)>(s: State<G>, s': State<G>)
    requires Inv(s) && Extends(s, s')
    requires forall u :: |s.nodes| <= u < |s'.nodes| ==> NodeInv(s', u)
    requires forall t :: 0 <= t < |s'.leaves| ==> LeafInv(s', t)
    ensures Inv(s')
  {
    ExtendRoutes(s, s');
    forall u | 0 <= u < |s'.nodes|
      ensures NodeInv(s', u)
    {
      if u < |s.nodes| {
        assert NodeInv(s, u);
        ExtendNode(s, s', u);
      }
    }
  }

  lemma NewLeafKeepsInv<G(!new)>(s: State<G>, grad: Option<G>)
    requires Inv(s)
    ensures Inv(NewLeaf(s, grad))
  {
    var s' := NewLeaf(s, grad);
    forall t | 0 <= t < |s'.leaves|
      ensures LeafInv(s', t)
    {
      if t < |s.leaves| {
        assert LeafInv(s, t);
        ExtendLeaf(s, s', t);
      } else {
        forall m | m in s.route
          ensures !FeedsLeaf(s', m, t)
        {
          assert RouteInv(s, m);
          assert NodeInv(s, s.route[m].node);
        }
        assert Received(s', t) == map[];
      }
    }
    ExtendKeepsInv(s, s');
  }

  lemma NewAccumulatorKeepsInv<G(!new)>(s: State<G>, t: nat)
    requires Inv(s) && t < |s.leaves| && s.leaves[t].acc.None?
    ensures Inv(NewAccumulator(s, t))
  {
    var s' := NewAccumulator(s, t);
    var u := |s.nodes|;
    NewNodeHasNoMessages(s, s', u);
    assert Covered<G>([None], [true]) == {};
    assert u !in s.log;
    assert s'.nodes[u].outs[0] == Sum(s.add, Contrib(s', u, 0));
    assert NodeInv(s', u);
    forall t' | 0 <= t' < |s'.leaves|
      ensures LeafInv(s', t')
    {
      assert LeafInv(s, t');
      ExtendLeaf(s, s', t');
    }
    ExtendKeepsInv(s, s');
  }

  lemma NewFunctionWaits<G(!new)>(s: State<G>, backward: seq<Option<G>> -> seq<Option<G>>, diff: seq<bool>)
    requires RoutesInv(s) && |s.nodes| !in s.log && CanStartFunction(diff)
    ensures NodeInv(NewFunction(s, backward, diff), |s.nodes|)
  {
    var s' := NewFunction(s, backward, diff);
    var u := |s.nodes|;
    var n := s'.nodes[u];
    NewNodeHasNoMessages(s, s', u);
    var k :| 0 <= k < |diff| && diff[k];
    assert k !in Covered(n.outs, diff) && k in Range(|diff|);
    if |Covered(n.outs, diff)| == |n.outs| {
      SubsetOfSameSize(Covered(n.outs, diff), Range(|diff|));
    }
    forall k | 0 <= k < |n.outs|
      ensures n.outs[k] == Sum(s.add, Contrib(s', u, k))
    {
      assert Contrib(s', u, k) == map[];
    }
  }

  lemma NewFunctionKeepsInv<G(!new)>(s: State<G>, backward: seq<Option<G>> -> seq<Option<G>>, diff: seq<bool>)
    requires Inv(s) && CanStartFunction(diff)
    ensures Inv(NewFunction(s, backward, diff))
  {
    var s' := NewFunction(s, backward, diff);
    NewFunctionWaits(s, backward, diff);
    forall t | 0 <= t < |s'.leaves|
      ensures LeafInv(s', t)
    {
      assert LeafInv(s, t);
      ExtendLeaf(s, s', t);
    }
    ExtendKeepsInv(s, s');
  }

  /** The old nodes, messages and leaves are still there, with the same gradients. */
  ghost predicate Kept<G>(s: State<G>, s': State<G>) {
    && s'.add == s.add && s'.got == s.got && s'.log == s.log && s.seeds <= s'.seeds
    && |s'.nodes| == |s.nodes| && |s'.leaves| == |s.leaves|
    && (forall m :: m in s.route ==> m in s'.route && s'.route[m] == s.route[m])
    && (forall v :: 0 <= v < |s.nodes| ==>
          && s'.nodes[v].op == s.nodes[v].op
          && s'.nodes[v].sent == s.nodes[v].sent
          && s'.nodes[v].outs == s.nodes[v].outs
          && (s.nodes[v].complete ==> s'.nodes[v].complete)
          && s.nodes[v].wires <= s'.nodes[v].wires)
  }

  lemma KeptRoute<G>(s: State<G>, s': State<G>, m: Msg)
    requires Kept(s, s') && m in s.route && RouteInv(s, m)
    requires s.route[m].node in s'.roots <==> s.route[m].node in s.roots
    ensures RouteInv(s', m)
  {
  }

  lemma KeptGot<G>(s: State<G>, s': State<G>)
    requires Kept(s, s') && RoutesInv(s)
    ensures forall m :: m in s'.got ==> GotInv(s', m)
  {
    forall m | m in s'.got
      ensures GotInv(s', m)
    {
      assert GotInv(s, m);
    }
  }

  lemma GotIsRouted<G>(s: State<G>)
    requires RoutesInv(s)
    ensures s.got.Keys <= s.route.Keys
  {
    forall m | m in s.got
      ensures m in s.route
    {
      assert GotInv(s, m);
    }
  }

  lemma KeptReceived<G>(s: State<G>, s': State<G>, t: nat)
    requires Kept(s, s') && RoutesInv(s) && t < |s.leaves| && s'.leaves[t].counted == s.leaves[t].counted
    ensures Received(s', t) == Received(s, t)
  {
    GotIsRouted(s);
    forall m | m in s.got
      ensures FeedsLeaf(s', m, t) == FeedsLeaf(s, m, t)
    {
      KeptFeeds(s, s', m, t);
    }
    hide RoutesInv, FeedsLeaf;
  }

  lemma KeptFeeds<G>(s: State<G>, s': State<G>, m: Msg, t: nat)
    requires Kept(s, s') && RoutesInv(s) && m in s.got && m in s.route
    ensures FeedsLeaf(s', m, t) == FeedsLeaf(s, m, t)
  {
    assert RouteInv(s, m);
  }

  lemma KeptBalance<G>(s: State<G>, s': State<G>, t: nat)
    requires Kept(s, s') && t < |s.leaves| && LeafInv(s, t) && s'.leaves[t] == s.leaves[t]
    requires Received(s', t) == Received(s, t)
    ensures LeafInv(s', t)
  {
  }

  lemma KeptLeaf<G>(s: State<G>, s': State<G>, t: nat)
    requires Kept(s, s') && RoutesInv(s) && t < |s.leaves| && LeafInv(s, t) && s'.leaves[t] == s.leaves[t]
    ensures LeafInv(s', t)
  {
    KeptReceived(s, s', t);
    KeptBalance(s, s', t);
  }

  lemma KeptLeaves<G>(s: State<G>, s': State<G>)
    requires Kept(s, s') && RoutesInv(s) && s'.leaves == s.leaves
    requires forall t :: 0 <= t < |s.leaves| ==> LeafInv(s, t)
    ensures forall t :: 0 <= t < |s'.leaves| ==> LeafInv(s', t)
  {
    forall t | 0 <= t < |s'.leaves|
      ensures LeafInv(s', t)
    {
      KeptLeaf(s, s', t);
    }
  }

  lemma NewWireIsNew<G>(s: State<G>, f: nat)
    requires RoutesInv(s) && f < |s.nodes|
    ensures Wire(f, |s.nodes[f].wires|) !in s.route && Wire(f, |s.nodes[f].wires|) !in s.got
  {
    var w := Wire(f, |s.nodes[f].wires|);
    assert w in s.route ==> RouteInv(s, w);
    GotIsRouted(s);
  }

  /** What recording an edge from f leaves alone. */
  ghost predicate EdgeFrame<G>(s: State<G>, s': State<G>, f: nat, e: Edge) {
    && CanAddEdge(s, f, e) && s' == NewEdge(s, f, e)
    && Wire(f, |s.nodes[f].wires|) !in s.route && Wire(f, |s.nodes[f].wires|) !in s.got
  }

  lemma EdgeKeeps<G>(s: State<G>, s': State<G>, f: nat, e: Edge)
    requires EdgeFrame(s, s', f, e)
    ensures Kept(s, s')
  {
  }

  lemma EdgeRoutes<G>(s: State<G>, s': State<G>, f: nat, e: Edge)
    requires EdgeFrame(s, s', f, e) && RoutesInv(s)
    ensures RoutesInv(s')
  {
    EdgeKeeps(s, s', f, e);
    forall m | m in s'.route
      ensures RouteInv(s', m)
    {
      if m in s.route {
        KeptRoute(s, s', m);
      }
    }
    KeptGot(s, s');
  }

  lemma EdgeLog<G>(s: State<G>, s': State<G>, f: nat, e: Edge)
    requires EdgeFrame(s, s', f, e) && LogInv(s) && SeedInv(s)
    ensures LogInv(s') && SeedInv(s')
  {
  }

  lemma EdgeTablesElsewhere<G>(s: State<G>, s': State<G>, f: nat, e: Edge, v: nat)
    requires EdgeFrame(s, s', f, e) && e.target != Some(v)
    ensures Into(s', v) == Into(s, v) && Arrived(s', v) == Arrived(s, v)
    ensures forall k :: Contrib(s', v, k) == Contrib(s, v, k)
  {
  }

  lemma EdgeTablesAtTarget<G>(s: State<G>, s': State<G>, f: nat, e: Edge)
    requires EdgeFrame(s, s', f, e) && e.target.Some?
    ensures var v := e.target.value;
            && Into(s', v) == Into(s, v) + {Wire(f, |s.nodes[f].wires|)}
            && Arrived(s', v) == Arrived(s, v)
            && forall k :: Contrib(s', v, k) == Contrib(s, v, k)
  {
  }

  lemma EdgeTarget<G(!new)>(s: State<G>, s': State<G>, f: nat, e: Edge)
    requires EdgeFrame(s, s', f, e) && e.target.Some? && NodeInv(s, e.target.value)
    ensures NodeInv(s', e.target.value)
  {
    var v := e.target.value;
    EdgeTablesAtTarget(s, s', f, e);
    assert Wire(f, |s.nodes[f].wires|) !in Into(s, v);
    assert |Into(s', v)| == |Into(s, v)| + 1;
    ArrivedAtMostInto(s, v);
    hide Into, Arrived, Contrib, Covered;
    assert WaitingInv(s', v);
  }

  lemma ArrivedAtMostInto<G>(s: State<G>, v: nat)
    ensures |Arrived(s, v)| <= |Into(s, v)|
  {
    assert Into(s, v) == Arrived(s, v) + (Into(s, v) - Arrived(s, v));
  }

  lemma EdgeNode<G(!new)>(s: State<G>, s': State<G>, f: nat, e: Edge, v: nat)
    requires EdgeFrame(s, s', f, e) && v < |s.nodes| && e.target != Some(v) && NodeInv(s, v)
    ensures NodeInv(s', v)
  {
    EdgeTablesElsewhere(s, s', f, e, v);
  }

  lemma NewEdgeKeepsInv<G(!new)>(s: State<G>, f: nat, e: Edge)
    requires Inv(s) && CanAddEdge(s, f, e)
    ensures Inv(NewEdge(s, f, e))
  {
    var s' := NewEdge(s, f, e);
    NewWireIsNew(s, f);
    EdgeKeeps(s, s', f, e);
    EdgeRoutes(s, s', f, e);
    EdgeLog(s, s', f, e);
    forall v | 0 <= v < |s'.nodes|
      ensures NodeInv(s', v)
    {
      assert NodeInv(s, v);
      if e.target == Some(v) {
        EdgeTarget(s, s', f, e);
      } else {
        EdgeNode(s, s', f, e, v);
      }
    }
    KeptLeaves(s, s');
  }

  lemma KeptRoutes<G>(s: State<G>, s': State<G>)
    requires Kept(s, s') && RoutesInv(s) && s'.route == s.route && s'.roots == s.roots
    ensures RoutesInv(s')
  {
    forall m | m in s'.route
      ensures RouteInv(s', m)
    {
      KeptRoute(s, s', m);
    }
    KeptGot(s, s');
  }

  lemma SameTablesNode<G(!new)>(s: State<G>, s': State<G>, v: nat)
    requires Kept(s, s') && s'.route == s.route && s'.roots == s.roots && v < |s.nodes| && NodeInv(s, v)
    requires s'.nodes[v] == s.nodes[v].(complete := s'.nodes[v].complete)
    requires s'.nodes[v].complete ==> Contract(s.nodes[v].op, s.nodes[v].wires)
    requires forall t :: 0 <= t < |s.leaves| ==> s'.leaves[t].acc == s.leaves[t].acc
    ensures NodeInv(s', v)
  {
    assert Into(s', v) == Into(s, v) && Arrived(s', v) == Arrived(s, v);
    assert forall k :: Contrib(s', v, k) == Contrib(s, v, k);
  }

  lemma CompleteKeepsInv<G(!new)>(s: State<G>, f: nat)
    requires Inv(s) && f < |s.nodes| && Contract(s.nodes[f].op, s.nodes[f].wires)
    ensures Inv(Complete(s, f))
  {
    var s' := Complete(s, f);
    KeptRoutes(s, s');
    forall v | 0 <= v < |s'.nodes|
      ensures NodeInv(s', v)
    {
      assert NodeInv(s, v);
      SameTablesNode(s, s', v);
    }
    KeptLeaves(s, s');
  }

  lemma WriteLeafKeepsInv<G(!new)>(s: State<G>, t: nat, grad: Option<G>, overwrite: bool)
    requires Inv(s) && t < |s.leaves|
    ensures Inv(WriteLeaf(s, t, grad, overwrite))
  {
    var s' := WriteLeaf(s, t, grad, overwrite);
    KeptRoutes(s, s');
    forall v | 0 <= v < |s'.nodes|
      ensures NodeInv(s', v)
    {
      assert NodeInv(s, v);
      SameTablesNode(s, s', v);
    }
    forall t' | 0 <= t' < |s'.leaves|
      ensures LeafInv(s', t')
    {
      assert LeafInv(s, t');
      if t' == t {
        assert Received(s', t) == map[];
      } else {
        KeptLeaf(s, s', t');
      }
    }
  }

  /** The base that a write starts: nothing if the next flush overwrites, else the grad written. */
  lemma WrittenBase<G>(s: State<G>, t: nat, grad: Option<G>, overwrite: bool)
    requires t < |s.leaves| && s.leaves[t].acc.None?
    ensures var l := WriteLeaf(s, t, grad, overwrite).leaves[t];
            && l.base == (if overwrite then None else grad)
            && l.grad == grad && l.overwrite == overwrite && l.counted == s.got.Keys
  {
  }

  lemma SeedRoutes<G>(s: State<G>, u: nat, k: nat, g: G)
    requires RoutesInv(s) && CanSeed(s, u, k)
    ensures Seed(|s.seeds|) !in s.route && Seed(|s.seeds|) !in s.got
    ensures Kept(s, NewSeed(s, u, k, g)) && RoutesInv(NewSeed(s, u, k, g))
  {
    var s' := NewSeed(s, u, k, g);
    var w := Seed(|s.seeds|);
    assert w in s.route ==> RouteInv(s, w);
    GotIsRouted(s);
    forall m | m in s'.route
      ensures RouteInv(s', m)
    {
      if m != w {
        assert RouteInv(s, m);
        assert s.route[m].node == u ==> m in Into(s, u);
        KeptRoute(s, s', m);
      }
    }
    KeptGot(s, s');
  }

  lemma SeedTables<G>(s: State<G>, u: nat, k: nat, g: G, v: nat)
    requires CanSeed(s, u, k) && Seed(|s.seeds|) !in s.route && Seed(|s.seeds|) !in s.got
    ensures var s' := NewSeed(s, u, k, g);
            && (v != u ==> Into(s', v) == Into(s, v))
            && Arrived(s', v) == Arrived(s, v)
            && forall k' :: Contrib(s', v, k') == Contrib(s, v, k')
  {
  }

  lemma SeedNode<G(!new)>(s: State<G>, u: nat, k: nat, g: G, v: nat)
    requires CanSeed(s, u, k) && Seed(|s.seeds|) !in s.route && Seed(|s.seeds|) !in s.got
    requires v < |s.nodes| && NodeInv(s, v)
    ensures NodeInv(NewSeed(s, u, k, g), v)
  {
    SeedTables(s, u, k, g, v);
  }

  lemma SeedLog<G>(s: State<G>, u: nat, k: nat, g: G)
    requires CanSeed(s, u, k) && LogInv(s) && SeedInv(s)
    ensures LogInv(NewSeed(s, u, k, g)) && SeedInv(NewSeed(s, u, k, g))
  {
    forall m | m in s.route && m !in s.got
      ensures s.route[m].node != u
    {
      assert m !in Into(s, u);
    }
  }

  lemma NewSeedKeepsInv<G(!new)>(s: State<G>, u: nat, k: nat, g: G)
    requires Inv(s) && CanSeed(s, u, k)
    ensures Inv(NewSeed(s, u, k, g))
  {
    var s' := NewSeed(s, u, k, g);
    SeedRoutes(s, u, k, g);
    SeedLog(s, u, k, g);
    forall v | 0 <= v < |s'.nodes|
      ensures NodeInv(s', v)
    {
      assert NodeInv(s, v);
      SeedNode(s, u, k, g, v);
    }
    KeptLeaves(s, s');
  }

  /** A new seed is the only new message on its way. */
  lemma SeedIsInFlight<G(!new)>(s: State<G>, u: nat, k: nat, g: G)
    requires Inv(s) && CanSeed(s, u, k)
    ensures var s' := NewSeed(s, u, k, g);
            var m := Seed(|s.seeds|);
            m in InFlight(s') && s'.route[m] == Dest(u, k) && Sent(s', m) == Some(g)
            && InFlight(s') - {m} == InFlight(s)
  {
    SeedRoutes(s, u, k, g);
    SeedSends(s, u, k, g);
  }

  lemma SeedSends<G>(s: State<G>, u: nat, k: nat, g: G)
    requires Seed(|s.seeds|) !in s.route && Seed(|s.seeds|) !in s.got
    requires RoutesInv(s)
    ensures var s' := NewSeed(s, u, k, g);
            var m := Seed(|s.seeds|);
            m in InFlight(s') && s'.route[m] == Dest(u, k) && Sent(s', m) == Some(g)
            && InFlight(s') - {m} == InFlight(s)
  {
    var s' := NewSeed(s, u, k, g);
    forall m | m in s.route
      ensures Sent(s', m) == Sent(s, m)
    {
      assert RouteInv(s, m);
    }
  }

  /** While Apply wires function f, everything else only gains nodes. */
  ghost predicate Grown<G>(s: State<G>, s': State<G>, f: nat) {
    && s'.add == s.add && s'.log == s.log && s'.roots == s.roots && s'.got == s.got
    && |s.nodes| <= |s'.nodes| && |s'.leaves| == |s.leaves|
    && (forall v :: 0 <= v < |s.nodes| ==>
          s'.nodes[v].op == s.nodes[v].op && s'.nodes[v].complete == s.nodes[v].complete
          && (v != f ==> s'.nodes[v].wires == s.nodes[v].wires))
  }

  /** s' is s with one more edge recorded from f, which leads somewhere iff tracked. */
  ghost predicate Wired<G>(s: State<G>, s': State<G>, f: nat, tracked: bool) {
    && Grown(s, s', f) && f < |s.nodes|
    && |s'.nodes[f].wires| == |s.nodes[f].wires| + 1
    && s.nodes[f].wires <= s'.nodes[f].wires
    && s'.nodes[f].wires[|s.nodes[f].wires|].target.Some? == tracked
  }

  /** Where an input of Apply comes from. */
  datatype Source = LeafSource(t: nat) | OutputSource(u: nat, k: nat) | NoSource

  /** Function f, being wired, may get an edge to this source. */
  ghost predicate CanWire<G>(s: State<G>, f: nat, src: Source) {
    match src
    case LeafSource(t) => f < |s.nodes| && !s.nodes[f].complete && f !in s.log && t < |s.leaves|
    case OutputSource(u, k) => CanAddEdge(s, f, Edge(Some(u), k)) && u < f && s.nodes[u].op.Operator?
    case NoSource => forall k :: CanAddEdge(s, f, Edge(None, k))
  }

  /** The source can still be consumed: its function is complete and has neither fired nor been seeded. */
  ghost predicate SourceWaits<G>(s: State<G>, src: Source) {
    match src
    case LeafSource(t) => t < |s.leaves|
    case OutputSource(u, k) =>
      && u < |s.nodes| && s.nodes[u].complete && s.nodes[u].op.Operator? && u !in s.log && u !in s.roots
      && k < |Diff(s.nodes[u].op)| && Diff(s.nodes[u].op)[k]
    case NoSource => true
  }

  /** Whatever gradients arrive, backward answers with one per input and a real one on every tracked input. */
  ghost predicate AnswersInputs<G(!new)>(backward: seq<Option<G>> -> seq<Option<G>>, srcs: seq<Source>,
                                         diff: seq<bool>) {
    forall x: seq<Option<G>> | Full(x, diff) ::
      |backward(x)| == |srcs| && forall i :: 0 <= i < |srcs| && !srcs[i].NoSource? ==> backward(x)[i].Some?
  }

  /** s' is s with one edge recorded from f per source. */
  ghost predicate WiredAs<G>(s: State<G>, s': State<G>, f: nat, srcs: seq<Source>) {
    && Grown(s, s', f) && f < |s.nodes|
    && |s'.nodes[f].wires| == |srcs|
    && forall i :: 0 <= i < |srcs| ==> s'.nodes[f].wires[i].target.None? == srcs[i].NoSource?
  }

  lemma WiredStart<G>(s: State<G>, f: nat)
    requires f < |s.nodes| && s.nodes[f].wires == []
    ensures WiredAs(s, s, f, [])
  {
  }

  lemma WiredStep<G>(s: State<G>, s1: State<G>, s2: State<G>, f: nat, srcs: seq<Source>, src: Source)
    requires WiredAs(s, s1, f, srcs) && Wired(s1, s2, f, !src.NoSource?)
    ensures WiredAs(s, s2, f, srcs + [src])
  {
  }

  lemma WiredCanWire<G>(s: State<G>, s1: State<G>, f: nat, srcs: seq<Source>, src: Source)
    requires WiredAs(s, s1, f, srcs) && CanWire(s, f, src)
    ensures CanWire(s1, f, src)
  {
  }

  lemma EdgeWires<G>(s: State<G>, f: nat, e: Edge)
    requires CanAddEdge(s, f, e)
    ensures Wired(s, NewEdge(s, f, e), f, e.target.Some?)
  {
  }

  lemma LeafEdgeWires<G>(s: State<G>, s1: State<G>, f: nat, t: nat, e: Edge)
    requires f < |s.nodes| && t < |s.leaves| && (s1 == s || s1 == NewAccumulator(s, t))
    requires CanAddEdge(s1, f, e) && e.target.Some?
    ensures Wired(s, NewEdge(s1, f, e), f, true)
  {
    EdgeWires(s1, f, e);
  }

  /** The accumulator of a leaf may get an edge from a function being wired. */
  lemma LeafEdgeAllowed<G(!new)>(s: State<G>, s1: State<G>, f: nat, t: nat, a: nat)
    requires Inv(s) && f < |s.nodes| && !s.nodes[f].complete && f !in s.log && s.nodes[f].op.Operator?
    requires t < |s.leaves|
    requires s1 == s || (s.leaves[t].acc.None? && s1 == NewAccumulator(s, t))
    requires s1.leaves[t].acc == Some(a)
    ensures Inv(s1) && CanAddEdge(s1, f, Edge(Some(a), 0))
  {
    if s1 != s {
      NewAccumulatorKeepsInv(s, t);
    }
    assert LeafInv(s1, t) && NodeInv(s1, a);
  }

  /** The fields of the two nodes an edge touches. */
  lemma NewEdgeFields<G>(s: State<G>, f: nat, e: Edge)
    requires f < |s.nodes| && e.target.Some? && e.target.value < |s.nodes| && e.target.value != f
    ensures var s', u := NewEdge(s, f, e), e.target.value;
            && s'.nodes == s.nodes[f := s.nodes[f].(wires := s.nodes[f].wires + [e])]
                                  [u := s.nodes[u].(depNum := s.nodes[u].depNum + 1)]
            && s'.leaves == s.leaves && s'.log == s.log && s'.add == s.add
  {
  }

  // ---------------------------------------------------------------- histories

  datatype Action<!G> =
    | MakeLeaf(grad: Option<G>)
    | Write(t: nat, grad: Option<G>, overwrite: bool)
    | StartApply(backward: seq<Option<G>> -> seq<Option<G>>, diff: seq<bool>)
    | MakeAccumulator(t: nat)
    | AddEdge(f: nat, e: Edge)
    | EndApply(f: nat)
    | StartBackward(u: nat, k: nat, g: G)
    | DeliverNext(m: Msg)

  ghost predicate Enabled<G(!new)>(s: State<G>, a: Action<G>) {
    match a
    case MakeLeaf(_) => true
    case Write(t, _, _) => t < |s.leaves|
    case StartApply(_, diff) => CanStartFunction(diff)
    case MakeAccumulator(t) => t < |s.leaves| && s.leaves[t].acc.None?
    case AddEdge(f, e) => CanAddEdge(s, f, e)
    case EndApply(f) => f < |s.nodes| && Contract(s.nodes[f].op, s.nodes[f].wires)
    case StartBackward(u, k, _) => CanSeed(s, u, k)
    case DeliverNext(m) => m in InFlight(s) && Deliverable(s, m)
  }

  ghost function Perform<G(!new)>(s: State<G>, a: Action<G>): State<G>
    requires Enabled(s, a)
  {
    match a
    case MakeLeaf(grad) => NewLeaf(s, grad)
    case Write(t, grad, overwrite) => WriteLeaf(s, t, grad, overwrite)
    case StartApply(backward, diff) => NewFunction(s, backward, diff)
    case MakeAccumulator(t) => NewAccumulator(s, t)
    case AddEdge(f, e) => NewEdge(s, f, e)
    case EndApply(f) => Complete(s, f)
    case StartBackward(u, k, g) => NewSeed(s, u, k, g)
    case DeliverNext(m) => Deliver(s, m)
  }

  lemma PerformKeepsInv<G(!new)>(s: State<G>, a: Action<G>)
    requires Inv(s) && Enabled(s, a)
    ensures Inv(Perform(s, a))
  {
    hide Inv;
    match a
    case MakeLeaf(grad) => NewLeafKeepsInv(s, grad);
    case Write(t, grad, overwrite) => WriteLeafKeepsInv(s, t, grad, overwrite);
    case StartApply(backward, diff) => NewFunctionKeepsInv(s, backward, diff);
    case MakeAccumulator(t) => NewAccumulatorKeepsInv(s, t);
    case AddEdge(f, e) => NewEdgeKeepsInv(s, f, e);
    case EndApply(f) => CompleteKeepsInv(s, f);
    case StartBackward(u, k, g) => NewSeedKeepsInv(s, u, k, g);
    case DeliverNext(m) => DeliverKeepsInv(s, m);
  }

  ghost function Initial<G>(add: (G, G) -> G): State<G> {
    State(add, [], [], [], map[], map[], [], {})
  }

  ghost predicate IsHistory<G(!new)>(s: State<G>, history: seq<Action<G>>)
    decreases |history|
  {
    history == [] || (Enabled(s, history[0]) && IsHistory(Perform(s, history[0]), history[1..]))
  }

  ghost function Outcome<G(!new)>(s: State<G>, history: seq<Action<G>>): State<G>
    requires IsHistory(s, history)
    decreases |history|
  {
    if history == [] then s else Outcome(Perform(s, history[0]), history[1..])
  }

  lemma InitialInv<G(!new)>(add: (G, G) -> G)
    requires Lawful(add)
    ensures Inv(Initial(add))
  {
  }

  /**
   * Over any interleaving of graph building, backward passes and writes to the leaves, with any
   * number of graphs alive at once, the invariant holds.
   */
  lemma {:induction false} HistoryKeepsInv<G(!new)>(s: State<G>, history: seq<Action<G>>)
    requires Inv(s) && IsHistory(s, history)
    ensures Inv(Outcome(s, history))
    decreases |history|
  {
    hide Inv, Perform, Enabled;
    if history != [] {
      PerformKeepsInv(s, history[0]);
      HistoryKeepsInv(Perform(s, history[0]), history[1..]);
    }
  }

  lemma {:induction false} HistoryConcat<G(!new)>(s: State<G>, h: seq<Action<G>>, h': seq<Action<G>>)
    requires IsHistory(s, h) && IsHistory(Outcome(s, h), h')
    ensures IsHistory(s, h + h') && Outcome(s, h + h') == Outcome(Outcome(s, h), h')
    decreases |h|
  {
    hide Perform, Enabled;
    if h == [] {
      assert h + h' == h';
    } else {
      HistoryConcat(Perform(s, h[0]), h[1..], h');
      assert (h + h')[1..] == h[1..] + h';
    }
  }

  lemma HistoryNone<G(!new)>(s: State<G>)
    ensures IsHistory(s, []) && Outcome(s, []) == s
  {
  }

  lemma HistoryOne<G(!new)>(s: State<G>, a: Action<G>)
    requires Enabled(s, a)
    ensures IsHistory(s, [a]) && Outcome(s, [a]) == Perform(s, a)
  {
    hide Perform, Enabled;
    assert [a][1..] == [];
  }

  lemma AddEdgeHistory<G(!new)>(s: State<G>, h: seq<Action<G>>, s1: State<G>, f: nat, e: Edge)
    returns (h': seq<Action<G>>)
    requires IsHistory(s, h) && Outcome(s, h) == s1 && Inv(s1) && CanAddEdge(s1, f, e)
    ensures Inv(NewEdge(s1, f, e))
    ensures IsHistory(s, h + h') && Outcome(s, h + h') == NewEdge(s1, f, e)
  {
    h' := [AddEdge(f, e)];
    NewEdgeKeepsInv(s1, f, e);
    HistoryOne(s1, AddEdge(f, e));
    HistoryConcat(s, h, h');
  }

  /** The new function may be wired to every source. */
  lemma RegisterFacts<G(!new)>(s: State<G>, backward: seq<Option<G>> -> seq<Option<G>>, diff: seq<bool>,
                               srcs: seq<Source>)
    requires Inv(s) && CanStartFunction(diff)
    requires forall i :: 0 <= i < |srcs| ==> SourceWaits(s, srcs[i])
    ensures Inv(NewFunction(s, backward, diff)) && |s.nodes| !in s.log
    ensures var s1 := NewFunction(s, backward, diff);
            && |s1.nodes| == |s.nodes| + 1 && s1.nodes[|s.nodes|].wires == []
            && forall i :: 0 <= i < |srcs| ==> CanWire(s1, |s.nodes|, srcs[i])
  {
    NewFunctionKeepsInv(s, backward, diff);
  }

  lemma CompleteFacts<G(!new)>(s: State<G>, s1: State<G>, h: seq<Action<G>>, s2: State<G>,
                               backward: seq<Option<G>> -> seq<Option<G>>, diff: seq<bool>, srcs: seq<Source>)
    returns (h': seq<Action<G>>)
    requires CanStartFunction(diff) && s1 == NewFunction(s, backward, diff)
    requires IsHistory(s1, h) && s2 == Outcome(s1, h) && Inv(s2)
    requires WiredAs(s1, s2, |s.nodes|, srcs) && AnswersInputs(backward, srcs, diff)
    ensures |s.nodes| < |s2.nodes| && Inv(Complete(s2, |s.nodes|))
    ensures IsHistory(s, h') && Outcome(s, h') == Complete(s2, |s.nodes|)
    ensures s2.nodes[|s.nodes|].op == Operator(backward, diff)
  {
    var f := |s.nodes|;
    assert Contract(s2.nodes[f].op, s2.nodes[f].wires) by {
      forall x: seq<Option<G>> | Full(x, diff)
        ensures Answers(s2.nodes[f].op, s2.nodes[f].wires, x)
      {
        assert |backward(x)| == |srcs|;
      }
    }
    CompleteKeepsInv(s2, f);
    h' := CompleteHistory(s, s1, h, s2, backward, diff);
  }

  /** What could be consumed before can be consumed after. */
  ghost predicate SourcesStay<G>(s: State<G>, s': State<G>) {
    forall src :: SourceWaits(s, src) ==> SourceWaits(s', src)
  }

  /** Every differentiable output of f can be consumed. */
  ghost predicate Offers<G>(s: State<G>, f: nat, diff: seq<bool>) {
    forall k :: 0 <= k < |diff| && diff[k] ==> SourceWaits(s, OutputSource(f, k))
  }

  /** A recorded function offers its outputs, and takes away no other's. */
  lemma RecordedOffers<G(!new)>(s: State<G>, s2: State<G>, backward: seq<Option<G>> -> seq<Option<G>>, diff: seq<bool>,
                                srcs: seq<Source>)
    requires Inv(s) && WiredAs(NewFunction(s, backward, diff), s2, |s.nodes|, srcs)
    requires |s.nodes| < |s2.nodes|
    ensures SourcesStay(s, Complete(s2, |s.nodes|)) && Offers(Complete(s2, |s.nodes|), |s.nodes|, diff)
    ensures Complete(s2, |s.nodes|).add == s.add
  {
    var s1, s3 := NewFunction(s, backward, diff), Complete(s2, |s.nodes|);
    assert |s.nodes| !in s.log && |s.nodes| !in s.roots;
    hide Inv;
    forall src | SourceWaits(s, src)
      ensures SourceWaits(s3, src)
    {
      if src.OutputSource? {
        assert s1.nodes[src.u] == s.nodes[src.u];
      }
    }
  }

  lemma CompleteHistory<G(!new)>(s: State<G>, s1: State<G>, h: seq<Action<G>>, s2: State<G>,
                                 backward: seq<Option<G>> -> seq<Option<G>>, diff: seq<bool>)
    returns (h': seq<Action<G>>)
    requires CanStartFunction(diff) && s1 == NewFunction(s, backward, diff)
    requires IsHistory(s1, h) && s2 == Outcome(s1, h)
    requires |s.nodes| < |s2.nodes| && Contract(s2.nodes[|s.nodes|].op, s2.nodes[|s.nodes|].wires)
    ensures IsHistory(s, h') && Outcome(s, h') == Complete(s2, |s.nodes|)
  {
    hide IsHistory, Outcome, Contract, NewFunction, Complete, CanStartFunction;
    HistoryOne(s, StartApply(backward, diff));
    HistoryConcat(s, [StartApply(backward, diff)], h);
    HistoryOne(s2, EndApply(|s.nodes|));
    HistoryConcat(s, [StartApply(backward, diff)] + h, [EndApply(|s.nodes|)]);
    h' := [StartApply(backward, diff)] + h + [EndApply(|s.nodes|)];
  }
}
