/** The main results about one backward pass, stated on the objects of the engine. */
module BackwardPasses {
  import opened GradientSums
  import opened AutogradMachine
  import opened AutogradRuns
  import opened AutogradHistory
  import opened AutogradPasses
  import opened Autograd

  /** Every recorded edge into leaf i has been delivered. */
  ghost predicate AllDelivered<G>(s: State<G>, i: nat) {
    forall m :: m in s.route && FeedsLeaf(s, m, i) ==> m in s.got
  }

  /** The pass that starts when the function of t is handed a gradient. */
  ghost function Started<G(!new)>(t: Tensor<G>, gradient: G, tape: Tape<G>): State<G>
    requires t.gradFn != null
    reads t, tape
  {
    NewSeed(tape.st, t.gradFn.id, t.outputIdx, gradient)
  }

  /** The function of t is on the tape, can start a pass, and encloses what it reaches. */
  ghost predicate CanStart<G(!new)>(t: Tensor<G>, gradient: G, tape: Tape<G>)
    reads t, tape, tape.fns, tape.leaves, t.gradFn
  {
    && Settled(tape.st) && tape.Valid()
    && t.gradFn != null && t.gradFn.id < |tape.fns| && tape.fns[t.gradFn.id] == t.gradFn
    && CanSeed(tape.st, t.gradFn.id, t.outputIdx)
    && Enclosed(Started(t, gradient, tape), t.gradFn.id)
  }

  /**
   * The functions fired by this pass are exactly those that the root reaches, and they have let go
   * of their gradients.
   */
  ghost predicate FiredExactly<G(!new)>(tape: Tape<G>, before: State<G>, s: State<G>, root: nat)
    reads tape, tape.fns
  {
    forall v :: 0 <= v < |tape.fns| ==>
      && (Reaches(s, root, v) <==> v in tape.st.log && v !in before.log)
      && (v in tape.st.log ==> tape.fns[v].gradOutputs == [])
  }

  /**
   * Every function that has fired ran its Backward on exactly its reverse-mode total, and only
   * once, after its consumers.
   */
  ghost predicate RanOnTotals<G(!new)>(s: State<G>) {
    forall p :: 0 <= p < |s.log| ==>
      && s.log[p] < |s.nodes| && s.nodes[s.log[p]].seen == Total(s, s.log[p])
      && s.log[p] !in s.log[..p]
      && forall m :: m in Into(s, s.log[p]) && m.Wire? ==> m.f in s.log[..p]
  }

  /**
   * Every leaf that waits for nothing holds its base plus all that its edges carry, unless it is
   * still to be overwritten.
   */
  ghost predicate LeavesHoldTotals<G(!new)>(tape: Tape<G>)
    reads tape, tape.leaves
  {
    |tape.leaves| == |tape.st.leaves| &&
    forall i :: 0 <= i < |tape.leaves| && AllDelivered(tape.st, i) && !tape.leaves[i].gradOverwriteOnce ==>
      tape.leaves[i].grad == Plus(tape.st.add, tape.st.leaves[i].base, Sum(tape.st.add, CarriedToLeaf(tape.st, i)))
  }

  /** A complete call of Tensor.Backward. */
  method BackwardPass<G(!new)>(t: Tensor<G>, gradient: G, ghost tape: Tape<G>)
    requires CanStart(t, gradient, tape)
    modifies tape`st, tape.fns, tape.leaves
    ensures Settled(tape.st) && tape.Valid() && tape.fns == old(tape.fns)
    ensures FiredExactly(tape, old(tape.st), old(Started(t, gradient, tape)), old(t.gradFn.id))
    ensures RanOnTotals(tape.st)
    ensures LeavesHoldTotals(tape)
  {
    hide Inv, InFlight, Schedule, After, CanSeed, Enclosed, NewSeed, Reaches;
    ghost var s0, u, k := tape.st, t.gradFn.id, t.outputIdx;
    ghost var trace := t.Backward(gradient, tape);
    PassFires(s0, u, k, gradient, trace);
    FiredLetGo(tape);
    LogRanOnTotals(tape.st);
    LeavesHold(tape);
  }

  lemma PassFires<G(!new)>(s: State<G>, u: nat, k: nat, g: G, trace: seq<Msg>)
    requires Settled(s) && CanSeed(s, u, k) && Enclosed(NewSeed(s, u, k, g), u)
    requires Schedule(NewSeed(s, u, k, g), trace) && InFlight(After(NewSeed(s, u, k, g), trace)) == {}
    ensures forall v :: Reaches(NewSeed(s, u, k, g), u, v) <==>
            v in After(NewSeed(s, u, k, g), trace).log && v !in s.log
  {
    hide Inv, InFlight, Schedule, After, CanSeed, Enclosed, NewSeed, Reaches, Settled;
    forall v
      ensures Reaches(NewSeed(s, u, k, g), u, v) <==> v in After(NewSeed(s, u, k, g), trace).log && v !in s.log
    {
      BackwardFiresTheReachable(s, u, k, g, trace, v);
    }
  }

  lemma FiredLetGo<G(!new)>(tape: Tape<G>)
    requires tape.Valid()
    ensures |tape.fns| == |tape.st.nodes|
    ensures forall v :: 0 <= v < |tape.fns| && v in tape.st.log ==> tape.fns[v].gradOutputs == []
  {
  }

  lemma LogRanOnTotals<G(!new)>(s: State<G>)
    requires Inv(s)
    ensures RanOnTotals(s)
  {
    forall p | 0 <= p < |s.log|
      ensures s.log[p] < |s.nodes| && s.nodes[s.log[p]].seen == Total(s, s.log[p])
      ensures s.log[p] !in s.log[..p]
      ensures forall m :: m in Into(s, s.log[p]) && m.Wire? ==> m.f in s.log[..p]
    {
      assert s.log[p] in s.log;
      assert s.log[p] < |s.nodes|;
      hide Inv, Total;
      FiredOnTotal(s, s.log[p]);
      FiresAtMostOnceAfterConsumers(s, p);
    }
  }

  lemma LeavesHold<G(!new)>(tape: Tape<G>)
    requires Inv(tape.st) && tape.Valid()
    ensures LeavesHoldTotals(tape)
  {
    hide Inv;
    forall i | 0 <= i < |tape.leaves| && AllDelivered(tape.st, i) && !tape.leaves[i].gradOverwriteOnce
      ensures tape.leaves[i].grad ==
              Plus(tape.st.add, tape.st.leaves[i].base, Sum(tape.st.add, CarriedToLeaf(tape.st, i)))
    {
      LeafHoldsItsTotal(tape.st, i);
    }
  }
}
