/**
 * What the counters do when Tensor.Backward is called on a tensor whose function has recorded consumers
 * that have not delivered. This is outside the histories of module AutogradHistory.
 */
module EarlyFirings {
  import opened Wrappers
  import opened GradientSums
  import opened AutogradMachine
  import opened AutogradRuns

  // ---------------------------------------------------------------- a sequence of gradients

  /** The gradients arrive at output 0, one after the other. */
  function ArriveAll<G>(add: (G, G) -> G, n: Node<G>, gs: seq<G>): (r: Node<G>)
    requires |n.outs| == 1
    ensures |r.outs| == 1 && r.depNum == n.depNum && r.op == n.op && r.wires == n.wires
    ensures r.depReached == n.depReached + |gs|
    ensures r.outReached == n.outReached + if gs != [] && n.outs[0].None? then 1 else 0
    ensures r.outs[0].Some? <==> gs != [] || n.outs[0].Some?
    decreases |gs|
  {
    if gs == [] then n else ArriveAll(add, Arrive(add, n, 0, gs[0]), gs[1..])
  }

  /** A function with one output and a consumer still to deliver fires after exactly as many gradients as consumers. */
  lemma FiresAfterAsMany<G(!new)>(s: State<G>, u: nat, gs: seq<G>)
    requires Inv(s) && u < |s.nodes| && u !in s.log && u !in s.roots && Diff(s.nodes[u].op) == [true]
    requires Outstanding(s, u) != {} && gs != []
    ensures |s.nodes[u].outs| == 1
    ensures Ready(ArriveAll(s.add, s.nodes[u], gs)) <==> |gs| == |Outstanding(s, u)|
  {
    assert NodeInv(s, u);
    CountersOfOne(s, u);
  }

  lemma CountersOfOne<G(!new)>(s: State<G>, u: nat)
    requires u < |s.nodes| && Tallied(s, u) && Diff(s.nodes[u].op) == [true] && u !in s.roots
    ensures |s.nodes[u].outs| == 1
    ensures s.nodes[u].outReached == if s.nodes[u].outs[0].Some? then 1 else 0
    ensures s.nodes[u].depNum == s.nodes[u].depReached + |Outstanding(s, u)|
  {
    var n := s.nodes[u];
    OutstandingIsRest(s, u);
    assert Covered(n.outs, [true]) == if n.outs[0].Some? then {0} else {};
  }

  // ---------------------------------------------------------------- who was not waited for

  /** Where each gradient came from: a recorded consumer, each at most once, or from outside (None). */
  ghost predicate ComeFrom<G>(s: State<G>, u: nat, from: seq<Option<Msg>>) {
    && (forall i :: 0 <= i < |from| && from[i].Some? ==> from[i].value in Outstanding(s, u))
    && (forall i, j :: 0 <= i < j < |from| && from[i].Some? ==> from[i] != from[j])
  }

  ghost function Delivered(from: seq<Option<Msg>>): set<Msg> {
    if from == [] then {}
    else
      var last := from[|from| - 1];
      Delivered(from[..|from| - 1]) + if last.Some? then {last.value} else {}
  }

  ghost function FromOutside(from: seq<Option<Msg>>): nat {
    if from == [] then 0 else FromOutside(from[..|from| - 1]) + if from[|from| - 1].None? then 1 else 0
  }

  lemma {:induction false} DeliveredHas(from: seq<Option<Msg>>, m: Msg)
    ensures m in Delivered(from) <==> Some(m) in from
  {
    if from != [] {
      DeliveredHas(from[..|from| - 1], m);
      assert from == from[..|from| - 1] + [from[|from| - 1]];
    }
  }

  lemma {:induction false} DeliveredCount<G>(s: State<G>, u: nat, from: seq<Option<Msg>>)
    requires ComeFrom(s, u, from)
    ensures Delivered(from) <= Outstanding(s, u) && |Delivered(from)| == |from| - FromOutside(from)
    ensures FromOutside(from) > 0 <==> None in from
  {
    if from != [] {
      hide Outstanding;
      var front, last := from[..|from| - 1], from[|from| - 1];
      assert from == front + [last];
      DeliveredCount(s, u, front);
      if last.Some? {
        DeliveredHas(front, last.value);
      }
    }
  }

  /**
   * When such a function fires, exactly as many recorded consumers have not delivered as gradients came
   * from outside; it fires before some recorded consumer exactly when one did.
   */
  lemma FiresEarlyExactlyWhen<G(!new)>(s: State<G>, u: nat, gs: seq<G>, from: seq<Option<Msg>>)
    requires Inv(s) && u < |s.nodes| && u !in s.log && u !in s.roots && Diff(s.nodes[u].op) == [true]
    requires Outstanding(s, u) != {} && gs != [] && |from| == |gs| && ComeFrom(s, u, from)
    ensures |s.nodes[u].outs| == 1
    ensures Ready(ArriveAll(s.add, s.nodes[u], gs)) ==>
              && |Outstanding(s, u) - Delivered(from)| == FromOutside(from)
              && (Outstanding(s, u) - Delivered(from) != {} <==> None in from)
  {
    hide Inv, Outstanding, Ready;
    FiresAfterAsMany(s, u, gs);
    DeliveredCount(s, u, from);
    var all, done := Outstanding(s, u), Delivered(from);
    assert all == done + (all - done);
    assert |all| == |done| + |all - done|;
  }

  // ---------------------------------------------------------------- what happens to the late ones

  /** The fields of a function that has fired: gradients and counters cleared, next_functions_ too; depNum stays. */
  ghost predicate Cleared<G>(n: Node<G>) {
    n.outs == [] && n.outReached == 0 && n.depReached == 0 && n.wires == []
  }

  /** The fields of n once it has fired. */
  function AfterFiring<G>(n: Node<G>): (r: Node<G>)
    ensures Cleared(r) && r.depNum == n.depNum && r.op == n.op
  {
    n.(seen := n.outs, outs := [], outReached := 0, depReached := 0, wires := [])
  }

  /** One slot is made anew where there is none; None where the index is beyond it and at() throws. */
  function ArriveLate<G>(add: (G, G) -> G, n: Node<G>, k: nat, g: G): Option<Node<G>> {
    var slots := if n.outs == [] then [None] else n.outs;
    if k >= |slots| then None else Some(Arrive(add, n.(outs := slots), k, g))
  }

  /** Later gradients, all for output 0. */
  function ArriveAllLate<G>(add: (G, G) -> G, n: Node<G>, gs: seq<G>): Node<G>
    requires n.outs == [] && gs != []
  {
    ArriveAll(add, n.(outs := [None]), gs)
  }

  /** The late deliveries to output 0 are those of the code, one by one; one to another output throws. */
  lemma {:induction false} LateOneByOne<G>(add: (G, G) -> G, n: Node<G>, gs: seq<G>, k: nat, g: G)
    requires Cleared(n)
    ensures ArriveLate(add, n, k, g).None? <==> k > 0
    ensures ArriveLate(add, n, 0, g) == Some(ArriveAllLate(add, n, [g]))
    ensures gs != [] ==> ArriveLate(add, ArriveAllLate(add, n, gs), 0, g) == Some(ArriveAllLate(add, n, gs + [g]))
  {
    var n' := n.(outs := [None]);
    ArriveOneMore(add, n', [], g);
    assert [] + [g] == [g];
    if gs != [] {
      ArriveOneMore(add, n', gs, g);
    }
  }

  lemma {:induction false} ArriveOneMore<G>(add: (G, G) -> G, n: Node<G>, gs: seq<G>, g: G)
    requires |n.outs| == 1
    ensures ArriveAll(add, n, gs + [g]) == Arrive(add, ArriveAll(add, n, gs), 0, g)
    decreases |gs|
  {
    if gs == [] {
      assert ([] + [g])[1..] == [];
    } else {
      assert (gs + [g])[1..] == gs[1..] + [g];
      ArriveOneMore(add, Arrive(add, n, 0, gs[0]), gs[1..], g);
    }
  }

  /** A function that has fired is made to fire again exactly by as many late gradients as it has recorded consumers. */
  lemma FiresAgainExactlyWhen<G>(add: (G, G) -> G, n: Node<G>, gs: seq<G>)
    requires Cleared(n) && n.depNum > 0 && gs != []
    ensures Ready(ArriveAllLate(add, n, gs)) <==> |gs| == n.depNum
  {
  }

  /** Then the CHECK_EQ on the number of results fails: the operator answers at least one and no edge is left. */
  lemma SecondFiringFails<G(!new)>(add: (G, G) -> G, n: Node<G>, gs: seq<G>)
    requires Diff(n.op) == [true] && Contract(n.op, n.wires) && n.wires != [] && gs != []
    ensures n.op.Operator?
    ensures var late := ArriveAllLate(add, AfterFiring(n), gs);
            |n.op.backward(late.outs)| == |n.wires| > |late.wires| == 0
  {
    var late := ArriveAllLate(add, AfterFiring(n), gs);
    assert Full(late.outs, [true]);
    assert Answers(n.op, n.wires, late.outs);
  }

  /**
   * The whole course for one call of Tensor.Backward among the recorded consumers: the function fires with
   * one consumer missing, and the gradient of that one is lost, or, if it is the only recorded one, makes
   * the function fire again and fail its CHECK_EQ.
   */
  lemma LastConsumerIsLost<G(!new)>(s: State<G>, u: nat, gs: seq<G>, from: seq<Option<Msg>>, g: G)
    requires Inv(s) && u < |s.nodes| && u !in s.log && u !in s.roots && Diff(s.nodes[u].op) == [true]
    requires s.nodes[u].complete && s.nodes[u].wires != []
    requires gs != [] && |from| == |gs| == |Outstanding(s, u)| && ComeFrom(s, u, from) && FromOutside(from) == 1
    ensures |s.nodes[u].outs| == 1
    ensures var n := ArriveAll(s.add, s.nodes[u], gs);
            && Ready(n) && |Outstanding(s, u) - Delivered(from)| == 1
            && ArriveLate(s.add, AfterFiring(n), 0, g).Some?
            && var late := ArriveLate(s.add, AfterFiring(n), 0, g).value;
               && (Ready(late) <==> |Into(s, u)| == 1)
               && n.op.Operator? && |n.op.backward(late.outs)| != |late.wires|
  {
    FiresAfterAsMany(s, u, gs);
    FiresEarlyExactlyWhen(s, u, gs, from);
    assert NodeInv(s, u);
    CountersOfOne(s, u);
    OutstandingIsRest(s, u);
    hide Inv, NodeInv, Outstanding, Ready, Contract;
    var n := ArriveAll(s.add, s.nodes[u], gs);
    LateOneByOne(s.add, AfterFiring(n), [], 0, g);
    FiresAgainExactlyWhen(s.add, AfterFiring(n), [g]);
    SecondFiringFails(s.add, n, [g]);
  }

  // ---------------------------------------------------------------- an example

  const IDENTITY: seq<Option<int>> -> seq<Option<int>> := x => x

  /** Two unary operators in a row, the first reading an untracked tensor. */
  ghost function TwoInARow(): State<int> {
    State((x, y) => x + y,
          [Node(Operator(_ => [None], [true]), [Edge(None, 0)], true, 1, 0, 0, [None], [], []),
           Node(Operator(IDENTITY, [true]), [Edge(Some(0), 0)], true, 0, 0, 0, [None], [], [])],
          [], [], map[Wire(1, 0) := Dest(0, 0)], map[], [], {})
  }

  lemma TwoInARowInv()
    ensures Inv(TwoInARow()) && Outstanding(TwoInARow(), 0) == {Wire(1, 0)}
  {
    var s := TwoInARow();
    assert Lawful(s.add);
    assert RouteInv(s, Wire(1, 0));
    TwoNodes();
  }

  lemma TwoNodes()
    ensures var s := TwoInARow(); NodeInv(s, 0) && NodeInv(s, 1)
  {
    var s := TwoInARow();
    assert Into(s, 0) == {Wire(1, 0)} && Into(s, 1) == {};
    assert Arrived(s, 0) == {} && Arrived(s, 1) == {};
    assert Covered<int>([None], [true]) == {};
    forall u, k
      ensures Contrib(s, u, k) == map[]
    {
    }
    assert s.nodes[0].op.diff[0] && s.nodes[1].op.diff[0];
  }

  /** Backward called on the tensor between them fires the first before the second has delivered. */
  lemma FirstFiresEarly()
    ensures var s := TwoInARow();
            Inv(s) && Outstanding(s, 0) == {Wire(1, 0)} && Ready(Arrive(s.add, s.nodes[0], 0, 1))
  {
    TwoInARowInv();
    hide Inv;
  }
}
