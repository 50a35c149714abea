/**
 * The autograd engine as a state machine over messages.
 *
 * A node is a Function: an operator recorded by Apply or the AccumulateGrad of a leaf. Every
 * recorded edge carries one gradient message, sent when its source fires; a seed is the message of
 * a call of Tensor.Backward. One machine step delivers one message to its destination, exactly as
 * one activation of BackwardPartial does up to its recursive calls. Which message is delivered next
 * is left open: the recursive engine of module Autograd is one schedule of this machine.
 *
 * The fields wires, seen and sent of a node, base and counted of a leaf, and route, got, log and
 * roots of the state record history; the other fields are the fields of the program's objects.
 */
module AutogradMachine {
  import opened Wrappers
  import opened GradientSums

  /** One entry of next_functions_: the function to call and the output index to pass. */
  datatype Edge = Edge(target: Option<nat>, idx: nat)

  datatype Msg = Seed(n: nat) | Wire(f: nat, i: nat)

  datatype Dest = Dest(node: nat, idx: nat)

  datatype Op<!G> =
    | Accumulate(leaf: nat)
    | Operator(backward: seq<Option<G>> -> seq<Option<G>>, diff: seq<bool>)

  datatype Node<!G> = Node(
    op: Op<G>,
    wires: seq<Edge>,
    complete: bool,
    depNum: nat,
    depReached: nat,
    outReached: nat,
    outs: seq<Option<G>>,
    seen: seq<Option<G>>,
    sent: seq<Option<G>>)

  datatype Leaf<G> = Leaf(
    grad: Option<G>,
    overwrite: bool,
    acc: Option<nat>,
    base: Option<G>,
    counted: set<Msg>)

  datatype State<!G> = State(
    add: (G, G) -> G,
    nodes: seq<Node<G>>,
    leaves: seq<Leaf<G>>,
    seeds: seq<G>,
    route: map<Msg, Dest>,
    got: map<Msg, G>,
    log: seq<nat>,
    roots: set<nat>)

  // ---------------------------------------------------------------- single nodes

  function Diff<G>(op: Op<G>): seq<bool> {
    match op
    case Accumulate(_) => [true]
    case Operator(_, diff) => diff
  }

  /** The outputs that need no further gradient: one has arrived, or none ever will. */
  ghost function Covered<G>(outs: seq<Option<G>>, diff: seq<bool>): set<nat>
    requires |outs| == |diff|
  {
    set k: nat | k < |outs| && (outs[k].Some? || !diff[k])
  }

  /** The two counters that BackwardPartial compares before it fires. */
  predicate Ready<G>(n: Node<G>) {
    n.outReached == |n.outs| && (n.depReached == n.depNum || n.depNum == 0)
  }

  /** Store or add the arriving gradient and count it. */
  function Arrive<G>(add: (G, G) -> G, n: Node<G>, k: nat, g: G): Node<G>
    requires k < |n.outs|
  {
    if n.outs[k].None? then
      n.(outs := n.outs[k := Some(g)], outReached := n.outReached + 1, depReached := n.depReached + 1)
    else
      n.(outs := n.outs[k := Some(add(n.outs[k].value, g))], depReached := n.depReached + 1)
  }

  /** What AccumulateGrad does to its leaf: set, add or overwrite, then drop the accumulator. */
  function Flush<G>(add: (G, G) -> G, l: Leaf<G>, g: G): Leaf<G> {
    l.(grad := if l.grad.Some? && !l.overwrite then Some(add(l.grad.value, g)) else Some(g),
       overwrite := false,
       acc := None)
  }

  predicate Full<G>(x: seq<Option<G>>, diff: seq<bool>) {
    |x| == |diff| && forall k :: 0 <= k < |x| && diff[k] ==> x[k].Some?
  }

  /** An operator answers with one gradient per input and with a real one on every wired input. */
  predicate Answers<G>(op: Op<G>, wires: seq<Edge>, x: seq<Option<G>>)
    requires op.Operator?
  {
    var y := op.backward(x);
    |y| == |wires| && forall i :: 0 <= i < |wires| && wires[i].target.Some? ==> y[i].Some?
  }

  ghost predicate Contract<G(!new)>(op: Op<G>, wires: seq<Edge>) {
    match op
    case Accumulate(_) => wires == []
    case Operator(_, diff) =>
      (exists k :: 0 <= k < |diff| && diff[k]) && forall x :: Full(x, diff) ==> Answers(op, wires, x)
  }

  // ---------------------------------------------------------------- messages

  ghost function Into<G>(s: State<G>, u: nat): set<Msg> {
    set m | m in s.route && s.route[m].node == u
  }

  ghost function Arrived<G>(s: State<G>, u: nat): set<Msg> {
    set m | m in s.got && m in s.route && s.route[m].node == u
  }

  /** The gradients that have arrived at output k of node u. */
  ghost function Contrib<G>(s: State<G>, u: nat, k: nat): map<Msg, G> {
    map m | m in s.got && m in s.route && s.route[m] == Dest(u, k) :: s.got[m]
  }

  /** The gradient a message carries; None as long as its source has not fired. */
  ghost function Sent<G>(s: State<G>, m: Msg): Option<G> {
    match m
    case Seed(n) => if n < |s.seeds| then Some(s.seeds[n]) else None
    case Wire(f, i) =>
      if f in s.log && f < |s.nodes| && i < |s.nodes[f].sent| then s.nodes[f].sent[i] else None
  }

  ghost function InFlight<G>(s: State<G>): set<Msg> {
    set m | m in s.route && m !in s.got && Sent(s, m).Some?
  }

  function Rank<G>(s: State<G>, u: nat): nat
    requires u < |s.nodes|
  {
    if s.nodes[u].op.Accumulate? then 0 else u + 1
  }

  ghost predicate FeedsLeaf<G>(s: State<G>, m: Msg, t: nat) {
    m in s.route && s.route[m].node < |s.nodes| && s.nodes[s.route[m].node].op == Accumulate(t)
  }

  /** The gradients sent to leaf t since its base was last recorded. */
  ghost function Received<G>(s: State<G>, t: nat): map<Msg, G>
    requires t < |s.leaves|
  {
    map m | m in s.got && FeedsLeaf(s, m, t) && m !in s.leaves[t].counted :: s.got[m]
  }

  ghost function Pending<G>(s: State<G>, l: Leaf<G>): Option<G> {
    if l.acc.Some? && l.acc.value < |s.nodes| && |s.nodes[l.acc.value].outs| > 0
    then s.nodes[l.acc.value].outs[0]
    else None
  }

  /** The gradient the leaf will hold once its accumulator has flushed. */
  ghost function Balance<G>(s: State<G>, t: nat): Option<G>
    requires t < |s.leaves|
  {
    var l := s.leaves[t];
    Plus(s.add, if l.overwrite then None else l.grad, Pending(s, l))
  }

  // ---------------------------------------------------------------- the invariant

  ghost predicate RouteInv<G>(s: State<G>, m: Msg)
    requires m in s.route
  {
    var d := s.route[m];
    && d.node < |s.nodes|
    && s.nodes[d.node].complete
    && d.idx < |Diff(s.nodes[d.node].op)|
    && Diff(s.nodes[d.node].op)[d.idx]
    && (m.Seed? <==> d.node in s.roots)
    && (m.Seed? ==> m.n < |s.seeds| && s.nodes[d.node].op.Operator?)
    && (m.Wire? ==>
          && m.f < |s.nodes| && m.i < |s.nodes[m.f].wires|
          && s.nodes[m.f].wires[m.i] == Edge(Some(d.node), d.idx)
          && Rank(s, d.node) < Rank(s, m.f))
  }

  ghost predicate GotInv<G>(s: State<G>, m: Msg)
    requires m in s.got
  {
    m in s.route && Sent(s, m) == Some(s.got[m])
  }

  /** A node that waits: its gradients and counters describe what has arrived. */
  ghost predicate Tallied<G>(s: State<G>, u: nat)
    requires u < |s.nodes|
  {
    var n := s.nodes[u];
    && |n.outs| == |Diff(n.op)|
    && n.depReached == |Arrived(s, u)|
    && n.outReached == |Covered(n.outs, Diff(n.op))|
    && (forall k :: 0 <= k < |n.outs| ==> n.outs[k] == Sum(s.add, Contrib(s, u, k)))
    && n.depNum == (if u in s.roots then 0 else |Into(s, u)|)
  }

  ghost predicate RoutesInv<G>(s: State<G>) {
    && (forall m :: m in s.route ==> RouteInv(s, m))
    && (forall m :: m in s.got ==> GotInv(s, m))
  }

  ghost predicate WaitingInv<G>(s: State<G>, u: nat)
    requires u < |s.nodes|
  {
    Tallied(s, u) && !Ready(s.nodes[u])
  }

  ghost predicate FiredInv<G>(s: State<G>, u: nat)
    requires u < |s.nodes|
  {
    var n := s.nodes[u];
    && n.complete
    && Into(s, u) <= s.got.Keys
    && Full(n.seen, Diff(n.op))
    && (forall k :: 0 <= k < |n.seen| ==> n.seen[k] == Sum(s.add, Contrib(s, u, k)))
    && n.sent == if n.op.Operator? then n.op.backward(n.seen) else []
  }

  ghost predicate NodeInv<G(!new)>(s: State<G>, u: nat)
    requires u < |s.nodes|
  {
    var n := s.nodes[u];
    && (n.complete ==> Contract(n.op, n.wires))
    && (forall i :: 0 <= i < |n.wires| && n.wires[i].target.Some? ==> Wire(u, i) in s.route)
    && (if u in s.log then FiredInv(s, u) else WaitingInv(s, u))
    && (n.op.Accumulate? ==>
          && n.complete
          && n.op.leaf < |s.leaves|
          && (u !in s.log ==> s.leaves[n.op.leaf].acc == Some(u)))
  }

  ghost predicate LeafInv<G>(s: State<G>, t: nat)
    requires t < |s.leaves|
  {
    var l := s.leaves[t];
    && (l.acc.Some? ==>
          l.acc.value < |s.nodes| && l.acc.value !in s.log && s.nodes[l.acc.value].op == Accumulate(t))
    && l.counted <= s.got.Keys
    && Balance(s, t) == Plus(s.add, l.base, Sum(s.add, Received(s, t)))
  }

  /** Wherever u stands in the log, f stands before it. */
  ghost predicate Precedes(log: seq<nat>, f: nat, u: nat) {
    forall p :: 0 <= p < |log| && log[p] == u ==> f in log[..p]
  }

  ghost predicate LogInv<G>(s: State<G>) {
    && (forall u :: u in s.log ==> u < |s.nodes|)
    && (forall p, q :: 0 <= p < q < |s.log| ==> s.log[p] != s.log[q])
    && (forall m :: m in s.route && m.Wire? ==> Precedes(s.log, m.f, s.route[m].node))
  }

  /** Roots are operators, and at most one seed at a time is on its way to a root. */
  ghost predicate SeedInv<G>(s: State<G>) {
    && (forall u :: u in s.roots ==> u < |s.nodes| && s.nodes[u].op.Operator?)
    && (forall m, m' ::
          (m in s.route && m' in s.route && m.Seed? && m'.Seed? && m !in s.got && m' !in s.got
           && s.route[m].node == s.route[m'].node) ==> m == m')
  }

  ghost predicate Inv<G(!new)>(s: State<G>) {
    && Lawful(s.add)
    && RoutesInv(s)
    && LogInv(s)
    && SeedInv(s)
    && (forall u :: 0 <= u < |s.nodes| ==> NodeInv(s, u))
    && (forall t :: 0 <= t < |s.leaves| ==> LeafInv(s, t))
  }

  // ---------------------------------------------------------------- delivering a message

  /** Run Backward of node u on its gradients and clear it; an accumulator flushes into its leaf. */
  function Fire<G>(s: State<G>, u: nat): State<G>
    requires u < |s.nodes|
    requires s.nodes[u].op.Accumulate? ==> s.nodes[u].op.leaf < |s.leaves| && |s.nodes[u].outs| > 0
  {
    var n := s.nodes[u];
    var cleared := n.(seen := n.outs, outs := [], outReached := 0, depReached := 0);
    match n.op
    case Operator(backward, _) =>
      s.(nodes := s.nodes[u := cleared.(sent := backward(n.outs))], log := s.log + [u])
    case Accumulate(t) =>
      s.(nodes := s.nodes[u := cleared.(sent := [])],
         log := s.log + [u],
         leaves := if n.outs[0].None? then s.leaves
                   else s.leaves[t := Flush(s.add, s.leaves[t], n.outs[0].value)])
  }

  /** Message m is on its way and its destination has a slot for it. */
  ghost predicate Deliverable<G>(s: State<G>, m: Msg) {
    && m in s.route && m !in s.got && Sent(s, m).Some?
    && s.route[m].node < |s.nodes|
    && s.route[m].idx < |s.nodes[s.route[m].node].outs|
    && (s.nodes[s.route[m].node].op.Accumulate? ==> s.nodes[s.route[m].node].op.leaf < |s.leaves|)
  }

  ghost function Counted<G>(s: State<G>, m: Msg): State<G>
    requires Deliverable(s, m)
  {
    var d := s.route[m];
    var g := Sent(s, m).value;
    s.(nodes := s.nodes[d.node := Arrive(s.add, s.nodes[d.node], d.idx, g)], got := s.got[m := g])
  }

  lemma InFlightIsDeliverable<G(!new)>(s: State<G>, m: Msg)
    requires Inv(s) && m in InFlight(s)
    ensures Deliverable(s, m) && s.route[m].node !in s.log && RouteInv(s, m) && NodeInv(s, s.route[m].node)
  {
    var u := s.route[m].node;
    assert RouteInv(s, m);
    assert NodeInv(s, u);
    assert m in Into(s, u);
  }

  /** One activation of BackwardPartial up to its recursive calls. */
  ghost function Deliver<G>(s: State<G>, m: Msg): State<G>
    requires Deliverable(s, m)
  {
    var u := s.route[m].node;
    var s1 := Counted(s, m);
    if Ready(s1.nodes[u]) then Fire(s1, u) else s1
  }

  // ---------------------------------------------------------------- delivery keeps the invariant

  ghost function Range(n: nat): (r: set<nat>)
    ensures |r| == n && forall k: nat :: k in r <==> k < n
  {
    if n == 0 then {} else Range(n - 1) + {n - 1}
  }

  lemma SubsetOfSameSize<T>(a: set<T>, b: set<T>)
    requires a <= b && |a| == |b|
    ensures a == b
  {
    assert |b - a| == 0;
  }

  lemma AllCovered<G>(outs: seq<Option<G>>, diff: seq<bool>)
    requires |outs| == |diff| && |Covered(outs, diff)| == |outs|
    ensures Full(outs, diff)
  {
    SubsetOfSameSize(Covered(outs, diff), Range(|outs|));
    forall k | 0 <= k < |outs| && diff[k]
      ensures outs[k].Some?
    {
      assert k in Covered(outs, diff);
    }
  }

  lemma CoversOneMore<G>(outs: seq<Option<G>>, diff: seq<bool>, k: nat, g: G)
    requires k < |outs| == |diff| && diff[k]
    ensures |Covered(outs[k := Some(g)], diff)| == |Covered(outs, diff)| + if outs[k].None? then 1 else 0
  {
    assert Covered(outs[k := Some(g)], diff) == Covered(outs, diff) + {k};
    if outs[k].Some? {
      assert Covered(outs, diff) + {k} == Covered(outs, diff);
    }
  }

  /** The message tables of two states that differ by the delivery of m. */
  ghost predicate OneMoreGot<G>(s: State<G>, s': State<G>, m: Msg) {
    && m in s.route && m !in s.got && Sent(s, m).Some?
    && s'.route == s.route
    && s'.got == s.got[m := Sent(s, m).value]
    && s'.add == s.add
    && s'.roots == s.roots
    && s'.seeds == s.seeds
  }

  lemma TablesElsewhere<G>(s: State<G>, s': State<G>, m: Msg, v: nat)
    requires OneMoreGot(s, s', m) && s.route[m].node != v
    ensures Into(s', v) == Into(s, v)
    ensures Arrived(s', v) == Arrived(s, v)
    ensures forall k :: Contrib(s', v, k) == Contrib(s, v, k)
  {
  }

  lemma TablesHere<G(!new)>(s: State<G>, s': State<G>, m: Msg)
    requires OneMoreGot(s, s', m) && Lawful(s.add)
    ensures var d := s.route[m]; var g := Sent(s, m).value;
            && Into(s', d.node) == Into(s, d.node)
            && |Arrived(s', d.node)| == |Arrived(s, d.node)| + 1
            && Sum(s.add, Contrib(s', d.node, d.idx)) == Plus(s.add, Sum(s.add, Contrib(s, d.node, d.idx)), Some(g))
            && forall k :: k != d.idx ==> Contrib(s', d.node, k) == Contrib(s, d.node, k)
  {
    var d := s.route[m];
    var g := Sent(s, m).value;
    assert Arrived(s', d.node) == Arrived(s, d.node) + {m};
    assert Contrib(s', d.node, d.idx) == Contrib(s, d.node, d.idx)[m := g];
    SumInsert(s.add, Contrib(s, d.node, d.idx), m, g);
  }

  lemma CountedHere<G(!new)>(s: State<G>, m: Msg)
    requires Deliverable(s, m) && Lawful(s.add)
    requires Tallied(s, s.route[m].node) && RouteInv(s, m)
    ensures Tallied(Counted(s, m), s.route[m].node)
  {
    var d := s.route[m];
    var n := s.nodes[d.node];
    var s' := Counted(s, m);
    TablesHere(s, s', m);
    CoversOneMore(n.outs, Diff(n.op), d.idx, s'.nodes[d.node].outs[d.idx].value);
    forall k | 0 <= k < |n.outs|
      ensures s'.nodes[d.node].outs[k] == Sum(s.add, Contrib(s', d.node, k))
    {
      if k != d.idx {
        assert Contrib(s', d.node, k) == Contrib(s, d.node, k);
      }
    }
  }

  /** When the counters agree, every message into the node has arrived. */
  lemma ReadyHasEverything<G>(s: State<G>, m: Msg)
    requires Deliverable(s, m) && RoutesInv(s) && SeedInv(s)
    requires Tallied(Counted(s, m), s.route[m].node) && Ready(Counted(s, m).nodes[s.route[m].node])
    ensures var s' := Counted(s, m);
            var u := s.route[m].node;
            Into(s', u) <= s'.got.Keys && Full(s'.nodes[u].outs, Diff(s'.nodes[u].op))
  {
    var s' := Counted(s, m);
    var u := s.route[m].node;
    var n := s'.nodes[u];
    AllCovered(n.outs, Diff(n.op));
    assert RouteInv(s, m);
    assert m in Into(s', u);
    if u in s.roots {
      forall m' | m' in Into(s', u)
        ensures m' in s'.got
      {
        assert RouteInv(s, m');
      }
    } else {
      assert n.depNum == |Into(s', u)| > 0;
      SubsetOfSameSize(Arrived(s', u), Into(s', u));
    }
  }

  /** What one delivery leaves alone. */
  ghost predicate Frame<G>(s: State<G>, s': State<G>, m: Msg) {
    && OneMoreGot(s, s', m)
    && s.route[m].node < |s.nodes| == |s'.nodes|
    && |s.leaves| == |s'.leaves|
    && (forall v :: 0 <= v < |s.nodes| && v != s.route[m].node ==> s'.nodes[v] == s.nodes[v])
    && (var n, n' := s.nodes[s.route[m].node], s'.nodes[s.route[m].node];
        n'.op == n.op && n'.wires == n.wires && n'.complete == n.complete && n'.depNum == n.depNum)
    && s.route[m].node !in s.log
    && (s'.log == s.log || s'.log == s.log + [s.route[m].node])
  }

  lemma DeliverFrames<G>(s: State<G>, m: Msg)
    requires Deliverable(s, m) && s.route[m].node !in s.log
    ensures Frame(s, Deliver(s, m), m)
  {
  }

  lemma SentStays<G>(s: State<G>, s': State<G>, m: Msg, m': Msg)
    requires Frame(s, s', m) && Sent(s, m').Some?
    ensures Sent(s', m') == Sent(s, m')
  {
  }

  lemma RoutesStay<G>(s: State<G>, s': State<G>, m: Msg)
    requires RoutesInv(s) && Frame(s, s', m)
    ensures RoutesInv(s')
  {
    forall m' | m' in s'.route
      ensures RouteInv(s', m')
    {
      assert RouteInv(s, m');
    }
    forall m' | m' in s'.got
      ensures GotInv(s', m')
    {
      if m' != m {
        assert GotInv(s, m');
      }
      SentStays(s, s', m, m');
    }
  }

  lemma OtherNodesStay<G(!new)>(s: State<G>, s': State<G>, m: Msg, v: nat)
    requires Frame(s, s', m) && v < |s.nodes| && v != s.route[m].node
    requires NodeInv(s, v)
    requires s.nodes[v].op.Accumulate? && v !in s.log ==>
             s'.leaves[s.nodes[v].op.leaf].acc == s.leaves[s.nodes[v].op.leaf].acc
    ensures NodeInv(s', v)
  {
    TablesElsewhere(s, s', m, v);
  }

  lemma TablesAfterFire<G>(s: State<G>, u: nat)
    requires u < |s.nodes|
    requires s.nodes[u].op.Accumulate? ==> s.nodes[u].op.leaf < |s.leaves| && |s.nodes[u].outs| > 0
    ensures var s' := Fire(s, u);
            Into(s', u) == Into(s, u) && forall k :: Contrib(s', u, k) == Contrib(s, u, k)
  {
  }

  lemma DestinationFires<G(!new)>(s: State<G>, u: nat)
    requires u < |s.nodes| && Tallied(s, u) && s.nodes[u].complete
    requires Into(s, u) <= s.got.Keys && Full(s.nodes[u].outs, Diff(s.nodes[u].op))
    requires s.nodes[u].op.Accumulate? ==> s.nodes[u].op.leaf < |s.leaves|
    ensures FiredInv(Fire(s, u), u)
  {
    TablesAfterFire(s, u);
  }

  lemma DestinationStays<G(!new)>(s: State<G>, m: Msg)
    requires Deliverable(s, m) && Lawful(s.add) && RoutesInv(s) && SeedInv(s)
    requires NodeInv(s, s.route[m].node) && s.route[m].node !in s.log
    ensures NodeInv(Deliver(s, m), s.route[m].node)
  {
    assert RouteInv(s, m);
    var u := s.route[m].node;
    var s1 := Counted(s, m);
    CountedHere(s, m);
    if Ready(s1.nodes[u]) {
      ReadyHasEverything(s, m);
      DestinationFires(s1, u);
    }
  }

  lemma PrecedesAppend(log: seq<nat>, f: nat, u: nat, w: nat)
    requires Precedes(log, f, u) && (w == u ==> f in log)
    ensures Precedes(log + [w], f, u)
  {
    forall p | 0 <= p < |log + [w]| && (log + [w])[p] == u
      ensures f in (log + [w])[..p]
    {
      assert (log + [w])[..p] == log[..p];
      assert log[..|log|] == log;
    }
  }

  lemma LogStays<G>(s: State<G>, s': State<G>, m: Msg)
    requires Frame(s, s', m) && LogInv(s) && RoutesInv(s')
    requires s'.log != s.log ==> Into(s', s.route[m].node) <= s'.got.Keys
    ensures LogInv(s')
  {
    if s'.log != s.log {
      var u := s.route[m].node;
      forall m' | m' in s'.route && m'.Wire?
        ensures Precedes(s'.log, m'.f, s'.route[m'].node)
      {
        if s'.route[m'].node == u {
          assert m' in Into(s', u);
          assert GotInv(s', m') && RouteInv(s', m');
        }
        PrecedesAppend(s.log, m'.f, s.route[m'].node, u);
      }
    }
  }

  lemma FeedsStay<G>(s: State<G>, s': State<G>, m: Msg, t: nat, m': Msg)
    requires Frame(s, s', m)
    ensures FeedsLeaf(s', m', t) == FeedsLeaf(s, m', t)
  {
    if m' in s.route && s.route[m'].node < |s.nodes| && s.route[m'].node != s.route[m].node {
      assert s'.nodes[s.route[m'].node] == s.nodes[s.route[m'].node];
    }
  }

  lemma ReceivedElsewhere<G>(s: State<G>, s': State<G>, m: Msg, t: nat)
    requires Frame(s, s', m) && t < |s.leaves| && s'.leaves[t].counted == s.leaves[t].counted
    requires !FeedsLeaf(s, m, t)
    ensures Received(s', t) == Received(s, t)
  {
    forall m'
      ensures m' in Received(s', t) <==> m' in Received(s, t)
    {
      FeedsStay(s, s', m, t, m');
    }
  }

  lemma ReceivedHere<G>(s: State<G>, s': State<G>, m: Msg, t: nat)
    requires Frame(s, s', m) && t < |s.leaves| && s'.leaves[t].counted == s.leaves[t].counted
    requires FeedsLeaf(s, m, t) && m !in s.leaves[t].counted
    ensures m !in Received(s, t) && Received(s', t) == Received(s, t)[m := Sent(s, m).value]
  {
    forall m'
      ensures m' in Received(s', t) <==> m' in Received(s, t)[m := Sent(s, m).value]
    {
      FeedsStay(s, s', m, t, m');
    }
  }

  lemma OtherLeafStays<G(!new)>(s: State<G>, s': State<G>, m: Msg, t: nat)
    requires Frame(s, s', m) && t < |s.leaves| && LeafInv(s, t)
    requires s.nodes[s.route[m].node].op != Accumulate(t) && s'.leaves[t] == s.leaves[t]
    ensures LeafInv(s', t)
  {
    ReceivedElsewhere(s, s', m, t);
    var l := s.leaves[t];
    if l.acc.Some? {
      assert s'.nodes[l.acc.value] == s.nodes[l.acc.value];
    }
  }

  /** Whether the accumulator fires or not, one arrival adds its gradient to the leaf's balance. */
  lemma BalanceGrows<G(!new)>(s: State<G>, m: Msg, t: nat)
    requires Deliverable(s, m) && Lawful(s.add) && t < |s.leaves|
    requires s.nodes[s.route[m].node].op == Accumulate(t) && s.leaves[t].acc == Some(s.route[m].node)
    requires s.route[m].idx == 0 && |s.nodes[s.route[m].node].outs| == 1
    ensures var s1 := Counted(s, m);
            var u := s.route[m].node;
            var b := Plus(s.add, Balance(s, t), Sent(s, m));
            Balance(s1, t) == b && Balance(Fire(s1, u), t) == b
  {
    var n := s.nodes[s.route[m].node];
    var l := s.leaves[t];
    PlusAssociates(s.add, if l.overwrite then None else l.grad, n.outs[0], Sent(s, m));
  }

  lemma FedLeafStays<G(!new)>(s: State<G>, s': State<G>, m: Msg, t: nat)
    requires Frame(s, s', m) && Lawful(s.add) && t < |s.leaves| && LeafInv(s, t)
    requires FeedsLeaf(s, m, t) && s'.leaves[t].counted == s.leaves[t].counted && s'.leaves[t].base == s.leaves[t].base
    requires s'.leaves[t].acc.None? || (s'.leaves[t] == s.leaves[t] && s'.log == s.log)
    requires Balance(s', t) == Plus(s.add, Balance(s, t), Sent(s, m))
    ensures LeafInv(s', t)
  {
    ReceivedHere(s, s', m, t);
    SumInsert(s.add, Received(s, t), m, Sent(s, m).value);
    PlusAssociates(s.add, s.leaves[t].base, Sum(s.add, Received(s, t)), Sent(s, m));
  }

  lemma LeavesStay<G(!new)>(s: State<G>, m: Msg, t: nat)
    requires Deliverable(s, m) && Lawful(s.add) && RouteInv(s, m)
    requires NodeInv(s, s.route[m].node) && s.route[m].node !in s.log
    requires t < |s.leaves| && LeafInv(s, t)
    ensures t < |Deliver(s, m).leaves| && LeafInv(Deliver(s, m), t)
  {
    DeliverFrames(s, m);
    var u := s.route[m].node;
    var s' := Deliver(s, m);
    if s.nodes[u].op == Accumulate(t) {
      BalanceGrows(s, m, t);
      FedLeafStays(s, s', m, t);
    } else {
      OtherLeafStays(s, s', m, t);
    }
  }

  lemma NodesStay<G(!new)>(s: State<G>, m: Msg, v: nat)
    requires Inv(s) && m in InFlight(s) && v < |s.nodes|
    ensures Deliverable(s, m) && v < |Deliver(s, m).nodes| && NodeInv(Deliver(s, m), v)
  {
    InFlightIsDeliverable(s, m);
    DeliverFrames(s, m);
    assert NodeInv(s, v);
    if v == s.route[m].node {
      DestinationStays(s, m);
    } else {
      OtherNodesStay(s, Deliver(s, m), m, v);
    }
  }

  /** The invariant is kept by every delivery, in whatever order deliveries are made. */
  lemma DeliverKeepsInv<G(!new)>(s: State<G>, m: Msg)
    requires Inv(s) && m in InFlight(s)
    ensures Deliverable(s, m) && Inv(Deliver(s, m))
  {
    hide Deliver, RouteInv, GotInv;
    InFlightIsDeliverable(s, m);
    DeliverFrames(s, m);
    var s' := Deliver(s, m);
    RoutesStay(s, s', m);
    forall v | 0 <= v < |s'.nodes|
      ensures NodeInv(s', v)
    {
      NodesStay(s, m, v);
    }
    assert NodeInv(s', s.route[m].node);
    LogStays(s, s', m);
    forall t | 0 <= t < |s'.leaves|
      ensures LeafInv(s', t)
    {
      assert LeafInv(s, t);
      LeavesStay(s, m, t);
    }
  }

}
