/**
 * Whole backward passes: what any schedule of deliveries fires, in which order, with which
 * gradients, and that the choice of schedule makes no difference.
 */
module AutogradRuns {
  import opened Wrappers
  import opened GradientSums
  import opened AutogradMachine

  // ---------------------------------------------------------------- schedules

  /** The messages ms can be delivered one after the other, starting in s. */
  ghost predicate Schedule<G>(s: State<G>, ms: seq<Msg>)
    decreases |ms|
  {
    ms == [] || (ms[0] in InFlight(s) && Deliverable(s, ms[0]) && Schedule(Deliver(s, ms[0]), ms[1..]))
  }

  ghost function After<G>(s: State<G>, ms: seq<Msg>): State<G>
    requires Schedule(s, ms)
    decreases |ms|
  {
    if ms == [] then s else After(Deliver(s, ms[0]), ms[1..])
  }

  /** What no delivery changes. */
  ghost predicate SameGraph<G>(s: State<G>, s': State<G>) {
    && s'.add == s.add && s'.route == s.route && s'.seeds == s.seeds && s'.roots == s.roots
    && |s'.nodes| == |s.nodes| && |s'.leaves| == |s.leaves|
    && (forall v :: 0 <= v < |s.nodes| ==>
          s'.nodes[v].op == s.nodes[v].op && s'.nodes[v].wires == s.nodes[v].wires
          && s'.nodes[v].complete == s.nodes[v].complete && s'.nodes[v].depNum == s.nodes[v].depNum)
    && (forall t :: 0 <= t < |s.leaves| ==>
          s'.leaves[t].base == s.leaves[t].base && s'.leaves[t].counted == s.leaves[t].counted)
  }

  /** A leaf is untouched until its accumulator fires, and flushed by it. */
  ghost predicate LeafStep<G>(s: State<G>, s': State<G>, t: nat)
    requires t < |s.leaves| && t < |s'.leaves|
  {
    var l, l' := s.leaves[t], s'.leaves[t];
    l' == l || (l.acc.Some? && l.acc.value in s'.log && l'.acc.None? && !l'.overwrite)
  }

  ghost predicate Follows<G>(s: State<G>, s': State<G>) {
    && SameGraph(s, s')
    && s.log <= s'.log
    && s.got.Keys <= s'.got.Keys
    && (forall v :: 0 <= v < |s.nodes| && v in s.log ==> s'.nodes[v] == s.nodes[v])
    && forall t :: 0 <= t < |s.leaves| ==> LeafStep(s, s', t)
  }

  lemma LeafSteps<G(!new)>(s: State<G>, m: Msg, t: nat)
    requires Deliverable(s, m) && t < |s.leaves|
    requires NodeInv(s, s.route[m].node) && s.route[m].node !in s.log
    ensures LeafStep(s, Deliver(s, m), t)
    ensures Deliver(s, m).leaves[t].base == s.leaves[t].base
    ensures Deliver(s, m).leaves[t].counted == s.leaves[t].counted
  {
  }

  lemma FrameFollows<G>(s: State<G>, s': State<G>, m: Msg)
    requires Frame(s, s', m)
    requires forall t :: 0 <= t < |s.leaves| ==>
               LeafStep(s, s', t) && s'.leaves[t].base == s.leaves[t].base &&
                 s'.leaves[t].counted == s.leaves[t].counted
    ensures Follows(s, s') && |s'.got| == |s.got| + 1
  {
    assert s'.got.Keys == s.got.Keys + {m};
  }

  lemma DeliverFollows<G(!new)>(s: State<G>, m: Msg)
    requires Inv(s) && m in InFlight(s)
    ensures Deliverable(s, m) && Follows(s, Deliver(s, m)) && |Deliver(s, m).got| == |s.got| + 1
  {
    InFlightIsDeliverable(s, m);
    DeliverFrames(s, m);
    forall t | 0 <= t < |s.leaves|
      ensures LeafStep(s, Deliver(s, m), t)
      ensures Deliver(s, m).leaves[t].base == s.leaves[t].base
      ensures Deliver(s, m).leaves[t].counted == s.leaves[t].counted
    {
      LeafSteps(s, m, t);
    }
    FrameFollows(s, Deliver(s, m), m);
  }

  lemma FollowsTransitive<G>(a: State<G>, b: State<G>, c: State<G>)
    requires Follows(a, b) && Follows(b, c)
    ensures Follows(a, c)
  {
    forall t | 0 <= t < |a.leaves|
      ensures LeafStep(a, c, t)
    {
      assert LeafStep(a, b, t) && LeafStep(b, c, t);
    }
  }

  lemma {:induction false} AfterProperties<G(!new)>(s: State<G>, ms: seq<Msg>)
    requires Inv(s) && Schedule(s, ms)
    ensures Inv(After(s, ms)) && Follows(s, After(s, ms)) && |After(s, ms).got| == |s.got| + |ms|
    decreases |ms|
  {
    if ms != [] {
      DeliverKeepsInv(s, ms[0]);
      var s1 := Deliver(s, ms[0]);
      DeliverFollows(s, ms[0]);
      AfterProperties(s1, ms[1..]);
      FollowsTransitive(s, s1, After(s, ms));
    }
  }

  /** Every schedule ends: it can be no longer than the number of recorded edges not yet served. */
  lemma SchedulesAreBounded<G(!new)>(s: State<G>, ms: seq<Msg>)
    requires Inv(s) && Schedule(s, ms)
    ensures |ms| + |s.got| <= |s.route|
  {
    AfterProperties(s, ms);
    var s' := After(s, ms);
    forall m | m in s'.got
      ensures m in s'.route
    {
      assert GotInv(s', m);
    }
    assert s'.got.Keys <= s.route.Keys;
    SubsetSize(s'.got.Keys, s.route.Keys);
  }

  lemma SubsetSize<T>(a: set<T>, b: set<T>)
    requires a <= b
    ensures |a| <= |b|
  {
    assert b == a + (b - a);
  }

  lemma ScheduleStep<G>(s: State<G>, s1: State<G>, m: Msg, ms: seq<Msg>)
    requires m in InFlight(s) && Deliverable(s, m) && s1 == Deliver(s, m) && Schedule(s1, ms)
    ensures Schedule(s, [m] + ms) && After(s, [m] + ms) == After(s1, ms)
  {
    hide Deliver, Deliverable, InFlight;
    assert ([m] + ms)[1..] == ms;
  }

  lemma {:induction false} AfterConcat<G>(s: State<G>, ms: seq<Msg>, ms': seq<Msg>)
    requires Schedule(s, ms) && Schedule(After(s, ms), ms')
    ensures Schedule(s, ms + ms') && After(s, ms + ms') == After(After(s, ms), ms')
    decreases |ms|
  {
    hide Deliver, Deliverable, InFlight;
    if ms == [] {
      assert ms + ms' == ms';
    } else {
      var m, rest := ms[0], ms[1..];
      var s1 := Deliver(s, m);
      assert Schedule(s1, rest) && After(s, ms) == After(s1, rest);
      AfterConcat(s1, rest, ms');
      ScheduleStep(s, s1, m, rest + ms');
      assert ms + ms' == [m] + (rest + ms');
    }
  }

  lemma AfterOne<G(!new)>(s: State<G>, m: Msg)
    requires Inv(s) && m in InFlight(s)
    ensures Deliverable(s, m) && Schedule(s, [m]) && After(s, [m]) == Deliver(s, m)
  {
    hide Inv, Deliver;
    DeliverKeepsInv(s, m);
  }

  // ---------------------------------------------------------------- the schedule of the engine

  /** Edge j of u is served in the pass over leaf edges (leafPass) or in the one over the others. */
  ghost predicate ServedIn<G>(s: State<G>, u: nat, j: nat, leafPass: bool)
    requires u < |s.nodes|
  {
    && j < |s.nodes[u].wires| && s.nodes[u].wires[j].target.Some?
    && s.nodes[u].wires[j].target.value < |s.nodes|
    && s.nodes[s.nodes[u].wires[j].target.value].op.Accumulate? == leafPass
  }

  /** The edges of u still to be served when the given pass has come to index i. */
  ghost function Remaining<G>(s: State<G>, u: nat, leafPass: bool, i: nat): set<Msg>
    requires u < |s.nodes|
  {
    set j: nat | j < |s.nodes[u].wires| && ServedIn(s, u, j, leafPass) && i <= j :: Wire(u, j)
  }

  ghost function Edges<G>(s: State<G>, u: nat): set<Msg>
    requires u < |s.nodes|
  {
    Remaining(s, u, true, 0) + Remaining(s, u, false, 0)
  }

  lemma RemainingStays<G>(s: State<G>, s': State<G>, u: nat, leafPass: bool, i: nat)
    requires SameGraph(s, s') && u < |s.nodes|
    ensures Remaining(s', u, leafPass, i) == Remaining(s, u, leafPass, i)
  {
    forall j: nat, p
      ensures ServedIn(s', u, j, p) == ServedIn(s, u, j, p)
    {
    }
  }

  lemma RemainingStep<G>(s: State<G>, u: nat, leafPass: bool, i: nat)
    requires u < |s.nodes| && i < |s.nodes[u].wires|
    ensures Remaining(s, u, leafPass, i) ==
            Remaining(s, u, leafPass, i + 1) + if ServedIn(s, u, i, leafPass) then {Wire(u, i)} else {}
    ensures Wire(u, i) !in Remaining(s, u, leafPass, i + 1)
  {
  }

  lemma WireIsOnItsWay<G(!new)>(s: State<G>, s': State<G>, m: Msg, j: nat)
    requires Frame(s, s', m) && Inv(s') && RoutesInv(s) && s.route[m].node in s'.log
    requires j < |s'.nodes[s.route[m].node].wires| && s'.nodes[s.route[m].node].wires[j].target.Some?
    ensures Wire(s.route[m].node, j) in InFlight(s')
  {
    var u := s.route[m].node;
    var w := Wire(u, j);
    assert NodeInv(s', u);
    WiredGradientIsSent(s', w);
    assert w in s.got ==> GotInv(s, w);
    assert RouteInv(s', m);
  }

  lemma OldMessagesStay<G>(s: State<G>, s': State<G>, m: Msg)
    requires Frame(s, s', m)
    ensures InFlight(s) - {m} <= InFlight(s')
  {
    forall m' | m' in InFlight(s) - {m}
      ensures m' in InFlight(s')
    {
      SentStays(s, s', m, m');
    }
  }

  lemma NewMessagesRemain<G>(s: State<G>, s': State<G>, m: Msg, m': Msg)
    requires Frame(s, s', m) && RoutesInv(s') && m' in InFlight(s') && m' !in InFlight(s)
    ensures s.route[m].node in s'.log && m' in Edges(s', s.route[m].node)
  {
    assert RouteInv(s', m');
    assert ServedIn(s', s.route[m].node, m'.i, true) || ServedIn(s', s.route[m].node, m'.i, false);
  }

  /** A delivery takes its message off the way and, if the destination fires, puts its edges on it. */
  lemma InFlightAfter<G(!new)>(s: State<G>, m: Msg)
    requires Inv(s) && m in InFlight(s)
    ensures Deliverable(s, m)
    ensures var s' := Deliver(s, m);
            var u := s.route[m].node;
            u < |s'.nodes| &&
            InFlight(s') == (InFlight(s) - {m}) + if u in s'.log then Edges(s', u) else {}
  {
    InFlightIsDeliverable(s, m);
    DeliverFrames(s, m);
    DeliverKeepsInv(s, m);
    var s' := Deliver(s, m);
    var u := s.route[m].node;
    if u in s'.log {
      forall j: nat | j < |s'.nodes[u].wires| && s'.nodes[u].wires[j].target.Some?
        ensures Wire(u, j) in InFlight(s')
      {
        WireIsOnItsWay(s, s', m, j);
      }
    }
    FrameInFlight(s, s', m);
  }

  lemma FrameInFlight<G>(s: State<G>, s': State<G>, m: Msg)
    requires Frame(s, s', m) && RoutesInv(s')
    requires var u := s.route[m].node;
             u in s'.log ==>
               forall j: nat :: j < |s'.nodes[u].wires| && s'.nodes[u].wires[j].target.Some? ==>
                 Wire(u, j) in InFlight(s')
    ensures var u := s.route[m].node;
            InFlight(s') == (InFlight(s) - {m}) + if u in s'.log then Edges(s', u) else {}
  {
    OldMessagesStay(s, s', m);
    EdgesOnTheWay(s', s.route[m].node);
    NotOnTheWay(s, s', m);
    forall m' | m' in InFlight(s') && m' !in InFlight(s)
      ensures s.route[m].node in s'.log && m' in Edges(s', s.route[m].node)
    {
      NewMessagesRemain(s, s', m, m');
    }
    hide Frame, RoutesInv, InFlight, Edges;
  }

  lemma NotOnTheWay<G>(s: State<G>, s': State<G>, m: Msg)
    requires Frame(s, s', m)
    ensures m !in InFlight(s')
  {
  }

  lemma EdgesOnTheWay<G>(s: State<G>, u: nat)
    requires u < |s.nodes|
    ensures (forall j: nat :: j < |s.nodes[u].wires| && s.nodes[u].wires[j].target.Some? ==>
            Wire(u, j) in InFlight(s)) ==>
            Edges(s, u) <= InFlight(s)
  {
    hide InFlight;
  }

  /** Everything the engine relies on about the delivery of m to u, which takes s to s1. */
  ghost predicate Arrival<G(!new)>(s: State<G>, s1: State<G>, m: Msg, u: nat) {
    && Inv(s1) && Follows(s, s1)
    && Schedule(s, [m]) && After(s, [m]) == s1
    && u < |s1.nodes| && u !in s.log && Edges(s1, u) !! InFlight(s)
    && InFlight(s1) == (InFlight(s) - {m}) + if u in s1.log then Edges(s1, u) else {}
  }

  lemma DeliveryIsArrival<G(!new)>(s: State<G>, m: Msg)
    requires Inv(s) && m in InFlight(s)
    ensures Deliverable(s, m) && Arrival(s, Deliver(s, m), m, s.route[m].node)
  {
    InFlightIsDeliverable(s, m);
    DeliverKeepsInv(s, m);
    DeliverFollows(s, m);
    AfterOne(s, m);
    InFlightAfter(s, m);
  }

  lemma ArrivalAlone<G(!new)>(s: State<G>, m: Msg, u: nat, s1: State<G>)
    requires Arrival(s, s1, m, u) && u !in s1.log
    ensures Inv(s1) && s.log <= s1.log
    ensures Schedule(s, [m]) && After(s, [m]) == s1 && InFlight(s1) == InFlight(s) - {m}
  {
    hide Inv, InFlight, Schedule, After;
  }

  /** One pass over the edges of u up to index i, which takes s to s1. */
  ghost predicate Pass<G(!new)>(s: State<G>, s1: State<G>, u: nat, leafPass: bool, i: nat, trace: seq<Msg>) {
    && Inv(s1) && Follows(s, s1)
    && Schedule(s, trace) && After(s, trace) == s1
    && u < |s.nodes| && u in s.log
    && i <= |s.nodes[u].wires|
    && InFlight(s1) == InFlight(s) - (Remaining(s, u, leafPass, 0) - Remaining(s, u, leafPass, i))
  }

  /** A fired function has one result per edge, and a real gradient on every wired one (the CHECK_EQ). */
  lemma FiredFunctionAnswers<G(!new)>(s: State<G>, u: nat)
    requires Inv(s) && u in s.log && u < |s.nodes|
    ensures |s.nodes[u].sent| == |s.nodes[u].wires|
    ensures forall i :: 0 <= i < |s.nodes[u].wires| && s.nodes[u].wires[i].target.Some? ==> s.nodes[u].sent[i].Some?
  {
    assert NodeInv(s, u);
    assert Full(s.nodes[u].seen, Diff(s.nodes[u].op));
    assert s.nodes[u].op.Operator? ==> Answers(s.nodes[u].op, s.nodes[u].wires, s.nodes[u].seen);
  }

  lemma PassStart<G(!new)>(s: State<G>, u: nat, leafPass: bool)
    requires Inv(s) && u < |s.nodes| && u in s.log
    ensures Pass(s, s, u, leafPass, 0, [])
  {
    hide Inv, InFlight;
  }

  lemma PassSoFar<G(!new)>(s: State<G>, s1: State<G>, u: nat, leafPass: bool, i: nat, trace: seq<Msg>)
    requires Pass(s, s1, u, leafPass, i, trace)
    ensures Inv(s1) && u < |s.nodes| && u < |s1.nodes| && u in s1.log && i <= |s.nodes[u].wires|
    ensures s1.nodes[u].wires == s.nodes[u].wires
    ensures i < |s.nodes[u].wires| ==> ServedIn(s1, u, i, leafPass) == ServedIn(s, u, i, leafPass)
  {
    hide Inv, InFlight, Schedule, After;
  }

  /** The edge the pass has come to can be served. */
  lemma EdgeCanBeServed<G(!new)>(s: State<G>, s1: State<G>, u: nat, leafPass: bool, i: nat, trace: seq<Msg>)
    requires Pass(s, s1, u, leafPass, i, trace) && Remaining(s, u, leafPass, 0) <= InFlight(s)
    requires i < |s.nodes[u].wires| && ServedIn(s, u, i, leafPass)
    ensures Inv(s1)
    ensures var w := Wire(u, i); var e := s.nodes[u].wires[i];
            && w in InFlight(s1) && s1.route[w] == Dest(e.target.value, e.idx)
            && e.target.value < |s1.nodes| && Rank(s1, e.target.value) < Rank(s1, u)
            && i < |s1.nodes[u].sent| && Sent(s1, w) == s1.nodes[u].sent[i]
  {
    assert Wire(u, i) in Remaining(s, u, leafPass, i) && Wire(u, i) in Remaining(s, u, leafPass, 0);
    assert RouteInv(s1, Wire(u, i));
  }

  lemma PassStep<G(!new)>(s: State<G>, s1: State<G>, s2: State<G>, u: nat, leafPass: bool, i: nat, trace: seq<Msg>,
                          t: seq<Msg>)
    requires Pass(s, s1, u, leafPass, i, trace) && Remaining(s, u, leafPass, 0) <= InFlight(s)
    requires i < |s.nodes[u].wires| && ServedIn(s, u, i, leafPass)
    requires Inv(s2) && Schedule(s1, t) && After(s1, t) == s2 && InFlight(s2) == InFlight(s1) - {Wire(u, i)}
    ensures Pass(s, s2, u, leafPass, i + 1, trace + t)
    ensures u < |s2.nodes| && s2.nodes[u] == s1.nodes[u] && u in s2.log
  {
    hide Inv, InFlight, Schedule, After;
    AfterConcat(s, trace, t);
    AfterProperties(s1, t);
    FollowsTransitive(s, s1, s2);
    RemainingStep(s, u, leafPass, i);
  }

  lemma PassSkip<G(!new)>(s: State<G>, s1: State<G>, u: nat, leafPass: bool, i: nat, trace: seq<Msg>)
    requires Pass(s, s1, u, leafPass, i, trace)
    requires i < |s.nodes[u].wires| && !ServedIn(s, u, i, leafPass)
    ensures Pass(s, s1, u, leafPass, i + 1, trace)
  {
    hide Inv, InFlight, Schedule, After;
    RemainingStep(s, u, leafPass, i);
  }

  /** The two passes over the edges of a fired function serve all of them. */
  lemma PassesCompose<G(!new)>(s1: State<G>, u: nat, t1: seq<Msg>, s2: State<G>, t2: seq<Msg>, s3: State<G>)
    requires u < |s1.nodes| && Pass(s1, s2, u, true, |s1.nodes[u].wires|, t1)
    requires Pass(s2, s3, u, false, |s1.nodes[u].wires|, t2)
    ensures Inv(s3) && Schedule(s1, t1 + t2) && After(s1, t1 + t2) == s3
    ensures InFlight(s3) == InFlight(s1) - Edges(s1, u) && Follows(s1, s3)
  {
    hide Inv, InFlight, Schedule, After;
    AfterConcat(s1, t1, t2);
    FollowsTransitive(s1, s2, s3);
    RemainingStays(s1, s2, u, false, 0);
    assert Remaining(s1, u, true, |s1.nodes[u].wires|) == {};
    assert Remaining(s2, u, false, |s1.nodes[u].wires|) == {};
  }

  lemma OneDelivered<G>(s: State<G>, m: Msg)
    requires m in InFlight(s) && Deliverable(s, m)
    ensures m !in s.got && m in Deliver(s, m).got
  {
  }

  /** Every message of a schedule is delivered in it and was not before. */
  lemma {:induction false} Delivers<G(!new)>(s: State<G>, ms: seq<Msg>)
    requires Inv(s) && Schedule(s, ms)
    ensures forall m :: m in ms ==> m !in s.got && m in After(s, ms).got
    decreases |ms|
  {
    hide Inv, Deliver, Deliverable, InFlight;
    if ms != [] {
      var s1 := Deliver(s, ms[0]);
      OneDelivered(s, ms[0]);
      DeliverKeepsInv(s, ms[0]);
      DeliverFollows(s, ms[0]);
      Delivers(s1, ms[1..]);
      AfterProperties(s1, ms[1..]);
      assert ms == [ms[0]] + ms[1..];
    }
  }

  /** After an edge of u to another function, no edge of u into a leaf is served. */
  ghost predicate LeafEdgesFirst<G>(s: State<G>, u: nat, trace: seq<Msg>)
    requires u < |s.nodes|
  {
    forall p, q :: 0 <= p < q < |trace| && trace[p] in Remaining(s, u, false, 0) ==>
      trace[q] !in Remaining(s, u, true, 0)
  }

  /** The leaf pass goes first: it serves none of the other edges, and the second pass none of its. */
  lemma LeafEdgesGoFirst<G(!new)>(s1: State<G>, u: nat, t1: seq<Msg>, s2: State<G>, t2: seq<Msg>, s3: State<G>)
    requires u < |s1.nodes| && Inv(s1) && Pass(s1, s2, u, true, |s1.nodes[u].wires|, t1)
    requires Pass(s2, s3, u, false, |s1.nodes[u].wires|, t2) && Edges(s1, u) <= InFlight(s1)
    ensures LeafEdgesFirst(s1, u, t1 + t2)
  {
    hide Inv, Schedule, After;
    Delivers(s1, t1);
    Delivers(s2, t2);
    assert Remaining(s1, u, true, |s1.nodes[u].wires|) == {};
    forall w | w in Remaining(s1, u, false, 0)
      ensures w !in t1
    {
      assert w in InFlight(s2);
    }
    forall w | w in Remaining(s1, u, true, 0)
      ensures w !in t2
    {
      assert w in InFlight(s1) && w !in InFlight(s2);
      assert Sent(s2, w) == Sent(s1, w);
    }
    FirstThenSecond(t1, t2, Remaining(s1, u, true, 0), Remaining(s1, u, false, 0));
  }

  lemma InOneOf(t1: seq<Msg>, t2: seq<Msg>, k: nat)
    requires k < |t1 + t2|
    ensures k < |t1| ==> (t1 + t2)[k] in t1
    ensures k >= |t1| ==> (t1 + t2)[k] in t2
  {
  }

  lemma FirstThenSecond(t1: seq<Msg>, t2: seq<Msg>, first: set<Msg>, second: set<Msg>)
    requires (forall w :: w in second ==> w !in t1) && (forall w :: w in first ==> w !in t2)
    ensures var t := t1 + t2; forall p, q :: 0 <= p < q < |t| && t[p] in second ==> t[q] !in first
  {
    var t := t1 + t2;
    forall p, q | 0 <= p < q < |t| && t[p] in second
      ensures t[q] !in first
    {
      InOneOf(t1, t2, p);
      InOneOf(t1, t2, q);
    }
  }

  lemma SecondPassCanStart<G(!new)>(s1: State<G>, u: nat, t1: seq<Msg>, s2: State<G>)
    requires u < |s1.nodes| && Pass(s1, s2, u, true, |s1.nodes[u].wires|, t1) && Edges(s1, u) <= InFlight(s1)
    ensures Inv(s2) && Remaining(s2, u, false, 0) <= InFlight(s2) && s1.log <= s2.log
    ensures |s2.nodes[u].wires| == |s1.nodes[u].wires|
  {
    hide Inv, InFlight, Schedule, After;
    RemainingStays(s1, s2, u, false, 0);
  }

  lemma ArrivalThenEdges<G(!new)>(s: State<G>, m: Msg, u: nat, s1: State<G>, t: seq<Msg>, s3: State<G>)
    requires Arrival(s, s1, m, u) && u in s1.log
    requires Schedule(s1, t) && After(s1, t) == s3 && InFlight(s3) == InFlight(s1) - Edges(s1, u)
    ensures Schedule(s, [m] + t) && After(s, [m] + t) == s3 && InFlight(s3) == InFlight(s) - {m}
  {
    hide Inv, InFlight, Schedule, After, Edges;
    AfterConcat(s, [m], t);
  }

  // ---------------------------------------------------------------- what fires

  /** No message is on its way: every call of BackwardPartial has returned. */
  ghost predicate Settled<G(!new)>(s: State<G>) {
    Inv(s) && InFlight(s) == {}
  }

  /** Every differentiable output of u has a consumer (or a seed). */
  ghost predicate Consumed<G>(s: State<G>, u: nat)
    requires u < |s.nodes|
  {
    forall k :: 0 <= k < |Diff(s.nodes[u].op)| && Diff(s.nodes[u].op)[k]
                ==> exists m :: m in s.route && s.route[m] == Dest(u, k)
  }

  lemma WiredGradientIsSent<G(!new)>(s: State<G>, m: Msg)
    requires Inv(s) && m in s.route && (m.Wire? ==> m.f in s.log)
    ensures Sent(s, m).Some?
  {
    assert RouteInv(s, m);
    if m.Wire? {
      assert NodeInv(s, m.f);
      assert Full(s.nodes[m.f].seen, Diff(s.nodes[m.f].op));
      assert s.nodes[m.f].op.Operator?;
      assert Answers(s.nodes[m.f].op, s.nodes[m.f].wires, s.nodes[m.f].seen);
    }
  }

  /** A node fires exactly when all its consumers have fired. */
  lemma ServedNodeFires<G(!new)>(s: State<G>, u: nat)
    requires Settled(s) && u < |s.nodes| && Consumed(s, u)
    requires Into(s, u) != {} && forall m :: m in Into(s, u) && m.Wire? ==> m.f in s.log
    ensures u in s.log
  {
    assert NodeInv(s, u);
    forall m | m in Into(s, u)
      ensures m in s.got
    {
      WiredGradientIsSent(s, m);
      assert m !in InFlight(s);
    }
    if u !in s.log {
      WaitingNodeIsReady(s, u);
    }
  }

  lemma WaitingNodeIsReady<G(!new)>(s: State<G>, u: nat)
    requires u < |s.nodes| && Tallied(s, u) && Consumed(s, u) && Into(s, u) <= s.got.Keys
    requires Diff(s.nodes[u].op) != []
    ensures Ready(s.nodes[u])
  {
    var n := s.nodes[u];
    assert Arrived(s, u) == Into(s, u);
    forall k | 0 <= k < |n.outs| && Diff(n.op)[k]
      ensures n.outs[k].Some?
    {
      var m :| m in s.route && s.route[m] == Dest(u, k);
      assert m in Into(s, u);
      assert m in Contrib(s, u, k);
      SumIsNone(s.add, Contrib(s, u, k));
    }
    assert Covered(n.outs, Diff(n.op)) == Range(|n.outs|);
  }

  /** The recorded consumers of u that have not delivered yet. */
  ghost function Outstanding<G>(s: State<G>, u: nat): set<Msg> {
    Into(s, u) - s.got.Keys
  }

  /**
   * The counters cannot tell a call of Tensor.Backward from a recorded consumer: a gradient handed to a
   * waiting function from outside fires it exactly when its other outputs are covered and it has no
   * recorded consumer or just one still to deliver, which it then does not wait for.
   */
  lemma SeedFiresExactlyWhen<G(!new)>(s: State<G>, u: nat, k: nat, g: G)
    requires Inv(s) && u < |s.nodes| && u !in s.log && u !in s.roots && k < |Diff(s.nodes[u].op)| &&
             Diff(s.nodes[u].op)[k]
    ensures |s.nodes[u].outs| == |Diff(s.nodes[u].op)|
    ensures Ready(Arrive(s.add, s.nodes[u], k, g)) <==>
            && (forall j :: 0 <= j < |s.nodes[u].outs| && j != k && Diff(s.nodes[u].op)[j] ==> s.nodes[u].outs[j].Some?)
            && (Into(s, u) == {} || |Outstanding(s, u)| == 1)
  {
    assert NodeInv(s, u);
    WaitingSeed(s, u, k, g);
  }

  lemma WaitingSeed<G>(s: State<G>, u: nat, k: nat, g: G)
    requires u < |s.nodes| && Tallied(s, u) && u !in s.roots && k < |Diff(s.nodes[u].op)| && Diff(s.nodes[u].op)[k]
    ensures Ready(Arrive(s.add, s.nodes[u], k, g)) <==>
            && (forall j :: 0 <= j < |s.nodes[u].outs| && j != k && Diff(s.nodes[u].op)[j] ==> s.nodes[u].outs[j].Some?)
            && (Into(s, u) == {} || |Outstanding(s, u)| == 1)
  {
    var n, diff := s.nodes[u], Diff(s.nodes[u].op);
    var n', outs := Arrive(s.add, n, k, g), n.outs[k := Some(g)];
    OutstandingIsRest(s, u);
    CoversOneMore(n.outs, diff, k, g);
    CoveredIsFull(outs, diff);
    hide Into, Arrived, Outstanding, Contrib, Sum, Covered;
    CoveredAlike(n.outs, n'.outs, diff, k, g);
    assert n'.outReached == |Covered(outs, diff)|;
    assert n'.outReached == |n'.outs| <==> Full(outs, diff);
  }

  lemma CoveredAlike<G>(outs: seq<Option<G>>, outs': seq<Option<G>>, diff: seq<bool>, k: nat, g: G)
    requires k < |outs| == |outs'| == |diff| && outs'[k].Some? && outs' == outs[k := outs'[k]]
    ensures Covered(outs', diff) == Covered(outs[k := Some(g)], diff)
  {
  }

  lemma OutstandingIsRest<G>(s: State<G>, u: nat)
    ensures |Into(s, u)| == |Arrived(s, u)| + |Outstanding(s, u)|
  {
    assert Into(s, u) == Arrived(s, u) + Outstanding(s, u);
    assert Arrived(s, u) !! Outstanding(s, u);
  }

  lemma CoveredIsFull<G>(outs: seq<Option<G>>, diff: seq<bool>)
    requires |outs| == |diff|
    ensures |Covered(outs, diff)| == |outs| <==> Full(outs, diff)
  {
    if |Covered(outs, diff)| == |outs| {
      AllCovered(outs, diff);
    }
    if Full(outs, diff) {
      assert Covered(outs, diff) == Range(|outs|);
    }
  }

  /** A root with one output: it fires at once exactly when at most one recorded consumer has not delivered. */
  lemma SingleOutputSeedFires<G(!new)>(s: State<G>, u: nat, g: G)
    requires Inv(s) && u < |s.nodes| && u !in s.log && u !in s.roots && Diff(s.nodes[u].op) == [true]
    ensures |s.nodes[u].outs| == 1
    ensures Ready(Arrive(s.add, s.nodes[u], 0, g)) <==> |Outstanding(s, u)| <= 1
  {
    SeedFiresExactlyWhen(s, u, 0, g);
    assert NodeInv(s, u);
    forall m | m in Into(s, u)
      ensures RouteInv(s, m)
    {
      RouteHolds(s, m);
    }
    hide Inv, NodeInv;
    if Into(s, u) != {} && Outstanding(s, u) == {} {
      EveryoneDelivered(s, u);
    }
  }

  lemma EveryoneDelivered<G(!new)>(s: State<G>, u: nat)
    requires u < |s.nodes| && WaitingInv(s, u) && Diff(s.nodes[u].op) == [true] && Into(s, u) != {}
    requires forall m :: m in Into(s, u) ==> RouteInv(s, m)
    ensures Outstanding(s, u) != {}
  {
    if Outstanding(s, u) == {} {
      var m :| m in Into(s, u);
      assert RouteInv(s, m) && s.route[m] == Dest(u, 0);
      assert Consumed(s, u);
      forall m' | m' in Into(s, u)
        ensures m' in s.got
      {
        assert m' !in Outstanding(s, u);
      }
      WaitingNodeIsReady(s, u);
    }
  }

  /** Node u can be reached from r along recorded edges. */
  ghost predicate Reaches<G>(s: State<G>, r: nat, u: nat)
    decreases |s.nodes| + 1 - (if u < |s.nodes| then Rank(s, u) else 0)
  {
    u < |s.nodes| &&
    (u == r ||
     exists m :: m in s.route && m.Wire? && s.route[m].node == u
                 && m.f < |s.nodes| && Rank(s, u) < Rank(s, m.f) && Reaches(s, r, m.f))
  }

  lemma RouteHolds<G(!new)>(s: State<G>, m: Msg)
    requires Inv(s) && m in s.route
    ensures RouteInv(s, m)
  {
  }

  /**
   * A backward pass reaches everything: once the root has fired and nothing is on its way, every
   * function reachable from it has fired, provided its consumers are all reachable as well.
   */
  lemma {:induction false} EveryReachableFunctionFires<G(!new)>(s: State<G>, r: nat, u: nat)
    requires Settled(s) && r in s.log && Reaches(s, r, u)
    requires forall v :: v != r && Reaches(s, r, v) ==> Consumed(s, v)
    requires forall m :: m in s.route && s.route[m].node != r && Reaches(s, r, s.route[m].node) ==>
               m.Wire? && Reaches(s, r, m.f)
    ensures u in s.log
    decreases |s.nodes| + 1 - Rank(s, u)
  {
    hide Inv, InFlight, Consumed;
    if u != r {
      var m0 :| m0 in s.route && m0.Wire? && s.route[m0].node == u && m0.f < |s.nodes| && Rank(s, u) < Rank(s, m0.f);
      assert m0 in Into(s, u);
      forall m | m in Into(s, u)
        ensures m.Wire? && m.f in s.log
      {
        RouteHolds(s, m);
        EveryReachableFunctionFires(s, r, m.f);
      }
      ServedNodeFires(s, u);
    }
  }

  lemma FiresAtMostOnceAfterConsumers<G(!new)>(s: State<G>, p: nat)
    requires Inv(s) && p < |s.log|
    ensures s.log[p] !in s.log[..p] && s.log[p] !in s.log[p + 1..]
    ensures forall m :: m in Into(s, s.log[p]) && m.Wire? ==> m.f in s.log[..p]
  {
    forall m | m in Into(s, s.log[p]) && m.Wire?
      ensures m.f in s.log[..p]
    {
      assert Precedes(s.log, m.f, s.log[p]);
    }
  }

  lemma ReachesStays<G>(s: State<G>, s': State<G>, r: nat, u: nat)
    requires SameGraph(s, s') && Reaches(s, r, u)
    ensures Reaches(s', r, u)
    decreases |s.nodes| + 1 - Rank(s, u)
  {
    if u != r {
      var m :| m in s.route && m.Wire? && s.route[m].node == u
               && m.f < |s.nodes| && Rank(s, u) < Rank(s, m.f) && Reaches(s, r, m.f);
      ReachesStays(s, s', r, m.f);
    }
  }

  /** The messages on their way all go to nodes reachable from r. */
  ghost predicate Contained<G>(s: State<G>, r: nat) {
    forall m :: m in InFlight(s) ==> Reaches(s, r, s.route[m].node)
  }

  lemma NewMessageComesFromDestination<G>(s: State<G>, s': State<G>, m: Msg, m': Msg)
    requires Frame(s, s', m) && m' in InFlight(s') && m' !in InFlight(s)
    ensures m'.Wire? && m'.f == s.route[m].node
  {
  }

  lemma FrameContained<G>(s: State<G>, s': State<G>, m: Msg, r: nat)
    requires Frame(s, s', m) && SameGraph(s, s') && RoutesInv(s')
    requires Contained(s, r) && m in InFlight(s)
    ensures Contained(s', r)
  {
    forall m' | m' in InFlight(s')
      ensures Reaches(s', r, s'.route[m'].node)
    {
      if m' in InFlight(s) {
        ReachesStays(s, s', r, s.route[m'].node);
      } else {
        NewMessageComesFromDestination(s, s', m, m');
        ReachesStays(s, s', r, s.route[m].node);
        assert RouteInv(s', m');
      }
    }
  }

  lemma DeliverContained<G(!new)>(s: State<G>, m: Msg, r: nat)
    requires Inv(s) && m in InFlight(s) && Contained(s, r)
    ensures Deliverable(s, m) && Contained(Deliver(s, m), r)
    ensures forall u :: u in Deliver(s, m).log && u !in s.log ==> Reaches(s, r, u)
  {
    InFlightIsDeliverable(s, m);
    DeliverFrames(s, m);
    DeliverFollows(s, m);
    RoutesStay(s, Deliver(s, m), m);
    FrameContained(s, Deliver(s, m), m, r);
  }

  lemma ReachesBefore<G(!new)>(s: State<G>, m: Msg, r: nat, u: nat)
    requires Inv(s) && m in InFlight(s) && Deliverable(s, m) && Reaches(Deliver(s, m), r, u)
    ensures Reaches(s, r, u)
  {
    hide Inv, Deliver;
    DeliverFollows(s, m);
    ReachesStays(Deliver(s, m), s, r, u);
  }

  /** A backward pass fires nothing else. */
  lemma {:induction false} OnlyReachableFunctionsFire<G(!new)>(s: State<G>, ms: seq<Msg>, r: nat, u: nat)
    requires Inv(s) && Schedule(s, ms) && Contained(s, r)
    requires u in After(s, ms).log && u !in s.log
    ensures Reaches(s, r, u)
    decreases |ms|
  {
    if ms != [] {
      var m := ms[0];
      DeliverKeepsInv(s, m);
      DeliverContained(s, m, r);
      if u !in Deliver(s, m).log {
        OnlyReachableFunctionsFire(Deliver(s, m), ms[1..], r, u);
        ReachesBefore(s, m, r, u);
      }
    }
  }

  // ---------------------------------------------------------------- with which gradients

  ghost function Height<G>(s: State<G>, u: nat): nat {
    if u < |s.nodes| then |s.nodes| + 1 - Rank(s, u) else 0
  }

  /** The gradient an edge carries in reverse-mode differentiation. */
  ghost function Carried<G>(s: State<G>, m: Msg): Option<G>
    decreases if m.Wire? then Height(s, m.f) else 0, 2
  {
    match m
    case Seed(n) => if n < |s.seeds| then Some(s.seeds[n]) else None
    case Wire(f, i) =>
      if f < |s.nodes| && s.nodes[f].op.Operator? && i < |s.nodes[f].op.backward(Total(s, f))|
      then s.nodes[f].op.backward(Total(s, f))[i]
      else None
  }

  /**
   * Reverse-mode differentiation by recursion: the total at each output is the sum, over the edges
   * that read it, of what the consumer's backward map makes of the consumer's own total.
   */
  ghost function Total<G>(s: State<G>, u: nat): (r: seq<Option<G>>)
    requires u < |s.nodes|
    ensures |r| == |Diff(s.nodes[u].op)|
    decreases Height(s, u), 1
  {
    seq(|Diff(s.nodes[u].op)|, k requires 0 <= k => Sum(s.add, CarriedTo(s, u, k)))
  }

  ghost function CarriedTo<G>(s: State<G>, u: nat, k: nat): map<Msg, G>
    requires u < |s.nodes|
    decreases Height(s, u), 0
  {
    map m | m in s.route && s.route[m] == Dest(u, k) && (m.Wire? ==> Height(s, m.f) < Height(s, u))
            && Carried(s, m).Some?
      :: Carried(s, m).value
  }

  lemma SentFromTotal<G(!new)>(s: State<G>, m: Msg)
    requires Inv(s) && m in s.got
    requires m.Wire? && m.f < |s.nodes| && m.f in s.log ==> s.nodes[m.f].seen == Total(s, m.f)
    ensures Carried(s, m) == Some(s.got[m])
  {
    assert GotInv(s, m) && RouteInv(s, m);
    if m.Wire? {
      assert NodeInv(s, m.f);
    }
  }

  lemma TotalFromTables<G>(s: State<G>, u: nat, k: nat)
    requires u < |s.nodes|
    requires forall m :: m in Into(s, u) ==>
               m in s.got && Carried(s, m) == Some(s.got[m]) && (m.Wire? ==> Height(s, m.f) < Height(s, u))
    ensures CarriedTo(s, u, k) == Contrib(s, u, k)
  {
    assert forall m :: m in s.route && s.route[m] == Dest(u, k) ==> m in Into(s, u);
  }

  /** Every fired node ran its backward map on exactly its reverse-mode total. */
  lemma {:induction false} FiredOnTotal<G(!new)>(s: State<G>, u: nat)
    requires Inv(s) && u in s.log && u < |s.nodes|
    ensures s.nodes[u].seen == Total(s, u)
    decreases Height(s, u)
  {
    assert FiredInv(s, u) by {
      assert NodeInv(s, u);
    }
    forall m | m in Into(s, u)
      ensures m in s.got && Carried(s, m) == Some(s.got[m]) && (m.Wire? ==> Height(s, m.f) < Height(s, u))
    {
      assert RouteInv(s, m) && GotInv(s, m);
      if m.Wire? {
        FiredOnTotal(s, m.f);
      }
      SentFromTotal(s, m);
    }
    SeenFromTables(s, u);
  }

  lemma SeenFromTables<G>(s: State<G>, u: nat)
    requires u < |s.nodes| && FiredInv(s, u)
    requires forall m :: m in Into(s, u) ==>
               m in s.got && Carried(s, m) == Some(s.got[m]) && (m.Wire? ==> Height(s, m.f) < Height(s, u))
    ensures s.nodes[u].seen == Total(s, u)
  {
    forall k | 0 <= k < |s.nodes[u].seen|
      ensures s.nodes[u].seen[k] == Total(s, u)[k]
    {
      TotalFromTables(s, u, k);
    }
  }

  /** A message that has arrived carried what reverse-mode differentiation says. */
  lemma ArrivedAsCarried<G(!new)>(s: State<G>, m: Msg)
    requires Inv(s) && m in s.got
    ensures Carried(s, m) == Some(s.got[m])
  {
    assert GotInv(s, m) && RouteInv(s, m);
    if m.Wire? {
      FiredOnTotal(s, m.f);
    }
    SentFromTotal(s, m);
  }

  // ---------------------------------------------------------------- into the leaves

  /** The recorded edges into leaf t that its base does not count yet. */
  ghost function OpenEdges<G>(s: State<G>, t: nat): set<Msg>
    requires t < |s.leaves|
  {
    set m | m in s.route && FeedsLeaf(s, m, t) && m !in s.leaves[t].counted
  }

  ghost function CarriedToLeaf<G>(s: State<G>, t: nat): map<Msg, G>
    requires t < |s.leaves|
  {
    map m | m in OpenEdges(s, t) && Carried(s, m).Some? :: Carried(s, m).value
  }

  lemma WaitingAccumulatorIsEmpty<G(!new)>(s: State<G>, a: nat)
    requires a < |s.nodes| && s.nodes[a].op.Accumulate? && WaitingInv(s, a) && Into(s, a) <= s.got.Keys
    requires forall m :: m in Into(s, a) ==> RouteInv(s, m)
    ensures Into(s, a) == {} && s.nodes[a].outs == [None]
  {
    if m :| m in Into(s, a) {
      assert RouteInv(s, m) && s.route[m] == Dest(a, 0);
      assert Consumed(s, a);
      WaitingNodeIsReady(s, a);
      assert false;
    }
    assert Contrib(s, a, 0).Keys <= Into(s, a);
    SumIsNone(s.add, Contrib(s, a, 0));
  }

  /** Nothing is left in the accumulator of a leaf none of whose edges is undelivered. */
  lemma AccumulatorIsEmpty<G(!new)>(s: State<G>, t: nat)
    requires Inv(s) && t < |s.leaves|
    requires forall m :: m in s.route && FeedsLeaf(s, m, t) ==> m in s.got
    ensures Pending(s, s.leaves[t]).None?
    ensures s.leaves[t].acc.Some? ==> Into(s, s.leaves[t].acc.value) == {}
  {
    assert LeafInv(s, t);
    if s.leaves[t].acc.Some? {
      var a := s.leaves[t].acc.value;
      assert NodeInv(s, a);
      assert forall m :: m in Into(s, a) ==> FeedsLeaf(s, m, t);
      WaitingAccumulatorIsEmpty(s, a);
    }
  }

  /**
   * The gradient of a leaf, over any history of graph building and backward passes: whenever no
   * recorded edge into it is undelivered, its grad is its base plus everything its edges carry.
   */
  lemma LeafHoldsItsTotal<G(!new)>(s: State<G>, t: nat)
    requires Inv(s) && t < |s.leaves| && !s.leaves[t].overwrite
    requires forall m :: m in s.route && FeedsLeaf(s, m, t) ==> m in s.got
    ensures s.leaves[t].grad == Plus(s.add, s.leaves[t].base, Sum(s.add, CarriedToLeaf(s, t)))
  {
    AccumulatorIsEmpty(s, t);
    assert LeafInv(s, t);
    forall m | m in OpenEdges(s, t)
      ensures Carried(s, m) == Some(s.got[m])
    {
      ArrivedAsCarried(s, m);
    }
    assert CarriedToLeaf(s, t) == Received(s, t);
  }

  /** A dropped accumulator has no outstanding edge. */
  lemma DroppedAccumulatorIsServed<G(!new)>(s: State<G>, a: nat, t: nat)
    requires Inv(s) && a < |s.nodes| && s.nodes[a].op == Accumulate(t)
    requires t < |s.leaves| && s.leaves[t].acc != Some(a)
    ensures Into(s, a) <= s.got.Keys
  {
    assert NodeInv(s, a);
  }

  // ---------------------------------------------------------------- the schedule does not matter

  lemma FiredNodeIsConsumed<G>(s: State<G>, u: nat)
    requires u < |s.nodes| && FiredInv(s, u)
    ensures Consumed(s, u)
  {
    var n := s.nodes[u];
    forall k | 0 <= k < |Diff(n.op)| && Diff(n.op)[k]
      ensures exists m :: m in s.route && s.route[m] == Dest(u, k)
    {
      SumIsNone(s.add, Contrib(s, u, k));
      assert Contrib(s, u, k) != map[];
      var m :| m in Contrib(s, u, k);
      assert m in s.route && s.route[m] == Dest(u, k);
    }
  }

  lemma ConsumedHasMessage<G(!new)>(s: State<G>, u: nat)
    requires u < |s.nodes| && Consumed(s, u) && Contract(s.nodes[u].op, s.nodes[u].wires)
    ensures Into(s, u) != {}
  {
    var diff := Diff(s.nodes[u].op);
    var k :| 0 <= k < |diff| && diff[k];
    var m :| m in s.route && s.route[m] == Dest(u, k);
    assert m in Into(s, u);
  }

  lemma FiredNodeHasFiredConsumers<G(!new)>(s: State<G>, u: nat)
    requires Inv(s) && u in s.log && u < |s.nodes|
    ensures Consumed(s, u) && Into(s, u) != {}
    ensures forall m :: m in Into(s, u) && m.Wire? ==> m.f in s.log && m.f < |s.nodes| && Height(s, m.f) < Height(s, u)
  {
    assert NodeInv(s, u);
    FiredNodeIsConsumed(s, u);
    ConsumedHasMessage(s, u);
    forall m | m in Into(s, u) && m.Wire?
      ensures m.f in s.log && m.f < |s.nodes| && Height(s, m.f) < Height(s, u)
    {
      assert GotInv(s, m) && RouteInv(s, m);
    }
  }

  lemma SameTables<G>(a: State<G>, b: State<G>, u: nat)
    requires SameGraph(a, b) && u < |a.nodes| && Consumed(a, u)
    ensures Into(b, u) == Into(a, u) && Consumed(b, u)
  {
  }

  lemma {:induction false} SameFunctionsFire<G(!new)>(a: State<G>, b: State<G>, u: nat)
    requires Inv(a) && Settled(b) && SameGraph(a, b) && u < |a.nodes| && u in a.log
    ensures u in b.log
    decreases Height(a, u)
  {
    FiredNodeHasFiredConsumers(a, u);
    forall m | m in Into(a, u) && m.Wire?
      ensures m.f in b.log
    {
      SameFunctionsFire(a, b, m.f);
    }
    SameTables(a, b, u);
    ServedNodeFires(b, u);
  }

  lemma {:induction false} SameTotals<G>(a: State<G>, b: State<G>, m: Msg)
    requires SameGraph(a, b)
    ensures Carried(a, m) == Carried(b, m)
    decreases if m.Wire? then Height(a, m.f) else 0
  {
    if m.Wire? && m.f < |a.nodes| {
      forall k | 0 <= k < |Diff(a.nodes[m.f].op)|
        ensures CarriedTo(a, m.f, k) == CarriedTo(b, m.f, k)
      {
        forall m': Msg | m'.Wire? ==> Height(a, m'.f) < Height(a, m.f)
          ensures Carried(a, m') == Carried(b, m')
        {
          if m'.Wire? {
            SameTotals(a, b, m');
          }
        }
      }
      assert Total(a, m.f) == Total(b, m.f);
    }
  }

  lemma SameMessagesArrive<G(!new)>(a: State<G>, b: State<G>, m: Msg)
    requires Inv(a) && Settled(b) && SameGraph(a, b) && m in a.got
    ensures m in b.got && b.got[m] == a.got[m]
  {
    assert GotInv(a, m) && RouteInv(a, m);
    if m.Wire? {
      SameFunctionsFire(a, b, m.f);
    }
    WiredGradientIsSent(b, m);
    assert m !in InFlight(b);
    ArrivedAsCarried(a, m);
    ArrivedAsCarried(b, m);
    SameTotals(a, b, m);
  }

  lemma SameLeaf<G>(s: State<G>, a: State<G>, b: State<G>, t: nat)
    requires SameGraph(s, a) && SameGraph(s, b) && a.got == b.got
    requires t < |s.leaves| && LeafStep(s, a, t) && LeafStep(s, b, t) && LeafInv(a, t) && LeafInv(b, t)
    requires forall u :: u in a.log <==> u in b.log
    ensures a.leaves[t] == b.leaves[t]
  {
    assert Received(a, t) == Received(b, t) by {
      forall m
        ensures FeedsLeaf(a, m, t) <==> FeedsLeaf(b, m, t)
      {
      }
    }
  }

  /**
   * The order of the visits does not matter: any two ways of running a backward pass to its end
   * fire the same functions and leave the same gradients in all leaves.
   */
  lemma ScheduleDoesNotMatter<G(!new)>(s: State<G>, ms: seq<Msg>, ms': seq<Msg>)
    requires Inv(s) && Schedule(s, ms) && Schedule(s, ms')
    requires InFlight(After(s, ms)) == {} && InFlight(After(s, ms')) == {}
    ensures var a, b := After(s, ms), After(s, ms');
            a.got == b.got && a.leaves == b.leaves && (forall u :: u in a.log <==> u in b.log)
  {
    var a, b := After(s, ms), After(s, ms');
    AfterProperties(s, ms);
    AfterProperties(s, ms');
    SettledStatesAgree(s, a, b);
  }

  lemma SameLog<G(!new)>(a: State<G>, b: State<G>)
    requires Inv(a) && Settled(b) && SameGraph(a, b)
    ensures forall u :: u in a.log ==> u in b.log
  {
    forall u | u in a.log
      ensures u in b.log
    {
      SameFunctionsFire(a, b, u);
    }
  }

  lemma SameGot<G(!new)>(a: State<G>, b: State<G>)
    requires Inv(a) && Settled(b) && SameGraph(a, b)
    ensures forall m :: m in a.got ==> m in b.got && b.got[m] == a.got[m]
  {
    forall m | m in a.got
      ensures m in b.got && b.got[m] == a.got[m]
    {
      SameMessagesArrive(a, b, m);
    }
  }

  lemma SameLeaves<G>(s: State<G>, a: State<G>, b: State<G>)
    requires Follows(s, a) && Follows(s, b) && a.got == b.got
    requires forall t :: 0 <= t < |s.leaves| ==> LeafInv(a, t) && LeafInv(b, t)
    requires forall u :: u in a.log <==> u in b.log
    ensures a.leaves == b.leaves
  {
    forall t | 0 <= t < |s.leaves|
      ensures a.leaves[t] == b.leaves[t]
    {
      SameLeaf(s, a, b, t);
    }
  }

  lemma Siblings<G>(s: State<G>, a: State<G>, b: State<G>)
    requires Follows(s, a) && Follows(s, b)
    ensures SameGraph(a, b) && SameGraph(b, a)
  {
  }

  lemma EqualMaps<K, V>(m: map<K, V>, n: map<K, V>)
    requires forall k :: k in m ==> k in n && n[k] == m[k]
    requires forall k :: k in n ==> k in m
    ensures m == n
  {
  }

  lemma SettledStatesAgree<G(!new)>(s: State<G>, a: State<G>, b: State<G>)
    requires Settled(a) && Settled(b) && Follows(s, a) && Follows(s, b)
    ensures a.got == b.got && a.leaves == b.leaves && (forall u :: u in a.log <==> u in b.log)
  {
    Siblings(s, a, b);
    SameLog(a, b);
    SameLog(b, a);
    SameGot(a, b);
    SameGot(b, a);
    EqualMaps(a.got, b.got);
    SameLeaves(s, a, b);
  }
}
