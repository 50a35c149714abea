/**
 * The objects of the autograd engine. Every method is proved to be a run of the machine of module
 * AutogradMachine: the ghost Tape relates the fields of all functions and leaves to its state.
 */
module Autograd {
  import opened Wrappers
  import opened AutogradMachine
  import opened AutogradRuns
  import opened AutogradHistory

  class Tensor<G(!new)> {
    var requiresGrad: bool
    var isLeaf: bool
    var gradFn: Function?<G>
    var outputIdx: nat
    var grad: Option<G>
    var gradAccumulator: Function?<G>
    var gradOverwriteOnce: bool
    ghost var leafId: nat

    constructor Leaf(ghost id: nat)
      ensures requiresGrad && isLeaf && gradFn == null && gradAccumulator == null && grad.None? && !gradOverwriteOnce
      ensures leafId == id && outputIdx == 0
    {
      requiresGrad, isLeaf, gradFn, outputIdx := true, true, null, 0;
      grad, gradAccumulator, gradOverwriteOnce := None, null, false;
      leafId := id;
    }

    /** The tensor is leaf t and its fields are those of l. */
    ghost predicate Mirrors(t: nat, l: AutogradMachine.Leaf<G>, fns: seq<Function<G>>)
      reads this
    {
      && leafId == t && requiresGrad && isLeaf && gradFn == null && outputIdx == 0
      && grad == l.grad && gradOverwriteOnce == l.overwrite
      && (if l.acc.None? then gradAccumulator == null
          else l.acc.value < |fns| && gradAccumulator == fns[l.acc.value])
    }

    method ZeroGrad(setToNone: bool, zero: G, ghost tape: Tape<G>)
      requires tape.Valid() && leafId < |tape.leaves| && tape.leaves[leafId] == this
      modifies this`grad, tape`st
      ensures tape.Valid()
      ensures tape.st == WriteLeaf(old(tape.st), leafId, grad, gradOverwriteOnce)
      ensures grad == if old(grad).None? || setToNone then None else Some(zero)
    {
      if grad.Some? {
        if setToNone {
          grad := None;
        } else {
          grad := Some(zero);
        }
      }
      tape.st := WriteLeaf(tape.st, leafId, grad, gradOverwriteOnce);
    }

    method MarkGradOverwriteOnNextAccum(ghost tape: Tape<G>)
      requires tape.Valid() && leafId < |tape.leaves| && tape.leaves[leafId] == this
      modifies this`gradOverwriteOnce, tape`st
      ensures tape.Valid()
      ensures tape.st == WriteLeaf(old(tape.st), leafId, old(grad), true)
      ensures gradOverwriteOnce && grad == old(grad)
    {
      gradOverwriteOnce := true;
      tape.st := WriteLeaf(tape.st, leafId, grad, true);
    }

    /** Start a backward pass at this tensor and run it to its end. */
    method Backward(gradient: G, ghost tape: Tape<G>) returns (ghost trace: seq<Msg>)
      requires Inv(tape.st) && tape.Valid()
      requires gradFn != null ==> gradFn.id < |tape.fns| && tape.fns[gradFn.id] == gradFn
                                  && CanSeed(tape.st, gradFn.id, outputIdx)
      modifies tape`st, tape.fns, tape.leaves
      ensures Inv(tape.st) && tape.Valid()
      ensures gradFn == null ==> tape.st == old(tape.st)
      ensures gradFn != null ==>
                var s := NewSeed(old(tape.st), old(gradFn).id, old(outputIdx), gradient);
                && Schedule(s, trace) && tape.st == After(s, trace)
                && InFlight(tape.st) == old(InFlight(tape.st))
    {
      hide Inv, InFlight, Schedule, After;
      trace := [];
      if gradFn != null {
        ghost var s := tape.st;
        ghost var m := Seed(|s.seeds|);
        NewSeedKeepsInv(s, gradFn.id, outputIdx, gradient);
        SeedIsInFlight(s, gradFn.id, outputIdx, gradient);
        tape.st := NewSeed(s, gradFn.id, outputIdx, gradient);
        trace := gradFn.BackwardPartial(gradient, outputIdx, tape, m);
      }
    }

    method ConsumeGradOverwriteFlag() returns (flag: bool)
      modifies this`gradOverwriteOnce
      ensures flag == old(gradOverwriteOnce) && !gradOverwriteOnce
    {
      flag := gradOverwriteOnce;
      gradOverwriteOnce := false;
    }

    /** The accumulator that collects the gradients of this leaf, created on demand. */
    method GradAccumulator(add: (G, G) -> G, ghost tape: Tape<G>) returns (acc: Function?<G>, ghost h: seq<Action<G>>)
      requires gradFn == null && tape.Valid() && add == tape.st.add
      requires requiresGrad ==> leafId < |tape.leaves| && tape.leaves[leafId] == this
      modifies this`gradAccumulator, tape`st, tape`fns
      ensures tape.Valid()
      ensures IsHistory(old(tape.st), h) && tape.st == Outcome(old(tape.st), h)
      ensures acc == null <==> !requiresGrad
      ensures if requiresGrad && old(gradAccumulator) == null
              then tape.st == NewAccumulator(old(tape.st), leafId) && tape.fns == old(tape.fns) + [acc] && fresh(acc)
              else tape.st == old(tape.st) && tape.fns == old(tape.fns)
      ensures requiresGrad ==> gradAccumulator == acc && acc.id < |tape.fns| && tape.fns[acc.id] == acc
      ensures requiresGrad ==> tape.st.leaves[leafId].acc == Some(acc.id)
      ensures old(gradAccumulator) != null ==> gradAccumulator == old(gradAccumulator)
    {
      hide IsHistory, Outcome;
      h := [];
      HistoryNone(tape.st);
      if !requiresGrad {
        return null, [];
      }
      if gradAccumulator == null {
        HistoryOne(tape.st, MakeAccumulator(leafId));
        h := [MakeAccumulator(leafId)];
        gradAccumulator := new Function<G>.Accumulate(this, add, |tape.fns|);
        tape.fns, tape.st := tape.fns + [gradAccumulator], NewAccumulator(tape.st, leafId);
      }
      acc := gradAccumulator;
    }

    method ResetAccumulator()
      modifies this`gradAccumulator
      ensures gradAccumulator == null
    {
      if gradAccumulator != null {
        gradAccumulator := null;
      }
    }
  }

  class Function<G(!new)> {
    ghost const id: nat
    const isAccumulate: bool
    const tensor: Tensor?<G>
    const add: (G, G) -> G
    const backward: seq<Option<G>> -> seq<Option<G>>

    var nextFunctions: seq<(Function?<G>, nat)>
    var dependenciesNumber: nat
    var dependenciesReached: nat
    var gradOutputsReached: nat
    var gradOutputs: seq<Option<G>>

    constructor Operator(add: (G, G) -> G, backward: seq<Option<G>> -> seq<Option<G>>, ghost id: nat)
      ensures this.id == id && !isAccumulate && this.add == add && this.backward == backward
      ensures nextFunctions == [] && dependenciesNumber == dependenciesReached == gradOutputsReached == 0
      ensures gradOutputs == []
    {
      this.id, this.isAccumulate, this.tensor, this.add, this.backward := id, false, null, add, backward;
      nextFunctions, gradOutputs := [], [];
      dependenciesNumber, dependenciesReached, gradOutputsReached := 0, 0, 0;
    }

    constructor Accumulate(tensor: Tensor<G>, add: (G, G) -> G, ghost id: nat)
      ensures this.id == id && isAccumulate && this.tensor == tensor && this.add == add
      ensures nextFunctions == [] && dependenciesNumber == dependenciesReached == gradOutputsReached == 0
      ensures gradOutputs == []
    {
      this.id, this.isAccumulate, this.tensor, this.add := id, true, tensor, add;
      this.backward := _ => [];
      nextFunctions, gradOutputs := [], [];
      dependenciesNumber, dependenciesReached, gradOutputsReached := 0, 0, 0;
    }

    method IncreaseDependenciesNumber()
      modifies this`dependenciesNumber
      ensures dependenciesNumber == old(dependenciesNumber) + 1
    {
      dependenciesNumber := dependenciesNumber + 1;
    }

    /** AccumulateGrad.Backward: set, add or overwrite the leaf's gradient and drop the accumulator. */
    method AccumulateBackward(gradOutput: G) returns (gradInputs: seq<Option<G>>)
      requires isAccumulate && tensor != null
      modifies tensor`grad, tensor`gradOverwriteOnce, tensor`gradAccumulator
      ensures gradInputs == []
      ensures tensor.grad == if old(tensor.grad).Some? && !old(tensor.gradOverwriteOnce)
                             then Some(add(old(tensor.grad).value, gradOutput)) else Some(gradOutput)
      ensures !tensor.gradOverwriteOnce && tensor.gradAccumulator == null
    {
      var overwrite := tensor.ConsumeGradOverwriteFlag();
      if tensor.grad.Some? {
        if overwrite {
          tensor.grad := Some(gradOutput);
        } else {
          tensor.grad := Some(add(tensor.grad.value, gradOutput));
        }
      } else {
        tensor.grad := Some(gradOutput);
      }
      tensor.ResetAccumulator();
      gradInputs := [];
    }

    /** Store the arriving gradient or add it to the one already there, and count it. */
    method Count(gradOutput: G, k: nat)
      requires k < |gradOutputs| || (gradOutputs == [] && k == 0)
      modifies this`gradOutputs, this`gradOutputsReached, this`dependenciesReached
      ensures var outs := if old(gradOutputs) == [] then [None] else old(gradOutputs);
              && gradOutputs == outs[k := Some(if outs[k].None? then gradOutput else add(outs[k].value, gradOutput))]
              && gradOutputsReached == old(gradOutputsReached) + (if outs[k].None? then 1 else 0)
      ensures dependenciesReached == old(dependenciesReached) + 1
    {
      if gradOutputs == [] {
        gradOutputs := [None];
      }
      if gradOutputs[k].None? {
        gradOutputs := gradOutputs[k := Some(gradOutput)];
        gradOutputsReached := gradOutputsReached + 1;
      } else {
        gradOutputs := gradOutputs[k := Some(add(gradOutputs[k].value, gradOutput))];
      }
      dependenciesReached := dependenciesReached + 1;
    }

    /** Count one arriving message; the machine counts it too. */
    method CountMessage(gradOutput: G, k: nat, ghost tape: Tape<G>, ghost m: Msg)
      requires tape.Valid() && id < |tape.fns| && tape.fns[id] == this && id !in tape.st.log
      requires Deliverable(tape.st, m) && tape.st.route[m] == Dest(id, k) && Sent(tape.st, m) == Some(gradOutput)
      modifies tape`st, this`gradOutputs, this`gradOutputsReached, this`dependenciesReached
      ensures tape.st == Counted(old(tape.st), m) && tape.Valid()
      ensures gradOutputs == tape.st.nodes[id].outs
    {
      ghost var s0 := tape.st;
      Count(gradOutput, k);
      tape.st := Counted(s0, m);
    }

    /** The input tensor is what src says: a leaf of the tape, an output of a function, or untracked. */
    static ghost predicate ComesFrom(t: Tensor<G>, src: Source, fns: seq<Function<G>>, leaves: seq<Tensor<G>>)
      reads t
    {
      match src
      case LeafSource(l) => t.requiresGrad && t.isLeaf && t.leafId == l && l < |leaves| && leaves[l] == t &&
        t.outputIdx == 0
      case OutputSource(u, k) =>
        !(t.requiresGrad && t.isLeaf) && u < |fns| && t.gradFn == fns[u] && t.outputIdx == k && fns[u].id == u
      case NoSource => !(t.requiresGrad && t.isLeaf) && t.gradFn == null
    }

    static predicate AnyRequiresGrad(inputs: seq<Tensor<G>>)
      reads inputs
    {
      exists i :: 0 <= i < |inputs| && inputs[i].requiresGrad
    }

    /** The first part of Apply: which outputs are differentiable; the others count as reached. */
    method ClassifyOutputs(inputs: seq<Tensor<G>>, nonDifferentiable: seq<bool>) returns (diff: seq<bool>, any: bool)
      modifies this`gradOutputs, this`gradOutputsReached
      ensures |diff| == |nonDifferentiable|
      ensures forall i :: 0 <= i < |diff| ==> diff[i] == (AnyRequiresGrad(inputs) && !nonDifferentiable[i])
      ensures any <==> exists i :: 0 <= i < |diff| && diff[i]
      ensures gradOutputs == seq(|diff|, _ => None) && gradOutputsReached == |Covered(gradOutputs, diff)|
    {
      var outputRequiresGrad := false;
      for i := 0 to |inputs|
        invariant outputRequiresGrad <==> exists j :: 0 <= j < i && inputs[j].requiresGrad
      {
        outputRequiresGrad := outputRequiresGrad || inputs[i].requiresGrad;
      }
      gradOutputsReached := 0;
      gradOutputs := seq(|nonDifferentiable|, _ => None);
      diff, any := [], false;
      for i := 0 to |nonDifferentiable|
        invariant |diff| == i && gradOutputs == seq(|nonDifferentiable|, _ => None)
        invariant forall j :: 0 <= j < i ==> diff[j] == (outputRequiresGrad && !nonDifferentiable[j])
        invariant any <==> exists j :: 0 <= j < i && diff[j]
        invariant gradOutputsReached == |Covered(gradOutputs[..i], diff)|
      {
        var d := outputRequiresGrad && !nonDifferentiable[i];
        CoversLast(gradOutputs[..i], diff, d);
        assert gradOutputs[..i + 1] == gradOutputs[..i] + [None];
        diff := diff + [d];
        any := any || d;
        if !d {
          gradOutputsReached := gradOutputsReached + 1;
        }
      }
      assert gradOutputs[..|diff|] == gradOutputs;
    }

    /** Put this function, just classified, on the tape. */
    ghost method Register(diff: seq<bool>, tape: Tape<G>)
      requires tape.Valid() && id == |tape.fns| && this !in tape.fns && id !in tape.st.log
      requires !isAccumulate && add == tape.st.add && nextFunctions == []
      requires dependenciesNumber == dependenciesReached == 0
      requires gradOutputs == seq(|diff|, _ => None) && gradOutputsReached == |Covered(gradOutputs, diff)|
      modifies tape`st, tape`fns
      ensures tape.Valid() && tape.fns == old(tape.fns) + [this]
      ensures tape.st == NewFunction(old(tape.st), backward, diff)
    {
      tape.fns := tape.fns + [this];
      tape.st := NewFunction(tape.st, backward, diff);
    }

    /** Count one more consumer of target and append the edge to it to next_functions_. */
    method Link(target: Function<G>, k: nat, ghost tape: Tape<G>)
      requires tape.Valid() && id < |tape.fns| && tape.fns[id] == this && id !in tape.st.log
      requires target.id < |tape.fns| && tape.fns[target.id] == target && target.id != id
      modifies this`nextFunctions, tape`st, target`dependenciesNumber
      ensures tape.Valid()
      ensures tape.st == NewEdge(old(tape.st), id, Edge(Some(target.id), k))
      ensures nextFunctions == old(nextFunctions) + [(target, k)]
    {
      hide NewEdge;
      ghost var s := tape.st;
      ghost var e := Edge(Some(target.id), k);
      nextFunctions := nextFunctions + [(target, k)];
      target.IncreaseDependenciesNumber();
      NewEdgeFields(s, id, e);
      tape.st := NewEdge(s, id, e);
      forall v | 0 <= v < |tape.fns|
        ensures tape.fns[v].Mirrors(tape.st.add, tape.leaves, tape.st.nodes[v], v in tape.st.log)
        ensures v !in tape.st.log ==> tape.fns[v].Linked(tape.fns, tape.st.nodes[v].wires)
      {
      }
    }

    /** Append the edge of an untracked input. */
    method LinkNothing(k: nat, ghost tape: Tape<G>)
      requires tape.Valid() && id < |tape.fns| && tape.fns[id] == this && id !in tape.st.log
      modifies this`nextFunctions, tape`st
      ensures tape.Valid()
      ensures tape.st == NewEdge(old(tape.st), id, Edge(None, k))
      ensures nextFunctions == old(nextFunctions) + [(null, k)]
    {
      nextFunctions := nextFunctions + [(null, k)];
      tape.st := NewEdge(tape.st, id, Edge(None, k));
    }

    /** Record the edge from this function to the accumulator of a leaf. */
    method AddLeafInput(t: Tensor<G>, ghost src: Source, ghost tape: Tape<G>) returns (ghost h: seq<Action<G>>)
      requires Inv(tape.st) && tape.Valid() && id < |tape.fns| && tape.fns[id] == this
      requires !isAccumulate && CanWire(tape.st, id, src) && ComesFrom(t, src, tape.fns, tape.leaves)
      requires src.LeafSource?
      modifies this`nextFunctions, tape`st, tape`fns, t`gradAccumulator, tape.fns`dependenciesNumber
      ensures Inv(tape.st) && tape.Valid() && old(tape.fns) <= tape.fns
      ensures IsHistory(old(tape.st), h) && tape.st == Outcome(old(tape.st), h)
      ensures Wired(old(tape.st), tape.st, id, !src.NoSource?)
      ensures forall v :: |old(tape.fns)| <= v < |tape.fns| ==> fresh(tape.fns[v])
      ensures old(t.gradAccumulator) != null ==> t.gradAccumulator == old(t.gradAccumulator)
      ensures t.gradAccumulator != null && nextFunctions == old(nextFunctions) + [(t.gradAccumulator, t.outputIdx)]
    {
      hide Inv, IsHistory, Outcome, NewEdge, Enabled, Perform, CanAddEdge, Wired;
      ghost var s0 := tape.st;
      var acc, h0 := t.GradAccumulator(add, tape);
      ghost var s1 := tape.st;
      ghost var e := Edge(Some(acc.id), 0);
      LeafEdgeAllowed(s0, s1, id, t.leafId, acc.id);
      ghost var h1 := AddEdgeHistory(s0, h0, s1, id, e);
      h := h0 + h1;
      LeafEdgeWires(s0, s1, id, t.leafId, e);
      Link(acc, t.outputIdx, tape);
    }

    /** Record the edge from this function to the function that made a tensor, if there is one. */
    method AddOutputInput(t: Tensor<G>, ghost src: Source, ghost tape: Tape<G>) returns (ghost h: seq<Action<G>>)
      requires Inv(tape.st) && tape.Valid() && id < |tape.fns| && tape.fns[id] == this
      requires !isAccumulate && CanWire(tape.st, id, src) && ComesFrom(t, src, tape.fns, tape.leaves)
      requires !src.LeafSource?
      modifies this`nextFunctions, tape`st, tape.fns`dependenciesNumber
      ensures Inv(tape.st) && tape.Valid() && old(tape.fns) <= tape.fns
      ensures IsHistory(old(tape.st), h) && tape.st == Outcome(old(tape.st), h)
      ensures Wired(old(tape.st), tape.st, id, !src.NoSource?)
      ensures tape.fns == old(tape.fns)
      ensures nextFunctions == old(nextFunctions) + [(t.gradFn, t.outputIdx)]
    {
      hide Inv, IsHistory, Outcome, NewEdge, Enabled, Perform, Wired;
      ghost var s0 := tape.st;
      ghost var e := Edge(if t.gradFn == null then None else Some(t.gradFn.id), t.outputIdx);
      HistoryNone(s0);
      h := AddEdgeHistory(s0, [], s0, id, e);
      assert [] + h == h;
      EdgeWires(s0, id, e);
      if t.gradFn != null {
        Link(t.gradFn, t.outputIdx, tape);
      } else {
        LinkNothing(t.outputIdx, tape);
      }
    }

    /** Record the edge for one input. */
    method AddInput(t: Tensor<G>, ghost src: Source, ghost tape: Tape<G>) returns (ghost h: seq<Action<G>>)
      requires Inv(tape.st) && tape.Valid() && id < |tape.fns| && tape.fns[id] == this
      requires !isAccumulate && CanWire(tape.st, id, src) && ComesFrom(t, src, tape.fns, tape.leaves)
      modifies this`nextFunctions, tape`st, tape`fns, t`gradAccumulator, tape.fns`dependenciesNumber
      ensures Inv(tape.st) && tape.Valid() && old(tape.fns) <= tape.fns
      ensures IsHistory(old(tape.st), h) && tape.st == Outcome(old(tape.st), h)
      ensures Wired(old(tape.st), tape.st, id, !src.NoSource?)
      ensures forall v :: |old(tape.fns)| <= v < |tape.fns| ==> fresh(tape.fns[v])
      ensures old(t.gradAccumulator) != null ==> t.gradAccumulator == old(t.gradAccumulator)
      ensures |nextFunctions| == |old(nextFunctions)| + 1 && old(nextFunctions) <= nextFunctions
      ensures LinkedTo(nextFunctions[|old(nextFunctions)|], t)
    {
      hide Inv, IsHistory, Outcome, Wired, CanWire;
      if t.requiresGrad && t.isLeaf {
        h := AddLeafInput(t, src, tape);
      } else {
        h := AddOutputInput(t, src, tape);
      }
    }

    /** The second loop of Apply: one edge per input, in the order of the inputs. */
    method AddInputs(inputs: seq<Tensor<G>>, ghost srcs: seq<Source>, ghost tape: Tape<G>)
      returns (ghost h: seq<Action<G>>)
      requires Inv(tape.st) && tape.Valid() && id < |tape.fns| && tape.fns[id] == this
      requires !isAccumulate && nextFunctions == [] && |srcs| == |inputs|
      requires id < |tape.st.nodes| && tape.st.nodes[id].wires == []
      requires forall i :: 0 <= i < |inputs| ==>
                 CanWire(tape.st, id, srcs[i]) && ComesFrom(inputs[i], srcs[i], tape.fns, tape.leaves)
      modifies this`nextFunctions, tape`st, tape`fns, inputs`gradAccumulator, tape.fns`dependenciesNumber
      ensures Inv(tape.st) && tape.Valid() && old(tape.fns) <= tape.fns
      ensures IsHistory(old(tape.st), h) && tape.st == Outcome(old(tape.st), h)
      ensures WiredAs(old(tape.st), tape.st, id, srcs)
      ensures forall v :: |old(tape.fns)| <= v < |tape.fns| ==> fresh(tape.fns[v])
      ensures |nextFunctions| == |inputs| && forall i :: 0 <= i < |inputs| ==> LinkedTo(nextFunctions[i], inputs[i])
    {
      hide Inv, IsHistory, Outcome, Wired, WiredAs, CanWire, Tape.Valid;
      ghost var s0 := tape.st;
      h := [];
      HistoryNone(s0);
      WiredStart(s0, id);
      assert srcs[..0] == [];
      for i := 0 to |inputs|
        invariant Inv(tape.st) && tape.Valid() && old(tape.fns) <= tape.fns
        invariant forall v :: |old(tape.fns)| <= v < |tape.fns| ==> fresh(tape.fns[v])
        invariant IsHistory(s0, h) && tape.st == Outcome(s0, h)
        invariant WiredAs(s0, tape.st, id, srcs[..i])
        invariant |nextFunctions| == i && forall j :: 0 <= j < i ==> LinkedTo(nextFunctions[j], inputs[j])
      {
        ghost var s1 := tape.st;
        WiredCanWire(s0, s1, id, srcs[..i], srcs[i]);
        ghost var h1 := AddInput(inputs[i], srcs[i], tape);
        HistoryConcat(s0, h, h1);
        h := h + h1;
        assert srcs[..i + 1] == srcs[..i] + [srcs[i]];
        WiredStep(s0, s1, tape.st, id, srcs[..i], srcs[i]);
      }
      assert srcs[..|inputs|] == srcs;
    }

    /** The edge recorded for input t: its accumulator if it is a leaf, else the function that made it. */
    static predicate LinkedTo(edge: (Function?<G>, nat), t: Tensor<G>)
      reads t
    {
      && edge.1 == t.outputIdx
      && (if t.requiresGrad && t.isLeaf then edge.0 == t.gradAccumulator && edge.0 != null else edge.0 == t.gradFn)
    }

    /** Put the classified function on the tape with one edge per input. */
    method WireInputs(inputs: seq<Tensor<G>>, ghost diff: seq<bool>, ghost srcs: seq<Source>, ghost tape: Tape<G>)
      returns (ghost h: seq<Action<G>>)
      requires Inv(tape.st) && tape.Valid()
      requires id == |tape.fns| && this !in tape.fns && !isAccumulate && add == tape.st.add
      requires nextFunctions == [] && dependenciesNumber == dependenciesReached == 0
      requires gradOutputs == seq(|diff|, _ => None) && gradOutputsReached == |Covered(gradOutputs, diff)|
      requires |srcs| == |inputs| && CanStartFunction(diff) && AnswersInputs(backward, srcs, diff)
      requires forall i :: 0 <= i < |inputs| ==>
                 SourceWaits(tape.st, srcs[i]) && ComesFrom(inputs[i], srcs[i], tape.fns, tape.leaves)
      modifies this`nextFunctions, tape`st, tape`fns, inputs`gradAccumulator, tape.fns`dependenciesNumber,
               this`dependenciesNumber
      ensures Inv(tape.st) && tape.Valid()
      ensures IsHistory(old(tape.st), h) && tape.st == Outcome(old(tape.st), h)
      ensures id < |tape.fns| && tape.fns[id] == this && old(tape.fns) <= tape.fns
      ensures tape.st.nodes[id].op == AutogradMachine.Operator(backward, diff) && tape.st.nodes[id].complete
      ensures SourcesStay(old(tape.st), tape.st) && Offers(tape.st, id, diff) && tape.st.add == old(tape.st.add)
      ensures forall v :: |old(tape.fns)| <= v < |tape.fns| ==> tape.fns[v] == this || fresh(tape.fns[v])
      ensures |nextFunctions| == |inputs| && forall i :: 0 <= i < |inputs| ==> LinkedTo(nextFunctions[i], inputs[i])
    {
      hide Inv, IsHistory, Outcome, NewFunction, WiredAs, AnswersInputs, SourceWaits, CanWire, Perform, Enabled;
      hide SourcesStay, Offers;
      ghost var s0 := tape.st;
      RegisterFacts(s0, backward, diff, srcs);
      Register(diff, tape);
      ghost var s1 := tape.st;
      ghost var h1 := AddInputs(inputs, srcs, tape);
      ghost var s2 := tape.st;
      h := CompleteFacts(s0, s1, h1, s2, backward, diff, srcs);
      RecordedOffers(s0, s2, backward, diff, srcs);
      tape.st := Complete(s2, id);
    }

    /** The last loop of Apply: the outputs remember who made them. */
    method LabelOutputs(outputs: seq<Tensor<G>>, diff: seq<bool>)
      requires |diff| == |outputs| && forall i, j :: 0 <= i < j < |outputs| ==> outputs[i] != outputs[j]
      modifies outputs`requiresGrad, outputs`isLeaf, outputs`gradFn, outputs`outputIdx
      ensures forall i :: 0 <= i < |outputs| ==> Labelled(outputs[i], diff[i], i)
    {
      for i := 0 to |outputs|
        invariant forall j :: 0 <= j < i ==> Labelled(outputs[j], diff[j], j)
      {
        outputs[i].requiresGrad := diff[i];
        outputs[i].gradFn := if diff[i] then this else null;
        outputs[i].isLeaf := !diff[i];
        outputs[i].outputIdx := i;
      }
    }

    predicate Labelled(t: Tensor<G>, d: bool, i: nat)
      reads t
    {
      t.requiresGrad == d && t.gradFn == (if d then this else null) && t.isLeaf == !d && t.outputIdx == i
    }

    /** The same by the labels that the tensor had before, should it be an output as well. */
    static twostate predicate LinkedToOld(new edge: (Function?<G>, nat), t: Tensor<G>)
      reads t
    {
      && edge.1 == old(t.outputIdx)
      && (if old(t.requiresGrad && t.isLeaf) then edge.0 == t.gradAccumulator && edge.0 != null
          else edge.0 == old(t.gradFn))
    }

    /** The part of Apply that is left out when no output is differentiable: wire the inputs and label the outputs. */
    method Record(inputs: seq<Tensor<G>>, outputs: seq<Tensor<G>>, diff: seq<bool>, ghost srcs: seq<Source>,
                  ghost tape: Tape<G>)
      returns (ghost h: seq<Action<G>>)
      requires Inv(tape.st) && tape.Valid()
      requires id == |tape.fns| && this !in tape.fns && !isAccumulate && add == tape.st.add
      requires nextFunctions == [] && dependenciesNumber == dependenciesReached == 0
      requires gradOutputs == seq(|diff|, _ => None) && gradOutputsReached == |Covered(gradOutputs, diff)|
      requires |srcs| == |inputs| && |diff| == |outputs| && CanStartFunction(diff) &&
               AnswersInputs(backward, srcs, diff)
      requires forall i :: 0 <= i < |inputs| ==>
                 SourceWaits(tape.st, srcs[i]) && ComesFrom(inputs[i], srcs[i], tape.fns, tape.leaves)
      requires forall i :: 0 <= i < |outputs| ==> outputs[i] !in tape.leaves
      requires forall i, j :: 0 <= i < j < |outputs| ==> outputs[i] != outputs[j]
      modifies this`nextFunctions, this`dependenciesNumber, tape`st, tape`fns, inputs`gradAccumulator,
               tape.fns`dependenciesNumber
      modifies outputs`requiresGrad, outputs`isLeaf, outputs`gradFn, outputs`outputIdx
      ensures Inv(tape.st) && tape.Valid()
      ensures IsHistory(old(tape.st), h) && tape.st == Outcome(old(tape.st), h)
      ensures id < |tape.fns| && tape.fns[id] == this && old(tape.fns) <= tape.fns
      ensures tape.st.nodes[id].op == AutogradMachine.Operator(backward, diff) && tape.st.nodes[id].complete
      ensures SourcesStay(old(tape.st), tape.st) && Offers(tape.st, id, diff) && tape.st.add == old(tape.st.add)
      ensures forall v :: |old(tape.fns)| <= v < |tape.fns| ==> tape.fns[v] == this || fresh(tape.fns[v])
      ensures |nextFunctions| == |inputs| && forall i :: 0 <= i < |inputs| ==> LinkedToOld(nextFunctions[i], inputs[i])
      ensures forall i :: 0 <= i < |outputs| ==> Labelled(outputs[i], diff[i], i)
      ensures forall i :: 0 <= i < |outputs| && diff[i] ==>
                ComesFrom(outputs[i], OutputSource(id, i), tape.fns, tape.leaves)
    {
      hide Inv, IsHistory, Outcome, AnswersInputs, SourceWaits, SourcesStay, Offers;
      h := WireInputs(inputs, diff, srcs, tape);
      LabelOutputs(outputs, diff);
    }

    /**
     * Record one operation: classify its outputs and, unless no output is differentiable, wire the
     * function to the producers of its inputs and label the outputs, which Forward has just made.
     */
    method Apply(gradEnabled: bool, inputs: seq<Tensor<G>>, outputs: seq<Tensor<G>>, nonDifferentiable: seq<bool>,
                 ghost srcs: seq<Source>, ghost tape: Tape<G>)
      returns (recorded: bool, ghost diff: seq<bool>, ghost h: seq<Action<G>>)
      requires Inv(tape.st) && tape.Valid()
      requires id == |tape.fns| && this !in tape.fns && !isAccumulate && add == tape.st.add
      requires nextFunctions == [] && dependenciesNumber == dependenciesReached == 0
      requires |srcs| == |inputs| && |nonDifferentiable| == |outputs|
      requires forall i :: 0 <= i < |inputs| ==>
                 SourceWaits(tape.st, srcs[i]) && ComesFrom(inputs[i], srcs[i], tape.fns, tape.leaves)
      requires forall i :: 0 <= i < |outputs| ==> outputs[i] !in tape.leaves
      requires forall i, j :: 0 <= i < j < |outputs| ==> outputs[i] != outputs[j]
      requires AnswersInputs(backward, srcs, seq(|outputs|, i requires 0 <= i < |outputs| => !nonDifferentiable[i]))
      modifies this, tape`st, tape`fns, inputs`gradAccumulator, outputs, tape.fns`dependenciesNumber
      ensures Inv(tape.st) && tape.Valid()
      ensures IsHistory(old(tape.st), h) && tape.st == Outcome(old(tape.st), h)
      ensures |diff| == |outputs|
      ensures forall i :: 0 <= i < |outputs| ==>
                (diff[i] <==> !nonDifferentiable[i] && exists j :: 0 <= j < |inputs| && old(inputs[j].requiresGrad))
      ensures recorded <==> gradEnabled && exists i :: 0 <= i < |diff| && diff[i]
      ensures !recorded ==> tape.st == old(tape.st) && nextFunctions == []
      ensures !recorded ==> forall t :: t in outputs ==> unchanged(t)
      ensures !gradEnabled ==> gradOutputs == old(gradOutputs) && gradOutputsReached == old(gradOutputsReached)
      ensures recorded ==>
                && id < |tape.fns| && tape.fns[id] == this
                && tape.st.nodes[id].op == AutogradMachine.Operator(backward, diff) && tape.st.nodes[id].complete
                && |nextFunctions| == |inputs|
                && (forall i :: 0 <= i < |inputs| ==> LinkedToOld(nextFunctions[i], inputs[i]))
                && (forall i :: 0 <= i < |outputs| ==> Labelled(outputs[i], diff[i], i))
      ensures old(tape.fns) <= tape.fns && SourcesStay(old(tape.st), tape.st) && tape.st.add == old(tape.st.add)
      ensures forall v :: |old(tape.fns)| <= v < |tape.fns| ==> tape.fns[v] == this || fresh(tape.fns[v])
      ensures recorded ==> forall i :: 0 <= i < |outputs| && diff[i] ==>
                SourceWaits(tape.st, OutputSource(id, i)) &&
                ComesFrom(outputs[i], OutputSource(id, i), tape.fns, tape.leaves)
    {
      hide Inv, IsHistory, Outcome, AnswersInputs, SourceWaits;
      HistoryNone(tape.st);
      h := [];
      if !gradEnabled {
        recorded := false;
        ghost var any := AnyRequiresGrad(inputs);
        diff := seq(|outputs|, i requires 0 <= i < |outputs| => any && !nonDifferentiable[i]);
        return;
      }
      var d;
      d, recorded := ClassifyOutputs(inputs, nonDifferentiable);
      diff := d;
      if !recorded {
        nextFunctions := [];
        return;
      }
      assert diff == seq(|outputs|, i requires 0 <= i < |outputs| => !nonDifferentiable[i]);
      h := Record(inputs, outputs, d, srcs, tape);
    }

    /** Flush the accumulated gradient into the leaf; the machine's leaf is flushed too. */
    method FlushLeaf(ghost tape: Tape<G>) returns (gradInputs: seq<Option<G>>)
      requires tape.Valid() && id < |tape.fns| && tape.fns[id] == this && tape.st.nodes[id].op.Accumulate?
      requires gradOutputs != [] && gradOutputs[0].Some?
      modifies tape`st, tape.leaves
      ensures tape.Valid() && gradInputs == []
      ensures var t := old(tape.st).nodes[id].op.leaf;
              t < |old(tape.st).leaves| &&
              tape.st == old(tape.st).(leaves :=
                old(tape.st).leaves[t := Flush(add, old(tape.st).leaves[t], gradOutputs[0].value)])
    {
      ghost var s := tape.st;
      ghost var t := s.nodes[id].op.leaf;
      gradInputs := AccumulateBackward(gradOutputs[0].value);
      tape.st := s.(leaves := s.leaves[t := Flush(add, s.leaves[t], gradOutputs[0].value)]);
    }

    /** Forget the gradients that Backward has consumed; the machine logs the node as fired. */
    method Clear(ghost sent: seq<Option<G>>, ghost tape: Tape<G>)
      requires tape.Valid() && id < |tape.fns| && tape.fns[id] == this && id !in tape.st.log
      modifies tape`st, this`gradOutputs, this`gradOutputsReached, this`dependenciesReached
      ensures tape.Valid()
      ensures var s := old(tape.st);
              tape.st == s.(log := s.log + [id],
                            nodes := s.nodes[id := s.nodes[id].(seen := s.nodes[id].outs, sent := sent, outs := [],
                                                                outReached := 0, depReached := 0)])
    {
      ghost var s := tape.st;
      gradOutputs := [];
      gradOutputsReached := 0;
      dependenciesReached := 0;
      tape.st := s.(log := s.log + [id],
                    nodes := s.nodes[id := s.nodes[id].(seen := s.nodes[id].outs, sent := sent, outs := [],
                                                        outReached := 0, depReached := 0)]);
    }

    /** Run Backward on the gradients and clear them; the machine fires the node. */
    method RunBackward(ghost tape: Tape<G>) returns (gradInputs: seq<Option<G>>)
      requires tape.Valid() && id < |tape.fns| && tape.fns[id] == this && id !in tape.st.log
      requires gradOutputs == tape.st.nodes[id].outs
      requires tape.st.nodes[id].op.Accumulate? ==>
                 gradOutputs != [] && gradOutputs[0].Some? &&
                 tape.st.nodes[id].op.leaf < |tape.st.leaves| &&
                   tape.st.leaves[tape.st.nodes[id].op.leaf].acc == Some(id)
      modifies tape`st, this`gradOutputs, this`gradOutputsReached, this`dependenciesReached, tape.leaves
      ensures tape.st == Fire(old(tape.st), id) && tape.Valid()
      ensures gradInputs == tape.st.nodes[id].sent
    {
      if isAccumulate {
        gradInputs := FlushLeaf(tape);
      } else {
        gradInputs := backward(gradOutputs);
      }
      Clear(gradInputs, tape);
    }

    /**
     * The part of BackwardPartial before its recursive calls: store or add the gradient, count it
     * and, when everything has arrived, run Backward and clear the function.
     */
    method Receive(gradOutput: G, k: nat, ghost tape: Tape<G>, ghost m: Msg)
      returns (fires: bool, gradInputs: seq<Option<G>>)
      requires tape.Valid() && id < |tape.fns| && tape.fns[id] == this && id !in tape.st.log
      requires Deliverable(tape.st, m) && tape.st.route[m] == Dest(id, k) && Sent(tape.st, m) == Some(gradOutput)
      requires tape.st.nodes[id].op.Accumulate? ==>
                 tape.st.leaves[tape.st.nodes[id].op.leaf].acc == Some(id) && |tape.st.nodes[id].outs| == 1
      modifies tape`st, this`gradOutputs, this`gradOutputsReached, this`dependenciesReached, tape.leaves
      ensures tape.st == Deliver(old(tape.st), m) && tape.Valid()
      ensures fires <==> id in tape.st.log
      ensures fires ==> gradInputs == tape.st.nodes[id].sent
      ensures Linked(tape.fns, tape.st.nodes[id].wires)
    {
      CountMessage(gradOutput, k, tape, m);
      fires, gradInputs := false, [];
      if gradOutputsReached == |gradOutputs| && (dependenciesReached == dependenciesNumber || dependenciesNumber == 0) {
        fires := true;
        gradInputs := RunBackward(tape);
      }
    }

    /** Nothing but the gradients of functions that fire and the leaves has changed. */
    twostate predicate Untouched(tape: Tape<G>)
      reads tape, tape.fns
    {
      && tape.fns == old(tape.fns) && tape.leaves == old(tape.leaves) && old(tape.st.log) <= tape.st.log
      && (forall v :: 0 <= v < |tape.fns| && v in old(tape.st.log) ==>
            tape.fns[v].nextFunctions == old(tape.fns[v].nextFunctions))
    }

    /** This function has fired and is handing on its results. */
    ghost predicate Propagating(tape: Tape<G>, gradInputs: seq<Option<G>>)
      reads this, tape
    {
      && id < |tape.fns| && tape.fns[id] == this && id < |tape.st.nodes| && id in tape.st.log
      && gradInputs == tape.st.nodes[id].sent
      && Linked(tape.fns, tape.st.nodes[id].wires)
    }

    /** Receive, for a message on its way in a state of the machine that satisfies its invariant. */
    method Accept(gradOutput: G, k: nat, ghost tape: Tape<G>, ghost m: Msg)
      returns (fires: bool, gradInputs: seq<Option<G>>)
      requires Inv(tape.st) && tape.Valid() && id < |tape.fns| && tape.fns[id] == this
      requires m in InFlight(tape.st) && tape.st.route[m] == Dest(id, k) && Sent(tape.st, m) == Some(gradOutput)
      modifies tape`st, this`gradOutputs, this`gradOutputsReached, this`dependenciesReached, tape.leaves
      ensures tape.Valid() && Arrival(old(tape.st), tape.st, m, id)
      ensures fires <==> id in tape.st.log
      ensures fires ==> Propagating(tape, gradInputs)
    {
      hide Inv, Arrival;
      ghost var s0 := tape.st;
      InFlightIsDeliverable(s0, m);
      fires, gradInputs := Receive(gradOutput, k, tape, m);
      DeliveryIsArrival(s0, m);
    }

    /**
     * Deliver one message: store or add the gradient, count it and, when everything has arrived,
     * run Backward and hand on its results, the edges into leaves first. Returns the messages
     * delivered by this activation and by those it starts.
     */
    method BackwardPartial(gradOutput: G, k: nat, ghost tape: Tape<G>, ghost m: Msg) returns (ghost trace: seq<Msg>)
      requires Inv(tape.st) && tape.Valid() && id < |tape.fns| && tape.fns[id] == this
      requires m in InFlight(tape.st) && tape.st.route[m] == Dest(id, k) && Sent(tape.st, m) == Some(gradOutput)
      modifies tape`st, tape.fns, tape.leaves
      ensures Inv(tape.st) && tape.Valid() && Untouched(tape)
      ensures Schedule(old(tape.st), trace) && tape.st == After(old(tape.st), trace)
      ensures InFlight(tape.st) == old(InFlight(tape.st)) - {m}
      decreases if isAccumulate then 0 else id + 1, 3
    {
      hide Inv, Edges, InFlight, Schedule, After;
      ghost var s0 := tape.st;
      var fires, gradInputs := Accept(gradOutput, k, tape, m);
      ghost var s1 := tape.st;
      if fires {
        ghost var t := Propagate(gradInputs, tape);
        ArrivalThenEdges(s0, m, id, s1, t, tape.st);
        trace := [m] + t;
      } else {
        ArrivalAlone(s0, m, id, s1);
        trace := [m];
      }
    }

    /** Hand on the results of Backward, the edges into leaves first, and forget the edges. */
    method Propagate(gradInputs: seq<Option<G>>, ghost tape: Tape<G>) returns (ghost trace: seq<Msg>)
      requires Inv(tape.st) && tape.Valid() && Propagating(tape, gradInputs) && Edges(tape.st, id) <= InFlight(tape.st)
      modifies tape`st, tape.fns, tape.leaves
      ensures Inv(tape.st) && tape.Valid() && nextFunctions == []
      ensures tape.fns == old(tape.fns) && tape.leaves == old(tape.leaves) && old(tape.st.log) <= tape.st.log
      ensures forall v :: 0 <= v < |tape.fns| && v != id && v in old(tape.st.log) ==>
                tape.fns[v].nextFunctions == old(tape.fns[v].nextFunctions)
      ensures Schedule(old(tape.st), trace) && tape.st == After(old(tape.st), trace)
      ensures InFlight(tape.st) == old(InFlight(tape.st)) - Edges(old(tape.st), id)
      ensures LeafEdgesFirst(old(tape.st), id, trace)
      decreases if isAccumulate then 0 else id + 1, 2
    {
      hide Inv, InFlight, Schedule, After, Pass, Follows, LeafEdgesFirst, Tape.Valid, Linked;
      ghost var s1 := tape.st;
      ghost var t1 := PropagatePass(gradInputs, true, tape);
      ghost var s2 := tape.st;
      SecondPassCanStart(s1, id, t1, s2);
      ghost var t2 := PropagatePass(gradInputs, false, tape);
      PassesCompose(s1, id, t1, s2, t2, tape.st);
      LeafEdgesGoFirst(s1, id, t1, s2, t2, tape.st);
      ForgetEdges(tape);
      trace := t1 + t2;
    }

    method ForgetEdges(ghost tape: Tape<G>)
      requires tape.Valid() && id < |tape.fns| && tape.fns[id] == this && id in tape.st.log
      modifies this`nextFunctions
      ensures tape.Valid() && nextFunctions == []
    {
      nextFunctions := [];
    }

    /** One of the two loops over the edges of a function that has fired. */
    method PropagatePass(gradInputs: seq<Option<G>>, leafPass: bool, ghost tape: Tape<G>)
      returns (ghost trace: seq<Msg>)
      requires Inv(tape.st) && tape.Valid() && Propagating(tape, gradInputs)
      requires Remaining(tape.st, id, leafPass, 0) <= InFlight(tape.st)
      modifies tape`st, tape.fns, tape.leaves
      ensures tape.Valid() && Untouched(tape) && Propagating(tape, gradInputs)
      ensures Pass(old(tape.st), tape.st, id, leafPass, |old(tape.st).nodes[id].wires|, trace)
      decreases if isAccumulate then 0 else id + 1, 1
    {
      hide Inv, InFlight, Remaining, Pass, Tape.Valid, Linked;
      ghost var s0 := tape.st;
      trace := [];
      FiredFunctionAnswers(s0, id);
      PassStart(s0, id, leafPass);
      for i := 0 to |gradInputs|
        invariant tape.Valid() && Untouched(tape) && Propagating(tape, gradInputs)
        invariant i <= |s0.nodes[id].wires| && Pass(s0, tape.st, id, leafPass, i, trace)
      {
        trace := ServeEdge(gradInputs, leafPass, i, tape, s0, trace);
      }
    }

    /** One round of a loop over the edges: edge i is served, if it belongs to the pass. */
    method ServeEdge(gradInputs: seq<Option<G>>, leafPass: bool, i: nat, ghost tape: Tape<G>, ghost s0: State<G>,
                     ghost before: seq<Msg>)
      returns (ghost trace: seq<Msg>)
      requires tape.Valid() && Propagating(tape, gradInputs) && i < |gradInputs|
      requires Pass(s0, tape.st, id, leafPass, i, before) && Remaining(s0, id, leafPass, 0) <= InFlight(s0)
      modifies tape`st, tape.fns, tape.leaves
      ensures tape.Valid() && Untouched(tape) && Propagating(tape, gradInputs)
      ensures Pass(s0, tape.st, id, leafPass, i + 1, trace)
      decreases if isAccumulate then 0 else id + 1, 0
    {
      hide Inv, InFlight, Remaining, Schedule, After, Pass, Follows;
      ghost var s1 := tape.st;
      PassSoFar(s0, s1, id, leafPass, i, before);
      FiredFunctionAnswers(s1, id);
      trace := before;
      var next, k := nextFunctions[i].0, nextFunctions[i].1;
      if next != null && next.isAccumulate == leafPass && gradInputs[i].Some? {
        EdgeCanBeServed(s0, s1, id, leafPass, i, before);
        ghost var t := next.BackwardPartial(gradInputs[i].value, k, tape, Wire(id, i));
        PassStep(s0, s1, tape.st, id, leafPass, i, before, t);
        trace := before + t;
      } else {
        PassSkip(s0, s1, id, leafPass, i, before);
      }
    }

    /** The function's edges are the recorded wires. */
    ghost predicate Linked(fns: seq<Function<G>>, wires: seq<Edge>)
      reads this
    {
      |nextFunctions| == |wires| &&
      forall i :: 0 <= i < |wires| ==>
        && nextFunctions[i].1 == wires[i].idx
        && (if wires[i].target.None? then nextFunctions[i].0 == null
            else wires[i].target.value < |fns| && nextFunctions[i].0 == fns[wires[i].target.value])
    }

    /** The function's fields are those of node n; fired says whether it has fired. */
    ghost predicate Mirrors(add: (G, G) -> G, leaves: seq<Tensor<G>>, n: Node<G>, fired: bool)
      reads this
    {
      && this.add == add
      && (match n.op
          case Accumulate(t) => isAccumulate && t < |leaves| && tensor == leaves[t]
          case Operator(b, _) => !isAccumulate && backward == b)
      && dependenciesNumber == n.depNum
      && dependenciesReached == n.depReached
      && gradOutputsReached == n.outReached
      && (if fired then gradOutputs == []
          else gradOutputs == n.outs || (gradOutputs == [] && n.outs == [None]))
    }
  }

  class Tape<G(!new)> {
    ghost var st: State<G>
    ghost var fns: seq<Function<G>>
    ghost var leaves: seq<Tensor<G>>

    ghost constructor (add: (G, G) -> G)
      ensures st == Initial(add) && fns == [] && leaves == [] && Valid()
    {
      st, fns, leaves := Initial(add), [], [];
    }

    ghost predicate Valid()
      reads this, fns, leaves
    {
      && |fns| == |st.nodes| && |leaves| == |st.leaves|
      && (forall v :: 0 <= v < |fns| ==>
            && fns[v].id == v
            && fns[v].Mirrors(st.add, leaves, st.nodes[v], v in st.log)
            && (v !in st.log ==> fns[v].Linked(fns, st.nodes[v].wires)))
      && (forall t :: 0 <= t < |leaves| ==> leaves[t].Mirrors(t, st.leaves[t], fns))
    }
  }
}
