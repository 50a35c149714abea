/** Functions applied one after the other, on the objects: where the edges of the later ones lead. */
module AutogradChains {
  import opened Wrappers
  import opened AutogradMachine
  import opened AutogradHistory
  import opened Autograd

  /** A function that has just been made for the tape. */
  ghost predicate Fresh<G(!new)>(f: Function<G>, tape: Tape<G>)
    reads f, tape
  {
    && f.id == |tape.fns| && f !in tape.fns && !f.isAccumulate && f.add == tape.st.add
    && f.nextFunctions == [] && f.dependenciesNumber == f.dependenciesReached == 0
  }

  /** One operation with two differentiable outputs, each of which a further operation reads (Split). */
  method SplitAndConsume<G(!new)>(x: Tensor<G>, ghost src: Source, f: Function<G>, a: Tensor<G>, b: Tensor<G>,
                                  ya: Tensor<G>, yb: Tensor<G>, backward: seq<Option<G>> -> seq<Option<G>>,
                                  add: (G, G) -> G, ghost tape: Tape<G>)
    returns (g: Function<G>, h: Function<G>)
    requires Inv(tape.st) && tape.Valid() && add == tape.st.add && Fresh(f, tape)
    requires x.requiresGrad && SourceWaits(tape.st, src) && Function.ComesFrom(x, src, tape.fns, tape.leaves)
    requires a != b && a != ya && a != yb && b != ya && b != yb && ya != yb
    requires forall t :: t in {a, b, ya, yb} ==> t !in tape.leaves && t != x
    requires AnswersInputs(f.backward, [src], [true, true])
    requires forall y: seq<Option<G>> | Full(y, [true]) :: |backward(y)| == 1 && backward(y)[0].Some?
    modifies f, x`gradAccumulator, a, b, ya, yb, tape`st, tape`fns, tape.fns`dependenciesNumber
    ensures Inv(tape.st) && tape.Valid()
    ensures fresh(g) && g.nextFunctions == [(f, 0)]
    ensures fresh(h) && h.nextFunctions == [(f, 1)]
    ensures ya.gradFn == g && ya.outputIdx == 0 && yb.gradFn == h && yb.outputIdx == 0
  {
    hide Inv, IsHistory, Outcome, SourceWaits, Tape.Valid, Full;
    ghost var diff0, h0;
    var recorded;
    assert seq(2, i requires 0 <= i < 2 => ![false, false][i]) == [true, true];
    recorded, diff0, h0 := f.Apply(true, [x], [a, b], [false, false], [src], tape);
    assert [x][0].requiresGrad;
    assert diff0[0] && recorded && diff0[1];
    g := ReadOutput(f, 0, a, ya, backward, add, tape);
    h := ReadOutput(f, 1, b, yb, backward, add, tape);
  }

  /** A unary operation on output k of f. */
  method ReadOutput<G(!new)>(f: Function<G>, ghost k: nat, t: Tensor<G>, y: Tensor<G>,
                             backward: seq<Option<G>> -> seq<Option<G>>, add: (G, G) -> G, ghost tape: Tape<G>)
    returns (g: Function<G>)
    requires Inv(tape.st) && tape.Valid() && add == tape.st.add && f.id < |tape.fns| && tape.fns[f.id] == f
    requires t.requiresGrad && SourceWaits(tape.st, OutputSource(f.id, k))
    requires Function.ComesFrom(t, OutputSource(f.id, k), tape.fns, tape.leaves)
    requires y !in tape.leaves && y != t
    requires forall z: seq<Option<G>> | Full(z, [true]) :: |backward(z)| == 1 && backward(z)[0].Some?
    modifies t`gradAccumulator, y, tape`st, tape`fns, tape.fns`dependenciesNumber
    ensures Inv(tape.st) && tape.Valid() && tape.st.add == add
    ensures fresh(g) && g.nextFunctions == [(f, k)]
    ensures y.gradFn == g && y.outputIdx == 0
    ensures old(tape.fns) <= tape.fns && SourcesStay(old(tape.st), tape.st) && tape.leaves == old(tape.leaves)
    ensures forall v :: |old(tape.fns)| <= v < |tape.fns| ==> fresh(tape.fns[v])
  {
    hide Inv, IsHistory, Outcome, SourceWaits, SourcesStay, Tape.Valid, Full;
    g := new Function<G>.Operator(add, backward, |tape.fns|);
    ghost var diff, h;
    var recorded;
    assert seq(1, i requires 0 <= i < 1 => ![false][i]) == [true];
    recorded, diff, h := g.Apply(true, [t], [y], [false], [OutputSource(f.id, k)], tape);
    assert [t][0].requiresGrad;
    assert diff[0] && recorded;
  }

  /** A unary operation on a leaf: its edge leads to the accumulator of that leaf. */
  method ReadLeaf<G(!new)>(t: Tensor<G>, y: Tensor<G>, backward: seq<Option<G>> -> seq<Option<G>>,
                           add: (G, G) -> G, ghost tape: Tape<G>)
    returns (g: Function<G>)
    requires Inv(tape.st) && tape.Valid() && add == tape.st.add
    requires t.leafId < |tape.leaves| && tape.leaves[t.leafId] == t && y !in tape.leaves
    requires forall z: seq<Option<G>> | Full(z, [true]) :: |backward(z)| == 1 && backward(z)[0].Some?
    modifies t`gradAccumulator, y, tape`st, tape`fns, tape.fns`dependenciesNumber
    ensures Inv(tape.st) && tape.Valid()
    ensures fresh(g) && t.gradAccumulator != null && g.nextFunctions == [(t.gradAccumulator, 0)]
    ensures t.gradAccumulator.isAccumulate && t.gradAccumulator.tensor == t
    ensures y.gradFn == g && y.outputIdx == 0
  {
    hide Inv, IsHistory, Outcome, SourcesStay, Full;
    g := new Function<G>.Operator(add, backward, |tape.fns|);
    ghost var diff, h;
    var recorded;
    assert seq(1, i requires 0 <= i < 1 => ![false][i]) == [true];
    recorded, diff, h := g.Apply(true, [t], [y], [false], [LeafSource(t.leafId)], tape);
    assert [t][0].requiresGrad;
    assert diff[0] && recorded;
    LeafAccumulates(tape.st, t.leafId);
  }

  lemma LeafAccumulates<G(!new)>(s: State<G>, t: nat)
    requires Inv(s) && t < |s.leaves| && s.leaves[t].acc.Some?
    ensures s.leaves[t].acc.value < |s.nodes| && s.nodes[s.leaves[t].acc.value].op == Accumulate(t)
  {
    assert LeafInv(s, t);
  }
}
