/**
 * Sums of gradients. A gradient is a value of an arbitrary type G with a commutative and
 * associative addition; a missing gradient (null pointer) is None and is neutral.
 */
module GradientSums {
  import opened Wrappers

  ghost predicate CommutesAt<G>(add: (G, G) -> G, x: G, y: G) {
    add(x, y) == add(y, x)
  }

  ghost predicate AssociatesAt<G>(add: (G, G) -> G, x: G, y: G, z: G) {
    add(add(x, y), z) == add(x, add(y, z))
  }

  /** Exact addition of tensors of one shape: commutative and associative. */
  ghost predicate Lawful<G(!new)>(add: (G, G) -> G) {
    && (forall x, y :: CommutesAt(add, x, y))
    && (forall x, y, z :: AssociatesAt(add, x, y, z))
  }

  function Plus<G>(add: (G, G) -> G, a: Option<G>, b: Option<G>): Option<G> {
    if a.None? then b else if b.None? then a else Some(add(a.value, b.value))
  }

  lemma PlusCommutes<G(!new)>(add: (G, G) -> G, a: Option<G>, b: Option<G>)
    requires Lawful(add)
    ensures Plus(add, a, b) == Plus(add, b, a)
  {
    if a.Some? && b.Some? {
      assert CommutesAt(add, a.value, b.value);
    }
  }

  lemma PlusAssociates<G(!new)>(add: (G, G) -> G, a: Option<G>, b: Option<G>, c: Option<G>)
    requires Lawful(add)
    ensures Plus(add, Plus(add, a, b), c) == Plus(add, a, Plus(add, b, c))
  {
    if a.Some? && b.Some? && c.Some? {
      assert AssociatesAt(add, a.value, b.value, c.value);
    }
  }

  ghost function Pick<K, V>(m: map<K, V>): (k: K)
    requires m != map[]
    ensures k in m
  {
    var k :| k in m; k
  }

  /** The sum of all values of a finite map; None for the empty map. */
  ghost function Sum<K, G>(add: (G, G) -> G, m: map<K, G>): Option<G>
    decreases |m|
  {
    if m == map[] then None
    else
      var k := Pick(m);
      Plus(add, Some(m[k]), Sum(add, m - {k}))
  }

  /** The sum does not depend on the order: any entry may be taken out first. */
  lemma {:induction false} SumRemove<K, G(!new)>(add: (G, G) -> G, m: map<K, G>, k: K)
    requires Lawful(add) && k in m
    ensures Sum(add, m) == Plus(add, Some(m[k]), Sum(add, m - {k}))
    decreases |m|
  {
    var p := Pick(m);
    if p != k {
      var a, b, rest := Some(m[p]), Some(m[k]), m - {p} - {k};
      assert rest == m - {k} - {p};
      SumRemove(add, m - {p}, k);
      SumRemove(add, m - {k}, p);
      PlusAssociates(add, a, b, Sum(add, rest));
      PlusAssociates(add, b, a, Sum(add, rest));
      PlusCommutes(add, a, b);
    }
  }

  lemma SumInsert<K, G(!new)>(add: (G, G) -> G, m: map<K, G>, k: K, g: G)
    requires Lawful(add) && k !in m
    ensures Sum(add, m[k := g]) == Plus(add, Sum(add, m), Some(g))
  {
    SumRemove(add, m[k := g], k);
    assert m[k := g] - {k} == m;
    PlusCommutes(add, Sum(add, m), Some(g));
  }

  lemma SumIsNone<K, G>(add: (G, G) -> G, m: map<K, G>)
    ensures Sum(add, m).None? <==> m == map[]
  {
  }
}
