/**
 * A scheduler through its checkpoint: the state dictionary of a tree, written to a file and read back,
 * resumes the run.
 */
module SchedulerFiles {
  import opened Widths
  import opened StateValues
  import opened Decimals
  import opened LRTrees
  import opened LRState
  import opened Codec
  import opened CheckpointFiles

  /** The bits of a number, and the number that bits stand for, as float and as double. */
  datatype Layout = Layout(bits: real -> nat, number: nat -> real, bits64: real -> nat, number64: nat -> real)

  /** The number is a float. */
  predicate IsFloat(l: Layout, x: real) {
    l.bits(x) < TWO_32 && l.number(l.bits(x)) == x
  }

  predicate IsDouble(l: Layout, x: real) {
    l.bits64(x) < TWO_64 && l.number64(l.bits64(x)) == x
  }

  // ---------------------------------------------------------------- text and bytes

  predicate OneByteEach(s: string) {
    forall i :: 0 <= i < |s| ==> s[i] as int < 256
  }

  function ToBytes(s: string): (b: Bytes)
    ensures |b| == |s|
  {
    seq(|s|, i requires 0 <= i < |s| => s[i] as int % 256)
  }

  function ToText(b: Bytes): (s: string)
    ensures |s| == |b|
  {
    seq(|b|, i requires 0 <= i < |b| => b[i] as char)
  }

  lemma TextBack(s: string)
    requires OneByteEach(s)
    ensures ToText(ToBytes(s)) == s
  {
  }

  // ---------------------------------------------------------------- dictionaries

  function AllBits(l: Layout, xs: seq<real>): (r: seq<nat>)
    ensures |r| == |xs|
  {
    seq<nat>(|xs|, i requires 0 <= i < |xs| => l.bits(xs[i]))
  }

  function AllNumbers(l: Layout, xs: seq<nat>): (r: seq<real>)
    ensures |r| == |xs|
  {
    seq(|xs|, i requires 0 <= i < |xs| => l.number(xs[i]))
  }

  function ToStored(l: Layout, v: Value): StoredValue {
    match v
    case Int64(i) => Int64(i)
    case Float(x) => Float(l.bits(x))
    case Double(d) => Double(l.bits64(d))
    case Text(s) => Text(ToBytes(s))
    case Floats(xs) => Floats(AllBits(l, xs))
  }

  function OfStored(l: Layout, v: StoredValue): Value {
    match v
    case Int64(i) => Int64(i)
    case Float(x) => Float(l.number(x))
    case Double(d) => Double(l.number64(d))
    case Text(s) => Text(ToText(s))
    case Floats(xs) => Floats(AllNumbers(l, xs))
  }

  predicate ValueFits(l: Layout, v: Value) {
    match v
    case Int64(i) => InI64(i)
    case Float(x) => IsFloat(l, x)
    case Double(d) => IsDouble(l, d)
    case Text(s) => |s| < TWO_32 && OneByteEach(s)
    case Floats(xs) => |xs| < TWO_64 && forall i :: 0 <= i < |xs| ==> IsFloat(l, xs[i])
  }

  lemma ValueBack(l: Layout, v: Value)
    requires ValueFits(l, v)
    ensures OfStored(l, ToStored(l, v)) == v && InWidth(ToStored(l, v))
  {
    match v
    case Floats(xs) => assert AllNumbers(l, AllBits(l, xs)) == xs;
    case Text(s) => TextBack(s);
    case _ =>
  }

  function ToStoredDict(l: Layout, d: Dict): map<Bytes, StoredValue> {
    map b | b in (set k | k in d :: ToBytes(k)) && ToText(b) in d :: ToStored(l, d[ToText(b)])
  }

  function OfStoredDict(l: Layout, m: map<Bytes, StoredValue>): Dict {
    map k | k in (set b | b in m :: ToText(b)) && ToBytes(k) in m :: OfStored(l, m[ToBytes(k)])
  }

  ghost predicate DictFits(l: Layout, d: Dict) {
    |d| < TWO_32 && forall k :: k in d ==> OneByteEach(k) && |k| < TWO_32 && ValueFits(l, d[k])
  }

  lemma ToStoredDictHas(l: Layout, d: Dict, k: string)
    requires DictFits(l, d)
    ensures k in d ==> ToBytes(k) in ToStoredDict(l, d) && ToStoredDict(l, d)[ToBytes(k)] == ToStored(l, d[k])
  {
    hide ToStored, ToBytes, ToText, ValueFits;
    if k in d {
      TextBack(k);
    }
  }

  lemma StoredFrom(l: Layout, d: Dict, b: Bytes)
    requires DictFits(l, d) && b in ToStoredDict(l, d)
    ensures ToText(b) in d && ToBytes(ToText(b)) == b && ToStoredDict(l, d)[b] == ToStored(l, d[ToText(b)])
  {
    hide ToStored, ToBytes, ToText, ValueFits;
    var k :| k in d && ToBytes(k) == b;
    TextBack(k);
  }

  lemma DictBack(l: Layout, d: Dict)
    requires DictFits(l, d)
    ensures OfStoredDict(l, ToStoredDict(l, d)) == d
  {
    hide ToStored, OfStored, ToBytes, ToText, ValueFits, ToStoredDict;
    var m := ToStoredDict(l, d);
    forall k
      ensures k in OfStoredDict(l, m) <==> k in d
      ensures k in OfStoredDict(l, m) ==> OfStoredDict(l, m)[k] == d[k]
    {
      ToStoredDictHas(l, d, k);
      if k in d {
        TextBack(k);
        ValueBack(l, d[k]);
      }
      if k in OfStoredDict(l, m) {
        var b :| b in m && ToText(b) == k;
        StoredFrom(l, d, b);
      }
    }
  }

  function Image<T, U>(s: set<T>, f: T -> U): set<U> {
    set x | x in s :: f(x)
  }

  lemma {:induction false} ImageIsNoLarger<T, U>(s: set<T>, f: T -> U)
    ensures |Image(s, f)| <= |s|
  {
    if s != {} {
      var y :| y in s;
      ImageIsNoLarger(s - {y}, f);
      assert Image(s, f) == Image(s - {y}, f) + {f(y)};
    }
  }

  lemma StoredDictFits(l: Layout, d: Dict)
    requires DictFits(l, d)
    ensures StateInWidth(ToStoredDict(l, d))
  {
    hide ToStored, ToBytes, ToText, ValueFits, InWidth, OneByteEach, ToStoredDict, DictFits;
    var m := ToStoredDict(l, d);
    var f := (k: string) => ToBytes(k);
    var image := Image(d.Keys, f);
    forall b | b in m
      ensures b in image && |b| < TWO_32 && InWidth(m[b])
    {
      StoredFrom(l, d, b);
      assert f(ToText(b)) == b;
      EntryFits(l, d, ToText(b));
    }
    ImageIsNoLarger(d.Keys, f);
    SubsetSize(m.Keys, image);
    SizeFits(l, d);
    assert |m| == |m.Keys| <= |image| <= |d.Keys|;
  }

  lemma EntryFits(l: Layout, d: Dict, k: string)
    requires DictFits(l, d) && k in d
    ensures |k| < TWO_32 && InWidth(ToStored(l, d[k]))
  {
    ValueBack(l, d[k]);
  }

  lemma SizeFits(l: Layout, d: Dict)
    requires DictFits(l, d)
    ensures |d.Keys| == |d| < TWO_32
  {
  }

  lemma {:induction false} SubsetSize<T>(a: set<T>, b: set<T>)
    requires a <= b
    ensures |a| <= |b|
  {
    assert b == a + (b - a);
  }

  // ---------------------------------------------------------------- trees

  /** The counters fit an int64 and the rates are floats. */
  ghost predicate TreeFits(l: Layout, t: Sched) {
    InI64(t.last) && IsFloat(l, t.base) && forall i :: 0 <= i < |t.kids| ==> TreeFits(l, t.kids[i])
  }

  lemma PrefixIsText(i: nat)
    ensures OneByteEach(Prefix(i))
  {
    NumberOfDecimal(i);
  }

  /** Whatever a tree saves has one byte per character in its keys and values that fit. */
  lemma {:induction false} SavedFits(l: Layout, t: Sched, lr: real, k: string)
    requires TreeFits(l, t) && IsFloat(l, lr) && k in Save(t, lr)
    ensures OneByteEach(k) && ValueFits(l, Save(t, lr)[k])
    decreases t, 0
  {
    hide IsFloat, InI64, OneByteEach;
    OwnKeysAreText();
    if k in SaveKids(t.kids, 0, lr) {
      SavedKidsFit(l, t.kids, 0, lr, k);
    }
  }

  lemma OwnKeysAreText()
    ensures OneByteEach(LAST_STEP) && OneByteEach(RECOVER_LR) && OneByteEach(BASE_LR)
  {
  }

  lemma {:induction false} SavedKidsFit(l: Layout, kids: seq<Sched>, i: nat, lr: real, k: string)
    requires (forall j :: 0 <= j < |kids| ==> TreeFits(l, kids[j])) && IsFloat(l, lr) && k in SaveKids(kids, i, lr)
    ensures OneByteEach(k) && ValueFits(l, SaveKids(kids, i, lr)[k])
    decreases kids, 1
  {
    hide IsFloat, ValueFits, Save, WithPrefix, Prefix, TreeFits;
    WithPrefixHas(Prefix(i), Save(kids[0], lr), k);
    if k in SaveKids(kids[1..], i + 1, lr) {
      SavedKidsFit(l, kids[1..], i + 1, lr, k);
    } else {
      var x := k[|Prefix(i)|..];
      SavedFits(l, kids[0], lr, x);
      PrefixIsText(i);
      assert k == Prefix(i) + x;
    }
  }

  // ---------------------------------------------------------------- the whole way

  /** Sizes within the widths of the file's fields. */
  ghost predicate SizesFit(d: Dict) {
    |d| < TWO_32 && forall k :: k in d ==> |k| < TWO_32
  }

  /**
   * Save a tree, write the dictionary to a file in any order, read it back, load it into a freshly built
   * tree of the same configuration, and step n times: the rates are those of the uninterrupted run.
   */
  lemma ResumeThroughFile(l: Layout, t: Sched, lr: real, blank: Sched, lr0: real, n: nat, order: seq<Bytes>)
    requires WellFormed(t) && SameTree(t, blank) && TreeFits(l, t) && IsFloat(l, lr) && SizesFit(Save(t, lr))
    requires Enumerates(order, ToStoredDict(l, Save(t, lr)))
    ensures var read := Decode(SCHEDULER_FORMAT, Encode(SCHEDULER_FORMAT, ToStoredDict(l, Save(t, lr)), order));
            read.Some? &&
            var loaded := Load(blank, OfStoredDict(l, read.value), lr0);
            && loaded.Loaded? && loaded.lr == lr && WellFormed(loaded.sched)
            && SameResult(Steps(t, lr, n), Steps(loaded.sched, loaded.lr, n))
  {
    hide Load, Save, Steps, Encode, Decode, ToStoredDict, OfStoredDict, SameResult, SameTree, WellFormed, ValueFits,
         OneByteEach;
    hide TreeFits, StateInWidth, Enumerates, IsFloat;
    var d := Save(t, lr);
    forall k | k in d
      ensures OneByteEach(k) && ValueFits(l, d[k])
    {
      SavedFits(l, t, lr, k);
    }
    StoredDictFits(l, d);
    SchedulerStateRoundTrip(ToStoredDict(l, d), order);
    DictBack(l, d);
    ResumeEqualsUninterrupted(t, lr, blank, lr0, n);
  }
}
