/**
 * The binary checkpoint files: a header (magic number, version, count) and one entry per name, in any
 * order. A file is a sequence of bytes with a cursor; a read past its end leaves zeros, which is what
 * the zero-initialised variables of the reader hold then. Numbers are stored low-order byte first.
 */
module Codec {
  import opened Wrappers
  import opened Widths

  type Octet = b: int | 0 <= b < 256
  type Bytes = seq<Octet>

  // ---------------------------------------------------------------- fixed-width numbers

  /** The low n bytes of v. */
  function EncU(v: nat, n: nat): (b: Bytes)
    ensures |b| == n
  {
    if n == 0 then [] else [v % 256] + EncU(v / 256, n - 1)
  }

  function DecU(b: Bytes): nat {
    if b == [] then 0 else b[0] + 256 * DecU(b[1..])
  }

  lemma {:induction false} DecodesU(v: nat, n: nat)
    requires v < Pow256(n)
    ensures DecU(EncU(v, n)) == v
  {
    if n > 0 {
      DecodesU(v / 256, n - 1);
    }
  }

  /** int64_t in two's complement. */
  function EncI64(i: int): Bytes {
    EncU(i % TWO_64, 8)
  }

  function SignedU64(u: nat): int {
    if u < TWO_64 / 2 then u else u - TWO_64
  }

  predicate InI64(i: int) {
    -(TWO_64 as int) / 2 <= i < TWO_64 / 2
  }

  lemma DecodesI64(i: int)
    requires InI64(i)
    ensures SignedU64(DecU(EncI64(i))) == i
  {
    Pow256Values();
    hide Pow256;
    DecodesU(i % TWO_64, 8);
  }

  // ---------------------------------------------------------------- reading

  /** n bytes at pos, zeros past the end of the file. */
  function Take(file: Bytes, pos: nat, n: nat): (b: Bytes)
    ensures |b| == n
  {
    seq(n, i requires 0 <= i < n => if pos + i < |file| then file[pos + i] else 0)
  }

  lemma TakeAt(pre: Bytes, x: Bytes, post: Bytes)
    ensures Take(pre + x + post, |pre|, |x|) == x
  {
  }

  function ReadU(file: Bytes, pos: nat, n: nat): nat {
    DecU(Take(file, pos, n))
  }

  lemma ReadsU(pre: Bytes, v: nat, n: nat, post: Bytes)
    requires v < Pow256(n)
    ensures ReadU(pre + EncU(v, n) + post, |pre|, n) == v
  {
    hide Take, EncU, DecU;
    TakeAt(pre, EncU(v, n), post);
    DecodesU(v, n);
  }

  // ---------------------------------------------------------------- strings

  /** WriteString: the length, cut to 32 bits, and as many bytes. */
  function EncString(s: Bytes): Bytes {
    EncU(|s| % TWO_32, 4) + s[..|s| % TWO_32]
  }

  /** ReadString: the string and the cursor after it. */
  function DecString(file: Bytes, pos: nat): (Bytes, nat) {
    var len := ReadU(file, pos, 4);
    (Take(file, pos + 4, len), pos + 4 + len)
  }

  lemma DecodesString(pre: Bytes, s: Bytes, post: Bytes)
    requires |s| < TWO_32
    ensures DecString(pre + EncString(s) + post, |pre|) == (s, |pre| + |EncString(s)|)
  {
    Pow256Values();
    hide Pow256, EncU, Take, DecU, ReadU;
    var file, len := pre + EncString(s) + post, EncU(|s|, 4);
    assert s[..|s|] == s;
    assert file == pre + len + (s + post) && file == (pre + len) + s + post;
    ReadsU(pre, |s|, 4, s + post);
    TakeAt(pre + len, s, post);
  }

  // ---------------------------------------------------------------- a file of named values

  /**
   * How values are written, and how one is read back from a cursor: the value and the cursor after
   * it, or None where the reader is fatal.
   */
  datatype Format<!V> = Format(magic: nat, version: nat, encode: V -> Bytes, decode: (Bytes, nat) -> Option<(V, nat)>)

  /** The value is read back wherever it stands in a file. */
  ghost predicate ReadsBack<V>(f: Format<V>, v: V) {
    forall pre: Bytes, post: Bytes {:trigger pre + f.encode(v) + post} ::
      f.decode(pre + f.encode(v) + post, |pre|) == Some((v, |pre| + |f.encode(v)|))
  }

  function EncEntries<V>(f: Format<V>, d: map<Bytes, V>, order: seq<Bytes>): Bytes
    requires forall k :: k in order ==> k in d
  {
    if order == [] then [] else EncString(order[0]) + f.encode(d[order[0]]) + EncEntries(f, d, order[1..])
  }

  function Header<V>(f: Format<V>, count: nat): Bytes {
    EncU(f.magic, 4) + EncU(f.version, 4) + EncU(count % TWO_32, 4)
  }

  /** The file, when the map is enumerated in the given order. */
  function Encode<V>(f: Format<V>, d: map<Bytes, V>, order: seq<Bytes>): Bytes
    requires forall k :: k in order ==> k in d
  {
    Header(f, |d|) + EncEntries(f, d, order)
  }

  /** The next count entries; of two entries with one name the first counts. */
  function DecEntries<V>(f: Format<V>, file: Bytes, pos: nat, count: nat, acc: map<Bytes, V>): Option<map<Bytes, V>>
    decreases count
  {
    if count == 0 then Some(acc)
    else
      var (name, pos1) := DecString(file, pos);
      var r := f.decode(file, pos1);
      if r.None? then None
      else DecEntries(f, file, r.value.1, count - 1, if name in acc then acc else acc[name := r.value.0])
  }

  /** None where a CHECK fails. */
  function Decode<V>(f: Format<V>, file: Bytes): Option<map<Bytes, V>> {
    if ReadU(file, 0, 4) != f.magic || ReadU(file, 4, 4) != f.version then None
    else DecEntries(f, file, 12, ReadU(file, 8, 4), map[])
  }

  /** An enumeration of a map: every name once. */
  ghost predicate Enumerates<V>(order: seq<Bytes>, d: map<Bytes, V>) {
    && (forall k :: k in d <==> k in order)
    && (forall i, j :: 0 <= i < j < |order| ==> order[i] != order[j])
  }

  /** What the format needs to hold a map: field widths, and values that read back. */
  ghost predicate Fits<V>(f: Format<V>, d: map<Bytes, V>) {
    && f.magic < TWO_32 && f.version < TWO_32 && |d| < TWO_32
    && forall k :: k in d ==> |k| < TWO_32 && ReadsBack(f, d[k])
  }

  function Restrict<V>(d: map<Bytes, V>, keys: seq<Bytes>): map<Bytes, V> {
    map k | k in d && k in keys :: d[k]
  }

  lemma ReadsBackAt<V>(f: Format<V>, v: V, pre: Bytes, post: Bytes)
    requires ReadsBack(f, v)
    ensures f.decode(pre + f.encode(v) + post, |pre|) == Some((v, |pre| + |f.encode(v)|))
  {
  }

  /** One entry is read back. */
  lemma DecodesEntry<V>(f: Format<V>, name: Bytes, v: V, pre: Bytes, post: Bytes, file: Bytes)
    requires |name| < TWO_32 && ReadsBack(f, v)
    requires file == pre + (EncString(name) + f.encode(v) + post)
    ensures var (s, pos1) := DecString(file, |pre|);
            s == name && f.decode(file, pos1) == Some((v, |pre| + |EncString(name)| + |f.encode(v)|))
  {
    hide EncString, DecString, ReadsBack;
    var n, e := EncString(name), f.encode(v);
    assert file == pre + n + (e + post);
    DecodesString(pre, name, e + post);
    assert file == (pre + n) + e + post;
    ReadsBackAt(f, v, pre + n, post);
  }

  lemma Assoc(x: Bytes, y: Bytes, z: Bytes, w: Bytes)
    ensures x + (y + z + w) == (x + y + z) + w
    ensures x + y + z + w == [] + x + (y + z + w) && x + y + z + w == x + y + (z + w)
  {
  }

  /** The entries from place i of the enumeration on. */
  ghost function EntriesFrom<V>(f: Format<V>, d: map<Bytes, V>, order: seq<Bytes>, i: nat): Bytes
    requires Enumerates(order, d) && i <= |order|
  {
    EncEntries(f, d, order[i..])
  }

  lemma EntriesSplit<V>(f: Format<V>, d: map<Bytes, V>, order: seq<Bytes>, i: nat)
    requires Enumerates(order, d) && i < |order|
    ensures order[i] in d
    ensures EntriesFrom(f, d, order, i) == EncString(order[i]) + f.encode(d[order[i]]) + EntriesFrom(f, d, order, i + 1)
  {
    hide EncString;
    assert order[i..][0] == order[i] && order[i..][1..] == order[i + 1..];
  }

  lemma FitsAt<V>(f: Format<V>, d: map<Bytes, V>, k: Bytes)
    requires Fits(f, d) && k in d
    ensures |k| < TWO_32 && ReadsBack(f, d[k])
  {
  }

  lemma AllRead<V>(d: map<Bytes, V>, order: seq<Bytes>)
    requires Enumerates(order, d)
    ensures Restrict(d, order[..|order|]) == d
  {
    assert order[..|order|] == order;
  }

  /** Reading the remaining entries adds them to those already read. */
  lemma {:induction false} DecodesEntries<V>(f: Format<V>, d: map<Bytes, V>, order: seq<Bytes>, i: nat, pre: Bytes,
                                             file: Bytes)
    requires Fits(f, d) && Enumerates(order, d) && i <= |order|
    requires file == pre + EntriesFrom(f, d, order, i)
    ensures DecEntries(f, file, |pre|, |order| - i, Restrict(d, order[..i])) == Some(d)
    decreases |order| - i
  {
    if i == |order| {
      AllRead(d, order);
    } else {
      hide EncString, DecString, ReadsBack, DecEntries, EntriesFrom, Restrict, Fits, Enumerates;
      RestrictGrows(d, order, i);
      var name := order[i];
      var pre1 := pre + EncString(name) + f.encode(d[name]);
      EntryReads(f, d, order, i, pre, pre1, file);
      DecodesEntries(f, d, order, i + 1, pre1, file);
      EntryStep(f, file, |pre|, |order| - i, Restrict(d, order[..i]), name, d[name], |pre1|);
    }
  }

  /** Entry i is read, and what remains of the file is the entries after it. */
  lemma EntryReads<V>(f: Format<V>, d: map<Bytes, V>, order: seq<Bytes>, i: nat, pre: Bytes, pre1: Bytes, file: Bytes)
    requires Fits(f, d) && Enumerates(order, d) && i < |order| && order[i] in d
    requires file == pre + EntriesFrom(f, d, order, i)
    requires pre1 == pre + EncString(order[i]) + f.encode(d[order[i]])
    ensures file == pre1 + EntriesFrom(f, d, order, i + 1)
    ensures var (s, pos1) := DecString(file, |pre|);
            s == order[i] && f.decode(file, pos1) == Some((d[order[i]], |pre1|))
  {
    hide EncString, DecString, ReadsBack, EntriesFrom, Fits, Enumerates;
    EntriesSplit(f, d, order, i);
    FitsAt(f, d, order[i]);
    var n, e, rest := EncString(order[i]), f.encode(d[order[i]]), EntriesFrom(f, d, order, i + 1);
    Assoc(pre, n, e, rest);
    DecodesEntry(f, order[i], d[order[i]], pre, rest, file);
  }

  lemma RestrictGrows<V>(d: map<Bytes, V>, order: seq<Bytes>, i: nat)
    requires Enumerates(order, d) && i < |order|
    ensures order[i] in d && order[i] !in Restrict(d, order[..i])
    ensures Restrict(d, order[..i + 1]) == Restrict(d, order[..i])[order[i] := d[order[i]]]
  {
    assert order[..i + 1] == order[..i] + [order[i]];
  }

  lemma EntryStep<V>(f: Format<V>, file: Bytes, pos: nat, count: nat, acc: map<Bytes, V>, name: Bytes, v: V, pos2: nat)
    requires count > 0 && name !in acc && DecString(file, pos).0 == name
    requires f.decode(file, DecString(file, pos).1) == Some((v, pos2))
    ensures DecEntries(f, file, pos, count, acc) == DecEntries(f, file, pos2, count - 1, acc[name := v])
  {
    hide DecString;
  }

  lemma EnumeratesFront<V>(order: seq<Bytes>, d: map<Bytes, V>, last: Bytes)
    requires Enumerates(order, d) && order != [] && last == order[|order| - 1]
    ensures last in d && Enumerates(order[..|order| - 1], d - {last})
  {
    forall k
      ensures k in d - {last} <==> k in order[..|order| - 1]
    {
      assert k in order <==> k in order[..|order| - 1] || k == last;
    }
  }

  lemma {:induction false} OrderLength<V>(order: seq<Bytes>, d: map<Bytes, V>)
    requires Enumerates(order, d)
    ensures |order| == |d|
    decreases |order|
  {
    if order == [] {
      assert d == map[];
    } else {
      var last := order[|order| - 1];
      EnumeratesFront(order, d, last);
      hide Enumerates;
      OrderLength(order[..|order| - 1], d - {last});
      assert d.Keys == (d - {last}).Keys + {last};
    }
  }

  /** The header, and then nothing but the entries. */
  lemma HeaderReads<V>(f: Format<V>, d: map<Bytes, V>, e: Bytes, file: Bytes)
    requires Fits(f, d) && file == Header(f, |d|) + e
    ensures ReadU(file, 0, 4) == f.magic && ReadU(file, 4, 4) == f.version && ReadU(file, 8, 4) == |d|
  {
    Pow256Values();
    hide Pow256, EncU, ReadU, ReadsBack;
    var m, v, c := EncU(f.magic, 4), EncU(f.version, 4), EncU(|d|, 4);
    assert file == m + v + c + e;
    Assoc(m, v, c, e);
    ReadsU([], f.magic, 4, v + c + e);
    ReadsU(m, f.version, 4, c + e);
    ReadsU(m + v, |d|, 4, e);
  }

  /** Loading undoes saving, in whatever order the map was enumerated. */
  lemma DecodeUndoesEncode<V>(f: Format<V>, d: map<Bytes, V>, order: seq<Bytes>)
    requires Fits(f, d) && Enumerates(order, d)
    ensures Decode(f, Encode(f, d, order)) == Some(d)
  {
    OrderLength(order, d);
    hide ReadU, DecEntries, Header, Fits;
    var file := Encode(f, d, order);
    HeaderReads(f, d, EncEntries(f, d, order), file);
    HeaderLength(f, |d|);
    assert order[0..] == order && Restrict(d, order[..0]) == map[];
    DecodesEntries(f, d, order, 0, Header(f, |d|), file);
  }

  lemma HeaderLength<V>(f: Format<V>, count: nat)
    ensures |Header(f, count)| == 12
  {
  }

  // ---------------------------------------------------------------- the loops

  lemma {:induction false} EntriesAppend<V>(f: Format<V>, d: map<Bytes, V>, order: seq<Bytes>, name: Bytes)
    requires (forall k :: k in order ==> k in d) && name in d
    ensures EncEntries(f, d, order + [name]) == EncEntries(f, d, order) + (EncString(name) + f.encode(d[name]))
  {
    hide EncString;
    if order == [] {
      assert ([] + [name])[1..] == [];
    } else {
      assert (order + [name])[1..] == order[1..] + [name];
      EntriesAppend(f, d, order[1..], name);
    }
  }

  lemma NoEntries<V>(f: Format<V>, d: map<Bytes, V>)
    ensures EncEntries(f, d, []) == []
  {
  }

  method WriteString(file: Bytes, s: Bytes) returns (r: Bytes)
    ensures r == file + EncString(s)
  {
    var len := |s| % TWO_32;
    r := file + EncU(len, 4);
    r := r + s[..len];
  }

  method ReadString(file: Bytes, pos: nat) returns (s: Bytes, next: nat)
    ensures (s, next) == DecString(file, pos)
  {
    var len := ReadU(file, pos, 4);
    s := Take(file, pos + 4, len);
    next := pos + 4 + len;
  }

  /** The loop of both savers, over an unordered map: any enumeration may come out. */
  method SaveAll<V>(f: Format<V>, d: map<Bytes, V>) returns (file: Bytes)
    ensures exists order :: Enumerates(order, d) && file == Encode(f, d, order)
  {
    hide EncString, Header;
    file := EncU(f.magic, 4);
    file := file + EncU(f.version, 4);
    file := file + EncU(|d| % TWO_32, 4);
    HeaderIs(f, |d|);
    ghost var order: seq<Bytes> := [];
    var left := d.Keys;
    while left != {}
      invariant left <= d.Keys
      invariant forall k :: k in order <==> k in d && k !in left
      invariant forall i, j :: 0 <= i < j < |order| ==> order[i] != order[j]
      invariant file == Header(f, |d|) + EncEntries(f, d, order)
    {
      var name :| name in left;
      left := left - {name};
      EntriesAppend(f, d, order, name);
      file := WriteString(file, name);
      file := file + f.encode(d[name]);
      order := order + [name];
    }
    assert Enumerates(order, d);
    assert file == Encode(f, d, order);
  }

  lemma HeaderIs<V>(f: Format<V>, count: nat)
    ensures Header(f, count) == EncU(f.magic, 4) + EncU(f.version, 4) + EncU(count % TWO_32, 4)
  {
  }

  /** The loop of both loaders. None where a CHECK fails or a value is fatal. */
  method LoadAll<V>(f: Format<V>, file: Bytes) returns (r: Option<map<Bytes, V>>)
    ensures r == Decode(f, file)
  {
    hide ReadU, DecString;
    var magic := ReadU(file, 0, 4);
    var version := ReadU(file, 4, 4);
    var count := ReadU(file, 8, 4);
    if magic != f.magic || version != f.version {
      return None;
    }
    var state: map<Bytes, V> := map[];
    var pos := 12;
    for i := 0 to count
      invariant DecEntries(f, file, pos, count - i, state) == DecEntries(f, file, 12, count, map[])
    {
      var name, next := ReadString(file, pos);
      var value := f.decode(file, next);
      if value.None? {
        return None;
      }
      if name !in state {
        state := state[name := value.value.0];
      }
      pos := value.value.1;
    }
    return Some(state);
  }
}
