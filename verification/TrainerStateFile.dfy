/**
 * The trainer state file: a JSON object written field by field, read back by a search for each quoted
 * key. Loading recovers every field for all values of its type, negative ones included.
 */
module TrainerStateFile {
  import opened Wrappers
  import opened Decimals

  datatype TrainerState = TrainerState(
    nLayer: int, nHead: int, nKvHead: int, nEmbd: int, vocabSize: int, globalStep: int, consumedTrainSamples: int,
    ddpSize: int, tpSize: int, spSize: int, ppSize: int)

  const MIN_64: int := -0x8000_0000_0000_0000
  const MAX_64: int := 0x7fff_ffff_ffff_ffff
  const MIN_32: int := -0x8000_0000
  const MAX_32: int := 0x7fff_ffff

  predicate In64(i: int) { MIN_64 <= i <= MAX_64 }

  predicate In32(i: int) { MIN_32 <= i <= MAX_32 }

  /** Seven int64 fields and four int fields. */
  predicate InRange(s: TrainerState) {
    && In64(s.nLayer) && In64(s.nHead) && In64(s.nKvHead) && In64(s.nEmbd) && In64(s.vocabSize)
    && In64(s.globalStep) && In64(s.consumedTrainSamples)
    && In32(s.ddpSize) && In32(s.tpSize) && In32(s.spSize) && In32(s.ppSize)
  }

  // ---------------------------------------------------------------- searching

  /** std::string::find from the beginning; None for npos. */
  function Find(s: string, t: string): (r: Option<nat>)
    ensures r.Some? ==> r.value <= |s|
  {
    if t <= s then Some(0)
    else if s == "" then None
    else
      var r := Find(s[1..], t);
      if r.None? then None else Some(r.value + 1)
  }

  /** Nothing is found where the first character does not occur. */
  lemma {:induction false} FindSkips(x: string, s: string, t: string)
    requires t != "" && forall k :: 0 <= k < |x| ==> x[k] != t[0]
    ensures Find(x + s, t) == match Find(s, t) case None => None case Some(r) => Some(|x| + r)
  {
    if x == "" {
      assert x + s == s;
    } else {
      assert (x + s)[0] == x[0] && (x + s)[1..] == x[1..] + s;
      FindSkips(x[1..], s, t);
    }
  }

  function SkipBlank(s: string): string {
    if s != "" && (s[0] == ' ' || s[0] == '\n') then SkipBlank(s[1..]) else s
  }

  predicate Stops(c: char) {
    c == ',' || c == '\n' || c == '}'
  }

  function UntilStop(s: string): string {
    if s != "" && !Stops(s[0]) then [s[0]] + UntilStop(s[1..]) else ""
  }

  lemma {:induction false} UntilStopIs(v: string, c: char, rest: string)
    requires Stops(c) && forall k :: 0 <= k < |v| ==> !Stops(v[k])
    ensures UntilStop(v + [c] + rest) == v
  {
    var s := v + [c] + rest;
    if v != "" {
      UntilStopIs(v[1..], c, rest);
      assert s[0] == v[0] && s[1..] == v[1..] + [c] + rest;
    } else {
      assert s[0] == c;
    }
  }

  function Quoted(key: string): string {
    "\"" + key + "\""
  }

  /** The value after the colon at i. */
  function AfterColon(content: string, i: nat, fallback: int, lo: int, hi: int): int {
    if i >= |content| then fallback
    else
      var v := ParseInt(UntilStop(SkipBlank(content[i + 1..])), lo, hi);
      if v.None? then fallback else v.value
  }

  /** The value of the key at k. */
  function AfterKey(content: string, k: nat, fallback: int, lo: int, hi: int): int
    requires k <= |content|
  {
    var c := Find(content[k..], ":");
    if c.None? then fallback else AfterColon(content, k + c.value, fallback, lo, hi)
  }

  /** ExtractNumberField, for an integer type with the given range. */
  function Extract(content: string, key: string, fallback: int, lo: int, hi: int): int {
    var k := Find(content, Quoted(key));
    if k.None? then fallback else AfterKey(content, k.value, fallback, lo, hi)
  }

  // ---------------------------------------------------------------- what is written

  /** One line of the file. */
  function Line(key: string, value: int, end: string): string {
    "  \"" + key + "\": " + Numeral(value) + end
  }

  /** The lines of the fields: all but the last end with a comma. */
  function Lines(fields: seq<(string, int)>): string {
    if fields == [] then "}\n"
    else Line(fields[0].0, fields[0].1, if |fields| == 1 then "\n" else ",\n") + Lines(fields[1..])
  }

  function File(fields: seq<(string, int)>): string {
    "{\n" + Lines(fields)
  }

  predicate EndsLine(end: string) {
    end == "\n" || end == ",\n"
  }

  /** What follows the key and its colon. */
  function After(value: int, end: string, rest: string): string {
    " " + (Numeral(value) + end + rest)
  }

  predicate PlainKey(key: string) {
    forall k :: 0 <= k < |key| ==> key[k] != '"' && key[k] != ':'
  }

  lemma NumeralChars(i: int)
    ensures forall k :: 0 <= k < |Numeral(i)| ==> Numeral(i)[k] != '"' && !Stops(Numeral(i)[k]) && Numeral(i)[k] != ' '
    ensures Numeral(i) != ""
  {
    NumberOfDecimal(if i < 0 then -i else i);
    hide Decimal;
  }

  function Shift(n: nat, r: Option<nat>): Option<nat> {
    if r.None? then None else Some(n + r.value)
  }

  lemma FindSkipsOne(c: char, s: string, t: string)
    requires t != "" && !(t <= [c] + s)
    ensures Find([c] + s, t) == Shift(1, Find(s, t))
  {
    assert ([c] + s)[1..] == s;
  }

  /** From the closing quote of another key: a colon follows, and no further quote up to the end of the line. */
  lemma PassClosing(key: string, tail: string, rest: string)
    requires PlainKey(key) && tail != "" && tail[0] == ':' && forall k :: 0 <= k < |tail| ==> tail[k] != '"'
    ensures Find(['"'] + (tail + rest), Quoted(key)) == Shift(1 + |tail|, Find(rest, Quoted(key)))
  {
    var t, closing := Quoted(key), ['"'] + (tail + rest);
    assert closing[1] == ':' && t[1] != ':';
    FindSkipsOne('"', tail + rest, t);
    FindSkips(tail, rest, t);
  }

  /** From the opening quote of another key. */
  lemma PassOpening(key: string, other: string, tail: string, rest: string)
    requires PlainKey(key) && PlainKey(other) && key != other
    requires tail != "" && tail[0] == ':' && forall k :: 0 <= k < |tail| ==> tail[k] != '"'
    ensures Find(['"'] + (other + (['"'] + (tail + rest))), Quoted(key)) ==
            Shift(2 + |other| + |tail|, Find(rest, Quoted(key)))
  {
    var t, closing := Quoted(key), ['"'] + (tail + rest);
    var opening := ['"'] + (other + closing);
    assert opening == Quoted(other) + (tail + rest);
    if t <= opening {
      SameQuoted(key, other, tail + rest);
    }
    FindSkipsOne('"', other + closing, t);
    FindSkips(other, closing, t);
    PassClosing(key, tail, rest);
  }

  /** A quoted key is not found in the line of another key: the search goes on in the rest. */
  lemma FindPassesLine(key: string, other: string, value: int, end: string, rest: string)
    requires PlainKey(key) && PlainKey(other) && key != other && EndsLine(end)
    ensures Find(Line(other, value, end) + rest, Quoted(key)) ==
            Shift(|Line(other, value, end)|, Find(rest, Quoted(key)))
  {
    NumeralChars(value);
    hide Numeral, Find;
    var tail := ": " + Numeral(value) + end;
    var opening := ['"'] + (other + (['"'] + (tail + rest)));
    assert Line(other, value, end) + rest == "  " + opening;
    FindSkips("  ", opening, Quoted(key));
    PassOpening(key, other, tail, rest);
  }

  lemma SameQuoted(key: string, other: string, rest: string)
    requires PlainKey(key) && PlainKey(other) && Quoted(key) <= Quoted(other) + rest
    ensures key == other
  {
    var t, s := Quoted(key), Quoted(other) + rest;
    assert forall k :: 0 <= k < |t| ==> t[k] == s[k];
    assert forall k :: 0 <= k < |key| ==> t[k + 1] == key[k];
    assert forall k :: 0 <= k < |other| ==> s[k + 1] == other[k];
    assert t[|key| + 1] == '"' && s[|other| + 1] == '"';
    assert |key| == |other|;
  }

  /** What follows the key in a field's line reads back as the value. */
  lemma ValueReads(value: int, end: string, rest: string, lo: int, hi: int)
    requires EndsLine(end)
    ensures ParseInt(UntilStop(SkipBlank(After(value, end, rest))), lo, hi) == InRangeOrNone(value, lo, hi)
  {
    NumeralChars(value);
    ParseUndoesNumeral(value, lo, hi);
    hide Numeral, ParseInt, InRangeOrNone;
    var n := Numeral(value);
    var s := n + [end[0]] + (end[1..] + rest);
    assert s == n + end + rest;
    UntilStopIs(n, end[0], end[1..] + rest);
    assert (" " + s)[1..] == s && s[0] == n[0];
    assert !Stops(n[0]) && n[0] != ' ';
  }

  lemma LineSplits(key: string, value: int, end: string, rest: string)
    ensures Line(key, value, end) + rest == "  " + (Quoted(key) + (":" + After(value, end, rest)))
  {
    hide Numeral;
  }

  lemma DropPrefix(x: string, y: string)
    ensures (x + y)[|x|..] == y
  {
  }

  /** The line of a field, once found, gives its value, or the fallback if the value is out of range. */
  lemma ExtractHere(pre: string, key: string, value: int, end: string, rest: string, fallback: int, lo: int, hi: int)
    requires PlainKey(key) && EndsLine(end)
    requires Find(pre + (Line(key, value, end) + rest), Quoted(key)) == Some(|pre| + 2)
    ensures Extract(pre + (Line(key, value, end) + rest), key, fallback, lo, hi) ==
            if lo <= value <= hi then value else fallback
  {
    hide Numeral, ParseInt, Find, UntilStop, SkipBlank, Line, Quoted, Extract, After, EndsLine, PlainKey;
    var after := After(value, end, rest);
    var q := Quoted(key);
    LineSplits(key, value, end, rest);
    ColonAfter(key, after);
    ValueReads(value, end, rest, lo, hi);
    var content := pre + (Line(key, value, end) + rest);
    var k: nat, c: nat := |pre| + 2, |q|;
    Placed(pre, q, after, content, k, c);
    ExtractReads(content, key, fallback, lo, hi, k, c, InRangeOrNone(value, lo, hi));
  }

  lemma Placed(pre: string, q: string, after: string, content: string, k: nat, c: nat)
    requires content == pre + ("  " + (q + (":" + after))) && k == |pre| + 2 && c == |q|
    ensures k + c < |content|
    ensures content[k..] == q + (":" + after) && content[k + c + 1..] == after
  {
    var x := pre + "  ";
    assert content == x + (q + (":" + after));
    assert content == (x + q + ":") + after;
    DropPrefix(x, q + (":" + after));
    DropPrefix(x + q + ":", after);
  }

  lemma ExtractReads(content: string, key: string, fallback: int, lo: int, hi: int, k: nat, c: nat,
                     parsed: Option<int>)
    requires Find(content, Quoted(key)) == Some(k) && k + c < |content| && Find(content[k..], ":") == Some(c)
    requires ParseInt(UntilStop(SkipBlank(content[k + c + 1..])), lo, hi) == parsed
    ensures Extract(content, key, fallback, lo, hi) == if parsed.Some? then parsed.value else fallback
  {
    hide ParseInt, Find, UntilStop, SkipBlank;
    var i := k + c;
    var value := if parsed.Some? then parsed.value else fallback;
    assert AfterColon(content, i, fallback, lo, hi) == value;
    hide AfterColon;
    assert AfterKey(content, k, fallback, lo, hi) == value;
  }

  lemma ColonAfter(key: string, after: string)
    requires PlainKey(key)
    ensures Find(Quoted(key) + (":" + after), ":") == Some(|Quoted(key)|)
  {
    var x := Quoted(key);
    FindSkips(x, ":" + after, ":");
    assert ":" <= ":" + after;
  }

  // ---------------------------------------------------------------- any list of fields

  function End(count: nat, i: nat): string {
    if i + 1 == count then "\n" else ",\n"
  }

  /** The lines before field i. */
  function Before(fields: seq<(string, int)>, i: nat): string
    requires i <= |fields|
  {
    if i == 0 then "" else Line(fields[0].0, fields[0].1, End(|fields|, 0)) + Before(fields[1..], i - 1)
  }

  lemma {:induction false} LinesSplit(fields: seq<(string, int)>, i: nat)
    requires i < |fields|
    ensures Lines(fields) ==
            Before(fields, i) + (Line(fields[i].0, fields[i].1, End(|fields|, i)) + Lines(fields[i + 1..]))
  {
    if i > 0 {
      LinesSplit(fields[1..], i - 1);
      assert fields[1..][i..] == fields[i + 1..];
      var rest := Line(fields[i].0, fields[i].1, End(|fields|, i)) + Lines(fields[i + 1..]);
      assert End(|fields[1..]|, i - 1) == End(|fields|, i);
      Assoc(Line(fields[0].0, fields[0].1, End(|fields|, 0)), Before(fields[1..], i - 1), rest);
    }
  }

  lemma Assoc(x: string, y: string, z: string)
    ensures x + (y + z) == (x + y) + z
  {
  }

  ghost predicate PlainAndDistinct(fields: seq<(string, int)>) {
    && (forall i :: 0 <= i < |fields| ==> PlainKey(fields[i].0))
    && (forall i, j :: 0 <= i < j < |fields| ==> fields[i].0 != fields[j].0)
  }

  /** The first place where a field's quoted key occurs is in its own line. */
  lemma {:induction false} FindsField(fields: seq<(string, int)>, i: nat)
    requires i < |fields| && PlainAndDistinct(fields)
    ensures Find(Lines(fields), Quoted(fields[i].0)) == Some(|Before(fields, i)| + 2)
  {
    hide Find, Line, Quoted;
    if i == 0 {
      FindsOwnLine(fields[0].0, fields[0].1, End(|fields|, 0), Lines(fields[1..]));
    } else {
      FindsField(fields[1..], i - 1);
      FindPassesLine(fields[i].0, fields[0].0, fields[0].1, End(|fields|, 0), Lines(fields[1..]));
    }
  }

  lemma FindsOwnLine(key: string, value: int, end: string, rest: string)
    requires PlainKey(key)
    ensures Find(Line(key, value, end) + rest, Quoted(key)) == Some(2)
  {
    LineSplits(key, value, end, rest);
    var x := Quoted(key) + (":" + After(value, end, rest));
    FindSkips("  ", x, Quoted(key));
    assert Quoted(key) <= x;
  }

  /** Every field of a written file reads back; a value out of range gives the fallback. */
  lemma ExtractField(fields: seq<(string, int)>, i: nat, fallback: int, lo: int, hi: int)
    requires i < |fields| && PlainAndDistinct(fields)
    ensures Extract(File(fields), fields[i].0, fallback, lo, hi) ==
            if lo <= fields[i].1 <= hi then fields[i].1 else fallback
  {
    hide Extract, Find, Line, Lines, Before;
    var key, value, end, rest := fields[i].0, fields[i].1, End(|fields|, i), Lines(fields[i + 1..]);
    FindsField(fields, i);
    LinesSplit(fields, i);
    FindSkips("{\n", Lines(fields), Quoted(key));
    Assoc("{\n", Before(fields, i), Line(key, value, end) + rest);
    ExtractHere("{\n" + Before(fields, i), key, value, end, rest, fallback, lo, hi);
  }

  /** A key that no field has is not found. */
  lemma {:induction false} FindsNothing(fields: seq<(string, int)>, key: string)
    requires PlainAndDistinct(fields) && PlainKey(key) && forall i :: 0 <= i < |fields| ==> fields[i].0 != key
    ensures Find(Lines(fields), Quoted(key)) == None
  {
    if fields == [] {
      FindSkips("}\n", "", Quoted(key));
      assert "}\n" + "" == "}\n";
    } else {
      hide Find, Line, Quoted;
      FindsNothing(fields[1..], key);
      FindPassesLine(key, fields[0].0, fields[0].1, End(|fields|, 0), Lines(fields[1..]));
    }
  }

  lemma ExtractMissing(fields: seq<(string, int)>, key: string, fallback: int, lo: int, hi: int)
    requires PlainAndDistinct(fields) && PlainKey(key) && forall i :: 0 <= i < |fields| ==> fields[i].0 != key
    ensures Extract(File(fields), key, fallback, lo, hi) == fallback
  {
    hide AfterKey, Lines;
    FindsNothing(fields, key);
    FindSkips("{\n", Lines(fields), Quoted(key));
  }

  /** v is what the file's field of that key says, or the fallback if there is none or it is out of range. */
  ghost predicate Reads(v: int, fields: seq<(string, int)>, key: string, fallback: int, lo: int, hi: int) {
    && (forall i :: 0 <= i < |fields| && fields[i].0 == key ==>
          v == if lo <= fields[i].1 <= hi then fields[i].1 else fallback)
    && ((forall i :: 0 <= i < |fields| ==> fields[i].0 != key) ==> v == fallback)
  }

  lemma ExtractReadsField(fields: seq<(string, int)>, key: string, fallback: int, lo: int, hi: int)
    requires PlainAndDistinct(fields) && PlainKey(key)
    ensures Reads(Extract(File(fields), key, fallback, lo, hi), fields, key, fallback, lo, hi)
  {
    hide Extract, File, PlainAndDistinct;
    if i :| 0 <= i < |fields| && fields[i].0 == key {
      ExtractField(fields, i, fallback, lo, hi);
      OnlyField(fields, i);
    } else {
      ExtractMissing(fields, key, fallback, lo, hi);
    }
  }

  lemma OnlyField(fields: seq<(string, int)>, i: nat)
    requires PlainAndDistinct(fields) && i < |fields|
    ensures forall j :: 0 <= j < |fields| && fields[j].0 == fields[i].0 ==> j == i
  {
  }

  // ---------------------------------------------------------------- the eleven fields

  function Fields(s: TrainerState): (f: seq<(string, int)>)
    ensures |f| == 11
  {
    [("n_layer", s.nLayer), ("n_head", s.nHead), ("n_kv_head", s.nKvHead), ("n_embd", s.nEmbd),
     ("vocab_size", s.vocabSize), ("global_step", s.globalStep), ("consumed_train_samples", s.consumedTrainSamples),
     ("ddp_size", s.ddpSize), ("tp_size", s.tpSize), ("sp_size", s.spSize), ("pp_size", s.ppSize)]
  }

  /** Length, first and third character of a key. */
  function Shape(key: string): (nat, char, char) {
    if |key| < 3 then (0, ' ', ' ') else (|key|, key[0], key[2])
  }

  lemma KeyShapes(s: TrainerState)
    ensures Shape(Fields(s)[0].0) == (7, 'n', 'l') && PlainKey(Fields(s)[0].0)
    ensures Shape(Fields(s)[1].0) == (6, 'n', 'h') && PlainKey(Fields(s)[1].0)
    ensures Shape(Fields(s)[2].0) == (9, 'n', 'k') && PlainKey(Fields(s)[2].0)
    ensures Shape(Fields(s)[3].0) == (6, 'n', 'e') && PlainKey(Fields(s)[3].0)
    ensures Shape(Fields(s)[4].0) == (10, 'v', 'c') && PlainKey(Fields(s)[4].0)
    ensures Shape(Fields(s)[5].0) == (11, 'g', 'o') && PlainKey(Fields(s)[5].0)
  {
  }

  lemma MoreKeyShapes(s: TrainerState)
    ensures Shape(Fields(s)[6].0) == (22, 'c', 'n') && PlainKey(Fields(s)[6].0)
    ensures Shape(Fields(s)[7].0) == (8, 'd', 'p') && PlainKey(Fields(s)[7].0)
    ensures Shape(Fields(s)[8].0) == (7, 't', '_') && PlainKey(Fields(s)[8].0)
    ensures Shape(Fields(s)[9].0) == (7, 's', '_') && PlainKey(Fields(s)[9].0)
    ensures Shape(Fields(s)[10].0) == (7, 'p', '_') && PlainKey(Fields(s)[10].0)
  {
  }

  /** No two of the keys agree in length, first and third character. */
  lemma FieldsArePlainAndDistinct(s: TrainerState)
    ensures PlainAndDistinct(Fields(s))
  {
    hide Fields, PlainKey, Shape;
    KeyShapes(s);
    MoreKeyShapes(s);
    var f := Fields(s);
    assert forall i :: 0 <= i < 11 ==> PlainKey(f[i].0);
    assert forall i, j :: 0 <= i < j < 11 ==> Shape(f[i].0) != Shape(f[j].0);
  }

  /** LoadTrainerState on the contents of a file. */
  function Load(content: string): TrainerState {
    TrainerState(
      Extract(content, "n_layer", 0, MIN_64, MAX_64), Extract(content, "n_head", 0, MIN_64, MAX_64),
      Extract(content, "n_kv_head", 0, MIN_64, MAX_64), Extract(content, "n_embd", 0, MIN_64, MAX_64),
      Extract(content, "vocab_size", 0, MIN_64, MAX_64), Extract(content, "global_step", 0, MIN_64, MAX_64),
      Extract(content, "consumed_train_samples", 0, MIN_64, MAX_64), Extract(content, "ddp_size", 1, MIN_32, MAX_32),
      Extract(content, "tp_size", 1, MIN_32, MAX_32), Extract(content, "sp_size", 1, MIN_32, MAX_32),
      Extract(content, "pp_size", 1, MIN_32, MAX_32))
  }

  /** Loading undoes saving: all eleven fields, for all values of their types. */
  lemma LoadUndoesSave(s: TrainerState)
    requires InRange(s)
    ensures Load(File(Fields(s))) == s
  {
    hide Extract, File, PlainAndDistinct;
    var f := Fields(s);
    FieldsArePlainAndDistinct(s);
    ExtractField(f, 0, 0, MIN_64, MAX_64);
    ExtractField(f, 1, 0, MIN_64, MAX_64);
    ExtractField(f, 2, 0, MIN_64, MAX_64);
    ExtractField(f, 3, 0, MIN_64, MAX_64);
    ExtractField(f, 4, 0, MIN_64, MAX_64);
    ExtractField(f, 5, 0, MIN_64, MAX_64);
    ExtractField(f, 6, 0, MIN_64, MAX_64);
    ExtractField(f, 7, 1, MIN_32, MAX_32);
    ExtractField(f, 8, 1, MIN_32, MAX_32);
    ExtractField(f, 9, 1, MIN_32, MAX_32);
    ExtractField(f, 10, 1, MIN_32, MAX_32);
  }

  /**
   * Loading a file with any fields: each of the eleven is what the file says or, where it says nothing or
   * too much for the type, 0, or 1 for the four sizes.
   */
  lemma LoadReadsFields(fields: seq<(string, int)>)
    requires PlainAndDistinct(fields)
    ensures Reads(Load(File(fields)).nLayer, fields, "n_layer", 0, -0x8000_0000_0000_0000, 0x7fff_ffff_ffff_ffff)
    ensures Reads(Load(File(fields)).nHead, fields, "n_head", 0, -0x8000_0000_0000_0000, 0x7fff_ffff_ffff_ffff)
    ensures Reads(Load(File(fields)).nKvHead, fields, "n_kv_head", 0, -0x8000_0000_0000_0000, 0x7fff_ffff_ffff_ffff)
    ensures Reads(Load(File(fields)).nEmbd, fields, "n_embd", 0, -0x8000_0000_0000_0000, 0x7fff_ffff_ffff_ffff)
    ensures Reads(Load(File(fields)).vocabSize, fields, "vocab_size", 0, -0x8000_0000_0000_0000, 0x7fff_ffff_ffff_ffff)
    ensures Reads(Load(File(fields)).globalStep, fields, "global_step", 0, -0x8000_0000_0000_0000,
                  0x7fff_ffff_ffff_ffff)
    ensures Reads(Load(File(fields)).consumedTrainSamples, fields, "consumed_train_samples", 0, -0x8000_0000_0000_0000,
                  0x7fff_ffff_ffff_ffff)
    ensures Reads(Load(File(fields)).ddpSize, fields, "ddp_size", 1, -0x8000_0000, 0x7fff_ffff)
    ensures Reads(Load(File(fields)).tpSize, fields, "tp_size", 1, -0x8000_0000, 0x7fff_ffff)
    ensures Reads(Load(File(fields)).spSize, fields, "sp_size", 1, -0x8000_0000, 0x7fff_ffff)
    ensures Reads(Load(File(fields)).ppSize, fields, "pp_size", 1, -0x8000_0000, 0x7fff_ffff)
  {
    var s := TrainerState(0, 0, 0, 0, 0, 0, 0, 0, 0, 0, 0);
    FieldsArePlainAndDistinct(s);
    forall k, fallback: int, lo: int, hi: int | 0 <= k < 11
      ensures Reads(Extract(File(fields), Fields(s)[k].0, fallback, lo, hi), fields, Fields(s)[k].0, fallback, lo, hi)
    {
      ExtractReadsField(fields, Fields(s)[k].0, fallback, lo, hi);
    }
    hide Extract, File, PlainAndDistinct, Reads;
    assert Fields(s)[0].0 == "n_layer" && Fields(s)[1].0 == "n_head" && Fields(s)[2].0 == "n_kv_head";
    assert Fields(s)[3].0 == "n_embd" && Fields(s)[4].0 == "vocab_size" && Fields(s)[5].0 == "global_step";
    assert Fields(s)[6].0 == "consumed_train_samples" && Fields(s)[7].0 == "ddp_size";
    assert Fields(s)[8].0 == "tp_size" && Fields(s)[9].0 == "sp_size" && Fields(s)[10].0 == "pp_size";
  }

  // ---------------------------------------------------------------- the code

  method ExtractNumberField(content: string, key: string, fallback: int, lo: int, hi: int) returns (value: int)
    ensures value == Extract(content, key, fallback, lo, hi)
  {
    hide Find, ParseInt, SkipBlank, UntilStop;
    var token := "\"" + key + "\"";
    var keyPos := Find(content, token);
    if keyPos.None? {
      return fallback;
    }
    var colonPos := Find(content[keyPos.value..], ":");
    if colonPos.None? || keyPos.value + colonPos.value >= |content| {
      return fallback;
    }
    var valueStart := PastBlanks(content, keyPos.value + colonPos.value + 1);
    var valueEnd := PastValue(content, valueStart);
    var parsed := ParseInt(content[valueStart..valueEnd], lo, hi);
    value := if parsed.None? then fallback else parsed.value;
  }

  /** while (content[i] is ' ' or '\\n') ++i */
  method PastBlanks(content: string, start: nat) returns (i: nat)
    requires start <= |content|
    ensures start <= i <= |content| && content[i..] == SkipBlank(content[start..])
  {
    i := start;
    while i < |content| && (content[i] == ' ' || content[i] == '\n')
      invariant start <= i <= |content|
      invariant SkipBlank(content[i..]) == SkipBlank(content[start..])
    {
      assert content[i..][1..] == content[i + 1..];
      i := i + 1;
    }
  }

  /** while (content[i] is none of ',', '\\n', '}') ++i */
  method PastValue(content: string, start: nat) returns (i: nat)
    requires start <= |content|
    ensures start <= i <= |content| && content[start..i] == UntilStop(content[start..])
  {
    i := start;
    while i < |content| && content[i] != ',' && content[i] != '\n' && content[i] != '}'
      invariant start <= i <= |content|
      invariant content[start..i] + UntilStop(content[i..]) == UntilStop(content[start..])
    {
      assert content[i..][1..] == content[i + 1..];
      assert content[start..i + 1] == content[start..i] + [content[i]];
      Assoc(content[start..i], [content[i]], UntilStop(content[i + 1..]));
      i := i + 1;
    }
    assert UntilStop(content[i..]) == "";
  }

  /** ofs << "  \"key\": " << value << end */
  method Put(content: string, key: string, value: int, end: string) returns (r: string)
    ensures r == content + Line(key, value, end)
  {
    r := content + ("  \"" + key + "\": " + Numeral(value) + end);
  }

  lemma NextLine(fields: seq<(string, int)>, i: nat, content: string)
    requires i < |fields| && content + Lines(fields[i..]) == File(fields)
    ensures (content + Line(fields[i].0, fields[i].1, End(|fields|, i))) + Lines(fields[i + 1..]) == File(fields)
  {
    hide Line;
    assert fields[i..][1..] == fields[i + 1..];
  }

  method SaveTrainerState(s: TrainerState) returns (content: string)
    ensures content == File(Fields(s))
  {
    hide Line, Lines, File;
    ghost var fields := Fields(s);
    content := "{\n";
    Opened(fields);
    NextLine(fields, 0, content);
    content := Put(content, "n_layer", s.nLayer, ",\n");
    NextLine(fields, 1, content);
    content := Put(content, "n_head", s.nHead, ",\n");
    NextLine(fields, 2, content);
    content := Put(content, "n_kv_head", s.nKvHead, ",\n");
    NextLine(fields, 3, content);
    content := Put(content, "n_embd", s.nEmbd, ",\n");
    NextLine(fields, 4, content);
    content := Put(content, "vocab_size", s.vocabSize, ",\n");
    NextLine(fields, 5, content);
    content := Put(content, "global_step", s.globalStep, ",\n");
    NextLine(fields, 6, content);
    content := Put(content, "consumed_train_samples", s.consumedTrainSamples, ",\n");
    NextLine(fields, 7, content);
    content := Put(content, "ddp_size", s.ddpSize, ",\n");
    NextLine(fields, 8, content);
    content := Put(content, "tp_size", s.tpSize, ",\n");
    NextLine(fields, 9, content);
    content := Put(content, "sp_size", s.spSize, ",\n");
    NextLine(fields, 10, content);
    content := Put(content, "pp_size", s.ppSize, "\n");
    Closed(fields);
    content := content + "}\n";
  }

  /** A field more, given what is written before the end of the line before it. */
  lemma NextField(fields: seq<(string, int)>, k: nat, p: string, mid: string)
    requires 0 < k < |fields| && p + (End(|fields|, k - 1) + Lines(fields[k..])) == File(fields)
    requires mid == BetweenLines(fields[k].0)
    ensures (p + mid + Numeral(fields[k].1)) + (End(|fields|, k) + Lines(fields[k + 1..])) == File(fields)
  {
    hide Numeral, File;
    assert fields[k..][1..] == fields[k + 1..] && fields[k..][0] == fields[k];
    var n, e, rest := Numeral(fields[k].1), End(|fields|, k), Lines(fields[k + 1..]);
    assert Lines(fields[k..]) == Line(fields[k].0, fields[k].1, e) + rest;
    hide Lines;
    assert ",\n" + (("  \"" + fields[k].0 + "\": " + n + e) + rest) == mid + n + (e + rest);
    assert p + (mid + n + (e + rest)) == (p + mid + n) + (e + rest);
  }

  lemma FirstField(fields: seq<(string, int)>)
    requires fields != [] && fields[0].0 == "n_layer"
    ensures ("{\n  \"n_layer\": " + Numeral(fields[0].1)) + (End(|fields|, 0) + Lines(fields[1..])) == File(fields)
  {
    hide Numeral;
    var n, e, rest := Numeral(fields[0].1), End(|fields|, 0), Lines(fields[1..]);
    assert Lines(fields) == Line("n_layer", fields[0].1, e) + rest;
    assert "{\n" + (("  \"" + "n_layer" + "\": " + n + e) + rest) == "{\n  \"n_layer\": " + n + (e + rest);
  }

  /** From the end of a line to the number of the next. */
  function BetweenLines(key: string): string {
    ",\n  \"" + key + "\": "
  }

  lemma FieldLabels(s: TrainerState)
    ensures Fields(s)[1].1 == s.nHead && BetweenLines(Fields(s)[1].0) == ",\n  \"n_head\": "
    ensures Fields(s)[2].1 == s.nKvHead && BetweenLines(Fields(s)[2].0) == ",\n  \"n_kv_head\": "
    ensures Fields(s)[3].1 == s.nEmbd && BetweenLines(Fields(s)[3].0) == ",\n  \"n_embd\": "
    ensures Fields(s)[4].1 == s.vocabSize && BetweenLines(Fields(s)[4].0) == ",\n  \"vocab_size\": "
    ensures Fields(s)[5].1 == s.globalStep && BetweenLines(Fields(s)[5].0) == ",\n  \"global_step\": "
  {
  }

  lemma MoreFieldLabels(s: TrainerState)
    ensures Fields(s)[6].1 == s.consumedTrainSamples &&
            BetweenLines(Fields(s)[6].0) == ",\n  \"consumed_train_samples\": "
    ensures Fields(s)[7].1 == s.ddpSize && BetweenLines(Fields(s)[7].0) == ",\n  \"ddp_size\": "
    ensures Fields(s)[8].1 == s.tpSize && BetweenLines(Fields(s)[8].0) == ",\n  \"tp_size\": "
    ensures Fields(s)[9].1 == s.spSize && BetweenLines(Fields(s)[9].0) == ",\n  \"sp_size\": "
    ensures Fields(s)[10].1 == s.ppSize && BetweenLines(Fields(s)[10].0) == ",\n  \"pp_size\": "
  {
  }

  /** What stands before each of the eleven numbers. */
  const LABELS: seq<string> := [
    "{\n  \"n_layer\": ", ",\n  \"n_head\": ", ",\n  \"n_kv_head\": ", ",\n  \"n_embd\": ",
    ",\n  \"vocab_size\": ", ",\n  \"global_step\": ", ",\n  \"consumed_train_samples\": ",
    ",\n  \"ddp_size\": ", ",\n  \"tp_size\": ", ",\n  \"sp_size\": ", ",\n  \"pp_size\": "]

  /** Labels and numbers in turn. */
  function InTurn(labels: seq<string>, numbers: seq<int>): string
    requires |labels| == |numbers|
  {
    if labels == [] then ""
    else
      var k := |labels| - 1;
      InTurn(labels[..k], numbers[..k]) + labels[k] + Numeral(numbers[k])
  }

  lemma {:induction false} FieldsInTurn(fields: seq<(string, int)>, labels: seq<string>, numbers: seq<int>, k: nat)
    requires k < |fields| == |labels| == |numbers| && fields[0].0 == "n_layer" && labels[0] == "{\n  \"n_layer\": "
    requires forall i :: 0 <= i < |fields| ==> numbers[i] == fields[i].1
    requires forall i :: 0 < i < |fields| ==> labels[i] == BetweenLines(fields[i].0)
    ensures InTurn(labels[..k + 1], numbers[..k + 1]) + (End(|fields|, k) + Lines(fields[k + 1..])) == File(fields)
  {
    hide Numeral, File, Lines, BetweenLines;
    assert labels[..k + 1][..k] == labels[..k] && numbers[..k + 1][..k] == numbers[..k];
    if k == 0 {
      FirstField(fields);
      assert InTurn(labels[..1], numbers[..1]) == "" + labels[0] + Numeral(numbers[0]);
    } else {
      FieldsInTurn(fields, labels, numbers, k - 1);
      NextField(fields, k, InTurn(labels[..k], numbers[..k]), labels[k]);
    }
  }

  /** The text of the file. */
  lemma FileWrittenOut(s: TrainerState)
    ensures var numbers := [s.nLayer, s.nHead, s.nKvHead, s.nEmbd, s.vocabSize, s.globalStep, s.consumedTrainSamples,
                            s.ddpSize, s.tpSize, s.spSize, s.ppSize];
            File(Fields(s)) == InTurn(LABELS, numbers) + "\n}\n"
  {
    var labels := LABELS;
    var f, numbers := Fields(s), [s.nLayer, s.nHead, s.nKvHead, s.nEmbd, s.vocabSize, s.globalStep,
                                  s.consumedTrainSamples, s.ddpSize, s.tpSize, s.spSize, s.ppSize];
    FieldLabels(s);
    MoreFieldLabels(s);
    hide Numeral, File, Lines, BetweenLines, InTurn;
    FieldsInTurn(f, labels, numbers, 10);
    Closed(f);
    assert f[11..] == f[|f|..] && labels[..11] == labels && numbers[..11] == numbers;
    assert "\n" + "}\n" == "\n}\n";
  }

  lemma Opened(fields: seq<(string, int)>)
    ensures "{\n" + Lines(fields[0..]) == File(fields)
  {
    assert fields[0..] == fields;
  }

  lemma Closed(fields: seq<(string, int)>)
    ensures Lines(fields[|fields|..]) == "}\n"
  {
  }

  method LoadTrainerState(content: string) returns (s: TrainerState)
    ensures s == Load(content)
  {
    hide Extract;
    var nLayer := ExtractNumberField(content, "n_layer", 0, MIN_64, MAX_64);
    var nHead := ExtractNumberField(content, "n_head", 0, MIN_64, MAX_64);
    var nKvHead := ExtractNumberField(content, "n_kv_head", 0, MIN_64, MAX_64);
    var nEmbd := ExtractNumberField(content, "n_embd", 0, MIN_64, MAX_64);
    var vocabSize := ExtractNumberField(content, "vocab_size", 0, MIN_64, MAX_64);
    var globalStep := ExtractNumberField(content, "global_step", 0, MIN_64, MAX_64);
    var consumed := ExtractNumberField(content, "consumed_train_samples", 0, MIN_64, MAX_64);
    var ddpSize := ExtractNumberField(content, "ddp_size", 1, MIN_32, MAX_32);
    var tpSize := ExtractNumberField(content, "tp_size", 1, MIN_32, MAX_32);
    var spSize := ExtractNumberField(content, "sp_size", 1, MIN_32, MAX_32);
    var ppSize := ExtractNumberField(content, "pp_size", 1, MIN_32, MAX_32);
    s := TrainerState(nLayer, nHead, nKvHead, nEmbd, vocabSize, globalStep, consumed, ddpSize, tpSize, spSize, ppSize);
  }

  /** Save and load: all eleven fields come back. */
  method ThroughFile(s: TrainerState) returns (r: TrainerState)
    requires InRange(s)
    ensures r == s
  {
    hide Load, File, Fields, InRange;
    var content := SaveTrainerState(s);
    LoadUndoesSave(s);
    r := LoadTrainerState(content);
  }
}
