/** The source-range check of scripts/curriculum-evidence.ts: displayed fragments claim byte
    ranges of one source file, and the ranges may not overlap. */
module SourceRanges {
  import opened Json

  const BOUND: nat := 4 * 1024 * 1024
  const MAX_RANGES: nat := 64
  const OFFSET_KEY: Text := Units("byteOffset")
  const LENGTH_KEY: Text := Units("byteLength")

  /** Bytes of a text in UTF-8; a lone surrogate becomes the three-byte replacement character. */
  function Utf8Length(s: Text): nat {
    if s == [] then 0
    else if PairAt(s) then 4 + Utf8Length(s[2..])
    else (if s[0] < 0x80 then 1 else if s[0] < 0x800 then 2 else 3) + Utf8Length(s[1..])
  }

  datatype Interval = Interval(start: nat, stop: nat)

  predicate Disjoint(a: Interval, b: Interval) { b.stop <= a.start || b.start >= a.stop }

  /** Disjoint ranges, neither of them empty, are those without a common byte. */
  lemma DisjointIff(a: Interval, b: Interval)
    requires a.start < a.stop && b.start < b.stop
    ensures Disjoint(a, b) <==> forall p: nat {:trigger InInterval(a, p)} :: InInterval(a, p) ==> !InInterval(b, p)
  {
    var p := if a.start < b.start then b.start else a.start;
    assert Disjoint(a, b) || (InInterval(a, p) && InInterval(b, p));
  }

  predicate InInterval(x: Interval, p: nat) { x.start <= p < x.stop }

  // ---- What acceptance should mean ----

  /** A range object: exactly the two fields, in either order. A number in bounds is printed as a
      plain decimal; any other number is out of bounds. */
  function FieldsOf(value: Json): (int, int, bool) {
    if value.Obj? && |value.fields| == 2 && value.fields[0].value.Number? && value.fields[1].value.Number? then
      var f, g := value.fields[0], value.fields[1];
      var first, second := IntegerOf(f.value.token), IntegerOf(g.value.token);
      if f.key == OFFSET_KEY && g.key == LENGTH_KEY then (first, second, true)
      else if f.key == LENGTH_KEY && g.key == OFFSET_KEY then (second, first, true)
      else (0, 0, false)
    else (0, 0, false)
  }

  predicate RangeOk(value: Json, fragment: Text, wholeFile: bool) {
    var (offset, length, ok) := FieldsOf(value);
    && ok && 0 <= offset <= BOUND && 1 <= length <= BOUND - offset
    && (wholeFile ==> offset == 0) && Utf8Length(fragment) == length
  }

  /** Spelled out: a range object holds a byte offset and a byte length and nothing else. */
  function RangeObject(offset: Token, length: Token, lengthFirst: bool): Json {
    var o, n := Field(Units("byteOffset"), Number(offset)), Field(Units("byteLength"), Number(length));
    Obj(if lengthFirst then [n, o] else [o, n])
  }

  lemma KeysApart()
    ensures OFFSET_KEY != LENGTH_KEY && OFFSET_KEY == Units("byteOffset") && LENGTH_KEY == Units("byteLength")
  {
    assert OFFSET_KEY[4] == 'O' as int && LENGTH_KEY[4] == 'L' as int;
  }

  lemma RangeIs(offset: Token, length: Token, lengthFirst: bool, fragment: Text, wholeFile: bool)
    ensures RangeOk(RangeObject(offset, length, lengthFirst), fragment, wholeFile) <==>
      && 0 <= IntegerOf(offset) <= 4_194_304 && 1 <= IntegerOf(length) <= 4_194_304 - IntegerOf(offset)
      && (wholeFile ==> IntegerOf(offset) == 0) && Utf8Length(fragment) == IntegerOf(length)
    ensures RangeOk(RangeObject(offset, length, lengthFirst), fragment, wholeFile) ==>
      IntervalOf(RangeObject(offset, length, lengthFirst)) ==
        Interval(IntegerOf(offset), IntegerOf(offset) + IntegerOf(length))
  {
    KeysApart();
    hide IntegerOf, Units;
  }

  lemma RangeHas(value: Json, fragment: Text, wholeFile: bool) returns (offset: Token, length: Token, lengthFirst: bool)
    requires RangeOk(value, fragment, wholeFile)
    ensures value == RangeObject(offset, length, lengthFirst)
  {
    KeysApart();
    hide IntegerOf, Units;
    var f, g := value.fields[0], value.fields[1];
    lengthFirst := f.key == LENGTH_KEY;
    offset := if lengthFirst then g.value.token else f.value.token;
    length := if lengthFirst then f.value.token else g.value.token;
    assert value.fields == [f, g];
  }

  /** Spelled out: one byte below 0x80, two below 0x800, four for a surrogate pair, else three. */
  lemma Utf8Is(c: Unit, d: Unit, s: Text)
    ensures Utf8Length([]) == 0
    ensures c < 0x80 ==> Utf8Length([c] + s) == 1 + Utf8Length(s)
    ensures 0x80 <= c < 0x800 ==> Utf8Length([c] + s) == 2 + Utf8Length(s)
    ensures 0xd800 <= c < 0xdc00 <= d < 0xe000 ==> Utf8Length([c, d] + s) == 4 + Utf8Length(s)
    ensures c >= 0x800 && !(0xd800 <= c < 0xdc00 && s != [] && 0xdc00 <= s[0] < 0xe000) ==>
      Utf8Length([c] + s) == 3 + Utf8Length(s)
  {
    assert ([c] + s)[1..] == s && ([c, d] + s)[2..] == s;
  }

  function IntervalOf(value: Json): Interval {
    var (offset, length, ok) := FieldsOf(value);
    if ok && offset >= 0 && length >= 0 then Interval(offset, offset + length) else Interval(0, 0)
  }

  predicate Acceptable(ranges: Json, fragments: seq<Text>, wholeFile: bool) {
    && ranges.Arr? && |ranges.items| <= MAX_RANGES && |ranges.items| == |fragments|
    && (forall i :: 0 <= i < |fragments| ==> RangeOk(ranges.items[i], fragments[i], wholeFile))
    && (forall i, j :: 0 <= i < j < |fragments| ==> Disjoint(IntervalOf(ranges.items[i]), IntervalOf(ranges.items[j])))
  }

  // ---- The check ----

  /** Main result: each new range is compared with those before it, and the whole list is
      accepted exactly when every range fits its fragment and no two overlap anywhere. */
  method Validate(ranges: Json, fragments: seq<Text>, wholeFile: bool) returns (ok: bool, intervals: seq<Interval>)
    ensures ok <==> Acceptable(ranges, fragments, wholeFile)
    ensures ok <==>
      && ranges.Arr? && |ranges.items| <= 64 && |ranges.items| == |fragments|
      && (forall i :: 0 <= i < |fragments| ==> RangeOk(ranges.items[i], fragments[i], wholeFile))
      && (forall i, j :: 0 <= i < j < |fragments| ==>
            Disjoint(IntervalOf(ranges.items[i]), IntervalOf(ranges.items[j])))
    ensures ok ==>
      |intervals| == |fragments| && forall i :: 0 <= i < |fragments| ==> intervals[i] == IntervalOf(ranges.items[i])
  {
    hide RangeOk, FieldsOf;
    intervals := [];
    if !ranges.Arr? || |ranges.items| > MAX_RANGES { return false, intervals; }
    if |ranges.items| != |fragments| { return false, intervals; }
    for index := 0 to |fragments|
      invariant |intervals| == index && forall i :: 0 <= i < index ==> intervals[i] == IntervalOf(ranges.items[i])
      invariant forall i :: 0 <= i < index ==> RangeOk(ranges.items[i], fragments[i], wholeFile)
      invariant forall i, j :: 0 <= i < j < index ==> Disjoint(intervals[i], intervals[j])
    {
      if !RangeOk(ranges.items[index], fragments[index], wholeFile) { return false, intervals; }
      var next := IntervalOf(ranges.items[index]);
      for k := 0 to index
        invariant forall i :: 0 <= i < k ==> Disjoint(intervals[i], next)
      {
        if !(next.stop <= intervals[k].start || next.start >= intervals[k].stop) { return false, intervals; }
      }
      intervals := intervals + [next];
    }
    return true, intervals;
  }

  // ---- Packing ----

  /** The bytes from a up to b. */
  function Span(a: nat, b: nat): (r: set<nat>)
    ensures forall p :: p in r <==> a <= p < b
    ensures a <= b ==> |r| == b - a
    decreases b - a
  { if a >= b then {} else Span(a, b - 1) + {b - 1} }

  function Covered(s: seq<Interval>): set<nat> {
    if s == [] then {} else Covered(s[..|s| - 1]) + Span(s[|s| - 1].start, s[|s| - 1].stop)
  }

  function Total(s: seq<Interval>): int {
    if s == [] then 0 else Total(s[..|s| - 1]) + (s[|s| - 1].stop - s[|s| - 1].start)
  }

  lemma {:induction false} CoveredApart(s: seq<Interval>, x: Interval)
    requires forall i :: 0 <= i < |s| ==> Disjoint(s[i], x)
    ensures Covered(s) !! Span(x.start, x.stop)
  {
    if s != [] { CoveredApart(s[..|s| - 1], x); }
  }

  lemma {:induction false} CoveredWithin(s: seq<Interval>, bound: nat)
    requires forall i :: 0 <= i < |s| ==> s[i].stop <= bound
    ensures Covered(s) <= Span(0, bound)
  {
    if s != [] { CoveredWithin(s[..|s| - 1], bound); }
  }

  /** Disjoint intervals cover as many bytes as their lengths add up to. */
  lemma {:induction false} CoveredSize(s: seq<Interval>)
    requires forall i :: 0 <= i < |s| ==> s[i].start <= s[i].stop
    requires forall i, j :: 0 <= i < j < |s| ==> Disjoint(s[i], s[j])
    ensures |Covered(s)| == Total(s)
  {
    if s != [] {
      var init, x := s[..|s| - 1], s[|s| - 1];
      CoveredSize(init);
      CoveredApart(init, x);
    }
  }

  lemma {:induction false} SubsetSize(a: set<nat>, b: set<nat>)
    requires a <= b
    ensures |a| <= |b|
  {
    if a != {} {
      var x :| x in a;
      SubsetSize(a - {x}, b - {x});
    }
  }

  /** Disjoint intervals below a bound have at most that much length in all. */
  lemma Packing(s: seq<Interval>, bound: nat)
    requires forall i :: 0 <= i < |s| ==> s[i].start <= s[i].stop <= bound
    requires forall i, j :: 0 <= i < j < |s| ==> Disjoint(s[i], s[j])
    ensures Total(s) <= bound
  {
    CoveredSize(s);
    CoveredWithin(s, bound);
    SubsetSize(Covered(s), Span(0, bound));
  }

  function TotalBytes(fragments: seq<Text>): nat {
    if fragments == [] then 0 else TotalBytes(fragments[..|fragments| - 1]) + Utf8Length(fragments[|fragments| - 1])
  }

  function Intervals(values: seq<Json>): (r: seq<Interval>)
    ensures |r| == |values| && forall i :: 0 <= i < |r| ==> r[i] == IntervalOf(values[i])
  { seq(|values|, i requires 0 <= i < |values| => IntervalOf(values[i])) }

  lemma RangeFacts(value: Json, fragment: Text, wholeFile: bool)
    requires RangeOk(value, fragment, wholeFile)
    ensures var x := IntervalOf(value);
      x.start < x.stop <= BOUND && x.stop - x.start == Utf8Length(fragment) && (wholeFile ==> x.start == 0)
  {
  }

  lemma {:induction false} LengthsAgree(s: seq<Interval>, fragments: seq<Text>)
    requires |s| == |fragments| && forall i :: 0 <= i < |s| ==> s[i].stop - s[i].start == Utf8Length(fragments[i])
    ensures Total(s) == TotalBytes(fragments)
  {
    hide Utf8Length;
    if s != [] { LengthsAgree(s[..|s| - 1], fragments[..|s| - 1]); }
  }

  /** Main result: accepted fragments are at most 4 MiB long together. */
  lemma AcceptedFits(ranges: Json, fragments: seq<Text>, wholeFile: bool)
    requires Acceptable(ranges, fragments, wholeFile)
    ensures TotalBytes(fragments) <= BOUND && |fragments| <= MAX_RANGES
  {
    var s := Intervals(ranges.items);
    forall i | 0 <= i < |s|
      ensures s[i].start < s[i].stop <= BOUND && s[i].stop - s[i].start == Utf8Length(fragments[i])
    {
      RangeFacts(ranges.items[i], fragments[i], wholeFile);
    }
    hide RangeOk, IntervalOf, Utf8Length;
    Packing(s, BOUND);
    LengthsAgree(s, fragments);
  }

  /** Main result: every fragment has at least one byte of the file, below 4 MiB, and no byte
      is claimed by two fragments. */
  lemma NoByteTwice(ranges: Json, fragments: seq<Text>, wholeFile: bool, i: nat, j: nat, p: nat)
    requires Acceptable(ranges, fragments, wholeFile) && i < |fragments| && j < |fragments| && i != j
    ensures var x, y := IntervalOf(ranges.items[i]), IntervalOf(ranges.items[j]);
      && x.start in Span(x.start, x.stop) && |Span(x.start, x.stop)| == Utf8Length(fragments[i])
      && (p in Span(x.start, x.stop) ==> p < BOUND && p !in Span(y.start, y.stop))
  {
    RangeFacts(ranges.items[i], fragments[i], wholeFile);
    RangeFacts(ranges.items[j], fragments[j], wholeFile);
    hide RangeOk, IntervalOf, Utf8Length;
    var x, y := IntervalOf(ranges.items[i]), IntervalOf(ranges.items[j]);
    assert Disjoint(x, y) || Disjoint(y, x);
  }
}
