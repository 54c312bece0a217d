/** Splitting a source into marked and plain pieces (SourceText in
    src/components/AuthoringNavigation.tsx). */
module SourceText {
  type Byte = x: int | 0 <= x < 256

  datatype Range = Range(start: nat, end: nat)

  datatype Segment = Segment(start: nat, end: nat, content: seq<Byte>, marked: bool)

  /** What the projection guarantees of the ranges it retains. */
  predicate InSource(ranges: seq<Range>, n: nat) {
    forall i :: 0 <= i < |ranges| ==> ranges[i].start <= ranges[i].end <= n
  }

  // ---- Endpoints: a set, then ascending ----

  predicate Ascending(s: seq<nat>) { forall i, j :: 0 <= i < j < |s| ==> s[i] < s[j] }

  function Insert(x: nat, s: seq<nat>): seq<nat> {
    if s == [] || x < s[0] then [x] + s else if x == s[0] then s else [s[0]] + Insert(x, s[1..])
  }

  lemma ConsAscending(x: nat, s: seq<nat>)
    requires Ascending(s) && (s != [] ==> x < s[0])
    ensures Ascending([x] + s)
  {
    forall i, j | 0 <= i < j < |s| + 1 ensures ([x] + s)[i] < ([x] + s)[j] {
      if i == 0 && j > 1 { assert s[0] < s[j - 1]; }
    }
  }

  lemma {:induction false} InsertKeeps(x: nat, s: seq<nat>)
    requires Ascending(s)
    ensures Ascending(Insert(x, s)) && forall y :: y in Insert(x, s) <==> y == x || y in s
    ensures Insert(x, s)[0] == if s == [] || x < s[0] then x else s[0]
  {
    if s != [] {
      assert Ascending(s[1..]) && (|s| > 1 ==> s[0] < s[1]);
      assert forall y :: y in s <==> y == s[0] || y in s[1..];
      hide Ascending;
      if x < s[0] {
        ConsAscending(x, s);
      } else if x > s[0] {
        InsertKeeps(x, s[1..]);
        ConsAscending(s[0], Insert(x, s[1..]));
      }
    }
  }

  function Endpoints(n: nat, ranges: seq<Range>): seq<nat> {
    if ranges == [] then Insert(0, Insert(n, []))
    else
      var last := ranges[|ranges| - 1];
      Insert(last.start, Insert(last.end, Endpoints(n, ranges[..|ranges| - 1])))
  }

  predicate IsEndpoint(n: nat, ranges: seq<Range>, x: nat) {
    x == 0 || x == n || exists i :: 0 <= i < |ranges| && (x == ranges[i].start || x == ranges[i].end)
  }

  lemma {:induction false} EndpointsAre(n: nat, ranges: seq<Range>)
    ensures Ascending(Endpoints(n, ranges))
    ensures forall x :: x in Endpoints(n, ranges) <==> IsEndpoint(n, ranges, x)
  {
    if ranges == [] {
      InsertKeeps(n, []);
      InsertKeeps(0, Insert(n, []));
    } else {
      var init, last := ranges[..|ranges| - 1], ranges[|ranges| - 1];
      EndpointsAre(n, init);
      InsertKeeps(last.end, Endpoints(n, init));
      InsertKeeps(last.start, Insert(last.end, Endpoints(n, init)));
      forall x: nat ensures IsEndpoint(n, ranges, x) <==> x == last.start || x == last.end || IsEndpoint(n, init, x) {
        EndpointGrows(n, init, last, x);
        assert ranges == init + [last];
      }
    }
  }

  lemma EndpointGrows(n: nat, init: seq<Range>, last: Range, x: nat)
    ensures IsEndpoint(n, init + [last], x) <==> x == last.start || x == last.end || IsEndpoint(n, init, x)
  {
    var all := init + [last];
    assert all[|init|] == last && forall i :: 0 <= i < |init| ==> all[i] == init[i];
  }

  /** The endpoints run from 0 to the source's length. */
  lemma EndpointsSpan(n: nat, ranges: seq<Range>)
    requires InSource(ranges, n)
    ensures var e := Endpoints(n, ranges); e != [] && Ascending(e) && e[0] == 0 && e[|e| - 1] == n
  {
    EndpointsAre(n, ranges);
    var e := Endpoints(n, ranges);
    hide Endpoints;
    assert IsEndpoint(n, ranges, 0) && IsEndpoint(n, ranges, n);
    assert 0 in e && n in e;
    assert e[|e| - 1] in e && e[0] in e;
    assert e[|e| - 1] <= n;
  }

  lemma StepWithin(e: seq<nat>, n: nat, i: nat)
    requires Ascending(e) && i + 1 < |e| && e[|e| - 1] == n
    ensures e[i] < e[i + 1] <= n
  {
  }

  // ---- Segments ----

  /** Some retained range overlaps the piece. */
  predicate Overlaps(ranges: seq<Range>, start: nat, end: nat) {
    exists i :: 0 <= i < |ranges| && ranges[i].start < end && start < ranges[i].end
  }

  /** A slice, clamped to the source. */
  function Slice(source: seq<Byte>, start: nat, end: nat): seq<Byte> {
    var stop := if end < |source| then end else |source|;
    if start < stop then source[start..stop] else []
  }

  function Piece(source: seq<Byte>, ranges: seq<Range>, start: nat, end: nat): Segment {
    Segment(start, end, Slice(source, start, end), Overlaps(ranges, start, end))
  }

  function Pieces(source: seq<Byte>, ranges: seq<Range>, e: seq<nat>): (r: seq<Segment>)
    ensures |r| == if e == [] then 0 else |e| - 1
    ensures forall i {:trigger r[i]} :: 0 <= i < |r| ==> r[i] == Piece(source, ranges, e[i], e[i + 1])
  {
    if |e| < 2 then [] else
      assert forall i {:trigger e[1..][i]} :: 0 <= i < |e| - 1 ==> e[1..][i] == e[i + 1];
      [Piece(source, ranges, e[0], e[1])] + Pieces(source, ranges, e[1..])
  }

  function Segments(source: seq<Byte>, ranges: seq<Range>): seq<Segment> {
    Pieces(source, ranges, Endpoints(|source|, ranges))
  }

  lemma SegmentAt(source: seq<Byte>, ranges: seq<Range>, i: nat)
    requires InSource(ranges, |source|) && i + 1 < |Endpoints(|source|, ranges)|
    ensures var e := Endpoints(|source|, ranges);
      && |Segments(source, ranges)| == |e| - 1 && e[i] < e[i + 1] <= |source|
      && Segments(source, ranges)[i] ==
         Segment(e[i], e[i + 1], source[e[i]..e[i + 1]], Overlaps(ranges, e[i], e[i + 1]))
  {
    hide Endpoints, Overlaps, Ascending, Pieces;
    var e := Endpoints(|source|, ranges);
    EndpointsSpan(|source|, ranges);
    StepWithin(e, |source|, i);
    assert Segments(source, ranges)[i] == Piece(source, ranges, e[i], e[i + 1]);
  }

  function Joined(s: seq<Segment>): seq<Byte> { if s == [] then [] else Joined(s[..|s| - 1]) + s[|s| - 1].content }

  lemma JoinedGrows(s: seq<Segment>)
    ensures Joined(s) == if s == [] then [] else Joined(s[..|s| - 1]) + s[|s| - 1].content
  {
  }

  lemma SegmentCount(source: seq<Byte>, ranges: seq<Range>)
    requires InSource(ranges, |source|)
    ensures Endpoints(|source|, ranges) != [] && |Segments(source, ranges)| == |Endpoints(|source|, ranges)| - 1
    ensures var e := Endpoints(|source|, ranges); e[0] == 0 && e[|e| - 1] == |source|
  {
    EndpointsSpan(|source|, ranges);
  }

  lemma {:induction false} PrefixJoins(source: seq<Byte>, ranges: seq<Range>, k: nat)
    requires InSource(ranges, |source|) && k < |Endpoints(|source|, ranges)|
    ensures |Segments(source, ranges)| == |Endpoints(|source|, ranges)| - 1
    ensures Endpoints(|source|, ranges)[k] <= |source|
    ensures Joined(Segments(source, ranges)[..k]) == source[..Endpoints(|source|, ranges)[k]]
  {
    hide *;
    SegmentCount(source, ranges);
    var e, s := Endpoints(|source|, ranges), Segments(source, ranges);
    JoinedGrows(s[..k]);
    if k > 0 {
      PrefixJoins(source, ranges, k - 1);
      SegmentAt(source, ranges, k - 1);
      assert s[..k][..k - 1] == s[..k - 1];
      assert source[..e[k]] == source[..e[k - 1]] + source[e[k - 1]..e[k]];
    }
  }

  /** Main result: the pieces are nonempty and put together are the whole source. */
  lemma SegmentsJoin(source: seq<Byte>, ranges: seq<Range>)
    requires InSource(ranges, |source|)
    ensures Joined(Segments(source, ranges)) == source
    ensures forall i :: 0 <= i < |Segments(source, ranges)| ==>
      var piece := Segments(source, ranges)[i]; piece.content != [] && |piece.content| == piece.end - piece.start
  {
    hide *;
    SegmentCount(source, ranges);
    var e, s := Endpoints(|source|, ranges), Segments(source, ranges);
    PrefixJoins(source, ranges, |e| - 1);
    assert s[..|e| - 1] == s && source[..|source|] == source;
    forall i | 0 <= i < |s| ensures s[i].content != [] && |s[i].content| == s[i].end - s[i].start {
      SegmentAt(source, ranges, i);
    }
  }

  /** Main result: a byte is displayed marked exactly when some retained range contains it. */
  lemma MarkedIff(source: seq<Byte>, ranges: seq<Range>, i: nat, p: nat)
    requires InSource(ranges, |source|) && i < |Segments(source, ranges)|
    requires Segments(source, ranges)[i].start <= p < Segments(source, ranges)[i].end
    ensures var s := Segments(source, ranges)[i];
      |s.content| == s.end - s.start && s.end <= |source| && s.content[p - s.start] == source[p]
    ensures Segments(source, ranges)[i].marked <==>
      exists k :: 0 <= k < |ranges| && ranges[k].start <= p < ranges[k].end
  {
    var e, s := Endpoints(|source|, ranges), Segments(source, ranges);
    EndpointsAre(|source|, ranges);
    SegmentAt(source, ranges, i);
    hide Endpoints, Segments;
    forall k | 0 <= k < |ranges|
      ensures ranges[k].start < s[i].end && s[i].start < ranges[k].end <==> ranges[k].start <= p < ranges[k].end
    {
      assert IsEndpoint(|source|, ranges, ranges[k].start) && IsEndpoint(|source|, ranges, ranges[k].end);
      Apart(e, i, ranges[k].start);
      Apart(e, i, ranges[k].end);
    }
  }

  /** No endpoint falls strictly inside a piece. */
  lemma Apart(e: seq<nat>, i: nat, x: nat)
    requires Ascending(e) && i + 1 < |e| && x in e
    ensures x <= e[i] || x >= e[i + 1]
  {
  }
}
