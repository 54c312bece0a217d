/** Order statistics of the evidence analyzer (perf-evidence/analyze.py) over exact reals:
    interpolated percentiles and medians of any finite sequence. */
module Statistics {
  datatype Failure = EmptyData | IndexOutOfRange | DivisionByZero | DuplicatePair | ManyLaunches

  datatype Result<+T> = Ok(value: T) | Err(error: Failure)

  // ---- Sorting ----

  predicate Sorted(s: seq<real>) { forall i, j :: 0 <= i <= j < |s| ==> s[i] <= s[j] }

  function Insert(x: real, s: seq<real>): (r: seq<real>)
    ensures multiset(r) == multiset(s) + multiset{x} && |r| == |s| + 1
  {
    if s == [] then [x]
    else if x <= s[0] then [x] + s
    else
      assert s == [s[0]] + s[1..];
      [s[0]] + Insert(x, s[1..])
  }

  lemma ConsSorted(a: real, t: seq<real>)
    requires Sorted(t) && (t == [] || a <= t[0])
    ensures Sorted([a] + t)
  {
    forall i, j | 0 <= i <= j < |t| + 1 ensures ([a] + t)[i] <= ([a] + t)[j] {
      if i == 0 && j > 0 { assert t[0] <= t[j - 1]; }
    }
  }

  lemma {:induction false} InsertSorted(x: real, s: seq<real>)
    requires Sorted(s)
    ensures Sorted(Insert(x, s))
    ensures Insert(x, s)[0] == if s == [] || x <= s[0] then x else s[0]
  {
    if s != [] {
      assert Sorted(s[1..]) && (|s| > 1 ==> s[0] <= s[1]);
      hide Sorted;
      if x <= s[0] {
        ConsSorted(x, s);
      } else {
        InsertSorted(x, s[1..]);
        ConsSorted(s[0], Insert(x, s[1..]));
      }
    }
  }

  lemma SameMembers(a: seq<real>, b: seq<real>)
    requires multiset(a) == multiset(b)
    ensures |a| == |b| && forall y :: y in a <==> y in b
  {
    assert forall y :: y in a <==> y in multiset(a);
    assert |multiset(a)| == |a| && |multiset(b)| == |b|;
  }

  /** Ascending order, as the library's sort leaves it. */
  function Sort(s: seq<real>): (r: seq<real>)
    ensures multiset(r) == multiset(s) && |r| == |s|
  {
    if s == [] then []
    else
      assert s == [s[0]] + s[1..];
      Insert(s[0], Sort(s[1..]))
  }

  lemma {:induction false} SortSorts(s: seq<real>)
    ensures Sorted(Sort(s))
    ensures forall y :: y in Sort(s) <==> y in s
  {
    hide Insert;
    SameMembers(Sort(s), s);
    if s != [] {
      SortSorts(s[1..]);
      InsertSorted(s[0], Sort(s[1..]));
    }
  }

  lemma LeastFirst(s: seq<real>, y: real)
    requires Sorted(s) && y in s
    ensures Sorted(s[1..]) && s[0] <= y
  {
  }

  lemma Without(s: seq<real>)
    requires s != []
    ensures multiset(s[1..]) == multiset(s) - multiset{s[0]}
  {
    assert s == [s[0]] + s[1..];
  }

  lemma HeadAndTail(a: seq<real>, b: seq<real>)
    requires a != [] && b != [] && a[0] == b[0] && a[1..] == b[1..]
    ensures a == b
  {
    assert a == [a[0]] + a[1..] && b == [b[0]] + b[1..];
  }

  lemma SameLeast(a: seq<real>, b: seq<real>)
    requires Sorted(a) && Sorted(b) && a != [] && multiset(a) == multiset(b)
    ensures |a| == |b| && a[0] == b[0] && Sorted(a[1..]) && Sorted(b[1..])
  {
    SameMembers(a, b);
    assert a[0] in b && b[0] in a;
    LeastFirst(a, b[0]);
    LeastFirst(b, a[0]);
  }

  /** A sorted arrangement of given values is unique. */
  lemma {:induction false} SortedIsUnique(a: seq<real>, b: seq<real>)
    requires Sorted(a) && Sorted(b) && multiset(a) == multiset(b)
    ensures a == b
  {
    hide Sorted;
    if a == [] {
      SameMembers(a, b);
    } else {
      SameLeast(a, b);
      Without(a);
      Without(b);
      SortedIsUnique(a[1..], b[1..]);
      HeadAndTail(a, b);
    }
  }

  lemma SortPermutes(a: seq<real>, b: seq<real>)
    requires multiset(a) == multiset(b)
    ensures Sort(a) == Sort(b)
  {
    SortSorts(a);
    SortSorts(b);
    SortedIsUnique(Sort(a), Sort(b));
  }

  // ---- Percentiles ----

  function Ceiling(x: real): int { -((-x).Floor) }

  /** Python indexing: negative positions count from the end. */
  function At(s: seq<real>, i: int): Result<real> {
    if 0 <= i < |s| then Ok(s[i]) else if -|s| <= i < 0 then Ok(s[|s| + i]) else Err(IndexOutOfRange)
  }

  /** Linear interpolation, as the analyzer writes it. */
  function Mix(a: real, b: real, fraction: real): real { a * (1.0 - fraction) + b * fraction }

  function Position(n: nat, probability: real): real { Times((n - 1) as real, probability) }

  function Interpolate(ordered: seq<real>, position: real): Result<real> {
    var lower, upper := position.Floor, Ceiling(position);
    if lower == upper then At(ordered, lower)
    else
      match (At(ordered, lower), At(ordered, upper))
      case (Ok(a), Ok(b)) => Ok(Mix(a, b, position - lower as real))
      case (Err(e), _) => Err(e)
      case (_, Err(e)) => Err(e)
  }

  function Percentile(values: seq<real>, probability: real): Result<real> {
    if Sort(values) == [] then Err(EmptyData) else Interpolate(Sort(values), Position(|values|, probability))
  }

  lemma PercentilePermutes(a: seq<real>, b: seq<real>, probability: real)
    requires multiset(a) == multiset(b)
    ensures Percentile(a, probability) == Percentile(b, probability) && Median(a) == Median(b)
  {
    hide Interpolate, Position, Sort;
    SortPermutes(a, b);
    SameMembers(a, b);
  }

  lemma CeilingOf(x: real)
    ensures x.Floor as real == x ==> Ceiling(x) == x.Floor
    ensures x.Floor as real < x ==> Ceiling(x) == x.Floor + 1
  {
    assert (-x).Floor as real <= -x < (-x).Floor as real + 1.0;
  }

  lemma FloorBetween(x: real, lo: int, hi: int)
    requires lo as real <= x <= hi as real
    ensures lo <= x.Floor <= hi && (x.Floor as real < x ==> x.Floor < hi)
  {
  }

  /** The piecewise linear curve through the order statistics. */
  function Curve(ordered: seq<real>, x: real): real
    requires ordered != [] && 0.0 <= x <= (|ordered| - 1) as real
  {
    FloorBetween(x, 0, |ordered| - 1);
    if x.Floor as real == x then ordered[x.Floor]
    else Mix(ordered[x.Floor], ordered[x.Floor + 1], x - x.Floor as real)
  }

  function Times(x: real, y: real): real { x * y }

  lemma Scale(c: real, f: real, g: real)
    requires c >= 0.0 && f <= g
    ensures Times(c, f) <= Times(c, g)
    ensures Times(c, 0.0) == 0.0 && Times(c, 1.0) == c
  {
  }

  lemma PositionBetween(n: nat, p: real, q: real)
    requires n > 0 && 0.0 <= p <= q <= 1.0
    ensures 0.0 <= Position(n, p) <= Position(n, q) <= (n - 1) as real
    ensures Position(n, 0.0) == 0.0 && Position(n, 1.0) == (n - 1) as real
  {
    hide Times;
    var m := (n - 1) as real;
    Scale(m, 0.0, p);
    Scale(m, p, q);
    Scale(m, q, 1.0);
  }

  lemma InterpolateIsCurve(ordered: seq<real>, x: real)
    requires ordered != [] && 0.0 <= x <= (|ordered| - 1) as real
    ensures Interpolate(ordered, x) == Ok(Curve(ordered, x))
  {
    hide Mix, Ceiling;
    CeilingOf(x);
    FloorBetween(x, 0, |ordered| - 1);
  }

  /** For a probability in [0, 1] the percentile is the curve at its position. */
  lemma PercentileIsCurve(values: seq<real>, p: real)
    requires values != [] && 0.0 <= p <= 1.0
    ensures 0.0 <= Position(|values|, p) <= (|values| - 1) as real
    ensures Percentile(values, p) == Ok(Curve(Sort(values), Position(|values|, p)))
  {
    PositionBetween(|values|, p, p);
    hide Interpolate, Position, Curve;
    InterpolateIsCurve(Sort(values), Position(|values|, p));
  }

  lemma PositionIs(n: nat, p: real)
    ensures Position(n, p) == (n - 1) as real * p
  {
  }

  lemma CurveIs(ordered: seq<real>, x: real) returns (lower: real, upper: real, fraction: real)
    requires ordered != [] && 0.0 <= x <= (|ordered| - 1) as real
    ensures 0 <= x.Floor < |ordered| && lower == ordered[x.Floor] && fraction == x - x.Floor as real
    ensures if fraction == 0.0 then upper == lower else x.Floor + 1 < |ordered| && upper == ordered[x.Floor + 1]
    ensures Curve(ordered, x) == lower * (1.0 - fraction) + upper * fraction
  {
    FloorBetween(x, 0, |ordered| - 1);
    lower, fraction := ordered[x.Floor], x - x.Floor as real;
    upper := if fraction == 0.0 then lower else ordered[x.Floor + 1];
    assert fraction != 0.0 ==> Curve(ordered, x) == Mix(lower, upper, fraction);
  }

  /** Spelled out: the weighted mean of the order statistics on both sides of the position, by its
      fraction. */
  lemma PercentileLaw(values: seq<real>, p: real, x: real) returns (lower: real, upper: real, fraction: real)
    requires values != [] && 0.0 <= p <= 1.0 && x == (|values| - 1) as real * p
    ensures 0 <= x.Floor < |values| && lower == Sort(values)[x.Floor] && fraction == x - x.Floor as real
    ensures if fraction == 0.0 then upper == lower else x.Floor + 1 < |values| && upper == Sort(values)[x.Floor + 1]
    ensures Percentile(values, p).Ok? && Percentile(values, p).value == lower * (1.0 - fraction) + upper * fraction
  {
    hide Percentile, Position, Curve, Sort;
    PercentileIsCurve(values, p);
    PositionIs(|values|, p);
    assert x == Position(|values|, p);
    lower, upper, fraction := CurveIs(Sort(values), x);
    assert Percentile(values, p) == Ok(Curve(Sort(values), x));
    assert Percentile(values, p).value == Curve(Sort(values), x);
  }

  lemma MixLine(a: real, c: real, f: real)
    ensures Mix(a, a + c, f) == a + Times(c, f)
  {
    assert a * (1.0 - f) == a - a * f;
    assert (a + c) * f == a * f + c * f;
  }

  /** A weighted mean of two ordered numbers lies between them and grows with the weight. */
  lemma MixBetween(a: real, b: real, f: real, g: real)
    requires a <= b && 0.0 <= f <= g <= 1.0
    ensures a <= Mix(a, b, f) <= Mix(a, b, g) <= b
  {
    var c := b - a;
    assert b == a + c;
    MixLine(a, c, f);
    MixLine(a, c, g);
    hide Mix, Times;
    Scale(c, 0.0, f);
    Scale(c, f, g);
    Scale(c, g, 1.0);
  }

  lemma CurveBetween(ordered: seq<real>, x: real)
    requires ordered != [] && Sorted(ordered) && 0.0 <= x <= (|ordered| - 1) as real
    ensures 0 <= x.Floor < |ordered| && ordered[x.Floor] <= Curve(ordered, x)
    ensures x.Floor + 1 < |ordered| ==> Curve(ordered, x) <= ordered[x.Floor + 1]
    ensures x.Floor + 1 >= |ordered| ==> Curve(ordered, x) == ordered[x.Floor]
  {
    hide Mix;
    FloorBetween(x, 0, |ordered| - 1);
    if x.Floor + 1 < |ordered| {
      MixBetween(ordered[x.Floor], ordered[x.Floor + 1], x - x.Floor as real, 1.0);
    }
  }

  lemma CurveMonotone(ordered: seq<real>, x: real, y: real)
    requires ordered != [] && Sorted(ordered) && 0.0 <= x <= y <= (|ordered| - 1) as real
    ensures Curve(ordered, x) <= Curve(ordered, y)
  {
    hide Mix;
    CurveBetween(ordered, x);
    CurveBetween(ordered, y);
    FloorBetween(x, 0, |ordered| - 1);
    FloorBetween(y, 0, |ordered| - 1);
    if x.Floor == y.Floor {
      if x.Floor + 1 < |ordered| {
        MixBetween(ordered[x.Floor], ordered[x.Floor + 1], x - x.Floor as real, y - x.Floor as real);
      }
    } else {
      assert ordered[x.Floor + 1] <= ordered[y.Floor];
    }
  }

  /** Main result: a percentile grows with its probability. */
  lemma PercentileMonotone(values: seq<real>, p: real, q: real)
    requires values != [] && 0.0 <= p <= q <= 1.0
    ensures Percentile(values, p).Ok? && Percentile(values, q).Ok?
    ensures Percentile(values, p).value <= Percentile(values, q).value
  {
    PercentileIsCurve(values, p);
    PercentileIsCurve(values, q);
    SortSorts(values);
    PositionBetween(|values|, p, q);
    hide Percentile, Position, Curve, Sort, Sorted;
    CurveMonotone(Sort(values), Position(|values|, p), Position(|values|, q));
  }

  /** Main result: it stays between the smallest and the largest value, and reaches both. */
  lemma PercentileInRange(values: seq<real>, p: real, low: real, high: real)
    requires values != [] && 0.0 <= p <= 1.0
    requires forall v :: v in values ==> low <= v <= high
    ensures Percentile(values, p).Ok? && low <= Percentile(values, p).value <= high
    ensures Percentile(values, 0.0).Ok? && Percentile(values, 0.0).value in values
    ensures Percentile(values, 1.0).Ok? && Percentile(values, 1.0).value in values
    ensures forall v :: v in values ==> Percentile(values, 0.0).value <= v <= Percentile(values, 1.0).value
  {
    SortSorts(values);
    var ordered := Sort(values);
    EndsOf(values);
    PercentileMonotone(values, 0.0, p);
    PercentileMonotone(values, p, 1.0);
    assert ordered[0] in ordered && ordered[|ordered| - 1] in ordered;
  }

  lemma CurveEnds(ordered: seq<real>)
    requires ordered != []
    ensures Curve(ordered, 0.0) == ordered[0]
    ensures Curve(ordered, (|ordered| - 1) as real) == ordered[|ordered| - 1]
  {
    hide Mix;
    var n := (|ordered| - 1) as real;
    assert n.Floor == |ordered| - 1;
  }

  lemma EndsOf(values: seq<real>)
    requires values != []
    ensures Percentile(values, 0.0) == Ok(Sort(values)[0])
    ensures Percentile(values, 1.0) == Ok(Sort(values)[|values| - 1])
  {
    hide Percentile, Position, Sort, Curve;
    PercentileIsCurve(values, 0.0);
    PercentileIsCurve(values, 1.0);
    PositionBetween(|values|, 0.0, 1.0);
    CurveEnds(Sort(values));
  }

  /** Exactly when each outcome happens, for any probability at all. */
  lemma PercentileOutcome(values: seq<real>, p: real)
    ensures Percentile(values, p) == Err(EmptyData) <==> values == []
    ensures values != [] ==>
      (Percentile(values, p).Ok? <==> -(|values| as real) <= Position(|values|, p) <= (|values| - 1) as real)
    ensures values != [] && !Percentile(values, p).Ok? ==> Percentile(values, p) == Err(IndexOutOfRange)
  {
    if values != [] {
      hide Position;
      InterpolateOutcome(Sort(values), Position(|values|, p));
    }
  }

  lemma InterpolateOutcome(ordered: seq<real>, x: real)
    requires ordered != []
    ensures Interpolate(ordered, x) != Err(EmptyData)
    ensures Interpolate(ordered, x).Ok? || Interpolate(ordered, x) == Err(IndexOutOfRange)
    ensures Interpolate(ordered, x).Ok? <==> -(|ordered| as real) <= x <= (|ordered| - 1) as real
  {
    hide Mix, Ceiling;
    CeilingOf(x);
    assert x.Floor as real <= x < x.Floor as real + 1.0;
  }

  // ---- Medians ----

  /** The middle value, or the mean of the two middle values. */
  function Middle(ordered: seq<real>): Result<real> {
    var n := |ordered|;
    if n == 0 then Err(EmptyData)
    else if n % 2 == 1 then Ok(ordered[n / 2])
    else Ok((ordered[n / 2 - 1] + ordered[n / 2]) / 2.0)
  }

  function Median(values: seq<real>): Result<real> { Middle(Sort(values)) }

  /** Spelled out: the middle order statistic, or the mean of the two middle ones. */
  lemma MedianLaw(values: seq<real>)
    requires values != []
    ensures var s, h := Sort(values), |values| / 2;
      && (|values| % 2 == 1 ==> Median(values) == Ok(s[h]))
      && (|values| % 2 == 0 ==> Median(values) == Ok((s[h - 1] + s[h]) / 2.0))
  {
    hide Sort;
  }

  lemma MiddleOfCurve(ordered: seq<real>)
    requires ordered != []
    ensures 0.0 <= Position(|ordered|, 0.5) <= (|ordered| - 1) as real
    ensures Middle(ordered) == Ok(Curve(ordered, Position(|ordered|, 0.5)))
  {
    PositionBetween(|ordered|, 0.5, 0.5);
    HalfPosition(|ordered|);
    hide Mix, Position;
    var h := |ordered| / 2;
    if |ordered| % 2 == 0 { MixHalf(ordered[h - 1], ordered[h]); }
  }

  /** The library's median is the analyzer's own percentile at one half. */
  lemma MedianIsPercentile(values: seq<real>)
    ensures Median(values) == Percentile(values, 0.5)
  {
    if values != [] {
      PercentileIsCurve(values, 0.5);
      hide Percentile, Position, Sort, Curve, Middle;
      MiddleOfCurve(Sort(values));
    }
  }

  lemma MixHalf(a: real, b: real)
    ensures Mix(a, b, 0.5) == (a + b) / 2.0
  {
  }

  lemma HalfPosition(n: nat)
    requires n > 0
    ensures n % 2 == 1 ==> Position(n, 0.5) == (n / 2) as real && Position(n, 0.5).Floor == n / 2
    ensures n % 2 == 0 ==>
      Position(n, 0.5) == (n / 2 - 1) as real + 0.5 && Position(n, 0.5).Floor == n / 2 - 1
  {
    HalfOf(n - n % 2, n / 2);
  }

  lemma HalfOf(n: nat, h: nat)
    requires n == 2 * h
    ensures n as real * 0.5 == h as real && (h as real).Floor == h
  {
  }
}
