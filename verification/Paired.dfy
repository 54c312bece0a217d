/** Paired speedups of perf-evidence/analyze.py: two variants matched sample by sample. */
module Paired {
  import opened Statistics
  import opened Bootstrap

  datatype Operator = Operator(kernelExport: string, workload: string, input: string)

  datatype BlockKey = BlockKey(campaign: string, process: nat, block: nat)

  datatype Pair = Pair(key: BlockKey, sample: nat)

  datatype Record = Record(operator: Operator, variant: string, launch: string, pair: Pair, duration: nat)

  // ---- Collecting the samples ----

  type Series = (Operator, string)

  datatype Tables = Tables(samples: map<Series, map<Pair, nat>>, launches: map<Series, set<string>>)

  predicate Relevant(x: Record, baseline: string, candidate: string) { x.variant == baseline || x.variant == candidate }

  function SeriesOf(x: Record): Series { (x.operator, x.variant) }

  predicate Clash(x: Record, y: Record) { SeriesOf(x) == SeriesOf(y) && x.pair == y.pair }

  predicate Taken(t: Tables, x: Record) { SeriesOf(x) in t.samples && x.pair in t.samples[SeriesOf(x)] }

  function Add(t: Tables, x: Record): Tables {
    var s := SeriesOf(x);
    Tables(t.samples[s := (if s in t.samples then t.samples[s] else map[])[x.pair := x.duration]],
           t.launches[s := (if s in t.launches then t.launches[s] else {}) + {x.launch}])
  }

  predicate HasSample(t: Tables, x: Record) {
    && Taken(t, x) && t.samples[SeriesOf(x)][x.pair] == x.duration
    && SeriesOf(x) in t.launches && x.launch in t.launches[SeriesOf(x)]
  }

  /** The relevant records are in the tables, no two of them clashing, and nothing else is. */
  ghost predicate Holds(t: Tables, records: seq<Record>, baseline: string, candidate: string) {
    && (forall i :: 0 <= i < |records| && Relevant(records[i], baseline, candidate) ==> HasSample(t, records[i]))
    && (forall i, j :: 0 <= i < j < |records| && Relevant(records[i], baseline, candidate) ==>
          !Clash(records[i], records[j]))
    && (forall s, p :: s in t.samples && p in t.samples[s] ==> SampleFrom(records, s, p, baseline, candidate))
    && (forall s, l :: s in t.launches && l in t.launches[s] ==> LaunchFrom(records, s, l, baseline, candidate))
  }

  predicate IsSample(x: Record, s: Series, p: Pair, baseline: string, candidate: string) {
    Relevant(x, baseline, candidate) && SeriesOf(x) == s && x.pair == p
  }

  predicate IsLaunch(x: Record, s: Series, launch: string, baseline: string, candidate: string) {
    Relevant(x, baseline, candidate) && SeriesOf(x) == s && x.launch == launch
  }

  predicate SampleFrom(records: seq<Record>, s: Series, p: Pair, baseline: string, candidate: string) {
    exists i :: 0 <= i < |records| && IsSample(records[i], s, p, baseline, candidate)
  }

  predicate LaunchFrom(records: seq<Record>, s: Series, launch: string, baseline: string, candidate: string) {
    exists i :: 0 <= i < |records| && IsLaunch(records[i], s, launch, baseline, candidate)
  }

  lemma ClashMeans(x: Record, y: Record, baseline: string, candidate: string)
    requires Relevant(x, baseline, candidate) && Clash(x, y)
    ensures x.variant in {baseline, candidate}
    ensures x.operator == y.operator && x.variant == y.variant && x.pair == y.pair
  {
  }

  lemma AddKeeps(t: Tables, x: Record, y: Record)
    requires HasSample(t, y) && !Taken(t, x)
    ensures HasSample(Add(t, x), y) && !Clash(y, x)
  {
  }

  lemma SampleKept(records: seq<Record>, x: Record, baseline: string, candidate: string, s: Series, p: Pair)
    requires SampleFrom(records, s, p, baseline, candidate)
    ensures SampleFrom(records + [x], s, p, baseline, candidate)
  {
    hide IsSample;
    var i :| 0 <= i < |records| && IsSample(records[i], s, p, baseline, candidate);
    assert IsSample((records + [x])[i], s, p, baseline, candidate);
  }

  lemma LaunchKept(records: seq<Record>, x: Record, baseline: string, candidate: string, s: Series, l: string)
    requires LaunchFrom(records, s, l, baseline, candidate)
    ensures LaunchFrom(records + [x], s, l, baseline, candidate)
  {
    hide IsLaunch;
    var i :| 0 <= i < |records| && IsLaunch(records[i], s, l, baseline, candidate);
    assert IsLaunch((records + [x])[i], s, l, baseline, candidate);
  }

  lemma SampleAdded(t: Tables, records: seq<Record>, x: Record, baseline: string, candidate: string, s: Series, p: Pair)
    requires s in t.samples && p in t.samples[s] ==> SampleFrom(records, s, p, baseline, candidate)
    requires Relevant(x, baseline, candidate) && s in Add(t, x).samples && p in Add(t, x).samples[s]
    ensures SampleFrom(records + [x], s, p, baseline, candidate)
  {
    if s in t.samples && p in t.samples[s] {
      SampleKept(records, x, baseline, candidate, s, p);
    } else {
      assert IsSample((records + [x])[|records|], s, p, baseline, candidate);
    }
  }

  lemma LaunchAdded(t: Tables, records: seq<Record>, x: Record, baseline: string, candidate: string,
                    s: Series, l: string)
    requires s in t.launches && l in t.launches[s] ==> LaunchFrom(records, s, l, baseline, candidate)
    requires Relevant(x, baseline, candidate) && s in Add(t, x).launches && l in Add(t, x).launches[s]
    ensures LaunchFrom(records + [x], s, l, baseline, candidate)
  {
    if s in t.launches && l in t.launches[s] {
      LaunchKept(records, x, baseline, candidate, s, l);
    } else {
      assert IsLaunch((records + [x])[|records|], s, l, baseline, candidate);
    }
  }

  lemma OthersNeverClash(records: seq<Record>, x: Record, baseline: string, candidate: string, i: nat)
    requires i < |records| && Relevant(records[i], baseline, candidate) && !Relevant(x, baseline, candidate)
    ensures !Clash(records[i], x)
  {
  }

  lemma HoldsSkips(t: Tables, records: seq<Record>, x: Record, baseline: string, candidate: string)
    requires Holds(t, records, baseline, candidate) && !Relevant(x, baseline, candidate)
    ensures Holds(t, records + [x], baseline, candidate)
  {
    hide HasSample, Clash, SampleFrom, LaunchFrom, Relevant;
    forall i | 0 <= i < |records| && Relevant(records[i], baseline, candidate) ensures !Clash(records[i], x) {
      OthersNeverClash(records, x, baseline, candidate, i);
    }
    forall s, p | s in t.samples && p in t.samples[s] ensures SampleFrom(records + [x], s, p, baseline, candidate) {
      SampleKept(records, x, baseline, candidate, s, p);
    }
    forall s, l | s in t.launches && l in t.launches[s] ensures LaunchFrom(records + [x], s, l, baseline, candidate) {
      LaunchKept(records, x, baseline, candidate, s, l);
    }
  }

  lemma HoldsGrows(t: Tables, records: seq<Record>, x: Record, baseline: string, candidate: string)
    requires Holds(t, records, baseline, candidate) && Relevant(x, baseline, candidate) && !Taken(t, x)
    ensures Holds(Add(t, x), records + [x], baseline, candidate)
  {
    hide HasSample, Add, Taken, Relevant, SampleFrom, LaunchFrom;
    var all := records + [x];
    AddHas(t, x);
    forall i | 0 <= i < |records| && Relevant(records[i], baseline, candidate)
      ensures HasSample(Add(t, x), records[i]) && !Clash(records[i], x)
    {
      AddKeeps(t, x, records[i]);
    }
    forall s, p | s in Add(t, x).samples && p in Add(t, x).samples[s]
      ensures SampleFrom(all, s, p, baseline, candidate)
    {
      SampleAdded(t, records, x, baseline, candidate, s, p);
    }
    forall s, l | s in Add(t, x).launches && l in Add(t, x).launches[s]
      ensures LaunchFrom(all, s, l, baseline, candidate)
    {
      LaunchAdded(t, records, x, baseline, candidate, s, l);
    }
  }

  lemma AddHas(t: Tables, x: Record)
    ensures HasSample(Add(t, x), x)
  {
  }

  /** A taken place was taken by an earlier record of the same series. */
  lemma TakenClashes(t: Tables, records: seq<Record>, x: Record, baseline: string, candidate: string)
    requires Holds(t, records, baseline, candidate) && Taken(t, x)
    ensures exists i :: 0 <= i < |records| && Relevant(records[i], baseline, candidate) && Clash(records[i], x)
  {
  }

  /** Main result on collection: it is refused exactly when two records of one series share a
      pair; otherwise the tables hold exactly the records of the two variants. */
  method Gather(records: seq<Record>, baseline: string, candidate: string) returns (r: Result<Tables>)
    ensures r.Err? ==> r.error == DuplicatePair
    ensures r.Err? ==> exists j, i :: 0 <= i < j < |records|
                                      && Relevant(records[i], baseline, candidate) && Clash(records[i], records[j])
                                      && records[i].variant in {baseline, candidate}
                                      && records[i].operator == records[j].operator
                                      && records[i].variant == records[j].variant && records[i].pair == records[j].pair
    ensures r.Ok? ==> Holds(r.value, records, baseline, candidate)
  {
    hide Holds, Relevant, Clash;
    var t := Tables(map[], map[]);
    assert Holds(t, records[..0], baseline, candidate) by { EmptyHolds(baseline, candidate); }
    for n := 0 to |records|
      invariant Holds(t, records[..n], baseline, candidate)
    {
      var x := records[n];
      assert records[..n + 1] == records[..n] + [x];
      if !Relevant(x, baseline, candidate) {
        HoldsSkips(t, records[..n], x, baseline, candidate);
        continue;
      }
      if Taken(t, x) {
        TakenClashes(t, records[..n], x, baseline, candidate);
        var i :| 0 <= i < n && Relevant(records[..n][i], baseline, candidate) && Clash(records[..n][i], x);
        ClashMeans(records[i], x, baseline, candidate);
        assert i < n;
        return Err(DuplicatePair);
      }
      HoldsGrows(t, records[..n], x, baseline, candidate);
      t := Add(t, x);
    }
    assert records[..|records|] == records;
    return Ok(t);
  }

  /** Spelled out: a record of either variant is in its operator's and variant's table under its pair,
      with its duration and its launch ... */
  lemma GatheredHas(t: Tables, records: seq<Record>, baseline: string, candidate: string, x: Record)
    requires Holds(t, records, baseline, candidate) && x in records
    requires x.variant == baseline || x.variant == candidate
    ensures (x.operator, x.variant) in t.samples && x.pair in t.samples[(x.operator, x.variant)]
    ensures t.samples[(x.operator, x.variant)][x.pair] == x.duration
    ensures (x.operator, x.variant) in t.launches && x.launch in t.launches[(x.operator, x.variant)]
    ensures forall y ::
      y in records && y.operator == x.operator && y.variant == x.variant && y.pair == x.pair ==> y == x
  {
    var i :| 0 <= i < |records| && records[i] == x;
    assert Relevant(x, baseline, candidate) && HasSample(t, records[i]);
    forall y | y in records && y.operator == x.operator && y.variant == x.variant && y.pair == x.pair ensures y == x {
      var j :| 0 <= j < |records| && records[j] == y;
      assert Relevant(y, baseline, candidate) && Clash(records[i], records[j]);
      hide Holds, HasSample;
      OneOfAPair(t, records, baseline, candidate, i, j);
    }
  }

  lemma OneOfAPair(t: Tables, records: seq<Record>, baseline: string, candidate: string, i: nat, j: nat)
    requires Holds(t, records, baseline, candidate) && i < |records| && j < |records|
    requires Relevant(records[i], baseline, candidate) && Relevant(records[j], baseline, candidate)
    requires Clash(records[i], records[j])
    ensures i == j
  {
    hide HasSample, Relevant, SampleFrom, LaunchFrom;
    assert Clash(records[j], records[i]);
    hide Clash;
  }

  /** ... and nothing else is there. */
  lemma GatheredOnly(t: Tables, records: seq<Record>, baseline: string, candidate: string,
                     op: Operator, variant: string, p: Pair)
    returns (x: Record)
    requires Holds(t, records, baseline, candidate)
    requires (op, variant) in t.samples && p in t.samples[(op, variant)]
    ensures x in records && (variant == baseline || variant == candidate)
    ensures x.operator == op && x.variant == variant && x.pair == p
  {
    var s := (op, variant);
    assert SampleFrom(records, s, p, baseline, candidate);
    var i :| 0 <= i < |records| && IsSample(records[i], s, p, baseline, candidate);
    x := records[i];
  }

  lemma LaunchesOnly(t: Tables, records: seq<Record>, baseline: string, candidate: string,
                     op: Operator, variant: string, launch: string)
    returns (x: Record)
    requires Holds(t, records, baseline, candidate)
    requires (op, variant) in t.launches && launch in t.launches[(op, variant)]
    ensures x in records && (variant == baseline || variant == candidate)
    ensures x.operator == op && x.variant == variant && x.launch == launch
  {
    var s := (op, variant);
    assert LaunchFrom(records, s, launch, baseline, candidate);
    var i :| 0 <= i < |records| && IsLaunch(records[i], s, launch, baseline, candidate);
    x := records[i];
  }

  lemma EmptyHolds(baseline: string, candidate: string)
    ensures Holds(Tables(map[], map[]), [], baseline, candidate)
  {
  }

  // ---- Speedups and reductions ----

  function Ratio(before: nat, after: nat): real
    requires after != 0
  { before as real / after as real }

  function Reduction(before: nat, after: nat): real
    requires before != 0
  { 100.0 * (before - after) as real / before as real }

  /** The latency reduction that goes with a speedup. */
  function ReductionOf(speedup: real): real
    requires speedup > 0.0
  { 100.0 * (1.0 - 1.0 / speedup) }

  // Small facts of arithmetic, one product at a time.

  lemma Inverse(x: real)
    requires x > 0.0
    ensures 1.0 / x > 0.0 && x * (1.0 / x) == 1.0
  {
  }

  lemma Quotient(b: real, a: real)
    requires a > 0.0
    ensures b / a == b * (1.0 / a)
  {
  }

  lemma Cancel(a: real, b: real, m: real)
    requires m > 0.0
    ensures (a * m <= b * m <==> a <= b) && (a * m == b * m <==> a == b)
  {
  }

  lemma Product(x: real, y: real)
    requires x > 0.0 && y > 0.0
    ensures x * y > 0.0
  {
  }

  lemma TimesPositive(x: real, y: real)
    requires x > 0.0 && y > 0.0
    ensures Times(x, y) > 0.0
  {
  }

  lemma Regroup(u: real, x: real, y: real)
    requires x * u == 1.0
    ensures u * (x * y) == y && u * (y * x) == y
  {
    assert u * (x * y) == (x * u) * y;
  }

  lemma Exchange(x: real, u: real, y: real, v: real)
    requires x * u == 1.0 && y * v == 1.0
    ensures (x * v) * (y * u) == 1.0
  {
    assert (x * v) * (y * u) == (x * u) * (y * v);
  }

  lemma UniqueInverse(x: real, u: real)
    requires x > 0.0 && x * u == 1.0
    ensures 1.0 / x == u
  {
    Inverse(x);
    Cancel(1.0 / x, u, x);
  }

  lemma ReductionMatches(before: nat, after: nat)
    requires before != 0 && after != 0
    ensures Ratio(before, after) > 0.0 && Reduction(before, after) == ReductionOf(Ratio(before, after))
  {
    var b, a := before as real, after as real;
    var u, v := 1.0 / b, 1.0 / a;
    Inverse(b);
    Inverse(a);
    Quotient(b, a);
    Exchange(b, u, a, v);
    Product(b, v);
    UniqueInverse(b * v, a * u);
    ReductionForm(b, a, u);
    assert (before - after) as real == b - a;
  }

  lemma ReductionForm(b: real, a: real, u: real)
    requires b > 0.0 && u == 1.0 / b
    ensures 100.0 * (b - a) / b == 100.0 * (1.0 - a * u)
  {
    Inverse(b);
    Quotient(100.0 * (b - a), b);
    assert 100.0 * (b - a) * u == 100.0 * (b * u - a * u);
  }

  function Reductions(speedups: seq<real>): (r: seq<real>)
    requires Positive(speedups)
    ensures |r| == |speedups|
    ensures forall i :: 0 <= i < |r| ==> r[i] == ReductionOf(speedups[i])
  {
    hide ReductionOf;
    if speedups == [] then [] else [ReductionOf(speedups[0])] + Reductions(speedups[1..])
  }

  predicate Positive(s: seq<real>) { forall i :: 0 <= i < |s| ==> s[i] > 0.0 }

  /** A larger speedup is a larger reduction. */
  lemma ReductionOrder(x: real, y: real)
    requires x > 0.0 && y > 0.0
    ensures x <= y <==> ReductionOf(x) <= ReductionOf(y)
  {
    var u, v := 1.0 / x, 1.0 / y;
    Inverse(x);
    Inverse(y);
    Product(x, y);
    Regroup(u, x, y);
    Regroup(v, y, x);
    Cancel(v, u, x * y);
  }

  lemma Gap(r: real, s: real)
    requires r * s == 1.0
    ensures r + s - 2.0 == Times(r - 1.0, 1.0 - s)
  {
  }

  /** A positive number and its inverse add to at least two. */
  lemma InversePair(r: real, s: real)
    requires r > 0.0 && s > 0.0 && r * s == 1.0
    ensures r + s >= 2.0 && (r + s == 2.0 <==> r == 1.0)
    decreases r < 1.0
  {
    hide Times;
    if r > 1.0 {
      Gap(r, s);
      Cancel(r, 1.0, s);
      TimesPositive(r - 1.0, 1.0 - s);
    } else if r < 1.0 {
      Cancel(1.0, r, s);
      assert s * r == r * s;
      InversePair(s, r);
    }
  }

  lemma MeansProduct(x: real, y: real, u: real, v: real)
    requires x * u == 1.0 && y * v == 1.0
    ensures (u + v) / 2.0 * ((x + y) / 2.0) == (2.0 + (x * v + y * u)) / 4.0
  {
    assert (u + v) * (x + y) == x * u + y * v + (x * v + y * u);
    assert (u + v) / 2.0 * ((x + y) / 2.0) == (u + v) * (x + y) / 4.0;
  }

  /** Halfway between two reductions is at most the reduction halfway between the speedups,
      with equality only for equal speedups: the harmonic mean is at most the arithmetic. */
  lemma ReductionConcave(x: real, y: real)
    requires x > 0.0 && y > 0.0
    ensures (ReductionOf(x) + ReductionOf(y)) / 2.0 <= ReductionOf((x + y) / 2.0)
    ensures (ReductionOf(x) + ReductionOf(y)) / 2.0 == ReductionOf((x + y) / 2.0) <==> x == y
  {
    var u, v, m := 1.0 / x, 1.0 / y, (x + y) / 2.0;
    Inverse(x);
    Inverse(y);
    Inverse(m);
    Exchange(x, u, y, v);
    Product(x, v);
    Product(y, u);
    InversePair(x * v, y * u);
    MeansProduct(x, y, u, v);
    Cancel(1.0 / m, (u + v) / 2.0, m);
    Cancel(x, y, v);
  }

  lemma {:induction false} InsertPositive(x: real, s: seq<real>)
    requires x > 0.0 && Positive(s)
    ensures Positive(Insert(x, s))
  {
    if s != [] && x > s[0] { InsertPositive(x, s[1..]); }
  }

  lemma {:induction false} InsertReductions(x: real, s: seq<real>)
    requires x > 0.0 && Positive(s)
    ensures Positive(Insert(x, s)) && Reductions(Insert(x, s)) == Insert(ReductionOf(x), Reductions(s))
  {
    hide ReductionOf;
    InsertPositive(x, s);
    if s != [] {
      ReductionOrder(x, s[0]);
      if x > s[0] {
        InsertReductions(x, s[1..]);
        assert Insert(x, s) == [s[0]] + Insert(x, s[1..]);
      } else {
        assert Insert(x, s) == [x] + s;
      }
    }
  }

  /** Reducing after sorting is sorting after reducing. */
  lemma {:induction false} SortReductions(s: seq<real>)
    requires Positive(s)
    ensures Positive(Sort(s)) && Reductions(Sort(s)) == Sort(Reductions(s))
  {
    hide ReductionOf, Insert;
    if s != [] {
      SortReductions(s[1..]);
      InsertReductions(s[0], Sort(s[1..]));
      assert Reductions(s) == [ReductionOf(s[0])] + Reductions(s[1..]);
    }
  }

  predicate MiddleAgrees(ordered: seq<real>) {
    ordered == [] || |ordered| % 2 == 1 || ordered[|ordered| / 2 - 1] == ordered[|ordered| / 2]
  }

  lemma MiddleReduction(o: seq<real>)
    requires o != [] && Positive(o)
    ensures Middle(o).Ok? && Middle(o).value > 0.0 && Middle(Reductions(o)).Ok?
    ensures Middle(Reductions(o)).value <= ReductionOf(Middle(o).value)
    ensures Middle(Reductions(o)).value == ReductionOf(Middle(o).value) <==> MiddleAgrees(o)
  {
    hide ReductionOf, Reductions;
    if |o| % 2 == 0 { ReductionConcave(o[|o| / 2 - 1], o[|o| / 2]); }
  }

  /** Main result: the median reduction is at most the reduction of the median speedup, with
      equality exactly for an odd number of pairs or two equal middle speedups. */
  lemma MedianReduction(s: seq<real>)
    requires s != [] && Positive(s)
    ensures Median(s).Ok? && Median(s).value > 0.0 && Median(Reductions(s)).Ok?
    ensures Median(Reductions(s)).value <= ReductionOf(Median(s).value)
    ensures Median(Reductions(s)).value == ReductionOf(Median(s).value) <==> MiddleAgrees(Sort(s))
  {
    hide ReductionOf, Middle, MiddleAgrees, Insert, Reductions;
    SortReductions(s);
    MiddleReduction(Sort(s));
  }

  // ---- One comparison ----

  datatype Comparison = Comparison(samples: nat, speedup: real, low: real, high: real, reduction: real,
                                   faster: bool, slower: bool, indistinguishable: bool)

  datatype Outcome = Skipped | Compared(comparison: Comparison) | Failed(error: Failure)

  predicate Timed(base: map<Pair, nat>, other: map<Pair, nat>, pairs: seq<Pair>) {
    forall p :: p in pairs ==> p in base && p in other
  }

  predicate NoZero(base: map<Pair, nat>, other: map<Pair, nat>, pairs: seq<Pair>)
    requires Timed(base, other, pairs)
  { forall p :: p in pairs ==> base[p] != 0 && other[p] != 0 }

  /** One speedup per pair. */
  method MeasureSpeedups(base: map<Pair, nat>, other: map<Pair, nat>, pairs: seq<Pair>) returns (r: Result<seq<real>>)
    requires Timed(base, other, pairs)
    ensures r.Ok? <==> forall p :: p in pairs ==> other[p] != 0
    ensures r.Err? ==> r.error == DivisionByZero
    ensures r.Ok? ==> |r.value| == |pairs|
    ensures r.Ok? ==> forall i :: 0 <= i < |pairs| ==>
      other[pairs[i]] != 0 && r.value[i] == Ratio(base[pairs[i]], other[pairs[i]])
  {
    hide Ratio;
    var ratios := [];
    for i := 0 to |pairs|
      invariant |ratios| == i
      invariant forall j :: 0 <= j < i ==> other[pairs[j]] != 0 && ratios[j] == Ratio(base[pairs[j]], other[pairs[j]])
    {
      if other[pairs[i]] == 0 { return Err(DivisionByZero); }
      ratios := ratios + [Ratio(base[pairs[i]], other[pairs[i]])];
    }
    return Ok(ratios);
  }

  /** One latency reduction per pair. */
  method MeasureReductions(base: map<Pair, nat>, other: map<Pair, nat>, pairs: seq<Pair>) returns (r: Result<seq<real>>)
    requires Timed(base, other, pairs)
    ensures r.Ok? <==> forall p :: p in pairs ==> base[p] != 0
    ensures r.Err? ==> r.error == DivisionByZero
    ensures r.Ok? ==> |r.value| == |pairs|
    ensures r.Ok? ==> forall i :: 0 <= i < |pairs| ==>
      base[pairs[i]] != 0 && r.value[i] == Reduction(base[pairs[i]], other[pairs[i]])
  {
    hide Reduction;
    var reductions := [];
    for i := 0 to |pairs|
      invariant |reductions| == i
      invariant forall j :: 0 <= j < i ==>
        base[pairs[j]] != 0 && reductions[j] == Reduction(base[pairs[j]], other[pairs[j]])
    {
      if base[pairs[i]] == 0 { return Err(DivisionByZero); }
      reductions := reductions + [Reduction(base[pairs[i]], other[pairs[i]])];
    }
    return Ok(reductions);
  }

  /** A pair's speedup is before over after, its reduction the percentage saved of before. */
  predicate Measured(before: nat, after: nat, speedup: real, reduction: real) {
    && before != 0 && after != 0
    && speedup == before as real / after as real
    && reduction == 100.0 * (before as real - after as real) / before as real
  }

  ghost predicate MeasuredAll(base: map<Pair, nat>, other: map<Pair, nat>, pairs: seq<Pair>,
                              speedups: seq<real>, reductions: seq<real>)
    requires Timed(base, other, pairs)
  {
    && |speedups| == |reductions| == |pairs|
    && forall i :: 0 <= i < |pairs| ==> Measured(base[pairs[i]], other[pairs[i]], speedups[i], reductions[i])
  }

  lemma MeasuredIs(before: nat, after: nat)
    requires before != 0 && after != 0
    ensures Measured(before, after, Ratio(before, after), Reduction(before, after))
  {
    assert (before - after) as real == before as real - after as real;
  }

  /** One speedup and one reduction per pair; a zero duration on either side is a division by
      zero. */
  method Measure(base: map<Pair, nat>, other: map<Pair, nat>, pairs: seq<Pair>)
    returns (r: Result<(seq<real>, seq<real>)>)
    requires Timed(base, other, pairs)
    ensures r.Ok? <==> NoZero(base, other, pairs)
    ensures r.Err? ==> r.error == DivisionByZero
    ensures r.Ok? ==> |r.value.0| == |pairs| && Positive(r.value.0) && r.value.1 == Reductions(r.value.0)
    ensures r.Ok? ==> MeasuredAll(base, other, pairs, r.value.0, r.value.1)
  {
    hide Ratio, Reduction, ReductionOf;
    var ratios := MeasureSpeedups(base, other, pairs);
    if ratios.Err? { return Err(ratios.error); }
    var reductions := MeasureReductions(base, other, pairs);
    if reductions.Err? { return Err(reductions.error); }
    forall i | 0 <= i < |pairs|
      ensures ratios.value[i] > 0.0 && reductions.value[i] == ReductionOf(ratios.value[i])
      ensures Measured(base[pairs[i]], other[pairs[i]], ratios.value[i], reductions.value[i])
    {
      MeasuredIs(base[pairs[i]], other[pairs[i]]);
      ReductionMatches(base[pairs[i]], other[pairs[i]]);
    }
    return Ok((ratios.value, reductions.value));
  }

  function LaunchCount(t: Tables, s: Series): nat { if s in t.launches then |t.launches[s]| else 0 }

  /** Both variants were sampled for the operator. */
  predicate Present(t: Tables, op: Operator, baseline: string, candidate: string) {
    (op, baseline) in t.samples && (op, candidate) in t.samples
  }

  predicate OneLaunch(t: Tables, op: Operator, baseline: string, candidate: string) {
    LaunchCount(t, (op, baseline)) == 1 && LaunchCount(t, (op, candidate)) == 1
  }

  /** The variant's series was measured under a single launch configuration. */
  predicate OnlyLaunch(t: Tables, op: Operator, variant: string) {
    (op, variant) in t.launches && |t.launches[(op, variant)]| == 1
  }

  /** The comparison of two variants of one operator. `pairs` lists the shared trial keys and
      `keys` their blocks, each once, in the order of the source's sorts. */
  method Compare(t: Tables, op: Operator, baseline: string, candidate: string, pairs: seq<Pair>, keys: seq<BlockKey>,
                 repetitions: int, draws: nat -> nat)
    returns (r: Outcome, ghost ratios: seq<real>, ghost reductions: seq<real>)
    requires Present(t, op, baseline, candidate) ==>
      forall p :: p in pairs <==> p in t.samples[(op, baseline)] && p in t.samples[(op, candidate)]
    requires forall k :: k in keys <==> exists i :: 0 <= i < |pairs| && pairs[i].key == k
    ensures r == Skipped <==>
      || (op, baseline) !in t.samples || (op, candidate) !in t.samples
      || (pairs == [] && OnlyLaunch(t, op, baseline) && OnlyLaunch(t, op, candidate))
    ensures r == Failed(ManyLaunches) <==>
      && (op, baseline) in t.samples && (op, candidate) in t.samples
      && !(OnlyLaunch(t, op, baseline) && OnlyLaunch(t, op, candidate))
    ensures !Present(t, op, baseline, candidate) ==> r == Skipped
    ensures Present(t, op, baseline, candidate) && !OneLaunch(t, op, baseline, candidate) ==> r == Failed(ManyLaunches)
    ensures Present(t, op, baseline, candidate) && OneLaunch(t, op, baseline, candidate) ==>
      var base, other := t.samples[(op, baseline)], t.samples[(op, candidate)];
      && (pairs == [] ==> r == Skipped)
      && (pairs != [] && !NoZero(base, other, pairs) ==> r == Failed(DivisionByZero))
      && (pairs != [] && NoZero(base, other, pairs) && repetitions <= 0 ==> r == Failed(EmptyData))
      && (pairs != [] && NoZero(base, other, pairs) && repetitions > 0 ==>
            && |ratios| == |pairs| && Positive(ratios)
            && r.Compared? && Sound(r.comparison, ratios)
            && FromBootstrap(r.comparison, pairs, keys, ratios, repetitions, draws)
            && Median(reductions) == Ok(r.comparison.reduction)
            && MeasuredAll(base, other, pairs, ratios, reductions))
  {
    hide Measured, MeasuredAll, IsInterval, BlocksOf, Median, Within;
    ratios, reductions := [], [];
    if !Present(t, op, baseline, candidate) { return Skipped, ratios, reductions; }
    if !OneLaunch(t, op, baseline, candidate) { return Failed(ManyLaunches), ratios, reductions; }
    if |pairs| == 0 { return Skipped, ratios, reductions; }
    var measured := Measure(t.samples[(op, baseline)], t.samples[(op, candidate)], pairs);
    if measured.Err? { return Failed(measured.error), ratios, reductions; }
    ratios, reductions := measured.value.0, measured.value.1;
    r := Judge(pairs, keys, measured.value.0, measured.value.1, repetitions, draws);
  }

  /** Each speedup with the block of its pair. */
  function Tagged(pairs: seq<Pair>, speedups: seq<real>): (r: seq<(BlockKey, real)>)
    requires |speedups| == |pairs|
    ensures |r| == |pairs| && forall i :: 0 <= i < |r| ==> r[i] == (pairs[i].key, speedups[i])
  { seq(|pairs|, i requires 0 <= i < |pairs| => (pairs[i].key, speedups[i])) }

  /** The published interval is the bootstrap's over these draws, its blocks the speedups of each
      block key's pairs, in order. */
  ghost predicate FromBootstrap(c: Comparison, pairs: seq<Pair>, keys: seq<BlockKey>, ratios: seq<real>,
                                repetitions: int, draws: nat -> nat)
  {
    && |ratios| == |pairs|
    && IsInterval(BlocksOf(Tagged(pairs, ratios), keys), keys, repetitions, draws, (c.low, c.high))
  }

  /** What a published comparison says about the speedups it was made from. */
  ghost predicate Sound(c: Comparison, ratios: seq<real>) {
    && c.samples == |ratios| > 0 && Positive(ratios)
    && Median(ratios) == Ok(c.speedup) && Median(Reductions(ratios)) == Ok(c.reduction)
    && c.low <= c.high && c.speedup > 0.0
    && (forall a, b :: Within(ratios, a, b) ==> a <= c.low && c.high <= b)
    && (c.faster <==> c.low > 1.0) && (c.slower <==> c.high < 1.0)
    && (c.indistinguishable <==> c.low <= 1.0 <= c.high)
  }

  method Judge(pairs: seq<Pair>, keys: seq<BlockKey>, speedups: seq<real>, reductions: seq<real>,
               repetitions: int, draws: nat -> nat)
    returns (r: Outcome)
    requires |speedups| == |pairs| > 0 && Positive(speedups) && reductions == Reductions(speedups)
    requires forall k :: k in keys <==> exists i :: 0 <= i < |pairs| && pairs[i].key == k
    ensures repetitions <= 0 ==> r == Failed(EmptyData)
    ensures repetitions > 0 ==>
      && r.Compared? && Sound(r.comparison, speedups)
      && FromBootstrap(r.comparison, pairs, keys, speedups, repetitions, draws)
  {
    hide Median, Within, ReductionOf, Reductions, Sort, MiddleAgrees, IsInterval, BlocksOf;
    var interval := Confidence(pairs, keys, speedups, repetitions, draws);
    if interval.Err? { return Failed(interval.error); }
    var low, high := interval.value.0, interval.value.1;
    MedianReduction(speedups);
    return Compared(Comparison(|pairs|, Median(speedups).value, low, high, Median(reductions).value,
                               low > 1.0, high < 1.0, low <= 1.0 <= high));
  }

  /** The bootstrap interval of the speedups, grouped by their pairs' blocks. */
  method Confidence(pairs: seq<Pair>, keys: seq<BlockKey>, speedups: seq<real>, repetitions: int, draws: nat -> nat)
    returns (r: Result<(real, real)>)
    requires |speedups| == |pairs| > 0
    requires forall k :: k in keys <==> exists i :: 0 <= i < |pairs| && pairs[i].key == k
    ensures repetitions <= 0 ==> r == Err(EmptyData)
    ensures repetitions > 0 ==> r.Ok? && r.value.0 <= r.value.1
    ensures repetitions > 0 ==> forall a, b :: Within(speedups, a, b) ==> a <= r.value.0 && r.value.1 <= b
    ensures repetitions > 0 ==>
      IsInterval(BlocksOf(Tagged(pairs, speedups), keys), keys, repetitions, draws, r.value)
  {
    hide Bootstrapped, Within, IsInterval;
    var items := Tagged(pairs, speedups);
    assert Values(items) == speedups;
    var blocks := GroupBlocks(items);
    assert blocks == BlocksOf(items, keys);
    assert forall i :: 0 <= i < |pairs| ==> items[i].0 == pairs[i].key;
    assert pairs[0].key in keys;
    hide Values;
    r := HierarchicalBootstrap(blocks, keys, repetitions, draws);
    BootstrapOutcome(blocks, keys, repetitions, draws);
    if repetitions > 0 {
      forall a, b | Within(speedups, a, b) ensures a <= r.value.0 <= r.value.1 <= b {
        BlocksWithin(items, blocks, keys, a, b);
        IntervalInRange(blocks, keys, repetitions, draws, a, b);
      }
      ghost var lo, hi := Bounds(speedups);
    }
  }

  /** Main result: exactly one verdict, the reduction bounded by the speedup, and a verdict of
      faster (slower) backed by some pair that was faster (slower). */
  lemma VerdictsAreSound(c: Comparison, ratios: seq<real>)
    requires Sound(c, ratios)
    ensures (c.faster && !c.slower && !c.indistinguishable) || (!c.faster && c.slower && !c.indistinguishable)
            || (!c.faster && !c.slower && c.indistinguishable)
    ensures c.reduction <= 100.0 * (1.0 - 1.0 / c.speedup)
    ensures c.reduction == 100.0 * (1.0 - 1.0 / c.speedup) <==> MiddleAgrees(Sort(ratios))
    ensures c.faster ==> exists i :: 0 <= i < |ratios| && ratios[i] > 1.0
    ensures c.slower ==> exists i :: 0 <= i < |ratios| && ratios[i] < 1.0
  {
    hide Median, MiddleAgrees;
    MedianReduction(ratios);
    var low, high := Bounds(ratios);
    if forall i :: 0 <= i < |ratios| ==> ratios[i] <= 1.0 { assert Within(ratios, low, 1.0); }
    if forall i :: 0 <= i < |ratios| ==> ratios[i] >= 1.0 { assert Within(ratios, 1.0, high); }
  }
}
