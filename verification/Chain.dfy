/** The optimization chain of perf-evidence/analyze.py: each step's gain, and how the steps
    add up to the whole. */
module Chain {
  import opened Statistics
  import opened Paired

  /** One summarized series. */
  datatype Item = Item(operator: Operator, variant: string, median: real, hsaco: string, launch: string)

  datatype Share = NoShare | Percent(value: real)

  datatype Step = Step(previous: Item, current: Item, artifactsIdentical: bool, speedup: real, saved: real,
                       reduction: real, cumulative: real, cumulativeReduction: real, share: Share)

  datatype Report = Report(baseline: real, final: real, total: real, totalReduction: real, steps: seq<Step>)

  datatype Outcome = Absent | Reported(report: Report) | ManySeries | ZeroDivision | LogOfZero

  // ---- Series of a chain ----

  predicate Matches(x: Item, op: Operator, variant: string) { x.operator == op && x.variant == variant }

  function Matching(items: seq<Item>, op: Operator, variant: string): seq<Item> {
    if items == [] then []
    else (if Matches(items[0], op, variant) then [items[0]] else []) + Matching(items[1..], op, variant)
  }

  predicate Complete(items: seq<Item>, op: Operator, chain: seq<string>) {
    forall v :: v in chain ==> Matching(items, op, v) != []
  }

  predicate Unambiguous(items: seq<Item>, op: Operator, chain: seq<string>) {
    forall v :: v in chain ==> |Matching(items, op, v)| == 1
  }

  /** The chain's series in order. */
  function Selected(items: seq<Item>, op: Operator, chain: seq<string>): (r: seq<Item>)
    requires Unambiguous(items, op, chain)
    ensures |r| == |chain|
    ensures forall i :: 0 <= i < |chain| ==> r[i] == Matching(items, op, chain[i])[0]
  {
    if chain == [] then [] else
      assert forall v :: v in chain[1..] ==> v in chain;
      assert chain[0] in chain;
      [Matching(items, op, chain[0])[0]] + Selected(items, op, chain[1..])
  }

  lemma {:induction false} MatchingMatches(items: seq<Item>, op: Operator, variant: string)
    ensures forall x :: x in Matching(items, op, variant) <==> x in items && x.operator == op && x.variant == variant
  {
    if items != [] {
      MatchingMatches(items[1..], op, variant);
      assert forall x :: x in items <==> x == items[0] || x in items[1..];
    }
  }

  // ---- Steps ----

  ghost predicate Logarithm(log: real -> real) {
    forall x: real, y: real {:trigger Times(x, y)} :: x > 0.0 && y > 0.0 ==> log(Times(x, y)) == log(x) + log(y)
  }

  predicate Timed(s: seq<Item>) { forall i :: 0 <= i < |s| ==> s[i].median > 0.0 }

  function Quot(a: real, b: real): real
    requires b != 0.0
  { a / b }

  function Percentage(part: real, whole: real): real
    requires whole != 0.0
  { 100.0 * part / whole }

  function StepOf(s: seq<Item>, i: nat, log: real -> real): Step
    requires i + 1 < |s| && Timed(s)
  {
    var baseline, previous, current, final := s[0].median, s[i].median, s[i + 1].median, s[|s| - 1].median;
    var totalLog := log(Quot(baseline, final));
    Step(s[i], s[i + 1], s[i].hsaco == s[i + 1].hsaco, Quot(previous, current), previous - current,
         Percentage(previous - current, previous), Quot(baseline, current), Percentage(baseline - current, baseline),
         if totalLog != 0.0 then Percent(Percentage(log(Quot(previous, current)), totalLog)) else NoShare)
  }

  function Steps(s: seq<Item>, n: nat, log: real -> real): (r: seq<Step>)
    requires (n == 0 || n < |s|) && Timed(s)
    ensures |r| == n
    ensures forall i :: 0 <= i < n ==> r[i] == StepOf(s, i, log)
  {
    if n == 0 then [] else Steps(s, n - 1, log) + [StepOf(s, n - 1, log)]
  }

  function ReportOf(s: seq<Item>, log: real -> real): Report
    requires s != [] && Timed(s)
  {
    var baseline, final := s[0].median, s[|s| - 1].median;
    Report(baseline, final, Quot(baseline, final), Percentage(baseline - final, baseline), Steps(s, |s| - 1, log))
  }

  /** Spelled out: the report's totals ... */
  lemma ReportIs(s: seq<Item>, log: real -> real)
    requires s != [] && Timed(s)
    ensures var r, baseline, final := ReportOf(s, log), s[0].median, s[|s| - 1].median;
      && r.baseline == baseline && r.final == final && |r.steps| == |s| - 1
      && r.total == baseline / final && r.totalReduction == 100.0 * (baseline - final) / baseline
  {
  }

  /** ... and each of its steps, from one series to the next. */
  lemma StepIs(s: seq<Item>, i: nat, log: real -> real)
    requires i + 1 < |s| && Timed(s)
    ensures var x := ReportOf(s, log).steps[i];
      var baseline, previous, current, final := s[0].median, s[i].median, s[i + 1].median, s[|s| - 1].median;
      && x.previous == s[i] && x.current == s[i + 1] && (x.artifactsIdentical <==> s[i].hsaco == s[i + 1].hsaco)
      && x.speedup == previous / current && x.saved == previous - current
      && x.reduction == 100.0 * (previous - current) / previous
      && x.cumulative == baseline / current && x.cumulativeReduction == 100.0 * (baseline - current) / baseline
      && x.share == if log(baseline / final) == 0.0 then NoShare
                    else Percent(100.0 * log(previous / current) / log(baseline / final))
  {
    assert ReportOf(s, log).steps[i] == StepOf(s, i, log);
  }

  /** The contributions of a chain for one operator; medians are never negative. */
  method Contribute(items: seq<Item>, op: Operator, chain: seq<string>, log: real -> real) returns (r: Outcome)
    requires chain != [] && forall x :: x in items ==> x.median >= 0.0
    ensures !Complete(items, op, chain) ==> r == Absent
    ensures Complete(items, op, chain) && !Unambiguous(items, op, chain) ==> r == ManySeries
    ensures Complete(items, op, chain) && Unambiguous(items, op, chain) ==>
      var s := Selected(items, op, chain);
      && (Timed(s) ==> r == Reported(ReportOf(s, log)))
      && (!Timed(s) ==> r == if s[|s| - 1].median != 0.0 && s[0].median == 0.0 then LogOfZero else ZeroDivision)
  {
    for i := 0 to |chain|
      invariant forall j :: 0 <= j < i ==> Matching(items, op, chain[j]) != []
    {
      if |Matching(items, op, chain[i])| == 0 { return Absent; }
    }
    for i := 0 to |chain|
      invariant forall j :: 0 <= j < i ==> |Matching(items, op, chain[j])| == 1
    {
      if |Matching(items, op, chain[i])| != 1 { return ManySeries; }
    }
    var s := Selected(items, op, chain);
    forall i | 0 <= i < |s| ensures s[i].median >= 0.0 { MatchingMatches(items, op, chain[i]); }
    r := Assemble(s, log);
  }

  method Assemble(s: seq<Item>, log: real -> real) returns (r: Outcome)
    requires s != [] && forall i :: 0 <= i < |s| ==> s[i].median >= 0.0
    ensures Timed(s) ==> r == Reported(ReportOf(s, log))
    ensures !Timed(s) ==> r == if s[|s| - 1].median != 0.0 && s[0].median == 0.0 then LogOfZero else ZeroDivision
  {
    hide Quot, Percentage;
    var baseline, final := s[0].median, s[|s| - 1].median;
    if final == 0.0 { return ZeroDivision; }
    if baseline == 0.0 { return LogOfZero; }
    var totalLog := log(Quot(baseline, final));
    var steps: seq<Step> := [];
    for i := 0 to |s| - 1
      invariant Timed(s[..i + 1]) && |steps| == i
      invariant Timed(s) ==> steps == Steps(s, i, log)
    {
      var previous, current := s[i].median, s[i + 1].median;
      assert s[..i + 1][i] == s[i];
      if current == 0.0 { return ZeroDivision; }
      steps := steps + [Step(s[i], s[i + 1], s[i].hsaco == s[i + 1].hsaco, Quot(previous, current), previous - current,
        Percentage(previous - current, previous), Quot(baseline, current), Percentage(baseline - current, baseline),
        if totalLog != 0.0 then Percent(Percentage(log(Quot(previous, current)), totalLog)) else NoShare)];
    }
    assert s[..|s|] == s;
    return Reported(Report(baseline, final, Quot(baseline, final), Percentage(baseline - final, baseline), steps));
  }

  // ---- How steps add up ----

  function SpeedupProduct(steps: seq<Step>): real {
    if steps == [] then 1.0 else Times(SpeedupProduct(steps[..|steps| - 1]), steps[|steps| - 1].speedup)
  }

  function SavedSum(steps: seq<Step>): real {
    if steps == [] then 0.0 else SavedSum(steps[..|steps| - 1]) + steps[|steps| - 1].saved
  }

  /** The reported log contributions. */
  function ShareSum(steps: seq<Step>): real {
    if steps == [] then 0.0
    else
      var last := steps[|steps| - 1].share;
      ShareSum(steps[..|steps| - 1]) + if last.Percent? then last.value else 0.0
  }

  lemma QuotChain(a: real, b: real, c: real)
    requires b > 0.0 && c > 0.0
    ensures Times(Quot(a, b), Quot(b, c)) == Quot(a, c)
  {
    var u, v := 1.0 / b, 1.0 / c;
    Inverse(b);
    Quotient(a, b);
    Quotient(b, c);
    Quotient(a, c);
    assert (a * u) * (b * v) == (b * u) * (a * v);
  }

  lemma QuotPositive(a: real, b: real)
    requires a > 0.0 && b > 0.0
    ensures Quot(a, b) > 0.0 && Quot(a, a) == 1.0
  {
  }

  lemma StepsPrefix(s: seq<Item>, n: nat, log: real -> real)
    requires 0 < n < |s| && Timed(s)
    ensures Steps(s, n, log)[..n - 1] == Steps(s, n - 1, log)
    ensures Steps(s, n, log)[n - 1] == StepOf(s, n - 1, log)
  {
  }

  /** The first n steps multiply, sum and accumulate to the n-th series against the first. */
  lemma {:induction false} PrefixTelescopes(s: seq<Item>, n: nat, log: real -> real)
    requires n < |s| && Timed(s)
    ensures SpeedupProduct(Steps(s, n, log)) == Quot(s[0].median, s[n].median)
    ensures SavedSum(Steps(s, n, log)) == s[0].median - s[n].median
    ensures n > 0 ==> Steps(s, n, log)[n - 1].cumulative == SpeedupProduct(Steps(s, n, log))
  {
    if n == 0 {
      QuotPositive(s[0].median, s[0].median);
    } else {
      PrefixTelescopes(s, n - 1, log);
      StepsPrefix(s, n, log);
      hide Quot, Percentage, Times, Steps;
      QuotChain(s[0].median, s[n - 1].median, s[n].median);
    }
  }

  /** The log speedup from the first series to the i-th. */
  function LogTo(s: seq<Item>, i: nat, log: real -> real): real
    requires i < |s| && Timed(s)
  { log(Quot(s[0].median, s[i].median)) }

  /** The log speedup of one step. */
  function LogOver(s: seq<Item>, i: nat, log: real -> real): real
    requires i + 1 < |s| && Timed(s)
  { log(Quot(s[i].median, s[i + 1].median)) }

  lemma LogOfPrefix(s: seq<Item>, n: nat, log: real -> real)
    requires n + 1 < |s| && Timed(s) && Logarithm(log)
    ensures LogTo(s, n + 1, log) == LogTo(s, n, log) + LogOver(s, n, log)
  {
    hide Quot, Times;
    QuotChain(s[0].median, s[n].median, s[n + 1].median);
    QuotPositive(s[0].median, s[n].median);
    QuotPositive(s[n].median, s[n + 1].median);
  }

  lemma LogOfNothing(s: seq<Item>, log: real -> real)
    requires s != [] && Timed(s) && Logarithm(log)
    ensures LogTo(s, 0, log) == 0.0
  {
    LogOfOne(log);
    QuotPositive(s[0].median, s[0].median);
  }

  lemma LogOfOne(log: real -> real)
    requires Logarithm(log)
    ensures log(1.0) == 0.0
  {
    assert Times(1.0, 1.0) == 1.0;
  }

  lemma PercentageAdds(a: real, b: real, whole: real)
    requires whole != 0.0
    ensures Percentage(a, whole) + Percentage(b, whole) == Percentage(a + b, whole)
    ensures Percentage(0.0, whole) == 0.0 && Percentage(whole, whole) == 100.0
  {
  }

  lemma SharesReported(s: seq<Item>, i: nat, log: real -> real)
    requires i + 1 < |s| && Timed(s)
    ensures var totalLog, share := LogTo(s, |s| - 1, log), StepOf(s, i, log).share;
      if totalLog == 0.0 then share.NoShare? else share == Percent(Percentage(LogOver(s, i, log), totalLog))
  {
  }

  lemma ShareSumGrows(s: seq<Item>, n: nat, log: real -> real)
    requires n + 1 < |s| && Timed(s) && LogTo(s, |s| - 1, log) != 0.0
    ensures ShareSum(Steps(s, n + 1, log)) ==
      ShareSum(Steps(s, n, log)) + Percentage(LogOver(s, n, log), LogTo(s, |s| - 1, log))
  {
    hide LogTo, LogOver, Percentage, StepOf, Steps;
    StepsPrefix(s, n + 1, log);
    SharesReported(s, n, log);
  }

  lemma ShareStep(s: seq<Item>, n: nat, log: real -> real)
    requires n + 1 < |s| && Timed(s) && Logarithm(log) && LogTo(s, |s| - 1, log) != 0.0
    requires ShareSum(Steps(s, n, log)) == Percentage(LogTo(s, n, log), LogTo(s, |s| - 1, log))
    ensures ShareSum(Steps(s, n + 1, log)) == Percentage(LogTo(s, n + 1, log), LogTo(s, |s| - 1, log))
  {
    hide LogTo, LogOver, Percentage, StepOf, Logarithm, ShareSum, Steps;
    ShareSumGrows(s, n, log);
    LogOfPrefix(s, n, log);
    PercentageAdds(LogTo(s, n, log), LogOver(s, n, log), LogTo(s, |s| - 1, log));
  }

  lemma ShareStart(s: seq<Item>, log: real -> real)
    requires s != [] && Timed(s) && Logarithm(log) && LogTo(s, |s| - 1, log) != 0.0
    ensures ShareSum(Steps(s, 0, log)) == Percentage(LogTo(s, 0, log), LogTo(s, |s| - 1, log))
  {
    hide LogTo, Percentage, Logarithm;
    PercentageAdds(0.0, 0.0, LogTo(s, |s| - 1, log));
    LogOfNothing(s, log);
  }

  lemma {:induction false} SharesTelescope(s: seq<Item>, n: nat, log: real -> real)
    requires n < |s| && Timed(s) && Logarithm(log) && LogTo(s, |s| - 1, log) != 0.0
    ensures ShareSum(Steps(s, n, log)) == Percentage(LogTo(s, n, log), LogTo(s, |s| - 1, log))
  {
    hide *;
    if n == 0 {
      ShareStart(s, log);
    } else {
      SharesTelescope(s, n - 1, log);
      ShareStep(s, n - 1, log);
    }
  }

  lemma {:induction false} StepsAreStable(s: seq<Item>, n: nat, k: nat, log: real -> real)
    requires k <= n < |s| && Timed(s)
    ensures Steps(s, n, log)[..k] == Steps(s, k, log)
  {
    hide StepOf;
    if k < n {
      StepsAreStable(s, n - 1, k, log);
      assert Steps(s, n, log)[..k] == Steps(s, n - 1, log)[..k];
    }
  }

  /** Main result, for chains of any length: the incremental speedups multiply to the total
      speedup, the nanoseconds saved sum to baseline minus final, and every cumulative speedup
      is the product of the steps so far. */
  lemma ChainTelescopes(s: seq<Item>, log: real -> real)
    requires s != [] && Timed(s)
    ensures var r := ReportOf(s, log);
      SpeedupProduct(r.steps) == r.total && SavedSum(r.steps) == r.baseline - r.final
    ensures var r := ReportOf(s, log);
      forall i :: 0 <= i < |r.steps| ==> r.steps[i].cumulative == SpeedupProduct(r.steps[..i + 1])
  {
    hide Quot, Percentage, Times, StepOf, Steps, SpeedupProduct, SavedSum;
    var n := |s| - 1;
    PrefixTelescopes(s, n, log);
    forall i | 0 <= i < n ensures Steps(s, n, log)[i].cumulative == SpeedupProduct(Steps(s, n, log)[..i + 1]) {
      PrefixTelescopes(s, i + 1, log);
      StepsAreStable(s, n, i + 1, log);
      assert Steps(s, i + 1, log)[i] == StepOf(s, i, log) == Steps(s, n, log)[i];
    }
  }

  /** Main result: the log contributions are reported exactly when the total log speedup is not
      zero, and then they sum to 100. */
  lemma ContributionsSumTo100(s: seq<Item>, log: real -> real)
    requires s != [] && Timed(s) && Logarithm(log)
    ensures var r := ReportOf(s, log);
      forall i :: 0 <= i < |r.steps| ==> (r.steps[i].share.Percent? <==> log(r.total) != 0.0)
    ensures var r := ReportOf(s, log); log(r.total) != 0.0 ==> ShareSum(r.steps) == 100.0
  {
    var n := |s| - 1;
    assert log(ReportOf(s, log).total) == LogTo(s, n, log);
    hide Quot, Percentage, StepOf, ShareSum, Logarithm, LogTo, LogOver;
    forall i | 0 <= i < n ensures Steps(s, n, log)[i].share.Percent? <==> LogTo(s, n, log) != 0.0 {
      SharesReported(s, i, log);
    }
    if LogTo(s, n, log) != 0.0 {
      SharesTelescope(s, n, log);
      PercentageAdds(0.0, 0.0, LogTo(s, n, log));
    }
  }

  /** Every reported reduction is its speedup's: the time left times the speedup is the whole. */
  lemma ReductionsMatchSpeedups(s: seq<Item>, i: nat, log: real -> real)
    requires i + 1 < |s| && Timed(s)
    ensures Times(Times(100.0 - StepOf(s, i, log).reduction, StepOf(s, i, log).speedup), 0.01) == 1.0
    ensures Times(Times(100.0 - StepOf(s, i, log).cumulativeReduction, StepOf(s, i, log).cumulative), 0.01) == 1.0
  {
    hide Times, Quot, Percentage;
    Remaining(s[i].median, s[i + 1].median);
    Remaining(s[0].median, s[i + 1].median);
  }

  lemma Remaining(a: real, b: real)
    requires a > 0.0 && b > 0.0
    ensures Times(Times(100.0 - Percentage(a - b, a), Quot(a, b)), 0.01) == 1.0
  {
    var u, v := 1.0 / a, 1.0 / b;
    Inverse(a);
    Inverse(b);
    Quotient(a, b);
    ReductionForm(a, b, u);
    Exchange(b, v, a, u);
    assert (100.0 - 100.0 * (1.0 - b * u)) == 100.0 * (b * u);
  }
}
