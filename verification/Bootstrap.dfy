/** The hierarchical bootstrap of perf-evidence/analyze.py. The random generator is an
    arbitrary stream of draws, so every result holds for every seed and every generator. */
module Bootstrap {
  import opened Statistics

  // ---- Grouping ----

  function Select<K(==)>(items: seq<(K, real)>, key: K): seq<real> {
    if items == [] then []
    else
      var last := items[|items| - 1];
      Select(items[..|items| - 1], key) + (if last.0 == key then [last.1] else [])
  }

  function Values<K>(items: seq<(K, real)>): seq<real> { seq(|items|, i requires 0 <= i < |items| => items[i].1) }

  lemma SelectGrows<K>(items: seq<(K, real)>, key: K)
    requires items != []
    ensures var init, last := items[..|items| - 1], items[|items| - 1];
      Select(items, key) == Select(init, key) + if last.0 == key then [last.1] else []
  {
  }

  lemma {:induction false} Occurs<K>(items: seq<(K, real)>, key: K)
    ensures Select(items, key) != [] <==> exists j :: 0 <= j < |items| && items[j].0 == key
  {
    if items != [] {
      Occurs(items[..|items| - 1], key);
      if j :| 0 <= j < |items| && items[j].0 == key && j < |items| - 1 { assert items[..|items| - 1][j].0 == key; }
    }
  }

  /** One list per key that occurs, holding that key's values in order. */
  method GroupBlocks<K(==)>(items: seq<(K, real)>) returns (blocks: map<K, seq<real>>)
    ensures forall k :: k in blocks <==> exists j :: 0 <= j < |items| && items[j].0 == k
    ensures forall k :: k in blocks ==> blocks[k] == Select(items, k) && blocks[k] != []
  {
    hide Select;
    blocks := map[];
    forall k ensures Select(items[..0], k) == [] { Occurs(items[..0], k); }
    for i := 0 to |items|
      invariant forall k :: k in blocks <==> Select(items[..i], k) != []
      invariant forall k :: k in blocks ==> blocks[k] == Select(items[..i], k)
    {
      var key, value := items[i].0, items[i].1;
      forall k ensures Select(items[..i + 1], k) == Select(items[..i], k) + if key == k then [value] else [] {
        assert items[..i + 1][..i] == items[..i];
        SelectGrows(items[..i + 1], k);
      }
      blocks := blocks[key := (if key in blocks then blocks[key] else []) + [value]];
    }
    assert items[..|items|] == items;
    forall k ensures Select(items, k) != [] <==> exists j :: 0 <= j < |items| && items[j].0 == k { Occurs(items, k); }
  }

  /** Spelled out: a key's block takes the items with that key, all of them, in their order. */
  ghost predicate InOrder<K>(items: seq<(K, real)>, key: K, block: seq<real>, at: seq<nat>) {
    && |at| == |block|
    && (forall i, j :: 0 <= i < j < |at| ==> at[i] < at[j])
    && (forall j :: 0 <= j < |at| ==> at[j] < |items| && items[at[j]] == (key, block[j]))
    && (forall i: nat :: i < |items| && items[i].0 == key ==> i in at)
  }

  lemma InOrderSkips<K>(items: seq<(K, real)>, key: K, block: seq<real>, at: seq<nat>, last: (K, real))
    requires InOrder(items, key, block, at) && last.0 != key
    ensures InOrder(items + [last], key, block, at)
  {
  }

  lemma InOrderTakes<K>(items: seq<(K, real)>, key: K, block: seq<real>, at: seq<nat>, value: real)
    requires InOrder(items, key, block, at)
    ensures InOrder(items + [(key, value)], key, block + [value], at + [|items|])
  {
    assert (at + [|items|])[|at|] == |items|;
    assert forall i: nat :: i in at ==> i in at + [|items|];
  }

  lemma {:induction false} SelectInOrder<K>(items: seq<(K, real)>, key: K) returns (at: seq<nat>)
    ensures InOrder(items, key, Select(items, key), at)
  {
    if items == [] {
      at := [];
    } else {
      var init, last := items[..|items| - 1], items[|items| - 1];
      at := SelectInOrder(init, key);
      SelectGrows(items, key);
      assert items == init + [last];
      hide Select, InOrder;
      if last.0 == key {
        InOrderTakes(init, key, Select(init, key), at, last.1);
        at := at + [|init|];
      } else {
        InOrderSkips(init, key, Select(init, key), at, last);
      }
    }
  }

  lemma {:induction false} SelectedAre<K>(items: seq<(K, real)>, key: K, v: real)
    requires v in Select(items, key)
    ensures v in Values(items)
  {
    var init, last := items[..|items| - 1], items[|items| - 1];
    assert Values(items) == Values(init) + [last.1];
    if v in Select(init, key) { SelectedAre(init, key, v); }
  }

  /** All blocks, one after another. */
  function Pool<K(==)>(items: seq<(K, real)>, keys: seq<K>): seq<real> {
    if keys == [] then [] else Select(items, keys[0]) + Pool(items, keys[1..])
  }

  lemma {:induction false} PoolGrows<K>(items: seq<(K, real)>, keys: seq<K>)
    requires items != []
    requires forall i, j :: 0 <= i < j < |keys| ==> keys[i] != keys[j]
    ensures var init, last := items[..|items| - 1], items[|items| - 1];
      multiset(Pool(items, keys)) ==
        multiset(Pool(init, keys)) + if last.0 in keys then multiset{last.1} else multiset{}
  {
    if keys != [] {
      var init, last := items[..|items| - 1], items[|items| - 1];
      PoolGrows(items, keys[1..]);
      SelectGrows(items, keys[0]);
      HeadApart(keys, last.0);
      hide Select;
      if last.0 == keys[0] { assert multiset([last.1]) == multiset{last.1}; }
    }
  }

  lemma HeadApart<K>(keys: seq<K>, key: K)
    requires keys != [] && forall i, j :: 0 <= i < j < |keys| ==> keys[i] != keys[j]
    ensures keys[0] !in keys[1..] && (key in keys <==> key == keys[0] || key in keys[1..])
  {
    assert keys == [keys[0]] + keys[1..];
  }

  lemma {:induction false} NothingPooled<K>(keys: seq<K>)
    ensures Pool([], keys) == []
  {
    if keys != [] { NothingPooled(keys[1..]); }
  }

  lemma ValuesGrow<K>(items: seq<(K, real)>)
    requires items != []
    ensures Values(items) == Values(items[..|items| - 1]) + [items[|items| - 1].1]
  {
  }

  /** Grouping loses nothing and repeats nothing: the blocks partition the samples. */
  lemma {:induction false} BlocksPartition<K>(items: seq<(K, real)>, keys: seq<K>)
    requires forall i, j :: 0 <= i < j < |keys| ==> keys[i] != keys[j]
    requires forall i :: 0 <= i < |items| ==> items[i].0 in keys
    ensures multiset(Pool(items, keys)) == multiset(Values(items))
  {
    if items == [] {
      NothingPooled(keys);
    } else {
      var init, last := items[..|items| - 1], items[|items| - 1];
      assert last.0 in keys;
      BlocksPartition(init, keys);
      PoolGrows(items, keys);
      ValuesGrow(items);
      hide Pool, Values;
      assert multiset(Values(items)) == multiset(Values(init)) + multiset{last.1};
    }
  }

  // ---- Resampling ----

  /** The generator's choice of an element. */
  function Choice<T>(s: seq<T>, draw: nat): (x: T)
    requires s != []
    ensures x in s
  { s[draw % |s|] }

  /** n draws with replacement from a block. */
  function BlockDraws(block: seq<real>, draws: nat -> nat, at: nat, n: nat): (s: seq<real>)
    requires n > 0 ==> block != []
    ensures |s| == n && forall v :: v in s ==> v in block
    ensures forall j :: 0 <= j < n ==> s[j] == Choice(block, draws(at + j))
  {
    if n == 0 then [] else BlockDraws(block, draws, at, n - 1) + [Choice(block, draws(at + n - 1))]
  }

  /** n draws of a key, each followed by as many draws from its block as the block is long. */
  function Resample<K(==)>(groups: map<K, seq<real>>, keys: seq<K>, draws: nat -> nat, at: nat, n: nat)
    : (seq<real>, nat)
    requires forall k :: k in keys ==> k in groups
    requires n > 0 ==> keys != []
  {
    if n == 0 then ([], at)
    else
      var (sampled, next) := Resample(groups, keys, draws, at, n - 1);
      var block := groups[Choice(keys, draws(next))];
      (sampled + BlockDraws(block, draws, next + 1, |block|), next + 1 + |block|)
  }

  /** Spelled out for blocks of any lengths: draw p[i] chooses the i-th block, and the draws after it
      its samples, which stand from o[i] on. */
  ghost predicate IsResample<K>(groups: map<K, seq<real>>, keys: seq<K>, draws: nat -> nat, at: nat, n: nat,
                                      sampled: seq<real>, next: nat, p: seq<nat>, o: seq<nat>)
    requires forall k :: k in keys ==> k in groups
    requires n > 0 ==> keys != []
  {
    && |p| == |o| == n + 1 && p[0] == at && o[0] == 0 && p[n] == next && o[n] == |sampled|
    && forall i :: 0 <= i < n ==> DrawnAt(groups, keys, draws, sampled, p, o, i)
  }

  /** The i-th block. */
  ghost predicate DrawnAt<K>(groups: map<K, seq<real>>, keys: seq<K>, draws: nat -> nat,
                             sampled: seq<real>, p: seq<nat>, o: seq<nat>, i: nat)
    requires keys != [] && (forall k :: k in keys ==> k in groups) && |p| == |o| > i + 1
  { DrawsBlock(groups[Choice(keys, draws(p[i]))], draws, sampled, p[i], o[i], p[i + 1], o[i + 1]) }

  /** The samples from `from` up to `until` are drawn from the block, one draw each after draw `at`. */
  ghost predicate DrawsBlock(block: seq<real>, draws: nat -> nat, sampled: seq<real>,
                             at: nat, from: nat, next: nat, until: nat)
  {
    && next == at + 1 + |block| && from <= until <= |sampled|
    && sampled[from..until] ==
       seq(|block|, j requires 0 <= j < |block| => Choice(block, draws(at + 1 + j)))
  }

  lemma DrawsKept(block: seq<real>, draws: nat -> nat, sampled: seq<real>, more: seq<real>,
                  at: nat, from: nat, next: nat, until: nat)
    requires DrawsBlock(block, draws, sampled, at, from, next, until)
    ensures DrawsBlock(block, draws, sampled + more, at, from, next, until)
  {
    assert (sampled + more)[from..until] == sampled[from..until];
  }

  lemma DrawsNew(block: seq<real>, draws: nat -> nat, sampled: seq<real>, at: nat)
    ensures DrawsBlock(block, draws, sampled + BlockDraws(block, draws, at + 1, |block|),
                       at, |sampled|, at + 1 + |block|, |sampled| + |block|)
  {
    hide BlockDraws, Choice;
    var more := BlockDraws(block, draws, at + 1, |block|);
    assert (sampled + more)[|sampled|..|sampled| + |block|] == more;
  }

  lemma ResampleStep<K>(groups: map<K, seq<real>>, keys: seq<K>, draws: nat -> nat, at: nat, n: nat)
    requires forall k :: k in keys ==> k in groups
    requires keys != []
    ensures var (sampled, next) := Resample(groups, keys, draws, at, n);
      var block := groups[Choice(keys, draws(next))];
      Resample(groups, keys, draws, at, n + 1) ==
        (sampled + BlockDraws(block, draws, next + 1, |block|), next + 1 + |block|)
  {
  }

  lemma DrawnKept<K>(groups: map<K, seq<real>>, keys: seq<K>, draws: nat -> nat, sampled: seq<real>, more: seq<real>,
                     p: seq<nat>, o: seq<nat>, x: nat, y: nat, i: nat)
    requires keys != [] && (forall k :: k in keys ==> k in groups) && |p| == |o| > i + 1
    requires DrawnAt(groups, keys, draws, sampled, p, o, i)
    ensures DrawnAt(groups, keys, draws, sampled + more, p + [x], o + [y], i)
  {
    hide Choice, DrawsBlock;
    DrawsKept(groups[Choice(keys, draws(p[i]))], draws, sampled, more, p[i], o[i], p[i + 1], o[i + 1]);
  }

  lemma IsResampleGrows<K>(groups: map<K, seq<real>>, keys: seq<K>, draws: nat -> nat, at: nat, n: nat,
                           sampled: seq<real>, next: nat, p: seq<nat>, o: seq<nat>)
    requires keys != [] && (forall k :: k in keys ==> k in groups)
    requires IsResample(groups, keys, draws, at, n, sampled, next, p, o)
    ensures var block := groups[Choice(keys, draws(next))];
      IsResample(groups, keys, draws, at, n + 1, sampled + BlockDraws(block, draws, next + 1, |block|),
                 next + 1 + |block|, p + [next + 1 + |block|], o + [|sampled| + |block|])
  {
    hide BlockDraws, DrawsBlock, Choice;
    var block := groups[Choice(keys, draws(next))];
    var more := BlockDraws(block, draws, next + 1, |block|);
    DrawsNew(block, draws, sampled, next);
    var p1, o1 := p + [next + 1 + |block|], o + [|sampled| + |block|];
    assert DrawnAt(groups, keys, draws, sampled + more, p1, o1, n);
    hide DrawnAt;
    forall i | 0 <= i < n ensures DrawnAt(groups, keys, draws, sampled + more, p1, o1, i) {
      DrawnKept(groups, keys, draws, sampled, more, p, o, next + 1 + |block|, |sampled| + |block|, i);
    }
  }

  lemma NothingSampled<K>(groups: map<K, seq<real>>, keys: seq<K>, draws: nat -> nat, at: nat)
    returns (p: seq<nat>, o: seq<nat>)
    requires forall k :: k in keys ==> k in groups
    ensures var (sampled, next) := Resample(groups, keys, draws, at, 0);
      IsResample(groups, keys, draws, at, 0, sampled, next, p, o)
  {
    p, o := [at], [0];
  }

  lemma {:induction false} ResampleLaw<K>(groups: map<K, seq<real>>, keys: seq<K>, draws: nat -> nat, at: nat, n: nat)
    returns (p: seq<nat>, o: seq<nat>)
    requires forall k :: k in keys ==> k in groups
    requires n > 0 ==> keys != []
    ensures var (sampled, next) := Resample(groups, keys, draws, at, n);
      IsResample(groups, keys, draws, at, n, sampled, next, p, o)
  {
    hide *;
    if n == 0 {
      p, o := NothingSampled(groups, keys, draws, at);
    } else {
      var q, r := ResampleLaw(groups, keys, draws, at, n - 1);
      var (sampled, next) := Resample(groups, keys, draws, at, n - 1);
      var block := groups[Choice(keys, draws(next))];
      p, o := q + [next + 1 + |block|], r + [|sampled| + |block|];
      IsResampleGrows(groups, keys, draws, at, n - 1, sampled, next, q, r);
      ResampleStep(groups, keys, draws, at, n - 1);
    }
  }

  lemma LastBlock<K>(groups: map<K, seq<real>>, keys: seq<K>, draws: nat -> nat, at: nat, n: nat, length: nat, j: nat)
    requires forall k :: k in keys ==> k in groups && |groups[k]| == length
    requires keys != [] && j < length
    ensures var o, p := Multiple(n, length), at + Multiple(n, length + 1);
      && o + j < |Resample(groups, keys, draws, at, n + 1).0|
      && Resample(groups, keys, draws, at, n + 1).0[o + j] == Choice(groups[Choice(keys, draws(p))], draws(p + 1 + j))
  {
    hide *;
    ResampleSize(groups, keys, draws, at, n, length);
    ResampleStep(groups, keys, draws, at, n);
  }

  lemma EarlierBlock<K>(groups: map<K, seq<real>>, keys: seq<K>, draws: nat -> nat, at: nat, n: nat, i: nat)
    requires forall k :: k in keys ==> k in groups
    requires keys != [] && i < |Resample(groups, keys, draws, at, n).0|
    ensures i < |Resample(groups, keys, draws, at, n + 1).0|
    ensures Resample(groups, keys, draws, at, n + 1).0[i] == Resample(groups, keys, draws, at, n).0[i]
  {
    hide *;
    ResampleStep(groups, keys, draws, at, n);
  }

  lemma {:induction false} ResampleChoice<K>(groups: map<K, seq<real>>, keys: seq<K>, draws: nat -> nat,
                                             at: nat, n: nat, length: nat, i: nat, j: nat)
    requires forall k :: k in keys ==> k in groups && |groups[k]| == length
    requires keys != [] && i < n && j < length
    ensures var o, p := Multiple(i, length), at + Multiple(i, length + 1);
      && o + j < |Resample(groups, keys, draws, at, n).0|
      && Resample(groups, keys, draws, at, n).0[o + j] == Choice(groups[Choice(keys, draws(p))], draws(p + 1 + j))
  {
    hide *;
    if i < n - 1 {
      ResampleChoice(groups, keys, draws, at, n - 1, length, i, j);
      EarlierBlock(groups, keys, draws, at, n - 1, Multiple(i, length) + j);
    } else {
      LastBlock(groups, keys, draws, at, n - 1, length, j);
    }
  }

  lemma MultipleIs(n: nat, length: nat)
    ensures Multiple(n, length) == n * length && Multiple(n, length + 1) == n * (length + 1)
  {
  }

  lemma ChoiceIs<T>(s: seq<T>, draw: nat)
    requires s != []
    ensures Choice(s, draw) == s[draw % |s|]
  {
  }

  /** Spelled out for blocks of one length L: draw p = at + i (L + 1) chooses the i-th block, and
      sample i L + j is the element of it that draw p + 1 + j chooses. */
  lemma ResampleAt<K>(groups: map<K, seq<real>>, keys: seq<K>, draws: nat -> nat, at: nat, n: nat,
                      length: nat, i: nat, j: nat, o: nat, p: nat, key: K)
    requires forall k :: k in keys ==> k in groups && |groups[k]| == length
    requires keys != [] && i < n && j < length && o == i * length && p == at + i * (length + 1)
    requires key == keys[draws(p) % |keys|]
    ensures key in groups && o + j < |Resample(groups, keys, draws, at, n).0|
    ensures Resample(groups, keys, draws, at, n).0[o + j] == groups[key][draws(p + 1 + j) % |groups[key]|]
  {
    hide *;
    MultipleIs(i, length);
    ResampleChoice(groups, keys, draws, at, n, length, i, j);
    ChoiceIs(keys, draws(p));
    ChoiceIs(groups[key], draws(p + 1 + j));
  }

  function Estimates<K(==)>(groups: map<K, seq<real>>, keys: seq<K>, draws: nat -> nat, n: nat)
    : (Result<seq<real>>, nat)
    requires forall k :: k in keys ==> k in groups
  {
    if n == 0 then (Ok([]), 0)
    else
      var (earlier, at) := Estimates(groups, keys, draws, n - 1);
      if earlier.Err? then (earlier, at)
      else
        var (sampled, next) := Resample(groups, keys, draws, at, |keys|);
        match Median(sampled)
        case Err(e) => (Err(e), next)
        case Ok(m) => (Ok(earlier.value + [m]), next)
  }

  function Interval(estimates: seq<real>): Result<(real, real)> {
    match (Percentile(estimates, 0.025), Percentile(estimates, 0.975))
    case (Ok(low), Ok(high)) => Ok((low, high))
    case (Err(e), _) => Err(e)
    case (_, Err(e)) => Err(e)
  }

  function Bootstrapped<K(==)>(groups: map<K, seq<real>>, keys: seq<K>, repetitions: int, draws: nat -> nat)
    : Result<(real, real)>
    requires forall k :: k in keys ==> k in groups
  {
    match Estimates(groups, keys, draws, if repetitions < 0 then 0 else repetitions).0
    case Err(e) => Err(e)
    case Ok(estimates) => Interval(estimates)
  }

  /** Spelled out: repetition i draws from draw starts[i] on, one block for each key there is, and
      its estimate is the median of what it sampled. */
  ghost predicate IsEstimates<K>(groups: map<K, seq<real>>, keys: seq<K>, draws: nat -> nat,
                                 estimates: seq<real>, starts: seq<nat>)
    requires forall k :: k in keys ==> k in groups
  {
    && |starts| == |estimates| + 1 && starts[0] == 0
    && forall i :: 0 <= i < |estimates| ==> EstimateAt(groups, keys, draws, estimates[i], starts, i)
  }

  ghost predicate EstimateAt<K>(groups: map<K, seq<real>>, keys: seq<K>, draws: nat -> nat,
                                estimate: real, starts: seq<nat>, i: nat)
    requires (forall k :: k in keys ==> k in groups) && i + 1 < |starts|
  {
    var (sampled, next) := Resample(groups, keys, draws, starts[i], |keys|);
    Median(sampled) == Ok(estimate) && starts[i + 1] == next
  }

  lemma {:induction false} EstimatesLaw<K>(groups: map<K, seq<real>>, keys: seq<K>, draws: nat -> nat, n: nat)
    returns (starts: seq<nat>)
    requires (forall k :: k in keys ==> k in groups) && Estimates(groups, keys, draws, n).0.Ok?
    ensures var (estimates, next) := Estimates(groups, keys, draws, n);
      && |estimates.value| == n && IsEstimates(groups, keys, draws, estimates.value, starts) && starts[n] == next
  {
    hide Resample, Median;
    if n == 0 {
      starts := [0];
    } else {
      var before := EstimatesLaw(groups, keys, draws, n - 1);
      var (estimates, next) := Estimates(groups, keys, draws, n);
      starts := before + [next];
      assert EstimateAt(groups, keys, draws, estimates.value[n - 1], starts, n - 1);
      var earlier := Estimates(groups, keys, draws, n - 1).0.value;
      hide Estimates;
      forall i | 0 <= i < n - 1 ensures EstimateAt(groups, keys, draws, estimates.value[i], starts, i) {
        assert EstimateAt(groups, keys, draws, earlier[i], before, i);
      }
    }
  }

  /** The interval is the 2.5th and the 97.5th percentile of the estimates. */
  ghost predicate IsInterval<K>(groups: map<K, seq<real>>, keys: seq<K>, repetitions: int, draws: nat -> nat,
                                interval: (real, real))
    requires forall k :: k in keys ==> k in groups
  {
    exists estimates: seq<real>, starts: seq<nat> ::
      && IsEstimates(groups, keys, draws, estimates, starts) && |estimates| == repetitions
      && Percentile(estimates, 0.025) == Ok(interval.0) && Percentile(estimates, 0.975) == Ok(interval.1)
  }

  lemma BootstrapIs<K>(groups: map<K, seq<real>>, keys: seq<K>, repetitions: int, draws: nat -> nat)
    requires (forall k :: k in keys ==> k in groups) && Bootstrapped(groups, keys, repetitions, draws).Ok?
    ensures IsInterval(groups, keys, repetitions, draws, Bootstrapped(groups, keys, repetitions, draws).value)
  {
    var n := if repetitions < 0 then 0 else repetitions;
    var starts := EstimatesLaw(groups, keys, draws, n);
    var estimates := Estimates(groups, keys, draws, n).0.value;
    PercentileOutcome(estimates, 0.025);
    hide Percentile, Estimates, IsEstimates;
  }

  method DrawBlock(block: seq<real>, draws: nat -> nat, at: nat) returns (sampled: seq<real>, next: nat)
    ensures sampled == BlockDraws(block, draws, at, |block|) && next == at + |block|
  {
    sampled, next := [], at;
    for j := 0 to |block|
      invariant next == at + j && sampled == BlockDraws(block, draws, at, j)
    {
      sampled := sampled + [Choice(block, draws(next))];
      next := next + 1;
    }
  }

  method DrawGroups<K(==)>(groups: map<K, seq<real>>, keys: seq<K>, draws: nat -> nat, at: nat)
    returns (sampled: seq<real>, next: nat)
    requires forall k :: k in keys ==> k in groups
    ensures (sampled, next) == Resample(groups, keys, draws, at, |keys|)
  {
    hide BlockDraws;
    sampled, next := [], at;
    for i := 0 to |keys|
      invariant (sampled, next) == Resample(groups, keys, draws, at, i)
    {
      var key := Choice(keys, draws(next));
      var block: seq<real>;
      block, next := DrawBlock(groups[key], draws, next + 1);
      sampled := sampled + block;
    }
  }

  /** The nested loops; `keys` lists the groups' keys in the order of the source's sort. */
  method HierarchicalBootstrap<K(==)>(groups: map<K, seq<real>>, keys: seq<K>, repetitions: int, draws: nat -> nat)
    returns (r: Result<(real, real)>)
    requires forall k :: k in keys ==> k in groups
    ensures r == Bootstrapped(groups, keys, repetitions, draws)
    ensures r.Ok? ==> IsInterval(groups, keys, repetitions, draws, r.value)
  {
    hide Median, Percentile, Resample, IsInterval;
    var estimates: seq<real>, at: nat, rep := [], 0, 0;
    while rep < repetitions
      invariant 0 <= rep && (repetitions >= 0 ==> rep <= repetitions) && (repetitions < 0 ==> rep == 0)
      invariant Estimates(groups, keys, draws, rep) == (Ok(estimates), at)
    {
      var sampled: seq<real>;
      sampled, at := DrawGroups(groups, keys, draws, at);
      rep := rep + 1;
      match Median(sampled) {
        case Err(e) =>
          StopsAt(groups, keys, draws, rep, repetitions);
          return Err(e);
        case Ok(m) => estimates := estimates + [m];
      }
    }
    r := Interval(estimates);
    if r.Ok? { BootstrapIs(groups, keys, repetitions, draws); }
  }

  /** The first failure is the outcome. */
  lemma {:induction false} StopsAt<K>(groups: map<K, seq<real>>, keys: seq<K>, draws: nat -> nat, n: nat, total: nat)
    requires forall k :: k in keys ==> k in groups
    requires n <= total && Estimates(groups, keys, draws, n).0.Err?
    ensures Estimates(groups, keys, draws, total).0 == Estimates(groups, keys, draws, n).0
  {
    hide Median, Resample;
    if n < total { StopsAt(groups, keys, draws, n, total - 1); }
  }

  // ---- Results for every stream ----

  predicate Within(s: seq<real>, low: real, high: real) { forall v :: v in s ==> low <= v <= high }

  predicate GroupsWithin<K>(groups: map<K, seq<real>>, keys: seq<K>, low: real, high: real)
    requires forall k :: k in keys ==> k in groups
  {
    forall k :: k in keys ==> groups[k] != [] && Within(groups[k], low, high)
  }

  lemma {:induction false} ResampleWithin<K>(groups: map<K, seq<real>>, keys: seq<K>, draws: nat -> nat,
                                             at: nat, n: nat, low: real, high: real)
    requires forall k :: k in keys ==> k in groups
    requires keys != [] && GroupsWithin(groups, keys, low, high)
    ensures Within(Resample(groups, keys, draws, at, n).0, low, high)
    ensures |Resample(groups, keys, draws, at, n).0| >= n
  {
    if n > 0 {
      ResampleWithin(groups, keys, draws, at, n - 1, low, high);
      var (sampled, next) := Resample(groups, keys, draws, at, n - 1);
      assert Choice(keys, draws(next)) in keys;
    }
  }

  function Multiple(n: nat, length: nat): nat { n * length }

  lemma NextMultiple(n: nat, length: nat)
    ensures Multiple(n + 1, length) == Multiple(n, length) + length && Multiple(0, length) == 0
  {
  }

  /** With blocks of one length, a resample of n keys has n blocks' worth of samples and uses one
      draw for each key and one for each sample. */
  lemma {:induction false} ResampleSize<K>(groups: map<K, seq<real>>, keys: seq<K>, draws: nat -> nat,
                                           at: nat, n: nat, length: nat)
    requires forall k :: k in keys ==> k in groups && |groups[k]| == length
    requires keys != []
    ensures |Resample(groups, keys, draws, at, n).0| == Multiple(n, length)
    ensures Resample(groups, keys, draws, at, n).1 == at + Multiple(n, length + 1)
  {
    hide *;
    if n == 0 {
      NothingDrawn(groups, keys, draws, at, length);
    } else {
      ResampleSize(groups, keys, draws, at, n - 1, length);
      ResampleStep(groups, keys, draws, at, n - 1);
      NextMultiple(n - 1, length);
      NextMultiple(n - 1, length + 1);
    }
  }

  lemma NothingDrawn<K>(groups: map<K, seq<real>>, keys: seq<K>, draws: nat -> nat, at: nat, length: nat)
    requires forall k :: k in keys ==> k in groups
    ensures Resample(groups, keys, draws, at, 0) == ([], at) && Multiple(0, length) == 0 && Multiple(0, length + 1) == 0
  {
  }

  lemma MedianWithin(s: seq<real>, low: real, high: real)
    requires s != [] && Within(s, low, high)
    ensures Median(s).Ok? && low <= Median(s).value <= high
  {
    hide Median, Percentile;
    MedianIsPercentile(s);
    PercentileInRange(s, 0.5, low, high);
  }

  lemma {:induction false} EstimatesWithin<K>(groups: map<K, seq<real>>, keys: seq<K>, draws: nat -> nat, n: nat,
                                              low: real, high: real)
    requires forall k :: k in keys ==> k in groups
    requires keys != [] && GroupsWithin(groups, keys, low, high)
    ensures var e := Estimates(groups, keys, draws, n).0; e.Ok? && |e.value| == n && Within(e.value, low, high)
  {
    hide Median, Resample;
    if n > 0 {
      EstimatesWithin(groups, keys, draws, n - 1, low, high);
      var at := Estimates(groups, keys, draws, n - 1).1;
      ResampleWithin(groups, keys, draws, at, |keys|, low, high);
      MedianWithin(Resample(groups, keys, draws, at, |keys|).0, low, high);
    }
  }

  /** Main result: for every stream of draws the interval is ordered and inside the data. */
  lemma IntervalInRange<K>(groups: map<K, seq<real>>, keys: seq<K>, repetitions: int, draws: nat -> nat,
                           low: real, high: real)
    requires forall k :: k in keys ==> k in groups
    requires keys != [] && repetitions > 0 && GroupsWithin(groups, keys, low, high)
    ensures var r := Bootstrapped(groups, keys, repetitions, draws);
      r.Ok? && low <= r.value.0 <= r.value.1 <= high
  {
    hide Percentile;
    EstimatesWithin(groups, keys, draws, repetitions, low, high);
    var estimates := Estimates(groups, keys, draws, repetitions).0.value;
    PercentileInRange(estimates, 0.025, low, high);
    PercentileInRange(estimates, 0.975, low, high);
    PercentileMonotone(estimates, 0.025, 0.975);
  }

  /** The bootstrap fails exactly when it has no blocks or makes no repetitions. */
  lemma BootstrapOutcome<K>(groups: map<K, seq<real>>, keys: seq<K>, repetitions: int, draws: nat -> nat)
    requires forall k :: k in keys ==> k in groups && groups[k] != []
    ensures Bootstrapped(groups, keys, repetitions, draws).Ok? <==> keys != [] && repetitions > 0
    ensures keys == [] || repetitions <= 0 ==> Bootstrapped(groups, keys, repetitions, draws) == Err(EmptyData)
  {
    if keys != [] && repetitions > 0 {
      var low, high := GroupBounds(groups, keys);
      IntervalInRange(groups, keys, repetitions, draws, low, high);
    } else if repetitions > 0 {
      var first := Estimates(groups, keys, draws, 1).0;
      assert Estimates(groups, keys, draws, 0) == (Ok([]), 0);
      assert first == Err(EmptyData);
      StopsAt(groups, keys, draws, 1, repetitions);
    }
  }

  lemma Bounds(values: seq<real>) returns (low: real, high: real)
    requires values != []
    ensures Within(values, low, high)
  {
    EndsOf(values);
    SortSorts(values);
    low, high := Percentile(values, 0.0).value, Percentile(values, 1.0).value;
  }

  lemma {:induction false} GroupBounds<K>(groups: map<K, seq<real>>, keys: seq<K>) returns (low: real, high: real)
    requires forall k :: k in keys ==> k in groups && groups[k] != []
    ensures GroupsWithin(groups, keys, low, high)
  {
    if keys == [] {
      low, high := 0.0, 0.0;
    } else {
      var a, b := GroupBounds(groups, keys[1..]);
      var c, d := Bounds(groups[keys[0]]);
      low, high := if a <= c then a else c, if b >= d then b else d;
      assert keys == [keys[0]] + keys[1..];
    }
  }

  // ---- One series ----

  datatype Summary = Summary(median: real, p5: real, p95: real, mad: real, low: real, high: real)

  function Deviations(values: seq<real>, median: real): (d: seq<real>)
    ensures |d| == |values| && forall v :: v in d ==> v >= 0.0
    ensures forall i :: 0 <= i < |d| ==> d[i] == values[i] - median || d[i] == median - values[i]
  {
    seq(|values|, i requires 0 <= i < |values| =>
      if values[i] >= median then values[i] - median else median - values[i])
  }

  /** The blocks of items, one for each key. */
  function BlocksOf<K(==)>(items: seq<(K, real)>, keys: seq<K>): map<K, seq<real>> {
    map k | k in keys :: Select(items, k)
  }

  /** A series' summary from its samples, grouped into blocks by campaign, process and block. */
  method Summarize<K(==)>(items: seq<(K, real)>, keys: seq<K>, repetitions: int, draws: nat -> nat)
    returns (r: Result<Summary>)
    requires forall k :: k in keys <==> exists j :: 0 <= j < |items| && items[j].0 == k
    ensures items != [] && repetitions > 0 <==> r.Ok?
    ensures r.Ok? ==>
      var s, values := r.value, Values(items);
      && Median(values) == Ok(s.median) && Median(Deviations(values, s.median)) == Ok(s.mad)
      && Percentile(values, 0.05) == Ok(s.p5) && Percentile(values, 0.95) == Ok(s.p95)
      && IsInterval(BlocksOf(items, keys), keys, repetitions, draws, (s.low, s.high))
      && s.p5 <= s.median <= s.p95 && s.mad >= 0.0 && s.low <= s.high
      && forall a, b :: Within(values, a, b) ==>
        && a <= s.p5 && s.p95 <= b && a <= s.low && s.high <= b && s.mad <= b - a
  {
    hide Median, Percentile, Bootstrapped, Within, IsInterval;
    var values := Values(items);
    var blocks := GroupBlocks(items);
    assert blocks == BlocksOf(items, keys);
    if |values| == 0 { return Err(EmptyData); }
    assert items[0].0 in keys;
    assert forall a, b :: Within(values, a, b) ==> GroupsWithin(blocks, keys, a, b) by {
      forall a, b | Within(values, a, b) ensures GroupsWithin(blocks, keys, a, b) {
        BlocksWithin(items, blocks, keys, a, b);
      }
    }
    var median := Median(values);
    var interval := HierarchicalBootstrap(blocks, keys, repetitions, draws);
    ghost var lo, hi := Bounds(values);
    SeriesFacts(values, lo, hi);
    BootstrapOutcome(blocks, keys, repetitions, draws);
    if interval.Err? { return Err(interval.error); }
    var mad := Median(Deviations(values, median.value));
    r := Ok(Summary(median.value, Percentile(values, 0.05).value, Percentile(values, 0.95).value, mad.value,
                    interval.value.0, interval.value.1));
    forall a, b | Within(values, a, b)
      ensures a <= r.value.p5 && r.value.p95 <= b && a <= r.value.low && r.value.high <= b && r.value.mad <= b - a
    {
      SeriesFacts(values, a, b);
      IntervalInRange(blocks, keys, repetitions, draws, a, b);
    }
    IntervalInRange(blocks, keys, repetitions, draws, lo, hi);
  }

  lemma BlocksWithin<K>(items: seq<(K, real)>, blocks: map<K, seq<real>>, keys: seq<K>, low: real, high: real)
    requires forall k :: k in keys ==> k in blocks && blocks[k] == Select(items, k) && blocks[k] != []
    requires Within(Values(items), low, high)
    ensures GroupsWithin(blocks, keys, low, high)
  {
    forall k, v | k in keys && v in blocks[k] ensures low <= v <= high { SelectedAre(items, k, v); }
  }

  lemma DeviationsWithin(values: seq<real>, median: real, low: real, high: real)
    requires Within(values, low, high) && low <= median <= high
    ensures Within(Deviations(values, median), 0.0, high - low)
  {
    forall v | v in Deviations(values, median) ensures 0.0 <= v <= high - low {
      var i :| 0 <= i < |values| && Deviations(values, median)[i] == v;
      assert values[i] in values;
    }
  }

  lemma SeriesFacts(values: seq<real>, low: real, high: real)
    requires values != [] && Within(values, low, high)
    ensures Median(values).Ok? && Percentile(values, 0.05).Ok? && Percentile(values, 0.95).Ok?
    ensures low <= Percentile(values, 0.05).value <= Median(values).value <= Percentile(values, 0.95).value <= high
    ensures var mad := Median(Deviations(values, Median(values).value)); mad.Ok? && 0.0 <= mad.value <= high - low
  {
    hide Median, Percentile;
    MedianIsPercentile(values);
    PercentileMonotone(values, 0.05, 0.5);
    PercentileMonotone(values, 0.5, 0.95);
    PercentileInRange(values, 0.05, low, high);
    PercentileInRange(values, 0.95, low, high);
    var d := Deviations(values, Median(values).value);
    DeviationsWithin(values, Median(values).value, low, high);
    MedianWithin(d, 0.0, high - low);
  }
}
