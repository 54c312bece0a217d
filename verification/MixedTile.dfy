/** The mixed masked tile (examples/mixed_tile_u32.rs) against its wide-integer oracle
    (examples/mixed_tile_oracle.rs). */
module MixedTile {
  import opened Words

  datatype Order = Blocked | Striped

  datatype Config = Config(base: U64, workgroups: U32, order: Order)

  datatype Error = BadLaunch | BadInitialization

  datatype Result = Ok | Err(error: Error)

  // ---- Positions ----

  /** The tile position of a lane's element. */
  function Position(order: Order, lane: nat, element: nat): nat {
    match order
    case Blocked => lane * 3 + element
    case Striped => element * 64 + lane
  }

  function LaneAt(order: Order, position: nat): nat { if order.Blocked? then position / 3 else position % 64 }

  function ElementAt(order: Order, position: nat): nat { if order.Blocked? then position % 3 else position / 64 }

  /** Both orders map the 64 x 3 elements one to one onto the 192 positions. */
  lemma PositionsAreBijective(order: Order, lane: nat, element: nat, position: nat)
    ensures lane < 64 && element < 3 ==>
      && Position(order, lane, element) < 192
      && LaneAt(order, Position(order, lane, element)) == lane
      && ElementAt(order, Position(order, lane, element)) == element
    ensures position < 192 ==>
      && LaneAt(order, position) < 64 && ElementAt(order, position) < 3
      && Position(order, LaneAt(order, position), ElementAt(order, position)) == position
  {
  }

  function Weight(element: nat): U32 { if element == 0 then 3 else if element == 1 then 5 else 7 }

  function Bias(element: nat): U32 { if element == 0 then 11 else if element == 1 then 13 else 17 }

  // ---- The oracle ----

  /** The wide index of an element; it can pass 2^64, where nothing is addressable. */
  function WideIndex(c: Config, lane: nat, element: nat): nat { c.base + Position(c.order, lane, element) }

  predicate Active(values: seq<U32>, c: Config, lane: nat, element: nat) {
    WideIndex(c, lane, element) < TWO64 && WideIndex(c, lane, element) < |values|
  }

  function Contribution(values: seq<U32>, c: Config, lane: nat, element: nat): nat {
    if Active(values, c, lane, element) then
      values[WideIndex(c, lane, element)] * Weight(element) + Bias(element)
    else 0
  }

  predicate AnyActive(values: seq<U32>, c: Config, lane: nat) { exists e :: 0 <= e < 3 && Active(values, c, lane, e) }

  /** The exact weighted sum of the first n elements of a lane. */
  function WideSum(values: seq<U32>, c: Config, lane: nat, n: nat): nat {
    if n == 0 then 0 else WideSum(values, c, lane, n - 1) + Contribution(values, c, lane, n - 1)
  }

  /** Spelled out: the lane's three values, weighed by 3, 5 and 7 with 11, 13 and 17 added, from three
      neighbouring places or from three places 64 apart; a place past 2^64 or past the values adds
      nothing. */
  lemma WideSumIs(values: seq<U32>, c: Config, lane: nat, x: nat, y: nat, z: nat)
    requires c.order.Blocked? ==> x == c.base + 3 * lane && y == c.base + 3 * lane + 1 && z == c.base + 3 * lane + 2
    requires c.order.Striped? ==> x == c.base + lane && y == c.base + 64 + lane && z == c.base + 128 + lane
    ensures WideSum(values, c, lane, 3) ==
      (if x < 0x1_0000_0000_0000_0000 && x < |values| then values[x] as int * 3 + 11 else 0)
      + (if y < 0x1_0000_0000_0000_0000 && y < |values| then values[y] as int * 5 + 13 else 0)
      + (if z < 0x1_0000_0000_0000_0000 && z < |values| then values[z] as int * 7 + 17 else 0)
    ensures AnyActive(values, c, lane) <==>
      || (x < 0x1_0000_0000_0000_0000 && x < |values|)
      || (y < 0x1_0000_0000_0000_0000 && y < |values|)
      || (z < 0x1_0000_0000_0000_0000 && z < |values|)
  {
    WideSumOfThree(values, c, lane);
    ActiveIff(values, c, lane);
    hide WideSum, AnyActive;
  }

  /** The launch's invocation count; zero and counts past 32 bits are refused. */
  predicate Launchable(c: Config) { 0 < c.workgroups && c.workgroups * 64 < TWO32 }

  /** What an output element should hold afterwards, and whether it is initialized. */
  function Expected(values: seq<U32>, c: Config, g: nat, value: U32): U32 {
    if g < c.workgroups * 64 && AnyActive(values, c, g % 64) then WideSum(values, c, g % 64, 3) % TWO32 else value
  }

  function Ready(values: seq<U32>, c: Config, g: nat, ready: bool): bool {
    ready || (g < c.workgroups * 64 && AnyActive(values, c, g % 64))
  }

  method OracleLane(values: seq<U32>, c: Config, lane: nat) returns (sum: nat, active: bool)
    ensures sum == WideSum(values, c, lane, 3) && active == AnyActive(values, c, lane)
  {
    hide Position;
    sum, active := 0, false;
    for element := 0 to 3
      invariant sum == WideSum(values, c, lane, element)
      invariant active == exists e :: 0 <= e < element && Active(values, c, lane, e)
    {
      var index := WideIndex(c, lane, element);
      if index <= TWO64 - 1 && index < |values| {
        sum := sum + values[index] * Weight(element) + Bias(element);
        active := true;
      }
    }
  }

  /** The specification loop: bad arguments change nothing; otherwise exactly the active lanes
      of the launch are stored and marked. */
  method Oracle(values: seq<U32>, c: Config, output: array<U32>, initialized: array<bool>) returns (r: Result)
    modifies output, initialized
    ensures !Launchable(c) ==> r == Err(BadLaunch)
    ensures Launchable(c) && initialized.Length != output.Length ==> r == Err(BadInitialization)
    ensures r.Err? ==> output[..] == old(output[..]) && initialized[..] == old(initialized[..])
    ensures Launchable(c) && initialized.Length == output.Length ==>
      && r == Ok
      && (forall g :: 0 <= g < output.Length ==> output[g] == Expected(values, c, g, old(output[g])))
      && (forall g :: 0 <= g < output.Length ==> initialized[g] == Ready(values, c, g, old(initialized[g])))
    ensures r == Err(BadLaunch) <==> c.workgroups * 64 == 0 || c.workgroups * 64 >= 0x1_0000_0000
    ensures r == Ok ==> 0 < c.workgroups * 64 < 0x1_0000_0000 && forall g :: 0 <= g < output.Length ==>
      if g < c.workgroups * 64 && AnyActive(values, c, g % 64)
      then output[g] == WideSum(values, c, g % 64, 3) % 0x1_0000_0000 && initialized[g]
      else output[g] == old(output[g]) && initialized[g] == old(initialized[g])
  {
    if c.workgroups * 64 >= TWO32 || c.workgroups == 0 { return Err(BadLaunch); }
    var invocations := c.workgroups * 64;
    if initialized.Length != output.Length { return Err(BadInitialization); }
    hide WideSum, AnyActive;
    var g := 0;
    while g < output.Length && g < invocations
      invariant g <= output.Length && g <= invocations
      invariant forall k :: 0 <= k < g ==> output[k] == Expected(values, c, k, old(output[k]))
      invariant forall k :: 0 <= k < g ==> initialized[k] == Ready(values, c, k, old(initialized[k]))
      invariant forall k :: g <= k < output.Length ==>
        output[k] == old(output[k]) && initialized[k] == old(initialized[k])
    {
      var sum, active := OracleLane(values, c, g % 64);
      if active {
        output[g] := sum % TWO32;
        initialized[g] := true;
      }
      g := g + 1;
    }
    return Ok;
  }

  // ---- The kernel ----

  /** The masked load's contract: an element is valid exactly when its index exists, and an
      invalid one reads zero. */
  function LoadMasked(input: seq<U32>, c: Config, lane: nat, element: nat): (U32, bool) {
    if Active(input, c, lane, element) then (input[WideIndex(c, lane, element)], true) else (0, false)
  }

  datatype Stored = Nothing | Value(value: U32)

  /** One lane: three masked wrapping terms and their wrapping sum. */
  method ProbeLane(input: seq<U32>, c: Config, lane: nat) returns (r: Stored)
    ensures r == if AnyActive(input, c, lane) then Value(WideSum(input, c, lane, 3) % TWO32) else Nothing
  {
    var (x, mx) := LoadMasked(input, c, lane, 0);
    var (y, my) := LoadMasked(input, c, lane, 1);
    var (z, mz) := LoadMasked(input, c, lane, 2);
    var a := if mx then Add(Mul(x, 3), 11) else 0;
    var b := if my then Add(Mul(y, 5), 13) else 0;
    var d := if mz then Add(Mul(z, 7), 17) else 0;
    TermsRefine(input, c, lane, a, b, d);
    ActiveIff(input, c, lane);
    if mx || my || mz {
      r := Value(Add(Add(a, b), d));
    } else {
      r := Nothing;
    }
  }

  lemma ActiveIff(input: seq<U32>, c: Config, lane: nat)
    ensures AnyActive(input, c, lane) <==>
      Active(input, c, lane, 0) || Active(input, c, lane, 1) || Active(input, c, lane, 2)
  {
    hide Active;
  }

  /** A wrapping term is its wide contribution modulo 2^32. */
  function Term(input: seq<U32>, c: Config, lane: nat, element: nat): U32 {
    var (v, m) := LoadMasked(input, c, lane, element);
    if m then Add(Mul(v, Weight(element)), Bias(element)) else 0
  }

  lemma TermIsWide(input: seq<U32>, c: Config, lane: nat, element: nat)
    ensures Term(input, c, lane, element) == Wrap(Contribution(input, c, lane, element))
  {
    hide Position, Add, Mul, Wrap;
    if Active(input, c, lane, element) {
      MulAddWraps(input[WideIndex(c, lane, element)], Weight(element), Bias(element));
    } else {
      WrapSmall(0);
    }
  }

  lemma WideSumOfThree(input: seq<U32>, c: Config, lane: nat)
    ensures WideSum(input, c, lane, 3) ==
      Contribution(input, c, lane, 0) + Contribution(input, c, lane, 1) + Contribution(input, c, lane, 2)
  {
    hide Contribution;
    assert WideSum(input, c, lane, 1) == WideSum(input, c, lane, 0) + Contribution(input, c, lane, 0);
    assert WideSum(input, c, lane, 2) == WideSum(input, c, lane, 1) + Contribution(input, c, lane, 1);
  }

  lemma WrapThree(x: nat, y: nat, z: nat)
    ensures Add(Add(Wrap(x), Wrap(y)), Wrap(z)) == Wrap(x + y + z)
  {
    hide Add, Wrap;
    AddWraps(x, y);
    AddWraps(x + y, z);
  }

  /** Wrapping at every step loses nothing: the lane's three terms add up to the oracle's sum. */
  lemma TermsRefine(input: seq<U32>, c: Config, lane: nat, a: U32, b: U32, d: U32)
    requires a == Term(input, c, lane, 0) && b == Term(input, c, lane, 1) && d == Term(input, c, lane, 2)
    ensures Add(Add(a, b), d) == Wrap(WideSum(input, c, lane, 3))
  {
    TermIsWide(input, c, lane, 0);
    TermIsWide(input, c, lane, 1);
    TermIsWide(input, c, lane, 2);
    WideSumOfThree(input, c, lane);
    hide Term, Contribution, Add, WideSum, Wrap;
    WrapThree(Contribution(input, c, lane, 0), Contribution(input, c, lane, 1), Contribution(input, c, lane, 2));
  }

  /** Main result: the kernel over the invocations of a launch, in any order, leaves the same
      output and the same initialization as the oracle. */
  method Probe(input: seq<U32>, c: Config, lanes: seq<nat>, output: array<U32>, initialized: array<bool>)
    requires initialized.Length == output.Length
    requires forall g :: 0 <= g < c.workgroups * 64 <==> g in lanes
    modifies output, initialized
    ensures forall g :: 0 <= g < output.Length ==> output[g] == Expected(input, c, g, old(output[g]))
    ensures forall g :: 0 <= g < output.Length ==> initialized[g] == Ready(input, c, g, old(initialized[g]))
    ensures forall g :: 0 <= g < output.Length ==>
      if g < c.workgroups * 64 && AnyActive(input, c, g % 64)
      then output[g] == WideSum(input, c, g % 64, 3) % 0x1_0000_0000 && initialized[g]
      else output[g] == old(output[g]) && initialized[g] == old(initialized[g])
  {
    hide WideSum, AnyActive;
    for i := 0 to |lanes|
      invariant forall g :: 0 <= g < output.Length ==>
        output[g] == if g in lanes[..i] then Expected(input, c, g, old(output[g])) else old(output[g])
      invariant forall g :: 0 <= g < output.Length ==>
        initialized[g] == if g in lanes[..i] then Ready(input, c, g, old(initialized[g])) else old(initialized[g])
    {
      var g := lanes[i];
      var stored := ProbeLane(input, c, g % 64);
      if stored.Value? && g < output.Length {
        output[g] := stored.value;
        initialized[g] := true;
      }
      assert lanes[..i + 1] == lanes[..i] + [g];
      assert g in lanes;
    }
    assert lanes[..|lanes|] == lanes;
  }
}
