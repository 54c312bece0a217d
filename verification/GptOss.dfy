/** The pairing check of perf-evidence/analyze-gpt-oss.py: every trial must have one fused
    record and one record of each unfused stage, and nothing else. */
module GptOss {
  datatype Key = Key(campaign: string, process: nat, block: nat, sample: nat)

  datatype Record = Record(variant: string, kernelExport: string, key: Key, duration: nat)

  const FUSED_EXPORT := "gfx950_gpt_oss_120b_decode_megakernel_v1"
  const ROUTER := "gpt_oss_unfused_router"
  const ATTENTION := "gpt_oss_unfused_attention"
  const EXPERT := "gpt_oss_unfused_expert"
  const STAGES := {ROUTER, ATTENTION, EXPERT}
  const EXPECTED: nat := 5 * 30 * 100

  predicate IsFused(x: Record) { x.variant == "fused-optimized" && x.kernelExport == FUSED_EXPORT }

  predicate IsStage(x: Record) { x.variant == "exact-unfused" && x.kernelExport in STAGES }

  lemma StagesAreDistinct()
    ensures ROUTER != ATTENTION && ATTENTION != EXPERT && ROUTER != EXPERT
    ensures FUSED_EXPORT !in STAGES && |STAGES| == 3
  {
    assert |ROUTER| == 22 && |ATTENTION| == 25 && |EXPERT| == 22 && |FUSED_EXPORT| == 40;
    assert ROUTER[16] != EXPERT[16];
  }

  // ---- What acceptance should mean ----

  predicate Same(x: Record, y: Record) { x.variant == y.variant && x.kernelExport == y.kernelExport && x.key == y.key }

  predicate HasFused(records: seq<Record>, k: Key) {
    exists i :: 0 <= i < |records| && IsFused(records[i]) && records[i].key == k
  }

  predicate HasStage(records: seq<Record>, k: Key, e: string) {
    exists i :: 0 <= i < |records| && IsStage(records[i]) && records[i].key == k && records[i].kernelExport == e
  }

  function FusedKeys(records: seq<Record>): set<Key> { set x | x in records && IsFused(x) :: x.key }

  predicate Classified(records: seq<Record>) {
    forall i :: 0 <= i < |records| ==> IsFused(records[i]) || IsStage(records[i])
  }

  predicate Distinct(records: seq<Record>) { forall i, j :: 0 <= i < j < |records| ==> !Same(records[i], records[j]) }

  /** A trial with a fused record has every stage, and a trial without one has none. */
  ghost predicate PairedAt(records: seq<Record>, k: Key) {
    forall e :: e in STAGES ==> (HasStage(records, k, e) <==> HasFused(records, k))
  }

  ghost predicate Paired(records: seq<Record>) { forall k :: PairedAt(records, k) }

  ghost predicate Acceptable(records: seq<Record>) {
    Classified(records) && Distinct(records) && Paired(records) && |FusedKeys(records)| == EXPECTED
  }

  // ---- The tally ----

  datatype Tally = Tally(fused: map<Key, nat>, parts: map<Key, map<string, nat>>)

  predicate Taken(t: Tally, x: Record) {
    if IsFused(x) then x.key in t.fused else x.key in t.parts && x.kernelExport in t.parts[x.key]
  }

  function PartsOf(t: Tally, k: Key): map<string, nat> { if k in t.parts then t.parts[k] else map[] }

  function Put(t: Tally, x: Record): Tally {
    if IsFused(x) then t.(fused := t.fused[x.key := x.duration])
    else t.(parts := t.parts[x.key := PartsOf(t, x.key)[x.kernelExport := x.duration]])
  }

  function At(p: map<string, nat>, e: string): nat { if e in p then p[e] else 0 }

  /** The time of a trial's stages. */
  function StageSum(p: map<string, nat>): nat { At(p, ROUTER) + At(p, ATTENTION) + At(p, EXPERT) }

  /** The time of a trial's stage records, and of all stage records. */
  function KeyTotal(records: seq<Record>, k: Key): nat {
    if records == [] then 0
    else
      var x := records[|records| - 1];
      KeyTotal(records[..|records| - 1], k) + if IsStage(x) && x.key == k then x.duration else 0
  }

  function StageTotal(records: seq<Record>): nat {
    if records == [] then 0
    else
      var x := records[|records| - 1];
      StageTotal(records[..|records| - 1]) + if IsStage(x) then x.duration else 0
  }

  /** The tally is exactly the records seen. */
  ghost predicate Holds(t: Tally, records: seq<Record>) {
    && Classified(records) && Distinct(records)
    && (forall k :: k in t.fused <==> HasFused(records, k))
    && (forall k :: k in t.parts ==> t.parts[k] != map[])
    && (forall k, e :: e in PartsOf(t, k) <==> HasStage(records, k, e))
    && (forall i :: 0 <= i < |records| && IsFused(records[i]) ==> t.fused[records[i].key] == records[i].duration)
    && (forall k :: StageSum(PartsOf(t, k)) == KeyTotal(records, k))
  }

  lemma FusedGrows(records: seq<Record>, x: Record, k: Key)
    ensures HasFused(records + [x], k) <==> HasFused(records, k) || (IsFused(x) && x.key == k)
  {
    hide IsFused;
    var all := records + [x];
    if HasFused(records, k) {
      var i :| 0 <= i < |records| && IsFused(records[i]) && records[i].key == k;
      assert IsFused(all[i]) && all[i].key == k;
    }
    if IsFused(x) && x.key == k { assert IsFused(all[|records|]) && all[|records|].key == k; }
  }

  lemma StageGrows(records: seq<Record>, x: Record, k: Key, e: string)
    ensures HasStage(records + [x], k, e) <==>
      HasStage(records, k, e) || (IsStage(x) && x.key == k && x.kernelExport == e)
  {
    hide IsStage;
    var all := records + [x];
    if HasStage(records, k, e) {
      var i :| 0 <= i < |records| && IsStage(records[i]) && records[i].key == k && records[i].kernelExport == e;
      assert IsStage(all[i]) && all[i].key == k && all[i].kernelExport == e;
    }
    if IsStage(x) && x.key == k && x.kernelExport == e { assert IsStage(all[|records|]) && all[|records|].key == k; }
  }

  lemma TakenIff(t: Tally, records: seq<Record>, x: Record)
    requires Holds(t, records) && (IsFused(x) || IsStage(x))
    ensures Taken(t, x) <==> exists i :: 0 <= i < |records| && Same(records[i], x)
  {
    if Taken(t, x) {
      if IsFused(x) {
        assert HasFused(records, x.key);
      } else {
        assert x.kernelExport in PartsOf(t, x.key);
        assert HasStage(records, x.key, x.kernelExport);
      }
    }
    if i :| 0 <= i < |records| && Same(records[i], x) {
      if IsFused(x) { assert HasFused(records, x.key); } else { assert HasStage(records, x.key, x.kernelExport); }
    }
  }

  lemma SumGrows(p: map<string, nat>, e: string, d: nat)
    requires e in STAGES && e !in p
    ensures StageSum(p[e := d]) == StageSum(p) + d
  {
    StagesAreDistinct();
  }

  lemma KeyTotalGrows(records: seq<Record>, x: Record, k: Key)
    ensures KeyTotal(records + [x], k) == KeyTotal(records, k) + if IsStage(x) && x.key == k then x.duration else 0
    ensures StageTotal(records + [x]) == StageTotal(records) + if IsStage(x) then x.duration else 0
  {
    assert (records + [x])[..|records|] == records;
  }

  lemma PutPart(t: Tally, x: Record, k: Key)
    ensures PartsOf(Put(t, x), k) ==
      if !IsFused(x) && k == x.key then PartsOf(t, k)[x.kernelExport := x.duration] else PartsOf(t, k)
  {
  }

  lemma NotBoth(x: Record)
    ensures !(IsFused(x) && IsStage(x))
  {
  }

  lemma StageExport(x: Record)
    requires IsStage(x)
    ensures x.kernelExport in STAGES
  {
  }

  lemma SumsGrow(t: Tally, records: seq<Record>, x: Record, k: Key)
    requires StageSum(PartsOf(t, k)) == KeyTotal(records, k) && (IsFused(x) || IsStage(x)) && !Taken(t, x)
    ensures StageSum(PartsOf(Put(t, x), k)) == KeyTotal(records + [x], k)
  {
    hide KeyTotal, StageSum;
    NotBoth(x);
    PutPart(t, x, k);
    KeyTotalGrows(records, x, k);
    if IsStage(x) && k == x.key { SumGrows(PartsOf(t, k), x.kernelExport, x.duration) by { StageExport(x); } }
  }

  lemma HoldsGrows(t: Tally, records: seq<Record>, x: Record)
    requires Holds(t, records) && (IsFused(x) || IsStage(x)) && !Taken(t, x)
    ensures Holds(Put(t, x), records + [x])
  {
    var after, all := Put(t, x), records + [x];
    TakenIff(t, records, x);
    assert Distinct(all) && Classified(all);
    hide HasFused, HasStage, KeyTotal, StageSum, Same, IsStage, Distinct, Classified;
    assert !(IsFused(x) && IsStage(x)) by { NotBoth(x); }
    forall k ensures k in after.fused <==> HasFused(all, k) { FusedGrows(records, x, k); }
    forall k, e ensures e in PartsOf(after, k) <==> HasStage(all, k, e) {
      StageGrows(records, x, k, e);
      PutPart(t, x, k);
    }
    forall k ensures StageSum(PartsOf(after, k)) == KeyTotal(all, k) { SumsGrow(t, records, x, k); }
    forall i | 0 <= i < |all| && IsFused(all[i]) ensures after.fused[all[i].key] == all[i].duration {
      if i < |records| { HasFusedAt(records, i); }
    }
  }

  lemma HasFusedAt(records: seq<Record>, i: nat)
    requires i < |records| && IsFused(records[i])
    ensures HasFused(records, records[i].key)
  {
  }

  lemma EmptyHolds()
    ensures Holds(Tally(map[], map[]), [])
  {
  }

  // ---- The check ----

  datatype Reason = Unexpected | DuplicateFused | DuplicateStage | Incomplete | CoordinatesDiffer | WrongCount

  datatype Verdict = Accepted(fused: map<Key, nat>, unfused: map<Key, nat>) | Rejected(reason: Reason)

  /** Record n is the first that is refused: all before it are expected and distinct, and it is
      unexpected or repeats one of them. */
  ghost predicate FirstOffence(records: seq<Record>, n: nat, reason: Reason) {
    && n < |records| && Classified(records[..n]) && Distinct(records[..n])
    && if !IsFused(records[n]) && !IsStage(records[n]) then reason == Unexpected
       else
         && (exists i :: 0 <= i < n && Same(records[i], records[n]))
         && reason == if IsFused(records[n]) then DuplicateFused else DuplicateStage
  }

  /** Only one record is the first, and it fixes the reason. */
  lemma FirstOffenceIsUnique(records: seq<Record>, m: nat, n: nat, a: Reason, b: Reason)
    requires FirstOffence(records, m, a) && FirstOffence(records, n, b)
    ensures m == n && a == b
  {
    if m < n {
      OffenceEnds(records, m, a, n);
    } else if n < m {
      OffenceEnds(records, n, b, m);
    }
  }

  lemma OffenceEnds(records: seq<Record>, m: nat, a: Reason, n: nat)
    requires FirstOffence(records, m, a) && m < n <= |records|
    ensures !(Classified(records[..n]) && Distinct(records[..n]))
  {
    assert records[..n][m] == records[m] && forall i :: 0 <= i < m ==> records[..n][i] == records[i];
  }

  /** Records in order: the first unexpected or repeated one is refused. */
  method Collect(records: seq<Record>) returns (t: Tally, failure: Reason, ok: bool)
    ensures ok <==> Classified(records) && Distinct(records)
    ensures ok ==> Holds(t, records)
    ensures !ok ==> failure in {Unexpected, DuplicateFused, DuplicateStage}
    ensures !ok ==> exists n: nat :: FirstOffence(records, n, failure)
  {
    hide Holds, IsFused, IsStage, Same;
    t, failure, ok := Tally(map[], map[]), Unexpected, true;
    EmptyHolds();
    for n := 0 to |records|
      invariant Holds(t, records[..n])
    {
      var x := records[n];
      assert records[..n + 1] == records[..n] + [x];
      HoldsMeans(t, records[..n]);
      if !IsFused(x) && !IsStage(x) {
        assert FirstOffence(records, n, Unexpected);
        return t, Unexpected, false;
      }
      TakenIff(t, records[..n], x);
      if Taken(t, x) {
        failure := if IsFused(x) then DuplicateFused else DuplicateStage;
        assert FirstOffence(records, n, failure);
        return t, failure, false;
      }
      HoldsGrows(t, records[..n], x);
      t := Put(t, x);
    }
    assert records[..|records|] == records;
    HoldsMeans(t, records);
  }

  lemma FusedKeyIff(records: seq<Record>, k: Key)
    ensures k in FusedKeys(records) <==> HasFused(records, k)
  {
    if HasFused(records, k) {
      var i :| 0 <= i < |records| && IsFused(records[i]) && records[i].key == k;
      assert records[i] in records;
    }
  }

  lemma HoldsMeans(t: Tally, records: seq<Record>)
    requires Holds(t, records)
    ensures Classified(records) && Distinct(records) && t.fused.Keys == FusedKeys(records)
    ensures forall k :: k in t.parts ==> StageSum(t.parts[k]) == KeyTotal(records, k)
  {
    hide HasStage, HasFused, KeyTotal, StageSum, Distinct, Classified, FusedKeys, IsFused;
    forall k ensures k in t.fused <==> k in FusedKeys(records) { FusedKeyIff(records, k); }
    forall k | k in t.parts ensures StageSum(t.parts[k]) == KeyTotal(records, k) { assert PartsOf(t, k) == t.parts[k]; }
  }

  lemma HoldsFused(t: Tally, records: seq<Record>, i: nat)
    requires Holds(t, records) && i < |records| && IsFused(records[i])
    ensures records[i].key in t.fused && t.fused[records[i].key] == records[i].duration
  {
    HasFusedAt(records, i);
  }

  lemma HoldsParts(t: Tally, records: seq<Record>, k: Key)
    requires Holds(t, records)
    ensures k in t.fused <==> HasFused(records, k)
    ensures k in t.parts <==> exists e :: HasStage(records, k, e)
    ensures forall e :: HasStage(records, k, e) <==> e in PartsOf(t, k)
    ensures forall e :: HasStage(records, k, e) ==> e in STAGES
  {
    hide HasFused, KeyTotal, StageSum, Distinct, Classified, STAGES;
    if k in t.parts {
      var e :| e in t.parts[k];
      assert HasStage(records, k, e);
    } else {
      assert PartsOf(t, k) == map[];
    }
  }

  lemma CompleteAt(t: Tally, records: seq<Record>, k: Key)
    requires Holds(t, records)
    ensures PairedAt(records, k) <==> (k in t.fused <==> k in t.parts) && (k in t.parts ==> t.parts[k].Keys == STAGES)
  {
    HoldsParts(t, records, k);
    hide HasFused, HasStage, Holds;
    assert ROUTER in STAGES;
    hide STAGES;
    if PairedAt(records, k) && k in t.parts {
      var e :| HasStage(records, k, e);
      assert forall f :: f in STAGES <==> f in t.parts[k];
    }
  }

  lemma CompleteIsPaired(t: Tally, records: seq<Record>)
    requires Holds(t, records)
    ensures Paired(records) <==> t.fused.Keys == t.parts.Keys && forall k :: k in t.parts ==> t.parts[k].Keys == STAGES
  {
    hide HasFused, HasStage, Holds, STAGES;
    hide PairedAt;
    forall k
      ensures PairedAt(records, k) <==> (k in t.fused <==> k in t.parts) && (k in t.parts ==> t.parts[k].Keys == STAGES)
    {
      CompleteAt(t, records, k);
    }
    if forall k :: PairedAt(records, k) {
      assert forall k :: k in t.fused.Keys <==> k in t.parts.Keys;
    }
  }

  /** Every trial with a stage record has all three. */
  ghost predicate StagesComplete(records: seq<Record>) {
    forall k, e, f :: HasStage(records, k, e) && f in STAGES ==> HasStage(records, k, f)
  }

  lemma CompleteIsStages(t: Tally, records: seq<Record>)
    requires Holds(t, records)
    ensures StagesComplete(records) <==> forall k :: k in t.parts ==> t.parts[k].Keys == STAGES
  {
    forall k
      ensures (forall e, f :: HasStage(records, k, e) && f in STAGES ==> HasStage(records, k, f))
        <==> (k in t.parts ==> t.parts[k].Keys == STAGES)
    {
      HoldsParts(t, records, k);
      hide HasFused, HasStage, Holds, STAGES;
      if k in t.parts { assert PartsOf(t, k) == t.parts[k]; }
    }
    hide HasFused, HasStage, Holds, STAGES;
  }

  /** Main result: the records are accepted exactly when they are all of the four kinds, no
      trial repeats one, every trial has all four and there are the expected 15000 trials; the
      maps then hold each trial's fused time and the sum of its three stages. */
  method Check(records: seq<Record>) returns (v: Verdict)
    ensures v.Accepted? <==> Acceptable(records)
    ensures v.Accepted? ==> v.fused.Keys == v.unfused.Keys == FusedKeys(records)
    ensures v.Accepted? ==> forall k :: k in v.unfused ==> v.unfused[k] == KeyTotal(records, k)
    ensures v.Accepted? ==> FusedTimes(v.fused, records)
    ensures v.Rejected? && v.reason in {Unexpected, DuplicateFused, DuplicateStage} ==>
      exists n: nat :: FirstOffence(records, n, v.reason)
    ensures v == Rejected(Incomplete) <==>
      Classified(records) && Distinct(records) && !StagesComplete(records)
    ensures v == Rejected(CoordinatesDiffer) <==>
      Classified(records) && Distinct(records) && StagesComplete(records) && !Paired(records)
    ensures v == Rejected(WrongCount) <==>
      Classified(records) && Distinct(records) && Paired(records) && |FusedKeys(records)| != EXPECTED
  {
    hide Holds, Classified, Distinct, Paired, StageSum, KeyTotal, FusedKeys, STAGES, FusedTimes, FirstOffence;
    hide StagesComplete;
    var t, failure, ok := Collect(records);
    if !ok { return Rejected(failure); }
    HoldsMeans(t, records);
    CompleteIsPaired(t, records);
    CompleteIsStages(t, records);
    assert FusedTimes(t.fused, records) by { HoldsTimes(t, records); }
    if !(forall k :: k in t.parts ==> t.parts[k].Keys == STAGES) { return Rejected(Incomplete); }
    var unfused := map k | k in t.parts :: StageSum(t.parts[k]);
    if t.fused.Keys != unfused.Keys { return Rejected(CoordinatesDiffer); }
    assert |t.fused| == |t.fused.Keys|;
    if |t.fused| != EXPECTED { return Rejected(WrongCount); }
    return Accepted(t.fused, unfused);
  }

  /** Every fused record's time is its trial's. */
  predicate FusedTimes(fused: map<Key, nat>, records: seq<Record>) {
    forall i :: 0 <= i < |records| && IsFused(records[i]) ==>
      records[i].key in fused && fused[records[i].key] == records[i].duration
  }

  lemma HoldsTimes(t: Tally, records: seq<Record>)
    requires Holds(t, records)
    ensures FusedTimes(t.fused, records)
  {
    hide Holds, IsFused;
    forall i | 0 <= i < |records| && IsFused(records[i])
      ensures records[i].key in t.fused && t.fused[records[i].key] == records[i].duration
    {
      HoldsFused(t, records, i);
    }
  }

  // ---- What acceptance gives ----

  type Slot = (Key, string)

  function SlotOf(x: Record): Slot { (x.key, x.kernelExport) }

  function Slots(records: seq<Record>): set<Slot> { set x | x in records :: SlotOf(x) }

  function Grid(keys: set<Key>, exports: set<string>): set<Slot> { set k, e | k in keys && e in exports :: (k, e) }

  lemma GridSplits(keys: set<Key>, exports: set<string>, k: Key)
    requires k in keys
    ensures Grid(keys, exports) == Grid(keys - {k}, exports) + Grid({k}, exports)
    ensures Grid(keys - {k}, exports) !! Grid({k}, exports)
  {
  }

  lemma {:induction false} GridSize(keys: set<Key>, exports: set<string>)
    requires |exports| == 4
    ensures |Grid(keys, exports)| == 4 * |keys|
  {
    if keys == {} {
      assert Grid(keys, exports) == {};
    } else {
      hide Grid;
      var k :| k in keys;
      GridSize(keys - {k}, exports);
      RowSize(k, exports);
      GridSplits(keys, exports, k);
      assert |keys - {k}| == |keys| - 1;
    }
  }

  lemma {:induction false} RowSize(k: Key, exports: set<string>)
    ensures |Grid({k}, exports)| == |exports|
  {
    if exports == {} {
      assert Grid({k}, exports) == {};
    } else {
      var e :| e in exports;
      RowSize(k, exports - {e});
      assert Grid({k}, exports) == Grid({k}, exports - {e}) + {(k, e)};
    }
  }

  lemma SameSlot(x: Record, y: Record)
    requires (IsFused(x) || IsStage(x)) && (IsFused(y) || IsStage(y))
    ensures SlotOf(x) == SlotOf(y) <==> Same(x, y)
  {
    StagesAreDistinct();
  }

  lemma SlotsGrow(init: seq<Record>, x: Record)
    ensures Slots(init + [x]) == Slots(init) + {SlotOf(x)}
  {
    assert forall y :: y in init + [x] <==> y in init || y == x;
  }

  lemma NewSlot(init: seq<Record>, x: Record)
    requires Classified(init + [x]) && Distinct(init + [x])
    ensures Classified(init) && Distinct(init) && SlotOf(x) !in Slots(init)
  {
    var all := init + [x];
    assert forall i :: 0 <= i < |init| ==> all[i] == init[i];
    assert all[|init|] == x;
    if SlotOf(x) in Slots(init) {
      var i :| 0 <= i < |init| && SlotOf(init[i]) == SlotOf(x);
      SameSlot(all[i], x);
    }
  }

  lemma {:induction false} SlotCount(records: seq<Record>)
    requires Classified(records) && Distinct(records)
    ensures |Slots(records)| == |records|
  {
    if records == [] {
      assert Slots(records) == {};
    } else {
      hide Classified, Distinct, Slots;
      var init, x := records[..|records| - 1], records[|records| - 1];
      assert records == init + [x];
      NewSlot(init, x);
      SlotCount(init);
      SlotsGrow(init, x);
    }
  }

  lemma SlotsAreGrid(records: seq<Record>)
    requires Classified(records) && Paired(records)
    ensures Slots(records) == Grid(FusedKeys(records), STAGES + {FUSED_EXPORT})
  {
    forall k, e ensures (k, e) in Slots(records) <==> (k, e) in Grid(FusedKeys(records), STAGES + {FUSED_EXPORT}) {
      SlotOccupied(records, k, e);
    }
  }

  lemma StageSlot(records: seq<Record>, k: Key, e: string)
    requires HasStage(records, k, e)
    ensures (k, e) in Slots(records)
  {
    var i :| 0 <= i < |records| && IsStage(records[i]) && records[i].key == k && records[i].kernelExport == e;
    assert records[i] in records;
  }

  lemma FusedSlot(records: seq<Record>, k: Key)
    requires HasFused(records, k)
    ensures (k, FUSED_EXPORT) in Slots(records)
  {
    var i :| 0 <= i < |records| && IsFused(records[i]) && records[i].key == k;
    assert records[i] in records;
  }

  lemma SlotOccupied(records: seq<Record>, k: Key, e: string)
    requires Classified(records) && Paired(records)
    ensures (k, e) in Slots(records) <==> k in FusedKeys(records) && e in STAGES + {FUSED_EXPORT}
  {
    FusedKeyIff(records, k);
    assert PairedAt(records, k);
    if (k, e) in Slots(records) {
      var i :| 0 <= i < |records| && SlotOf(records[i]) == (k, e);
      if IsStage(records[i]) { assert HasStage(records, k, e); } else { HasFusedAt(records, i); }
    }
    if HasFused(records, k) {
      if e in STAGES { StageSlot(records, k, e); }
      FusedSlot(records, k);
    }
  }

  /** Spelled out: the two kinds of record there may be. */
  lemma KindsAre(x: Record)
    ensures IsFused(x) <==>
      x.variant == "fused-optimized" && x.kernelExport == "gfx950_gpt_oss_120b_decode_megakernel_v1"
    ensures IsStage(x) <==>
      && x.variant == "exact-unfused"
      && x.kernelExport in {"gpt_oss_unfused_router", "gpt_oss_unfused_attention", "gpt_oss_unfused_expert"}
  {
  }

  /** The time of a trial's records of one stage. */
  function StageTime(records: seq<Record>, k: Key, e: string): nat {
    if records == [] then 0
    else
      var x := records[|records| - 1];
      StageTime(records[..|records| - 1], k, e)
      + if IsStage(x) && x.key == k && x.kernelExport == e then x.duration else 0
  }

  lemma {:induction false} KeyTotalSplits(records: seq<Record>, k: Key)
    ensures KeyTotal(records, k) ==
      StageTime(records, k, ROUTER) + StageTime(records, k, ATTENTION) + StageTime(records, k, EXPERT)
  {
    if records != [] {
      KeyTotalSplits(records[..|records| - 1], k);
      StagesAreDistinct();
    }
  }

  lemma {:induction false} OneStageTime(records: seq<Record>, x: Record)
    requires Distinct(records) && IsStage(x)
    requires forall y :: y in records && Same(y, x) ==> y == x
    ensures StageTime(records, x.key, x.kernelExport) == if x in records then x.duration else 0
  {
    hide IsStage;
    if records != [] {
      var init, last := records[..|records| - 1], records[|records| - 1];
      assert records == init + [last];
      OneStageTime(init, x);
      StageMeans(last, x);
      forall i | 0 <= i < |init| ensures !Same(init[i], last) { assert !Same(records[i], records[|init|]); }
      assert Same(last, last);
    }
  }

  lemma StageMeans(y: Record, x: Record)
    requires IsStage(x)
    ensures IsStage(y) && y.key == x.key && y.kernelExport == x.kernelExport <==> Same(y, x)
  {
  }

  /** Spelled out: an accepted trial's unfused time is that of its three stages' records. */
  lemma AcceptedSum(records: seq<Record>, k: Key, a: Record, b: Record, d: Record)
    requires Acceptable(records) && a in records && b in records && d in records
    requires a.key == b.key == d.key == k && a.variant == b.variant == d.variant == "exact-unfused"
    requires a.kernelExport == "gpt_oss_unfused_router"
    requires b.kernelExport == "gpt_oss_unfused_attention"
    requires d.kernelExport == "gpt_oss_unfused_expert"
    ensures KeyTotal(records, k) == a.duration + b.duration + d.duration
  {
    KeyTotalSplits(records, k);
    KindsAre(a);
    KindsAre(b);
    KindsAre(d);
    OneRecordEach(records, a);
    OneRecordEach(records, b);
    OneRecordEach(records, d);
    hide IsStage;
    OneStageTime(records, a);
    OneStageTime(records, b);
    OneStageTime(records, d);
  }

  lemma OneRecordEach(records: seq<Record>, x: Record)
    requires Distinct(records) && x in records
    ensures forall y :: y in records && Same(y, x) ==> y == x
  {
    var i :| 0 <= i < |records| && records[i] == x;
    forall y | y in records && Same(y, x) ensures y == x {
      var j :| 0 <= j < |records| && records[j] == y;
      assert Same(records[i], records[j]);
    }
  }

  /** Main result: an accepted file has exactly four records per trial, 4 * 15000 in all, and
      every trial owns exactly one record of each of the four exports. */
  lemma AcceptedCount(records: seq<Record>, k: Key, e: string)
    requires Acceptable(records)
    ensures |FusedKeys(records)| == 15000 && |records| == 60000
    ensures k in FusedKeys(records) && e in STAGES + {FUSED_EXPORT} ==>
      exists i :: 0 <= i < |records| && SlotOf(records[i]) == (k, e)
        && forall j :: 0 <= j < |records| && SlotOf(records[j]) == (k, e) ==> j == i
  {
    SlotCount(records);
    SlotsAreGrid(records);
    StagesAreDistinct();
    assert |STAGES + {FUSED_EXPORT}| == 4;
    GridSize(FusedKeys(records), STAGES + {FUSED_EXPORT});
    SlotOccupied(records, k, e);
    if k in FusedKeys(records) && e in STAGES + {FUSED_EXPORT} {
      var i :| 0 <= i < |records| && SlotOf(records[i]) == (k, e);
      forall j | 0 <= j < |records| && SlotOf(records[j]) == (k, e) ensures j == i { SameSlot(records[i], records[j]); }
    }
  }

  function TotalOver(records: seq<Record>, keys: seq<Key>): nat {
    if keys == [] then 0 else KeyTotal(records, keys[0]) + TotalOver(records, keys[1..])
  }

  lemma {:induction false} TotalOverGrows(records: seq<Record>, x: Record, keys: seq<Key>)
    requires forall i, j :: 0 <= i < j < |keys| ==> keys[i] != keys[j]
    ensures TotalOver(records + [x], keys) ==
      TotalOver(records, keys) + if IsStage(x) && x.key in keys then x.duration else 0
  {
    if keys != [] {
      TotalOverGrows(records, x, keys[1..]);
      KeyTotalGrows(records, x, keys[0]);
      assert keys == [keys[0]] + keys[1..];
    }
  }

  lemma {:induction false} NothingTotal(keys: seq<Key>)
    ensures TotalOver([], keys) == 0
  {
    if keys != [] { NothingTotal(keys[1..]); }
  }

  /** Main result: the per-trial sums, over any listing of the trials, are the whole unfused time. */
  lemma {:induction false} SumsConserve(records: seq<Record>, keys: seq<Key>)
    requires forall i, j :: 0 <= i < j < |keys| ==> keys[i] != keys[j]
    requires forall i :: 0 <= i < |records| && IsStage(records[i]) ==> records[i].key in keys
    ensures TotalOver(records, keys) == StageTotal(records)
  {
    if records == [] {
      NothingTotal(keys);
    } else {
      var init, x := records[..|records| - 1], records[|records| - 1];
      assert records == init + [x];
      SumsConserve(init, keys);
      TotalOverGrows(init, x, keys);
      KeyTotalGrows(init, x, x.key);
    }
  }
}
