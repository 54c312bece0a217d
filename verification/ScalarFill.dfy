/** The masked scalar fill (examples/physical-entry-v20.rs): any number of one-wave workgroups,
    lane x storing the launch argument a in output word x. */
module ScalarFill {
  import opened Words
  import opened Machine
  import opened MaskedStore

  const CODE: seq<Instr> := [
    SLoadX2(8, 0), SLoadX2(10, 8), SLoad(12, 16), SLoad(13, 20), SLoad(14, 24), SLoad(15, 28), SWaitLgkm,
    SLshl(16, 2, 6), VAdd(2, 16, 0), VMovZero(3), VMov(4, 9), VMov(8, 12), VLshl64(6, 2, 2),
    VAddCo(6, 8, 6), VAddcCo(7, 4, 7), VCmpGt64(10, 2), SAndSaveexec(18), GlobalStore(6, 8),
    SWaitVm, SMovExec(18), SEndpgm]

  const STORE_PC: nat := 17

  datatype Env = Env(groups: nat, base: U64, len: U64, a: U32, b: U32, c: U32, selector: U32, mem: Memory) {
    function Karg(): (k: seq<U32>)
      ensures |k| == 8
    { [Lo(base), Hi(base), Lo(len), Hi(len), a, b, c, selector] }

    function Launch(): Launch { Machine.Launch(CODE, Karg(), 1) }

    function Out(): Window { Window(base, len, mem, seq(64 * groups, _ => a)) }

    /** Lane indices do not wrap and every word some lane stores is mapped below 2^64. */
    ghost predicate Valid() { 64 * groups <= TWO32 && Out().Valid() }
  }

  // ---- What each program point knows ----

  ghost predicate LaneOk(e: Env, i: nat, w: Wave, l: nat, p: nat)
    requires e.Valid() && i < e.groups && l < 64
  {
    var x := Gid(i, l);
    && (p <= 8 ==> w.v[0][l] == l)
    && (9 <= p <= 15 ==> w.v[2][l] == x)
    && (10 <= p <= 15 ==> w.v[3][l] == 0)
    && (11 <= p <= 14 ==> w.v[4][l] == Hi(e.base))
    && (12 <= p <= 17 ==> w.v[8][l] == e.a)
    && (p == 13 ==> w.v[6][l] == Lo(4 * x) && w.v[7][l] == Hi(4 * x))
    && (p == 14 ==> LowAdded(e.base, x, w.v[6][l], w.vcc[l]) && w.v[7][l] == Hi(4 * x))
    && (15 <= p <= 17 ==> VPair(w, 6, l) == (e.base + 4 * x) % TWO64)
    && (p == 16 ==> w.vcc[l] == (x < e.len))
    && (17 <= p <= 19 ==> w.exec[l] == (x < e.len))
  }

  ghost predicate AccessOk(e: Env, i: nat, a: Access, p: nat) {
    match a
    case ScalarLoadAccess(pc, tag, dst, word) => p <= 6 && 8 <= dst < 16 && a == ArgumentLoad(dst) && pc < p
    case GlobalStoreAccess(_, l, _, _) =>
      p == 18 && l < 64 && e.Out().Stores(Gid(i, l)) && a == StoreOf(e.Out(), STORE_PC, Gid(i, l))
    case _ => false
  }

  /** Register r of 8..15 is loaded by instruction LoadPc(r) with argument word r - 8. */
  function LoadPc(r: nat): nat
    requires 8 <= r < 16
  { if r < 12 then (r - 8) / 2 else r - 10 }

  function ArgumentLoad(r: nat): Access
    requires 8 <= r < 16
  { ScalarLoadAccess(LoadPc(r), if r < 12 then r % 2 else 0, r, r - 8) }

  ghost predicate ScalarsOk(e: Env, i: nat, w: Wave, p: nat) {
    && w.s[2] == i
    && (forall r: nat {:trigger w.s[r]} :: 8 <= r < 16 && LoadPc(r) < p ==>
          w.s[r] == e.Karg()[r - 8] || (p <= 6 && ArgumentLoad(r) in w.outstanding))
    && (p == 8 ==> w.s[16] == 64 * i)
    && (p <= 16 || p > 19 ==> AllOn(w.exec))
    && (17 <= p <= 19 ==> exists m: Mask :: AllOn(m) && SPair(w, 18) == MaskToWord(m))
  }

  ghost predicate WaveOk(e: Env, i: nat, w: Wave)
    requires e.Valid() && i < e.groups
  {
    && w.pc <= 21 && !w.arrived
    && ScalarsOk(e, i, w, w.pc)
    && (forall l: nat :: l < 64 ==> LaneOk(e, i, w, l, w.pc))
    && (forall a :: a in w.outstanding ==> AccessOk(e, i, a, w.pc))
  }

  // ---- One wave issues ----

  predicate GroundOk(e: Env, i: nat, w: Wave, l: nat, p: nat)
    requires l < 64
  {
    && (p > 6 ==>
          && w.s[8] == Lo(e.base) && w.s[9] == Hi(e.base) && w.s[10] == Lo(e.len) && w.s[11] == Hi(e.len)
          && w.s[12] == e.a)
    && (p == 8 ==> w.s[16] == 64 * i)
    && (p <= 16 ==> w.exec[l])
  }

  lemma ArgumentsReady(e: Env, i: nat, w: Wave, l: nat, p: nat)
    requires ScalarsOk(e, i, w, p) && l < 64
    ensures GroundOk(e, i, w, l, p)
  {
    hide Lo, Hi, Pair, MaskToWord;
    if p > 6 {
      assert w.s[8] == e.Karg()[0] && w.s[9] == e.Karg()[1] && w.s[10] == e.Karg()[2];
      assert w.s[11] == e.Karg()[3] && w.s[12] == e.Karg()[4];
    }
  }

  lemma IssueIndex(e: Env, i: nat, w: Wave, l: nat, p: nat)
    requires e.Valid() && i < e.groups && l < 64 && p <= 11 && LaneOk(e, i, w, l, p) && GroundOk(e, i, w, l, p)
    ensures LaneOk(e, i, Issue(CODE[p], w), l, p + 1)
  {
    hide Shl32, Shl64, Xor, Xor32, Pow2, Lo, Hi, Pair, Add32, Carry32;
    if p == 8 { AddSmall(64 * i, l); }
  }

  lemma IssueAddress(e: Env, i: nat, w: Wave, l: nat, p: nat)
    requires e.Valid() && i < e.groups && l < 64 && 12 <= p <= 14 && LaneOk(e, i, w, l, p) && GroundOk(e, i, w, l, p)
    ensures LaneOk(e, i, Issue(CODE[p], w), l, p + 1)
  {
    hide Shl32, Shl64, Xor, Xor32, Pow2, Lo, Hi, Pair, Add32, Carry32;
    ShiftIndex(Gid(i, l));
    CarryChain(e.base, 4 * Gid(i, l));
    AddCommutes(Hi(e.base), Hi(4 * Gid(i, l)), w.vcc[l]);
  }

  lemma IssueStore(e: Env, i: nat, w: Wave, l: nat, p: nat)
    requires e.Valid() && i < e.groups && l < 64 && 15 <= p <= 20 && LaneOk(e, i, w, l, p) && GroundOk(e, i, w, l, p)
    ensures LaneOk(e, i, Issue(CODE[p], w), l, p + 1)
  {
    hide Shl32, Shl64, Xor, Xor32, Pow2, Lo, Hi, Pair, Add32, Carry32;
    PairOfHalves(e.len);
    PairOfHalves(Gid(i, l));
    SmallHalves(Gid(i, l));
  }

  lemma IssueLane(e: Env, i: nat, w: Wave, l: nat)
    requires e.Valid() && i < e.groups && l < 64 && WaveOk(e, i, w) && w.pc < 21
    ensures LaneOk(e, i, Issue(CODE[w.pc], w), l, w.pc + 1)
  {
    hide LaneOk, Issue, ScalarsOk, AccessOk;
    assert LaneOk(e, i, w, l, w.pc);
    ArgumentsReady(e, i, w, l, w.pc);
    if w.pc <= 11 { IssueIndex(e, i, w, l, w.pc); }
    else if w.pc <= 14 { IssueAddress(e, i, w, l, w.pc); }
    else { IssueStore(e, i, w, l, w.pc); }
  }

  lemma IssueArguments(e: Env, i: nat, w: Wave, p: nat)
    requires ScalarsOk(e, i, w, p) && w.pc == p <= 6
    requires p == 6 ==> forall a :: a in w.outstanding ==> !CountsLgkm(a)
    ensures ScalarsOk(e, i, Issue(CODE[p], w), p + 1)
  {
    hide Lo, Hi;
    var n := Issue(CODE[p], w);
    forall r: nat | 8 <= r < 16 && LoadPc(r) < p + 1
      ensures n.s[r] == e.Karg()[r - 8] || (p + 1 <= 6 && ArgumentLoad(r) in n.outstanding)
    {
      assert n.s[r] == w.s[r];
      if p == 6 {
        assert CountsLgkm(ArgumentLoad(r));
      } else if LoadPc(r) == p {
        assert r < 12 ==> r == 8 + 2 * p + r % 2;
      }
    }
  }

  lemma IssueMiddle(e: Env, i: nat, w: Wave, p: nat)
    requires ScalarsOk(e, i, w, p) && 7 <= p <= 15 && 64 * i < TWO32
    ensures ScalarsOk(e, i, Issue(CODE[p], w), p + 1)
  {
    hide Lo, Hi, Issue, Shl32;
    IssueFrame(CODE[p], w);
    GroupShift(i);
    var n := Issue(CODE[p], w);
    if p == 7 { ShiftIssued(w); }
    assert !CODE[p].SAndSaveexec? && !CODE[p].SMovExec? && SWrites(CODE[p]) == if p == 7 then {16} else {};
    forall r: nat | 8 <= r < 16 ensures n.s[r] == e.Karg()[r - 8] { assert n.s[r] == w.s[r]; }
  }

  lemma ShiftIssued(w: Wave)
    ensures Issue(CODE[7], w).s[16] == Shl32(w.s[2], 6)
  {
  }

  lemma GroupShift(i: nat)
    requires 64 * i < TWO32
    ensures Shl32(i, 6) == 64 * i
  {
    assert Pow2(6) == 64;
  }

  lemma IssueMasks(e: Env, i: nat, w: Wave, p: nat)
    requires ScalarsOk(e, i, w, p) && 16 <= p <= 20
    ensures ScalarsOk(e, i, Issue(CODE[p], w), p + 1)
  {
    hide Lo, Hi, Pair, MaskToWord, WordToMask;
    if p == 16 {
      PairOfHalves(MaskToWord(w.exec));
      assert SPair(Issue(CODE[p], w), 18) == MaskToWord(w.exec);
    } else if p <= 19 {
      var m: Mask :| AllOn(m) && SPair(w, 18) == MaskToWord(m);
      PairOfHalves(MaskToWord(m));
      SavedMaskRestores(m);
    }
  }

  /** Nothing a wave issues past stays outstanding, except the argument loads. */
  lemma StillOutstanding(e: Env, i: nat, w: Wave, a: Access)
    requires e.Valid() && i < e.groups && WaveOk(e, i, w) && CanIssue(e.Launch(), w) && a in w.outstanding
    ensures w.pc < 6 && AccessOk(e, i, a, w.pc) && a.ScalarLoadAccess?
  {
    hide LaneOk, ScalarsOk;
    assert AccessOk(e, i, a, w.pc);
  }

  lemma MemoryAt(pc: nat)
    requires pc < 21
    ensures LaneAccesses(CODE[pc]) <==> pc == 17
    ensures ScalarAccesses(CODE[pc]) <==> pc < 6
  {
  }

  lemma NewAccess(e: Env, i: nat, w: Wave, a: Access)
    requires e.Valid() && i < e.groups && w.pc < 21
    requires a in Issue(CODE[w.pc], w).outstanding && a !in w.outstanding
    requires forall l: nat :: l < 64 ==> LaneOk(e, i, w, l, w.pc)
    ensures AccessOk(e, i, a, w.pc + 1)
  {
    hide Lo, Hi, Pair, LowAdded;
    MemoryAt(w.pc);
    NewAccessKind(CODE[w.pc], w, a);
    if a.ScalarLoadAccess? {
      NewScalarAccess(e, i, w, a);
    } else {
      assert LaneOk(e, i, w, a.lane, 17);
    }
  }

  lemma NewScalarAccess(e: Env, i: nat, w: Wave, a: Access)
    requires w.pc < 6 && a in Issue(CODE[w.pc], w).outstanding && a !in w.outstanding
    ensures AccessOk(e, i, a, w.pc + 1)
  {
  }

  /** No instruction ever reads or overwrites a register whose load is outstanding. */
  lemma NeverHazardous(e: Env, i: nat, w: Wave)
    requires e.Valid() && i < e.groups && WaveOk(e, i, w) && CanIssue(e.Launch(), w)
    ensures HazardFree(CODE[w.pc], w.outstanding)
  {
    hide WaveOk, VReads, VWrites;
    forall a | a in w.outstanding
      ensures a.ScalarLoadAccess? && a.dst !in SReads(CODE[w.pc]) + SWrites(CODE[w.pc])
    {
      StillOutstanding(e, i, w, a);
    }
  }

  lemma IssueWave(e: Env, i: nat, w: Wave)
    requires e.Valid() && i < e.groups && WaveOk(e, i, w) && CanIssue(e.Launch(), w)
    ensures WaveOk(e, i, Issue(CODE[w.pc], w))
    ensures Issue(CODE[w.pc], w).pc == w.pc + 1
  {
    hide Issue, LaneOk, AccessOk, ScalarsOk;
    var n := Issue(CODE[w.pc], w);
    IssueFrame(CODE[w.pc], w);
    if w.pc <= 6 { IssueArguments(e, i, w, w.pc); }
    else if w.pc <= 15 { IssueMiddle(e, i, w, w.pc); }
    else { IssueMasks(e, i, w, w.pc); }
    forall a | a in n.outstanding ensures AccessOk(e, i, a, n.pc) {
      if a in w.outstanding {
        StillOutstanding(e, i, w, a);
        LoadStays(e, i, a, w.pc);
      } else {
        NewAccess(e, i, w, a);
      }
    }
    forall l: nat | l < 64 ensures LaneOk(e, i, n, l, n.pc) { IssueLane(e, i, w, l); }
  }

  lemma LoadStays(e: Env, i: nat, a: Access, p: nat)
    requires AccessOk(e, i, a, p) && a.ScalarLoadAccess? && p < 6
    ensures AccessOk(e, i, a, p + 1)
  {
  }

  // ---- Moves keep the invariant ----

  ghost predicate Inv(e: Env, s: State)
    requires e.Valid()
  {
    && |s.waves| == e.groups && !s.fault
    && (forall i: nat :: i < e.groups ==> WaveOk(e, i, s.waves[i]))
    && MemOk(e.Out(), STORE_PC, s.waves, s.mem)
  }

  ghost predicate StartsOk(i: nat, w: Wave) {
    && w.pc == 0 && !w.arrived && w.outstanding == {} && AllOn(w.exec) && w.s[2] == i
    && (forall l: nat :: l < 64 ==> w.v[0][l] == l)
  }

  /** A launch as the hardware starts it; every register not named is arbitrary. */
  ghost predicate Init(e: Env, s: State) {
    && |s.waves| == e.groups && !s.fault && s.mem == e.mem
    && (forall i: nat :: i < e.groups ==> StartsOk(i, s.waves[i]))
  }

  lemma InitInv(e: Env, s: State)
    requires e.Valid() && Init(e, s)
    ensures Inv(e, s)
  {
    hide Lo, Hi, MemOk;
    StartOk(e.Out(), STORE_PC, s.waves);
    forall i: nat | i < e.groups ensures WaveOk(e, i, s.waves[i]) {
      assert StartsOk(i, s.waves[i]);
      forall l: nat | l < 64 ensures LaneOk(e, i, s.waves[i], l, 0) {}
    }
  }

  lemma IssueKeeps(e: Env, s: State, i: nat)
    requires e.Valid() && Inv(e, s) && Enabled(e.Launch(), s, IssueNext(i))
    ensures Inv(e, Apply(e.Launch(), s, IssueNext(i)))
  {
    hide WaveOk, MemOk, Issue;
    var w, o := s.waves[i], e.Out();
    var n := Issue(CODE[w.pc], w);
    IssueWave(e, i, w);
    forall x: nat | o.Stores(x) && x / 64 == i && w.pc == STORE_PC ensures StoreOf(o, STORE_PC, x) in n.outstanding {
      IssuesStore(e, i, w, x);
    }
    forall x: nat | o.Stores(x) && w.pc == STORE_PC + 1 ensures StoreOf(o, STORE_PC, x) !in w.outstanding {
      if StoreOf(o, STORE_PC, x) in w.outstanding { StillOutstanding(e, i, w, StoreOf(o, STORE_PC, x)); }
    }
    WaveMoves(o, STORE_PC, s.waves, s.mem, i, n);
  }

  lemma IssuesStore(e: Env, i: nat, w: Wave, x: nat)
    requires e.Valid() && i < e.groups && WaveOk(e, i, w) && w.pc == STORE_PC && e.Out().Stores(x) && x / 64 == i
    ensures StoreOf(e.Out(), STORE_PC, x) in Issue(CODE[w.pc], w).outstanding
  {
    hide AccessOk, ScalarsOk, Lo, Hi, Pair;
    var l := x % 64;
    assert Gid(i, l) == x;
    assert LaneOk(e, i, w, l, 17);
    assert GlobalStoreAccess(17, l, VPair(w, 6, l), w.v[8][l]) in GlobalStores(w, 6, 8);
  }

  lemma SameLanes(e: Env, i: nat, w: Wave, n: Wave)
    requires e.Valid() && i < e.groups && n.v == w.v && n.exec == w.exec && n.vcc == w.vcc && n.pc == w.pc
    requires forall l: nat :: l < 64 ==> LaneOk(e, i, w, l, w.pc)
    ensures forall l: nat :: l < 64 ==> LaneOk(e, i, n, l, w.pc)
  {
    forall l: nat | l < 64 ensures LaneOk(e, i, n, l, w.pc) {
      hide Lo, Hi, Pair, LowAdded;
      assert LaneOk(e, i, w, l, w.pc);
    }
  }

  lemma FinishWave(e: Env, i: nat, w: Wave, a: Access)
    requires e.Valid() && i < e.groups && WaveOk(e, i, w) && a in w.outstanding
    ensures a.ScalarLoadAccess? ==> a.word < 8
    ensures a.ScalarLoadAccess? ==>
      WaveOk(e, i, w.(s := w.s[a.dst := e.Karg()[a.word]], outstanding := w.outstanding - {a}))
    ensures a.GlobalStoreAccess? ==> WaveOk(e, i, w.(outstanding := w.outstanding - {a}))
    ensures a.ScalarLoadAccess? || a.GlobalStoreAccess?
  {
    hide LaneOk, Lo, Hi, Pair;
    assert AccessOk(e, i, a, w.pc);
    if a.ScalarLoadAccess? {
      var n := w.(s := w.s[a.dst := e.Karg()[a.word]], outstanding := w.outstanding - {a});
      SameLanes(e, i, w, n);
      forall r: nat | 8 <= r < 16 && LoadPc(r) < w.pc
        ensures n.s[r] == e.Karg()[r - 8] || ArgumentLoad(r) in n.outstanding
      {
        assert w.s[r] == e.Karg()[r - 8] || ArgumentLoad(r) in w.outstanding;
      }
    } else {
      SameLanes(e, i, w, w.(outstanding := w.outstanding - {a}));
    }
  }

  lemma FinishKeeps(e: Env, s: State, i: nat, a: Access)
    requires e.Valid() && Inv(e, s) && Enabled(e.Launch(), s, Finish(i, a))
    ensures Inv(e, Apply(e.Launch(), s, Finish(i, a)))
  {
    hide WaveOk, MemOk, PutWord;
    var w := s.waves[i];
    FinishWave(e, i, w, a);
    if a.ScalarLoadAccess? {
      WaveMoves(e.Out(), STORE_PC, s.waves, s.mem, i,
        w.(s := w.s[a.dst := e.Karg()[a.word]], outstanding := w.outstanding - {a}));
    } else {
      StoreKnown(e, i, w, a);
      StoreLands(e.Out(), STORE_PC, s.waves, s.mem, Gid(i, a.lane), w.(outstanding := w.outstanding - {a}));
    }
  }

  lemma StoreKnown(e: Env, i: nat, w: Wave, a: Access)
    requires e.Valid() && i < e.groups && WaveOk(e, i, w) && a in w.outstanding && a.GlobalStoreAccess?
    ensures a.lane < 64 && w.pc == STORE_PC + 1 && e.Out().Stores(Gid(i, a.lane))
    ensures a == StoreOf(e.Out(), STORE_PC, Gid(i, a.lane)) && a.address == e.Out().At(Gid(i, a.lane))
  {
    hide LaneOk, ScalarsOk;
    assert AccessOk(e, i, a, w.pc);
    StoreAddress(e.Out(), Gid(i, a.lane));
  }

  lemma NoBarrier(pc: nat)
    requires pc < |CODE|
    ensures !CODE[pc].SBarrier?
  {
  }

  lemma MoveKeeps(e: Env, s: State, m: Move)
    requires e.Valid() && Inv(e, s) && Enabled(e.Launch(), s, m)
    ensures Inv(e, Apply(e.Launch(), s, m))
  {
    hide Inv, Apply;
    match m
    case IssueNext(i) => IssueKeeps(e, s, i);
    case Finish(i, a) => FinishKeeps(e, s, i, a);
    case Arrive(i) => NoBarrier(s.waves[i].pc);
    case Release(g) =>
      var k: nat :| k < |s.waves| && InGroup(e.Launch(), k, g) && Waiting(e.Launch(), s.waves[k]);
      NoBarrier(s.waves[k].pc);
  }

  // ---- Whole runs ----

  lemma InvInCode(e: Env, s: State)
    requires e.Valid() && Inv(e, s)
    ensures InCode(e.Launch(), s.waves) && !s.fault
  {
    hide MemOk, ScalarsOk, LaneOk, AccessOk;
    forall i: nat | i < |s.waves| ensures s.waves[i].pc <= |CODE| { assert WaveOk(e, i, s.waves[i]); }
  }

  lemma {:induction false} RunKeeps(e: Env, s: State, moves: seq<Move>)
    requires e.Valid() && Inv(e, s) && Legal(e.Launch(), s, moves)
    ensures Inv(e, After(e.Launch(), s, moves))
    ensures |moves| + Work(e.Launch(), After(e.Launch(), s, moves).waves) <= Work(e.Launch(), s.waves)
    decreases moves
  {
    hide Inv, Enabled, Apply;
    if moves != [] {
      MoveKeeps(e, s, moves[0]);
      InvInCode(e, s);
      InvInCode(e, Apply(e.Launch(), s, moves[0]));
      MoveDecreasesWork(e.Launch(), s, moves[0]);
      RunKeeps(e, Apply(e.Launch(), s, moves[0]), moves[1..]);
    }
  }

  lemma {:induction false} StartWork(e: Env, waves: seq<Wave>)
    requires forall i :: 0 <= i < |waves| ==> waves[i].pc == 0 && !waves[i].arrived && waves[i].outstanding == {}
    ensures Work(e.Launch(), waves) == |waves| * 1387
  {
    if waves != [] { StartWork(e, waves[1..]); }
  }

  /** Main result: in every order of workgroups and accesses the run never faults, stops, and
      ends with the argument a in every output word below both the length and the lane count,
      every other byte as it was, and all lanes on again. */
  lemma EveryRunFills(e: Env, s: State, moves: seq<Move>)
    requires e.Valid() && Init(e, s) && Legal(e.Launch(), s, moves)
    ensures !After(e.Launch(), s, moves).fault && |moves| <= 1387 * e.groups
    ensures (forall m :: !Enabled(e.Launch(), After(e.Launch(), s, moves), m)) ==>
      Finished(e.Launch(), After(e.Launch(), s, moves))
    ensures Finished(e.Launch(), After(e.Launch(), s, moves)) ==>
      var t := After(e.Launch(), s, moves);
      && (forall x: nat :: x < 64 * e.groups && x < e.len ==> WordAt(t.mem, e.base + 4 * x) == Some(e.a))
      && FrameOk(e.Out(), t.mem)
      && (forall i :: 0 <= i < |t.waves| ==> AllOn(t.waves[i].exec))
  {
    hide WaveOk, MemOk, Enabled, Apply, Legal, After, FrameOk;
    var l, o := e.Launch(), e.Out();
    var t := After(l, s, moves);
    InitInv(e, s);
    RunKeeps(e, s, moves);
    InvInCode(e, t);
    WorkNonNegative(l, t.waves);
    forall i: nat | i < |s.waves| ensures StartsOk(i, s.waves[i]) {}
    StartWork(e, s.waves);
    if Finished(l, t) {
      EndedWritten(o, STORE_PC, t.waves, t.mem);
      forall x: nat | x < 64 * e.groups && x < e.len ensures WordAt(t.mem, e.base + 4 * x) == Some(e.a) {
        assert o.Stores(x) && o.values[x] == e.a;
      }
      forall i: nat | i < |t.waves| ensures AllOn(t.waves[i].exec) { EndedAllOn(e, i, t.waves[i]); }
    } else {
      var m := SomeMoveEnabled(l, t);
    }
  }

  /** In every reachable state no instruction a wave may issue touches a register that still
      waits for a load. */
  lemma EveryStateReadsReady(e: Env, s: State, moves: seq<Move>, i: nat)
    requires e.Valid() && Init(e, s) && Legal(e.Launch(), s, moves) && i < e.groups
    ensures var t := After(e.Launch(), s, moves);
      && |t.waves| == e.groups
      && (CanIssue(e.Launch(), t.waves[i]) ==> HazardFree(CODE[t.waves[i].pc], t.waves[i].outstanding))
  {
    hide Enabled, Apply, Legal, After, WaveOk, MemOk, CanIssue, HazardFree;
    InitInv(e, s);
    RunKeeps(e, s, moves);
    var w := After(e.Launch(), s, moves).waves[i];
    if CanIssue(e.Launch(), w) { NeverHazardous(e, i, w); }
  }

  lemma EndedAllOn(e: Env, i: nat, w: Wave)
    requires e.Valid() && i < e.groups && WaveOk(e, i, w) && w.pc >= |CODE|
    ensures AllOn(w.exec)
  {
    hide LaneOk, AccessOk, Lo, Hi;
  }
}
