/** Two authored kernels on one machine. The LDS exchange (examples/physical-lds-exchange-v22.rs)
    runs one workgroup of two waves: lane x publishes input[x] in LDS word x, the barrier
    follows, and lane x stores word x xor 64. The global copy
    (examples/physical-global-copy-v21.rs) runs any number of one-wave workgroups: lane x
    stores input[x]. Their address prefix and guarded-store suffix are the same instructions. */
module CopyKernels {
  import opened Words
  import opened Machine
  import opened MaskedStore

  const EXCHANGE_CODE: seq<Instr> := [
    SLoadX2(8, 0), SLoadX2(10, 8), SLoadX2(12, 16), SLoadX2(14, 24), SWaitLgkm,
    SLshl(16, 2, 7), VAdd(2, 16, 0), VMovZero(3), VMov(4, 9), VLshl64(6, 2, 2),
    VAddCo(6, 8, 6), VAddcCo(7, 4, 7), GlobalLoad(8, 6), SWaitVm,
    VLshl32(16, 0, 2), DsWrite(16, 8), SWaitLgkm, SBarrier,
    VXor(17, 0, 64), VLshl32(17, 17, 2), DsRead(18, 17), SWaitLgkm,
    VMov(5, 13), VLshl64(10, 2, 2), VAddCo(10, 12, 10), VAddcCo(11, 5, 11),
    VCmpGt64(14, 2), SAndSaveexec(18), GlobalStore(10, 18), SWaitVm, SMovExec(18), SEndpgm]

  const COPY_CODE: seq<Instr> := [
    SLoadX2(8, 0), SLoadX2(10, 8), SLoadX2(12, 16), SLoadX2(14, 24), SWaitLgkm,
    SLshl(16, 2, 6), VAdd(2, 16, 0), VMovZero(3), VMov(4, 9), VLshl64(6, 2, 2),
    VAddCo(6, 8, 6), VAddcCo(7, 4, 7), GlobalLoad(8, 6), SWaitVm,
    VMov(5, 13), VLshl64(10, 2, 2), VAddCo(10, 12, 10), VAddcCo(11, 5, 11),
    VCmpGt64(14, 2), SAndSaveexec(18), GlobalStore(10, 8), SWaitVm, SMovExec(18), SEndpgm]

  datatype Kind = Exchange | Copy

  function Code(kind: Kind): seq<Instr> { if kind.Exchange? then EXCHANGE_CODE else COPY_CODE }

  /** Where an instruction of either kernel stands in the exchange program. */
  function Pos(kind: Kind, pc: nat): nat {
    if kind.Copy? && pc >= 14 then pc + 8 else pc
  }

  function At(kind: Kind, p: nat): Instr
    requires p < 32
  {
    if p == 5 then SLshl(16, 2, if kind.Exchange? then 7 else 6)
    else if p == 28 then GlobalStore(10, DataReg(kind))
    else EXCHANGE_CODE[p]
  }

  /** The register the guarded store sends. */
  function DataReg(kind: Kind): Reg { if kind.Exchange? then 18 else 8 }

  function StorePc(kind: Kind): nat { if kind.Exchange? then 28 else 20 }

  lemma Fetch(kind: Kind, pc: nat)
    requires pc < |Code(kind)|
    ensures Pos(kind, pc) < 32 && Code(kind)[pc] == At(kind, Pos(kind, pc))
  {
  }

  /** The launch a host prepares: two views, the memory behind them and the number of
      workgroups. Waves() waves of 64 lanes run; lane l of wave i has index 64 i + l. */
  datatype Env = Env(kind: Kind, groups: nat, inBase: U64, inLen: U64, outBase: U64, outLen: U64, mem: Memory) {
    function Waves(): nat { if kind.Exchange? then 2 else groups }

    function Count(): nat { 64 * Waves() }

    function Karg(): (k: seq<U32>)
      ensures |k| == 8
    {
      [Lo(inBase), Hi(inBase), Lo(inLen), Hi(inLen), Lo(outBase), Hi(outBase), Lo(outLen), Hi(outLen)]
    }

    function Launch(): Launch { Machine.Launch(Code(kind), Karg(), if kind.Exchange? then 2 else 1) }

    /** Lane x's input address, as the 64-bit register pair holds it. */
    function InAt(x: nat): U64 { (inBase + 4 * x) % TWO64 }

    function OutAt(x: nat): int { outBase + 4 * x }

    /** A grid whose lane indices do not wrap; the exchange is launched as one workgroup. */
    predicate Fits() { Count() <= TWO32 && (kind.Exchange? ==> groups == 1) }

    /** A grid that fits, a mapped output view, addresses below 2^64, and every lane's input
        word apart from the stored words. */
    ghost predicate Layout() {
      && Fits()
      && (forall a :: a in mem ==> 0 <= a < TWO64)
      && (forall x: nat {:trigger OutAt(x)} :: x < Count() && x < outLen ==> Mapped(mem, OutAt(x)))
      && (forall x: nat, y: nat {:trigger InAt(x), OutAt(y)} :: x < Count() && y < Count() && y < outLen ==>
            InAt(x) + 4 <= OutAt(y) || OutAt(y) + 4 <= InAt(x))
    }

    /** Every lane has an initialised input word, whatever the output length. */
    ghost predicate Initialised() {
      forall x: nat {:trigger InAt(x)} :: x < Count() ==> WordAt(mem, InAt(x)).Some?
    }

    /** What the kernel asks of its host. */
    ghost predicate Valid() { Layout() && Initialised() }

    /** Input word x as the launch finds it; a valid launch has one for every lane. */
    function In(x: nat): U32 {
      match WordAt(mem, InAt(x))
      case Some(word) => word
      case None => 0
    }

    /** What lane x is to store. */
    function Value(x: nat): U32
      requires Fits() && x < Count()
    { if kind.Exchange? then In(Peer(x)) else In(x) }

    ghost function Out(): Window
      requires Fits()
    { Window(outBase, outLen, mem, seq(Count(), x requires 0 <= x < Count() => Value(x))) }
  }

  lemma OutValid(e: Env)
    requires e.Layout()
    ensures e.Out().Valid() && |e.Out().values| == e.Count()
  {
    forall x: nat | e.Out().Stores(x) ensures Mapped(e.mem, e.Out().At(x)) { assert Mapped(e.mem, e.OutAt(x)); }
  }

  function Peer(x: nat): nat
    requires x < 128
  { if x < 64 then x + 64 else x - 64 }

  lemma PeerIsXor64(x: nat)
    requires x < 128
    ensures Xor32(x, 64) == Peer(x) && Xor(x, 64) == Peer(x)
  {
    assert Pow2(6) == 64;
    XorFlipsBit(x, 6);
  }

  // ---- What each program point knows ----

  /** The workgroup id the hardware leaves in s2, and the local id it leaves in v0. */
  function GroupOf(kind: Kind, i: nat): nat { if kind.Exchange? then 0 else i }

  function LocalOf(kind: Kind, i: nat, l: nat): nat { if kind.Exchange? then Gid(i, l) else l }

  /** What lane l of wave i knows at position p. */
  ghost predicate LaneOk(e: Env, i: nat, w: Wave, l: nat, p: nat)
    requires e.Fits() && i < e.Waves() && l < 64
  {
    var x := Gid(i, l);
    && (p <= 18 ==> w.v[0][l] == LocalOf(e.kind, i, l))
    && (7 <= p <= 26 ==> w.v[2][l] == x)
    && (8 <= p <= 26 ==> w.v[3][l] == 0)
    && (9 <= p <= 11 ==> w.v[4][l] == Hi(e.inBase))
    && (p == 10 ==> w.v[6][l] == Lo(4 * x) && w.v[7][l] == Hi(4 * x))
    && (p == 11 ==> LowAdded(e.inBase, x, w.v[6][l], w.vcc[l]) && w.v[7][l] == Hi(4 * x))
    && (p == 12 ==> VPair(w, 6, l) == e.InAt(x))
    && (p == 13 ==> GlobalLoadAccess(12, l, 8, e.InAt(x)) in w.outstanding || w.v[8][l] == e.In(x))
    && (14 <= p <= 15 ==> w.v[8][l] == e.In(x))
    && (p == 15 ==> w.v[16][l] == 4 * x)
    && (p == 19 ==> e.kind.Exchange? && w.v[17][l] == Peer(x))
    && (p == 20 ==> e.kind.Exchange? && w.v[17][l] == 4 * Peer(x))
    && (p == 21 ==>
          && e.kind.Exchange?
          && (DsReadAccess(20, l, 18, 4 * Peer(x)) in w.outstanding || w.v[18][l] == e.In(Peer(x))))
    && (22 <= p <= 28 ==> w.v[DataReg(e.kind)][l] == e.Value(x))
    && (23 <= p <= 25 ==> w.v[5][l] == Hi(e.outBase))
    && (p == 24 ==> w.v[10][l] == Lo(4 * x) && w.v[11][l] == Hi(4 * x))
    && (p == 25 ==> LowAdded(e.outBase, x, w.v[10][l], w.vcc[l]) && w.v[11][l] == Hi(4 * x))
    && (26 <= p <= 28 ==> VPair(w, 10, l) == e.OutAt(x) % TWO64)
    && (p == 27 ==> w.vcc[l] == (x < e.outLen))
    && (28 <= p <= 30 ==> w.exec[l] == (x < e.outLen))
  }

  /** The accesses a wave may have outstanding at position p, with their exact operands. */
  ghost predicate AccessOk(e: Env, i: nat, a: Access, p: nat)
    requires e.Fits() && i < e.Waves()
  {
    match a
    case ScalarLoadAccess(_, _, dst, word) => p <= 4 && word < 8 && word / 2 < p && dst == 8 + word
    case GlobalLoadAccess(pc, l, dst, q) =>
      p == 13 && pc == 12 && l < 64 && dst == 8 && q == e.InAt(Gid(i, l))
    case DsWriteAccess(pc, l, at, data) =>
      e.kind.Exchange? && p == 16 && pc == 15 && l < 64 && at == 4 * Gid(i, l) && data == e.In(Gid(i, l))
    case DsReadAccess(pc, l, dst, at) =>
      e.kind.Exchange? && p == 21 && pc == 20 && l < 64 && dst == 18 && at == 4 * Peer(Gid(i, l))
    case GlobalStoreAccess(_, l, _, _) =>
      p == 29 && l < 64 && e.Out().Stores(Gid(i, l)) && a == StoreOf(e.Out(), StorePc(e.kind), Gid(i, l))
  }

  /** The load of argument word r - 8 into register r. */
  function ArgumentLoad(r: nat): Access
    requires 8 <= r < 16
  { ScalarLoadAccess((r - 8) / 2, r % 2, r, r - 8) }

  ghost predicate ScalarsOk(e: Env, i: nat, w: Wave, p: nat)
    requires e.Fits() && i < e.Waves()
  {
    && w.s[2] == GroupOf(e.kind, i)
    && (forall r: nat {:trigger w.s[r]} :: 8 <= r < 16 && (r - 8) / 2 < p ==>
          w.s[r] == e.Karg()[r - 8] || (p <= 4 && ArgumentLoad(r) in w.outstanding))
    && (p == 6 ==> w.s[16] == 64 * GroupOf(e.kind, i))
    && (p <= 27 || p > 30 ==> AllOn(w.exec))
    && (28 <= p <= 30 ==> exists m: Mask :: AllOn(m) && SPair(w, 18) == MaskToWord(m))
  }

  ghost predicate WaveOk(e: Env, i: nat, w: Wave)
    requires e.Fits() && i < e.Waves()
  {
    var p := Pos(e.kind, w.pc);
    && p <= 32
    && (w.arrived ==> e.kind.Exchange? && p == 17)
    && ScalarsOk(e, i, w, p)
    && (forall l: nat :: l < 64 ==> LaneOk(e, i, w, l, p))
    && (forall a :: a in w.outstanding ==> AccessOk(e, i, a, p))
  }

  // ---- One wave issues ----

  /** The scalar facts one lane relies on. */
  predicate GroundOk(e: Env, i: nat, w: Wave, l: nat, p: nat)
    requires l < 64
  {
    && (p > 4 ==>
          && w.s[8] == Lo(e.inBase) && w.s[9] == Hi(e.inBase)
          && w.s[12] == Lo(e.outBase) && w.s[13] == Hi(e.outBase)
          && w.s[14] == Lo(e.outLen) && w.s[15] == Hi(e.outLen))
    && (p == 6 ==> w.s[16] == 64 * GroupOf(e.kind, i))
    && (p <= 27 ==> w.exec[l])
  }

  /** After the first wait the eight kernel-argument words are in s8..s15. */
  lemma ArgumentsReady(e: Env, i: nat, w: Wave, l: nat, p: nat)
    requires e.Fits() && i < e.Waves() && ScalarsOk(e, i, w, p) && l < 64
    ensures GroundOk(e, i, w, l, p)
  {
    hide Lo, Hi, Pair, MaskToWord;
    if p > 4 {
      assert w.s[8] == e.Karg()[0] && w.s[9] == e.Karg()[1];
      assert w.s[12] == e.Karg()[4] && w.s[13] == e.Karg()[5];
      assert w.s[14] == e.Karg()[6] && w.s[15] == e.Karg()[7];
    }
  }

  /** Position reached by issuing at p. */
  function NextPos(kind: Kind, p: nat): nat { if kind.Copy? && p == 13 then 22 else p + 1 }

  lemma NextPosIsNextPc(kind: Kind, pc: nat)
    requires pc < |Code(kind)|
    ensures Pos(kind, pc + 1) == NextPos(kind, Pos(kind, pc))
    ensures kind.Copy? ==> Pos(kind, pc) <= 13 || Pos(kind, pc) >= 22
  {
  }

  lemma IssueSetup(e: Env, i: nat, w: Wave, l: nat, p: nat)
    requires e.Fits() && i < e.Waves() && l < 64 && 0 <= p <= 4 && LaneOk(e, i, w, l, p) && GroundOk(e, i, w, l, p)
    ensures LaneOk(e, i, Issue(At(e.kind, p), w), l, NextPos(e.kind, p))
  {
    hide Shl32, Shl64, Xor, Xor32, Pow2, Lo, Hi, Pair, Add32, Carry32;
  }

  lemma IssueIndex(e: Env, i: nat, w: Wave, l: nat, p: nat)
    requires e.Fits() && i < e.Waves() && l < 64 && 5 <= p <= 8 && LaneOk(e, i, w, l, p) && GroundOk(e, i, w, l, p)
    ensures LaneOk(e, i, Issue(At(e.kind, p), w), l, NextPos(e.kind, p))
  {
    hide Shl32, Shl64, Xor, Xor32, Pow2, Lo, Hi, Pair, Add32, Carry32;
    if p == 6 { AddSmall(64 * GroupOf(e.kind, i), LocalOf(e.kind, i, l)); }
  }

  lemma IssueLoadAddress(e: Env, i: nat, w: Wave, l: nat, p: nat)
    requires e.Fits() && i < e.Waves() && l < 64 && 9 <= p <= 10 && LaneOk(e, i, w, l, p) && GroundOk(e, i, w, l, p)
    ensures LaneOk(e, i, Issue(At(e.kind, p), w), l, NextPos(e.kind, p))
  {
    hide Shl32, Shl64, Xor, Xor32, Pow2, Lo, Hi, Pair, Add32, Carry32;
    ShiftIndex(Gid(i, l));
  }

  lemma IssueInputHigh(e: Env, i: nat, w: Wave, l: nat, p: nat)
    requires e.Fits() && i < e.Waves() && l < 64 && p == 11 && LaneOk(e, i, w, l, p) && GroundOk(e, i, w, l, p)
    ensures LaneOk(e, i, Issue(At(e.kind, p), w), l, NextPos(e.kind, p))
  {
    hide Shl32, Shl64, Xor, Xor32, Pow2, Lo, Hi, Pair, Add32, Carry32;
    CarryChain(e.inBase, 4 * Gid(i, l));
    AddCommutes(Hi(e.inBase), Hi(4 * Gid(i, l)), w.vcc[l]);
  }

  lemma IssueLoad(e: Env, i: nat, w: Wave, l: nat, p: nat)
    requires e.Fits() && i < e.Waves() && l < 64 && p == 12 && LaneOk(e, i, w, l, p) && GroundOk(e, i, w, l, p)
    requires w.pc == 12
    ensures LaneOk(e, i, Issue(At(e.kind, p), w), l, NextPos(e.kind, p))
  {
    hide Shl32, Shl64, Xor, Xor32, Pow2, Lo, Hi, Pair, Add32, Carry32;
  }

  lemma IssueLoadWait(e: Env, i: nat, w: Wave, l: nat, p: nat)
    requires e.Fits() && i < e.Waves() && l < 64 && p == 13 && LaneOk(e, i, w, l, p) && GroundOk(e, i, w, l, p)
    requires forall a :: a in w.outstanding ==> !CountsVm(a)
    ensures LaneOk(e, i, Issue(At(e.kind, p), w), l, NextPos(e.kind, p))
  {
    hide Shl32, Shl64, Xor, Xor32, Pow2, Lo, Hi, Pair, Add32, Carry32;
    assert GlobalLoadAccess(12, l, 8, e.InAt(Gid(i, l))) in w.outstanding ==>
      CountsVm(GlobalLoadAccess(12, l, 8, e.InAt(Gid(i, l))));
  }

  lemma IssuePublish(e: Env, i: nat, w: Wave, l: nat, p: nat)
    requires e.Fits() && i < e.Waves() && l < 64 && 14 <= p <= 17 && LaneOk(e, i, w, l, p) && GroundOk(e, i, w, l, p)
    requires e.kind.Exchange?
    ensures LaneOk(e, i, Issue(At(e.kind, p), w), l, NextPos(e.kind, p))
  {
    hide Shl32, Shl64, Xor, Xor32, Pow2, Lo, Hi, Pair, Add32, Carry32;
    ShiftByTwo(Gid(i, l));
  }

  lemma IssuePeer(e: Env, i: nat, w: Wave, l: nat, p: nat)
    requires e.Fits() && i < e.Waves() && l < 64 && 18 <= p <= 19 && LaneOk(e, i, w, l, p) && GroundOk(e, i, w, l, p)
    requires e.kind.Exchange?
    ensures LaneOk(e, i, Issue(At(e.kind, p), w), l, NextPos(e.kind, p))
  {
    hide Shl32, Shl64, Xor, Xor32, Pow2, Lo, Hi, Pair, Add32, Carry32;
    PeerIsXor64(Gid(i, l));
    ShiftByTwo(Peer(Gid(i, l)));
  }

  lemma IssueRead(e: Env, i: nat, w: Wave, l: nat, p: nat)
    requires e.Fits() && i < e.Waves() && l < 64 && 20 <= p <= 21 && LaneOk(e, i, w, l, p) && GroundOk(e, i, w, l, p)
    requires e.kind.Exchange? && w.pc == p
    requires p == 21 ==> forall a :: a in w.outstanding ==> !CountsLgkm(a)
    ensures LaneOk(e, i, Issue(At(e.kind, p), w), l, NextPos(e.kind, p))
  {
    hide Shl32, Shl64, Xor, Xor32, Pow2, Lo, Hi, Pair, Add32, Carry32;
  }

  lemma IssueStoreAddress(e: Env, i: nat, w: Wave, l: nat, p: nat)
    requires e.Fits() && i < e.Waves() && l < 64 && 22 <= p <= 24 && LaneOk(e, i, w, l, p) && GroundOk(e, i, w, l, p)
    ensures LaneOk(e, i, Issue(At(e.kind, p), w), l, NextPos(e.kind, p))
  {
    hide Shl32, Shl64, Xor, Xor32, Pow2, Lo, Hi, Pair, Add32, Carry32;
    ShiftIndex(Gid(i, l));
  }

  lemma IssueOutputHigh(e: Env, i: nat, w: Wave, l: nat, p: nat)
    requires e.Fits() && i < e.Waves() && l < 64 && p == 25 && LaneOk(e, i, w, l, p) && GroundOk(e, i, w, l, p)
    ensures LaneOk(e, i, Issue(At(e.kind, p), w), l, NextPos(e.kind, p))
  {
    hide Shl32, Shl64, Xor, Xor32, Pow2, Lo, Hi, Pair, Add32, Carry32;
    CarryChain(e.outBase, 4 * Gid(i, l));
    AddCommutes(Hi(e.outBase), Hi(4 * Gid(i, l)), w.vcc[l]);
  }

  lemma IssueCompare(e: Env, i: nat, w: Wave, l: nat, p: nat)
    requires e.Fits() && i < e.Waves() && l < 64 && p == 26 && LaneOk(e, i, w, l, p) && GroundOk(e, i, w, l, p)
    ensures LaneOk(e, i, Issue(At(e.kind, p), w), l, NextPos(e.kind, p))
  {
    hide Shl32, Shl64, Xor, Xor32, Pow2, Lo, Hi, Pair, Add32, Carry32;
    PairOfHalves(e.outLen);
    PairOfHalves(Gid(i, l));
    SmallHalves(Gid(i, l));
  }

  lemma IssueStore(e: Env, i: nat, w: Wave, l: nat, p: nat)
    requires e.Fits() && i < e.Waves() && l < 64 && 27 <= p <= 31 && LaneOk(e, i, w, l, p) && GroundOk(e, i, w, l, p)
    ensures LaneOk(e, i, Issue(At(e.kind, p), w), l, NextPos(e.kind, p))
  {
    hide Shl32, Shl64, Xor, Xor32, Pow2, Lo, Hi, Pair, Add32, Carry32;
  }

  lemma IssueLane(e: Env, i: nat, w: Wave, l: nat)
    requires e.Fits() && i < e.Waves() && l < 64 && WaveOk(e, i, w) && CanIssue(e.Launch(), w)
    ensures LaneOk(e, i, Issue(Code(e.kind)[w.pc], w), l, Pos(e.kind, w.pc + 1))
  {
    hide LaneOk, Issue, ScalarsOk, AccessOk;
    var p := Pos(e.kind, w.pc);
    Fetch(e.kind, w.pc);
    NextPosIsNextPc(e.kind, w.pc);
    assert LaneOk(e, i, w, l, p);
    ArgumentsReady(e, i, w, l, p);
    if p <= 4 { IssueSetup(e, i, w, l, p); }
    else if p <= 8 { IssueIndex(e, i, w, l, p); }
    else if p <= 10 { IssueLoadAddress(e, i, w, l, p); }
    else if p == 11 { IssueInputHigh(e, i, w, l, p); }
    else if p == 12 { IssueLoad(e, i, w, l, p); }
    else if p == 13 { IssueLoadWait(e, i, w, l, p); }
    else if p <= 17 { IssuePublish(e, i, w, l, p); }
    else if p <= 19 { IssuePeer(e, i, w, l, p); }
    else if p <= 21 { IssueRead(e, i, w, l, p); }
    else if p <= 24 { IssueStoreAddress(e, i, w, l, p); }
    else if p == 25 { IssueOutputHigh(e, i, w, l, p); }
    else if p == 26 { IssueCompare(e, i, w, l, p); }
    else { IssueStore(e, i, w, l, p); }
  }

  lemma IssueArguments(e: Env, i: nat, w: Wave, p: nat)
    requires e.Fits() && i < e.Waves() && ScalarsOk(e, i, w, p) && w.pc == p <= 4
    requires p == 4 ==> forall a :: a in w.outstanding ==> !CountsLgkm(a)
    ensures ScalarsOk(e, i, Issue(At(e.kind, p), w), p + 1)
  {
    hide Lo, Hi;
    var n := Issue(At(e.kind, p), w);
    forall r: nat | 8 <= r < 16 && (r - 8) / 2 < p + 1
      ensures n.s[r] == e.Karg()[r - 8] || (p + 1 <= 4 && ArgumentLoad(r) in n.outstanding)
    {
      assert n.s[r] == w.s[r];
      if p == 4 {
        assert CountsLgkm(ArgumentLoad(r));
      } else if (r - 8) / 2 == p {
        assert r == 8 + 2 * p + r % 2;
      }
    }
  }

  lemma IssueShift(e: Env, i: nat, w: Wave)
    requires e.Fits() && i < e.Waves() && ScalarsOk(e, i, w, 5)
    ensures ScalarsOk(e, i, Issue(At(e.kind, 5), w), 6)
  {
    hide Lo, Hi, Shl32;
    GroupShift(e.kind, i);
    var n := Issue(At(e.kind, 5), w);
    forall r: nat | 8 <= r < 16 ensures n.s[r] == e.Karg()[r - 8] { assert n.s[r] == w.s[r]; }
  }

  lemma GroupShift(kind: Kind, i: nat)
    requires 64 * i < TWO32
    ensures Shl32(GroupOf(kind, i), if kind.Exchange? then 7 else 6) == 64 * GroupOf(kind, i)
  {
    assert Pow2(6) == 64;
  }

  lemma IssueMiddle(e: Env, i: nat, w: Wave, p: nat)
    requires e.Fits() && i < e.Waves() && ScalarsOk(e, i, w, p) && 6 <= p <= 26
    ensures ScalarsOk(e, i, Issue(At(e.kind, p), w), NextPos(e.kind, p))
  {
    hide Lo, Hi, Issue;
    IssueFrame(At(e.kind, p), w);
    assert SWrites(At(e.kind, p)) == {} && !At(e.kind, p).SAndSaveexec? && !At(e.kind, p).SMovExec?;
    var n := Issue(At(e.kind, p), w);
    forall r: nat | 8 <= r < 16 ensures n.s[r] == e.Karg()[r - 8] { assert n.s[r] == w.s[r]; }
  }

  lemma IssueMasks(e: Env, i: nat, w: Wave, p: nat)
    requires e.Fits() && i < e.Waves() && ScalarsOk(e, i, w, p) && 27 <= p <= 31
    ensures ScalarsOk(e, i, Issue(At(e.kind, p), w), p + 1)
  {
    hide Lo, Hi, Pair, MaskToWord, WordToMask;
    var n := Issue(At(e.kind, p), w);
    if p == 27 {
      PairOfHalves(MaskToWord(w.exec));
      assert SPair(n, 18) == MaskToWord(w.exec);
    } else if p <= 30 {
      var m: Mask :| AllOn(m) && SPair(w, 18) == MaskToWord(m);
      PairOfHalves(MaskToWord(m));
      SavedMaskRestores(m);
    }
  }

  lemma IssueScalars(e: Env, i: nat, w: Wave)
    requires e.Fits() && i < e.Waves() && ScalarsOk(e, i, w, Pos(e.kind, w.pc)) && CanIssue(e.Launch(), w)
    ensures ScalarsOk(e, i, Issue(Code(e.kind)[w.pc], w), Pos(e.kind, w.pc + 1))
  {
    hide ScalarsOk, Issue;
    var p := Pos(e.kind, w.pc);
    Fetch(e.kind, w.pc);
    NextPosIsNextPc(e.kind, w.pc);
    if p <= 4 { IssueArguments(e, i, w, p); }
    else if p == 5 { IssueShift(e, i, w); }
    else if p <= 26 { IssueMiddle(e, i, w, p); }
    else { IssueMasks(e, i, w, p); }
  }

  /** Nothing a wave issues past stays outstanding, except the first four loads. */
  lemma StillOutstanding(e: Env, i: nat, w: Wave, a: Access)
    requires e.Fits() && i < e.Waves() && WaveOk(e, i, w) && CanIssue(e.Launch(), w) && a in w.outstanding
    ensures w.pc < 4 && a.ScalarLoadAccess? && a.word / 2 < w.pc && a.word < 8 && a.dst == 8 + a.word
  {
    hide LaneOk, ScalarsOk;
    Fetch(e.kind, w.pc);
    assert AccessOk(e, i, a, Pos(e.kind, w.pc));
  }

  lemma OnlyFourIssueLaneAccesses(e: Env, w: Wave, p: nat, a: Access)
    requires 4 <= p < 32 && a in Issue(At(e.kind, p), w).outstanding && a !in w.outstanding
    ensures p in {12, 15, 20, 28} && !a.ScalarLoadAccess? && a.lane < 64
  {
    MemoryAt(e.kind, p);
    hide Issue, At, LaneAccesses, ScalarAccesses;
    NewAccessKind(At(e.kind, p), w, a);
  }

  lemma MemoryAt(kind: Kind, p: nat)
    requires p < 32
    ensures LaneAccesses(At(kind, p)) <==> p in {12, 15, 20, 28}
    ensures ScalarAccesses(At(kind, p)) <==> p < 4
  {
  }

  lemma NewGlobalLoad(e: Env, i: nat, w: Wave, a: Access)
    requires e.Fits() && i < e.Waves() && w.pc == 12
    requires a in Issue(At(e.kind, 12), w).outstanding && a !in w.outstanding
    requires !a.ScalarLoadAccess? && a.lane < 64 && LaneOk(e, i, w, a.lane, 12)
    ensures AccessOk(e, i, a, 13)
  {
    hide Lo, Hi, Pair, LowAdded;
    assert Issue(GlobalLoad(8, 6), w).outstanding == w.outstanding + GlobalLoads(w, 8, 6);
    hide Issue;
    assert a == GlobalLoadAccess(12, a.lane, 8, VPair(w, 6, a.lane));
    hide VPair, GlobalLoads;
  }

  lemma NewGlobalStore(e: Env, i: nat, w: Wave, a: Access)
    requires e.Fits() && i < e.Waves() && w.pc == StorePc(e.kind)
    requires a in Issue(At(e.kind, 28), w).outstanding && a !in w.outstanding
    requires !a.ScalarLoadAccess? && a.lane < 64 && LaneOk(e, i, w, a.lane, 28)
    ensures AccessOk(e, i, a, 29)
  {
    hide Lo, Hi, Pair, LowAdded;
    var data := DataReg(e.kind);
    assert At(e.kind, 28) == GlobalStore(10, data);
    assert Issue(GlobalStore(10, data), w).outstanding == w.outstanding + GlobalStores(w, 10, data);
    hide Issue, At;
    assert w.exec[a.lane] && a == GlobalStoreAccess(w.pc, a.lane, VPair(w, 10, a.lane), w.v[data][a.lane]);
    hide VPair, GlobalStores;
  }

  lemma NewDsAccess(e: Env, i: nat, w: Wave, p: nat, a: Access)
    requires e.Fits() && i < e.Waves() && p in {15, 20} && p == Pos(e.kind, w.pc)
    requires a in Issue(At(e.kind, p), w).outstanding && a !in w.outstanding
    requires !a.ScalarLoadAccess? && a.lane < 64 && LaneOk(e, i, w, a.lane, p)
    ensures AccessOk(e, i, a, p + 1)
  {
    hide AddLanes, AddCarry, AddcLanes, AddcCarry, FillLanes, ShlLoLanes, ShlHiLanes, Shl32Lanes, XorLanes;
    hide GreaterMask, AndMask;
    hide Lo, Hi, Pair, LowAdded;
  }

  lemma IssueAccesses(e: Env, i: nat, w: Wave)
    requires e.Fits() && i < e.Waves() && WaveOk(e, i, w) && CanIssue(e.Launch(), w)
    ensures forall a :: a in Issue(Code(e.kind)[w.pc], w).outstanding ==> AccessOk(e, i, a, Pos(e.kind, w.pc + 1))
  {
    var p := Pos(e.kind, w.pc);
    Fetch(e.kind, w.pc);
    NextPosIsNextPc(e.kind, w.pc);
    forall a | a in Issue(Code(e.kind)[w.pc], w).outstanding ensures AccessOk(e, i, a, NextPos(e.kind, p)) {
      if a in w.outstanding {
        StillOutstanding(e, i, w, a);
      } else if p < 4 {
        NewScalarAccess(e, i, w, p, a);
      } else {
        hide LaneOk, ScalarsOk, AccessOk, Issue;
        OnlyFourIssueLaneAccesses(e, w, p, a);
        assert LaneOk(e, i, w, a.lane, p);
        if p == 12 { NewGlobalLoad(e, i, w, a); }
        else if p == 28 { NewGlobalStore(e, i, w, a); }
        else { NewDsAccess(e, i, w, p, a); }
      }
    }
  }

  lemma NewScalarAccess(e: Env, i: nat, w: Wave, p: nat, a: Access)
    requires e.Fits() && i < e.Waves() && p < 4
    requires a in Issue(At(e.kind, p), w).outstanding && a !in w.outstanding
    ensures AccessOk(e, i, a, p + 1)
  {
  }

  /** No instruction ever reads or overwrites a register whose load is outstanding. */
  lemma NeverHazardous(e: Env, i: nat, w: Wave)
    requires e.Fits() && i < e.Waves() && WaveOk(e, i, w) && CanIssue(e.Launch(), w)
    ensures HazardFree(Code(e.kind)[w.pc], w.outstanding)
  {
    hide WaveOk, VReads, VWrites;
    forall a | a in w.outstanding
      ensures a.ScalarLoadAccess? && a.dst !in SReads(Code(e.kind)[w.pc]) + SWrites(Code(e.kind)[w.pc])
    {
      StillOutstanding(e, i, w, a);
    }
  }

  lemma IssueWave(e: Env, i: nat, w: Wave)
    requires e.Fits() && i < e.Waves() && WaveOk(e, i, w) && CanIssue(e.Launch(), w)
    ensures WaveOk(e, i, Issue(Code(e.kind)[w.pc], w))
    ensures Issue(Code(e.kind)[w.pc], w).pc == w.pc + 1
  {
    hide Issue, LaneOk, AccessOk, ScalarsOk;
    var n := Issue(Code(e.kind)[w.pc], w);
    IssueScalars(e, i, w);
    IssueAccesses(e, i, w);
    IssueFrame(Code(e.kind)[w.pc], w);
    AtBarrier17(e.kind, w.pc);
    forall l: nat | l < 64 ensures LaneOk(e, i, n, l, Pos(e.kind, n.pc)) { IssueLane(e, i, w, l); }
  }

  lemma AtBarrier17(kind: Kind, pc: nat)
    requires pc < |Code(kind)|
    ensures Code(kind)[pc].SBarrier? <==> kind.Exchange? && pc == 17
  {
  }

  // ---- LDS, word by word ----

  ghost predicate Blank(lds: Memory, x: nat) {
    && Mapped(lds, 4 * x)
    && lds[4 * x].Uninit? && lds[4 * x + 1].Uninit? && lds[4 * x + 2].Uninit? && lds[4 * x + 3].Uninit?
  }

  /** LDS word x belongs to lane x: blank until that lane's own write lands, input[x] after. */
  ghost predicate LdsWordOk(e: Env, owner: Wave, lds: Memory, x: nat)
    requires e.Valid() && e.kind.Exchange? && x < 128
  {
    && (owner.pc <= 15 ==> Blank(lds, x))
    && (owner.pc == 16 ==>
          || (Blank(lds, x) && DsWriteAccess(15, x % 64, 4 * x, e.In(x)) in owner.outstanding)
          || WordAt(lds, 4 * x) == Some(e.In(x)))
    && (owner.pc >= 17 ==> WordAt(lds, 4 * x) == Some(e.In(x)))
  }

  /** The LDS frame of the exchange; the copy uses none. No wave is past the barrier before
      the other has reached it. */
  ghost predicate LdsOk(e: Env, waves: seq<Wave>, lds: seq<Memory>)
    requires e.Valid() && |waves| == e.Waves()
  {
    e.kind.Exchange? ==>
      && |lds| == 1
      && (waves[0].pc <= 17 <==> waves[1].pc <= 17)
      && (forall x: nat :: x < 128 ==> LdsWordOk(e, waves[x / 64], lds[0], x))
  }

  /** The invariant of every reachable state. */
  ghost predicate Inv(e: Env, s: State)
    requires e.Valid()
  {
    OutValid(e);
    && |s.waves| == e.Waves() && !s.fault
    && (forall i: nat :: i < e.Waves() ==> WaveOk(e, i, s.waves[i]))
    && LdsOk(e, s.waves, s.lds)
    && MemOk(e.Out(), StorePc(e.kind), s.waves, s.mem)
  }

  /** A launch as the hardware starts it: local ids in v0, the workgroup id in s2, all lanes
      on, every other register arbitrary, and for the exchange 512 bytes of blank LDS. */
  ghost predicate Init(e: Env, s: State)
    requires e.Fits()
  {
    && |s.waves| == e.Waves() && !s.fault && s.mem == e.mem
    && (e.kind.Exchange? ==>
          && |s.lds| == 1 && (forall a: int :: a in s.lds[0] <==> 0 <= a < 512)
          && (forall a: int :: a in s.lds[0] ==> s.lds[0][a].Uninit?))
    && (forall i: nat :: i < e.Waves() ==> StartsOk(e, i, s.waves[i]))
  }

  ghost predicate StartsOk(e: Env, i: nat, w: Wave) {
    && w.pc == 0 && !w.arrived && w.outstanding == {} && AllOn(w.exec) && w.s[2] == GroupOf(e.kind, i)
    && (forall l: nat :: l < 64 ==> w.v[0][l] == LocalOf(e.kind, i, l))
  }

  lemma InitInv(e: Env, s: State)
    requires e.Valid() && Init(e, s)
    ensures Inv(e, s)
  {
    hide Lo, Hi, MemOk;
    OutValid(e);
    StartOk(e.Out(), StorePc(e.kind), s.waves);
    forall i: nat | i < e.Waves() ensures WaveOk(e, i, s.waves[i]) {
      assert StartsOk(e, i, s.waves[i]);
      forall l: nat | l < 64 ensures LaneOk(e, i, s.waves[i], l, 0) {}
    }
  }

  // ---- Moves keep the invariant ----

  lemma IssueKeeps(e: Env, s: State, i: nat)
    requires e.Valid() && Inv(e, s) && Enabled(e.Launch(), s, IssueNext(i))
    ensures Inv(e, Apply(e.Launch(), s, IssueNext(i)))
  {
    hide WaveOk, MemOk, LdsOk, Issue, CanIssue;
    IssueWave(e, i, s.waves[i]);
    IssueLds(e, s, i);
    IssueMem(e, s, i);
  }

  lemma IssueLds(e: Env, s: State, i: nat)
    requires e.Valid() && Inv(e, s) && i < e.Waves() && CanIssue(e.Launch(), s.waves[i])
    ensures LdsOk(e, s.waves[i := Issue(Code(e.kind)[s.waves[i].pc], s.waves[i])], s.lds)
  {
    hide WaveOk, MemOk, Issue, LdsWordOk, Blank, WordAt;
    var w := s.waves[i];
    var n := Issue(Code(e.kind)[w.pc], w);
    if e.kind.Exchange? {
      IssueWave(e, i, w);
      NoIssueAtBarrier(e, w);
      forall x: nat | x < 128 ensures LdsWordOk(e, s.waves[i := n][x / 64], s.lds[0], x) {
        if x / 64 == i { IssueLdsWord(e, i, w, s.lds[0], x); }
      }
    }
  }

  lemma NoIssueAtBarrier(e: Env, w: Wave)
    requires CanIssue(e.Launch(), w)
    ensures e.kind.Exchange? ==> w.pc != 17
  {
  }

  lemma IssueLdsWord(e: Env, i: nat, w: Wave, lds: Memory, x: nat)
    requires e.Valid() && e.kind.Exchange? && x < 128 && i == x / 64 && WaveOk(e, i, w) && CanIssue(e.Launch(), w)
    requires LdsWordOk(e, w, lds, x)
    ensures LdsWordOk(e, Issue(EXCHANGE_CODE[w.pc], w), lds, x)
  {
    hide AccessOk, ScalarsOk, WordAt, Lo, Hi, Pair;
    var l := x % 64;
    assert Gid(i, l) == x;
    IssueFrame(EXCHANGE_CODE[w.pc], w);
    if w.pc == 15 {
      assert LaneOk(e, i, w, l, 15);
      ArgumentsReady(e, i, w, l, 15);
      assert DsWriteAccess(15, l, w.v[16][l], w.v[8][l]) in DsWrites(w, 16, 8);
    } else if w.pc == 16 {
      assert CountsLgkm(DsWriteAccess(15, l, 4 * x, e.In(x)));
    }
  }

  lemma IssueMem(e: Env, s: State, i: nat)
    requires e.Valid() && Inv(e, s) && i < e.Waves() && CanIssue(e.Launch(), s.waves[i])
    ensures e.Out().Valid() && |e.Out().values| == 64 * |s.waves|
    ensures MemOk(e.Out(), StorePc(e.kind), s.waves[i := Issue(Code(e.kind)[s.waves[i].pc], s.waves[i])], s.mem)
  {
    hide WaveOk, MemOk, LdsOk, Issue;
    OutValid(e);
    var w, o, pc := s.waves[i], e.Out(), StorePc(e.kind);
    var n := Issue(Code(e.kind)[w.pc], w);
    IssueWave(e, i, w);
    forall x: nat | o.Stores(x) && x / 64 == i && w.pc == pc ensures StoreOf(o, pc, x) in n.outstanding {
      IssuesStore(e, i, w, x);
    }
    forall x: nat | o.Stores(x) && w.pc == pc + 1 ensures StoreOf(o, pc, x) !in w.outstanding {
      if StoreOf(o, pc, x) in w.outstanding { StillOutstanding(e, i, w, StoreOf(o, pc, x)); }
    }
    WaveMoves(o, pc, s.waves, s.mem, i, n);
  }

  lemma IssuesStore(e: Env, i: nat, w: Wave, x: nat)
    requires e.Valid() && i < e.Waves() && WaveOk(e, i, w) && w.pc == StorePc(e.kind)
    requires e.Out().Stores(x) && x / 64 == i
    ensures StoreOf(e.Out(), w.pc, x) in Issue(Code(e.kind)[w.pc], w).outstanding
  {
    hide AddLanes, AddCarry, AddcLanes, AddcCarry, FillLanes, ShlLoLanes, ShlHiLanes, Shl32Lanes, XorLanes;
    hide GreaterMask, AndMask;
    hide AccessOk, ScalarsOk, Lo, Hi, Pair;
    var l := x % 64;
    assert Gid(i, l) == x;
    Fetch(e.kind, w.pc);
    assert LaneOk(e, i, w, l, 28);
    assert GlobalStoreAccess(w.pc, l, VPair(w, 10, l), w.v[DataReg(e.kind)][l]) in GlobalStores(w, 10, DataReg(e.kind));
  }

  lemma SameLanes(e: Env, i: nat, w: Wave, n: Wave, p: nat, q: nat)
    requires e.Fits() && i < e.Waves() && (p == q || (p == 17 && q == 18))
    requires n.v == w.v && n.exec == w.exec && n.vcc == w.vcc
    requires forall a :: a in w.outstanding && (a.GlobalLoadAccess? || a.DsReadAccess?) ==> a in n.outstanding
    requires forall l: nat :: l < 64 ==> LaneOk(e, i, w, l, p)
    ensures forall l: nat :: l < 64 ==> LaneOk(e, i, n, l, q)
  {
    forall l: nat | l < 64 ensures LaneOk(e, i, n, l, q) {
      hide Lo, Hi, Pair, LowAdded;
      assert LaneOk(e, i, w, l, p);
    }
  }

  /** A move that only changes one wave's bookkeeping, not what memory holds. */
  lemma SharedSame(e: Env, s: State, i: nat, n: Wave)
    requires e.Valid() && Inv(e, s) && i < e.Waves() && n.pc == s.waves[i].pc
    requires forall a :: a in s.waves[i].outstanding && (a.DsWriteAccess? || a.GlobalStoreAccess?) ==>
      a in n.outstanding
    ensures LdsOk(e, s.waves[i := n], s.lds)
    ensures e.Out().Valid() && |e.Out().values| == 64 * |s.waves|
    ensures MemOk(e.Out(), StorePc(e.kind), s.waves[i := n], s.mem)
  {
    hide WordAt, WaveOk, Blank, MemOk;
    OutValid(e);
    WaveMoves(e.Out(), StorePc(e.kind), s.waves, s.mem, i, n);
    if e.kind.Exchange? {
      forall x: nat | x < 128 ensures LdsWordOk(e, s.waves[i := n][x / 64], s.lds[0], x) {
        assert LdsWordOk(e, s.waves[x / 64], s.lds[0], x);
      }
    }
  }

  lemma ArriveKeeps(e: Env, s: State, i: nat)
    requires e.Valid() && Inv(e, s) && Enabled(e.Launch(), s, Arrive(i))
    ensures Inv(e, Apply(e.Launch(), s, Arrive(i)))
  {
    hide LaneOk, AccessOk, LdsOk, MemOk, Lo, Hi;
    var w := s.waves[i];
    AtBarrier17(e.kind, w.pc);
    assert WaveOk(e, i, w);
    SharedSame(e, s, i, w.(arrived := true));
    ArrivedWave(e, i, w);
  }

  lemma ArrivedWave(e: Env, i: nat, w: Wave)
    requires e.Fits() && e.kind.Exchange? && i < 2 && WaveOk(e, i, w) && w.pc == 17
    ensures WaveOk(e, i, w.(arrived := true))
  {
    hide LaneOk, Lo, Hi;
    SameLanes(e, i, w, w.(arrived := true), 17, 17);
  }

  lemma ReleaseKeeps(e: Env, s: State, g: nat)
    requires e.Valid() && Inv(e, s) && Enabled(e.Launch(), s, Release(g))
    ensures Inv(e, Apply(e.Launch(), s, Release(g)))
  {
    hide WaveOk, MemOk, LdsOk, Issue;
    BothWaiting(e, s, g);
    OutValid(e);
    var n0, n1 := s.waves[0].(pc := 18, arrived := false), s.waves[1].(pc := 18, arrived := false);
    ReleasedWave(e, 0, s.waves[0]);
    ReleasedWave(e, 1, s.waves[1]);
    assert Apply(e.Launch(), s, Release(g)).waves == s.waves[0 := n0][1 := n1];
    WaveMoves(e.Out(), StorePc(e.kind), s.waves, s.mem, 0, n0);
    WaveMoves(e.Out(), StorePc(e.kind), s.waves[0 := n0], s.mem, 1, n1);
    ReleasedLds(e, s, n0, n1);
  }

  lemma ReleasedLds(e: Env, s: State, n0: Wave, n1: Wave)
    requires e.Valid() && e.kind.Exchange? && Inv(e, s) && s.waves[0].pc == s.waves[1].pc == 17
    requires n0.pc == n1.pc == 18
    ensures LdsOk(e, s.waves[0 := n0][1 := n1], s.lds)
  {
    hide WordAt, WaveOk, MemOk;
    forall x: nat | x < 128 ensures LdsWordOk(e, s.waves[0 := n0][1 := n1][x / 64], s.lds[0], x) {
      assert LdsWordOk(e, s.waves[x / 64], s.lds[0], x);
    }
  }

  /** The barrier opens for the two waves together, with all 128 words published and nothing
      outstanding, or not at all; the copy has none. */
  lemma BothWaiting(e: Env, s: State, g: nat)
    requires e.Valid() && Inv(e, s) && Enabled(e.Launch(), s, Release(g))
    ensures e.kind.Exchange? && g == 0
    ensures forall i: nat :: i < 2 ==>
      && InGroup(e.Launch(), i, g) && Waiting(e.Launch(), s.waves[i])
      && s.waves[i].pc == 17 && s.waves[i].outstanding == {}
    ensures |s.lds| == 1 && forall x: nat :: x < 128 ==> WordAt(s.lds[0], 4 * x) == Some(e.In(x))
  {
    hide WaveOk, MemOk, LdsWordOk, Code, InGroup;
    var l := e.Launch();
    var k: nat :| k < |s.waves| && InGroup(l, k, g) && Waiting(l, s.waves[k]);
    AtBarrier17(e.kind, s.waves[k].pc);
    PairInGroup(l, k, g);
    PairInGroup(l, 0, g);
    PairInGroup(l, 1, g);
    OneWaiting(e, s.waves[0]);
    OneWaiting(e, s.waves[1]);
    NothingPending(e, 0, s.waves[0]);
    NothingPending(e, 1, s.waves[1]);
    AllPublished(e, s);
  }

  lemma NothingPending(e: Env, i: nat, w: Wave)
    requires e.Fits() && i < e.Waves() && WaveOk(e, i, w) && e.kind.Exchange? && w.pc == 17
    ensures w.outstanding == {}
  {
    hide LaneOk, ScalarsOk;
    assert w.outstanding == {};
  }

  lemma AllPublished(e: Env, s: State)
    requires e.Valid() && Inv(e, s) && e.kind.Exchange? && s.waves[0].pc == s.waves[1].pc == 17
    ensures |s.lds| == 1 && forall x: nat :: x < 128 ==> WordAt(s.lds[0], 4 * x) == Some(e.In(x))
  {
    hide WaveOk, MemOk, WordAt;
    forall x: nat | x < 128 ensures WordAt(s.lds[0], 4 * x) == Some(e.In(x)) {
      assert LdsWordOk(e, s.waves[x / 64], s.lds[0], x);
    }
  }

  lemma PairInGroup(l: Launch, k: nat, g: nat)
    requires l.wavesPerGroup == 2 && k < 2
    ensures InGroup(l, k, g) <==> g == 0
  {
  }

  lemma OneWaiting(e: Env, w: Wave)
    requires e.kind.Exchange? && w.pc <= 17 && (w.pc >= |Code(e.kind)| || Waiting(e.Launch(), w))
    ensures w.pc == 17 && Waiting(e.Launch(), w)
  {
    AtBarrier17(e.kind, w.pc);
  }

  lemma ReleasedWave(e: Env, i: nat, w: Wave)
    requires e.Fits() && e.kind.Exchange? && i < 2 && WaveOk(e, i, w) && w.pc == 17
    ensures WaveOk(e, i, w.(pc := 18, arrived := false))
  {
    hide LaneOk, Lo, Hi;
    SameLanes(e, i, w, w.(pc := 18, arrived := false), 17, 18);
    assert w.outstanding == {};
  }

  // ---- Finished accesses keep the invariant ----

  lemma FinishScalar(e: Env, i: nat, w: Wave, a: Access)
    requires e.Fits() && i < e.Waves() && WaveOk(e, i, w) && a in w.outstanding && a.ScalarLoadAccess?
    ensures a.word < 8
    ensures WaveOk(e, i, w.(s := w.s[a.dst := e.Karg()[a.word]], outstanding := w.outstanding - {a}))
  {
    hide LaneOk, Lo, Hi, Pair;
    var p := Pos(e.kind, w.pc);
    assert AccessOk(e, i, a, p);
    var n := w.(s := w.s[a.dst := e.Karg()[a.word]], outstanding := w.outstanding - {a});
    SameLanes(e, i, w, n, p, p);
    forall r: nat | 8 <= r < 16 && (r - 8) / 2 < p
      ensures n.s[r] == e.Karg()[r - 8] || ArgumentLoad(r) in n.outstanding
    {
      assert w.s[r] == e.Karg()[r - 8] || ArgumentLoad(r) in w.outstanding;
    }
  }

  lemma FinishVector(e: Env, i: nat, w: Wave, a: Access, x: U32)
    requires e.Fits() && i < e.Waves() && WaveOk(e, i, w) && a in w.outstanding
    requires a.GlobalLoadAccess? || a.DsReadAccess?
    requires a.GlobalLoadAccess? && a.lane < 64 ==> x == e.In(Gid(i, a.lane))
    requires a.DsReadAccess? && a.lane < 64 && e.kind.Exchange? ==> x == e.In(Peer(Gid(i, a.lane)))
    ensures a.lane < 64
    ensures WaveOk(e, i, w.(v := w.v[a.dst := w.v[a.dst][a.lane := x]], outstanding := w.outstanding - {a}))
  {
    var p := Pos(e.kind, w.pc);
    assert AccessOk(e, i, a, p);
    var n := w.(v := w.v[a.dst := w.v[a.dst][a.lane := x]], outstanding := w.outstanding - {a});
    forall l: nat | l < 64 ensures LaneOk(e, i, n, l, p) {
      hide WordAt, Lo, Hi, Pair, LowAdded, ScalarsOk;
      assert LaneOk(e, i, w, l, p);
    }
    hide LaneOk, AccessOk, Lo, Hi, Pair;
    assert ScalarsOk(e, i, n, p);
  }

  lemma FinishStore(e: Env, i: nat, w: Wave, a: Access)
    requires e.Fits() && i < e.Waves() && WaveOk(e, i, w) && a in w.outstanding
    requires a.DsWriteAccess? || a.GlobalStoreAccess?
    ensures WaveOk(e, i, w.(outstanding := w.outstanding - {a}))
  {
    hide LaneOk, AccessOk, Lo, Hi, Pair;
    var p := Pos(e.kind, w.pc);
    var n := w.(outstanding := w.outstanding - {a});
    SameLanes(e, i, w, n, p, p);
    assert ScalarsOk(e, i, n, p);
  }

  lemma LdsWriteLands(e: Env, s: State, i: nat, a: Access)
    requires e.Valid() && Inv(e, s) && i < e.Waves() && a in s.waves[i].outstanding && a.DsWriteAccess?
    ensures e.kind.Exchange? && |s.lds| == 1 && Mapped(s.lds[0], a.at)
    ensures var n := s.waves[i].(outstanding := s.waves[i].outstanding - {a});
      LdsOk(e, s.waves[i := n], [PutWord(s.lds[0], a.at, a.data)])
  {
    hide LaneOk, ScalarsOk, PutWord, MemOk;
    var n := s.waves[i].(outstanding := s.waves[i].outstanding - {a});
    assert WaveOk(e, i, s.waves[i]);
    assert AccessOk(e, i, a, Pos(e.kind, s.waves[i].pc));
    var x0 := Gid(i, a.lane);
    assert LdsWordOk(e, s.waves[x0 / 64], s.lds[0], x0);
    forall x: nat | x < 128
      ensures LdsWordOk(e, s.waves[i := n][x / 64], PutWord(s.lds[0], a.at, a.data), x)
    {
      LdsWordAfterWrite(e, s.waves[x / 64], if x / 64 == i then n else s.waves[x / 64], s.lds[0], i, a, x);
    }
  }

  lemma LdsWordAfterWrite(e: Env, owner: Wave, n: Wave, lds: Memory, i: nat, a: Access, x: nat)
    requires e.Valid() && e.kind.Exchange? && i < 2 && x < 128 && a.DsWriteAccess? && AccessOk(e, i, a, 16)
    requires LdsWordOk(e, owner, lds, x) && n.pc == owner.pc && (x / 64 == i ==> n.pc == 16)
    requires n.outstanding == owner.outstanding || n.outstanding == owner.outstanding - {a}
    ensures LdsWordOk(e, n, PutWord(lds, a.at, a.data), x)
  {
    if x == Gid(i, a.lane) {
      PutThenRead(lds, a.at, a.data);
    } else {
      PutKeepsApart(lds, a.at, a.data, 4 * x);
    }
  }

  /** An outstanding store is its lane's own, to a mapped word. */
  lemma StoreKnown(e: Env, i: nat, w: Wave, a: Access)
    requires e.Layout() && i < e.Waves() && WaveOk(e, i, w) && a in w.outstanding && a.GlobalStoreAccess?
    ensures a.lane < 64 && w.pc == StorePc(e.kind) + 1 && e.Out().Valid() && e.Out().Stores(Gid(i, a.lane))
    ensures a == StoreOf(e.Out(), StorePc(e.kind), Gid(i, a.lane)) && a.address == e.Out().At(Gid(i, a.lane))
    ensures Mapped(e.mem, a.address)
  {
    hide LaneOk, ScalarsOk, Env.InAt;
    OutValid(e);
    assert AccessOk(e, i, a, Pos(e.kind, w.pc));
    StoreAddress(e.Out(), Gid(i, a.lane));
  }

  /** A store's effect on memory as the invariant tells it. */
  lemma GlobalStoreLands(e: Env, s: State, i: nat, a: Access)
    requires e.Valid() && Inv(e, s) && i < e.Waves() && a in s.waves[i].outstanding && a.GlobalStoreAccess?
    ensures e.Out().Valid() && |e.Out().values| == 64 * |s.waves| && Mapped(s.mem, a.address)
    ensures var n := s.waves[i].(outstanding := s.waves[i].outstanding - {a});
      MemOk(e.Out(), StorePc(e.kind), s.waves[i := n], PutWord(s.mem, a.address, a.data))
  {
    hide LaneOk, ScalarsOk, AccessOk, MemOk, PutWord, LdsOk, Env.InAt;
    OutValid(e);
    StoreKnown(e, i, s.waves[i], a);
    var x := Gid(i, a.lane);
    StoreLands(e.Out(), StorePc(e.kind), s.waves, s.mem, x, s.waves[i].(outstanding := s.waves[i].outstanding - {a}));
  }

  lemma LdsSame(e: Env, s: State, i: nat, n: Wave)
    requires e.Valid() && |s.waves| == e.Waves() && LdsOk(e, s.waves, s.lds) && i < e.Waves() && n.pc == s.waves[i].pc
    requires forall a :: a in s.waves[i].outstanding && a.DsWriteAccess? ==> a in n.outstanding
    ensures LdsOk(e, s.waves[i := n], s.lds)
  {
    hide WordAt, Blank;
    if e.kind.Exchange? {
      forall x: nat | x < 128 ensures LdsWordOk(e, s.waves[i := n][x / 64], s.lds[0], x) {
        assert LdsWordOk(e, s.waves[x / 64], s.lds[0], x);
      }
    }
  }

  /** Every load that finishes delivers an initialised word: the global load its own input
      word, which no store ever touches, and the LDS read the peer's published word. */
  lemma LoadsSee(e: Env, s: State, i: nat, a: Access)
    requires e.Valid() && Inv(e, s) && i < e.Waves() && a in s.waves[i].outstanding
    ensures a.GlobalLoadAccess? ==> a.lane < 64 && WordAt(s.mem, a.address) == Some(e.In(Gid(i, a.lane)))
    ensures a.DsReadAccess? ==> e.kind.Exchange? && |s.lds| == 1 && a.lane < 64
    ensures a.DsReadAccess? ==> WordAt(s.lds[0], a.at) == Some(e.In(Peer(Gid(i, a.lane))))
  {
    hide LaneOk, ScalarsOk, Blank, MemOk;
    assert WaveOk(e, i, s.waves[i]);
    assert AccessOk(e, i, a, Pos(e.kind, s.waves[i].pc));
    if a.GlobalLoadAccess? {
      InputUntouched(e, s, Gid(i, a.lane));
    } else if a.DsReadAccess? {
      var y := Peer(Gid(i, a.lane));
      assert LdsWordOk(e, s.waves[y / 64], s.lds[0], y);
    }
  }

  lemma InputUntouched(e: Env, s: State, x: nat)
    requires e.Valid() && Inv(e, s) && x < e.Count()
    ensures WordAt(s.mem, e.InAt(x)) == Some(e.In(x))
  {
    hide WaveOk, LdsOk, WordOk, WordAt;
    InputKept(e, s.mem, x);
    assert WordAt(e.mem, e.InAt(x)).Some?;
  }

  /** No store reaches an input word: it keeps its contents, or stays unreadable. */
  lemma InputKept(e: Env, mem: Memory, x: nat)
    requires e.Layout() && x < e.Count() && FrameOk(e.Out(), mem)
    ensures WordAt(mem, e.InAt(x)) == WordAt(e.mem, e.InAt(x))
  {
    hide WordAt, FrameOk, Env.InAt;
    forall y: nat | e.Out().Stores(y)
      ensures e.InAt(x) + 4 <= e.Out().At(y) || e.Out().At(y) + 4 <= e.InAt(x)
    {
      assert e.InAt(x) + 4 <= e.OutAt(y) || e.OutAt(y) + 4 <= e.InAt(x);
    }
    ApartUntouched(e.Out(), mem, e.InAt(x));
  }

  lemma FinishLoadKeeps(e: Env, s: State, i: nat, a: Access)
    requires e.Valid() && Inv(e, s) && Enabled(e.Launch(), s, Finish(i, a))
    requires !a.DsWriteAccess? && !a.GlobalStoreAccess?
    ensures Inv(e, Apply(e.Launch(), s, Finish(i, a)))
  {
    hide WaveOk, LdsOk, MemOk, WordAt;
    var w := s.waves[i];
    LoadsSee(e, s, i, a);
    if a.ScalarLoadAccess? {
      FinishScalar(e, i, w, a);
      SharedSame(e, s, i, w.(s := w.s[a.dst := e.Karg()[a.word]], outstanding := w.outstanding - {a}));
    } else {
      var x := if a.GlobalLoadAccess? then e.In(Gid(i, a.lane)) else e.In(Peer(Gid(i, a.lane)));
      FinishVector(e, i, w, a, x);
      SharedSame(e, s, i, w.(v := w.v[a.dst := w.v[a.dst][a.lane := x]], outstanding := w.outstanding - {a}));
    }
  }

  lemma FinishStoreKeeps(e: Env, s: State, i: nat, a: Access)
    requires e.Valid() && Inv(e, s) && Enabled(e.Launch(), s, Finish(i, a))
    requires a.DsWriteAccess? || a.GlobalStoreAccess?
    ensures Inv(e, Apply(e.Launch(), s, Finish(i, a)))
  {
    hide WaveOk, LdsOk, MemOk, PutWord;
    var w := s.waves[i];
    var n := w.(outstanding := w.outstanding - {a});
    FinishStore(e, i, w, a);
    OutValid(e);
    if a.DsWriteAccess? {
      LdsWriteLands(e, s, i, a);
      assert i / 2 == 0 && s.lds[0 := PutWord(s.lds[0], a.at, a.data)] == [PutWord(s.lds[0], a.at, a.data)];
      WaveMoves(e.Out(), StorePc(e.kind), s.waves, s.mem, i, n);
    } else {
      GlobalStoreLands(e, s, i, a);
      LdsSame(e, s, i, n);
    }
  }

  // ---- Whole runs ----

  lemma MoveKeeps(e: Env, s: State, m: Move)
    requires e.Valid() && Inv(e, s) && Enabled(e.Launch(), s, m)
    ensures Inv(e, Apply(e.Launch(), s, m))
  {
    hide Inv, Apply, Enabled;
    match m
    case IssueNext(i) => IssueKeeps(e, s, i);
    case Finish(i, a) =>
      if a.DsWriteAccess? || a.GlobalStoreAccess? {
        FinishStoreKeeps(e, s, i, a);
      } else {
        FinishLoadKeeps(e, s, i, a);
      }
    case Arrive(i) => ArriveKeeps(e, s, i);
    case Release(g) => ReleaseKeeps(e, s, g);
  }

  lemma InvInCode(e: Env, s: State)
    requires e.Valid() && Inv(e, s)
    ensures InCode(e.Launch(), s.waves) && !s.fault
  {
    hide LdsOk, MemOk, ScalarsOk, LaneOk, AccessOk;
    forall i: nat | i < |s.waves| ensures s.waves[i].pc <= |Code(e.kind)| { assert WaveOk(e, i, s.waves[i]); }
  }

  lemma {:induction false} RunKeeps(e: Env, s: State, moves: seq<Move>)
    requires e.Valid() && Inv(e, s) && Legal(e.Launch(), s, moves)
    ensures Inv(e, After(e.Launch(), s, moves))
    ensures |moves| + Work(e.Launch(), After(e.Launch(), s, moves).waves) <= Work(e.Launch(), s.waves)
    decreases moves
  {
    hide Inv, Enabled, Apply;
    if moves != [] {
      MoveKeeps(e, s, moves[0]);
      InvInCode(e, s);
      InvInCode(e, Apply(e.Launch(), s, moves[0]));
      MoveDecreasesWork(e.Launch(), s, moves[0]);
      RunKeeps(e, Apply(e.Launch(), s, moves[0]), moves[1..]);
    }
  }

  predicate InOutput(e: Env, a: int) {
    exists x: nat {:trigger e.OutAt(x)} :: x < e.Count() && x < e.outLen && e.OutAt(x) <= a < e.OutAt(x) + 4
  }

  /** What a launch leaves: output[x] is input[x xor 64] for the exchange and input[x] for the
      copy, for every lane x inside the output; the input and every other byte stay. */
  ghost predicate Result(e: Env, mem: Memory)
    requires e.Fits()
  {
    && (forall x: nat :: x < e.Count() && x < e.outLen ==>
          var y := if e.kind.Exchange? then Xor(x, 64) else x;
          y < e.Count() && WordAt(mem, e.OutAt(x)) == Some(e.In(y)))
    && (forall x: nat :: x < e.Count() ==> WordAt(mem, e.InAt(x)) == Some(e.In(x)))
    && mem.Keys == e.mem.Keys
    && (forall a :: a in e.mem && !InOutput(e, a) ==> mem[a] == e.mem[a])
  }

  lemma FinishedResult(e: Env, s: State)
    requires e.Valid() && Inv(e, s) && Finished(e.Launch(), s)
    ensures Result(e, s.mem)
  {
    hide WordAt, WaveOk, LdsOk, WordOk, Xor, Window.Covers, InOutput;
    OutValid(e);
    EndedWritten(e.Out(), StorePc(e.kind), s.waves, s.mem);
    forall x: nat | x < e.Count() && x < e.outLen
      ensures var y := if e.kind.Exchange? then Xor(x, 64) else x;
        y < e.Count() && WordAt(s.mem, e.OutAt(x)) == Some(e.In(y))
    {
      if e.kind.Exchange? { PeerIsXor64(x); }
      assert e.Out().Stores(x) && e.Out().values[x] == e.Value(x);
    }
    forall x: nat | x < e.Count() ensures WordAt(s.mem, e.InAt(x)) == Some(e.In(x)) { InputUntouched(e, s, x); }
    forall a | a in e.mem && !InOutput(e, a) ensures s.mem[a] == e.mem[a] { OutsideOutput(e, a); }
  }

  lemma OutsideOutput(e: Env, a: int)
    requires e.Valid()
    ensures e.Out().Covers(a) ==> InOutput(e, a)
  {
    if e.Out().Covers(a) {
      var x: nat :| e.Out().Stores(x) && e.Out().At(x) <= a < e.Out().At(x) + 4;
      assert x < e.Count() && x < e.outLen && e.OutAt(x) <= a < e.OutAt(x) + 4;
    }
  }

  /** The most moves a launch can take. */
  function Bound(e: Env): nat { e.Waves() * (66 * |Code(e.kind)| + 1) }

  lemma {:induction false} StartWork(e: Env, waves: seq<Wave>)
    requires forall i :: 0 <= i < |waves| ==> waves[i].pc == 0 && !waves[i].arrived && waves[i].outstanding == {}
    ensures Work(e.Launch(), waves) == |waves| * (66 * |Code(e.kind)| + 1)
  {
    if waves != [] { StartWork(e, waves[1..]); }
  }

  /** Main result: whatever the interleaving of the waves and the delay of every access, a run
      never faults and stops within Bound(e) moves; when nothing more can move every wave has
      ended with all lanes on, and memory holds the result. */
  lemma EveryRunCopies(e: Env, s: State, moves: seq<Move>)
    requires e.Valid() && Init(e, s) && Legal(e.Launch(), s, moves)
    ensures !After(e.Launch(), s, moves).fault
    ensures |moves| <= Bound(e)
    ensures (forall m :: !Enabled(e.Launch(), After(e.Launch(), s, moves), m)) ==>
      Finished(e.Launch(), After(e.Launch(), s, moves))
    ensures Finished(e.Launch(), After(e.Launch(), s, moves)) ==>
      && Result(e, After(e.Launch(), s, moves).mem)
      && forall i :: 0 <= i < |After(e.Launch(), s, moves).waves| ==> AllOn(After(e.Launch(), s, moves).waves[i].exec)
  {
    hide WaveOk, LdsOk, MemOk, Enabled, Apply, Legal, After, Result;
    var l := e.Launch();
    var t := After(l, s, moves);
    InitInv(e, s);
    RunKeeps(e, s, moves);
    InvInCode(e, t);
    WorkNonNegative(l, t.waves);
    forall i: nat | i < |s.waves| ensures StartsOk(e, i, s.waves[i]) {}
    StartWork(e, s.waves);
    if Finished(l, t) {
      FinishedResult(e, t);
      forall i: nat | i < |t.waves| ensures AllOn(t.waves[i].exec) { EndedAllOn(e, i, t.waves[i]); }
    }
    StuckIff(l, t);
  }

  lemma EndedAllOn(e: Env, i: nat, w: Wave)
    requires e.Fits() && i < e.Waves() && WaveOk(e, i, w) && w.pc >= |Code(e.kind)|
    ensures AllOn(w.exec)
  {
    hide LaneOk, AccessOk, Lo, Hi;
  }

  /** In every reachable state of the exchange an LDS word is blank or holds its own lane's
      input word, and once some wave is past the barrier all 128 are published. */
  lemma EveryStatePublishes(e: Env, s: State, moves: seq<Move>)
    requires e.Valid() && e.kind.Exchange? && Init(e, s) && Legal(e.Launch(), s, moves)
    ensures var t := After(e.Launch(), s, moves);
      && |t.waves| == 2 && |t.lds| == 1
      && (forall x: nat :: x < 128 ==> Blank(t.lds[0], x) || WordAt(t.lds[0], 4 * x) == Some(e.In(x)))
      && ((exists i: nat :: i < 2 && t.waves[i].pc > 17) ==>
            forall x: nat :: x < 128 ==> WordAt(t.lds[0], 4 * x) == Some(e.In(x)))
  {
    hide Enabled, Apply, Legal, After, WaveOk, MemOk, WordAt, Blank;
    var t := After(e.Launch(), s, moves);
    InitInv(e, s);
    RunKeeps(e, s, moves);
    forall x: nat | x < 128
      ensures Blank(t.lds[0], x) || WordAt(t.lds[0], 4 * x) == Some(e.In(x))
      ensures t.waves[x / 64].pc > 17 ==> WordAt(t.lds[0], 4 * x) == Some(e.In(x))
    {
      assert LdsWordOk(e, t.waves[x / 64], t.lds[0], x);
    }
  }

  /** In every reachable state no instruction a wave may issue touches a register that still
      waits for a load, and no load finishes on a word that is not initialised and its own. */
  lemma EveryStateReadsReady(e: Env, s: State, moves: seq<Move>, i: nat)
    requires e.Valid() && Init(e, s) && Legal(e.Launch(), s, moves) && i < e.Waves()
    ensures var t := After(e.Launch(), s, moves);
      && |t.waves| == e.Waves()
      && (CanIssue(e.Launch(), t.waves[i]) ==> HazardFree(Code(e.kind)[t.waves[i].pc], t.waves[i].outstanding))
      && (forall a :: a in t.waves[i].outstanding && a.GlobalLoadAccess? ==>
            a.lane < 64 && WordAt(t.mem, a.address) == Some(e.In(Gid(i, a.lane))))
      && (forall a :: a in t.waves[i].outstanding && a.DsReadAccess? ==>
            e.kind.Exchange? && |t.lds| == 1 && a.lane < 64
            && WordAt(t.lds[0], a.at) == Some(e.In(Peer(Gid(i, a.lane)))))
  {
    hide Enabled, Apply, Legal, After, WaveOk, LdsOk, MemOk, WordAt, CanIssue, HazardFree;
    var t := After(e.Launch(), s, moves);
    InitInv(e, s);
    RunKeeps(e, s, moves);
    if CanIssue(e.Launch(), t.waves[i]) { NeverHazardous(e, i, t.waves[i]); }
    forall a | a in t.waves[i].outstanding
      ensures a.GlobalLoadAccess? ==> a.lane < 64 && WordAt(t.mem, a.address) == Some(e.In(Gid(i, a.lane)))
      ensures a.DsReadAccess? ==> e.kind.Exchange? && |t.lds| == 1 && a.lane < 64
      ensures a.DsReadAccess? ==> WordAt(t.lds[0], a.at) == Some(e.In(Peer(Gid(i, a.lane))))
    {
      LoadsSee(e, t, i, a);
    }
  }

  // ---- A short or uninitialised input ----

  /** Lane l of wave i finds no initialised input word: its wave cannot pass the wait after the
      load, because that lane's load can only fault. The other waves keep to their own output
      words, and in the exchange none of them passes the barrier. */
  ghost predicate Blocked(e: Env, s: State, i: nat, l: nat)
    requires e.Layout() && i < e.Waves() && l < 64
  {
    && |s.waves| == e.Waves() && FrameOk(e.Out(), s.mem)
    && (forall k: nat :: k < e.Waves() ==> WaveOk(e, k, s.waves[k]))
    && (e.kind.Exchange? ==> s.waves[0].pc <= 17 && s.waves[1].pc <= 17)
    && s.waves[i].pc <= 13
    && (s.waves[i].pc == 13 ==> LoadOf(e, i, l) in s.waves[i].outstanding)
  }

  /** The global load of lane l of wave i. */
  function LoadOf(e: Env, i: nat, l: nat): Access { GlobalLoadAccess(12, l, 8, e.InAt(Gid(i, l))) }

  ghost predicate Unreadable(e: Env, i: nat, l: nat) { WordAt(e.mem, e.InAt(Gid(i, l))).None? }

  lemma LoadIssued(e: Env, i: nat, l: nat, w: Wave)
    requires e.Fits() && i < e.Waves() && l < 64 && w.pc == 12 && WaveOk(e, i, w)
    ensures LoadOf(e, i, l) in Issue(Code(e.kind)[12], w).outstanding
  {
    hide ScalarsOk, AccessOk, Lo, Hi, Pair, Env.InAt;
    assert LaneOk(e, i, w, l, 12);
    assert w.exec[l] by { ArgumentsReady(e, i, w, l, 12); }
    assert GlobalLoadAccess(w.pc, l, 8, VPair(w, 6, l)) in GlobalLoads(w, 8, 6);
  }

  lemma BlockedIssue(e: Env, s: State, i: nat, l: nat, j: nat)
    requires e.Layout() && i < e.Waves() && l < 64 && Blocked(e, s, i, l)
    requires Enabled(e.Launch(), s, IssueNext(j))
    ensures Blocked(e, Apply(e.Launch(), s, IssueNext(j)), i, l)
  {
    hide WaveOk, FrameOk, Issue, Env.InAt;
    var w := s.waves[j];
    IssueWave(e, j, w);
    NoIssueAtBarrier(e, w);
    if j == i {
      assert CountsVm(LoadOf(e, i, l));
      InProgram(e.kind, w.pc);
      WaitAt13(e.kind);
      if w.pc == 12 { LoadIssued(e, i, l, w); }
    }
  }

  lemma WaitAt13(kind: Kind)
    ensures |Code(kind)| > 13 && Code(kind)[13].SWaitVm?
  {
  }

  /** A finished access keeps the block: a load that lands was not the unreadable one, and a store
      that lands is in the output. */
  lemma BlockedFinish(e: Env, s: State, i: nat, l: nat, j: nat, a: Access)
    requires e.Layout() && i < e.Waves() && l < 64 && Blocked(e, s, i, l) && Unreadable(e, i, l)
    requires Enabled(e.Launch(), s, Finish(j, a))
    ensures Blocked(e, Apply(e.Launch(), s, Finish(j, a)), i, l)
  {
    hide WaveOk, FrameOk, Env.InAt, WordAt, PutWord;
    var w := s.waves[j];
    match a
    case ScalarLoadAccess(_, _, _, _) => FinishScalar(e, j, w, a);
    case GlobalLoadAccess(_, _, _, _) =>
      LoadKnown(e, j, w, a);
      InputKept(e, s.mem, Gid(j, a.lane));
      if WordAt(s.mem, a.address).Some? { FinishVector(e, j, w, a, e.In(Gid(j, a.lane))); }
    case GlobalStoreAccess(_, _, _, _) =>
      StoreKnown(e, j, w, a);
      StoreFrame(e.Out(), s.mem, Gid(j, a.lane));
      FinishStore(e, j, w, a);
    case DsWriteAccess(_, _, _, _) => FinishStore(e, j, w, a);
    case DsReadAccess(_, _, _, _) => NoReadBefore(e, j, w, a);
  }

  lemma LoadKnown(e: Env, i: nat, w: Wave, a: Access)
    requires e.Fits() && i < e.Waves() && WaveOk(e, i, w) && a in w.outstanding && a.GlobalLoadAccess?
    ensures a.lane < 64 && a == LoadOf(e, i, a.lane)
  {
    hide LaneOk, ScalarsOk, Env.InAt;
    assert AccessOk(e, i, a, Pos(e.kind, w.pc));
  }

  lemma NoReadBefore(e: Env, i: nat, w: Wave, a: Access)
    requires e.Fits() && i < e.Waves() && WaveOk(e, i, w) && a in w.outstanding && a.DsReadAccess?
    ensures e.kind.Exchange? && w.pc == 21
  {
    hide LaneOk, ScalarsOk;
    assert AccessOk(e, i, a, Pos(e.kind, w.pc));
  }

  lemma BlockedArrive(e: Env, s: State, i: nat, l: nat, j: nat)
    requires e.Layout() && i < e.Waves() && l < 64 && Blocked(e, s, i, l)
    requires Enabled(e.Launch(), s, Arrive(j))
    ensures Blocked(e, Apply(e.Launch(), s, Arrive(j)), i, l)
  {
    hide WaveOk, FrameOk, Env.InAt;
    AtBarrier17(e.kind, s.waves[j].pc);
    ArrivedWave(e, j, s.waves[j]);
  }

  /** The barrier stays shut: it waits for the blocked wave, and the copy has none. */
  lemma BlockedRelease(e: Env, s: State, i: nat, l: nat, g: nat)
    requires e.Layout() && i < e.Waves() && l < 64 && Blocked(e, s, i, l)
    ensures !Enabled(e.Launch(), s, Release(g))
  {
    hide WaveOk, FrameOk, Env.InAt;
    InProgram(e.kind, s.waves[i].pc);
    AtBarrier17(e.kind, s.waves[i].pc);
    if CanRelease(e.Launch(), s, g) {
      var k: nat :| k < |s.waves| && InGroup(e.Launch(), k, g) && Waiting(e.Launch(), s.waves[k]);
      AtBarrier17(e.kind, s.waves[k].pc);
    }
  }

  lemma InProgram(kind: Kind, pc: nat)
    requires pc <= 13
    ensures pc < |Code(kind)|
  {
  }

  lemma {:induction false} BlockedRun(e: Env, s: State, moves: seq<Move>, i: nat, l: nat)
    requires e.Layout() && i < e.Waves() && l < 64 && Blocked(e, s, i, l) && Unreadable(e, i, l)
    requires Legal(e.Launch(), s, moves)
    ensures Blocked(e, After(e.Launch(), s, moves), i, l)
    decreases moves
  {
    hide Blocked, Unreadable, Enabled, Apply;
    if moves != [] {
      match moves[0] {
        case IssueNext(j) => BlockedIssue(e, s, i, l, j);
        case Finish(j, a) => BlockedFinish(e, s, i, l, j, a);
        case Arrive(j) => BlockedArrive(e, s, i, l, j);
        case Release(g) => BlockedRelease(e, s, i, l, g);
      }
      BlockedRun(e, Apply(e.Launch(), s, moves[0]), moves[1..], i, l);
    }
  }

  lemma StartBlocked(e: Env, s: State, i: nat, l: nat)
    requires e.Layout() && i < e.Waves() && l < 64 && Init(e, s)
    ensures Blocked(e, s, i, l)
  {
    hide Lo, Hi, Env.InAt;
    forall k: nat | k < e.Waves() ensures WaveOk(e, k, s.waves[k]) {
      assert StartsOk(e, k, s.waves[k]);
      forall x: nat | x < 64 ensures LaneOk(e, k, s.waves[k], x, 0) {}
    }
  }

  /** The input is read before the output guard: if some lane finds no initialised input word, no
      run finishes, that lane's wave stores nothing, and a run that can go no further has faulted,
      however short the output. */
  lemma UnreadableInputFaults(e: Env, s: State, moves: seq<Move>, x: nat)
    requires e.Layout() && Init(e, s) && Legal(e.Launch(), s, moves)
    requires x < e.Count() && WordAt(e.mem, e.InAt(x)).None?
    ensures var t := After(e.Launch(), s, moves);
      !Finished(e.Launch(), t) && |t.waves| == e.Waves() && t.waves[x / 64].pc <= 13
    ensures (forall m :: !Enabled(e.Launch(), After(e.Launch(), s, moves), m)) ==> After(e.Launch(), s, moves).fault
  {
    var i, l := x / 64, x % 64;
    assert Gid(i, l) == x;
    hide WaveOk, FrameOk, Enabled, Apply, Legal, After, WordAt, Init, Env.InAt;
    StartBlocked(e, s, i, l);
    BlockedRun(e, s, moves, i, l);
    var t := After(e.Launch(), s, moves);
    InProgram(e.kind, t.waves[i].pc);
    StuckIff(e.Launch(), t);
  }

  /** Every run is free of faults, and one that can go no further has ended with the result. */
  ghost predicate AlwaysCopies(e: Env, s: State)
    requires e.Fits()
  {
    forall moves | Legal(e.Launch(), s, moves) ::
      var t := After(e.Launch(), s, moves);
      && !t.fault
      && ((forall m :: !Enabled(e.Launch(), t, m)) ==> Finished(e.Launch(), t) && Result(e, t.mem))
  }

  /** Main result: a launch copies on every schedule exactly when every lane has an initialised
      input word, and if one has none then no schedule finishes. */
  lemma CopiesIffInitialised(e: Env, s: State)
    requires e.Layout() && Init(e, s)
    ensures AlwaysCopies(e, s) <==> e.Initialised()
    ensures !e.Initialised() ==>
      forall moves | Legal(e.Launch(), s, moves) :: !Finished(e.Launch(), After(e.Launch(), s, moves))
  {
    hide Result, Enabled, After, Legal, Finished, WordAt, Env.InAt, FrameOk;
    if e.Initialised() {
      forall moves | Legal(e.Launch(), s, moves)
        ensures var t := After(e.Launch(), s, moves);
          !t.fault && ((forall m :: !Enabled(e.Launch(), t, m)) ==> Finished(e.Launch(), t) && Result(e, t.mem))
      {
        EveryRunCopies(e, s, moves);
      }
    } else {
      var x: nat :| x < e.Count() && WordAt(e.mem, e.InAt(x)).None?;
      StartsInCode(e, s);
      var moves := SomeRunEnds(e.Launch(), s);
      UnreadableInputFaults(e, s, moves, x);
      forall other | Legal(e.Launch(), s, other) ensures !Finished(e.Launch(), After(e.Launch(), s, other)) {
        UnreadableInputFaults(e, s, other, x);
      }
    }
  }

  lemma StartsInCode(e: Env, s: State)
    requires e.Fits() && Init(e, s)
    ensures InCode(e.Launch(), s.waves)
  {
    forall i: nat | i < |s.waves| ensures StartsOk(e, i, s.waves[i]) {}
  }

  // ---- An unmapped input, whatever the rest of the layout ----

  /** Lane l of wave i, whose input word is not mapped: the wave cannot pass the wait after its
      load, because that lane's load can only fault. */
  ghost predicate Stuck(e: Env, s: State, i: nat, l: nat)
    requires e.Fits() && i < e.Waves() && l < 64
  {
    && |s.waves| == e.Waves() && s.mem.Keys == e.mem.Keys
    && s.waves[i].pc <= 13
    && (s.waves[i].pc <= 12 ==> WaveOk(e, i, s.waves[i]))
    && (s.waves[i].pc == 13 ==> LoadOf(e, i, l) in s.waves[i].outstanding)
  }

  ghost predicate ShortFor(e: Env, i: nat, l: nat) { !Mapped(e.mem, e.InAt(Gid(i, l))) }

  lemma StuckIssue(e: Env, i: nat, l: nat, w: Wave)
    requires e.Fits() && i < e.Waves() && l < 64 && w.pc <= 13 && CanIssue(e.Launch(), w)
    requires w.pc <= 12 ==> WaveOk(e, i, w)
    requires w.pc == 13 ==> LoadOf(e, i, l) in w.outstanding
    ensures w.pc <= 12 && WaveOk(e, i, Issue(Code(e.kind)[w.pc], w)) && Issue(Code(e.kind)[w.pc], w).pc == w.pc + 1
    ensures w.pc == 12 ==> LoadOf(e, i, l) in Issue(Code(e.kind)[w.pc], w).outstanding
  {
    Fetch(e.kind, w.pc);
    assert CountsVm(LoadOf(e, i, l));
    if w.pc == 12 { LoadIssued(e, i, l, w); }
    hide WaveOk, Issue;
    IssueWave(e, i, w);
  }

  /** What any finished access leaves alone: which bytes are mapped, and the other waves. */
  lemma FinishFrame(launch: Launch, s: State, i: nat, a: Access)
    requires launch.Valid() && i < |s.waves|
    ensures FinishAccess(launch, s, i, a).mem.Keys == s.mem.Keys
    ensures |FinishAccess(launch, s, i, a).waves| == |s.waves|
    ensures forall k :: 0 <= k < |s.waves| && k != i ==> FinishAccess(launch, s, i, a).waves[k] == s.waves[k]
  {
    hide WordAt;
    if a.GlobalStoreAccess? && Mapped(s.mem, a.address) {
      PutFrame(s.mem, a.address, a.data);
      hide PutWord;
    }
  }

  lemma StuckFinish(e: Env, s: State, i: nat, l: nat, a: Access)
    requires e.Fits() && i < e.Waves() && l < 64 && Stuck(e, s, i, l) && ShortFor(e, i, l)
    requires a in s.waves[i].outstanding
    ensures Stuck(e, FinishAccess(e.Launch(), s, i, a), i, l)
  {
    FinishFrame(e.Launch(), s, i, a);
    hide LaneOk, ScalarsOk;
    var w := s.waves[i];
    if w.pc == 13 {
      hide WaveOk;
      assert Mapped(s.mem, e.InAt(Gid(i, l))) <==> Mapped(e.mem, e.InAt(Gid(i, l)));
      FinishOther(e.Launch(), s, i, a);
    } else {
      assert AccessOk(e, i, a, Pos(e.kind, w.pc));
      FinishScalar(e, i, w, a);
    }
  }

  lemma FinishOther(launch: Launch, s: State, i: nat, a: Access)
    requires launch.Valid() && i < |s.waves| && a in s.waves[i].outstanding
    ensures FinishAccess(launch, s, i, a).waves[i].pc == s.waves[i].pc
    ensures a.GlobalLoadAccess? && !Mapped(s.mem, a.address) ==> FinishAccess(launch, s, i, a) == s.(fault := true)
    ensures forall b :: b in s.waves[i].outstanding && b != a ==>
      b in FinishAccess(launch, s, i, a).waves[i].outstanding
  {
    hide PutWord;
  }

  lemma StuckMove(e: Env, s: State, m: Move, i: nat, l: nat)
    requires e.Fits() && i < e.Waves() && l < 64 && Stuck(e, s, i, l) && ShortFor(e, i, l)
    requires Enabled(e.Launch(), s, m)
    ensures Stuck(e, Apply(e.Launch(), s, m), i, l)
  {
    hide WaveOk, ShortFor, Issue, FinishAccess, Code;
    AtBarrier17(e.kind, s.waves[i].pc) by { InProgram(e.kind, s.waves[i].pc); }
    InProgram(e.kind, s.waves[i].pc);
    match m
    case IssueNext(j) => if j == i { StuckIssue(e, i, l, s.waves[i]); }
    case Finish(j, a) => if j == i { StuckFinish(e, s, i, l, a); } else { FinishFrame(e.Launch(), s, j, a); }
    case Arrive(j) =>
    case Release(g) =>
  }

  lemma {:induction false} StuckRun(e: Env, s: State, moves: seq<Move>, i: nat, l: nat)
    requires e.Fits() && i < e.Waves() && l < 64 && Stuck(e, s, i, l) && ShortFor(e, i, l)
    requires Legal(e.Launch(), s, moves)
    ensures Stuck(e, After(e.Launch(), s, moves), i, l)
    decreases moves
  {
    hide Stuck, ShortFor, Enabled, Apply;
    if moves != [] {
      StuckMove(e, s, moves[0], i, l);
      StuckRun(e, Apply(e.Launch(), s, moves[0]), moves[1..], i, l);
    }
  }

  /** A word that is not mapped at all stops its wave on any host, even one whose output is not
      mapped or overlaps the input. */
  lemma ShortInputFaults(e: Env, s: State, moves: seq<Move>, x: nat)
    requires e.Fits() && x < e.Count() && !Mapped(e.mem, e.InAt(x))
    requires |s.waves| == e.Waves() && s.mem == e.mem && Legal(e.Launch(), s, moves)
    requires forall i: nat :: i < e.Waves() ==> StartsOk(e, i, s.waves[i])
    ensures !Finished(e.Launch(), After(e.Launch(), s, moves))
    ensures var t := After(e.Launch(), s, moves); |t.waves| == e.Waves() && t.waves[x / 64].pc <= 13
    ensures (forall m :: !Enabled(e.Launch(), After(e.Launch(), s, moves), m)) ==> After(e.Launch(), s, moves).fault
  {
    var i, l := x / 64, x % 64;
    assert Gid(i, l) == x;
    StartStuck(e, s, i, l);
    hide WaveOk, Enabled, Apply, Legal, After;
    StuckRun(e, s, moves, i, l);
    var t := After(e.Launch(), s, moves);
    InProgram(e.kind, t.waves[i].pc);
    StuckIff(e.Launch(), t);
  }

  lemma StartStuck(e: Env, s: State, i: nat, l: nat)
    requires e.Fits() && i < e.Waves() && l < 64 && |s.waves| == e.Waves() && s.mem == e.mem
    requires StartsOk(e, i, s.waves[i])
    ensures Stuck(e, s, i, l)
  {
    hide Lo, Hi;
    forall k: nat | k < 64 ensures LaneOk(e, i, s.waves[i], k, 0) {}
  }
}
