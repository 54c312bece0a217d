/** The small machine the three authored kernels run on: waves of 64 lanes with scalar and
    vector registers, an execution mask, accesses that finish at an arbitrary later time
    lane by lane, explicit waits, and a workgroup barrier. */
module Machine {
  import opened Words

  type Reg = r: nat | r < 32
  type PairReg = r: nat | r < 31
  type Lanes = l: seq<U32> | |l| == 64 witness seq(64, _ => 0)
  const NoLanes: Lanes := seq(64, _ => 0)
  type Scalars = s: seq<U32> | |s| == 32 witness seq(32, _ => 0)
  type Vectors = v: seq<Lanes> | |v| == 32 witness seq<Lanes>(32, _ => NoLanes)

  datatype Instr =
    | SLoadX2(pdst: PairReg, offset: nat)
    | SLoad(dst: Reg, offset: nat)
    | SWaitLgkm
    | SWaitVm
    | SLshl(dst: Reg, src: Reg, amount: nat)
    | VAdd(dst: Reg, s: Reg, v: Reg)
    | VMovZero(dst: Reg)
    | VMov(dst: Reg, s: Reg)
    | VLshl64(pdst: PairReg, psrc: PairReg, amount: nat)
    | VAddCo(dst: Reg, s: Reg, v: Reg)
    | VAddcCo(dst: Reg, v: Reg, v1: Reg)
    | VLshl32(dst: Reg, src: Reg, amount: nat)
    | VXor(dst: Reg, src: Reg, imm: U32)
    | VCmpGt64(sp: PairReg, vp: PairReg)
    | SAndSaveexec(sdst: PairReg)
    | SMovExec(ssrc: PairReg)
    | GlobalLoad(dst: Reg, address: PairReg)
    | GlobalStore(address: PairReg, data: Reg)
    | DsWrite(at: Reg, data: Reg)
    | DsRead(dst: Reg, at: Reg)
    | SBarrier
    | SEndpgm

  // ---- Byte memory with initialisation ----

  type Byte = b: int | 0 <= b < 256
  datatype Cell = Uninit | Stored(value: Byte)
  type Memory = map<int, Cell>
  datatype Option<+T> = None | Some(value: T)

  predicate Mapped(m: Memory, a: int) {
    a in m && a + 1 in m && a + 2 in m && a + 3 in m
  }

  /** The little-endian word at byte address a; None when any byte is unmapped or uninitialised. */
  function WordAt(m: Memory, a: int): Option<U32> {
    if Mapped(m, a) && m[a].Stored? && m[a + 1].Stored? && m[a + 2].Stored? && m[a + 3].Stored?
    then Some(m[a].value + 0x100 * m[a + 1].value + 0x1_0000 * m[a + 2].value + 0x100_0000 * m[a + 3].value)
    else None
  }

  function PutWord(m: Memory, a: int, w: U32): Memory {
    m[a := Stored(w % 256)][a + 1 := Stored(w / 0x100 % 256)][a + 2 := Stored(w / 0x1_0000 % 256)]
     [a + 3 := Stored(w / 0x100_0000)]
  }

  /** Spelled out: words are little-endian, and what a word reads as fixes its four bytes. */
  lemma WordBytes(m: Memory, a: int, w: U32)
    requires WordAt(m, a) == Some(w)
    ensures a in m && a + 1 in m && a + 2 in m && a + 3 in m
    ensures m[a] == Stored(w % 0x100) && m[a + 1] == Stored(w / 0x100 % 0x100)
    ensures m[a + 2] == Stored(w / 0x1_0000 % 0x100) && m[a + 3] == Stored(w / 0x100_0000)
  {
    var b: int, c: int, d: int, e: int := m[a].value, m[a + 1].value, m[a + 2].value, m[a + 3].value;
    assert w == b + 0x100 * c + 0x1_0000 * d + 0x100_0000 * e;
    QuotientIs(w, 0x100, c + 0x100 * d + 0x1_0000 * e, b);
    QuotientIs(w, 0x1_0000, d + 0x100 * e, b + 0x100 * c);
    QuotientIs(w, 0x100_0000, e, b + 0x100 * c + 0x1_0000 * d);
    QuotientIs(c + 0x100 * d + 0x1_0000 * e, 0x100, d + 0x100 * e, c);
    QuotientIs(d + 0x100 * e, 0x100, e, d);
  }

  lemma PutThenRead(m: Memory, a: int, w: U32)
    ensures WordAt(PutWord(m, a, w), a) == Some(w)
  {
    assert w / 0x100 == w / 0x1_0000 * 256 + w / 0x100 % 256;
    assert w / 0x1_0000 == w / 0x100_0000 * 256 + w / 0x1_0000 % 256;
  }

  lemma PutKeepsApart(m: Memory, a: int, w: U32, b: int)
    requires b + 4 <= a || a + 4 <= b
    ensures WordAt(PutWord(m, a, w), b) == WordAt(m, b)
  {
  }

  lemma PutFrame(m: Memory, a: int, w: U32)
    requires Mapped(m, a)
    ensures PutWord(m, a, w).Keys == m.Keys
    ensures forall b :: b in m && !(a <= b < a + 4) ==> PutWord(m, a, w)[b] == m[b]
  {
  }

  // ---- Waves ----

  /** One lane of one issued memory instruction, not finished yet. A scalar load of two
      words is two accesses, tagged 0 and 1. */
  datatype Access =
    | ScalarLoadAccess(pc: nat, tag: nat, dst: Reg, word: nat)
    | GlobalLoadAccess(pc: nat, lane: nat, dst: Reg, address: U64)
    | GlobalStoreAccess(pc: nat, lane: nat, address: U64, data: U32)
    | DsWriteAccess(pc: nat, lane: nat, at: U32, data: U32)
    | DsReadAccess(pc: nat, lane: nat, dst: Reg, at: U32)

  predicate CountsLgkm(a: Access) { a.ScalarLoadAccess? || a.DsWriteAccess? || a.DsReadAccess? }

  predicate CountsVm(a: Access) { a.GlobalLoadAccess? || a.GlobalStoreAccess? }

  datatype Wave = Wave(
    pc: nat, arrived: bool, exec: Mask, vcc: Mask, s: Scalars, v: Vectors, outstanding: set<Access>)

  function SPair(w: Wave, r: PairReg): U64 { Pair(w.s[r], w.s[r + 1]) }

  function VPair(w: Wave, r: PairReg, l: nat): U64
    requires l < 64
  { Pair(w.v[r][l], w.v[r + 1][l]) }

  // Results of the vector operations: lanes outside the execution mask keep their value.

  function AddLanes(w: Wave, dst: Reg, s: Reg, v: Reg): Lanes {
    seq(64, l requires 0 <= l < 64 => if w.exec[l] then Add32(w.s[s], w.v[v][l], false) else w.v[dst][l])
  }

  function AddCarry(w: Wave, s: Reg, v: Reg): Mask {
    seq(64, l requires 0 <= l < 64 => w.exec[l] && Carry32(w.s[s], w.v[v][l], false))
  }

  function AddcLanes(w: Wave, dst: Reg, a: Reg, b: Reg): Lanes {
    seq(64, l requires 0 <= l < 64 =>
      if w.exec[l] then Add32(w.v[a][l], w.v[b][l], w.vcc[l]) else w.v[dst][l])
  }

  function AddcCarry(w: Wave, a: Reg, b: Reg): Mask {
    seq(64, l requires 0 <= l < 64 => w.exec[l] && Carry32(w.v[a][l], w.v[b][l], w.vcc[l]))
  }

  function FillLanes(w: Wave, dst: Reg, x: U32): Lanes {
    seq(64, l requires 0 <= l < 64 => if w.exec[l] then x else w.v[dst][l])
  }

  function ShlLoLanes(w: Wave, dst: Reg, src: PairReg, amount: nat): Lanes {
    seq(64, l requires 0 <= l < 64 => if w.exec[l] then Lo(Shl64(VPair(w, src, l), amount)) else w.v[dst][l])
  }

  function ShlHiLanes(w: Wave, dst: Reg, src: PairReg, amount: nat): Lanes {
    seq(64, l requires 0 <= l < 64 => if w.exec[l] then Hi(Shl64(VPair(w, src, l), amount)) else w.v[dst][l])
  }

  function Shl32Lanes(w: Wave, dst: Reg, src: Reg, amount: nat): Lanes {
    seq(64, l requires 0 <= l < 64 => if w.exec[l] then Shl32(w.v[src][l], amount) else w.v[dst][l])
  }

  function XorLanes(w: Wave, dst: Reg, src: Reg, imm: U32): Lanes {
    seq(64, l requires 0 <= l < 64 => if w.exec[l] then Xor32(w.v[src][l], imm) else w.v[dst][l])
  }

  function GreaterMask(w: Wave, sp: PairReg, vp: PairReg): Mask {
    seq(64, l requires 0 <= l < 64 => w.exec[l] && SPair(w, sp) > VPair(w, vp, l))
  }

  function AndMask(a: Mask, b: Mask): Mask {
    seq(64, l requires 0 <= l < 64 => a[l] && b[l])
  }

  function GlobalLoads(w: Wave, dst: Reg, address: PairReg): set<Access> {
    set l: nat | l < 64 && w.exec[l] :: GlobalLoadAccess(w.pc, l, dst, VPair(w, address, l))
  }

  function GlobalStores(w: Wave, address: PairReg, data: Reg): set<Access> {
    set l: nat | l < 64 && w.exec[l] :: GlobalStoreAccess(w.pc, l, VPair(w, address, l), w.v[data][l])
  }

  function DsWrites(w: Wave, at: Reg, data: Reg): set<Access> {
    set l: nat | l < 64 && w.exec[l] :: DsWriteAccess(w.pc, l, w.v[at][l], w.v[data][l])
  }

  function DsReads(w: Wave, dst: Reg, at: Reg): set<Access> {
    set l: nat | l < 64 && w.exec[l] :: DsReadAccess(w.pc, l, dst, w.v[at][l])
  }

  function ScalarLoads(pc: nat, dst: Reg, offset: nat): set<Access> {
    {ScalarLoadAccess(pc, 0, dst, offset / 4)}
  }

  function ScalarLoads2(pc: nat, dst: PairReg, offset: nat): set<Access> {
    {ScalarLoadAccess(pc, 0, dst, offset / 4), ScalarLoadAccess(pc, 1, dst + 1, offset / 4 + 1)}
  }

  /** What issuing one instruction does to its own wave. Memory is untouched: an access only
      joins the outstanding set, with its address and store data read now. */
  function Issue(i: Instr, w: Wave): Wave {
    var n := w.(pc := w.pc + 1);
    match i
    case SLoadX2(dst, offset) => n.(outstanding := w.outstanding + ScalarLoads2(w.pc, dst, offset))
    case SLoad(dst, offset) => n.(outstanding := w.outstanding + ScalarLoads(w.pc, dst, offset))
    case SWaitLgkm => n
    case SWaitVm => n
    case SLshl(dst, src, amount) => n.(s := w.s[dst := Shl32(w.s[src], amount)])
    case VAdd(dst, s, v) => n.(v := w.v[dst := AddLanes(w, dst, s, v)])
    case VMovZero(dst) => n.(v := w.v[dst := FillLanes(w, dst, 0)])
    case VMov(dst, s) => n.(v := w.v[dst := FillLanes(w, dst, w.s[s])])
    case VLshl64(dst, src, amount) =>
      n.(v := w.v[dst := ShlLoLanes(w, dst, src, amount)][dst + 1 := ShlHiLanes(w, dst + 1, src, amount)])
    case VAddCo(dst, s, v) => n.(v := w.v[dst := AddLanes(w, dst, s, v)], vcc := AddCarry(w, s, v))
    case VAddcCo(dst, a, b) => n.(v := w.v[dst := AddcLanes(w, dst, a, b)], vcc := AddcCarry(w, a, b))
    case VLshl32(dst, src, amount) => n.(v := w.v[dst := Shl32Lanes(w, dst, src, amount)])
    case VXor(dst, src, imm) => n.(v := w.v[dst := XorLanes(w, dst, src, imm)])
    case VCmpGt64(sp, vp) => n.(vcc := GreaterMask(w, sp, vp))
    case SAndSaveexec(dst) =>
      n.(s := w.s[dst := Lo(MaskToWord(w.exec))][dst + 1 := Hi(MaskToWord(w.exec))],
         exec := AndMask(w.exec, w.vcc))
    case SMovExec(src) => n.(exec := WordToMask(SPair(w, src)))
    case GlobalLoad(dst, address) => n.(outstanding := w.outstanding + GlobalLoads(w, dst, address))
    case GlobalStore(address, data) => n.(outstanding := w.outstanding + GlobalStores(w, address, data))
    case DsWrite(at, data) => n.(outstanding := w.outstanding + DsWrites(w, at, data))
    case DsRead(dst, at) => n.(outstanding := w.outstanding + DsReads(w, dst, at))
    case SBarrier => n.(arrived := false)
    case SEndpgm => n
  }

  // ---- Registers an instruction touches ----

  function VReads(i: Instr): set<Reg> {
    match i
    case VAdd(_, _, v) => {v}
    case VLshl64(_, src, _) => {src, src + 1}
    case VAddCo(_, _, v) => {v}
    case VAddcCo(_, a, b) => {a, b}
    case VLshl32(_, src, _) => {src}
    case VXor(_, src, _) => {src}
    case VCmpGt64(_, vp) => {vp, vp + 1}
    case GlobalLoad(_, address) => {address, address + 1}
    case GlobalStore(address, data) => {address, address + 1, data}
    case DsWrite(at, data) => {at, data}
    case DsRead(_, at) => {at}
    case _ => {}
  }

  function VWrites(i: Instr): set<Reg> {
    match i
    case VAdd(dst, _, _) => {dst}
    case VMovZero(dst) => {dst}
    case VMov(dst, _) => {dst}
    case VLshl64(dst, _, _) => {dst, dst + 1}
    case VAddCo(dst, _, _) => {dst}
    case VAddcCo(dst, _, _) => {dst}
    case VLshl32(dst, _, _) => {dst}
    case VXor(dst, _, _) => {dst}
    case GlobalLoad(dst, _) => {dst}
    case DsRead(dst, _) => {dst}
    case _ => {}
  }

  function SReads(i: Instr): set<Reg> {
    match i
    case SLshl(_, src, _) => {src}
    case VAdd(_, s, _) => {s}
    case VMov(_, s) => {s}
    case VAddCo(_, s, _) => {s}
    case VCmpGt64(sp, _) => {sp, sp + 1}
    case SMovExec(src) => {src, src + 1}
    case _ => {}
  }

  function SWrites(i: Instr): set<Reg> {
    match i
    case SLoadX2(dst, _) => {dst, dst + 1}
    case SLoad(dst, _) => {dst}
    case SLshl(dst, _, _) => {dst}
    case SAndSaveexec(dst) => {dst, dst + 1}
    case _ => {}
  }

  /** Issuing changes only the registers the instruction names: scalars and vectors it does not
      write stay, and so does the mask unless it is the instruction's business. */
  lemma IssueFrame(i: Instr, w: Wave)
    ensures forall r :: 0 <= r < 32 && r !in SWrites(i) ==> Issue(i, w).s[r] == w.s[r]
    ensures forall r :: 0 <= r < 32 && r !in VWrites(i) ==> Issue(i, w).v[r] == w.v[r]
    ensures !i.SAndSaveexec? && !i.SMovExec? ==> Issue(i, w).exec == w.exec
    ensures !i.SBarrier? ==> Issue(i, w).arrived == w.arrived
    ensures Issue(i, w).pc == w.pc + 1
  {
    hide AddLanes, AddCarry, AddcLanes, AddcCarry, FillLanes, ShlLoLanes, ShlHiLanes, Shl32Lanes, XorLanes, GreaterMask;
    hide AndMask, GlobalLoads, GlobalStores, DsWrites, DsReads, ScalarLoads, ScalarLoads2;
    hide Shl32, SPair, MaskToWord, WordToMask;
  }

  /** Lanes that are off keep their value even in the registers the instruction writes. */
  lemma OffLanesKept(i: Instr, w: Wave, r: nat, l: nat)
    requires r < 32 && l < 64 && !w.exec[l]
    ensures Issue(i, w).v[r][l] == w.v[r][l]
  {
    hide Add32, Carry32, Shl32, Shl64, Xor32, SPair, VPair, Lo, Hi, MaskToWord, WordToMask;
    hide GlobalLoads, GlobalStores, DsWrites, DsReads, ScalarLoads, ScalarLoads2;
  }

  predicate LaneAccesses(i: Instr) { i.GlobalLoad? || i.GlobalStore? || i.DsWrite? || i.DsRead? }

  predicate ScalarAccesses(i: Instr) { i.SLoadX2? || i.SLoad? }

  /** Scalar loads add scalar accesses, the four lane instructions lane accesses, and no other
      instruction adds any. */
  lemma NewAccessKind(i: Instr, w: Wave, a: Access)
    requires a in Issue(i, w).outstanding && a !in w.outstanding
    ensures if a.ScalarLoadAccess? then ScalarAccesses(i) else LaneAccesses(i) && a.lane < 64
  {
    hide AddLanes, AddCarry, AddcLanes, AddcCarry, FillLanes, ShlLoLanes, ShlHiLanes, Shl32Lanes, XorLanes, GreaterMask;
    hide AndMask, Shl32, SPair, VPair, MaskToWord, WordToMask;
  }

  /** The accesses an instruction adds. */
  function Added(i: Instr, w: Wave): set<Access> {
    match i
    case SLoadX2(dst, offset) => ScalarLoads2(w.pc, dst, offset)
    case SLoad(dst, offset) => ScalarLoads(w.pc, dst, offset)
    case GlobalLoad(dst, address) => GlobalLoads(w, dst, address)
    case GlobalStore(address, data) => GlobalStores(w, address, data)
    case DsWrite(at, data) => DsWrites(w, at, data)
    case DsRead(dst, at) => DsReads(w, dst, at)
    case _ => {}
  }

  lemma IssueAdds(i: Instr, w: Wave)
    ensures Issue(i, w).outstanding == w.outstanding + Added(i, w)
  {
    hide AddLanes, AddCarry, AddcLanes, AddcCarry, FillLanes, ShlLoLanes, ShlHiLanes, Shl32Lanes, XorLanes, GreaterMask;
    hide AndMask, Shl32, SPair, MaskToWord, WordToMask;
    hide GlobalLoads, GlobalStores, DsWrites, DsReads, ScalarLoads, ScalarLoads2;
  }

  /** Two waves an instruction cannot tell apart by the registers it is listed to read. */
  predicate SameInputs(i: Instr, w: Wave, x: Wave) {
    && w.pc == x.pc && w.exec == x.exec && w.vcc == x.vcc
    && (forall r: Reg :: r in SReads(i) ==> w.s[r] == x.s[r])
    && (forall r: Reg :: r in VReads(i) ==> w.v[r] == x.v[r])
  }

  lemma SameAddCarry(w: Wave, x: Wave, s: Reg, v: Reg)
    requires w.exec == x.exec && w.s[s] == x.s[s] && w.v[v] == x.v[v]
    ensures AddCarry(w, s, v) == AddCarry(x, s, v)
  {
  }

  lemma SameAddcCarry(w: Wave, x: Wave, a: Reg, b: Reg)
    requires w.exec == x.exec && w.vcc == x.vcc && w.v[a] == x.v[a] && w.v[b] == x.v[b]
    ensures AddcCarry(w, a, b) == AddcCarry(x, a, b)
  {
  }

  lemma SameGreater(w: Wave, x: Wave, s: PairReg, v: PairReg)
    requires w.exec == x.exec && SPair(w, s) == SPair(x, s) && w.v[v] == x.v[v] && w.v[v + 1] == x.v[v + 1]
    ensures GreaterMask(w, s, v) == GreaterMask(x, s, v)
  {
    hide SPair;
  }

  predicate SetsCarry(i: Instr) { i.VAddCo? || i.VAddcCo? || i.VCmpGt64? }

  lemma CarryKept(i: Instr, w: Wave)
    requires !SetsCarry(i)
    ensures Issue(i, w).vcc == w.vcc
  {
  }

  lemma FootprintCarry(i: Instr, w: Wave, x: Wave)
    requires SameInputs(i, w, x)
    ensures Issue(i, w).vcc == Issue(i, x).vcc
  {
    hide AddLanes, AddcLanes, AddCarry, AddcCarry, GreaterMask, Pair;
    match i
    case VAddCo(_, s, v) => SameAddCarry(w, x, s, v);
    case VAddcCo(_, a, b) => SameAddcCarry(w, x, a, b);
    case VCmpGt64(sp, vp) => SameGreater(w, x, sp, vp);
    case _ =>
      hide Issue, SReads, VReads;
      CarryKept(i, w);
      CarryKept(i, x);
  }

  lemma FootprintMask(i: Instr, w: Wave, x: Wave)
    requires SameInputs(i, w, x)
    ensures Issue(i, w).exec == Issue(i, x).exec
  {
    IssueFrame(i, w);
    IssueFrame(i, x);
    if !i.SAndSaveexec? && !i.SMovExec? { hide Issue; }
  }

  lemma FootprintAccesses(i: Instr, w: Wave, x: Wave)
    requires SameInputs(i, w, x)
    ensures Added(i, w) == Added(i, x)
  {
    hide Pair;
  }

  lemma FootprintScalar(i: Instr, w: Wave, x: Wave, r: Reg)
    requires SameInputs(i, w, x) && r in SWrites(i) && !ScalarAccesses(i)
    ensures Issue(i, w).s[r] == Issue(i, x).s[r]
  {
    hide Shl32, MaskToWord;
  }

  lemma FootprintVector(i: Instr, w: Wave, x: Wave, r: Reg, l: nat)
    requires SameInputs(i, w, x) && r in VWrites(i) && !LaneAccesses(i) && l < 64 && w.exec[l]
    ensures Issue(i, w).v[r][l] == Issue(i, x).v[r][l]
  {
    hide AddCarry, AddcCarry, GreaterMask, SPair, Add32, Carry32, Shl32, Shl64, Xor32, Lo, Hi, Pair;
  }

  /** An instruction depends on no other register: the masks, the accesses with their addresses
      and data, and what it writes are the same for two such waves. */
  lemma ReadFootprint(i: Instr, w: Wave, x: Wave)
    requires SameInputs(i, w, x)
    ensures Issue(i, w).exec == Issue(i, x).exec && Issue(i, w).vcc == Issue(i, x).vcc
    ensures Added(i, w) == Added(i, x)
    ensures !ScalarAccesses(i) ==> forall r: Reg :: r in SWrites(i) ==> Issue(i, w).s[r] == Issue(i, x).s[r]
    ensures !LaneAccesses(i) ==>
      forall r: Reg, l: nat :: r in VWrites(i) && l < 64 && w.exec[l] ==> Issue(i, w).v[r][l] == Issue(i, x).v[r][l]
  {
    hide *;
    FootprintMask(i, w, x);
    FootprintCarry(i, w, x);
    FootprintAccesses(i, w, x);
    if !ScalarAccesses(i) {
      forall r: Reg | r in SWrites(i) ensures Issue(i, w).s[r] == Issue(i, x).s[r] { FootprintScalar(i, w, x, r); }
    }
    if !LaneAccesses(i) {
      forall r: Reg, l: nat | r in VWrites(i) && l < 64 && w.exec[l]
        ensures Issue(i, w).v[r][l] == Issue(i, x).v[r][l]
      {
        FootprintVector(i, w, x, r, l);
      }
    }
  }

  /** A load's destination is not written when it issues, only when it lands. */
  lemma LoadsWriteLater(i: Instr, w: Wave)
    ensures ScalarAccesses(i) ==> Issue(i, w).s == w.s
    ensures LaneAccesses(i) ==> Issue(i, w).v == w.v
  {
  }

  /** No register the instruction reads or writes is waiting for a load. */
  predicate HazardFree(i: Instr, outstanding: set<Access>) {
    forall a :: a in outstanding ==>
      && (a.ScalarLoadAccess? ==> a.dst !in SReads(i) + SWrites(i))
      && (a.GlobalLoadAccess? ==> a.dst !in VReads(i) + VWrites(i))
      && (a.DsReadAccess? ==> a.dst !in VReads(i) + VWrites(i))
  }

  // ---- The whole launch ----

  /** Wave i belongs to workgroup i / wavesPerGroup. */
  datatype Launch = Launch(code: seq<Instr>, kernarg: seq<U32>, wavesPerGroup: nat) {
    ghost predicate Valid() { wavesPerGroup > 0 }
  }

  datatype State = State(waves: seq<Wave>, lds: seq<Memory>, mem: Memory, fault: bool)

  datatype Move =
    | IssueNext(wave: nat)
    | Finish(wave: nat, access: Access)
    | Arrive(wave: nat)
    | Release(group: nat)

  predicate InGroup(l: Launch, i: nat, group: nat)
    requires l.Valid()
  { i / l.wavesPerGroup == group }

  predicate AtBarrier(l: Launch, w: Wave) { w.pc < |l.code| && l.code[w.pc].SBarrier? }

  /** A wave may issue unless it ended, stands at a barrier, or waits for a nonzero counter. */
  predicate CanIssue(l: Launch, w: Wave) {
    && w.pc < |l.code|
    && !l.code[w.pc].SBarrier?
    && (l.code[w.pc].SWaitLgkm? ==> forall a :: a in w.outstanding ==> !CountsLgkm(a))
    && (l.code[w.pc].SWaitVm? ==> forall a :: a in w.outstanding ==> !CountsVm(a))
  }

  predicate Waiting(l: Launch, w: Wave) { AtBarrier(l, w) && w.arrived }

  /** The barrier opens once every wave of the group that has not ended has arrived. */
  predicate CanRelease(l: Launch, s: State, group: nat)
    requires l.Valid()
  {
    && (exists i: nat :: i < |s.waves| && InGroup(l, i, group) && Waiting(l, s.waves[i]))
    && (forall i: nat :: i < |s.waves| && InGroup(l, i, group) ==>
          s.waves[i].pc >= |l.code| || Waiting(l, s.waves[i]))
  }

  predicate Enabled(l: Launch, s: State, m: Move)
    requires l.Valid()
  {
    && !s.fault
    && match m
       case IssueNext(i) => i < |s.waves| && CanIssue(l, s.waves[i])
       case Finish(i, a) => i < |s.waves| && a in s.waves[i].outstanding
       case Arrive(i) => i < |s.waves| && AtBarrier(l, s.waves[i]) && !s.waves[i].arrived
       case Release(g) => CanRelease(l, s, g)
  }

  /** A finished access: a load fills its register lane, a store reaches memory. An access
      to bytes that are not mapped, or a load of bytes never initialised, is a fault. */
  function FinishAccess(l: Launch, s: State, i: nat, a: Access): State
    requires l.Valid() && i < |s.waves|
  {
    var w := s.waves[i].(outstanding := s.waves[i].outstanding - {a});
    var g := i / l.wavesPerGroup;
    match a
    case ScalarLoadAccess(_, _, dst, word) =>
      if word < |l.kernarg| then s.(waves := s.waves[i := w.(s := w.s[dst := l.kernarg[word]])])
      else s.(fault := true)
    case GlobalLoadAccess(_, lane, dst, address) =>
      var r := WordAt(s.mem, address);
      if lane < 64 && r.Some? then s.(waves := s.waves[i := w.(v := w.v[dst := w.v[dst][lane := r.value]])])
      else s.(fault := true)
    case GlobalStoreAccess(_, _, address, data) =>
      if Mapped(s.mem, address) then s.(waves := s.waves[i := w], mem := PutWord(s.mem, address, data))
      else s.(fault := true)
    case DsWriteAccess(_, _, at, data) =>
      if g < |s.lds| && Mapped(s.lds[g], at)
      then s.(waves := s.waves[i := w], lds := s.lds[g := PutWord(s.lds[g], at, data)])
      else s.(fault := true)
    case DsReadAccess(_, lane, dst, at) =>
      if lane < 64 && g < |s.lds| && WordAt(s.lds[g], at).Some?
      then s.(waves := s.waves[i := w.(v := w.v[dst := w.v[dst][lane := WordAt(s.lds[g], at).value]])])
      else s.(fault := true)
  }

  /** When a landing access faults: outside the launch arguments, at bytes that are not mapped, or, for
      a load, at bytes never initialised. */
  lemma FinishFaultsIff(l: Launch, s: State, i: nat, a: Access, g: nat)
    requires l.Valid() && InGroup(l, i, g) && i < |s.waves| && !s.fault && (a.ScalarLoadAccess? || a.lane < 64)
    ensures FinishAccess(l, s, i, a).fault <==>
      match a
      case ScalarLoadAccess(_, _, _, word) => word >= |l.kernarg|
      case GlobalLoadAccess(_, _, _, q) => WordAt(s.mem, q).None?
      case GlobalStoreAccess(_, _, q, _) => q !in s.mem || q + 1 !in s.mem || q + 2 !in s.mem || q + 3 !in s.mem
      case DsWriteAccess(_, _, at, _) => g >= |s.lds| || !Mapped(s.lds[g], at)
      case DsReadAccess(_, _, _, at) => g >= |s.lds| || WordAt(s.lds[g], at).None?
  {
    hide WordAt, PutWord;
  }

  function Apply(l: Launch, s: State, m: Move): State
    requires l.Valid() && Enabled(l, s, m)
  {
    match m
    case IssueNext(i) => s.(waves := s.waves[i := Issue(l.code[s.waves[i].pc], s.waves[i])])
    case Finish(i, a) => FinishAccess(l, s, i, a)
    case Arrive(i) => s.(waves := s.waves[i := s.waves[i].(arrived := true)])
    case Release(g) => s.(waves := seq(|s.waves|, i requires 0 <= i < |s.waves| =>
        if InGroup(l, i, g) && Waiting(l, s.waves[i])
        then s.waves[i].(pc := s.waves[i].pc + 1, arrived := false) else s.waves[i]))
  }

  predicate Finished(l: Launch, s: State) {
    forall i :: 0 <= i < |s.waves| ==> s.waves[i].pc >= |l.code| && s.waves[i].outstanding == {}
  }

  /** A run: every move enabled when it is taken. Any interleaving and any delay is a run. */
  predicate Legal(l: Launch, s: State, moves: seq<Move>)
    requires l.Valid()
    decreases moves
  {
    moves == [] || (Enabled(l, s, moves[0]) && Legal(l, Apply(l, s, moves[0]), moves[1..]))
  }

  function After(l: Launch, s: State, moves: seq<Move>): State
    requires l.Valid() && Legal(l, s, moves)
    decreases moves
  {
    if moves == [] then s else After(l, Apply(l, s, moves[0]), moves[1..])
  }

  // ---- A delay no instruction can notice ----

  /** The wave with one of its accesses landed; x is the word a load brings. */
  function Land(w: Wave, a: Access, x: U32): Wave
    requires a.ScalarLoadAccess? || a.lane < 64
  {
    var n := w.(outstanding := w.outstanding - {a});
    match a
    case ScalarLoadAccess(_, _, dst, _) => n.(s := w.s[dst := x])
    case GlobalLoadAccess(_, lane, dst, _) => n.(v := w.v[dst := w.v[dst][lane := x]])
    case DsReadAccess(_, lane, dst, _) => n.(v := w.v[dst := w.v[dst][lane := x]])
    case _ => n
  }

  lemma AddedHere(i: Instr, w: Wave, a: Access)
    requires a in Added(i, w)
    ensures a.pc == w.pc
  {
    hide VPair;
  }

  lemma LandingUnread(i: Instr, w: Wave, a: Access, x: U32)
    requires a in w.outstanding && HazardFree(i, w.outstanding) && (a.ScalarLoadAccess? || a.lane < 64)
    ensures SameInputs(i, Land(w, a, x), w)
  {
    hide SReads, VReads, SWrites, VWrites;
  }

  /** Landing an access before or after an instruction that is free of hazards is the same. */
  lemma LandingCommutes(i: Instr, w: Wave, a: Access, x: U32)
    requires a in w.outstanding && a.pc != w.pc && HazardFree(i, w.outstanding)
    requires a.ScalarLoadAccess? || a.lane < 64
    ensures Issue(i, Land(w, a, x)) == Land(Issue(i, w), a, x)
  {
    var n, before, after := Land(w, a, x), Issue(i, Land(w, a, x)), Land(Issue(i, w), a, x);
    LandingUnread(i, w, a, x);
    ReadFootprint(i, n, w);
    LandedAccesses(i, w, a, x);
    LandedRest(i, w, a, x);
    forall r: Reg ensures before.s[r] == after.s[r] { LandedScalar(i, w, a, x, r); }
    forall r: Reg ensures before.v[r] == after.v[r] { LandedVector(i, w, a, x, r); }
    hide Issue, Land, SameInputs, HazardFree, Added;
    assert before.s == after.s && before.v == after.v;
  }

  lemma LandedAccesses(i: Instr, w: Wave, a: Access, x: U32)
    requires a in w.outstanding && a.pc != w.pc && (a.ScalarLoadAccess? || a.lane < 64)
    requires Added(i, Land(w, a, x)) == Added(i, w)
    ensures Issue(i, Land(w, a, x)).outstanding == Land(Issue(i, w), a, x).outstanding
  {
    hide *;
    IssueAdds(i, w);
    IssueAdds(i, Land(w, a, x));
    LandKeeps(w, a, x);
    LandKeeps(Issue(i, w), a, x);
    if a in Added(i, w) { AddedHere(i, w, a); }
  }

  lemma LandKeeps(w: Wave, a: Access, x: U32)
    requires a.ScalarLoadAccess? || a.lane < 64
    ensures var n := Land(w, a, x); n.pc == w.pc && n.arrived == w.arrived && n.exec == w.exec && n.vcc == w.vcc
    ensures Land(w, a, x).outstanding == w.outstanding - {a}
  {
  }

  lemma BarrierLeaves(i: Instr, w: Wave)
    ensures i.SBarrier? ==> !Issue(i, w).arrived
  {
  }

  lemma LandedRest(i: Instr, w: Wave, a: Access, x: U32)
    requires a.ScalarLoadAccess? || a.lane < 64
    ensures Issue(i, Land(w, a, x)).pc == Issue(i, w).pc == Land(Issue(i, w), a, x).pc
    ensures Land(Issue(i, w), a, x).exec == Issue(i, w).exec && Land(Issue(i, w), a, x).vcc == Issue(i, w).vcc
    ensures Issue(i, Land(w, a, x)).arrived == Land(Issue(i, w), a, x).arrived
  {
    hide *;
    LandKeeps(w, a, x);
    LandKeeps(Issue(i, w), a, x);
    IssueFrame(i, w);
    IssueFrame(i, Land(w, a, x));
    BarrierLeaves(i, w);
    BarrierLeaves(i, Land(w, a, x));
  }

  lemma LandedScalar(i: Instr, w: Wave, a: Access, x: U32, r: Reg)
    requires a in w.outstanding && HazardFree(i, w.outstanding) && (a.ScalarLoadAccess? || a.lane < 64)
    ensures Issue(i, Land(w, a, x)).s[r] == Land(Issue(i, w), a, x).s[r]
  {
    hide Issue, SReads, SWrites;
    var n := Land(w, a, x);
    LandingUnread(i, w, a, x);
    ReadFootprint(i, n, w);
    LoadsWriteLater(i, w);
    LoadsWriteLater(i, n);
    IssueFrame(i, w);
    IssueFrame(i, n);
    hide ScalarAccesses;
  }

  lemma LandedVector(i: Instr, w: Wave, a: Access, x: U32, r: Reg)
    requires a in w.outstanding && HazardFree(i, w.outstanding) && (a.ScalarLoadAccess? || a.lane < 64)
    ensures Issue(i, Land(w, a, x)).v[r] == Land(Issue(i, w), a, x).v[r]
  {
    forall l: nat | l < 64 ensures Issue(i, Land(w, a, x)).v[r][l] == Land(Issue(i, w), a, x).v[r][l] {
      LandedLane(i, w, a, x, r, l);
    }
  }

  lemma LandedLane(i: Instr, w: Wave, a: Access, x: U32, r: Reg, l: nat)
    requires a in w.outstanding && HazardFree(i, w.outstanding) && (a.ScalarLoadAccess? || a.lane < 64) && l < 64
    ensures Issue(i, Land(w, a, x)).v[r][l] == Land(Issue(i, w), a, x).v[r][l]
  {
    hide Issue, VReads, VWrites;
    var n := Land(w, a, x);
    LandingUnread(i, w, a, x);
    ReadFootprint(i, n, w);
    LoadsWriteLater(i, w);
    LoadsWriteLater(i, n);
    IssueFrame(i, w);
    IssueFrame(i, n);
    if !w.exec[l] {
      OffLanesKept(i, w, r, l);
      OffLanesKept(i, n, r, l);
    }
    hide LaneAccesses;
  }

  /** The word a load brings from the state it lands in. */
  function Word(l: Launch, s: State, i: nat, a: Access): U32
    requires l.Valid()
  {
    var found := match a
      case ScalarLoadAccess(_, _, _, word) => if word < |l.kernarg| then Some(l.kernarg[word]) else None
      case GlobalLoadAccess(_, _, _, address) => WordAt(s.mem, address)
      case DsReadAccess(_, _, _, at) =>
        if i / l.wavesPerGroup < |s.lds| then WordAt(s.lds[i / l.wavesPerGroup], at) else None
      case _ => None;
    match found
    case Some(word) => word
    case None => 0
  }

  lemma FinishLands(l: Launch, s: State, i: nat, a: Access)
    requires l.Valid() && i < |s.waves| && !s.fault && !FinishAccess(l, s, i, a).fault
    requires a.ScalarLoadAccess? || a.lane < 64
    ensures FinishAccess(l, s, i, a).waves == s.waves[i := Land(s.waves[i], a, Word(l, s, i, a))]
  {
    hide WordAt, PutWord, Mapped;
  }

  /** What an access does to memory, and whether it faults, does not depend on any register. */
  lemma FinishApart(l: Launch, s: State, i: nat, a: Access, w: Wave)
    requires l.Valid() && i < |s.waves| && (a.ScalarLoadAccess? || a.lane < 64)
    ensures var t := s.(waves := s.waves[i := w]);
      && FinishAccess(l, t, i, a).mem == FinishAccess(l, s, i, a).mem
      && FinishAccess(l, t, i, a).lds == FinishAccess(l, s, i, a).lds
      && FinishAccess(l, t, i, a).fault == FinishAccess(l, s, i, a).fault
      && Word(l, t, i, a) == Word(l, s, i, a)
  {
    hide WordAt, PutWord, Mapped;
  }

  /** Main result on delay: when the next instruction is free of hazards, an outstanding access of
      its wave may land before or after it; both orders are possible and lead to one state. */
  lemma DelayUnnoticed(l: Launch, s: State, i: nat, a: Access)
    requires l.Valid() && Enabled(l, s, IssueNext(i)) && Enabled(l, s, Finish(i, a))
    requires a.pc != s.waves[i].pc && (a.ScalarLoadAccess? || a.lane < 64)
    requires HazardFree(l.code[s.waves[i].pc], s.waves[i].outstanding)
    requires !Apply(l, s, Finish(i, a)).fault
    ensures Enabled(l, Apply(l, s, Finish(i, a)), IssueNext(i)) && Enabled(l, Apply(l, s, IssueNext(i)), Finish(i, a))
    ensures Apply(l, Apply(l, s, Finish(i, a)), IssueNext(i)) == Apply(l, Apply(l, s, IssueNext(i)), Finish(i, a))
  {
    var w := s.waves[i];
    var instr := l.code[w.pc];
    IssueAdds(instr, w);
    LandingCommutes(instr, w, a, Word(l, s, i, a));
    FinishLands(l, s, i, a);
    FinishApart(l, s, i, a, Issue(instr, w));
    hide Issue, FinishAccess, HazardFree, Word, Added;
    var t := s.(waves := s.waves[i := Issue(instr, w)]);
    assert Apply(l, s, IssueNext(i)) == t;
    FinishLands(l, t, i, a);
  }

  // ---- Every run is finite ----

  /** An upper bound on the moves left: 66 for each instruction not issued, one for each
      outstanding access and one for each arrival still due. */
  function WaveWork(l: Launch, w: Wave): int {
    (|l.code| - w.pc) * 66 + |w.outstanding| + if w.arrived then 0 else 1
  }

  function Work(l: Launch, waves: seq<Wave>): int {
    if waves == [] then 0 else WaveWork(l, waves[0]) + Work(l, waves[1..])
  }

  predicate InCode(l: Launch, waves: seq<Wave>) {
    forall i :: 0 <= i < |waves| ==> waves[i].pc <= |l.code|
  }

  lemma {:induction false} OnePerLane(s: set<Access>, n: nat)
    requires forall a :: a in s ==> !a.ScalarLoadAccess? && a.lane < n
    requires forall a, b :: a in s && b in s && a.lane == b.lane ==> a == b
    ensures |s| <= n
  {
    if a :| a in s && a.lane == n - 1 {
      OnePerLane(s - {a}, n - 1);
    } else if n > 0 {
      OnePerLane(s, n - 1);
    } else {
      assert s == {};
    }
  }

  lemma IssueAddsAtMost64(i: Instr, w: Wave)
    ensures |Issue(i, w).outstanding| <= |w.outstanding| + 64
  {
    hide AddLanes, AddCarry, AddcLanes, AddcCarry, FillLanes, ShlLoLanes, ShlHiLanes, Shl32Lanes, XorLanes, GreaterMask;
    hide AndMask, Shl32, SPair, VPair, MaskToWord, WordToMask;
    match i
    case GlobalLoad(dst, p) => OnePerLane(GlobalLoads(w, dst, p), 64);
    case GlobalStore(p, data) => OnePerLane(GlobalStores(w, p, data), 64);
    case DsWrite(at, data) => OnePerLane(DsWrites(w, at, data), 64);
    case DsRead(dst, at) => OnePerLane(DsReads(w, dst, at), 64);
    case _ =>
  }

  lemma {:induction false} WorkUpdate(l: Launch, waves: seq<Wave>, i: nat, w: Wave)
    requires i < |waves|
    ensures Work(l, waves[i := w]) == Work(l, waves) - WaveWork(l, waves[i]) + WaveWork(l, w)
  {
    if i == 0 {
      assert waves[0 := w][1..] == waves[1..];
    } else {
      WorkUpdate(l, waves[1..], i - 1, w);
      assert waves[i := w][1..] == waves[1..][i - 1 := w];
    }
  }

  lemma {:induction false} WorkBelow(l: Launch, before: seq<Wave>, after: seq<Wave>, k: nat)
    requires |before| == |after| && k < |before|
    requires forall i :: 0 <= i < |before| ==> WaveWork(l, after[i]) <= WaveWork(l, before[i])
    requires WaveWork(l, after[k]) < WaveWork(l, before[k])
    ensures Work(l, after) < Work(l, before)
  {
    if k == 0 {
      WorkAtMost(l, before[1..], after[1..]);
    } else {
      WorkBelow(l, before[1..], after[1..], k - 1);
    }
  }

  lemma {:induction false} WorkAtMost(l: Launch, before: seq<Wave>, after: seq<Wave>)
    requires |before| == |after|
    requires forall i :: 0 <= i < |before| ==> WaveWork(l, after[i]) <= WaveWork(l, before[i])
    ensures Work(l, after) <= Work(l, before)
  {
    if before != [] { WorkAtMost(l, before[1..], after[1..]); }
  }

  lemma {:induction false} WorkNonNegative(l: Launch, waves: seq<Wave>)
    requires InCode(l, waves)
    ensures Work(l, waves) >= 0
  {
    if waves != [] { WorkNonNegative(l, waves[1..]); }
  }

  /** A finished access leaves the set; nothing else about program order changes. */
  lemma FinishRemoves(l: Launch, s: State, i: nat, a: Access)
    requires l.Valid() && i < |s.waves| && a in s.waves[i].outstanding && !FinishAccess(l, s, i, a).fault
    ensures |FinishAccess(l, s, i, a).waves| == |s.waves|
    ensures var w := FinishAccess(l, s, i, a).waves[i];
      && FinishAccess(l, s, i, a).waves == s.waves[i := w]
      && w.outstanding == s.waves[i].outstanding - {a}
      && w.pc == s.waves[i].pc && w.arrived == s.waves[i].arrived
      && w.exec == s.waves[i].exec && w.vcc == s.waves[i].vcc
  {
  }

  /** Every move that does not fault uses up work. */
  lemma MoveDecreasesWork(l: Launch, s: State, m: Move)
    requires l.Valid() && InCode(l, s.waves) && Enabled(l, s, m) && !Apply(l, s, m).fault
    ensures InCode(l, Apply(l, s, m).waves)
    ensures Work(l, Apply(l, s, m).waves) < Work(l, s.waves)
  {
    var t := Apply(l, s, m);
    if m.Release? {
      var k: nat :| k < |s.waves| && InGroup(l, k, m.group) && Waiting(l, s.waves[k]);
      ReleaseDecreasesWork(l, s, m.group, k);
    } else if m.Finish? {
      FinishRemoves(l, s, m.wave, m.access);
      WorkUpdate(l, s.waves, m.wave, t.waves[m.wave]);
    } else if m.Arrive? {
      WorkUpdate(l, s.waves, m.wave, t.waves[m.wave]);
    } else {
      IssueAdvances(l.code[s.waves[m.wave].pc], s.waves[m.wave]);
      WorkUpdate(l, s.waves, m.wave, t.waves[m.wave]);
    }
  }

  lemma IssueAdvances(i: Instr, w: Wave)
    ensures Issue(i, w).pc == w.pc + 1
    ensures !i.SBarrier? ==> Issue(i, w).arrived == w.arrived
    ensures |Issue(i, w).outstanding| <= |w.outstanding| + 64
  {
    hide *;
    IssueFrame(i, w);
    IssueAddsAtMost64(i, w);
  }

  lemma ReleaseDecreasesWork(l: Launch, s: State, g: nat, k: nat)
    requires l.Valid() && InCode(l, s.waves) && Enabled(l, s, Release(g))
    requires k < |s.waves| && InGroup(l, k, g) && Waiting(l, s.waves[k])
    ensures InCode(l, Apply(l, s, Release(g)).waves)
    ensures Work(l, Apply(l, s, Release(g)).waves) < Work(l, s.waves)
  {
    WorkBelow(l, s.waves, Apply(l, s, Release(g)).waves, k);
  }

  /** No straight-line program can deadlock here: while some wave has work left and nothing
      has faulted, some move is enabled. */
  lemma SomeMoveEnabled(l: Launch, s: State) returns (m: Move)
    requires l.Valid() && !s.fault && !Finished(l, s)
    ensures Enabled(l, s, m)
  {
    hide CanIssue, CanRelease, AtBarrier, Finished;
    if i: nat :| i < |s.waves| && s.waves[i].outstanding != {} {
      var a :| a in s.waves[i].outstanding;
      m := Finish(i, a);
    } else if i: nat :| i < |s.waves| && s.waves[i].pc < |l.code| && !AtBarrier(l, s.waves[i]) {
      ClearIssues(l, s.waves[i]);
      m := IssueNext(i);
    } else if i: nat :| i < |s.waves| && s.waves[i].pc < |l.code| && !s.waves[i].arrived {
      m := Arrive(i);
    } else {
      var i := Unended(l, s);
      AllWaitingRelease(l, s, i);
      m := Release(i / l.wavesPerGroup);
    }
  }

  lemma Unended(l: Launch, s: State) returns (i: nat)
    requires !Finished(l, s) && forall k: nat :: k < |s.waves| ==> s.waves[k].outstanding == {}
    ensures i < |s.waves| && s.waves[i].pc < |l.code|
  {
    i :| i < |s.waves| && s.waves[i].pc < |l.code|;
  }

  lemma ClearIssues(l: Launch, w: Wave)
    requires w.pc < |l.code| && !AtBarrier(l, w) && w.outstanding == {}
    ensures CanIssue(l, w)
  {
  }

  lemma AllWaitingRelease(l: Launch, s: State, i: nat)
    requires l.Valid() && i < |s.waves| && s.waves[i].pc < |l.code|
    requires forall k: nat :: k < |s.waves| && s.waves[k].pc < |l.code| ==> Waiting(l, s.waves[k])
    ensures CanRelease(l, s, i / l.wavesPerGroup)
  {
    assert InGroup(l, i, i / l.wavesPerGroup);
    hide InGroup, Waiting;
  }

  lemma StuckIff(l: Launch, s: State)
    requires l.Valid()
    ensures (forall m :: !Enabled(l, s, m)) <==> s.fault || Finished(l, s)
  {
    if !s.fault && !Finished(l, s) {
      var m := SomeMoveEnabled(l, s);
    }
  }

  /** From every state some run goes on until it can go no further. */
  lemma {:induction false} SomeRunEnds(l: Launch, s: State) returns (moves: seq<Move>)
    requires l.Valid() && InCode(l, s.waves)
    ensures Legal(l, s, moves) && (After(l, s, moves).fault || Finished(l, After(l, s, moves)))
    decreases !s.fault, Work(l, s.waves)
  {
    hide Finished, Enabled, Apply, Work;
    if s.fault || Finished(l, s) {
      moves := [];
    } else {
      var m := SomeMoveEnabled(l, s);
      var t := Apply(l, s, m);
      WorkNonNegative(l, s.waves);
      if t.fault {
        moves := [m];
        assert Legal(l, t, []) && moves[1..] == [];
      } else {
        MoveDecreasesWork(l, s, m);
        var rest := SomeRunEnds(l, t);
        moves := [m] + rest;
        assert moves[1..] == rest;
      }
    }
  }
}
