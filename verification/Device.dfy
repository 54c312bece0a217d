/** The machine as an object that a scheduler drives: every move updates the device in place,
    and any picking policy runs a launch to its end. */
module Device {
  import opened Words
  import opened Machine
  import CopyKernels
  import ScalarFill
  import opened MaskedStore

  lemma {:induction false} LegalAppend(l: Launch, s: State, moves: seq<Move>, m: Move)
    requires l.Valid() && Legal(l, s, moves) && Enabled(l, After(l, s, moves), m)
    ensures Legal(l, s, moves + [m]) && After(l, s, moves + [m]) == Apply(l, After(l, s, moves), m)
    decreases moves
  {
    hide Enabled, Apply;
    if moves == [] {
      assert [m][1..] == [];
      assert moves + [m] == [m];
    } else {
      LegalAppend(l, Apply(l, s, moves[0]), moves[1..], m);
      assert (moves + [m])[1..] == moves[1..] + [m];
    }
  }

  /** No move of this wave alone is enabled: it ended or waits at a barrier with nothing left. */
  predicate Settled(l: Launch, w: Wave) {
    w.outstanding == {} && (w.pc >= |l.code| || Waiting(l, w))
  }

  function Released(l: Launch, w: Wave, i: nat, g: nat): Wave
    requires l.Valid()
  { if InGroup(l, i, g) && Waiting(l, w) then w.(pc := w.pc + 1, arrived := false) else w }

  class Device {
    const launch: Launch
    var waves: seq<Wave>
    var lds: seq<Memory>
    var mem: Memory
    var fault: bool

    ghost function View(): State
      reads this
    { State(waves, lds, mem, fault) }

    constructor (l: Launch, s: State)
      ensures launch == l && View() == s
    {
      launch := l;
      waves, lds, mem, fault := s.waves, s.lds, s.mem, s.fault;
    }

    /** Takes one move in place. */
    method Take(m: Move)
      requires launch.Valid() && Enabled(launch, View(), m)
      modifies this
      ensures View() == Apply(launch, old(View()), m)
    {
      match m
      case IssueNext(i) => waves := waves[i := Issue(launch.code[waves[i].pc], waves[i])];
      case Arrive(i) => waves := waves[i := waves[i].(arrived := true)];
      case Release(g) =>
        ghost var before := waves;
        var i := 0;
        while i < |waves|
          invariant 0 <= i <= |waves| == |before|
          invariant lds == old(lds) && mem == old(mem) && fault == old(fault)
          invariant forall k :: i <= k < |waves| ==> waves[k] == before[k]
          invariant forall k :: 0 <= k < i ==> waves[k] == Released(launch, before[k], k, g)
        {
          waves := waves[i := Released(launch, waves[i], i, g)];
          i := i + 1;
        }
      case Finish(i, a) => Complete(i, a);
    }

    /** One lane's access reaches memory or its register, or faults. */
    method Complete(i: nat, a: Access)
      requires launch.Valid() && Enabled(launch, View(), Finish(i, a))
      modifies this
      ensures View() == FinishAccess(launch, old(View()), i, a)
    {
      var w := waves[i].(outstanding := waves[i].outstanding - {a});
      var g := i / launch.wavesPerGroup;
      match a {
        case ScalarLoadAccess(_, _, dst, word) =>
          if word < |launch.kernarg| { waves := waves[i := w.(s := w.s[dst := launch.kernarg[word]])]; }
          else { fault := true; }
        case GlobalLoadAccess(_, lane, dst, address) =>
          var r := WordAt(mem, address);
          if lane < 64 && r.Some? { waves := waves[i := w.(v := w.v[dst := w.v[dst][lane := r.value]])]; }
          else { fault := true; }
        case GlobalStoreAccess(_, _, address, data) =>
          if Mapped(mem, address) { waves, mem := waves[i := w], PutWord(mem, address, data); }
          else { fault := true; }
        case DsWriteAccess(_, _, at, data) =>
          if g < |lds| && Mapped(lds[g], at) { waves, lds := waves[i := w], lds[g := PutWord(lds[g], at, data)]; }
          else { fault := true; }
        case DsReadAccess(_, lane, dst, at) =>
          if lane < 64 && g < |lds| && WordAt(lds[g], at).Some? {
            waves := waves[i := w.(v := w.v[dst := w.v[dst][lane := WordAt(lds[g], at).value]])];
          } else { fault := true; }
      }
    }

    /** A move of wave i alone, if it has one; the preference decides whether an outstanding
        access or the next instruction goes first. */
    method PickFrom(i: nat, finishFirst: bool) returns (m: Option<Move>)
      requires launch.Valid() && !fault && i < |waves|
      ensures m.Some? ==> Enabled(launch, View(), m.value)
      ensures m.None? ==> Settled(launch, waves[i])
    {
      var w := waves[i];
      if w.outstanding != {} && (finishFirst || !CanIssue(launch, w)) {
        var a :| a in w.outstanding;
        return Some(Finish(i, a));
      } else if CanIssue(launch, w) {
        return Some(IssueNext(i));
      } else if AtBarrier(launch, w) && !w.arrived {
        return Some(Arrive(i));
      }
      return None;
    }

    /** Some enabled move, trying wave `first` before the others; none only when all have ended. */
    method Pick(first: nat, finishFirst: bool) returns (m: Option<Move>)
      requires launch.Valid() && !fault
      ensures m.Some? ==> Enabled(launch, View(), m.value)
      ensures m.None? ==> Finished(launch, View())
    {
      if first < |waves| {
        m := PickFrom(first, finishFirst);
        if m.Some? { return; }
      }
      var i: nat, waiting: nat := 0, |waves|;
      while i < |waves|
        invariant 0 <= i <= |waves| && waiting <= |waves|
        invariant forall k :: 0 <= k < i ==> Settled(launch, waves[k])
        invariant waiting < |waves| ==> Waiting(launch, waves[waiting])
        invariant waiting == |waves| ==> forall k :: 0 <= k < i ==> waves[k].pc >= |launch.code|
      {
        m := PickFrom(i, finishFirst);
        if m.Some? { return; }
        if waves[i].pc < |launch.code| { waiting := i; }
        i := i + 1;
      }
      if waiting < |waves| {
        assert InGroup(launch, waiting, waiting / launch.wavesPerGroup);
        return Some(Release(waiting / launch.wavesPerGroup));
      }
      return None;
    }

    /** Runs the launch to its end under the given picks. It stops for every pick sequence. */
    method Run(picks: seq<(nat, bool)>) returns (ghost moves: seq<Move>)
      requires launch.Valid() && InCode(launch, waves)
      modifies this
      ensures Legal(launch, old(View()), moves) && View() == After(launch, old(View()), moves)
      ensures fault || Finished(launch, View())
    {
      ghost var start := View();
      var turn := 0;
      moves := [];
      while !fault
        invariant InCode(launch, waves) || fault
        invariant Legal(launch, start, moves) && View() == After(launch, start, moves)
        decreases !fault, if InCode(launch, waves) then Work(launch, waves) else 0
      {
        WorkNonNegative(launch, waves);
        var pick := if turn < |picks| then picks[turn] else (0, true);
        var m := Pick(pick.0, pick.1);
        if m.None? { return; }
        LegalAppend(launch, start, moves, m.value);
        moves := moves + [m.value];
        if !Apply(launch, View(), m.value).fault { MoveDecreasesWork(launch, View(), m.value); }
        Take(m.value);
        turn := turn + 1;
      }
    }
  }

  /** Runs the exchange or the copy on a device, whatever the picks, and leaves its result. */
  method RunCopy(e: CopyKernels.Env, s: State, picks: seq<(nat, bool)>) returns (mem: Memory)
    requires e.Valid() && CopyKernels.Init(e, s)
    ensures CopyKernels.Result(e, mem)
    ensures var lanes := if e.kind.Exchange? then 128 else 64 * e.groups;
      && (forall x: nat :: x < lanes && x < e.outLen ==> CopiedWord(e, mem, x))
      && (forall a :: a in e.mem && (forall x: nat :: x < lanes && x < e.outLen ==> !InWord(e.outBase, x, a)) ==>
            a in mem && mem[a] == e.mem[a])
  {
    hide CopyKernels.Result, CopyKernels.LaneOk, CopyKernels.ScalarsOk, CopyKernels.AccessOk, CopiedWord, InWord;
    CopyKernels.InitInv(e, s);
    CopyKernels.InvInCode(e, s);
    var d := new Device(e.Launch(), s);
    ghost var moves := d.Run(picks);
    CopyKernels.EveryRunCopies(e, s, moves);
    mem := d.mem;
    ResultMeans(e, mem);
  }

  /** Output word x holds the input word of its own index, or in the exchange that of the index 64
      further or 64 back. */
  ghost predicate CopiedWord(e: CopyKernels.Env, mem: Memory, x: nat) {
    var y: int := if !e.kind.Exchange? then x else if x < 64 then x + 64 else x - 64;
    WordAt(mem, e.outBase + 4 * x) == WordAt(e.mem, (e.inBase + 4 * y) % 0x1_0000_0000_0000_0000)
  }

  lemma ResultAt(e: CopyKernels.Env, mem: Memory, x: nat)
    requires e.Fits() && CopyKernels.Result(e, mem) && x < e.Count() && x < e.outLen
    ensures var y := if e.kind.Exchange? then Xor(x, 64) else x;
      y < e.Count() && WordAt(mem, e.OutAt(x)) == Machine.Option.Some(e.In(y))
  {
    hide WordAt, Xor, CopyKernels.InOutput;
  }

  lemma InputIs(e: CopyKernels.Env, y: nat)
    requires e.Initialised() && y < e.Count()
    ensures WordAt(e.mem, e.InAt(y)) == Machine.Option.Some(e.In(y))
  {
    hide WordAt;
    assert WordAt(e.mem, e.InAt(y)).Some?;
  }

  lemma CopiedFrom(e: CopyKernels.Env, mem: Memory, x: nat, y: nat)
    requires WordAt(mem, e.OutAt(x)) == WordAt(e.mem, e.InAt(y))
    requires y == if !e.kind.Exchange? then x else if x < 64 then x + 64 else x - 64
    ensures CopiedWord(e, mem, x)
  {
    hide WordAt;
  }

  lemma CopiedIs(e: CopyKernels.Env, mem: Memory, x: nat)
    requires e.Valid() && CopyKernels.Result(e, mem) && x < e.Count() && x < e.outLen
    ensures CopiedWord(e, mem, x)
  {
    assert e.Fits() && e.Initialised() && (e.kind.Exchange? ==> e.Count() == 128);
    assert e.kind.Exchange? ==> CopyKernels.Peer(x) == if x < 64 then x + 64 else x - 64;
    if e.kind.Exchange? { CopyKernels.PeerIsXor64(x); }
    hide *;
    ResultAt(e, mem, x);
    var y := if !e.kind.Exchange? then x else if x < 64 then x + 64 else x - 64;
    InputIs(e, y);
    CopiedFrom(e, mem, x, y);
  }

  lemma FrameIs(e: CopyKernels.Env, mem: Memory, a: int)
    requires e.Fits() && CopyKernels.Result(e, mem) && a in e.mem && !CopyKernels.InOutput(e, a)
    ensures a in mem && mem[a] == e.mem[a]
  {
    hide WordAt, Xor, CopyKernels.InOutput;
  }

  lemma ResultMeans(e: CopyKernels.Env, mem: Memory)
    requires e.Valid() && CopyKernels.Result(e, mem)
    ensures var lanes := if e.kind.Exchange? then 128 else 64 * e.groups;
      && (forall x: nat :: x < lanes && x < e.outLen ==> CopiedWord(e, mem, x))
      && (forall a :: a in e.mem && (forall x: nat :: x < lanes && x < e.outLen ==> !InWord(e.outBase, x, a)) ==>
            a in mem && mem[a] == e.mem[a])
  {
    assert e.Count() == if e.kind.Exchange? then 128 else 64 * e.groups;
    hide CopiedWord, InWord, CopyKernels.Result, CopyKernels.InOutput;
    forall x: nat | x < e.Count() && x < e.outLen ensures CopiedWord(e, mem, x) { CopiedIs(e, mem, x); }
    forall a | a in e.mem && (forall x: nat :: x < e.Count() && x < e.outLen ==> !InWord(e.outBase, x, a))
      ensures a in mem && mem[a] == e.mem[a]
    {
      OutsideOutput(e, a);
      FrameIs(e, mem, a);
    }
  }

  lemma OutsideOutput(e: CopyKernels.Env, a: int)
    requires forall x: nat :: x < e.Count() && x < e.outLen ==> !InWord(e.outBase, x, a)
    ensures !CopyKernels.InOutput(e, a)
  {
    if CopyKernels.InOutput(e, a) {
      var x: nat :| x < e.Count() && x < e.outLen && e.OutAt(x) <= a < e.OutAt(x) + 4;
      assert InWord(e.outBase, x, a);
    }
  }

  /** Runs the fill on a device, whatever the picks. */
  method RunFill(e: ScalarFill.Env, s: State, picks: seq<(nat, bool)>) returns (mem: Memory)
    requires e.Valid() && ScalarFill.Init(e, s)
    ensures forall x: nat :: x < 64 * e.groups && x < e.len ==> WordAt(mem, e.base + 4 * x) == Some(e.a)
    ensures FrameOk(e.Out(), mem)
    ensures forall x: nat :: x < 64 * e.groups && x < e.len ==> Filled(mem, e.base + 4 * x, e.a)
    ensures forall a :: a in e.mem && (forall x: nat :: x < 64 * e.groups && x < e.len ==> !InWord(e.base, x, a)) ==>
      a in mem && mem[a] == e.mem[a]
  {
    hide ScalarFill.LaneOk, ScalarFill.ScalarsOk, ScalarFill.AccessOk, WordAt, FrameOk, Filled, InWord;
    ScalarFill.InitInv(e, s);
    ScalarFill.InvInCode(e, s);
    var d := new Device(e.Launch(), s);
    ghost var moves := d.Run(picks);
    ScalarFill.EveryRunFills(e, s, moves);
    mem := d.mem;
    FillMeans(e, mem);
  }

  /** The four bytes from address p on are those of w, lowest first. */
  ghost predicate Filled(mem: Memory, p: int, w: U32) {
    && p in mem && p + 1 in mem && p + 2 in mem && p + 3 in mem
    && mem[p] == Stored(w % 256) && mem[p + 1] == Stored(w / 256 % 256)
    && mem[p + 2] == Stored(w / 65_536 % 256) && mem[p + 3] == Stored(w / 16_777_216)
  }

  lemma FillMeans(e: ScalarFill.Env, mem: Memory)
    requires forall x: nat :: x < 64 * e.groups && x < e.len ==> WordAt(mem, e.base + 4 * x) == Machine.Option.Some(e.a)
    requires FrameOk(e.Out(), mem)
    ensures forall x: nat :: x < 64 * e.groups && x < e.len ==> Filled(mem, e.base + 4 * x, e.a)
    ensures forall a :: a in e.mem && (forall x: nat :: x < 64 * e.groups && x < e.len ==> !InWord(e.base, x, a)) ==>
      a in mem && mem[a] == e.mem[a]
  {
    hide WordAt, FrameOk, InWord;
    forall x: nat | x < 64 * e.groups && x < e.len ensures Filled(mem, e.base + 4 * x, e.a) {
      WordBytes(mem, e.base + 4 * x, e.a);
    }
    forall a | a in e.mem && (forall x: nat :: x < 64 * e.groups && x < e.len ==> !InWord(e.base, x, a))
      ensures a in mem && mem[a] == e.mem[a]
    {
      FrameSpelled(e.Out(), mem, a);
    }
  }
}
