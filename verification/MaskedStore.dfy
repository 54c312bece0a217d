/** The output side every authored kernel shares: lane x may store one word at base + 4x when
    x is below the output length, and nothing else in memory is ever written. */
module MaskedStore {
  import opened Words
  import opened Machine

  predicate AllOn(m: Mask) { forall l :: 0 <= l < 64 ==> m[l] }

  /** The index of lane l of wave i. */
  function Gid(i: nat, l: nat): nat { 64 * i + l }

  /** The low half of base + 4x and the carry out of it. */
  predicate LowAdded(base: U64, x: U32, low: U32, carry: bool) {
    low == Add32(Lo(base), Lo(4 * x), false) && carry == Carry32(Lo(base), Lo(4 * x), false)
  }

  /** values[x] is what lane x is to store; mem is memory as the launch finds it. */
  datatype Window = Window(base: U64, len: U64, mem: Memory, values: seq<U32>) {
    predicate Stores(x: nat) { x < |values| && x < len }

    function At(x: nat): int { base + 4 * x }

    /** The host maps every word some lane stores, below 2^64. */
    ghost predicate Valid() {
      && (forall a :: a in mem ==> 0 <= a < TWO64)
      && (forall x: nat {:trigger At(x)} :: Stores(x) ==> Mapped(mem, At(x)))
    }

    ghost predicate Covers(a: int) {
      exists x: nat {:trigger At(x)} :: Stores(x) && At(x) <= a < At(x) + 4
    }
  }

  /** Lane x's store, issued at program counter pc. */
  function StoreOf(o: Window, pc: nat, x: nat): Access
    requires o.Stores(x)
  { GlobalStoreAccess(pc, x % 64, o.At(x) % TWO64, o.values[x]) }

  lemma StoreAddress(o: Window, x: nat)
    requires o.Valid() && o.Stores(x)
    ensures o.At(x) % TWO64 == o.At(x) && Mapped(o.mem, o.At(x))
  {
    assert Mapped(o.mem, o.At(x));
  }

  ghost predicate SameWord(before: Memory, after: Memory, a: int)
    requires Mapped(before, a)
  {
    && Mapped(after, a) && after[a] == before[a] && after[a + 1] == before[a + 1]
    && after[a + 2] == before[a + 2] && after[a + 3] == before[a + 3]
  }

  /** Output word x belongs to lane x: untouched until that lane's own store lands, and the
      lane's value from then on. */
  ghost predicate WordOk(o: Window, pc: nat, owner: Wave, mem: Memory, x: nat)
    requires o.Valid() && o.Stores(x)
  {
    StoreAddress(o, x);
    && (owner.pc <= pc ==> SameWord(o.mem, mem, o.At(x)))
    && (owner.pc == pc + 1 ==>
          || (SameWord(o.mem, mem, o.At(x)) && StoreOf(o, pc, x) in owner.outstanding)
          || WordAt(mem, o.At(x)) == Some(o.values[x]))
    && (owner.pc > pc + 1 ==> WordAt(mem, o.At(x)) == Some(o.values[x]))
  }

  ghost predicate FrameOk(o: Window, mem: Memory) {
    && mem.Keys == o.mem.Keys
    && (forall a :: a in o.mem && !o.Covers(a) ==> mem[a] == o.mem[a])
  }

  /** Byte a belongs to the word at base + 4x. */
  predicate InWord(base: U64, x: nat, a: int) { base + 4 * x <= a < base + 4 * x + 4 }

  lemma FrameSpelled(o: Window, mem: Memory, a: int)
    requires FrameOk(o, mem) && a in o.mem
    requires forall x: nat :: x < |o.values| && x < o.len ==> !InWord(o.base, x, a)
    ensures a in mem && mem[a] == o.mem[a]
  {
    if x: nat :| o.Stores(x) && o.At(x) <= a < o.At(x) + 4 { assert InWord(o.base, x, a); }
    assert !o.Covers(a);
  }

  ghost predicate MemOk(o: Window, pc: nat, waves: seq<Wave>, mem: Memory)
    requires o.Valid() && |o.values| == 64 * |waves|
  {
    && FrameOk(o, mem)
    && (forall x: nat :: o.Stores(x) ==> WordOk(o, pc, waves[x / 64], mem, x))
  }

  lemma StartOk(o: Window, pc: nat, waves: seq<Wave>)
    requires o.Valid() && |o.values| == 64 * |waves|
    requires forall i :: 0 <= i < |waves| ==> waves[i].pc <= pc
    ensures MemOk(o, pc, waves, o.mem)
  {
    forall x: nat | o.Stores(x) ensures WordOk(o, pc, waves[x / 64], o.mem, x) {
      StoreAddress(o, x);
    }
  }

  /** A wave that moves on without finishing a store: if it passes the store it has issued it,
      and if it passes the wait after it nothing of it is left. */
  lemma WaveMoves(o: Window, pc: nat, waves: seq<Wave>, mem: Memory, i: nat, n: Wave)
    requires o.Valid() && |o.values| == 64 * |waves| && i < |waves| && MemOk(o, pc, waves, mem)
    requires n.pc == waves[i].pc || n.pc == waves[i].pc + 1
    requires waves[i].pc == pc && n.pc == pc + 1 ==>
      forall x: nat :: o.Stores(x) && x / 64 == i ==> StoreOf(o, pc, x) in n.outstanding
    requires n.pc == pc + 1 && waves[i].pc == pc + 1 ==>
      forall x: nat :: o.Stores(x) && StoreOf(o, pc, x) in waves[i].outstanding ==> StoreOf(o, pc, x) in n.outstanding
    requires waves[i].pc == pc + 1 && n.pc == pc + 2 ==>
      forall x: nat :: o.Stores(x) ==> StoreOf(o, pc, x) !in waves[i].outstanding
    ensures MemOk(o, pc, waves[i := n], mem)
  {
    hide SameWord, WordAt, FrameOk;
    forall x: nat | o.Stores(x) ensures WordOk(o, pc, waves[i := n][x / 64], mem, x) {
      assert WordOk(o, pc, waves[x / 64], mem, x);
    }
  }

  /** Lane x's store lands. */
  lemma StoreLands(o: Window, pc: nat, waves: seq<Wave>, mem: Memory, x: nat, n: Wave)
    requires o.Valid() && |o.values| == 64 * |waves| && o.Stores(x) && MemOk(o, pc, waves, mem)
    requires StoreOf(o, pc, x) in waves[x / 64].outstanding && waves[x / 64].pc == pc + 1
    requires n.pc == pc + 1 && n.outstanding == waves[x / 64].outstanding - {StoreOf(o, pc, x)}
    ensures Mapped(mem, o.At(x))
    ensures MemOk(o, pc, waves[x / 64 := n], PutWord(mem, o.At(x), o.values[x]))
  {
    StoreFrame(o, mem, x);
    forall y: nat | o.Stores(y)
      ensures WordOk(o, pc, waves[x / 64 := n][y / 64], PutWord(mem, o.At(x), o.values[x]), y)
    {
      OtherWord(o, pc, waves[y / 64], if x / 64 == y / 64 then n else waves[y / 64], mem, x, y);
    }
  }

  lemma StoreFrame(o: Window, mem: Memory, x: nat)
    requires o.Valid() && o.Stores(x) && FrameOk(o, mem)
    ensures Mapped(mem, o.At(x)) && FrameOk(o, PutWord(mem, o.At(x), o.values[x]))
  {
    StoreAddress(o, x);
    PutFrame(mem, o.At(x), o.values[x]);
    hide PutWord;
    forall b | b in o.mem && !o.Covers(b) ensures PutWord(mem, o.At(x), o.values[x])[b] == o.mem[b] {
      assert !(o.At(x) <= b < o.At(x) + 4);
    }
  }

  lemma OtherWord(o: Window, pc: nat, owner: Wave, n: Wave, mem: Memory, x: nat, y: nat)
    requires o.Valid() && o.Stores(x) && o.Stores(y) && Mapped(mem, o.At(x))
    requires WordOk(o, pc, owner, mem, y) && n.pc == owner.pc
    requires x == y ==> n.pc == pc + 1
    requires n.outstanding == owner.outstanding || n.outstanding == owner.outstanding - {StoreOf(o, pc, x)}
    ensures WordOk(o, pc, n, PutWord(mem, o.At(x), o.values[x]), y)
  {
    StoreAddress(o, x);
    StoreAddress(o, y);
    if x == y {
      hide SameWord;
      PutThenRead(mem, o.At(x), o.values[x]);
    } else {
      PutKeepsApart(mem, o.At(x), o.values[x], o.At(y));
      assert StoreOf(o, pc, x) != StoreOf(o, pc, y);
      hide WordAt;
    }
  }

  /** What an ended launch leaves in memory: each stored word, and every other byte as it was. */
  ghost predicate Written(o: Window, mem: Memory) {
    && (forall x: nat :: o.Stores(x) ==> WordAt(mem, o.At(x)) == Some(o.values[x]))
    && FrameOk(o, mem)
  }

  lemma EndedWritten(o: Window, pc: nat, waves: seq<Wave>, mem: Memory)
    requires o.Valid() && |o.values| == 64 * |waves| && MemOk(o, pc, waves, mem)
    requires forall i :: 0 <= i < |waves| ==> waves[i].pc > pc + 1
    ensures Written(o, mem)
  {
    hide WordAt, FrameOk;
    forall x: nat | o.Stores(x) ensures WordAt(mem, o.At(x)) == Some(o.values[x]) {
      assert WordOk(o, pc, waves[x / 64], mem, x);
    }
  }

  /** A word apart from every stored word keeps its contents, or stays unreadable. */
  lemma ApartUntouched(o: Window, mem: Memory, a: int)
    requires FrameOk(o, mem)
    requires forall x: nat {:trigger o.At(x)} :: o.Stores(x) ==> a + 4 <= o.At(x) || o.At(x) + 4 <= a
    ensures WordAt(mem, a) == WordAt(o.mem, a)
  {
    assert !o.Covers(a) && !o.Covers(a + 1) && !o.Covers(a + 2) && !o.Covers(a + 3);
  }
}
