/** The row reduction kernel (examples/row_affine_u32.rs): 64 lanes transform up to 128 columns
    and reduce each row modulo 2^32. */
module RowAffine {
  import opened Words

  datatype Geometry = Geometry(blockX: nat, blockY: nat, blockZ: nat, gridX: nat, gridY: nat, gridZ: nat)

  datatype Args = Args(values: seq<U32>, offset: nat, rows: nat, columns: nat, stride: nat, scale: U32, bias: U32)

  /** What a constructed view promises: every row and column is inside the slice. */
  predicate ViewCovers(a: Args) {
    forall row, column :: 0 <= row < a.rows && 0 <= column < a.columns ==> Address(a, row, column) < |a.values|
  }

  function Address(a: Args, row: nat, column: nat): nat { a.offset + row * a.stride + column }

  /** The checks before any collective work; `viewOk` is the view constructor's answer. */
  predicate Traps(a: Args, outputLen: nat, g: Geometry, viewOk: bool) {
    || a.columns > 128 || outputLen < a.rows
    || g.blockX != 64 || g.blockY != 1 || g.blockZ != 1 || g.gridY != 1 || g.gridZ != 1
    || g.gridX < a.rows || !viewOk
  }

  // ---- What a row should be ----

  /** The wide sum of the first n columns of a row. */
  function RowSum(a: Args, row: nat, n: nat): nat
    requires ViewCovers(a) && row < a.rows && n <= a.columns
  { if n == 0 then 0 else RowSum(a, row, n - 1) + (a.values[Address(a, row, n - 1)] * a.scale + a.bias) }

  function ValueSum(a: Args, row: nat, n: nat): nat
    requires ViewCovers(a) && row < a.rows && n <= a.columns
  { if n == 0 then 0 else ValueSum(a, row, n - 1) + a.values[Address(a, row, n - 1)] }

  /** Spelled out: a row's sum takes its elements from the slice, one row stride apart from the rows
      before it, each scaled and biased. */
  lemma RowSumIs(a: Args, row: nat, n: nat)
    requires ViewCovers(a) && row < a.rows && n < a.columns
    ensures 0 <= a.offset + row * a.stride + n < |a.values|
    ensures RowSum(a, row, 0) == 0
    ensures RowSum(a, row, n + 1) == RowSum(a, row, n) + (a.values[a.offset + row * a.stride + n] * a.scale + a.bias)
  {
    assert Address(a, row, n) < |a.values|;
    hide ViewCovers;
  }

  /** Scale and bias can be taken out of the sum. */
  lemma {:induction false} RowSumIsAffine(a: Args, row: nat, n: nat)
    requires ViewCovers(a) && row < a.rows && n <= a.columns
    ensures RowSum(a, row, n) == a.scale * ValueSum(a, row, n) + n * a.bias
  {
    if n > 0 {
      RowSumIsAffine(a, row, n - 1);
      var v := a.values[Address(a, row, n - 1)];
      hide Address, ViewCovers;
      assert a.scale * (ValueSum(a, row, n - 1) + v) == a.scale * ValueSum(a, row, n - 1) + v * a.scale;
      assert (n - 1) * a.bias + a.bias == n * a.bias;
    }
  }

  // ---- Lanes ----

  /** One column's wrapping transform. */
  function Transform(v: U32, scale: U32, bias: U32): U32 { Add(Mul(v, scale), bias) }

  /** What lane l has summed for its row; a lane past the columns, or past the rows, has zero. */
  function Local(a: Args, row: nat, lane: nat): U32
    requires ViewCovers(a)
  {
    var first, second := lane * 2, lane * 2 + 1;
    var local :=
      if row < a.rows && first < a.columns then Transform(a.values[Address(a, row, first)], a.scale, a.bias) else 0;
    if row < a.rows && second < a.columns then
      Add(local, Transform(a.values[Address(a, row, second)], a.scale, a.bias))
    else local
  }

  method LaneSum(a: Args, row: nat, lane: nat) returns (local: U32)
    requires ViewCovers(a)
    ensures local == Local(a, row, lane)
  {
    hide Transform, Add, Address;
    var first := lane * 2;
    var second := first + 1;
    local := 0;
    if row < a.rows && first < a.columns {
      local := Transform(a.values[Address(a, row, first)], a.scale, a.bias);
    }
    if row < a.rows && second < a.columns {
      local := Add(local, Transform(a.values[Address(a, row, second)], a.scale, a.bias));
    }
  }

  // ---- The collective: any reduction tree ----

  datatype Tree = Leaf(lane: nat) | Node(left: Tree, right: Tree)

  function Leaves(t: Tree): seq<nat> {
    match t
    case Leaf(l) => [l]
    case Node(x, y) => Leaves(x) + Leaves(y)
  }

  /** Each of the 64 lanes takes part once. */
  ghost predicate Reduces(t: Tree) { forall l: nat :: multiset(Leaves(t))[l] == if l < 64 then 1 else 0 }

  function Lanes(n: nat): (r: seq<nat>)
    ensures |r| == n && forall i :: 0 <= i < n ==> r[i] == i
  { if n == 0 then [] else Lanes(n - 1) + [n - 1] }

  function At(locals: seq<U32>, i: nat): U32 { if i < |locals| then locals[i] else 0 }

  function TreeSum(t: Tree, locals: seq<U32>): U32 {
    match t
    case Leaf(l) => At(locals, l)
    case Node(x, y) => Add(TreeSum(x, locals), TreeSum(y, locals))
  }

  function Sum(order: seq<nat>, locals: seq<U32>): nat {
    if order == [] then 0 else At(locals, order[0]) + Sum(order[1..], locals)
  }

  lemma {:induction false} SumJoins(p: seq<nat>, q: seq<nat>, locals: seq<U32>)
    ensures Sum(p + q, locals) == Sum(p, locals) + Sum(q, locals)
  {
    if p == [] {
      assert p + q == q;
    } else {
      SumJoins(p[1..], q, locals);
      assert (p + q)[1..] == p[1..] + q;
    }
  }

  lemma LeafSum(l: nat, locals: seq<U32>)
    ensures Sum([l], locals) == At(locals, l)
  {
    assert Sum([l], locals) == At(locals, l) + Sum([], locals);
  }

  lemma {:induction false} TreeIsSum(t: Tree, locals: seq<U32>)
    ensures TreeSum(t, locals) == Wrap(Sum(Leaves(t), locals))
  {
    hide Add, Sum, Wrap, At;
    match t
    case Leaf(l) =>
      LeafSum(l, locals);
      WrapSmall(At(locals, l));
    case Node(x, y) =>
      TreeIsSum(x, locals);
      TreeIsSum(y, locals);
      SumJoins(Leaves(x), Leaves(y), locals);
      AddWraps(Sum(Leaves(x), locals), Sum(Leaves(y), locals));
  }

  /** The order of the leaves does not matter. */
  lemma {:induction false} SumPermutes(p: seq<nat>, q: seq<nat>, locals: seq<U32>)
    requires multiset(p) == multiset(q)
    ensures Sum(p, locals) == Sum(q, locals)
  {
    if p == [] {
      assert |multiset(q)| == |q|;
    } else {
      assert p == [p[0]] + p[1..];
      var before, after := TakeOut(q, p[0], p[1..]);
      SumPermutes(p[1..], before + after, locals);
      SumJoins(before, [p[0]] + after, locals);
      SumJoins(before, after, locals);
      assert ([p[0]] + after)[1..] == after;
    }
  }

  lemma FrontMultiset(x: nat, rest: seq<nat>)
    ensures multiset([x] + rest) == multiset{x} + multiset(rest)
  {
    assert multiset([x]) == multiset{x};
  }

  lemma TakeOut(q: seq<nat>, x: nat, rest: seq<nat>) returns (before: seq<nat>, after: seq<nat>)
    requires multiset([x] + rest) == multiset(q)
    ensures q == before + ([x] + after) && multiset(rest) == multiset(before + after)
  {
    assert x in multiset([x] + rest);
    var k :| 0 <= k < |q| && q[k] == x;
    before, after := q[..k], q[k + 1..];
    assert q == before + ([x] + after);
    FrontMultiset(x, rest);
    FrontMultiset(x, after);
    assert multiset(q) == multiset(before) + multiset([x] + after);
    assert multiset(before + after) == multiset(before) + multiset(after);
    assert multiset(before + after) == multiset(q) - multiset{x};
    assert multiset(rest) == multiset(q) - multiset{x};
  }

  // ---- The row's result ----

  /** One column's wide contribution to a row; columns and rows past the end give nothing. */
  function Term(a: Args, row: nat, column: nat): nat
    requires ViewCovers(a)
  { if row < a.rows && column < a.columns then a.values[Address(a, row, column)] * a.scale + a.bias else 0 }

  function TermSum(a: Args, row: nat, n: nat): nat
    requires ViewCovers(a)
  { if n == 0 then 0 else TermSum(a, row, n - 1) + Term(a, row, n - 1) }

  lemma TransformIsWide(a: Args, row: nat, column: nat)
    requires ViewCovers(a) && row < a.rows && column < a.columns
    ensures Transform(a.values[Address(a, row, column)], a.scale, a.bias) == Wrap(Term(a, row, column))
  {
    hide Add, Mul, Wrap, Address;
    MulAddWraps(a.values[Address(a, row, column)], a.scale, a.bias);
  }

  lemma PastTheEnd(a: Args, row: nat, column: nat)
    requires ViewCovers(a) && !(row < a.rows && column < a.columns)
    ensures Term(a, row, column) == 0 && Wrap(Term(a, row, column)) == 0
  {
  }

  /** A lane holds its two columns' contributions, modulo 2^32. */
  lemma LocalIsWide(a: Args, row: nat, lane: nat)
    requires ViewCovers(a)
    ensures Local(a, row, lane) == Wrap(Term(a, row, lane * 2) + Term(a, row, lane * 2 + 1))
  {
    hide Term, Transform, Address, ViewCovers, Add, Wrap;
    var first, second := lane * 2, lane * 2 + 1;
    AddWraps(Term(a, row, first), Term(a, row, second));
    if row < a.rows && first < a.columns { TransformIsWide(a, row, first); } else { PastTheEnd(a, row, first); }
    if row < a.rows && second < a.columns { TransformIsWide(a, row, second); } else { PastTheEnd(a, row, second); }
  }

  ghost predicate AreLocals(a: Args, row: nat, locals: seq<U32>)
    requires ViewCovers(a)
  { |locals| == 64 && forall l :: 0 <= l < 64 ==> locals[l] == Local(a, row, l) }

  lemma {:induction false} LanesCoverTerms(a: Args, row: nat, locals: seq<U32>, n: nat)
    requires ViewCovers(a) && AreLocals(a, row, locals) && n <= 64
    ensures Wrap(Sum(Lanes(n), locals)) == Wrap(TermSum(a, row, 2 * n))
  {
    hide Wrap, Term, AreLocals, ViewCovers;
    if n == 0 {
      assert Lanes(0) == [] && Sum([], locals) == 0 && TermSum(a, row, 0) == 0;
    } else {
      LanesCoverTerms(a, row, locals, n - 1);
      LanesStep(a, row, locals, n - 1);
    }
  }

  lemma LanesStep(a: Args, row: nat, locals: seq<U32>, n: nat)
    requires ViewCovers(a) && AreLocals(a, row, locals) && n < 64
    requires Wrap(Sum(Lanes(n), locals)) == Wrap(TermSum(a, row, 2 * n))
    ensures Wrap(Sum(Lanes(n + 1), locals)) == Wrap(TermSum(a, row, 2 * n + 2))
  {
    hide *;
    LaneStep(a, row, locals, n);
    TermStep(a, row, n);
    WrapSame(Sum(Lanes(n), locals), TermSum(a, row, 2 * n), Term(a, row, 2 * n) + Term(a, row, 2 * n + 1));
  }

  lemma LaneStep(a: Args, row: nat, locals: seq<U32>, n: nat)
    requires ViewCovers(a) && AreLocals(a, row, locals) && n < 64
    ensures Sum(Lanes(n + 1), locals) == Sum(Lanes(n), locals) + Wrap(Term(a, row, 2 * n) + Term(a, row, 2 * n + 1))
  {
    hide Sum, Lanes, Local, Term, Wrap, ViewCovers;
    assert At(locals, n) == Local(a, row, n);
    hide At, AreLocals;
    LocalIsWide(a, row, n);
    LaneAppends(n, locals);
  }

  lemma LaneAppends(n: nat, locals: seq<U32>)
    ensures Sum(Lanes(n + 1), locals) == Sum(Lanes(n), locals) + At(locals, n)
  {
    assert Lanes(n + 1) == Lanes(n) + [n];
    hide Lanes, Sum, At;
    SumJoins(Lanes(n), [n], locals);
    LeafSum(n, locals);
  }

  lemma TermStep(a: Args, row: nat, n: nat)
    requires ViewCovers(a)
    ensures TermSum(a, row, 2 * n + 2) == TermSum(a, row, 2 * n) + (Term(a, row, 2 * n) + Term(a, row, 2 * n + 1))
  {
    hide Term, ViewCovers;
    assert TermSum(a, row, 2 * n + 1) == TermSum(a, row, 2 * n) + Term(a, row, 2 * n);
  }

  lemma WrapSame(x: nat, y: nat, z: nat)
    requires Wrap(x) == Wrap(y)
    ensures Wrap(x + Wrap(z)) == Wrap(y + z)
  {
    hide Wrap;
    WrapOnce(z, x);
    WrapOnce(x, z);
    WrapOnce(y, z);
  }

  lemma {:induction false} TermsAreRow(a: Args, row: nat, n: nat)
    requires ViewCovers(a)
    ensures TermSum(a, row, n) == if row < a.rows then RowSum(a, row, if n <= a.columns then n else a.columns) else 0
  {
    hide Address, ViewCovers;
    if n > 0 { TermsAreRow(a, row, n - 1); }
  }

  /** What a group's collective should return: its row modulo 2^32, or zero past the rows. */
  function Result(a: Args, row: nat): U32
    requires ViewCovers(a)
  { if row < a.rows then Wrap(RowSum(a, row, a.columns)) else 0 }

  /** Main result on one group: whatever tree the collective uses, it returns the row's sum
      modulo 2^32, and zero for a surplus group. */
  lemma ReductionIsRowSum(a: Args, row: nat, locals: seq<U32>, t: Tree)
    requires ViewCovers(a) && AreLocals(a, row, locals) && a.columns <= 128 && Reduces(t)
    ensures TreeSum(t, locals) == Result(a, row)
  {
    hide AreLocals, ViewCovers, Leaves, TreeSum, Reduces, Sum, Lanes, TermSum, RowSum, Term;
    TreeIsSum(t, locals);
    LeavesSum(t, locals);
    LanesCoverTerms(a, row, locals, 64);
    TermsAreRow(a, row, 128);
  }

  lemma CountAppended(s: seq<nat>, x: nat, l: nat)
    ensures multiset(s + [x])[l] == multiset(s)[l] + if l == x then 1 else 0
  {
    assert multiset(s + [x]) == multiset(s) + multiset([x]);
  }

  lemma {:induction false} LaneOnce(n: nat, l: nat)
    ensures multiset(Lanes(n))[l] == if l < n then 1 else 0
  {
    if n > 0 {
      LaneOnce(n - 1, l);
      var front, last: nat := Lanes(n - 1), n - 1;
      assert Lanes(n) == front + [last];
      hide Lanes;
      CountAppended(front, last, l);
    }
  }

  lemma LeavesSum(t: Tree, locals: seq<U32>)
    requires Reduces(t)
    ensures Sum(Leaves(t), locals) == Sum(Lanes(64), locals)
  {
    hide Lanes, Leaves, Sum;
    forall l: nat ensures multiset(Lanes(64))[l] == if l < 64 then 1 else 0 { LaneOnce(64, l); }
    SumPermutes(Leaves(t), Lanes(64), locals);
  }

  // ---- The launch ----

  /** The output after one group. */
  function Store(a: Args, s: seq<U32>, row: nat): (r: seq<U32>)
    requires ViewCovers(a) && a.rows <= |s|
    ensures |r| == |s|
  { if row < a.rows then s[row := Result(a, row)] else s }

  /** One workgroup: 64 lane sums, the collective, and lane 0's guarded store. */
  method Group(a: Args, row: nat, t: Tree, output: array<U32>)
    requires ViewCovers(a) && a.columns <= 128 && a.rows <= output.Length && Reduces(t)
    modifies output
    ensures output[..] == Store(a, old(output[..]), row)
  {
    hide Result, ViewCovers, TreeSum, Reduces, Local;
    var locals: seq<U32> := [];
    for lane := 0 to 64
      invariant |locals| == lane && forall l :: 0 <= l < lane ==> locals[l] == Local(a, row, l)
      modifies {}
    {
      var local := LaneSum(a, row, lane);
      locals := locals + [local];
    }
    ReductionIsRowSum(a, row, locals, t);
    var sum := TreeSum(t, locals);
    if row < a.rows {
      output[row] := sum;
    }
  }

  /** Groups in `done` have stored their rows; nothing else has changed. */
  ghost predicate Stored(a: Args, before: seq<U32>, now: seq<U32>, done: set<nat>)
    requires ViewCovers(a)
  {
    |now| == |before| && forall row :: 0 <= row < |now| ==>
      now[row] == if row < a.rows && row in done then Result(a, row) else before[row]
  }

  lemma NothingStored(a: Args, before: seq<U32>)
    requires ViewCovers(a)
    ensures Stored(a, before, before, {})
  {
  }

  lemma StoredGrows(a: Args, before: seq<U32>, now: seq<U32>, done: set<nat>, row: nat)
    requires ViewCovers(a) && a.rows <= |before| && Stored(a, before, now, done)
    ensures Stored(a, before, Store(a, now, row), done + {row})
  {
    hide Result, ViewCovers;
  }

  lemma AllStored(a: Args, before: seq<U32>, now: seq<U32>, done: set<nat>)
    requires ViewCovers(a) && Stored(a, before, now, done) && forall row :: 0 <= row < a.rows ==> row in done
    ensures |now| == |before| && forall row :: 0 <= row < |now| ==>
      now[row] == if row < a.rows then RowSum(a, row, a.columns) % TWO32 else before[row]
  {
    hide RowSum, ViewCovers;
  }

  method RunGroups(a: Args, groups: seq<nat>, trees: seq<Tree>, output: array<U32>) returns (ghost done: set<nat>)
    requires ViewCovers(a) && a.columns <= 128 && a.rows <= output.Length
    requires |groups| == |trees| && forall i :: 0 <= i < |trees| ==> Reduces(trees[i])
    modifies output
    ensures Stored(a, old(output[..]), output[..], done) && forall i :: 0 <= i < |groups| ==> groups[i] in done
  {
    hide *;
    ghost var before := output[..];
    done := {};
    NothingStored(a, before);
    for i := 0 to |groups|
      invariant Stored(a, before, output[..], done)
      invariant forall k :: 0 <= k < i ==> groups[k] in done
    {
      StoredGrows(a, before, output[..], done, groups[i]);
      Group(a, groups[i], trees[i], output);
      done := done + {groups[i]};
    }
  }

  /** Main result: a launch over the groups of the grid, in any order, each with any reduction
      tree. Either it traps before any store, or every row holds its sum modulo 2^32 and every
      other element keeps its value. */
  method Launch(a: Args, g: Geometry, viewOk: bool, groups: seq<nat>, trees: seq<Tree>, output: array<U32>)
    returns (trapped: bool)
    requires viewOk ==> ViewCovers(a)
    requires |groups| == |trees| && forall i :: 0 <= i < |trees| ==> Reduces(trees[i])
    requires forall row :: 0 <= row < g.gridX ==> row in groups
    modifies output
    ensures trapped <==> Traps(a, output.Length, g, viewOk)
    ensures !trapped ==>
      && a.columns <= 128 && a.rows <= output.Length && a.rows <= g.gridX && viewOk
      && g.blockX == 64 && g.blockY == g.blockZ == g.gridY == g.gridZ == 1
    ensures trapped ==>
      || a.columns > 128 || a.rows > output.Length || a.rows > g.gridX || !viewOk
      || g.blockX != 64 || g.blockY != 1 || g.blockZ != 1 || g.gridY != 1 || g.gridZ != 1
    ensures trapped ==> output[..] == old(output[..])
    ensures !trapped ==> forall row :: 0 <= row < output.Length ==>
      output[row] == if row < a.rows then RowSum(a, row, a.columns) % TWO32 else old(output[row])
  {
    if Traps(a, output.Length, g, viewOk) { return true; }
    hide RowSum, ViewCovers, Stored, Reduces;
    ghost var before := output[..];
    ghost var done := RunGroups(a, groups, trees, output);
    forall row | 0 <= row < a.rows ensures row in done {
      assert row in groups;
      var i :| 0 <= i < |groups| && groups[i] == row;
      assert groups[i] in done;
    }
    AllStored(a, before, output[..], done);
    assert forall row :: 0 <= row < output.Length ==> output[row] == output[..][row];
    return false;
  }

  /** Main result, the affine form: scale times the row's sum plus one bias per column. */
  lemma RowResult(a: Args, row: nat)
    requires ViewCovers(a) && row < a.rows
    ensures Result(a, row) == (a.scale * ValueSum(a, row, a.columns) + a.columns * a.bias) % TWO32
  {
    RowSumIsAffine(a, row, a.columns);
  }
}
