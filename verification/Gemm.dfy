/** The dynamic tiled GEMM kernel (examples/tiled_gemm_general_v1/benchmark_hip.cpp) over exact
    arithmetic: one 64-lane workgroup per 16 x 16 tile of C, depth in phases of 16 with the
    tails filled by zeros, and a guarded alpha/beta epilogue. */
module Gemm {
  import opened Words

  datatype Shape = Shape(m: U32, n: U32, k: U32, lda: U32, ldb: U32, ldc: U32)

  function Wrap64(x: int): U64
    ensures 0 <= x < TWO64 ==> Wrap64(x) == x
  { if 0 <= x < TWO64 then x else x % TWO64 }

  // ---- Admission ----

  predicate InvalidStride(s: Shape) {
    (s.m != 0 && s.k != 0 && s.lda < s.k) || (s.k != 0 && s.n != 0 && s.ldb < s.n)
    || (s.m != 0 && s.n != 0 && s.ldc < s.n)
  }

  /** Elements a rows x columns view with this stride spans, in 64-bit arithmetic. */
  function Extent(rows: U32, columns: U32, stride: U32): U64 {
    if rows == 0 || columns == 0 then 0 else Wrap64(Wrap64((rows - 1) * stride) + columns)
  }

  predicate Admitted(s: Shape, aLen: nat, bLen: nat, cLen: nat) {
    && !InvalidStride(s)
    && aLen >= Extent(s.m, s.k, s.lda) && bLen >= Extent(s.k, s.n, s.ldb) && cLen >= Extent(s.m, s.n, s.ldc)
  }

  /** The kernel runs exactly when every operand that has elements has rows apart by at least its
      columns and reaches as far as its last row does. */
  lemma AdmittedIff(s: Shape, aLen: nat, bLen: nat, cLen: nat)
    ensures Admitted(s, aLen, bLen, cLen) <==>
      && (s.m > 0 && s.k > 0 ==> s.k <= s.lda && (s.m - 1) * s.lda + s.k <= aLen)
      && (s.k > 0 && s.n > 0 ==> s.n <= s.ldb && (s.k - 1) * s.ldb + s.n <= bLen)
      && (s.m > 0 && s.n > 0 ==> s.n <= s.ldc && (s.m - 1) * s.ldc + s.n <= cLen)
  {
    if s.m > 0 && s.k > 0 { ExtentExact(s.m, s.k, s.lda); }
    if s.k > 0 && s.n > 0 { ExtentExact(s.k, s.n, s.ldb); }
    if s.m > 0 && s.n > 0 { ExtentExact(s.m, s.n, s.ldc); }
    ExtentEmpty(s);
    hide Extent;
  }

  lemma ExtentEmpty(s: Shape)
    ensures s.m == 0 || s.k == 0 ==> Extent(s.m, s.k, s.lda) == 0
    ensures s.k == 0 || s.n == 0 ==> Extent(s.k, s.n, s.ldb) == 0
    ensures s.m == 0 || s.n == 0 ==> Extent(s.m, s.n, s.ldc) == 0
  {
  }

  /** The address of (row, column), in 64-bit arithmetic. */
  function Index(row: nat, column: nat, stride: U32): U64 { Wrap64(Wrap64(row * stride) + column) }

  lemma ProductBound(x: nat, y: nat, xMax: nat, yMax: nat)
    requires x <= xMax && y <= yMax
    ensures 0 <= x * y <= xMax * yMax
  {
    assert x * y <= xMax * y;
    assert xMax * y <= xMax * yMax;
  }

  lemma ProductFits(x: nat, y: nat)
    requires x < 0xffff_ffff && y <= 0xffff_ffff
    ensures 0 <= x * y && x * y + 0xffff_ffff < TWO64
  {
    ProductBound(x, y, 0xffff_fffe, 0xffff_ffff);
  }

  /** No extent wraps. */
  lemma ExtentExact(rows: U32, columns: U32, stride: U32)
    requires rows != 0 && columns != 0
    ensures Extent(rows, columns, stride) == (rows - 1) * stride + columns
  {
    hide Wrap64;
    ProductFits(rows - 1, stride);
  }

  /** Every guarded access is inside its validated extent and its address does not wrap. */
  lemma AccessInBounds(rows: U32, columns: U32, stride: U32, row: nat, column: nat)
    requires row < rows && column < columns && columns <= stride
    ensures Index(row, column, stride) == row * stride + column < Extent(rows, columns, stride)
  {
    hide Wrap64, Extent;
    ExtentExact(rows, columns, stride);
    ProductBound(row, stride, rows - 1, stride);
    ProductFits(row, stride);
  }

  /** Distinct elements have distinct addresses; the address gives the element back. */
  lemma IndexSplits(row: nat, column: nat, stride: nat)
    requires column < stride
    ensures (row * stride + column) / stride == row && (row * stride + column) % stride == column
  {
    QuotientIs(row * stride + column, stride, row, column);
  }

  // ---- Coordinates ----

  const MAX_TILES: nat := 0x400_0000

  /** The launch index of a thread: 32-bit unsigned arithmetic, so it wraps. */
  function RawIndex(block: nat, thread: nat): U32 { (block * 64 + thread) % TWO32 }

  /** The tile a block's 32-bit launch index names. */
  function BlockTile(block: nat): nat { block % MAX_TILES }

  function TilesPerRow(s: Shape): nat { (s.n + 15) / 16 }

  function Tiles(s: Shape): nat { ((s.m + 15) / 16) * TilesPerRow(s) }

  function TileRow(s: Shape, tile: nat): nat
    requires s.n > 0
  { tile / TilesPerRow(s) }

  function TileColumn(s: Shape, tile: nat): nat
    requires s.n > 0
  { tile % TilesPerRow(s) }

  function Row(s: Shape, tile: nat, lane: nat, component: nat): nat
    requires s.n > 0
  { TileRow(s, tile) * 16 + lane / 16 * 4 + component }

  function Column(s: Shape, tile: nat, lane: nat): nat
    requires s.n > 0
  { TileColumn(s, tile) * 16 + lane % 16 }

  lemma RawIndexSplits(block: nat, thread: nat)
    requires thread < 64
    ensures RawIndex(block, thread) % 64 == thread && RawIndex(block, thread) / 64 == BlockTile(block)
  {
    var q, r := block / MAX_TILES, block % MAX_TILES;
    assert block * 64 + thread == q * TWO32 + (r * 64 + thread);
    QuotientIs(block * 64 + thread, TWO32, q, r * 64 + thread);
  }

  /** No coordinate of a named tile, and no depth of a phase, leaves 64 bits: over the integers
      they are what the kernel computes. */
  lemma CoordinatesFit(s: Shape, block: nat, lane: nat, component: nat, phase: nat)
    requires s.n > 0 && lane < 64 && component < 4 && phase < s.k
    ensures s.n + 15 < TWO64
    ensures Row(s, BlockTile(block), lane, component) < TWO64 && Column(s, BlockTile(block), lane) < TWO64
    ensures TileRow(s, BlockTile(block)) * 16 + lane % 16 < TWO64
    ensures phase + lane / 16 * 4 + component < TWO64 && phase + 16 < TWO64
  {
    var t, tile := TilesPerRow(s), BlockTile(block);
    assert 1 <= t < 0x1000_0001 && tile < MAX_TILES;
    hide TilesPerRow, BlockTile;
    TileSplits(s, tile);
    ProductBound(TileRow(s, tile), 1, TileRow(s, tile), t);
    assert TileRow(s, tile) <= tile && TileColumn(s, tile) < t;
  }

  /** The owner of an element of C. */
  function TileOf(s: Shape, row: nat, column: nat): nat { row / 16 * TilesPerRow(s) + column / 16 }

  function LaneOf(row: nat, column: nat): nat { row % 16 / 4 * 16 + column % 16 }

  function ComponentOf(row: nat): nat { row % 4 }

  lemma LaneCoordinates(row: nat, column: nat)
    ensures LaneOf(row, column) < 64 && ComponentOf(row) < 4
    ensures LaneOf(row, column) / 16 == row % 16 / 4 && LaneOf(row, column) % 16 == column % 16
    ensures row / 16 * 16 + row % 16 / 4 * 4 + ComponentOf(row) == row
  {
    QuotientIs(LaneOf(row, column), 16, row % 16 / 4, column % 16);
    QuotientIs(row, 4, row / 16 * 4 + row % 16 / 4, row % 16 % 4);
  }

  lemma TileCoordinates(s: Shape, row: nat, column: nat)
    requires row < s.m && column < s.n
    ensures TileOf(s, row, column) < Tiles(s)
    ensures TileRow(s, TileOf(s, row, column)) == row / 16 && TileColumn(s, TileOf(s, row, column)) == column / 16
  {
    var t := TilesPerRow(s);
    assert column / 16 < t && row / 16 + 1 <= (s.m + 15) / 16;
    hide TilesPerRow;
    IndexSplits(row / 16, column / 16, t);
    ProductBound(row / 16 + 1, t, (s.m + 15) / 16, t);
    assert (row / 16 + 1) * t == row / 16 * t + t;
  }

  /** Tile, lane and component determine the element and the element determines them: a
      bijection onto the m x n elements, with tiles numbered below Tiles(s). */
  lemma OwnersAreElements(s: Shape, row: nat, column: nat)
    requires row < s.m && column < s.n
    ensures TileOf(s, row, column) < Tiles(s) && LaneOf(row, column) < 64 && ComponentOf(row) < 4
    ensures Row(s, TileOf(s, row, column), LaneOf(row, column), ComponentOf(row)) == row
    ensures Column(s, TileOf(s, row, column), LaneOf(row, column)) == column
  {
    hide TileOf, LaneOf, ComponentOf, Tiles, TileRow, TileColumn;
    LaneCoordinates(row, column);
    TileCoordinates(s, row, column);
  }

  lemma ElementsHaveOneOwner(s: Shape, tile: nat, lane: nat, component: nat)
    requires s.n > 0 && lane < 64 && component < 4
    requires Column(s, tile, lane) < s.n
    ensures TileOf(s, Row(s, tile, lane, component), Column(s, tile, lane)) == tile
    ensures LaneOf(Row(s, tile, lane, component), Column(s, tile, lane)) == lane
    ensures ComponentOf(Row(s, tile, lane, component)) == component
  {
    hide TileRow, TileColumn, TileOf, LaneOf, ComponentOf;
    TileSplits(s, tile);
    SquareSplits(s, TileRow(s, tile), TileColumn(s, tile), lane, component);
  }

  lemma TileSplits(s: Shape, tile: nat)
    requires s.n > 0
    ensures TileRow(s, tile) * TilesPerRow(s) + TileColumn(s, tile) == tile
  {
    var t := TilesPerRow(s);
    assert tile == t * (tile / t) + tile % t;
  }

  /** Inside tile row q and tile column r, the sixteen by sixteen elements are numbered by lane
      and component. */
  lemma SquareSplits(s: Shape, q: nat, r: nat, lane: nat, component: nat)
    requires lane < 64 && component < 4
    ensures var row, column := q * 16 + lane / 16 * 4 + component, r * 16 + lane % 16;
      TileOf(s, row, column) == q * TilesPerRow(s) + r && LaneOf(row, column) == lane && ComponentOf(row) == component
  {
    hide TilesPerRow;
    var row, column := q * 16 + lane / 16 * 4 + component, r * 16 + lane % 16;
    QuotientIs(row, 16, q, lane / 16 * 4 + component);
    QuotientIs(lane / 16 * 4 + component, 4, lane / 16, component);
    QuotientIs(row, 4, q * 4 + lane / 16, component);
    QuotientIs(column, 16, r, lane % 16);
  }

  /** Every element is reached by some block of the grid exactly when the grid has all tiles
      and the 32-bit launch index can name them all. */
  lemma CoversIff(s: Shape, grid: nat)
    requires s.m > 0 && s.n > 0
    ensures (forall row: nat, column: nat :: row < s.m && column < s.n ==> Reached(s, grid, TileOf(s, row, column)))
      <==> ((s.m + 15) / 16) * ((s.n + 15) / 16) <= grid && ((s.m + 15) / 16) * ((s.n + 15) / 16) <= 0x400_0000
  {
    assert Tiles(s) == ((s.m + 15) / 16) * ((s.n + 15) / 16);
    hide Reached, TileOf, Tiles;
    if Tiles(s) <= grid && Tiles(s) <= MAX_TILES {
      forall row: nat, column: nat | row < s.m && column < s.n ensures Reached(s, grid, TileOf(s, row, column)) {
        OwnersAreElements(s, row, column);
        ReachedIff(s, grid, TileOf(s, row, column));
      }
    } else {
      LastTile(s);
      ReachedIff(s, grid, TileOf(s, s.m - 1, s.n - 1));
    }
  }

  /** A grid reaches the tiles below its size, as far as the launch index can name them. */
  lemma ReachedIff(s: Shape, grid: nat, tile: nat)
    ensures Reached(s, grid, tile) <==> tile < grid && tile < MAX_TILES
  {
    if tile < grid && tile < MAX_TILES { assert BlockTile(tile) == tile; }
  }

  /** Exactly one block of the grid names the tile. */
  predicate NamedOnce(s: Shape, grid: nat, tile: nat) {
    && Reached(s, grid, tile)
    && forall a: nat, b: nat {:trigger BlockTile(a), BlockTile(b)} ::
         a < grid && b < grid && BlockTile(a) == tile && BlockTile(b) == tile ==> a == b
  }

  /** Every element is updated by exactly one block exactly when the grid has all tiles and no
      block index wraps onto another's tile. */
  lemma CoversOnceIff(s: Shape, grid: nat)
    requires s.m > 0 && s.n > 0
    ensures (forall row: nat, column: nat :: row < s.m && column < s.n ==> NamedOnce(s, grid, TileOf(s, row, column)))
      <==> ((s.m + 15) / 16) * ((s.n + 15) / 16) <= grid <= 0x400_0000
  {
    hide Reached, Tiles, TilesPerRow;
    CoversIff(s, grid);
    if grid <= MAX_TILES {
      assert forall b: nat :: b < grid ==> BlockTile(b) == b;
    } else {
      assert TileOf(s, 0, 0) == 0;
      assert BlockTile(0) == 0 && BlockTile(MAX_TILES) == 0;
      assert !NamedOnce(s, grid, TileOf(s, 0, 0));
    }
  }

  lemma LastTile(s: Shape)
    requires s.m > 0 && s.n > 0
    ensures TileOf(s, s.m - 1, s.n - 1) == Tiles(s) - 1
  {
    var t, q := TilesPerRow(s), (s.m - 1) / 16;
    assert (s.m + 15) / 16 == q + 1 && (s.n - 1) / 16 == t - 1;
    hide TilesPerRow;
    assert (q + 1) * t == q * t + t;
  }

  predicate Reached(s: Shape, grid: nat, tile: nat) {
    exists b: nat {:trigger BlockTile(b)} :: b < grid && BlockTile(b) == tile
  }

  // ---- The product ----

  datatype Operands = Operands(s: Shape, a: seq<real>, b: seq<real>, alpha: real, beta: real)

  /** The operands pass the kernel's checks on A and B. */
  predicate Loadable(o: Operands) {
    && !InvalidStride(o.s)
    && |o.a| >= Extent(o.s.m, o.s.k, o.s.lda) && |o.b| >= Extent(o.s.k, o.s.n, o.s.ldb)
  }

  /** A and B as the kernel reads them: zero outside their rows, columns and depth. */
  function AAt(o: Operands, row: nat, depth: nat): real
    requires Loadable(o)
  {
    if row < o.s.m && depth < o.s.k then
      AccessInBounds(o.s.m, o.s.k, o.s.lda, row, depth);
      o.a[Index(row, depth, o.s.lda)]
    else 0.0
  }

  function BAt(o: Operands, depth: nat, column: nat): real
    requires Loadable(o)
  {
    if depth < o.s.k && column < o.s.n then
      AccessInBounds(o.s.k, o.s.n, o.s.ldb, depth, column);
      o.b[Index(depth, column, o.s.ldb)]
    else 0.0
  }

  /** The first `depth` terms of the padded product of a row of A and a column of B. */
  function Dot(o: Operands, row: nat, column: nat, depth: nat): real
    requires Loadable(o)
  {
    if depth == 0 then 0.0
    else Dot(o, row, column, depth - 1) + AAt(o, row, depth - 1) * BAt(o, depth - 1, column)
  }

  /** The textbook element: a plain sum over the k real products, no padding. */
  function Product(o: Operands, row: nat, column: nat, depth: nat): real
    requires Loadable(o)
    requires row < o.s.m && column < o.s.n && depth <= o.s.k
  {
    if depth == 0 then 0.0
    else
      AccessInBounds(o.s.m, o.s.k, o.s.lda, row, depth - 1);
      AccessInBounds(o.s.k, o.s.n, o.s.ldb, depth - 1, column);
      Product(o, row, column, depth - 1) + o.a[row * o.s.lda + (depth - 1)] * o.b[(depth - 1) * o.s.ldb + column]
  }

  /** A product is built of the operands' own elements, depth after depth. */
  lemma ProductLaw(o: Operands, row: nat, column: nat, depth: nat)
    requires Loadable(o) && row < o.s.m && column < o.s.n && depth < o.s.k
    ensures 0 <= row * o.s.lda + depth < |o.a| && 0 <= depth * o.s.ldb + column < |o.b|
    ensures Product(o, row, column, 0) == 0.0
    ensures Product(o, row, column, depth + 1) ==
      Product(o, row, column, depth) + o.a[row * o.s.lda + depth] * o.b[depth * o.s.ldb + column]
  {
    hide Extent, Index;
    AccessInBounds(o.s.m, o.s.k, o.s.lda, row, depth);
    AccessInBounds(o.s.k, o.s.n, o.s.ldb, depth, column);
  }

  /** Padding adds nothing: running to any depth at or past k gives the textbook sum. */
  lemma {:induction false} PaddingAddsNothing(o: Operands, row: nat, column: nat, depth: nat)
    requires Loadable(o)
    requires row < o.s.m && column < o.s.n
    ensures Dot(o, row, column, depth) == Product(o, row, column, if depth <= o.s.k then depth else o.s.k)
  {
    hide Extent, Index;
    if depth > 0 {
      PaddingAddsNothing(o, row, column, depth - 1);
      if depth <= o.s.k {
        AccessInBounds(o.s.m, o.s.k, o.s.lda, row, depth - 1);
        AccessInBounds(o.s.k, o.s.n, o.s.ldb, depth - 1, column);
      }
    }
  }

  // ---- What a launch leaves in C ----

  /** The row and column an index of C has by its stride. */
  function RowOf(s: Shape, i: nat): nat
    requires s.ldc > 0
  { i / s.ldc }

  function ColumnOf(s: Shape, i: nat): nat
    requires s.ldc > 0
  { i % s.ldc }

  /** C index i belongs to an element, rather than to stride padding or to the tail. */
  predicate IsElement(s: Shape, i: nat) {
    s.ldc > 0 && RowOf(s, i) < s.m && ColumnOf(s, i) < s.n
  }

  lemma ElementInRange(s: Shape, i: nat)
    requires IsElement(s, i)
    ensures s.ldc > 0 && RowOf(s, i) < s.m && ColumnOf(s, i) < s.n
  {
  }

  /** The epilogue's arithmetic. */
  function Blend(o: Operands, product: real, value: real): real { o.alpha * product + o.beta * value }

  /** An element's new value, from its old one. */
  ghost function Updated(o: Operands, i: nat, value: real): real
    requires Loadable(o) && IsElement(o.s, i)
  {
    ElementInRange(o.s, i);
    hide *;
    Blend(o, Product(o, RowOf(o.s, i), ColumnOf(o.s, i), o.s.k), value)
  }

  ghost function Expected(o: Operands, c: seq<real>, i: nat): real
    requires Loadable(o) && i < |c|
  { if IsElement(o.s, i) then Updated(o, i, c[i]) else c[i] }

  // ---- Stores, in any order ----

  datatype Owner = Owner(tile: nat, lane: nat, component: nat)

  function OwnerAt(s: Shape, i: nat): Owner
    requires IsElement(s, i)
  {
    var row, column := RowOf(s, i), ColumnOf(s, i);
    Owner(TileOf(s, row, column), LaneOf(row, column), ComponentOf(row))
  }

  /** The kernel's checks passed and C has at least one column. A tile column exists then, and
      a stride below n can only come with no rows to store. */
  predicate Storable(o: Operands, cLen: nat) {
    Loadable(o) && o.s.n > 0 && (o.s.m > 0 ==> o.s.n <= o.s.ldc) && cLen >= Extent(o.s.m, o.s.n, o.s.ldc)
  }

  /** One thread's guarded epilogue store of one accumulator component. */
  ghost function StoreElement(o: Operands, c: seq<real>, w: Owner): (r: seq<real>)
    requires Storable(o, |c|)
    ensures |r| == |c|
  {
    hide Extent, Index;
    var row, column := Row(o.s, w.tile, w.lane, w.component), Column(o.s, w.tile, w.lane);
    if row < o.s.m && column < o.s.n then
      AccessInBounds(o.s.m, o.s.n, o.s.ldc, row, column);
      var i := Index(row, column, o.s.ldc);
      c[i := Blend(o, Product(o, row, column, o.s.k), c[i])]
    else c
  }

  /** What index i holds once the owners in `done` have stored, each once. */
  ghost function Stored(o: Operands, c0: seq<real>, done: iset<Owner>, i: nat): real
    requires Loadable(o) && i < |c0|
  {
    if IsElement(o.s, i) && OwnerAt(o.s, i) in done then Expected(o, c0, i) else c0[i]
  }

  ghost predicate StoredBy(o: Operands, c0: seq<real>, c: seq<real>, done: iset<Owner>)
    requires Loadable(o)
  {
    |c| == |c0| && forall i :: 0 <= i < |c| ==> c[i] == Stored(o, c0, done, i)
  }

  lemma StorableStride(o: Operands, cLen: nat)
    requires Storable(o, cLen)
    ensures Loadable(o) && o.s.n > 0 && (o.s.m > 0 ==> o.s.n <= o.s.ldc)
  {
  }

  /** The address of (row, column) over the integers. */
  function Flat(row: nat, column: nat, stride: nat): nat { row * stride + column }

  /** Owner w stores to index i. */
  predicate StoresAt(s: Shape, w: Owner, i: nat)
    requires s.n > 0
  {
    var row, column := Row(s, w.tile, w.lane, w.component), Column(s, w.tile, w.lane);
    row < s.m && column < s.n && i == Flat(row, column, s.ldc)
  }

  /** Spelled out: a thread of a tile stores component x at row 4 (lane / 16) + x and column lane % 16
      of the tile's sixteen by sixteen square. */
  lemma StoresAtIff(s: Shape, tile: nat, lane: nat, component: nat, i: nat)
    requires s.n > 0
    ensures
      var row := tile / ((s.n + 15) / 16) * 16 + lane / 16 * 4 + component;
      var column := tile % ((s.n + 15) / 16) * 16 + lane % 16;
      StoresAt(s, Owner(tile, lane, component), i) <==> row < s.m && column < s.n && i == row * s.ldc + column
  {
  }

  /** The index an owner stores to is one it owns ... */
  lemma StoresWhatItOwns(s: Shape, w: Owner)
    requires s.n > 0 && s.n <= s.ldc && w.lane < 64 && w.component < 4
    requires Row(s, w.tile, w.lane, w.component) < s.m && Column(s, w.tile, w.lane) < s.n
    ensures var row, column := Row(s, w.tile, w.lane, w.component), Column(s, w.tile, w.lane);
      var i := Flat(row, column, s.ldc);
      IsElement(s, i) && RowOf(s, i) == row && ColumnOf(s, i) == column && OwnerAt(s, i) == w
  {
    hide TileOf, LaneOf, ComponentOf, Row, Column;
    IndexSplits(Row(s, w.tile, w.lane, w.component), Column(s, w.tile, w.lane), s.ldc);
    ElementsHaveOneOwner(s, w.tile, w.lane, w.component);
  }

  /** ... and the only one. */
  lemma OwnsWhatItStores(s: Shape, i: nat)
    requires IsElement(s, i)
    ensures var w := OwnerAt(s, i); s.n > 0 && w.lane < 64 && w.component < 4
    ensures var w := OwnerAt(s, i); Row(s, w.tile, w.lane, w.component) == RowOf(s, i)
    ensures var w := OwnerAt(s, i); Column(s, w.tile, w.lane) == ColumnOf(s, i)
    ensures Flat(RowOf(s, i), ColumnOf(s, i), s.ldc) == i
  {
    hide TileOf, LaneOf, ComponentOf, Row, Column;
    OwnersAreElements(s, RowOf(s, i), ColumnOf(s, i));
  }

  lemma StoresIffOwns(s: Shape, w: Owner, i: nat)
    requires s.n > 0 && (s.m > 0 ==> s.n <= s.ldc) && w.lane < 64 && w.component < 4
    ensures StoresAt(s, w, i) <==> IsElement(s, i) && OwnerAt(s, i) == w
  {
    hide Row, Column, OwnerAt, IsElement, Flat;
    if StoresAt(s, w, i) { StoresWhatItOwns(s, w); }
    if IsElement(s, i) { OwnsWhatItStores(s, i); ElementInRange(s, i); }
  }

  /** What a store does to each index. */
  lemma StoreElementAt(o: Operands, c: seq<real>, w: Owner, i: nat)
    requires Storable(o, |c|) && i < |c| && w.lane < 64 && w.component < 4
    ensures StoresAt(o.s, w, i) ==> IsElement(o.s, i) && StoreElement(o, c, w)[i] == Updated(o, i, c[i])
    ensures !StoresAt(o.s, w, i) ==> StoreElement(o, c, w)[i] == c[i]
  {
    StorableStride(o, |c|);
    hide Extent, Index, Row, Column, Product, OwnerAt, IsElement, Storable, Loadable, Flat, Blend;
    var row, column := Row(o.s, w.tile, w.lane, w.component), Column(o.s, w.tile, w.lane);
    if row < o.s.m && column < o.s.n {
      StorableAccess(o, |c|, row, column);
      StoresWhatItOwns(o.s, w);
    }
  }

  lemma StorableAccess(o: Operands, cLen: nat, row: nat, column: nat)
    requires Storable(o, cLen) && row < o.s.m && column < o.s.n
    ensures Index(row, column, o.s.ldc) == Flat(row, column, o.s.ldc) < cLen
  {
    hide Extent, Index;
    AccessInBounds(o.s.m, o.s.n, o.s.ldc, row, column);
  }

  lemma StoreStepAt(o: Operands, c0: seq<real>, c: seq<real>, done: iset<Owner>, w: Owner, i: nat)
    requires Storable(o, |c|) && Loadable(o) && |c| == |c0| && i < |c| && c[i] == Stored(o, c0, done, i)
    requires w !in done && w.lane < 64 && w.component < 4
    ensures StoreElement(o, c, w)[i] == Stored(o, c0, done + iset{w}, i)
  {
    StorableStride(o, |c|);
    hide StoresAt, Updated, OwnerAt, IsElement, StoreElement, Storable, Loadable;
    StoreElementAt(o, c, w, i);
    StoresIffOwns(o.s, w, i);
  }

  lemma StoreStep(o: Operands, c0: seq<real>, c: seq<real>, done: iset<Owner>, w: Owner)
    requires Storable(o, |c|)
    requires StoredBy(o, c0, c, done) && w !in done && w.lane < 64 && w.component < 4
    ensures StoredBy(o, c0, StoreElement(o, c, w), done + iset{w})
  {
    StorableStride(o, |c|);
    hide StoreElement, Storable, Loadable, Stored;
    forall i: nat | i < |c| ensures StoreElement(o, c, w)[i] == Stored(o, c0, done + iset{w}, i) {
      StoreStepAt(o, c0, c, done, w, i);
    }
  }

  ghost function StoreAll(o: Operands, c: seq<real>, order: seq<Owner>): (r: seq<real>)
    requires Storable(o, |c|)
    ensures |r| == |c|
  {
    if order == [] then c else StoreElement(o, StoreAll(o, c, order[..|order| - 1]), order[|order| - 1])
  }

  lemma {:induction false} StoresAccumulate(o: Operands, c: seq<real>, order: seq<Owner>)
    requires Storable(o, |c|)
    requires forall j, k :: 0 <= j < k < |order| ==> order[j] != order[k]
    requires forall j :: 0 <= j < |order| ==> order[j].lane < 64 && order[j].component < 4
    ensures StoredBy(o, c, StoreAll(o, c, order), (iset w | w in order))
  {
    hide Extent, StoreElement, StoredBy, Storable, Loadable;
    StorableStride(o, |c|);
    if order == [] {
      NothingStored(o, c);
      assert (iset w | w in order) == iset{};
    } else {
      var init, w := order[..|order| - 1], order[|order| - 1];
      StoresAccumulate(o, c, init);
      StoreStep(o, c, StoreAll(o, c, init), (iset v | v in init), w);
      assert (iset v | v in init) + iset{w} == (iset v | v in order) by { assert order == init + [w]; }
    }
  }

  lemma NothingStored(o: Operands, c: seq<real>)
    requires Loadable(o)
    ensures StoredBy(o, c, c, iset{})
  {
  }

  lemma OrderAt(o: Operands, c: seq<real>, order: seq<Owner>, i: nat)
    requires Storable(o, |c|)
    requires forall j, k :: 0 <= j < k < |order| ==> order[j] != order[k]
    requires forall j :: 0 <= j < |order| ==> order[j].lane < 64 && order[j].component < 4
    requires i < |c| && (IsElement(o.s, i) ==> OwnerAt(o.s, i) in order)
    ensures StoreAll(o, c, order)[i] == Expected(o, c, i)
  {
    StoresAccumulate(o, c, order);
  }

  /** Index i of C is no element: stride padding, or past the last row. */
  ghost predicate Unowned(s: Shape, i: nat) {
    forall row: nat, column: nat :: row < s.m && column < s.n ==> i != Flat(row, column, s.ldc)
  }

  lemma FlatIsElement(s: Shape, row: nat, column: nat)
    requires row < s.m && column < s.n <= s.ldc
    ensures var i := Flat(row, column, s.ldc); IsElement(s, i) && RowOf(s, i) == row && ColumnOf(s, i) == column
  {
    IndexSplits(row, column, s.ldc);
  }

  lemma UnownedIff(s: Shape, i: nat)
    requires s.m > 0 && s.n > 0 ==> s.n <= s.ldc
    ensures Unowned(s, i) <==> !IsElement(s, i)
  {
    hide Flat, IsElement, OwnerAt;
    if IsElement(s, i) {
      ElementInRange(s, i);
      OwnsWhatItStores(s, i);
    }
    if row: nat, column: nat :| row < s.m && column < s.n && i == Flat(row, column, s.ldc) {
      FlatIsElement(s, row, column);
    }
  }

  /** An element's address is inside C, and what is expected there is spelled out. */
  lemma ElementIndex(o: Operands, c: seq<real>, row: nat, column: nat)
    requires Storable(o, |c|) && Loadable(o) && row < o.s.m && column < o.s.n
    ensures 0 <= row * o.s.ldc + column < |c| && Flat(row, column, o.s.ldc) == row * o.s.ldc + column
    ensures var i := row * o.s.ldc + column;
      && IsElement(o.s, i) && RowOf(o.s, i) == row && ColumnOf(o.s, i) == column
      && Expected(o, c, i) == o.alpha * Product(o, row, column, o.s.k) + o.beta * c[i]
  {
    StorableAccess(o, |c|, row, column);
    StorableStride(o, |c|);
    hide Product, Storable, Loadable;
    IndexSplits(row, column, o.s.ldc);
  }

  /** Main result on order: whatever order the threads of all blocks store in, if each owner of
      an element stores exactly once then every element is alpha times its product plus beta
      times its old value ... */
  lemma AnyStoreOrder(o: Operands, c: seq<real>, order: seq<Owner>, row: nat, column: nat)
    requires Storable(o, |c|) && Loadable(o) && row < o.s.m && column < o.s.n
    requires forall j, k :: 0 <= j < k < |order| ==> order[j] != order[k]
    requires forall j :: 0 <= j < |order| ==> order[j].lane < 64 && order[j].component < 4
    requires Owner(TileOf(o.s, row, column), LaneOf(row, column), ComponentOf(row)) in order
    ensures 0 <= row * o.s.ldc + column < |c|
    ensures StoreAll(o, c, order)[row * o.s.ldc + column] ==
      o.alpha * Product(o, row, column, o.s.k) + o.beta * c[row * o.s.ldc + column]
  {
    hide Storable, Loadable, Expected, StoreAll, Product, TileOf, LaneOf, ComponentOf;
    ElementIndex(o, c, row, column);
    OrderAt(o, c, order, row * o.s.ldc + column);
  }

  /** ... and padding and tail keep theirs. */
  lemma AnyOrderElsewhere(o: Operands, c: seq<real>, order: seq<Owner>, i: nat)
    requires Storable(o, |c|) && i < |c| && Unowned(o.s, i)
    requires forall j, k :: 0 <= j < k < |order| ==> order[j] != order[k]
    requires forall j :: 0 <= j < |order| ==> order[j].lane < 64 && order[j].component < 4
    ensures StoreAll(o, c, order)[i] == c[i]
  {
    StorableStride(o, |c|);
    hide Storable, Loadable, Expected, IsElement, StoreAll, Unowned;
    UnownedIff(o.s, i);
    OrderAt(o, c, order, i);
    UnchangedThere(o, c, i);
  }

  lemma UnchangedThere(o: Operands, c: seq<real>, i: nat)
    requires Loadable(o) && i < |c| && !IsElement(o.s, i)
    ensures Expected(o, c, i) == c[i]
  {
  }

  // ---- The kernel ----

  /** The lane that supplies depth d of a row of the left tile, or of a column of the right one. */
  function Supplier(line: nat, d: nat): (l: nat)
    requires line < 16 && d < 16
    ensures l < 64
  { d / 4 * 16 + line }

  lemma SupplierSplits(line: nat, d: nat)
    requires line < 16 && d < 16
    ensures Supplier(line, d) % 16 == line && Supplier(line, d) / 16 * 4 + d % 4 == d
  {
    QuotientIs(Supplier(line, d), 16, d / 4, line);
  }

  /** The matrix instruction's contract, lane maps included: lane l supplies row l % 16 of the
      left tile and column l % 16 of the right tile at depths 4 (l / 16) + component, and
      receives rows 4 (l / 16) + component of column l % 16. */
  function MfmaSum(lhs: array2<real>, rhs: array2<real>, row: nat, column: nat, depth: nat): real
    requires lhs.Length0 == rhs.Length0 == 64 && lhs.Length1 == rhs.Length1 == 4
    requires row < 16 && column < 16 && depth <= 16
    reads lhs, rhs
  {
    if depth == 0 then 0.0
    else
      var d := depth - 1;
      MfmaSum(lhs, rhs, row, column, d) + lhs[Supplier(row, d), d % 4] * rhs[Supplier(column, d), d % 4]
  }

  method Mfma(lhs: array2<real>, rhs: array2<real>, accumulator: array2<real>)
    requires lhs.Length0 == rhs.Length0 == accumulator.Length0 == 64
    requires lhs.Length1 == rhs.Length1 == accumulator.Length1 == 4
    requires accumulator != lhs && accumulator != rhs
    modifies accumulator
    ensures forall l, x :: 0 <= l < 64 && 0 <= x < 4 ==>
      accumulator[l, x] == old(accumulator[l, x]) + MfmaSum(lhs, rhs, l / 16 * 4 + x, l % 16, 16)
  {
    hide MfmaSum;
    forall l, x | 0 <= l < 64 && 0 <= x < 4 {
      accumulator[l, x] := accumulator[l, x] + MfmaSum(lhs, rhs, l / 16 * 4 + x, l % 16, 16);
    }
  }

  /** What lane l's component x of each fragment holds in a phase: its row of A, its column of B. */
  function LeftOf(o: Operands, tile: nat, phase: nat, l: nat, x: nat): real
    requires Loadable(o) && o.s.n > 0
  { AAt(o, TileRow(o.s, tile) * 16 + l % 16, phase + l / 16 * 4 + x) }

  function RightOf(o: Operands, tile: nat, phase: nat, l: nat, x: nat): real
    requires Loadable(o) && o.s.n > 0
  { BAt(o, phase + l / 16 * 4 + x, TileColumn(o.s, tile) * 16 + l % 16) }

  ghost predicate Fragments(o: Operands, tile: nat, phase: nat, lhs: array2<real>, rhs: array2<real>)
    requires Loadable(o) && o.s.n > 0
    requires lhs.Length0 == rhs.Length0 == 64 && lhs.Length1 == rhs.Length1 == 4
    reads lhs, rhs
  {
    forall l, x :: 0 <= l < 64 && 0 <= x < 4 ==>
      lhs[l, x] == LeftOf(o, tile, phase, l, x) && rhs[l, x] == RightOf(o, tile, phase, l, x)
  }

  lemma FragmentAt(o: Operands, tile: nat, phase: nat, lhs: array2<real>, rhs: array2<real>, line: nat, d: nat)
    requires Loadable(o) && o.s.n > 0 && line < 16 && d < 16
    requires lhs.Length0 == rhs.Length0 == 64 && lhs.Length1 == rhs.Length1 == 4
    requires Fragments(o, tile, phase, lhs, rhs)
    ensures lhs[Supplier(line, d), d % 4] == AAt(o, TileRow(o.s, tile) * 16 + line, phase + d)
    ensures rhs[Supplier(line, d), d % 4] == BAt(o, phase + d, TileColumn(o.s, tile) * 16 + line)
  {
    hide AAt, BAt, TileRow, TileColumn, Loadable, Supplier;
    var l := Supplier(line, d);
    SupplierSplits(line, d);
    assert lhs[l, d % 4] == LeftOf(o, tile, phase, l, d % 4);
  }

  /** With the fragments loaded, one matrix instruction adds exactly one phase of the product. */
  lemma {:induction false} MfmaIsOnePhase(o: Operands, tile: nat, phase: nat, lhs: array2<real>, rhs: array2<real>,
                                          row: nat, column: nat, depth: nat)
    requires Loadable(o) && o.s.n > 0 && row < 16 && column < 16 && depth <= 16
    requires lhs.Length0 == rhs.Length0 == 64 && lhs.Length1 == rhs.Length1 == 4
    requires Fragments(o, tile, phase, lhs, rhs)
    ensures var r, c := TileRow(o.s, tile) * 16 + row, TileColumn(o.s, tile) * 16 + column;
      Dot(o, r, c, phase + depth) == Dot(o, r, c, phase) + MfmaSum(lhs, rhs, row, column, depth)
  {
    hide AAt, BAt, TileRow, TileColumn, Fragments;
    if depth > 0 {
      MfmaIsOnePhase(o, tile, phase, lhs, rhs, row, column, depth - 1);
      FragmentAt(o, tile, phase, lhs, rhs, row, depth - 1);
      FragmentAt(o, tile, phase, lhs, rhs, column, depth - 1);
    }
  }

  /** One workgroup's fragment loads for one phase, zero outside the operands. */
  method LoadPhase(o: Operands, block: nat, phase: nat) returns (lhs: array2<real>, rhs: array2<real>)
    requires Loadable(o) && o.s.n > 0
    ensures fresh(lhs) && fresh(rhs) && lhs != rhs
    ensures lhs.Length0 == rhs.Length0 == 64 && lhs.Length1 == rhs.Length1 == 4
    ensures Fragments(o, BlockTile(block), phase, lhs, rhs)
  {
    hide AAt, BAt, TileRow, TileColumn, Loadable, RawIndex, BlockTile;
    lhs, rhs := new real[64, 4]((_, _) => 0.0), new real[64, 4]((_, _) => 0.0);
    for thread := 0 to 64
      invariant forall l, x :: 0 <= l < thread && 0 <= x < 4 ==> lhs[l, x] == LeftOf(o, BlockTile(block), phase, l, x)
      invariant forall l, x :: 0 <= l < thread && 0 <= x < 4 ==> rhs[l, x] == RightOf(o, BlockTile(block), phase, l, x)
    {
      var rawIndex := RawIndex(block, thread);
      RawIndexSplits(block, thread);
      LoadLane(o, rawIndex / 64, phase, rawIndex % 64, lhs, rhs);
    }
  }

  /** One lane's loads: each is guarded by its own row, column and depth. */
  method LoadLane(o: Operands, tile: nat, phase: nat, lane: nat, lhs: array2<real>, rhs: array2<real>)
    requires Loadable(o) && o.s.n > 0 && lane < 64 && lhs != rhs
    requires lhs.Length0 == rhs.Length0 == 64 && lhs.Length1 == rhs.Length1 == 4
    modifies lhs, rhs
    ensures forall x :: 0 <= x < 4 ==>
      lhs[lane, x] == LeftOf(o, tile, phase, lane, x) && rhs[lane, x] == RightOf(o, tile, phase, lane, x)
    ensures forall l, x :: 0 <= l < 64 && 0 <= x < 4 && l != lane ==>
      lhs[l, x] == old(lhs[l, x]) && rhs[l, x] == old(rhs[l, x])
  {
    hide Extent, Index, TileRow, TileColumn, LeftOf, RightOf, AAt, BAt, Loadable;
    var aRow, bColumn := TileRow(o.s, tile) * 16 + lane % 16, TileColumn(o.s, tile) * 16 + lane % 16;
    for component := 0 to 4
      invariant forall x :: 0 <= x < component ==>
        lhs[lane, x] == LeftOf(o, tile, phase, lane, x) && rhs[lane, x] == RightOf(o, tile, phase, lane, x)
      invariant forall l, x :: 0 <= l < 64 && 0 <= x < 4 && l != lane ==>
        lhs[l, x] == old(lhs[l, x]) && rhs[l, x] == old(rhs[l, x])
    {
      var depth := phase + lane / 16 * 4 + component;
      LoadedAre(o, tile, phase, lane, component);
      lhs[lane, component] := LoadLeft(o, aRow, depth);
      rhs[lane, component] := LoadRight(o, depth, bColumn);
    }
  }

  method LoadLeft(o: Operands, row: nat, depth: nat) returns (x: real)
    requires Loadable(o)
    ensures x == AAt(o, row, depth)
  {
    if row < o.s.m && depth < o.s.k {
      AccessInBounds(o.s.m, o.s.k, o.s.lda, row, depth);
      x := o.a[Index(row, depth, o.s.lda)];
    } else {
      x := 0.0;
    }
  }

  method LoadRight(o: Operands, depth: nat, column: nat) returns (x: real)
    requires Loadable(o)
    ensures x == BAt(o, depth, column)
  {
    if depth < o.s.k && column < o.s.n {
      AccessInBounds(o.s.k, o.s.n, o.s.ldb, depth, column);
      x := o.b[Index(depth, column, o.s.ldb)];
    } else {
      x := 0.0;
    }
  }

  lemma LoadedAre(o: Operands, tile: nat, phase: nat, lane: nat, component: nat)
    requires Loadable(o) && o.s.n > 0
    ensures var row, column := TileRow(o.s, tile) * 16 + lane % 16, TileColumn(o.s, tile) * 16 + lane % 16;
      var depth := phase + lane / 16 * 4 + component;
      LeftOf(o, tile, phase, lane, component) == AAt(o, row, depth)
      && RightOf(o, tile, phase, lane, component) == BAt(o, depth, column)
  {
    hide AAt, BAt, TileRow, TileColumn, Loadable;
  }

  /** The depth loop: each lane ends with the padded product of its rows and column. */
  method Accumulate(o: Operands, block: nat) returns (accumulator: array2<real>, depth: nat)
    requires Loadable(o) && o.s.n > 0
    ensures fresh(accumulator) && accumulator.Length0 == 64 && accumulator.Length1 == 4 && depth >= o.s.k
    ensures forall l, x :: 0 <= l < 64 && 0 <= x < 4 ==>
      accumulator[l, x] == Dot(o, Row(o.s, BlockTile(block), l, x), Column(o.s, BlockTile(block), l), depth)
  {
    hide AAt, BAt, Row, Column, TileRow, TileColumn, Loadable, MfmaSum, Fragments, BlockTile;
    ghost var tile := BlockTile(block);
    accumulator := new real[64, 4]((_, _) => 0.0);
    depth := 0;
    while depth < o.s.k
      invariant forall l, x :: 0 <= l < 64 && 0 <= x < 4 ==>
        accumulator[l, x] == Dot(o, Row(o.s, tile, l, x), Column(o.s, tile, l), depth)
      decreases o.s.k - depth
    {
      hide Dot;
      var lhs, rhs := LoadPhase(o, block, depth);
      Mfma(lhs, rhs, accumulator);
      forall l, x | 0 <= l < 64 && 0 <= x < 4
        ensures accumulator[l, x] == Dot(o, Row(o.s, tile, l, x), Column(o.s, tile, l), depth + 16)
      {
        MfmaIsOnePhase(o, tile, depth, lhs, rhs, l / 16 * 4 + x, l % 16, 16);
        RowAndColumn(o.s, tile, l, x);
      }
      depth := depth + 16;
    }
  }

  lemma RowAndColumn(s: Shape, tile: nat, lane: nat, component: nat)
    requires s.n > 0
    ensures Row(s, tile, lane, component) == TileRow(s, tile) * 16 + (lane / 16 * 4 + component)
    ensures Column(s, tile, lane) == TileColumn(s, tile) * 16 + lane % 16
  {
  }

  ghost function BlockOwners(tile: nat, lanes: nat, components: nat): iset<Owner> {
    iset w: Owner | w.tile == tile && w.component < 4 &&
      (w.lane < lanes || (w.lane == lanes && w.component < components))
  }

  lemma BlockOwnersStart(tile: nat, done: iset<Owner>)
    ensures done + BlockOwners(tile, 0, 0) == done
  {
  }

  lemma BlockOwnersGrow(tile: nat, lane: nat, component: nat, done: iset<Owner>)
    requires lane < 64 && component < 4
    requires forall w: Owner :: w in done ==> w.tile != tile
    ensures Owner(tile, lane, component) !in done + BlockOwners(tile, lane, component)
    ensures done + BlockOwners(tile, lane, component + 1) ==
      done + BlockOwners(tile, lane, component) + iset{Owner(tile, lane, component)}
    ensures BlockOwners(tile, lane + 1, 0) == BlockOwners(tile, lane, 4)
  {
  }

  /** Every owner whose tile is among the blocks launched. */
  ghost function OfTiles(blocks: seq<U32>): iset<Owner> {
    iset w: Owner | w.tile in blocks && w.lane < 64 && w.component < 4
  }

  lemma StoreUnfolds(o: Operands, c: seq<real>, w: Owner, row: nat, column: nat)
    requires Storable(o, |c|) && Loadable(o) && o.s.n > 0
    requires row == Row(o.s, w.tile, w.lane, w.component) && column == Column(o.s, w.tile, w.lane)
    ensures row < o.s.m && column < o.s.n ==>
      var i := Flat(row, column, o.s.ldc);
      i < |c| && StoreElement(o, c, w) == c[i := Blend(o, Product(o, row, column, o.s.k), c[i])]
    ensures !(row < o.s.m && column < o.s.n) ==> StoreElement(o, c, w) == c
  {
    StorableStride(o, |c|);
    hide Extent, Index, Row, Column, Product, Storable, Loadable, Flat, Blend;
    if row < o.s.m && column < o.s.n { StorableAccess(o, |c|, row, column); }
  }

  lemma BlendIs(o: Operands, product: real, value: real)
    ensures Blend(o, product, value) == o.alpha * product + o.beta * value
  {
  }

  lemma StoredValue(o: Operands, c: seq<real>, w: Owner, i: nat)
    requires Storable(o, |c|) && Loadable(o) && o.s.n > 0 && i < |c|
    ensures var row, column := Row(o.s, w.tile, w.lane, w.component), Column(o.s, w.tile, w.lane);
      StoreElement(o, c, w)[i] ==
        if StoresAt(o.s, w, i) then o.alpha * Product(o, row, column, o.s.k) + o.beta * c[i] else c[i]
  {
    hide StoreElement, Row, Column, Product, Storable, Loadable, Flat, Blend;
    var row, column := Row(o.s, w.tile, w.lane, w.component), Column(o.s, w.tile, w.lane);
    StoreUnfolds(o, c, w, row, column);
    if row < o.s.m && column < o.s.n { BlendIs(o, Product(o, row, column, o.s.k), c[i]); }
  }

  /** One lane's guarded store of one accumulator component. */
  method StoreOne(o: Operands, c: array<real>, tile: nat, lane: nat, component: nat, value: real, ghost depth: nat)
    requires Storable(o, c.Length) && Loadable(o) && o.s.n > 0 && depth >= o.s.k
    requires value == Dot(o, Row(o.s, tile, lane, component), Column(o.s, tile, lane), depth)
    modifies c
    ensures c[..] == StoreElement(o, old(c[..]), Owner(tile, lane, component))
    ensures StoredHere(o, old(c[..]), c[..], Owner(tile, lane, component), value)
  {
    ghost var before, w := c[..], Owner(tile, lane, component);
    StorableStride(o, c.Length);
    hide Extent, Index, Dot, Product, Row, Column, Storable, Loadable, Flat, Blend, StoredHere;
    var row, column := Row(o.s, tile, lane, component), Column(o.s, tile, lane);
    if row < o.s.m && column < o.s.n {
      StorableAccess(o, c.Length, row, column);
      PaddingAddsNothing(o, row, column, depth);
      var i := Index(row, column, o.s.ldc);
      c[i] := Blend(o, value, c[i]);
      assert c[..] == before[i := Blend(o, Product(o, row, column, o.s.k), before[i])];
    } else {
      assert c[..] == before;
    }
    hide *;
    StoredOne(o, before, c[..], w, value, depth);
  }

  /** The accumulator component's store, spelled out over all of C. */
  predicate StoredHere(o: Operands, before: seq<real>, after: seq<real>, w: Owner, value: real)
    requires o.s.n > 0
  {
    |after| == |before| && forall i :: 0 <= i < |after| ==>
      after[i] == if StoresAt(o.s, w, i) then o.alpha * value + o.beta * before[i] else before[i]
  }

  lemma StoredOne(o: Operands, before: seq<real>, after: seq<real>, w: Owner, value: real, depth: nat)
    requires Storable(o, |before|) && Loadable(o) && o.s.n > 0 && depth >= o.s.k
    requires value == Dot(o, Row(o.s, w.tile, w.lane, w.component), Column(o.s, w.tile, w.lane), depth)
    requires after == StoreElement(o, before, w)
    ensures StoredHere(o, before, after, w, value)
  {
    hide Storable, Loadable, StoresAt, Dot, Product, Row, Column, StoreElement;
    forall i | 0 <= i < |after|
      ensures after[i] == if StoresAt(o.s, w, i) then o.alpha * value + o.beta * before[i] else before[i]
    {
      StoredValue(o, before, w, i);
      if StoresAt(o.s, w, i) {
        InRange(o.s, w, i);
        PaddingAddsNothing(o, Row(o.s, w.tile, w.lane, w.component), Column(o.s, w.tile, w.lane), depth);
      }
    }
  }

  lemma InRange(s: Shape, w: Owner, i: nat)
    requires s.n > 0 && StoresAt(s, w, i)
    ensures Row(s, w.tile, w.lane, w.component) < s.m && Column(s, w.tile, w.lane) < s.n
  {
  }

  /** One lane's four guarded stores. */
  method StoreLane(o: Operands, c: array<real>, tile: nat, lane: nat, accumulator: array2<real>,
                   ghost depth: nat, ghost c0: seq<real>, ghost done: iset<Owner>)
    requires Storable(o, c.Length) && Loadable(o) && o.s.n > 0 && depth >= o.s.k && lane < 64
    requires accumulator.Length0 == 64 && accumulator.Length1 == 4
    requires forall x :: 0 <= x < 4 ==>
      accumulator[lane, x] == Dot(o, Row(o.s, tile, lane, x), Column(o.s, tile, lane), depth)
    requires forall w: Owner :: w in done ==> w.tile != tile
    requires StoredBy(o, c0, c[..], done + BlockOwners(tile, lane, 0))
    modifies c
    ensures StoredBy(o, c0, c[..], done + BlockOwners(tile, lane + 1, 0))
  {
    hide Dot, StoredBy, Row, Column, Storable, Loadable, StoreElement, BlockOwners;
    for component := 0 to 4
      invariant StoredBy(o, c0, c[..], done + BlockOwners(tile, lane, component))
    {
      ghost var before := c[..];
      StoreOne(o, c, tile, lane, component, accumulator[lane, component], depth);
      BlockOwnersGrow(tile, lane, component, done);
      StoreStep(o, c0, before, done + BlockOwners(tile, lane, component), Owner(tile, lane, component));
    }
    BlockOwnersGrow(tile, lane, 0, done);
  }

  /** One workgroup, all 64 threads: exactly the elements its tile owns are updated. */
  method Block(o: Operands, c: array<real>, block: U32, ghost c0: seq<real>, ghost done: iset<Owner>)
    requires Storable(o, c.Length) && Loadable(o) && o.s.n > 0
    requires StoredBy(o, c0, c[..], done)
    requires forall w: Owner :: w in done ==> w.tile != BlockTile(block)
    modifies c
    ensures StoredBy(o, c0, c[..], done + BlockOwners(BlockTile(block), 64, 0))
  {
    hide Dot, StoredBy, RawIndex, BlockTile, Row, Column, Storable, Loadable, BlockOwners;
    var accumulator, depth := Accumulate(o, block);
    BlockOwnersStart(BlockTile(block), done);
    for thread := 0 to 64
      invariant StoredBy(o, c0, c[..], done + BlockOwners(BlockTile(block), thread, 0))
      modifies c
    {
      var rawIndex := RawIndex(block, thread);
      RawIndexSplits(block, thread);
      StoreLane(o, c, rawIndex / 64, rawIndex % 64, accumulator, depth, c0, done);
    }
  }

  /** The kernel over the blocks of a grid, in the given order: checks first, then one
      workgroup after another. */
  method Launch(o: Operands, c: array<real>, blocks: seq<U32>)
    requires forall j, k :: 0 <= j < k < |blocks| ==> blocks[j] != blocks[k]
    requires forall j :: 0 <= j < |blocks| ==> blocks[j] < MAX_TILES
    modifies c
    ensures !Admitted(o.s, |o.a|, |o.b|, c.Length) || o.s.n == 0 ==> c[..] == old(c[..])
    ensures Admitted(o.s, |o.a|, |o.b|, c.Length) ==> StoredBy(o, old(c[..]), c[..], OfTiles(blocks))
    ensures Admitted(o.s, |o.a|, |o.b|, c.Length) ==>
      && (forall row: nat, column: nat :: row < o.s.m && column < o.s.n ==>
            ElementLeft(o, old(c[..]), c[..], row, column, TileOf(o.s, row, column) in blocks))
      && (forall i: nat :: i < c.Length && Unowned(o.s, i) ==> c[i] == old(c[i]))
  {
    ghost var before := c[..];
    if !Admitted(o.s, |o.a|, |o.b|, c.Length) {
      return;
    }
    AdmittedMeans(o, c.Length);
    hide Admitted, StoredBy, Loadable, Storable, RawIndex;
    if o.s.n == 0 {
      NoColumns(o, c[..], OfTiles(blocks));
      return;
    }
    RunBlocks(o, c, blocks);
    StoredMeans(o, before, c[..], blocks);
  }

  /** What a launch leaves in the element at (row, column), updated or not. */
  ghost predicate ElementLeft(o: Operands, c0: seq<real>, c: seq<real>, row: nat, column: nat, updated: bool)
    requires Loadable(o) && row < o.s.m && column < o.s.n
  {
    var i := row * o.s.ldc + column;
    && 0 <= i < |c| == |c0|
    && c[i] == if updated then o.alpha * Product(o, row, column, o.s.k) + o.beta * c0[i] else c0[i]
  }

  /** What the stores of a list of blocks leave, element by element. */
  lemma StoredMeans(o: Operands, c0: seq<real>, c: seq<real>, blocks: seq<U32>)
    requires Storable(o, |c|) && Loadable(o) && StoredBy(o, c0, c, OfTiles(blocks))
    ensures forall row: nat, column: nat :: row < o.s.m && column < o.s.n ==>
      ElementLeft(o, c0, c, row, column, TileOf(o.s, row, column) in blocks)
    ensures |c0| == |c| && forall i: nat :: i < |c| && Unowned(o.s, i) ==> c[i] == c0[i]
  {
    StorableStride(o, |c|);
    hide Storable, Loadable, IsElement, Unowned, Stored, OfTiles, ElementLeft, TileOf;
    forall row: nat, column: nat | row < o.s.m && column < o.s.n
      ensures ElementLeft(o, c0, c, row, column, TileOf(o.s, row, column) in blocks)
    {
      StoredAt(o, c0, c, blocks, row, column);
    }
    forall i: nat | i < |c| && Unowned(o.s, i) ensures c[i] == c0[i] {
      UnownedIff(o.s, i);
      StoredOutside(o, c0, OfTiles(blocks), i);
    }
  }

  lemma StoredOutside(o: Operands, c0: seq<real>, done: iset<Owner>, i: nat)
    requires Loadable(o) && i < |c0| && !IsElement(o.s, i)
    ensures Stored(o, c0, done, i) == c0[i]
  {
  }

  lemma StoredIff(o: Operands, c0: seq<real>, blocks: seq<U32>, row: nat, column: nat, i: nat)
    requires Loadable(o) && i < |c0| && IsElement(o.s, i) && RowOf(o.s, i) == row && ColumnOf(o.s, i) == column
    ensures Stored(o, c0, OfTiles(blocks), i) ==
      if TileOf(o.s, row, column) in blocks then Expected(o, c0, i) else c0[i]
  {
    hide Loadable, IsElement, RowOf, ColumnOf, TileOf, Expected;
    LaneCoordinates(row, column);
    hide LaneOf, ComponentOf;
  }

  lemma StoredAt(o: Operands, c0: seq<real>, c: seq<real>, blocks: seq<U32>, row: nat, column: nat)
    requires Storable(o, |c|) && Loadable(o) && row < o.s.m && column < o.s.n
    requires StoredBy(o, c0, c, OfTiles(blocks))
    ensures ElementLeft(o, c0, c, row, column, TileOf(o.s, row, column) in blocks)
  {
    hide Storable, Loadable, TileOf, Product, Stored, OfTiles, Expected, IsElement, RowOf, ColumnOf;
    ElementIndex(o, c0, row, column);
    StoredIff(o, c0, blocks, row, column, row * o.s.ldc + column);
  }

  method RunBlocks(o: Operands, c: array<real>, blocks: seq<U32>)
    requires Storable(o, c.Length) && Loadable(o) && o.s.n > 0
    requires forall j, k :: 0 <= j < k < |blocks| ==> blocks[j] != blocks[k]
    requires forall j :: 0 <= j < |blocks| ==> blocks[j] < MAX_TILES
    modifies c
    ensures StoredBy(o, old(c[..]), c[..], OfTiles(blocks))
  {
    hide *;
    ghost var before := c[..];
    NothingStored(o, before);
    NoTiles(blocks);
    for j := 0 to |blocks|
      invariant StoredBy(o, before, c[..], OfTiles(blocks[..j]))
    {
      NextTile(blocks, j);
      Block(o, c, blocks[j], before, OfTiles(blocks[..j]));
    }
    assert blocks[..|blocks|] == blocks;
  }

  lemma NoTiles(blocks: seq<U32>)
    ensures OfTiles(blocks[..0]) == iset{}
  {
  }

  lemma NextTile(blocks: seq<U32>, j: nat)
    requires forall i, k :: 0 <= i < k < |blocks| ==> blocks[i] != blocks[k]
    requires j < |blocks| && blocks[j] < MAX_TILES
    ensures forall w: Owner :: w in OfTiles(blocks[..j]) ==> w.tile != BlockTile(blocks[j])
    ensures OfTiles(blocks[..j + 1]) == OfTiles(blocks[..j]) + BlockOwners(BlockTile(blocks[j]), 64, 0)
  {
    assert blocks[..j + 1] == blocks[..j] + [blocks[j]];
    assert BlockTile(blocks[j]) == blocks[j];
  }

  lemma AdmittedMeans(o: Operands, cLen: nat)
    requires Admitted(o.s, |o.a|, |o.b|, cLen)
    ensures Loadable(o) && (o.s.n > 0 ==> Storable(o, cLen))
  {
  }

  lemma NoColumns(o: Operands, c: seq<real>, done: iset<Owner>)
    requires Loadable(o) && o.s.n == 0
    ensures StoredBy(o, c, c, done)
  {
  }

  lemma CoveredHere(o: Operands, c0: seq<real>, c: seq<real>, blocks: seq<U32>, row: nat, column: nat)
    requires Storable(o, |c|) && Loadable(o) && StoredBy(o, c0, c, OfTiles(blocks))
    requires forall b: nat :: b < Tiles(o.s) ==> b in blocks
    requires row < o.s.m && column < o.s.n
    ensures ElementLeft(o, c0, c, row, column, true)
  {
    hide *;
    OwnersAreElements(o.s, row, column);
    StoredAt(o, c0, c, blocks, row, column);
  }

  lemma TilesAre(s: Shape)
    ensures Tiles(s) == ((s.m + 15) / 16) * ((s.n + 15) / 16)
  {
  }

  lemma UpdatedElement(o: Operands, c0: seq<real>, c: seq<real>, row: nat, column: nat)
    requires Loadable(o) && row < o.s.m && column < o.s.n && ElementLeft(o, c0, c, row, column, true)
    ensures 0 <= row * o.s.ldc + column < |c| == |c0|
    ensures c[row * o.s.ldc + column] == o.alpha * Product(o, row, column, o.s.k) + o.beta * c0[row * o.s.ldc + column]
  {
    hide Product, Loadable;
  }

  /** Main result: a launch that covers every tile leaves alpha A B + beta C in every element
      of C ... */
  lemma CoveredLaunch(o: Operands, c0: seq<real>, c: seq<real>, blocks: seq<U32>, row: nat, column: nat)
    requires Storable(o, |c|) && Loadable(o) && StoredBy(o, c0, c, OfTiles(blocks))
    requires forall b: nat :: b < ((o.s.m + 15) / 16) * ((o.s.n + 15) / 16) ==> b in blocks
    requires row < o.s.m && column < o.s.n
    ensures 0 <= row * o.s.ldc + column < |c| == |c0|
    ensures c[row * o.s.ldc + column] == o.alpha * Product(o, row, column, o.s.k) + o.beta * c0[row * o.s.ldc + column]
  {
    hide *;
    TilesAre(o.s);
    CoveredHere(o, c0, c, blocks, row, column);
    UpdatedElement(o, c0, c, row, column);
  }

  /** ... and its old value everywhere else, whatever the blocks. */
  lemma CoveredElsewhere(o: Operands, c0: seq<real>, c: seq<real>, blocks: seq<U32>, i: nat)
    requires Storable(o, |c|) && Loadable(o) && StoredBy(o, c0, c, OfTiles(blocks))
    requires i < |c| && Unowned(o.s, i)
    ensures |c| == |c0| && c[i] == c0[i]
  {
    StoredMeans(o, c0, c, blocks);
  }

}
