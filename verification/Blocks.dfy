/** Block-wise views of a weight matrix, on row-major storage.

    A tensor is the flat sequence of its elements; a view only changes how positions are
    numbered, and a transposition permutes the elements. */
module Blocks {
  import opened Arith

  /** The position of element (i0, i1, i2, i3) in a tensor of shape (_, d1, d2, d3). */
  function Index4(d1: nat, d2: nat, d3: nat, i0: nat, i1: nat, i2: nat, i3: nat): nat {
    ((i0 * d1 + i1) * d2 + i2) * d3 + i3
  }

  function Size4(d0: nat, d1: nat, d2: nat, d3: nat): nat {
    d0 * d1 * d2 * d3
  }

  lemma PairBound(m: nat, n: nat, i: nat, j: nat)
    requires i < m && j < n
    ensures i * n + j < m * n
  {
    assert (i + 1) * n <= m * n;
    assert (i + 1) * n == i * n + n;
  }

  lemma Index4Bound(d0: nat, d1: nat, d2: nat, d3: nat, i0: nat, i1: nat, i2: nat, i3: nat)
    requires i0 < d0 && i1 < d1 && i2 < d2 && i3 < d3
    ensures Index4(d1, d2, d3, i0, i1, i2, i3) < Size4(d0, d1, d2, d3)
  {
    PairBound(d0, d1, i0, i1);
    PairBound(d0 * d1, d2, i0 * d1 + i1, i2);
    PairBound(d0 * d1 * d2, d3, (i0 * d1 + i1) * d2 + i2, i3);
  }

  /** Regrouping two inner dimensions into one. */
  lemma Regroup(x: int, n: int, b: int, w: int, j: int)
    ensures (x * n + b) * w + j == x * (n * w) + (b * w + j)
  {
    assert (x * n + b) * w == (x * n) * w + b * w;
    assert (x * n) * w == x * (n * w);
  }

  // ----- Swapping the middle dimensions

  /** Where the element at position `k` of the transposed tensor, of shape (_, d2, d1, d3), comes from. */
  function Origin(d1: nat, d2: nat, d3: nat, k: nat): nat
    requires d1 > 0 && d2 > 0 && d3 > 0
  {
    var row := k / d3;
    var outer := row / d1;
    Index4(d1, d2, d3, outer / d2, row % d1, outer % d2, k % d3)
  }

  lemma OriginOf(d1: nat, d2: nat, d3: nat, i0: nat, i1: nat, i2: nat, i3: nat)
    requires i1 < d1 && i2 < d2 && i3 < d3
    ensures Origin(d1, d2, d3, Index4(d2, d1, d3, i0, i2, i1, i3)) == Index4(d1, d2, d3, i0, i1, i2, i3)
  {
    var outer := i0 * d2 + i2;
    var row := outer * d1 + i1;
    DivModUnique(row * d3 + i3, d3, row, i3);
    DivModUnique(row, d1, outer, i1);
    DivModUnique(outer, d2, i0, i2);
  }

  lemma DivBound(k: nat, m: nat, d: nat)
    requires d > 0 && k < m * d
    ensures k / d < m
  {
    var q := k / d;
    assert k == d * q + k % d;
    assert q >= m ==> d * q >= d * m;
  }

  lemma OriginBound(d0: nat, d1: nat, d2: nat, d3: nat, k: nat)
    requires d1 > 0 && d2 > 0 && d3 > 0 && k < Size4(d0, d2, d1, d3)
    ensures Origin(d1, d2, d3, k) < Size4(d0, d1, d2, d3)
  {
    var row := k / d3;
    DivBound(k, d0 * d2 * d1, d3);
    DivBound(row, d0 * d2, d1);
    DivBound(row / d1, d0, d2);
    Index4Bound(d0, d1, d2, d3, row / d1 / d2, row % d1, row / d1 % d2, k % d3);
  }

  lemma SameSize(d0: nat, d1: nat, d2: nat, d3: nat)
    ensures Size4(d0, d1, d2, d3) == Size4(d0, d2, d1, d3)
  {
    assert d0 * d1 * d2 == d0 * d2 * d1;
  }

  /** `t.transpose(1, 2)` of a tensor of shape (d0, d1, d2, d3). */
  function Transpose<T>(t: seq<T>, d0: nat, d1: nat, d2: nat, d3: nat): (r: seq<T>)
    requires |t| == Size4(d0, d1, d2, d3) && d1 > 0 && d2 > 0 && d3 > 0
    ensures |r| == |t|
  {
    SameSize(d0, d1, d2, d3);
    seq(|t|, k requires 0 <= k < |t| =>
      assert Origin(d1, d2, d3, k) < |t| by { SameSize(d0, d1, d2, d3); OriginBound(d0, d1, d2, d3, k); }
      t[Origin(d1, d2, d3, k)])
  }

  /** Swapping the dimensions swaps the indices. */
  lemma TransposeAt<T>(t: seq<T>, d0: nat, d1: nat, d2: nat, d3: nat, i0: nat, i1: nat, i2: nat, i3: nat)
    requires |t| == Size4(d0, d1, d2, d3) && i0 < d0 && i1 < d1 && i2 < d2 && i3 < d3
    ensures Index4(d2, d1, d3, i0, i2, i1, i3) < |t| && Index4(d1, d2, d3, i0, i1, i2, i3) < |t|
    ensures Transpose(t, d0, d1, d2, d3)[Index4(d2, d1, d3, i0, i2, i1, i3)] == t[Index4(d1, d2, d3, i0, i1, i2, i3)]
  {
    SameSize(d0, d1, d2, d3);
    Index4Bound(d0, d1, d2, d3, i0, i1, i2, i3);
    Index4Bound(d0, d2, d1, d3, i0, i2, i1, i3);
    OriginOf(d1, d2, d3, i0, i1, i2, i3);
  }

  // ----- Flattening a weight into blocks

  /** A block grid: `br` by `bc` blocks of `h` by `w` elements. */
  datatype Grid = Grid(br: nat, bc: nat, h: nat, w: nat)
  {
    predicate Proper() { br > 0 && bc > 0 && h > 0 && w > 0 }

    function Rows(): nat { br * h }

    function Cols(): nat { bc * w }
  }

  lemma GridSize(g: Grid)
    ensures Size4(g.br, g.h, g.bc, g.w) == g.Rows() * g.Cols()
  {
    assert g.br * g.h * g.bc * g.w == (g.br * g.h) * (g.bc * g.w);
  }

  /** Reshape to (br, h, bc, w), swap the middle dimensions, flatten the last two. */
  function FlattenBlocks<T>(value: seq<T>, g: Grid): (r: seq<T>)
    requires g.Proper() && |value| == g.Rows() * g.Cols()
    ensures |r| == |value|
  {
    GridSize(g);
    Transpose(value, g.br, g.h, g.bc, g.w)
  }

  /** Element (r, c) of a matrix of the grid's shape. */
  function MatrixIndex(g: Grid, r: nat, c: nat): nat {
    r * g.Cols() + c
  }

  /** Element `offset` of block (a, b) after flattening. */
  function BlockIndex(g: Grid, a: nat, b: nat, offset: nat): nat {
    (a * g.bc + b) * (g.h * g.w) + offset
  }

  /** Row a * h + i and column b * w + j: the two ways of numbering an element. */
  lemma Coordinates(g: Grid, a: nat, i: nat, b: nat, j: nat)
    requires a < g.br && i < g.h && b < g.bc && j < g.w
    ensures a * g.h + i < g.Rows() && b * g.w + j < g.Cols() && i * g.w + j < g.h * g.w
    ensures MatrixIndex(g, a * g.h + i, b * g.w + j) == Index4(g.h, g.bc, g.w, a, i, b, j)
    ensures BlockIndex(g, a, b, i * g.w + j) == Index4(g.bc, g.h, g.w, a, b, i, j)
  {
    PairBound(g.br, g.h, a, i);
    PairBound(g.bc, g.w, b, j);
    PairBound(g.h, g.w, i, j);
    Regroup(a * g.h + i, g.bc, b, g.w, j);
    Regroup(a * g.bc + b, g.h, i, g.w, j);
  }

  /** A number below m * d splits into a quotient below m and a remainder. */
  lemma Splits(x: nat, m: nat, d: nat)
    requires d > 0 && x < m * d
    ensures x / d < m && x % d < d && x == x / d * d + x % d
  {
    DivBound(x, m, d);
  }

  /** Element (r, c) goes to block (r / h, c / w), at offset (r % h) * w + c % w. */
  lemma FlattenBlocksAt<T>(value: seq<T>, g: Grid, r: nat, c: nat)
    requires g.Proper() && |value| == g.Rows() * g.Cols() && r < g.Rows() && c < g.Cols()
    ensures var k := BlockIndex(g, r / g.h, c / g.w, r % g.h * g.w + c % g.w);
            MatrixIndex(g, r, c) < |value| && k < |value| && FlattenBlocks(value, g)[k] == value[MatrixIndex(g, r, c)]
  {
    Splits(r, g.br, g.h);
    Splits(c, g.bc, g.w);
    GridSize(g);
    Coordinates(g, r / g.h, r % g.h, c / g.w, c % g.w);
    TransposeAt(value, g.br, g.h, g.bc, g.w, r / g.h, r % g.h, c / g.w, c % g.w);
  }

  /** The element at a place of a block. */
  function Home(g: Grid, a: nat, b: nat, offset: nat): (nat, nat)
    requires g.Proper()
  {
    (a * g.h + offset / g.w, b * g.w + offset % g.w)
  }

  /** Flattening is a bijection: Home is the inverse of the numbering by blocks. */
  lemma HomeOfElement(g: Grid, r: nat, c: nat)
    requires g.Proper() && r < g.Rows() && c < g.Cols()
    ensures Home(g, r / g.h, c / g.w, r % g.h * g.w + c % g.w) == (r, c)
  {
    Splits(r, g.br, g.h);
    Splits(c, g.bc, g.w);
    var i, j := r % g.h, c % g.w;
    DivModUnique(i * g.w + j, g.w, i, j);
  }

  lemma ElementOfHome(g: Grid, a: nat, b: nat, offset: nat)
    requires g.Proper() && a < g.br && b < g.bc && offset < g.h * g.w
    ensures var (r, c) := Home(g, a, b, offset);
            r < g.Rows() && c < g.Cols() && r / g.h == a && c / g.w == b && r % g.h * g.w + c % g.w == offset
  {
    Splits(offset, g.h, g.w);
    var i, j := offset / g.w, offset % g.w;
    Coordinates(g, a, i, b, j);
    DivModUnique(a * g.h + i, g.h, a, i);
    DivModUnique(b * g.w + j, g.w, b, j);
  }

  /** Flattening into rows (CHANNEL) or groups along the rows (GROUP) only renumbers. */
  lemma FlattenGroupsAt(cols: nat, size: nat, r: nat, c: nat)
    requires size > 0 && cols % size == 0 && c < cols
    ensures c / size < cols / size && r * cols + c == (r * (cols / size) + c / size) * size + c % size
  {
    var n := cols / size;
    assert cols == n * size;
    Splits(c, n, size);
    Regroup(r, n, c / size, size, c % size);
  }

  // ----- Dequantisation

  /** Multiply the elements of every group of `size` by the group's scale. */
  function ScaleGroups(t: seq<real>, size: nat, scale: seq<real>): (r: seq<real>)
    requires size > 0 && |t| == |scale| * size
    ensures |r| == |t|
  {
    seq(|t|, k requires 0 <= k < |t| =>
      assert k / size < |scale| by { DivBound(k, |scale|, size); }
      t[k] * scale[k / size])
  }

  lemma ScaleGroupsAt(t: seq<real>, size: nat, scale: seq<real>, g: nat, o: nat, k: nat)
    requires |t| == |scale| * size && g < |scale| && o < size && k == g * size + o
    ensures k < |t| && ScaleGroups(t, size, scale)[k] == t[k] * scale[g]
  {
    PairBound(|scale|, size, g, o);
    DivModUnique(k, size, g, o);
  }

  /** Blocks to groups, scale each group, groups back to blocks. */
  function WeightDequant(weight: seq<real>, scale: seq<real>, g: Grid): (r: seq<real>)
    requires g.Proper() && |weight| == g.Rows() * g.Cols() && |scale| == g.br * g.bc
    ensures |r| == |weight|
  {
    GroupsSize(g);
    Transpose(ScaleGroups(FlattenBlocks(weight, g), g.h * g.w, scale), g.br, g.bc, g.h, g.w)
  }

  lemma GroupsSize(g: Grid)
    ensures g.Rows() * g.Cols() == g.br * g.bc * (g.h * g.w)
    ensures g.Rows() * g.Cols() == Size4(g.br, g.bc, g.h, g.w)
    ensures g.h > 0 && g.w > 0 ==> g.h * g.w > 0
  {
    GridSize(g);
    SameSize(g.br, g.h, g.bc, g.w);
    var n := g.br * g.bc;
    assert n * g.h * g.w == n * (g.h * g.w);
  }

  function BlockNumber(g: Grid, a: nat, b: nat): nat {
    a * g.bc + b
  }

  /** The place of element (i, j) of block (a, b) in the matrix, and among the flattened blocks. */
  function InMatrix(g: Grid, a: nat, i: nat, b: nat, j: nat): nat { Index4(g.h, g.bc, g.w, a, i, b, j) }

  function InBlocks(g: Grid, a: nat, i: nat, b: nat, j: nat): nat { Index4(g.bc, g.h, g.w, a, b, i, j) }

  lemma Flattened(weight: seq<real>, g: Grid, a: nat, i: nat, b: nat, j: nat)
    requires g.Proper() && |weight| == g.Rows() * g.Cols()
    requires a < g.br && i < g.h && b < g.bc && j < g.w
    ensures InMatrix(g, a, i, b, j) < |weight| && InBlocks(g, a, i, b, j) < |weight|
    ensures FlattenBlocks(weight, g)[InBlocks(g, a, i, b, j)] == weight[InMatrix(g, a, i, b, j)]
  {
    GridSize(g);
    TransposeAt(weight, g.br, g.h, g.bc, g.w, a, i, b, j);
  }

  lemma InGroup(g: Grid, a: nat, i: nat, b: nat, j: nat)
    requires i < g.h && j < g.w
    ensures i * g.w + j < g.h * g.w
    ensures InBlocks(g, a, i, b, j) == BlockNumber(g, a, b) * (g.h * g.w) + (i * g.w + j)
  {
    PairBound(g.h, g.w, i, j);
    Regroup(a * g.bc + b, g.h, i, g.w, j);
  }

  lemma Scaled(t: seq<real>, scale: seq<real>, g: Grid, size: nat, a: nat, i: nat, b: nat, j: nat)
    requires |scale| == g.br * g.bc && size == g.h * g.w && |t| == |scale| * size
    requires a < g.br && i < g.h && b < g.bc && j < g.w
    ensures BlockNumber(g, a, b) < |scale| && InBlocks(g, a, i, b, j) < |t| && size > 0
    ensures ScaleGroups(t, size, scale)[InBlocks(g, a, i, b, j)]
            == t[InBlocks(g, a, i, b, j)] * scale[BlockNumber(g, a, b)]
  {
    PairBound(g.br, g.bc, a, b);
    InGroup(g, a, i, b, j);
    ScaleGroupsAt(t, size, scale, BlockNumber(g, a, b), i * g.w + j, InBlocks(g, a, i, b, j));
  }

  lemma Unflattened(t: seq<real>, g: Grid, a: nat, i: nat, b: nat, j: nat)
    requires g.Proper() && |t| == Size4(g.br, g.bc, g.h, g.w)
    requires a < g.br && i < g.h && b < g.bc && j < g.w
    ensures InMatrix(g, a, i, b, j) < |t| && InBlocks(g, a, i, b, j) < |t|
    ensures Transpose(t, g.br, g.bc, g.h, g.w)[InMatrix(g, a, i, b, j)] == t[InBlocks(g, a, i, b, j)]
  {
    TransposeAt(t, g.br, g.bc, g.h, g.w, a, b, i, j);
  }

  /** The three steps of the dequantisation move and scale one element. */
  lemma Composed(weight: seq<real>, scale: seq<real>, g: Grid, here: nat, there: nat, block: nat)
    requires g.Proper() && |weight| == g.Rows() * g.Cols() && |scale| == g.br * g.bc
    requires g.h * g.w > 0 && |weight| == |scale| * (g.h * g.w) && |weight| == Size4(g.br, g.bc, g.h, g.w)
    requires here < |weight| && there < |weight| && block < |scale|
    requires FlattenBlocks(weight, g)[there] == weight[here]
    requires ScaleGroups(FlattenBlocks(weight, g), g.h * g.w, scale)[there]
             == FlattenBlocks(weight, g)[there] * scale[block]
    requires var t := ScaleGroups(FlattenBlocks(weight, g), g.h * g.w, scale);
             Transpose(t, g.br, g.bc, g.h, g.w)[here] == t[there]
    ensures WeightDequant(weight, scale, g)[here] == weight[here] * scale[block]
  {
  }

  lemma WeightDequantBlock(weight: seq<real>, scale: seq<real>, g: Grid, a: nat, i: nat, b: nat, j: nat)
    requires g.Proper() && |weight| == g.Rows() * g.Cols() && |scale| == g.br * g.bc
    requires a < g.br && i < g.h && b < g.bc && j < g.w
    ensures InMatrix(g, a, i, b, j) < |weight| && BlockNumber(g, a, b) < |scale|
    ensures WeightDequant(weight, scale, g)[InMatrix(g, a, i, b, j)]
            == weight[InMatrix(g, a, i, b, j)] * scale[BlockNumber(g, a, b)]
  {
    GroupsSize(g);
    Flattened(weight, g, a, i, b, j);
    Scaled(FlattenBlocks(weight, g), scale, g, g.h * g.w, a, i, b, j);
    Unflattened(ScaleGroups(FlattenBlocks(weight, g), g.h * g.w, scale), g, a, i, b, j);
    Composed(weight, scale, g, InMatrix(g, a, i, b, j), InBlocks(g, a, i, b, j), BlockNumber(g, a, b));
  }

  /** The scale of the block that holds element (r, c). */
  function ScaleIndex(g: Grid, r: nat, c: nat): nat
    requires g.Proper()
  {
    BlockNumber(g, r / g.h, c / g.w)
  }

  lemma SamePlace(g: Grid, r: nat, c: nat)
    requires g.Proper() && r < g.Rows() && c < g.Cols()
    ensures r / g.h < g.br && r % g.h < g.h && c / g.w < g.bc && c % g.w < g.w
    ensures MatrixIndex(g, r, c) == InMatrix(g, r / g.h, r % g.h, c / g.w, c % g.w)
  {
    Splits(r, g.br, g.h);
    Splits(c, g.bc, g.w);
    Coordinates(g, r / g.h, r % g.h, c / g.w, c % g.w);
  }

  /** Every element is multiplied by the scale of its block. */
  lemma WeightDequantAt(weight: seq<real>, scale: seq<real>, g: Grid, r: nat, c: nat)
    requires g.Proper() && |weight| == g.Rows() * g.Cols() && |scale| == g.br * g.bc
    requires r < g.Rows() && c < g.Cols()
    ensures MatrixIndex(g, r, c) < |weight| && ScaleIndex(g, r, c) < |scale|
    ensures WeightDequant(weight, scale, g)[MatrixIndex(g, r, c)]
            == weight[MatrixIndex(g, r, c)] * scale[ScaleIndex(g, r, c)]
  {
    SamePlace(g, r, c);
    WeightDequantBlock(weight, scale, g, r / g.h, r % g.h, c / g.w, c % g.w);
  }
}
