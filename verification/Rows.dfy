/** Tensors seen as matrices whose rows are numbered by all coordinates but the last. Indexing and
    permuting the leading axes move whole rows, and a product of factors moves with them. */
module Rows {

  import opened Tensors

  // ---------------------------------------------------------------- tensors as rows

  /** Column `x` of row `row` of a matrix of width `w`; 0 outside the data. */
  function Cell(d: seq<int>, w: nat, row: nat, x: nat): int {
    var i := row * w + x;
    if i < |d| then d[i] else 0
  }

  /** `d'` holds, row by row, the columns from `lo` of the given rows of `d`. */
  ghost predicate Moves(d: seq<int>, w: nat, d': seq<int>, len: nat, lo: nat, rows: seq<nat>) {
    && |d'| == |rows| * len
    && forall row, x: nat :: 0 <= row < |rows| && x < len ==> Cell(d', len, row, x) == Cell(d, w, rows[row], lo + x)
  }

  lemma CellAt(d: seq<int>, w: nat, i: nat)
    requires w > 0 && i < |d|
    ensures d[i] == Cell(d, w, i / w, i % w)
  {
    assert i == (i / w) * w + i % w;
  }

  lemma SameMatrix(d: seq<int>, e: seq<int>, w: nat, rows: nat)
    requires |d| == |e| == rows * w
    requires forall row, x: nat :: 0 <= row < rows && x < w ==> Cell(d, w, row, x) == Cell(e, w, row, x)
    ensures d == e
  {
    forall i | 0 <= i < |d|
      ensures d[i] == e[i]
    {
      RowBound(i, rows, w);
      CellAt(d, w, i);
      CellAt(e, w, i);
    }
  }

  lemma MovesUnique(d: seq<int>, w: nat, a: seq<int>, b: seq<int>, len: nat, lo: nat, rows: seq<nat>)
    requires Moves(d, w, a, len, lo, rows) && Moves(d, w, b, len, lo, rows)
    ensures a == b
  {
    forall i | 0 <= i < |a|
      ensures a[i] == b[i]
    {
      RowBound(i, |rows|, len);
      CellAt(a, len, i);
      CellAt(b, len, i);
      assert Cell(a, len, i / len, i % len) == Cell(d, w, rows[i / len], lo + i % len);
    }
  }

  function Iota(n: nat): seq<nat> {
    seq(n, i requires 0 <= i < n => i)
  }

  // ---- indexing moves whole rows

  function PickRows(pre: seq<Pick>, dims: seq<nat>): (rows: seq<nat>)
    requires PicksFit(pre, dims)
    ensures |rows| == Prod(PickShape(pre))
    ensures forall i :: 0 <= i < |rows| ==> rows[i] < Prod(dims)
  {
    var s := PickShape(pre);
    seq(Prod(s), row requires 0 <= row < Prod(s) =>
      PickSourceFits(pre, Unflatten(s, row), dims);
      Flatten(dims, PickSource(pre, Unflatten(s, row))))
  }

  lemma PickRowAt(pre: seq<Pick>, dims: seq<nat>, c: seq<nat>)
    requires PicksFit(pre, dims) && InShape(c, PickShape(pre))
    ensures InShape(PickSource(pre, c), dims)
    ensures PickRows(pre, dims)[Flatten(PickShape(pre), c)] == Flatten(dims, PickSource(pre, c))
  {
    PickSourceFits(pre, c, dims);
    UnflattenFlatten(PickShape(pre), c);
  }

  lemma ProdSnoc(s: seq<nat>, w: nat)
    ensures Prod(s + [w]) == Prod(s) * w
  {
    assert (s + [w])[..|s|] == s;
  }

  lemma Prod3(a: nat, b: nat, c: nat)
    ensures Prod([a, b, c]) == a * b * c
  {
    ProdSnoc([], a);
    ProdSnoc([a], b);
    ProdSnoc([a, b], c);
    assert [] + [a] == [a] && [a] + [b] == [a, b] && [a, b] + [c] == [a, b, c];
  }

  lemma FlattenSnoc(s: seq<nat>, w: nat, c: seq<nat>, x: nat)
    requires InShape(c, s) && x < w
    ensures InShape(c + [x], s + [w]) && Flatten(s + [w], c + [x]) == Flatten(s, c) * w + x
  {
    assert (s + [w])[..|s|] == s && (c + [x])[..|c|] == c;
  }

  /** The last coordinate is the column, the others give the row. */
  lemma AtCell(t: Tensor, s: seq<nat>, w: nat, c: seq<nat>, x: nat)
    requires Valid(t) && t.shape == s + [w] && InShape(c, s) && x < w
    ensures InShape(c + [x], t.shape) && At(t, c + [x]) == Cell(t.data, w, Flatten(s, c), x)
  {
    FlattenSnoc(s, w, c, x);
  }

  lemma PickSnoc(pre: seq<Pick>, lo: nat, len: nat, c: seq<nat>, x: nat)
    requires InShape(c, PickShape(pre)) && x < len
    ensures PickShape(pre + [Range(lo, len)]) == PickShape(pre) + [len]
    ensures PickSource(pre + [Range(lo, len)], c + [x]) == PickSource(pre, c) + [lo + x]
  {
    var ps := pre + [Range(lo, len)];
    assert ps[..|pre|] == pre;
    assert InShape(c + [x], PickShape(ps));
    assert (c + [x])[..|c|] == c;
  }

  lemma PickShapeSnoc(pre: seq<Pick>, last: Pick)
    ensures PickShape(pre + [last]) == PickShape(pre) + (if last.One? then [] else [last.len])
  {
    assert (pre + [last])[..|pre|] == pre;
  }

  lemma PickCell(pre: seq<Pick>, lo: nat, len: nat, t: Tensor, dims: seq<nat>, w: nat, row: nat, x: nat)
    requires Valid(t) && t.shape == dims + [w] && PicksFit(pre, dims) && lo + len <= w
    requires PicksFit(pre + [Range(lo, len)], t.shape)
    requires row < Prod(PickShape(pre)) && x < len
    ensures Cell(PickTensor(pre + [Range(lo, len)], t).data, len, row, x)
            == Cell(t.data, w, PickRows(pre, dims)[row], lo + x)
  {
    var ps, s := pre + [Range(lo, len)], PickShape(pre);
    var u := Unflatten(s, row);
    FlattenUnflatten(s, row);
    PickShapeSnoc(pre, Range(lo, len));
    AtCell(PickTensor(ps, t), s, len, u, x);
    PickCellAt(pre, lo, len, t, dims, w, u, x);
  }

  lemma PickCellAt(pre: seq<Pick>, lo: nat, len: nat, t: Tensor, dims: seq<nat>, w: nat, u: seq<nat>, x: nat)
    requires Valid(t) && t.shape == dims + [w] && PicksFit(pre, dims) && lo + len <= w
    requires PicksFit(pre + [Range(lo, len)], t.shape)
    requires InShape(u, PickShape(pre)) && x < len
    ensures InShape(u + [x], PickShape(pre + [Range(lo, len)])) && InShape(PickSource(pre, u), dims)
    ensures At(PickTensor(pre + [Range(lo, len)], t), u + [x])
            == Cell(t.data, w, Flatten(dims, PickSource(pre, u)), lo + x)
  {
    PickSnoc(pre, lo, len, u, x);
    PickSourceFits(pre, u, dims);
    PickedCell(pre + [Range(lo, len)], t, u + [x], dims, w, PickSource(pre, u), lo + x);
  }

  lemma PickedCell(ps: seq<Pick>, t: Tensor, c: seq<nat>, dims: seq<nat>, w: nat, from: seq<nat>, x: nat)
    requires Valid(t) && t.shape == dims + [w] && PicksFit(ps, t.shape) && InShape(c, PickShape(ps))
    requires InShape(from, dims) && x < w && PickSource(ps, c) == from + [x]
    ensures At(PickTensor(ps, t), c) == Cell(t.data, w, Flatten(dims, from), x)
  {
    PickAt(ps, t, c);
    AtCell(t, dims, w, from, x);
  }

  lemma PickMoves(pre: seq<Pick>, lo: nat, len: nat, t: Tensor, dims: seq<nat>, w: nat)
    requires Valid(t) && t.shape == dims + [w] && PicksFit(pre, dims) && lo + len <= w
    ensures var ps := pre + [Range(lo, len)];
            && PicksFit(ps, t.shape) && PickShape(ps) == PickShape(pre) + [len]
            && Moves(t.data, w, PickTensor(ps, t).data, len, lo, PickRows(pre, dims))
  {
    var ps := pre + [Range(lo, len)];
    PicksFitSnoc(pre, lo, len, dims, w);
    PickShapeSnoc(pre, Range(lo, len));
    ProdSnoc(PickShape(pre), len);
    var d, rows := PickTensor(ps, t).data, PickRows(pre, dims);
    forall row, x: nat | 0 <= row < |rows| && x < len
      ensures Cell(d, len, row, x) == Cell(t.data, w, rows[row], lo + x)
    {
      PickCell(pre, lo, len, t, dims, w, row, x);
    }
  }

  lemma PicksFitSnoc(pre: seq<Pick>, lo: nat, len: nat, dims: seq<nat>, w: nat)
    requires PicksFit(pre, dims) && lo + len <= w
    ensures PicksFit(pre + [Range(lo, len)], dims + [w])
  {
  }

  // ---- a permutation that keeps the last axis moves whole rows

  lemma PermInit(p: seq<nat>, n: nat)
    requires IsPerm(p, n + 1) && p[n] == n
    ensures IsPerm(p[..n], n)
  {
    forall j: nat | j < n
      ensures j in p[..n]
    {
      assert j in p;
    }
  }

  function PermRows(p: seq<nat>, dims: seq<nat>): (rows: seq<nat>)
    requires IsPerm(p, |dims|)
    ensures |rows| == Prod(PermShape(p, dims))
    ensures forall i :: 0 <= i < |rows| ==> rows[i] < Prod(dims)
  {
    var s := PermShape(p, dims);
    seq(Prod(s), row requires 0 <= row < Prod(s) =>
      PermSourceFits(p, Unflatten(s, row), dims);
      Flatten(dims, PermSource(p, Unflatten(s, row))))
  }

  lemma PermSnoc(p: seq<nat>, c: seq<nat>, x: nat)
    requires IsPerm(p, |c| + 1) && p[|c|] == |c| && IsPerm(p[..|c|], |c|)
    ensures PermSource(p, c + [x]) == PermSource(p[..|c|], c) + [x]
  {
    var n := |c|;
    var a, b := PermSource(p, c + [x]), PermSource(p[..n], c) + [x];
    forall j: nat | j <= n
      ensures a[j] == b[j]
    {
      if j < n {
        assert p[Position(p[..n], j)] == j;
      }
    }
  }

  lemma PermCell(p: seq<nat>, t: Tensor, dims: seq<nat>, w: nat, row: nat, x: nat)
    requires Valid(t) && t.shape == dims + [w] && IsPerm(p, |dims| + 1) && p[|dims|] == |dims|
    requires IsPerm(p[..|dims|], |dims|) && row < Prod(PermShape(p[..|dims|], dims)) && x < w
    ensures Cell(PermTensor(p, t).data, w, row, x) == Cell(t.data, w, PermRows(p[..|dims|], dims)[row], x)
  {
    var p0 := p[..|dims|];
    var s := PermShape(p0, dims);
    assert PermShape(p, t.shape) == s + [w];
    var u := Unflatten(s, row);
    FlattenUnflatten(s, row);
    PermSnoc(p, u, x);
    AtCell(PermTensor(p, t), s, w, u, x);
    PermSourceFits(p0, u, dims);
    PermutedCell(p, t, u + [x], dims, w, PermSource(p0, u), x);
  }

  lemma PermutedCell(p: seq<nat>, t: Tensor, c: seq<nat>, dims: seq<nat>, w: nat, from: seq<nat>, x: nat)
    requires Valid(t) && t.shape == dims + [w] && IsPerm(p, |dims| + 1) && InShape(c, PermShape(p, t.shape))
    requires InShape(from, dims) && x < w && PermSource(p, c) == from + [x]
    ensures At(PermTensor(p, t), c) == Cell(t.data, w, Flatten(dims, from), x)
  {
    PermSourceAt(p, t, c);
    AtCell(t, dims, w, from, x);
  }

  lemma PermMoves(p: seq<nat>, t: Tensor, dims: seq<nat>, w: nat)
    requires Valid(t) && t.shape == dims + [w] && IsPerm(p, |dims| + 1) && p[|dims|] == |dims|
    requires IsPerm(p[..|dims|], |dims|)
    ensures PermShape(p, t.shape) == PermShape(p[..|dims|], dims) + [w]
    ensures Moves(t.data, w, PermTensor(p, t).data, w, 0, PermRows(p[..|dims|], dims))
  {
    var p0 := p[..|dims|];
    assert PermShape(p, t.shape) == PermShape(p0, dims) + [w];
    ProdSnoc(PermShape(p0, dims), w);
    forall row, x: nat | 0 <= row < Prod(PermShape(p0, dims)) && x < w
      ensures Cell(PermTensor(p, t).data, w, row, x) == Cell(t.data, w, PermRows(p0, dims)[row], x)
    {
      PermCell(p, t, dims, w, row, x);
    }
  }

  // ---------------------------------------------------------------- the product

  function Dot(a: seq<int>, b: seq<int>, rank: nat, cols: nat, row: nat, x: nat, k: nat): int {
    if k == 0 then 0
    else Dot(a, b, rank, cols, row, x, k - 1) + Cell(b, rank, row, k - 1) * Cell(a, cols, k - 1, x)
  }

  function ProductData(a: seq<int>, b: seq<int>, rank: nat, cols: nat, rows: nat): (d: seq<int>)
    ensures |d| == rows * cols
  {
    seq(rows * cols, i requires 0 <= i < rows * cols =>
      RowBound(i, rows, cols);
      Dot(a, b, rank, cols, i / cols, i % cols, rank))
  }

  lemma ProductCell(a: seq<int>, b: seq<int>, rank: nat, cols: nat, rows: nat, row: nat, x: nat)
    requires row < rows && x < cols
    ensures Cell(ProductData(a, b, rank, cols, rows), cols, row, x) == Dot(a, b, rank, cols, row, x, rank)
  {
    CellBound(row, rows, x, cols);
    CellSplit(row, x, cols);
  }

  lemma {:induction false} DotMoves(a: seq<int>, b: seq<int>, rank: nat, cols: nat, row: nat, x: nat,
                                    a': seq<int>, b': seq<int>, cols': nat, row': nat, x': nat, k: nat)
    requires k <= rank
    requires forall r: nat :: r < k ==> Cell(b', rank, row', r) == Cell(b, rank, row, r)
    requires forall r: nat :: r < k ==> Cell(a', cols', r, x') == Cell(a, cols, r, x)
    ensures Dot(a', b', rank, cols', row', x', k) == Dot(a, b, rank, cols, row, x, k)
  {
    if k > 0 {
      DotMoves(a, b, rank, cols, row, x, a', b', cols', row', x', k - 1);
    }
  }

  /** Moving rows of B and columns of A moves the same rows and columns of the product. */
  lemma ProductMoves(a: seq<int>, b: seq<int>, a': seq<int>, b': seq<int>, rank: nat, cols: nat, n: nat,
                     len: nat, lo: nat, rows: seq<nat>)
    requires Moves(b, rank, b', rank, 0, rows) && Moves(a, cols, a', len, lo, Iota(rank)) && lo + len <= cols
    requires forall i :: 0 <= i < |rows| ==> rows[i] < n
    ensures Moves(ProductData(a, b, rank, cols, n), cols, ProductData(a', b', rank, len, |rows|), len, lo, rows)
  {
    forall row: nat, x: nat | row < |rows| && x < len
      ensures Cell(ProductData(a', b', rank, len, |rows|), len, row, x)
              == Cell(ProductData(a, b, rank, cols, n), cols, rows[row], lo + x)
    {
      ProductCell(a', b', rank, len, |rows|, row, x);
      ProductCell(a, b, rank, cols, n, rows[row], lo + x);
      forall r: nat | r < rank
        ensures Cell(b', rank, row, r) == Cell(b, rank, rows[row], r)
        ensures Cell(a', len, r, x) == Cell(a, cols, r, lo + x)
      {
        assert Cell(b', rank, row, r) == Cell(b, rank, rows[row], 0 + r);
        assert Iota(rank)[r] == r;
      }
      DotMoves(a, b, rank, cols, rows[row], lo + x, a', b', len, row, x, rank);
    }
  }
}
