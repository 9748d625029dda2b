/** Two rearrangements of weights in convert_hf_to_gguf.py that must lose nothing: the repacking of
    MXFP4 blocks and the regrouping of Falcon's fused query/key/value rows. */
module Layout {

  import opened Wrappers
  import opened Tensors
  import opened Rows

  // ---------------------------------------------------------------- MXFP4 blocks

  type Nibble = v: int | 0 <= v < 16

  function Low(b: Byte): Nibble {
    b % 16
  }

  function High(b: Byte): Nibble {
    b / 16
  }

  function Both(low: Nibble, high: Nibble): (b: Byte)
    ensures Low(b) == low && High(b) == high
  {
    low + 16 * high
  }

  /** The 32 values of a source block: each byte holds two neighbours, the first in its low half. */
  function Values(src: seq<Byte>): (vals: seq<Nibble>)
    requires |src| == 16
    ensures |vals| == 32
  {
    seq(32, i requires 0 <= i < 32 => if i % 2 == 0 then Low(src[i / 2]) else High(src[i / 2]))
  }

  /** A target block: the scale, then bytes holding value j and value 16 + j. */
  function PackBlock(src: seq<Byte>, scale: Byte): (block: seq<Byte>)
    requires |src| == 16
    ensures |block| == 17
  {
    [scale] + seq(16, j requires 0 <= j < 16 => Both(Values(src)[j], Values(src)[16 + j]))
  }

  function PackBlocks(src: seq<Byte>, scales: seq<Byte>, n: nat): (row: seq<Byte>)
    requires |src| == 16 * |scales| && n <= |scales|
    ensures |row| == 17 * n
  {
    if n == 0 then []
    else PackBlocks(src, scales, n - 1) + PackBlock(src[16 * (n - 1)..16 * n], scales[n - 1])
  }

  /** A whole row; rows must have a multiple of 32 values, and one scale per 32. */
  function PackRow(src: seq<Byte>, scales: seq<Byte>): Outcome<seq<Byte>> {
    if (2 * |src|) % 32 != 0 || |scales| != 2 * |src| / 32 then Err(BadShape)
    else Ok(PackBlocks(src, scales, |scales|))
  }

  /** Value `i` of a target block. */
  function ValueIn(block: seq<Byte>, i: nat): Nibble
    requires |block| == 17 && i < 32
  {
    if i < 16 then Low(block[1 + i]) else High(block[1 + i - 16])
  }

  lemma BlockKeeps(src: seq<Byte>, scale: Byte)
    requires |src| == 16
    ensures PackBlock(src, scale)[0] == scale
    ensures forall i: nat :: i < 32 ==> ValueIn(PackBlock(src, scale), i) == Values(src)[i]
  {
  }

  lemma {:induction false} BlockAt(src: seq<Byte>, scales: seq<Byte>, n: nat, b: nat)
    requires |src| == 16 * |scales| && b < n <= |scales|
    ensures PackBlocks(src, scales, n)[17 * b..17 * b + 17] == PackBlock(src[16 * b..16 * b + 16], scales[b])
  {
    if b < n - 1 {
      BlockAt(src, scales, n - 1, b);
      assert PackBlocks(src, scales, n)[17 * b..17 * b + 17] == PackBlocks(src, scales, n - 1)[17 * b..17 * b + 17];
    }
  }

  /** Every block of a packed row sits at a stride of 17 bytes and gives back its scale and all 32
      values; packing is refused exactly for rows of the wrong shape. */
  lemma PackRowKeeps(src: seq<Byte>, scales: seq<Byte>)
    ensures PackRow(src, scales).Ok? <==> |src| == 16 * |scales|
    ensures PackRow(src, scales).Ok? ==> |PackRow(src, scales).value| == 17 * |scales|
    ensures PackRow(src, scales).Ok? ==>
              forall b :: 0 <= b < |scales| ==> BlockKept(src, scales, PackRow(src, scales).value, b)
  {
    if PackRow(src, scales).Ok? {
      forall b | 0 <= b < |scales|
        ensures BlockKept(src, scales, PackRow(src, scales).value, b)
      {
        BlockAt(src, scales, |scales|, b);
        BlockKeeps(src[16 * b..16 * b + 16], scales[b]);
      }
    }
  }

  ghost predicate BlockKept(src: seq<Byte>, scales: seq<Byte>, row: seq<Byte>, b: nat)
    requires |src| == 16 * |scales| && |row| == 17 * |scales| && b < |scales|
  {
    var block := row[17 * b..17 * b + 17];
    && block[0] == scales[b]
    && forall i: nat :: i < 32 ==> ValueIn(block, i) == Values(src[16 * b..16 * b + 16])[i]
  }

  lemma ValuesInjective(x: seq<Byte>, y: seq<Byte>)
    requires |x| == |y| == 16 && Values(x) == Values(y)
    ensures x == y
  {
    forall k | 0 <= k < 16
      ensures x[k] == y[k]
    {
      assert Values(x)[2 * k] == Low(x[k]) && Values(x)[2 * k + 1] == High(x[k]);
      assert Values(y)[2 * k] == Low(y[k]) && Values(y)[2 * k + 1] == High(y[k]);
    }
  }

  lemma SameBlock(src: seq<Byte>, scales: seq<Byte>, src': seq<Byte>, scales': seq<Byte>, row: seq<Byte>, b: nat)
    requires |src| == |src'| == 16 * |scales| && |scales| == |scales'| && |row| == 17 * |scales| && b < |scales|
    requires BlockKept(src, scales, row, b) && BlockKept(src', scales', row, b)
    ensures scales[b] == scales'[b] && src[16 * b..16 * b + 16] == src'[16 * b..16 * b + 16]
  {
    var x, y := src[16 * b..16 * b + 16], src'[16 * b..16 * b + 16];
    var block := row[17 * b..17 * b + 17];
    forall i: nat | i < 32
      ensures Values(x)[i] == Values(y)[i]
    {
      assert ValueIn(block, i) == Values(x)[i];
    }
    ValuesInjective(x, y);
  }

  /** No two sources pack to the same row. */
  lemma PackRowInjective(src: seq<Byte>, scales: seq<Byte>, src': seq<Byte>, scales': seq<Byte>)
    requires PackRow(src, scales).Ok? && PackRow(src, scales) == PackRow(src', scales')
    ensures src == src' && scales == scales'
  {
    PackRowKeeps(src, scales);
    PackRowKeeps(src', scales');
    forall b | 0 <= b < |scales|
      ensures scales[b] == scales'[b] && src[16 * b..16 * b + 16] == src'[16 * b..16 * b + 16]
    {
      SameBlock(src, scales, src', scales', PackRow(src, scales).value, b);
    }
    forall i | 0 <= i < |src|
      ensures src[i] == src'[i]
    {
      var b := i / 16;
      assert src[16 * b..16 * b + 16][i - 16 * b] == src'[16 * b..16 * b + 16][i - 16 * b];
    }
  }

  // ---------------------------------------------------------------- Falcon's fused rows

  /** The slots `lo` up to `lo + len` of every group, of a tensor with groups, slots, positions and columns. */
  function Slots(kv: nat, lo: nat, len: nat, d: nat, w: nat): seq<Pick> {
    [Range(0, kv), Range(lo, len), Range(0, d)] + [Range(0, w)]
  }

  lemma OneCoordinate(kv: nat, g: nat)
    requires g < kv
    ensures PickShape([Range(0, kv)]) == [kv] && PickSource([Range(0, kv)], [g]) == [g]
  {
    PickSnoc([], 0, kv, [], g);
    assert [] + [Range(0, kv)] == [Range(0, kv)] && [] + [g] == [g] && [] + [kv] == [kv];
  }

  lemma TwoCoordinates(kv: nat, lo: nat, len: nat, g: nat, j: nat)
    requires g < kv && j < len
    ensures var pre := [Range(0, kv), Range(lo, len)];
            PickShape(pre) == [kv, len] && InShape([g, j], PickShape(pre)) && PickSource(pre, [g, j]) == [g, lo + j]
  {
    OneCoordinate(kv, g);
    PickSnoc([Range(0, kv)], lo, len, [g], j);
    assert [Range(0, kv)] + [Range(lo, len)] == [Range(0, kv), Range(lo, len)];
    assert [g] + [j] == [g, j] && [kv] + [len] == [kv, len] && [g] + [lo + j] == [g, lo + j];
  }

  lemma SlotPicks(kv: nat, lo: nat, len: nat, d: nat, g: nat, j: nat, x: nat)
    requires g < kv && j < len && x < d
    ensures var pre := [Range(0, kv), Range(lo, len), Range(0, d)];
            && PickShape(pre) == [kv, len, d] && InShape([g, j, x], PickShape(pre))
            && PickSource(pre, [g, j, x]) == [g, lo + j, x]
  {
    TwoCoordinates(kv, lo, len, g, j);
    PickSnoc([Range(0, kv), Range(lo, len)], 0, d, [g, j], x);
    assert [Range(0, kv), Range(lo, len)] + [Range(0, d)] == [Range(0, kv), Range(lo, len), Range(0, d)];
    assert [g, j] + [x] == [g, j, x] && [kv, len] + [d] == [kv, len, d] && [g, lo + j] + [x] == [g, lo + j, x];
  }

  /** Row `x` of slot `lo + j` of group `g` is row `x` of the j-th kept slot of that group. */
  lemma SlotRow(t: Tensor, kv: nat, b: nat, d: nat, w: nat, lo: nat, len: nat, g: nat, j: nat, x: nat, c: nat)
    requires Valid(t) && t.shape == [kv, b, d] + [w] && lo + len <= b
    requires g < kv && j < len && x < d && c < w
    ensures PicksFit(Slots(kv, lo, len, d, w), t.shape)
    ensures Cell(PickTensor(Slots(kv, lo, len, d, w), t).data, w, Flatten([kv, len, d], [g, j, x]), c)
            == Cell(t.data, w, Flatten([kv, b, d], [g, lo + j, x]), c)
  {
    var pre := [Range(0, kv), Range(lo, len), Range(0, d)];
    SlotPicks(kv, lo, len, d, g, j, x);
    PickMoves(pre, 0, w, t, [kv, b, d], w);
    PickRowAt(pre, [kv, b, d], [g, j, x]);
  }

  lemma SlotSize(t: Tensor, kv: nat, b: nat, d: nat, w: nat, lo: nat, len: nat)
    requires Valid(t) && t.shape == [kv, b, d] + [w] && lo + len <= b
    ensures PicksFit(Slots(kv, lo, len, d, w), t.shape)
    ensures |PickTensor(Slots(kv, lo, len, d, w), t).data| == Prod([kv, len, d]) * w
  {
    var pre := [Range(0, kv), Range(lo, len), Range(0, d)];
    PickMoves(pre, 0, w, t, [kv, b, d], w);
    SlotShape(kv, lo, len, d);
  }

  lemma SlotShape(kv: nat, lo: nat, len: nat, d: nat)
    ensures PickShape([Range(0, kv), Range(lo, len), Range(0, d)]) == [kv, len, d]
  {
    PickShapeSnoc([], Range(0, kv));
    PickShapeSnoc([Range(0, kv)], Range(lo, len));
    PickShapeSnoc([Range(0, kv), Range(lo, len)], Range(0, d));
    assert [] + [Range(0, kv)] == [Range(0, kv)];
    assert [Range(0, kv)] + [Range(lo, len)] == [Range(0, kv), Range(lo, len)];
    assert [Range(0, kv), Range(lo, len)] + [Range(0, d)] == [Range(0, kv), Range(lo, len), Range(0, d)];
  }

  /** The rows of some slots of every group. */
  function Part(t: Tensor, kv: nat, b: nat, d: nat, w: nat, lo: nat, len: nat): (r: seq<int>)
    requires Valid(t) && t.shape == [kv, b, d] + [w] && lo + len <= b
    ensures |r| == Prod([kv, len, d]) * w
  {
    SlotSize(t, kv, b, d, w, lo, len);
    PickTensor(Slots(kv, lo, len, d, w), t).data
  }

  /** The fused rows seen as groups, slots, positions and columns. */
  function View(data: seq<int>, kv: nat, r: nat, d: nat, w: nat): (t: Tensor)
    requires |data| == Prod([kv, r + 2, d]) * w
    ensures Valid(t) && t.shape == [kv, r + 2, d] + [w] && t.data == data
  {
    ProdSnoc([kv, r + 2, d], w);
    Tensor([kv, r + 2, d] + [w], data)
  }

  function Queries(data: seq<int>, kv: nat, r: nat, d: nat, w: nat): (q: seq<int>)
    requires |data| == Prod([kv, r + 2, d]) * w
    ensures |q| == Prod([kv, r, d]) * w
  {
    Part(View(data, kv, r, d, w), kv, r + 2, d, w, 0, r)
  }

  /** The one slot `s` of every group. */
  function Single(data: seq<int>, kv: nat, r: nat, d: nat, w: nat, s: nat): (h: seq<int>)
    requires |data| == Prod([kv, r + 2, d]) * w && s < r + 2
    ensures |h| == Prod([kv, 1, d]) * w
  {
    Part(View(data, kv, r, d, w), kv, r + 2, d, w, s, 1)
  }

  /** Each group holds `r` query heads, a key head and a value head; all query heads come first in
      the result, then all key heads, then all value heads. */
  function Regroup(data: seq<int>, kv: nat, r: nat, d: nat, w: nat): (out: seq<int>)
    requires |data| == Prod([kv, r + 2, d]) * w
    ensures |out| == |data|
  {
    SlotCount(kv, r, d, w);
    Queries(data, kv, r, d, w) + Single(data, kv, r, d, w, r) + Single(data, kv, r, d, w, r + 1)
  }

  lemma SlotCount(kv: nat, r: nat, d: nat, w: nat)
    ensures Prod([kv, r, d]) * w + Prod([kv, 1, d]) * w + Prod([kv, 1, d]) * w == Prod([kv, r + 2, d]) * w
  {
    Prod3(kv, r, d);
    Prod3(kv, 1, d);
    Prod3(kv, r + 2, d);
    AddSlots(kv, r, d, w);
  }

  lemma AddSlots(kv: nat, r: nat, d: nat, w: nat)
    ensures kv * r * d * w + kv * 1 * d * w + kv * 1 * d * w == kv * (r + 2) * d * w
  {
    assert kv * (r + 2) == kv * r + kv + kv;
    assert (kv * r + kv + kv) * d == kv * r * d + kv * d + kv * d;
    assert (kv * r * d + kv * d + kv * d) * w == kv * r * d * w + kv * d * w + kv * d * w;
  }

  lemma PartRow(t: Tensor, kv: nat, b: nat, d: nat, w: nat, lo: nat, len: nat, g: nat, j: nat, x: nat, c: nat)
    requires Valid(t) && t.shape == [kv, b, d] + [w] && lo + len <= b
    requires g < kv && j < len && x < d && c < w
    ensures Cell(Part(t, kv, b, d, w, lo, len), w, Flatten([kv, len, d], [g, j, x]), c)
            == Cell(t.data, w, Flatten([kv, b, d], [g, lo + j, x]), c)
  {
    SlotRow(t, kv, b, d, w, lo, len, g, j, x, c);
  }

  // ---- where a row goes

  lemma CellFirst(a: seq<int>, b: seq<int>, w: nat, rows: nat, row: nat, c: nat)
    requires |a| == rows * w && row < rows && c < w
    ensures Cell(a + b, w, row, c) == Cell(a, w, row, c)
  {
    CellBound(row, rows, c, w);
  }

  lemma CellSecond(a: seq<int>, b: seq<int>, w: nat, rows: nat, row: nat, c: nat)
    requires |a| == rows * w
    ensures Cell(a + b, w, rows + row, c) == Cell(b, w, row, c)
  {
    assert (rows + row) * w == rows * w + row * w;
  }

  /** Three parts one after the other, by rows. */
  lemma CellOfThree(q: seq<int>, k: seq<int>, v: seq<int>, w: nat, m: nat, n: nat, row: nat, c: nat)
    requires |q| == m * w && |k| == n * w && c < w
    ensures row < m ==> Cell(q + k + v, w, row, c) == Cell(q, w, row, c)
    ensures row < n ==> Cell(q + k + v, w, m + row, c) == Cell(k, w, row, c)
    ensures Cell(q + k + v, w, m + (n + row), c) == Cell(v, w, row, c)
  {
    assert q + k + v == q + (k + v);
    CellSecond(q, k + v, w, m, row, c);
    CellSecond(q, k + v, w, m, n + row, c);
    CellSecond(k, v, w, n, row, c);
    if row < m {
      CellFirst(q, k + v, w, m, row, c);
    }
    if row < n {
      CellFirst(k, v, w, n, row, c);
    }
  }

  lemma RegroupCell(data: seq<int>, kv: nat, r: nat, d: nat, w: nat, row: nat, c: nat)
    requires |data| == Prod([kv, r + 2, d]) * w && c < w
    ensures var out, m, n := Regroup(data, kv, r, d, w), Prod([kv, r, d]), Prod([kv, 1, d]);
            && (row < m ==> Cell(out, w, row, c) == Cell(Queries(data, kv, r, d, w), w, row, c))
            && (row < n ==> Cell(out, w, m + row, c) == Cell(Single(data, kv, r, d, w, r), w, row, c))
            && Cell(out, w, m + (n + row), c) == Cell(Single(data, kv, r, d, w, r + 1), w, row, c)
  {
    CellOfThree(Queries(data, kv, r, d, w), Single(data, kv, r, d, w, r), Single(data, kv, r, d, w, r + 1),
                w, Prod([kv, r, d]), Prod([kv, 1, d]), row, c);
  }

  lemma QueryRow(data: seq<int>, kv: nat, r: nat, d: nat, w: nat, g: nat, s: nat, x: nat, c: nat)
    requires |data| == Prod([kv, r + 2, d]) * w && g < kv && s < r && x < d && c < w
    ensures Cell(Queries(data, kv, r, d, w), w, Flatten([kv, r, d], [g, s, x]), c)
            == Cell(data, w, Flatten([kv, r + 2, d], [g, s, x]), c)
  {
    PartRow(View(data, kv, r, d, w), kv, r + 2, d, w, 0, r, g, s, x, c);
  }

  lemma SingleRow(data: seq<int>, kv: nat, r: nat, d: nat, w: nat, g: nat, s: nat, x: nat, c: nat)
    requires |data| == Prod([kv, r + 2, d]) * w && g < kv && s < r + 2 && x < d && c < w
    ensures Cell(Single(data, kv, r, d, w, s), w, Flatten([kv, 1, d], [g, 0, x]), c)
            == Cell(data, w, Flatten([kv, r + 2, d], [g, s, x]), c)
  {
    PartRow(View(data, kv, r, d, w), kv, r + 2, d, w, s, 1, g, 0, x, c);
  }

  /** Which row of the result each row of the fused matrix becomes: query heads come first, in the order
      of groups and slots. */
  lemma QueryTarget(data: seq<int>, kv: nat, r: nat, d: nat, w: nat, g: nat, s: nat, x: nat, c: nat)
    requires |data| == Prod([kv, r + 2, d]) * w && g < kv && s < r && x < d && c < w
    ensures Cell(Regroup(data, kv, r, d, w), w, Flatten([kv, r, d], [g, s, x]), c)
            == Cell(data, w, Flatten([kv, r + 2, d], [g, s, x]), c)
  {
    QueryRow(data, kv, r, d, w, g, s, x, c);
    RegroupCell(data, kv, r, d, w, Flatten([kv, r, d], [g, s, x]), c);
  }

  /** Key heads follow, in the order of groups. */
  lemma KeyTarget(data: seq<int>, kv: nat, r: nat, d: nat, w: nat, g: nat, x: nat, c: nat)
    requires |data| == Prod([kv, r + 2, d]) * w && g < kv && x < d && c < w
    ensures Cell(Regroup(data, kv, r, d, w), w, Prod([kv, r, d]) + Flatten([kv, 1, d], [g, 0, x]), c)
            == Cell(data, w, Flatten([kv, r + 2, d], [g, r, x]), c)
  {
    SingleRow(data, kv, r, d, w, g, r, x, c);
    RegroupCell(data, kv, r, d, w, Flatten([kv, 1, d], [g, 0, x]), c);
  }

  /** Value heads come last. */
  lemma ValueTarget(data: seq<int>, kv: nat, r: nat, d: nat, w: nat, g: nat, x: nat, c: nat)
    requires |data| == Prod([kv, r + 2, d]) * w && g < kv && x < d && c < w
    ensures Cell(Regroup(data, kv, r, d, w), w,
                 Prod([kv, r, d]) + (Prod([kv, 1, d]) + Flatten([kv, 1, d], [g, 0, x])), c)
            == Cell(data, w, Flatten([kv, r + 2, d], [g, r + 1, x]), c)
  {
    SingleRow(data, kv, r, d, w, g, r + 1, x, c);
    RegroupCell(data, kv, r, d, w, Flatten([kv, 1, d], [g, 0, x]), c);
  }

  // ---- and back

  /** The piece a slot's rows are in, of the three pieces of a regrouped matrix. */
  function Piece(out: seq<int>, m: nat, n: nat, r: nat, s: nat): seq<int>
    requires m + n + n == |out| && s < r + 2
  {
    if s < r then out[..m] else if s == r then out[m..m + n] else out[m + n..]
  }

  function PieceRow(kv: nat, r: nat, d: nat, g: nat, s: nat, x: nat): nat
    requires g < kv && s < r + 2 && x < d
  {
    if s < r then Flatten([kv, r, d], [g, s, x]) else Flatten([kv, 1, d], [g, 0, x])
  }

  /** The rows put back into groups. */
  function Ungroup(out: seq<int>, kv: nat, r: nat, d: nat, w: nat): (data: seq<int>)
    requires |out| == Prod([kv, r + 2, d]) * w
    ensures |data| == |out|
  {
    SlotCount(kv, r, d, w);
    seq(|out|, i requires 0 <= i < |out| => UngroupAt(out, kv, r, d, w, i))
  }

  function UngroupAt(out: seq<int>, kv: nat, r: nat, d: nat, w: nat, i: nat): int
    requires i < |out| == Prod([kv, r + 2, d]) * w
    requires Prod([kv, r, d]) * w + Prod([kv, 1, d]) * w + Prod([kv, 1, d]) * w == |out|
  {
    RowBound(i, Prod([kv, r + 2, d]), w);
    PieceCell(out, kv, r, d, w, Unflatten([kv, r + 2, d], i / w), i % w)
  }

  function PieceCell(out: seq<int>, kv: nat, r: nat, d: nat, w: nat, at: seq<nat>, c: nat): int
    requires Prod([kv, r, d]) * w + Prod([kv, 1, d]) * w + Prod([kv, 1, d]) * w == |out|
    requires InShape(at, [kv, r + 2, d])
  {
    Cell(Piece(out, Prod([kv, r, d]) * w, Prod([kv, 1, d]) * w, r, at[1]), w,
         PieceRow(kv, r, d, at[0], at[1], at[2]), c)
  }

  lemma UngroupCell(out: seq<int>, kv: nat, r: nat, d: nat, w: nat, g: nat, s: nat, x: nat, c: nat)
    requires |out| == Prod([kv, r + 2, d]) * w && g < kv && s < r + 2 && x < d && c < w
    requires Prod([kv, r, d]) * w + Prod([kv, 1, d]) * w + Prod([kv, 1, d]) * w == |out|
    ensures Cell(Ungroup(out, kv, r, d, w), w, Flatten([kv, r + 2, d], [g, s, x]), c)
            == Cell(Piece(out, Prod([kv, r, d]) * w, Prod([kv, 1, d]) * w, r, s), w, PieceRow(kv, r, d, g, s, x), c)
  {
    var dims := [kv, r + 2, d];
    var row := Flatten(dims, [g, s, x]);
    UnflattenFlatten(dims, [g, s, x]);
    CellBound(row, Prod(dims), c, w);
    CellSplit(row, c, w);
  }

  lemma PiecesOfRegroup(data: seq<int>, kv: nat, r: nat, d: nat, w: nat, s: nat)
    requires |data| == Prod([kv, r + 2, d]) * w && s < r + 2
    ensures Prod([kv, r, d]) * w + Prod([kv, 1, d]) * w + Prod([kv, 1, d]) * w == |data|
    ensures Piece(Regroup(data, kv, r, d, w), Prod([kv, r, d]) * w, Prod([kv, 1, d]) * w, r, s)
            == if s < r then Queries(data, kv, r, d, w) else Single(data, kv, r, d, w, s)
  {
    SlotCount(kv, r, d, w);
    ThreePieces(Queries(data, kv, r, d, w), Single(data, kv, r, d, w, r), Single(data, kv, r, d, w, r + 1));
  }

  lemma ThreePieces(a: seq<int>, b: seq<int>, c: seq<int>)
    ensures (a + b + c)[..|a|] == a && (a + b + c)[|a|..|a| + |b|] == b && (a + b + c)[|a| + |b|..] == c
  {
  }

  lemma BackAt(data: seq<int>, kv: nat, r: nat, d: nat, w: nat, g: nat, s: nat, x: nat, c: nat)
    requires |data| == Prod([kv, r + 2, d]) * w && g < kv && s < r + 2 && x < d && c < w
    ensures Cell(Ungroup(Regroup(data, kv, r, d, w), kv, r, d, w), w, Flatten([kv, r + 2, d], [g, s, x]), c)
            == Cell(data, w, Flatten([kv, r + 2, d], [g, s, x]), c)
  {
    PiecesOfRegroup(data, kv, r, d, w, s);
    UngroupCell(Regroup(data, kv, r, d, w), kv, r, d, w, g, s, x, c);
    if s < r {
      QueryRow(data, kv, r, d, w, g, s, x, c);
    } else {
      SingleRow(data, kv, r, d, w, g, s, x, c);
    }
  }

  /** Two matrices with the same entries at every group, slot, position and column are the same. */
  lemma SameCells(a: seq<int>, b: seq<int>, dims: seq<nat>, w: nat)
    requires |a| == |b| == Prod(dims) * w
    requires forall at: seq<nat>, c: nat :: InShape(at, dims) && c < w ==>
               Cell(a, w, Flatten(dims, at), c) == Cell(b, w, Flatten(dims, at), c)
    ensures a == b
  {
    forall i | 0 <= i < |a|
      ensures a[i] == b[i]
    {
      RowBound(i, Prod(dims), w);
      var at := Unflatten(dims, i / w);
      FlattenUnflatten(dims, i / w);
      assert InShape(at, dims) && i % w < w;
      CellAt(a, w, i);
      CellAt(b, w, i);
    }
  }

  /** Putting the rows back restores every fused matrix, for all head counts and sizes. */
  lemma UngroupRegroup(data: seq<int>, kv: nat, r: nat, d: nat, w: nat)
    requires |data| == Prod([kv, r + 2, d]) * w
    ensures Ungroup(Regroup(data, kv, r, d, w), kv, r, d, w) == data
  {
    var dims, back := [kv, r + 2, d], Ungroup(Regroup(data, kv, r, d, w), kv, r, d, w);
    forall at: seq<nat>, c: nat | InShape(at, dims) && c < w
      ensures Cell(back, w, Flatten(dims, at), c) == Cell(data, w, Flatten(dims, at), c)
    {
      assert at == [at[0], at[1], at[2]];
      BackAt(data, kv, r, d, w, at[0], at[1], at[2], c);
    }
    SameCells(back, data, dims, w);
  }

  lemma QueriesBack(out: seq<int>, kv: nat, r: nat, d: nat, w: nat)
    requires |out| == Prod([kv, r + 2, d]) * w
    requires Prod([kv, r, d]) * w + Prod([kv, 1, d]) * w + Prod([kv, 1, d]) * w == |out|
    ensures Queries(Ungroup(out, kv, r, d, w), kv, r, d, w) == out[..Prod([kv, r, d]) * w]
  {
    var dims, data := [kv, r, d], Ungroup(out, kv, r, d, w);
    var q, piece := Queries(data, kv, r, d, w), out[..Prod([kv, r, d]) * w];
    forall at: seq<nat>, c: nat | InShape(at, dims) && c < w
      ensures Cell(q, w, Flatten(dims, at), c) == Cell(piece, w, Flatten(dims, at), c)
    {
      assert at == [at[0], at[1], at[2]];
      QueryRow(data, kv, r, d, w, at[0], at[1], at[2], c);
      UngroupCell(out, kv, r, d, w, at[0], at[1], at[2], c);
    }
    SameCells(q, piece, dims, w);
  }

  lemma SingleBack(out: seq<int>, kv: nat, r: nat, d: nat, w: nat, s: nat)
    requires |out| == Prod([kv, r + 2, d]) * w && r <= s < r + 2
    requires Prod([kv, r, d]) * w + Prod([kv, 1, d]) * w + Prod([kv, 1, d]) * w == |out|
    ensures Single(Ungroup(out, kv, r, d, w), kv, r, d, w, s)
            == Piece(out, Prod([kv, r, d]) * w, Prod([kv, 1, d]) * w, r, s)
  {
    var dims, data := [kv, 1, d], Ungroup(out, kv, r, d, w);
    var h, piece := Single(data, kv, r, d, w, s), Piece(out, Prod([kv, r, d]) * w, Prod([kv, 1, d]) * w, r, s);
    forall at: seq<nat>, c: nat | InShape(at, dims) && c < w
      ensures Cell(h, w, Flatten(dims, at), c) == Cell(piece, w, Flatten(dims, at), c)
    {
      assert at == [at[0], 0, at[2]];
      SingleRow(data, kv, r, d, w, at[0], s, at[2], c);
      UngroupCell(out, kv, r, d, w, at[0], s, at[2], c);
    }
    SameCells(h, piece, dims, w);
  }

  /** And regrouping what was put back gives the regrouped matrix again: the two are inverse. */
  lemma RegroupUngroup(out: seq<int>, kv: nat, r: nat, d: nat, w: nat)
    requires |out| == Prod([kv, r + 2, d]) * w
    ensures Regroup(Ungroup(out, kv, r, d, w), kv, r, d, w) == out
  {
    SlotCount(kv, r, d, w);
    QueriesBack(out, kv, r, d, w);
    SingleBack(out, kv, r, d, w, r);
    SingleBack(out, kv, r, d, w, r + 1);
    JoinPieces(out, Prod([kv, r, d]) * w, Prod([kv, 1, d]) * w);
  }

  lemma JoinPieces(out: seq<int>, m: nat, n: nat)
    requires m + n <= |out|
    ensures out[..m] + out[m..m + n] + out[m + n..] == out
  {
  }
}
