/** Two converter pipelines written for ordinary tensors and run on factors: the head permutation of
    LlamaModel and the query/key/value split of InternLM2. */
module LoraPipelines {

  import opened Wrappers
  import opened Tensors
  import opened Rows
  import opened Lora
  import opened LoraChains

  // ---------------------------------------------------------------- when reshaping succeeds

  lemma ExpandPlain(dims: seq<nat>, total: nat)
    ensures Expand(dims, total) == Ok(dims)
  {
    var d: seq<int> := dims;
    assert forall i :: 0 <= i < |d| ==> d[i] >= 0;
    assert -1 !in d;
    assert Expand(d, total).value == dims;
  }

  lemma ReshapeExact(l: Factors, dims: seq<nat>)
    requires Shared(l) && dims != []
    ensures Factored(Reshaped(dims + [Cols(l)]), l).Ok? <==> Prod(dims) == Prod(Dims(l))
    ensures var r := Factored(Reshaped(dims + [Cols(l)]), l);
            r.Ok? ==> Shared(r.value) && Dims(r.value) == dims && Cols(r.value) == Cols(l) && Rank(r.value) == Rank(l)
  {
    var shape := dims + [Cols(l)];
    ExpandPlain(shape, Prod(Shape(l)));
    ReshapeToExact(l, dims);
  }

  lemma OnesBefore(k: nat, rank: nat, cols: nat)
    ensures Prod(Ones(k) + [rank, cols]) == rank * cols
  {
    OnesProd(Ones(k));
    assert Ones(k) + [rank, cols] == Ones(k) + [rank] + [cols];
    ProdSnoc(Ones(k), rank);
    ProdSnoc(Ones(k) + [rank], cols);
  }

  lemma MadeFrom(A: Tensor, B: Tensor, lead: seq<nat>, dims: seq<nat>, rank: nat, cols: nat)
    requires Valid(A) && Valid(B) && A.shape == lead + [rank] + [cols] && B.shape == dims + [rank]
    requires |lead| + 1 == |dims|
    ensures Make(A, B) == Ok(Factors(A, B)) && Dims(Factors(A, B)) == dims && Cols(Factors(A, B)) == cols
  {
  }

  lemma ReshapeToExact(l: Factors, dims: seq<nat>)
    requires Shared(l) && dims != []
    ensures var r := ReshapeTo(l, dims + [Cols(l)]);
            && (r.Ok? <==> Prod(dims) == Prod(Dims(l)))
            && (r.Ok? ==> Shared(r.value) && Dims(r.value) == dims && Cols(r.value) == Cols(l)
                          && Rank(r.value) == Rank(l))
  {
    if Prod(dims) == Prod(Dims(l)) {
      ReshapeGoes(l, dims);
      ReshapeKept(l, dims + [Cols(l)]);
    } else {
      ReshapeFails(l, dims);
    }
  }

  lemma ReshapeGoes(l: Factors, dims: seq<nat>)
    requires Shared(l) && dims != [] && Prod(dims) == Prod(Dims(l))
    ensures var A, B := Tensor(Ones(|dims| - 1) + [Rank(l), Cols(l)], l.A.data), Tensor(dims + [Rank(l)], l.B.data);
            && ReshapeTo(l, dims + [Cols(l)]) == Ok(Factors(A, B)) && WellMade(A, B)
            && Dims(Factors(A, B)) == dims && Cols(Factors(A, B)) == Cols(l)
  {
    var n := |dims|;
    assert (dims + [Cols(l)])[..n] == dims;
    ShapeA(l);
    OnesBefore(n - 1, Rank(l), Cols(l));
    ProdSnoc(dims, Rank(l));
    assert Ones(n - 1) + [Rank(l), Cols(l)] == Ones(n - 1) + [Rank(l)] + [Cols(l)];
    MadeFrom(Tensor(Ones(n - 1) + [Rank(l), Cols(l)], l.A.data), Tensor(dims + [Rank(l)], l.B.data),
             Ones(n - 1), dims, Rank(l), Cols(l));
  }

  lemma ReshapeFails(l: Factors, dims: seq<nat>)
    requires Shared(l) && dims != [] && Prod(dims) != Prod(Dims(l))
    ensures ReshapeTo(l, dims + [Cols(l)]).Err?
  {
    assert (dims + [Cols(l)])[..|dims|] == dims;
    ShapeA(l);
    ProdSnoc(dims, Rank(l));
    if Prod(dims) * Rank(l) == Prod(Dims(l)) * Rank(l) {
      SameRows(Prod(dims), Prod(Dims(l)), Rank(l));
    }
  }

  // ---------------------------------------------------------------- LlamaModel.permute

  /** The heads' two halves are interleaved: split rows into heads, halves and positions, exchange
      the last two, and flatten again. */
  function PermuteOps(rows: nat, w: nat, heads: nat): seq<Op>
    requires heads > 0
  {
    [Reshaped([heads, 2, rows / heads / 2, w]), Swapped(1, 2), Reshaped([rows, w])]
  }

  const MIDDLE: seq<nat> := [0, 2, 1, 3]

  lemma MiddleAxes()
    ensures SwapAxes(4, 1, 2) == Ok([0, 2, 1, 3]) && Axes([0, 2, 1, 3], 4) == Ok(MIDDLE) && IsPerm(MIDDLE, 4)
  {
    assert MIDDLE[0] == 0 && MIDDLE[1] == 2 && MIDDLE[2] == 1 && MIDDLE[3] == 3;
    assert seq(4, k requires 0 <= k < 4 => if k == 1 then 2 else if k == 2 then 1 else k) == [0, 2, 1, 3];
    var d: seq<int> := [0, 2, 1, 3];
    assert seq(4, k requires 0 <= k < 4 => if d[k] < 0 then d[k] + 4 else d[k]) == MIDDLE;
  }

  lemma SwapMiddle(l: Factors, a: nat, b: nat, c: nat)
    requires Shared(l) && Dims(l) == [a, b, c]
    ensures var r := Factored(Swapped(1, 2), l);
            r.Ok? && Shared(r.value) && Dims(r.value) == [a, c, b] && Cols(r.value) == Cols(l)
  {
    MiddleAxes();
    ShapeA(l);
    assert l.B.shape == [a, b, c, Rank(l)];
    assert PermShape(MIDDLE, l.B.shape) == [a, c, b, Rank(l)];
    StepKept(Swapped(1, 2), l);
  }

  lemma HalvesDivide(rows: nat, heads: nat)
    requires heads > 0
    ensures heads * 2 * (rows / heads / 2) == rows <==> rows % (2 * heads) == 0
  {
    var d := rows / heads / 2;
    if rows % (2 * heads) == 0 {
      var m := rows / (2 * heads);
      assert rows == (2 * heads) * m;
      assert (2 * heads) * m == (2 * m) * heads + 0;
      CellSplit(2 * m, 0, heads);
      assert rows / heads == 2 * m;
      assert heads * 2 * m == (2 * heads) * m;
    }
    if heads * 2 * d == rows {
      assert heads * 2 * d == d * (2 * heads) + 0;
      CellSplit(d, 0, 2 * heads);
    }
  }

  lemma RestOfChain(op: Op, rest: seq<Op>, l: Factors)
    requires WellMade(l.A, l.B)
    ensures var next := Factored(op, l);
            && (next.Err? ==> FactoredAll([op] + rest, l).Err?)
            && (next.Ok? ==> FactoredAll([op] + rest, l) == FactoredAll(rest, next.value))
            && (KeepingAll([op] + rest, l) <==> Keeping(op, l) && (next.Ok? ==> KeepingAll(rest, next.value)))
  {
    assert ([op] + rest)[0] == op && ([op] + rest)[1..] == rest;
  }

  /** The chain goes through, safely, and ends in factors of this shape. */
  predicate Gives(ops: seq<Op>, l: Factors, dims: seq<nat>, w: nat)
    requires WellMade(l.A, l.B)
  {
    var r := FactoredAll(ops, l);
    KeepingAll(ops, l) && r.Ok? && Dims(r.value) == dims && Cols(r.value) == w
  }

  lemma GivesStep(op: Op, rest: seq<Op>, l: Factors, dims: seq<nat>, w: nat)
    requires WellMade(l.A, l.B) && Keeping(op, l) && Factored(op, l).Ok? && Gives(rest, Factored(op, l).value, dims, w)
    ensures Gives([op] + rest, l, dims, w)
  {
    RestOfChain(op, rest, l);
  }

  lemma GivesReshape(l: Factors, dims: seq<nat>)
    requires Shared(l) && dims != [] && Prod(dims) == Prod(Dims(l))
    ensures Gives([Reshaped(dims + [Cols(l)])], l, dims, Cols(l))
  {
    ReshapeExact(l, dims);
    var op := Reshaped(dims + [Cols(l)]);
    assert [op] + [] == [op];
    assert Gives([], Factored(op, l).value, dims, Cols(l));
    GivesStep(op, [], l, dims, Cols(l));
  }

  lemma PermuteChainEnd(l: Factors, rows: nat, heads: nat, d: nat)
    requires Shared(l) && Dims(l) == [heads, 2, d] && rows == heads * 2 * d
    ensures Gives([Swapped(1, 2)] + [Reshaped([rows] + [Cols(l)])], l, [rows], Cols(l))
  {
    SwapMiddle(l, heads, 2, d);
    var m := Factored(Swapped(1, 2), l).value;
    Prod3(heads, d, 2);
    MatrixProd(rows, Cols(l));
    assert heads * d * 2 == heads * 2 * d;
    GivesReshape(m, [rows]);
    GivesStep(Swapped(1, 2), [Reshaped([rows] + [Cols(l)])], l, [rows], Cols(l));
  }

  lemma PermuteParts(rows: nat, w: nat, heads: nat)
    requires heads > 0
    ensures PermuteOps(rows, w, heads) ==
            [Reshaped([heads, 2, rows / heads / 2] + [w])] + ([Swapped(1, 2)] + [Reshaped([rows] + [w])])
  {
    assert [heads, 2, rows / heads / 2] + [w] == [heads, 2, rows / heads / 2, w] && [rows] + [w] == [rows, w];
  }

  /** The pipeline goes through on factors exactly when the rows split evenly into halves of heads. */
  lemma PermuteChain(l: Factors, rows: nat, heads: nat)
    requires Shared(l) && Dims(l) == [rows] && heads > 0
    ensures rows % (2 * heads) == 0 ==> Gives(PermuteOps(rows, Cols(l), heads), l, [rows], Cols(l))
    ensures rows % (2 * heads) != 0 ==> FactoredAll(PermuteOps(rows, Cols(l), heads), l).Err?
  {
    var w, d := Cols(l), rows / heads / 2;
    var op, rest := Reshaped([heads, 2, d] + [w]), [Swapped(1, 2)] + [Reshaped([rows] + [w])];
    PermuteParts(rows, w, heads);
    ReshapeExact(l, [heads, 2, d]);
    MatrixProd(rows, w);
    Prod3(heads, 2, d);
    HalvesDivide(rows, heads);
    if rows % (2 * heads) == 0 {
      PermuteChainEnd(Factored(op, l).value, rows, heads, d);
      GivesStep(op, rest, l, [rows], w);
    } else {
      RestOfChain(op, rest, l);
    }
  }

  /** The chain goes through on the factors, and the new factors stand for what the chain makes of
      the tensor the old ones stood for. */
  predicate Carried(ops: seq<Op>, l: Factors)
    requires Shared(l)
  {
    var r := FactoredAll(ops, l);
    r.Ok? && Shared(r.value) && DenseAll(ops, Product(l)) == Ok(Product(r.value))
  }

  lemma GivesCarried(ops: seq<Op>, l: Factors, dims: seq<nat>, w: nat)
    requires Shared(l) && Gives(ops, l, dims, w)
    ensures Carried(ops, l)
  {
    ChainKept(ops, l);
  }

  /** The head permutation of factors is the head permutation of their product, and goes through
      exactly when the rows divide into two halves per head. */
  lemma PermuteOfFactors(l: Factors, rows: nat, heads: nat)
    requires Shared(l) && Dims(l) == [rows] && heads > 0
    ensures Carried(PermuteOps(rows, Cols(l), heads), l) <==> rows % (2 * heads) == 0
  {
    PermuteChain(l, rows, heads);
    if rows % (2 * heads) == 0 {
      GivesCarried(PermuteOps(rows, Cols(l), heads), l, [rows], Cols(l));
    }
  }

  // ---------------------------------------------------------------- what the permutation does to rows

  lemma Flatten4(a: nat, b: nat, c: nat, w: nat, i: nat, j: nat, k: nat, x: nat)
    requires i < a && j < b && k < c && x < w
    ensures InShape([i, j, k, x], [a, b, c, w]) && Flatten([a, b, c, w], [i, j, k, x]) == ((i * b + j) * c + k) * w + x
  {
    FlattenOne(a, i);
    FlattenSnoc([a], b, [i], j);
    assert [a] + [b] == [a, b] && [i] + [j] == [i, j];
    FlattenSnoc([a, b], c, [i, j], k);
    assert [a, b] + [c] == [a, b, c] && [i, j] + [k] == [i, j, k];
    FlattenSnoc([a, b, c], w, [i, j, k], x);
    assert [a, b, c] + [w] == [a, b, c, w] && [i, j, k] + [x] == [i, j, k, x];
  }

  lemma Prod4(a: nat, b: nat, c: nat, w: nat)
    ensures Prod([a, b, c, w]) == a * b * c * w
  {
    Prod3(a, b, c);
    ProdSnoc([a, b, c], w);
    assert [a, b, c] + [w] == [a, b, c, w];
  }

  /** The middle exchange of a tensor with heads, halves, positions and columns. */
  lemma MiddleCell(t: Tensor, a: nat, b: nat, c: nat, w: nat, i: nat, j: nat, k: nat, x: nat)
    requires Valid(t) && t.shape == [a, b, c, w] && i < a && j < b && k < c && x < w && IsPerm(MIDDLE, 4)
    ensures Cell(PermTensor(MIDDLE, t).data, w, (i * c + k) * b + j, x) == Cell(t.data, w, (i * b + j) * c + k, x)
  {
    var at: seq<nat> := [i, j, k, x];
    Flatten4(a, b, c, w, i, j, k, x);
    Flatten4(a, c, b, w, i, k, j, x);
    PermAt(MIDDLE, t, at);
    assert seq(4, m requires 0 <= m < 4 => at[MIDDLE[m]]) == [i, k, j, x];
    assert PermShape(MIDDLE, t.shape) == [a, c, b, w];
  }

  /** Permuting by `q` undoes permuting by `p` when the axes come back to their places. */
  lemma PermInverse(p: seq<nat>, q: seq<nat>, t: Tensor)
    requires Valid(t) && IsPerm(p, |t.shape|) && IsPerm(q, |t.shape|)
    requires forall k :: 0 <= k < |q| ==> p[q[k]] == k
    ensures PermTensor(q, PermTensor(p, t)) == t
  {
    assert PermShape(q, PermShape(p, t.shape)) == t.shape;
    forall c | InShape(c, t.shape)
      ensures At(PermTensor(q, PermTensor(p, t)), c) == At(t, c)
    {
      PermTwice(p, q, t, c);
    }
    Extensional(PermTensor(q, PermTensor(p, t)), t);
  }

  lemma PermTwice(p: seq<nat>, q: seq<nat>, t: Tensor, c: seq<nat>)
    requires Valid(t) && IsPerm(p, |t.shape|) && IsPerm(q, |t.shape|) && InShape(c, t.shape)
    requires forall k :: 0 <= k < |q| ==> p[q[k]] == k
    ensures InShape(c, PermShape(q, PermShape(p, t.shape)))
    ensures At(PermTensor(q, PermTensor(p, t)), c) == At(t, c)
  {
    var c' := seq(|c|, k requires 0 <= k < |c| => c[p[k]]);
    PermAt(p, t, c);
    PermAt(q, PermTensor(p, t), c');
    PermBack(p, q, c, c');
  }

  lemma PermBack(p: seq<nat>, q: seq<nat>, c: seq<nat>, c': seq<nat>)
    requires IsPerm(p, |c|) && IsPerm(q, |c|) && |c'| == |c| && forall k :: 0 <= k < |q| ==> p[q[k]] == k
    requires forall k :: 0 <= k < |c| ==> c'[k] == c[p[k]]
    ensures seq(|c'|, k requires 0 <= k < |c'| => c'[q[k]]) == c
  {
    forall k | 0 <= k < |c|
      ensures c'[q[k]] == c[k]
    {
      assert p[q[k]] == k;
    }
  }

  lemma Sizes(rows: nat, w: nat, heads: nat, d: nat)
    requires rows == heads * 2 * d && IsPerm(MIDDLE, 4)
    ensures Prod([rows, w]) == Prod([heads, 2, d, w]) == Prod([heads, d, 2, w])
    ensures PermShape(MIDDLE, [heads, 2, d, w]) == [heads, d, 2, w]
  {
    MatrixProd(rows, w);
    Prod4(heads, 2, d, w);
    Prod4(heads, d, 2, w);
    assert heads * d * 2 == heads * 2 * d;
  }

  /** What the whole pipeline computes: the heads' halves interleaved. */
  function Interleaved(t: Tensor, rows: nat, w: nat, heads: nat, d: nat): (r: Tensor)
    requires Valid(t) && t.shape == [rows, w] && rows == heads * 2 * d && IsPerm(MIDDLE, 4)
    ensures Valid(r) && r.shape == [rows, w]
  {
    Sizes(rows, w, heads, d);
    Tensor([rows, w], PermTensor(MIDDLE, Tensor([heads, 2, d, w], t.data)).data)
  }

  lemma DenseReshape(t: Tensor, shape: seq<nat>)
    requires Valid(t) && Prod(shape) == Prod(t.shape)
    ensures Dense(Reshaped(shape), t) == Ok(Tensor(shape, t.data))
  {
    ExpandPlain(shape, |t.data|);
  }

  lemma DenseMiddle(t: Tensor)
    requires Valid(t) && |t.shape| == 4
    ensures IsPerm(MIDDLE, 4) && Dense(Swapped(1, 2), t) == Ok(PermTensor(MIDDLE, t))
  {
    MiddleAxes();
  }

  lemma DenseChain3(op1: Op, op2: Op, op3: Op, t: Tensor, u: Tensor, v: Tensor)
    requires Valid(t) && Valid(u) && Valid(v)
    requires Dense(op1, t) == Ok(u) && Dense(op2, u) == Ok(v)
    ensures DenseAll([op1, op2, op3], t) == Dense(op3, v)
  {
    assert [op1, op2, op3][1..] == [op2, op3] && [op2, op3][1..] == [op3] && [op3][1..] == [];
    assert DenseAll([op3], v) == Dense(op3, v);
  }

  lemma PermuteDense(t: Tensor, rows: nat, w: nat, heads: nat, d: nat)
    requires Valid(t) && t.shape == [rows, w] && rows == heads * 2 * d && heads > 0
    ensures IsPerm(MIDDLE, 4) && DenseAll(PermuteOps(rows, w, heads), t) == Ok(Interleaved(t, rows, w, heads, d))
  {
    CellSplit(2 * d, 0, heads);
    assert rows == (2 * d) * heads + 0 && rows / heads / 2 == d;
    MiddleAxes();
    Sizes(rows, w, heads, d);
    var u := Tensor([heads, 2, d, w], t.data);
    DenseReshape(t, [heads, 2, d, w]);
    DenseMiddle(u);
    var v := PermTensor(MIDDLE, u);
    DenseReshape(v, [rows, w]);
    DenseChain3(Reshaped([heads, 2, d, w]), Swapped(1, 2), Reshaped([rows, w]), t, u, v);
  }

  /** The same steps with positions and halves the other way round. */
  function UnpermuteOps(rows: nat, w: nat, heads: nat, d: nat): seq<Op> {
    [Reshaped([heads, d, 2, w]), Swapped(1, 2), Reshaped([rows, w])]
  }

  lemma Uninterleave(t: Tensor, rows: nat, w: nat, heads: nat, d: nat)
    requires Valid(t) && t.shape == [rows, w] && rows == heads * 2 * d && IsPerm(MIDDLE, 4)
    ensures DenseAll(UnpermuteOps(rows, w, heads, d), Interleaved(t, rows, w, heads, d)) == Ok(t)
  {
    Sizes(rows, w, heads, d);
    var r, u := Interleaved(t, rows, w, heads, d), Tensor([heads, 2, d, w], t.data);
    var v := PermTensor(MIDDLE, u);
    DenseReshape(r, [heads, d, 2, w]);
    DenseMiddle(v);
    PermInverse(MIDDLE, MIDDLE, u);
    DenseReshape(u, [rows, w]);
    DenseChain3(Reshaped([heads, d, 2, w]), Swapped(1, 2), Reshaped([rows, w]), r, v, u);
  }

  /** The permutation loses nothing, for all head counts and sizes: the inverse steps restore it. */
  lemma PermuteLosesNothing(t: Tensor, rows: nat, w: nat, heads: nat, d: nat)
    requires Valid(t) && t.shape == [rows, w] && rows == heads * 2 * d && heads > 0
    ensures var r := DenseAll(PermuteOps(rows, w, heads), t);
            r.Ok? && Valid(r.value) && DenseAll(UnpermuteOps(rows, w, heads, d), r.value) == Ok(t)
  {
    PermuteDense(t, rows, w, heads, d);
    Uninterleave(t, rows, w, heads, d);
  }

  /** Position `k` of half `j` of head `i` becomes element `j` of pair `k` of that head. */
  lemma InterleavedRow(t: Tensor, rows: nat, w: nat, heads: nat, d: nat, i: nat, j: nat, k: nat, x: nat)
    requires Valid(t) && t.shape == [rows, w] && rows == heads * 2 * d && IsPerm(MIDDLE, 4)
    requires i < heads && j < 2 && k < d && x < w
    ensures Cell(Interleaved(t, rows, w, heads, d).data, w, (i * d + k) * 2 + j, x)
            == Cell(t.data, w, (i * 2 + j) * d + k, x)
  {
    Sizes(rows, w, heads, d);
    MiddleCell(Tensor([heads, 2, d, w], t.data), heads, 2, d, w, i, j, k, x);
  }

  // ---------------------------------------------------------------- the InternLM2 split

  function Flat(w: nat): seq<int> {
    [-1, w as int]
  }

  lemma InferStep(l: Factors)
    requires Shared(l) && Cols(l) > 0
    ensures var r := Factored(Reshaped(Flat(Cols(l))), l);
            r.Ok? && Dims(r.value) == [Prod(Dims(l))] && Cols(r.value) == Cols(l)
  {
    var w, n := Cols(l), Prod(Dims(l));
    InferExpands(n, w);
    ProdSnoc(Dims(l), w);
    MatrixProd(n, w);
    ReshapeToExact(l, [n]);
    assert [n] + [w] == [n, w];
  }

  lemma InferExpands(n: nat, w: nat)
    requires w > 0
    ensures Expand(Flat(w), n * w) == Ok([n, w])
  {
    CellSplit(n, 0, w);
    var d := Flat(w);
    assert d[..1] == [-1] && d[..1][..0] == [];
    assert KnownProd(d[..1]) == 1 && KnownProd(d) == w;
    assert d[0] == -1 && -1 in d;
    assert Expand(d, n * w).value == [n, w];
  }

  lemma {:induction false} ResolvesAll(q: seq<Index>, s: seq<nat>)
    requires |q| == |s| && forall k :: 0 <= k < |q| ==> Resolve(q[k], s[k]).Ok?
    ensures ResolveAll(q, s).Ok?
  {
    if q != [] {
      ResolvesAll(q[..|q| - 1], s[..|s| - 1]);
    }
  }

  lemma Resolve2(a: nat, b: nat, ix: Index)
    requires Resolve(ix, b).Ok?
    ensures ResolveAll([ALL, ix], [a, b]) == Ok([Range(0, a), Resolve(ix, b).value])
  {
    var q: seq<Index>, s: seq<nat> := [ALL, ix], [a, b];
    ResolvesAll(q, s);
    var r := ResolveAll(q, s).value;
    assert Resolve(q[0], s[0]) == Ok(r[0]) && Resolve(q[1], s[1]) == Ok(r[1]);
    assert r == [Range(0, a), Resolve(ix, b).value];
  }

  lemma Resolve3(a: nat, b: nat, c: nat, ix: Index)
    requires Resolve(ix, b).Ok?
    ensures ResolveAll([ALL, ix, ALL], [a, b, c]) == Ok([Range(0, a), Resolve(ix, b).value, Range(0, c)])
  {
    var q: seq<Index>, s: seq<nat> := [ALL, ix, ALL], [a, b, c];
    ResolvesAll(q, s);
    var r := ResolveAll(q, s).value;
    assert Resolve(q[0], s[0]) == Ok(r[0]) && Resolve(q[1], s[1]) == Ok(r[1]) && Resolve(q[2], s[2]) == Ok(r[2]);
    assert r == [Range(0, a), Resolve(ix, b).value, Range(0, c)];
  }

  lemma PickShape2(a: nat, p: Pick)
    ensures PickShape([Range(0, a), p]) == [a] + (if p.One? then [] else [p.len])
  {
    PickShapeSnoc([], Range(0, a));
    PickShapeSnoc([Range(0, a)], p);
    assert [] + [Range(0, a)] == [Range(0, a)] && [Range(0, a)] + [p] == [Range(0, a), p];
  }

  lemma PickShape3(a: nat, p: Pick, c: nat)
    ensures PickShape([Range(0, a), p, Range(0, c)]) == [a] + (if p.One? then [] else [p.len]) + [c]
  {
    PickShape2(a, p);
    PickShapeSnoc([Range(0, a), p], Range(0, c));
    assert [Range(0, a), p] + [Range(0, c)] == [Range(0, a), p, Range(0, c)];
  }

  lemma ItemsShape(t: Tensor, dims: seq<nat>, w: nat, q: seq<Index>, pre: seq<Pick>)
    requires Valid(t) && t.shape == dims + [w] && |q| == |dims| && ResolveAll(q, dims) == Ok(pre)
    ensures var r := Items(t, q + [ALL]); r.Ok? && r == Items(t, q) && r.value.shape == PickShape(pre) + [w]
  {
    ItemsInit(t, q);
    ResolveAllOfIt(w);
    ItemsSnoc(t, dims, w, q, ALL);
    PickShapeSnoc(pre, Range(0, w));
  }

  lemma MiddleOfB(t: Tensor, a: nat, b: nat, c: nat, w: nat, ix: Index)
    requires Valid(t) && t.shape == [a, b, c] + [w] && Resolve(ix, b).Ok?
    ensures var r, p := Items(t, [ALL, ix, ALL]), Resolve(ix, b).value;
            r.Ok? && r.value.shape == [a] + (if p.One? then [] else [p.len]) + [c] + [w]
  {
    var p := Resolve(ix, b).value;
    Resolve3(a, b, c, ix);
    PickShape3(a, p, c);
    ItemsShape(t, [a, b, c], w, [ALL, ix, ALL], [Range(0, a), p, Range(0, c)]);
  }

  lemma MiddleOfA(t: Tensor, rank: nat, cols: nat, jx: Index)
    requires Valid(t) && t.shape == [1, 1] + [rank] + [cols] && Resolve(jx, 1).Ok?
    ensures var r, p := Items(t, [ALL, jx] + [ALL] + [ALL]), Resolve(jx, 1).value;
            r.Ok? && r.value.shape == [1] + (if p.One? then [] else [p.len]) + [rank] + [cols]
  {
    var p := Resolve(jx, 1).value;
    Resolve2(1, 1, jx);
    PickShape2(1, p);
    ResolveAllOfIt(rank);
    ResolveSnoc([ALL, jx], ALL, [1, 1], rank);
    PickShapeSnoc([Range(0, 1), p], Range(0, rank));
    ItemsShape(t, [1, 1] + [rank], cols, [ALL, jx] + [ALL], [Range(0, 1), p] + [Range(0, rank)]);
  }

  /** Selecting on the second of three row axes. */
  lemma MiddlePicks(l: Factors, a: nat, b: nat, c: nat, ix: Index)
    requires Shared(l) && Dims(l) == [a, b, c] && Resolve(ix, b).Ok?
    ensures var r, p := Factored(Tuple([ALL, ix]), l), Resolve(ix, b).value;
            && r.Ok? && Shared(r.value) && Cols(r.value) == Cols(l)
            && Dims(r.value) == [a] + (if p.One? then [] else [p.len]) + [c]
  {
    FactoredTuple(l, Tuple([ALL, ix]));
    ShapeA(l);
    assert l.A.shape[..2] == [1, 1];
    MiddleParts(l, ix);
    MiddleTuple(l, a, b, c, ix);
    TupleKept(l, [ALL, ix]);
  }

  lemma FactoredTuple(l: Factors, op: Op)
    requires WellMade(l.A, l.B) && op.Tuple?
    ensures Factored(op, l) == TupleFactors(l, op.ixs)
  {
  }

  lemma MiddleTuple(l: Factors, a: nat, b: nat, c: nat, ix: Index)
    requires Shared(l) && Dims(l) == [a, b, c] && Resolve(ix, b).Ok?
    ensures var r := MakeBoth(Items(l.A, [ALL, IndexA(ix, 1)] + [ALL] + [ALL]), Items(l.B, [ALL, ix, ALL]));
            var p := Resolve(ix, b).value;
            r.Ok? && Cols(r.value) == Cols(l) && Dims(r.value) == [a] + (if p.One? then [] else [p.len]) + [c]
  {
    var jx := IndexA(ix, 1);
    ShapeA(l);
    assert l.A.shape[..2] == [1, 1];
    UnitIndexA(ix);
    MiddleOfB(l.B, a, b, c, Rank(l), ix);
    MiddleOfA(l.A, Rank(l), Cols(l), jx);
    var p, pa := Resolve(ix, b).value, Resolve(jx, 1).value;
    assert p.One? <==> pa.One?;
    MadeFrom(Items(l.A, [ALL, jx] + [ALL] + [ALL]).value, Items(l.B, [ALL, ix, ALL]).value,
             [1] + (if pa.One? then [] else [pa.len]), [a] + (if p.One? then [] else [p.len]) + [c], Rank(l), Cols(l));
  }

  lemma MiddleParts(l: Factors, ix: Index)
    requires WellMade(l.A, l.B) && Axis(l) == 3 && l.A.shape[..2] == [1, 1]
    ensures TupleFactors(l, [ALL, ix]) ==
            MakeBoth(Items(l.A, [ALL, IndexA(ix, 1)] + [ALL] + [ALL]), Items(l.B, [ALL, ix, ALL]))
  {
    var q := Pad([ALL, ix], 4);
    assert q == [ALL, ix, ALL, ALL];
    assert q[..3] == [ALL, ix, ALL] && q[..2] == [ALL, ix];
    assert LeadsA([ALL, ix], [1, 1]) == [ALL, IndexA(ix, 1)];
    assert l.A.shape[0] == l.A.shape[..2][0] == 1 && l.A.shape[1] == l.A.shape[..2][1] == 1;
  }

  // ---- the three outputs

  /** Groups of `r` query heads, one key head and one value head are split apart; `ix` picks from
      each group, and the rest is flattened to a matrix. */
  function PickOps(g: nat, r: nat, d: nat, w: nat, ix: Index, rest: seq<Op>): seq<Op> {
    [Reshaped([g, r + 2, d] + [w])] + ([Tuple([ALL, ix])] + ([Reshaped(Flat(w))] + rest))
  }

  /** The steps before `rest` always go through and leave factors of `rows` rows. */
  lemma Picked(l: Factors, g: nat, r: nat, d: nat, ix: Index, rest: seq<Op>, rows: nat) returns (m: Factors)
    requires Shared(l) && Cols(l) > 0 && Dims(l) == [g * (r + 2) * d] && Resolve(ix, r + 2).Ok?
    requires var p := Resolve(ix, r + 2).value; rows == Prod([g] + (if p.One? then [] else [p.len]) + [d])
    ensures Shared(m) && Dims(m) == [rows] && Cols(m) == Cols(l)
    ensures SameAfter(PickOps(g, r, d, Cols(l), ix, rest), l, rest, m)
  {
    var w := Cols(l);
    Prod3(g, r + 2, d);
    MatrixProd(g * (r + 2) * d, w);
    ReshapeExact(l, [g, r + 2, d]);
    var l1 := Factored(Reshaped([g, r + 2, d] + [w]), l).value;
    MiddlePicks(l1, g, r + 2, d, ix);
    var l2 := Factored(Tuple([ALL, ix]), l1).value;
    InferStep(l2);
    m := Factored(Reshaped(Flat(w)), l2).value;
    StepKept(Reshaped(Flat(w)), l2);
    var tail := [Reshaped(Flat(w))] + rest;
    RestOfChain(Reshaped(Flat(w)), rest, l2);
    RestOfChain(Tuple([ALL, ix]), tail, l1);
    RestOfChain(Reshaped([g, r + 2, d] + [w]), [Tuple([ALL, ix])] + tail, l);
  }

  /** One chain on `l` is what another is on `m`. */
  predicate SameAfter(ops: seq<Op>, l: Factors, rest: seq<Op>, m: Factors)
    requires WellMade(l.A, l.B) && WellMade(m.A, m.B)
  {
    FactoredAll(ops, l) == FactoredAll(rest, m) && (KeepingAll(ops, l) <==> KeepingAll(rest, m))
  }

  lemma SameGives(ops: seq<Op>, l: Factors, rest: seq<Op>, m: Factors, dims: seq<nat>, w: nat)
    requires WellMade(l.A, l.B) && WellMade(m.A, m.B) && SameAfter(ops, l, rest, m)
    ensures Gives(ops, l, dims, w) <==> Gives(rest, m, dims, w)
    ensures FactoredAll(ops, l).Err? <==> FactoredAll(rest, m).Err?
  {
  }

  function QueryOps(g: nat, r: nat, d: nat, w: nat, heads: nat): seq<Op>
    requires heads > 0
  {
    PickOps(g, r, d, w, Slice(None, Some(r)), PermuteOps(g * r * d, w, heads))
  }

  function KeyOps(g: nat, r: nat, d: nat, w: nat, kvHeads: nat): seq<Op>
    requires kvHeads > 0
  {
    PickOps(g, r, d, w, Int(-2), PermuteOps(g * d, w, kvHeads))
  }

  function ValueOps(g: nat, r: nat, d: nat, w: nat): seq<Op> {
    PickOps(g, r, d, w, Int(-1), [])
  }

  /** Splitting the factors of a fused query/key/value matrix into `g` groups gives factors of the split
      matrices, for any number of heads: exactly when the rows are those of the groups and, for query
      and key, their rows divide into two halves per head. */
  lemma SplitOfFactors(l: Factors, rows: nat, g: nat, r: nat, d: nat, heads: nat, kvHeads: nat)
    requires Shared(l) && Cols(l) > 0 && Dims(l) == [rows] && heads > 0 && kvHeads > 0
    ensures Carried(QueryOps(g, r, d, Cols(l), heads), l) <==>
            rows == g * (r + 2) * d && (g * r * d) % (2 * heads) == 0
    ensures Carried(KeyOps(g, r, d, Cols(l), kvHeads), l) <==>
            rows == g * (r + 2) * d && (g * d) % (2 * kvHeads) == 0
    ensures Carried(ValueOps(g, r, d, Cols(l)), l) <==> rows == g * (r + 2) * d
  {
    SplitQuery(l, rows, g, r, d, heads);
    SplitKey(l, rows, g, r, d, kvHeads);
    SplitValue(l, rows, g, r, d);
  }

  lemma SplitQuery(l: Factors, rows: nat, g: nat, r: nat, d: nat, heads: nat)
    requires Shared(l) && Cols(l) > 0 && Dims(l) == [rows] && heads > 0
    ensures Carried(QueryOps(g, r, d, Cols(l), heads), l) <==>
            rows == g * (r + 2) * d && (g * r * d) % (2 * heads) == 0
  {
    if rows == g * (r + 2) * d {
      QueryExact(l, g, r, d, heads);
    } else {
      WrongRows(l, rows, g, r, d, Slice(None, Some(r)), PermuteOps(g * r * d, Cols(l), heads));
    }
  }

  lemma SplitKey(l: Factors, rows: nat, g: nat, r: nat, d: nat, kvHeads: nat)
    requires Shared(l) && Cols(l) > 0 && Dims(l) == [rows] && kvHeads > 0
    ensures Carried(KeyOps(g, r, d, Cols(l), kvHeads), l) <==>
            rows == g * (r + 2) * d && (g * d) % (2 * kvHeads) == 0
  {
    if rows == g * (r + 2) * d {
      KeyExact(l, g, r, d, kvHeads);
    } else {
      WrongRows(l, rows, g, r, d, Int(-2), PermuteOps(g * d, Cols(l), kvHeads));
    }
  }

  lemma SplitValue(l: Factors, rows: nat, g: nat, r: nat, d: nat)
    requires Shared(l) && Cols(l) > 0 && Dims(l) == [rows]
    ensures Carried(ValueOps(g, r, d, Cols(l)), l) <==> rows == g * (r + 2) * d
  {
    if rows == g * (r + 2) * d {
      ValueGives(l, g, r, d);
      GivesCarried(ValueOps(g, r, d, Cols(l)), l, [g * d], Cols(l));
    } else {
      WrongRows(l, rows, g, r, d, Int(-1), []);
    }
  }

  /** With as many heads as the groups hold, the head size must be even. */
  lemma SplitEven(l: Factors, g: nat, r: nat, d: nat)
    requires Shared(l) && Cols(l) > 0 && g > 0 && r > 0 && Dims(l) == [g * (r + 2) * d]
    ensures Carried(QueryOps(g, r, d, Cols(l), g * r), l) <==> d % 2 == 0
    ensures Carried(KeyOps(g, r, d, Cols(l), g), l) <==> d % 2 == 0
  {
    assert g * r > 0;
    SplitOfFactors(l, g * (r + 2) * d, g, r, d, g * r, g);
    EvenRows(g * r, d);
    EvenRows(g, d);
  }

  lemma WrongRows(l: Factors, rows: nat, g: nat, r: nat, d: nat, ix: Index, rest: seq<Op>)
    requires Shared(l) && Dims(l) == [rows] && rows != g * (r + 2) * d
    ensures FactoredAll(PickOps(g, r, d, Cols(l), ix, rest), l).Err?
  {
    var w := Cols(l);
    Prod3(g, r + 2, d);
    MatrixProd(rows, w);
    ReshapeExact(l, [g, r + 2, d]);
    RestOfChain(Reshaped([g, r + 2, d] + [w]), [Tuple([ALL, ix])] + ([Reshaped(Flat(w))] + rest), l);
  }

  lemma ValueGives(l: Factors, g: nat, r: nat, d: nat)
    requires Shared(l) && Cols(l) > 0 && Dims(l) == [g * (r + 2) * d]
    ensures Gives(ValueOps(g, r, d, Cols(l)), l, [g * d], Cols(l))
  {
    MatrixProd(g, d);
    assert [g] + [] + [d] == [g, d];
    var m := Picked(l, g, r, d, Int(-1), [], g * d);
    SameGives(ValueOps(g, r, d, Cols(l)), l, [], m, [g * d], Cols(l));
  }

  lemma EvenRows(heads: nat, d: nat)
    requires heads > 0
    ensures (heads * d) % (2 * heads) == 0 <==> d % 2 == 0
  {
    var q, r := d / 2, d % 2;
    assert heads * d == q * (2 * heads) + r * heads by {
      assert heads * (2 * q + r) == q * (2 * heads) + r * heads;
    }
    CellSplit(q, r * heads, 2 * heads);
  }

  lemma ExactChain(ops: seq<Op>, l: Factors, rest: seq<Op>, m: Factors, dims: seq<nat>, w: nat, even: bool)
    requires Shared(l) && WellMade(m.A, m.B) && SameAfter(ops, l, rest, m)
    requires if even then Gives(rest, m, dims, w) else FactoredAll(rest, m).Err?
    ensures Carried(ops, l) <==> even
  {
    SameGives(ops, l, rest, m, dims, w);
    if even {
      GivesCarried(ops, l, dims, w);
    }
  }

  /** A chain that ends in the head permutation. */
  lemma PermutedExact(ops: seq<Op>, l: Factors, m: Factors, rows: nat, heads: nat)
    requires Shared(l) && Shared(m) && heads > 0 && Dims(m) == [rows]
    requires SameAfter(ops, l, PermuteOps(rows, Cols(m), heads), m)
    ensures Carried(ops, l) <==> rows % (2 * heads) == 0
  {
    PermuteChain(m, rows, heads);
    ExactChain(ops, l, PermuteOps(rows, Cols(m), heads), m, [rows], Cols(m), rows % (2 * heads) == 0);
  }

  lemma QueryExact(l: Factors, g: nat, r: nat, d: nat, heads: nat)
    requires Shared(l) && Cols(l) > 0 && heads > 0 && Dims(l) == [g * (r + 2) * d]
    ensures Carried(QueryOps(g, r, d, Cols(l), heads), l) <==> (g * r * d) % (2 * heads) == 0
  {
    var rows := g * r * d;
    Prod3(g, r, d);
    assert [g] + [r] + [d] == [g, r, d];
    var m := Picked(l, g, r, d, Slice(None, Some(r)), PermuteOps(rows, Cols(l), heads), rows);
    PermutedExact(QueryOps(g, r, d, Cols(l), heads), l, m, rows, heads);
  }

  lemma KeyExact(l: Factors, g: nat, r: nat, d: nat, kvHeads: nat)
    requires Shared(l) && Cols(l) > 0 && kvHeads > 0 && Dims(l) == [g * (r + 2) * d]
    ensures Carried(KeyOps(g, r, d, Cols(l), kvHeads), l) <==> (g * d) % (2 * kvHeads) == 0
  {
    var rows := g * d;
    MatrixProd(g, d);
    assert [g] + [] + [d] == [g, d];
    var m := Picked(l, g, r, d, Int(-2), PermuteOps(rows, Cols(l), kvHeads), rows);
    PermutedExact(KeyOps(g, r, d, Cols(l), kvHeads), l, m, rows, kvHeads);
  }
}
