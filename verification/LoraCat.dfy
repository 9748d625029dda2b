/** Joining factored matrices row after row: possible exactly when they have one A in common, and then
    the joined factors stand for the joined products. */
module LoraCat {

  import opened Wrappers
  import opened Tensors
  import opened Rows
  import opened Lora

  predicate Matrix(t: Tensor) {
    Valid(t) && |t.shape| == 2
  }

  predicate Matrices(ts: seq<Tensor>) {
    forall i :: 0 <= i < |ts| ==> Matrix(ts[i])
  }

  /** Rows of `u` after rows of `t`. */
  function Below(t: Tensor, u: Tensor): (r: Outcome<Tensor>)
    requires Matrix(t) && Matrix(u)
    ensures r.Ok? ==> Matrix(r.value)
  {
    var w := t.shape[1];
    if u.shape[1] != w then Err(BadShape)
    else
      JoinedSize(t, u);
      Ok(Tensor([t.shape[0] + u.shape[0], w], t.data + u.data))
  }

  lemma JoinedSize(t: Tensor, u: Tensor)
    requires Matrix(t) && Matrix(u) && u.shape[1] == t.shape[1]
    ensures |t.data + u.data| == Prod([t.shape[0] + u.shape[0], t.shape[1]])
  {
    var m, n, w := t.shape[0], u.shape[0], t.shape[1];
    assert t.shape == [m, w] && u.shape == [n, w];
    MatrixProd(m, w);
    MatrixProd(n, w);
    MatrixProd(m + n, w);
    assert m * w + n * w == (m + n) * w;
  }

  /** torch.cat along dimension 0. */
  function Cat(ts: seq<Tensor>): (r: Outcome<Tensor>)
    requires Matrices(ts)
    ensures r.Ok? ==> Matrix(r.value)
  {
    if ts == [] then Err(BadShape)
    else if |ts| == 1 then Ok(ts[0])
    else
      var init := Cat(ts[..|ts| - 1]);
      if init.Err? then init else Below(init.value, ts[|ts| - 1])
  }

  predicate Pair(l: Factors) {
    WellMade(l.A, l.B) && |l.A.shape| == 2
  }

  predicate OneA(ls: seq<Factors>) {
    forall i :: 0 <= i < |ls| ==> ls[i].A == ls[0].A
  }

  predicate Pairs(ls: seq<Factors>) {
    forall i :: 0 <= i < |ls| ==> Pair(ls[i])
  }

  predicate SharedPairs(ls: seq<Factors>) {
    forall i :: 0 <= i < |ls| ==> Pair(ls[i]) && Shared(ls[i])
  }

  function Bs(ls: seq<Factors>): (ts: seq<Tensor>)
    requires Pairs(ls)
    ensures |ts| == |ls| && Matrices(ts)
  {
    seq(|ls|, i requires 0 <= i < |ls| => ls[i].B)
  }

  function Products(ls: seq<Factors>): (ts: seq<Tensor>)
    requires SharedPairs(ls)
    ensures |ts| == |ls| && Matrices(ts)
  {
    seq(|ls|, i requires 0 <= i < |ls| => Product(ls[i]))
  }

  /** Joining factored matrices. */
  function CatFactors(ls: seq<Factors>): (r: Outcome<Factors>)
    requires Pairs(ls)
  {
    if ls == [] then Err(BadIndex)
    else if !OneA(ls) then Err(NotImplemented)
    else
      var B := Cat(Bs(ls));
      if B.Err? then Err(B.error) else Make(ls[0].A, B.value)
  }

  // ---------------------------------------------------------------- rows of a joined product

  lemma CellOfJoined(b: seq<int>, c: seq<int>, w: nat, m: nat, row: nat, x: nat)
    requires |b| == m * w && x < w
    ensures row < m ==> Cell(b + c, w, row, x) == Cell(b, w, row, x)
    ensures row >= m ==> Cell(b + c, w, row, x) == Cell(c, w, row - m, x)
  {
    if row < m {
      CellBound(row, m, x, w);
    } else {
      assert row * w == m * w + (row - m) * w;
    }
  }

  lemma DotOfJoined(a: seq<int>, b: seq<int>, c: seq<int>, rank: nat, cols: nat, m: nat, row: nat, x: nat)
    requires |b| == m * rank
    ensures row < m ==> Dot(a, b + c, rank, cols, row, x, rank) == Dot(a, b, rank, cols, row, x, rank)
    ensures row >= m ==> Dot(a, b + c, rank, cols, row, x, rank) == Dot(a, c, rank, cols, row - m, x, rank)
  {
    forall r: nat | r < rank
      ensures row < m ==> Cell(b + c, rank, row, r) == Cell(b, rank, row, r)
      ensures row >= m ==> Cell(b + c, rank, row, r) == Cell(c, rank, row - m, r)
    {
      CellOfJoined(b, c, rank, m, row, r);
    }
    if row < m {
      DotMoves(a, b, rank, cols, row, x, a, b + c, cols, row, x, rank);
    } else {
      DotMoves(a, c, rank, cols, row - m, x, a, b + c, cols, row, x, rank);
    }
  }

  lemma RowOfJoined(a: seq<int>, b: seq<int>, c: seq<int>, rank: nat, cols: nat, m: nat, n: nat, row: nat, x: nat)
    requires |b| == m * rank && |c| == n * rank && row < m + n && x < cols
    ensures Cell(ProductData(a, b + c, rank, cols, m + n), cols, row, x)
            == Cell(ProductData(a, b, rank, cols, m) + ProductData(a, c, rank, cols, n), cols, row, x)
  {
    ProductCell(a, b + c, rank, cols, m + n, row, x);
    DotOfJoined(a, b, c, rank, cols, m, row, x);
    CellOfJoined(ProductData(a, b, rank, cols, m), ProductData(a, c, rank, cols, n), cols, m, row, x);
    if row < m {
      ProductCell(a, b, rank, cols, m, row, x);
    } else {
      ProductCell(a, c, rank, cols, n, row - m, x);
    }
  }

  lemma ProductOfJoined(a: seq<int>, b: seq<int>, c: seq<int>, rank: nat, cols: nat, m: nat, n: nat)
    requires |b| == m * rank && |c| == n * rank
    ensures ProductData(a, b + c, rank, cols, m + n)
            == ProductData(a, b, rank, cols, m) + ProductData(a, c, rank, cols, n)
  {
    assert m * cols + n * cols == (m + n) * cols;
    forall row, x: nat | 0 <= row < m + n && x < cols
      ensures Cell(ProductData(a, b + c, rank, cols, m + n), cols, row, x)
              == Cell(ProductData(a, b, rank, cols, m) + ProductData(a, c, rank, cols, n), cols, row, x)
    {
      RowOfJoined(a, b, c, rank, cols, m, n, row, x);
    }
    SameMatrix(ProductData(a, b + c, rank, cols, m + n),
               ProductData(a, b, rank, cols, m) + ProductData(a, c, rank, cols, n), cols, m + n);
  }

  lemma ProductOfPair(l: Factors)
    requires Shared(l) && Pair(l)
    ensures var m := l.B.shape[0];
            && l.B.shape == [m, Rank(l)] && |l.B.data| == m * Rank(l)
            && Product(l) == Tensor([m, Cols(l)], ProductData(l.A.data, l.B.data, Rank(l), Cols(l), m))
  {
    var m := l.B.shape[0];
    assert l.B.shape == [m, Rank(l)] && Dims(l) == [m];
    MatrixProd(m, Rank(l));
  }

  /** Two pairs with one A. */
  lemma BelowKept(l: Factors, u: Factors)
    requires Shared(l) && Pair(l) && Shared(u) && Pair(u) && l.A == u.A
    ensures var B := Below(l.B, u.B);
            && B.Ok? && Shared(Factors(l.A, B.value)) && Pair(Factors(l.A, B.value))
            && Below(Product(l), Product(u)) == Ok(Product(Factors(l.A, B.value)))
  {
    ProductOfPair(l);
    ProductOfPair(u);
    var B := Below(l.B, u.B).value;
    ProductOfPair(Factors(l.A, B));
    ProductOfJoined(l.A.data, l.B.data, u.B.data, Rank(l), Cols(l), l.B.shape[0], u.B.shape[0]);
  }

  lemma CatSnoc(ts: seq<Tensor>, u: Tensor)
    requires ts != [] && Matrices(ts) && Matrix(u) && Cat(ts).Ok?
    ensures Matrices(ts + [u]) && Cat(ts + [u]) == Below(Cat(ts).value, u)
  {
    assert (ts + [u])[..|ts|] == ts;
  }

  lemma PartsSnoc(ls: seq<Factors>)
    requires ls != [] && SharedPairs(ls)
    ensures var n := |ls| - 1; Bs(ls) == Bs(ls[..n]) + [ls[n].B] && Products(ls) == Products(ls[..n]) + [Product(ls[n])]
  {
  }

  /** The joined factors `l` of some pairs stand for the joined products. */
  predicate Joined(ls: seq<Factors>, l: Factors)
    requires SharedPairs(ls)
  {
    Pair(l) && Shared(l) && Cat(Bs(ls)) == Ok(l.B) && Cat(Products(ls)) == Ok(Product(l))
  }

  lemma JoinedSnoc(ls: seq<Factors>, l: Factors)
    requires |ls| > 1 && SharedPairs(ls) && Joined(ls[..|ls| - 1], l) && ls[|ls| - 1].A == l.A
    ensures var B := Below(l.B, ls[|ls| - 1].B); B.Ok? && Joined(ls, Factors(l.A, B.value))
  {
    var n := |ls| - 1;
    PartsSnoc(ls);
    CatSnoc(Bs(ls[..n]), ls[n].B);
    CatSnoc(Products(ls[..n]), Product(ls[n]));
    BelowKept(l, ls[n]);
  }

  lemma {:induction false} JoinedKept(ls: seq<Factors>) returns (l: Factors)
    requires ls != [] && OneA(ls) && SharedPairs(ls)
    ensures l.A == ls[0].A && Joined(ls, l)
  {
    if |ls| == 1 {
      l := ls[0];
    } else {
      var n := |ls| - 1;
      var m := JoinedKept(ls[..n]);
      JoinedSnoc(ls, m);
      l := Factors(m.A, Below(m.B, ls[n].B).value);
    }
  }

  /** Factored matrices can be joined exactly when they share A; the result then stands for the
      joined products. */
  lemma CatExact(ls: seq<Factors>)
    requires ls != [] && SharedPairs(ls)
    ensures CatFactors(ls).Ok? <==> OneA(ls)
    ensures var r := CatFactors(ls); r.Ok? ==> Shared(r.value) && Cat(Products(ls)) == Ok(Product(r.value))
  {
    if OneA(ls) {
      var l := JoinedKept(ls);
    }
  }
}
