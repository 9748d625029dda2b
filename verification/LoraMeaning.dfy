/** What a pair of factors stands for: the product B A with A's and B's leading dimensions broadcast
    against each other, as a batched matrix product does. */
module LoraMeaning {

  import opened Wrappers
  import opened Tensors
  import opened Rows
  import opened Lora

  // ---------------------------------------------------------------- the product by coordinates

  function Zeros(k: nat): seq<nat> {
    seq(k, _ => 0)
  }

  lemma ZerosIn(l: Factors, r: nat, x: nat)
    requires Shared(l) && r < Rank(l) && x < Cols(l)
    ensures InShape(Zeros(Axis(l) - 1) + [r] + [x], l.A.shape)
    ensures At(l.A, Zeros(Axis(l) - 1) + [r] + [x]) == Cell(l.A.data, Cols(l), r, x)
  {
    var lead := l.A.shape[..Axis(l) - 1];
    ShapeA(l);
    FlattenOnes(lead, Zeros(Axis(l) - 1));
    FlattenSnoc(lead, Rank(l), Zeros(Axis(l) - 1), r);
    AtCell(l.A, lead + [Rank(l)], Cols(l), Zeros(Axis(l) - 1) + [r], x);
  }

  /** The sum, over the first `k` ranks, of entries of B times entries of A. */
  ghost function Entry(l: Factors, c: seq<nat>, x: nat, k: nat): int
    requires Shared(l) && InShape(c, Dims(l)) && x < Cols(l) && k <= Rank(l)
  {
    if k == 0 then 0
    else
      ShapeA(l);
      ZerosIn(l, k - 1, x);
      FlattenSnoc(Dims(l), Rank(l), c, k - 1);
      Entry(l, c, x, k - 1) + At(l.B, c + [k - 1]) * At(l.A, Zeros(Axis(l) - 1) + [k - 1] + [x])
  }

  lemma {:induction false} EntryIsDot(l: Factors, c: seq<nat>, x: nat, k: nat)
    requires Shared(l) && InShape(c, Dims(l)) && x < Cols(l) && k <= Rank(l)
    ensures Entry(l, c, x, k) == Dot(l.A.data, l.B.data, Rank(l), Cols(l), Flatten(Dims(l), c), x, k)
  {
    if k > 0 {
      EntryIsDot(l, c, x, k - 1);
      ShapeA(l);
      ZerosIn(l, k - 1, x);
      AtCell(l.B, Dims(l), Rank(l), c, k - 1);
    }
  }

  /** The tensor the factors stand for is the matrix product over the last two axes. */
  lemma ProductAt(l: Factors, c: seq<nat>, x: nat)
    requires Shared(l) && InShape(c, Dims(l)) && x < Cols(l)
    ensures InShape(c + [x], Shape(l)) && At(Product(l), c + [x]) == Entry(l, c, x, Rank(l))
  {
    AtCell(Product(l), Dims(l), Cols(l), c, x);
    ProductCell(l.A.data, l.B.data, Rank(l), Cols(l), Prod(Dims(l)), Flatten(Dims(l), c), x);
    EntryIsDot(l, c, x, Rank(l));
  }

  // ---------------------------------------------------------------- broadcasting

  function BatchA(l: Factors): seq<nat>
    requires WellMade(l.A, l.B)
  {
    l.A.shape[..Axis(l) - 1]
  }

  function BatchB(l: Factors): seq<nat>
    requires WellMade(l.A, l.B)
  {
    l.B.shape[..Axis(l) - 1]
  }

  predicate Broadcastable(a: seq<nat>, b: seq<nat>) {
    |a| == |b| && forall i :: 0 <= i < |a| ==> a[i] == b[i] || a[i] == 1 || b[i] == 1
  }

  function Broadcast(a: seq<nat>, b: seq<nat>): (s: seq<nat>)
    requires |a| == |b|
    ensures |s| == |a|
  {
    seq(|a|, i requires 0 <= i < |a| => if a[i] == 1 then b[i] else a[i])
  }

  /** The coordinates in a tensor whose dimensions of size 1 are stretched. */
  function Squeeze(c: seq<nat>, s: seq<nat>): (r: seq<nat>)
    requires |c| == |s|
    ensures |r| == |c|
  {
    seq(|c|, i requires 0 <= i < |c| => if s[i] == 1 then 0 else c[i])
  }

  lemma SqueezeFits(c: seq<nat>, a: seq<nat>, b: seq<nat>)
    requires Broadcastable(a, b) && InShape(c, Broadcast(a, b))
    ensures InShape(Squeeze(c, a), a) && InShape(Squeeze(c, b), b)
  {
    forall i | 0 <= i < |c|
      ensures Squeeze(c, a)[i] < a[i] && Squeeze(c, b)[i] < b[i]
    {
      assert c[i] < Broadcast(a, b)[i];
    }
  }

  lemma ShapesOf(l: Factors)
    requires WellMade(l.A, l.B)
    ensures l.A.shape == BatchA(l) + [Rank(l)] + [Cols(l)]
    ensures l.B.shape == BatchB(l) + [l.B.shape[Axis(l) - 1]] + [Rank(l)]
    ensures Dims(l) == BatchB(l) + [l.B.shape[Axis(l) - 1]]
  {
  }

  lemma TwoMore(c: seq<nat>, s: seq<nat>, i: nat, a: nat, j: nat, b: nat)
    requires InShape(c, s) && i < a && j < b
    ensures InShape(c + [i] + [j], s + [a] + [b])
  {
  }

  /** The sum over the first `k` ranks at batch coordinates `c`, row `m` and column `x`. */
  ghost function Summed(l: Factors, c: seq<nat>, m: nat, x: nat, k: nat): int
    requires WellMade(l.A, l.B) && Broadcastable(BatchA(l), BatchB(l)) && InShape(c, Broadcast(BatchA(l), BatchB(l)))
    requires m < l.B.shape[Axis(l) - 1] && x < Cols(l) && k <= Rank(l)
  {
    if k == 0 then 0
    else
      SqueezeFits(c, BatchA(l), BatchB(l));
      ShapesOf(l);
      TwoMore(Squeeze(c, BatchB(l)), BatchB(l), m, l.B.shape[Axis(l) - 1], k - 1, Rank(l));
      TwoMore(Squeeze(c, BatchA(l)), BatchA(l), k - 1, Rank(l), x, Cols(l));
      Summed(l, c, m, x, k - 1)
      + At(l.B, Squeeze(c, BatchB(l)) + [m] + [k - 1]) * At(l.A, Squeeze(c, BatchA(l)) + [k - 1] + [x])
  }

  function MeaningShape(l: Factors): seq<nat>
    requires WellMade(l.A, l.B) && Broadcastable(BatchA(l), BatchB(l))
  {
    Broadcast(BatchA(l), BatchB(l)) + [l.B.shape[Axis(l) - 1]] + [Cols(l)]
  }

  lemma SplitCoordinates(c: seq<nat>, s: seq<nat>, a: nat, b: nat)
    requires InShape(c, s + [a] + [b])
    ensures InShape(c[..|s|], s) && c[|s|] < a && c[|s| + 1] < b && c == c[..|s|] + [c[|s|]] + [c[|s| + 1]]
  {
    var t := s + [a] + [b];
    assert forall i :: 0 <= i < |s| ==> c[i] < t[i] == s[i];
    assert c[|s|] < t[|s|] == a && c[|s| + 1] < t[|s| + 1] == b;
  }

  ghost function ElementAt(l: Factors, c: seq<nat>): int
    requires WellMade(l.A, l.B) && Broadcastable(BatchA(l), BatchB(l)) && InShape(c, MeaningShape(l))
  {
    var s := Broadcast(BatchA(l), BatchB(l));
    SplitCoordinates(c, s, l.B.shape[Axis(l) - 1], Cols(l));
    Summed(l, c[..|s|], c[|s|], c[|s| + 1], Rank(l))
  }

  ghost function Batched(l: Factors): (t: Tensor)
    requires WellMade(l.A, l.B) && Broadcastable(BatchA(l), BatchB(l))
    ensures Valid(t) && t.shape == MeaningShape(l)
  {
    var s := MeaningShape(l);
    Tensor(s, seq(Prod(s), i requires 0 <= i < Prod(s) => ElementAt(l, Unflatten(s, i))))
  }

  /** The tensor the factors stand for, if their leading dimensions fit together. */
  ghost function Meaning(l: Factors): (r: Option<Tensor>)
    requires WellMade(l.A, l.B)
    ensures r.Some? ==> Valid(r.value) && |r.value.shape| == |l.B.shape|
  {
    if Broadcastable(BatchA(l), BatchB(l)) then Some(Batched(l)) else None
  }

  // ---- for shared factors this is the product

  lemma SharedBatch(l: Factors)
    requires Shared(l)
    ensures Broadcastable(BatchA(l), BatchB(l)) && Broadcast(BatchA(l), BatchB(l)) == BatchB(l)
    ensures MeaningShape(l) == Shape(l)
  {
    ShapesOf(l);
  }

  lemma SqueezeShared(l: Factors, c: seq<nat>)
    requires Shared(l) && InShape(c, BatchB(l))
    ensures Squeeze(c, BatchB(l)) == c && Squeeze(c, BatchA(l)) == Zeros(|c|)
  {
  }

  lemma {:induction false} SummedIsEntry(l: Factors, c: seq<nat>, m: nat, x: nat, k: nat)
    requires Shared(l) && Broadcastable(BatchA(l), BatchB(l)) && InShape(c, Broadcast(BatchA(l), BatchB(l)))
    requires InShape(c, BatchB(l)) && m < l.B.shape[Axis(l) - 1] && x < Cols(l) && k <= Rank(l)
    requires InShape(c + [m], Dims(l))
    ensures Summed(l, c, m, x, k) == Entry(l, c + [m], x, k)
  {
    if k > 0 {
      SummedIsEntry(l, c, m, x, k - 1);
      SqueezeShared(l, c);
    }
  }

  lemma BatchedAt(l: Factors, c: seq<nat>)
    requires WellMade(l.A, l.B) && Broadcastable(BatchA(l), BatchB(l)) && InShape(c, MeaningShape(l))
    ensures At(Batched(l), c) == ElementAt(l, c)
  {
    UnflattenFlatten(MeaningShape(l), c);
  }

  lemma SharedElement(l: Factors, c: seq<nat>)
    requires Shared(l) && Broadcastable(BatchA(l), BatchB(l)) && InShape(c, MeaningShape(l)) && InShape(c, Shape(l))
    ensures ElementAt(l, c) == At(Product(l), c)
  {
    var b, m, w := BatchB(l), l.B.shape[Axis(l) - 1], Cols(l);
    SharedBatch(l);
    ShapesOf(l);
    SplitCoordinates(c, b, m, w);
    SplitCoordinates(c, Broadcast(BatchA(l), b), m, w);
    var cb, i, x := c[..|b|], c[|b|], c[|b| + 1];
    SummedIsEntry(l, cb, i, x, Rank(l));
    ProductAt(l, cb + [i], x);
  }

  lemma SharedMeaning(l: Factors)
    requires Shared(l)
    ensures Meaning(l) == Some(Product(l))
  {
    SharedBatch(l);
    forall c | InShape(c, MeaningShape(l))
      ensures At(Batched(l), c) == At(Product(l), c)
    {
      BatchedAt(l, c);
      SharedElement(l, c);
    }
    Extensional(Batched(l), Product(l));
  }
}
