/** Every operation on factors has the meaning it has on the product, exactly when it is used
    safely; and so have chains of such operations. */
module LoraChains {

  import opened Wrappers
  import opened Tensors
  import opened Lora
  import opened LoraMeaning

  /** Checkable before the call: at most one inferred dimension, no integer for the last axis, and no
      bare slice that cuts A's leading dimension of size 1 away while it leaves something of B. */
  predicate Safe(op: Op, l: Factors)
    requires WellMade(l.A, l.B)
  {
    match op
    case Reshaped(dims) => OneInferred(dims)
    case Sliced(start, stop) =>
      var ix := Slice(start, stop); Axis(l) > 1 ==> UnitIndex(ix) || Resolve(ix, l.B.shape[0]).value.len == 0
    case Tuple(ixs) => |ixs| == Axis(l) + 1 ==> ixs[Axis(l)].Slice?
    case Item(_) => true
    case Permuted(_) => true
    case Swapped(_, _) => true
  }

  /** The safe operations after which one A still serves all rows of B: all but slices that leave nothing. */
  predicate Keeping(op: Op, l: Factors)
    requires WellMade(l.A, l.B)
  {
    Safe(op, l) && (op.Sliced? && Axis(l) > 1 ==> UnitIndex(Slice(op.start, op.stop)))
  }

  /** The new factors stand for what the operation makes of the tensor the old ones stood for. */
  ghost predicate Faithful(op: Op, l: Factors, l': Factors)
    requires Shared(l) && WellMade(l'.A, l'.B)
  {
    var dense := Dense(op, Product(l));
    dense.Ok? && Meaning(l') == Some(dense.value)
  }

  lemma FirstResolves(t: Tensor, ix: Index)
    requires Valid(t) && t.shape != [] && Items(t, [ix]).Ok?
    ensures Resolve(ix, t.shape[0]).Ok?
  {
    var q := Pad([ix], |t.shape|);
    assert q[0] == ix;
    assert Resolve(q[0], t.shape[0]) == Ok(ResolveAll(q, t.shape).value[0]);
  }

  lemma ReshapedKept(dims: seq<int>, l: Factors)
    requires Shared(l) && ReshapeFactors(l, dims).Ok? && OneInferred(dims)
    ensures Carries(Reshaped(dims), l, ReshapeFactors(l, dims).value)
  {
    ReshapeKept(l, Expand(dims, Prod(Shape(l))).value);
  }

  /** The strong form: A still serves all rows, and the new product is what it should be. */
  predicate Carries(op: Op, l: Factors, l': Factors)
    requires Shared(l)
  {
    Shared(l') && Dense(op, Product(l)) == Ok(Product(l'))
  }

  lemma CarriesFaithful(op: Op, l: Factors, l': Factors)
    requires Shared(l) && Carries(op, l, l')
    ensures Faithful(op, l, l')
  {
    SharedMeaning(l');
  }

  lemma ItemUnit(i: int, l: Factors)
    requires Shared(l) && Axis(l) > 1 && Items(l.A, [Int(i)]).Ok?
    ensures UnitIndex(Int(i))
  {
    FirstResolves(l.A, Int(i));
    assert l.A.shape[0] == 1;
  }

  lemma ItemKept(i: int, l: Factors)
    requires Shared(l) && Factored(Item(i), l).Ok?
    ensures Carries(Item(i), l, Factored(Item(i), l).value)
  {
    var l' := Factored(Item(i), l).value;
    ItemUnit(i, l);
    BareIndexKept(l, Int(i), l'.A, l'.B);
  }

  lemma SlicedKept(start: Option<int>, stop: Option<int>, l: Factors)
    requires Shared(l) && Factored(Sliced(start, stop), l).Ok? && (Axis(l) > 1 ==> UnitIndex(Slice(start, stop)))
    ensures Carries(Sliced(start, stop), l, Factored(Sliced(start, stop), l).value)
  {
    var ix, l' := Slice(start, stop), Factored(Sliced(start, stop), l).value;
    if Axis(l) == 1 {
      MatrixSliceKept(l, ix, l'.B);
    } else {
      BareIndexKept(l, ix, l'.A, l'.B);
    }
  }

  // ---- slices that cut A away

  lemma CutShape(s: seq<nat>, s': seq<nat>, k: nat, n: nat)
    requires n > 1 && |s| == n + 1 && s' == [k] + s[1..]
    ensures |s'| == n + 1 && s'[n] == s[n] && s'[n - 1] == s[n - 1] && s'[..n - 1] == [k] + s[..n - 1][1..]
  {
    assert s'[n] == s[1..][n - 1] && s'[n - 1] == s[1..][n - 2];
  }

  lemma CutShapes(l: Factors, l': Factors, k: nat)
    requires Shared(l) && Axis(l) > 1 && WellMade(l'.A, l'.B)
    requires l'.A.shape == [0] + l.A.shape[1..] && l'.B.shape == [k] + l.B.shape[1..]
    ensures Axis(l') == Axis(l) && Cols(l') == Cols(l) && l'.B.shape[Axis(l) - 1] == l.B.shape[Axis(l) - 1]
    ensures BatchA(l') == [0] + BatchA(l)[1..] && BatchB(l') == [k] + BatchB(l)[1..]
  {
    CutShape(l.A.shape, l'.A.shape, 0, Axis(l));
    CutShape(l.B.shape, l'.B.shape, k, Axis(l));
  }

  lemma CutBroadcast(a: seq<nat>, b: seq<nat>, k: nat)
    requires |a| == |b| && AllOnes(a)
    ensures Broadcastable([0] + a, [k] + b) <==> k <= 1
    ensures Broadcast([0] + a, [k] + b) == [0] + b
  {
    assert ([0] + a)[0] == 0 && ([k] + b)[0] == k;
    assert forall i :: 0 < i < |a| + 1 ==> ([0] + a)[i] == a[i - 1] == 1 && ([k] + b)[i] == b[i - 1];
  }

  lemma {:induction false} ZeroProd(s: seq<nat>)
    requires s != [] && s[0] == 0
    ensures Prod(s) == 0
  {
    if |s| > 1 {
      ZeroProd(s[..|s| - 1]);
    }
  }

  /** The factors then stand for a tensor without rows, or for nothing at all when more than one row of
      B is left; the sliced product has the rows that B has. */
  lemma CutMeaning(l: Factors, l': Factors, dense: Tensor, k: nat)
    requires Shared(l) && Axis(l) > 1 && WellMade(l'.A, l'.B) && Valid(dense)
    requires l'.A.shape == [0] + l.A.shape[1..] && l'.B.shape == [k] + l.B.shape[1..]
    requires dense.shape == [k] + Shape(l)[1..]
    ensures Meaning(l') == Some(dense) <==> k == 0
  {
    CutShapes(l, l', k);
    CutBroadcast(BatchA(l)[1..], BatchB(l)[1..], k);
    if k == 0 {
      EmptyMeaning(l, l', dense);
    } else {
      RowsDiffer(l', dense, k);
    }
  }

  lemma RowsDiffer(l': Factors, dense: Tensor, k: nat)
    requires WellMade(l'.A, l'.B) && dense.shape != [] && dense.shape[0] == k > 0
    requires Broadcast(BatchA(l'), BatchB(l')) != [] && Broadcast(BatchA(l'), BatchB(l'))[0] == 0
    ensures Meaning(l') != Some(dense)
  {
    if Broadcastable(BatchA(l'), BatchB(l')) {
      assert Batched(l').shape[0] == 0;
    }
  }

  lemma CutItems(ix: Index, l: Factors, l': Factors, P: Tensor)
    requires Shared(l) && Axis(l) > 1 && ix.Slice? && !UnitIndex(ix) && Valid(P) && P.shape == Shape(l)
    requires WellMade(l'.A, l'.B) && Items(l.A, [ix]) == Ok(l'.A) && Items(l.B, [ix]) == Ok(l'.B)
    ensures var dense := Items(P, [ix]);
            dense.Ok? && (Meaning(l') == Some(dense.value) <==> Resolve(ix, l.B.shape[0]).value.len == 0)
  {
    assert l.A.shape[0] == 1;
    SliceShape(l.A, ix);
    SliceShape(l.B, ix);
    SliceShape(P, ix);
    CutMeaning(l, l', Items(P, [ix]).value, Resolve(ix, l.B.shape[0]).value.len);
  }

  lemma CutExact(start: Option<int>, stop: Option<int>, l: Factors)
    requires Shared(l) && Factored(Sliced(start, stop), l).Ok? && Axis(l) > 1 && !UnitIndex(Slice(start, stop))
    ensures Faithful(Sliced(start, stop), l, Factored(Sliced(start, stop), l).value)
            <==> Resolve(Slice(start, stop), l.B.shape[0]).value.len == 0
  {
    CutItems(Slice(start, stop), l, Factored(Sliced(start, stop), l).value, Product(l));
  }

  lemma EmptyMeaning(l: Factors, l': Factors, dense: Tensor)
    requires Shared(l) && WellMade(l'.A, l'.B) && Axis(l) > 1 && Axis(l') == Axis(l) && Cols(l') == Cols(l)
    requires l'.B.shape[Axis(l) - 1] == l.B.shape[Axis(l) - 1] && Broadcastable(BatchA(l'), BatchB(l'))
    requires Broadcast(BatchA(l'), BatchB(l')) == [0] + BatchB(l)[1..]
    requires Valid(dense) && dense.shape == [0] + Shape(l)[1..]
    ensures Batched(l') == dense
  {
    ShapesOf(l);
    assert Shape(l)[1..] == BatchB(l)[1..] + [l.B.shape[Axis(l) - 1]] + [Cols(l)];
    assert MeaningShape(l') == dense.shape;
    ZeroProd(dense.shape);
    assert Batched(l').data == [] == dense.data;
  }

  lemma PermutedKept(dims: seq<int>, l: Factors)
    requires Shared(l) && PermuteFactors(l, dims).Ok?
    ensures var l' := PermuteFactors(l, dims).value; Shared(l') && Permute(Product(l), dims) == Ok(Product(l'))
  {
    var l', m := PermuteFactors(l, dims).value, |dims|;
    if dims[m - 1] == -1 || dims[m - 1] == Axis(l) {
      PermuteKept(l, dims, l'.B);
    } else {
      assert Axes(dims, 2).value == FLIP;
      FlipKept(l);
    }
  }

  /** A safe operation that leaves something keeps one A for all rows and has its effect on the product. */
  lemma StepKept(op: Op, l: Factors)
    requires Shared(l) && Factored(op, l).Ok? && Keeping(op, l)
    ensures Carries(op, l, Factored(op, l).value)
  {
    match op
    case Reshaped(dims) => ReshapedKept(dims, l);
    case Item(i) => ItemKept(i, l);
    case Sliced(start, stop) => SlicedKept(start, stop, l);
    case Tuple(ixs) => TupleKept(l, ixs);
    case Permuted(dims) => PermutedKept(dims, l);
    case Swapped(a, b) => PermutedKept(SwapAxes(Axis(l) + 1, a, b).value, l);
  }

  lemma TupleUnfaithful(ixs: seq<Index>, l: Factors)
    requires Shared(l) && Factored(Tuple(ixs), l).Ok? && !Safe(Tuple(ixs), l)
    ensures !Faithful(Tuple(ixs), l, Factored(Tuple(ixs), l).value)
  {
    TupleIntLast(l, ixs);
  }

  /** An operation that goes through on the factors has the effect of the same operation on the
      product, exactly when it is safe. */
  lemma StepExact(op: Op, l: Factors)
    requires Shared(l) && Factored(op, l).Ok?
    ensures Faithful(op, l, Factored(op, l).value) <==> Safe(op, l)
  {
    if Keeping(op, l) {
      StepKept(op, l);
      CarriesFaithful(op, l, Factored(op, l).value);
    } else if op.Sliced? {
      CutExact(op.start, op.stop, l);
    } else if op.Tuple? {
      TupleUnfaithful(op.ixs, l);
    }
  }

  // ---------------------------------------------------------------- chains

  function FactoredAll(ops: seq<Op>, l: Factors): (r: Outcome<Factors>)
    requires WellMade(l.A, l.B)
    ensures r.Ok? ==> WellMade(r.value.A, r.value.B)
    decreases |ops|
  {
    if ops == [] then Ok(l)
    else
      var next := Factored(ops[0], l);
      if next.Err? then next else FactoredAll(ops[1..], next.value)
  }

  function DenseAll(ops: seq<Op>, t: Tensor): Outcome<Tensor>
    requires Valid(t)
    decreases |ops|
  {
    if ops == [] then Ok(t)
    else
      var next := Dense(ops[0], t);
      if next.Err? then next else DenseAll(ops[1..], next.value)
  }

  predicate KeepingAll(ops: seq<Op>, l: Factors)
    requires WellMade(l.A, l.B)
    decreases |ops|
  {
    ops == [] || (Keeping(ops[0], l) && (Factored(ops[0], l).Ok? ==> KeepingAll(ops[1..], Factored(ops[0], l).value)))
  }

  /** A chain of safe operations on the factors does to the product what the chain would do to it. */
  lemma {:induction false} ChainKept(ops: seq<Op>, l: Factors)
    requires Shared(l) && FactoredAll(ops, l).Ok? && KeepingAll(ops, l)
    ensures var l' := FactoredAll(ops, l).value; Shared(l') && DenseAll(ops, Product(l)) == Ok(Product(l'))
    decreases |ops|
  {
    if ops != [] {
      StepKept(ops[0], l);
      ChainKept(ops[1..], Factored(ops[0], l).value);
    }
  }

  /** A loaded adapter is a pair of matrices, and those are shared factors. */
  lemma MatricesShared(A: Tensor, B: Tensor)
    requires WellMade(A, B) && |A.shape| == 2 && A.shape[0] > 0
    ensures Shared(Factors(A, B))
  {
  }
}
