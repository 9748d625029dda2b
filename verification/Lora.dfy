/** The factored tensors of convert_lora_to_gguf.py: a pair A, B standing for the product B A,
    whose operations must have the effect the same operation has on the product. */
module Lora {

  import opened Wrappers
  import opened Tensors
  import opened Rows

  datatype Factors = Factors(A: Tensor, B: Tensor)

  /** What the constructor asserts. */
  predicate WellMade(A: Tensor, B: Tensor) {
    && Valid(A) && Valid(B)
    && |A.shape| == |B.shape| && |A.shape| >= 2 && A.shape[|A.shape| - 2] == B.shape[|B.shape| - 1]
  }

  function Make(A: Tensor, B: Tensor): (r: Outcome<Factors>)
    requires Valid(A) && Valid(B)
    ensures r.Ok? ==> WellMade(r.value.A, r.value.B)
  {
    if WellMade(A, B) then Ok(Factors(A, B)) else Err(AssertionFailed)
  }

  predicate AllOnes(s: seq<nat>) {
    forall i :: 0 <= i < |s| ==> s[i] == 1
  }

  function Ones(k: nat): seq<nat> {
    seq(k, _ => 1)
  }

  function Axis(l: Factors): nat
    requires WellMade(l.A, l.B)
  {
    |l.B.shape| - 1
  }

  function Dims(l: Factors): seq<nat>
    requires WellMade(l.A, l.B)
  {
    l.B.shape[..Axis(l)]
  }

  function Rank(l: Factors): nat
    requires WellMade(l.A, l.B)
  {
    l.B.shape[Axis(l)]
  }

  function Cols(l: Factors): nat
    requires WellMade(l.A, l.B)
  {
    l.A.shape[Axis(l)]
  }

  function Shape(l: Factors): seq<nat>
    requires WellMade(l.A, l.B)
  {
    Dims(l) + [Cols(l)]
  }

  /** One A serves all rows of B: its leading dimensions are 1. */
  predicate Shared(l: Factors) {
    WellMade(l.A, l.B) && Rank(l) > 0 && AllOnes(l.A.shape[..Axis(l) - 1])
  }

  /** The tensor the factors stand for. */
  function Product(l: Factors): (t: Tensor)
    requires Shared(l)
    ensures Valid(t) && t.shape == Shape(l)
  {
    ProdSnoc(Dims(l), Cols(l));
    Tensor(Shape(l), ProductData(l.A.data, l.B.data, Rank(l), Cols(l), Prod(Dims(l))))
  }

  // ---------------------------------------------------------------- the operations

  datatype Op =
    | Reshaped(dims: seq<int>)
    | Item(i: int)
    | Sliced(start: Option<int>, stop: Option<int>)
    | Tuple(ixs: seq<Index>)
    | Permuted(dims: seq<int>)
    | Swapped(axis0: int, axis1: int)

  /** The axes 0 to n - 1 with two of them exchanged. */
  function SwapAxes(n: nat, a: int, b: int): Outcome<seq<int>> {
    if 0 <= a + n && a < n && 0 <= b + n && b < n then
      var i, j := if a < 0 then a + n else a, if b < 0 then b + n else b;
      Ok(seq(n, k requires 0 <= k < n => if k == i then j else if k == j then i else k))
    else Err(BadIndex)
  }

  /** What the operation does to an ordinary tensor. */
  function Dense(op: Op, t: Tensor): (r: Outcome<Tensor>)
    requires Valid(t)
    ensures r.Ok? ==> Valid(r.value)
  {
    match op
    case Reshaped(dims) =>
      if !OneInferred(dims) then Err(BadShape)
      else
        var shape := Expand(dims, |t.data|);
        if shape.Err? then Err(shape.error) else Reshape(t, shape.value)
    case Item(i) => Items(t, [Int(i)])
    case Sliced(start, stop) => Items(t, [Slice(start, stop)])
    case Tuple(ixs) => Items(t, ixs)
    case Permuted(dims) => Permute(t, dims)
    case Swapped(a, b) =>
      var dims := SwapAxes(|t.shape|, a, b);
      if dims.Err? then Err(dims.error) else Permute(t, dims.value)
  }

  function MakeBoth(A: Outcome<Tensor>, B: Outcome<Tensor>): (r: Outcome<Factors>)
    requires A.Ok? ==> Valid(A.value)
    requires B.Ok? ==> Valid(B.value)
    ensures r.Ok? ==> WellMade(r.value.A, r.value.B)
  {
    if A.Err? then Err(A.error) else if B.Err? then Err(B.error) else Make(A.value, B.value)
  }

  function ReshapeFactors(l: Factors, dims: seq<int>): (r: Outcome<Factors>)
    requires WellMade(l.A, l.B)
    ensures r.Ok? ==> WellMade(r.value.A, r.value.B)
  {
    if |dims| < 2 then Err(NotImplemented)
    else
      var shape := Expand(dims, Prod(Shape(l)));
      if shape.Err? then Err(shape.error)
      else ReshapeTo(l, shape.value)
  }

  function ReshapeTo(l: Factors, shape: seq<nat>): (r: Outcome<Factors>)
    requires WellMade(l.A, l.B)
    ensures r.Ok? ==> WellMade(r.value.A, r.value.B)
  {
    var n := |shape| - 1;
    if n < 1 || shape[n] != Cols(l) then Err(NotImplemented)
    else MakeBoth(Reshape(l.A, Ones(n - 1) + [Rank(l), Cols(l)]), Reshape(l.B, shape[..n] + [Rank(l)]))
  }

  /** An integer wraps around A's own dimension, a slice selects all of it. */
  function IndexA(ix: Index, d: nat): Index {
    if ix.Int? && d > 0 then Int(ix.i % d) else ALL
  }

  function TupleFactors(l: Factors, ixs: seq<Index>): (r: Outcome<Factors>)
    requires WellMade(l.A, l.B)
    ensures r.Ok? ==> WellMade(r.value.A, r.value.B)
  {
    var n := Axis(l);
    if ixs == [] then Err(AssertionFailed)
    else if |ixs| > n + 1 then Err(BadIndex)
    else
      var q := Pad(ixs, n + 1);
      if ModuloZero(q[..n - 1], l.A.shape[..n - 1]) then Err(BadIndex)
      else MakeBoth(Items(l.A, IndicesA(q, l.A.shape[..n - 1])), Items(l.B, q[..n]))
  }

  /** Some integer index is to be reduced modulo an empty dimension. */
  predicate ModuloZero(q: seq<Index>, shape: seq<nat>)
    requires |q| == |shape|
  {
    exists i :: 0 <= i < |q| && q[i].Int? && shape[i] == 0
  }

  /** What A is indexed with: its leading axes, the rank axis, the columns. */
  function IndicesA(q: seq<Index>, lead: seq<nat>): seq<Index>
    requires |q| == |lead| + 2
  {
    LeadsA(q[..|lead|], lead) + [ALL] + [q[|lead| + 1]]
  }

  function LeadsA(q: seq<Index>, shape: seq<nat>): (r: seq<Index>)
    requires |q| == |shape|
    ensures |r| == |q|
  {
    seq(|q|, i requires 0 <= i < |q| => IndexA(q[i], shape[i]))
  }

  function PermuteFactors(l: Factors, dims: seq<int>): (r: Outcome<Factors>)
    requires WellMade(l.A, l.B)
    ensures r.Ok? ==> WellMade(r.value.A, r.value.B)
  {
    var n, m := Axis(l) + 1, |dims|;
    if m == 0 then Err(BadIndex)
    else if dims[m - 1] == -1 || dims[m - 1] == n - 1 then
      if AllOnes(l.A.shape[..n - 2]) then MakeBoth(Ok(l.A), Permute(l.B, dims)) else Err(AssertionFailed)
    else if n == 2 && dims[m - 1] in {-2, 0} && m >= 2 && dims[m - 2] in {-1, 1} then
      MakeBoth(Permute(l.B, dims), Permute(l.A, dims))
    else Err(NotImplemented)
  }

  /** What the operation does to the factors. */
  function Factored(op: Op, l: Factors): (r: Outcome<Factors>)
    requires WellMade(l.A, l.B)
    ensures r.Ok? ==> WellMade(r.value.A, r.value.B)
  {
    match op
    case Reshaped(dims) => ReshapeFactors(l, dims)
    case Item(i) =>
      if Axis(l) > 1 then MakeBoth(Items(l.A, [Int(i)]), Items(l.B, [Int(i)])) else Err(NotImplemented)
    case Sliced(start, stop) =>
      MakeBoth(if Axis(l) > 1 then Items(l.A, [Slice(start, stop)]) else Ok(l.A), Items(l.B, [Slice(start, stop)]))
    case Tuple(ixs) => TupleFactors(l, ixs)
    case Permuted(dims) => PermuteFactors(l, dims)
    case Swapped(a, b) =>
      var dims := SwapAxes(Axis(l) + 1, a, b);
      if dims.Err? then Err(dims.error) else PermuteFactors(l, dims.value)
  }

  // ---------------------------------------------------------------- A and its rows

  lemma {:induction false} OnesProd(s: seq<nat>)
    requires AllOnes(s)
    ensures Prod(s) == 1
  {
    if s != [] {
      OnesProd(s[..|s| - 1]);
    }
  }

  lemma ShapeA(l: Factors)
    requires Shared(l)
    ensures l.A.shape == l.A.shape[..Axis(l) - 1] + [Rank(l)] + [Cols(l)]
    ensures l.B.shape == Dims(l) + [Rank(l)]
    ensures |l.A.data| == Rank(l) * Cols(l) && |l.B.data| == Prod(Dims(l)) * Rank(l)
  {
    var lead := l.A.shape[..Axis(l) - 1];
    assert l.A.shape == lead + [Rank(l)] + [Cols(l)];
    OnesProd(lead);
    ProdSnoc(lead, Rank(l));
    ProdSnoc(lead + [Rank(l)], Cols(l));
  }

  lemma FlattenOnes(s: seq<nat>, c: seq<nat>)
    requires AllOnes(s) && InShape(c, s)
    ensures Flatten(s, c) == 0
  {
    OnesProd(s);
  }

  /** Picking from leading dimensions of size 1 leaves the rows of A where they are. */
  lemma LeadRows(leads: seq<Pick>, lead: seq<nat>, rank: nat)
    requires AllOnes(lead) && PicksFit(leads, lead) && AllOnes(PickShape(leads))
    ensures var pre := leads + [Range(0, rank)];
            PicksFit(pre, lead + [rank]) && PickShape(pre) == PickShape(leads) + [rank]
            && PickRows(pre, lead + [rank]) == Iota(rank)
  {
    var pre, s := leads + [Range(0, rank)], PickShape(leads);
    PickShapeSnoc(leads, Range(0, rank));
    OnesProd(s);
    ProdSnoc(s, rank);
    forall r: nat | r < rank
      ensures PickRows(pre, lead + [rank])[r] == r
    {
      LeadRow(leads, lead, rank, r);
    }
  }

  lemma LeadRow(leads: seq<Pick>, lead: seq<nat>, rank: nat, r: nat)
    requires AllOnes(lead) && PicksFit(leads, lead) && AllOnes(PickShape(leads)) && r < rank
    requires PicksFit(leads + [Range(0, rank)], lead + [rank]) && r < Prod(PickShape(leads + [Range(0, rank)]))
    ensures PickRows(leads + [Range(0, rank)], lead + [rank])[r] == r
  {
    var pre, s := leads + [Range(0, rank)], PickShape(leads);
    OnesProd(s);
    var u := Unflatten(s, 0);
    FlattenOnes(s, u);
    FlattenSnoc(s, rank, u, r);
    PickSnoc(leads, 0, rank, u, r);
    PickRowAt(pre, lead + [rank], u + [r]);
    LeadTarget(leads, lead, rank, u, r);
  }

  lemma LeadTarget(leads: seq<Pick>, lead: seq<nat>, rank: nat, u: seq<nat>, r: nat)
    requires AllOnes(lead) && PicksFit(leads, lead) && InShape(u, PickShape(leads)) && r < rank
    ensures var c := PickSource(leads, u) + [r]; InShape(c, lead + [rank]) && Flatten(lead + [rank], c) == r
  {
    PickSourceFits(leads, u, lead);
    FlattenSnoc(lead, rank, PickSource(leads, u), r);
    FlattenOnes(lead, PickSource(leads, u));
  }

  /** `A'` has the columns from `lo` of A, and still serves all rows of B. */
  ghost predicate KeepsA(l: Factors, A': Tensor, lo: nat, len: nat)
    requires WellMade(l.A, l.B)
  {
    && |A'.shape| >= 2 && A'.shape[|A'.shape| - 1] == len && AllOnes(A'.shape[..|A'.shape| - 2])
    && Moves(l.A.data, Cols(l), A'.data, len, lo, Iota(Rank(l)))
  }

  lemma PickA(l: Factors, leads: seq<Pick>, lo: nat, len: nat)
    requires Shared(l) && lo + len <= Cols(l)
    requires PicksFit(leads, l.A.shape[..Axis(l) - 1]) && AllOnes(PickShape(leads))
    ensures var ps := leads + [Range(0, Rank(l))] + [Range(lo, len)];
            PicksFit(ps, l.A.shape) && KeepsA(l, PickTensor(ps, l.A), lo, len)
  {
    var lead := l.A.shape[..Axis(l) - 1];
    ShapeA(l);
    LeadRows(leads, lead, Rank(l));
    PickMoves(leads + [Range(0, Rank(l))], lo, len, l.A, lead + [Rank(l)], Cols(l));
    LeadOf(PickShape(leads), Rank(l), len);
  }

  lemma LeadOf(s: seq<nat>, a: nat, b: nat)
    ensures (s + [a] + [b])[..|s| + 2 - 2] == s
  {
  }

  /** Any picking of rows from B, with columns from A, picks the same from the product. */
  lemma PicksKept(l: Factors, pre: seq<Pick>, lo: nat, len: nat, A': Tensor, B': Tensor)
    requires Shared(l) && PicksFit(pre, Dims(l)) && lo + len <= Cols(l) && WellMade(A', B')
    requires PicksFit(pre + [Range(0, Rank(l))], l.B.shape) && B' == PickTensor(pre + [Range(0, Rank(l))], l.B)
    requires KeepsA(l, A', lo, len)
    ensures Shared(Factors(A', B')) && PicksFit(pre + [Range(lo, len)], Shape(l))
    ensures Product(Factors(A', B')) == PickTensor(pre + [Range(lo, len)], Product(l))
  {
    var l', rows, P := Factors(A', B'), PickRows(pre, Dims(l)), Product(l);
    ShapeA(l);
    PickMoves(pre, 0, Rank(l), l.B, Dims(l), Rank(l));
    PickMoves(pre, lo, len, P, Dims(l), Cols(l));
    assert Dims(l') == PickShape(pre) && Rank(l') == Rank(l);
    ProductMoves(l.A.data, l.B.data, A'.data, B'.data, Rank(l), Cols(l), Prod(Dims(l)), len, lo, rows);
    MovesUnique(P.data, Cols(l), Product(l').data, PickTensor(pre + [Range(lo, len)], P).data, len, lo, rows);
  }

  // ---------------------------------------------------------------- indexing

  lemma ItemsPad(t: Tensor, ixs: seq<Index>)
    requires Valid(t) && |ixs| <= |t.shape|
    ensures Items(t, ixs) == Items(t, Pad(ixs, |t.shape|))
  {
    var q := Pad(ixs, |t.shape|);
    assert Pad(q, |t.shape|) == q;
  }

  lemma ResolveSnoc(q: seq<Index>, ix: Index, dims: seq<nat>, w: nat)
    requires |q| == |dims|
    ensures var r, init, last := ResolveAll(q + [ix], dims + [w]), ResolveAll(q, dims), Resolve(ix, w);
            && (r.Ok? <==> init.Ok? && last.Ok?)
            && (r.Ok? ==> r.value == init.value + [last.value])
  {
    assert (q + [ix])[..|q|] == q && (dims + [w])[..|dims|] == dims;
  }

  lemma ItemsSnoc(t: Tensor, dims: seq<nat>, w: nat, q: seq<Index>, ix: Index)
    requires Valid(t) && t.shape == dims + [w] && |q| == |dims|
    ensures var r, pre, last := Items(t, q + [ix]), ResolveAll(q, dims), Resolve(ix, w);
            && (r.Ok? <==> pre.Ok? && last.Ok?)
            && (r.Ok? ==> PicksFit(pre.value + [last.value], t.shape)
                          && r.value == PickTensor(pre.value + [last.value], t))
  {
    assert Pad(q + [ix], |t.shape|) == q + [ix];
    ResolveSnoc(q, ix, dims, w);
  }

  lemma ItemsInit(t: Tensor, q: seq<Index>)
    requires Valid(t) && |t.shape| == |q| + 1
    ensures Items(t, q) == Items(t, q + [ALL])
  {
    assert Pad(q, |t.shape|) == q + [ALL] == Pad(q + [ALL], |t.shape|);
  }

  lemma ResolveAllOfIt(d: nat)
    ensures Resolve(ALL, d) == Ok(Range(0, d))
  {
  }

  predicate Units(ps: seq<Pick>) {
    forall k :: 0 <= k < |ps| ==> ps[k].One? || ps[k].len == 1
  }

  lemma {:induction false} UnitShape(ps: seq<Pick>)
    requires Units(ps)
    ensures AllOnes(PickShape(ps))
  {
    if ps != [] {
      UnitShape(ps[..|ps| - 1]);
    }
  }

  lemma {:induction false} RangeShape(ps: seq<Pick>)
    requires forall k :: 0 <= k < |ps| ==> ps[k].Range?
    ensures |PickShape(ps)| == |ps| && forall k :: 0 <= k < |ps| ==> PickShape(ps)[k] == ps[k].len
  {
    if ps != [] {
      RangeShape(ps[..|ps| - 1]);
    }
  }

  /** The indexed B, for a full list of row indices. */
  lemma RowsOfB(t: Tensor, dims: seq<nat>, rank: nat, q: seq<Index>)
    requires Valid(t) && t.shape == dims + [rank] && |q| == |dims| && Items(t, q).Ok?
    ensures ResolveAll(q, dims).Ok?
    ensures var pre := ResolveAll(q, dims).value;
            && PicksFit(pre + [Range(0, rank)], t.shape)
            && Items(t, q).value == PickTensor(pre + [Range(0, rank)], t)
  {
    ItemsInit(t, q);
    ItemsSnoc(t, dims, rank, q, ALL);
    ResolveAllOfIt(rank);
  }

  /** The picks for A: its leading dimensions, then all rows, then some columns. */
  lemma PicksOfA(t: Tensor, lead: seq<nat>, rank: nat, cols: nat, q: seq<Index>, ix: Index)
    requires Valid(t) && t.shape == lead + [rank] + [cols] && |q| == |lead| && ix.Slice?
    requires ResolveAll(q, lead).Ok?
    ensures Items(t, q + [ALL] + [ix]).Ok?
    ensures var ps := ResolveAll(q, lead).value + [Range(0, rank)] + [Resolve(ix, cols).value];
            PicksFit(ps, t.shape) && Items(t, q + [ALL] + [ix]).value == PickTensor(ps, t)
  {
    ResolveAllOfIt(rank);
    ResolveSnoc(q, ALL, lead, rank);
    ItemsSnoc(t, lead + [rank], cols, q + [ALL], ix);
  }

  /** The indexed A, when what is picked from its leading dimensions has size 1. */
  lemma ColsOfA(l: Factors, lead: seq<nat>, q: seq<Index>, ix: Index, A': Tensor)
    requires Shared(l) && lead == l.A.shape[..Axis(l) - 1] && |q| == |lead| && ix.Slice?
    requires ResolveAll(q, lead).Ok? && Units(ResolveAll(q, lead).value)
    requires Items(l.A, q + [ALL] + [ix]) == Ok(A')
    ensures KeepsA(l, A', Resolve(ix, Cols(l)).value.lo, Resolve(ix, Cols(l)).value.len)
  {
    var leads, last := ResolveAll(q, lead).value, Resolve(ix, Cols(l)).value;
    ShapeA(l);
    UnitShape(leads);
    PicksOfA(l.A, lead, Rank(l), Cols(l), q, ix);
    PickA(l, leads, last.lo, last.len);
  }

  /** Indexing with a slice in the last place, given as complete lists for A and for the tensor. */
  lemma IndexKept(l: Factors, qa: seq<Index>, q: seq<Index>, ix: Index, A': Tensor, B': Tensor)
    requires Shared(l) && |qa| == Axis(l) - 1 && |q| == Axis(l) && ix.Slice?
    requires var lead := l.A.shape[..Axis(l) - 1]; ResolveAll(qa, lead).Ok? && Units(ResolveAll(qa, lead).value)
    requires Items(l.A, qa + [ALL] + [ix]) == Ok(A') && Items(l.B, q) == Ok(B') && WellMade(A', B')
    ensures Shared(Factors(A', B'))
    ensures Items(Product(l), q + [ix]) == Ok(Product(Factors(A', B')))
  {
    var last := Resolve(ix, Cols(l)).value;
    ShapeA(l);
    RowsOfB(l.B, Dims(l), Rank(l), q);
    ColsOfA(l, l.A.shape[..Axis(l) - 1], qa, ix, A');
    var pre := ResolveAll(q, Dims(l)).value;
    PicksKept(l, pre, last.lo, last.len, A', B');
    ItemsSnoc(Product(l), Dims(l), Cols(l), q, ix);
  }

  lemma TupleKept(l: Factors, ixs: seq<Index>)
    requires Shared(l) && TupleFactors(l, ixs).Ok?
    ensures var l' := TupleFactors(l, ixs).value;
            Shared(l') && Items(Product(l), ixs) == Ok(Product(l')) <==>
            (|ixs| == Axis(l) + 1 ==> ixs[Axis(l)].Slice?)
  {
    var n, l' := Axis(l), TupleFactors(l, ixs).value;
    TupleParts(l, ixs);
    var q := Pad(ixs, n + 1);
    LastOfPad(ixs, n);
    ItemsPad(Product(l), ixs);
    LeadsOfRows(q, l.A.shape[..n - 1]);
    BothMade(Items(l.A, IndicesA(q, l.A.shape[..n - 1])), Items(l.B, q[..n]));
    FullTupleKept(l, q[..n], q[n], l'.A, l'.B);
  }

  lemma LastOfPad(ixs: seq<Index>, n: nat)
    requires |ixs| <= n + 1
    ensures var q := Pad(ixs, n + 1);
            q == q[..n] + [q[n]] && (q[n].Slice? <==> (|ixs| == n + 1 ==> ixs[n].Slice?))
  {
  }

  /** With an integer for the last axis, the product loses a dimension that the factors keep. */
  lemma TupleIntLast(l: Factors, ixs: seq<Index>)
    requires Shared(l) && TupleFactors(l, ixs).Ok? && |ixs| == Axis(l) + 1 && ixs[Axis(l)].Int?
    ensures var r := Items(Product(l), ixs);
            r.Ok? ==> |r.value.shape| == |TupleFactors(l, ixs).value.B.shape| - 1
  {
    var n := Axis(l);
    TupleParts(l, ixs);
    LastOfPad(ixs, n);
    var q := Pad(ixs, n + 1);
    assert q == ixs;
    BothMade(Items(l.A, IndicesA(q, l.A.shape[..n - 1])), Items(l.B, q[..n]));
    IntLast(l, q[..n], q[n], TupleFactors(l, ixs).value.B);
  }

  lemma TupleParts(l: Factors, ixs: seq<Index>)
    requires WellMade(l.A, l.B) && TupleFactors(l, ixs).Ok?
    ensures |ixs| <= Axis(l) + 1
    ensures var n, q := Axis(l), Pad(ixs, Axis(l) + 1);
            TupleFactors(l, ixs) == MakeBoth(Items(l.A, IndicesA(q, l.A.shape[..n - 1])), Items(l.B, q[..n]))
  {
  }

  lemma LeadsOfRows(q: seq<Index>, s: seq<nat>)
    requires |q| == |s| + 2
    ensures LeadsA(q[..|s| + 1][..|s|], s) == LeadsA(q[..|s|], s)
  {
    assert q[..|s| + 1][..|s|] == q[..|s|];
  }

  lemma BothMade(A: Outcome<Tensor>, B: Outcome<Tensor>)
    requires (A.Ok? ==> Valid(A.value)) && (B.Ok? ==> Valid(B.value))
    ensures MakeBoth(A, B).Ok? ==> A == Ok(MakeBoth(A, B).value.A) && B == Ok(MakeBoth(A, B).value.B)
  {
  }

  lemma FullTupleKept(l: Factors, q: seq<Index>, ix: Index, A': Tensor, B': Tensor)
    requires Shared(l) && |q| == Axis(l) && WellMade(A', B') && Items(l.B, q) == Ok(B')
    requires Items(l.A, LeadsA(q[..Axis(l) - 1], l.A.shape[..Axis(l) - 1]) + [ALL] + [ix]) == Ok(A')
    ensures Shared(Factors(A', B')) && Items(Product(l), q + [ix]) == Ok(Product(Factors(A', B'))) <==> ix.Slice?
  {
    if ix.Slice? {
      LeadsUnit(q[..Axis(l) - 1], l.A.shape[..Axis(l) - 1]);
      IndexKept(l, LeadsA(q[..Axis(l) - 1], l.A.shape[..Axis(l) - 1]), q, ix, A', B');
    } else {
      IntLast(l, q, ix, B');
      assert Shared(Factors(A', B')) ==> |Product(Factors(A', B')).shape| == |B'.shape|;
    }
  }

  lemma LeadsUnit(q: seq<Index>, s: seq<nat>)
    requires |q| == |s| && AllOnes(s)
    ensures ResolveAll(LeadsA(q, s), s).Ok? && Units(ResolveAll(LeadsA(q, s), s).value)
  {
    forall i | 0 <= i < |q|
      ensures UnitIndex(LeadsA(q, s)[i])
    {
      UnitIndexA(q[i]);
    }
    UnitsResolve(LeadsA(q, s), s);
  }

  /** An integer in the last place asks for a tensor with one dimension less. */
  lemma IntLast(l: Factors, q: seq<Index>, ix: Index, B': Tensor)
    requires Shared(l) && |q| == Axis(l) && ix.Int? && Items(l.B, q) == Ok(B')
    ensures var r := Items(Product(l), q + [ix]); r.Ok? ==> |r.value.shape| == |B'.shape| - 1
  {
    ShapeA(l);
    RowsOfB(l.B, Dims(l), Rank(l), q);
    PickShapeSnoc(ResolveAll(q, Dims(l)).value, Range(0, Rank(l)));
    IntPicked(Product(l), Dims(l), Cols(l), q, ix);
  }

  lemma IntPicked(t: Tensor, dims: seq<nat>, w: nat, q: seq<Index>, ix: Index)
    requires Valid(t) && t.shape == dims + [w] && |q| == |dims| && ix.Int? && ResolveAll(q, dims).Ok?
    ensures var r := Items(t, q + [ix]); r.Ok? ==> r.value.shape == PickShape(ResolveAll(q, dims).value)
  {
    ItemsSnoc(t, dims, w, q, ix);
    if Resolve(ix, w).Ok? {
      PickShapeSnoc(ResolveAll(q, dims).value, Resolve(ix, w).value);
    }
  }

  predicate UnitIndex(ix: Index) {
    var r := Resolve(ix, 1); r.Ok? && (r.value.One? || r.value.len == 1)
  }

  lemma UnitIndexA(ix: Index)
    ensures UnitIndex(IndexA(ix, 1))
  {
  }

  lemma {:induction false} UnitsResolve(qa: seq<Index>, s: seq<nat>)
    requires |qa| == |s| && AllOnes(s) && forall i :: 0 <= i < |qa| ==> UnitIndex(qa[i])
    ensures ResolveAll(qa, s).Ok? && Units(ResolveAll(qa, s).value)
  {
    if qa != [] {
      UnitsResolve(qa[..|qa| - 1], s[..|s| - 1]);
    }
  }

  /** One index for both factors, when there is a leading dimension to spare. */
  lemma BareIndexKept(l: Factors, ix: Index, A': Tensor, B': Tensor)
    requires Shared(l) && Axis(l) > 1 && UnitIndex(ix) && WellMade(A', B')
    requires Items(l.A, [ix]) == Ok(A') && Items(l.B, [ix]) == Ok(B')
    ensures Shared(Factors(A', B')) && Items(Product(l), [ix]) == Ok(Product(Factors(A', B')))
  {
    var n := Axis(l);
    BareItems(l.A, ix);
    BareItems(l.B, ix);
    BareItems(Product(l), ix);
    BareUnits(ix, l.A.shape[..n - 1]);
    IndexKept(l, Pad([ix], n - 1), Pad([ix], n), ALL, A', B');
  }

  lemma BareUnits(ix: Index, s: seq<nat>)
    requires UnitIndex(ix) && AllOnes(s) && s != []
    ensures var r := ResolveAll(Pad([ix], |s|), s); r.Ok? && Units(r.value)
  {
    ResolveAllOfIt(1);
    UnitsResolve(Pad([ix], |s|), s);
  }

  lemma BareItems(t: Tensor, ix: Index)
    requires Valid(t) && |t.shape| > 2
    ensures Items(t, [ix]) == Items(t, Pad([ix], |t.shape| - 1))
    ensures Items(t, [ix]) == Items(t, Pad([ix], |t.shape| - 1) + [ALL])
    ensures Items(t, [ix]) == Items(t, Pad([ix], |t.shape| - 2) + [ALL] + [ALL])
  {
    ItemsPad(t, [ix]);
    ItemsInit(t, Pad([ix], |t.shape| - 1));
    BarePad(ix, |t.shape|);
  }

  lemma BarePad(ix: Index, n: nat)
    requires n > 2
    ensures Pad([ix], n) == Pad([ix], n - 1) + [ALL] == Pad([ix], n - 2) + [ALL] + [ALL]
  {
  }

  lemma SameA(l: Factors)
    requires Shared(l)
    ensures KeepsA(l, l.A, 0, Cols(l))
  {
    ShapeA(l);
  }

  lemma MatrixSliceKept(l: Factors, ix: Index, B': Tensor)
    requires Shared(l) && Axis(l) == 1 && ix.Slice? && WellMade(l.A, B') && Items(l.B, [ix]) == Ok(B')
    ensures Shared(Factors(l.A, B')) && Items(Product(l), [ix]) == Ok(Product(Factors(l.A, B')))
  {
    ShapeA(l);
    SameA(l);
    RowsOfB(l.B, Dims(l), Rank(l), [ix]);
    var pre := ResolveAll([ix], Dims(l)).value;
    PicksKept(l, pre, 0, Cols(l), l.A, B');
    ItemsInit(Product(l), [ix]);
    ItemsSnoc(Product(l), Dims(l), Cols(l), [ix], ALL);
    ResolveAllOfIt(Cols(l));
  }

  lemma PicksOfSlice(ix: Index, s: seq<nat>)
    requires s != [] && ix.Slice?
    ensures var r := ResolveAll(Pad([ix], |s|), s);
            && r.Ok? && |r.value| == |s|
            && forall k :: 0 <= k < |s| ==>
                 r.value[k].Range? && r.value[k].len == if k == 0 then Resolve(ix, s[0]).value.len else s[k]
  {
    var q := Pad([ix], |s|);
    SlicesResolve(q, s);
    forall k | 0 <= k < |s|
      ensures ResolveAll(q, s).value[k].len == if k == 0 then Resolve(ix, s[0]).value.len else s[k]
    {
      ResolveAllOfIt(s[k]);
      assert Resolve(q[k], s[k]) == Ok(ResolveAll(q, s).value[k]);
    }
  }

  /** A bare slice changes the first dimension and no other. */
  lemma SliceShape(t: Tensor, ix: Index)
    requires Valid(t) && t.shape != [] && ix.Slice?
    ensures Items(t, [ix]).Ok? && Items(t, [ix]).value.shape == [Resolve(ix, t.shape[0]).value.len] + t.shape[1..]
  {
    PicksOfSlice(ix, t.shape);
    RangesFrom(ResolveAll(Pad([ix], |t.shape|), t.shape).value, t.shape, Resolve(ix, t.shape[0]).value.len);
  }

  lemma RangesFrom(ps: seq<Pick>, s: seq<nat>, k: nat)
    requires s != [] && |ps| == |s|
    requires forall i :: 0 <= i < |s| ==> ps[i].Range? && ps[i].len == if i == 0 then k else s[i]
    ensures PickShape(ps) == [k] + s[1..]
  {
    RangeShape(ps);
  }

  lemma {:induction false} SlicesResolve(q: seq<Index>, s: seq<nat>)
    requires |q| == |s| && forall k :: 0 <= k < |q| ==> q[k].Slice?
    ensures ResolveAll(q, s).Ok? && forall k :: 0 <= k < |q| ==> ResolveAll(q, s).value[k].Range?
  {
    if q != [] {
      SlicesResolve(q[..|q| - 1], s[..|s| - 1]);
    }
  }

  // ---------------------------------------------------------------- reshape

  lemma SameRows(a: nat, b: nat, w: nat)
    requires a * w == b * w && w > 0
    ensures a == b
  {
    CellSplit(a, 0, w);
    CellSplit(b, 0, w);
  }

  lemma ReshapeKept(l: Factors, shape: seq<nat>)
    requires Shared(l) && ReshapeTo(l, shape).Ok?
    ensures var l' := ReshapeTo(l, shape).value;
            Shared(l') && Reshape(Product(l), shape) == Ok(Product(l'))
  {
    var n, l' := |shape| - 1, ReshapeTo(l, shape).value;
    var dims := shape[..n];
    ShapeA(l);
    ProdSnoc(dims, Rank(l));
    SameRows(Prod(dims), Prod(Dims(l)), Rank(l));
    assert l'.A.shape[..n - 1] == Ones(n - 1);
    assert shape == dims + [Cols(l)];
    assert Dims(l') == dims;
    ProdSnoc(dims, Cols(l));
  }

  // ---------------------------------------------------------------- permute

  lemma PermuteKept(l: Factors, dims: seq<int>, B': Tensor)
    requires Shared(l) && |dims| > 0 && (dims[|dims| - 1] == -1 || dims[|dims| - 1] == Axis(l))
    requires Permute(l.B, dims) == Ok(B') && WellMade(l.A, B')
    ensures Shared(Factors(l.A, B')) && Permute(Product(l), dims) == Ok(Product(Factors(l.A, B')))
  {
    var n := Axis(l);
    var p := Axes(dims, n + 1).value;
    assert p[n] == n;
    PermInit(p, n);
    RowPermKept(l, p, B');
  }

  lemma RowPermKept(l: Factors, p: seq<nat>, B': Tensor)
    requires Shared(l) && IsPerm(p, Axis(l) + 1) && p[Axis(l)] == Axis(l) && IsPerm(p[..Axis(l)], Axis(l))
    requires B' == PermTensor(p, l.B) && WellMade(l.A, B')
    ensures Shared(Factors(l.A, B')) && PermTensor(p, Product(l)) == Product(Factors(l.A, B'))
  {
    var l', P, p0 := Factors(l.A, B'), Product(l), p[..Axis(l)];
    var rows := PermRows(p0, Dims(l));
    ShapeA(l);
    SameA(l);
    PermMoves(p, l.B, Dims(l), Rank(l));
    PermMoves(p, P, Dims(l), Cols(l));
    assert Dims(l') == PermShape(p0, Dims(l)) && Rank(l') == Rank(l);
    ProductMoves(l.A.data, l.B.data, l.A.data, B'.data, Rank(l), Cols(l), Prod(Dims(l)), Cols(l), 0, rows);
    MovesUnique(P.data, Cols(l), Product(l').data, PermTensor(p, P).data, Cols(l), 0, rows);
  }

  const FLIP: seq<nat> := [1, 0]

  lemma FlipShape(s: seq<nat>)
    requires |s| == 2 && IsPerm(FLIP, 2)
    ensures PermShape(FLIP, s) == [s[1], s[0]]
  {
    assert FLIP[0] == 1 && FLIP[1] == 0;
  }

  /** Rows and columns change places. */
  lemma FlipCell(t: Tensor, m: nat, w: nat, row: nat, x: nat)
    requires Valid(t) && t.shape == [m, w] && row < m && x < w
    ensures IsPerm(FLIP, 2) && PermTensor(FLIP, t).shape == [w, m]
    ensures Cell(PermTensor(FLIP, t).data, m, x, row) == Cell(t.data, w, row, x)
  {
    assert FLIP[0] == 1 && FLIP[1] == 0;
    FlipShape(t.shape);
    PermAt(FLIP, t, [row, x]);
    FlipPair(row, x);
    MatrixAt(t, m, w, row, x);
    MatrixAt(PermTensor(FLIP, t), w, m, x, row);
  }

  lemma FlipPair(row: nat, x: nat)
    ensures var c: seq<nat> := [row, x]; seq(|c|, k requires 0 <= k < |c| => c[FLIP[k]]) == [x, row]
  {
    assert FLIP[0] == 1 && FLIP[1] == 0;
  }

  lemma MatrixAt(t: Tensor, m: nat, w: nat, row: nat, x: nat)
    requires Valid(t) && t.shape == [m, w] && row < m && x < w
    ensures InShape([row, x], t.shape) && At(t, [row, x]) == Cell(t.data, w, row, x)
  {
    FlattenOne(m, row);
    assert [m, w] == [m] + [w] && [row, x] == [row] + [x];
    AtCell(t, [m], w, [row], x);
  }

  lemma FlattenOne(m: nat, i: nat)
    requires i < m
    ensures InShape([i], [m]) && Flatten([m], [i]) == i && Prod([m]) == m
  {
    FlattenSnoc([], m, [], i);
    ProdSnoc([], m);
    assert [] + [m] == [m] && [] + [i] == [i];
  }

  lemma {:induction false} DotFlips(a: seq<int>, b: seq<int>, rank: nat, cols: nat, row: nat, x: nat,
                                    a': seq<int>, b': seq<int>, rows: nat, k: nat)
    requires k <= rank
    requires forall r: nat :: r < k ==> Cell(b', rank, x, r) == Cell(a, cols, r, x)
    requires forall r: nat :: r < k ==> Cell(a', rows, r, row) == Cell(b, rank, row, r)
    ensures Dot(a', b', rank, rows, x, row, k) == Dot(a, b, rank, cols, row, x, k)
  {
    if k > 0 {
      DotFlips(a, b, rank, cols, row, x, a', b', rows, k - 1);
      SameTerm(Cell(b', rank, x, k - 1), Cell(a', rows, k - 1, row),
               Cell(b, rank, row, k - 1), Cell(a, cols, k - 1, x));
    }
  }

  lemma SameTerm(p: int, q: int, u: int, v: int)
    requires p == v && q == u
    ensures p * q == u * v
  {
  }

  lemma FlipDot(l: Factors, a': Tensor, b': Tensor, row: nat, x: nat)
    requires Shared(l) && Axis(l) == 1 && row < Dims(l)[0] && x < Cols(l)
    requires IsPerm(FLIP, 2) && a' == PermTensor(FLIP, l.B) && b' == PermTensor(FLIP, l.A)
    ensures Dot(a'.data, b'.data, Rank(l), Dims(l)[0], x, row, Rank(l))
            == Dot(l.A.data, l.B.data, Rank(l), Cols(l), row, x, Rank(l))
  {
    forall r: nat | r < Rank(l)
      ensures Cell(b'.data, Rank(l), x, r) == Cell(l.A.data, Cols(l), r, x)
      ensures Cell(a'.data, Dims(l)[0], r, row) == Cell(l.B.data, Rank(l), row, r)
    {
      FlipCell(l.A, Rank(l), Cols(l), r, x);
      FlipCell(l.B, Dims(l)[0], Rank(l), row, r);
    }
    DotFlips(l.A.data, l.B.data, Rank(l), Cols(l), row, x, a'.data, b'.data, Dims(l)[0], Rank(l));
  }

  /** The transposed product is the product of the transposed factors in the other order. */
  lemma FlipKept(l: Factors)
    requires Shared(l) && Axis(l) == 1 && IsPerm(FLIP, 2)
    ensures var l' := Factors(PermTensor(FLIP, l.B), PermTensor(FLIP, l.A));
            Shared(l') && PermTensor(FLIP, Product(l)) == Product(l')
  {
    var m, w, P := Dims(l)[0], Cols(l), Product(l);
    var l' := Factors(PermTensor(FLIP, l.B), PermTensor(FLIP, l.A));
    FlipShapes(l);
    MatrixProd(w, m);
    forall x, row: nat | 0 <= x < w && row < m
      ensures Cell(PermTensor(FLIP, P).data, m, x, row) == Cell(Product(l').data, m, x, row)
    {
      FlipElement(l, l', row, x);
    }
    SameMatrix(PermTensor(FLIP, P).data, Product(l').data, m, w);
  }

  lemma FlipShapes(l: Factors)
    requires Shared(l) && Axis(l) == 1 && IsPerm(FLIP, 2)
    ensures var l' := Factors(PermTensor(FLIP, l.B), PermTensor(FLIP, l.A));
            && Shared(l') && Axis(l') == 1 && Rank(l') == Rank(l) && Cols(l') == Dims(l)[0] && Dims(l') == [Cols(l)]
            && PermTensor(FLIP, Product(l)).shape == [Cols(l), Dims(l)[0]] == Shape(l')
  {
    FlipShape(l.A.shape);
    FlipShape(l.B.shape);
    FlipShape(Product(l).shape);
  }

  lemma MatrixProd(m: nat, w: nat)
    ensures Prod([m]) == m && Prod([m, w]) == m * w
  {
    ProdSnoc([], m);
    ProdSnoc([m], w);
    assert [] + [m] == [m] && [m] + [w] == [m, w];
  }

  lemma FlipElement(l: Factors, l': Factors, row: nat, x: nat)
    requires Shared(l) && Axis(l) == 1 && IsPerm(FLIP, 2) && x < Cols(l) && row < Dims(l)[0]
    requires l' == Factors(PermTensor(FLIP, l.B), PermTensor(FLIP, l.A)) && Shared(l')
    requires Axis(l') == 1 && Rank(l') == Rank(l) && Cols(l') == Dims(l)[0] && Dims(l') == [Cols(l)]
    ensures Cell(PermTensor(FLIP, Product(l)).data, Dims(l)[0], x, row) == Cell(Product(l').data, Dims(l)[0], x, row)
  {
    var m, w := Dims(l)[0], Cols(l);
    MatrixProd(w, m);
    MatrixProd(m, w);
    FlipCell(Product(l), m, w, row, x);
    ProductCell(l.A.data, l.B.data, Rank(l), w, m, row, x);
    ProductCell(l'.A.data, l'.B.data, Rank(l), m, w, x, row);
    FlipDot(l, l'.A, l'.B, row, x);
  }
}
