/** Dense tensors in row-major order and the torch operations the converters use on them. Elements
    are integers. */
module Tensors {

  import opened Wrappers

  datatype Error = NotImplemented | AssertionFailed | BadIndex | BadShape

  type Outcome<+T> = Result<T, Error>

  function Prod(s: seq<nat>): nat {
    if s == [] then 1 else Prod(s[..|s| - 1]) * s[|s| - 1]
  }

  predicate InShape(c: seq<nat>, s: seq<nat>) {
    |c| == |s| && forall i :: 0 <= i < |s| ==> c[i] < s[i]
  }

  lemma CellBound(row: nat, rows: nat, x: nat, w: nat)
    requires row < rows && x < w
    ensures row * w + x < rows * w
  {
    assert row * w + w == (row + 1) * w <= rows * w;
  }

  lemma AtLeast(k: nat, w: nat)
    requires k >= 1
    ensures k * w >= w
  {
    assert k * w == (k - 1) * w + w;
  }

  lemma SameQuotient(q: nat, r: nat, q': nat, r': nat, w: nat)
    requires r < w && r' < w && q * w + r == q' * w + r'
    ensures q <= q'
  {
    if q > q' {
      assert (q - q') * w == q * w - q' * w;
      AtLeast(q - q', w);
    }
  }

  lemma CellSplit(row: nat, x: nat, w: nat)
    requires x < w
    ensures (row * w + x) / w == row && (row * w + x) % w == x
  {
    var i := row * w + x;
    var q, r := i / w, i % w;
    assert i == q * w + r;
    SameQuotient(q, r, row, x, w);
    SameQuotient(row, x, q, r, w);
  }

  lemma RowBound(i: nat, rows: nat, w: nat)
    requires i < rows * w
    ensures w > 0 && i / w < rows && i % w < w && i == (i / w) * w + i % w
  {
    var q := i / w;
    assert i == q * w + i % w;
    if q >= rows {
      MoreRows(rows, q, w);
    }
  }

  lemma MoreRows(a: nat, b: nat, w: nat)
    requires a <= b
    ensures a * w <= b * w
  {
    assert (b - a) * w == b * w - a * w;
  }

  /** The position of the element at `c`, with the last coordinate moving fastest. */
  function Flatten(s: seq<nat>, c: seq<nat>): (i: nat)
    requires InShape(c, s)
    ensures i < Prod(s)
  {
    if s == [] then 0
    else
      var n := |s| - 1;
      CellBound(Flatten(s[..n], c[..n]), Prod(s[..n]), c[n], s[n]);
      Flatten(s[..n], c[..n]) * s[n] + c[n]
  }

  function Unflatten(s: seq<nat>, i: nat): (c: seq<nat>)
    requires i < Prod(s)
    ensures InShape(c, s)
  {
    if s == [] then []
    else
      var n := |s| - 1;
      RowBound(i, Prod(s[..n]), s[n]);
      Unflatten(s[..n], i / s[n]) + [i % s[n]]
  }

  lemma {:induction false} FlattenUnflatten(s: seq<nat>, i: nat)
    requires i < Prod(s)
    ensures Flatten(s, Unflatten(s, i)) == i
  {
    if s != [] {
      var n := |s| - 1;
      RowBound(i, Prod(s[..n]), s[n]);
      FlattenUnflatten(s[..n], i / s[n]);
      assert Unflatten(s, i)[..n] == Unflatten(s[..n], i / s[n]);
    }
  }

  lemma {:induction false} UnflattenFlatten(s: seq<nat>, c: seq<nat>)
    requires InShape(c, s)
    ensures Unflatten(s, Flatten(s, c)) == c
  {
    if s != [] {
      var n := |s| - 1;
      UnflattenFlatten(s[..n], c[..n]);
      CellSplit(Flatten(s[..n], c[..n]), c[n], s[n]);
      assert c == c[..n] + [c[n]];
    }
  }

  datatype Tensor = Tensor(shape: seq<nat>, data: seq<int>)

  predicate Valid(t: Tensor) {
    |t.data| == Prod(t.shape)
  }

  function At(t: Tensor, c: seq<nat>): int
    requires Valid(t) && InShape(c, t.shape)
  {
    t.data[Flatten(t.shape, c)]
  }

  /** Two tensors of one shape with the same elements are the same. */
  lemma Extensional(t: Tensor, u: Tensor)
    requires Valid(t) && Valid(u) && t.shape == u.shape
    requires forall c :: InShape(c, t.shape) ==> At(t, c) == At(u, c)
    ensures t == u
  {
    forall i | 0 <= i < |t.data|
      ensures t.data[i] == u.data[i]
    {
      FlattenUnflatten(t.shape, i);
      assert At(t, Unflatten(t.shape, i)) == At(u, Unflatten(t.shape, i));
    }
  }

  // ---------------------------------------------------------------- reshape

  predicate OneInferred(dims: seq<int>) {
    forall i, j :: 0 <= i < j < |dims| ==> !(dims[i] == -1 && dims[j] == -1)
  }

  function KnownProd(dims: seq<int>): int {
    if dims == [] then 1
    else KnownProd(dims[..|dims| - 1]) * (if dims[|dims| - 1] == -1 then 1 else dims[|dims| - 1])
  }

  /** Every -1 replaced by what is left over of `total` elements. */
  function Expand(dims: seq<int>, total: nat): Outcome<seq<nat>> {
    if exists i :: 0 <= i < |dims| && dims[i] < -1 then Err(BadShape)
    else if -1 !in dims then Ok(seq(|dims|, i requires 0 <= i < |dims| => if dims[i] < 0 then 0 else dims[i]))
    else
      var known := KnownProd(dims);
      if known <= 0 || total % known != 0 then Err(BadShape)
      else Ok(seq(|dims|, i requires 0 <= i < |dims| => if dims[i] < 0 then total / known else dims[i]))
  }

  function Reshape(t: Tensor, shape: seq<nat>): (r: Outcome<Tensor>)
    requires Valid(t)
    ensures r.Ok? ==> Valid(r.value)
  {
    if Prod(shape) == |t.data| then Ok(Tensor(shape, t.data)) else Err(BadShape)
  }

  // ---------------------------------------------------------------- indexing

  datatype Pick = One(i: nat) | Range(lo: nat, len: nat)

  predicate PicksFit(ps: seq<Pick>, shape: seq<nat>) {
    && |ps| == |shape|
    && forall k :: 0 <= k < |ps| ==>
         match ps[k]
         case One(i) => i < shape[k]
         case Range(lo, len) => lo + len <= shape[k]
  }

  function PickShape(ps: seq<Pick>): seq<nat> {
    if ps == [] then []
    else
      var last := ps[|ps| - 1];
      PickShape(ps[..|ps| - 1]) + (if last.One? then [] else [last.len])
  }

  /** Where the element at `c` of the picked tensor comes from. */
  function PickSource(ps: seq<Pick>, c: seq<nat>): (s: seq<nat>)
    requires InShape(c, PickShape(ps))
    ensures |s| == |ps|
  {
    if ps == [] then []
    else
      var n := |ps| - 1;
      var last := ps[n];
      if last.One? then
        assert PickShape(ps) == PickShape(ps[..n]);
        PickSource(ps[..n], c) + [last.i]
      else
        assert PickShape(ps)[..|c| - 1] == PickShape(ps[..n]);
        PickSource(ps[..n], c[..|c| - 1]) + [last.lo + c[|c| - 1]]
  }

  lemma InShapeSnoc(c: seq<nat>, s: seq<nat>, x: nat)
    requires s != [] && InShape(c, s[..|s| - 1]) && x < s[|s| - 1]
    ensures InShape(c + [x], s)
  {
  }

  lemma {:induction false} PickSourceFits(ps: seq<Pick>, c: seq<nat>, shape: seq<nat>)
    requires InShape(c, PickShape(ps)) && PicksFit(ps, shape)
    ensures InShape(PickSource(ps, c), shape)
  {
    if ps != [] {
      var n := |ps| - 1;
      assert PicksFit(ps[..n], shape[..n]);
      if ps[n].One? {
        assert PickShape(ps) == PickShape(ps[..n]);
        PickSourceFits(ps[..n], c, shape[..n]);
        InShapeSnoc(PickSource(ps[..n], c), shape, ps[n].i);
      } else {
        var m := |c| - 1;
        assert PickShape(ps)[..m] == PickShape(ps[..n]) && c[m] < PickShape(ps)[m] == ps[n].len;
        PickSourceFits(ps[..n], c[..m], shape[..n]);
        InShapeSnoc(PickSource(ps[..n], c[..m]), shape, ps[n].lo + c[m]);
      }
    }
  }

  function PickTensor(ps: seq<Pick>, t: Tensor): (r: Tensor)
    requires Valid(t) && PicksFit(ps, t.shape)
    ensures Valid(r) && r.shape == PickShape(ps)
  {
    var shape := PickShape(ps);
    Tensor(shape, seq(Prod(shape), i requires 0 <= i < Prod(shape) =>
      PickSourceFits(ps, Unflatten(shape, i), t.shape);
      t.data[Flatten(t.shape, PickSource(ps, Unflatten(shape, i)))]))
  }

  lemma PickAt(ps: seq<Pick>, t: Tensor, c: seq<nat>)
    requires Valid(t) && PicksFit(ps, t.shape) && InShape(c, PickShape(ps))
    ensures InShape(PickSource(ps, c), t.shape) && At(PickTensor(ps, t), c) == At(t, PickSource(ps, c))
  {
    PickSourceFits(ps, c, t.shape);
    UnflattenFlatten(PickShape(ps), c);
  }

  /** A Python index or slice, before it meets a dimension. */
  datatype Index = Int(i: int) | Slice(start: Option<int>, stop: Option<int>)

  const ALL := Slice(None, None)

  function Clamp(x: Option<int>, otherwise: nat, d: nat): (r: nat)
    requires otherwise <= d
    ensures r <= d
  {
    if x.None? then otherwise
    else if x.value < 0 then (if x.value + d < 0 then 0 else x.value + d)
    else if x.value > d then d
    else x.value
  }

  function Resolve(ix: Index, d: nat): (r: Outcome<Pick>)
    ensures r.Ok? ==> PicksFit([r.value], [d])
  {
    match ix
    case Int(i) => if 0 <= i + d && i < d then Ok(One(if i < 0 then i + d else i)) else Err(BadIndex)
    case Slice(start, stop) =>
      var lo, hi := Clamp(start, 0, d), Clamp(stop, d, d);
      Ok(Range(lo, if lo < hi then hi - lo else 0))
  }

  function ResolveAll(ixs: seq<Index>, shape: seq<nat>): (r: Outcome<seq<Pick>>)
    requires |ixs| == |shape|
    ensures r.Ok? ==> PicksFit(r.value, shape)
    ensures r.Ok? ==> forall k :: 0 <= k < |ixs| ==> Resolve(ixs[k], shape[k]) == Ok(r.value[k])
  {
    if ixs == [] then Ok([])
    else
      var n := |ixs| - 1;
      var init := ResolveAll(ixs[..n], shape[..n]);
      var last := Resolve(ixs[n], shape[n]);
      if init.Err? then init else if last.Err? then Err(last.error) else Ok(init.value + [last.value])
  }

  /** Missing trailing indices select everything. */
  function Pad(ixs: seq<Index>, n: nat): (r: seq<Index>)
    requires |ixs| <= n
    ensures |r| == n
  {
    ixs + seq(n - |ixs|, _ => ALL)
  }

  function Items(t: Tensor, ixs: seq<Index>): (r: Outcome<Tensor>)
    requires Valid(t)
    ensures r.Ok? ==> Valid(r.value)
  {
    if |ixs| > |t.shape| then Err(BadIndex)
    else
      var ps := ResolveAll(Pad(ixs, |t.shape|), t.shape);
      if ps.Err? then Err(ps.error) else Ok(PickTensor(ps.value, t))
  }

  // ---------------------------------------------------------------- permute

  predicate IsPerm(p: seq<nat>, n: nat) {
    && |p| == n
    && (forall k :: 0 <= k < n ==> p[k] < n)
    && (forall j, k :: 0 <= j < k < n ==> p[j] != p[k])
    && (forall j: nat :: j < n ==> j in p)
  }

  function Position(p: seq<nat>, j: nat): (k: nat)
    requires j in p
    ensures k < |p| && p[k] == j
  {
    var n := |p| - 1;
    if p[n] == j then n else Position(p[..n], j)
  }

  function PermShape(p: seq<nat>, shape: seq<nat>): (s: seq<nat>)
    requires IsPerm(p, |shape|)
    ensures |s| == |shape|
  {
    seq(|shape|, k requires 0 <= k < |shape| => shape[p[k]])
  }

  function PermSource(p: seq<nat>, c: seq<nat>): (s: seq<nat>)
    requires IsPerm(p, |c|)
    ensures |s| == |c| && forall k :: 0 <= k < |c| ==> s[p[k]] == c[k]
  {
    seq(|c|, j requires 0 <= j < |c| => c[Position(p, j)])
  }

  lemma PermSourceFits(p: seq<nat>, c: seq<nat>, shape: seq<nat>)
    requires IsPerm(p, |shape|) && InShape(c, PermShape(p, shape))
    ensures InShape(PermSource(p, c), shape)
  {
    var s := PermSource(p, c);
    forall j: nat | j < |shape|
      ensures s[j] < shape[j]
    {
      assert s[j] == c[Position(p, j)] < PermShape(p, shape)[Position(p, j)];
    }
  }

  function PermTensor(p: seq<nat>, t: Tensor): (r: Tensor)
    requires Valid(t) && IsPerm(p, |t.shape|)
    ensures Valid(r) && r.shape == PermShape(p, t.shape)
  {
    var shape := PermShape(p, t.shape);
    Tensor(shape, seq(Prod(shape), i requires 0 <= i < Prod(shape) =>
      PermSourceFits(p, Unflatten(shape, i), t.shape);
      t.data[Flatten(t.shape, PermSource(p, Unflatten(shape, i)))]))
  }

  lemma PermSourceAt(p: seq<nat>, t: Tensor, c: seq<nat>)
    requires Valid(t) && IsPerm(p, |t.shape|) && InShape(c, PermShape(p, t.shape))
    ensures InShape(PermSource(p, c), t.shape) && At(PermTensor(p, t), c) == At(t, PermSource(p, c))
  {
    UnflattenFlatten(PermShape(p, t.shape), c);
    PermSourceFits(p, c, t.shape);
  }

  /** Each coordinate goes where the permutation sends its axis. */
  lemma PermAt(p: seq<nat>, t: Tensor, c: seq<nat>)
    requires Valid(t) && IsPerm(p, |t.shape|) && InShape(c, t.shape)
    ensures var c' := seq(|c|, k requires 0 <= k < |c| => c[p[k]]);
            InShape(c', PermShape(p, t.shape)) && At(PermTensor(p, t), c') == At(t, c)
  {
    var c' := seq(|c|, k requires 0 <= k < |c| => c[p[k]]);
    PermSourceAt(p, t, c');
    assert PermSource(p, c') == c;
  }

  /** Negative axes count from the end. */
  function Axes(dims: seq<int>, n: nat): Outcome<seq<nat>> {
    if forall k :: 0 <= k < |dims| ==> 0 <= dims[k] + n && dims[k] < n then
      var p := seq(|dims|, k requires 0 <= k < |dims| => if dims[k] < 0 then dims[k] + n else dims[k]);
      if IsPerm(p, n) then Ok(p) else Err(BadShape)
    else Err(BadIndex)
  }

  function Permute(t: Tensor, dims: seq<int>): (r: Outcome<Tensor>)
    requires Valid(t)
    ensures r.Ok? ==> Valid(r.value)
  {
    var p := Axes(dims, |t.shape|);
    if p.Err? then Err(p.error) else Ok(PermTensor(p.value, t))
  }
}
