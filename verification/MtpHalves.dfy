/** Projection halves that come more than once in an MTP export: what an export makes of them, for every
    list of arrivals, and exactly when it succeeds. */
module MtpHalves {

  import opened Wrappers
  import opened MtpExport
  import opened MtpOrder
  import opened MtpRepeats

  // ---------------------------------------------------------------- the halves of one layer

  /** The half of this layer that an arrival makes ready, with its tensor. */
  function HalfOf(cfg: Config, st: State, nm: Name, t: Tensor, l: nat): Option<(Weight, Tensor)> {
    if nm.OtherName? || !IsHalf(nm.w) || nm.w.layer != l then None
    else if nm.ScaleName? then
      if nm.w in st.pending then Some((nm.w, Float(Dequantized(st.pending[nm.w], t)))) else None
    else if nm.w !in cfg.expected then Some((nm.w, Float(t)))
    else if nm.w in st.scales then Some((nm.w, Float(Dequantized(t, st.scales[nm.w]))))
    else None
  }

  /** The halves of a layer in the order in which they became ready. */
  function HalvesOf(cfg: Config, a: seq<(Name, Tensor)>, l: nat): (q: seq<(Weight, Tensor)>)
    requires Run(cfg, a).Ok?
    ensures forall i :: 0 <= i < |q| ==> IsHalf(q[i].0) && q[i].0.layer == l
    decreases |a|
  {
    if a == [] then []
    else
      var n := |a| - 1;
      var h := HalfOf(cfg, Run(cfg, a[..n]).value, a[n].0, a[n].1, l);
      HalvesOf(cfg, a[..n], l) + (if h.None? then [] else [h.value])
  }

  predicate OneSide(q: seq<(Weight, Tensor)>) {
    forall i :: 0 <= i < |q| ==> q[i].0 == q[0].0
  }

  /** Copies of one half, and then the other half. */
  predicate Joins(q: seq<(Weight, Tensor)>) {
    |q| >= 2 && OneSide(q[..|q| - 1]) && q[|q| - 1].0 != q[0].0
  }

  /** The last copy and the other half, e before h. */
  function JoinOf(q: seq<(Weight, Tensor)>): Tensor
    requires Joins(q)
  {
    var last, before := q[|q| - 1], q[|q| - 2].1;
    if last.0.EProj? then Columns(last.1, before) else Columns(before, last.1)
  }

  /** The first `k` halves have been joined and written; of the others the last one waits. */
  predicate LayerAt(q: seq<(Weight, Tensor)>, st: State, l: nat, k: nat) {
    && k <= |q| && OneSide(q[k..])
    && (k > 0 ==> Joins(q[..k]) && EhProj(l) in st.written && st.written[EhProj(l)] == JoinOf(q[..k]))
    && (k == |q| ==> EProj(l) !in st.halves && HProj(l) !in st.halves)
    && (k < |q| ==> HalfWaiting(st, q[|q| - 1]))
  }

  predicate HalfWaiting(st: State, h: (Weight, Tensor)) {
    IsHalf(h.0) && h.0 in st.halves && st.halves[h.0] == h.1 && OtherHalf(h.0) !in st.halves
  }

  // ---- one arrival

  predicate SameLayer(st: State, st': State, l: nat) {
    && (EProj(l) in st'.halves <==> EProj(l) in st.halves) && (HProj(l) in st'.halves <==> HProj(l) in st.halves)
    && (EProj(l) in st.halves ==> st'.halves[EProj(l)] == st.halves[EProj(l)])
    && (HProj(l) in st.halves ==> st'.halves[HProj(l)] == st.halves[HProj(l)])
    && (EhProj(l) in st.written ==> EhProj(l) in st'.written && st'.written[EhProj(l)] == st.written[EhProj(l)])
  }

  lemma EmitLayer(cfg: Config, st: State, nm: Name, t: Tensor, l: nat)
    requires !nm.ScaleName? && Emit(cfg, st, nm, t).Ok? && !(nm.WeightName? && IsHalf(nm.w) && nm.w.layer == l)
    ensures SameLayer(st, Emit(cfg, st, nm, t).value, l)
  {
    if nm.WeightName? && nm.w.Expert? {
      DeliverOnlySet(cfg, st, nm.w, Float(t), false);
    }
  }

  lemma PairedLayer(cfg: Config, st: State, w: Weight, weight: Tensor, scale: Tensor, l: nat)
    requires Paired(cfg, st, w, weight, scale).Ok? && !(IsHalf(w) && w.layer == l)
    ensures SameLayer(st, Paired(cfg, st, w, weight, scale).value, l)
  {
    if w.Expert? {
      DeliverOnlySet(cfg, st, w, Packed(weight, scale), true);
    } else {
      EmitLayer(cfg, st, WeightName(w), Dequantized(weight, scale), l);
    }
  }

  lemma StepElsewhere(cfg: Config, st: State, nm: Name, t: Tensor, l: nat)
    requires Step(cfg, st, nm, t).Ok? && HalfOf(cfg, st, nm, t, l).None?
    ensures SameLayer(st, Step(cfg, st, nm, t).value, l)
  {
    match nm
    case OtherName(_) => EmitLayer(cfg, st, nm, t, l);
    case WeightName(w) =>
      if w !in cfg.expected {
        EmitLayer(cfg, st, nm, t, l);
      } else if w in st.scales {
        PairedLayer(cfg, st.(scales := st.scales - {w}), w, t, st.scales[w], l);
      }
    case ScaleName(w) =>
      if w != Head && w in st.pending {
        PairedLayer(cfg, st.(pending := st.pending - {w}, scales := st.scales - {w}), w, st.pending[w], t, l);
      }
  }

  lemma StepPairs(cfg: Config, st: State, nm: Name, t: Tensor, l: nat)
    requires Step(cfg, st, nm, t).Ok? && HalfOf(cfg, st, nm, t, l).Some?
    ensures var h, st' := HalfOf(cfg, st, nm, t, l).value, Step(cfg, st, nm, t).value;
            var r := Pair(st, h.0, h.1);
            r.Ok? && st'.halves == r.value.halves && st'.written == r.value.written
  {
    var h, w := HalfOf(cfg, st, nm, t, l).value, nm.w;
    if nm.ScaleName? {
      var st1 := st.(pending := st.pending - {w}, scales := st.scales - {w});
      PairedPairs(cfg, st1, w, st.pending[w], t);
      PairAlike(st, st1, w, h.1);
    } else if w in cfg.expected {
      PairedPairs(cfg, st.(scales := st.scales - {w}), w, t, st.scales[w]);
      PairAlike(st, st.(scales := st.scales - {w}), w, h.1);
    }
  }

  lemma PairedPairs(cfg: Config, st: State, w: Weight, weight: Tensor, scale: Tensor)
    requires IsHalf(w)
    ensures Paired(cfg, st, w, weight, scale) == Pair(st, w, Float(Dequantized(weight, scale)))
  {
  }

  lemma PairWaits(st: State, w: Weight, v: Tensor)
    requires IsHalf(w) && OtherHalf(w) !in st.halves
    ensures Pair(st, w, v) == Ok(st.(halves := st.halves[w := v]))
  {
  }

  lemma PairMeets(st: State, w: Weight, v: Tensor)
    requires IsHalf(w) && OtherHalf(w) in st.halves
    ensures var other := OtherHalf(w);
            var both := if w.EProj? then Columns(v, st.halves[other]) else Columns(st.halves[other], v);
            Pair(st, w, v) == Write(st.(halves := st.halves - {w, other}), EhProj(w.layer), both)
  {
  }

  lemma PairAlike(st: State, st1: State, w: Weight, v: Tensor)
    requires IsHalf(w) && st1.halves == st.halves && st1.written == st.written
    ensures var r, r1 := Pair(st, w, v), Pair(st1, w, v);
            && (r.Ok? <==> r1.Ok?)
            && (r.Ok? ==> r1.value.halves == r.value.halves && r1.value.written == r.value.written)
  {
    if OtherHalf(w) in st.halves {
      var other := OtherHalf(w);
      var both := if w.EProj? then Columns(v, st.halves[other]) else Columns(st.halves[other], v);
      PairMeets(st, w, v);
      PairMeets(st1, w, v);
      WriteAlike(st.(halves := st.halves - {w, other}), st1.(halves := st1.halves - {w, other}), EhProj(w.layer), both);
    } else {
      PairWaits(st, w, v);
      PairWaits(st1, w, v);
    }
  }

  lemma WriteAlike(st: State, st1: State, o: Out, t: Tensor)
    requires st1.halves == st.halves && st1.written == st.written
    ensures var r, r1 := Write(st, o, t), Write(st1, o, t);
            && (r.Ok? <==> r1.Ok?)
            && (r.Ok? ==> r1.value.halves == r.value.halves && r1.value.written == r.value.written)
  {
  }

  lemma SameLayerAt(q: seq<(Weight, Tensor)>, st: State, st': State, l: nat, k: nat)
    requires LayerAt(q, st, l, k) && SameLayer(st, st', l)
    requires forall i :: 0 <= i < |q| ==> IsHalf(q[i].0) && q[i].0.layer == l
    ensures LayerAt(q, st', l, k)
  {
    if k < |q| {
      var w := q[|q| - 1].0;
      assert w == EProj(l) || w == HProj(l);
    }
  }

  /** The other half comes: the two are joined, for the first time. */
  lemma JoinedAt(q: seq<(Weight, Tensor)>, st: State, l: nat, k: nat, h: (Weight, Tensor))
    requires LayerAt(q, st, l, k) && k < |q| && IsHalf(h.0) && h.0.layer == l && h.0 != q[|q| - 1].0
    requires forall i :: 0 <= i < |q| ==> IsHalf(q[i].0) && q[i].0.layer == l
    requires Pair(st, h.0, h.1).Ok?
    ensures k == 0 && LayerAt(q + [h], Pair(st, h.0, h.1).value, l, |q| + 1)
  {
    var last, st', all := q[|q| - 1], Pair(st, h.0, h.1).value, q + [h];
    assert OtherHalf(h.0) == last.0 && st.halves[last.0] == last.1;
    assert k == 0;
    assert q[k..] == q && all[..|q|] == q && all[..|q| + 1] == all;
    assert Joins(all) && JoinOf(all) == st'.written[EhProj(l)];
  }

  /** The first half, or a copy of the one that waits. */
  lemma WaitsAt(q: seq<(Weight, Tensor)>, st: State, l: nat, k: nat, h: (Weight, Tensor))
    requires LayerAt(q, st, l, k) && IsHalf(h.0) && h.0.layer == l && (k < |q| ==> h.0 == q[|q| - 1].0)
    ensures Pair(st, h.0, h.1).Ok? && LayerAt(q + [h], Pair(st, h.0, h.1).value, l, k)
  {
    var all := q + [h];
    assert OtherHalf(h.0) !in st.halves;
    assert all[k..] == q[k..] + [h] && all[..k] == q[..k];
    assert k < |q| ==> q[k..][|q| - 1 - k] == q[|q| - 1];
  }

  lemma {:induction false} LayerRuns(cfg: Config, a: seq<(Name, Tensor)>, l: nat) returns (k: nat)
    requires Run(cfg, a).Ok?
    ensures LayerAt(HalvesOf(cfg, a, l), Run(cfg, a).value, l, k)
    decreases |a|
  {
    if a == [] {
      k := 0;
    } else {
      var n := |a| - 1;
      k := LayerRuns(cfg, a[..n], l);
      k := LayerStep(cfg, HalvesOf(cfg, a[..n], l), Run(cfg, a[..n]).value, a[n].0, a[n].1, l, k);
    }
  }

  lemma LayerStep(cfg: Config, q: seq<(Weight, Tensor)>, st: State, nm: Name, t: Tensor, l: nat, k: nat)
    returns (k': nat)
    requires LayerAt(q, st, l, k) && Step(cfg, st, nm, t).Ok?
    requires forall i :: 0 <= i < |q| ==> IsHalf(q[i].0) && q[i].0.layer == l
    ensures var h := HalfOf(cfg, st, nm, t, l);
            LayerAt(q + (if h.None? then [] else [h.value]), Step(cfg, st, nm, t).value, l, k')
  {
    var h, st' := HalfOf(cfg, st, nm, t, l), Step(cfg, st, nm, t).value;
    k' := k;
    if h.None? {
      StepElsewhere(cfg, st, nm, t, l);
      SameLayerAt(q, st, st', l, k);
      assert q + [] == q;
    } else {
      StepPairs(cfg, st, nm, t, l);
      if k < |q| && h.value.0 != q[|q| - 1].0 {
        JoinedAt(q, st, l, k, h.value);
        k' := |q| + 1;
      } else {
        WaitsAt(q, st, l, k, h.value);
      }
    }
  }

  lemma NoneLeft(q: seq<(Weight, Tensor)>, st: State, l: nat, k: nat)
    requires LayerAt(q, st, l, k)
    requires forall i :: 0 <= i < |q| ==> IsHalf(q[i].0) && q[i].0.layer == l
    ensures EProj(l) !in st.halves && HProj(l) !in st.halves <==> q == [] || Joins(q)
    ensures Joins(q) ==> EhProj(l) in st.written && st.written[EhProj(l)] == JoinOf(q)
  {
    if k == |q| {
      assert q[..k] == q;
    } else {
      assert q[|q| - 1].0 == EProj(l) || q[|q| - 1].0 == HProj(l);
      StillOpen(q, k);
    }
  }

  /** Copies of one half and then the other cannot be cut into such a list and copies of one half. */
  lemma StillOpen(q: seq<(Weight, Tensor)>, k: nat)
    requires k < |q| && OneSide(q[k..]) && (k > 0 ==> Joins(q[..k]))
    ensures !Joins(q)
  {
    var n := |q| - 1;
    if k == 0 {
      assert q[0..] == q;
    } else {
      assert q[..k][k - 1] == q[k - 1] && q[..k][0] == q[0];
      assert q[..n][k - 1] == q[k - 1] && q[..n][0] == q[0];
    }
  }

  /** After every run, whatever came how often: no half of the layer is left if and only if none became
      ready, or copies of one and then the other, once; and then the last copy is the one joined. */
  lemma HalvesExact(cfg: Config, a: seq<(Name, Tensor)>, l: nat)
    requires Run(cfg, a).Ok?
    ensures var st, q := Run(cfg, a).value, HalvesOf(cfg, a, l);
            && (EProj(l) !in st.halves && HProj(l) !in st.halves <==> q == [] || Joins(q))
            && (Joins(q) ==> EhProj(l) in st.written && st.written[EhProj(l)] == JoinOf(q))
  {
    var k := LayerRuns(cfg, a, l);
    NoneLeft(HalvesOf(cfg, a, l), Run(cfg, a).value, l, k);
  }

  /** So in every export. */
  lemma ExportedHalves(n: int, supported: set<Name>, selected: set<Name>, a: seq<(Name, Tensor)>, l: nat)
    requires Export(n, supported, selected, a).Ok?
    ensures var cfg, out := ConfigOf(n, supported, selected), Export(n, supported, selected, a).value;
            && Run(cfg, a).Ok?
            && var q := HalvesOf(cfg, a, l);
            && (q == [] || Joins(q))
            && (Joins(q) ==> EhProj(l) in out.written && out.written[EhProj(l)] == JoinOf(q))
  {
    ExportOf(n, supported, selected, a);
    HalvesExact(ConfigOf(n, supported, selected), a, l);
  }

  // ---------------------------------------------------------------- halves without scales

  predicate IsHalfName(nm: Name, l: nat) {
    nm.WeightName? && IsHalf(nm.w) && nm.w.layer == l
  }

  /** The halves of a layer as they arrive. */
  function Comes(a: seq<(Name, Tensor)>, l: nat): seq<(Weight, Tensor)> {
    if a == [] then []
    else
      var n := |a| - 1;
      Comes(a[..n], l) + (if IsHalfName(a[n].0, l) then [(a[n].0.w, Float(a[n].1))] else [])
  }

  predicate Unscaled(selected: set<Name>, w: Weight)
    requires IsHalf(w)
  {
    ScaleName(w) !in selected && ScaleName(OtherHalf(w)) !in selected
  }

  lemma NamesInit(a: seq<(Name, Tensor)>)
    requires a != []
    ensures NamesOf(a) == NamesOf(a[..|a| - 1]) + {a[|a| - 1].0}
  {
    assert a == a[..|a| - 1] + [a[|a| - 1]];
    NamesSnoc(a[..|a| - 1], a[|a| - 1]);
  }

  lemma {:induction false} HalvesCome(cfg: Config, a: seq<(Name, Tensor)>, l: nat)
    requires Run(cfg, a).Ok? && EProj(l) !in cfg.expected && HProj(l) !in cfg.expected
    requires ScaleName(EProj(l)) !in NamesOf(a) && ScaleName(HProj(l)) !in NamesOf(a)
    ensures HalvesOf(cfg, a, l) == Comes(a, l)
    decreases |a|
  {
    if a != [] {
      var n := |a| - 1;
      NamesInit(a);
      HalvesCome(cfg, a[..n], l);
      assert !a[n].0.OtherName? && IsHalf(a[n].0.w) && a[n].0.w.layer == l ==>
          a[n].0.w == EProj(l) || a[n].0.w == HProj(l);
    }
  }

  lemma {:induction false} ComesHas(a: seq<(Name, Tensor)>, l: nat, x: nat)
    requires x < |a| && IsHalfName(a[x].0, l)
    ensures (a[x].0.w, Float(a[x].1)) in Comes(a, l)
    decreases |a|
  {
    if x < |a| - 1 {
      ComesHas(a[..|a| - 1], l, x);
    }
  }

  /** The last half that comes. */
  lemma {:induction false} LastCome(a: seq<(Name, Tensor)>, l: nat) returns (k: nat)
    requires Comes(a, l) != []
    ensures k < |a| && IsHalfName(a[k].0, l) && forall x :: k < x < |a| ==> !IsHalfName(a[x].0, l)
    ensures Comes(a, l) == Comes(a[..k], l) + [(a[k].0.w, Float(a[k].1))]
    decreases |a|
  {
    k := |a| - 1;
    if !IsHalfName(a[k].0, l) {
      var n := k;
      k := LastCome(a[..n], l);
      assert a[..n][..k] == a[..k] && a[..n][k] == a[k];
    }
  }

  /** At `k` the other half comes, once; before it copies of `w`, the last of them at `j`. */
  predicate PartnerLast(a: seq<(Name, Tensor)>, w: Weight, j: nat, k: nat)
    requires IsHalf(w)
  {
    && j < k < |a| && a[j].0 == WeightName(w) && a[k].0 == WeightName(OtherHalf(w))
    && forall x :: 0 <= x < |a| && x != k && IsHalfName(a[x].0, w.layer) ==> a[x].0 == WeightName(w) && x <= j
  }

  lemma SidesBefore(a: seq<(Name, Tensor)>, w: Weight, k: nat, i: nat, x: nat)
    requires IsHalf(w) && k <= |a| && OneSide(Comes(a[..k], w.layer))
    requires i < k && a[i].0 == WeightName(w) && x < k && IsHalfName(a[x].0, w.layer)
    ensures a[x].0 == WeightName(w)
  {
    var l, q := w.layer, Comes(a[..k], w.layer);
    assert a[..k][i] == a[i] && a[..k][x] == a[x];
    ComesHas(a[..k], l, i);
    ComesHas(a[..k], l, x);
    var u :| 0 <= u < |q| && q[u] == (a[i].0.w, Float(a[i].1));
    var v :| 0 <= v < |q| && q[v] == (a[x].0.w, Float(a[x].1));
    assert q[u].0 == q[0].0 && q[v].0 == q[0].0;
  }

  /** Two copies of a half that join end in the other half. */
  lemma JoinsPlaces(a: seq<(Name, Tensor)>, w: Weight, i: nat, i': nat) returns (j: nat, k: nat)
    requires IsHalf(w) && i < i' < |a| && a[i].0 == WeightName(w) == a[i'].0 && Joins(Comes(a, w.layer))
    ensures PartnerLast(a, w, j, k)
    ensures JoinOf(Comes(a, w.layer)) == if w.EProj? then Columns(Float(a[j].1), Float(a[k].1))
                                         else Columns(Float(a[k].1), Float(a[j].1))
  {
    var l, q := w.layer, Comes(a, w.layer);
    k := LastCome(a, l);
    assert q[..|q| - 1] == Comes(a[..k], l);
    assert i < k;
    SidesBefore(a, w, k, i, i);
    j := LastCome(a[..k], l);
    assert a[..k][j] == a[j];
    assert q[|q| - 2] == Comes(a[..k], l)[|q| - 2];
    SidesBefore(a, w, k, i, j);
    assert q[0] == Comes(a[..k], l)[0];
    forall x | 0 <= x < |a| && x != k && IsHalfName(a[x].0, l)
      ensures a[x].0 == WeightName(w) && x <= j
    {
      SidesBefore(a, w, k, i, x);
      assert a[..k][x] == a[x];
    }
  }

  /** An export with two copies of an unscaled half has the other half once, after all of them, and uses
      the last copy. */
  lemma LastCopyUsed(n: int, supported: set<Name>, selected: set<Name>, a: seq<(Name, Tensor)>,
                     w: Weight, i: nat, i': nat)
    returns (j: nat, k: nat)
    requires NamesOf(a) <= selected && IsHalf(w) && Unscaled(selected, w) && Export(n, supported, selected, a).Ok?
    requires i < i' < |a| && a[i].0 == WeightName(w) == a[i'].0
    ensures PartnerLast(a, w, j, k)
    ensures var out := Export(n, supported, selected, a).value;
            && EhProj(w.layer) in out.written
            && out.written[EhProj(w.layer)] == if w.EProj? then Columns(Float(a[j].1), Float(a[k].1))
                                               else Columns(Float(a[k].1), Float(a[j].1))
  {
    var cfg, l := ConfigOf(n, supported, selected), w.layer;
    ExportedHalves(n, supported, selected, a, l);
    assert w == EProj(l) || w == HProj(l);
    HalvesCome(cfg, a, l);
    ComesHas(a, l, i);
    j, k := JoinsPlaces(a, w, i, i');
  }

  // ---- dropping a copy

  function Without(a: seq<(Name, Tensor)>, i: nat): seq<(Name, Tensor)>
    requires i < |a|
  {
    a[..i] + a[i + 1..]
  }

  /** The same state but for the half that waits, while the other has not come. */
  ghost predicate Alike(st: State, st': State, w: Weight)
    requires IsHalf(w)
  {
    st' == st.(halves := st'.halves) && SameBut(st.halves, st'.halves, w) && OtherHalf(w) !in st.halves
  }

  ghost predicate AlikeOut(r: Outcome<State>, r': Outcome<State>, w: Weight)
    requires IsHalf(w)
  {
    if r.Err? then r' == r else r'.Ok? && Alike(r.value, r'.value, w)
  }

  lemma DeliverFails(cfg: Config, st: State, v: Weight, t: Tensor, toRaw: bool, dict: map<nat, Tensor>)
    requires v.Expert? && dict == DictOf(st, (v.layer, v.proj))[v.id := t]
    requires 0 < cfg.n <= |dict| && !IsRange(dict.Keys, cfg.n)
    ensures DeliverExpert(cfg, st, v, t, toRaw) == Err(IncompleteExperts)
  {
  }

  lemma DeliverFills(cfg: Config, st: State, v: Weight, t: Tensor, toRaw: bool, dict: map<nat, Tensor>)
    requires v.Expert? && dict == DictOf(st, (v.layer, v.proj))[v.id := t]
    requires 0 < cfg.n <= |dict| && IsRange(dict.Keys, cfg.n)
    ensures var st1, o := st.(experts := st.experts - {(v.layer, v.proj)}), Experts(v.layer, v.proj);
            DeliverExpert(cfg, st, v, t, toRaw) ==
            if toRaw then Ok(st1.(raw := st1.raw[o := Stack(dict, cfg.n)])) else Write(st1, o, Stack(dict, cfg.n))
  {
  }

  lemma FillAlike(cfg: Config, st: State, st': State, v: Weight, t: Tensor, toRaw: bool, dict: map<nat, Tensor>,
                  w: Weight)
    requires IsHalf(w) && v.Expert? && Alike(st, st', w)
    requires DictOf(st', (v.layer, v.proj)) == DictOf(st, (v.layer, v.proj))
    requires dict == DictOf(st, (v.layer, v.proj))[v.id := t] && 0 < cfg.n <= |dict| && IsRange(dict.Keys, cfg.n)
    ensures AlikeOut(DeliverExpert(cfg, st, v, t, toRaw), DeliverExpert(cfg, st', v, t, toRaw), w)
  {
    var key, o, stack := (v.layer, v.proj), Experts(v.layer, v.proj), Stack(dict, cfg.n);
    DeliverFills(cfg, st, v, t, toRaw, dict);
    DeliverFills(cfg, st', v, t, toRaw, dict);
    WriteHere(st.(experts := st.experts - {key}), st'.(experts := st'.experts - {key}), o, stack, w);
  }

  lemma DeliverAlike(cfg: Config, st: State, st': State, v: Weight, t: Tensor, toRaw: bool, w: Weight)
    requires IsHalf(w) && v.Expert? && Alike(st, st', w)
    ensures AlikeOut(DeliverExpert(cfg, st, v, t, toRaw), DeliverExpert(cfg, st', v, t, toRaw), w)
  {
    var key := (v.layer, v.proj);
    var dict := DictOf(st, key)[v.id := t];
    assert DictOf(st', key) == DictOf(st, key);
    if cfg.n <= 0 || |dict| < cfg.n {
      Buffered(cfg, st, v, t, toRaw, dict);
      Buffered(cfg, st', v, t, toRaw, dict);
    } else if !IsRange(dict.Keys, cfg.n) {
      DeliverFails(cfg, st, v, t, toRaw, dict);
      DeliverFails(cfg, st', v, t, toRaw, dict);
    } else {
      FillAlike(cfg, st, st', v, t, toRaw, dict, w);
    }
  }

  lemma WriteHere(st: State, st': State, o: Out, t: Tensor, w: Weight)
    requires IsHalf(w) && Alike(st, st', w)
    ensures AlikeOut(Write(st, o, t), Write(st', o, t), w)
  {
  }

  lemma PairAlikeHere(st: State, st': State, v: Weight, t: Tensor, w: Weight)
    requires IsHalf(w) && IsHalf(v) && v != OtherHalf(w) && Alike(st, st', w)
    ensures AlikeOut(Pair(st, v, t), Pair(st', v, t), w)
    ensures v == w ==> Pair(st, v, t) == Pair(st', v, t)
  {
    var other := OtherHalf(v);
    if other in st.halves {
      PairMeets(st, v, t);
      PairMeets(st', v, t);
      var both := if v.EProj? then Columns(t, st.halves[other]) else Columns(st.halves[other], t);
      WriteHere(st.(halves := st.halves - {v, other}), st'.(halves := st'.halves - {v, other}),
                EhProj(v.layer), both, w);
    } else {
      PairWaits(st, v, t);
      PairWaits(st', v, t);
      UpdateAlike(st.halves, st'.halves, v, t, w);
    }
  }

  lemma UpdateAlike(m: map<Weight, Tensor>, m': map<Weight, Tensor>, v: Weight, t: Tensor, w: Weight)
    requires SameBut(m, m', w)
    ensures SameBut(m[v := t], m'[v := t], w) && (v == w ==> m[v := t] == m'[v := t])
  {
  }

  lemma EmitAlike(cfg: Config, st: State, st': State, nm: Name, t: Tensor, w: Weight)
    requires IsHalf(w) && !nm.ScaleName? && nm != WeightName(OtherHalf(w)) && Alike(st, st', w)
    ensures AlikeOut(Emit(cfg, st, nm, t), Emit(cfg, st', nm, t), w)
  {
    if nm.WeightName? && nm.w.Expert? {
      DeliverAlike(cfg, st, st', nm.w, Float(t), false, w);
    } else if nm.WeightName? && IsHalf(nm.w) {
      PairAlikeHere(st, st', nm.w, Float(t), w);
    }
  }

  lemma PairedAlike(cfg: Config, st: State, st': State, v: Weight, weight: Tensor, scale: Tensor, w: Weight)
    requires IsHalf(w) && v != OtherHalf(w) && Alike(st, st', w)
    ensures AlikeOut(Paired(cfg, st, v, weight, scale), Paired(cfg, st', v, weight, scale), w)
  {
    if v.Expert? {
      DeliverAlike(cfg, st, st', v, Packed(weight, scale), true, w);
    } else {
      EmitAlike(cfg, st, st', WeightName(v), Dequantized(weight, scale), w);
    }
  }

  predicate Concerns(nm: Name, w: Weight)
    requires IsHalf(w)
  {
    nm == WeightName(OtherHalf(w)) || nm == ScaleName(OtherHalf(w))
  }

  lemma StepAlike(cfg: Config, st: State, st': State, nm: Name, t: Tensor, w: Weight)
    requires IsHalf(w) && !Concerns(nm, w) && Alike(st, st', w)
    ensures AlikeOut(Step(cfg, st, nm, t), Step(cfg, st', nm, t), w)
  {
    match nm
    case OtherName(_) => EmitAlike(cfg, st, st', nm, t, w);
    case WeightName(v) =>
      if v !in cfg.expected {
        EmitAlike(cfg, st, st', nm, t, w);
      } else if v in st.scales {
        PairedAlike(cfg, st.(scales := st.scales - {v}), st'.(scales := st'.scales - {v}), v, t, st.scales[v], w);
      }
    case ScaleName(v) =>
      if v != Head && v in st.pending {
        PairedAlike(cfg, st.(pending := st.pending - {v}, scales := st.scales - {v}),
                    st'.(pending := st'.pending - {v}, scales := st'.scales - {v}), v, st.pending[v], t, w);
      }
  }

  lemma LastOf(p: seq<(Name, Tensor)>, q: seq<(Name, Tensor)>)
    requires q != []
    ensures p + q == (p + q[..|q| - 1]) + [q[|q| - 1]]
  {
  }

  lemma NextAlike(cfg: Config, p: seq<(Name, Tensor)>, p': seq<(Name, Tensor)>, e: (Name, Tensor), w: Weight)
    requires IsHalf(w) && AlikeOut(Run(cfg, p), Run(cfg, p'), w) && !Concerns(e.0, w)
    ensures AlikeOut(Run(cfg, p + [e]), Run(cfg, p' + [e]), w)
  {
    RunSnoc(cfg, p, e);
    RunSnoc(cfg, p', e);
    if Run(cfg, p).Ok? {
      StepAlike(cfg, Run(cfg, p).value, Run(cfg, p').value, e.0, e.1, w);
    }
  }

  lemma {:induction false} RunAlike(cfg: Config, p: seq<(Name, Tensor)>, p': seq<(Name, Tensor)>,
                                    q: seq<(Name, Tensor)>, w: Weight)
    requires IsHalf(w) && AlikeOut(Run(cfg, p), Run(cfg, p'), w)
    requires forall x :: 0 <= x < |q| ==> !Concerns(q[x].0, w)
    ensures AlikeOut(Run(cfg, p + q), Run(cfg, p' + q), w)
    decreases |q|
  {
    if q == [] {
      assert p + q == p && p' + q == p';
    } else {
      var n := |q| - 1;
      RunAlike(cfg, p, p', q[..n], w);
      NextAlike(cfg, p + q[..n], p' + q[..n], q[n], w);
      LastOf(p, q);
      LastOf(p', q);
    }
  }

  lemma NextSame(cfg: Config, p: seq<(Name, Tensor)>, p': seq<(Name, Tensor)>, e: (Name, Tensor))
    requires Run(cfg, p) == Run(cfg, p')
    ensures Run(cfg, p + [e]) == Run(cfg, p' + [e])
  {
    RunSnoc(cfg, p, e);
    RunSnoc(cfg, p', e);
  }

  lemma {:induction false} RunSuffix(cfg: Config, p: seq<(Name, Tensor)>, p': seq<(Name, Tensor)>,
                                     q: seq<(Name, Tensor)>)
    requires Run(cfg, p) == Run(cfg, p')
    ensures Run(cfg, p + q) == Run(cfg, p' + q)
    decreases |q|
  {
    if q == [] {
      assert p + q == p && p' + q == p';
    } else {
      var n := |q| - 1;
      RunSuffix(cfg, p, p', q[..n]);
      NextSame(cfg, p + q[..n], p' + q[..n], q[n]);
      LastOf(p, q);
      LastOf(p', q);
    }
  }

  /** Halves that wait are halves that arrived. */
  lemma {:induction false} HalvesArrived(cfg: Config, a: seq<(Name, Tensor)>, w: Weight)
    requires Run(cfg, a).Ok? && IsHalf(w) && w in Run(cfg, a).value.halves
    ensures WeightName(w) in NamesOf(a)
    decreases |a|
  {
    var n, l := |a| - 1, w.layer;
    var st, nm, t := Run(cfg, a[..n]).value, a[n].0, a[n].1;
    NamesInit(a);
    assert w == EProj(l) || w == HProj(l);
    if w in st.halves {
      HalvesArrived(cfg, a[..n], w);
    } else if HalfOf(cfg, st, nm, t, l).None? {
      StepElsewhere(cfg, st, nm, t, l);
    } else {
      StepPairs(cfg, st, nm, t, l);
      if nm.ScaleName? {
        PendingArrived(cfg, a[..n], nm.w);
      }
    }
  }

  lemma CopyWaits(cfg: Config, p: seq<(Name, Tensor)>, w: Weight, t: Tensor)
    requires IsHalf(w) && w !in cfg.expected && WeightName(OtherHalf(w)) !in NamesOf(p)
    ensures AlikeOut(Run(cfg, p + [(WeightName(w), t)]), Run(cfg, p), w)
  {
    RunSnoc(cfg, p, (WeightName(w), t));
    if Run(cfg, p).Ok? {
      var st := Run(cfg, p).value;
      if OtherHalf(w) in st.halves {
        HalvesArrived(cfg, p, OtherHalf(w));
      }
      StepIsPair(cfg, st, w, t);
      PairWaits(st, w, Float(t));
      SameButUpdate(st.halves, w, Float(t));
    }
  }

  lemma StepIsPair(cfg: Config, st: State, w: Weight, t: Tensor)
    requires IsHalf(w) && w !in cfg.expected
    ensures Step(cfg, st, WeightName(w), t) == Pair(st, w, Float(t))
  {
  }

  lemma NextCopy(cfg: Config, p: seq<(Name, Tensor)>, p': seq<(Name, Tensor)>, w: Weight, t: Tensor)
    requires IsHalf(w) && w !in cfg.expected && AlikeOut(Run(cfg, p), Run(cfg, p'), w)
    ensures Run(cfg, p + [(WeightName(w), t)]) == Run(cfg, p' + [(WeightName(w), t)])
  {
    RunSnoc(cfg, p, (WeightName(w), t));
    RunSnoc(cfg, p', (WeightName(w), t));
    if Run(cfg, p).Ok? {
      StepIsPair(cfg, Run(cfg, p).value, w, t);
      StepIsPair(cfg, Run(cfg, p').value, w, t);
      PairAlikeHere(Run(cfg, p).value, Run(cfg, p').value, w, Float(t), w);
    }
  }

  /** A copy that another follows before the other half comes might as well not have come. */
  lemma DropCopy(n: int, supported: set<Name>, selected: set<Name>, a: seq<(Name, Tensor)>, w: Weight, i: nat, j: nat)
    requires NamesOf(a) <= selected && IsHalf(w) && Unscaled(selected, w)
    requires i < j < |a| && a[i].0 == WeightName(w) == a[j].0
    requires forall x :: 0 <= x < j ==> a[x].0 != WeightName(OtherHalf(w))
    ensures Export(n, supported, selected, a) == Export(n, supported, selected, Without(a, i))
  {
    var cfg := ConfigOf(n, supported, selected);
    var p, q, s := a[..i], a[i + 1..j], a[j + 1..];
    forall x | 0 <= x < |q|
      ensures !Concerns(q[x].0, w)
    {
      assert q[x] == a[i + 1 + x] && a[i + 1 + x].0 in NamesOf(a);
    }
    assert WeightName(OtherHalf(w)) !in NamesOf(p);
    CopyWaits(cfg, p, w, a[i].1);
    assert a[i] == (WeightName(w), a[i].1) && a[j] == (WeightName(w), a[j].1);
    RunAlike(cfg, p + [a[i]], p, q, w);
    NextCopy(cfg, p + [a[i]] + q, p + q, w, a[j].1);
    RunSuffix(cfg, p + [a[i]] + q + [a[j]], p + q + [a[j]], s);
    CutApart(a, i, j);
    SameNames(a, i, j);
  }

  lemma CutApart(a: seq<(Name, Tensor)>, i: nat, j: nat)
    requires i < j < |a|
    ensures a == a[..i] + [a[i]] + a[i + 1..j] + [a[j]] + a[j + 1..]
    ensures Without(a, i) == a[..i] + a[i + 1..j] + [a[j]] + a[j + 1..]
  {
  }

  lemma SameNames(a: seq<(Name, Tensor)>, i: nat, j: nat)
    requires i < j < |a| && a[i].0 == a[j].0
    ensures NamesOf(Without(a, i)) == NamesOf(a)
  {
    var b := Without(a, i);
    assert b[j - 1] == a[j];
    forall x | x in NamesOf(a)
      ensures x in NamesOf(b)
    {
      var k :| 0 <= k < |a| && a[k].0 == x;
      assert k < i ==> b[k] == a[k];
      assert k > i ==> b[k - 1] == a[k];
    }
    forall x | x in NamesOf(b)
      ensures x in NamesOf(a)
    {
      var k :| 0 <= k < |b| && b[k].0 == x;
      assert b[k] == a[if k < i then k else k + 1];
    }
  }

  /** An export with a doubled half, without scales, succeeds if and only if the other half comes once,
      after every copy, and the export without the first of two copies succeeds; the two are the same. */
  lemma HalfTwiceExact(n: int, supported: set<Name>, selected: set<Name>, a: seq<(Name, Tensor)>,
                       w: Weight, i: nat, j: nat)
    requires NamesOf(a) <= selected && IsHalf(w) && Unscaled(selected, w)
    requires i < j < |a| && a[i].0 == WeightName(w) == a[j].0
    ensures Export(n, supported, selected, a).Ok? <==>
            (exists y, z :: PartnerLast(a, w, y, z)) && Export(n, supported, selected, Without(a, i)).Ok?
    ensures Export(n, supported, selected, a).Ok? ==>
              Export(n, supported, selected, a) == Export(n, supported, selected, Without(a, i))
  {
    if Export(n, supported, selected, a).Ok? {
      var y, z := LastCopyUsed(n, supported, selected, a, w, i, j);
    }
    if y, z :| PartnerLast(a, w, y, z) {
      forall x | 0 <= x < j
        ensures a[x].0 != WeightName(OtherHalf(w))
      {
        assert j <= y < z;
        assert a[x].0 == WeightName(OtherHalf(w)) ==> IsHalfName(a[x].0, w.layer);
      }
      DropCopy(n, supported, selected, a, w, i, j);
    }
  }

  // ---- the three orders of a doubled half

  function HalfTwice(first: Tensor, second: Tensor, h: Tensor): seq<(Name, Tensor)> {
    [(WeightName(EProj(0)), first), (WeightName(EProj(0)), second), (WeightName(HProj(0)), h)]
  }

  function HalfBetween(first: Tensor, h: Tensor, second: Tensor): seq<(Name, Tensor)> {
    [(WeightName(EProj(0)), first), (WeightName(HProj(0)), h), (WeightName(EProj(0)), second)]
  }

  const HALVES: set<Name> := {WeightName(EProj(0)), WeightName(HProj(0))}

  lemma HalfTwiceRuns(first: Tensor, second: Tensor, h: Tensor)
    ensures Export(0, {}, HALVES, HalfTwice(first, second, h))
            == Ok(Output(map[EhProj(0) := Columns(Float(second), Float(h))], map[]))
  {
    var a, cfg := HalfTwice(first, second, h), Config(0, ExpectedScales(HALVES), {});
    var e, hn := WeightName(EProj(0)), WeightName(HProj(0));
    assert ExpectedScales(HALVES) == {};
    assert a[..2] == [(e, first), (e, second)] && a[..2][..1] == [(e, first)] && a[..2][..1][..0] == [];
    var one := EMPTY.(halves := map[EProj(0) := Float(first)]);
    assert Run(cfg, a[..2][..1]) == Ok(one);
    var two := EMPTY.(halves := map[EProj(0) := Float(second)]);
    assert one.halves[EProj(0) := Float(second)] == two.halves;
    assert Run(cfg, a[..2]) == Ok(two);
    assert two.halves - {HProj(0), EProj(0)} == map[];
    var three := EMPTY.(written := map[EhProj(0) := Columns(Float(second), Float(h))]);
    assert Run(cfg, a) == Ok(three);
    assert a[0].0 in NamesOf(a) && a[2].0 in NamesOf(a);
    assert HALVES - NamesOf(a) == {};
  }

  lemma HalfBetweenFails(first: Tensor, h: Tensor, second: Tensor)
    ensures Export(0, {}, HALVES, HalfBetween(first, h, second)).Err?
  {
    var a, w := HalfBetween(first, h, second), EProj(0);
    forall x | x in NamesOf(a)
      ensures x in HALVES
    {
    }
    assert a[0].0 == WeightName(w) == a[2].0 && a[1].0 == WeightName(OtherHalf(w));
    HalfTwiceExact(0, {}, HALVES, a, w, 0, 2);
    if y, z :| PartnerLast(a, w, y, z) {
      assert IsHalfName(a[1].0, 0) && IsHalfName(a[2].0, 0);
    }
  }

  /** The same three tensors in three orders: one export has the second copy, one the first, and one
      fails. */
  lemma HalfTwiceOrders(first: Tensor, second: Tensor, h: Tensor)
    ensures var a, b, c := HalfTwice(first, second, h), HalfTwice(second, first, h), HalfBetween(first, h, second);
            && multiset(a) == multiset(b) == multiset(c)
            && Export(0, {}, HALVES, a) == Ok(Output(map[EhProj(0) := Columns(Float(second), Float(h))], map[]))
            && Export(0, {}, HALVES, b) == Ok(Output(map[EhProj(0) := Columns(Float(first), Float(h))], map[]))
            && Export(0, {}, HALVES, c).Err?
  {
    HalfTwiceRuns(first, second, h);
    HalfTwiceRuns(second, first, h);
    HalfBetweenFails(first, h, second);
    var x, y, z := (WeightName(EProj(0)), first), (WeightName(EProj(0)), second), (WeightName(HProj(0)), h);
    assert HalfTwice(first, second, h) == [x] + [y] + [z];
    assert HalfTwice(second, first, h) == [y] + [x] + [z];
    assert HalfBetween(first, h, second) == [x] + [z] + [y];
  }
}
