/** The names of the source tensors of an MTP export and what becomes of them. Two source names can
    end up as one name; this module says which, and that tensors for the writer are then refused. */
module MtpNames {

  import opened Wrappers
  import opened MtpExport

  const MTP := "mtp.0."

  const NEXTN := "nextn."

  /** The tensors an export takes: four of the main model, and all of predictor 0. */
  predicate IsRoot(name: string) {
    name == "embed.weight" || name == "norm.weight" || name == "head.weight" || name == "head.scale"
  }

  predicate Taken(name: string) {
    IsRoot(name) || MTP <= name
  }

  predicate IsHyper(suffix: string) {
    suffix == "hc_head_fn" || suffix == "hc_head_base" || suffix == "hc_head_scale"
  }

  /** Projections and norms of the predictor itself, which move under `nextn`. */
  predicate IsMoved(suffix: string) {
    || suffix == "e_proj.weight" || suffix == "e_proj.scale" || suffix == "h_proj.weight" || suffix == "h_proj.scale"
    || suffix == "enorm.weight" || suffix == "hnorm.weight" || suffix == "norm.weight"
  }

  function Moved(suffix: string): string {
    NEXTN + if suffix == "norm.weight" then "shared_head_norm.weight" else suffix
  }

  /** The name under which a tensor enters the conversion, `bid` being the number of main layers. */
  function MapSourceName(name: string, bid: string): string
    requires Taken(name)
  {
    if !(MTP <= name) then name
    else
      var suffix := name[|MTP|..];
      if IsHyper(suffix) then suffix
      else "layers." + bid + "." + if IsMoved(suffix) then Moved(suffix) else suffix
  }

  /** `b` spells out the place that `a` is moved to. */
  predicate Doubles(a: string, b: string) {
    MTP <= a && IsMoved(a[|MTP|..]) && b == MTP + Moved(a[|MTP|..])
  }

  // ---------------------------------------------------------------- which names fall together

  lemma MovedBegins(suffix: string)
    requires IsMoved(suffix)
    ensures |suffix| > 2 && suffix[0] != 's' && !(suffix[0] == 'n' && suffix[1] == 'e')
  {
  }

  lemma MovedApart(a: string, b: string)
    requires IsMoved(a) && IsMoved(b) && Moved(a) == Moved(b)
    ensures a == b
  {
    MovedBegins(a);
    MovedBegins(b);
    assert Moved(a)[|NEXTN|..] == Moved(b)[|NEXTN|..];
    assert Moved(a)[|NEXTN|] == if a == "norm.weight" then 's' else a[0];
    assert Moved(b)[|NEXTN|] == if b == "norm.weight" then 's' else b[0];
  }

  lemma MovedStays(a: string)
    requires IsMoved(a)
    ensures !IsMoved(Moved(a)) && !IsHyper(Moved(a))
  {
    assert Moved(a)[0] == NEXTN[0] == 'n' && Moved(a)[1] == NEXTN[1] == 'e';
    if IsMoved(Moved(a)) {
      MovedBegins(Moved(a));
    }
  }

  /** Where a predictor tensor goes. */
  function Place(suffix: string): string {
    if IsMoved(suffix) then Moved(suffix) else suffix
  }

  lemma SamePlace(a: string, b: string)
    requires a != b
    ensures Place(a) == Place(b) <==> (IsMoved(a) && b == Moved(a)) || (IsMoved(b) && a == Moved(b))
  {
    if IsMoved(a) {
      MovedStays(a);
    }
    if IsMoved(b) {
      MovedStays(b);
    }
    if IsMoved(a) && IsMoved(b) && Moved(a) == Moved(b) {
      MovedApart(a, b);
    }
  }

  lemma SameTail(p: string, a: string, b: string)
    ensures p + a == p + b <==> a == b
  {
    assert (p + a)[|p|..] == a && (p + b)[|p|..] == b;
  }

  /** The first character tells layers from everything else. */
  lemma LayerBegins(bid: string, x: string)
    ensures ("layers." + bid + "." + x)[0] == 'l'
  {
  }

  lemma RootBegins(name: string)
    requires IsRoot(name)
    ensures |name| > 1 && name[0] != 'l' && name[0] != 'm' && !(name[0] == 'h' && name[1] == 'c') && !(MTP <= name)
  {
  }

  lemma HyperBegins(suffix: string)
    requires IsHyper(suffix)
    ensures |suffix| > 1 && suffix[0] == 'h' && suffix[1] == 'c' && !IsMoved(suffix)
  {
  }

  /** Two predictor tensors. */
  lemma ClashInside(x: string, y: string, bid: string)
    requires x != y
    ensures MapSourceName(MTP + x, bid) == MapSourceName(MTP + y, bid)
            <==> (IsMoved(x) && y == Moved(x)) || (IsMoved(y) && x == Moved(y))
  {
    assert (MTP + x)[|MTP|..] == x && (MTP + y)[|MTP|..] == y;
    LayerBegins(bid, Place(x));
    LayerBegins(bid, Place(y));
    SamePlace(x, y);
    SameTail("layers." + bid + ".", Place(x), Place(y));
    if IsHyper(x) {
      HyperBegins(x);
      HyperStays(x, y);
    }
    if IsHyper(y) {
      HyperBegins(y);
      HyperStays(y, x);
    }
  }

  lemma HyperStays(x: string, y: string)
    requires IsHyper(x)
    ensures !(IsMoved(y) && x == Moved(y))
  {
    if IsMoved(y) {
      MovedStays(y);
    }
  }

  /** Two different source names become one exactly when one of them spells out what the other is
      renamed to. */
  lemma ClashExact(a: string, b: string, bid: string)
    requires Taken(a) && Taken(b) && a != b
    ensures MapSourceName(a, bid) == MapSourceName(b, bid) <==> Doubles(a, b) || Doubles(b, a)
  {
    if MTP <= a && MTP <= b {
      var x, y := a[|MTP|..], b[|MTP|..];
      assert a == MTP + x && b == MTP + y;
      ClashInside(x, y, bid);
    } else if MTP <= a {
      RootClash(b, a, bid);
    } else if MTP <= b {
      RootClash(a, b, bid);
    }
  }

  /** The predictor's norm and a norm listed under the name it is given. */
  lemma NormClashes(bid: string)
    ensures var a, b := MTP + "norm.weight", MTP + "nextn.shared_head_norm.weight";
            a != b && MapSourceName(a, bid) == MapSourceName(b, bid)
  {
    var x, y := "norm.weight", "nextn.shared_head_norm.weight";
    assert |x| != |y| && Moved(x) == y;
    ClashInside(x, y, bid);
  }

  lemma RootClash(root: string, b: string, bid: string)
    requires IsRoot(root) && MTP <= b
    ensures MapSourceName(root, bid) != MapSourceName(b, bid) && !Doubles(b, root) && !Doubles(root, b)
  {
    RootBegins(root);
    var y := b[|MTP|..];
    LayerBegins(bid, Place(y));
    if IsHyper(y) {
      HyperBegins(y);
    }
    assert (MTP + Moved(y))[0] == 'm';
  }

  // ---------------------------------------------------------------- what a clash does

  /** The tensor goes straight to the writer. */
  predicate Direct(cfg: Config, nm: Name) {
    IsMapped(nm) && (nm.WeightName? ==> nm.w !in cfg.expected)
  }

  lemma DeliverGrows(cfg: Config, st: State, w: Weight, t: Tensor, toRaw: bool)
    requires w.Expert? && DeliverExpert(cfg, st, w, t, toRaw).Ok?
    ensures st.written.Keys <= DeliverExpert(cfg, st, w, t, toRaw).value.written.Keys
  {
    AddOnlySet(cfg, st, w, t);
  }

  lemma EmitGrows(cfg: Config, st: State, nm: Name, t: Tensor)
    requires !nm.ScaleName? && Emit(cfg, st, nm, t).Ok?
    ensures st.written.Keys <= Emit(cfg, st, nm, t).value.written.Keys
  {
    if nm.WeightName? && nm.w.Expert? {
      DeliverGrows(cfg, st, nm.w, Float(t), false);
    }
  }

  lemma PairedGrows(cfg: Config, st: State, w: Weight, weight: Tensor, scale: Tensor)
    requires Paired(cfg, st, w, weight, scale).Ok?
    ensures st.written.Keys <= Paired(cfg, st, w, weight, scale).value.written.Keys
  {
    if w.Expert? {
      DeliverGrows(cfg, st, w, Packed(weight, scale), true);
    } else {
      EmitGrows(cfg, st, WeightName(w), Dequantized(weight, scale));
    }
  }

  /** What is written stays written. */
  lemma StepGrows(cfg: Config, st: State, nm: Name, t: Tensor)
    requires Step(cfg, st, nm, t).Ok?
    ensures st.written.Keys <= Step(cfg, st, nm, t).value.written.Keys
  {
    match nm
    case OtherName(_) => EmitGrows(cfg, st, nm, t);
    case WeightName(w) =>
      if w !in cfg.expected {
        EmitGrows(cfg, st, nm, t);
      } else if w in st.scales {
        PairedGrows(cfg, st.(scales := st.scales - {w}), w, t, st.scales[w]);
      }
    case ScaleName(w) =>
      if w != Head && w in st.pending {
        PairedGrows(cfg, st.(pending := st.pending - {w}, scales := st.scales - {w}), w, st.pending[w], t);
      }
  }

  lemma StepWrites(cfg: Config, st: State, nm: Name, t: Tensor)
    requires Direct(cfg, nm) && Step(cfg, st, nm, t).Ok?
    ensures OutOf(nm) !in st.written && OutOf(nm) in Step(cfg, st, nm, t).value.written
  {
    DirectEmits(cfg, st, nm, t);
    EmitWrites(cfg, st, nm, t);
  }

  lemma DirectEmits(cfg: Config, st: State, nm: Name, t: Tensor)
    requires Direct(cfg, nm)
    ensures Step(cfg, st, nm, t) == Emit(cfg, st, nm, t)
  {
  }

  lemma EmitWrites(cfg: Config, st: State, nm: Name, t: Tensor)
    requires IsMapped(nm) && Emit(cfg, st, nm, t).Ok?
    ensures Emit(cfg, st, nm, t) == Write(st, OutOf(nm), Float(t))
  {
  }

  /** All that went straight to the writer has been written, under different names. */
  ghost predicate Apart(cfg: Config, arrivals: seq<(Name, Tensor)>, written: set<Out>) {
    && (forall i :: 0 <= i < |arrivals| && Direct(cfg, arrivals[i].0) ==> OutOf(arrivals[i].0) in written)
    && (forall i, j :: 0 <= i < j < |arrivals| && Direct(cfg, arrivals[i].0) && Direct(cfg, arrivals[j].0) ==>
          OutOf(arrivals[i].0) != OutOf(arrivals[j].0))
  }

  lemma ApartSnoc(cfg: Config, init: seq<(Name, Tensor)>, last: (Name, Tensor), written: set<Out>, more: set<Out>)
    requires Apart(cfg, init, written) && written <= more
    requires Direct(cfg, last.0) ==> OutOf(last.0) !in written && OutOf(last.0) in more
    ensures Apart(cfg, init + [last], more)
  {
  }

  lemma {:induction false} RunApart(cfg: Config, arrivals: seq<(Name, Tensor)>)
    requires Run(cfg, arrivals).Ok?
    ensures Apart(cfg, arrivals, Run(cfg, arrivals).value.written.Keys)
    decreases |arrivals|
  {
    if arrivals != [] {
      var n := |arrivals| - 1;
      RunApart(cfg, arrivals[..n]);
      ApartStep(cfg, arrivals[..n], arrivals[n], Run(cfg, arrivals[..n]).value);
      assert arrivals == arrivals[..n] + [arrivals[n]];
    }
  }

  lemma ApartStep(cfg: Config, init: seq<(Name, Tensor)>, last: (Name, Tensor), st: State)
    requires Apart(cfg, init, st.written.Keys) && Step(cfg, st, last.0, last.1).Ok?
    ensures Apart(cfg, init + [last], Step(cfg, st, last.0, last.1).value.written.Keys)
  {
    StepGrows(cfg, st, last.0, last.1);
    if Direct(cfg, last.0) {
      StepWrites(cfg, st, last.0, last.1);
    }
    ApartSnoc(cfg, init, last, st.written.Keys, Step(cfg, st, last.0, last.1).value.written.Keys);
  }

  /** Two tensors that go straight to the writer under one output name are refused, wherever they come. */
  lemma DuplicateRefused(cfg: Config, arrivals: seq<(Name, Tensor)>, i: nat, j: nat)
    requires i < j < |arrivals| && Direct(cfg, arrivals[i].0) && Direct(cfg, arrivals[j].0)
    requires OutOf(arrivals[i].0) == OutOf(arrivals[j].0)
    ensures Run(cfg, arrivals).Err?
  {
    if Run(cfg, arrivals).Ok? {
      RunApart(cfg, arrivals);
    }
  }
}
