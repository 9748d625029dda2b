/** What a whole MTP export produces, and when it succeeds, from the set of source tensors alone. */
module MtpOrder {

  import opened MtpExport

  // ---------------------------------------------------------------- when an export succeeds

  ghost predicate HalvesPaired(selected: set<Name>) {
    forall l :: WeightName(EProj(l)) in selected <==> WeightName(HProj(l)) in selected
  }

  ghost predicate SetsComplete(selected: set<Name>, n: int) {
    forall l, i, p, j: nat :: ExpertName(l, i, p) in selected && j < n ==> ExpertName(l, j, p) in selected
  }

  predicate HeadUnscaled(selected: set<Name>) {
    !(WeightName(Head) in selected && ScaleName(Head) in selected)
  }

  ghost predicate AllFit(cfg: Config, selected: set<Name>) {
    forall nm :: nm in selected ==> Fits(cfg, nm)
  }

  function ConfigOf(n: int, supported: set<Name>, selected: set<Name>): Config {
    Config(n, ExpectedScales(selected), supported)
  }

  /** The head has no scale, every name is known, projection halves come in pairs and not beside the
      joined projection, and each set of experts has exactly the ids 0 to n - 1. */
  ghost predicate Complete(n: int, supported: set<Name>, selected: set<Name>) {
    && HeadUnscaled(selected) && AllFit(ConfigOf(n, supported, selected), selected)
    && HalvesPaired(selected) && OneProjection(selected) && SetsComplete(selected, n)
  }

  /** With everything listed there and no scale for the head, every tensor is ready. */
  lemma AllReady(cfg: Config, selected: set<Name>, src: map<Name, Tensor>)
    requires cfg.expected == ExpectedScales(selected) && src.Keys == selected && HeadUnscaled(selected)
    ensures forall nm :: nm in selected && !nm.ScaleName? ==> Ready(cfg, src, nm)
  {
    forall nm | nm in selected && !nm.ScaleName?
      ensures Ready(cfg, src, nm)
    {
      if nm.WeightName? && nm.w in cfg.expected {
        assert ScaleName(nm.w) in selected;
      }
    }
  }

  lemma Subset<T>(a: set<T>, b: set<T>)
    requires a <= b
    ensures |a| <= |b|
  {
    if a != {} {
      var x :| x in a;
      Subset(a - {x}, b - {x});
    }
  }

  lemma BigDict(dict: map<nat, Tensor>, n: nat)
    requires forall j: nat :: j < n ==> j in dict
    ensures |dict| >= n
  {
    Subset(Below(n), dict.Keys);
    assert |dict| == |dict.Keys|;
  }

  /** A set all of whose ids are in range and present has been stacked. */
  lemma SetLeft(cfg: Config, d: map<Name, Tensor>, st: State, l: nat, p: nat)
    requires SetInv(cfg, d, st, l, p)
    requires forall i: nat :: ExpertName(l, i, p) in d ==> i < cfg.n && AllThere(d, l, p, cfg.n)
    ensures (l, p) !in st.experts
  {
    if (l, p) in st.experts {
      var dict := DictOf(st, (l, p));
      var i: nat :| i in dict;
      assert AllThere(d, l, p, cfg.n);
      BigDict(dict, cfg.n);
    }
  }

  lemma NoExpertsLeft(cfg: Config, selected: set<Name>, d: map<Name, Tensor>, st: State)
    requires SetsInv(cfg, d, st) && AllFit(cfg, selected) && SetsComplete(selected, cfg.n)
    requires forall nm :: nm in d ==> nm in selected
    requires forall nm :: nm in selected && !nm.ScaleName? ==> nm in d
    ensures st.experts == map[]
  {
    forall key: (nat, nat)
      ensures key !in st.experts
    {
      var (l, p) := key;
      assert SetInv(cfg, d, st, l, p);
      forall i: nat | ExpertName(l, i, p) in d
        ensures i < cfg.n && AllThere(d, l, p, cfg.n)
      {
        assert Fits(cfg, ExpertName(l, i, p));
      }
      SetLeft(cfg, d, st, l, p);
    }
  }

  lemma RawApart(cfg: Config, d: map<Name, Tensor>, st: State)
    requires Collected(cfg, d, st)
    ensures st.raw.Keys * st.written.Keys == {}
  {
    forall o | o in st.raw
      ensures o !in st.written
    {
      assert SetInv(cfg, d, st, o.layer, o.proj);
    }
  }

  lemma CloseSucceeds(cfg: Config, selected: set<Name>, src: map<Name, Tensor>, st: State)
    requires Inv(cfg, src, st) && cfg.expected == ExpectedScales(selected) && src.Keys == selected
    requires HeadUnscaled(selected) && AllFit(cfg, selected) && HalvesPaired(selected) && SetsComplete(selected, cfg.n)
    ensures Close(st).Ok?
  {
    var d := Deliveries(cfg, src);
    AllReady(cfg, selected, src);
    RawApart(cfg, d, st);
    NoExpertsLeft(cfg, selected, d, st);
    forall w
      ensures w !in st.halves && w !in st.pending
    {
      assert IsHalf(w) ==> !HalfWaits(d, w);
    }
  }

  lemma CloseNeeds(cfg: Config, selected: set<Name>, src: map<Name, Tensor>, st: State)
    requires Inv(cfg, src, st) && cfg.expected == ExpectedScales(selected) && src.Keys == selected
    requires Close(st).Ok?
    ensures HeadUnscaled(selected) && HalvesPaired(selected) && OneProjection(selected)
    ensures AllFit(cfg, selected) && SetsComplete(selected, cfg.n)
  {
    var d := Deliveries(cfg, src);
    assert Head !in st.pending;
    assert ScaleName(Head) in selected ==> Head in cfg.expected;
    AllReady(cfg, selected, src);
    forall l
      ensures WeightName(EProj(l)) in selected <==> WeightName(HProj(l)) in selected
    {
      assert !HalfWaits(d, EProj(l)) && !HalfWaits(d, HProj(l));
    }
    forall l
      ensures !(WeightName(EProj(l)) in selected && WeightName(HProj(l)) in selected && JoinedName(l) in selected)
    {
      assert LayerInv(cfg, d, st, l);
    }
    NoneLeftMeansDone(cfg, selected, d, st);
  }

  lemma NoneLeftMeansDone(cfg: Config, selected: set<Name>, d: map<Name, Tensor>, st: State)
    requires Collected(cfg, d, st) && st.experts == map[]
    requires forall nm :: nm in d ==> nm in selected
    requires forall nm :: nm in selected && !nm.ScaleName? ==> nm in d
    ensures AllFit(cfg, selected) && SetsComplete(selected, cfg.n)
  {
    forall l: nat, i: nat, p: nat | ExpertName(l, i, p) in selected
      ensures i < cfg.n && AllThere(d, l, p, cfg.n)
    {
      assert SetInv(cfg, d, st, l, p);
      assert i !in DictOf(st, (l, p));
    }
    forall nm | nm in selected
      ensures Fits(cfg, nm)
    {
      if nm.WeightName? && nm.w.Expert? {
        assert nm == ExpertName(nm.w.layer, nm.w.id, nm.w.proj);
      } else if nm.WeightName? && nm.w.Joined? {
        assert LayerInv(cfg, d, st, nm.w.layer);
        assert nm == JoinedName(nm.w.layer);
      } else if IsMapped(nm) {
        assert Mapped(nm) in st.written;
      }
    }
  }

  lemma NoneMissing(selected: set<Name>, arrived: set<Name>)
    requires arrived <= selected && selected - arrived == {}
    ensures arrived == selected
  {
    forall x | x in selected
      ensures x in arrived
    {
      assert x !in selected - arrived;
    }
  }

  /** An export succeeds exactly when every listed tensor arrived and the list is complete, in
      whatever order the tensors came. */
  lemma ExportExact(n: int, supported: set<Name>, selected: set<Name>, arrivals: seq<(Name, Tensor)>)
    requires Arrivals(selected, arrivals)
    ensures Export(n, supported, selected, arrivals).Ok? <==>
            NamesOf(arrivals) == selected && Complete(n, supported, selected)
  {
    var cfg := ConfigOf(n, supported, selected);
    if NamesOf(arrivals) == selected && Complete(n, supported, selected) {
      RunAccepted(cfg, selected, arrivals);
      RunKeeps(cfg, selected, arrivals);
      CloseSucceeds(cfg, selected, SrcOf(arrivals), Run(cfg, arrivals).value);
    }
    if Export(n, supported, selected, arrivals).Ok? {
      NoneMissing(selected, NamesOf(arrivals));
      RunKeeps(cfg, selected, arrivals);
      CloseNeeds(cfg, selected, SrcOf(arrivals), Run(cfg, arrivals).value);
    }
  }

  // ---------------------------------------------------------------- what an export holds

  function Merged(out: Output): map<Out, Tensor> {
    out.written + out.raw
  }

  /** The output tensors of these source tensors. */
  predicate Exported(src: map<Name, Tensor>, o: Out) {
    match o
    case Mapped(nm) => nm in src && IsMapped(nm) && OutOf(nm) == o
    case EhProj(l) => WeightName(EProj(l)) in src || JoinedName(l) in src
    case Experts(l, p) => ExpertName(l, 0, p) in src
  }

  predicate ReadySet(cfg: Config, src: map<Name, Tensor>, l: nat, p: nat) {
    forall i: nat :: i < cfg.n ==> Ready(cfg, src, ExpertName(l, i, p))
  }

  /** Each output tensor as a term over the source tensors. */
  predicate IsValue(cfg: Config, src: map<Name, Tensor>, o: Out, t: Tensor) {
    match o
    case Mapped(nm) => Ready(cfg, src, nm) && t == ValueOf(cfg, src, nm)
    case EhProj(l) =>
      if JoinedName(l) in src then Ready(cfg, src, JoinedName(l)) && t == ValueOf(cfg, src, JoinedName(l)) else
      && Ready(cfg, src, WeightName(EProj(l))) && Ready(cfg, src, WeightName(HProj(l)))
      && t == Columns(ValueOf(cfg, src, WeightName(EProj(l))), ValueOf(cfg, src, WeightName(HProj(l))))
    case Experts(l, p) =>
      && cfg.n > 0 && ReadySet(cfg, src, l, p)
      && t == Stacked(seq(cfg.n, i requires 0 <= i < cfg.n => ValueOf(cfg, src, ExpertName(l, i, p))))
  }

  ghost predicate Holds(cfg: Config, src: map<Name, Tensor>, m: map<Out, Tensor>) {
    && (forall o :: o in m <==> Exported(src, o))
    && (forall o :: o in m ==> IsValue(cfg, src, o, m[o]))
  }

  lemma HoldsOne(cfg: Config, src: map<Name, Tensor>, st: State, o: Out)
    requires Inv(cfg, src, st) && cfg.expected == ExpectedScales(src.Keys) && Close(st).Ok?
    ensures var m := Merged(Close(st).value);
            (o in m <==> Exported(src, o)) && (o in m ==> IsValue(cfg, src, o, m[o]))
  {
    var d := Deliveries(cfg, src);
    CloseNeeds(cfg, src.Keys, src, st);
    AllReady(cfg, src.Keys, src);
    match o
    case Mapped(nm) =>
    case EhProj(l) => assert LayerInv(cfg, d, st, l);
    case Experts(l, p) => HoldsExperts(cfg, src, st, l, p);
  }

  lemma HoldsExperts(cfg: Config, src: map<Name, Tensor>, st: State, l: nat, p: nat)
    requires Inv(cfg, src, st) && st.experts == map[]
    requires forall nm :: nm in src && !nm.ScaleName? ==> Ready(cfg, src, nm)
    ensures Done(st, l, p) <==> ExpertName(l, 0, p) in src
    ensures Experts(l, p) in st.written ==> IsValue(cfg, src, Experts(l, p), st.written[Experts(l, p)])
    ensures Experts(l, p) in st.raw ==> IsValue(cfg, src, Experts(l, p), st.raw[Experts(l, p)])
  {
    var d := Deliveries(cfg, src);
    assert SetInv(cfg, d, st, l, p);
    assert 0 !in DictOf(st, (l, p));
    if Done(st, l, p) {
      assert ExpertName(l, 0, p) in d;
      StackIsValue(cfg, src, d, l, p);
    }
  }

  lemma StackIsValue(cfg: Config, src: map<Name, Tensor>, d: map<Name, Tensor>, l: nat, p: nat)
    requires d == Deliveries(cfg, src) && cfg.n > 0 && AllThere(d, l, p, cfg.n)
    ensures IsValue(cfg, src, Experts(l, p), StackOf(d, l, p, cfg.n))
  {
    assert forall i: nat :: i < cfg.n ==> ExpertName(l, i, p) in d;
    var s := seq(cfg.n, i requires 0 <= i < cfg.n => d[ExpertName(l, i, p)]);
    assert s == seq(cfg.n, i requires 0 <= i < cfg.n => ValueOf(cfg, src, ExpertName(l, i, p)));
  }

  /** A successful export holds one tensor per mapped name, one per projection pair and one per
      expert set, each the intended function of the source tensors. */
  lemma ExportHolds(n: int, supported: set<Name>, selected: set<Name>, arrivals: seq<(Name, Tensor)>)
    requires Arrivals(selected, arrivals) && Export(n, supported, selected, arrivals).Ok?
    ensures Holds(ConfigOf(n, supported, selected), SrcOf(arrivals),
                  Merged(Export(n, supported, selected, arrivals).value))
  {
    var cfg := ConfigOf(n, supported, selected);
    RunKeeps(cfg, selected, arrivals);
    var st := Run(cfg, arrivals).value;
    NoneMissing(selected, NamesOf(arrivals));
    forall o
      ensures var m := Merged(Close(st).value);
              (o in m <==> Exported(SrcOf(arrivals), o))
              && (o in m ==> IsValue(cfg, SrcOf(arrivals), o, m[o]))
    {
      HoldsOne(cfg, SrcOf(arrivals), st, o);
    }
  }

  /** The same names, and the same tensors but for scales whose weight is not there. */
  ghost predicate Agree(src: map<Name, Tensor>, src': map<Name, Tensor>) {
    src.Keys == src'.Keys &&
    forall nm :: nm in src && (nm.ScaleName? ==> WeightName(nm.w) in src) ==> src[nm] == src'[nm]
  }

  lemma AgreeReady(cfg: Config, src: map<Name, Tensor>, src': map<Name, Tensor>, nm: Name)
    requires Agree(src, src')
    ensures Ready(cfg, src, nm) <==> Ready(cfg, src', nm)
    ensures Ready(cfg, src, nm) ==> ValueOf(cfg, src, nm) == ValueOf(cfg, src', nm)
  {
  }

  lemma AgreeValue(cfg: Config, src: map<Name, Tensor>, src': map<Name, Tensor>, o: Out, t: Tensor)
    requires Agree(src, src') && IsValue(cfg, src, o, t)
    ensures IsValue(cfg, src', o, t)
  {
    match o
    case Mapped(nm) => AgreeReady(cfg, src, src', nm);
    case EhProj(l) =>
      AgreeReady(cfg, src, src', JoinedName(l));
      AgreeReady(cfg, src, src', WeightName(EProj(l)));
      AgreeReady(cfg, src, src', WeightName(HProj(l)));
    case Experts(l, p) => AgreeStack(cfg, src, src', l, p, t);
  }

  lemma AgreeStack(cfg: Config, src: map<Name, Tensor>, src': map<Name, Tensor>, l: nat, p: nat, t: Tensor)
    requires Agree(src, src') && IsValue(cfg, src, Experts(l, p), t)
    ensures IsValue(cfg, src', Experts(l, p), t)
  {
    forall i: nat | i < cfg.n
      ensures Ready(cfg, src', ExpertName(l, i, p))
      ensures ValueOf(cfg, src', ExpertName(l, i, p)) == ValueOf(cfg, src, ExpertName(l, i, p))
    {
      assert Ready(cfg, src, ExpertName(l, i, p));
      AgreeReady(cfg, src, src', ExpertName(l, i, p));
    }
    assert seq(cfg.n, i requires 0 <= i < cfg.n => ValueOf(cfg, src, ExpertName(l, i, p)))
        == seq(cfg.n, i requires 0 <= i < cfg.n => ValueOf(cfg, src', ExpertName(l, i, p)));
  }

  lemma HoldsUnique(cfg: Config, src: map<Name, Tensor>, src': map<Name, Tensor>,
                    m: map<Out, Tensor>, m': map<Out, Tensor>)
    requires Holds(cfg, src, m) && Holds(cfg, src', m') && Agree(src, src')
    ensures m == m'
  {
    forall o
      ensures Exported(src, o) <==> Exported(src', o)
    {
    }
    assert forall o :: o in m <==> o in m';
    forall o | o in m
      ensures m[o] == m'[o]
    {
      AgreeValue(cfg, src, src', o, m[o]);
      assert IsValue(cfg, src', o, m[o]) && IsValue(cfg, src', o, m'[o]);
    }
  }

  // ---- another order of the same arrivals

  lemma {:induction false} CountTwo<T>(s: seq<T>, e: T) returns (i: nat, j: nat)
    requires multiset(s)[e] >= 2
    ensures i < j < |s| && s[i] == e && s[j] == e
    decreases |s|
  {
    var n := |s| - 1;
    assert s == s[..n] + [s[n]];
    if s[n] == e {
      assert e in multiset(s[..n]);
      i :| 0 <= i < n && s[..n][i] == e;
      j := n;
    } else {
      i, j := CountTwo(s[..n], e);
    }
  }

  lemma TwoCount<T>(s: seq<T>, i: nat, j: nat)
    requires i < j < |s| && s[i] == s[j]
    ensures multiset(s)[s[i]] >= 2
  {
    assert s == s[..j] + [s[j]] + s[j + 1..];
    assert s[..j][i] == s[i];
    assert s[i] in multiset(s[..j]);
  }

  lemma PlaceIn<T>(s: seq<T>, t: seq<T>, i: nat) returns (k: nat)
    requires multiset(s) == multiset(t) && i < |s|
    ensures k < |t| && t[k] == s[i]
  {
    assert s[i] in multiset(t);
    k :| 0 <= k < |t| && t[k] == s[i];
  }

  lemma NamesPermuted(a: seq<(Name, Tensor)>, b: seq<(Name, Tensor)>)
    requires multiset(a) == multiset(b)
    ensures NamesOf(a) == NamesOf(b)
  {
    forall x | x in NamesOf(a)
      ensures x in NamesOf(b)
    {
      var i :| 0 <= i < |a| && a[i].0 == x;
      var k := PlaceIn(a, b, i);
    }
    forall x | x in NamesOf(b)
      ensures x in NamesOf(a)
    {
      var i :| 0 <= i < |b| && b[i].0 == x;
      var k := PlaceIn(b, a, i);
    }
  }

  lemma ClearPermuted(a: seq<(Name, Tensor)>, b: seq<(Name, Tensor)>)
    requires Clear(a) && multiset(a) == multiset(b)
    ensures Clear(b)
  {
    NamesPermuted(a, b);
    forall i, j | 0 <= i < j < |b| && b[i].0 == b[j].0
      ensures b[i].0.ScaleName? && (b[i] == b[j] || WeightName(b[i].0.w) !in NamesOf(b))
    {
      if b[i] == b[j] {
        TwoCount(b, i, j);
        var x, y := CountTwo(a, b[i]);
      } else {
        var x := PlaceIn(b, a, i);
        var y := PlaceIn(b, a, j);
        assert x < y || y < x;
      }
    }
  }

  lemma SrcPermuted(a: seq<(Name, Tensor)>, b: seq<(Name, Tensor)>)
    requires Clear(a) && multiset(a) == multiset(b)
    ensures Agree(SrcOf(a), SrcOf(b))
  {
    NamesPermuted(a, b);
    forall nm | nm in SrcOf(a) && (nm.ScaleName? ==> WeightName(nm.w) in SrcOf(a))
      ensures SrcOf(a)[nm] == SrcOf(b)[nm]
    {
      var i := SrcFrom(a, nm);
      var j := SrcFrom(b, nm);
      var k := PlaceIn(b, a, j);
      assert i == k || i < k || k < i;
    }
  }

  lemma ArrivalsPermuted(selected: set<Name>, a: seq<(Name, Tensor)>, b: seq<(Name, Tensor)>)
    requires Arrivals(selected, a) && multiset(a) == multiset(b)
    ensures Arrivals(selected, b) && NamesOf(a) == NamesOf(b)
  {
    NamesPermuted(a, b);
    ClearPermuted(a, b);
  }

  /** The order of arrival, and so the split into shards, changes neither the outcome nor any tensor. */
  lemma OrderIrrelevant(n: int, supported: set<Name>, selected: set<Name>,
                        a: seq<(Name, Tensor)>, b: seq<(Name, Tensor)>)
    requires Arrivals(selected, a) && multiset(a) == multiset(b)
    ensures Export(n, supported, selected, a).Ok? <==> Export(n, supported, selected, b).Ok?
    ensures Export(n, supported, selected, a).Ok? ==>
              Merged(Export(n, supported, selected, a).value) == Merged(Export(n, supported, selected, b).value)
  {
    ArrivalsPermuted(selected, a, b);
    ExportExact(n, supported, selected, a);
    ExportExact(n, supported, selected, b);
    if Export(n, supported, selected, a).Ok? {
      ExportHolds(n, supported, selected, a);
      ExportHolds(n, supported, selected, b);
      SrcPermuted(a, b);
      HoldsUnique(ConfigOf(n, supported, selected), SrcOf(a), SrcOf(b), Merged(Export(n, supported, selected, a).value),
                  Merged(Export(n, supported, selected, b).value));
    }
  }

  // ---------------------------------------------------------------- which way an expert set goes

  ghost predicate HasExpert(cfg: Config, src: map<Name, Tensor>, l: nat, p: nat, scaled: bool) {
    exists i :: ExpertName(l, i, p) in src && (Expert(l, i, p) in cfg.expected <==> scaled)
  }

  /** Only a scaled expert can complete a raw set, only an unscaled one a converted set. */
  ghost predicate RoutesInv(cfg: Config, src: map<Name, Tensor>, st: State) {
    forall l, p ::
      && (Experts(l, p) in st.raw ==> HasExpert(cfg, src, l, p, true))
      && (Experts(l, p) in st.written ==> HasExpert(cfg, src, l, p, false))
  }

  lemma HasMore(cfg: Config, src: map<Name, Tensor>, nm: Name, t: Tensor, l: nat, p: nat, scaled: bool)
    requires HasExpert(cfg, src, l, p, scaled)
    ensures HasExpert(cfg, src[nm := t], l, p, scaled)
  {
    var i :| ExpertName(l, i, p) in src && (Expert(l, i, p) in cfg.expected <==> scaled);
    assert ExpertName(l, i, p) in src[nm := t];
  }

  lemma DeliverRoute(cfg: Config, st: State, w: Weight, t: Tensor, toRaw: bool)
    requires w.Expert? && DeliverExpert(cfg, st, w, t, toRaw).Ok?
    ensures var st' := DeliverExpert(cfg, st, w, t, toRaw).value;
            && OnlySet(st, st', w.layer, w.proj)
            && (if toRaw then st'.written == st.written else st'.raw == st.raw)
  {
    DeliverOnlySet(cfg, st, w, t, toRaw);
    AddOnlySet(cfg, st, w, t);
  }

  lemma EmitRoute(cfg: Config, st: State, nm: Name, t: Tensor, l: nat, p: nat)
    requires !nm.ScaleName? && Emit(cfg, st, nm, t).Ok?
    ensures var st' := Emit(cfg, st, nm, t).value;
            && (Experts(l, p) in st'.raw ==> Experts(l, p) in st.raw)
            && (Experts(l, p) in st'.written && Experts(l, p) !in st.written ==>
                  nm.WeightName? && nm.w.Expert? && nm.w.layer == l && nm.w.proj == p)
  {
    if nm.WeightName? && nm.w.Expert? {
      DeliverRoute(cfg, st, nm.w, Float(t), false);
    }
  }

  lemma PairedRoute(cfg: Config, st: State, w: Weight, weight: Tensor, scale: Tensor, l: nat, p: nat)
    requires Paired(cfg, st, w, weight, scale).Ok?
    ensures var st' := Paired(cfg, st, w, weight, scale).value;
            && (Experts(l, p) in st'.written ==> Experts(l, p) in st.written)
            && (Experts(l, p) in st'.raw && Experts(l, p) !in st.raw ==> w.Expert? && w.layer == l && w.proj == p)
  {
    if w.Expert? {
      DeliverRoute(cfg, st, w, Packed(weight, scale), true);
    } else {
      EmitRoute(cfg, st, WeightName(w), Dequantized(weight, scale), l, p);
    }
  }

  lemma StepRoutes(cfg: Config, src: map<Name, Tensor>, st: State, nm: Name, t: Tensor, l: nat, p: nat)
    requires PairingInv(cfg, src, st) && Step(cfg, st, nm, t).Ok?
    requires Experts(l, p) in st.raw ==> HasExpert(cfg, src, l, p, true)
    requires Experts(l, p) in st.written ==> HasExpert(cfg, src, l, p, false)
    ensures var st', src' := Step(cfg, st, nm, t).value, src[nm := t];
            && (Experts(l, p) in st'.raw ==> HasExpert(cfg, src', l, p, true))
            && (Experts(l, p) in st'.written ==> HasExpert(cfg, src', l, p, false))
  {
    var src' := src[nm := t];
    if Experts(l, p) in st.raw {
      HasMore(cfg, src, nm, t, l, p, true);
    }
    if Experts(l, p) in st.written {
      HasMore(cfg, src, nm, t, l, p, false);
    }
    match nm
    case OtherName(_) => EmitRoute(cfg, st, nm, t, l, p);
    case WeightName(w) =>
      assert WeightName(w) in src';
      if w !in cfg.expected {
        EmitRoute(cfg, st, nm, t, l, p);
      } else if w in st.scales {
        PairedRoute(cfg, st.(scales := st.scales - {w}), w, t, st.scales[w], l, p);
      }
    case ScaleName(w) =>
      if w != Head && w in st.pending {
        assert WeightName(w) in src';
        PairedRoute(cfg, st.(pending := st.pending - {w}, scales := st.scales - {w}), w, st.pending[w], t, l, p);
      }
  }

  lemma {:induction false} RunRoutes(cfg: Config, selected: set<Name>, arrivals: seq<(Name, Tensor)>)
    requires Arrivals(selected, arrivals) && cfg.expected == ExpectedScales(selected)
    requires Run(cfg, arrivals).Ok?
    ensures RoutesInv(cfg, SrcOf(arrivals), Run(cfg, arrivals).value)
    decreases |arrivals|
  {
    if arrivals != [] {
      var n := |arrivals| - 1;
      LastArrival(selected, arrivals);
      RunRoutes(cfg, selected, arrivals[..n]);
      RunKeeps(cfg, selected, arrivals[..n]);
      forall l, p
        ensures var st := Run(cfg, arrivals).value;
                && (Experts(l, p) in st.raw ==> HasExpert(cfg, SrcOf(arrivals), l, p, true))
                && (Experts(l, p) in st.written ==> HasExpert(cfg, SrcOf(arrivals), l, p, false))
      {
        StepRoutes(cfg, SrcOf(arrivals[..n]), Run(cfg, arrivals[..n]).value, arrivals[n].0, arrivals[n].1, l, p);
      }
    }
  }

  /** Within each expert set, all weights have scales or none has. */
  ghost predicate Uniform(selected: set<Name>) {
    forall l, i, j, p :: ExpertName(l, i, p) in selected && ExpertName(l, j, p) in selected ==>
      (ScaleName(Expert(l, i, p)) in selected <==> ScaleName(Expert(l, j, p)) in selected)
  }

  /** In a uniform list a tensor is raw exactly when it is an expert set with scales. */
  lemma RawExactly(n: int, supported: set<Name>, selected: set<Name>, arrivals: seq<(Name, Tensor)>, o: Out)
    requires Arrivals(selected, arrivals) && Uniform(selected)
    requires Export(n, supported, selected, arrivals).Ok?
    ensures o in Export(n, supported, selected, arrivals).value.raw <==>
            o.Experts? && ExpertName(o.layer, 0, o.proj) in selected
            && ScaleName(Expert(o.layer, 0, o.proj)) in selected
  {
    var cfg := ConfigOf(n, supported, selected);
    RunKeeps(cfg, selected, arrivals);
    RunRoutes(cfg, selected, arrivals);
    ExportExact(n, supported, selected, arrivals);
    var st, src := Run(cfg, arrivals).value, SrcOf(arrivals);
    if o.Experts? {
      var l, p := o.layer, o.proj;
      CloseNeeds(cfg, selected, src, st);
      AllReady(cfg, selected, src);
      HoldsExperts(cfg, src, st, l, p);
      if o in st.raw {
        var i :| ExpertName(l, i, p) in src && Expert(l, i, p) in cfg.expected;
        assert ScaleName(Expert(l, i, p)) in selected;
      }
      if o in st.written {
        var i :| ExpertName(l, i, p) in src && Expert(l, i, p) !in cfg.expected;
        assert ScaleName(Expert(l, i, p)) !in selected;
      }
    }
  }

  /** In a uniform list the order of arrival does not even decide which tensors stay packed. */
  lemma UniformOrderIrrelevant(n: int, supported: set<Name>, selected: set<Name>,
                               a: seq<(Name, Tensor)>, b: seq<(Name, Tensor)>)
    requires Arrivals(selected, a) && multiset(a) == multiset(b) && Uniform(selected)
    requires Export(n, supported, selected, a).Ok?
    ensures Export(n, supported, selected, a) == Export(n, supported, selected, b)
  {
    ArrivalsPermuted(selected, a, b);
    OrderIrrelevant(n, supported, selected, a, b);
    var x, y := Export(n, supported, selected, a).value, Export(n, supported, selected, b).value;
    RawApartAtEnd(n, supported, selected, a);
    RawApartAtEnd(n, supported, selected, b);
    forall o
      ensures o in x.raw <==> o in y.raw
    {
      RawExactly(n, supported, selected, a, o);
      RawExactly(n, supported, selected, b, o);
    }
    SplitUnique(x, y);
  }

  lemma RawApartAtEnd(n: int, supported: set<Name>, selected: set<Name>, arrivals: seq<(Name, Tensor)>)
    requires Export(n, supported, selected, arrivals).Ok?
    ensures var out := Export(n, supported, selected, arrivals).value; out.raw.Keys !! out.written.Keys
  {
    var out := Export(n, supported, selected, arrivals).value;
    forall o | o in out.raw
      ensures o !in out.written
    {
      assert o !in out.raw.Keys * out.written.Keys;
    }
  }

  lemma SplitUnique(x: Output, y: Output)
    requires Merged(x) == Merged(y) && forall o :: o in x.raw <==> o in y.raw
    requires x.raw.Keys !! x.written.Keys && y.raw.Keys !! y.written.Keys
    ensures x == y
  {
    assert forall o :: o in x.raw ==> Merged(x)[o] == x.raw[o] && Merged(y)[o] == y.raw[o];
    assert forall o :: o in x.written <==> o in Merged(x) && o !in x.raw;
    assert forall o :: o in y.written <==> o in Merged(y) && o !in y.raw;
    assert forall o :: o in x.written ==> Merged(x)[o] == x.written[o] && Merged(y)[o] == y.written[o];
    assert x.raw == y.raw && x.written == y.written;
  }

  // ---- a mixed set goes where the last of its experts sends it

  lemma NotYetDone(cfg: Config, src: map<Name, Tensor>, st: State, l: nat, i: nat, p: nat)
    requires Inv(cfg, src, st) && i < cfg.n && !Ready(cfg, src, ExpertName(l, i, p))
    ensures !Done(st, l, p)
  {
    var d := Deliveries(cfg, src);
    assert SetInv(cfg, d, st, l, p);
    assert ExpertName(l, i, p) !in d;
  }

  lemma DoneAtEnd(n: int, supported: set<Name>, selected: set<Name>, arrivals: seq<(Name, Tensor)>,
                  l: nat, i: nat, p: nat)
    requires Arrivals(selected, arrivals) && Export(n, supported, selected, arrivals).Ok?
    requires ExpertName(l, i, p) in selected
    ensures i < n && Done(Run(ConfigOf(n, supported, selected), arrivals).value, l, p)
  {
    var cfg := ConfigOf(n, supported, selected);
    ExportExact(n, supported, selected, arrivals);
    RunKeeps(cfg, selected, arrivals);
    assert Fits(cfg, ExpertName(l, i, p));
    assert ExpertName(l, 0, p) in selected;
    AllReady(cfg, selected, SrcOf(arrivals));
    HoldsExperts(cfg, SrcOf(arrivals), Run(cfg, arrivals).value, l, p);
  }

  /** The expert whose weight comes last decides where its set goes. */
  lemma LastDecides(n: int, supported: set<Name>, selected: set<Name>, arrivals: seq<(Name, Tensor)>,
                    l: nat, i: nat, p: nat)
    requires Arrivals(selected, arrivals) && Export(n, supported, selected, arrivals).Ok? && arrivals != []
    requires ExpertName(l, i, p) in selected && arrivals[|arrivals| - 1].0 == ExpertName(l, i, p)
    ensures Experts(l, p) in Export(n, supported, selected, arrivals).value.raw <==>
            ScaleName(Expert(l, i, p)) in selected
  {
    var cfg, k, w := ConfigOf(n, supported, selected), |arrivals| - 1, Expert(l, i, p);
    DoneAtEnd(n, supported, selected, arrivals, l, i, p);
    LastArrival(selected, arrivals);
    RunKeeps(cfg, selected, arrivals[..k]);
    var st, t := Run(cfg, arrivals[..k]).value, arrivals[k].1;
    NotYetDone(cfg, SrcOf(arrivals[..k]), st, l, i, p);
    if w !in cfg.expected {
      EmitRoute(cfg, st, ExpertName(l, i, p), t, l, p);
    } else if w in st.scales {
      PairedRoute(cfg, st.(scales := st.scales - {w}), w, t, st.scales[w], l, p);
    }
  }

  function MoveLast(a: seq<(Name, Tensor)>, k: nat): seq<(Name, Tensor)>
    requires k < |a|
  {
    a[..k] + a[k + 1..] + [a[k]]
  }

  lemma MoveLastSame(a: seq<(Name, Tensor)>, k: nat)
    requires k < |a|
    ensures multiset(MoveLast(a, k)) == multiset(a)
  {
    assert a == a[..k] + [a[k]] + a[k + 1..];
  }

  lemma MoveDecides(n: int, supported: set<Name>, selected: set<Name>, a: seq<(Name, Tensor)>, l: nat, i: nat, p: nat)
    returns (b: seq<(Name, Tensor)>)
    requires Arrivals(selected, a) && Export(n, supported, selected, a).Ok? && ExpertName(l, i, p) in selected
    ensures multiset(b) == multiset(a) && Export(n, supported, selected, b).Ok?
    ensures Experts(l, p) in Export(n, supported, selected, b).value.raw <==> ScaleName(Expert(l, i, p)) in selected
  {
    ExportExact(n, supported, selected, a);
    assert ExpertName(l, i, p) in NamesOf(a);
    var k :| 0 <= k < |a| && a[k].0 == ExpertName(l, i, p);
    b := MoveLast(a, k);
    MoveLastSame(a, k);
    ArrivalsPermuted(selected, a, b);
    OrderIrrelevant(n, supported, selected, a, b);
    LastDecides(n, supported, selected, b, l, i, p);
  }

  /** Every order of the same arrivals gives the same output, packed or not. */
  ghost predicate OrderFree(n: int, supported: set<Name>, selected: set<Name>, a: seq<(Name, Tensor)>) {
    forall b :: multiset(b) == multiset(a) ==>
      Export(n, supported, selected, b) == Export(n, supported, selected, a)
  }

  /** Without a clash of names that is so exactly for uniform lists. */
  lemma UniformExactly(n: int, supported: set<Name>, selected: set<Name>, a: seq<(Name, Tensor)>)
    requires Arrivals(selected, a) && Export(n, supported, selected, a).Ok?
    ensures Uniform(selected) <==> OrderFree(n, supported, selected, a)
  {
    if Uniform(selected) {
      forall b | multiset(b) == multiset(a)
        ensures Export(n, supported, selected, b) == Export(n, supported, selected, a)
      {
        UniformOrderIrrelevant(n, supported, selected, a, b);
      }
    } else {
      var l, i, j, p :| ExpertName(l, i, p) in selected && ExpertName(l, j, p) in selected
                        && ScaleName(Expert(l, i, p)) in selected && ScaleName(Expert(l, j, p)) !in selected;
      var b := MoveDecides(n, supported, selected, a, l, i, p);
      var c := MoveDecides(n, supported, selected, a, l, j, p);
      assert Export(n, supported, selected, b) != Export(n, supported, selected, c);
    }
  }

  /** A scale for the head makes every export fail. */
  lemma HeadScaleRefused(n: int, supported: set<Name>, selected: set<Name>, arrivals: seq<(Name, Tensor)>)
    requires Arrivals(selected, arrivals)
    requires WeightName(Head) in selected && ScaleName(Head) in selected
    ensures Export(n, supported, selected, arrivals).Err?
  {
    ExportExact(n, supported, selected, arrivals);
  }

  /** A projection listed both joined and in halves makes every export fail: the writer refuses the
      second tensor of the name. */
  lemma JoinedTwiceRefused(n: int, supported: set<Name>, selected: set<Name>, arrivals: seq<(Name, Tensor)>, l: nat)
    requires Arrivals(selected, arrivals)
    requires WeightName(EProj(l)) in selected && WeightName(HProj(l)) in selected && JoinedName(l) in selected
    ensures Export(n, supported, selected, arrivals).Err?
  {
    ExportExact(n, supported, selected, arrivals);
  }
}
