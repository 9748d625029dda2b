/** The DeepSeek-V4 MTP export of convert_hf_to_gguf.py: tensors arrive in whatever order the
    shards hold them; weights wait for their scales, projection halves for each other, and experts
    for their set to fill. Tensors are terms over the source tensors, so two exports are equal
    only if they did the same thing with the same inputs. */
module MtpExport {
  import opened Wrappers

  datatype Weight =
    | Head
    | EProj(layer: nat)
    | HProj(layer: nat)
    | Joined(layer: nat)
    | Expert(layer: nat, id: nat, proj: nat)
    | Plain(path: string)

  /** A source name: a weight, the scale of a weight, or a tensor that is neither. */
  datatype Name = WeightName(w: Weight) | ScaleName(w: Weight) | OtherName(path: string)

  /** A name in the output file. Both a pair of projection halves and a projection that comes joined
      get the name EhProj. */
  datatype Out = EhProj(layer: nat) | Experts(layer: nat, proj: nat) | Mapped(name: Name)

  /** The name the tensor map gives. */
  function OutOf(nm: Name): Out {
    if nm.WeightName? && nm.w.Joined? then EhProj(nm.w.layer) else Mapped(nm)
  }

  datatype Tensor =
    | Source(id: int)
    | Float(t: Tensor)
    | Dequantized(weight: Tensor, scale: Tensor)
    | Packed(weight: Tensor, scale: Tensor)
    | Columns(left: Tensor, right: Tensor)
    | Stacked(items: seq<Tensor>)

  datatype Error = Unsupported | IncompleteExperts | Duplicate | MissingNames
                 | UnpairedHalves | LeftoverExperts | UnpairedWeights

  type Outcome<+T> = Result<T, Error>

  /** `n` routed experts, the weights for which the index lists a scale, and the names the tensor map knows. */
  datatype Config = Config(n: int, expected: set<Weight>, supported: set<Name>)

  datatype State = State(pending: map<Weight, Tensor>, scales: map<Weight, Tensor>, halves: map<Weight, Tensor>,
                         experts: map<(nat, nat), map<nat, Tensor>>, raw: map<Out, Tensor>,
                         written: map<Out, Tensor>)

  const EMPTY := State(map[], map[], map[], map[], map[], map[])

  // ---------------------------------------------------------------- collecting what is ready

  function OtherHalf(w: Weight): Weight
    requires w.EProj? || w.HProj?
  {
    if w.EProj? then HProj(w.layer) else EProj(w.layer)
  }

  /** The ids 0 to n - 1. */
  function Below(n: nat): (r: set<nat>)
    ensures forall i: nat :: i in r <==> i < n
    ensures |r| == n
  {
    if n == 0 then {} else Below(n - 1) + {n - 1}
  }

  predicate IsRange(ids: set<nat>, n: nat) {
    ids == Below(n)
  }

  function Stack(experts: map<nat, Tensor>, n: nat): Tensor
    requires IsRange(experts.Keys, n)
  {
    Stacked(seq(n, i requires 0 <= i < n => experts[i]))
  }

  function DictOf(st: State, key: (nat, nat)): map<nat, Tensor> {
    if key in st.experts then st.experts[key] else map[]
  }

  /** One more expert of its set; the whole stack once the set has `n` members. */
  function AddExpert(cfg: Config, st: State, w: Weight, t: Tensor): Outcome<(State, Option<Tensor>)>
    requires w.Expert?
  {
    var key := (w.layer, w.proj);
    var dict := DictOf(st, key)[w.id := t];
    if cfg.n <= 0 || |dict| < cfg.n then Ok((st.(experts := st.experts[key := dict]), None))
    else if !IsRange(dict.Keys, cfg.n) then Err(IncompleteExperts)
    else Ok((st.(experts := st.experts - {key}), Some(Stack(dict, cfg.n))))
  }

  function Write(st: State, o: Out, t: Tensor): Outcome<State> {
    if o in st.written then Err(Duplicate) else Ok(st.(written := st.written[o := t]))
  }

  /** An expert delivered to its set. A full set is written, or kept aside to be written raw at the end. */
  function DeliverExpert(cfg: Config, st: State, w: Weight, t: Tensor, toRaw: bool): Outcome<State>
    requires w.Expert?
  {
    match AddExpert(cfg, st, w, t)
    case Err(e) => Err(e)
    case Ok((st', None)) => Ok(st')
    case Ok((st', Some(stack))) =>
      if toRaw then Ok(st'.(raw := st'.raw[Experts(w.layer, w.proj) := stack]))
      else Write(st', Experts(w.layer, w.proj), stack)
  }

  function RecordExpert(cfg: Config, st: State, w: Weight, t: Tensor): Outcome<State>
    requires w.Expert?
  {
    DeliverExpert(cfg, st, w, t, true)
  }

  /** A tensor that waits for nothing any more, other than for its other half or its expert set. */
  function Emit(cfg: Config, st: State, nm: Name, t: Tensor): Outcome<State>
    requires !nm.ScaleName?
  {
    if nm.WeightName? && nm.w.Expert? then DeliverExpert(cfg, st, nm.w, Float(t), false)
    else if nm.WeightName? && (nm.w.EProj? || nm.w.HProj?) then Pair(st, nm.w, Float(t))
    else if nm in cfg.supported then Write(st, OutOf(nm), Float(t))
    else Err(Unsupported)
  }

  function Pair(st: State, w: Weight, t: Tensor): Outcome<State>
    requires w.EProj? || w.HProj?
  {
    var other := OtherHalf(w);
    if other !in st.halves then Ok(st.(halves := st.halves[w := t]))
    else
      var (e, h) := if w.EProj? then (t, st.halves[other]) else (st.halves[other], t);
      Write(st.(halves := st.halves - {w, other}), EhProj(w.layer), Columns(e, h))
  }

  // ---------------------------------------------------------------- pairing weights and scales

  function Paired(cfg: Config, st: State, w: Weight, weight: Tensor, scale: Tensor): Outcome<State> {
    if w.Expert? then RecordExpert(cfg, st, w, Packed(weight, scale))
    else Emit(cfg, st, WeightName(w), Dequantized(weight, scale))
  }

  /** One arrival. */
  function Step(cfg: Config, st: State, nm: Name, t: Tensor): Outcome<State> {
    match nm
    case ScaleName(w) =>
      if w == Head then Ok(st)
      else if w !in st.pending then Ok(st.(scales := st.scales[w := t]))
      else Paired(cfg, st.(pending := st.pending - {w}, scales := st.scales - {w}), w, st.pending[w], t)
    case WeightName(w) =>
      if w !in cfg.expected then Emit(cfg, st, nm, t)
      else if w !in st.scales then Ok(st.(pending := st.pending[w := t]))
      else Paired(cfg, st.(scales := st.scales - {w}), w, t, st.scales[w])
    case OtherName(_) => Emit(cfg, st, nm, t)
  }

  function Run(cfg: Config, arrivals: seq<(Name, Tensor)>): Outcome<State>
    decreases |arrivals|
  {
    if arrivals == [] then Ok(EMPTY)
    else
      var last := arrivals[|arrivals| - 1];
      match Run(cfg, arrivals[..|arrivals| - 1])
      case Err(e) => Err(e)
      case Ok(st) => Step(cfg, st, last.0, last.1)
  }

  /** What has been written: most tensors to be converted further, packed experts as they are. */
  datatype Output = Output(written: map<Out, Tensor>, raw: map<Out, Tensor>)

  function Close(st: State): Outcome<Output> {
    if st.raw.Keys * st.written.Keys != {} then Err(Duplicate)
    else if st.halves != map[] then Err(UnpairedHalves)
    else if st.experts != map[] then Err(LeftoverExperts)
    else if st.pending != map[] then Err(UnpairedWeights)
    else Ok(Output(st.written, st.raw))
  }

  function ExpectedScales(selected: set<Name>): set<Weight> {
    set nm | nm in selected && nm.ScaleName? :: nm.w
  }

  function NamesOf(arrivals: seq<(Name, Tensor)>): set<Name> {
    set i | 0 <= i < |arrivals| :: arrivals[i].0
  }

  function Export(n: int, supported: set<Name>, selected: set<Name>, arrivals: seq<(Name, Tensor)>): Outcome<Output> {
    match Run(Config(n, ExpectedScales(selected), supported), arrivals)
    case Err(e) => Err(e)
    case Ok(st) => if selected - NamesOf(arrivals) != {} then Err(MissingNames) else Close(st)
  }

  // ---------------------------------------------------------------- what is ready

  /** The tensor waits for nothing more: it has its scale, if the index lists one. The scale of the
      head is dropped on arrival, so a head weight that expects one waits forever. */
  predicate Ready(cfg: Config, src: map<Name, Tensor>, nm: Name) {
    && nm in src && !nm.ScaleName?
    && (nm.WeightName? && nm.w in cfg.expected ==> nm.w != Head && ScaleName(nm.w) in src)
  }

  /** What a ready tensor contributes: experts with a scale are packed, other weights with one dequantized. */
  function ValueOf(cfg: Config, src: map<Name, Tensor>, nm: Name): Tensor
    requires Ready(cfg, src, nm)
  {
    if nm.WeightName? && nm.w in cfg.expected then
      if nm.w.Expert? then Packed(src[nm], src[ScaleName(nm.w)])
      else Float(Dequantized(src[nm], src[ScaleName(nm.w)]))
    else Float(src[nm])
  }

  function Deliveries(cfg: Config, src: map<Name, Tensor>): (d: map<Name, Tensor>)
    ensures forall nm :: nm in d <==> Ready(cfg, src, nm)
    ensures forall nm :: nm in d ==> d[nm] == ValueOf(cfg, src, nm)
  {
    map nm | nm in src && Ready(cfg, src, nm) :: ValueOf(cfg, src, nm)
  }

  // ---------------------------------------------------------------- invariant of the collector

  predicate IsHalf(w: Weight) {
    w.EProj? || w.HProj?
  }

  predicate IsMapped(nm: Name) {
    nm.OtherName? || (nm.WeightName? && (nm.w.Head? || nm.w.Plain? || nm.w.Joined?))
  }

  predicate HalfWaits(d: map<Name, Tensor>, w: Weight) {
    IsHalf(w) && WeightName(w) in d && WeightName(OtherHalf(w)) !in d
  }

  ghost predicate HalvesInv(d: map<Name, Tensor>, st: State) {
    && (forall w :: w in st.halves <==> HalfWaits(d, w))
    && (forall w :: w in st.halves ==> st.halves[w] == d[WeightName(w)])
  }

  function JoinedName(l: nat): Name {
    WeightName(Joined(l))
  }

  predicate HasPair(d: map<Name, Tensor>, l: nat) {
    WeightName(EProj(l)) in d && WeightName(HProj(l)) in d
  }

  function PairOf(d: map<Name, Tensor>, l: nat): Tensor
    requires HasPair(d, l)
  {
    Columns(d[WeightName(EProj(l))], d[WeightName(HProj(l))])
  }

  /** A layer's projection is written from its halves or as it came, never from both. */
  predicate LayerInv(cfg: Config, d: map<Name, Tensor>, st: State, l: nat) {
    && (EhProj(l) in st.written <==> HasPair(d, l) || JoinedName(l) in d)
    && !(HasPair(d, l) && JoinedName(l) in d)
    && (HasPair(d, l) ==> st.written[EhProj(l)] == PairOf(d, l))
    && (JoinedName(l) in d ==> st.written[EhProj(l)] == d[JoinedName(l)] && JoinedName(l) in cfg.supported)
  }

  ghost predicate LayersInv(cfg: Config, d: map<Name, Tensor>, st: State) {
    forall l :: LayerInv(cfg, d, st, l)
  }

  ghost predicate MappedInv(cfg: Config, d: map<Name, Tensor>, st: State) {
    && (forall nm :: Mapped(nm) in st.written <==> nm in d && IsMapped(nm) && OutOf(nm) == Mapped(nm))
    && (forall nm :: Mapped(nm) in st.written ==> st.written[Mapped(nm)] == d[nm] && nm in cfg.supported)
  }

  function ExpertName(l: nat, i: nat, p: nat): Name {
    WeightName(Expert(l, i, p))
  }

  predicate Done(st: State, l: nat, p: nat) {
    Experts(l, p) in st.written || Experts(l, p) in st.raw
  }

  predicate AllThere(d: map<Name, Tensor>, l: nat, p: nat, n: int) {
    forall i: nat :: i < n ==> ExpertName(l, i, p) in d
  }

  function StackOf(d: map<Name, Tensor>, l: nat, p: nat, n: nat): Tensor
    requires AllThere(d, l, p, n)
  {
    Stacked(seq(n, i requires 0 <= i < n => d[ExpertName(l, i, p)]))
  }

  /** The experts of one set: buffered until the set is full, then stacked in the order of their ids. */
  ghost predicate SetInv(cfg: Config, d: map<Name, Tensor>, st: State, l: nat, p: nat) {
    var dict, done := DictOf(st, (l, p)), Done(st, l, p);
    && (forall i: nat :: i in dict <==> ExpertName(l, i, p) in d && !(done && i < cfg.n))
    && (forall i: nat :: i in dict ==> dict[i] == d[ExpertName(l, i, p)])
    && ((l, p) in st.experts ==> dict != map[])
    && (cfg.n > 0 ==> |dict| < cfg.n)
    && (done ==> cfg.n > 0 && AllThere(d, l, p, cfg.n))
    && (done ==> !(Experts(l, p) in st.written && Experts(l, p) in st.raw))
    && (Experts(l, p) in st.written ==> st.written[Experts(l, p)] == StackOf(d, l, p, cfg.n))
    && (Experts(l, p) in st.raw ==> st.raw[Experts(l, p)] == StackOf(d, l, p, cfg.n))
  }

  ghost predicate Collected(cfg: Config, d: map<Name, Tensor>, st: State) {
    && HalvesInv(d, st) && LayersInv(cfg, d, st) && MappedInv(cfg, d, st)
    && SetsInv(cfg, d, st)
    && (forall o :: o in st.raw ==> o.Experts?)
  }

  // ---- what a delivery leaves alone

  /** `d'` is `d` and one more tensor that is no expert of this set, and the set's buffers are as before. */
  lemma SetFrame(cfg: Config, d: map<Name, Tensor>, nm: Name, t: Tensor, st: State, st': State, l: nat, p: nat)
    requires SetInv(cfg, d, st, l, p)
    requires !(nm.WeightName? && nm.w.Expert? && nm.w.layer == l && nm.w.proj == p)
    requires ((l, p) in st'.experts <==> (l, p) in st.experts) && DictOf(st', (l, p)) == DictOf(st, (l, p))
    requires Experts(l, p) in st'.written <==> Experts(l, p) in st.written
    requires Experts(l, p) in st'.raw <==> Experts(l, p) in st.raw
    requires Experts(l, p) in st.written ==> st'.written[Experts(l, p)] == st.written[Experts(l, p)]
    requires Experts(l, p) in st.raw ==> st'.raw[Experts(l, p)] == st.raw[Experts(l, p)]
    ensures SetInv(cfg, d[nm := t], st', l, p)
  {
    var d' := d[nm := t];
    assert forall i: nat :: ExpertName(l, i, p) in d' <==> ExpertName(l, i, p) in d;
    if Done(st, l, p) {
      assert AllThere(d, l, p, cfg.n);
      assert StackOf(d', l, p, cfg.n) == StackOf(d, l, p, cfg.n);
    }
  }

  ghost predicate SetsInv(cfg: Config, d: map<Name, Tensor>, st: State) {
    forall l, p :: SetInv(cfg, d, st, l, p)
  }

  lemma SetsFrame(cfg: Config, d: map<Name, Tensor>, nm: Name, t: Tensor, st: State, st': State)
    requires SetsInv(cfg, d, st)
    requires !(nm.WeightName? && nm.w.Expert?) && st'.experts == st.experts && st'.raw == st.raw
    requires forall l, p :: Experts(l, p) in st'.written <==> Experts(l, p) in st.written
    requires forall l, p :: Experts(l, p) in st.written ==> st'.written[Experts(l, p)] == st.written[Experts(l, p)]
    ensures SetsInv(cfg, d[nm := t], st')
  {
    var d' := d[nm := t];
    forall l, p
      ensures SetInv(cfg, d', st', l, p)
    {
      assert SetInv(cfg, d, st, l, p);
      SetFrame(cfg, d, nm, t, st, st', l, p);
    }
  }

  lemma HalvesFrame(d: map<Name, Tensor>, nm: Name, t: Tensor, st: State, st': State)
    requires HalvesInv(d, st) && !(nm.WeightName? && IsHalf(nm.w)) && st'.halves == st.halves
    ensures HalvesInv(d[nm := t], st')
  {
    var d' := d[nm := t];
    forall w
      ensures HalfWaits(d', w) <==> HalfWaits(d, w)
    {
    }
  }

  /** Some other tensor than this layer's projection arrives. */
  lemma LayerFrame(cfg: Config, d: map<Name, Tensor>, nm: Name, t: Tensor, st: State, st': State, l: nat)
    requires LayerInv(cfg, d, st, l) && nm != JoinedName(l)
    requires nm == WeightName(EProj(l)) ==> WeightName(HProj(l)) !in d
    requires nm == WeightName(HProj(l)) ==> WeightName(EProj(l)) !in d
    requires EhProj(l) in st'.written <==> EhProj(l) in st.written
    requires EhProj(l) in st.written ==> st'.written[EhProj(l)] == st.written[EhProj(l)]
    ensures LayerInv(cfg, d[nm := t], st', l)
  {
    assert HasPair(d[nm := t], l) <==> HasPair(d, l);
  }

  lemma LayersFrame(cfg: Config, d: map<Name, Tensor>, nm: Name, t: Tensor, st: State, st': State)
    requires LayersInv(cfg, d, st) && !(nm.WeightName? && (IsHalf(nm.w) || nm.w.Joined?))
    requires forall l :: EhProj(l) in st'.written <==> EhProj(l) in st.written
    requires forall l :: EhProj(l) in st.written ==> st'.written[EhProj(l)] == st.written[EhProj(l)]
    ensures LayersInv(cfg, d[nm := t], st')
  {
    var d' := d[nm := t];
    forall l
      ensures LayerInv(cfg, d', st', l)
    {
      assert LayerInv(cfg, d, st, l);
      LayerFrame(cfg, d, nm, t, st, st', l);
    }
  }

  lemma MappedFrame(cfg: Config, d: map<Name, Tensor>, nm: Name, t: Tensor, st: State, st': State)
    requires MappedInv(cfg, d, st) && (!IsMapped(nm) || OutOf(nm) != Mapped(nm))
    requires forall m :: Mapped(m) in st'.written <==> Mapped(m) in st.written
    requires forall m :: Mapped(m) in st.written ==> st'.written[Mapped(m)] == st.written[Mapped(m)]
    ensures MappedInv(cfg, d[nm := t], st')
  {
  }

  // ---- one delivery

  lemma FirstHalf(d: map<Name, Tensor>, st: State, w: Weight, t: Tensor)
    requires HalvesInv(d, st) && IsHalf(w) && WeightName(w) !in d && OtherHalf(w) !in st.halves
    ensures WeightName(OtherHalf(w)) !in d && HalvesInv(d[WeightName(w) := t], st.(halves := st.halves[w := t]))
  {
    var d', other := d[WeightName(w) := t], OtherHalf(w);
    assert WeightName(other) !in d by {
      assert HalfWaits(d, other) <==> other in st.halves;
    }
    forall v
      ensures HalfWaits(d', v) <==> v == w || v in st.halves
    {
      assert v in st.halves <==> HalfWaits(d, v);
    }
  }

  lemma FirstHalfLayers(cfg: Config, d: map<Name, Tensor>, st: State, st': State, w: Weight, t: Tensor)
    requires LayersInv(cfg, d, st) && IsHalf(w) && WeightName(OtherHalf(w)) !in d && st'.written == st.written
    ensures LayersInv(cfg, d[WeightName(w) := t], st')
  {
    var d' := d[WeightName(w) := t];
    forall l
      ensures LayerInv(cfg, d', st', l)
    {
      assert LayerInv(cfg, d, st, l);
      LayerFrame(cfg, d, WeightName(w), t, st, st', l);
    }
  }

  lemma SecondHalf(d: map<Name, Tensor>, st: State, st': State, w: Weight, t: Tensor)
    requires HalvesInv(d, st) && IsHalf(w) && WeightName(w) !in d && OtherHalf(w) in st.halves
    requires st'.halves == st.halves - {w, OtherHalf(w)}
    ensures WeightName(OtherHalf(w)) in d && st.halves[OtherHalf(w)] == d[WeightName(OtherHalf(w))]
    ensures HalvesInv(d[WeightName(w) := t], st')
  {
    var d', other := d[WeightName(w) := t], OtherHalf(w);
    assert HalfWaits(d, other) && st.halves[other] == d[WeightName(other)];
    forall v
      ensures HalfWaits(d', v) <==> v in st.halves && v != w && v != other
    {
      assert v in st.halves <==> HalfWaits(d, v);
    }
  }

  lemma SecondHalfLayers(cfg: Config, d: map<Name, Tensor>, st: State, st': State, w: Weight, t: Tensor)
    requires LayersInv(cfg, d, st) && IsHalf(w) && WeightName(w) !in d && WeightName(OtherHalf(w)) in d
    requires EhProj(w.layer) !in st.written
    requires st'.written == st.written[EhProj(w.layer) := PairOf(d[WeightName(w) := t], w.layer)]
    ensures LayersInv(cfg, d[WeightName(w) := t], st')
  {
    var d' := d[WeightName(w) := t];
    forall l
      ensures LayerInv(cfg, d', st', l)
    {
      assert LayerInv(cfg, d, st, l);
      if l != w.layer {
        LayerFrame(cfg, d, WeightName(w), t, st, st', l);
      }
    }
  }

  lemma PairHalves(cfg: Config, d: map<Name, Tensor>, st: State, w: Weight, t: Tensor)
    requires HalvesInv(d, st) && LayersInv(cfg, d, st) && IsHalf(w) && WeightName(w) !in d && Pair(st, w, t).Ok?
    ensures var st', d' := Pair(st, w, t).value, d[WeightName(w) := t]; HalvesInv(d', st') && LayersInv(cfg, d', st')
  {
    var st' := Pair(st, w, t).value;
    if OtherHalf(w) in st.halves {
      SecondHalf(d, st, st', w, t);
      SecondHalfLayers(cfg, d, st, st', w, t);
    } else {
      FirstHalf(d, st, w, t);
      FirstHalfLayers(cfg, d, st, st', w, t);
    }
  }

  /** A half is refused only when the projection has come joined as well. */
  lemma PairAccepted(cfg: Config, d: map<Name, Tensor>, st: State, w: Weight, t: Tensor)
    requires HalvesInv(d, st) && LayersInv(cfg, d, st) && IsHalf(w) && WeightName(w) !in d
    requires WeightName(OtherHalf(w)) in d ==> JoinedName(w.layer) !in d
    ensures Pair(st, w, t).Ok?
  {
    assert LayerInv(cfg, d, st, w.layer);
    assert OtherHalf(w) in st.halves ==> HalfWaits(d, OtherHalf(w));
  }

  lemma PairKeeps(cfg: Config, d: map<Name, Tensor>, st: State, w: Weight, t: Tensor)
    requires Collected(cfg, d, st) && IsHalf(w) && WeightName(w) !in d && Pair(st, w, t).Ok?
    ensures Collected(cfg, d[WeightName(w) := t], Pair(st, w, t).value)
  {
    PairHalves(cfg, d, st, w, t);
    var st' := Pair(st, w, t).value;
    MappedFrame(cfg, d, WeightName(w), t, st, st');
    SetsFrame(cfg, d, WeightName(w), t, st, st');
  }

  lemma JoinedKeeps(cfg: Config, d: map<Name, Tensor>, st: State, l: nat, t: Tensor)
    requires Collected(cfg, d, st) && JoinedName(l) !in d && JoinedName(l) in cfg.supported
    requires Write(st, EhProj(l), t).Ok?
    ensures Collected(cfg, d[JoinedName(l) := t], Write(st, EhProj(l), t).value)
  {
    var nm, st' := JoinedName(l), Write(st, EhProj(l), t).value;
    JoinedLayers(cfg, d, st, st', l, t);
    HalvesFrame(d, nm, t, st, st');
    MappedFrame(cfg, d, nm, t, st, st');
    SetsFrame(cfg, d, nm, t, st, st');
  }

  lemma JoinedLayers(cfg: Config, d: map<Name, Tensor>, st: State, st': State, l: nat, t: Tensor)
    requires LayersInv(cfg, d, st) && JoinedName(l) in cfg.supported
    requires EhProj(l) !in st.written && st'.written == st.written[EhProj(l) := t]
    ensures LayersInv(cfg, d[JoinedName(l) := t], st')
  {
    var d' := d[JoinedName(l) := t];
    forall k
      ensures LayerInv(cfg, d', st', k)
    {
      assert LayerInv(cfg, d, st, k);
      if k != l {
        LayerFrame(cfg, d, JoinedName(l), t, st, st', k);
      }
    }
  }

  lemma MappedKeeps(cfg: Config, d: map<Name, Tensor>, st: State, nm: Name, t: Tensor)
    requires Collected(cfg, d, st) && IsMapped(nm) && nm !in d && nm in cfg.supported && OutOf(nm) == Mapped(nm)
    ensures Write(st, Mapped(nm), t).Ok? && Collected(cfg, d[nm := t], Write(st, Mapped(nm), t).value)
  {
    MappedWritten(cfg, d, st, nm, t);
    var st' := Write(st, Mapped(nm), t).value;
    HalvesFrame(d, nm, t, st, st');
    LayersFrame(cfg, d, nm, t, st, st');
    SetsFrame(cfg, d, nm, t, st, st');
  }

  lemma MappedWritten(cfg: Config, d: map<Name, Tensor>, st: State, nm: Name, t: Tensor)
    requires MappedInv(cfg, d, st) && IsMapped(nm) && nm !in d && nm in cfg.supported && OutOf(nm) == Mapped(nm)
    ensures Write(st, Mapped(nm), t).Ok? && MappedInv(cfg, d[nm := t], Write(st, Mapped(nm), t).value)
  {
    assert Mapped(nm) !in st.written;
  }

  // ---- experts

  lemma {:induction false} SubsetSize(a: set<nat>, b: set<nat>)
    requires a <= b
    ensures |a| <= |b|
    decreases |a|
  {
    if a != {} {
      var x :| x in a;
      SubsetSize(a - {x}, b - {x});
    }
  }

  /** `n` different ids below `n` are all of them. */
  lemma FullSet(ids: set<nat>, n: nat)
    requires |ids| == n && forall i :: i in ids ==> i < n
    ensures IsRange(ids, n)
  {
    forall j: nat | j < n
      ensures j in ids
    {
      if j !in ids {
        SubsetSize(ids, Below(n) - {j});
        assert false;
      }
    }
  }

  lemma NewExpert(cfg: Config, d: map<Name, Tensor>, st: State, w: Weight, t: Tensor)
    requires w.Expert? && SetInv(cfg, d, st, w.layer, w.proj) && WeightName(w) !in d
    ensures var dict := DictOf(st, (w.layer, w.proj));
            && w.id !in dict && |dict[w.id := t]| == |dict| + 1
            && !(Done(st, w.layer, w.proj) && w.id < cfg.n)
  {
    assert WeightName(w) == ExpertName(w.layer, w.id, w.proj);
    var dict := DictOf(st, (w.layer, w.proj));
    assert w.id !in dict;
    assert dict[w.id := t].Keys == dict.Keys + {w.id};
  }

  lemma SetGrows(cfg: Config, d: map<Name, Tensor>, st: State, w: Weight, t: Tensor)
    requires w.Expert? && SetInv(cfg, d, st, w.layer, w.proj) && WeightName(w) !in d
    requires var dict := DictOf(st, (w.layer, w.proj))[w.id := t]; cfg.n <= 0 || |dict| < cfg.n
    ensures var key := (w.layer, w.proj);
            SetInv(cfg, d[WeightName(w) := t], st.(experts := st.experts[key := DictOf(st, key)[w.id := t]]),
                   w.layer, w.proj)
  {
    var l, p, d' := w.layer, w.proj, d[WeightName(w) := t];
    NewExpert(cfg, d, st, w, t);
    assert forall i: nat :: ExpertName(l, i, p) in d' <==> i == w.id || ExpertName(l, i, p) in d;
    if Done(st, l, p) {
      assert AllThere(d, l, p, cfg.n);
      assert StackOf(d', l, p, cfg.n) == StackOf(d, l, p, cfg.n);
    }
  }

  /** Delivering an expert touches nothing but its own set. */
  ghost predicate OnlySet(st: State, st': State, l: nat, p: nat) {
    && st'.halves == st.halves && st'.pending == st.pending && st'.scales == st.scales
    && SameBut(st.experts, st'.experts, (l, p))
    && SameBut(st.written, st'.written, Experts(l, p)) && SameBut(st.raw, st'.raw, Experts(l, p))
  }

  ghost predicate SameBut<K(!new), V>(m: map<K, V>, m': map<K, V>, key: K) {
    (forall k :: k != key ==> (k in m' <==> k in m)) && (forall k :: k != key && k in m ==> m'[k] == m[k])
  }

  lemma DeliverOnlySet(cfg: Config, st: State, w: Weight, t: Tensor, toRaw: bool)
    requires w.Expert? && DeliverExpert(cfg, st, w, t, toRaw).Ok?
    ensures OnlySet(st, DeliverExpert(cfg, st, w, t, toRaw).value, w.layer, w.proj)
  {
    var key, o := (w.layer, w.proj), Experts(w.layer, w.proj);
    var (st1, stack) := AddExpert(cfg, st, w, t).value;
    AddOnlySet(cfg, st, w, t);
    if stack.Some? {
      SameButUpdate(st.written, o, stack.value);
      SameButUpdate(st.raw, o, stack.value);
    }
  }

  lemma AddOnlySet(cfg: Config, st: State, w: Weight, t: Tensor)
    requires w.Expert? && AddExpert(cfg, st, w, t).Ok?
    ensures var st1 := AddExpert(cfg, st, w, t).value.0;
            SameBut(st.experts, st1.experts, (w.layer, w.proj)) && st1 == st.(experts := st1.experts)
  {
    var key := (w.layer, w.proj);
    SameButUpdate(st.experts, key, DictOf(st, key)[w.id := t]);
  }

  lemma SameButUpdate<K(!new), V>(m: map<K, V>, key: K, v: V)
    ensures SameBut(m, m[key := v], key) && SameBut(m, m - {key}, key) && SameBut(m, m, key)
  {
  }

  /** Before the set fills it has not been written, and its buffer then holds everything delivered for it. */
  lemma FullDict(cfg: Config, d: map<Name, Tensor>, st: State, w: Weight, t: Tensor)
    requires w.Expert? && SetInv(cfg, d, st, w.layer, w.proj) && WeightName(w) !in d
    requires cfg.n > 0 && IsRange(DictOf(st, (w.layer, w.proj))[w.id := t].Keys, cfg.n)
    ensures !Done(st, w.layer, w.proj)
    ensures var dict, d' := DictOf(st, (w.layer, w.proj))[w.id := t], d[WeightName(w) := t];
            && (forall i: nat :: i in dict <==> ExpertName(w.layer, i, w.proj) in d')
            && (forall i: nat :: i in dict ==> dict[i] == d'[ExpertName(w.layer, i, w.proj)])
  {
    var l, p := w.layer, w.proj;
    NewExpert(cfg, d, st, w, t);
    assert 0 in DictOf(st, (l, p))[w.id := t].Keys;
  }

  lemma SetClosed(cfg: Config, d: map<Name, Tensor>, st: State, l: nat, p: nat)
    requires cfg.n > 0 && (l, p) !in st.experts && AllThere(d, l, p, cfg.n)
    requires forall i: nat :: ExpertName(l, i, p) in d ==> i < cfg.n
    requires Experts(l, p) in st.written <==> Experts(l, p) !in st.raw
    requires Experts(l, p) in st.written ==> st.written[Experts(l, p)] == StackOf(d, l, p, cfg.n)
    requires Experts(l, p) in st.raw ==> st.raw[Experts(l, p)] == StackOf(d, l, p, cfg.n)
    ensures SetInv(cfg, d, st, l, p)
  {
  }

  lemma SameStack(dict: map<nat, Tensor>, d: map<Name, Tensor>, l: nat, p: nat, n: nat)
    requires IsRange(dict.Keys, n) && AllThere(d, l, p, n)
    requires forall i: nat :: i in dict ==> ExpertName(l, i, p) in d && dict[i] == d[ExpertName(l, i, p)]
    ensures Stack(dict, n) == StackOf(d, l, p, n)
  {
  }

  /** A set fills up at most once, and then with all of its experts in place. */
  lemma SetFills(cfg: Config, d: map<Name, Tensor>, st: State, w: Weight, t: Tensor, toRaw: bool)
    requires w.Expert? && SetInv(cfg, d, st, w.layer, w.proj) && WeightName(w) !in d
    requires var r := AddExpert(cfg, st, w, t); r.Ok? && r.value.1.Some?
    ensures var r := DeliverExpert(cfg, st, w, t, toRaw);
            r.Ok? && SetInv(cfg, d[WeightName(w) := t], r.value, w.layer, w.proj)
  {
    var l, p, d' := w.layer, w.proj, d[WeightName(w) := t];
    var dict := DictOf(st, (l, p))[w.id := t];
    FullDict(cfg, d, st, w, t);
    SameStack(dict, d', l, p, cfg.n);
    SetClosed(cfg, d', DeliverExpert(cfg, st, w, t, toRaw).value, l, p);
  }

  lemma OtherSets(cfg: Config, d: map<Name, Tensor>, st: State, st': State, w: Weight, t: Tensor, l: nat, p: nat)
    requires w.Expert? && SetInv(cfg, d, st, l, p) && !(l == w.layer && p == w.proj)
    requires OnlySet(st, st', w.layer, w.proj)
    ensures SetInv(cfg, d[WeightName(w) := t], st', l, p)
  {
    assert (l, p) != (w.layer, w.proj);
    assert Experts(l, p) != Experts(w.layer, w.proj);
    SetFrame(cfg, d, WeightName(w), t, st, st', l, p);
  }

  lemma AllSets(cfg: Config, d: map<Name, Tensor>, st: State, st': State, w: Weight, t: Tensor)
    requires w.Expert? && SetsInv(cfg, d, st) && OnlySet(st, st', w.layer, w.proj)
    requires SetInv(cfg, d[WeightName(w) := t], st', w.layer, w.proj)
    ensures SetsInv(cfg, d[WeightName(w) := t], st')
  {
    var d' := d[WeightName(w) := t];
    forall l, p
      ensures SetInv(cfg, d', st', l, p)
    {
      if !(l == w.layer && p == w.proj) {
        assert SetInv(cfg, d, st, l, p);
        OtherSets(cfg, d, st, st', w, t, l, p);
      }
    }
  }

  lemma ExpertKeeps(cfg: Config, d: map<Name, Tensor>, st: State, w: Weight, t: Tensor, toRaw: bool)
    requires w.Expert? && Collected(cfg, d, st) && WeightName(w) !in d
    requires DeliverExpert(cfg, st, w, t, toRaw).Ok?
    ensures Collected(cfg, d[WeightName(w) := t], DeliverExpert(cfg, st, w, t, toRaw).value)
  {
    var st' := DeliverExpert(cfg, st, w, t, toRaw).value;
    assert SetInv(cfg, d, st, w.layer, w.proj);
    OwnSet(cfg, d, st, w, t, toRaw);
    DeliverOnlySet(cfg, st, w, t, toRaw);
    OnlySetKeeps(cfg, d, st, st', w, t);
  }

  lemma OnlySetKeeps(cfg: Config, d: map<Name, Tensor>, st: State, st': State, w: Weight, t: Tensor)
    requires w.Expert? && Collected(cfg, d, st) && OnlySet(st, st', w.layer, w.proj)
    requires SetInv(cfg, d[WeightName(w) := t], st', w.layer, w.proj)
    ensures Collected(cfg, d[WeightName(w) := t], st')
  {
    AllSets(cfg, d, st, st', w, t);
    HalvesFrame(d, WeightName(w), t, st, st');
    LayersFrame(cfg, d, WeightName(w), t, st, st');
    MappedFrame(cfg, d, WeightName(w), t, st, st');
    RawExperts(st, st', w.layer, w.proj);
  }

  lemma RawExperts(st: State, st': State, l: nat, p: nat)
    requires (forall o :: o in st.raw ==> o.Experts?) && OnlySet(st, st', l, p)
    ensures forall o :: o in st'.raw ==> o.Experts?
  {
  }

  lemma OwnSet(cfg: Config, d: map<Name, Tensor>, st: State, w: Weight, t: Tensor, toRaw: bool)
    requires w.Expert? && SetInv(cfg, d, st, w.layer, w.proj) && WeightName(w) !in d
    requires DeliverExpert(cfg, st, w, t, toRaw).Ok?
    ensures SetInv(cfg, d[WeightName(w) := t], DeliverExpert(cfg, st, w, t, toRaw).value, w.layer, w.proj)
  {
    if AddExpert(cfg, st, w, t).value.1.None? {
      SetGrows(cfg, d, st, w, t);
    } else {
      SetFills(cfg, d, st, w, t, toRaw);
    }
  }

  /** No expert is refused as long as the ids of its set stay below `n`. */
  lemma ExpertAccepted(cfg: Config, d: map<Name, Tensor>, st: State, w: Weight, t: Tensor, toRaw: bool)
    requires w.Expert? && Collected(cfg, d, st) && WeightName(w) !in d
    requires w.id < cfg.n && forall i: nat :: ExpertName(w.layer, i, w.proj) in d ==> i < cfg.n
    ensures DeliverExpert(cfg, st, w, t, toRaw).Ok?
  {
    var l, p := w.layer, w.proj;
    assert SetInv(cfg, d, st, l, p);
    NewExpert(cfg, d, st, w, t);
    var dict := DictOf(st, (l, p))[w.id := t];
    if |dict| >= cfg.n {
      forall i | i in dict.Keys
        ensures i < cfg.n
      {
        assert i == w.id || ExpertName(l, i, p) in d;
      }
      assert |dict.Keys| == |dict|;
      FullSet(dict.Keys, cfg.n);
      SetFills(cfg, d, st, w, t, toRaw);
    }
  }

  // ---------------------------------------------------------------- invariant of the pairing

  /** A scale that comes again after it was used stays behind, and does no harm. */
  ghost predicate PairingInv(cfg: Config, src: map<Name, Tensor>, st: State) {
    && (forall w :: w in st.pending <==> WeightName(w) in src && w in cfg.expected && !Ready(cfg, src, WeightName(w)))
    && (forall w :: w in st.pending ==> st.pending[w] == src[WeightName(w)])
    && (forall w :: WeightName(w) !in src ==> (w in st.scales <==> ScaleName(w) in src && w != Head))
    && (forall w :: w in st.scales && WeightName(w) !in src ==> st.scales[w] == src[ScaleName(w)])
  }

  /** The state is determined by which tensors have arrived, not by their order. */
  ghost predicate Inv(cfg: Config, src: map<Name, Tensor>, st: State) {
    PairingInv(cfg, src, st) && Collected(cfg, Deliveries(cfg, src), st)
  }

  lemma CollectedElsewhere(cfg: Config, d: map<Name, Tensor>, st: State, st': State)
    requires Collected(cfg, d, st)
    requires st'.halves == st.halves && st'.experts == st.experts && st'.raw == st.raw && st'.written == st.written
    ensures Collected(cfg, d, st')
  {
    forall l, p
      ensures SetInv(cfg, d, st', l, p)
    {
      assert SetInv(cfg, d, st, l, p);
    }
    forall l
      ensures LayerInv(cfg, d, st', l)
    {
      assert LayerInv(cfg, d, st, l);
    }
  }

  lemma EmitKeeps(cfg: Config, d: map<Name, Tensor>, st: State, nm: Name, t: Tensor)
    requires Collected(cfg, d, st) && !nm.ScaleName? && nm !in d && Emit(cfg, st, nm, t).Ok?
    ensures Collected(cfg, d[nm := Float(t)], Emit(cfg, st, nm, t).value)
  {
    if nm.WeightName? && nm.w.Expert? {
      ExpertKeeps(cfg, d, st, nm.w, Float(t), false);
    } else if nm.WeightName? && IsHalf(nm.w) {
      PairKeeps(cfg, d, st, nm.w, Float(t));
    } else if nm.WeightName? && nm.w.Joined? {
      JoinedKeeps(cfg, d, st, nm.w.layer, Float(t));
    } else {
      MappedKeeps(cfg, d, st, nm, Float(t));
    }
  }

  lemma EmitElsewhere(cfg: Config, st: State, nm: Name, t: Tensor)
    requires !nm.ScaleName? && Emit(cfg, st, nm, t).Ok?
    ensures var st' := Emit(cfg, st, nm, t).value; st'.pending == st.pending && st'.scales == st.scales
  {
    if nm.WeightName? && nm.w.Expert? {
      DeliverOnlySet(cfg, st, nm.w, Float(t), false);
    }
  }

  lemma PairedKeeps(cfg: Config, d: map<Name, Tensor>, st: State, w: Weight, weight: Tensor, scale: Tensor)
    requires Collected(cfg, d, st) && WeightName(w) !in d && Paired(cfg, st, w, weight, scale).Ok?
    ensures var v := if w.Expert? then Packed(weight, scale) else Float(Dequantized(weight, scale));
            Collected(cfg, d[WeightName(w) := v], Paired(cfg, st, w, weight, scale).value)
  {
    if w.Expert? {
      ExpertKeeps(cfg, d, st, w, Packed(weight, scale), true);
    } else {
      EmitKeeps(cfg, d, st, WeightName(w), Dequantized(weight, scale));
    }
  }

  lemma PairedElsewhere(cfg: Config, st: State, w: Weight, weight: Tensor, scale: Tensor)
    requires Paired(cfg, st, w, weight, scale).Ok?
    ensures var st' := Paired(cfg, st, w, weight, scale).value; st'.pending == st.pending && st'.scales == st.scales
  {
    if w.Expert? {
      DeliverOnlySet(cfg, st, w, Packed(weight, scale), true);
    } else {
      EmitElsewhere(cfg, st, WeightName(w), Dequantized(weight, scale));
    }
  }

  /** What an arrival makes ready: itself, the weight it scales, or nothing yet. */
  function MadeReady(cfg: Config, src: map<Name, Tensor>, nm: Name): Option<Name> {
    match nm
    case OtherName(_) => Some(nm)
    case WeightName(w) =>
      if w !in cfg.expected || (w != Head && ScaleName(w) in src) then Some(nm) else None
    case ScaleName(w) =>
      if w != Head && w in cfg.expected && WeightName(w) in src then Some(WeightName(w)) else None
  }

  lemma DeliveriesGrow(cfg: Config, src: map<Name, Tensor>, nm: Name, t: Tensor)
    requires nm !in src && (nm.ScaleName? ==> nm.w in cfg.expected)
    ensures var src' := src[nm := t];
            match MadeReady(cfg, src, nm)
            case None => Deliveries(cfg, src') == Deliveries(cfg, src)
            case Some(it) =>
              && it !in Deliveries(cfg, src) && Ready(cfg, src', it)
              && Deliveries(cfg, src') == Deliveries(cfg, src)[it := ValueOf(cfg, src', it)]
  {
    var src' := src[nm := t];
    var d, d' := Deliveries(cfg, src), Deliveries(cfg, src');
    var made := MadeReady(cfg, src, nm);
    forall x
      ensures x in d' <==> x in d || made == Some(x)
      ensures x in d ==> x in d' && d'[x] == d[x] && made != Some(x)
    {
      assert Ready(cfg, src', x) <==> Ready(cfg, src, x) || made == Some(x);
    }
  }

  // ---- one arrival

  lemma ScaleWaits(cfg: Config, src: map<Name, Tensor>, st: State, w: Weight, t: Tensor)
    requires Inv(cfg, src, st) && ScaleName(w) !in src && w in cfg.expected && MadeReady(cfg, src, ScaleName(w)).None?
    ensures var r := Step(cfg, st, ScaleName(w), t); r.Ok? && Inv(cfg, src[ScaleName(w) := t], r.value)
  {
    DeliveriesGrow(cfg, src, ScaleName(w), t);
    PairingScaleWaits(cfg, src, st, w, t);
    CollectedElsewhere(cfg, Deliveries(cfg, src), st, Step(cfg, st, ScaleName(w), t).value);
  }

  lemma PairingScaleWaits(cfg: Config, src: map<Name, Tensor>, st: State, w: Weight, t: Tensor)
    requires PairingInv(cfg, src, st) && ScaleName(w) !in src && w in cfg.expected
    requires MadeReady(cfg, src, ScaleName(w)).None?
    ensures var st' := if w == Head then st else st.(scales := st.scales[w := t]);
            Step(cfg, st, ScaleName(w), t) == Ok(st') && PairingInv(cfg, src[ScaleName(w) := t], st')
  {
    assert w in st.pending ==> WeightName(w) in src;
  }

  lemma WeightWaits(cfg: Config, src: map<Name, Tensor>, st: State, w: Weight, t: Tensor)
    requires Inv(cfg, src, st) && WeightName(w) !in src && MadeReady(cfg, src, WeightName(w)).None?
    ensures var r := Step(cfg, st, WeightName(w), t); r.Ok? && Inv(cfg, src[WeightName(w) := t], r.value)
  {
    DeliveriesGrow(cfg, src, WeightName(w), t);
    PairingWeightWaits(cfg, src, st, w, t);
    CollectedElsewhere(cfg, Deliveries(cfg, src), st, Step(cfg, st, WeightName(w), t).value);
  }

  lemma PairingWeightWaits(cfg: Config, src: map<Name, Tensor>, st: State, w: Weight, t: Tensor)
    requires PairingInv(cfg, src, st) && WeightName(w) !in src && MadeReady(cfg, src, WeightName(w)).None?
    ensures var st' := st.(pending := st.pending[w := t]);
            Step(cfg, st, WeightName(w), t) == Ok(st') && PairingInv(cfg, src[WeightName(w) := t], st')
  {
    assert w !in st.scales;
  }

  lemma PairingAfterScale(cfg: Config, src: map<Name, Tensor>, st: State, st': State, w: Weight, t: Tensor)
    requires PairingInv(cfg, src, st) && ScaleName(w) !in src && MadeReady(cfg, src, ScaleName(w)).Some?
    requires st'.pending == st.pending - {w} && st'.scales == st.scales - {w}
    ensures w in st.pending && st.pending[w] == src[WeightName(w)]
    ensures PairingInv(cfg, src[ScaleName(w) := t], st')
  {
  }

  lemma ScaleCompletes(cfg: Config, src: map<Name, Tensor>, st: State, w: Weight, t: Tensor)
    requires Inv(cfg, src, st) && ScaleName(w) !in src && MadeReady(cfg, src, ScaleName(w)).Some?
    requires Step(cfg, st, ScaleName(w), t).Ok?
    ensures Inv(cfg, src[ScaleName(w) := t], Step(cfg, st, ScaleName(w), t).value)
  {
    DeliveriesGrow(cfg, src, ScaleName(w), t);
    var st1 := st.(pending := st.pending - {w}, scales := st.scales - {w});
    PairingAfterScale(cfg, src, st, st1, w, t);
    var st', d := Paired(cfg, st1, w, st.pending[w], t).value, Deliveries(cfg, src);
    assert Step(cfg, st, ScaleName(w), t) == Paired(cfg, st1, w, st.pending[w], t);
    CollectedElsewhere(cfg, d, st, st1);
    PairedKeeps(cfg, d, st1, w, st.pending[w], t);
    PairedElsewhere(cfg, st1, w, st.pending[w], t);
    PairingAfterScale(cfg, src, st, st', w, t);
  }

  lemma PairingAfterWeight(cfg: Config, src: map<Name, Tensor>, st: State, st': State, w: Weight, t: Tensor)
    requires PairingInv(cfg, src, st) && WeightName(w) !in src && MadeReady(cfg, src, WeightName(w)).Some?
    requires st'.pending == st.pending
    requires st'.scales == if w in cfg.expected then st.scales - {w} else st.scales
    requires forall v :: ScaleName(v) in src ==> v in cfg.expected
    ensures w in cfg.expected ==> w in st.scales && st.scales[w] == src[ScaleName(w)]
    ensures PairingInv(cfg, src[WeightName(w) := t], st')
  {
  }

  lemma ScaledWeightCompletes(cfg: Config, src: map<Name, Tensor>, st: State, w: Weight, t: Tensor)
    requires Inv(cfg, src, st) && WeightName(w) !in src && MadeReady(cfg, src, WeightName(w)).Some? && w in cfg.expected
    requires forall v :: ScaleName(v) in src ==> v in cfg.expected
    requires Step(cfg, st, WeightName(w), t).Ok?
    ensures Inv(cfg, src[WeightName(w) := t], Step(cfg, st, WeightName(w), t).value)
  {
    DeliveriesGrow(cfg, src, WeightName(w), t);
    var st1 := st.(scales := st.scales - {w});
    PairingAfterWeight(cfg, src, st, st1, w, t);
    var st', d := Paired(cfg, st1, w, t, st.scales[w]).value, Deliveries(cfg, src);
    assert Step(cfg, st, WeightName(w), t) == Paired(cfg, st1, w, t, st.scales[w]);
    CollectedElsewhere(cfg, d, st, st1);
    PairedKeeps(cfg, d, st1, w, t, st.scales[w]);
    PairedElsewhere(cfg, st1, w, t, st.scales[w]);
    PairingAfterWeight(cfg, src, st, st', w, t);
  }

  lemma WeightCompletes(cfg: Config, src: map<Name, Tensor>, st: State, w: Weight, t: Tensor)
    requires Inv(cfg, src, st) && WeightName(w) !in src && MadeReady(cfg, src, WeightName(w)).Some?
    requires forall v :: ScaleName(v) in src ==> v in cfg.expected
    requires Step(cfg, st, WeightName(w), t).Ok?
    ensures Inv(cfg, src[WeightName(w) := t], Step(cfg, st, WeightName(w), t).value)
  {
    if w in cfg.expected {
      ScaledWeightCompletes(cfg, src, st, w, t);
    } else {
      DeliveriesGrow(cfg, src, WeightName(w), t);
      EmitKeeps(cfg, Deliveries(cfg, src), st, WeightName(w), t);
      EmitElsewhere(cfg, st, WeightName(w), t);
      PairingAfterWeight(cfg, src, st, Emit(cfg, st, WeightName(w), t).value, w, t);
    }
  }

  lemma OtherArrives(cfg: Config, src: map<Name, Tensor>, st: State, nm: Name, t: Tensor)
    requires Inv(cfg, src, st) && nm.OtherName? && nm !in src && Step(cfg, st, nm, t).Ok?
    ensures Inv(cfg, src[nm := t], Step(cfg, st, nm, t).value)
  {
    DeliveriesGrow(cfg, src, nm, t);
    EmitKeeps(cfg, Deliveries(cfg, src), st, nm, t);
    EmitElsewhere(cfg, st, nm, t);
  }

  /** What arrives is new, or a scale again: the same one, or one whose weight is not there. */
  predicate Harmless(src: map<Name, Tensor>, nm: Name, t: Tensor) {
    nm in src ==> nm.ScaleName? && (WeightName(nm.w) in src ==> src[nm] == t)
  }

  lemma SameDeliveries(cfg: Config, src: map<Name, Tensor>, w: Weight, t: Tensor)
    requires ScaleName(w) in src && (WeightName(w) in src ==> src[ScaleName(w)] == t)
    ensures Deliveries(cfg, src[ScaleName(w) := t]) == Deliveries(cfg, src)
  {
    var src' := src[ScaleName(w) := t];
    forall x
      ensures Ready(cfg, src', x) <==> Ready(cfg, src, x)
      ensures Ready(cfg, src, x) ==> ValueOf(cfg, src', x) == ValueOf(cfg, src, x)
    {
    }
  }

  lemma ScaleAgain(cfg: Config, src: map<Name, Tensor>, st: State, w: Weight, t: Tensor)
    requires Inv(cfg, src, st) && ScaleName(w) in src && Harmless(src, ScaleName(w), t)
    ensures var r := Step(cfg, st, ScaleName(w), t); r.Ok? && Inv(cfg, src[ScaleName(w) := t], r.value)
  {
    SameDeliveries(cfg, src, w, t);
    PairingScaleAgain(cfg, src, st, w, t);
    CollectedElsewhere(cfg, Deliveries(cfg, src), st, Step(cfg, st, ScaleName(w), t).value);
  }

  lemma PairingScaleAgain(cfg: Config, src: map<Name, Tensor>, st: State, w: Weight, t: Tensor)
    requires PairingInv(cfg, src, st) && ScaleName(w) in src && Harmless(src, ScaleName(w), t)
    ensures var st' := if w == Head then st else st.(scales := st.scales[w := t]);
            Step(cfg, st, ScaleName(w), t) == Ok(st') && PairingInv(cfg, src[ScaleName(w) := t], st')
  {
    assert w in st.pending ==> w == Head;
  }

  lemma StepKeeps(cfg: Config, src: map<Name, Tensor>, st: State, nm: Name, t: Tensor)
    requires Inv(cfg, src, st) && Harmless(src, nm, t) && (nm.ScaleName? ==> nm.w in cfg.expected)
    requires forall v :: ScaleName(v) in src ==> v in cfg.expected
    requires Step(cfg, st, nm, t).Ok?
    ensures Inv(cfg, src[nm := t], Step(cfg, st, nm, t).value)
  {
    match nm
    case OtherName(_) => OtherArrives(cfg, src, st, nm, t);
    case ScaleName(w) =>
      if nm in src {
        ScaleAgain(cfg, src, st, w, t);
      } else if MadeReady(cfg, src, nm).None? {
        ScaleWaits(cfg, src, st, w, t);
      } else {
        ScaleCompletes(cfg, src, st, w, t);
      }
    case WeightName(w) =>
      if MadeReady(cfg, src, nm).None? {
        WeightWaits(cfg, src, st, w, t);
      } else {
        WeightCompletes(cfg, src, st, w, t);
      }
  }

  /** The tensor map knows the name, and an expert's id is one of the `n`. */
  predicate Fits(cfg: Config, nm: Name) {
    (IsMapped(nm) ==> nm in cfg.supported) && (nm.WeightName? && nm.w.Expert? ==> nm.w.id < cfg.n)
  }

  /** No projection comes both joined and in halves. */
  ghost predicate OneProjection(names: set<Name>) {
    forall l :: !(WeightName(EProj(l)) in names && WeightName(HProj(l)) in names && JoinedName(l) in names)
  }

  ghost predicate Acceptable(cfg: Config, names: set<Name>) {
    (forall x :: x in names ==> Fits(cfg, x)) && OneProjection(names)
  }

  lemma AcceptableFewer(cfg: Config, names: set<Name>, fewer: set<Name>)
    requires Acceptable(cfg, names) && fewer <= names
    ensures Acceptable(cfg, fewer)
  {
  }

  lemma EmitAccepted(cfg: Config, d: map<Name, Tensor>, st: State, nm: Name, t: Tensor)
    requires Collected(cfg, d, st) && !nm.ScaleName? && nm !in d && Acceptable(cfg, d.Keys + {nm})
    ensures Emit(cfg, st, nm, t).Ok?
  {
    assert Fits(cfg, nm);
    if nm.WeightName? && nm.w.Expert? {
      ExpertAccepted(cfg, d, st, nm.w, Float(t), false);
    } else if nm.WeightName? && IsHalf(nm.w) {
      PairAccepted(cfg, d, st, nm.w, Float(t));
    } else if nm.WeightName? && nm.w.Joined? {
      assert LayerInv(cfg, d, st, nm.w.layer);
    } else {
      MappedWritten(cfg, d, st, nm, Float(t));
    }
  }

  lemma PairedAccepted(cfg: Config, d: map<Name, Tensor>, st: State, w: Weight, weight: Tensor, scale: Tensor)
    requires Collected(cfg, d, st) && WeightName(w) !in d && Acceptable(cfg, d.Keys + {WeightName(w)})
    ensures Paired(cfg, st, w, weight, scale).Ok?
  {
    assert Fits(cfg, WeightName(w));
    if w.Expert? {
      ExpertAccepted(cfg, d, st, w, Packed(weight, scale), true);
    } else {
      EmitAccepted(cfg, d, st, WeightName(w), Dequantized(weight, scale));
    }
  }

  lemma StepAccepted(cfg: Config, src: map<Name, Tensor>, st: State, nm: Name, t: Tensor)
    requires Inv(cfg, src, st) && Harmless(src, nm, t) && (nm.ScaleName? ==> nm.w in cfg.expected)
    requires Acceptable(cfg, src.Keys + {nm})
    ensures Step(cfg, st, nm, t).Ok?
  {
    if nm in src {
      ScaleAgain(cfg, src, st, nm.w, t);
    } else {
      NewAccepted(cfg, src, st, nm, t);
    }
  }

  lemma NewAccepted(cfg: Config, src: map<Name, Tensor>, st: State, nm: Name, t: Tensor)
    requires Inv(cfg, src, st) && nm !in src && (nm.ScaleName? ==> nm.w in cfg.expected)
    requires Acceptable(cfg, src.Keys + {nm})
    ensures Step(cfg, st, nm, t).Ok?
  {
    var d := Deliveries(cfg, src);
    DeliveriesGrow(cfg, src, nm, t);
    match nm
    case OtherName(_) => DeliveryAccepted(cfg, src, st, nm, nm, t);
    case WeightName(w) =>
      if w !in cfg.expected {
        DeliveryAccepted(cfg, src, st, nm, nm, t);
      } else if w in st.scales {
        AcceptableFewer(cfg, src.Keys + {nm}, d.Keys + {nm});
        var st1 := st.(scales := st.scales - {w});
        CollectedElsewhere(cfg, d, st, st1);
        PairedAccepted(cfg, d, st1, w, t, st.scales[w]);
      }
    case ScaleName(w) =>
      if w != Head && w in st.pending {
        AcceptableFewer(cfg, src.Keys + {nm}, d.Keys + {WeightName(w)});
        var st1 := st.(pending := st.pending - {w}, scales := st.scales - {w});
        CollectedElsewhere(cfg, d, st, st1);
        PairedAccepted(cfg, d, st1, w, st.pending[w], t);
      }
  }

  lemma DeliveryAccepted(cfg: Config, src: map<Name, Tensor>, st: State, nm: Name, it: Name, t: Tensor)
    requires Inv(cfg, src, st) && Acceptable(cfg, src.Keys + {nm}) && it in src.Keys + {nm}
    requires !it.ScaleName? && it !in Deliveries(cfg, src)
    ensures Emit(cfg, st, it, t).Ok?
  {
    var d := Deliveries(cfg, src);
    AcceptableFewer(cfg, src.Keys + {nm}, d.Keys + {it});
    EmitAccepted(cfg, d, st, it, t);
  }

  // ---------------------------------------------------------------- whole runs

  lemma NamesSnoc(s: seq<(Name, Tensor)>, last: (Name, Tensor))
    ensures NamesOf(s + [last]) == NamesOf(s) + {last.0}
  {
    var all := s + [last];
    forall x
      ensures x in NamesOf(all) <==> x in NamesOf(s) + {last.0}
    {
      if x in NamesOf(s) {
        var i :| 0 <= i < |s| && s[i].0 == x;
        assert all[i].0 == x;
      }
      assert all[|s|].0 == last.0;
    }
  }

  function SrcOf(arrivals: seq<(Name, Tensor)>): (src: map<Name, Tensor>)
    ensures src.Keys == NamesOf(arrivals)
  {
    if arrivals == [] then map[]
    else
      var n := |arrivals| - 1;
      assert arrivals == arrivals[..n] + [arrivals[n]];
      NamesSnoc(arrivals[..n], arrivals[n]);
      SrcOf(arrivals[..n])[arrivals[n].0 := arrivals[n].1]
  }

  /** No name comes twice, but for scales: the same tensor again, or a scale whose weight does not come. */
  ghost predicate Clear(arrivals: seq<(Name, Tensor)>) {
    forall i, j :: 0 <= i < j < |arrivals| && arrivals[i].0 == arrivals[j].0 ==>
      arrivals[i].0.ScaleName? && (arrivals[i] == arrivals[j] || WeightName(arrivals[i].0.w) !in NamesOf(arrivals))
  }

  /** The arrivals of one export: only names the index lists, without a clash. */
  ghost predicate Arrivals(selected: set<Name>, arrivals: seq<(Name, Tensor)>) {
    Clear(arrivals) && NamesOf(arrivals) <= selected
  }

  lemma EmptyInv(cfg: Config)
    ensures Inv(cfg, map[], EMPTY)
  {
    assert Deliveries(cfg, map[]) == map[];
  }

  lemma {:induction false} SrcFrom(arrivals: seq<(Name, Tensor)>, nm: Name) returns (i: nat)
    requires nm in SrcOf(arrivals)
    ensures i < |arrivals| && arrivals[i] == (nm, SrcOf(arrivals)[nm])
    decreases |arrivals|
  {
    i := |arrivals| - 1;
    if arrivals[i].0 != nm {
      i := SrcFrom(arrivals[..i], nm);
    }
  }

  lemma ClearInit(arrivals: seq<(Name, Tensor)>)
    requires Clear(arrivals) && arrivals != []
    ensures Clear(arrivals[..|arrivals| - 1]) && NamesOf(arrivals[..|arrivals| - 1]) <= NamesOf(arrivals)
  {
    var init := arrivals[..|arrivals| - 1];
    assert arrivals == init + [arrivals[|arrivals| - 1]];
    NamesSnoc(init, arrivals[|arrivals| - 1]);
  }

  lemma LastArrival(selected: set<Name>, arrivals: seq<(Name, Tensor)>)
    requires Arrivals(selected, arrivals) && arrivals != []
    ensures var n := |arrivals| - 1;
            && Arrivals(selected, arrivals[..n]) && arrivals[n].0 in selected
            && Harmless(SrcOf(arrivals[..n]), arrivals[n].0, arrivals[n].1)
            && SrcOf(arrivals) == SrcOf(arrivals[..n])[arrivals[n].0 := arrivals[n].1]
  {
    var n := |arrivals| - 1;
    ClearInit(arrivals);
    assert arrivals[n].0 in NamesOf(arrivals);
    if arrivals[n].0 in SrcOf(arrivals[..n]) {
      var i := SrcFrom(arrivals[..n], arrivals[n].0);
      assert arrivals[i] == arrivals[..n][i];
    }
  }

  lemma {:induction false} RunKeeps(cfg: Config, selected: set<Name>, arrivals: seq<(Name, Tensor)>)
    requires Arrivals(selected, arrivals) && cfg.expected == ExpectedScales(selected)
    requires Run(cfg, arrivals).Ok?
    ensures Inv(cfg, SrcOf(arrivals), Run(cfg, arrivals).value)
    decreases |arrivals|
  {
    if arrivals == [] {
      EmptyInv(cfg);
    } else {
      var n := |arrivals| - 1;
      LastArrival(selected, arrivals);
      RunKeeps(cfg, selected, arrivals[..n]);
      StepKeeps(cfg, SrcOf(arrivals[..n]), Run(cfg, arrivals[..n]).value, arrivals[n].0, arrivals[n].1);
    }
  }

  lemma {:induction false} RunAccepted(cfg: Config, selected: set<Name>, arrivals: seq<(Name, Tensor)>)
    requires Arrivals(selected, arrivals) && cfg.expected == ExpectedScales(selected)
    requires Acceptable(cfg, selected)
    ensures Run(cfg, arrivals).Ok?
    decreases |arrivals|
  {
    if arrivals != [] {
      var n := |arrivals| - 1;
      LastArrival(selected, arrivals);
      RunAccepted(cfg, selected, arrivals[..n]);
      RunKeeps(cfg, selected, arrivals[..n]);
      AcceptableFewer(cfg, selected, SrcOf(arrivals[..n]).Keys + {arrivals[n].0});
      StepAccepted(cfg, SrcOf(arrivals[..n]), Run(cfg, arrivals[..n]).value, arrivals[n].0, arrivals[n].1);
    }
  }
}
