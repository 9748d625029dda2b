/** The converter object itself: its dictionaries, changed by each arriving tensor. */
module MtpConverter {

  import opened Wrappers
  import opened MtpExport
  import opened MtpOrder

  function WriteOut(st: State, out: Option<(Out, Tensor)>): Outcome<State> {
    if out.None? then Ok(st) else Write(st, out.value.0, out.value.1)
  }

  lemma {:induction false} RunStopsAtError(cfg: Config, arrivals: seq<(Name, Tensor)>, k: nat)
    requires k <= |arrivals| && Run(cfg, arrivals[..k]).Err?
    ensures Run(cfg, arrivals) == Run(cfg, arrivals[..k])
    decreases |arrivals|
  {
    if k < |arrivals| {
      var n := |arrivals| - 1;
      assert arrivals[..n][..k] == arrivals[..k];
      RunStopsAtError(cfg, arrivals[..n], k);
    } else {
      assert arrivals[..k] == arrivals;
    }
  }

  lemma RunNext(cfg: Config, arrivals: seq<(Name, Tensor)>, k: nat)
    requires k < |arrivals| && Run(cfg, arrivals[..k]).Ok?
    ensures Run(cfg, arrivals[..k + 1]) == Step(cfg, Run(cfg, arrivals[..k]).value, arrivals[k].0, arrivals[k].1)
    ensures NamesOf(arrivals[..k + 1]) == NamesOf(arrivals[..k]) + {arrivals[k].0}
  {
    var next := arrivals[..k + 1];
    assert next[..k] == arrivals[..k] && next[k] == arrivals[k];
    assert next == arrivals[..k] + [arrivals[k]];
    NamesSnoc(arrivals[..k], arrivals[k]);
  }

  class Converter {
    const n: int
    const supported: set<Name>
    var expected: set<Weight>
    var pending: map<Weight, Tensor>
    var scales: map<Weight, Tensor>
    var halves: map<Weight, Tensor>
    var experts: map<(nat, nat), map<nat, Tensor>>
    var raw: map<Out, Tensor>
    var written: map<Out, Tensor>

    ghost function Cfg(): Config
      reads this
    {
      Config(n, expected, supported)
    }

    ghost function Abs(): State
      reads this
    {
      State(pending, scales, halves, experts, raw, written)
    }

    constructor (n: int, supported: set<Name>)
      ensures this.n == n && this.supported == supported && expected == {} && Abs() == EMPTY
    {
      this.n, this.supported, this.expected := n, supported, {};
      pending, scales, halves, experts, raw, written := map[], map[], map[], map[], map[], map[];
    }

    /** Buffers one expert; the stack of a full set is taken out and returned. */
    method BufferExpert(w: Weight, t: Tensor) returns (r: Outcome<Option<Tensor>>)
      requires w.Expert?
      modifies `experts
      ensures match r
              case Ok(stack) => AddExpert(Cfg(), old(Abs()), w, t) == Ok((Abs(), stack))
              case Err(e) => AddExpert(Cfg(), old(Abs()), w, t) == Err(e)
    {
      var key := (w.layer, w.proj);
      var dict := if key in experts then experts[key] else map[];
      dict := dict[w.id := t];
      experts := experts[key := dict];
      if n <= 0 || |dict| < n {
        return Ok(None);
      }
      experts := experts - {key};
      assert experts == old(experts) - {key};
      if !IsRange(dict.Keys, n) {
        return Err(IncompleteExperts);
      }
      return Ok(Some(Stack(dict, n)));
    }

    /** One expert; a full set is returned for writing, or kept aside when packed. */
    method CollectExpert(w: Weight, t: Tensor, packed: bool) returns (r: Outcome<Option<(Out, Tensor)>>)
      requires w.Expert?
      modifies `experts, `raw
      ensures match r
              case Ok(out) => WriteOut(Abs(), out) == DeliverExpert(Cfg(), old(Abs()), w, t, packed)
              case Err(e) => DeliverExpert(Cfg(), old(Abs()), w, t, packed) == Err(e)
    {
      var stack := BufferExpert(w, t);
      if stack.Err? {
        return Err(stack.error);
      }
      if stack.value.None? {
        return Ok(None);
      }
      if packed {
        raw := raw[Experts(w.layer, w.proj) := stack.value.value];
        return Ok(None);
      }
      return Ok(Some((Experts(w.layer, w.proj), stack.value.value)));
    }

    /** Keeps one projection half until the other is there. */
    method PairHalf(w: Weight, t: Tensor) returns (out: Option<(Out, Tensor)>)
      requires IsHalf(w)
      modifies `halves
      ensures WriteOut(Abs(), out) == Pair(old(Abs()), w, t)
    {
      halves := halves[w := t];
      var e, h := EProj(w.layer), HProj(w.layer);
      if e !in halves || h !in halves {
        return None;
      }
      out := Some((EhProj(w.layer), Columns(halves[e], halves[h])));
      halves := halves - {e} - {h};
      assert halves == old(halves) - {w, OtherHalf(w)};
    }

    /** The part after weights have met their scales. */
    method Place(nm: Name, t: Tensor) returns (r: Outcome<Option<(Out, Tensor)>>)
      requires !nm.ScaleName?
      modifies `experts, `raw, `halves
      ensures match r
              case Ok(out) => WriteOut(Abs(), out) == Emit(Cfg(), old(Abs()), nm, t)
              case Err(e) => Emit(Cfg(), old(Abs()), nm, t) == Err(e)
    {
      if nm.WeightName? && IsHalf(nm.w) {
        var out := PairHalf(nm.w, Float(t));
        return Ok(out);
      }
      if nm.WeightName? && nm.w.Expert? {
        r := CollectExpert(nm.w, Float(t), false);
        return;
      }
      if nm !in supported {
        return Err(Unsupported);
      }
      return Ok(Some((OutOf(nm), Float(t))));
    }

    method PlacePaired(w: Weight, weight: Tensor, scale: Tensor) returns (r: Outcome<Option<(Out, Tensor)>>)
      modifies `experts, `raw, `halves
      ensures match r
              case Ok(out) => WriteOut(Abs(), out) == Paired(Cfg(), old(Abs()), w, weight, scale)
              case Err(e) => Paired(Cfg(), old(Abs()), w, weight, scale) == Err(e)
    {
      if w.Expert? {
        r := CollectExpert(w, Packed(weight, scale), true);
      } else {
        r := Place(WeightName(w), Dequantized(weight, scale));
      }
    }

    /** One source tensor; at most one output tensor comes back to be written. */
    method ModifyTensors(nm: Name, t: Tensor) returns (r: Outcome<Option<(Out, Tensor)>>)
      modifies `pending, `scales, `experts, `raw, `halves
      ensures match r
              case Ok(out) => WriteOut(Abs(), out) == Step(Cfg(), old(Abs()), nm, t)
              case Err(e) => Step(Cfg(), old(Abs()), nm, t) == Err(e)
    {
      match nm {
        case ScaleName(w) =>
          if w == Head {
            return Ok(None);
          }
          scales := scales[w := t];
          if w !in pending {
            return Ok(None);
          }
          var weight := pending[w];
          pending, scales := pending - {w}, scales - {w};
          assert scales == old(scales) - {w};
          r := PlacePaired(w, weight, t);
        case WeightName(w) =>
          if w !in expected {
            r := Place(nm, t);
            return;
          }
          if w !in scales {
            pending := pending[w := t];
            return Ok(None);
          }
          var scale := scales[w];
          scales := scales - {w};
          r := PlacePaired(w, t, scale);
        case OtherName(_) =>
          r := Place(nm, t);
      }
    }

    /** The writer refuses a name it already has. */
    method AddTensor(o: Out, t: Tensor) returns (r: Outcome<()>)
      modifies `written
      ensures match r
              case Ok(_) => Write(old(Abs()), o, t) == Ok(Abs())
              case Err(e) => Write(old(Abs()), o, t) == Err(e)
    {
      if o in written {
        return Err(Duplicate);
      }
      written := written[o := t];
      return Ok(());
    }

    /** One turn of the conversion loop. */
    method Convert(nm: Name, t: Tensor) returns (r: Outcome<()>)
      modifies `pending, `scales, `experts, `raw, `halves, `written
      ensures match r
              case Ok(_) => Step(Cfg(), old(Abs()), nm, t) == Ok(Abs())
              case Err(e) => Step(Cfg(), old(Abs()), nm, t) == Err(e)
    {
      var out := ModifyTensors(nm, t);
      if out.Err? {
        return Err(out.error);
      }
      r := Ok(());
      if out.value.Some? {
        r := AddTensor(out.value.value.0, out.value.value.1);
      }
    }

    /** What is checked once everything has been converted. */
    method Finish() returns (r: Outcome<Output>)
      ensures r == Close(Abs())
    {
      if raw.Keys * written.Keys != {} {
        return Err(Duplicate);
      }
      if halves != map[] {
        return Err(UnpairedHalves);
      }
      if experts != map[] {
        return Err(LeftoverExperts);
      }
      if pending != map[] {
        return Err(UnpairedWeights);
      }
      return Ok(Output(written, raw));
    }

    /** The whole export of the listed tensors, as they come out of the shards. */
    method PrepareTensors(selected: set<Name>, arrivals: seq<(Name, Tensor)>) returns (r: Outcome<Output>)
      requires Abs() == EMPTY
      modifies this
      ensures r == Export(n, supported, selected, arrivals)
    {
      expected := set nm | nm in selected && nm.ScaleName? :: nm.w;
      ghost var cfg := ConfigOf(n, supported, selected);
      var seen: set<Name> := {};
      for k := 0 to |arrivals|
        invariant Cfg() == cfg && Run(cfg, arrivals[..k]) == Ok(Abs()) && seen == NamesOf(arrivals[..k])
      {
        RunNext(cfg, arrivals, k);
        seen := seen + {arrivals[k].0};
        var step := Convert(arrivals[k].0, arrivals[k].1);
        if step.Err? {
          RunStopsAtError(cfg, arrivals, k + 1);
          return Err(step.error);
        }
      }
      assert arrivals[..|arrivals|] == arrivals;
      if selected - seen != {} {
        return Err(MissingNames);
      }
      r := Finish();
    }
  }
}
