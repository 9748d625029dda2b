/** MTP exports in which names come more than once: exactly when the order of arrival does not matter,
    for every list of arrivals. */
module MtpRepeats {

  import opened Wrappers
  import opened MtpExport
  import opened MtpOrder

  // ---------------------------------------------------------------- rearranging

  lemma {:induction false} Rest<T>(s: seq<T>, xs: seq<T>) returns (rest: seq<T>)
    requires multiset(xs) <= multiset(s)
    ensures multiset(rest + xs) == multiset(s)
    decreases |xs|
  {
    if xs == [] {
      rest := s;
      assert rest + xs == s;
    } else {
      var n := |xs| - 1;
      assert xs == xs[..n] + [xs[n]];
      var more := Rest(s, xs[..n]);
      assert multiset(s)[xs[n]] == multiset(more)[xs[n]] + multiset(xs[..n])[xs[n]];
      assert multiset(xs)[xs[n]] == multiset(xs[..n])[xs[n]] + 1;
      assert xs[n] in multiset(more);
      var k :| 0 <= k < |more| && more[k] == xs[n];
      rest := more[..k] + more[k + 1..];
      assert more == more[..k] + [more[k]] + more[k + 1..];
    }
  }

  lemma RunSnoc(cfg: Config, a: seq<(Name, Tensor)>, e: (Name, Tensor))
    ensures Run(cfg, a + [e]) == if Run(cfg, a).Err? then Run(cfg, a) else Step(cfg, Run(cfg, a).value, e.0, e.1)
  {
    assert (a + [e])[..|a|] == a;
  }

  lemma ExportOf(n: int, supported: set<Name>, selected: set<Name>, a: seq<(Name, Tensor)>)
    ensures var r, e := Run(ConfigOf(n, supported, selected), a), Export(n, supported, selected, a);
            && (r.Err? ==> e.Err?)
            && (r.Ok? && Close(r.value).Err? ==> e.Err?)
            && (e.Ok? ==> r.Ok? && e == Close(r.value) && selected <= NamesOf(a))
            && (r.Ok? && selected <= NamesOf(a) ==> e == Close(r.value))
  {
    if selected <= NamesOf(a) {
      assert selected - NamesOf(a) == {};
    } else {
      var x :| x in selected && x !in NamesOf(a);
      assert x in selected - NamesOf(a);
    }
  }

  // ---------------------------------------------------------------- a weight that comes twice

  predicate Fails(r: Outcome<State>) {
    r.Err? || Close(r.value).Err?
  }

  lemma PendingFails(r: Outcome<State>, w: Weight)
    requires r.Ok? ==> w in r.value.pending
    ensures Fails(r)
  {
  }

  lemma TwiceScaled(cfg: Config, st: State, w: Weight, t: Tensor, u: Tensor)
    requires w in cfg.expected && Step(cfg, st, WeightName(w), t).Ok?
    ensures Fails(Step(cfg, Step(cfg, st, WeightName(w), t).value, WeightName(w), u))
  {
    var st' := Step(cfg, st, WeightName(w), t).value;
    StepPending(cfg, st, WeightName(w), t);
    if Step(cfg, st', WeightName(w), u).Ok? {
      StepPending(cfg, st', WeightName(w), u);
    }
    PendingFails(Step(cfg, st', WeightName(w), u), w);
  }

  lemma TwiceHalf(st: State, w: Weight, t: Tensor, u: Tensor)
    requires IsHalf(w) && Pair(st, w, t).Ok?
    ensures Fails(Pair(Pair(st, w, t).value, w, u))
  {
    var st' := Pair(st, w, t).value;
    assert OtherHalf(w) !in st'.halves;
    assert w in Pair(st', w, u).value.halves;
  }

  /** An expert whose set is not full waits. */
  lemma Buffered(cfg: Config, st: State, w: Weight, t: Tensor, toRaw: bool, dict: map<nat, Tensor>)
    requires w.Expert? && dict == DictOf(st, (w.layer, w.proj))[w.id := t] && (cfg.n <= 0 || |dict| < cfg.n)
    ensures DeliverExpert(cfg, st, w, t, toRaw) == Ok(st.(experts := st.experts[(w.layer, w.proj) := dict]))
    ensures Fails(DeliverExpert(cfg, st, w, t, toRaw))
  {
    assert (w.layer, w.proj) in st.experts[(w.layer, w.proj) := dict];
  }

  lemma Filled(cfg: Config, st: State, w: Weight, t: Tensor, dict: map<nat, Tensor>)
    requires w.Expert? && dict == DictOf(st, (w.layer, w.proj))[w.id := t] && 0 < cfg.n <= |dict|
    ensures var r := DeliverExpert(cfg, st, w, t, false);
            && (Experts(w.layer, w.proj) in st.written ==> r.Err?)
            && (r.Ok? ==> Experts(w.layer, w.proj) in r.value.written && DictOf(r.value, (w.layer, w.proj)) == map[])
  {
  }

  lemma TwiceExpert(cfg: Config, st: State, w: Weight, t: Tensor, u: Tensor)
    requires w.Expert? && DeliverExpert(cfg, st, w, t, false).Ok?
    ensures Fails(DeliverExpert(cfg, DeliverExpert(cfg, st, w, t, false).value, w, u, false))
  {
    var key, st' := (w.layer, w.proj), DeliverExpert(cfg, st, w, t, false).value;
    var dict := DictOf(st, key)[w.id := t];
    if cfg.n <= 0 || |dict| < cfg.n {
      Buffered(cfg, st, w, t, false, dict);
      SameSize(dict, w.id, u);
      Buffered(cfg, st', w, u, false, dict[w.id := u]);
    } else {
      Filled(cfg, st, w, t, dict);
      var again := DictOf(st', key)[w.id := u];
      if |again| < cfg.n {
        Buffered(cfg, st', w, u, false, again);
      } else {
        Filled(cfg, st', w, u, again);
      }
    }
  }

  lemma SameSize(dict: map<nat, Tensor>, i: nat, u: Tensor)
    requires i in dict
    ensures |dict[i := u]| == |dict|
  {
    assert dict[i := u].Keys == dict.Keys;
    assert |dict[i := u]| == |dict[i := u].Keys| == |dict.Keys| == |dict|;
  }

  lemma TwiceDirect(cfg: Config, st: State, nm: Name, t: Tensor, u: Tensor)
    requires IsMapped(nm) && Emit(cfg, st, nm, t).Ok?
    ensures Emit(cfg, Emit(cfg, st, nm, t).value, nm, u).Err?
  {
    assert OutOf(nm) in Emit(cfg, st, nm, t).value.written;
  }

  /** Nothing that ends in two tensors of one name, other than scales, is exported. */
  lemma TwiceFails(cfg: Config, st: State, nm: Name, t: Tensor, u: Tensor)
    requires !nm.ScaleName? && Step(cfg, st, nm, t).Ok?
    ensures Fails(Step(cfg, Step(cfg, st, nm, t).value, nm, u))
  {
    if nm.WeightName? && nm.w in cfg.expected {
      TwiceScaled(cfg, st, nm.w, t, u);
    } else if nm.WeightName? && IsHalf(nm.w) {
      TwiceHalf(st, nm.w, Float(t), Float(u));
    } else if nm.WeightName? && nm.w.Expert? {
      TwiceExpert(cfg, st, nm.w, Float(t), Float(u));
    } else {
      TwiceDirect(cfg, st, nm, t, u);
    }
  }

  lemma TwiceLast(n: int, supported: set<Name>, selected: set<Name>, a: seq<(Name, Tensor)>, i: nat, j: nat)
    returns (b: seq<(Name, Tensor)>)
    requires i < j < |a| && a[i].0 == a[j].0 && !a[i].0.ScaleName?
    ensures multiset(b) == multiset(a) && Export(n, supported, selected, b).Err?
  {
    var cfg := ConfigOf(n, supported, selected);
    TwoIn(a, i, j);
    var rest := Rest(a, [a[i], a[j]]);
    b := rest + [a[i]] + [a[j]];
    assert b == rest + [a[i], a[j]];
    RunSnoc(cfg, rest, a[i]);
    RunSnoc(cfg, rest + [a[i]], a[j]);
    if Run(cfg, rest + [a[i]]).Ok? {
      TwiceFails(cfg, Run(cfg, rest).value, a[i].0, a[i].1, a[j].1);
    }
    ExportOf(n, supported, selected, b);
  }

  lemma TwoIn<T>(s: seq<T>, i: nat, j: nat)
    requires i < j < |s|
    ensures multiset([s[i], s[j]]) <= multiset(s)
  {
    assert s == s[..i] + [s[i]] + s[i + 1..j] + [s[j]] + s[j + 1..];
  }

  // ---------------------------------------------------------------- two scales of one weight

  /** What the last weight does when its scale is there: the rest of the state does not depend on the scale. */
  lemma ScaleThenWeight(cfg: Config, st: State, w: Weight, t: Tensor, x: Tensor)
    requires w != Head && w in cfg.expected && w !in st.pending
    ensures var st1 := st.(scales := st.scales[w := x]);
            && Step(cfg, st, ScaleName(w), x) == Ok(st1)
            && Step(cfg, st1, WeightName(w), t) == Paired(cfg, st.(scales := st.scales - {w}), w, t, x)
  {
    assert st.scales[w := x] - {w} == st.scales - {w};
  }

  lemma ScaleAfter(cfg: Config, st: State, w: Weight, y: Tensor)
    requires w != Head && w !in st.pending
    ensures Step(cfg, st, ScaleName(w), y) == Ok(st.(scales := st.scales[w := y]))
    ensures Close(st.(scales := st.scales[w := y])) == Close(st)
  {
  }

  /** What comes last is different in the output. */
  lemma PairedShows(cfg: Config, st: State, w: Weight, t: Tensor, x: Tensor, y: Tensor)
    requires x != y
    requires var r, s := Paired(cfg, st, w, t, x), Paired(cfg, st, w, t, y);
             r.Ok? && s.Ok? && Close(r.value).Ok? && Close(s.value).Ok?
    ensures Merged(Close(Paired(cfg, st, w, t, x).value).value) != Merged(Close(Paired(cfg, st, w, t, y).value).value)
  {
    if w.Expert? {
      ExpertShows(cfg, st, w, Packed(t, x), Packed(t, y));
    } else if IsHalf(w) {
      HalfShows(st, w, Float(Dequantized(t, x)), Float(Dequantized(t, y)));
    } else {
      WriteShows(st, OutOf(WeightName(w)), Float(Dequantized(t, x)), Float(Dequantized(t, y)));
    }
  }

  lemma WriteShows(st: State, o: Out, x: Tensor, y: Tensor)
    requires x != y && Write(st, o, x).Ok? && Write(st, o, y).Ok?
    requires Close(Write(st, o, x).value).Ok? && Close(Write(st, o, y).value).Ok?
    ensures Merged(Close(Write(st, o, x).value).value) != Merged(Close(Write(st, o, y).value).value)
  {
    var r, s := Write(st, o, x).value, Write(st, o, y).value;
    assert o !in st.raw by {
      assert o !in r.raw.Keys * r.written.Keys;
    }
    assert Merged(Close(r).value)[o] == x && Merged(Close(s).value)[o] == y;
  }

  lemma LoneHalf(st: State, w: Weight, x: Tensor)
    requires IsHalf(w)
    ensures OtherHalf(w) !in st.halves ==> Fails(Pair(st, w, x))
  {
    assert w in st.halves[w := x];
  }

  lemma LoneExpert(cfg: Config, st: State, w: Weight, x: Tensor)
    requires w.Expert?
    ensures var dict := DictOf(st, (w.layer, w.proj))[w.id := x];
            cfg.n <= 0 || |dict| < cfg.n ==> Fails(DeliverExpert(cfg, st, w, x, true))
  {
    var dict := DictOf(st, (w.layer, w.proj))[w.id := x];
    if cfg.n <= 0 || |dict| < cfg.n {
      Buffered(cfg, st, w, x, true, dict);
    }
  }

  lemma HalfShows(st: State, w: Weight, x: Tensor, y: Tensor)
    requires IsHalf(w) && x != y && Pair(st, w, x).Ok? && Pair(st, w, y).Ok?
    requires Close(Pair(st, w, x).value).Ok? && Close(Pair(st, w, y).value).Ok?
    ensures Merged(Close(Pair(st, w, x).value).value) != Merged(Close(Pair(st, w, y).value).value)
  {
    var other := OtherHalf(w);
    LoneHalf(st, w, x);
    if other in st.halves {
      var st1, z := st.(halves := st.halves - {w, other}), st.halves[other];
      if w.EProj? {
        WriteShows(st1, EhProj(w.layer), Columns(x, z), Columns(y, z));
      } else {
        WriteShows(st1, EhProj(w.layer), Columns(z, x), Columns(z, y));
      }
    }
  }

  lemma ExpertShows(cfg: Config, st: State, w: Weight, x: Tensor, y: Tensor)
    requires w.Expert? && x != y && DeliverExpert(cfg, st, w, x, true).Ok? && DeliverExpert(cfg, st, w, y, true).Ok?
    requires Close(DeliverExpert(cfg, st, w, x, true).value).Ok? && Close(DeliverExpert(cfg, st, w, y, true).value).Ok?
    ensures Merged(Close(DeliverExpert(cfg, st, w, x, true).value).value)
            != Merged(Close(DeliverExpert(cfg, st, w, y, true).value).value)
  {
    var key, o := (w.layer, w.proj), Experts(w.layer, w.proj);
    var d, e := DictOf(st, key)[w.id := x], DictOf(st, key)[w.id := y];
    assert |d| == |d.Keys| == |e.Keys| == |e| by {
      assert d.Keys == e.Keys;
    }
    var r, s := DeliverExpert(cfg, st, w, x, true).value, DeliverExpert(cfg, st, w, y, true).value;
    LoneExpert(cfg, st, w, x);
    if cfg.n > 0 && |d| >= cfg.n {
      StackShows(d, e, w.id, cfg.n);
      assert Merged(Close(r).value)[o] == Stack(d, cfg.n) && Merged(Close(s).value)[o] == Stack(e, cfg.n);
    }
  }

  lemma StackShows(d: map<nat, Tensor>, e: map<nat, Tensor>, i: nat, n: nat)
    requires IsRange(d.Keys, n) && IsRange(e.Keys, n) && i in d && i in e && d[i] != e[i]
    ensures Stack(d, n) != Stack(e, n)
  {
    assert Stack(d, n).items[i] == d[i] && Stack(e, n).items[i] == e[i];
  }

  /** Pending weights are weights that arrived. */
  lemma {:induction false} PendingArrived(cfg: Config, a: seq<(Name, Tensor)>, w: Weight)
    requires Run(cfg, a).Ok? && w in Run(cfg, a).value.pending
    ensures WeightName(w) in NamesOf(a)
    decreases |a|
  {
    var n := |a| - 1;
    var st := Run(cfg, a[..n]).value;
    assert a == a[..n] + [a[n]];
    NamesSnoc(a[..n], a[n]);
    StepPending(cfg, st, a[n].0, a[n].1);
    if w in st.pending {
      PendingArrived(cfg, a[..n], w);
    }
  }

  /** A weight becomes pending on arrival only, and stops being so only when its scale comes. */
  lemma StepPending(cfg: Config, st: State, nm: Name, t: Tensor)
    requires Step(cfg, st, nm, t).Ok?
    ensures var st' := Step(cfg, st, nm, t).value;
            && (forall w :: w in st'.pending ==> w in st.pending || nm == WeightName(w))
            && (forall w :: w in st.pending && nm != ScaleName(w) ==> w in st'.pending)
            && (Head in st.pending ==> Head in st'.pending)
            && (forall w :: w in st'.scales ==> w in st.scales || (nm == ScaleName(w) && w != Head))
            && (nm.WeightName? && nm.w in cfg.expected ==>
                  nm.w !in st'.scales && (nm.w !in st.scales ==> nm.w in st'.pending))
            && (nm.ScaleName? && nm.w in st.pending && nm.w != Head ==> nm.w !in st'.scales && nm.w !in st'.pending)
  {
    match nm
    case OtherName(_) => EmitElsewhere(cfg, st, nm, t);
    case WeightName(w) =>
      if w !in cfg.expected {
        EmitElsewhere(cfg, st, nm, t);
      } else if w in st.scales {
        PairedElsewhere(cfg, st.(scales := st.scales - {w}), w, t, st.scales[w]);
      }
    case ScaleName(w) =>
      if w != Head && w in st.pending {
        PairedElsewhere(cfg, st.(pending := st.pending - {w}, scales := st.scales - {w}), w, st.pending[w], t);
      }
  }

  /** A head that awaits a scale waits forever. */
  lemma {:induction false} HeadWaits(cfg: Config, a: seq<(Name, Tensor)>)
    requires Run(cfg, a).Ok? && Head in cfg.expected
    ensures Head !in Run(cfg, a).value.scales
    ensures WeightName(Head) in NamesOf(a) ==> Head in Run(cfg, a).value.pending
    decreases |a|
  {
    if a != [] {
      var n := |a| - 1;
      assert a == a[..n] + [a[n]];
      NamesSnoc(a[..n], a[n]);
      HeadWaits(cfg, a[..n]);
      StepPending(cfg, Run(cfg, a[..n]).value, a[n].0, a[n].1);
    }
  }

  lemma ScaleWeightScale(cfg: Config, rest: seq<(Name, Tensor)>, w: Weight, t: Tensor, x: Tensor, y: Tensor)
    requires Run(cfg, rest).Ok? && w != Head && w in cfg.expected && w !in Run(cfg, rest).value.pending
    ensures var st := Run(cfg, rest).value.(scales := Run(cfg, rest).value.scales - {w});
            var all := rest + [(ScaleName(w), x), (WeightName(w), t), (ScaleName(w), y)];
            var r, end := Paired(cfg, st, w, t, x), Run(cfg, all);
            if r.Err? then end.Err? else end.Ok? && Close(end.value) == Close(r.value)
  {
    var st, s, u, v := Run(cfg, rest).value, (ScaleName(w), x), (WeightName(w), t), (ScaleName(w), y);
    RunSnoc(cfg, rest, s);
    RunSnoc(cfg, rest + [s], u);
    RunSnoc(cfg, rest + [s] + [u], v);
    assert rest + [s, u, v] == rest + [s] + [u] + [v];
    ScaleThenWeight(cfg, st, w, t, x);
    var st0 := st.(scales := st.scales - {w});
    if Paired(cfg, st0, w, t, x).Ok? {
      PairedElsewhere(cfg, st0, w, t, x);
      ScaleAfter(cfg, Paired(cfg, st0, w, t, x).value, w, y);
    }
  }

  /** Two different scales around their weight: the order decides which of them is used. */
  lemma ScalesShow(n: int, supported: set<Name>, selected: set<Name>, rest: seq<(Name, Tensor)>,
                   w: Weight, t: Tensor, x: Tensor, y: Tensor)
    requires x != y && w != Head && ScaleName(w) in selected && WeightName(w) !in NamesOf(rest)
    ensures var W := (WeightName(w), t);
            var b := Export(n, supported, selected, rest + [(ScaleName(w), x), W, (ScaleName(w), y)]);
            var c := Export(n, supported, selected, rest + [(ScaleName(w), y), W, (ScaleName(w), x)]);
            b.Err? || c.Err? || Merged(b.value) != Merged(c.value)
  {
    var cfg, W := ConfigOf(n, supported, selected), (WeightName(w), t);
    var p, q := rest + [(ScaleName(w), x), W, (ScaleName(w), y)], rest + [(ScaleName(w), y), W, (ScaleName(w), x)];
    ExportOf(n, supported, selected, p);
    ExportOf(n, supported, selected, q);
    assert w in cfg.expected;
    if Run(cfg, rest).Err? {
      RunFails(cfg, rest, (ScaleName(w), x), W, (ScaleName(w), y));
    } else {
      if w in Run(cfg, rest).value.pending {
        PendingArrived(cfg, rest, w);
      }
      ScaleWeightScale(cfg, rest, w, t, x, y);
      ScaleWeightScale(cfg, rest, w, t, y, x);
      var st := Run(cfg, rest).value.(scales := Run(cfg, rest).value.scales - {w});
      if Export(n, supported, selected, p).Ok? && Export(n, supported, selected, q).Ok? {
        PairedShows(cfg, st, w, t, x, y);
      }
    }
  }

  lemma RunFails(cfg: Config, rest: seq<(Name, Tensor)>, x: (Name, Tensor), y: (Name, Tensor), z: (Name, Tensor))
    requires Run(cfg, rest).Err?
    ensures Run(cfg, rest + [x, y, z]).Err?
  {
    RunSnoc(cfg, rest, x);
    RunSnoc(cfg, rest + [x], y);
    RunSnoc(cfg, rest + [x] + [y], z);
    assert rest + [x, y, z] == rest + [x] + [y] + [z];
  }

  // ---------------------------------------------------------------- the exact condition

  /** With another outcome, or another tensor under some name. */
  predicate Otherwise(r: Outcome<Output>, s: Outcome<Output>) {
    r.Err? || s.Err? || Merged(r.value) != Merged(s.value)
  }

  lemma ScaleClash(n: int, supported: set<Name>, selected: set<Name>, a: seq<(Name, Tensor)>, i: nat, j: nat, k: nat)
    returns (b: seq<(Name, Tensor)>)
    requires i < |a| && j < |a| && k < |a| && a[i].0.ScaleName? && a[j].0 == a[i].0 && a[i] != a[j]
    requires a[k].0 == WeightName(a[i].0.w) && a[i].0.w != Head && a[i].0 in selected
    requires forall x :: 0 <= x < |a| && a[x].0 == a[k].0 ==> x == k
    ensures multiset(b) == multiset(a)
    ensures Otherwise(Export(n, supported, selected, b), Export(n, supported, selected, a))
  {
    var w, x, y, t := a[i].0.w, a[i].1, a[j].1, a[k].1;
    var xs, ys := [a[i], a[k], a[j]], [a[j], a[k], a[i]];
    ThreeIn(a, a[i], a[k], a[j]);
    var rest := Rest(a, xs);
    assert multiset(xs) == multiset(ys);
    OnceOnly(a, rest, k, xs);
    var p, q := rest + xs, rest + ys;
    ScalesShow(n, supported, selected, rest, w, t, x, y);
    if Otherwise(Export(n, supported, selected, p), Export(n, supported, selected, a)) {
      b := p;
    } else {
      b := q;
    }
  }

  lemma ThreeIn<T>(s: seq<T>, x: T, y: T, z: T)
    requires x in s && y in s && z in s && x != y && y != z && x != z
    ensures multiset([x, y, z]) <= multiset(s)
  {
    assert x in multiset(s) && y in multiset(s) && z in multiset(s);
  }

  lemma OnceOnly(a: seq<(Name, Tensor)>, rest: seq<(Name, Tensor)>, k: nat, xs: seq<(Name, Tensor)>)
    requires k < |a| && a[k] in xs && multiset(rest + xs) == multiset(a)
    requires forall x :: 0 <= x < |a| && a[x].0 == a[k].0 ==> x == k
    ensures a[k].0 !in NamesOf(rest)
  {
    if a[k].0 in NamesOf(rest) {
      var r :| 0 <= r < |rest| && rest[r].0 == a[k].0;
      assert (rest + xs)[r] == rest[r];
      var x := PlaceIn(rest + xs, a, r);
      var c :| 0 <= c < |xs| && xs[c] == a[k];
      assert (rest + xs)[|rest| + c] == a[k];
      TwoCount(rest + xs, r, |rest| + c);
      var y, z := CountTwo(a, a[k]);
    }
  }

  /** Two different scales of a weight that comes. */
  lemma ScalesClash(n: int, supported: set<Name>, selected: set<Name>, a: seq<(Name, Tensor)>, i: nat, j: nat, k: nat)
    returns (b: seq<(Name, Tensor)>)
    requires NamesOf(a) <= selected && Export(n, supported, selected, a).Ok?
    requires i < j < |a| && k < |a| && a[i].0.ScaleName? && a[j].0 == a[i].0 && a[i] != a[j]
    requires a[k].0 == WeightName(a[i].0.w)
    ensures multiset(b) == multiset(a)
    ensures Otherwise(Export(n, supported, selected, b), Export(n, supported, selected, a))
  {
    assert a[i].0 in NamesOf(a) && a[k].0 in NamesOf(a);
    HeadNotExported(n, supported, selected, a);
    if x: nat :| x < |a| && a[x].0 == a[k].0 && x != k {
      b := TwiceLast(n, supported, selected, a, if x < k then x else k, if x < k then k else x);
    } else {
      b := ScaleClash(n, supported, selected, a, i, j, k);
    }
  }

  /** Where names clash, some order of the same arrivals is refused or gives another tensor. */
  lemma ClashMatters(n: int, supported: set<Name>, selected: set<Name>, a: seq<(Name, Tensor)>)
    returns (b: seq<(Name, Tensor)>)
    requires NamesOf(a) <= selected && Export(n, supported, selected, a).Ok? && !Clear(a)
    ensures multiset(b) == multiset(a)
    ensures Otherwise(Export(n, supported, selected, b), Export(n, supported, selected, a))
  {
    var i, j :| 0 <= i < j < |a| && a[i].0 == a[j].0
                && !(a[i].0.ScaleName? && (a[i] == a[j] || WeightName(a[i].0.w) !in NamesOf(a)));
    if !a[i].0.ScaleName? {
      b := TwiceLast(n, supported, selected, a, i, j);
    } else {
      var k: nat :| k < |a| && a[k].0 == WeightName(a[i].0.w);
      b := ScalesClash(n, supported, selected, a, i, j, k);
    }
  }

  /** Every order of the same arrivals goes through and gives the same tensor under every name. */
  ghost predicate TensorsFree(n: int, supported: set<Name>, selected: set<Name>, a: seq<(Name, Tensor)>) {
    forall b :: multiset(b) == multiset(a) ==>
      !Otherwise(Export(n, supported, selected, b), Export(n, supported, selected, a))
  }

  /** For a list that some order exports, the order of arrival changes nothing of the tensors if and only
      if no tensor but a scale comes twice and no weight comes with two different scales. */
  lemma OrderIrrelevantExactly(n: int, supported: set<Name>, selected: set<Name>, a: seq<(Name, Tensor)>)
    requires NamesOf(a) <= selected && Export(n, supported, selected, a).Ok?
    ensures Clear(a) <==> TensorsFree(n, supported, selected, a)
  {
    if Clear(a) {
      forall b | multiset(b) == multiset(a)
        ensures !Otherwise(Export(n, supported, selected, b), Export(n, supported, selected, a))
      {
        OrderIrrelevant(n, supported, selected, a, b);
      }
    } else {
      var b := ClashMatters(n, supported, selected, a);
    }
  }

  /** The whole output, packed or converted, is the same for every order if and only if moreover every
      expert set is scaled throughout or not at all. */
  lemma OrderDecidesExactly(n: int, supported: set<Name>, selected: set<Name>, a: seq<(Name, Tensor)>)
    requires NamesOf(a) <= selected && Export(n, supported, selected, a).Ok?
    ensures Clear(a) && Uniform(selected) <==> OrderFree(n, supported, selected, a)
  {
    if Clear(a) {
      UniformExactly(n, supported, selected, a);
    } else {
      var b := ClashMatters(n, supported, selected, a);
      assert Export(n, supported, selected, b) != Export(n, supported, selected, a);
    }
  }

  lemma HeadNotExported(n: int, supported: set<Name>, selected: set<Name>, a: seq<(Name, Tensor)>)
    requires Export(n, supported, selected, a).Ok?
    ensures WeightName(Head) in NamesOf(a) ==> ScaleName(Head) !in selected
  {
    var cfg := ConfigOf(n, supported, selected);
    ExportOf(n, supported, selected, a);
    if ScaleName(Head) in selected {
      assert Head in cfg.expected;
      HeadWaits(cfg, a);
    }
  }
}
