/** Marker segmentation of common/chat-auto-parser-helpers.cpp. */
module Segments {

  datatype Kind = Plain | Marker

  datatype Segment = Segment(kind: Kind, value: string)

  predicate IsOpener(c: char) {
    c == '<' || c == '['
  }

  predicate Closes(opener: char, c: char) {
    (opener == '<' && c == '>') || (opener == '[' && c == ']')
  }

  function Concat(segs: seq<Segment>): string {
    if segs == [] then "" else segs[0].value + Concat(segs[1..])
  }

  // ---------------------------------------------------------------- the shape of a segmentation

  predicate NoOpener(v: string) {
    forall i :: 0 <= i < |v| ==> !IsOpener(v[i])
  }

  /** From an opener to the first character that closes it. */
  predicate ClosedMarker(v: string) {
    && |v| >= 2 && IsOpener(v[0]) && Closes(v[0], v[|v| - 1])
    && forall i :: 0 <= i < |v| - 1 ==> !Closes(v[0], v[i])
  }

  /** An opener that nothing closes. */
  predicate OpenMarker(v: string) {
    v != "" && IsOpener(v[0]) && forall i :: 0 <= i < |v| ==> !Closes(v[0], v[i])
  }

  predicate StartsOpener(v: string) {
    v != "" && IsOpener(v[0])
  }

  /** Text holds no opener and runs up to the next one; only the last segment may be an opener
      that nothing closes. */
  predicate HeadShape(seg: Segment, rest: seq<Segment>) {
    match seg.kind
    case Marker => ClosedMarker(seg.value)
    case Plain =>
      if rest == [] then seg.value != "" && (NoOpener(seg.value) || OpenMarker(seg.value))
      else seg.value != "" && NoOpener(seg.value) && StartsOpener(rest[0].value)
  }

  predicate Shaped(segs: seq<Segment>) {
    segs == [] || (HeadShape(segs[0], segs[1..]) && Shaped(segs[1..]))
  }

  // ---------------------------------------------------------------- segmenting

  /** The first position from `from` on that closes `opener`, the end of the text if none does. */
  function CloserAt(opener: char, text: string, from: nat): (i: nat)
    requires from <= |text|
    ensures from <= i <= |text|
    decreases |text| - from
  {
    if from == |text| || Closes(opener, text[from]) then from else CloserAt(opener, text, from + 1)
  }

  function OpenerAt(text: string, from: nat): (i: nat)
    requires from <= |text|
    ensures from <= i <= |text|
    decreases |text| - from
  {
    if from == |text| || IsOpener(text[from]) then from else OpenerAt(text, from + 1)
  }

  /** The segments of the text from `from` on. */
  function SegmentsFrom(text: string, from: nat): seq<Segment>
    requires from <= |text|
    decreases |text| - from
  {
    if from == |text| then []
    else if IsOpener(text[from]) then
      var c := CloserAt(text[from], text, from);
      if c == |text| then [Segment(Plain, text[from..])]
      else [Segment(Marker, text[from..c + 1])] + SegmentsFrom(text, c + 1)
    else
      var o := OpenerAt(text, from);
      [Segment(Plain, text[from..o])] + SegmentsFrom(text, o)
  }

  function Segmentize(text: string): seq<Segment> {
    SegmentsFrom(text, 0)
  }

  lemma {:induction false} OpenerAtExact(text: string, from: nat)
    requires from <= |text|
    ensures var i := OpenerAt(text, from);
            (i < |text| ==> IsOpener(text[i])) && forall k :: from <= k < i ==> !IsOpener(text[k])
    decreases |text| - from
  {
    if from < |text| && !IsOpener(text[from]) {
      OpenerAtExact(text, from + 1);
    }
  }

  lemma {:induction false} CloserAtExact(opener: char, text: string, from: nat)
    requires from <= |text|
    ensures var i := CloserAt(opener, text, from);
            (i < |text| ==> Closes(opener, text[i])) && forall k :: from <= k < i ==> !Closes(opener, text[k])
    decreases |text| - from
  {
    if from < |text| && !Closes(opener, text[from]) {
      CloserAtExact(opener, text, from + 1);
    }
  }

  /** Positions `from` to `o` hold no opener, and one follows or the text ends. */
  ghost predicate PlainTo(text: string, from: nat, o: nat) {
    && from < o <= |text| && (o == |text| || IsOpener(text[o]))
    && forall k :: from <= k < o ==> !IsOpener(text[k])
  }

  /** An opener at `from` is first closed at `c`, or never if that is the end of the text. */
  ghost predicate ClosedAt(text: string, from: nat, c: nat) {
    && from < c <= |text| && IsOpener(text[from]) && (c == |text| || Closes(text[from], text[c]))
    && forall k :: from <= k < c ==> !Closes(text[from], text[k])
  }

  lemma OpenerIs(text: string, from: nat, o: nat)
    requires PlainTo(text, from, o)
    ensures OpenerAt(text, from) == o
  {
    OpenerAtExact(text, from);
  }

  lemma CloserIs(text: string, from: nat, c: nat)
    requires ClosedAt(text, from, c)
    ensures CloserAt(text[from], text, from) == c
  {
    CloserAtExact(text[from], text, from);
  }

  lemma PlainStep(text: string, from: nat, o: nat)
    requires PlainTo(text, from, o)
    ensures SegmentsFrom(text, from) == [Segment(Plain, text[from..o])] + SegmentsFrom(text, o)
  {
    OpenerIs(text, from, o);
    assert !IsOpener(text[from]);
  }

  lemma MarkerStep(text: string, from: nat, c: nat)
    requires ClosedAt(text, from, c) && c < |text|
    ensures SegmentsFrom(text, from) == [Segment(Marker, text[from..c + 1])] + SegmentsFrom(text, c + 1)
  {
    CloserIs(text, from, c);
  }

  lemma OpenStep(text: string, from: nat)
    requires ClosedAt(text, from, |text|)
    ensures SegmentsFrom(text, from) == [Segment(Plain, text[from..])]
  {
    CloserIs(text, from, |text|);
  }

  lemma Regroup(r: seq<Segment>, x: Segment, rest: seq<Segment>)
    ensures r + ([x] + rest) == (r + [x]) + rest
  {
  }

  lemma PushPlain(r: seq<Segment>, text: string, from: nat, o: nat)
    requires PlainTo(text, from, o)
    ensures (r + [Segment(Plain, text[from..o])]) + SegmentsFrom(text, o) == r + SegmentsFrom(text, from)
  {
    PlainStep(text, from, o);
    Regroup(r, Segment(Plain, text[from..o]), SegmentsFrom(text, o));
  }

  lemma PushMarker(r: seq<Segment>, text: string, from: nat, c: nat)
    requires ClosedAt(text, from, c) && c < |text|
    ensures (r + [Segment(Marker, text[from..c + 1])]) + SegmentsFrom(text, c + 1) == r + SegmentsFrom(text, from)
  {
    MarkerStep(text, from, c);
    Regroup(r, Segment(Marker, text[from..c + 1]), SegmentsFrom(text, c + 1));
  }

  /** Where the scan stands at `pos`: the segments so far, where the next one begins, and the
      opener of the marker it is in, if it is in one. */
  ghost predicate Scanning(text: string, pos: nat, r: seq<Segment>, border: nat, inMarker: bool, opener: char) {
    && border <= pos <= |text|
    && r + SegmentsFrom(text, border) == Segmentize(text)
    && (inMarker ==> border < pos && text[border] == opener && IsOpener(opener)
                     && forall k :: border <= k < pos ==> !Closes(opener, text[k]))
    && (!inMarker ==> forall k :: border <= k < pos ==> !IsOpener(text[k]))
  }

  method SegmentizeRound(text: string, pos: nat, r: seq<Segment>, border: nat, inMarker: bool, opener: char)
    returns (r': seq<Segment>, border': nat, inMarker': bool, opener': char)
    requires pos < |text| && Scanning(text, pos, r, border, inMarker, opener)
    ensures Scanning(text, pos + 1, r', border', inMarker', opener')
  {
    r', border', inMarker', opener' := r, border, inMarker, opener;
    if !inMarker && IsOpener(text[pos]) {
      if border < pos {
        PushPlain(r, text, border, pos);
        r' := r + [Segment(Plain, text[border..pos])];
      }
      border', inMarker', opener' := pos, true, text[pos];
    } else if inMarker && Closes(opener, text[pos]) {
      PushMarker(r, text, border, pos);
      r' := r + [Segment(Marker, text[border..pos + 1])];
      border', inMarker' := pos + 1, false;
    }
  }

  method SegmentizeMarkers(text: string) returns (r: seq<Segment>)
    ensures r == Segmentize(text)
  {
    r := [];
    var inMarker, opener := false, ' ';
    var border: nat := 0;
    for pos := 0 to |text|
      invariant Scanning(text, pos, r, border, inMarker, opener)
    {
      r, border, inMarker, opener := SegmentizeRound(text, pos, r, border, inMarker, opener);
    }
    if border < |text| {
      LastStep(text, border, inMarker);
      r := r + [Segment(Plain, text[border..])];
    }
  }

  lemma LastStep(text: string, from: nat, inMarker: bool)
    requires from < |text| && (inMarker ==> IsOpener(text[from]))
    requires inMarker ==> forall k :: from <= k < |text| ==> !Closes(text[from], text[k])
    requires !inMarker ==> forall k :: from <= k < |text| ==> !IsOpener(text[k])
    ensures SegmentsFrom(text, from) == [Segment(Plain, text[from..])]
  {
    if inMarker {
      OpenStep(text, from);
    } else {
      PlainStep(text, from, |text|);
      assert text[from..|text|] == text[from..];
    }
  }

  // ---------------------------------------------------------------- exactly one segmentation

  lemma {:induction false} SegmentsConcat(text: string, from: nat)
    requires from <= |text|
    ensures Concat(SegmentsFrom(text, from)) == text[from..]
    decreases |text| - from
  {
    if from < |text| {
      if IsOpener(text[from]) {
        var c := CloserAt(text[from], text, from);
        if c == |text| {
          assert Concat([Segment(Plain, text[from..])]) == text[from..] + "";
        } else {
          SegmentsConcat(text, c + 1);
          assert text[from..] == text[from..c + 1] + text[c + 1..];
        }
      } else {
        var o := OpenerAt(text, from);
        SegmentsConcat(text, o);
        assert text[from..] == text[from..o] + text[o..];
      }
    }
  }

  lemma SegmentsStart(text: string, from: nat)
    requires from < |text|
    ensures SegmentsFrom(text, from) != [] && SegmentsFrom(text, from)[0].value != ""
    ensures SegmentsFrom(text, from)[0].value[0] == text[from]
  {
  }

  lemma MarkerSlice(text: string, from: nat, c: nat)
    requires ClosedAt(text, from, c) && c < |text|
    ensures ClosedMarker(text[from..c + 1])
  {
  }

  lemma PlainSlice(text: string, from: nat, o: nat)
    requires PlainTo(text, from, o)
    ensures text[from..o] != "" && NoOpener(text[from..o])
  {
  }

  lemma OpenSlice(text: string, from: nat)
    requires ClosedAt(text, from, |text|)
    ensures OpenMarker(text[from..])
  {
  }

  lemma ShapedMarker(text: string, from: nat, c: nat)
    requires ClosedAt(text, from, c) && c < |text| && Shaped(SegmentsFrom(text, c + 1))
    ensures Shaped(SegmentsFrom(text, from))
  {
    MarkerSlice(text, from, c);
    MarkerStep(text, from, c);
    ShapedCons(Segment(Marker, text[from..c + 1]), SegmentsFrom(text, c + 1));
  }

  lemma ShapedPlain(text: string, from: nat, o: nat)
    requires PlainTo(text, from, o) && Shaped(SegmentsFrom(text, o))
    ensures Shaped(SegmentsFrom(text, from))
  {
    PlainSlice(text, from, o);
    PlainStep(text, from, o);
    if o < |text| {
      SegmentsStart(text, o);
    }
    ShapedCons(Segment(Plain, text[from..o]), SegmentsFrom(text, o));
  }

  lemma ShapedOpen(text: string, from: nat)
    requires ClosedAt(text, from, |text|)
    ensures Shaped(SegmentsFrom(text, from))
  {
    OpenSlice(text, from);
    OpenStep(text, from);
    ShapedLast(Segment(Plain, text[from..]));
  }

  lemma {:induction false} SegmentsShaped(text: string, from: nat)
    requires from <= |text|
    ensures Shaped(SegmentsFrom(text, from))
    decreases |text| - from
  {
    if from < |text| {
      if IsOpener(text[from]) {
        var c := CloserAt(text[from], text, from);
        CloserAtExact(text[from], text, from);
        if c == |text| {
          ShapedOpen(text, from);
        } else {
          SegmentsShaped(text, c + 1);
          ShapedMarker(text, from, c);
        }
      } else {
        var o := OpenerAt(text, from);
        OpenerAtExact(text, from);
        SegmentsShaped(text, o);
        ShapedPlain(text, from, o);
      }
    }
  }

  lemma ShapedCons(seg: Segment, rest: seq<Segment>)
    requires HeadShape(seg, rest) && Shaped(rest)
    ensures Shaped([seg] + rest)
  {
    assert ([seg] + rest)[1..] == rest;
  }

  lemma ShapedLast(seg: Segment)
    requires HeadShape(seg, [])
    ensures Shaped([seg]) && [seg] + [] == [seg]
  {
    assert [seg][1..] == [];
  }

  lemma SliceTail(text: string, from: nat, v: string, rest: string)
    requires from <= |text| && text[from..] == v + rest
    ensures from + |v| <= |text| && text[from..from + |v|] == v && text[from + |v|..] == rest
  {
    var t := text[from..];
    assert t[..|v|] == v && t[|v|..] == rest;
  }

  lemma {:induction false} ShapedIsSegments(segs: seq<Segment>, text: string, from: nat)
    requires from <= |text| && Shaped(segs) && Concat(segs) == text[from..]
    ensures segs == SegmentsFrom(text, from)
    decreases |segs|
  {
    if segs == [] {
      EmptyTail(text, from);
    } else {
      var seg, rest := segs[0], segs[1..];
      var next := from + |seg.value|;
      SliceTail(text, from, seg.value, Concat(rest));
      ShapedIsSegments(rest, text, next);
      FirstSegment(seg, rest, text, from, next);
      assert segs == [seg] + rest;
    }
  }

  lemma EmptyTail(text: string, from: nat)
    requires from <= |text| && text[from..] == ""
    ensures SegmentsFrom(text, from) == []
  {
  }

  lemma FirstSegment(seg: Segment, rest: seq<Segment>, text: string, from: nat, next: nat)
    requires HeadShape(seg, rest) && next == from + |seg.value| <= |text|
    requires text[from..next] == seg.value && text[next..] == Concat(rest) && rest == SegmentsFrom(text, next)
    ensures [seg] + rest == SegmentsFrom(text, from)
  {
    RestStarts(rest, text, next);
    HeadIsSegment(seg, rest, text, from);
  }

  lemma RestStarts(rest: seq<Segment>, text: string, from: nat)
    requires from <= |text| && text[from..] == Concat(rest)
    ensures rest == [] ==> from == |text|
    ensures rest != [] && rest[0].value != "" ==> from < |text| && text[from] == rest[0].value[0]
  {
    if rest != [] && rest[0].value != "" {
      assert text[from..][0] == rest[0].value[0];
    }
  }

  ghost predicate At(text: string, from: nat, v: string) {
    from + |v| <= |text| && forall k :: from <= k < from + |v| ==> text[k] == v[k - from]
  }

  lemma SliceAt(text: string, from: nat, v: string)
    requires from + |v| <= |text| && text[from..from + |v|] == v
    ensures At(text, from, v)
  {
    forall k | from <= k < from + |v|
      ensures text[k] == v[k - from]
    {
      assert text[from..from + |v|][k - from] == text[k];
    }
  }

  lemma MarkerHead(text: string, from: nat, v: string)
    requires At(text, from, v) && ClosedMarker(v)
    ensures ClosedAt(text, from, from + |v| - 1)
  {
  }

  lemma PlainHead(text: string, from: nat, v: string)
    requires At(text, from, v) && v != "" && NoOpener(v)
    requires from + |v| == |text| || IsOpener(text[from + |v|])
    ensures PlainTo(text, from, from + |v|)
  {
  }

  lemma OpenHead(text: string, from: nat, v: string)
    requires At(text, from, v) && OpenMarker(v) && from + |v| == |text|
    ensures ClosedAt(text, from, |text|)
  {
  }

  lemma HeadIsSegment(seg: Segment, rest: seq<Segment>, text: string, from: nat)
    requires HeadShape(seg, rest)
    requires var n := |seg.value|;
             && from + n <= |text| && text[from..from + n] == seg.value && rest == SegmentsFrom(text, from + n)
             && (rest == [] ==> from + n == |text|)
             && (rest != [] && rest[0].value != "" ==> from + n < |text| && text[from + n] == rest[0].value[0])
    ensures [seg] + rest == SegmentsFrom(text, from)
  {
    var v, n := seg.value, |seg.value|;
    SliceAt(text, from, v);
    if seg.kind == Marker {
      MarkerSegment(text, from, v);
    } else if NoOpener(v) {
      OpenerFollows(rest, text, from + n);
      PlainSegment(text, from, v);
    } else {
      OpenSegment(text, from, v);
      EmptyTail(text, from + n);
    }
  }

  lemma OpenerFollows(rest: seq<Segment>, text: string, next: nat)
    requires rest == [] ==> next == |text|
    requires rest != [] ==> StartsOpener(rest[0].value) && next < |text| && text[next] == rest[0].value[0]
    ensures next == |text| || IsOpener(text[next])
  {
  }

  lemma MarkerSegment(text: string, from: nat, v: string)
    requires At(text, from, v) && text[from..from + |v|] == v && ClosedMarker(v)
    ensures SegmentsFrom(text, from) == [Segment(Marker, v)] + SegmentsFrom(text, from + |v|)
  {
    var c := from + |v| - 1;
    MarkerHead(text, from, v);
    MarkerStep(text, from, c);
    assert c + 1 == from + |v|;
  }

  lemma PlainSegment(text: string, from: nat, v: string)
    requires At(text, from, v) && text[from..from + |v|] == v && v != "" && NoOpener(v)
    requires from + |v| == |text| || IsOpener(text[from + |v|])
    ensures SegmentsFrom(text, from) == [Segment(Plain, v)] + SegmentsFrom(text, from + |v|)
  {
    PlainHead(text, from, v);
    PlainStep(text, from, from + |v|);
  }

  lemma OpenSegment(text: string, from: nat, v: string)
    requires At(text, from, v) && text[from..from + |v|] == v && OpenMarker(v) && from + |v| == |text|
    ensures SegmentsFrom(text, from) == [Segment(Plain, v)]
  {
    OpenHead(text, from, v);
    OpenStep(text, from);
    assert text[from..from + |v|] == text[from..];
  }

  /** There is exactly one way to cut a text into segments of the required shape, and it is the one found. */
  lemma SegmentationExact(segs: seq<Segment>, text: string)
    ensures Shaped(segs) && Concat(segs) == text <==> segs == Segmentize(text)
  {
    assert text[0..] == text;
    SegmentsConcat(text, 0);
    SegmentsShaped(text, 0);
    if Shaped(segs) && Concat(segs) == text {
      ShapedIsSegments(segs, text, 0);
    }
  }

  // ---------------------------------------------------------------- concatenation

  lemma {:induction false} ConcatAppend(a: seq<Segment>, b: seq<Segment>)
    ensures Concat(a + b) == Concat(a) + Concat(b)
    decreases |a|
  {
    if a == [] {
      assert a + b == b;
    } else {
      ConcatAppend(a[1..], b);
      assert (a + b)[1..] == a[1..] + b;
    }
  }

  lemma {:induction false} ShapedAppend(a: seq<Segment>, b: seq<Segment>)
    requires Shaped(a) && Shaped(b) && (a == [] || a[|a| - 1].kind == Marker)
    ensures Shaped(a + b)
    decreases |a|
  {
    if a == [] {
      assert a + b == b;
    } else {
      ShapedAppend(a[1..], b);
      assert (a + b)[1..] == a[1..] + b;
    }
  }

  /** Two texts are segmented independently when the first ends in a closed marker. */
  lemma SegmentizeAppend(a: string, b: string)
    requires var s := Segmentize(a); s == [] || s[|s| - 1].kind == Marker
    ensures Segmentize(a + b) == Segmentize(a) + Segmentize(b)
  {
    SegmentationExact(Segmentize(a), a);
    SegmentationExact(Segmentize(b), b);
    ShapedAppend(Segmentize(a), Segmentize(b));
    ConcatAppend(Segmentize(a), Segmentize(b));
    SegmentationExact(Segmentize(a) + Segmentize(b), a + b);
  }

  lemma {:induction false} ShapedNonEmpty(segs: seq<Segment>, i: nat)
    requires Shaped(segs) && i < |segs|
    ensures segs[i].value != ""
    decreases |segs|
  {
    if i > 0 {
      ShapedNonEmpty(segs[1..], i - 1);
    }
  }
}
