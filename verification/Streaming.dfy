/** From parses to deltas: while an answer grows, the mapper's messages only grow, unless the last node
    of a named call is rewritten. The server throws in that case alone, and otherwise the client
    rebuilds the final message up to the overlap rule. */
module Streaming {
  import opened Wrappers
  import opened Text
  import opened Chat
  import opened Json
  import opened Quotes
  import opened Mapper
  import opened MessageDiff

  // ---------------------------------------------------------------- well-formed runs

  /** How far the arguments of a call have come: none yet, a JSON object, or tagged arguments. */
  datatype Body = NoArgs | JsonArgs | ArgStart | HaveKey | HaveValue | ArgDone

  datatype Phase = Outside | InCall(named: bool, body: Body)

  predicate BlankName(text: string) {
    TrimTrailing(text, -1) == ""
  }

  predicate OpensObject(s: string) {
    s != "" && s[0] == '{'
  }

  /** The text of the node does not matter to the mapper. */
  predicate Inert(e: Event) {
    match e.tag
    case Other | ToolOpen | ToolClose | ArgOpen | ArgClose => true
    case ToolArgs => !OpensObject(TrimTrailing(e.text, -1))
    case _ => false
  }

  /** The order in which a tool-call grammar produces its nodes: a call has one non-blank name, at
      any point between open and close, and either one JSON object or a series of
      open/key/value/close groups. Ids, content, reasoning and untagged nodes may fall anywhere,
      and so may an arguments node that is no JSON object, such as the one around tagged arguments. */
  function NextPhase(ph: Phase, e: Event): Option<Phase> {
    match e.tag
    case Reasoning | Content | Other => Some(ph)
    case ToolOpen => Some(InCall(false, NoArgs))
    case _ => if ph.Outside? then None else NextInCall(ph, e)
  }

  function NextInCall(ph: Phase, e: Event): Option<Phase>
    requires ph.InCall?
  {
    match e.tag
    case ToolClose => Some(Outside)
    case ToolId => Some(ph)
    case ToolName => if ph.named || BlankName(e.text) then None else Some(ph.(named := true))
    case ToolArgs =>
      if Inert(e) then Some(ph) else if ph.body == NoArgs then Some(ph.(body := JsonArgs)) else None
    case ArgOpen => if ph.body == NoArgs || ph.body == ArgDone then Some(ph.(body := ArgStart)) else None
    case ArgName => if ph.body == ArgStart then Some(ph.(body := HaveKey)) else None
    case ArgValue | ArgString => if ph.body == HaveKey then Some(ph.(body := HaveValue)) else None
    case ArgClose => if ph.body == HaveKey || ph.body == HaveValue then Some(ph.(body := ArgDone)) else None
    case _ => None
  }

  function PhaseFrom(ph: Phase, es: seq<Event>): Option<Phase>
    decreases |es|
  {
    if es == [] then Some(ph)
    else
      match PhaseFrom(ph, es[..|es| - 1])
      case None => None
      case Some(ph') => NextPhase(ph', es[|es| - 1])
  }

  function PhaseOf(es: seq<Event>): Option<Phase> {
    PhaseFrom(Outside, es)
  }

  predicate WellFormed(es: seq<Event>) {
    PhaseOf(es).Some?
  }

  lemma {:induction false} PrefixWellFormed(es: seq<Event>, k: nat)
    requires WellFormed(es) && k <= |es|
    ensures WellFormed(es[..k])
    decreases |es|
  {
    if k < |es| {
      PrefixWellFormed(es[..|es| - 1], k);
      assert es[..|es| - 1][..k] == es[..k];
    } else {
      assert es[..k] == es;
    }
  }

  // ---------------------------------------------------------------- phase and state

  predicate HasKeys(b: Body) {
    b == HaveKey || b == HaveValue || b == ArgDone
  }

  predicate Consistent(ph: Phase, s: State) {
    && Valid(s) && !s.dangling
    && match ph
       case Outside => s.pending.None?
       case InCall(named, body) =>
         && Live(s)
         && (s.quotePending ==> body == HaveValue)
         && if named then
              && s.cursor.AtIndex? && Tool(s).name != "" && s.argsBuffer == ""
              && OpensObject(Tool(s).arguments) && (body == NoArgs ==> Tool(s).arguments == "{")
            else
              && s.cursor.AtPending? && Tool(s).arguments == ""
              && (s.argsBuffer != "" ==> OpensObject(s.argsBuffer))
              && (body == NoArgs ==> s.argsBuffer == "") && (HasKeys(body) ==> s.argsBuffer != "")
  }

  lemma WithTargetExtends(s: State, text: string)
    requires Live(s) && (Tool(s).name != "" ==> Tool(s).arguments <= text)
    ensures Extends(s.msg, WithTarget(s, text).msg)
  {
  }

  lemma CloseExtends(ph: Phase, s: State)
    requires Consistent(ph, s) && ph.InCall?
    ensures Consistent(Outside, StepClose(s)) && Extends(s.msg, StepClose(s).msg)
  {
  }

  lemma NameExtends(ph: Phase, s: State, text: string)
    requires Consistent(ph, s) && ph.InCall? && !ph.named && !BlankName(text)
    ensures Consistent(ph.(named := true), StepName(s, text)) && Extends(s.msg, StepName(s, text).msg)
  {
  }

  lemma ArgsExtends(ph: Phase, s: State, e: Event)
    requires Consistent(ph, s) && ph.InCall? && e.tag == ToolArgs && NextInCall(ph, e).Some?
    ensures Consistent(NextInCall(ph, e).value, StepArgs(s, e.text)) && Extends(s.msg, StepArgs(s, e.text).msg)
  {
    if !Inert(e) {
      WithTargetExtends(s, TrimTrailing(e.text, -1));
    }
  }

  lemma KeyExtends(ph: Phase, s: State, text: string)
    requires Consistent(ph, s) && ph.InCall? && ph.body == ArgStart
    ensures Consistent(ph.(body := HaveKey), StepArgName(s, text)) && Extends(s.msg, StepArgName(s, text).msg)
  {
    var start := if Target(s) == "" then "{" else Target(s);
    WithTargetExtends(s.(argCount := s.argCount + 1), start + KeyEntry(s.argCount, text));
  }

  lemma ValueExtends(ph: Phase, s: State, isString: bool, text: string)
    requires Consistent(ph, s) && ph.InCall? && ph.body == HaveKey
    ensures Consistent(ph.(body := HaveValue), StepValue(s, isString, text))
    ensures Extends(s.msg, StepValue(s, isString, text).msg)
  {
  }

  lemma ArgCloseExtends(ph: Phase, s: State)
    requires Consistent(ph, s) && ph.InCall? && (ph.body == HaveKey || ph.body == HaveValue)
    ensures Consistent(ph.(body := ArgDone), StepArgClose(s)) && Extends(s.msg, StepArgClose(s).msg)
  {
  }

  lemma ToolEventExtends(ph: Phase, s: State, e: Event)
    requires Consistent(ph, s) && ph.InCall? && NextInCall(ph, e).Some? && e.tag != ArgOpen
    ensures Consistent(NextInCall(ph, e).value, StepTool(s, e)) && Extends(s.msg, StepTool(s, e).msg)
  {
    match e.tag
    case ToolId =>
    case ToolClose => CloseExtends(ph, s);
    case ToolName => NameExtends(ph, s, e.text);
    case ToolArgs => ArgsExtends(ph, s, e);
    case ArgName => KeyExtends(ph, s, e.text);
    case ArgValue => ValueExtends(ph, s, false, e.text);
    case ArgString => ValueExtends(ph, s, true, e.text);
    case ArgClose => ArgCloseExtends(ph, s);
  }

  predicate OnText(t: Tag) {
    t == Reasoning || t == Content || t == Other || t == ToolOpen || t == ArgOpen
  }

  lemma TextEventExtends(ph: Phase, s: State, e: Event)
    requires Consistent(ph, s) && NextPhase(ph, e).Some? && OnText(e.tag)
    ensures Consistent(NextPhase(ph, e).value, Step(s, e)) && Extends(s.msg, Step(s, e).msg)
  {
  }

  lemma StepIsStepTool(s: State, e: Event)
    requires Live(s) && !OnText(e.tag)
    ensures Step(s, e) == StepTool(s, e)
  {
  }

  /** Every event of a well-formed run only grows the message and never follows the dead pointer. */
  lemma AppendExtends(ph: Phase, s: State, e: Event)
    requires Consistent(ph, s) && NextPhase(ph, e).Some?
    ensures Consistent(NextPhase(ph, e).value, Step(s, e))
    ensures Extends(s.msg, Step(s, e).msg)
  {
    if OnText(e.tag) {
      TextEventExtends(ph, s, e);
    } else {
      StepIsStepTool(s, e);
      ToolEventExtends(ph, s, e);
    }
  }

  lemma {:induction false} RunConsistent(es: seq<Event>)
    requires WellFormed(es)
    ensures Consistent(PhaseOf(es).value, Run(es))
    decreases |es|
  {
    if es != [] {
      var n := |es| - 1;
      RunConsistent(es[..n]);
      AppendExtends(PhaseOf(es[..n]).value, Run(es[..n]), es[n]);
    }
  }

  // ---------------------------------------------------------------- growing runs

  /** A container value is not cut between a backslash and the single quote it escapes. */
  predicate SafeGrowth(text: string, text': string) {
    var v, w := TrimOne(text), TrimOne(text');
    IsContainer(v) && |v| <= |w| ==> !BadCut(w, |v|)
  }

  /** The same node, as far as the mapper can tell. */
  predicate Alike(e: Event, f: Event) {
    e == f || (e.tag == f.tag && Inert(e) && Inert(f))
  }

  /** The same node with more of its text parsed. */
  predicate Longer(e: Event, f: Event) {
    Alike(e, f) || (e.tag == f.tag && e.text <= f.text)
  }

  /** The mapper writes something else for the longer node, not something more: a container value was
      cut between a backslash and its single quote, or a key was not complete. */
  predicate Rewrites(e: Event, f: Event) {
    e.tag == f.tag &&
    ((e.tag == ArgValue && !SafeGrowth(e.text, f.text)) || (e.tag == ArgName && TrimKey(e.text) != TrimKey(f.text)))
  }

  predicate InNamedCall(ph: Option<Phase>) {
    ph.Some? && ph.value.InCall? && ph.value.named
  }

  /** The nodes the mapper looks at. */
  function Tagged(es: seq<Event>): seq<Event> {
    if es == [] then []
    else Tagged(es[..|es| - 1]) + (if es[|es| - 1].tag == Other then [] else es[|es| - 1..])
  }

  /** A later parse of the same answer: among the tagged nodes, the last may have become longer,
      nodes may follow it, and nodes whose text does not matter may have any text. */
  ghost predicate Grows(es: seq<Event>, fs: seq<Event>) {
    var a, b := Tagged(es), Tagged(fs);
    a == [] ||
    (|a| <= |b| && (forall k :: 0 <= k < |a| - 1 ==> Alike(a[k], b[k])) && Longer(a[|a| - 1], b[|a| - 1]))
  }

  /** The earlier parse ends in a node, within a named call, that the later one rewrites. */
  predicate Rewritten(es: seq<Event>, fs: seq<Event>) {
    var a, b := Tagged(es), Tagged(fs);
    0 < |a| <= |b| && InNamedCall(PhaseOf(es)) && Rewrites(a[|a| - 1], b[|a| - 1])
  }

  lemma OtherIgnored(s: State, e: Event)
    requires Valid(s) && e.tag == Other
    ensures Step(s, e) == s
  {
  }

  lemma PhaseSnoc(es: seq<Event>, e: Event)
    ensures PhaseOf(es + [e]) == if PhaseOf(es).None? then None else NextPhase(PhaseOf(es).value, e)
  {
    assert (es + [e])[..|es|] == es;
  }

  lemma TaggedAppend(es: seq<Event>, e: Event)
    ensures Tagged(es + [e]) == if e.tag == Other then Tagged(es) else Tagged(es) + [e]
  {
    assert (es + [e])[..|es|] == es && (es + [e])[|es|..] == [e];
  }

  lemma KeptEvent(a: seq<Event>, b: seq<Event>, e: Event)
    requires Run(a) == Run(b) && PhaseOf(a) == PhaseOf(b)
    ensures Run(a + [e]) == Run(b + [e]) && PhaseOf(a + [e]) == PhaseOf(b + [e])
  {
    RunSnoc(INITIAL, a, e);
    RunSnoc(INITIAL, b, e);
    PhaseSnoc(a, e);
    PhaseSnoc(b, e);
  }

  lemma DroppedEvent(es: seq<Event>, e: Event)
    requires e.tag == Other
    ensures Run(es + [e]) == Run(es) && PhaseOf(es + [e]) == PhaseOf(es)
  {
    RunSnoc(INITIAL, es, e);
    PhaseSnoc(es, e);
    OtherIgnored(Run(es), e);
  }

  lemma {:induction false} TaggedRun(es: seq<Event>)
    ensures Run(Tagged(es)) == Run(es) && PhaseOf(Tagged(es)) == PhaseOf(es)
    decreases |es|
  {
    if es != [] {
      var init, e := es[..|es| - 1], es[|es| - 1];
      TaggedRun(init);
      assert es == init + [e];
      TaggedAppend(init, e);
      if e.tag == Other {
        DroppedEvent(init, e);
      } else {
        KeptEvent(Tagged(init), init, e);
      }
    }
  }

  lemma AlikeStep(s: State, e: Event, f: Event)
    requires Valid(s) && Alike(e, f)
    ensures Step(s, e) == Step(s, f)
  {
  }

  lemma {:induction false} AlikeRun(a: seq<Event>, b: seq<Event>)
    requires |a| == |b| && forall k :: 0 <= k < |a| ==> Alike(a[k], b[k])
    ensures Run(a) == Run(b) && PhaseOf(a) == PhaseOf(b)
    decreases |a|
  {
    if a != [] {
      var n := |a| - 1;
      AlikeRun(a[..n], b[..n]);
      assert a == a[..n] + [a[n]] && b == b[..n] + [b[n]];
      RunSnoc(INITIAL, a[..n], a[n]);
      RunSnoc(INITIAL, b[..n], b[n]);
      PhaseSnoc(a[..n], a[n]);
      PhaseSnoc(b[..n], b[n]);
      AlikeStep(Run(a[..n]), a[n], b[n]);
    }
  }

  lemma RawPieceMonotone(t: string, u: string)
    requires t <= u && SafeGrowth(t, u)
    ensures RawPiece(t) <= RawPiece(u)
  {
    TrimOneMonotone(t, u);
    var v, w := TrimOne(t), TrimOne(u);
    if IsContainer(v) {
      NormalizeMonotone(w, |v|);
      assert w[..|v|] == v;
    }
  }

  /** The condition on container values is needed: at a bad cut neither text continues the other. */
  lemma RawPieceExact(t: string, u: string)
    requires t <= u
    ensures Comparable(RawPiece(t), RawPiece(u)) <==> SafeGrowth(t, u)
  {
    TrimOneMonotone(t, u);
    var v, w := TrimOne(t), TrimOne(u);
    if IsContainer(v) {
      NormalizeMonotone(w, |v|);
      NormalizeLonger(w, |v|);
      assert w[..|v|] == v;
    }
  }

  lemma DropCommon(c: string, x: string, y: string)
    requires c + x <= c + y
    ensures x <= y
  {
    assert (c + x)[|c|..] == x && (c + y)[|c|..] == y;
    assert (c + y)[..|c + x|] == c + x;
    assert y[..|x|] == x;
  }

  lemma KeyPrefix(k: string, k': string)
    requires Quote(k) + ":" <= Quote(k') + ":"
    ensures k == k'
  {
    var x, y := Quote(k) + ":", Quote(k') + ":";
    var rest := y[|x|..];
    assert y == x + rest;
    assert y == Quote(k) + (":" + rest);
    StringOf(k, ":" + rest);
    StringOf(k', ":");
  }

  /** A key is followed by its closing quote, so no key continues another. */
  lemma KeyEntryExact(count: nat, t: string, u: string)
    ensures Comparable(KeyEntry(count, t), KeyEntry(count, u)) <==> TrimKey(t) == TrimKey(u)
  {
    var c := if count > 0 then "," else "";
    var x, y := Quote(TrimKey(t)) + ":", Quote(TrimKey(u)) + ":";
    if c + x <= c + y {
      DropCommon(c, x, y);
      KeyPrefix(TrimKey(t), TrimKey(u));
    }
    if c + y <= c + x {
      DropCommon(c, y, x);
      KeyPrefix(TrimKey(u), TrimKey(t));
    }
  }

  lemma StringPieceMonotone(t: string, u: string)
    requires t <= u
    ensures StringPiece(false, t) <= StringPiece(false, u)
  {
    TrimOneMonotone(t, u);
    EscapeMonotone(TrimOne(t), TrimOne(u));
  }

  lemma TargetLengthened(s: State, t: string, u: string)
    requires Live(s) && t <= u
    ensures Extends(WithTarget(s, t).msg, WithTarget(s, u).msg)
  {
  }

  lemma ArgsLengthened(ph: Phase, s: State, t: string, u: string)
    requires Consistent(ph, s) && ph.InCall? && t <= u
    requires OpensObject(TrimTrailing(u, -1)) ==> ph.body == NoArgs
    ensures Extends(StepArgs(s, t).msg, StepArgs(s, u).msg)
  {
    TrimTrailingMonotone(t, u, -1);
    var v, w := TrimTrailing(t, -1), TrimTrailing(u, -1);
    if v != "" && v[0] == '{' {
      TargetLengthened(s, v, w);
    } else if w != "" && w[0] == '{' {
      WithTargetExtends(s, w);
    }
  }

  lemma NameLengthened(ph: Phase, s: State, t: string, u: string)
    requires Consistent(ph, s) && ph.InCall? && !ph.named && t <= u
    ensures Extends(StepName(s, t).msg, StepName(s, u).msg)
  {
    TrimTrailingMonotone(t, u, -1);
  }

  lemma ValueLengthened(s: State, isString: bool, t: string, u: string)
    requires Live(s) && t <= u && !s.quotePending && (!isString ==> SafeGrowth(t, u))
    ensures Extends(StepValue(s, isString, t).msg, StepValue(s, isString, u).msg)
  {
    if isString {
      StringPieceMonotone(t, u);
      TargetLengthened(s.(quotePending := true), Target(s) + StringPiece(false, t), Target(s) + StringPiece(false, u));
    } else {
      RawPieceMonotone(t, u);
      TargetLengthened(s, Target(s) + RawPiece(t), Target(s) + RawPiece(u));
    }
  }

  /** Before the call is named, its text is in the buffer and not in the message. */
  lemma TargetUnnamed(s: State, t: string, u: string)
    requires Live(s) && Tool(s).name == ""
    ensures Extends(WithTarget(s, t).msg, WithTarget(s, u).msg)
  {
  }

  lemma PlainValueLengthened(ph: Phase, s: State, t: string, u: string)
    requires Consistent(ph, s) && ph.InCall? && t <= u && !s.quotePending && (ph.named ==> SafeGrowth(t, u))
    ensures Extends(StepValue(s, false, t).msg, StepValue(s, false, u).msg)
  {
    if ph.named {
      ValueLengthened(s, false, t, u);
    } else {
      TargetUnnamed(s, Target(s) + RawPiece(t), Target(s) + RawPiece(u));
    }
  }

  lemma KeyLengthened(ph: Phase, s: State, t: string, u: string)
    requires Consistent(ph, s) && ph.InCall? && (ph.named ==> TrimKey(t) == TrimKey(u))
    ensures Extends(StepArgName(s, t).msg, StepArgName(s, u).msg)
  {
    if !ph.named {
      var start := if Target(s) == "" then "{" else Target(s);
      TargetUnnamed(s.(argCount := s.argCount + 1), start + KeyEntry(s.argCount, t), start + KeyEntry(s.argCount, u));
    }
  }

  lemma ToolLengthened(ph: Phase, s: State, e: Event, f: Event)
    requires Consistent(ph, s) && ph.InCall? && Longer(e, f) && !Alike(e, f) && (ph.named ==> !Rewrites(e, f))
    requires NextInCall(ph, e).Some? && NextInCall(ph, f).Some?
    ensures Extends(StepTool(s, e).msg, StepTool(s, f).msg)
  {
    match e.tag
    case ToolId =>
    case ToolArgs => ArgsLengthened(ph, s, e.text, f.text);
    case ToolName => NameLengthened(ph, s, e.text, f.text);
    case ArgName => KeyLengthened(ph, s, e.text, f.text);
    case ArgValue => PlainValueLengthened(ph, s, e.text, f.text);
    case ArgString => ValueLengthened(s, true, e.text, f.text);
  }

  lemma TextLengthened(s: State, e: Event, f: Event)
    requires Valid(s) && e.tag == f.tag && e.text <= f.text && OnText(e.tag)
    ensures Extends(Step(s, e).msg, Step(s, f).msg)
  {
  }

  /** A longer last node only grows the message, unless it is rewritten within a named call. */
  lemma LengthenExtends(ph: Phase, s: State, e: Event, f: Event)
    requires Consistent(ph, s) && Longer(e, f) && NextPhase(ph, e).Some? && NextPhase(ph, f).Some?
    requires InNamedCall(NextPhase(ph, e)) ==> !Rewrites(e, f)
    ensures Extends(Step(s, e).msg, Step(s, f).msg)
  {
    if Alike(e, f) {
      AlikeStep(s, e, f);
    } else if OnText(e.tag) {
      TextLengthened(s, e, f);
    } else {
      StepIsStepTool(s, e);
      StepIsStepTool(s, f);
      ToolLengthened(ph, s, e, f);
    }
  }

  lemma {:induction false} SuffixExtends(es: seq<Event>, k: nat)
    requires WellFormed(es) && k <= |es|
    ensures Extends(Run(es[..k]).msg, Run(es).msg)
    decreases |es|
  {
    if k == |es| {
      assert es[..k] == es;
    } else {
      var n := |es| - 1;
      SuffixExtends(es[..n], k);
      assert es[..n][..k] == es[..k];
      RunConsistent(es[..n]);
      AppendExtends(PhaseOf(es[..n]).value, Run(es[..n]), es[n]);
      ExtendsTransitive(Run(es[..k]).msg, Run(es[..n]).msg, Run(es).msg);
    }
  }

  lemma FinishExtends(s: State, s': State)
    requires Valid(s) && Valid(s') && Extends(s.msg, s'.msg)
    ensures Extends(Finish(s), Finish(s'))
  {
    var r, r' := s.msg.reasoning, s'.msg.reasoning;
    if Blank(r') {
      forall i | 0 <= i < |r|
        ensures BlankChar(r[i])
      {
        assert r[i] == r'[i];
      }
    }
  }

  // ---- what a rewritten node does

  /** Texts that part ways stay apart, whatever follows the longer one. */
  lemma StaysApart(base: string, x: string, y: string, more: string)
    requires !Comparable(x, y) && base + y <= more
    ensures !Comparable(base + x, more)
  {
    if base + x <= more {
      SamePrefix(base, x, y, more);
    } else if more <= base + x {
      SamePrefix(base, x, y, base + x);
    }
  }

  lemma SamePrefix(base: string, x: string, y: string, more: string)
    requires base + x <= more && base + y <= more
    ensures Comparable(x, y)
  {
    var rest := more[|base|..];
    assert x == rest[..|x|] by {
      assert (base + x)[|base|..] == x;
      assert more[..|base + x|] == base + x;
    }
    assert y == rest[..|y|] by {
      assert (base + y)[|base|..] == y;
      assert more[..|base + y|] == base + y;
    }
    if |x| <= |y| {
      assert y[..|x|] == x;
    } else {
      assert x[..|y|] == y;
    }
  }

  /** The text of a named call after one of these nodes is some common text and the node's own. */
  lemma RewrittenTexts(ph: Phase, s: State, e: Event, f: Event) returns (base: string, x: string, y: string)
    requires Consistent(ph, s) && ph.InCall? && ph.named && Longer(e, f) && Rewrites(e, f)
    requires NextInCall(ph, e).Some?
    ensures !Comparable(x, y)
    ensures Live(Step(s, e)) && Step(s, e).cursor == s.cursor && Tool(Step(s, e)).arguments == base + x
    ensures Live(Step(s, f)) && Step(s, f).cursor == s.cursor && Tool(Step(s, f)).arguments == base + y
  {
    if e.tag == ArgValue {
      base, x, y := Target(s), RawPiece(e.text), RawPiece(f.text);
      RawPieceExact(e.text, f.text);
    } else {
      base := if Target(s) == "" then "{" else Target(s);
      x, y := KeyEntry(s.argCount, e.text), KeyEntry(s.argCount, f.text);
      KeyEntryExact(s.argCount, e.text, f.text);
    }
  }

  lemma TornLater(p: Msg, m: Msg, n: Msg, base: string, x: string, y: string)
    requires !Comparable(x, y) && 0 < |p.calls| == |m.calls| && Extends(m, n)
    requires p.calls[|p.calls| - 1].arguments == base + x && m.calls[|p.calls| - 1].arguments == base + y
    ensures Torn(p, n)
  {
    StaysApart(base, x, y, n.calls[|p.calls| - 1].arguments);
  }

  lemma RewriteTears(ph: Phase, s: State, e: Event, f: Event, n: Msg)
    requires Consistent(ph, s) && Longer(e, f) && NextPhase(ph, e).Some? && InNamedCall(NextPhase(ph, e))
    requires Rewrites(e, f) && Extends(Step(s, f).msg, n)
    ensures Torn(Step(s, e).msg, n)
  {
    var base, x, y := RewrittenTexts(ph, s, e, f);
    TornLater(Step(s, e).msg, Step(s, f).msg, n, base, x, y);
  }

  lemma FinishTorn(s: State, s': State)
    requires Valid(s) && Valid(s') && Torn(s.msg, s'.msg)
    ensures Torn(Finish(s), Finish(s'))
  {
  }

  // ---------------------------------------------------------------- the mapper over a growing run

  /** Over a growing run the mapper's message only grows, and diffing it does not throw, if and only if
      the run does not rewrite its last node within a named call. The flush at the end of a parse and
      the discard of blank reasoning keep this. */
  lemma MapperMonotone(es: seq<Event>, fs: seq<Event>)
    requires WellFormed(es) && WellFormed(fs) && Grows(es, fs)
    ensures Extends(Parse(es), Parse(fs)) <==> !Rewritten(es, fs)
    ensures Rewritten(es, fs) ==> Torn(Parse(es), Parse(fs))
  {
    TaggedRun(es);
    TaggedRun(fs);
    RunConsistent(es);
    RunConsistent(fs);
    if Rewritten(es, fs) {
      TaggedTorn(Tagged(es), Tagged(fs));
      FinishTorn(Run(es), Run(fs));
      TornThrows(Parse(es), Parse(fs));
    } else {
      if Tagged(es) != [] {
        TaggedMonotone(Tagged(es), Tagged(fs));
      }
      FinishExtends(Run(es), Run(fs));
    }
  }

  /** The server throws on a later parse exactly then. */
  lemma ThrowsOnRewrite(es: seq<Event>, fs: seq<Event>)
    requires WellFormed(es) && WellFormed(fs) && Grows(es, fs)
    ensures Diffs(Parse(es), Parse(fs)).Err? <==> Rewritten(es, fs)
  {
    MapperMonotone(es, fs);
    if Rewritten(es, fs) {
      TornThrows(Parse(es), Parse(fs));
    } else {
      ExtendsNoThrow(Parse(es), Parse(fs));
    }
  }

  lemma ExtendsNoThrow(p: Msg, n: Msg)
    requires Extends(p, n)
    ensures Diffs(p, n).Ok?
  {
    ThrowsExactly(p, n);
  }

  ghost predicate SameButLast(a: seq<Event>, b: seq<Event>) {
    && 0 < |a| <= |b| && (forall k :: 0 <= k < |a| - 1 ==> Alike(a[k], b[k]))
    && Longer(a[|a| - 1], b[|a| - 1])
  }

  lemma TaggedMonotone(a: seq<Event>, b: seq<Event>)
    requires WellFormed(a) && WellFormed(b) && SameButLast(a, b)
    requires InNamedCall(PhaseOf(a)) ==> !Rewrites(a[|a| - 1], b[|a| - 1])
    ensures Extends(Run(a).msg, Run(b).msg)
  {
    var n := |a| - 1;
    var mid := b[..n + 1];
    PrefixWellFormed(b, n + 1);
    assert a == a[..n] + [a[n]] && mid == b[..n] + [b[n]];
    AlikeRun(a[..n], b[..n]);
    LastMonotone(a[..n], b[..n], a[n], b[n]);
    SuffixExtends(b, n + 1);
    ExtendsTransitive(Run(a).msg, Run(mid).msg, Run(b).msg);
  }

  lemma LastMonotone(a: seq<Event>, b: seq<Event>, e: Event, f: Event)
    requires WellFormed(a + [e]) && WellFormed(b + [f]) && Longer(e, f)
    requires Run(a) == Run(b) && PhaseOf(a) == PhaseOf(b) && (InNamedCall(PhaseOf(a + [e])) ==> !Rewrites(e, f))
    ensures Extends(Run(a + [e]).msg, Run(b + [f]).msg)
  {
    RunSnoc(INITIAL, a, e);
    RunSnoc(INITIAL, b, f);
    PhaseSnoc(a, e);
    PhaseSnoc(b, f);
    RunConsistent(a);
    LengthenExtends(PhaseOf(a).value, Run(a), e, f);
  }

  lemma TaggedTorn(a: seq<Event>, b: seq<Event>)
    requires WellFormed(a) && WellFormed(b) && SameButLast(a, b)
    requires InNamedCall(PhaseOf(a)) && Rewrites(a[|a| - 1], b[|a| - 1])
    ensures Torn(Run(a).msg, Run(b).msg)
  {
    var n := |a| - 1;
    PrefixWellFormed(b, n + 1);
    assert a == a[..n] + [a[n]] && b[..n + 1] == b[..n] + [b[n]];
    AlikeRun(a[..n], b[..n]);
    SuffixExtends(b, n + 1);
    LastTorn(a[..n], b[..n], a[n], b[n], Run(b).msg);
  }

  lemma LastTorn(a: seq<Event>, b: seq<Event>, e: Event, f: Event, n: Msg)
    requires WellFormed(a + [e]) && WellFormed(b + [f]) && Longer(e, f)
    requires Run(a) == Run(b) && PhaseOf(a) == PhaseOf(b) && InNamedCall(PhaseOf(a + [e])) && Rewrites(e, f)
    requires Extends(Run(b + [f]).msg, n)
    ensures Torn(Run(a + [e]).msg, n)
  {
    RunSnoc(INITIAL, a, e);
    RunSnoc(INITIAL, b, f);
    PhaseSnoc(a, e);
    PhaseSnoc(b, f);
    RunConsistent(a);
    RewriteTears(PhaseOf(a).value, Run(a), e, f, n);
  }

  // ---------------------------------------------------------------- whole streams

  function Parses(stages: seq<seq<Event>>): (ms: seq<Msg>)
    ensures |ms| == |stages|
  {
    if stages == [] then [] else [Parse(stages[0])] + Parses(stages[1..])
  }

  /** Every stage is well-formed and grows from the one before, the first from `es`. */
  ghost predicate StagesGrow(es: seq<Event>, stages: seq<seq<Event>>)
    decreases |stages|
  {
    stages == [] || (WellFormed(stages[0]) && Grows(es, stages[0]) && StagesGrow(stages[0], stages[1..]))
  }

  lemma ParsesCons(stages: seq<seq<Event>>)
    requires stages != []
    ensures Parses(stages)[0] == Parse(stages[0]) && Parses(stages)[1..] == Parses(stages[1..])
  {
  }

  /** Some stage rewrites the last node of the one before, within a named call. */
  ghost predicate RewrittenSomewhere(es: seq<Event>, stages: seq<seq<Event>>)
    decreases |stages|
  {
    stages != [] && (Rewritten(es, stages[0]) || RewrittenSomewhere(stages[0], stages[1..]))
  }

  lemma {:induction false} ParsesGrow(es: seq<Event>, stages: seq<seq<Event>>)
    requires WellFormed(es) && StagesGrow(es, stages)
    ensures if RewrittenSomewhere(es, stages) then TornSomewhere(Parse(es), Parses(stages))
            else Growing(Parse(es), Parses(stages))
    decreases |stages|
  {
    if stages != [] {
      MapperMonotone(es, stages[0]);
      ParsesGrow(stages[0], stages[1..]);
      ParsesCons(stages);
      GrowingCons(Parse(es), Parses(stages));
    }
  }

  /** An answer that arrives in stages, each parsed afresh by a new mapper, diffed by the server and
      folded by the client. The server throws if and only if some stage rewrites the last node of the
      one before within a named call. Otherwise the server ends with the parse of the last stage, and
      the client holds that same message if and only if no stage grew the reasoning by a text that
      begins with the content already shown while the content stood still. */
  lemma StreamRebuilds(stages: seq<seq<Event>>, gen: nat -> string)
    requires StagesGrow([], stages)
    ensures Stream(EMPTY_SLOT, EMPTY_MSG, Parses(stages), gen).Ok? <==> !RewrittenSomewhere([], stages)
    ensures Stream(EMPTY_SLOT, EMPTY_MSG, Parses(stages), gen).Ok? ==>
            var Ends(slot, client) := Stream(EMPTY_SLOT, EMPTY_MSG, Parses(stages), gen).value;
            && Holds(slot, Last(EMPTY_MSG, Parses(stages)))
            && client.content == slot.msg.content && client.calls == slot.msg.calls
            && (client == slot.msg <==> !OverlapsSomewhere(EMPTY_MSG, Parses(stages)))
  {
    assert Parse([]) == EMPTY_MSG;
    ParsesGrow([], stages);
    if RewrittenSomewhere([], stages) {
      StreamTorn(EMPTY_SLOT, EMPTY_MSG, EMPTY_MSG, Parses(stages), gen);
    } else {
      StreamExact(EMPTY_SLOT, EMPTY_MSG, EMPTY_MSG, Parses(stages), gen);
    }
  }

  /** An answer whose reasoning comes before its content, and whose stages do not rewrite, is rebuilt
      exactly. */
  lemma StreamLossless(stages: seq<seq<Event>>, gen: nat -> string)
    requires StagesGrow([], stages) && !RewrittenSomewhere([], stages) && ReasonsFirst(EMPTY_MSG, Parses(stages))
    ensures var r := Stream(EMPTY_SLOT, EMPTY_MSG, Parses(stages), gen);
            && r.Ok? && r.value.client == r.value.slot.msg
            && Holds(r.value.slot, Last(EMPTY_MSG, Parses(stages)))
  {
    ReasonsFirstNeverOverlaps(EMPTY_MSG, Parses(stages));
    StreamRebuilds(stages, gen);
  }
}
