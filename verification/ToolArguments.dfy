/** What the mapper makes of one tool call, from open to close. */
module ToolArguments {
  import opened Wrappers
  import opened Text
  import opened Chat
  import opened Json
  import opened Quotes
  import opened Mapper
  import opened Streaming

  // ---------------------------------------------------------------- the call, name aside

  /** A call under assembly as its own events see it, wherever the text is being kept. */
  datatype View = View(text: string, count: nat, quote: bool, id: string)

  const FRESH := View("{", 0, false, "")

  /** The events of a call between open and close, other than its name. */
  predicate IsBody(t: Tag) {
    match t
    case ToolId | ToolArgs | ArgOpen | ArgName | ArgValue | ArgString | ArgClose => true
    case _ => false
  }

  function BodyStep(v: View, e: Event): View {
    match e.tag
    case ToolId => v.(id := IdOf(e.text))
    case ToolArgs => if Inert(e) then v else v.(text := TrimTrailing(e.text, -1))
    case ArgOpen => v.(quote := false)
    case ArgName => v.(text := v.text + KeyEntry(v.count, e.text), count := v.count + 1)
    case ArgValue => v.(text := v.text + RawPiece(e.text))
    case ArgString => v.(text := v.text + StringPiece(v.quote, e.text), quote := true)
    case ArgClose => if v.quote then v.(text := v.text + "\"", quote := false) else v
    case _ => v
  }

  function BodyRun(v: View, es: seq<Event>): View
    decreases |es|
  {
    if es == [] then v else BodyStep(BodyRun(v, es[..|es| - 1]), es[|es| - 1])
  }

  function ViewOf(s: State): View
    requires Live(s)
  {
    View(if Tool(s).name != "" then Tool(s).arguments else if s.argsBuffer == "" then "{" else s.argsBuffer,
         s.argCount, s.quotePending, Tool(s).id)
  }

  /** Everything of the state that the events of one call leave alone. */
  predicate SameElsewhere(s: State, s': State)
    requires Live(s) && Live(s')
  {
    && s'.cursor == s.cursor && Tool(s').name == Tool(s).name && s'.dangling == s.dangling
    && s'.msg.content == s.msg.content && s'.msg.reasoning == s.msg.reasoning
    && |s'.msg.calls| == |s.msg.calls|
    && var n := if s.cursor.AtIndex? then s.cursor.index else |s.msg.calls|;
       s'.msg.calls[..n] == s.msg.calls[..n]
  }

  lemma TargetElsewhere(s: State, s0: State, text: string)
    requires Live(s0) && Live(s) && s0 == s.(argCount := s0.argCount, quotePending := s0.quotePending)
    ensures SameElsewhere(s0, WithTarget(s, text)) && Tool(WithTarget(s, text)).id == Tool(s0).id
    ensures WithTarget(s, text).argCount == s.argCount && WithTarget(s, text).quotePending == s.quotePending
  {
  }

  lemma ViewTarget(s: State, text: string)
    requires Live(s) && text != ""
    ensures ViewOf(WithTarget(s, text)).text == text
  {
  }

  /** Buffered or direct, an event does the same thing to the text under assembly. */
  lemma ViewStep(ph: Phase, s: State, e: Event)
    requires Consistent(ph, s) && ph.InCall? && IsBody(e.tag) && NextInCall(ph, e).Some?
    ensures Live(Step(s, e)) && ViewOf(Step(s, e)) == BodyStep(ViewOf(s), e) && SameElsewhere(s, Step(s, e))
  {
    var v := ViewOf(s);
    match e.tag
    case ToolId =>
    case ArgOpen =>
    case ToolArgs =>
      if !Inert(e) {
        var t := TrimTrailing(e.text, -1);
        TargetElsewhere(s, s, t);
        ViewTarget(s, t);
      }
    case ArgName =>
      var s1, t := s.(argCount := s.argCount + 1), v.text + KeyEntry(s.argCount, e.text);
      TargetElsewhere(s1, s, t);
      ViewTarget(s1, t);
    case ArgValue =>
      var t := v.text + RawPiece(e.text);
      TargetElsewhere(s, s, t);
      ViewTarget(s, t);
    case ArgString =>
      var s1, t := s.(quotePending := true), v.text + StringPiece(v.quote, e.text);
      TargetElsewhere(s1, s, t);
      ViewTarget(s1, t);
    case ArgClose =>
      if v.quote {
        var s1, t := s.(quotePending := false), v.text + "\"";
        TargetElsewhere(s1, s, t);
        ViewTarget(s1, t);
      }
  }

  /** Naming the call moves the text from the buffer into the call and changes nothing else of it. */
  lemma ViewName(ph: Phase, s: State, text: string)
    requires Consistent(ph, s) && ph.InCall? && !ph.named && !BlankName(text)
    ensures var s' := StepName(s, text);
            && ViewOf(s') == ViewOf(s) && s'.msg.content == s.msg.content && s'.msg.reasoning == s.msg.reasoning
            && s'.msg.calls == s.msg.calls + [ToolCall(TrimTrailing(text, -1), ViewOf(s).text, ViewOf(s).id)]
  {
  }

  lemma {:induction false} ViewRun(ph: Phase, s: State, es: seq<Event>)
    requires Consistent(ph, s) && ph.InCall? && forall e :: e in es ==> IsBody(e.tag)
    requires PhaseFrom(ph, es).Some?
    ensures PhaseFrom(ph, es).value.InCall? && PhaseFrom(ph, es).value.named == ph.named
    ensures var s' := RunFrom(s, es);
            && Consistent(PhaseFrom(ph, es).value, s')
            && ViewOf(s') == BodyRun(ViewOf(s), es) && SameElsewhere(s, s')
    decreases |es|
  {
    if es != [] {
      var n := |es| - 1;
      ViewRun(ph, s, es[..n]);
      var ph1, s1 := PhaseFrom(ph, es[..n]).value, RunFrom(s, es[..n]);
      AppendExtends(ph1, s1, es[n]);
      ViewStep(ph1, s1, es[n]);
    }
  }

  lemma {:induction false} PhaseUnnamed(b: Streaming.Body, es: seq<Event>)
    requires forall e :: e in es ==> IsBody(e.tag)
    requires PhaseFrom(InCall(false, b), es).Some?
    ensures PhaseFrom(InCall(false, b), es).value.InCall? && !PhaseFrom(InCall(false, b), es).value.named
    ensures PhaseFrom(InCall(true, b), es) ==
            Some(InCall(true, PhaseFrom(InCall(false, b), es).value.body))
    decreases |es|
  {
    if es != [] {
      PhaseUnnamed(b, es[..|es| - 1]);
    }
  }

  lemma {:induction false} PhaseConcat(ph: Phase, es: seq<Event>, fs: seq<Event>)
    requires PhaseFrom(ph, es + fs).Some?
    ensures PhaseFrom(ph, es).Some? && PhaseFrom(PhaseFrom(ph, es).value, fs) == PhaseFrom(ph, es + fs)
    decreases |fs|
  {
    if fs == [] {
      assert es + fs == es;
    } else {
      var n := |fs| - 1;
      assert (es + fs)[..|es| + n] == es + fs[..n];
      PhaseConcat(ph, es, fs[..n]);
    }
  }

  lemma {:induction false} BodyConcat(v: View, es: seq<Event>, fs: seq<Event>)
    ensures BodyRun(v, es + fs) == BodyRun(BodyRun(v, es), fs)
    decreases |fs|
  {
    if fs == [] {
      assert es + fs == es;
    } else {
      var n := |fs| - 1;
      assert (es + fs)[..|es| + n] == es + fs[..n];
      BodyConcat(v, es, fs[..n]);
    }
  }

  // ---------------------------------------------------------------- whole calls

  /** A body the grammar can produce between open and close, with the name left out. */
  predicate CallBody(body: seq<Event>) {
    (forall e :: e in body ==> IsBody(e.tag)) && PhaseFrom(InCall(false, NoArgs), body).Some?
  }

  /** The events of a call whose name comes after the first `k` events of its body. */
  function CallEvents(body: seq<Event>, name: string, k: nat): seq<Event>
    requires k <= |body|
  {
    [Event(ToolOpen, "")] + body[..k] + [Event(ToolName, name)] + body[k..] + [Event(ToolClose, "")]
  }

  function ClosedArguments(v: View): string {
    CloseBraces(v.text + (if v.quote then "\"" else ""))
  }

  lemma CloseNamed(s: State)
    requires Live(s) && s.cursor.AtIndex? && Tool(s).name != "" && s.argsBuffer == ""
    ensures StepClose(s).msg ==
            s.msg.(calls := s.msg.calls[s.cursor.index := Tool(s).(arguments := ClosedArguments(ViewOf(s)))])
  {
  }

  lemma OpenView(s: State)
    requires Valid(s) && !s.dangling
    ensures Consistent(InCall(false, NoArgs), StepOpen(s)) && ViewOf(StepOpen(s)) == FRESH
    ensures StepOpen(s).msg == s.msg && Tool(StepOpen(s)).name == ""
  {
  }

  /** The state after open, the first part of the body, the name and the rest of the body. */
  lemma AssembledCall(s: State, first: seq<Event>, rest: seq<Event>, name: string)
    requires Valid(s) && !s.dangling && CallBody(first + rest) && !BlankName(name)
    ensures var s1 := RunFrom(StepOpen(s), first);
            Live(s1) &&
            var s3 := RunFrom(StepName(s1, name), rest);
            && Live(s3) && s3.cursor == AtIndex(|s.msg.calls|) && s3.argsBuffer == ""
            && ViewOf(s3) == BodyRun(FRESH, first + rest)
            && s3.msg == s.msg.(calls := s.msg.calls + [Tool(s3)])
            && Tool(s3) == ToolCall(TrimTrailing(name, -1), ViewOf(s3).text, ViewOf(s3).id)
  {
    var ph0 := InCall(false, NoArgs);
    PhaseConcat(ph0, first, rest);
    forall e | e in first || e in rest
      ensures IsBody(e.tag)
    {
      assert e in first + rest;
    }
    BeforeName(s, first);
    var ph1, s1 := PhaseFrom(ph0, first).value, RunFrom(StepOpen(s), first);
    AfterName(ph1, s1, rest, name);
    BodyConcat(FRESH, first, rest);
  }

  lemma BeforeName(s: State, first: seq<Event>)
    requires Valid(s) && !s.dangling && CallBody(first)
    ensures var ph, s1 := PhaseFrom(InCall(false, NoArgs), first).value, RunFrom(StepOpen(s), first);
            ph.InCall? && !ph.named && Consistent(ph, s1) && ViewOf(s1) == BodyRun(FRESH, first) && s1.msg == s.msg
  {
    var s0 := StepOpen(s);
    OpenView(s);
    ViewRun(InCall(false, NoArgs), s0, first);
    var s1 := RunFrom(s0, first);
    assert s1.msg.calls[..|s.msg.calls|] == s1.msg.calls;
  }

  lemma AfterName(ph: Phase, s: State, rest: seq<Event>, name: string)
    requires ph.InCall? && !ph.named && Consistent(ph, s) && !BlankName(name)
    requires (forall e :: e in rest ==> IsBody(e.tag)) && PhaseFrom(ph, rest).Some?
    ensures var s3 := RunFrom(StepName(s, name), rest);
            && Live(s3) && s3.cursor == AtIndex(|s.msg.calls|) && s3.argsBuffer == ""
            && ViewOf(s3) == BodyRun(ViewOf(s), rest)
            && s3.msg == s.msg.(calls := s.msg.calls + [Tool(s3)])
            && Tool(s3) == ToolCall(TrimTrailing(name, -1), ViewOf(s3).text, ViewOf(s3).id)
  {
    ViewName(ph, s, name);
    NameExtends(ph, s, name);
    PhaseUnnamed(ph.body, rest);
    var s2 := StepName(s, name);
    ViewRun(ph.(named := true), s2, rest);
    OnlyLastChanged(s, s2, RunFrom(s2, rest));
  }

  lemma OnlyLastChanged(s: State, s2: State, s3: State)
    requires Live(s2) && Live(s3) && s2.cursor == AtIndex(|s.msg.calls|) && SameElsewhere(s2, s3)
    requires |s2.msg.calls| == |s.msg.calls| + 1 && s2.msg.calls[..|s.msg.calls|] == s.msg.calls
    requires s2.msg.content == s.msg.content && s2.msg.reasoning == s.msg.reasoning
    ensures s3.msg == s.msg.(calls := s.msg.calls + [Tool(s3)])
  {
    var n := |s.msg.calls|;
    assert s3.msg.calls[..n] == s.msg.calls;
    assert s3.msg.calls == s3.msg.calls[..n] + [s3.msg.calls[n]];
  }

  lemma RunParts(s: State, open: Event, a: seq<Event>, named: Event, b: seq<Event>, close: Event)
    requires Valid(s)
    ensures RunFrom(s, [open] + a + [named] + b + [close]) ==
            Step(RunFrom(Step(RunFrom(Step(s, open), a), named), b), close)
  {
    RunSnoc(s, [], open);
    assert [] + [open] == [open];
    RunConcat(s, [open], a);
    RunSnoc(s, [open] + a, named);
    RunConcat(s, [open] + a + [named], b);
    RunSnoc(s, [open] + a + [named] + b, close);
  }

  lemma StepsOfCall(s: State, name: string)
    requires Valid(s)
    ensures Step(s, Event(ToolOpen, "")) == StepOpen(s)
    ensures Live(s) ==> Step(s, Event(ToolName, name)) == StepName(s, name)
    ensures Live(s) ==> Step(s, Event(ToolClose, "")) == StepClose(s)
  {
  }

  lemma CallRun(s: State, body: seq<Event>, name: string, k: nat)
    requires Valid(s) && k <= |body| && Live(RunFrom(StepOpen(s), body[..k]))
    requires Live(RunFrom(StepName(RunFrom(StepOpen(s), body[..k]), name), body[k..]))
    ensures RunFrom(s, CallEvents(body, name, k)) ==
            StepClose(RunFrom(StepName(RunFrom(StepOpen(s), body[..k]), name), body[k..]))
  {
    RunParts(s, Event(ToolOpen, ""), body[..k], Event(ToolName, name), body[k..], Event(ToolClose, ""));
    StepsOfCall(s, name);
    var s1 := RunFrom(StepOpen(s), body[..k]);
    StepsOfCall(s1, name);
    StepsOfCall(RunFrom(StepName(s1, name), body[k..]), name);
  }

  /** A finished call depends on its body and its name, not on where among the body the name came:
      what was buffered before the name and what went straight into the call after it join up. */
  lemma CallAssembled(s: State, body: seq<Event>, name: string, k: nat)
    requires Valid(s) && !s.dangling && CallBody(body) && !BlankName(name) && k <= |body|
    ensures var v := BodyRun(FRESH, body);
            RunFrom(s, CallEvents(body, name, k)).msg ==
            s.msg.(calls := s.msg.calls + [ToolCall(TrimTrailing(name, -1), ClosedArguments(v), v.id)])
  {
    assert body[..k] + body[k..] == body;
    AssembledCall(s, body[..k], body[k..], name);
    CallRun(s, body, name, k);
    var s3 := RunFrom(StepName(RunFrom(StepOpen(s), body[..k]), name), body[k..]);
    CloseNamed(s3);
  }

  // ---------------------------------------------------------------- tagged arguments

  /** One tagged argument: the texts of its open, key, value and close nodes. */
  datatype Arg = Arg(open: string, key: string, isString: bool, value: string, close: string)

  function ArgEvents(a: Arg): seq<Event> {
    [Event(ArgOpen, a.open), Event(ArgName, a.key),
     Event(if a.isString then ArgString else ArgValue, a.value), Event(ArgClose, a.close)]
  }

  function TaggedBody(args: seq<Arg>): seq<Event> {
    if args == [] then [] else TaggedBody(args[..|args| - 1]) + ArgEvents(args[|args| - 1])
  }

  /** The value as it stands in the arguments. */
  function ValueText(a: Arg): string {
    if a.isString then Quote(TrimOne(a.value)) else RawPiece(a.value)
  }

  function MemberText(a: Arg): string {
    Quote(TrimKey(a.key)) + ":" + ValueText(a)
  }

  function MemberTexts(args: seq<Arg>): seq<string> {
    seq(|args|, i requires 0 <= i < |args| => MemberText(args[i]))
  }

  function ObjectText(args: seq<Arg>): string {
    "{" + Joined(MemberTexts(args)) + "}"
  }

  lemma ArgPhase(b: Streaming.Body, a: Arg)
    requires b == NoArgs || b == ArgDone
    ensures PhaseFrom(InCall(false, b), ArgEvents(a)) == Some(InCall(false, ArgDone))
  {
    var es, ph := ArgEvents(a), InCall(false, b);
    assert es[..3][..2] == es[..2] && es[..2][..1] == es[..1] && es[..1][..0] == [];
    assert PhaseFrom(ph, es[..1]) == Some(InCall(false, ArgStart));
    assert PhaseFrom(ph, es[..2]) == Some(InCall(false, HaveKey));
    assert PhaseFrom(ph, es[..3]) == Some(InCall(false, HaveValue));
  }

  lemma BodyRunOne(v: View, es: seq<Event>, n: nat)
    requires n < |es|
    ensures BodyRun(v, es[..n + 1]) == BodyStep(BodyRun(v, es[..n]), es[n])
  {
    assert es[..n + 1][..n] == es[..n];
  }

  lemma BodyRunThree(v: View, es: seq<Event>)
    requires |es| >= 3
    ensures BodyRun(v, es[..3]) == BodyStep(BodyStep(BodyStep(v, es[0]), es[1]), es[2])
  {
    BodyRunOne(v, es, 0);
    BodyRunOne(v, es, 1);
    BodyRunOne(v, es, 2);
    assert es[..0] == [];
  }

  lemma StringPieceOpens(text: string)
    ensures StringPiece(false, text) == "\"" + Escape(TrimOne(text))
  {
    assert Escape("") == "";
  }

  function Comma(v: View): string {
    if v.count > 0 then "," else ""
  }

  /** The first three nodes of an argument: the value is written, its closing quote may be owed. */
  lemma ArgOpenView(v: View, a: Arg)
    ensures var w := BodyRun(v, ArgEvents(a)[..3]);
            && w.count == v.count + 1 && w.id == v.id && w.quote == a.isString
            && w.text == v.text + (Comma(v) + (Quote(TrimKey(a.key)) + ":")) +
                         (if a.isString then "\"" + Escape(TrimOne(a.value)) else RawPiece(a.value))
  {
    BodyRunThree(v, ArgEvents(a));
    StringPieceOpens(a.value);
  }

  lemma JoinMember(text: string, comma: string, key: string, value: string)
    ensures text + (comma + (key + ":")) + value == text + comma + (key + ":" + value)
  {
  }

  lemma JoinQuote(text: string, e: string)
    ensures text + ("\"" + e) + "\"" == text + ("\"" + e + "\"")
  {
  }

  lemma ArgView(v: View, a: Arg)
    ensures BodyRun(v, ArgEvents(a)) == View(v.text + Comma(v) + MemberText(a), v.count + 1, false, v.id)
  {
    var es, key := ArgEvents(a), Quote(TrimKey(a.key));
    ArgOpenView(v, a);
    BodyRunOne(v, es, 3);
    assert es[..4] == es;
    JoinMember(v.text, Comma(v), key, ValueText(a));
    if a.isString {
      JoinQuote(v.text + (Comma(v) + (key + ":")), Escape(TrimOne(a.value)));
    }
  }

  lemma {:induction false} TaggedTags(args: seq<Arg>)
    ensures forall e :: e in TaggedBody(args) ==> IsBody(e.tag)
    decreases |args|
  {
    if args != [] {
      TaggedTags(args[..|args| - 1]);
    }
  }

  lemma {:induction false} TaggedPhase(args: seq<Arg>)
    ensures PhaseFrom(InCall(false, NoArgs), TaggedBody(args)) ==
            Some(InCall(false, if args == [] then NoArgs else ArgDone))
    decreases |args|
  {
    if args != [] {
      var n := |args| - 1;
      var init, a := args[..n], args[n];
      TaggedPhase(init);
      ArgPhase(if init == [] then NoArgs else ArgDone, a);
      PhaseJoin(InCall(false, NoArgs), TaggedBody(init), ArgEvents(a));
    }
  }

  function ViewAfter(args: seq<Arg>): View {
    View("{" + Joined(MemberTexts(args)), |args|, false, "")
  }

  lemma ViewSnoc(args: seq<Arg>, a: Arg)
    ensures BodyRun(ViewAfter(args), ArgEvents(a)) == ViewAfter(args + [a])
  {
    var texts, v := MemberTexts(args), ViewAfter(args);
    ArgView(v, a);
    assert MemberTexts(args + [a]) == texts + [MemberText(a)];
    JoinedSnoc(texts, MemberText(a));
    JoinTail("{", Joined(texts), Comma(v), MemberText(a));
  }

  lemma JoinTail(open: string, members: string, comma: string, member: string)
    ensures (open + members) + comma + member == open + (members + comma + member)
    ensures members == "" && comma == "" ==> members + comma + member == member
  {
  }

  predicate Viewed(args: seq<Arg>) {
    BodyRun(FRESH, TaggedBody(args)) == ViewAfter(args)
  }

  lemma {:induction false} TaggedView(args: seq<Arg>)
    ensures Viewed(args)
    decreases |args|
  {
    if args == [] {
      EmptyView();
    } else {
      TaggedView(args[..|args| - 1]);
      TaggedViewSnoc(args[..|args| - 1], args[|args| - 1], args);
    }
  }

  lemma TaggedViewSnoc(init: seq<Arg>, a: Arg, args: seq<Arg>)
    requires Viewed(init) && init + [a] == args
    ensures Viewed(args)
  {
    TaggedSnoc(init, a);
    ViewSnoc(init, a);
  }

  lemma TaggedSnoc(args: seq<Arg>, a: Arg)
    ensures BodyRun(FRESH, TaggedBody(args + [a])) == BodyRun(BodyRun(FRESH, TaggedBody(args)), ArgEvents(a))
  {
    assert (args + [a])[..|args|] == args;
    assert TaggedBody(args + [a]) == TaggedBody(args) + ArgEvents(a);
    BodyConcat(FRESH, TaggedBody(args), ArgEvents(a));
  }

  lemma EmptyView()
    ensures Viewed([])
  {
    assert "{" + "" == "{";
  }

  lemma {:induction false} PhaseJoin(ph: Phase, es: seq<Event>, fs: seq<Event>)
    requires PhaseFrom(ph, es).Some?
    ensures PhaseFrom(ph, es + fs) == PhaseFrom(PhaseFrom(ph, es).value, fs)
    decreases |fs|
  {
    if fs == [] {
      assert es + fs == es;
    } else {
      var n := |fs| - 1;
      assert (es + fs)[..|es| + n] == es + fs[..n];
      PhaseJoin(ph, es, fs[..n]);
    }
  }

  // ---------------------------------------------------------------- what the arguments denote

  /** A non-string value must be JSON text (once its quotes are normalised); a string may be any text. */
  predicate Meaningful(a: Arg) {
    !a.isString ==> IsJsonText(RawPiece(a.value))
  }

  function Denoted(a: Arg): (string, Value)
    requires Meaningful(a)
  {
    (TrimKey(a.key), if a.isString then String(TrimOne(a.value)) else ReadValue(RawPiece(a.value)).value)
  }

  function DenotedAll(args: seq<Arg>): seq<(string, Value)>
    requires forall i :: 0 <= i < |args| ==> Meaningful(args[i])
  {
    seq(|args|, i requires 0 <= i < |args| => Denoted(args[i]))
  }

  lemma MemberTextReads(a: Arg)
    requires Meaningful(a)
    ensures MemberReads(MemberText(a), Denoted(a))
  {
    var (key, v) := Denoted(a);
    forall t | EndsPart(t)
      ensures var r := ReadValue(ValueText(a) + t); r.Got? && r.value == v && SkipWs(r.rest) == t
    {
      if a.isString {
        StringOf(TrimOne(a.value), t);
      } else {
        var raw := RawPiece(a.value);
        ValueExtend(raw, t);
        SkipWsExtend(ReadValue(raw).rest, t);
      }
    }
    MemberReadsOf(key, ValueText(a), v);
  }

  /** The assembled object reads back as the arguments that went in, in order. */
  lemma ReadObjectText(args: seq<Arg>)
    requires forall i :: 0 <= i < |args| ==> Meaningful(args[i])
    ensures ReadValue(ObjectText(args)) == Got(Object(DenotedAll(args)), "")
  {
    var parts, ms := MemberTexts(args), DenotedAll(args);
    forall i | 0 <= i < |args|
      ensures MemberReads(parts[i], ms[i])
    {
      MemberTextReads(args[i]);
    }
    ObjectOfParts(parts, ms, "");
    assert ObjectText(args) + "" == ObjectText(args);
  }

  /** A tagged call, whatever came before it and wherever its name falls, adds one call whose
      arguments are the JSON object of exactly the given keys and values, in their order. */
  lemma TaggedCallRoundTrip(s: State, args: seq<Arg>, name: string, k: nat)
    requires Valid(s) && !s.dangling && !BlankName(name) && k <= |TaggedBody(args)|
    requires forall i :: 0 <= i < |args| ==> Meaningful(args[i])
    ensures RunFrom(s, CallEvents(TaggedBody(args), name, k)).msg ==
            s.msg.(calls := s.msg.calls + [ToolCall(TrimTrailing(name, -1), ObjectText(args), "")])
    ensures ReadValue(ObjectText(args)) == Got(Object(DenotedAll(args)), "")
  {
    TaggedTags(args);
    TaggedPhase(args);
    TaggedView(args);
    CallAssembled(s, TaggedBody(args), name, k);
    ReadObjectText(args);
    CloseObject("{" + Joined(MemberTexts(args)));
  }

  lemma CloseObject(text: string)
    requires ReadValue(text + "}").Got? && ReadValue(text + "}").rest == ""
    ensures CloseBraces(text + "") == text + "}"
  {
    OneBraceMissing(text);
    assert text + "" == text;
    assert Braces(0) == "";
    assert Braces(1) == "}";
  }

  lemma ObjectScan(args: seq<Arg>)
    requires forall i :: 0 <= i < |args| ==> Meaningful(args[i])
    ensures ScanText(START, ViewAfter(args).text) == Scan(1, false, false)
  {
    ReadObjectText(args);
    OneBraceMissing(ViewAfter(args).text);
  }

  /** After a key the brace counter is where it was. */
  lemma KeyScan(v: View, a: Arg)
    requires ScanText(START, v.text) == Scan(1, false, false)
    ensures ScanText(START, v.text + (Comma(v) + (Quote(TrimKey(a.key)) + ":"))) == Scan(1, false, false)
  {
    ScanConcat(START, v.text, Comma(v) + (Quote(TrimKey(a.key)) + ":"));
    ScanKey(Comma(v), TrimKey(a.key));
  }

  lemma RawScan(raw: string)
    requires IsJsonText(raw)
    ensures ScanText(Scan(1, false, false), raw) == Scan(1, false, false)
  {
    ScanValue(1, raw);
    ScanSkipWs(1, ReadValue(raw).rest);
  }

  lemma ValueScan(v: View, a: Arg)
    requires ScanText(START, v.text) == Scan(1, false, false) && Meaningful(a)
    ensures ScanText(START, BodyRun(v, ArgEvents(a)[..3]).text) == Scan(1, a.isString, false)
  {
    var before := v.text + (Comma(v) + (Quote(TrimKey(a.key)) + ":"));
    ArgOpenView(v, a);
    KeyScan(v, a);
    if a.isString {
      ScanConcat(START, before, "\"" + Escape(TrimOne(a.value)));
      ScanOpenQuote(Escape(TrimOne(a.value)));
      ScanEscaped(1, TrimOne(a.value));
    } else {
      ScanConcat(START, before, RawPiece(a.value));
      RawScan(RawPiece(a.value));
    }
  }

  lemma BodyRunTwo(v: View, es: seq<Event>)
    requires |es| >= 2
    ensures BodyRun(v, es[..1]) == BodyStep(v, es[0])
    ensures BodyRun(v, es[..2]) == BodyStep(BodyStep(v, es[0]), es[1])
  {
    assert es[..0] == [];
    BodyRunOne(v, es, 0);
    BodyRunOne(v, es, 1);
  }

  lemma FirstTwo(v: View, a: Arg)
    ensures BodyRun(v, ArgEvents(a)[..1]) == v.(quote := false)
    ensures BodyRun(v, ArgEvents(a)[..2]) ==
            View(v.text + (Comma(v) + (Quote(TrimKey(a.key)) + ":")), v.count + 1, false, v.id)
  {
    BodyRunTwo(v, ArgEvents(a));
    OpenNode(v, a.open);
    KeyNode(v.(quote := false), a.key);
  }

  lemma OpenNode(v: View, text: string)
    ensures BodyStep(v, Event(ArgOpen, text)) == v.(quote := false)
  {
  }

  lemma KeyNode(v: View, text: string)
    ensures BodyStep(v, Event(ArgName, text)) ==
            View(v.text + (Comma(v) + (Quote(TrimKey(text)) + ":")), v.count + 1, v.quote, v.id)
  {
  }

  predicate FlagAgrees(w: View, open: bool) {
    ScanText(START, w.text) == Scan(1, w.quote, false) && w.quote == open
  }

  lemma FlagWithin(v: View, a: Arg, k: nat)
    requires FlagAgrees(v, false) && Meaningful(a) && 0 < k < 4
    ensures FlagAgrees(BodyRun(v, ArgEvents(a)[..k]), k == 3 && a.isString)
  {
    if k == 1 {
      FirstTwo(v, a);
    } else if k == 2 {
      FirstTwo(v, a);
      KeyScan(v, a);
    } else {
      ArgOpenView(v, a);
      ValueScan(v, a);
    }
  }

  lemma FlagBetween(args: seq<Arg>)
    requires forall i :: 0 <= i < |args| ==> Meaningful(args[i])
    ensures FlagAgrees(ViewAfter(args), false)
  {
    ObjectScan(args);
  }

  lemma FlagAt(args: seq<Arg>, a: Arg, k: nat)
    requires (forall i :: 0 <= i < |args| ==> Meaningful(args[i])) && Meaningful(a) && k <= 4
    ensures FlagAgrees(BodyRun(ViewAfter(args), ArgEvents(a)[..k]), k == 3 && a.isString)
  {
    FlagBetween(args);
    if k == 0 {
      NoEvents(ViewAfter(args), ArgEvents(a));
    } else if k < 4 {
      FlagWithin(ViewAfter(args), a, k);
    } else {
      FlagAfter(args, a);
      assert ArgEvents(a)[..4] == ArgEvents(a);
    }
  }

  lemma FlagAfter(args: seq<Arg>, a: Arg)
    requires (forall i :: 0 <= i < |args| ==> Meaningful(args[i])) && Meaningful(a)
    ensures FlagAgrees(BodyRun(ViewAfter(args), ArgEvents(a)), false)
  {
    ViewSnoc(args, a);
    FlagBetween(args + [a]);
  }

  lemma NoEvents(v: View, es: seq<Event>)
    ensures BodyRun(v, es[..0]) == v
  {
  }

  lemma FlagOfBody(args: seq<Arg>, a: Arg, k: nat)
    requires (forall i :: 0 <= i < |args| ==> Meaningful(args[i])) && Meaningful(a) && k <= 4
    ensures FlagAgrees(BodyRun(FRESH, TaggedBody(args) + ArgEvents(a)[..k]), k == 3 && a.isString)
  {
    TaggedView(args);
    BodyConcat(FRESH, TaggedBody(args), ArgEvents(a)[..k]);
    FlagAt(args, a, k);
  }

  /** The mapper's flag and the scanner over the text under assembly both say whether a string is open. */
  predicate FlagTracks(s: State, open: bool) {
    Live(s) && s.quotePending == open && ScanText(START, Target(s)).inString == open
  }

  lemma FlagOfView(s: State, open: bool)
    requires Live(s) && FlagAgrees(ViewOf(s), open)
    ensures FlagTracks(s, open)
  {
    if Target(s) != ViewOf(s).text {
      assert ScanText(START, "{") == Scan(1, false, false) by {
        assert "{"[1..] == [];
      }
    }
  }

  lemma ArgPrefixPhase(b: Streaming.Body, a: Arg, k: nat)
    requires (b == NoArgs || b == ArgDone) && k <= 4
    ensures PhaseFrom(InCall(false, b), ArgEvents(a)[..k]).Some?
  {
    var es := ArgEvents(a);
    ArgPhase(b, a);
    assert es == es[..k] + es[k..];
    PhaseConcat(InCall(false, b), es[..k], es[k..]);
  }

  lemma PartialBody(args: seq<Arg>, a: Arg, k: nat)
    requires k <= 4
    ensures CallBody(TaggedBody(args) + ArgEvents(a)[..k])
  {
    TaggedTags(args);
    TaggedPhase(args);
    ArgPrefixPhase(if args == [] then NoArgs else ArgDone, a, k);
    PhaseJoin(InCall(false, NoArgs), TaggedBody(args), ArgEvents(a)[..k]);
  }

  /** The events of a call up to some point: all nodes so far, with the name after the first `j` of them. */
  function NamedSoFar(body: seq<Event>, name: string, j: nat): seq<Event>
    requires j <= |body|
  {
    [Event(ToolOpen, "")] + body[..j] + [Event(ToolName, name)] + body[j..]
  }

  lemma RunNamedSoFar(s: State, body: seq<Event>, name: string, j: nat)
    requires Valid(s) && j <= |body| && Live(RunFrom(StepOpen(s), body[..j]))
    ensures RunFrom(s, [Event(ToolOpen, "")] + body) == RunFrom(StepOpen(s), body)
    ensures RunFrom(s, NamedSoFar(body, name, j)) == RunFrom(StepName(RunFrom(StepOpen(s), body[..j]), name), body[j..])
  {
    var open, named := Event(ToolOpen, ""), Event(ToolName, name);
    RunSnoc(s, [], open);
    assert [] + [open] == [open];
    StepsOfCall(s, name);
    RunConcat(s, [open], body);
    RunConcat(s, [open], body[..j]);
    RunSnoc(s, [open] + body[..j], named);
    StepsOfCall(RunFrom(StepOpen(s), body[..j]), name);
    RunConcat(s, [open] + body[..j] + [named], body[j..]);
  }

  lemma FlagBeforeName(s: State, body: seq<Event>, open: bool)
    requires Valid(s) && !s.dangling && CallBody(body) && FlagAgrees(BodyRun(FRESH, body), open)
    ensures FlagTracks(RunFrom(StepOpen(s), body), open)
  {
    BeforeName(s, body);
    FlagOfView(RunFrom(StepOpen(s), body), open);
  }

  lemma FlagAfterName(s: State, body: seq<Event>, name: string, j: nat, open: bool)
    requires Valid(s) && !s.dangling && CallBody(body) && FlagAgrees(BodyRun(FRESH, body), open)
    requires !BlankName(name) && j <= |body|
    ensures Live(RunFrom(StepOpen(s), body[..j]))
    ensures FlagTracks(RunFrom(StepName(RunFrom(StepOpen(s), body[..j]), name), body[j..]), open)
  {
    assert body[..j] + body[j..] == body;
    AssembledCall(s, body[..j], body[j..], name);
    FlagOfView(RunFrom(StepName(RunFrom(StepOpen(s), body[..j]), name), body[j..]), open);
  }

  /** At every point of a tagged call of the mapper, after any number of whole arguments and `k` nodes
      of one more, named anywhere or not yet: the quote flag is set exactly when the scanner over the
      text under assembly ends inside a string; that is so exactly after a string value and before its
      close. */
  lemma QuoteFlagExact(s: State, args: seq<Arg>, a: Arg, k: nat, name: string, j: nat)
    requires Valid(s) && !s.dangling && !BlankName(name)
    requires (forall i :: 0 <= i < |args| ==> Meaningful(args[i])) && Meaningful(a) && k <= 4
    requires j <= |TaggedBody(args) + ArgEvents(a)[..k]|
    ensures var body := TaggedBody(args) + ArgEvents(a)[..k];
            && FlagTracks(RunFrom(s, [Event(ToolOpen, "")] + body), k == 3 && a.isString)
            && FlagTracks(RunFrom(s, NamedSoFar(body, name, j)), k == 3 && a.isString)
  {
    var body := TaggedBody(args) + ArgEvents(a)[..k];
    PartialBody(args, a, k);
    FlagOfBody(args, a, k);
    FlagBeforeName(s, body, k == 3 && a.isString);
    FlagAfterName(s, body, name, j, k == 3 && a.isString);
    RunNamedSoFar(s, body, name, j);
  }

  lemma ScanKey(comma: string, key: string)
    requires comma == "" || comma == ","
    ensures ScanText(Scan(1, false, false), comma + (Quote(key) + ":")) == Scan(1, false, false)
  {
    var st := Scan(1, false, false);
    ScanConcat(st, comma, Quote(key) + ":");
    ScanOutside(1, comma, |comma|);
    StringOf(key, ":");
    ScanValue(1, Quote(key) + ":");
    ScanOutside(1, ":", 1);
  }

  lemma ScanOpenQuote(t: string)
    ensures ScanText(Scan(1, false, false), "\"" + t) == ScanText(Scan(1, true, false), t)
  {
    assert ("\"" + t)[1..] == t;
  }

  /** Escaped text leaves the scanner where it is, inside the string. */
  lemma ScanEscaped(d: int, x: string)
    ensures ScanText(Scan(d, true, false), Escape(x)) == Scan(d, true, false)
  {
    CharsOfEscape(x, "");
    var e := Escape(x);
    assert e + "\"" + "" == e + "\"";
    ScanChars(d, e + "\"");
    ScanConcat(Scan(d, true, false), e, "\"");
    NeverEscapedOutside(Scan(d, true, false), e);
    var st := ScanText(Scan(d, true, false), e);
    assert ScanText(st, "\"") == ScanChar(st, '"') by {
      assert "\""[1..] == [];
    }
  }
}
