/** The streaming tool-call mapper of common/chat-peg-parser.cpp: it is fed the tagged nodes of a
    (possibly partial) parse, in order, and assembles reasoning, content and tool calls.
    `Step` and `Run` say on values what the class at the end of the file does on its fields. */
module Mapper {
  import opened Wrappers
  import opened Text
  import opened Chat
  import opened Json
  import opened Quotes

  datatype Tag =
    | Reasoning | Content
    | ToolOpen | ToolClose | ToolName | ToolId | ToolArgs
    | ArgOpen | ArgClose | ArgName | ArgValue | ArgString
    | Other

  datatype Event = Event(tag: Tag, text: string)

  /** What `current_tool` points at. It is left dangling when a call is closed before it had a
      name: the optional that held the call is reset, the pointer is not. */
  datatype Cursor = NoTool | AtPending | AtIndex(index: nat) | Dead

  /** `dangling` records that the dead pointer has been followed, after which the program has no meaning. */
  datatype State = State(msg: Msg, pending: Option<ToolCall>, cursor: Cursor, argCount: nat,
                         quotePending: bool, argsBuffer: string, dangling: bool)

  const INITIAL := State(EMPTY_MSG, None, NoTool, 0, false, "", false)

  /** In every reachable state the pending call has no name and is the current call, and a
      current call among the results is the last of them. */
  predicate Valid(s: State) {
    && (s.pending.Some? <==> s.cursor.AtPending?)
    && (s.pending.Some? ==> s.pending.value.name == "")
    && (s.cursor.AtIndex? ==> s.cursor.index + 1 == |s.msg.calls|)
  }

  predicate Live(s: State) {
    Valid(s) && (s.cursor.AtPending? || s.cursor.AtIndex?)
  }

  function Tool(s: State): ToolCall
    requires Live(s)
  {
    if s.cursor.AtPending? then s.pending.value else s.msg.calls[s.cursor.index]
  }

  function WithArguments(s: State, arguments: string): (r: State)
    requires Live(s)
    ensures Live(r) && Tool(r) == Tool(s).(arguments := arguments)
  {
    var t := Tool(s).(arguments := arguments);
    if s.cursor.AtPending? then s.(pending := Some(t))
    else s.(msg := s.msg.(calls := s.msg.calls[s.cursor.index := t]))
  }

  function WithId(s: State, id: string): (r: State)
    requires Live(s)
    ensures Live(r) && Tool(r) == Tool(s).(id := id)
  {
    var t := Tool(s).(id := id);
    if s.cursor.AtPending? then s.(pending := Some(t))
    else s.(msg := s.msg.(calls := s.msg.calls[s.cursor.index := t]))
  }

  /** Where argument text goes: into the call once it is named, into the buffer before. */
  function Target(s: State): string
    requires Live(s)
  {
    if Tool(s).name != "" then Tool(s).arguments else s.argsBuffer
  }

  function WithTarget(s: State, text: string): (r: State)
    requires Live(s)
    ensures Live(r) && Target(r) == text && Tool(r).name == Tool(s).name
  {
    if Tool(s).name != "" then WithArguments(s, text) else s.(argsBuffer := text)
  }

  // ---------------------------------------------------------------- one event

  function IdOf(text: string): string {
    var t := TrimTrailing(text, -1);
    if |t| >= 2 && t[0] == '"' && t[|t| - 1] == '"' then t[1..|t| - 1] else t
  }

  function StepOpen(s: State): (r: State)
    requires Valid(s)
    ensures Live(r)
  {
    s.(pending := Some(ToolCall("", "", "")), cursor := AtPending, argCount := 0, argsBuffer := "",
       quotePending := false)
  }

  function StepName(s: State, text: string): (r: State)
    requires Live(s)
    ensures Live(r) && r.cursor.AtIndex?
  {
    var t := Tool(s);
    var arguments :=
      if s.argsBuffer != "" then s.argsBuffer else if t.arguments == "" then "{" else t.arguments;
    var named := ToolCall(TrimTrailing(text, -1), arguments, t.id);
    if s.cursor.AtPending? then
      s.(msg := s.msg.(calls := s.msg.calls + [named]), pending := None, cursor := AtIndex(|s.msg.calls|),
         argsBuffer := "")
    else
      s.(msg := s.msg.(calls := s.msg.calls[s.cursor.index := named]), argsBuffer := "")
  }

  function StepArgs(s: State, text: string): (r: State)
    requires Live(s)
    ensures Live(r)
  {
    var t := TrimTrailing(text, -1);
    if t != "" && t[0] == '{' then WithTarget(s, t) else s
  }

  function KeyEntry(argCount: nat, text: string): string {
    (if argCount > 0 then "," else "") + (Quote(TrimKey(text)) + ":")
  }

  function StepArgName(s: State, text: string): (r: State)
    requires Live(s)
    ensures Live(r)
  {
    var start := if Target(s) == "" then "{" else Target(s);
    WithTarget(s.(argCount := s.argCount + 1), start + KeyEntry(s.argCount, text))
  }

  predicate IsContainer(v: string) {
    v != "" && (v[0] == '[' || v[0] == '{')
  }

  /** What a non-string value contributes: containers may come with Python quotes. */
  function RawPiece(text: string): string {
    var v := TrimOne(text);
    if IsContainer(v) then Normalize(Plain, v) else v
  }

  function StringPiece(quotePending: bool, text: string): string {
    var v := TrimOne(text);
    if v == "" then "\"" else (if quotePending then "" else "\"") + Escape(v)
  }

  function StepValue(s: State, isString: bool, text: string): (r: State)
    requires Live(s)
    ensures Live(r)
  {
    if isString then WithTarget(s.(quotePending := true), Target(s) + StringPiece(s.quotePending, text))
    else WithTarget(s, Target(s) + RawPiece(text))
  }

  function StepArgClose(s: State): (r: State)
    requires Live(s)
    ensures Live(r)
  {
    if s.quotePending then WithTarget(s.(quotePending := false), Target(s) + "\"") else s
  }

  function Braces(n: int): string
    decreases n
  {
    if n <= 0 then "" else Braces(n - 1) + "}"
  }

  /** The arguments with every brace the counter finds open closed. */
  function CloseBraces(arguments: string): string {
    arguments + Braces(ScanText(START, arguments).depth)
  }

  function StepClose(s: State): (r: State)
    requires Live(s)
    ensures Valid(r)
  {
    var t := Tool(s);
    var flush := t.name == "" && s.argsBuffer != "";
    var arguments := (if flush then s.argsBuffer else t.arguments) + (if s.quotePending then "\"" else "");
    var s' := WithArguments(s.(argsBuffer := if flush then "" else s.argsBuffer, quotePending := false),
                            CloseBraces(arguments));
    if s.cursor.AtPending? then s'.(pending := None, cursor := Dead) else s'
  }

  /** The event uses `current_tool`: an id, a name, a key, a value, a close, or an arguments node
      that opens an object. */
  predicate Uses(e: Event) {
    match e.tag
    case ToolId | ToolName | ArgName | ArgValue | ArgString | ToolClose => true
    case ToolArgs => var t := TrimTrailing(e.text, -1); t != "" && t[0] == '{'
    case _ => false
  }

  /** The event makes the mapper follow `current_tool`. */
  predicate Follows(s: State, e: Event) {
    Uses(e) || (e.tag == ArgClose && s.quotePending)
  }

  function StepTool(s: State, e: Event): (r: State)
    requires Live(s)
    ensures Valid(r)
  {
    match e.tag
    case ToolId => WithId(s, IdOf(e.text))
    case ToolName => StepName(s, e.text)
    case ToolArgs => StepArgs(s, e.text)
    case ArgName => StepArgName(s, e.text)
    case ArgValue => StepValue(s, false, e.text)
    case ArgString => StepValue(s, true, e.text)
    case ArgClose => StepArgClose(s)
    case ToolClose => StepClose(s)
    case _ => s
  }

  function Step(s: State, e: Event): (r: State)
    requires Valid(s)
    ensures Valid(r)
  {
    match e.tag
    case Reasoning => s.(msg := s.msg.(reasoning := s.msg.reasoning + e.text))
    case Content => s.(msg := s.msg.(content := s.msg.content + e.text))
    case ToolOpen => StepOpen(s)
    case ArgOpen => s.(quotePending := false)
    case Other => s
    case _ =>
      if s.cursor.NoTool? then s
      else if s.cursor.Dead? then s.(dangling := s.dangling || Follows(s, e))
      else StepTool(s, e)
  }

  function RunFrom(s: State, es: seq<Event>): (r: State)
    requires Valid(s)
    ensures Valid(r)
    decreases |es|
  {
    if es == [] then s else Step(RunFrom(s, es[..|es| - 1]), es[|es| - 1])
  }

  function Run(es: seq<Event>): (r: State)
    ensures Valid(r)
  {
    RunFrom(INITIAL, es)
  }

  lemma RunSnoc(s: State, es: seq<Event>, e: Event)
    requires Valid(s)
    ensures RunFrom(s, es + [e]) == Step(RunFrom(s, es), e)
  {
    assert (es + [e])[..|es|] == es;
  }

  lemma {:induction false} RunConcat(s: State, es: seq<Event>, fs: seq<Event>)
    requires Valid(s)
    ensures RunFrom(s, es + fs) == RunFrom(RunFrom(s, es), fs)
    decreases |fs|
  {
    if fs == [] {
      assert es + fs == es;
    } else {
      var n := |fs| - 1;
      RunConcat(s, es, fs[..n]);
      assert es + fs == (es + fs[..n]) + [fs[n]];
      RunSnoc(s, es + fs[..n], fs[n]);
    }
  }

  // ---------------------------------------------------------------- when the dead pointer is followed

  predicate EndsWait(t: Tag) {
    t == ToolOpen || t == ToolClose || t == ToolName
  }

  /** The open at `i` still waits for a name at the end of the run. */
  ghost predicate Waits(es: seq<Event>, i: int) {
    0 <= i < |es| && es[i].tag == ToolOpen && forall k :: i < k < |es| ==> !EndsWait(es[k].tag)
  }

  ghost predicate Waiting(es: seq<Event>) {
    exists i :: Waits(es, i)
  }

  /** The close at `j` ends a call that was never named, and no call has been opened since. */
  ghost predicate Abandons(es: seq<Event>, j: int) {
    && 0 <= j < |es| && es[j].tag == ToolClose && Waiting(es[..j])
    && forall k :: j < k < |es| ==> es[k].tag != ToolOpen
  }

  ghost predicate Abandoned(es: seq<Event>) {
    exists j :: Abandons(es, j)
  }

  ghost predicate UsesDeadAt(es: seq<Event>, k: int) {
    0 <= k < |es| && Uses(es[k]) && Abandoned(es[..k])
  }

  /** Some event uses `current_tool` after a call was closed without a name and before the next open. */
  ghost predicate FollowsDeadPointer(es: seq<Event>) {
    exists k :: UsesDeadAt(es, k)
  }

  lemma WaitingSnoc(es: seq<Event>, e: Event)
    ensures Waiting(es + [e]) <==> e.tag == ToolOpen || (Waiting(es) && !EndsWait(e.tag))
  {
    var fs := es + [e];
    assert forall k :: 0 <= k < |es| ==> fs[k] == es[k];
    if e.tag == ToolOpen {
      assert Waits(fs, |es|);
    }
    if Waiting(es) && !EndsWait(e.tag) {
      var i :| Waits(es, i);
      assert Waits(fs, i);
    }
    if Waiting(fs) {
      var i :| Waits(fs, i);
      if i < |es| {
        assert !EndsWait(fs[|es|].tag);
        assert Waits(es, i);
      }
    }
  }

  lemma AbandonedSnoc(es: seq<Event>, e: Event)
    ensures Abandoned(es + [e]) <==>
            (e.tag == ToolClose && Waiting(es)) || (Abandoned(es) && e.tag != ToolOpen)
  {
    var fs := es + [e];
    assert forall k :: 0 <= k < |es| ==> fs[k] == es[k];
    assert forall j :: 0 <= j <= |es| ==> fs[..j] == es[..j];
    assert es[..|es|] == es;
    if e.tag == ToolClose && Waiting(es) {
      assert Abandons(fs, |es|);
    }
    if Abandoned(es) && e.tag != ToolOpen {
      var j :| Abandons(es, j);
      assert Abandons(fs, j);
    }
    if Abandoned(fs) {
      var j :| Abandons(fs, j);
      if j < |es| {
        assert fs[|es|].tag != ToolOpen;
        assert Abandons(es, j);
      }
    }
  }

  lemma FollowsSnoc(es: seq<Event>, e: Event)
    ensures FollowsDeadPointer(es + [e]) <==> FollowsDeadPointer(es) || (Uses(e) && Abandoned(es))
  {
    var fs := es + [e];
    assert forall k :: 0 <= k < |es| ==> fs[k] == es[k];
    assert forall k :: 0 <= k <= |es| ==> fs[..k] == es[..k];
    assert es[..|es|] == es;
    if FollowsDeadPointer(es) {
      var k :| UsesDeadAt(es, k);
      assert UsesDeadAt(fs, k);
    }
    if Uses(e) && Abandoned(es) {
      assert UsesDeadAt(fs, |es|);
    }
    if FollowsDeadPointer(fs) {
      var k :| UsesDeadAt(fs, k);
      if k < |es| {
        assert UsesDeadAt(es, k);
      }
    }
  }

  lemma CursorAfterTool(s: State, e: Event)
    requires Live(s) && e.tag != ToolOpen
    ensures var s' := StepTool(s, e);
            && (s'.cursor.AtPending? <==> s.cursor.AtPending? && !EndsWait(e.tag))
            && (s'.cursor.Dead? <==> s.cursor.AtPending? && e.tag == ToolClose)
            && (s'.cursor.Dead? ==> !s'.quotePending) && s'.dangling == s.dangling
  {
  }

  lemma CursorAfter(s: State, e: Event)
    requires Valid(s) && (s.cursor.Dead? ==> !s.quotePending)
    ensures var s' := Step(s, e);
            && (s'.cursor.AtPending? <==> e.tag == ToolOpen || (s.cursor.AtPending? && !EndsWait(e.tag)))
            && (s'.cursor.Dead? <==>
                  (e.tag == ToolClose && s.cursor.AtPending?) || (s.cursor.Dead? && e.tag != ToolOpen))
            && (s'.cursor.Dead? ==> !s'.quotePending)
            && (s'.dangling <==> s.dangling || (s.cursor.Dead? && Uses(e)))
  {
    if Live(s) && e.tag != ToolOpen {
      CursorAfterTool(s, e);
    }
  }

  /** A run uses its dead pointer exactly when some event uses `current_tool` after a call was closed
      without a name and before the next call is opened. */
  lemma {:induction false} DanglesExactly(es: seq<Event>)
    ensures Run(es).dangling <==> FollowsDeadPointer(es)
    ensures Run(es).cursor.AtPending? <==> Waiting(es)
    ensures Run(es).cursor.Dead? <==> Abandoned(es)
    ensures Run(es).cursor.Dead? ==> !Run(es).quotePending
    decreases |es|
  {
    if es != [] {
      var init, e := es[..|es| - 1], es[|es| - 1];
      assert es == init + [e];
      DanglesExactly(init);
      RunSnoc(INITIAL, init, e);
      CursorAfter(Run(init), e);
      WaitingSnoc(init, e);
      AbandonedSnoc(init, e);
      FollowsSnoc(init, e);
    }
  }

  /** A call closed before its name, and then a name. */
  lemma NameAfterCloseDangles(open: string, close: string, name: string)
    ensures var es := [Event(ToolOpen, open), Event(ToolClose, close), Event(ToolName, name)];
            Run(es).dangling && FollowsDeadPointer(es)
  {
    var es := [Event(ToolOpen, open), Event(ToolClose, close), Event(ToolName, name)];
    assert Waits(es[..2][..1], 0);
    assert Waiting(es[..2][..1]);
    assert Abandons(es[..2], 1);
    assert UsesDeadAt(es, 2);
    DanglesExactly(es);
  }

  // ---------------------------------------------------------------- end of a parse

  predicate BlankChar(c: char) {
    c == ' ' || c == '\n' || c == '\r' || c == '\t'
  }

  predicate Blank(s: string) {
    forall i :: 0 <= i < |s| ==> BlankChar(s[i])
  }

  /** Reasoning that is nothing but whitespace is dropped. */
  function Discard(reasoning: string): string {
    if Blank(reasoning) then "" else reasoning
  }

  /** The flush of a pending call that has a name; `FlushAddsNothing` shows there never is one. */
  function Flush(s: State): Msg {
    if s.pending.Some? && s.pending.value.name != "" then
      var t := s.pending.value;
      var arguments := if s.argsBuffer != "" then s.argsBuffer else t.arguments;
      var closed := arguments + (if s.quotePending && arguments != "" then "\"" else "");
      s.msg.(calls := s.msg.calls + [t.(arguments := closed)])
    else s.msg
  }

  function Finish(s: State): Msg {
    var m := Flush(s);
    m.(reasoning := Discard(m.reasoning))
  }

  /** The message a fresh mapper makes of a run of events. */
  function Parse(es: seq<Event>): Msg {
    Finish(Run(es))
  }

  /** Appends a brace for each one the counter finds open. */
  method CloseOpenBraces(arguments: string) returns (r: string)
    ensures r == CloseBraces(arguments)
  {
    r := arguments;
    var depth := JsonBraceDepth(arguments);
    var d := depth;
    while d > 0
      invariant 0 < depth ==> 0 <= d <= depth
      invariant depth <= 0 ==> d == depth
      invariant r == arguments + Braces(depth - d)
    {
      r := r + "}";
      d := d - 1;
    }
  }

  // ---------------------------------------------------------------- the class

  class PegMapper {
    var content: string
    var reasoning: string
    var calls: seq<ToolCall>
    var pending: Option<ToolCall>
    var cursor: Cursor
    var argCount: nat
    var quotePending: bool
    var argsBuffer: string

    function Abs(): State
      reads this
    {
      State(Msg(content, reasoning, calls), pending, cursor, argCount, quotePending, argsBuffer, false)
    }

    ghost predicate Ok()
      reads this
    {
      Valid(Abs())
    }

    constructor ()
      ensures Ok() && Abs() == INITIAL
    {
      content, reasoning, calls := "", "", [];
      pending, cursor, argCount := None, NoTool, 0;
      quotePending, argsBuffer := false, "";
    }

    method SetTool(t: ToolCall)
      requires Ok() && Live(Abs()) && (cursor.AtPending? ==> t.name == "")
      modifies `pending, `calls
      ensures Ok() && Live(Abs()) && Tool(Abs()) == t
      ensures cursor.AtPending? ==> calls == old(calls) && pending == Some(t)
      ensures cursor.AtIndex? ==> calls == old(calls)[cursor.index := t] && pending == old(pending)
    {
      if cursor.AtPending? {
        pending := Some(t);
      } else {
        calls := calls[cursor.index := t];
      }
    }

    method SetTarget(text: string)
      requires Ok() && Live(Abs())
      modifies `pending, `calls, `argsBuffer
      ensures Ok() && Abs() == WithTarget(old(Abs()), text)
    {
      var t := Tool(Abs());
      if t.name != "" {
        SetTool(t.(arguments := text));
      } else {
        argsBuffer := text;
      }
    }

    method OnOpen()
      requires Ok()
      modifies this
      ensures Ok() && Abs() == StepOpen(old(Abs()))
    {
      pending, cursor, argCount := Some(ToolCall("", "", "")), AtPending, 0;
      argsBuffer, quotePending := "", false;
    }

    method OnId(text: string)
      requires Ok() && Live(Abs())
      modifies this
      ensures Ok() && Abs() == WithId(old(Abs()), IdOf(text))
    {
      var id := TrimTrailingSpace(text, -1);
      if |id| >= 2 && id[0] == '"' && id[|id| - 1] == '"' {
        id := id[1..|id| - 1];
      }
      SetTool(Tool(Abs()).(id := id));
    }

    method OnName(text: string)
      requires Ok() && Live(Abs())
      modifies this
      ensures Ok() && Abs() == StepName(old(Abs()), text)
    {
      var t := Tool(Abs());
      var name := TrimTrailingSpace(text, -1);
      t := t.(name := name);
      if argsBuffer != "" {
        t := t.(arguments := argsBuffer);
        argsBuffer := "";
      } else if t.arguments == "" {
        t := t.(arguments := "{");
      }
      if pending.Some? {
        calls := calls + [t];
        pending := None;
        cursor := AtIndex(|calls| - 1);
      } else {
        calls := calls[cursor.index := t];
      }
    }

    method OnArgs(text: string)
      requires Ok() && Live(Abs())
      modifies this
      ensures Ok() && Abs() == StepArgs(old(Abs()), text)
    {
      var t := TrimTrailingSpace(text, -1);
      if t != "" && t[0] == '{' {
        SetTarget(t);
      }
    }

    method OnArgName(text: string)
      requires Ok() && Live(Abs())
      modifies this
      ensures Ok() && Abs() == StepArgName(old(Abs()), text)
    {
      var entry := "";
      if argCount > 0 {
        entry := ",";
      }
      var key := TrimLeadingSpace(text, 1);
      key := TrimTrailingSpace(key, -1);
      entry := entry + (Quote(key) + ":");
      argCount := argCount + 1;
      var target := Target(Abs());
      if target == "" {
        target := "{";
      }
      SetTarget(target + entry);
    }

    method OnValue(isString: bool, text: string)
      requires Ok() && Live(Abs())
      modifies this
      ensures Ok() && Abs() == StepValue(old(Abs()), isString, text)
    {
      var value := TrimLeadingSpace(text, 1);
      value := TrimTrailingSpace(value, 1);
      var piece := "";
      if value == "" && isString {
        piece := "\"";
        quotePending := true;
      } else if value != "" && isString {
        if !quotePending {
          piece := "\"";
          quotePending := true;
        }
        piece := piece + Escape(value);
      } else if value != "" {
        if value[0] == '[' || value[0] == '{' {
          value := NormalizeQuotesToJson(value);
        }
        piece := value;
      }
      SetTarget(Target(Abs()) + piece);
    }

    method OnArgClose()
      requires Ok() && Live(Abs())
      modifies this
      ensures Ok() && Abs() == StepArgClose(old(Abs()))
    {
      if quotePending {
        SetTarget(Target(Abs()) + "\"");
        quotePending := false;
      }
    }

    method OnClose()
      requires Ok() && Live(Abs())
      modifies this
      ensures Ok() && Abs() == StepClose(old(Abs()))
    {
      var t := Tool(Abs());
      if t.name == "" && argsBuffer != "" {
        t := t.(arguments := argsBuffer);
        argsBuffer := "";
      }
      assert t.arguments + "" == t.arguments;
      if quotePending {
        t := t.(arguments := t.arguments + "\"");
        quotePending := false;
      }
      var closed := CloseOpenBraces(t.arguments);
      t := t.(arguments := closed);
      SetTool(t);
      if pending.Some? {
        calls := calls + (if t.name != "" then [t] else []);
        pending := None;
        cursor := Dead;
      }
    }

    /** The part of `Map` that works on the current call. */
    method MapTool(e: Event)
      requires Ok() && Live(Abs())
      modifies this
      ensures Ok() && Abs() == StepTool(old(Abs()), e)
    {
      if e.tag == ToolId {
        OnId(e.text);
      } else if e.tag == ToolName {
        OnName(e.text);
      } else if e.tag == ToolArgs {
        OnArgs(e.text);
      } else if e.tag == ArgName {
        OnArgName(e.text);
      } else if e.tag == ArgValue || e.tag == ArgString {
        OnValue(e.tag == ArgString, e.text);
      } else if e.tag == ArgClose {
        OnArgClose();
      } else if e.tag == ToolClose {
        OnClose();
      }
    }

    /** One visited node. The caller must not let the mapper follow its dead pointer. */
    method Map(e: Event)
      requires Ok() && (cursor.Dead? ==> !Follows(Abs(), e))
      modifies this
      ensures Ok() && Abs() == Step(old(Abs()), e)
    {
      if e.tag == Reasoning {
        reasoning := reasoning + e.text;
      }
      if e.tag == Content {
        content := content + e.text;
      }
      if e.tag == ToolOpen {
        OnOpen();
      }
      if e.tag == ArgOpen {
        quotePending := false;
      }
      if cursor.AtPending? || cursor.AtIndex? {
        MapTool(e);
      }
    }

    method VisitAll(es: seq<Event>)
      requires Ok() && Abs() == INITIAL && !Run(es).dangling
      modifies this
      ensures Ok() && Abs() == Run(es)
    {
      for i := 0 to |es|
        invariant Ok() && Abs() == Run(es[..i])
      {
        SafeVisit(es, i);
        Map(es[i]);
      }
      assert es[..|es|] == es;
    }

    method DiscardBlank()
      modifies `reasoning
      ensures reasoning == Discard(old(reasoning))
    {
      var allWhitespace, i := true, 0;
      while i < |reasoning| && allWhitespace
        invariant 0 <= i <= |reasoning|
        invariant allWhitespace <==> forall k :: 0 <= k < i ==> BlankChar(reasoning[k])
        invariant !allWhitespace ==> !Blank(reasoning)
      {
        if !BlankChar(reasoning[i]) {
          allWhitespace := false;
        }
        i := i + 1;
      }
      if allWhitespace {
        reasoning := "";
      }
    }

    /** Visits every node of a parse, flushes, and drops reasoning that is only whitespace. */
    method FromAst(es: seq<Event>)
      requires Ok() && Abs() == INITIAL && !FollowsDeadPointer(es)
      modifies this
      ensures Msg(content, reasoning, calls) == Parse(es)
    {
      DanglesExactly(es);
      VisitAll(es);
      calls := Flush(Abs()).calls;
      if reasoning != "" {
        DiscardBlank();
      }
    }
  }

  lemma SafeVisit(es: seq<Event>, i: nat)
    requires !Run(es).dangling && i < |es|
    ensures Run(es[..i + 1]) == Step(Run(es[..i]), es[i])
    ensures Run(es[..i]).cursor.Dead? ==> !Follows(Run(es[..i]), es[i])
  {
    assert es[..i + 1][..i] == es[..i];
    assert es == es[..i + 1] + es[i + 1..];
    DanglingStays(INITIAL, es[..i + 1], es[i + 1..]);
  }

  lemma DanglingStep(s: State, e: Event)
    requires Valid(s)
    ensures s.dangling ==> Step(s, e).dangling
  {
  }

  /** Once the dead pointer has been followed, nothing mends it. */
  lemma {:induction false} DanglingStays(s: State, es: seq<Event>, fs: seq<Event>)
    requires Valid(s)
    ensures RunFrom(s, es).dangling ==> RunFrom(s, es + fs).dangling
    decreases |fs|
  {
    if fs == [] {
      assert es + fs == es;
    } else {
      var n := |fs| - 1;
      DanglingStays(s, es, fs[..n]);
      assert es + fs == (es + fs[..n]) + [fs[n]];
      RunSnoc(s, es + fs[..n], fs[n]);
      DanglingStep(RunFrom(s, es + fs[..n]), fs[n]);
    }
  }
}
