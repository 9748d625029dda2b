/** Append-only deltas between successive parses of the same answer (common/chat.cpp), the
    client that folds them, and the ids that stay with a call (common/chat.h). */
module MessageDiff {
  import opened Wrappers
  import opened Chat

  datatype Error = NotAPrefix(last: string, current: string) | FewerCalls | NameMismatch(last: string, current: string)

  type Outcome<+T> = Result<T, Error>

  /** A delta adds to reasoning, to content, or to the call at `index`. */
  datatype Diff = Diff(reasoning: string, content: string, index: Option<nat>, call: ToolCall)

  const NO_CALL := ToolCall("", "", "")

  function StringDiff(last: string, current: string): Outcome<string> {
    if last == "" then Ok(current)
    else if last <= current then Ok(current[|last|..])
    else if current <= last then Ok("")
    else Err(NotAPrefix(last, current))
  }

  /** Reasoning text that the client has already been sent as content is not sent again. */
  function ReasoningDelta(p: Msg, n: Msg): Outcome<string> {
    if p.reasoning == n.reasoning then Ok("")
    else
      match StringDiff(p.reasoning, n.reasoning)
      case Err(e) => Err(e)
      case Ok(delta) =>
        if p.content != "" && p.content <= delta && n.content <= p.content then Ok(delta[|p.content|..])
        else Ok(delta)
  }

  function ContentDelta(p: Msg, n: Msg): Outcome<string> {
    if p.content == n.content then Ok("") else StringDiff(p.content, n.content)
  }

  function NameClash(last: ToolCall, current: ToolCall): bool {
    last.name != current.name && last.name != "" && current.name != "" && !(last.name <= current.name)
  }

  function LastCallDiffs(p: Msg, n: Msg): Outcome<seq<Diff>>
    requires |p.calls| <= |n.calls|
  {
    if p.calls == [] then Ok([])
    else
      var i := |p.calls| - 1;
      var (last, current) := (p.calls[i], n.calls[i]);
      if NameClash(last, current) then Err(NameMismatch(last.name, current.name))
      else
        match StringDiff(last.arguments, current.arguments)
        case Err(e) => Err(e)
        case Ok(delta) =>
          var renamed := last.id != current.id || last.name != current.name;
          if delta == "" && !renamed then Ok([])
          else
            Ok([Diff("", "", Some(i), if renamed then ToolCall(current.name, delta, current.id)
                                      else ToolCall("", delta, ""))])
  }

  function NewCallDiffs(n: Msg, from: nat): seq<Diff>
    decreases |n.calls| - from
  {
    if from >= |n.calls| then [] else [Diff("", "", Some(from), n.calls[from])] + NewCallDiffs(n, from + 1)
  }

  function TextDiffs(reasoning: string, content: string): seq<Diff> {
    (if reasoning == "" then [] else [Diff(reasoning, "", None, NO_CALL)]) +
    (if content == "" then [] else [Diff("", content, None, NO_CALL)])
  }

  function Diffs(p: Msg, n: Msg): Outcome<seq<Diff>> {
    match (ReasoningDelta(p, n), ContentDelta(p, n))
    case (Err(e), _) => Err(e)
    case (_, Err(e)) => Err(e)
    case (Ok(reasoning), Ok(content)) =>
      if |n.calls| < |p.calls| then Err(FewerCalls)
      else
        match LastCallDiffs(p, n)
        case Err(e) => Err(e)
        case Ok(last) => Ok(TextDiffs(reasoning, content) + last + NewCallDiffs(n, |p.calls|))
  }

  method ComputeTextDiffs(p: Msg, n: Msg) returns (r: Outcome<seq<Diff>>)
    ensures r.Ok? <==> ReasoningDelta(p, n).Ok? && ContentDelta(p, n).Ok?
    ensures r.Ok? ==> r.value == TextDiffs(ReasoningDelta(p, n).value, ContentDelta(p, n).value)
    ensures r.Err? ==>
              r.error == if ReasoningDelta(p, n).Err? then ReasoningDelta(p, n).error else ContentDelta(p, n).error
  {
    var diffs := [];
    if p.reasoning != n.reasoning {
      var d := StringDiff(p.reasoning, n.reasoning);
      if d.Err? {
        return Err(d.error);
      }
      var delta := d.value;
      if p.content != "" && p.content <= delta && n.content <= p.content {
        delta := delta[|p.content|..];
      }
      if delta != "" {
        diffs := diffs + [Diff(delta, "", None, NO_CALL)];
      }
    }
    if p.content != n.content {
      var d := StringDiff(p.content, n.content);
      if d.Err? {
        return Err(d.error);
      }
      if d.value != "" {
        diffs := diffs + [Diff("", d.value, None, NO_CALL)];
      }
    }
    r := Ok(diffs);
  }

  method ComputeLastCallDiffs(p: Msg, n: Msg) returns (r: Outcome<seq<Diff>>)
    requires |p.calls| <= |n.calls|
    ensures r == LastCallDiffs(p, n)
  {
    r := Ok([]);
    if p.calls != [] {
      var i := |p.calls| - 1;
      var last, current := p.calls[i], n.calls[i];
      if last.name != current.name && last.name != "" && current.name != "" && !(last.name <= current.name) {
        return Err(NameMismatch(last.name, current.name));
      }
      var d := StringDiff(last.arguments, current.arguments);
      if d.Err? {
        return Err(d.error);
      }
      if d.value != "" || last.id != current.id || last.name != current.name {
        var call := NO_CALL;
        if last.id != current.id || last.name != current.name {
          call := call.(id := current.id, name := current.name);
        }
        r := Ok([Diff("", "", Some(i), call.(arguments := d.value))]);
      }
    }
  }

  method ComputeDiffs(p: Msg, n: Msg) returns (r: Outcome<seq<Diff>>)
    ensures r == Diffs(p, n)
  {
    r := ComputeTextDiffs(p, n);
    if r.Err? {
      return;
    }
    if |n.calls| < |p.calls| {
      return Err(FewerCalls);
    }
    var last := ComputeLastCallDiffs(p, n);
    if last.Err? {
      return last;
    }
    var diffs := r.value + last.value;
    ghost var sofar := diffs;
    var i := |p.calls|;
    while i < |n.calls|
      invariant |p.calls| <= i <= |n.calls|
      invariant diffs + NewCallDiffs(n, i) == sofar + NewCallDiffs(n, |p.calls|)
    {
      assert NewCallDiffs(n, i) == [Diff("", "", Some(i), n.calls[i])] + NewCallDiffs(n, i + 1);
      diffs := diffs + [Diff("", "", Some(i), n.calls[i])];
      i := i + 1;
    }
    assert diffs + [] == diffs;
    r := Ok(diffs);
  }

  // ---------------------------------------------------------------- when diffing throws

  predicate Comparable(a: string, b: string) {
    a <= b || b <= a
  }

  /** `compute_diffs` throws exactly when a text was rewritten rather than grown or cut, a call
      disappeared, or the last call was renamed to something that does not continue its name. */
  lemma ThrowsExactly(p: Msg, n: Msg)
    ensures Diffs(p, n).Err? <==>
            || !Comparable(p.reasoning, n.reasoning)
            || !Comparable(p.content, n.content)
            || |n.calls| < |p.calls|
            || (p.calls != [] &&
                var (last, current) := (p.calls[|p.calls| - 1], n.calls[|p.calls| - 1]);
                NameClash(last, current) || !Comparable(last.arguments, current.arguments))
  {
  }

  // ---------------------------------------------------------------- the client

  function Pad(calls: seq<ToolCall>, n: nat): (r: seq<ToolCall>)
    ensures |r| >= n && calls <= r
    decreases n - |calls|
  {
    if n <= |calls| then calls else Pad(calls + [NO_CALL], n)
  }

  function Merge(call: ToolCall, delta: ToolCall): ToolCall {
    ToolCall(if delta.name != "" then delta.name else call.name,
             call.arguments + delta.arguments,
             if delta.id != "" then delta.id else call.id)
  }

  function Apply(m: Msg, d: Diff): Msg {
    var calls :=
      match d.index
      case None => m.calls
      case Some(i) => var padded := Pad(m.calls, i + 1); padded[i := Merge(padded[i], d.call)];
    Msg(m.content + d.content, m.reasoning + d.reasoning, calls)
  }

  function ApplyAll(m: Msg, ds: seq<Diff>): Msg
    decreases |ds|
  {
    if ds == [] then m else ApplyAll(Apply(m, ds[0]), ds[1..])
  }

  lemma {:induction false} ApplyConcat(m: Msg, ds: seq<Diff>, es: seq<Diff>)
    ensures ApplyAll(m, ds + es) == ApplyAll(ApplyAll(m, ds), es)
    decreases |ds|
  {
    if ds == [] {
      assert ds + es == es;
    } else {
      ApplyConcat(Apply(m, ds[0]), ds[1..], es);
      assert (ds + es)[1..] == ds[1..] + es;
    }
  }

  // ---------------------------------------------------------------- growing messages

  predicate Continues(last: ToolCall, current: ToolCall) {
    last.name <= current.name && last.arguments <= current.arguments
  }

  predicate SameCall(a: ToolCall, b: ToolCall) {
    a.name == b.name && a.arguments == b.arguments
  }

  /** `n` is what `p` can become while the answer streams, call ids aside: texts grow at their
      end, calls are only added, and of the old calls only the last may still grow. */
  ghost predicate Extends(p: Msg, n: Msg) {
    && p.reasoning <= n.reasoning && p.content <= n.content && |p.calls| <= |n.calls|
    && (forall i :: 0 <= i < |p.calls| - 1 ==> SameCall(p.calls[i], n.calls[i]))
    && (p.calls != [] ==> Continues(p.calls[|p.calls| - 1], n.calls[|p.calls| - 1]))
  }

  lemma ExtendsTransitive(p: Msg, m: Msg, n: Msg)
    requires Extends(p, m) && Extends(m, n)
    ensures Extends(p, n)
  {
    if p.calls != [] {
      var i := |p.calls| - 1;
      if i < |m.calls| - 1 {
        assert SameCall(m.calls[i], n.calls[i]);
      }
    }
  }

  /** The last call of one message and the same call of another have texts that neither continue nor
      cut short each other. */
  predicate Torn(p: Msg, n: Msg) {
    && 0 < |p.calls| <= |n.calls|
    && !Comparable(p.calls[|p.calls| - 1].arguments, n.calls[|p.calls| - 1].arguments)
  }

  lemma TornThrows(p: Msg, n: Msg)
    requires Torn(p, n)
    ensures Diffs(p, n).Err? && !Extends(p, n)
  {
    ThrowsExactly(p, n);
  }

  ghost predicate SameIds(p: Msg, n: Msg)
    requires |p.calls| <= |n.calls|
  {
    forall i :: 0 <= i < |p.calls| ==> p.calls[i].id == n.calls[i].id
  }

  /** The overlap rule fires: content stands still while reasoning grows by text that starts with it. */
  predicate Overlap(p: Msg, n: Msg) {
    p.content != "" && n.content == p.content && p.reasoning <= n.reasoning
    && p.content <= n.reasoning[|p.reasoning|..]
  }

  /** The reasoning text the client is sent. */
  function Sent(p: Msg, n: Msg): string
    requires p.reasoning <= n.reasoning
  {
    var delta := n.reasoning[|p.reasoning|..];
    if Overlap(p, n) then delta[|p.content|..] else delta
  }

  lemma ApplyText(m: Msg, reasoning: string, content: string)
    ensures ApplyAll(m, TextDiffs(reasoning, content)) ==
            m.(reasoning := m.reasoning + reasoning, content := m.content + content)
  {
    var r := if reasoning == "" then [] else [Diff(reasoning, "", None, NO_CALL)];
    var c := if content == "" then [] else [Diff("", content, None, NO_CALL)];
    var m' := m.(reasoning := m.reasoning + reasoning);
    assert m.reasoning + "" == m.reasoning && m.content + "" == m.content && m'.reasoning + "" == m'.reasoning;
    ApplyConcat(m, r, c);
    assert ApplyAll(m, r) == m';
    assert ApplyAll(m', c) == m'.(content := m.content + content);
  }

  lemma ApplyOne(m: Msg, i: nat, call: ToolCall)
    requires |m.calls| == i + 1
    ensures ApplyAll(m, [Diff("", "", Some(i), call)]) == m.(calls := m.calls[i := Merge(m.calls[i], call)])
  {
    var d := Diff("", "", Some(i), call);
    assert m.reasoning + "" == m.reasoning && m.content + "" == m.content;
    assert Pad(m.calls, i + 1) == m.calls;
    assert ApplyAll(m, [d]) == Apply(m, d);
  }

  /** The delta of the last call, if there is one, makes the old call the new one. */
  lemma LastDelta(p: Msg, n: Msg)
    requires Extends(p, n) && SameIds(p, n) && p.calls != []
    ensures LastCallDiffs(p, n).Ok?
    ensures var ds, i := LastCallDiffs(p, n).value, |p.calls| - 1;
            if p.calls[i] == n.calls[i] then ds == []
            else |ds| == 1 && ds[0] == Diff("", "", Some(i), ds[0].call) && Merge(p.calls[i], ds[0].call) == n.calls[i]
  {
    var last, current := p.calls[|p.calls| - 1], n.calls[|p.calls| - 1];
    assert last.arguments + current.arguments[|last.arguments|..] == current.arguments;
    assert last.arguments == "" ==> current.arguments[|last.arguments|..] == current.arguments;
  }

  lemma OldCalls(p: Msg, n: Msg)
    requires Extends(p, n) && SameIds(p, n) && p.calls != []
    ensures var i := |p.calls| - 1; n.calls[..i + 1] == p.calls[i := n.calls[i]]
  {
    forall j | 0 <= j < |p.calls| - 1
      ensures p.calls[j] == n.calls[j]
    {
      assert SameCall(p.calls[j], n.calls[j]);
    }
  }

  lemma ApplyLast(m: Msg, p: Msg, n: Msg)
    requires Extends(p, n) && SameIds(p, n) && m.calls == p.calls
    ensures LastCallDiffs(p, n).Ok?
    ensures ApplyAll(m, LastCallDiffs(p, n).value) == m.(calls := n.calls[..|p.calls|])
  {
    if p.calls != [] {
      var i := |p.calls| - 1;
      LastDelta(p, n);
      OldCalls(p, n);
      if p.calls[i] == n.calls[i] {
        assert p.calls[i := n.calls[i]] == p.calls;
      } else {
        var d := LastCallDiffs(p, n).value[0];
        ApplyOne(m, i, d.call);
        assert LastCallDiffs(p, n).value == [d];
      }
    }
  }

  lemma {:induction false} ApplyNew(m: Msg, n: Msg, from: nat)
    requires from <= |n.calls| && m.calls == n.calls[..from]
    ensures ApplyAll(m, NewCallDiffs(n, from)) == m.(calls := n.calls)
    decreases |n.calls| - from
  {
    if from < |n.calls| {
      var d := Diff("", "", Some(from), n.calls[from]);
      var ds := NewCallDiffs(n, from);
      assert ds[0] == d && ds[1..] == NewCallDiffs(n, from + 1);
      assert m.reasoning + "" == m.reasoning && m.content + "" == m.content;
      assert Pad(m.calls, from + 1) == m.calls + [NO_CALL];
      assert Merge(NO_CALL, n.calls[from]) == n.calls[from];
      assert Apply(m, d).calls == n.calls[..from + 1];
      ApplyNew(Apply(m, d), n, from + 1);
    } else {
      assert n.calls[..from] == n.calls;
    }
  }

  lemma DeltasOfGrowth(p: Msg, n: Msg)
    requires Extends(p, n)
    ensures ReasoningDelta(p, n) == Ok(Sent(p, n))
    ensures ContentDelta(p, n).Ok? && p.content + ContentDelta(p, n).value == n.content
  {
    if p.reasoning == "" {
      assert n.reasoning[|p.reasoning|..] == n.reasoning;
    }
    if p.reasoning == n.reasoning {
      assert n.reasoning[|p.reasoning|..] == "";
    }
    assert n.content <= p.content <==> n.content == p.content;
  }

  /** Between a message and a growth of it diffing never throws, and a client that holds the old
      content and calls ends up with the new ones; its reasoning grows by what was sent. */
  lemma DiffsOfGrowth(client: Msg, p: Msg, n: Msg)
    requires Extends(p, n) && SameIds(p, n)
    requires client.content == p.content && client.calls == p.calls
    ensures Diffs(p, n).Ok?
    ensures ApplyAll(client, Diffs(p, n).value) == Msg(n.content, client.reasoning + Sent(p, n), n.calls)
  {
    DeltasOfGrowth(p, n);
    var text := TextDiffs(Sent(p, n), ContentDelta(p, n).value);
    var m1 := Msg(n.content, client.reasoning + Sent(p, n), p.calls);
    ApplyText(client, Sent(p, n), ContentDelta(p, n).value);
    ApplyLast(m1, p, n);
    var last := LastCallDiffs(p, n).value;
    var m2 := m1.(calls := n.calls[..|p.calls|]);
    ApplyNew(m2, n, |p.calls|);
    ApplyConcat(client, text + last, NewCallDiffs(n, |p.calls|));
    ApplyConcat(client, text, last);
  }

  /** One step of the stream loses nothing exactly when the overlap rule does not fire. */
  lemma DiffStepExact(p: Msg, n: Msg)
    requires Extends(p, n) && SameIds(p, n)
    ensures Diffs(p, n).Ok?
    ensures ApplyAll(p, Diffs(p, n).value) == n <==> !Overlap(p, n)
  {
    DiffsOfGrowth(p, p, n);
    var delta := n.reasoning[|p.reasoning|..];
    assert p.reasoning + delta == n.reasoning;
    if Overlap(p, n) {
      assert |p.reasoning + delta[|p.content|..]| < |n.reasoning|;
    }
  }

  // ---------------------------------------------------------------- call ids

  /** `gen(i)` is the random id drawn for call `i`, should it need one. */
  function GrowIds(ids: seq<string>, calls: seq<ToolCall>, gen: nat -> string): (r: seq<string>)
    ensures ids <= r && |r| == if |ids| < |calls| then |calls| else |ids|
    decreases |calls| - |ids|
  {
    if |ids| >= |calls| then ids
    else
      var i := |ids|;
      GrowIds(ids + [if calls[i].id == "" then gen(i) else calls[i].id], calls, gen)
  }

  function WithIds(calls: seq<ToolCall>, ids: seq<string>): (r: seq<ToolCall>)
    requires |calls| <= |ids|
    ensures |r| == |calls| && forall i :: 0 <= i < |r| ==> r[i] == calls[i].(id := ids[i])
  {
    seq(|calls|, i requires 0 <= i < |calls| => calls[i].(id := ids[i]))
  }

  method SetToolCallIds(m: Msg, idsCache: seq<string>, gen: nat -> string) returns (m': Msg, ids: seq<string>)
    ensures ids == GrowIds(idsCache, m.calls, gen)
    ensures m' == m.(calls := WithIds(m.calls, ids))
  {
    var calls := m.calls;
    ids := idsCache;
    var i := 0;
    while i < |calls|
      invariant 0 <= i <= |calls| == |m.calls| && i <= |ids| && idsCache <= ids
      invariant GrowIds(idsCache, m.calls, gen) == GrowIds(ids, m.calls, gen)
      invariant |ids| <= i || ids == idsCache
      invariant forall k :: 0 <= k < i ==> calls[k] == m.calls[k].(id := ids[k])
      invariant forall k :: i <= k < |calls| ==> calls[k] == m.calls[k]
    {
      if |ids| <= i {
        var id := calls[i].id;
        if id == "" {
          id := gen(i);
        }
        ids := ids + [id];
      }
      calls := calls[i := calls[i].(id := ids[i])];
      i := i + 1;
    }
    m' := m.(calls := calls);
  }

  // ---------------------------------------------------------------- one update of a slot

  /** What the server keeps between updates: the last message and the ids handed out. */
  datatype Slot = Slot(msg: Msg, ids: seq<string>)

  const EMPTY_SLOT := Slot(EMPTY_MSG, [])

  /** The slot after a new parse, and the deltas sent; an empty parse changes nothing. */
  function Update(slot: Slot, m: Msg, gen: nat -> string): (Slot, Outcome<seq<Diff>>) {
    if m == EMPTY_MSG then (slot, Ok([]))
    else
      var ids := GrowIds(slot.ids, m.calls, gen);
      var msg := m.(calls := WithIds(m.calls, ids));
      (Slot(msg, ids), Diffs(slot.msg, msg))
  }

  class ServerSlot {
    var chatMsg: Msg
    var generatedIds: seq<string>

    constructor ()
      ensures Slot(chatMsg, generatedIds) == EMPTY_SLOT
    {
      chatMsg, generatedIds := EMPTY_MSG, [];
    }

    method UpdateChatMsg(m: Msg, gen: nat -> string) returns (diffs: Outcome<seq<Diff>>)
      modifies this
      ensures (Slot(chatMsg, generatedIds), diffs) == Update(old(Slot(chatMsg, generatedIds)), m, gen)
    {
      var previous := chatMsg;
      diffs := Ok([]);
      if m != EMPTY_MSG {
        var withIds, ids := SetToolCallIds(m, generatedIds, gen);
        chatMsg, generatedIds := withIds, ids;
        diffs := ComputeDiffs(previous, chatMsg);
      }
    }
  }

  // ---------------------------------------------------------------- whole streams

  /** What is left of a stream that did not throw: the server's slot and the client's message. */
  datatype Ends = Ends(slot: Slot, client: Msg)

  /** A new parse is diffed against the slot's message, and the deltas folded by the client. */
  function Stage(slot: Slot, client: Msg, m: Msg, gen: nat -> string): Outcome<Ends> {
    var (slot', diffs) := Update(slot, m, gen);
    match diffs
    case Err(e) => Err(e)
    case Ok(ds) => Ok(Ends(slot', ApplyAll(client, ds)))
  }

  function Stream(slot: Slot, client: Msg, ms: seq<Msg>, gen: nat -> string): Outcome<Ends>
    decreases |ms|
  {
    if ms == [] then Ok(Ends(slot, client))
    else
      match Stage(slot, client, ms[0], gen)
      case Err(e) => Err(e)
      case Ok(Ends(slot', client')) => Stream(slot', client', ms[1..], gen)
  }

  /** Each message extends the one before, the first of them `p`. */
  ghost predicate Growing(p: Msg, ms: seq<Msg>)
    decreases |ms|
  {
    ms == [] || (Extends(p, ms[0]) && Growing(ms[0], ms[1..]))
  }

  /** At some step content stands still while reasoning grows by text that begins with it. */
  ghost predicate OverlapsSomewhere(p: Msg, ms: seq<Msg>)
    decreases |ms|
  {
    ms != [] && (Overlap(p, ms[0]) || OverlapsSomewhere(ms[0], ms[1..]))
  }

  function Last(p: Msg, ms: seq<Msg>): Msg {
    if ms == [] then p else ms[|ms| - 1]
  }

  /** The slot holds `m`, with an id for each of its calls. */
  ghost predicate Holds(slot: Slot, m: Msg) {
    |slot.ids| == |m.calls| && slot.msg == m.(calls := WithIds(m.calls, slot.ids))
  }

  /** The client has the message's content and calls, and its reasoning unless some was held back. */
  ghost predicate Tracks(client: Msg, msg: Msg) {
    && client.content == msg.content && client.calls == msg.calls
    && (client.reasoning == msg.reasoning || |client.reasoning| < |msg.reasoning|)
  }

  lemma UpdateHolds(slot: Slot, p: Msg, n: Msg, gen: nat -> string)
    requires Holds(slot, p) && Extends(p, n) && n != EMPTY_MSG
    ensures var slot' := Update(slot, n, gen).0;
            && Holds(slot', n) && slot.ids <= slot'.ids
            && Extends(slot.msg, slot'.msg) && SameIds(slot.msg, slot'.msg)
            && (Overlap(slot.msg, slot'.msg) <==> Overlap(p, n))
  {
    var slot' := Update(slot, n, gen).0;
    forall i | 0 <= i < |p.calls|
      ensures slot.msg.calls[i].id == slot'.msg.calls[i].id
    {
      assert slot.ids[i] == slot'.ids[i];
    }
    forall i | 0 <= i < |p.calls| - 1
      ensures SameCall(slot.msg.calls[i], slot'.msg.calls[i])
    {
      assert SameCall(p.calls[i], n.calls[i]);
    }
  }

  lemma TracksSent(client: Msg, p: Msg, n: Msg)
    requires Tracks(client, p) && Extends(p, n)
    ensures var client' := Msg(n.content, client.reasoning + Sent(p, n), n.calls);
            && Tracks(client', n)
            && (client' == n <==> client == p && !Overlap(p, n))
  {
    assert p.reasoning + n.reasoning[|p.reasoning|..] == n.reasoning;
    assert |Sent(p, n)| <= |n.reasoning| - |p.reasoning|;
    if Overlap(p, n) {
      assert |Sent(p, n)| < |n.reasoning| - |p.reasoning|;
    }
  }

  lemma TracksGrowth(client: Msg, p: Msg, n: Msg)
    requires Tracks(client, p) && Extends(p, n) && SameIds(p, n)
    ensures Diffs(p, n).Ok?
    ensures var client' := ApplyAll(client, Diffs(p, n).value);
            && Tracks(client', n)
            && (client' == n <==> client == p && !Overlap(p, n))
  {
    DiffsOfGrowth(client, p, n);
    TracksSent(client, p, n);
  }

  /** The slot holds `m`, ids once given are kept, and the client is in step, exactly if `exact`. */
  ghost predicate EndsWith(end: Ends, ids: seq<string>, m: Msg, exact: bool) {
    && Holds(end.slot, m) && ids <= end.slot.ids && Tracks(end.client, end.slot.msg)
    && (end.client == end.slot.msg <==> exact)
  }

  lemma StageExact(slot: Slot, client: Msg, p: Msg, n: Msg, gen: nat -> string)
    requires Holds(slot, p) && Extends(p, n) && Tracks(client, slot.msg)
    ensures Stage(slot, client, n, gen).Ok?
    ensures EndsWith(Stage(slot, client, n, gen).value, slot.ids, n, client == slot.msg && !Overlap(p, n))
  {
    if n == EMPTY_MSG {
      assert p == EMPTY_MSG;
    } else {
      UpdateHolds(slot, p, n, gen);
      TracksGrowth(client, slot.msg, Update(slot, n, gen).0.msg);
    }
  }

  /** Telescoping. Along every run of growing messages nothing throws, the slot ends with the last
      message, an id once given to a call is never changed, and the client's content and calls are the
      slot's. Its reasoning is too if and only if no step overlaps; otherwise it is shorter. */
  lemma {:induction false} StreamExact(slot: Slot, client: Msg, p: Msg, ms: seq<Msg>, gen: nat -> string)
    requires Growing(p, ms) && Holds(slot, p) && Tracks(client, slot.msg)
    ensures Stream(slot, client, ms, gen).Ok?
    ensures EndsWith(Stream(slot, client, ms, gen).value, slot.ids, Last(p, ms),
                     client == slot.msg && !OverlapsSomewhere(p, ms))
    decreases |ms|
  {
    if ms != [] {
      GrowingCons(p, ms);
      StageExact(slot, client, p, ms[0], gen);
      var end := Stage(slot, client, ms[0], gen).value;
      StreamExact(end.slot, end.client, ms[0], ms[1..], gen);
      StageThenStream(slot, client, p, ms, gen, end, Stream(end.slot, end.client, ms[1..], gen));
    }
  }

  lemma StageThenStream(slot: Slot, client: Msg, p: Msg, ms: seq<Msg>, gen: nat -> string,
                        mid: Ends, end: Outcome<Ends>)
    requires ms != [] && Stage(slot, client, ms[0], gen) == Ok(mid) && end.Ok?
    requires end == Stream(mid.slot, mid.client, ms[1..], gen)
    requires EndsWith(mid, slot.ids, ms[0], client == slot.msg && !Overlap(p, ms[0]))
    requires EndsWith(end.value, mid.slot.ids, Last(ms[0], ms[1..]),
                      mid.client == mid.slot.msg && !OverlapsSomewhere(ms[0], ms[1..]))
    ensures Stream(slot, client, ms, gen) == end
    ensures EndsWith(end.value, slot.ids, Last(p, ms), client == slot.msg && !OverlapsSomewhere(p, ms))
  {
    StreamCons(slot, client, ms, gen, mid.slot, mid.client);
    OverlapsCons(p, ms);
    EndsChain(mid, end.value, slot.ids, ms[0], Last(ms[0], ms[1..]),
              client == slot.msg && !Overlap(p, ms[0]), !OverlapsSomewhere(ms[0], ms[1..]));
    assert Last(ms[0], ms[1..]) == Last(p, ms);
  }

  lemma EndsChain(a: Ends, b: Ends, ids: seq<string>, n: Msg, m: Msg, first: bool, rest: bool)
    requires EndsWith(a, ids, n, first) && EndsWith(b, a.slot.ids, m, a.client == a.slot.msg && rest)
    ensures EndsWith(b, ids, m, first && rest)
  {
  }

  lemma OverlapsCons(p: Msg, ms: seq<Msg>)
    requires ms != []
    ensures OverlapsSomewhere(p, ms) <==> Overlap(p, ms[0]) || OverlapsSomewhere(ms[0], ms[1..])
  {
  }

  lemma StreamCons(slot: Slot, client: Msg, ms: seq<Msg>, gen: nat -> string, slot': Slot, client': Msg)
    requires ms != [] && Stage(slot, client, ms[0], gen) == Ok(Ends(slot', client'))
    ensures Stream(slot, client, ms, gen) == Stream(slot', client', ms[1..], gen)
  {
  }

  /** Messages grow up to one that tears the last call of the message before. */
  ghost predicate TornSomewhere(p: Msg, ms: seq<Msg>)
    decreases |ms|
  {
    ms != [] && (Torn(p, ms[0]) || (Extends(p, ms[0]) && TornSomewhere(ms[0], ms[1..])))
  }

  lemma GrowingCons(p: Msg, ms: seq<Msg>)
    requires ms != []
    ensures Growing(p, ms) <==> Extends(p, ms[0]) && Growing(ms[0], ms[1..])
    ensures TornSomewhere(p, ms) <==> Torn(p, ms[0]) || (Extends(p, ms[0]) && TornSomewhere(ms[0], ms[1..]))
  {
  }

  lemma StageTorn(slot: Slot, client: Msg, p: Msg, n: Msg, gen: nat -> string)
    requires Holds(slot, p) && Torn(p, n)
    ensures Stage(slot, client, n, gen).Err?
  {
    TornThrows(slot.msg, Update(slot, n, gen).0.msg);
  }

  /** A torn call makes the server throw. */
  lemma {:induction false} StreamTorn(slot: Slot, client: Msg, p: Msg, ms: seq<Msg>, gen: nat -> string)
    requires TornSomewhere(p, ms) && Holds(slot, p) && Tracks(client, slot.msg)
    ensures Stream(slot, client, ms, gen).Err?
    decreases |ms|
  {
    GrowingCons(p, ms);
    if Torn(p, ms[0]) {
      StageTorn(slot, client, p, ms[0], gen);
    } else {
      StageExact(slot, client, p, ms[0], gen);
      var end := Stage(slot, client, ms[0], gen).value;
      StreamTorn(end.slot, end.client, ms[0], ms[1..], gen);
      StreamCons(slot, client, ms, gen, end.slot, end.client);
    }
  }

  /** Reasoning no longer changes once there is content. */
  ghost predicate ReasonsFirst(p: Msg, ms: seq<Msg>)
    decreases |ms|
  {
    ms != [] ==> (p.content != "" ==> ms[0].reasoning == p.reasoning) && ReasonsFirst(ms[0], ms[1..])
  }

  lemma {:induction false} ReasonsFirstNeverOverlaps(p: Msg, ms: seq<Msg>)
    requires ReasonsFirst(p, ms)
    ensures !OverlapsSomewhere(p, ms)
    decreases |ms|
  {
    if ms != [] {
      ReasonsFirstNeverOverlaps(ms[0], ms[1..]);
    }
  }
}
