/** Which opens of a run end up as calls. */
module NamedCalls {
  import opened Text
  import opened Mapper

  predicate Boundary(t: Tag) {
    t == ToolOpen || t == ToolClose
  }

  /** The open at `i` gets the name at `j`: no other open or close stands between them. */
  ghost predicate Names(es: seq<Event>, i: int, j: int) {
    && 0 <= i < j < |es| && es[i].tag == ToolOpen && es[j].tag == ToolName
    && forall k :: i < k < j ==> !Boundary(es[k].tag)
  }

  ghost predicate Named(es: seq<Event>, i: int) {
    exists j :: Names(es, i, j)
  }

  /** The opens that are named before the next open or close. */
  ghost function NamedOpens(es: seq<Event>): set<int> {
    set i | 0 <= i < |es| && Named(es, i)
  }

  /** The last open or close of a run, -1 if there is none. */
  function LastBoundary(es: seq<Event>): (b: int)
    ensures -1 <= b < |es|
    ensures b >= 0 ==> Boundary(es[b].tag)
    ensures forall k :: b < k < |es| ==> !Boundary(es[k].tag)
  {
    if es == [] then -1
    else if Boundary(es[|es| - 1].tag) then |es| - 1
    else LastBoundary(es[..|es| - 1])
  }

  /** The run is inside a call that has no name yet. */
  ghost predicate AwaitsName(es: seq<Event>) {
    var b := LastBoundary(es);
    b >= 0 && es[b].tag == ToolOpen && b !in NamedOpens(es)
  }

  lemma NamesPrefix(es: seq<Event>, e: Event, i: int, j: int)
    requires j < |es|
    ensures Names(es + [e], i, j) <==> Names(es, i, j)
  {
    var fs := es + [e];
    if Names(fs, i, j) {
      forall k | i < k < j
        ensures !Boundary(es[k].tag)
      {
        assert fs[k] == es[k];
      }
    }
    if Names(es, i, j) {
      forall k | i < k < j
        ensures !Boundary(fs[k].tag)
      {
        assert fs[k] == es[k];
      }
    }
  }

  lemma NamesLast(es: seq<Event>, e: Event, i: int)
    ensures Names(es + [e], i, |es|) <==>
            e.tag == ToolName && 0 <= i == LastBoundary(es) && es[i].tag == ToolOpen
  {
    var fs, b := es + [e], LastBoundary(es);
    assert forall k :: 0 <= k < |es| ==> fs[k] == es[k];
    assert b >= 0 ==> Boundary(fs[b].tag);
  }

  lemma BoundarySnoc(es: seq<Event>, e: Event)
    ensures LastBoundary(es + [e]) == if Boundary(e.tag) then |es| else LastBoundary(es)
  {
    assert (es + [e])[..|es|] == es;
  }

  lemma NamedSnoc(es: seq<Event>, e: Event)
    ensures NamedOpens(es + [e]) ==
            NamedOpens(es) +
            (if e.tag == ToolName && LastBoundary(es) >= 0 && es[LastBoundary(es)].tag == ToolOpen
             then {LastBoundary(es)} else {})
  {
    var fs, b := es + [e], LastBoundary(es);
    var added := if e.tag == ToolName && b >= 0 && es[b].tag == ToolOpen then {b} else {};
    forall i
      ensures i in NamedOpens(fs) <==> i in NamedOpens(es) + added
    {
      NamesLast(es, e, i);
      if i in NamedOpens(fs) {
        var j :| Names(fs, i, j);
        if j < |es| {
          NamesPrefix(es, e, i, j);
        }
      }
      if i in NamedOpens(es) {
        var j :| Names(es, i, j);
        NamesPrefix(es, e, i, j);
      }
      if i in added {
        assert Names(fs, i, |es|);
      }
    }
  }

  lemma TargetKeepsCalls(s: State, text: string)
    requires Live(s)
    ensures WithTarget(s, text).cursor == s.cursor && |WithTarget(s, text).msg.calls| == |s.msg.calls|
  {
  }

  lemma CursorStepTool(s: State, e: Event)
    requires Live(s)
    ensures StepTool(s, e).cursor.AtPending? <==> s.cursor.AtPending? && e.tag != ToolName && e.tag != ToolClose
    ensures |StepTool(s, e).msg.calls| ==
            |s.msg.calls| + (if e.tag == ToolName && s.cursor.AtPending? then 1 else 0)
  {
    if IsArgument(e.tag) {
      ArgumentKeepsCalls(s, e);
    }
  }

  predicate IsArgument(t: Tag) {
    match t
    case ToolArgs | ArgName | ArgValue | ArgString | ArgClose => true
    case _ => false
  }

  lemma ArgumentKeepsCalls(s: State, e: Event)
    requires Live(s) && IsArgument(e.tag)
    ensures StepTool(s, e).cursor == s.cursor && |StepTool(s, e).msg.calls| == |s.msg.calls|
  {
    match e.tag
    case ToolArgs => TargetKeepsCalls(s, TrimTrailing(e.text, -1));
    case ArgName =>
      TargetKeepsCalls(s.(argCount := s.argCount + 1),
                       (if Target(s) == "" then "{" else Target(s)) + KeyEntry(s.argCount, e.text));
    case ArgValue => TargetKeepsCalls(s, Target(s) + RawPiece(e.text));
    case ArgString =>
      TargetKeepsCalls(s.(quotePending := true), Target(s) + StringPiece(s.quotePending, e.text));
    case ArgClose => TargetKeepsCalls(s.(quotePending := false), Target(s) + "\"");
  }

  /** The cursor after an event, for a mapper that has not followed its dead pointer. */
  lemma CursorStep(s: State, e: Event)
    requires Valid(s) && !Step(s, e).dangling
    ensures !s.dangling
    ensures Step(s, e).cursor.AtPending? <==>
            e.tag == ToolOpen || (s.cursor.AtPending? && e.tag != ToolName && e.tag != ToolClose)
    ensures |Step(s, e).msg.calls| == |s.msg.calls| + (if e.tag == ToolName && s.cursor.AtPending? then 1 else 0)
  {
    DanglingStep(s, e);
    if Live(s) {
      CursorStepTool(s, e);
    }
  }

  /** As many calls come out as there are opens that were named in time, for every run that leaves
      the dead pointer alone; and the mapper has a pending call exactly while it awaits a name. */
  lemma {:induction false} CallsAreNamedOpens(es: seq<Event>)
    requires !FollowsDeadPointer(es)
    ensures |Run(es).msg.calls| == |NamedOpens(es)|
    ensures Run(es).pending.Some? <==> AwaitsName(es)
    decreases |es|
  {
    if es == [] {
      assert NamedOpens(es) == {};
    } else {
      var n := |es| - 1;
      var init, e := es[..n], es[n];
      assert es == init + [e];
      RunSnoc(INITIAL, init, e);
      FollowsSnoc(init, e);
      DanglesExactly(es);
      var s := Run(init);
      CursorStep(s, e);
      CallsAreNamedOpens(init);
      NamedSnoc(init, e);
      BoundarySnoc(init, e);
      var b := LastBoundary(init);
      if e.tag == ToolName && b >= 0 && init[b].tag == ToolOpen {
        assert b in NamedOpens(es);
        if b in NamedOpens(init) {
          assert NamedOpens(es) == NamedOpens(init);
        }
      } else {
        assert NamedOpens(es) == NamedOpens(init);
      }
      assert n !in NamedOpens(init);
    }
  }

  /** The flush at the end of a parse never adds a call, in any run whatever. */
  lemma FlushAddsNothing(es: seq<Event>)
    ensures Parse(es).calls == Run(es).msg.calls
  {
  }

  /** So a finished parse has one call for each open that was named before the next open or close. */
  lemma ParseCounts(es: seq<Event>)
    requires !FollowsDeadPointer(es)
    ensures |Parse(es).calls| == |NamedOpens(es)|
  {
    CallsAreNamedOpens(es);
  }
}
