/** The two ways a streamed answer can go wrong do happen: a run on which the server throws, and runs
    after which the client lacks text. */
module StreamFailures {
  import opened Wrappers
  import opened Text
  import opened Chat
  import opened Quotes
  import opened Mapper
  import opened MessageDiff
  import opened Streaming

  lemma {:induction false} NoOthers(es: seq<Event>)
    requires AllTagged(es)
    ensures Tagged(es) == es
    decreases |es|
  {
    if es != [] {
      NoOthers(es[..|es| - 1]);
      assert es == es[..|es| - 1] + [es[|es| - 1]];
      TaggedAppend(es[..|es| - 1], es[|es| - 1]);
    }
  }

  lemma PhaseNext(es: seq<Event>, e: Event, ph: Phase, ph': Phase)
    requires PhaseOf(es) == Some(ph) && NextPhase(ph, e) == Some(ph')
    ensures PhaseOf(es + [e]) == Some(ph')
  {
    PhaseSnoc(es, e);
  }

  predicate AllTagged(es: seq<Event>) {
    forall i :: 0 <= i < |es| ==> es[i].tag != Other
  }

  /** A later parse with the last node longer. */
  lemma LastGrows(init: seq<Event>, e: Event, f: Event)
    requires AllTagged(init) && e.tag == f.tag != Other && e.text <= f.text
    ensures Grows(init + [e], init + [f])
    ensures Rewritten(init + [e], init + [f]) <==> InNamedCall(PhaseOf(init + [e])) && Rewrites(e, f)
  {
    var a, b := init + [e], init + [f];
    NoOthers(a);
    NoOthers(b);
    assert a[|a| - 1] == e && b[|a| - 1] == f;
  }

  /** A later parse with one node more. */
  lemma MoreGrows(init: seq<Event>, e: Event, f: Event)
    requires AllTagged(init) && e.tag != Other && f.tag != Other && !Rewrites(e, e)
    ensures Grows(init + [e], init + [e] + [f]) && !Rewritten(init + [e], init + [e] + [f])
  {
    var a, b := init + [e], init + [e] + [f];
    NoOthers(a);
    NoOthers(b);
    assert a[|a| - 1] == e && b[|a| - 1] == e;
  }

  // ---------------------------------------------------------------- a rewritten value

  /** A named call that has got as far as its first key, and then its value. */
  function UpToKey(): seq<Event> {
    [] + [Event(ToolOpen, "")] + [Event(ToolName, "f")] + [Event(ArgOpen, "")] + [Event(ArgName, "k")]
  }

  function UpToValue(text: string): seq<Event> {
    UpToKey() + [Event(ArgValue, text)]
  }

  lemma NotBlank(text: string)
    requires text != "" && !IsSpace(text[|text| - 1])
    ensures TrimTrailing(text, -1) == text
  {
  }

  lemma UpToKeyPhase()
    ensures PhaseOf(UpToKey()) == Some(InCall(true, HaveKey)) && AllTagged(UpToKey())
  {
    var es: seq<Event> := [];
    PhaseNext(es, Event(ToolOpen, ""), Outside, InCall(false, NoArgs));
    NotBlank("f");
    es := es + [Event(ToolOpen, "")];
    PhaseNext(es, Event(ToolName, "f"), InCall(false, NoArgs), InCall(true, NoArgs));
    es := es + [Event(ToolName, "f")];
    PhaseNext(es, Event(ArgOpen, ""), InCall(true, NoArgs), InCall(true, ArgStart));
    es := es + [Event(ArgOpen, "")];
    PhaseNext(es, Event(ArgName, "k"), InCall(true, ArgStart), InCall(true, HaveKey));
  }

  const CUT := "{'a\\"

  const WHOLE := "{'a\\'"

  lemma CutIsBad()
    ensures CUT <= WHOLE && !SafeGrowth(CUT, WHOLE)
  {
    assert CUT[1..] == "'a\\" && CUT[2..] == "a\\" && CUT[3..] == "\\";
    assert CUT[1..][1..] == CUT[2..] && CUT[2..][1..] == CUT[3..];
    assert After(InSingle, "\\") == (InSingle, true);
    assert After(InSingle, CUT[2..]) == (InSingle, true);
    assert After(Plain, CUT[1..]) == (InSingle, true);
    assert After(Plain, CUT) == (InSingle, true);
    assert TrimOne(CUT) == CUT && TrimOne(WHOLE) == WHOLE;
    assert WHOLE[..4] == CUT;
  }

  lemma ValueGrows(t: string, u: string)
    requires t <= u
    ensures WellFormed(UpToValue(t)) && WellFormed(UpToValue(u)) && Grows(UpToValue(t), UpToValue(u))
    ensures Rewritten(UpToValue(t), UpToValue(u)) <==> !SafeGrowth(t, u)
  {
    var e, f := Event(ArgValue, t), Event(ArgValue, u);
    UpToKeyPhase();
    PhaseNext(UpToKey(), e, InCall(true, HaveKey), InCall(true, HaveValue));
    PhaseNext(UpToKey(), f, InCall(true, HaveKey), InCall(true, HaveValue));
    LastGrows(UpToKey(), e, f);
  }

  /** A value in Python quotes, cut after the backslash of an escaped quote: the server throws. */
  lemma BadCutThrows()
    ensures var es, fs := UpToValue(CUT), UpToValue(WHOLE);
            WellFormed(es) && WellFormed(fs) && Grows(es, fs) && Diffs(Parse(es), Parse(fs)).Err?
  {
    CutIsBad();
    ValueGrows(CUT, WHOLE);
    ThrowsOnRewrite(UpToValue(CUT), UpToValue(WHOLE));
  }

  // ---------------------------------------------------------------- reasoning after content

  function Shown(c: string): seq<Event> {
    [] + [Event(Content, c)]
  }

  function ThenReasoned(c: string, r: string): seq<Event> {
    [] + [Event(Content, c)] + [Event(Reasoning, c + r)]
  }

  lemma TextPhases(c: string, r: string)
    ensures PhaseOf(Shown(c)) == Some(Outside) && PhaseOf(ThenReasoned(c, r)) == Some(Outside)
  {
    PhaseNext([], Event(Content, c), Outside, Outside);
    PhaseNext(Shown(c), Event(Reasoning, c + r), Outside, Outside);
  }

  lemma TextStep(s: State, text: string)
    requires Mapper.Valid(s)
    ensures Step(s, Event(Content, text)) == s.(msg := s.msg.(content := s.msg.content + text))
    ensures Step(s, Event(Reasoning, text)) == s.(msg := s.msg.(reasoning := s.msg.reasoning + text))
  {
  }

  lemma ShownParse(c: string)
    ensures Run(Shown(c)) == INITIAL.(msg := Msg(c, "", []))
  {
    RunSnoc(INITIAL, [], Event(Content, c));
    TextStep(INITIAL, c);
    assert "" + c == c;
  }

  lemma ThenReasonedParse(c: string, r: string)
    ensures Run(ThenReasoned(c, r)) == INITIAL.(msg := Msg(c, c + r, []))
  {
    ShownParse(c);
    RunSnoc(INITIAL, Shown(c), Event(Reasoning, c + r));
    TextStep(Run(Shown(c)), c + r);
    assert "" + (c + r) == c + r;
  }

  lemma ReasonedGrows(c: string, r: string)
    ensures StagesGrow([], [Shown(c), ThenReasoned(c, r)])
    ensures !RewrittenSomewhere([], [Shown(c), ThenReasoned(c, r)])
  {
    TextPhases(c, r);
    TextsGrow(c, r);
    TwoStages(Shown(c), ThenReasoned(c, r));
  }

  lemma TextsGrow(c: string, r: string)
    ensures Grows([], Shown(c)) && !Rewritten([], Shown(c))
    ensures Grows(Shown(c), ThenReasoned(c, r)) && !Rewritten(Shown(c), ThenReasoned(c, r))
  {
    assert Tagged([]) == [];
    MoreGrows([], Event(Content, c), Event(Reasoning, c + r));
  }

  lemma TwoStages(a: seq<Event>, b: seq<Event>)
    requires WellFormed(a) && WellFormed(b) && Grows([], a) && Grows(a, b) && !Rewritten([], a) && !Rewritten(a, b)
    ensures StagesGrow([], [a, b]) && !RewrittenSomewhere([], [a, b])
  {
    var stages := [a, b];
    assert stages[1..] == [b] && stages[1..][1..] == [];
    assert StagesGrow(b, []) && !RewrittenSomewhere(b, []);
    assert StagesGrow(a, stages[1..]) && !RewrittenSomewhere(a, stages[1..]);
  }

  lemma MessagesOverlap(c: string, r: string)
    requires !Blank(c)
    ensures OverlapsSomewhere(EMPTY_MSG, Parses([Shown(c), ThenReasoned(c, r)]))
  {
    var stages := [Shown(c), ThenReasoned(c, r)];
    ShownParse(c);
    ThenReasonedParse(c, r);
    var p, n := Parse(Shown(c)), Parse(ThenReasoned(c, r));
    var i :| 0 <= i < |c| && !BlankChar(c[i]);
    assert (c + r)[i] == c[i];
    assert p == Msg(c, "", []) && n == Msg(c, c + r, []);
    assert (c + r)[|p.reasoning|..] == c + r;
    assert Overlap(p, n);
    assert stages[1..] == [ThenReasoned(c, r)];
    ParsesCons(stages);
    ParsesCons(stages[1..]);
  }

  /** Reasoning that comes after content and begins with the same text: the client loses that text. */
  lemma OverlapLoses(c: string, r: string, gen: nat -> string)
    requires !Blank(c)
    ensures var stages := [Shown(c), ThenReasoned(c, r)];
            StagesGrow([], stages) &&
            var end := Stream(EMPTY_SLOT, EMPTY_MSG, Parses(stages), gen);
            end.Ok? && end.value.client != end.value.slot.msg
  {
    ReasonedGrows(c, r);
    MessagesOverlap(c, r);
    StreamRebuilds([Shown(c), ThenReasoned(c, r)], gen);
  }
}
