/** A tool call whose last value is copied into the arguments as it stands, JSON or not: what the
    arguments then read as. */
module RawValues {
  import opened Text
  import opened Chat
  import opened Json
  import opened Quotes
  import opened Mapper
  import opened Streaming
  import opened ToolArguments

  predicate Denotes(text: string, v: Value) {
    var r := ReadValue(text);
    r.Got? && r.value == v && SkipWs(r.rest) == ""
  }

  // ---------------------------------------------------------------- the last member of an object

  /** JSON text up to position `j`, there the closing brace, and then at most whitespace. */
  predicate EndsAt(z: string, j: nat) {
    j < |z| && z[j] == '}' && SkipWs(z[j + 1..]) == "" && IsJsonText(z[..j])
  }

  lemma EndsReads(z: string, j: nat)
    requires EndsAt(z, j)
    ensures var r := ReadValue(z); r.Got? && r.value == ReadValue(z[..j]).value && SkipWs(r.rest) == z[j..]
  {
    var y, t := z[..j], z[j..];
    assert z == y + t;
    ValueExtend(y, t);
    SkipWsExtend(ReadValue(y).rest, t);
  }

  lemma ReadsEnd(z: string, w: string) returns (j: nat)
    requires ReadValue(z).Got? && SkipWs(ReadValue(z).rest) == "}" + w && SkipWs(w) == ""
    ensures EndsAt(z, j) && ReadValue(z[..j]).value == ReadValue(z).value
  {
    var y, t := CutBack(z, |w| + 1);
    ReadsBefore(y, t, "}" + w);
    EndsOf(y, w);
    return |y|;
  }

  lemma CutBack(z: string, n: nat) returns (y: string, t: string)
    requires n <= |z|
    ensures z == y + t && |t| == n
  {
    return z[..|z| - n], z[|z| - n..];
  }

  lemma EndsOf(y: string, w: string)
    requires IsJsonText(y) && SkipWs(w) == ""
    ensures var z := y + ("}" + w); EndsAt(z, |y|) && z[..|y|] == y && z[|y| + 1..] == w
  {
    var z := y + ("}" + w);
    assert z[..|y|] == y && z[|y| + 1..] == w;
  }

  lemma ReadsBefore(y: string, t: string, u: string)
    requires ReadValue(y + t).Got? && SkipWs(ReadValue(y + t).rest) == u && |u| == |t| > 0
    ensures IsJsonText(y) && t == u && ReadValue(y).value == ReadValue(y + t).value
  {
    ValueShrink(y, t);
    WsBefore(ReadValue(y).rest, t, u);
  }

  lemma WsBefore(rest: string, t: string, u: string)
    requires SkipWs(rest + t) == u && |u| == |t| > 0
    ensures SkipWs(rest) == "" && t == u
  {
    SkipWsExtend(rest, t);
  }

  lemma MemberOrNot(key: string, z: string)
    ensures var r := ReadValue(z);
            ReadMember(Quote(key) + ":" + z) == if r.Fail? then Fail else Got((key, r.value), r.rest)
  {
    var colon := ":" + z;
    var text := Quote(key) + ":" + z;
    assert text[0] == '"' && text[1..] == Escape(key) + "\"" + colon;
    CharsOfEscape(key, colon);
    assert SkipWs(colon) == colon && colon[1..] == z;
    assert ReadColonValue(colon) == ReadValue(z);
  }

  lemma MembersSome(s: string)
    requires ReadMembers(s).Got?
    ensures ReadMembers(s).value != []
  {
  }

  lemma LastMember(key: string, z: string, v: Value, w: string)
    ensures ReadMembers(Quote(key) + ":" + z) == Got([(key, v)], w) <==>
            ReadValue(z).Got? && ReadValue(z).value == v && SkipWs(ReadValue(z).rest) == "}" + w
  {
    MemberOrNot(key, z);
    if ReadValue(z).Got? {
      var d := SkipWs(ReadValue(z).rest);
      if d != "" && d[0] == ',' {
        ManyMembers(Quote(key) + ":" + z, d);
      } else if d != "" {
        assert d == [d[0]] + d[1..];
      }
    }
  }

  lemma ManyMembers(s: string, d: string)
    requires ReadMember(s).Got? && SkipWs(ReadMember(s).rest) == d && d != "" && d[0] == ','
    ensures ReadMembers(s).Got? ==> |ReadMembers(s).value| > 1
  {
    if ReadMembers(s).Got? {
      MembersSome(SkipWs(d[1..]));
    }
  }

  // ---------------------------------------------------------------- and those before it

  /** Members put before those that are read, if they can be read. */
  function Before(ms: seq<(string, Value)>, r: Read<seq<(string, Value)>>): Read<seq<(string, Value)>> {
    if r.Fail? then Fail else Got(ms + r.value, r.rest)
  }

  lemma BeforeCons(m: (string, Value), ms: seq<(string, Value)>, r: Read<seq<(string, Value)>>)
    ensures Before([], r) == r && Before([m], Before(ms, r)) == Before([m] + ms, r)
  {
    if r.Got? {
      assert [m] + (ms + r.value) == ([m] + ms) + r.value;
      assert [] + r.value == r.value;
    }
  }

  lemma MembersThen(s: string, t: string)
    requires ReadMember(s).Got? && SkipWs(ReadMember(s).rest) == "," + t && t != "" && !IsWs(t[0])
    ensures ReadMembers(s) == Before([ReadMember(s).value], ReadMembers(t))
  {
    assert ("," + t)[1..] == t && SkipWs(t) == t;
  }

  lemma {:induction false} MembersBefore(parts: seq<string>, ms: seq<(string, Value)>, last: string)
    requires |parts| == |ms| && (forall i :: 0 <= i < |ms| ==> MemberReads(parts[i], ms[i]))
    requires last != "" && last[0] == '"'
    ensures Follows(parts, ms, last)
    decreases |parts|
  {
    if parts == [] {
      assert parts + [last] == [last] && ms == [];
      BeforeCons(("", Null), [], ReadMembers(last));
    } else {
      MembersBefore(parts[1..], ms[1..], last);
      FollowsCons(parts, ms, last);
    }
  }

  predicate Follows(parts: seq<string>, ms: seq<(string, Value)>, last: string) {
    var text := Joined(parts + [last]);
    ReadMembers(text) == Before(ms, ReadMembers(last)) && text != "" && text[0] == '"'
  }

  lemma FollowsCons(parts: seq<string>, ms: seq<(string, Value)>, last: string)
    requires |parts| == |ms| > 0 && MemberReads(parts[0], ms[0]) && Follows(parts[1..], ms[1..], last)
    ensures Follows(parts, ms, last)
  {
    var tail := Joined(parts[1..] + [last]);
    assert (parts + [last])[0] == parts[0] && (parts + [last])[1..] == parts[1..] + [last];
    JoinedCons(parts + [last]);
    MemberThen(parts[0], ms[0], tail);
    BeforeCons(ms[0], ms[1..], ReadMembers(last));
    assert ms == [ms[0]] + ms[1..];
  }

  lemma MemberThen(first: string, m: (string, Value), t: string)
    requires MemberReads(first, m) && t != "" && t[0] == '"'
    ensures ReadMembers(first + "," + t) == Before([m], ReadMembers(t))
    ensures first + "," + t != "" && (first + "," + t)[0] == '"'
  {
    assert EndsPart("," + t);
    assert first + "," + t == first + ("," + t);
    MembersThen(first + ("," + t), t);
  }

  lemma ObjectOrNot(s: string)
    requires s != "" && s[0] == '"'
    ensures var r := ReadMembers(s); ReadValue("{" + s) == if r.Fail? then Fail else Got(Object(r.value), r.rest)
  {
    var text := "{" + s;
    assert text[1..] == s && SkipWs(s) == s && SkipWs(text) == text;
  }

  // ---------------------------------------------------------------- an object that ends in raw text

  function RawMember(key: string, z: string): string {
    Quote(key) + ":" + z
  }

  /** Arguments as they should be, then a key and the text `z`. */
  function RawObject(init: seq<Arg>, key: string, z: string): string {
    "{" + Joined(MemberTexts(init) + [RawMember(key, z)])
  }

  /** The arguments before the raw text are read as they went in, whatever the text is; after them
      comes whatever members it spells. */
  lemma RawReads(init: seq<Arg>, key: string, z: string)
    requires forall i :: 0 <= i < |init| ==> Meaningful(init[i])
    ensures var r := ReadMembers(RawMember(key, z));
            ReadValue(RawObject(init, key, z)) ==
            if r.Fail? then Fail else Got(Object(DenotedAll(init) + r.value), r.rest)
  {
    var parts, ms := MemberTexts(init), DenotedAll(init);
    forall i | 0 <= i < |init|
      ensures MemberReads(parts[i], ms[i])
    {
      MemberTextReads(init[i]);
    }
    MembersBefore(parts, ms, RawMember(key, z));
    ObjectOrNot(Joined(parts + [RawMember(key, z)]));
  }

  /** The object is the given arguments and one member more, exactly when the text is JSON for its
      value, the closing brace and at most whitespace. */
  lemma RawExact(init: seq<Arg>, key: string, z: string, v: Value)
    requires forall i :: 0 <= i < |init| ==> Meaningful(init[i])
    ensures Denotes(RawObject(init, key, z), Object(DenotedAll(init) + [(key, v)])) <==>
            exists j :: 0 <= j < |z| && EndsAt(z, j) && ReadValue(z[..j]).value == v
  {
    RawReads(init, key, z);
    var r := ReadMembers(RawMember(key, z));
    if r.Got? && DenotedAll(init) + r.value == DenotedAll(init) + [(key, v)] && SkipWs(r.rest) == "" {
      SamePrefix(DenotedAll(init), r.value, [(key, v)]);
      LastEnds(key, z, v, r.rest);
    }
    if j :| 0 <= j < |z| && EndsAt(z, j) && ReadValue(z[..j]).value == v {
      EndsLast(key, z, v, j);
    }
  }

  lemma LastEnds(key: string, z: string, v: Value, w: string)
    requires ReadMembers(RawMember(key, z)) == Got([(key, v)], w) && SkipWs(w) == ""
    ensures exists j :: 0 <= j < |z| && EndsAt(z, j) && ReadValue(z[..j]).value == v
  {
    LastMember(key, z, v, w);
    var j := ReadsEnd(z, w);
  }

  lemma EndsLast(key: string, z: string, v: Value, j: nat)
    requires EndsAt(z, j) && ReadValue(z[..j]).value == v
    ensures ReadMembers(RawMember(key, z)) == Got([(key, v)], z[j + 1..])
  {
    EndsReads(z, j);
    assert z[j..] == "}" + z[j + 1..];
    LastMember(key, z, v, z[j + 1..]);
  }

  lemma SamePrefix<T>(a: seq<T>, b: seq<T>, c: seq<T>)
    requires a + b == a + c
    ensures b == c
  {
    assert (a + b)[|a|..] == b && (a + c)[|a|..] == c;
  }

  // ---------------------------------------------------------------- whole calls

  /** A raw value with the braces the closing of the call adds. */
  function Finished(raw: string): string {
    raw + Braces(ScanText(Scan(1, false, false), raw).depth)
  }

  lemma JoinedLast(parts: seq<string>, a: string, b: string)
    ensures Joined(parts + [a]) + b == Joined(parts + [a + b])
  {
    JoinedSnoc(parts, a);
    JoinedSnoc(parts, a + b);
  }

  lemma RawClosed(init: seq<Arg>, a: Arg)
    requires !a.isString && forall i :: 0 <= i < |init| ==> Meaningful(init[i])
    ensures CloseBraces(ViewAfter(init + [a]).text) == RawObject(init, TrimKey(a.key), Finished(RawPiece(a.value)))
  {
    var raw, key := RawPiece(a.value), TrimKey(a.key);
    var braces := Braces(ScanText(Scan(1, false, false), raw).depth);
    RawScanned(init, a);
    assert MemberTexts(init + [a]) == MemberTexts(init) + [RawMember(key, raw)];
    RawAppend(MemberTexts(init), key, raw, braces);
  }

  lemma RawAppend(parts: seq<string>, key: string, raw: string, braces: string)
    ensures "{" + Joined(parts + [RawMember(key, raw)]) + braces == "{" + Joined(parts + [RawMember(key, raw + braces)])
  {
    assert RawMember(key, raw) + braces == RawMember(key, raw + braces);
    JoinedLast(parts, RawMember(key, raw), braces);
  }

  /** Before the raw text one brace is open. */
  lemma RawScanned(init: seq<Arg>, a: Arg)
    requires !a.isString && forall i :: 0 <= i < |init| ==> Meaningful(init[i])
    ensures ScanText(START, ViewAfter(init + [a]).text) == ScanText(Scan(1, false, false), RawPiece(a.value))
  {
    var v, raw, head := ViewAfter(init), RawPiece(a.value), Quote(TrimKey(a.key)) + ":";
    ObjectScan(init);
    KeyScan(v, a);
    ScanConcat(START, v.text + (Comma(v) + head), raw);
    ViewSnoc(init, a);
    ArgView(v, a);
    JoinMember(v.text, Comma(v), Quote(TrimKey(a.key)), raw);
  }

  /** A tagged call whose last value is any raw text. The call is added with the braces closed; the
      arguments before the raw one are read as they went in; and the arguments are those and a value
      for the last key exactly when the raw text, its braces closed, is JSON up to the last brace. */
  lemma RawCallExact(s: State, init: seq<Arg>, a: Arg, name: string, k: nat, v: Value)
    requires Valid(s) && !s.dangling && !BlankName(name) && k <= |TaggedBody(init + [a])|
    requires !a.isString && forall i :: 0 <= i < |init| ==> Meaningful(init[i])
    ensures var key, z := TrimKey(a.key), Finished(RawPiece(a.value));
            && RunFrom(s, CallEvents(TaggedBody(init + [a]), name, k)).msg ==
               s.msg.(calls := s.msg.calls + [ToolCall(TrimTrailing(name, -1), RawObject(init, key, z), "")])
            && (Denotes(RawObject(init, key, z), Object(DenotedAll(init) + [(key, v)])) <==>
                exists j :: 0 <= j < |z| && EndsAt(z, j) && ReadValue(z[..j]).value == v)
  {
    var args := init + [a];
    TaggedTags(args);
    TaggedPhase(args);
    TaggedView(args);
    CallAssembled(s, TaggedBody(args), name, k);
    RawClosed(init, a);
    assert ViewAfter(args).text + "" == ViewAfter(args).text;
    RawExact(init, TrimKey(a.key), Finished(RawPiece(a.value)), v);
  }

  // ---------------------------------------------------------------- values that are not JSON

  /** Closing braces count outside strings only. */
  lemma {:induction false} BracesScanned(st: Scan, n: nat)
    requires Sane(st)
    ensures var after := ScanText(st, Braces(n));
            Sane(after) && if st.inString then after.inString else after == st.(depth := st.depth - n)
    decreases n
  {
    if n > 0 {
      BracesScanned(st, n - 1);
      ScanConcat(st, Braces(n - 1), "}");
      OneBrace(ScanText(st, Braces(n - 1)));
    }
  }

  lemma OneBrace(st: Scan)
    ensures ScanText(st, "}") == ScanChar(st, '}')
  {
    assert "}"[1..] == [];
  }

  /** A value that lacks only closing braces (or nothing) is finished by those and one brace more. */
  lemma RawTruncated(raw: string, n: nat)
    requires IsJsonText(raw + Braces(n))
    ensures Finished(raw) == (raw + Braces(n)) + "}"
    ensures var j := |raw + Braces(n)|; EndsAt(Finished(raw), j) && Finished(raw)[..j] == raw + Braces(n)
  {
    MissingBraces(raw, n);
    assert raw + (Braces(n) + "}") == (raw + Braces(n)) + "}";
    EndsOf(raw + Braces(n), "");
    assert "}" + "" == "}";
  }

  lemma MissingBraces(raw: string, n: nat)
    requires IsJsonText(raw + Braces(n))
    ensures ScanText(Scan(1, false, false), raw).depth == n + 1
  {
    RawScan(raw + Braces(n));
    ScanConcat(Scan(1, false, false), raw, Braces(n));
    NeverEscapedOutside(Scan(1, false, false), raw);
    BracesScanned(ScanText(Scan(1, false, false), raw), n);
  }

  lemma JsonMember(key: string, x: string)
    requires IsJsonText(x)
    ensures MemberReads(RawMember(key, x), (key, ReadValue(x).value))
  {
    forall t | EndsPart(t)
      ensures var r := ReadValue(x + t); r.Got? && r.value == ReadValue(x).value && SkipWs(r.rest) == t
    {
      ValueExtend(x, t);
      SkipWsExtend(ReadValue(x).rest, t);
    }
    MemberReadsOf(key, x, ReadValue(x).value);
  }

  lemma OneMember(key: string, y: string)
    requires IsJsonText(y)
    ensures ReadMembers(RawMember(key, y + "}")) == Got([(key, ReadValue(y).value)], "")
  {
    EndsOf(y, "");
    assert "}" + "" == "}";
    EndsLast(key, y + "}", ReadValue(y).value, |y|);
  }

  lemma TwoMembers(key: string, x: string, extra: string, y: string)
    requires IsJsonText(x) && IsJsonText(y)
    ensures ReadMembers(RawMember(key, x) + "," + RawMember(extra, y + "}")) ==
            Got([(key, ReadValue(x).value), (extra, ReadValue(y).value)], "")
  {
    JsonMember(key, x);
    var m, n := (key, ReadValue(x).value), (extra, ReadValue(y).value);
    MemberThen(RawMember(key, x), m, RawMember(extra, y + "}"));
    OneMember(extra, y);
    assert [m] + [n] == [m, n];
  }

  lemma TwoTexts(key: string, x: string, extra: string, y: string)
    ensures RawMember(key, x + "," + RawMember(extra, y) + "}") == RawMember(key, x) + "," + RawMember(extra, y + "}")
  {
  }

  lemma TwoScanned(x: string, extra: string, y: string)
    requires IsJsonText(x) && IsJsonText(y)
    ensures ScanText(Scan(1, false, false), x + "," + RawMember(extra, y)) == Scan(1, false, false)
  {
    var st, mid := Scan(1, false, false), "," + (Quote(extra) + ":");
    RawScan(x);
    ScanKey(",", extra);
    RawScan(y);
    ScanConcat(st, x, mid);
    ScanConcat(st, x + mid, y);
    assert (x + mid) + y == x + "," + RawMember(extra, y);
  }

  /** Two JSON texts with a comma and a key between them are taken for two arguments. */
  lemma RawSpellsMember(init: seq<Arg>, key: string, x: string, extra: string, y: string)
    requires (forall i :: 0 <= i < |init| ==> Meaningful(init[i])) && IsJsonText(x) && IsJsonText(y)
    ensures Denotes(RawObject(init, key, Finished(x + "," + RawMember(extra, y))),
                    Object(DenotedAll(init) + [(key, ReadValue(x).value), (extra, ReadValue(y).value)]))
  {
    var raw := x + "," + RawMember(extra, y);
    TwoScanned(x, extra, y);
    assert Braces(0) == "";
    assert Braces(1) == "}";
    TwoTexts(key, x, extra, y);
    TwoMembers(key, x, extra, y);
    RawReads(init, key, raw + "}");
  }

  /** Text that cannot be read as a value leaves arguments that cannot be read. */
  lemma RawUnreadable(init: seq<Arg>, key: string, z: string)
    requires (forall i :: 0 <= i < |init| ==> Meaningful(init[i])) && ReadValue(z).Fail?
    ensures ReadValue(RawObject(init, key, z)).Fail?
  {
    RawReads(init, key, z);
    MemberOrNot(key, z);
  }
}
