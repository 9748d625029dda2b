/** The two character scanners of common/chat-peg-parser.cpp: the brace counter that closes
    truncated arguments, and the transducer that turns Python-style quotes into JSON ones. */
module Quotes {
  import opened Json

  // ---------------------------------------------------------------- brace counter

  datatype Scan = Scan(depth: int, inString: bool, escaped: bool)

  const START := Scan(0, false, false)

  function ScanChar(st: Scan, c: char): Scan {
    if st.escaped then st.(escaped := false)
    else if c == '\\' && st.inString then st.(escaped := true)
    else if c == '"' then st.(inString := !st.inString)
    else if st.inString then st
    else if c == '{' then st.(depth := st.depth + 1)
    else if c == '}' then st.(depth := st.depth - 1)
    else st
  }

  function ScanText(st: Scan, s: string): Scan
    decreases |s|
  {
    if s == [] then st else ScanText(ScanChar(st, s[0]), s[1..])
  }

  /** How many `{` of `s` are still open, braces inside double-quoted strings not counted. */
  method JsonBraceDepth(s: string) returns (depth: int)
    ensures depth == ScanText(START, s).depth
  {
    depth := 0;
    var inString, escaped := false, false;
    for i := 0 to |s|
      invariant ScanText(START, s) == ScanText(Scan(depth, inString, escaped), s[i..])
    {
      var c := s[i];
      assert s[i..][1..] == s[i + 1..];
      if escaped {
        escaped := false;
        continue;
      }
      if c == '\\' && inString {
        escaped := true;
        continue;
      }
      if c == '"' {
        inString := !inString;
        continue;
      }
      if !inString {
        if c == '{' {
          depth := depth + 1;
        } else if c == '}' {
          depth := depth - 1;
        }
      }
    }
  }

  lemma {:induction false} ScanConcat(st: Scan, s: string, t: string)
    ensures ScanText(st, s + t) == ScanText(ScanText(st, s), t)
    decreases |s|
  {
    if s == [] {
      assert s + t == t;
    } else {
      ScanConcat(ScanChar(st, s[0]), s[1..], t);
      assert (s + t)[1..] == s[1..] + t;
    }
  }

  lemma {:induction false} ScanSkipWs(d: int, s: string)
    ensures ScanText(Scan(d, false, false), s) == ScanText(Scan(d, false, false), SkipWs(s))
    decreases |s|
  {
    if s != [] && IsWs(s[0]) {
      ScanSkipWs(d, s[1..]);
    }
  }

  /** Characters that mean nothing to the scanner inside a string. */
  lemma {:induction false} ScanPlain(d: int, s: string, n: nat)
    requires n <= |s| && forall i :: 0 <= i < n ==> s[i] != '"' && s[i] != '\\'
    ensures ScanText(Scan(d, true, false), s) == ScanText(Scan(d, true, false), s[n..])
    decreases n
  {
    if n > 0 {
      ScanPlain(d, s[1..], n - 1);
      assert s[1..][n - 1..] == s[n..];
    }
  }

  lemma ScanEscape(d: int, s: string)
    requires |s| >= 2 && s[0] == '\\'
    ensures ScanText(Scan(d, true, false), s) == ScanText(Scan(d, true, false), s[2..])
  {
    assert s[1..][1..] == s[2..];
    assert ScanText(Scan(d, true, false), s) == ScanText(Scan(d, true, true), s[1..]);
  }

  lemma ScanUnicode(d: int, s: string)
    requires |s| >= 2 && s[0] == '\\' && HasHex4(s, 2)
    ensures ScanText(Scan(d, true, false), s) == ScanText(Scan(d, true, false), s[6..])
  {
    ScanEscape(d, s);
    var u := s[2..];
    assert u[0] == s[2] && u[1] == s[3] && u[2] == s[4] && u[3] == s[5];
    ScanPlain(d, u, 4);
    assert u[4..] == s[6..];
  }

  lemma ScanUnit(d: int, s: string)
    requires s != [] && ReadUnit(s).Got?
    ensures ScanText(Scan(d, true, false), s) == ScanText(Scan(d, true, false), ReadUnit(s).rest)
  {
    if s[0] == '\\' {
      if s[1] != 'u' {
        ScanEscape(d, s);
      } else {
        ScanUnicode(d, s);
        if 0xD800 <= Hex4(s, 2) < 0xE000 {
          var t := s[6..];
          assert t[2] == s[8] && t[3] == s[9] && t[4] == s[10] && t[5] == s[11];
          ScanUnicode(d, t);
          assert t[6..] == s[12..];
        }
      }
    }
  }

  lemma {:induction false} ScanChars(d: int, s: string)
    requires ReadChars(s).Got?
    ensures ScanText(Scan(d, true, false), s) == ScanText(Scan(d, false, false), ReadChars(s).rest)
    decreases |s|
  {
    if s[0] != '"' {
      ScanUnit(d, s);
      ScanChars(d, ReadUnit(s).rest);
    }
  }

  lemma {:induction false} ScanOutside(d: int, s: string, n: nat)
    requires n <= |s| && forall i :: 0 <= i < n ==> s[i] != '"' && s[i] != '{' && s[i] != '}'
    ensures ScanText(Scan(d, false, false), s) == ScanText(Scan(d, false, false), s[n..])
    decreases n
  {
    if n > 0 {
      ScanOutside(d, s[1..], n - 1);
      assert s[1..][n - 1..] == s[n..];
    }
  }

  lemma {:induction false} NumSpanChars(s: string)
    ensures forall i :: 0 <= i < NumSpan(s) ==> IsNumChar(s[i])
    decreases |s|
  {
    if s != [] && IsNumChar(s[0]) {
      NumSpanChars(s[1..]);
      forall i | 0 <= i < NumSpan(s)
        ensures IsNumChar(s[i])
      {
        if i > 0 {
          assert s[i] == s[1..][i - 1];
        }
      }
    }
  }

  lemma ScanScalar(d: int, s: string)
    requires ReadScalar(s).Got?
    ensures ScanText(Scan(d, false, false), s) == ScanText(Scan(d, false, false), ReadScalar(s).rest)
  {
    if "true" <= s || "false" <= s || "null" <= s {
      ScanOutside(d, s, |s| - |ReadScalar(s).rest|);
    } else {
      NumSpanChars(s);
      ScanOutside(d, s, NumSpan(s));
    }
  }

  /** The brace counter agrees with the JSON grammar: over any complete value it comes back
      to where it was, outside every string. */
  lemma {:induction false} ScanValue(d: int, text: string)
    requires ReadValue(text).Got?
    ensures ScanText(Scan(d, false, false), text) == ScanText(Scan(d, false, false), ReadValue(text).rest)
    decreases |text|, 2
  {
    ScanSkipWs(d, text);
    var s := SkipWs(text);
    if s[0] == '"' {
      ScanChars(d, s[1..]);
    } else if s[0] == '{' {
      ScanSkipWs(d + 1, s[1..]);
      var u := SkipWs(s[1..]);
      if u[0] != '}' {
        ScanMembers(d + 1, u);
      }
    } else if s[0] == '[' {
      ScanSkipWs(d, s[1..]);
      var u := SkipWs(s[1..]);
      if u[0] != ']' {
        ScanItems(d, u);
      }
    } else {
      ScanScalar(d, s);
    }
  }

  lemma {:induction false} ScanMember(d: int, s: string)
    requires ReadMember(s).Got?
    ensures ScanText(Scan(d, false, false), s) == ScanText(Scan(d, false, false), ReadMember(s).rest)
    decreases |s|, 0
  {
    ScanChars(d, s[1..]);
    var rest := ReadChars(s[1..]).rest;
    ScanSkipWs(d, rest);
    var c := SkipWs(rest);
    ScanValue(d, c[1..]);
  }

  lemma {:induction false} ScanMembers(d: int, s: string)
    requires ReadMembers(s).Got?
    ensures ScanText(Scan(d, false, false), s) == ScanText(Scan(d - 1, false, false), ReadMembers(s).rest)
    decreases |s|, 1
  {
    ScanMember(d, s);
    ScanSkipWs(d, ReadMember(s).rest);
    var t := SkipWs(ReadMember(s).rest);
    if t[0] == ',' {
      ScanSkipWs(d, t[1..]);
      ScanMembers(d, SkipWs(t[1..]));
    }
  }

  lemma {:induction false} ScanItems(d: int, s: string)
    requires ReadItems(s).Got?
    ensures ScanText(Scan(d, false, false), s) == ScanText(Scan(d, false, false), ReadItems(s).rest)
    decreases |s|, 3
  {
    ScanValue(d, s);
    ScanSkipWs(d, ReadValue(s).rest);
    var t := SkipWs(ReadValue(s).rest);
    if t[0] == ',' {
      ScanSkipWs(d, t[1..]);
      ScanItems(d, SkipWs(t[1..]));
    }
  }

  /** If one more brace makes `s` a JSON object, the counter finds exactly that one missing. */
  lemma OneBraceMissing(s: string)
    requires ReadValue(s + "}").Got? && ReadValue(s + "}").rest == []
    ensures ScanText(START, s) == Scan(1, false, false)
  {
    ScanValue(0, s + "}");
    ScanConcat(START, s, "}");
    var st := ScanText(START, s);
    assert ScanText(st, "}") == ScanText(ScanChar(st, '}'), []);
    NeverEscapedOutside(START, s);
  }

  predicate Sane(st: Scan) {
    st.escaped ==> st.inString
  }

  lemma {:induction false} NeverEscapedOutside(st: Scan, s: string)
    requires Sane(st)
    ensures Sane(ScanText(st, s))
    decreases |s|
  {
    if s != [] {
      NeverEscapedOutside(ScanChar(st, s[0]), s[1..]);
    }
  }

  // ---------------------------------------------------------------- quote normaliser

  datatype Mode = Plain | InSingle | InDouble

  function Next(m: Mode, c: char): Mode {
    match m
    case Plain => if c == '"' then InDouble else if c == '\'' then InSingle else Plain
    case InSingle => if c == '\'' then Plain else InSingle
    case InDouble => if c == '"' then Plain else InDouble
  }

  function Emit(m: Mode, c: char): string {
    if c == '"' && m == InSingle then "\\\""
    else if c == '\'' && m != InDouble then "\""
    else [c]
  }

  /** What an escape sequence becomes inside a string: only an escaped single quote changes. */
  function EmitEscape(m: Mode, c: char): string {
    if m == InSingle && c == '\'' then "'" else ['\\', c]
  }

  /** `s` begins with an escape sequence that is taken as a whole. */
  predicate Escapes(m: Mode, s: string) {
    m != Plain && |s| >= 2 && s[0] == '\\'
  }

  function Taken(m: Mode, s: string): nat {
    if Escapes(m, s) then 2 else 1
  }

  function Piece(m: Mode, s: string): string
    requires s != []
  {
    if Escapes(m, s) then EmitEscape(m, s[1]) else Emit(m, s[0])
  }

  function NextMode(m: Mode, s: string): Mode
    requires s != []
  {
    if Escapes(m, s) then m else Next(m, s[0])
  }

  function Normalize(m: Mode, s: string): string
    decreases |s|
  {
    if s == [] then [] else Piece(m, s) + Normalize(NextMode(m, s), s[Taken(m, s)..])
  }

  lemma NormalizeHead(m: Mode, s: string)
    requires s != []
    ensures Normalize(m, s) == Piece(m, s) + Normalize(NextMode(m, s), s[Taken(m, s)..])
  {
  }

  function ModeOf(inSingle: bool, inDouble: bool): Mode {
    if inSingle then InSingle else if inDouble then InDouble else Plain
  }

  /** One round of the loop below: what is emitted, how many characters it takes, and the flags after it. */
  method NormalizeRound(input: string, i: nat, inSingle: bool, inDouble: bool)
    returns (emitted: string, taken: nat, inSingle': bool, inDouble': bool)
    requires i < |input| && !(inSingle && inDouble)
    ensures var m, rest := ModeOf(inSingle, inDouble), input[i..];
            emitted == Piece(m, rest) && taken == Taken(m, rest) && ModeOf(inSingle', inDouble') == NextMode(m, rest)
    ensures i + taken <= |input| && !(inSingle' && inDouble')
  {
    var c := input[i];
    inSingle', inDouble', taken, emitted := inSingle, inDouble, 1, [c];
    if c == '\\' && i + 1 < |input| {
      var next := input[i + 1];
      if inSingle {
        taken := 2;
        emitted := if next == '\'' then "'" else if next == '"' then "\\\"" else [c, next];
      } else if inDouble {
        taken := 2;
        emitted := [c, next];
      }
    } else if c == '"' {
      if inSingle {
        emitted := "\\\"";
      } else {
        inDouble' := !inDouble;
      }
    } else if c == '\'' && !inDouble {
      inSingle' := !inSingle;
      emitted := "\"";
    }
  }

  lemma NormalizeAdvance(result: string, m: Mode, input: string, i: nat)
    requires i < |input|
    ensures var rest := input[i..];
            && i + Taken(m, rest) <= |input|
            && result + Normalize(m, rest) ==
               (result + Piece(m, rest)) + Normalize(NextMode(m, rest), input[i + Taken(m, rest)..])
  {
    var rest := input[i..];
    var k := Taken(m, rest);
    assert rest[k..] == input[i + k..];
    assert Normalize(m, rest) == Piece(m, rest) + Normalize(NextMode(m, rest), rest[k..]);
  }

  method NormalizeNext(input: string, i: nat, result: string, inSingle: bool, inDouble: bool)
    returns (i': nat, result': string, inSingle': bool, inDouble': bool)
    requires i < |input| && !(inSingle && inDouble)
    ensures i < i' <= |input| && !(inSingle' && inDouble')
    ensures result' + Normalize(ModeOf(inSingle', inDouble'), input[i'..]) ==
            result + Normalize(ModeOf(inSingle, inDouble), input[i..])
  {
    var emitted, taken, single, double := NormalizeRound(input, i, inSingle, inDouble);
    NormalizeAdvance(result, ModeOf(inSingle, inDouble), input, i);
    i', result', inSingle', inDouble' := i + taken, result + emitted, single, double;
  }

  method NormalizeQuotesToJson(input: string) returns (result: string)
    ensures result == Normalize(Plain, input)
  {
    result := [];
    var inSingle, inDouble := false, false;
    var i := 0;
    assert input[0..] == input;
    while i < |input|
      invariant 0 <= i <= |input| && !(inSingle && inDouble)
      invariant result + Normalize(ModeOf(inSingle, inDouble), input[i..]) == Normalize(Plain, input)
    {
      i, result, inSingle, inDouble := NormalizeNext(input, i, result, inSingle, inDouble);
    }
    assert input[i..] == [];
  }

  // ---- the normaliser against the scanner

  /** Inside or outside a string, for text that has already been normalised. */
  function Seen(m: Mode): Mode {
    if m == Plain then Plain else InDouble
  }

  lemma NormalizePiece(m: Mode, s: string, tail: string)
    requires s != [] && (m != Plain && s == "\\" ==> tail == [])
    ensures Normalize(Seen(m), Piece(m, s) + tail) == Piece(m, s) + Normalize(Seen(NextMode(m, s)), tail)
  {
    var piece := Piece(m, s);
    var out := piece + tail;
    NormalizeHead(Seen(m), out);
    if |piece| == 2 {
      assert out[2..] == tail;
    } else {
      assert out[1..] == tail;
      if m != Plain && s[0] == '\\' && !Escapes(m, s) {
        assert s == "\\";
      }
    }
  }

  lemma {:induction false} NormalizeAgain(m: Mode, s: string)
    ensures Normalize(Seen(m), Normalize(m, s)) == Normalize(m, s)
    decreases |s|
  {
    if s != [] {
      var m', t := NextMode(m, s), s[Taken(m, s)..];
      NormalizeAgain(m', t);
      NormalizeHead(m, s);
      NormalizePiece(m, s, Normalize(m', t));
    }
  }

  /** Normalising twice is normalising once. */
  lemma NormalizeIdempotent(s: string)
    ensures Normalize(Plain, Normalize(Plain, s)) == Normalize(Plain, s)
  {
    NormalizeAgain(Plain, s);
  }

  /** Every single quote of `s` stands inside a double-quoted string. */
  ghost predicate SinglesQuoted(st: Scan, s: string) {
    forall i :: 0 <= i < |s| && s[i] == '\'' ==> ScanText(st, s[..i]).inString
  }

  lemma SinglesQuotedStep(st: Scan, s: string)
    requires s != []
    ensures SinglesQuoted(st, s) <==>
            (s[0] == '\'' ==> st.inString) && SinglesQuoted(ScanChar(st, s[0]), s[1..])
  {
    var st', t := ScanChar(st, s[0]), s[1..];
    forall i | 0 < i < |s|
      ensures ScanText(st, s[..i]) == ScanText(st', t[..i - 1]) && s[i] == t[i - 1]
    {
      assert s[..i][1..] == t[..i - 1];
    }
    if SinglesQuoted(st, s) {
      assert ScanText(st, s[..0]) == st;
      forall j | 0 <= j < |t| && t[j] == '\''
        ensures ScanText(st', t[..j]).inString
      {
        assert s[j + 1] == t[j];
        assert ScanText(st, s[..j + 1]) == ScanText(st', t[..j + 1 - 1]);
      }
    }
    if (s[0] == '\'' ==> st.inString) && SinglesQuoted(st', t) {
      forall i | 0 <= i < |s| && s[i] == '\''
        ensures ScanText(st, s[..i]).inString
      {
        if i > 0 {
          assert t[i - 1] == '\'';
        }
      }
    }
  }

  /** `s` is a fixed point exactly when its single quotes are quoted. */
  ghost predicate FixedExactly(d: int, m: Mode, s: string) {
    Normalize(m, s) == s <==> SinglesQuoted(Scan(d, m == InDouble, false), s)
  }

  lemma SameAfter(x: string, y: string, z: string)
    ensures x + y == x + z <==> y == z
  {
    assert (x + y)[|x|..] == y && (x + z)[|x|..] == z;
  }

  lemma FixedEscape(d: int, s: string)
    requires Escapes(InDouble, s) && FixedExactly(d, InDouble, s[2..])
    ensures FixedExactly(d, InDouble, s)
  {
    var st := Scan(d, true, false);
    SinglesQuotedStep(st, s);
    SinglesQuotedStep(ScanChar(st, s[0]), s[1..]);
    assert s[1..][1..] == s[2..];
    NormalizeHead(InDouble, s);
    SameAfter(s[..2], Normalize(InDouble, s[2..]), s[2..]);
    assert s == s[..2] + s[2..] && s[..2] == [s[0], s[1]];
  }

  lemma FixedChar(d: int, m: Mode, s: string)
    requires s != [] && m != InSingle && !Escapes(m, s) && !(s[0] == '\'' && m == Plain)
    requires s[0] == '\\' && m == InDouble ==> s[1..] == []
    requires FixedExactly(ScanChar(Scan(d, m == InDouble, false), s[0]).depth, Next(m, s[0]), s[1..])
    ensures FixedExactly(d, m, s)
  {
    var st := Scan(d, m == InDouble, false);
    SinglesQuotedStep(st, s);
    NormalizeHead(m, s);
    SameAfter([s[0]], Normalize(Next(m, s[0]), s[1..]), s[1..]);
    assert s == [s[0]] + s[1..];
  }

  lemma FixedQuote(d: int, s: string)
    requires s != [] && s[0] == '\''
    ensures FixedExactly(d, Plain, s)
  {
    SinglesQuotedStep(Scan(d, false, false), s);
    NormalizeHead(Plain, s);
    assert Normalize(Plain, s)[0] == '"';
  }

  lemma {:induction false} NormalizeFixed(d: int, m: Mode, s: string)
    requires m != InSingle
    ensures FixedExactly(d, m, s)
    decreases |s|
  {
    if s != [] {
      if Escapes(m, s) {
        NormalizeFixed(d, m, s[2..]);
        FixedEscape(d, s);
      } else if s[0] == '\'' && m == Plain {
        FixedQuote(d, s);
      } else {
        NormalizeFixed(ScanChar(Scan(d, m == InDouble, false), s[0]).depth, Next(m, s[0]), s[1..]);
        FixedChar(d, m, s);
      }
    }
  }

  /** The normaliser leaves a text alone exactly when its single quotes all stand inside double-quoted strings. */
  lemma NormalizeIdentity(s: string)
    ensures Normalize(Plain, s) == s <==> SinglesQuoted(START, s)
  {
    NormalizeFixed(0, Plain, s);
  }

  /** Braces left open by `s` outside strings of either quote kind; a backslash inside a
      string hides the character after it. */
  function OpenBraces(m: Mode, s: string): int
    decreases |s|
  {
    if s == [] then 0
    else if m != Plain && s[0] == '\\' then OpenBraces(m, s[if |s| >= 2 then 2 else 1..])
    else (if m != Plain then 0 else if s[0] == '{' then 1 else if s[0] == '}' then -1 else 0)
         + OpenBraces(Next(m, s[0]), s[1..])
  }

  lemma {:induction false} NormalizeDepth(d: int, m: Mode, s: string)
    ensures ScanText(Scan(d, m != Plain, false), Normalize(m, s)).depth == d + OpenBraces(m, s)
    decreases |s|
  {
    if s != [] {
      var out := Normalize(m, s);
      var st := Scan(d, m != Plain, false);
      if m != Plain && s[0] == '\\' && |s| >= 2 {
        NormalizeDepth(d, m, s[2..]);
        if m == InSingle && s[1] == '\'' {
          assert out[1..] == Normalize(m, s[2..]);
        } else {
          ScanEscape(d, out);
          assert out[2..] == Normalize(m, s[2..]);
        }
      } else {
        var st' := ScanChar(st, s[0]);
        NormalizeDepth(st'.depth, Next(m, s[0]), s[1..]);
        var tail := Normalize(Next(m, s[0]), s[1..]);
        if m == InSingle && s[0] == '"' {
          ScanEscape(d, out);
          assert out[2..] == tail;
        } else {
          assert out[1..] == tail;
          if m != Plain && s[0] == '\\' {
            assert s[1..] == [] && tail == [];
          }
        }
      }
    }
  }

  /** The brace counter sees in the normalised text what was open in the original. */
  lemma NormalizeKeepsBraces(s: string)
    ensures ScanText(START, Normalize(Plain, s)).depth == OpenBraces(Plain, s)
  {
    NormalizeDepth(0, Plain, s);
  }

  // ---- cuts

  /** Mode after `s`, and whether `s` ends in a backslash still waiting for its character. */
  function After(m: Mode, s: string): (Mode, bool)
    decreases |s|
  {
    if s == [] then (m, false)
    else if m != Plain && s[0] == '\\' then (if |s| == 1 then (m, true) else After(m, s[2..]))
    else After(Next(m, s[0]), s[1..])
  }

  lemma SameHead(m: Mode, a: string, b: string)
    requires a != [] && !(m != Plain && a == "\\")
    ensures var k := Taken(m, a);
            && k <= |a| && Taken(m, a + b) == k && Piece(m, a + b) == Piece(m, a)
            && NextMode(m, a + b) == NextMode(m, a) && (a + b)[k..] == a[k..] + b
  {
    var s := a + b;
    assert s[0] == a[0] && (|a| > 1 ==> s[1] == a[1]);
    assert s[1..] == a[1..] + b;
    if |a| > 1 {
      assert s[2..] == a[2..] + b;
    } else {
      assert a == [a[0]];
    }
  }

  lemma AfterHead(m: Mode, a: string)
    requires a != [] && !After(m, a).1
    ensures !(m != Plain && a == "\\") && Taken(m, a) <= |a|
    ensures After(m, a) == After(NextMode(m, a), a[Taken(m, a)..])
  {
  }

  lemma {:induction false} NormalizeSplit(m: Mode, a: string, b: string)
    requires !After(m, a).1
    ensures Normalize(m, a + b) == Normalize(m, a) + Normalize(After(m, a).0, b)
    decreases |a|
  {
    if a == [] {
      assert a + b == b;
    } else {
      AfterHead(m, a);
      SameHead(m, a, b);
      var piece, m', t := Piece(m, a), NextMode(m, a), a[Taken(m, a)..];
      NormalizeSplit(m', t, b);
      NormalizeHead(m, a + b);
      NormalizeHead(m, a);
      Glue(piece, Normalize(m', t), Normalize(After(m, a).0, b));
    }
  }

  lemma Glue(x: string, y: string, z: string)
    ensures x + (y + z) == (x + y) + z
  {
  }

  /** A text that ends in a waiting backslash is a complete text and that backslash. */
  lemma {:induction false} WaitingSplit(m: Mode, a: string)
    requires After(m, a).1
    ensures var a' := a[..|a| - 1];
            a != [] && a == a' + "\\" && After(m, a') == (After(m, a).0, false) && After(m, a).0 != Plain
    decreases |a|
  {
    if m != Plain && a[0] == '\\' {
      if |a| > 1 {
        WaitingSplit(m, a[2..]);
        assert a[..|a| - 1][2..] == a[2..][..|a| - 3];
      }
    } else {
      WaitingSplit(Next(m, a[0]), a[1..]);
      assert a[..|a| - 1][1..] == a[1..][..|a| - 2];
    }
  }

  lemma WaitingCut(a: string, b: string)
    requires After(Plain, a).1
    ensures |a| > 0
    ensures var n, m := Normalize(Plain, a[..|a| - 1]), After(Plain, a).0;
            && m != Plain
            && Normalize(Plain, a) == n + "\\"
            && (b != [] ==> Normalize(Plain, a + b) == n + (EmitEscape(m, b[0]) + Normalize(m, b[1..])))
  {
    WaitingSplit(Plain, a);
    var a', m := a[..|a| - 1], After(Plain, a).0;
    NormalizeSplit(Plain, a', "\\");
    assert Normalize(m, "\\") == "\\";
    if b != [] {
      var t := "\\" + b;
      assert a + b == a' + t;
      NormalizeSplit(Plain, a', t);
      assert t[1] == b[0] && t[2..] == b[1..];
    }
  }

  /** The text is cut between a backslash and the single quote it escapes, inside a single-quoted string. */
  predicate BadCut(s: string, k: nat)
    requires k <= |s|
  {
    k < |s| && s[k] == '\'' && After(Plain, s[..k]) == (InSingle, true)
  }

  /** Normalising a cut text gives a prefix of the whole result, at every cut but the bad ones. */
  lemma NormalizeMonotone(s: string, k: nat)
    requires k <= |s|
    ensures Normalize(Plain, s[..k]) <= Normalize(Plain, s) <==> !BadCut(s, k)
  {
    assert s == s[..k] + s[k..];
    CutMonotone(s[..k], s[k..]);
  }

  lemma CutMonotone(a: string, b: string)
    ensures Normalize(Plain, a) <= Normalize(Plain, a + b) <==>
            !(b != [] && b[0] == '\'' && After(Plain, a) == (InSingle, true))
  {
    if b == [] {
      assert a + b == a;
    } else if !After(Plain, a).1 {
      NormalizeSplit(Plain, a, b);
    } else {
      WaitingCut(a, b);
      var m := After(Plain, a).0;
      CutDiffers(Normalize(Plain, a[..|a| - 1]), EmitEscape(m, b[0]), Normalize(m, b[1..]));
    }
  }

  lemma CutDiffers(n: string, e: string, tail: string)
    requires e != []
    ensures n + "\\" <= n + (e + tail) <==> e[0] == '\\'
  {
    var x, y := n + "\\", n + (e + tail);
    assert y[..|n|] == n && y[|n|] == e[0];
    if e[0] == '\\' {
      assert x == y[..|n| + 1];
    } else {
      assert x[|n|] == '\\';
    }
  }

  /** More text never normalises to less. */
  lemma NormalizeLonger(s: string, k: nat)
    requires k <= |s|
    ensures |Normalize(Plain, s[..k])| <= |Normalize(Plain, s)|
  {
    var a, b := s[..k], s[k..];
    assert s == a + b;
    if !After(Plain, a).1 {
      NormalizeSplit(Plain, a, b);
    } else {
      WaitingCut(a, b);
      if b == [] {
        assert a == s;
      }
    }
  }
}
