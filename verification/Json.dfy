/** JSON texts (RFC 8259): the string escaper used when arguments are assembled, and an
    independent reader that says what an assembled text denotes. */
module Json {
  import opened Text

  /** A JSON value; objects keep the order (and repetitions) of their members, numbers their spelling. */
  datatype Value =
    | Null
    | Bool(b: bool)
    | Number(lexeme: string)
    | String(s: string)
    | Array(items: seq<Value>)
    | Object(members: seq<(string, Value)>)

  // ---------------------------------------------------------------- writing strings

  function HexChar(n: nat): char
    requires n < 16
  {
    "0123456789abcdef"[n]
  }

  /** Section 7 of RFC 8259 as the JSON library writes it: short escapes where they exist,
      a four-digit escape for the other control characters, everything else verbatim. */
  function EscapeChar(c: char): (r: string)
    ensures |r| >= 1
  {
    if c == '"' then "\\\""
    else if c == '\\' then "\\\\"
    else if c as int == 0x08 then "\\b"
    else if c == '\t' then "\\t"
    else if c == '\n' then "\\n"
    else if c as int == 0x0C then "\\f"
    else if c == '\r' then "\\r"
    else if c as int < 0x20 then "\\u00" + [HexChar(c as int / 16), HexChar(c as int % 16)]
    else [c]
  }

  /** The inside of the JSON string literal for `s`, without its quotes. */
  function Escape(s: string): string {
    FlatMap(EscapeChar, s)
  }

  function Quote(s: string): string {
    "\"" + Escape(s) + "\""
  }

  lemma EscapeMonotone(s: string, t: string)
    requires s <= t
    ensures Escape(s) <= Escape(t)
  {
    FlatMapConcat(EscapeChar, s, t[|s|..]);
    assert t == s + t[|s|..];
  }

  // ---------------------------------------------------------------- reading

  /** The outcome of reading a value off the front of a text. */
  datatype Read<+T> = Fail | Got(value: T, rest: string)

  predicate IsWs(c: char) {
    c == ' ' || c == '\t' || c == '\n' || c == '\r'
  }

  predicate IsDigit(c: char) {
    '0' <= c <= '9'
  }

  predicate IsHex(c: char) {
    IsDigit(c) || 'a' <= c <= 'f' || 'A' <= c <= 'F'
  }

  function HexVal(c: char): (n: nat)
    requires IsHex(c)
    ensures n < 16
  {
    if IsDigit(c) then c as int - '0' as int
    else if 'a' <= c <= 'f' then c as int - 'a' as int + 10
    else c as int - 'A' as int + 10
  }

  /** Four hexadecimal digits at position `i` of `s`. */
  predicate HasHex4(s: string, i: nat) {
    i + 4 <= |s| && IsHex(s[i]) && IsHex(s[i + 1]) && IsHex(s[i + 2]) && IsHex(s[i + 3])
  }

  function Hex4(s: string, i: nat): (n: nat)
    requires HasHex4(s, i)
    ensures n < 0x10000
  {
    ((HexVal(s[i]) * 16 + HexVal(s[i + 1])) * 16 + HexVal(s[i + 2])) * 16 + HexVal(s[i + 3])
  }

  /** A `\u` escape at the front of `s`, or the surrogate pair of two of them. */
  function ReadUnicode(s: string): (r: Read<char>)
    requires |s| >= 2
    ensures r.Got? ==> |r.rest| < |s|
  {
    if !HasHex4(s, 2) then Fail
    else
      var hi := Hex4(s, 2);
      if hi < 0xD800 || 0xE000 <= hi then Got(hi as char, s[6..])
      else if hi < 0xDC00 && |s| >= 8 && s[6] == '\\' && s[7] == 'u' && HasHex4(s, 8)
              && 0xDC00 <= Hex4(s, 8) < 0xE000 then
        Got((0x10000 + (hi - 0xD800) * 0x400 + (Hex4(s, 8) - 0xDC00)) as char, s[12..])
      else Fail
  }

  /** One character of a string literal, escaped or not. */
  function ReadUnit(s: string): (r: Read<char>)
    requires s != []
    ensures r.Got? ==> |r.rest| < |s|
  {
    if s[0] != '\\' then (if s[0] < ' ' || s[0] == '"' then Fail else Got(s[0], s[1..]))
    else if |s| < 2 then Fail
    else if s[1] == '"' || s[1] == '\\' || s[1] == '/' then Got(s[1], s[2..])
    else if s[1] == 'b' then Got(0x08 as char, s[2..])
    else if s[1] == 'f' then Got(0x0C as char, s[2..])
    else if s[1] == 'n' then Got('\n', s[2..])
    else if s[1] == 'r' then Got('\r', s[2..])
    else if s[1] == 't' then Got('\t', s[2..])
    else if s[1] == 'u' then ReadUnicode(s)
    else Fail
  }

  /** The rest of a string literal whose opening quote has been read. */
  function ReadChars(s: string): (r: Read<string>)
    ensures r.Got? ==> |r.rest| < |s|
    decreases |s|
  {
    if s == [] then Fail
    else if s[0] == '"' then Got([], s[1..])
    else
      match ReadUnit(s)
      case Fail => Fail
      case Got(c, rest) =>
        match ReadChars(rest)
        case Fail => Fail
        case Got(cs, rest') => Got([c] + cs, rest')
  }

  function SkipWs(s: string): (r: string)
    ensures |r| <= |s|
    ensures r != [] ==> !IsWs(r[0])
  {
    if s != [] && IsWs(s[0]) then SkipWs(s[1..]) else s
  }

  predicate IsNumChar(c: char) {
    IsDigit(c) || c == '-' || c == '+' || c == '.' || c == 'e' || c == 'E'
  }

  /** Length of the longest number-like front of `s`. */
  function NumSpan(s: string): (n: nat)
    ensures n <= |s|
    ensures n < |s| ==> !IsNumChar(s[n])
  {
    if s != [] && IsNumChar(s[0]) then 1 + NumSpan(s[1..]) else 0
  }

  function DropDigits(s: string): string {
    if s != [] && IsDigit(s[0]) then DropDigits(s[1..]) else s
  }

  predicate IsExponent(s: string) {
    s == [] ||
    ((s[0] == 'e' || s[0] == 'E') &&
     var d := if |s| > 1 && (s[1] == '+' || s[1] == '-') then s[2..] else s[1..];
     d != [] && DropDigits(d) == [])
  }

  predicate IsFraction(s: string) {
    if s != [] && s[0] == '.' then |s| > 1 && IsDigit(s[1]) && IsExponent(DropDigits(s[1..]))
    else IsExponent(s)
  }

  /** Section 6 of RFC 8259. */
  predicate IsNumber(s: string) {
    var a := if s != [] && s[0] == '-' then s[1..] else s;
    a != [] && IsDigit(a[0]) && IsFraction(if a[0] == '0' then a[1..] else DropDigits(a))
  }

  /** A value off the front of `text`; leading whitespace is skipped, what follows is left alone. */
  function ReadValue(text: string): (r: Read<Value>)
    ensures r.Got? ==> |r.rest| < |text|
    decreases |text|, 2
  {
    var s := SkipWs(text);
    if s == [] then Fail
    else if s[0] == '"' then
      match ReadChars(s[1..])
      case Fail => Fail
      case Got(cs, rest) => Got(String(cs), rest)
    else if s[0] == '{' then ReadObject(SkipWs(s[1..]))
    else if s[0] == '[' then ReadArray(SkipWs(s[1..]))
    else ReadScalar(s)
  }

  function ReadScalar(s: string): (r: Read<Value>)
    ensures r.Got? ==> |r.rest| < |s|
  {
    if "true" <= s then Got(Bool(true), s[4..])
    else if "false" <= s then Got(Bool(false), s[5..])
    else if "null" <= s then Got(Null, s[4..])
    else
      var n := NumSpan(s);
      if IsNumber(s[..n]) then Got(Number(s[..n]), s[n..]) else Fail
  }

  function ReadObject(s: string): (r: Read<Value>)
    ensures r.Got? ==> |r.rest| < |s|
    decreases |s|, 2
  {
    if s != [] && s[0] == '}' then Got(Object([]), s[1..])
    else
      match ReadMembers(s)
      case Fail => Fail
      case Got(ms, rest) => Got(Object(ms), rest)
  }

  function ReadArray(s: string): (r: Read<Value>)
    ensures r.Got? ==> |r.rest| < |s|
    decreases |s|, 4
  {
    if s != [] && s[0] == ']' then Got(Array([]), s[1..])
    else
      match ReadItems(s)
      case Fail => Fail
      case Got(vs, rest) => Got(Array(vs), rest)
  }

  /** Key, colon and value; the member separator is left alone. */
  function ReadMember(s: string): (r: Read<(string, Value)>)
    ensures r.Got? ==> |r.rest| < |s|
    decreases |s|, 0
  {
    if s == [] || s[0] != '"' then Fail
    else
      match ReadChars(s[1..])
      case Fail => Fail
      case Got(key, rest) =>
        match ReadColonValue(rest)
        case Fail => Fail
        case Got(v, rest') => Got((key, v), rest')
  }

  function ReadColonValue(s: string): (r: Read<Value>)
    ensures r.Got? ==> |r.rest| < |s|
    decreases |s|, 0
  {
    var c := SkipWs(s);
    if c == [] || c[0] != ':' then Fail else ReadValue(c[1..])
  }

  /** One or more members and the closing brace. */
  function ReadMembers(s: string): (r: Read<seq<(string, Value)>>)
    ensures r.Got? ==> |r.rest| < |s|
    decreases |s|, 1
  {
    match ReadMember(s)
    case Fail => Fail
    case Got(m, rest) =>
      var d := SkipWs(rest);
      if d == [] then Fail
      else if d[0] == '}' then Got([m], d[1..])
      else if d[0] != ',' then Fail
      else
        match ReadMembers(SkipWs(d[1..]))
        case Fail => Fail
        case Got(ms, rest') => Got([m] + ms, rest')
  }

  /** One or more items and the closing bracket. */
  function ReadItems(s: string): (r: Read<seq<Value>>)
    ensures r.Got? ==> |r.rest| < |s|
    decreases |s|, 3
  {
    match ReadValue(s)
    case Fail => Fail
    case Got(v, rest) =>
      var d := SkipWs(rest);
      if d == [] then Fail
      else if d[0] == ']' then Got([v], d[1..])
      else if d[0] != ',' then Fail
      else
        match ReadItems(SkipWs(d[1..]))
        case Fail => Fail
        case Got(vs, rest') => Got([v] + vs, rest')
  }

  predicate IsJsonText(text: string) {
    var r := ReadValue(text);
    r.Got? && SkipWs(r.rest) == []
  }

  // ---------------------------------------------------------------- reading is local

  lemma {:induction false} SkipWsExtend(s: string, t: string)
    ensures SkipWs(s) != [] ==> SkipWs(s + t) == SkipWs(s) + t
    ensures SkipWs(s) == [] ==> SkipWs(s + t) == SkipWs(t)
    decreases |s|
  {
    if s == [] {
      assert s + t == t;
    } else if IsWs(s[0]) {
      SkipWsExtend(s[1..], t);
      assert (s + t)[1..] == s[1..] + t;
    }
  }

  lemma HexExtend(s: string, t: string, i: nat)
    requires HasHex4(s, i)
    ensures HasHex4(s + t, i) && Hex4(s + t, i) == Hex4(s, i)
  {
  }

  lemma UnicodeExtend(s: string, t: string)
    requires |s| >= 2 && ReadUnicode(s).Got?
    ensures ReadUnicode(s + t) == Got(ReadUnicode(s).value, ReadUnicode(s).rest + t)
  {
    HexExtend(s, t, 2);
    if Hex4(s, 2) < 0xD800 || 0xE000 <= Hex4(s, 2) {
      TailExtend(s, t, 6);
    } else {
      assert (s + t)[6] == s[6] && (s + t)[7] == s[7];
      HexExtend(s, t, 8);
      TailExtend(s, t, 12);
    }
  }

  lemma TailExtend(s: string, t: string, n: nat)
    requires n <= |s|
    ensures (s + t)[n..] == s[n..] + t
  {
  }

  lemma UnitExtend(s: string, t: string)
    requires s != [] && ReadUnit(s).Got?
    ensures ReadUnit(s + t) == Got(ReadUnit(s).value, ReadUnit(s).rest + t)
  {
    var e := s + t;
    assert e[0] == s[0];
    if s[0] != '\\' {
      assert e[1..] == s[1..] + t;
    } else if s[1] == 'u' {
      assert e[1] == s[1];
      UnicodeExtend(s, t);
    } else {
      assert e[1] == s[1] && e[2..] == s[2..] + t;
    }
  }

  lemma {:induction false} CharsExtend(s: string, t: string)
    requires ReadChars(s).Got?
    ensures ReadChars(s + t) == Got(ReadChars(s).value, ReadChars(s).rest + t)
    decreases |s|
  {
    assert (s + t)[0] == s[0];
    if s[0] == '"' {
      assert (s + t)[1..] == s[1..] + t;
    } else {
      UnitExtend(s, t);
      CharsExtend(ReadUnit(s).rest, t);
    }
  }

  lemma {:induction false} NumSpanExtend(s: string, t: string)
    requires NumSpan(s) < |s| || t == [] || !IsNumChar(t[0])
    ensures NumSpan(s + t) == NumSpan(s)
    decreases |s|
  {
    if s == [] {
      assert s + t == t;
    } else if IsNumChar(s[0]) {
      NumSpanExtend(s[1..], t);
      assert (s + t)[1..] == s[1..] + t;
    }
  }

  /** Nothing in `t` can be taken for the end of a number that `s` began. */
  predicate Delimits(rest: string, t: string) {
    rest != [] || t == [] || !IsNumChar(t[0])
  }

  lemma ScalarExtend(s: string, t: string)
    requires ReadScalar(s).Got? && Delimits(ReadScalar(s).rest, t)
    ensures ReadScalar(s + t) == Got(ReadScalar(s).value, ReadScalar(s).rest + t)
  {
    if "true" <= s || "false" <= s || "null" <= s {
      LiteralExtend(s, t);
    } else {
      NumberExtend(s, t, NumSpan(s));
    }
  }

  lemma PrefixExtend(p: string, s: string, t: string)
    requires p <= s
    ensures p <= s + t && (s + t)[|p|..] == s[|p|..] + t
  {
    assert (s + t)[..|p|] == s[..|p|];
  }

  lemma LiteralExtend(s: string, t: string)
    requires "true" <= s || "false" <= s || "null" <= s
    ensures ReadScalar(s + t) == Got(ReadScalar(s).value, ReadScalar(s).rest + t)
  {
    if "true" <= s {
      PrefixExtend("true", s, t);
    } else if "false" <= s {
      PrefixExtend("false", s, t);
      assert (s + t)[0] == 'f';
    } else {
      PrefixExtend("null", s, t);
      assert (s + t)[0] == 'n';
    }
  }

  lemma NumberExtend(s: string, t: string, n: nat)
    requires n == NumSpan(s) && IsNumber(s[..n]) && Delimits(s[n..], t)
    ensures ReadScalar(s + t) == Got(Number(s[..n]), s[n..] + t)
  {
    NumberSpan(s, n);
    NumSpanExtend(s, t);
    SplitExtend(s, t, n);
    NumberAt(s + t, n, s[..n]);
  }

  lemma SplitExtend(s: string, t: string, n: nat)
    requires 0 < n <= |s|
    ensures (s + t)[..n] == s[..n] && (s + t)[n..] == s[n..] + t && (s + t)[0] == s[0]
  {
  }

  lemma NumberSpan(s: string, n: nat)
    requires n == NumSpan(s) && IsNumber(s[..n])
    ensures n > 0 && IsNumChar(s[0])
  {
  }

  /** No literal name begins like a number. */
  lemma NumberAt(s: string, n: nat, lexeme: string)
    requires 0 < n == NumSpan(s) && IsNumChar(s[0]) && s[..n] == lexeme && IsNumber(lexeme)
    ensures ReadScalar(s) == Got(Number(lexeme), s[n..])
  {
  }

  /** A value is read the same whatever text follows it, unless that text would prolong a number. */
  lemma {:induction false} ValueExtend(text: string, t: string)
    requires ReadValue(text).Got? && Delimits(ReadValue(text).rest, t)
    ensures ReadValue(text + t) == Got(ReadValue(text).value, ReadValue(text).rest + t)
    decreases |text|, 2
  {
    SkipWsExtend(text, t);
    var s := SkipWs(text);
    assert (s + t)[0] == s[0] && (s + t)[1..] == s[1..] + t;
    if s[0] == '"' {
      CharsExtend(s[1..], t);
    } else if s[0] == '{' || s[0] == '[' {
      SkipWsExtend(s[1..], t);
      var u := SkipWs(s[1..]);
      assert u != [];
      assert (u + t)[0] == u[0] && (u + t)[1..] == u[1..] + t;
      if s[0] == '{' && u[0] != '}' {
        MembersExtend(u, t);
      } else if s[0] == '[' && u[0] != ']' {
        ItemsExtend(u, t);
      }
    } else {
      ScalarExtend(s, t);
    }
  }

  lemma {:induction false} ColonValueExtend(s: string, t: string)
    requires ReadColonValue(s).Got? && Delimits(ReadColonValue(s).rest, t)
    ensures ReadColonValue(s + t) == Got(ReadColonValue(s).value, ReadColonValue(s).rest + t)
    decreases |s|, 0
  {
    SkipWsExtend(s, t);
    var c := SkipWs(s);
    assert (c + t)[0] == c[0] && (c + t)[1..] == c[1..] + t;
    ValueExtend(c[1..], t);
  }

  lemma {:induction false} MemberExtend(s: string, t: string)
    requires ReadMember(s).Got? && Delimits(ReadMember(s).rest, t)
    ensures ReadMember(s + t) == Got(ReadMember(s).value, ReadMember(s).rest + t)
    decreases |s|, 0
  {
    assert (s + t)[0] == s[0] && (s + t)[1..] == s[1..] + t;
    CharsExtend(s[1..], t);
    ColonValueExtend(ReadChars(s[1..]).rest, t);
  }

  lemma {:induction false} MembersExtend(s: string, t: string)
    requires ReadMembers(s).Got?
    ensures ReadMembers(s + t) == Got(ReadMembers(s).value, ReadMembers(s).rest + t)
    decreases |s|, 1
  {
    MemberExtend(s, t);
    var rest := ReadMember(s).rest;
    SkipWsExtend(rest, t);
    var d := SkipWs(rest);
    assert (d + t)[0] == d[0] && (d + t)[1..] == d[1..] + t;
    if d[0] == ',' {
      SkipWsExtend(d[1..], t);
      MembersExtend(SkipWs(d[1..]), t);
    }
  }

  lemma {:induction false} ItemsExtend(s: string, t: string)
    requires ReadItems(s).Got?
    ensures ReadItems(s + t) == Got(ReadItems(s).value, ReadItems(s).rest + t)
    decreases |s|, 3
  {
    ValueExtend(s, t);
    var rest := ReadValue(s).rest;
    SkipWsExtend(rest, t);
    var d := SkipWs(rest);
    assert (d + t)[0] == d[0] && (d + t)[1..] == d[1..] + t;
    if d[0] == ',' {
      SkipWsExtend(d[1..], t);
      ItemsExtend(SkipWs(d[1..]), t);
    }
  }

  // ---- and looks no further than it reads

  lemma UnicodeShrink(s: string, t: string)
    requires |s + t| >= 2 && ReadUnicode(s + t).Got? && |ReadUnicode(s + t).rest| >= |t|
    ensures |s| >= 2 && ReadUnicode(s).Got?
  {
    var e := s + t;
    assert |s| >= 6 && HasHex4(s, 2) && Hex4(s, 2) == Hex4(e, 2);
    if 0xD800 <= Hex4(e, 2) < 0xE000 {
      assert |s| >= 12 && s[6] == e[6] && s[7] == e[7] && HasHex4(s, 8) && Hex4(s, 8) == Hex4(e, 8);
    }
  }

  lemma UnitShrink(s: string, t: string)
    requires s + t != [] && ReadUnit(s + t).Got? && |ReadUnit(s + t).rest| >= |t|
    ensures s != [] && ReadUnit(s).Got?
  {
    var e := s + t;
    assert s != [] && e[0] == s[0];
    if e[0] == '\\' {
      assert |s| >= 2 && e[1] == s[1];
      if e[1] == 'u' {
        UnicodeShrink(s, t);
      }
    }
  }

  lemma {:induction false} CharsShrink(s: string, t: string)
    requires ReadChars(s + t).Got? && |ReadChars(s + t).rest| >= |t|
    ensures ReadChars(s).Got?
    decreases |s|
  {
    assert s != [] && (s + t)[0] == s[0];
    if s[0] != '"' {
      UnitShrink(s, t);
      UnitExtend(s, t);
      CharsShrink(ReadUnit(s).rest, t);
    }
  }

  lemma {:induction false} NumSpanShrink(s: string, t: string)
    requires NumSpan(s + t) <= |s|
    ensures NumSpan(s) == NumSpan(s + t) && Delimits(s[NumSpan(s)..], t)
    decreases |s|
  {
    if s == [] {
      assert s + t == t;
    } else if IsNumChar(s[0]) {
      assert (s + t)[1..] == s[1..] + t;
      NumSpanShrink(s[1..], t);
      assert s[1..][NumSpan(s[1..])..] == s[NumSpan(s)..];
    }
  }

  lemma LiteralShrink(p: string, s: string, t: string)
    requires p <= s + t && |p| <= |s|
    ensures p <= s
  {
    assert (s + t)[..|p|] == s[..|p|];
  }

  lemma NumberShrink(s: string, t: string, n: nat)
    requires n == NumSpan(s + t) <= |s| && IsNumber((s + t)[..n])
    ensures ReadScalar(s) == Got(Number(s[..n]), s[n..]) && Delimits(s[n..], t)
  {
    NumSpanShrink(s, t);
    assert (s + t)[..n] == s[..n];
    NumberSpan(s, n);
    NumberAt(s, n, s[..n]);
  }

  lemma ScalarShrink(s: string, t: string)
    requires ReadScalar(s + t).Got? && |ReadScalar(s + t).rest| >= |t|
    ensures ReadScalar(s).Got? && ReadScalar(s + t) == Got(ReadScalar(s).value, ReadScalar(s).rest + t)
  {
    if "true" <= s + t {
      LiteralShrink("true", s, t);
      LiteralExtend(s, t);
    } else if "false" <= s + t {
      LiteralShrink("false", s, t);
      LiteralExtend(s, t);
    } else if "null" <= s + t {
      LiteralShrink("null", s, t);
      LiteralExtend(s, t);
    } else {
      NumberShrink(s, t, NumSpan(s + t));
      ScalarExtend(s, t);
    }
  }

  /** Something other than whitespace comes before `t`, if reading `s + t` stops before it does. */
  lemma SkipWsShrink(s: string, t: string, rest: string)
    requires |rest| < |SkipWs(s + t)| && |rest| >= |t|
    ensures SkipWs(s) != [] && SkipWs(s + t) == SkipWs(s) + t
    ensures var u := SkipWs(s); (u + t)[0] == u[0] && (u + t)[1..] == u[1..] + t
  {
    SkipWsExtend(s, t);
  }

  /** A value that ends before `t` is read the same without it. */
  lemma {:induction false} ValueShrink(text: string, t: string)
    requires ReadValue(text + t).Got? && |ReadValue(text + t).rest| >= |t|
    ensures ReadValue(text).Got? && ReadValue(text + t) == Got(ReadValue(text).value, ReadValue(text).rest + t)
    decreases |text|, 2
  {
    var rest := ReadValue(text + t).rest;
    SkipWsShrink(text, t, rest);
    var s := SkipWs(text);
    if s[0] == '"' {
      CharsShrink(s[1..], t);
      CharsExtend(s[1..], t);
    } else if s[0] == '{' || s[0] == '[' {
      SkipWsShrink(s[1..], t, rest);
      var u := SkipWs(s[1..]);
      if s[0] == '{' && u[0] != '}' {
        MembersShrink(u, t);
      } else if s[0] == '[' && u[0] != ']' {
        ItemsShrink(u, t);
      }
    } else {
      ScalarShrink(s, t);
    }
  }

  lemma {:induction false} ColonValueShrink(s: string, t: string)
    requires ReadColonValue(s + t).Got? && |ReadColonValue(s + t).rest| >= |t|
    ensures ReadColonValue(s).Got?
            && ReadColonValue(s + t) == Got(ReadColonValue(s).value, ReadColonValue(s).rest + t)
    decreases |s|, 0
  {
    SkipWsShrink(s, t, ReadColonValue(s + t).rest);
    ValueShrink(SkipWs(s)[1..], t);
  }

  lemma {:induction false} MemberShrink(s: string, t: string)
    requires ReadMember(s + t).Got? && |ReadMember(s + t).rest| >= |t|
    ensures ReadMember(s).Got? && ReadMember(s + t) == Got(ReadMember(s).value, ReadMember(s).rest + t)
    decreases |s|, 0
  {
    assert s != [] && (s + t)[0] == s[0] && (s + t)[1..] == s[1..] + t;
    CharsShrink(s[1..], t);
    CharsExtend(s[1..], t);
    ColonValueShrink(ReadChars(s[1..]).rest, t);
  }

  lemma {:induction false} MembersShrink(s: string, t: string)
    requires ReadMembers(s + t).Got? && |ReadMembers(s + t).rest| >= |t|
    ensures ReadMembers(s).Got? && ReadMembers(s + t) == Got(ReadMembers(s).value, ReadMembers(s).rest + t)
    decreases |s|, 1
  {
    MemberShrink(s, t);
    var rest := ReadMember(s).rest;
    SkipWsShrink(rest, t, ReadMembers(s + t).rest);
    var d := SkipWs(rest);
    if d[0] == ',' {
      SkipWsShrink(d[1..], t, ReadMembers(s + t).rest);
      MembersShrink(SkipWs(d[1..]), t);
    }
  }

  lemma {:induction false} ItemsShrink(s: string, t: string)
    requires ReadItems(s + t).Got? && |ReadItems(s + t).rest| >= |t|
    ensures ReadItems(s).Got? && ReadItems(s + t) == Got(ReadItems(s).value, ReadItems(s).rest + t)
    decreases |s|, 3
  {
    ValueShrink(s, t);
    var rest := ReadValue(s).rest;
    SkipWsShrink(rest, t, ReadItems(s + t).rest);
    var d := SkipWs(rest);
    if d[0] == ',' {
      SkipWsShrink(d[1..], t, ReadItems(s + t).rest);
      ItemsShrink(SkipWs(d[1..]), t);
    }
  }

  // ---------------------------------------------------------------- escaped strings read back

  lemma UnitOfEscape(c: char, t: string)
    ensures ReadUnit(EscapeChar(c) + t) == Got(c, t)
  {
    var e := EscapeChar(c);
    var s := e + t;
    if 0x20 <= c as int && c != '"' && c != '\\' {
      assert s[1..] == t;
    } else if |e| == 2 {
      assert s[2..] == t;
    } else {
      HexCharVal(c as int / 16);
      HexCharVal(c as int % 16);
      assert s[2] == '0' && s[3] == '0' && s[4] == e[4] && s[5] == e[5];
      assert HasHex4(s, 2) && Hex4(s, 2) == c as int;
      assert s[6..] == t;
    }
  }

  lemma HexCharVal(n: nat)
    requires n < 16
    ensures IsHex(HexChar(n)) && HexVal(HexChar(n)) == n
  {
  }

  /** What the escaper wrote between quotes is read back exactly, whatever follows. */
  lemma {:induction false} CharsOfEscape(s: string, t: string)
    ensures ReadChars(Escape(s) + "\"" + t) == Got(s, t)
    decreases |s|
  {
    var e := Escape(s) + "\"" + t;
    if s == [] {
      assert e == ['"'] + t;
    } else {
      var tail := Escape(s[1..]) + "\"" + t;
      assert e == EscapeChar(s[0]) + tail;
      UnitOfEscape(s[0], tail);
      CharsOfEscape(s[1..], t);
      assert EscapeChar(s[0])[0] != '"';
      assert s == [s[0]] + s[1..];
    }
  }

  // ---------------------------------------------------------------- reading composed texts

  lemma StringOf(s: string, t: string)
    ensures ReadValue(Quote(s) + t) == Got(String(s), t)
  {
    var text := Quote(s) + t;
    assert text[0] == '"' && text[1..] == Escape(s) + "\"" + t;
    assert SkipWs(text) == text;
    CharsOfEscape(s, t);
  }

  lemma MemberOf(key: string, after: string)
    requires ReadValue(after).Got?
    ensures ReadMember(Quote(key) + (":" + after)) ==
            Got((key, ReadValue(after).value), ReadValue(after).rest)
  {
    var colon := ":" + after;
    var text := Quote(key) + colon;
    assert text[0] == '"' && text[1..] == Escape(key) + "\"" + colon;
    CharsOfEscape(key, colon);
    assert SkipWs(colon) == colon && colon[1..] == after;
    assert ReadColonValue(colon) == ReadValue(after);
  }

  lemma MembersEnd(s: string, t: string)
    requires ReadMember(s).Got? && SkipWs(ReadMember(s).rest) == "}" + t
    ensures ReadMembers(s) == Got([ReadMember(s).value], t)
  {
    assert ("}" + t)[1..] == t;
  }

  lemma MembersMore(s: string, t: string)
    requires ReadMember(s).Got? && SkipWs(ReadMember(s).rest) == "," + t
    requires t != "" && !IsWs(t[0]) && ReadMembers(t).Got?
    ensures ReadMembers(s) == Got([ReadMember(s).value] + ReadMembers(t).value, ReadMembers(t).rest)
  {
    assert ("," + t)[1..] == t && SkipWs(t) == t;
  }

  lemma ItemsEnd(s: string, t: string)
    requires ReadValue(s).Got? && SkipWs(ReadValue(s).rest) == "]" + t
    ensures ReadItems(s) == Got([ReadValue(s).value], t)
  {
    assert ("]" + t)[1..] == t;
  }

  lemma ItemsMore(s: string, t: string)
    requires ReadValue(s).Got? && SkipWs(ReadValue(s).rest) == "," + t
    requires t != "" && !IsWs(t[0]) && ReadItems(t).Got?
    ensures ReadItems(s) == Got([ReadValue(s).value] + ReadItems(t).value, ReadItems(t).rest)
  {
    assert ("," + t)[1..] == t && SkipWs(t) == t;
  }

  lemma ObjectOf(s: string)
    requires s != "" && !IsWs(s[0]) && s[0] != '}' && ReadMembers(s).Got?
    ensures ReadValue("{" + s) == Got(Object(ReadMembers(s).value), ReadMembers(s).rest)
  {
    var text := "{" + s;
    assert text[1..] == s && SkipWs(s) == s && SkipWs(text) == text;
  }

  lemma EmptyObjectOf(t: string)
    ensures ReadValue("{}" + t) == Got(Object([]), t)
  {
    var text := "{}" + t;
    assert SkipWs(text) == text && text[1..] == "}" + t && SkipWs("}" + t) == "}" + t && ("}" + t)[1..] == t;
  }

  lemma ArrayOf(s: string)
    requires s != "" && !IsWs(s[0]) && s[0] != ']' && ReadItems(s).Got?
    ensures ReadValue("[" + s) == Got(Array(ReadItems(s).value), ReadItems(s).rest)
  {
    var text := "[" + s;
    assert text[1..] == s && SkipWs(s) == s && SkipWs(text) == text;
  }

  lemma EmptyArrayOf(t: string)
    ensures ReadValue("[]" + t) == Got(Array([]), t)
  {
    var text := "[]" + t;
    assert SkipWs(text) == text && text[1..] == "]" + t && SkipWs("]" + t) == "]" + t && ("]" + t)[1..] == t;
  }

  // ---- comma-separated parts

  function Joined(parts: seq<string>): string {
    if parts == [] then ""
    else if |parts| == 1 then parts[0]
    else parts[0] + "," + Joined(parts[1..])
  }

  lemma {:induction false} JoinedSnoc(parts: seq<string>, part: string)
    ensures Joined(parts + [part]) == if parts == [] then part else Joined(parts) + "," + part
    decreases |parts|
  {
    if parts == [] {
      assert parts + [part] == [part];
    } else {
      var t := parts + [part];
      assert t[0] == parts[0] && t[1..] == parts[1..] + [part];
      JoinedSnoc(parts[1..], part);
      if |parts| == 1 {
        assert parts[1..] == [];
      }
    }
  }

  predicate EndsPart(t: string) {
    t != "" && (t[0] == ',' || t[0] == '}' || t[0] == ']')
  }

  /** Before a separator or a closing bracket, `part` reads as the value `v`. */
  ghost predicate ValueReads(part: string, v: Value) {
    && part != "" && !IsWs(part[0]) && part[0] != ']'
    && forall t {:trigger EndsPart(t)} :: EndsPart(t) ==>
         var r := ReadValue(part + t); r.Got? && r.value == v && SkipWs(r.rest) == t
  }

  ghost predicate MemberReads(part: string, m: (string, Value)) {
    && part != "" && part[0] == '"'
    && forall t {:trigger EndsPart(t)} :: EndsPart(t) ==>
         var r := ReadMember(part + t); r.Got? && r.value == m && SkipWs(r.rest) == t
  }

  lemma MemberAt(key: string, part: string, t: string)
    requires ReadValue(part + t).Got?
    ensures ReadMember((Quote(key) + ":" + part) + t) ==
            Got((key, ReadValue(part + t).value), ReadValue(part + t).rest)
  {
    MemberOf(key, part + t);
    Attach(Quote(key), part, t);
  }

  lemma Attach(key: string, part: string, t: string)
    ensures (key + ":" + part) + t == key + (":" + (part + t))
  {
  }

  lemma MemberReadsOf(key: string, part: string, v: Value)
    requires forall t {:trigger EndsPart(t)} :: EndsPart(t) ==>
               var r := ReadValue(part + t); r.Got? && r.value == v && SkipWs(r.rest) == t
    ensures MemberReads(Quote(key) + ":" + part, (key, v))
  {
    forall t | EndsPart(t)
      ensures var r := ReadMember((Quote(key) + ":" + part) + t);
              r.Got? && r.value == (key, v) && SkipWs(r.rest) == t
    {
      MemberAt(key, part, t);
    }
  }

  lemma Regroup(a: string, b: string, c: string, d: string)
    ensures (a + "," + b) + c + d == a + ("," + (b + c + d))
    ensures a + c + d == a + (c + d)
  {
  }

  lemma MembersCons(first: string, m: (string, Value), rest: string, ms: seq<(string, Value)>, t: string)
    requires MemberReads(first, m) && rest != "" && rest[0] == '"' && ReadMembers(rest + "}" + t) == Got(ms, t)
    ensures ReadMembers((first + "," + rest) + "}" + t) == Got([m] + ms, t)
  {
    var u := rest + "}" + t;
    assert EndsPart("," + u);
    Regroup(first, rest, "}", t);
    MembersMore(first + ("," + u), u);
  }

  lemma MembersOne(first: string, m: (string, Value), t: string)
    requires MemberReads(first, m)
    ensures ReadMembers(first + "}" + t) == Got([m], t)
  {
    assert EndsPart("}" + t);
    Regroup(first, "", "}", t);
    MembersEnd(first + ("}" + t), t);
  }

  lemma JoinedHead(parts: seq<string>)
    requires parts != [] && parts[0] != ""
    ensures Joined(parts) != "" && Joined(parts)[0] == parts[0][0]
  {
  }

  lemma {:induction false} MembersOfParts(parts: seq<string>, ms: seq<(string, Value)>, t: string)
    requires |parts| == |ms| > 0 && forall i :: 0 <= i < |ms| ==> MemberReads(parts[i], ms[i])
    ensures ReadMembers(Joined(parts) + "}" + t) == Got(ms, t)
    decreases |parts|
  {
    if |parts| == 1 {
      MembersOne(parts[0], ms[0], t);
      assert ms == [ms[0]];
    } else {
      MembersOfParts(parts[1..], ms[1..], t);
      MemberBegins(parts[1], ms[1]);
      MembersStep(parts, ms, t);
    }
  }

  lemma MembersStep(parts: seq<string>, ms: seq<(string, Value)>, t: string)
    requires |parts| == |ms| > 1 && MemberReads(parts[0], ms[0]) && parts[1] != "" && parts[1][0] == '"'
    requires ReadMembers(Joined(parts[1..]) + "}" + t) == Got(ms[1..], t)
    ensures ReadMembers(Joined(parts) + "}" + t) == Got(ms, t)
  {
    JoinedCons(parts);
    JoinedHead(parts[1..]);
    MembersCons(parts[0], ms[0], Joined(parts[1..]), ms[1..], t);
    assert ms == [ms[0]] + ms[1..];
  }

  lemma JoinedCons(parts: seq<string>)
    requires parts != []
    ensures Joined(parts) == if |parts| == 1 then parts[0] else parts[0] + "," + Joined(parts[1..])
  {
  }

  lemma MemberBegins(part: string, m: (string, Value))
    requires MemberReads(part, m)
    ensures part != "" && part[0] == '"'
  {
  }

  lemma ItemsCons(first: string, v: Value, rest: string, vs: seq<Value>, t: string)
    requires ValueReads(first, v) && rest != "" && !IsWs(rest[0]) && ReadItems(rest + "]" + t) == Got(vs, t)
    ensures ReadItems((first + "," + rest) + "]" + t) == Got([v] + vs, t)
  {
    var u := rest + "]" + t;
    assert EndsPart("," + u);
    Regroup(first, rest, "]", t);
    ItemsMore(first + ("," + u), u);
  }

  lemma ItemsOne(first: string, v: Value, t: string)
    requires ValueReads(first, v)
    ensures ReadItems(first + "]" + t) == Got([v], t)
  {
    assert EndsPart("]" + t);
    Regroup(first, "", "]", t);
    ItemsEnd(first + ("]" + t), t);
  }

  lemma {:induction false} ItemsOfParts(parts: seq<string>, vs: seq<Value>, t: string)
    requires |parts| == |vs| > 0 && forall i :: 0 <= i < |vs| ==> ValueReads(parts[i], vs[i])
    ensures ReadItems(Joined(parts) + "]" + t) == Got(vs, t)
    decreases |parts|
  {
    if |parts| == 1 {
      ItemsOne(parts[0], vs[0], t);
      assert vs == [vs[0]];
    } else {
      ItemsOfParts(parts[1..], vs[1..], t);
      ValueBegins(parts[1], vs[1]);
      ItemsStep(parts, vs, t);
    }
  }

  lemma ItemsStep(parts: seq<string>, vs: seq<Value>, t: string)
    requires |parts| == |vs| > 1 && ValueReads(parts[0], vs[0]) && parts[1] != "" && !IsWs(parts[1][0])
    requires ReadItems(Joined(parts[1..]) + "]" + t) == Got(vs[1..], t)
    ensures ReadItems(Joined(parts) + "]" + t) == Got(vs, t)
  {
    JoinedCons(parts);
    JoinedHead(parts[1..]);
    ItemsCons(parts[0], vs[0], Joined(parts[1..]), vs[1..], t);
    assert vs == [vs[0]] + vs[1..];
  }

  lemma ValueBegins(part: string, v: Value)
    requires ValueReads(part, v)
    ensures part != "" && !IsWs(part[0])
  {
  }

  /** An object put together from members that read well reads as their object, whatever follows. */
  lemma ObjectOfParts(parts: seq<string>, ms: seq<(string, Value)>, t: string)
    requires |parts| == |ms| && forall i :: 0 <= i < |ms| ==> MemberReads(parts[i], ms[i])
    ensures ReadValue("{" + Joined(parts) + "}" + t) == Got(Object(ms), t)
  {
    if parts == [] {
      EmptyObjectOf(t);
      assert "{" + "" + "}" + t == "{}" + t;
      assert ms == [];
    } else {
      MembersOfParts(parts, ms, t);
      assert MemberReads(parts[0], ms[0]);
      JoinedHead(parts);
      ObjectOf(Joined(parts) + "}" + t);
      assert "{" + Joined(parts) + "}" + t == "{" + (Joined(parts) + "}" + t);
    }
  }

  lemma ArrayOfParts(parts: seq<string>, vs: seq<Value>, t: string)
    requires |parts| == |vs| && forall i :: 0 <= i < |vs| ==> ValueReads(parts[i], vs[i])
    ensures ReadValue("[" + Joined(parts) + "]" + t) == Got(Array(vs), t)
  {
    if parts == [] {
      EmptyArrayOf(t);
      assert "[" + "" + "]" + t == "[]" + t;
      assert vs == [];
    } else {
      ItemsOfParts(parts, vs, t);
      assert ValueReads(parts[0], vs[0]);
      JoinedHead(parts);
      ArrayOf(Joined(parts) + "]" + t);
      assert "[" + Joined(parts) + "]" + t == "[" + (Joined(parts) + "]" + t);
    }
  }
}
