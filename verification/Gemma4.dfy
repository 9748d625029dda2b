/** The Gemma 4 argument printer of common/chat-peg-parser.cpp: a parse tree of the model's own
    notation, complete or cut short, is turned into JSON text. */
module Gemma4 {
  import opened Json
  import MessageDiff

  datatype Rule =
    | NumberRule | BoolRule | NullRule
    | StringRule | StringContentRule
    | ArrayRule | DictRule | KvRule | KeyRule | KeyNameRule | ValueRule
    | OtherRule

  datatype Node = Node(rule: Rule, text: string, partial: bool, children: seq<Node>)

  function Texts(ns: seq<Node>): (r: seq<string>)
    ensures |r| == |ns| && forall i :: 0 <= i < |ns| ==> r[i] == ToJson(ns[i])
    decreases ns, 0
  {
    if ns == [] then [] else [ToJson(ns[0])] + Texts(ns[1..])
  }

  function Flat(parts: seq<string>): string {
    if parts == [] then "" else parts[0] + Flat(parts[1..])
  }

  function FirstText(ns: seq<Node>): string
    decreases ns, 1
  {
    if ns == [] then "" else ToJson(ns[0])
  }

  function ToJson(n: Node): string
    decreases n, 0
  {
    if n.text == "" then ""
    else
      match n.rule
      case NumberRule | BoolRule | NullRule | KeyNameRule => n.text
      case StringContentRule => Escape(n.text)
      case StringRule =>
        "\"" + (FirstText(n.children) + (if n.partial || n.children == [] then "" else "\""))
      case ArrayRule => "[" + (Joined(Texts(n.children)) + (if n.partial then "" else "]"))
      case KeyRule => "\"" + (Escape(FirstText(n.children)) + (if n.partial then "" else "\":"))
      case KvRule => Flat(Texts(n.children))
      case DictRule => "{" + (Joined(Texts(n.children)) + (if n.partial then "" else "}"))
      case ValueRule => FirstText(n.children)
      case OtherRule => ""
  }

  // ---------------------------------------------------------------- cut trees

  /** `c` is what the parser has of `n` when the input stops early: partial along the cut, earlier
      children whole, the last one cut, later ones missing. */
  predicate Cut(c: Node, n: Node)
    decreases c, 0
  {
    c == n || (c.rule == n.rule && c.partial && c.text <= n.text && CutAll(c.children, n.children))
  }

  predicate CutAll(cs: seq<Node>, ns: seq<Node>)
    decreases cs, 0
  {
    cs == [] ||
    (&& |cs| <= |ns|
     && if |cs| == 1 then Cut(cs[0], ns[0]) else cs[0] == ns[0] && CutAll(cs[1..], ns[1..]))
  }

  /** Position by position: equal up to the last part of `cs`, which is a prefix. */
  predicate PartsCut(cs: seq<string>, ns: seq<string>) {
    cs == [] ||
    (&& |cs| <= |ns|
     && if |cs| == 1 then cs[0] <= ns[0] else cs[0] == ns[0] && PartsCut(cs[1..], ns[1..]))
  }

  lemma {:induction false} JoinedCut(cs: seq<string>, ns: seq<string>)
    requires PartsCut(cs, ns)
    ensures Joined(cs) <= Joined(ns)
    decreases |cs|
  {
    if |cs| > 1 {
      JoinedCut(cs[1..], ns[1..]);
      assert Joined(ns) == cs[0] + "," + Joined(ns[1..]);
    } else if |cs| == 1 && |ns| > 1 {
      assert Joined(ns) == ns[0] + "," + Joined(ns[1..]);
    }
  }

  lemma {:induction false} FlatCut(cs: seq<string>, ns: seq<string>)
    requires PartsCut(cs, ns)
    ensures Flat(cs) <= Flat(ns)
    decreases |cs|
  {
    if |cs| > 1 {
      FlatCut(cs[1..], ns[1..]);
    } else if |cs| == 1 {
      assert cs[1..] == [];
      assert Flat(cs) == cs[0] + "" == cs[0];
    }
  }

  lemma {:induction false} TextsCut(cs: seq<Node>, ns: seq<Node>)
    requires CutAll(cs, ns)
    ensures PartsCut(Texts(cs), Texts(ns))
    ensures FirstText(cs) <= FirstText(ns)
    decreases cs, 1
  {
    if cs != [] {
      var a, b := Texts(cs), Texts(ns);
      if |cs| == 1 {
        CutIsPrefix(cs[0], ns[0]);
      } else {
        TextsCut(cs[1..], ns[1..]);
        assert a[1..] == Texts(cs[1..]) && b[1..] == Texts(ns[1..]);
      }
    }
  }

  lemma WrapCut(open: string, a: string, b: string, close: string)
    requires a <= b
    ensures open + (a + "") <= open + (b + close)
  {
  }

  /** However far the parser got, the text printed so far is a prefix of the text printed in the end. */
  lemma {:induction false} CutIsPrefix(c: Node, n: Node)
    requires Cut(c, n)
    ensures ToJson(c) <= ToJson(n)
    decreases c, 0
  {
    if c != n && c.text != "" {
      TextsCut(c.children, n.children);
      match c.rule
      case StringContentRule => EscapeMonotone(c.text, n.text);
      case StringRule =>
        WrapCut("\"", FirstText(c.children), FirstText(n.children),
                if n.partial || n.children == [] then "" else "\"");
      case ArrayRule =>
        JoinedCut(Texts(c.children), Texts(n.children));
        WrapCut("[", Joined(Texts(c.children)), Joined(Texts(n.children)), if n.partial then "" else "]");
      case KeyRule =>
        EscapeMonotone(FirstText(c.children), FirstText(n.children));
        WrapCut("\"", Escape(FirstText(c.children)), Escape(FirstText(n.children)), if n.partial then "" else "\":");
      case KvRule => FlatCut(Texts(c.children), Texts(n.children));
      case DictRule =>
        JoinedCut(Texts(c.children), Texts(n.children));
        WrapCut("{", Joined(Texts(c.children)), Joined(Texts(n.children)), if n.partial then "" else "}");
      case _ =>
    }
  }

  /** So the arguments of a streamed call never fail to diff, and the deltas add up. */
  lemma CutArgumentsDiff(c: Node, n: Node)
    requires Cut(c, n)
    ensures var d := MessageDiff.StringDiff(ToJson(c), ToJson(n));
            d.Ok? && ToJson(c) + d.value == ToJson(n)
  {
    CutIsPrefix(c, n);
  }

  // ---------------------------------------------------------------- complete trees

  predicate IsValueRule(r: Rule) {
    match r
    case NumberRule | BoolRule | NullRule | StringRule | ArrayRule | DictRule => true
    case _ => false
  }

  /** The trees the argument grammar builds for a finished input. */
  predicate Complete(n: Node)
    decreases n, 0
  {
    && n.text != "" && !n.partial
    && match n.rule
       case NumberRule => IsNumber(n.text)
       case BoolRule => n.text == "true" || n.text == "false"
       case NullRule => n.text == "null"
       case StringRule => |n.children| == 1 && n.children[0].rule == StringContentRule
       case ArrayRule =>
         forall i :: 0 <= i < |n.children| ==> n.children[i].rule == ValueRule && Complete(n.children[i])
       case DictRule => forall i :: 0 <= i < |n.children| ==> n.children[i].rule == KvRule && Complete(n.children[i])
       case KvRule =>
         && |n.children| == 2 && Complete(n.children[0]) && Complete(n.children[1])
         && n.children[0].rule == KeyRule && n.children[1].rule == ValueRule
       case KeyRule => |n.children| == 1 && n.children[0].rule == KeyNameRule
       case ValueRule => |n.children| == 1 && Complete(n.children[0]) && IsValueRule(n.children[0].rule)
       case _ => false
  }

  /** The value a complete tree stands for. */
  function Denote(n: Node): Value
    requires Complete(n) && (IsValueRule(n.rule) || n.rule == ValueRule)
    decreases n, 0
  {
    match n.rule
    case NumberRule => Number(n.text)
    case BoolRule => Bool(n.text == "true")
    case NullRule => Null
    case StringRule => String(n.children[0].text)
    case ArrayRule => Array(seq(|n.children|, i requires 0 <= i < |n.children| => Denote(n.children[i])))
    case DictRule => Object(seq(|n.children|, i requires 0 <= i < |n.children| => DenoteMember(n.children[i])))
    case ValueRule => Denote(n.children[0])
  }

  function DenoteMember(n: Node): (string, Value)
    requires Complete(n) && n.rule == KvRule
    decreases n, 0
  {
    assert Complete(n.children[0]);
    (n.children[0].children[0].text, Denote(n.children[1]))
  }

  // ---- numbers, once more: a number is nothing but number characters

  lemma {:induction false} NumSpanDigits(s: string)
    requires NumSpan(DropDigits(s)) == |DropDigits(s)|
    ensures NumSpan(s) == |s|
    decreases |s|
  {
    if s != [] && IsDigit(s[0]) {
      NumSpanDigits(s[1..]);
    }
  }

  lemma NumSpanExponent(s: string)
    requires IsExponent(s)
    ensures NumSpan(s) == |s|
  {
    if s != [] {
      var d := if |s| > 1 && (s[1] == '+' || s[1] == '-') then s[2..] else s[1..];
      NumSpanDigits(d);
      if |d| == |s| - 2 {
        assert s[1..][1..] == d;
        assert NumSpan(s[1..]) == 1 + NumSpan(d);
      }
      assert NumSpan(s) == 1 + NumSpan(s[1..]);
    }
  }

  lemma NumSpanFraction(s: string)
    requires IsFraction(s)
    ensures NumSpan(s) == |s|
  {
    if s != [] && s[0] == '.' {
      NumSpanExponent(DropDigits(s[1..]));
      NumSpanDigits(s[1..]);
    } else {
      NumSpanExponent(s);
    }
  }

  lemma NumSpanNumber(s: string)
    requires IsNumber(s)
    ensures s != "" && NumSpan(s) == |s| && IsNumChar(s[0])
  {
    var a := if s[0] == '-' then s[1..] else s;
    if a[0] == '0' {
      NumSpanFraction(a[1..]);
    } else {
      NumSpanFraction(DropDigits(a));
      NumSpanDigits(a);
    }
  }

  // ---- leaves

  lemma ScalarReads(text: string, v: Value)
    requires text != "" && !IsWs(text[0]) && text[0] != '"' && text[0] != '{' && text[0] != '[' && text[0] != ']'
    requires ReadScalar(text) == Got(v, "")
    ensures ValueReads(text, v)
  {
    assert ReadValue(text) == Got(v, "");
    forall t | EndsPart(t)
      ensures var r := ReadValue(text + t); r.Got? && r.value == v && SkipWs(r.rest) == t
    {
      ValueExtend(text, t);
      assert "" + t == t && SkipWs(t) == t;
    }
  }

  lemma LeafReads(n: Node)
    requires Complete(n) && n.rule in {NumberRule, BoolRule, NullRule}
    ensures ValueReads(ToJson(n), Denote(n))
  {
    if n.rule == NumberRule {
      NumSpanNumber(n.text);
      assert n.text[..|n.text|] == n.text;
      NumberAt(n.text, |n.text|, n.text);
    }
    ScalarReads(n.text, Denote(n));
  }

  lemma StringReads(n: Node)
    requires Complete(n) && n.rule == StringRule
    ensures ValueReads(ToJson(n), Denote(n))
  {
    var x := n.children[0].text;
    assert ToJson(n.children[0]) == Escape(x);
    assert ToJson(n) == Quote(x);
    forall t | EndsPart(t)
      ensures var r := ReadValue(Quote(x) + t); r.Got? && r.value == Denote(n) && SkipWs(r.rest) == t
    {
      StringOf(x, t);
      assert SkipWs(t) == t;
    }
  }

  // ---- composite values

  lemma BracketedReads(text: string, v: Value)
    requires text != "" && (text[0] == '{' || text[0] == '[')
    requires forall t :: ReadValue(text + t) == Got(v, t)
    ensures ValueReads(text, v)
  {
    forall t | EndsPart(t)
      ensures var r := ReadValue(text + t); r.Got? && r.value == v && SkipWs(r.rest) == t
    {
      assert SkipWs(t) == t;
    }
  }

  lemma {:induction false} ArrayReads(n: Node)
    requires Complete(n) && n.rule == ArrayRule
    ensures forall t :: ReadValue(ToJson(n) + t) == Got(Denote(n), t)
    decreases n, 0
  {
    var parts, vs := Texts(n.children), Denote(n).items;
    forall i | 0 <= i < |vs|
      ensures ValueReads(parts[i], vs[i])
    {
      TreeReads(n.children[i]);
    }
    forall t: string
      ensures ReadValue(ToJson(n) + t) == Got(Denote(n), t)
    {
      ArrayOfParts(parts, vs, t);
      Bracket("[", Joined(parts), "]", t);
    }
  }

  lemma {:induction false} DictReads(n: Node)
    requires Complete(n) && n.rule == DictRule
    ensures forall t :: ReadValue(ToJson(n) + t) == Got(Denote(n), t)
    decreases n, 0
  {
    var parts, ms := Texts(n.children), Denote(n).members;
    forall i | 0 <= i < |ms|
      ensures MemberReads(parts[i], ms[i])
    {
      KvReads(n.children[i]);
    }
    forall t: string
      ensures ReadValue(ToJson(n) + t) == Got(Denote(n), t)
    {
      ObjectOfParts(parts, ms, t);
      Bracket("{", Joined(parts), "}", t);
    }
  }

  lemma Bracket(open: string, body: string, close: string, t: string)
    ensures (open + (body + close)) + t == open + body + close + t
  {
  }

  lemma {:induction false} KvReads(n: Node)
    requires Complete(n) && n.rule == KvRule
    ensures MemberReads(ToJson(n), DenoteMember(n))
    decreases n, 0
  {
    var key, value := n.children[0], n.children[1];
    TreeReads(value);
    KeyText(key);
    MemberReadsOf(key.children[0].text, ToJson(value), Denote(value));
    var parts := Texts(n.children);
    assert parts[1..] == [parts[1]] && [parts[1]][1..] == [];
    assert Flat([parts[1]]) == parts[1] + "";
    assert Flat(parts) == parts[0] + (parts[1] + "");
    Colon(Quote(key.children[0].text), parts[1]);
  }

  lemma Colon(key: string, value: string)
    ensures (key + ":") + (value + "") == key + ":" + value
  {
  }

  lemma KeyText(n: Node)
    requires Complete(n) && n.rule == KeyRule
    ensures ToJson(n) == Quote(n.children[0].text) + ":"
  {
    var x := n.children[0].text;
    assert ToJson(n.children[0]) == x;
    assert "\"" + (Escape(x) + "\":") == ("\"" + Escape(x) + "\"") + ":";
  }

  lemma {:induction false} TreeReads(n: Node)
    requires Complete(n) && (IsValueRule(n.rule) || n.rule == ValueRule)
    ensures ValueReads(ToJson(n), Denote(n))
    decreases n, 1
  {
    match n.rule
    case NumberRule | BoolRule | NullRule => LeafReads(n);
    case StringRule => StringReads(n);
    case ArrayRule =>
      ArrayReads(n);
      BracketedReads(ToJson(n), Denote(n));
    case DictRule =>
      DictReads(n);
      BracketedReads(ToJson(n), Denote(n));
    case ValueRule => TreeReads(n.children[0]);
  }

  /** The arguments of a finished call are the JSON text of the dictionary the tree stands for. */
  lemma ArgumentsReadBack(n: Node)
    requires Complete(n) && n.rule == DictRule
    ensures ReadValue(ToJson(n)) == Got(Denote(n), "")
  {
    DictReads(n);
    assert ToJson(n) + "" == ToJson(n);
    assert ReadValue(ToJson(n) + "") == Got(Denote(n), "");
  }
}
