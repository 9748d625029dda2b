/** Text helpers of the chat pipeline: the bounded whitespace trims of
    common/chat-peg-parser.cpp, as loops and as functions on strings. */
module Text {

  /** Each character replaced by its own text. */
  function FlatMap(f: char -> string, s: string): string {
    if s == [] then [] else f(s[0]) + FlatMap(f, s[1..])
  }

  lemma {:induction false} FlatMapConcat(f: char -> string, s: string, t: string)
    ensures FlatMap(f, s + t) == FlatMap(f, s) + FlatMap(f, t)
    decreases |s|
  {
    if s == [] {
      assert s + t == t;
    } else {
      FlatMapConcat(f, s[1..], t);
      assert (s + t)[1..] == s[1..] + t;
    }
  }

  /** `std::isspace` in the C locale. */
  predicate IsSpace(c: char) {
    c == ' ' || '\t' <= c <= '\r'
  }

  ghost predicate AllSpace(s: string) {
    forall i :: 0 <= i < |s| ==> IsSpace(s[i])
  }

  /** A trim limit of -1 means "no limit"; any other limit below one trims nothing. */
  predicate LimitReached(max: int, count: nat) {
    max != -1 && count >= max
  }

  /** What is left of `s` once whitespace is dropped from its end, at most `max` characters of it. */
  function TrimTrailing(s: string, max: int): (r: string)
    ensures r <= s
  {
    if s == [] || !IsSpace(s[|s| - 1]) || LimitReached(max, 0) then s
    else TrimTrailing(s[..|s| - 1], if max == -1 then -1 else max - 1)
  }

  /** `r` is `s` without some whitespace at its end: at most `max` characters, and fewer only if other
      text came first. */
  ghost predicate Trimmed(s: string, r: string, max: int) {
    && r <= s && AllSpace(s[|r|..])
    && (r == s || max == -1 || |s| - |r| <= max)
    && (r == [] || !IsSpace(r[|r| - 1]) || LimitReached(max, |s| - |r|))
  }

  lemma TrimmedSnoc(s: string, c: char, r: string, max: int)
    requires IsSpace(c) && !LimitReached(max, 0) && Trimmed(s, r, if max == -1 then -1 else max - 1)
    ensures Trimmed(s + [c], r, max)
  {
    AllSpaceSnoc(s[|r|..], c);
    assert (s + [c])[|r|..] == s[|r|..] + [c];
  }

  /** The trailing trim drops exactly a run of whitespace, and stops only at other text or at its limit. */
  lemma {:induction false} TrimTrailingExact(s: string, max: int)
    ensures Trimmed(s, TrimTrailing(s, max), max)
    decreases |s|
  {
    if s != [] && IsSpace(s[|s| - 1]) && !LimitReached(max, 0) {
      var n := |s| - 1;
      TrimTrailingExact(s[..n], if max == -1 then -1 else max - 1);
      TrimmedSnoc(s[..n], s[n], TrimTrailing(s, max), max);
      assert s == s[..n] + [s[n]];
    }
  }

  lemma AllSpaceSnoc(s: string, c: char)
    requires AllSpace(s) && IsSpace(c)
    ensures AllSpace(s + [c])
  {
  }

  /** What is left of `s` once whitespace is dropped from its start, at most `max` characters of it. */
  function TrimLeading(s: string, max: int): (r: string) {
    if s == [] || !IsSpace(s[0]) || LimitReached(max, 0) then s
    else TrimLeading(s[1..], if max == -1 then -1 else max - 1)
  }

  /** The leading trim drops exactly a run of whitespace, and stops only at other text or at its limit. */
  lemma {:induction false} TrimLeadingExact(s: string, max: int)
    ensures var r := TrimLeading(s, max);
            && |r| <= |s| && r == s[|s| - |r|..] && AllSpace(s[..|s| - |r|])
            && (r == s || max == -1 || |s| - |r| <= max)
            && (r == [] || !IsSpace(r[0]) || LimitReached(max, |s| - |r|))
    decreases |s|
  {
    if s != [] && IsSpace(s[0]) && !LimitReached(max, 0) {
      TrimLeadingExact(s[1..], if max == -1 then -1 else max - 1);
      var r := TrimLeading(s, max);
      assert s[..|s| - |r|] == [s[0]] + s[1..][..|s| - 1 - |r|];
    }
  }

  /** One character at most from either end: how argument values are trimmed. */
  function TrimOne(s: string): string {
    TrimTrailing(TrimLeading(s, 1), 1)
  }

  /** One leading character, every trailing one: how argument names are trimmed. */
  function TrimKey(s: string): string {
    TrimTrailing(TrimLeading(s, 1), -1)
  }

  method TrimTrailingSpace(s: string, max: int) returns (r: string)
    ensures r == TrimTrailing(s, max)
  {
    var count := 0;
    r := s;
    while r != [] && IsSpace(r[|r| - 1])
      invariant r <= s && count == |s| - |r|
      invariant max == -1 || count == 0 || count <= max
      invariant TrimTrailing(s, max) == TrimTrailing(r, if max == -1 then -1 else max - count)
    {
      if max != -1 && count >= max {
        break;
      }
      r := r[..|r| - 1];
      count := count + 1;
    }
  }

  method TrimLeadingSpace(s: string, max: int) returns (r: string)
    ensures r == TrimLeading(s, max)
  {
    var count: nat := 0;
    r := s;
    while r != [] && IsSpace(r[0])
      invariant max == -1 || count == 0 || count <= max
      invariant TrimLeading(s, max) == TrimLeading(r, if max == -1 then -1 else max - count)
      decreases |r|
    {
      if max != -1 && count >= max {
        break;
      }
      r := r[1..];
      count := count + 1;
    }
  }

  /** Trimming the end is monotone: a longer text keeps at least as much. */
  lemma TrimTrailingMonotone(s: string, t: string, max: int)
    requires s <= t
    ensures TrimTrailing(s, max) <= TrimTrailing(t, max)
  {
    var r, q := TrimTrailing(s, max), TrimTrailing(t, max);
    TrimTrailingExact(s, max);
    TrimTrailingExact(t, max);
    assert forall i :: |q| <= i < |t| ==> t[i] == t[|q|..][i - |q|];
  }

  lemma TrimLeadingMonotone(s: string, t: string, max: int)
    requires s <= t
    ensures TrimLeading(s, max) <= TrimLeading(t, max)
    decreases |s|
  {
    if s != [] && IsSpace(s[0]) && !LimitReached(max, 0) {
      TrimLeadingMonotone(s[1..], t[1..], if max == -1 then -1 else max - 1);
    }
  }

  lemma TrimOneMonotone(s: string, t: string)
    requires s <= t
    ensures TrimOne(s) <= TrimOne(t)
  {
    TrimLeadingMonotone(s, t, 1);
    TrimTrailingMonotone(TrimLeading(s, 1), TrimLeading(t, 1), 1);
  }
}
