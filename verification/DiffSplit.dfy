/** `calculate_diff_split` of common/chat-auto-parser-helpers.cpp: two cursors walk each segmented
    text from both ends, and what they do not meet is compared character by character. */
module DiffSplit {
  import opened Segments

  datatype Split = Split(prefix: string, suffix: string, left: string, right: string)

  /** Shared prefix and suffix around the two middles give back both inputs. */
  predicate Rebuilds(left: string, right: string, s: Split) {
    s.prefix + s.left + s.suffix == left && s.prefix + s.right + s.suffix == right
  }

  // ---------------------------------------------------------------- common ends

  function PrefixFrom(a: string, b: string, n: nat): (m: nat)
    requires n <= |a| && n <= |b|
    ensures n <= m <= |a| && m <= |b|
    decreases |a| - n
  {
    if n < |a| && n < |b| && a[n] == b[n] then PrefixFrom(a, b, n + 1) else n
  }

  function SuffixFrom(a: string, b: string, n: nat): (m: nat)
    requires n <= |a| && n <= |b|
    ensures n <= m <= |a| && m <= |b|
    decreases |a| - n
  {
    if n < |a| && n < |b| && a[|a| - 1 - n] == b[|b| - 1 - n] then SuffixFrom(a, b, n + 1) else n
  }

  function CommonPrefix(a: string, b: string): (n: nat)
    ensures n <= |a| && n <= |b|
  {
    PrefixFrom(a, b, 0)
  }

  function CommonSuffix(a: string, b: string): (n: nat)
    ensures n <= |a| && n <= |b|
  {
    SuffixFrom(a, b, 0)
  }

  lemma {:induction false} PrefixFromExact(a: string, b: string, n: nat)
    requires n <= |a| && n <= |b| && a[..n] == b[..n]
    ensures var m := PrefixFrom(a, b, n);
            a[..m] == b[..m] && (m < |a| && m < |b| ==> a[m] != b[m])
    decreases |a| - n
  {
    if n < |a| && n < |b| && a[n] == b[n] {
      assert a[..n + 1] == a[..n] + [a[n]] && b[..n + 1] == b[..n] + [b[n]];
      PrefixFromExact(a, b, n + 1);
    }
  }

  /** The last `n` characters. */
  function Tail(a: string, n: nat): string
    requires n <= |a|
  {
    a[|a| - n..]
  }

  lemma TailCons(a: string, n: nat)
    requires n < |a|
    ensures Tail(a, n + 1) == [a[|a| - 1 - n]] + Tail(a, n)
  {
  }

  lemma SameTailCons(a: string, b: string, n: nat)
    requires n < |a| && n < |b| && Tail(a, n) == Tail(b, n) && a[|a| - 1 - n] == b[|b| - 1 - n]
    ensures Tail(a, n + 1) == Tail(b, n + 1)
  {
    TailCons(a, n);
    TailCons(b, n);
  }

  lemma {:induction false} SuffixFromExact(a: string, b: string, n: nat)
    requires n <= |a| && n <= |b| && Tail(a, n) == Tail(b, n)
    ensures var m := SuffixFrom(a, b, n);
            Tail(a, m) == Tail(b, m) && (m < |a| && m < |b| ==> a[|a| - 1 - m] != b[|b| - 1 - m])
    decreases |a| - n
  {
    if n < |a| && n < |b| && a[|a| - 1 - n] == b[|b| - 1 - n] {
      SameTailCons(a, b, n);
      SuffixFromExact(a, b, n + 1);
    }
  }

  /** The common ends are common, and as long as they can be. */
  lemma CommonEndsExact(a: string, b: string)
    ensures var n := CommonPrefix(a, b);
            a[..n] == b[..n] && (n < |a| && n < |b| ==> a[n] != b[n])
    ensures var n := CommonSuffix(a, b);
            Tail(a, n) == Tail(b, n) && (n < |a| && n < |b| ==> a[|a| - 1 - n] != b[|b| - 1 - n])
  {
    PrefixFromExact(a, b, 0);
    SuffixFromExact(a, b, 0);
  }

  method CommonPrefixLen(left: string, right: string) returns (n: nat)
    ensures n == CommonPrefix(left, right)
  {
    n := 0;
    var minLen := if |left| < |right| then |left| else |right|;
    while n < minLen && left[n] == right[n]
      invariant n <= minLen && PrefixFrom(left, right, n) == CommonPrefix(left, right)
    {
      n := n + 1;
    }
  }

  method CommonSuffixLen(left: string, right: string) returns (n: nat)
    ensures n == CommonSuffix(left, right)
  {
    n := 0;
    var minLen := if |left| < |right| then |left| else |right|;
    while n < minLen && left[|left| - 1 - n] == right[|right| - 1 - n]
      invariant n <= minLen && SuffixFrom(left, right, n) == CommonSuffix(left, right)
    {
      n := n + 1;
    }
  }

  // ---------------------------------------------------------------- the walk

  /** The unmatched stretch of each side, both ends inclusive; a side whose flag is set has had its
      last remaining segment taken as suffix although its cursors have met and cannot move apart. */
  datatype Cursors = Cursors(ls: nat, le: nat, rs: nat, re: nat, lc: bool, rc: bool)

  predicate InRange(L: seq<Segment>, R: seq<Segment>, c: Cursors) {
    c.ls <= c.le < |L| && c.rs <= c.re < |R|
  }

  function Start(L: seq<Segment>, R: seq<Segment>): Cursors
    requires L != [] && R != []
  {
    Cursors(0, |L| - 1, 0, |R| - 1, false, false)
  }

  /** A step inwards at the front if the segments there agree. */
  function FrontStep(L: seq<Segment>, R: seq<Segment>, c: Cursors): (d: Cursors)
    requires InRange(L, R, c) && c.ls < c.le && c.rs < c.re
    ensures InRange(L, R, d)
  {
    if L[c.ls] == R[c.rs] then c.(ls := c.ls + 1, rs := c.rs + 1) else c
  }

  /** A step inwards at the back if the segments there agree; cursors that have met stay and raise their flag. */
  function BackStep(L: seq<Segment>, R: seq<Segment>, c: Cursors): (d: Cursors)
    requires InRange(L, R, c)
    ensures InRange(L, R, d)
  {
    if L[c.le] == R[c.re] then
      Cursors(c.ls, if c.ls != c.le then c.le - 1 else c.le, c.rs, if c.rs != c.re then c.re - 1 else c.re,
              c.lc || c.ls == c.le, c.rc || c.rs == c.re)
    else c
  }

  function Round(L: seq<Segment>, R: seq<Segment>, c: Cursors): (d: Cursors)
    requires InRange(L, R, c) && c.ls < c.le && c.rs < c.re
    ensures InRange(L, R, d) && (d == c || d.le - d.ls + d.re - d.rs < c.le - c.ls + c.re - c.rs)
  {
    BackStep(L, R, FrontStep(L, R, c))
  }

  function Walk(L: seq<Segment>, R: seq<Segment>, c: Cursors): (d: Cursors)
    requires InRange(L, R, c)
    ensures InRange(L, R, d)
    decreases c.le - c.ls + c.re - c.rs
  {
    if c.ls == c.le || c.rs == c.re then c
    else
      var d := Round(L, R, c);
      if d == c then c else Walk(L, R, d)
  }

  /** The segments of a side that have gone into the suffix. */
  function Taken(S: seq<Segment>, end: nat, consumed: bool): seq<Segment>
    requires end < |S|
  {
    if consumed then S[end..] else S[end + 1..]
  }

  /** The segments of a side still unmatched. */
  function Rest(S: seq<Segment>, start: nat, end: nat, consumed: bool): seq<Segment>
    requires start <= end < |S|
  {
    if consumed then S[start..end] else S[start..end + 1]
  }

  /** What the walk keeps: both sides agree on what was taken at either end. */
  predicate Aligned(L: seq<Segment>, R: seq<Segment>, c: Cursors) {
    && InRange(L, R, c) && c.ls == c.rs && L[..c.ls] == R[..c.rs]
    && (c.lc ==> c.ls == c.le) && (c.rc ==> c.rs == c.re)
    && Taken(L, c.le, c.lc) == Taken(R, c.re, c.rc)
  }

  lemma TakeOne(S: seq<Segment>, end: nat)
    requires end < |S|
    ensures S[end..] == [S[end]] + S[end + 1..]
  {
  }

  lemma FrontAligned(L: seq<Segment>, R: seq<Segment>, c: Cursors)
    requires Aligned(L, R, c) && c.ls < c.le && c.rs < c.re
    ensures Aligned(L, R, FrontStep(L, R, c))
  {
    assert L[..c.ls + 1] == L[..c.ls] + [L[c.ls]];
    assert R[..c.rs + 1] == R[..c.rs] + [R[c.rs]];
  }

  lemma BackAligned(L: seq<Segment>, R: seq<Segment>, c: Cursors)
    requires Aligned(L, R, c) && !c.lc && !c.rc
    ensures Aligned(L, R, BackStep(L, R, c))
  {
    TakeOne(L, c.le);
    TakeOne(R, c.re);
  }

  // ---------------------------------------------------------------- after the walk

  /** Cursors, and what is added to the inner ends of prefix and suffix. */
  datatype Ends = Ends(c: Cursors, prefix: string, suffix: string)

  /** When one side is down to a single segment, that segment is matched against the other side's ends. */
  function FixUp(L: seq<Segment>, R: seq<Segment>, c: Cursors): (f: Ends)
    requires InRange(L, R, c)
    ensures InRange(L, R, f.c)
  {
    if c.ls == c.le && c.rs != c.re then
      if L[c.ls] == R[c.re] then Ends(c.(re := c.re - 1, lc := true), "", R[c.re].value)
      else if L[c.ls] == R[c.rs] then Ends(c.(rs := c.rs + 1, lc := true), R[c.rs].value, "")
      else Ends(c, "", "")
    else if c.rs == c.re && c.ls != c.le then
      if L[c.le] == R[c.rs] then Ends(c.(le := c.le - 1, rc := true), "", L[c.le].value)
      else if L[c.ls] == R[c.rs] then Ends(c.(ls := c.ls + 1, rc := true), L[c.ls].value, "")
      else Ends(c, "", "")
    else if c.ls == c.le && c.rs == c.re && L[c.ls] == R[c.rs] && L[c.ls].kind == Marker then
      Ends(c.(lc := true, rc := true), R[c.rs].value, "")
    else Ends(c, "", "")
  }

  /** `pl` characters of the rests go to the prefix and `sl` to the suffix. */
  function Carve(prefix: string, suffix: string, restL: string, restR: string, pl: nat, sl: nat): Split
    requires pl + sl <= |restL| && pl + sl <= |restR|
  {
    Split(prefix + restL[..pl], restL[|restL| - sl..] + suffix, restL[pl..|restL| - sl], restR[pl..|restR| - sl])
  }

  /** The case of no difference at all, and the rule that a left text the right one starts with is the prefix. */
  function Settle(left: string, right: string, s: Split): Split {
    var t := if s.left == "" && s.right == "" then s.(prefix := left, suffix := "") else s;
    if t.left == "" && t.right != "" && left <= right then Split(left, "", t.left, right[|left|..]) else t
  }

  function SuffixLen(restL: string, restR: string, textSuffix: bool): (n: nat)
    ensures n <= |restL| && n <= |restR|
  {
    if textSuffix then CommonSuffix(restL, restR) else 0
  }

  /** The prefix may not run into the suffix. */
  function PrefixLen(restL: string, restR: string, sl: nat, textPrefix: bool): (n: nat)
    requires sl <= |restL| && sl <= |restR|
    ensures n + sl <= |restL| && n + sl <= |restR|
  {
    if textPrefix then CommonPrefix(restL[..|restL| - sl], restR[..|restR| - sl]) else 0
  }

  function Finish(left: string, right: string, prefix: string, suffix: string,
                  restL: string, restR: string, textPrefix: bool, textSuffix: bool): Split
  {
    var sl := SuffixLen(restL, restR, textSuffix);
    Settle(left, right, Carve(prefix, suffix, restL, restR, PrefixLen(restL, restR, sl, textPrefix), sl))
  }

  /** The function as a whole. */
  function DiffOf(left: string, right: string): Split {
    var (L, R) := (Segmentize(left), Segmentize(right));
    if L == [] then Split("", "", "", right)
    else if R == [] then Split("", "", left, "")
    else
      var c := Walk(L, R, Start(L, R));
      var f := FixUp(L, R, c);
      Finish(left, right,
             Concat(L[..c.ls]) + f.prefix, f.suffix + Concat(Taken(L, c.le, c.lc)),
             Concat(Rest(L, f.c.ls, f.c.le, f.c.lc)), Concat(Rest(R, f.c.rs, f.c.re, f.c.rc)),
             L[f.c.ls].kind == Plain && R[f.c.rs].kind == Plain,
             L[f.c.le].kind == Plain && R[f.c.re].kind == Plain)
  }

  // ---------------------------------------------------------------- the method

  lemma WalkOnce(L: seq<Segment>, R: seq<Segment>, c: Cursors)
    requires InRange(L, R, c) && c.ls != c.le && c.rs != c.re
    ensures Walk(L, R, c) == if Round(L, R, c) == c then c else Walk(L, R, Round(L, R, c))
  {
  }

  method WalkFront(L: seq<Segment>, R: seq<Segment>, c: Cursors, prefix: string)
    returns (d: Cursors, prefix': string)
    requires InRange(L, R, c) && c.ls < c.le && c.rs < c.re && prefix == Concat(L[..c.ls])
    ensures d == FrontStep(L, R, c) && prefix' == Concat(L[..d.ls])
  {
    d, prefix' := c, prefix;
    if L[d.ls] == R[d.rs] {
      ConcatTake(L, d.ls);
      prefix' := prefix + L[d.ls].value;
      d := d.(ls := d.ls + 1, rs := d.rs + 1);
    }
  }

  method WalkBack(L: seq<Segment>, R: seq<Segment>, c: Cursors, suffix: string)
    returns (d: Cursors, suffix': string)
    requires InRange(L, R, c) && !c.lc && suffix == Concat(Taken(L, c.le, c.lc))
    ensures d == BackStep(L, R, c) && suffix' == Concat(Taken(L, d.le, d.lc))
  {
    d, suffix' := c, suffix;
    if L[d.le] == R[d.re] {
      TakeOne(L, d.le);
      suffix' := L[d.le].value + suffix;
      var lMet, rMet := d.ls == d.le, d.rs == d.re;
      d := d.(le := if lMet then d.le else d.le - 1, lc := d.lc || lMet);
      d := d.(re := if rMet then d.re else d.re - 1, rc := d.rc || rMet);
    }
  }

  predicate Walking(L: seq<Segment>, R: seq<Segment>, c: Cursors, prefix: string, suffix: string) {
    Aligned(L, R, c) && prefix == Concat(L[..c.ls]) && suffix == Concat(Taken(L, c.le, c.lc))
  }

  method WalkRound(L: seq<Segment>, R: seq<Segment>, c: Cursors, prefix: string, suffix: string)
    returns (d: Cursors, prefix': string, suffix': string)
    requires Walking(L, R, c, prefix, suffix) && c.ls != c.le && c.rs != c.re
    ensures d == Round(L, R, c) && Walking(L, R, d, prefix', suffix')
  {
    FrontAligned(L, R, c);
    d, prefix' := WalkFront(L, R, c, prefix);
    BackAligned(L, R, d);
    d, suffix' := WalkBack(L, R, d, suffix);
  }

  method WalkMarkers(L: seq<Segment>, R: seq<Segment>) returns (c: Cursors, prefix: string, suffix: string)
    requires L != [] && R != []
    ensures c == Walk(L, R, Start(L, R)) && Walking(L, R, c, prefix, suffix)
  {
    c, prefix, suffix := Start(L, R), "", "";
    while c.ls != c.le && c.rs != c.re
      invariant Walking(L, R, c, prefix, suffix) && Walk(L, R, Start(L, R)) == Walk(L, R, c)
      decreases c.le - c.ls + c.re - c.rs
    {
      var before := c;
      WalkOnce(L, R, c);
      c, prefix, suffix := WalkRound(L, R, c, prefix, suffix);
      if c == before {
        break;
      }
    }
  }

  lemma ConcatTake(S: seq<Segment>, k: nat)
    requires k < |S|
    ensures Concat(S[..k + 1]) == Concat(S[..k]) + S[k].value
  {
    assert S[..k + 1] == S[..k] + [S[k]];
    ConcatAppend(S[..k], [S[k]]);
    assert Concat([S[k]]) == S[k].value + "";
  }

  method EatSegments(S: seq<Segment>) returns (r: string)
    ensures r == Concat(S)
  {
    r := "";
    for i := 0 to |S|
      invariant r == Concat(S[..i])
    {
      ConcatTake(S, i);
      r := r + S[i].value;
    }
    assert S[..|S|] == S;
  }

  method FinishSplit(left: string, right: string, prefix: string, suffix: string,
                     restL: string, restR: string, textPrefix: bool, textSuffix: bool) returns (r: Split)
    ensures r == Finish(left, right, prefix, suffix, restL, restR, textPrefix, textSuffix)
  {
    var sl, pl := 0, 0;
    if textSuffix {
      sl := CommonSuffixLen(restL, restR);
    }
    if textPrefix {
      pl := CommonPrefixLen(restL[..|restL| - sl], restR[..|restR| - sl]);
    }
    r := Carve(prefix, suffix, restL, restR, pl, sl);
    if r.left == "" && r.right == "" {
      r := r.(prefix := left, suffix := "");
    }
    if r.left == "" && r.right != "" && |left| <= |right| && right[..|left|] == left {
      r := r.(prefix := left, suffix := "", right := right[|left|..]);
    }
  }

  method CalculateDiffSplit(left: string, right: string) returns (r: Split)
    ensures r == DiffOf(left, right)
  {
    var L := SegmentizeMarkers(left);
    var R := SegmentizeMarkers(right);
    if L == [] {
      return Split("", "", "", right);
    }
    if R == [] {
      return Split("", "", left, "");
    }
    var c, prefix, suffix := WalkMarkers(L, R);
    var f := FixUp(L, R, c);
    var restL := EatSegments(Rest(L, f.c.ls, f.c.le, f.c.lc));
    var restR := EatSegments(Rest(R, f.c.rs, f.c.re, f.c.rc));
    r := FinishSplit(left, right, prefix + f.prefix, f.suffix + suffix, restL, restR,
                     L[f.c.ls].kind == Plain && R[f.c.rs].kind == Plain,
                     L[f.c.le].kind == Plain && R[f.c.re].kind == Plain);
  }

  // ---------------------------------------------------------------- when the parts rebuild the inputs

  /** One side gave its last remaining segment to the suffix during the walk, and the fix-up finds
      the very same segment again at an end of what is left of the other side. */
  predicate TakenTwice(L: seq<Segment>, R: seq<Segment>, c: Cursors)
    requires InRange(L, R, c)
  {
    c.lc != c.rc &&
    if c.ls == c.le && c.rs == c.re then L[c.ls] == R[c.rs] && L[c.ls].kind == Marker
    else if c.lc then L[c.ls] == R[c.re] || L[c.ls] == R[c.rs]
    else L[c.le] == R[c.rs] || L[c.ls] == R[c.rs]
  }

  /** The guard of the failing branch: a segment is taken twice, and the last rule does not mend it
      because right has nothing left or does not start with left. */
  predicate Rematches(left: string, right: string) {
    var (L, R) := (Segmentize(left), Segmentize(right));
    L != [] && R != [] &&
    var c := Walk(L, R, Start(L, R));
    TakenTwice(L, R, c) && !(c.lc && c.rs != c.re && left <= right)
  }

  lemma {:induction false} WalkAligned(L: seq<Segment>, R: seq<Segment>, c: Cursors)
    requires Aligned(L, R, c) && !c.lc && !c.rc
    ensures Aligned(L, R, Walk(L, R, c))
    decreases c.le - c.ls + c.re - c.rs
  {
    if c.ls < c.le && c.rs < c.re {
      FrontAligned(L, R, c);
      BackAligned(L, R, FrontStep(L, R, c));
      var d := Round(L, R, c);
      if d != c && !d.lc && !d.rc {
        WalkAligned(L, R, d);
      }
    }
  }

  /** Prefix and suffix around the two rests give back both inputs. */
  predicate Splits(left: string, right: string, prefix: string, suffix: string, restL: string, restR: string) {
    prefix + restL + suffix == left && prefix + restR + suffix == right
  }

  lemma Cut3(x: string, i: nat, j: nat)
    requires i <= j <= |x|
    ensures x == x[..i] + x[i..j] + x[j..]
  {
  }

  lemma Widen(p: string, a: string, b: string, c: string, s: string)
    ensures (p + a) + b + (c + s) == p + (a + b + c) + s
  {
  }

  lemma CarveGood(left: string, right: string, prefix: string, suffix: string,
                  restL: string, restR: string, pl: nat, sl: nat)
    requires Splits(left, right, prefix, suffix, restL, restR)
    requires pl + sl <= |restL| && pl + sl <= |restR|
    requires restL[..pl] == restR[..pl] && Tail(restL, sl) == Tail(restR, sl)
    ensures Rebuilds(left, right, Carve(prefix, suffix, restL, restR, pl, sl))
  {
    Cut3(restL, pl, |restL| - sl);
    Cut3(restR, pl, |restR| - sl);
    Widen(prefix, restL[..pl], restL[pl..|restL| - sl], restL[|restL| - sl..], suffix);
    Widen(prefix, restL[..pl], restR[pl..|restR| - sl], restL[|restL| - sl..], suffix);
  }

  lemma SuffixCommon(restL: string, restR: string, textSuffix: bool)
    ensures var sl := SuffixLen(restL, restR, textSuffix); Tail(restL, sl) == Tail(restR, sl)
  {
    CommonEndsExact(restL, restR);
  }

  lemma PrefixCommon(restL: string, restR: string, sl: nat, textPrefix: bool)
    requires sl <= |restL| && sl <= |restR|
    ensures var pl := PrefixLen(restL, restR, sl, textPrefix); restL[..pl] == restR[..pl]
  {
    var xl, xr := restL[..|restL| - sl], restR[..|restR| - sl];
    var pl := PrefixLen(restL, restR, sl, textPrefix);
    CommonEndsExact(xl, xr);
    TakeTake(restL, |restL| - sl, pl);
    TakeTake(restR, |restR| - sl, pl);
  }

  lemma TakeTake(x: string, n: nat, k: nat)
    requires k <= n <= |x|
    ensures x[..n][..k] == x[..k]
  {
  }

  /** The character-level step moves common text outwards and loses none; the two closing rules keep that. */
  lemma FinishGood(left: string, right: string, prefix: string, suffix: string,
                   restL: string, restR: string, textPrefix: bool, textSuffix: bool)
    requires Splits(left, right, prefix, suffix, restL, restR)
    ensures Rebuilds(left, right, Finish(left, right, prefix, suffix, restL, restR, textPrefix, textSuffix))
  {
    var sl := SuffixLen(restL, restR, textSuffix);
    var pl := PrefixLen(restL, restR, sl, textPrefix);
    SuffixCommon(restL, restR, textSuffix);
    PrefixCommon(restL, restR, sl, textPrefix);
    CarveGood(left, right, prefix, suffix, restL, restR, pl, sl);
    SettleGood(left, right, Carve(prefix, suffix, restL, restR, pl, sl));
  }

  lemma SettleGood(left: string, right: string, s: Split)
    requires Rebuilds(left, right, s)
    ensures Rebuilds(left, right, Settle(left, right, s))
  {
    assert left + "" + "" == left;
    if left <= right {
      assert left + right[|left|..] + "" == right;
    }
  }

  lemma FinishEmptyLeft(left: string, right: string, prefix: string, suffix: string, restR: string,
                        textPrefix: bool, textSuffix: bool)
    ensures Finish(left, right, prefix, suffix, "", restR, textPrefix, textSuffix) ==
            Settle(left, right, Split(prefix, suffix, "", restR))
  {
    assert prefix + "" == prefix && "" + suffix == suffix && restR[0..|restR|] == restR;
  }

  lemma FinishEmptyRight(left: string, right: string, prefix: string, suffix: string, restL: string,
                         textPrefix: bool, textSuffix: bool)
    ensures Finish(left, right, prefix, suffix, restL, "", textPrefix, textSuffix) ==
            Settle(left, right, Split(prefix, suffix, restL, ""))
  {
    assert prefix + "" == prefix && "" + suffix == suffix && restL[0..|restL|] == restL;
  }

  /** Nothing left of either side: only equal inputs are rebuilt. */
  lemma NothingLeft(left: string, right: string, prefix: string, suffix: string, textPrefix: bool, textSuffix: bool)
    ensures Rebuilds(left, right, Finish(left, right, prefix, suffix, "", "", textPrefix, textSuffix))
            <==> left == right
  {
    FinishEmptyLeft(left, right, prefix, suffix, "", textPrefix, textSuffix);
    assert left + "" + "" == left;
  }

  /** Too much taken from left: only the prefix rule can mend it. */
  lemma LeftOvertaken(left: string, right: string, prefix: string, suffix: string, restR: string,
                      textPrefix: bool, textSuffix: bool)
    requires |prefix| + |suffix| > |left| && restR != ""
    ensures Rebuilds(left, right, Finish(left, right, prefix, suffix, "", restR, textPrefix, textSuffix)) <==>
            left <= right
  {
    FinishEmptyLeft(left, right, prefix, suffix, restR, textPrefix, textSuffix);
    if left <= right {
      assert left + "" + "" == left && left + right[|left|..] + "" == right;
    } else {
      assert |prefix + "" + suffix| > |left|;
    }
  }

  /** Too much taken from right: nothing mends it. */
  lemma RightOvertaken(left: string, right: string, prefix: string, suffix: string, restL: string,
                       textPrefix: bool, textSuffix: bool)
    requires |prefix| + |suffix| > |right| && restL != ""
    ensures !Rebuilds(left, right, Finish(left, right, prefix, suffix, restL, "", textPrefix, textSuffix))
  {
    FinishEmptyRight(left, right, prefix, suffix, restL, textPrefix, textSuffix);
    assert |prefix + "" + suffix| > |right|;
  }

  lemma ConcatHalves(S: seq<Segment>, k: nat)
    requires k <= |S|
    ensures Concat(S) == Concat(S[..k]) + Concat(S[k..])
  {
    assert S == S[..k] + S[k..];
    ConcatAppend(S[..k], S[k..]);
  }

  lemma Parts(S: seq<Segment>, a: nat, b: nat)
    requires a <= b <= |S|
    ensures Concat(S) == Concat(S[..a]) + Concat(S[a..b]) + Concat(S[b..])
  {
    ConcatHalves(S, b);
    ConcatHalves(S[..b], a);
    assert S[..b][..a] == S[..a] && S[..b][a..] == S[a..b];
  }

  lemma RestParts(S: seq<Segment>, start: nat, end: nat, consumed: bool)
    requires start <= end < |S|
    ensures Concat(S) == Concat(S[..start]) + Concat(Rest(S, start, end, consumed)) + Concat(Taken(S, end, consumed))
  {
    Parts(S, start, if consumed then end else end + 1);
  }

  /** Before the fix-up the walk has lost nothing. */
  lemma BaseSplits(L: seq<Segment>, R: seq<Segment>, c: Cursors)
    requires Aligned(L, R, c)
    ensures Splits(Concat(L), Concat(R), Concat(L[..c.ls]), Concat(Taken(L, c.le, c.lc)),
                   Concat(Rest(L, c.ls, c.le, c.lc)), Concat(Rest(R, c.rs, c.re, c.rc)))
  {
    RestParts(L, c.ls, c.le, c.lc);
    RestParts(R, c.rs, c.re, c.rc);
  }

  lemma ConcatOne(seg: Segment)
    ensures Concat([seg]) == seg.value
  {
    assert seg.value + "" == seg.value;
  }

  lemma RestFront(S: seq<Segment>, start: nat, end: nat)
    requires start <= end < |S|
    ensures Concat(S[start..end + 1]) == S[start].value + Concat(S[start + 1..end + 1])
  {
    assert S[start..end + 1] == [S[start]] + S[start + 1..end + 1];
    ConcatAppend([S[start]], S[start + 1..end + 1]);
    ConcatOne(S[start]);
  }

  lemma RestBack(S: seq<Segment>, start: nat, end: nat)
    requires start <= end < |S|
    ensures Concat(S[start..end + 1]) == Concat(S[start..end]) + S[end].value
  {
    assert S[start..end + 1] == S[start..end] + [S[end]];
    ConcatAppend(S[start..end], [S[end]]);
    ConcatOne(S[end]);
  }

  lemma MoveFront(left: string, right: string, p: string, s: string, x: string, a: string, b: string)
    requires Splits(left, right, p, s, x + a, x + b)
    ensures Splits(left, right, p + x, "" + s, a, b)
  {
    assert (p + x) + a + ("" + s) == p + (x + a) + s;
    assert (p + x) + b + ("" + s) == p + (x + b) + s;
  }

  lemma MoveBack(left: string, right: string, p: string, s: string, x: string, a: string, b: string)
    requires Splits(left, right, p, s, a + x, b + x)
    ensures Splits(left, right, p + "", x + s, a, b)
  {
    assert (p + "") + a + (x + s) == p + (a + x) + s;
    assert (p + "") + b + (x + s) == p + (b + x) + s;
  }

  lemma MoveNone(left: string, right: string, p: string, s: string, a: string, b: string)
    requires Splits(left, right, p, s, a, b)
    ensures Splits(left, right, p + "", "" + s, a, b)
  {
    assert p + "" == p && "" + s == s;
  }

  // ---- the fix-up, case by case

  function PrefixOf(L: seq<Segment>, R: seq<Segment>, c: Cursors): string
    requires InRange(L, R, c)
  {
    Concat(L[..c.ls]) + FixUp(L, R, c).prefix
  }

  function SuffixOf(L: seq<Segment>, R: seq<Segment>, c: Cursors): string
    requires InRange(L, R, c)
  {
    FixUp(L, R, c).suffix + Concat(Taken(L, c.le, c.lc))
  }

  function RestL(L: seq<Segment>, R: seq<Segment>, c: Cursors): string
    requires InRange(L, R, c)
  {
    var f := FixUp(L, R, c).c;
    Concat(Rest(L, f.ls, f.le, f.lc))
  }

  function RestR(L: seq<Segment>, R: seq<Segment>, c: Cursors): string
    requires InRange(L, R, c)
  {
    var f := FixUp(L, R, c).c;
    Concat(Rest(R, f.rs, f.re, f.rc))
  }

  lemma OneSegment(S: seq<Segment>, i: nat)
    requires i < |S|
    ensures Concat(S[i..i + 1]) == S[i].value && Concat(S[i..i]) == ""
  {
    assert S[i..i + 1] == [S[i]];
    ConcatOne(S[i]);
  }

  /** Unless a segment is taken twice, the fix-up loses nothing either. */
  lemma FixUpSplits(L: seq<Segment>, R: seq<Segment>, c: Cursors)
    requires Aligned(L, R, c) && !TakenTwice(L, R, c) && !(c.lc && c.rc)
    ensures Splits(Concat(L), Concat(R), PrefixOf(L, R, c), SuffixOf(L, R, c), RestL(L, R, c), RestR(L, R, c))
  {
    BaseSplits(L, R, c);
    var p, s := Concat(L[..c.ls]), Concat(Taken(L, c.le, c.lc));
    if c.ls == c.le && c.rs != c.re && !c.lc && L[c.ls] == R[c.re] {
      LeftMeetsBack(L, R, c);
      MoveBack(Concat(L), Concat(R), p, s, R[c.re].value, "", Concat(R[c.rs..c.re]));
    } else if c.ls == c.le && c.rs != c.re && !c.lc && L[c.ls] == R[c.rs] {
      LeftMeetsFront(L, R, c);
      MoveFront(Concat(L), Concat(R), p, s, R[c.rs].value, "", Concat(R[c.rs + 1..c.re + 1]));
    } else if c.rs == c.re && c.ls != c.le && !c.rc && L[c.le] == R[c.rs] {
      RightMeetsBack(L, R, c);
      MoveBack(Concat(L), Concat(R), p, s, L[c.le].value, Concat(L[c.ls..c.le]), "");
    } else if c.rs == c.re && c.ls != c.le && !c.rc && L[c.ls] == R[c.rs] {
      RightMeetsFront(L, R, c);
      MoveFront(Concat(L), Concat(R), p, s, L[c.ls].value, Concat(L[c.ls + 1..c.le + 1]), "");
    } else if c.ls == c.le && c.rs == c.re && !c.lc && !c.rc && L[c.ls] == R[c.rs] && L[c.ls].kind == Marker {
      BothMeet(L, R, c);
      MoveFront(Concat(L), Concat(R), p, s, L[c.ls].value, "", "");
    } else {
      NoneMeet(L, R, c);
      MoveNone(Concat(L), Concat(R), p, s,
               Concat(Rest(L, c.ls, c.le, c.lc)), Concat(Rest(R, c.rs, c.re, c.rc)));
    }
  }

  lemma NoneMeet(L: seq<Segment>, R: seq<Segment>, c: Cursors)
    requires InRange(L, R, c) && FixUp(L, R, c) == Ends(c, "", "")
    ensures PrefixOf(L, R, c) == Concat(L[..c.ls]) + "" && SuffixOf(L, R, c) == "" + Concat(Taken(L, c.le, c.lc))
    ensures RestL(L, R, c) == Concat(Rest(L, c.ls, c.le, c.lc)) && RestR(L, R, c) == Concat(Rest(R, c.rs, c.re, c.rc))
  {
  }

  lemma LeftMeetsBack(L: seq<Segment>, R: seq<Segment>, c: Cursors)
    requires InRange(L, R, c) && c.ls == c.le && c.rs != c.re && !c.lc && !c.rc && L[c.ls] == R[c.re]
    ensures var x, b := R[c.re].value, Concat(R[c.rs..c.re]);
            && PrefixOf(L, R, c) == Concat(L[..c.ls]) + "" && SuffixOf(L, R, c) == x + Concat(Taken(L, c.le, c.lc))
            && RestL(L, R, c) == "" && RestR(L, R, c) == b
            && Concat(Rest(L, c.ls, c.le, c.lc)) == "" + x && Concat(Rest(R, c.rs, c.re, c.rc)) == b + x
  {
    OneSegment(L, c.ls);
    RestBack(R, c.rs, c.re);
    var f := FixUp(L, R, c).c;
    assert Rest(R, f.rs, f.re, f.rc) == R[c.rs..c.re];
    assert Rest(L, f.ls, f.le, f.lc) == L[c.ls..c.ls];
  }

  lemma LeftMeetsFront(L: seq<Segment>, R: seq<Segment>, c: Cursors)
    requires InRange(L, R, c) && c.ls == c.le && c.rs != c.re && !c.lc && !c.rc
    requires L[c.ls] != R[c.re] && L[c.ls] == R[c.rs]
    ensures var x, b := R[c.rs].value, Concat(R[c.rs + 1..c.re + 1]);
            && PrefixOf(L, R, c) == Concat(L[..c.ls]) + x && SuffixOf(L, R, c) == "" + Concat(Taken(L, c.le, c.lc))
            && RestL(L, R, c) == "" && RestR(L, R, c) == b
            && Concat(Rest(L, c.ls, c.le, c.lc)) == x + "" && Concat(Rest(R, c.rs, c.re, c.rc)) == x + b
  {
    OneSegment(L, c.ls);
    RestFront(R, c.rs, c.re);
    var f := FixUp(L, R, c).c;
    assert Rest(R, f.rs, f.re, f.rc) == R[c.rs + 1..c.re + 1];
    assert Rest(L, f.ls, f.le, f.lc) == L[c.ls..c.ls];
  }

  lemma RightMeetsBack(L: seq<Segment>, R: seq<Segment>, c: Cursors)
    requires InRange(L, R, c) && c.rs == c.re && c.ls != c.le && !c.lc && !c.rc && L[c.le] == R[c.rs]
    ensures var x, a := L[c.le].value, Concat(L[c.ls..c.le]);
            && PrefixOf(L, R, c) == Concat(L[..c.ls]) + "" && SuffixOf(L, R, c) == x + Concat(Taken(L, c.le, c.lc))
            && RestL(L, R, c) == a && RestR(L, R, c) == ""
            && Concat(Rest(L, c.ls, c.le, c.lc)) == a + x && Concat(Rest(R, c.rs, c.re, c.rc)) == "" + x
  {
    OneSegment(R, c.rs);
    RestBack(L, c.ls, c.le);
    var f := FixUp(L, R, c).c;
    assert f.le + 1 == c.le && f.ls == c.ls && !f.lc && f.rc;
    assert Rest(L, f.ls, f.le, f.lc) == L[c.ls..c.le];
    assert Rest(R, f.rs, f.re, f.rc) == R[c.rs..c.rs];
  }

  lemma RightMeetsFront(L: seq<Segment>, R: seq<Segment>, c: Cursors)
    requires InRange(L, R, c) && c.rs == c.re && c.ls != c.le && !c.lc && !c.rc
    requires L[c.le] != R[c.rs] && L[c.ls] == R[c.rs]
    ensures var x, a := L[c.ls].value, Concat(L[c.ls + 1..c.le + 1]);
            && PrefixOf(L, R, c) == Concat(L[..c.ls]) + x && SuffixOf(L, R, c) == "" + Concat(Taken(L, c.le, c.lc))
            && RestL(L, R, c) == a && RestR(L, R, c) == ""
            && Concat(Rest(L, c.ls, c.le, c.lc)) == x + a && Concat(Rest(R, c.rs, c.re, c.rc)) == x + ""
  {
    OneSegment(R, c.rs);
    RestFront(L, c.ls, c.le);
    var f := FixUp(L, R, c).c;
    assert Rest(L, f.ls, f.le, f.lc) == L[c.ls + 1..c.le + 1];
    assert Rest(R, f.rs, f.re, f.rc) == R[c.rs..c.rs];
  }

  lemma BothMeet(L: seq<Segment>, R: seq<Segment>, c: Cursors)
    requires InRange(L, R, c) && c.ls == c.le && c.rs == c.re && !c.lc && !c.rc
    requires L[c.ls] == R[c.rs] && L[c.ls].kind == Marker
    ensures var x := L[c.ls].value;
            && PrefixOf(L, R, c) == Concat(L[..c.ls]) + x && SuffixOf(L, R, c) == "" + Concat(Taken(L, c.le, c.lc))
            && RestL(L, R, c) == "" && RestR(L, R, c) == ""
            && Concat(Rest(L, c.ls, c.le, c.lc)) == x + "" && Concat(Rest(R, c.rs, c.re, c.rc)) == x + ""
  {
    OneSegment(L, c.ls);
    OneSegment(R, c.rs);
    var f := FixUp(L, R, c).c;
    assert Rest(L, f.ls, f.le, f.lc) == L[c.ls..c.ls];
    assert Rest(R, f.rs, f.re, f.rc) == R[c.rs..c.rs];
  }

  ghost predicate AllNonEmpty(S: seq<Segment>) {
    forall i :: 0 <= i < |S| ==> S[i].value != ""
  }

  lemma RestNonEmpty(S: seq<Segment>, a: nat, b: nat)
    requires a < b <= |S| && AllNonEmpty(S)
    ensures Concat(S[a..b]) != ""
  {
    assert S[a..b][0] == S[a];
  }

  /** Left was used up by the walk and its last segment is found again on the right. */
  lemma LeftTwice(L: seq<Segment>, R: seq<Segment>, c: Cursors)
    requires Aligned(L, R, c) && TakenTwice(L, R, c) && c.lc && c.rs != c.re && AllNonEmpty(L) && AllNonEmpty(R)
    ensures RestL(L, R, c) == "" && RestR(L, R, c) != ""
    ensures |PrefixOf(L, R, c)| + |SuffixOf(L, R, c)| > |Concat(L)|
  {
    LeftTwiceRests(L, R, c);
    LeftWhole(L, R, c);
    var f := FixUp(L, R, c);
    assert |f.prefix| + |f.suffix| == |L[c.ls].value|;
    assert L[c.ls].value != "";
  }

  lemma LeftWhole(L: seq<Segment>, R: seq<Segment>, c: Cursors)
    requires Aligned(L, R, c) && c.lc
    ensures |Concat(L)| == |Concat(L[..c.ls])| + |Concat(Taken(L, c.le, c.lc))|
  {
    BaseSplits(L, R, c);
    OneSegment(L, c.ls);
  }

  lemma LeftTwiceRests(L: seq<Segment>, R: seq<Segment>, c: Cursors)
    requires InRange(L, R, c) && TakenTwice(L, R, c) && c.lc && c.ls == c.le && c.rs != c.re
    requires AllNonEmpty(L) && AllNonEmpty(R)
    ensures RestL(L, R, c) == "" && RestR(L, R, c) != ""
  {
    OneSegment(L, c.ls);
    var f := FixUp(L, R, c).c;
    assert Rest(L, f.ls, f.le, f.lc) == L[c.ls..c.ls];
    if L[c.ls] == R[c.re] {
      RestNonEmpty(R, c.rs, c.re);
      assert Rest(R, f.rs, f.re, f.rc) == R[c.rs..c.re];
    } else {
      RestNonEmpty(R, c.rs + 1, c.re + 1);
      assert Rest(R, f.rs, f.re, f.rc) == R[c.rs + 1..c.re + 1];
    }
  }

  lemma RightWhole(L: seq<Segment>, R: seq<Segment>, c: Cursors)
    requires Aligned(L, R, c) && c.rc
    ensures |Concat(R)| == |Concat(L[..c.ls])| + |Concat(Taken(L, c.le, c.lc))|
  {
    BaseSplits(L, R, c);
    OneSegment(R, c.rs);
  }

  lemma RightTwiceRests(L: seq<Segment>, R: seq<Segment>, c: Cursors)
    requires InRange(L, R, c) && TakenTwice(L, R, c) && c.rc && c.ls != c.le && c.rs == c.re
    requires AllNonEmpty(L) && AllNonEmpty(R)
    ensures RestR(L, R, c) == "" && RestL(L, R, c) != ""
  {
    OneSegment(R, c.rs);
    var f := FixUp(L, R, c).c;
    assert Rest(R, f.rs, f.re, f.rc) == R[c.rs..c.rs];
    if L[c.le] == R[c.rs] {
      RestNonEmpty(L, c.ls, c.le);
      assert Rest(L, f.ls, f.le, f.lc) == L[c.ls..c.le];
    } else {
      RestNonEmpty(L, c.ls + 1, c.le + 1);
      assert Rest(L, f.ls, f.le, f.lc) == L[c.ls + 1..c.le + 1];
    }
  }

  /** Right was used up by the walk and its last segment is found again on the left. */
  lemma RightTwice(L: seq<Segment>, R: seq<Segment>, c: Cursors)
    requires Aligned(L, R, c) && TakenTwice(L, R, c) && c.rc && c.ls != c.le && AllNonEmpty(L) && AllNonEmpty(R)
    ensures RestR(L, R, c) == "" && RestL(L, R, c) != ""
    ensures |PrefixOf(L, R, c)| + |SuffixOf(L, R, c)| > |Concat(R)|
  {
    RightTwiceRests(L, R, c);
    RightWhole(L, R, c);
    var f := FixUp(L, R, c);
    assert |f.prefix| + |f.suffix| == |R[c.rs].value|;
    assert R[c.rs].value != "";
  }

  /** Both sides are used up, one of them twice over: the inputs differ by that segment. */
  lemma LastTwice(L: seq<Segment>, R: seq<Segment>, c: Cursors)
    requires Aligned(L, R, c) && TakenTwice(L, R, c) && c.ls == c.le && c.rs == c.re
    ensures RestL(L, R, c) == "" && RestR(L, R, c) == "" && |L| != |R|
  {
    OneSegment(L, c.ls);
    OneSegment(R, c.rs);
    assert |Taken(L, c.le, c.lc)| == |Taken(R, c.re, c.rc)|;
  }

  lemma BothConsumed(L: seq<Segment>, R: seq<Segment>, c: Cursors)
    requires Aligned(L, R, c) && c.lc && c.rc
    ensures RestL(L, R, c) == "" && RestR(L, R, c) == "" && Concat(L) == Concat(R)
  {
    BaseSplits(L, R, c);
    OneSegment(L, c.ls);
    OneSegment(R, c.rs);
  }

  lemma SegmentsNonEmpty(text: string)
    ensures AllNonEmpty(Segmentize(text)) && Concat(Segmentize(text)) == text
  {
    SegmentationExact(Segmentize(text), text);
    forall i | 0 <= i < |Segmentize(text)|
      ensures Segmentize(text)[i].value != ""
    {
      ShapedNonEmpty(Segmentize(text), i);
    }
  }

  lemma WalkedSplit(L: seq<Segment>, R: seq<Segment>, c: Cursors, left: string, right: string,
                    textPrefix: bool, textSuffix: bool)
    requires Aligned(L, R, c) && AllNonEmpty(L) && AllNonEmpty(R) && Concat(L) == left && Concat(R) == right
    requires |L| != |R| ==> left != right
    ensures Rebuilds(left, right, Finish(left, right, PrefixOf(L, R, c), SuffixOf(L, R, c),
                                         RestL(L, R, c), RestR(L, R, c), textPrefix, textSuffix)) <==>
            !(TakenTwice(L, R, c) && !(c.lc && c.rs != c.re && left <= right))
  {
    var p, s, a, b := PrefixOf(L, R, c), SuffixOf(L, R, c), RestL(L, R, c), RestR(L, R, c);
    if c.lc && c.rc {
      BothConsumed(L, R, c);
      NothingLeft(left, right, p, s, textPrefix, textSuffix);
    } else if !TakenTwice(L, R, c) {
      FixUpSplits(L, R, c);
      FinishGood(left, right, p, s, a, b, textPrefix, textSuffix);
    } else if c.ls == c.le && c.rs == c.re {
      LastTwice(L, R, c);
      NothingLeft(left, right, p, s, textPrefix, textSuffix);
    } else if c.lc {
      LeftTwice(L, R, c);
      LeftOvertaken(left, right, p, s, b, textPrefix, textSuffix);
    } else {
      RightTwice(L, R, c);
      RightOvertaken(left, right, p, s, a, textPrefix, textSuffix);
    }
  }

  /** The four parts rebuild both inputs if and only if no segment is taken twice unmended. */
  lemma DiffRebuildsExactly(left: string, right: string)
    ensures Rebuilds(left, right, DiffOf(left, right)) <==> !Rematches(left, right)
  {
    var L, R := Segmentize(left), Segmentize(right);
    SegmentsNonEmpty(left);
    SegmentsNonEmpty(right);
    if L == [] || R == [] {
      assert "" + left + "" == left && "" + right + "" == right;
    } else {
      var c := Walk(L, R, Start(L, R));
      WalkAligned(L, R, Start(L, R));
      var f := FixUp(L, R, c).c;
      WalkedSplit(L, R, c, left, right, L[f.ls].kind == Plain && R[f.rs].kind == Plain,
                  L[f.le].kind == Plain && R[f.re].kind == Plain);
    }
  }

  ghost predicate NoRepeats(S: seq<Segment>) {
    forall i, j :: 0 <= i < j < |S| ==> S[i] != S[j]
  }

  /** In particular the split always rebuilds its inputs when neither repeats a segment. */
  lemma DistinctRebuilds(left: string, right: string)
    requires NoRepeats(Segmentize(left)) && NoRepeats(Segmentize(right))
    ensures Rebuilds(left, right, DiffOf(left, right))
  {
    var L, R := Segmentize(left), Segmentize(right);
    if L != [] && R != [] {
      var c := Walk(L, R, Start(L, R));
      WalkAligned(L, R, Start(L, R));
      NeverTwice(L, R, c);
    }
    DiffRebuildsExactly(left, right);
  }

  lemma NeverTwice(L: seq<Segment>, R: seq<Segment>, c: Cursors)
    requires Aligned(L, R, c) && NoRepeats(L) && NoRepeats(R)
    ensures !TakenTwice(L, R, c)
  {
    if c.lc && !c.rc {
      assert Taken(L, c.le, c.lc)[0] == L[c.ls];
      assert R[c.re + 1] == L[c.ls];
    } else if c.rc && !c.lc {
      assert Taken(R, c.re, c.rc)[0] == R[c.rs];
      assert L[c.le + 1] == R[c.rs];
    }
  }

  lemma RepeatedMarkerSegments()
    ensures var (a, x) := (Segment(Marker, "<a>"), Segment(Marker, "<x>"));
            Segmentize("<a><x>") == [a, x] && Segmentize("<a><x><x>") == [a, x, x]
  {
    var a, x := Segment(Marker, "<a>"), Segment(Marker, "<x>");
    var L, R := [a, x], [a, x, x];
    assert ClosedMarker(a.value) && ClosedMarker(x.value);
    ShapedLast(x);
    ShapedCons(x, [x]);
    ShapedCons(a, [x]);
    ShapedCons(a, [x, x]);
    assert [a] + [x] == L && [a] + [x, x] == R && [x] + [x] == [x, x];
    assert [x, x][1..] == [x] && L[1..] == [x] && R[1..] == [x, x];
    ConcatOne(x);
    assert Concat([x, x]) == "<x><x>" && Concat(L) == "<a><x>" && Concat(R) == "<a><x><x>";
    SegmentationExact(L, "<a><x>");
    SegmentationExact(R, "<a><x><x>");
  }

  /** An input on which the law fails: one more closing marker on the right is not noticed. */
  lemma RepeatedMarkerLost()
    ensures Rematches("<a><x>", "<a><x><x>")
    ensures !Rebuilds("<a><x>", "<a><x><x>", DiffOf("<a><x>", "<a><x><x>"))
  {
    RepeatedMarkerSegments();
    var L, R := Segmentize("<a><x>"), Segmentize("<a><x><x>");
    var c0, c := Start(L, R), Cursors(1, 1, 1, 1, true, false);
    assert Round(L, R, c0) == c;
    assert Walk(L, R, c0) == c;
    DiffRebuildsExactly("<a><x>", "<a><x><x>");
  }
}
