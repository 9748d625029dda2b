/** The byte-pair merge loop of convert_hf_to_gguf.py and the merge list the converter derives
    from a table of mergeable ranks. */
module Bpe {

  import opened Wrappers

  type Bytes = seq<Byte>
  type Ranks = map<Bytes, int>

  function Concat(parts: seq<Bytes>): Bytes {
    if parts == [] then [] else parts[0] + Concat(parts[1..])
  }

  function Singles(token: Bytes): (parts: seq<Bytes>)
    ensures |parts| == |token|
  {
    seq(|token|, i requires 0 <= i < |token| => [token[i]])
  }

  function PairRank(ranks: Ranks, parts: seq<Bytes>, i: nat): Option<int>
    requires i + 1 < |parts|
  {
    var pair := parts[i] + parts[i + 1];
    if pair in ranks then Some(ranks[pair]) else None
  }

  /** `i` is the leftmost pair of lowest rank among the first `k`. */
  predicate IsBest(ranks: Ranks, parts: seq<Bytes>, k: nat, i: nat)
    requires k < |parts| || k == 0
  {
    && i < k && PairRank(ranks, parts, i).Some?
    && (forall j: nat :: j < k && PairRank(ranks, parts, j).Some? ==>
          PairRank(ranks, parts, i).value <= PairRank(ranks, parts, j).value)
    && (forall j: nat :: j < i && PairRank(ranks, parts, j).Some? ==>
          PairRank(ranks, parts, i).value < PairRank(ranks, parts, j).value)
  }

  predicate NoPair(ranks: Ranks, parts: seq<Bytes>, k: nat)
    requires k < |parts| || k == 0
  {
    forall j: nat :: j < k ==> PairRank(ranks, parts, j).None?
  }

  function PairCount(parts: seq<Bytes>): nat {
    if parts == [] then 0 else |parts| - 1
  }

  /** The pair to merge next, if any. */
  function Best(ranks: Ranks, parts: seq<Bytes>, k: nat): (r: Option<nat>)
    requires k <= PairCount(parts)
    ensures r.None? <==> NoPair(ranks, parts, k)
    ensures r.Some? ==> IsBest(ranks, parts, k, r.value)
  {
    if k == 0 then None
    else
      var r := Best(ranks, parts, k - 1);
      var rank := PairRank(ranks, parts, k - 1);
      if rank.Some? && (r.None? || rank.value < PairRank(ranks, parts, r.value).value) then Some(k - 1) else r
  }

  function MergeAt(parts: seq<Bytes>, i: nat): seq<Bytes>
    requires i + 1 < |parts|
  {
    parts[..i] + [parts[i] + parts[i + 1]] + parts[i + 2..]
  }

  predicate Reached(bound: Option<int>, rank: int) {
    bound.Some? && rank >= bound.value
  }

  /** Merging until no pair is in the table, or the lowest rank reaches the bound. */
  function Merged(ranks: Ranks, parts: seq<Bytes>, bound: Option<int>): seq<Bytes>
    decreases |parts|
  {
    var best := Best(ranks, parts, PairCount(parts));
    if best.None? || Reached(bound, PairRank(ranks, parts, best.value).value) then parts
    else Merged(ranks, MergeAt(parts, best.value), bound)
  }

  method FindBest(ranks: Ranks, parts: seq<Bytes>) returns (minIdx: Option<nat>, minRank: Option<int>)
    ensures minIdx == Best(ranks, parts, PairCount(parts))
    ensures minIdx.Some? ==> minRank == PairRank(ranks, parts, minIdx.value)
    ensures minIdx.None? ==> minRank.None?
  {
    minIdx, minRank := None, None;
    for i := 0 to PairCount(parts)
      invariant minIdx == Best(ranks, parts, i)
      invariant minIdx.Some? ==> minRank == PairRank(ranks, parts, minIdx.value)
      invariant minIdx.None? ==> minRank.None?
    {
      var pair := parts[i] + parts[i + 1];
      if pair in ranks && (minRank.None? || ranks[pair] < minRank.value) {
        minIdx, minRank := Some(i), Some(ranks[pair]);
      }
    }
  }

  method Split(ranks: Ranks, token: Bytes, maxRank: Option<int>) returns (parts: seq<Bytes>)
    ensures parts == Merged(ranks, Singles(token), maxRank)
  {
    parts := Singles(token);
    while true
      invariant Merged(ranks, parts, maxRank) == Merged(ranks, Singles(token), maxRank)
      decreases |parts|
    {
      var minIdx, minRank := FindBest(ranks, parts);
      if minRank.None? || (maxRank.Some? && minRank.value >= maxRank.value) {
        break;
      }
      parts := parts[..minIdx.value] + [parts[minIdx.value] + parts[minIdx.value + 1]] + parts[minIdx.value + 2..];
    }
  }

  // ---------------------------------------------------------------- conservation

  lemma {:induction false} ConcatAppend(a: seq<Bytes>, b: seq<Bytes>)
    ensures Concat(a + b) == Concat(a) + Concat(b)
  {
    if a == [] {
      assert a + b == b;
    } else {
      assert (a + b)[1..] == a[1..] + b;
      ConcatAppend(a[1..], b);
    }
  }

  lemma ConcatHead(x: Bytes, rest: seq<Bytes>)
    ensures Concat([x] + rest) == x + Concat(rest)
  {
    assert ([x] + rest)[1..] == rest;
  }

  /** The bytes of all parts, around the pair at `i`. */
  lemma AroundPair(parts: seq<Bytes>, i: nat)
    requires i + 1 < |parts|
    ensures Concat(parts) == Concat(parts[..i]) + (parts[i] + (parts[i + 1] + Concat(parts[i + 2..])))
  {
    var x, y, rest := parts[i], parts[i + 1], parts[i + 2..];
    assert parts == parts[..i] + ([x] + ([y] + rest));
    ConcatAppend(parts[..i], [x] + ([y] + rest));
    ConcatHead(x, [y] + rest);
    ConcatHead(y, rest);
  }

  lemma AroundMerged(before: seq<Bytes>, z: Bytes, rest: seq<Bytes>)
    ensures Concat(before + [z] + rest) == Concat(before) + (z + Concat(rest))
  {
    assert before + [z] + rest == before + ([z] + rest);
    ConcatAppend(before, [z] + rest);
    ConcatHead(z, rest);
  }

  lemma Regroup(a: Bytes, x: Bytes, y: Bytes, b: Bytes)
    ensures a + (x + (y + b)) == a + ((x + y) + b)
  {
    assert x + (y + b) == (x + y) + b;
  }

  lemma MergeKeepsBytes(parts: seq<Bytes>, i: nat)
    requires i + 1 < |parts|
    ensures Concat(MergeAt(parts, i)) == Concat(parts)
  {
    AroundPair(parts, i);
    AroundMerged(parts[..i], parts[i] + parts[i + 1], parts[i + 2..]);
    Regroup(Concat(parts[..i]), parts[i], parts[i + 1], Concat(parts[i + 2..]));
  }

  lemma {:induction false} SinglesConcat(token: Bytes)
    ensures Concat(Singles(token)) == token
  {
    if token != [] {
      assert Singles(token)[1..] == Singles(token[1..]);
      SinglesConcat(token[1..]);
    }
  }

  predicate Proper(parts: seq<Bytes>) {
    forall i :: 0 <= i < |parts| ==> parts[i] != []
  }

  /** The parts always spell the same bytes, and none is ever empty. */
  lemma {:induction false} MergedKeeps(ranks: Ranks, parts: seq<Bytes>, bound: Option<int>)
    requires Proper(parts)
    ensures Concat(Merged(ranks, parts, bound)) == Concat(parts)
    ensures Proper(Merged(ranks, parts, bound))
    decreases |parts|
  {
    var best := Best(ranks, parts, PairCount(parts));
    if !(best.None? || Reached(bound, PairRank(ranks, parts, best.value).value)) {
      MergeKeepsBytes(parts, best.value);
      MergedKeeps(ranks, MergeAt(parts, best.value), bound);
    }
  }

  /** Nothing is left to merge below the bound. */
  predicate Stuck(ranks: Ranks, parts: seq<Bytes>, bound: Option<int>) {
    forall i: nat :: i + 1 < |parts| && PairRank(ranks, parts, i).Some? ==>
      Reached(bound, PairRank(ranks, parts, i).value)
  }

  lemma {:induction false} MergedIsStuck(ranks: Ranks, parts: seq<Bytes>, bound: Option<int>)
    ensures Stuck(ranks, Merged(ranks, parts, bound), bound)
    decreases |parts|
  {
    var k := PairCount(parts);
    var best := Best(ranks, parts, k);
    if best.None? {
      assert NoPair(ranks, parts, k);
    } else if Reached(bound, PairRank(ranks, parts, best.value).value) {
      assert IsBest(ranks, parts, k, best.value);
    } else {
      MergedIsStuck(ranks, MergeAt(parts, best.value), bound);
    }
  }

  lemma StuckStays(ranks: Ranks, parts: seq<Bytes>, bound: Option<int>)
    requires Stuck(ranks, parts, bound)
    ensures Merged(ranks, parts, bound) == parts
  {
    var best := Best(ranks, parts, PairCount(parts));
    if best.Some? {
      assert best.value + 1 < |parts|;
    }
  }

  // ---------------------------------------------------------------- restarting

  /** The weaker of two bounds; no bound is the weakest. */
  function Weaker(a: Option<int>, b: Option<int>): Option<int> {
    if a.None? || b.None? then None else if a.value < b.value then b else a
  }

  /** Merging up to one bound and then up to another is merging up to the weaker one, for every
      table, starting parts and pair of bounds. */
  lemma {:induction false} Restart(ranks: Ranks, parts: seq<Bytes>, first: Option<int>, second: Option<int>)
    ensures Merged(ranks, Merged(ranks, parts, first), second) == Merged(ranks, parts, Weaker(first, second))
    decreases |parts|
  {
    var best := Best(ranks, parts, PairCount(parts));
    if best.Some? {
      var rank := PairRank(ranks, parts, best.value).value;
      if !Reached(first, rank) {
        assert !Reached(Weaker(first, second), rank);
        Restart(ranks, MergeAt(parts, best.value), first, second);
      } else {
        assert Reached(second, rank) || Weaker(first, second) == second;
      }
    }
  }

  // ---------------------------------------------------------------- the split of a vocabulary entry

  lemma {:induction false} NeverWhole(ranks: Ranks, parts: seq<Bytes>, token: Bytes)
    requires token in ranks && Concat(parts) == token && |parts| >= 2
    ensures |Merged(ranks, parts, Some(ranks[token]))| >= 2
    decreases |parts|
  {
    var bound := Some(ranks[token]);
    var best := Best(ranks, parts, PairCount(parts));
    if best.Some? && !Reached(bound, PairRank(ranks, parts, best.value).value) {
      if |parts| == 2 {
        TwoConcat(parts);
      } else {
        MergeKeepsBytes(parts, best.value);
        NeverWhole(ranks, MergeAt(parts, best.value), token);
      }
    }
  }

  lemma TwoConcat(parts: seq<Bytes>)
    requires |parts| == 2
    ensures Concat(parts) == parts[0] + parts[1]
  {
    assert parts[1..][1..] == [];
    assert Concat(parts[1..]) == parts[1] + [];
  }

  /** What the converter stores for a token: its bytes merged below its own rank. */
  function SplitOf(ranks: Ranks, token: Bytes): seq<Bytes>
    requires token in ranks
  {
    Merged(ranks, Singles(token), Some(ranks[token]))
  }

  lemma SplitConcat(ranks: Ranks, token: Bytes)
    requires token in ranks
    ensures Concat(SplitOf(ranks, token)) == token && Proper(SplitOf(ranks, token))
    ensures |token| >= 2 ==> |SplitOf(ranks, token)| >= 2
  {
    SinglesConcat(token);
    MergedKeeps(ranks, Singles(token), Some(ranks[token]));
    if |token| >= 2 {
      NeverWhole(ranks, Singles(token), token);
    }
  }

  /** Unrestricted merging of the bytes reaches the token itself. */
  predicate Reachable(ranks: Ranks, token: Bytes) {
    Merged(ranks, Singles(token), None) == [token]
  }

  /** Unrestricted merging continues from the stored split. */
  lemma FromSplit(ranks: Ranks, token: Bytes)
    requires token in ranks
    ensures Merged(ranks, Singles(token), None) == Merged(ranks, SplitOf(ranks, token), None)
  {
    Restart(ranks, Singles(token), Some(ranks[token]), None);
  }

  lemma PairMerges(ranks: Ranks, parts: seq<Bytes>)
    requires |parts| == 2 && parts[0] + parts[1] in ranks
    ensures Merged(ranks, parts, None) == [parts[0] + parts[1]]
  {
    var best := Best(ranks, parts, 1);
    assert PairRank(ranks, parts, 0).Some?;
    assert best == Some(0);
    var whole := MergeAt(parts, 0);
    assert whole == [parts[0] + parts[1]];
    assert Best(ranks, whole, 0).None?;
  }

  predicate Inside(t: Bytes, token: Bytes) {
    exists i, j :: 0 <= i <= j <= |token| && t == token[i..j]
  }

  /** Every entry properly inside the token ranks below it. */
  ghost predicate RanksAbove(ranks: Ranks, token: Bytes)
    requires token in ranks
  {
    forall t :: t in ranks && Inside(t, token) && t != token ==> ranks[t] < ranks[token]
  }

  lemma ConcatNonEmpty(parts: seq<Bytes>)
    requires Proper(parts) && parts != []
    ensures Concat(parts) != []
  {
    assert parts[0] != [];
  }

  lemma PairInside(parts: seq<Bytes>, i: nat)
    requires i + 1 < |parts| && Proper(parts)
    ensures Inside(parts[i] + parts[i + 1], Concat(parts))
    ensures |parts| > 2 ==> parts[i] + parts[i + 1] != Concat(parts)
  {
    AroundPair(parts, i);
    Middle(Concat(parts[..i]), parts[i], parts[i + 1], Concat(parts[i + 2..]));
    if i > 0 {
      ConcatNonEmpty(parts[..i]);
    } else if |parts| > 2 {
      ConcatNonEmpty(parts[i + 2..]);
    }
  }

  lemma Middle(a: Bytes, x: Bytes, y: Bytes, b: Bytes)
    ensures Inside(x + y, a + (x + (y + b)))
  {
    assert (a + (x + (y + b)))[|a|..|a| + |x| + |y|] == x + y;
  }

  /** A stored split in two means the token is reachable; and a reachable token that ranks above
      the entries inside it has a split in two. */
  lemma TwoPartsExact(ranks: Ranks, token: Bytes)
    requires token in ranks && |token| >= 2
    ensures |SplitOf(ranks, token)| == 2 ==> Reachable(ranks, token)
    ensures RanksAbove(ranks, token) ==> (|SplitOf(ranks, token)| == 2 <==> Reachable(ranks, token))
  {
    var parts := SplitOf(ranks, token);
    SplitConcat(ranks, token);
    FromSplit(ranks, token);
    if |parts| == 2 {
      TwoConcat(parts);
      PairMerges(ranks, parts);
    } else if RanksAbove(ranks, token) {
      MergedIsStuck(ranks, Singles(token), Some(ranks[token]));
      forall i: nat | i + 1 < |parts|
        ensures PairRank(ranks, parts, i).None?
      {
        PairInside(parts, i);
      }
      StuckStays(ranks, parts, None);
    }
  }

  /** The ranks merged by the unrestricted loop, in order. */
  function MergeRanks(ranks: Ranks, parts: seq<Bytes>): seq<int>
    decreases |parts|
  {
    var best := Best(ranks, parts, PairCount(parts));
    if best.None? then []
    else [PairRank(ranks, parts, best.value).value] + MergeRanks(ranks, MergeAt(parts, best.value))
  }

  predicate LowUpTo(s: seq<int>, k: nat, bound: int)
    requires k <= |s|
  {
    forall i :: 0 <= i < k ==> s[i] < bound
  }

  /** The bounded loop does exactly the merges of the unrestricted one before the first at the bound. */
  lemma {:induction false} BoundedIsPrefix(ranks: Ranks, parts: seq<Bytes>, bound: int) returns (k: nat)
    ensures var all := MergeRanks(ranks, parts);
            && |Merged(ranks, parts, None)| == |parts| - |all|
            && k <= |all| && LowUpTo(all, k, bound) && (k < |all| ==> all[k] >= bound)
            && |Merged(ranks, parts, Some(bound))| == |parts| - k
    decreases |parts|
  {
    var best := Best(ranks, parts, PairCount(parts));
    if best.None? {
      k := 0;
    } else {
      var rest := MergeAt(parts, best.value);
      var j := BoundedIsPrefix(ranks, rest, bound);
      var all, rank := MergeRanks(ranks, parts), PairRank(ranks, parts, best.value).value;
      assert all[1..] == MergeRanks(ranks, rest);
      if rank >= bound {
        k := 0;
      } else {
        k := j + 1;
        assert forall i :: 0 < i < k ==> all[i] == all[1..][i - 1];
      }
    }
  }

  /** The converter's assertion holds for a token exactly when unrestricted merging reaches it and
      all merges on the way but the last rank below it. */
  lemma TwoPartsOnRun(ranks: Ranks, token: Bytes)
    requires token in ranks && |token| >= 2
    ensures |SplitOf(ranks, token)| == 2 <==>
            Reachable(ranks, token)
            && LowUpTo(MergeRanks(ranks, Singles(token)), |MergeRanks(ranks, Singles(token))| - 1, ranks[token])
  {
    SplitConcat(ranks, token);
    TwoPartsExact(ranks, token);
    var k := BoundedIsPrefix(ranks, Singles(token), ranks[token]);
  }

  /** A reachable token for which the assertion fails: it ranks below an entry inside it. */
  lemma LowTokenSplitsInThree()
    ensures var ranks: Ranks := map[[1, 2, 3] := 0, [2, 3] := 1];
            Reachable(ranks, [1, 2, 3]) && |SplitOf(ranks, [1, 2, 3])| == 3
  {
    var ranks: Ranks := map[[1, 2, 3] := 0, [2, 3] := 1];
    var parts: seq<Bytes> := [[1], [2], [3]];
    assert Singles([1, 2, 3]) == parts;
    assert [2] + [3] == [2, 3] && [1] + [2] == [1, 2];
    assert PairRank(ranks, parts, 0).None? && PairRank(ranks, parts, 1) == Some(1);
    assert Best(ranks, parts, 1).None?;
    assert Best(ranks, parts, 2) == Some(1);
    assert MergeAt(parts, 1) == [[1], [2, 3]];
    assert [1] + [2, 3] == [1, 2, 3];
    PairMerges(ranks, MergeAt(parts, 1));
  }

  // ---------------------------------------------------------------- the merge list

  predicate Lists(items: seq<(Bytes, int)>, ranks: Ranks) {
    forall i :: 0 <= i < |items| ==> items[i].0 in ranks && ranks[items[i].0] == items[i].1
  }

  /** The tokens that need a merge, in table order. */
  function LongTokens(items: seq<(Bytes, int)>): seq<Bytes> {
    if items == [] then []
    else
      var last := items[|items| - 1].0;
      LongTokens(items[..|items| - 1]) + (if |last| == 1 then [] else [last])
  }

  function Joins(merges: seq<(Bytes, Bytes)>): seq<Bytes> {
    seq(|merges|, i requires 0 <= i < |merges| => merges[i].0 + merges[i].1)
  }

  predicate Splits(ranks: Ranks, items: seq<(Bytes, int)>, k: nat)
    requires k <= |items| && Lists(items, ranks)
  {
    forall i :: 0 <= i < k && |items[i].0| != 1 ==> |SplitOf(ranks, items[i].0)| == 2
  }

  /** Joining the merges gives the multi-byte tokens back, one merge each and in order; the list
      exists exactly when each of them splits in two. */
  method BuildMerges(items: seq<(Bytes, int)>, ranks: Ranks) returns (r: Option<seq<(Bytes, Bytes)>>)
    requires Lists(items, ranks)
    ensures r.Some? <==> Splits(ranks, items, |items|)
    ensures r.Some? ==> Joins(r.value) == LongTokens(items)
    ensures r.Some? ==> forall i :: 0 <= i < |r.value| ==> r.value[i].0 != [] && r.value[i].1 != []
  {
    var merges: seq<(Bytes, Bytes)> := [];
    for k := 0 to |items|
      invariant Splits(ranks, items, k) && Joins(merges) == LongTokens(items[..k])
      invariant forall i :: 0 <= i < |merges| ==> merges[i].0 != [] && merges[i].1 != []
    {
      var (token, rank) := items[k];
      assert items[..k + 1][..k] == items[..k];
      if |token| == 1 {
        continue;
      }
      var merged := Split(ranks, token, Some(rank));
      if |merged| != 2 {
        return None;
      }
      SplitConcat(ranks, token);
      TwoConcat(merged);
      JoinsSnoc(merges, (merged[0], merged[1]));
      merges := merges + [(merged[0], merged[1])];
    }
    assert items[..|items|] == items;
    r := Some(merges);
  }

  lemma JoinsSnoc(merges: seq<(Bytes, Bytes)>, last: (Bytes, Bytes))
    ensures Joins(merges + [last]) == Joins(merges) + [last.0 + last.1]
  {
  }
}
