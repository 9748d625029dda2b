/** The reordering of tool results in deepseek_v4_sort_tool_results: within each run of user and
    tool messages the tool messages are put in the order of the latest tool calls. */
module ToolResults {

  /** `calls` holds the ids of the message's tool calls, empty when it has none. */
  datatype Message = Message(role: string, calls: seq<string>, callId: string, body: string)

  type Order = map<string, nat>

  predicate IsTool(m: Message) {
    m.role == "tool"
  }

  predicate InRun(m: Message) {
    m.role == "user" || m.role == "tool"
  }

  predicate SetsOrder(m: Message) {
    m.role == "assistant" && m.calls != []
  }

  /** The place of each id among the calls; of a repeated id the last. */
  function OrderOf(calls: seq<string>): Order {
    if calls == [] then map[]
    else
      var n := |calls| - 1;
      if calls[n] == "" then OrderOf(calls[..n]) else OrderOf(calls[..n])[calls[n] := n]
  }

  function Rank(order: Order, m: Message): nat {
    if m.callId in order then order[m.callId] else 0
  }

  // ---------------------------------------------------------------- stable sorting

  function OfRank(order: Order, s: seq<Message>, k: nat): seq<Message> {
    if s == [] then [] else (if Rank(order, s[0]) == k then [s[0]] else []) + OfRank(order, s[1..], k)
  }

  predicate Ascending(order: Order, s: seq<Message>) {
    forall i, j :: 0 <= i < j < |s| ==> Rank(order, s[i]) <= Rank(order, s[j])
  }

  /** `r` is `s` sorted, with messages of one rank in their old order. */
  ghost predicate StablySorted(order: Order, s: seq<Message>, r: seq<Message>) {
    Ascending(order, r) && forall k :: OfRank(order, r, k) == OfRank(order, s, k)
  }

  function Insert(order: Order, m: Message, s: seq<Message>): seq<Message> {
    if s == [] || Rank(order, m) <= Rank(order, s[0]) then [m] + s else [s[0]] + Insert(order, m, s[1..])
  }

  function Sorted(order: Order, s: seq<Message>): seq<Message> {
    if s == [] then [] else Insert(order, s[0], Sorted(order, s[1..]))
  }

  lemma {:induction false} InsertMultiset(order: Order, m: Message, s: seq<Message>)
    ensures multiset(Insert(order, m, s)) == multiset([m] + s)
  {
    if s != [] && Rank(order, m) > Rank(order, s[0]) {
      InsertMultiset(order, m, s[1..]);
      assert s == [s[0]] + s[1..];
    }
  }

  lemma {:induction false} InsertAscending(order: Order, m: Message, s: seq<Message>)
    requires Ascending(order, s)
    ensures Ascending(order, Insert(order, m, s))
  {
    if s != [] && Rank(order, m) > Rank(order, s[0]) {
      var rest := Insert(order, m, s[1..]);
      InsertAscending(order, m, s[1..]);
      InsertMultiset(order, m, s[1..]);
      forall i | 0 <= i < |rest|
        ensures Rank(order, s[0]) <= Rank(order, rest[i])
      {
        assert rest[i] in multiset([m] + s[1..]);
      }
      AscendingCons(order, s[0], rest);
    }
  }

  lemma AscendingCons(order: Order, m: Message, s: seq<Message>)
    requires Ascending(order, s) && forall i :: 0 <= i < |s| ==> Rank(order, m) <= Rank(order, s[i])
    ensures Ascending(order, [m] + s)
  {
  }

  lemma {:induction false} InsertOfRank(order: Order, m: Message, s: seq<Message>, k: nat)
    ensures OfRank(order, Insert(order, m, s), k) == OfRank(order, [m] + s, k)
  {
    assert ([m] + s)[1..] == s;
    if s != [] && Rank(order, m) > Rank(order, s[0]) {
      InsertOfRank(order, m, s[1..], k);
      assert Insert(order, m, s)[1..] == Insert(order, m, s[1..]);
      assert ([m] + s[1..])[1..] == s[1..];
    }
  }

  lemma {:induction false} SortedIsStable(order: Order, s: seq<Message>)
    ensures StablySorted(order, s, Sorted(order, s)) && multiset(Sorted(order, s)) == multiset(s)
  {
    if s != [] {
      var rest := Sorted(order, s[1..]);
      SortedIsStable(order, s[1..]);
      InsertMultiset(order, s[0], rest);
      InsertAscending(order, s[0], rest);
      assert s == [s[0]] + s[1..] && ([s[0]] + rest)[1..] == rest;
      forall k
        ensures OfRank(order, Sorted(order, s), k) == OfRank(order, s, k)
      {
        InsertOfRank(order, s[0], rest, k);
      }
    }
  }

  lemma {:induction false} OfRankHas(order: Order, s: seq<Message>, k: nat)
    requires OfRank(order, s, k) != []
    ensures exists i :: 0 <= i < |s| && Rank(order, s[i]) == k
  {
    if Rank(order, s[0]) != k {
      OfRankHas(order, s[1..], k);
      var i :| 0 <= i < |s[1..]| && Rank(order, s[1..][i]) == k;
      assert s[i + 1] == s[1..][i];
    }
  }

  lemma HeadRank(order: Order, a: seq<Message>, b: seq<Message>)
    requires Ascending(order, b) && a != [] && forall k :: OfRank(order, a, k) == OfRank(order, b, k)
    ensures b != [] && Rank(order, b[0]) <= Rank(order, a[0])
  {
    var k := Rank(order, a[0]);
    assert OfRank(order, a, k) != [];
    OfRankHas(order, b, k);
    var i :| 0 <= i < |b| && Rank(order, b[i]) == k;
    assert i > 0 ==> Rank(order, b[0]) <= Rank(order, b[i]);
  }

  /** There is only one stable sorting. */
  lemma {:induction false} StableUnique(order: Order, a: seq<Message>, b: seq<Message>)
    requires Ascending(order, a) && Ascending(order, b) && forall k :: OfRank(order, a, k) == OfRank(order, b, k)
    ensures a == b
  {
    if a == [] {
      if b != [] {
        HeadRank(order, b, a);
      }
    } else {
      HeadRank(order, a, b);
      HeadRank(order, b, a);
      var k := Rank(order, a[0]);
      assert OfRank(order, a, k)[0] == a[0] && OfRank(order, b, k)[0] == b[0];
      forall j
        ensures OfRank(order, a[1..], j) == OfRank(order, b[1..], j)
      {
        TailOfRank(order, a, j);
        TailOfRank(order, b, j);
      }
      StableUnique(order, a[1..], b[1..]);
      assert a == [a[0]] + a[1..] && b == [b[0]] + b[1..];
    }
  }

  lemma TailOfRank(order: Order, s: seq<Message>, k: nat)
    requires s != []
    ensures OfRank(order, s[1..], k) == OfRank(order, s, k)[if Rank(order, s[0]) == k then 1 else 0..]
  {
  }

  // ---------------------------------------------------------------- the tool messages of a run

  function Tools(s: seq<Message>): (r: seq<Message>)
    ensures |r| <= |s| && forall i :: 0 <= i < |r| ==> IsTool(r[i])
  {
    if s == [] then [] else Tools(s[..|s| - 1]) + (if IsTool(s[|s| - 1]) then [s[|s| - 1]] else [])
  }

  function Others(s: seq<Message>): seq<Message> {
    if s == [] then [] else Others(s[..|s| - 1]) + (if IsTool(s[|s| - 1]) then [] else [s[|s| - 1]])
  }

  lemma {:induction false} SplitMessages(s: seq<Message>)
    ensures multiset(s) == multiset(Tools(s)) + multiset(Others(s))
  {
    if s != [] {
      var n := |s| - 1;
      SplitMessages(s[..n]);
      assert s == s[..n] + [s[n]];
      SplitSnoc(s[..n], s[n]);
    }
  }

  lemma PartsSnoc(s: seq<Message>, m: Message)
    ensures Tools(s + [m]) == Tools(s) + (if IsTool(m) then [m] else [])
    ensures Others(s + [m]) == Others(s) + (if IsTool(m) then [] else [m])
  {
    assert (s + [m])[..|s|] == s;
  }

  lemma SplitSnoc(s: seq<Message>, m: Message)
    requires multiset(s) == multiset(Tools(s)) + multiset(Others(s))
    ensures multiset(s + [m]) == multiset(Tools(s + [m])) + multiset(Others(s + [m]))
  {
    PartsSnoc(s, m);
    Spread(s, Tools(s), Others(s), m);
    if IsTool(m) {
      assert Others(s) + [] == Others(s);
    } else {
      assert Tools(s) + [] == Tools(s);
    }
  }

  lemma Spread(s: seq<Message>, t: seq<Message>, o: seq<Message>, m: Message)
    requires multiset(s) == multiset(t) + multiset(o)
    ensures multiset(s + [m]) == multiset(t + [m]) + multiset(o)
    ensures multiset(s + [m]) == multiset(t) + multiset(o + [m])
  {
  }

  /** The tool messages of a prefix are the first tool messages. */
  lemma {:induction false} ToolsPrefix(s: seq<Message>, j: nat)
    requires j <= |s|
    ensures Tools(s[..j]) <= Tools(s)
    ensures j < |s| && IsTool(s[j]) ==> |Tools(s[..j])| < |Tools(s)| && Tools(s)[|Tools(s[..j])|] == s[j]
  {
    if j == |s| {
      assert s[..j] == s;
    } else {
      var n := |s| - 1;
      assert s[..n][..j] == s[..j];
      ToolsPrefix(s[..n], j);
    }
  }

  /** The run with its tool messages replaced, in order. */
  function Refill(run: seq<Message>, results: seq<Message>): (r: seq<Message>)
    requires |results| == |Tools(run)|
    ensures |r| == |run|
  {
    if run == [] then []
    else
      var n, k := |run| - 1, |results| - 1;
      if IsTool(run[n]) then Refill(run[..n], results[..k]) + [results[k]] else Refill(run[..n], results) + [run[n]]
  }

  lemma RefillTool(run: seq<Message>, m: Message, results: seq<Message>, x: Message)
    requires IsTool(m) && |results| == |Tools(run)|
    ensures |results + [x]| == |Tools(run + [m])| && Refill(run + [m], results + [x]) == Refill(run, results) + [x]
  {
    PartsSnoc(run, m);
    assert (run + [m])[..|run|] == run && (results + [x])[..|results|] == results;
  }

  lemma RefillOther(run: seq<Message>, m: Message, results: seq<Message>)
    requires !IsTool(m) && |results| == |Tools(run)|
    ensures |results| == |Tools(run + [m])| && Refill(run + [m], results) == Refill(run, results) + [m]
  {
    PartsSnoc(run, m);
    assert (run + [m])[..|run|] == run;
  }

  /** The run and its results without the last message of the run. */
  lemma RefillLast(run: seq<Message>, results: seq<Message>) returns (fewer: seq<Message>, x: Message)
    requires run != [] && |results| == |Tools(run)|
    ensures var n := |run| - 1;
            && |fewer| == |Tools(run[..n])| && Refill(run, results) == Refill(run[..n], fewer) + [x]
            && if IsTool(run[n]) then results == fewer + [x] else results == fewer && x == run[n]
  {
    var n, k := |run| - 1, |results| - 1;
    assert run == run[..n] + [run[n]];
    PartsSnoc(run[..n], run[n]);
    if IsTool(run[n]) {
      fewer, x := results[..k], results[k];
      assert results == fewer + [x];
      RefillTool(run[..n], run[n], fewer, x);
    } else {
      fewer, x := results, run[n];
      RefillOther(run[..n], run[n], results);
    }
  }

  /** The tool message with `k` tool messages before it becomes the `k`-th result. */
  ghost predicate RefilledAt(run: seq<Message>, results: seq<Message>, r: seq<Message>, j: nat)
    requires |r| == |run| && j < |run|
  {
    if IsTool(run[j]) then |Tools(run[..j])| < |results| && r[j] == results[|Tools(run[..j])|] else r[j] == run[j]
  }

  lemma RefilledAtSnoc(run: seq<Message>, results: seq<Message>, r: seq<Message>, m: Message, x: Message, j: nat)
    requires |r| == |run| && j < |run| && RefilledAt(run, results, r, j)
    ensures RefilledAt(run + [m], results, r + [x], j) && RefilledAt(run + [m], results + [x], r + [x], j)
  {
    assert (run + [m])[..j] == run[..j];
  }

  lemma RefilledAtLast(run: seq<Message>, results: seq<Message>, r: seq<Message>, m: Message, x: Message)
    requires |r| == |run|
    requires if IsTool(m) then |results| == |Tools(run)| + 1 && results[|results| - 1] == x else x == m
    ensures RefilledAt(run + [m], results, r + [x], |run|)
  {
    assert (run + [m])[..|run|] == run;
  }

  lemma {:induction false} RefillAt(run: seq<Message>, results: seq<Message>, j: nat)
    requires |results| == |Tools(run)| && j < |run|
    ensures RefilledAt(run, results, Refill(run, results), j)
    decreases |run|
  {
    var n := |run| - 1;
    var fewer, x := RefillLast(run, results);
    assert run == run[..n] + [run[n]];
    if j < n {
      RefillAt(run[..n], fewer, j);
      RefilledAtSnoc(run[..n], fewer, Refill(run[..n], fewer), run[n], x, j);
    } else {
      RefilledAtLast(run[..n], results, Refill(run[..n], fewer), run[n], x);
    }
  }

  /** The tool messages of `r` are the results, and its other messages are those of the run. */
  predicate Refilled(run: seq<Message>, results: seq<Message>, r: seq<Message>) {
    Tools(r) == results && Others(r) == Others(run)
  }

  lemma RefilledSnoc(run: seq<Message>, results: seq<Message>, r: seq<Message>, m: Message, x: Message)
    requires Refilled(run, results, r) && (if IsTool(m) then IsTool(x) else x == m)
    ensures Refilled(run + [m], if IsTool(m) then results + [x] else results, r + [x])
  {
    PartsSnoc(run, m);
    PartsSnoc(r, x);
  }

  predicate AllTools(s: seq<Message>) {
    forall i :: 0 <= i < |s| ==> IsTool(s[i])
  }

  lemma {:induction false} RefillParts(run: seq<Message>, results: seq<Message>)
    requires |results| == |Tools(run)| && AllTools(results)
    ensures Refilled(run, results, Refill(run, results))
    decreases |run|
  {
    if run != [] {
      var n := |run| - 1;
      var fewer, x := RefillLast(run, results);
      OnlyTools(results, fewer, x);
      RefillParts(run[..n], fewer);
      RefilledSnoc(run[..n], fewer, Refill(run[..n], fewer), run[n], x);
      assert run == run[..n] + [run[n]];
    }
  }

  lemma OnlyTools(results: seq<Message>, fewer: seq<Message>, x: Message)
    requires AllTools(results) && (results == fewer || results == fewer + [x])
    ensures AllTools(fewer) && (results == fewer + [x] ==> IsTool(x))
  {
    assert forall i :: 0 <= i < |fewer| ==> fewer[i] == results[i];
    assert results == fewer + [x] ==> results[|fewer|] == x;
  }

  // ---------------------------------------------------------------- the whole function

  function RunLength(s: seq<Message>): (n: nat)
    ensures n <= |s| && (forall i :: 0 <= i < n ==> InRun(s[i])) && (n < |s| ==> !InRun(s[n]))
  {
    if s == [] || !InRun(s[0]) then 0 else 1 + RunLength(s[1..])
  }

  function SortedRun(order: Order, run: seq<Message>): (r: seq<Message>)
    ensures |r| == |run|
  {
    SortedIsStable(order, Tools(run));
    assert |multiset(Sorted(order, Tools(run)))| == |multiset(Tools(run))|;
    Refill(run, Sorted(order, Tools(run)))
  }

  function Arrange(messages: seq<Message>, order: Order): (r: seq<Message>)
    ensures |r| == |messages|
    decreases |messages|
  {
    if messages == [] then []
    else if SetsOrder(messages[0]) then [messages[0]] + Arrange(messages[1..], OrderOf(messages[0].calls))
    else if !InRun(messages[0]) then [messages[0]] + Arrange(messages[1..], order)
    else
      var n := RunLength(messages);
      SortedRun(order, messages[..n]) + Arrange(messages[n..], order)
  }

  /** The call order in force before message `a`. */
  function OrderAt(messages: seq<Message>, a: nat, order: Order): Order
    requires a <= |messages|
  {
    if a == 0 then order
    else if SetsOrder(messages[a - 1]) then OrderOf(messages[a - 1].calls)
    else OrderAt(messages, a - 1, order)
  }

  /** A longest stretch of user and tool messages. */
  predicate IsRun(messages: seq<Message>, a: nat, b: nat) {
    && a < b <= |messages| && (forall i :: a <= i < b ==> InRun(messages[i]))
    && (a > 0 ==> !InRun(messages[a - 1])) && (b < |messages| ==> !InRun(messages[b]))
  }

  predicate SameBut(messages: seq<Message>, out: seq<Message>) {
    && |out| == |messages|
    && forall i :: 0 <= i < |out| ==>
         out[i].role == messages[i].role && (!IsTool(messages[i]) ==> out[i] == messages[i])
  }

  /** What the reordering promises: nothing but tool messages moves, roles stay in place, and the
      tool messages of every run are stably sorted by the latest call order. */
  ghost predicate Arranged(messages: seq<Message>, out: seq<Message>, order: Order) {
    SameBut(messages, out) && forall a: nat, b: nat :: IsRun(messages, a, b) ==> RunSorted(messages, out, order, a, b)
  }

  ghost predicate RunSorted(messages: seq<Message>, out: seq<Message>, order: Order, a: nat, b: nat)
    requires a <= b <= |messages| == |out|
  {
    StablySorted(OrderAt(messages, a, order), Tools(messages[a..b]), Tools(out[a..b]))
  }

  lemma {:induction false} OrderShift(messages: seq<Message>, k: nat, a: nat, order: Order)
    requires k <= a <= |messages|
    ensures OrderAt(messages, a, order) == OrderAt(messages[k..], a - k, OrderAt(messages, k, order))
  {
    if a > k {
      OrderShift(messages, k, a - 1, order);
      assert messages[k..][a - k - 1] == messages[a - 1];
    }
  }

  lemma {:induction false} OrderOverRun(messages: seq<Message>, k: nat, order: Order)
    requires k <= |messages| && forall i :: 0 <= i < k ==> !SetsOrder(messages[i])
    ensures OrderAt(messages, k, order) == order
  {
    if k > 0 {
      OrderOverRun(messages, k - 1, order);
    }
  }

  /** Arranging a part up to a run boundary and the rest arranges the whole. */
  lemma ArrangedJoin(messages: seq<Message>, k: nat, first: seq<Message>, rest: seq<Message>, order: Order)
    requires k <= |messages| && (0 < k < |messages| ==> !InRun(messages[k - 1]) || !InRun(messages[k]))
    requires Arranged(messages[..k], first, order) && Arranged(messages[k..], rest, OrderAt(messages, k, order))
    ensures Arranged(messages, first + rest, order)
  {
    var out := first + rest;
    SameButJoin(messages, k, first, rest);
    forall a: nat, b: nat | IsRun(messages, a, b)
      ensures RunSorted(messages, out, order, a, b)
    {
      if b <= k {
        RunInFirst(messages, k, a, b, order);
        assert RunSorted(messages[..k], first, order, a, b);
        assert out[a..b] == first[a..b] && messages[..k][a..b] == messages[a..b];
      } else {
        RunInRest(messages, k, a, b);
        assert RunSorted(messages[k..], rest, OrderAt(messages, k, order), a - k, b - k);
        RunJoinsRest(messages, k, first, rest, order, a, b);
      }
    }
  }

  lemma SameButJoin(messages: seq<Message>, k: nat, first: seq<Message>, rest: seq<Message>)
    requires k <= |messages| && SameBut(messages[..k], first) && SameBut(messages[k..], rest)
    ensures SameBut(messages, first + rest)
  {
    var out := first + rest;
    forall i | 0 <= i < |out|
      ensures out[i].role == messages[i].role && (!IsTool(messages[i]) ==> out[i] == messages[i])
    {
      if i >= k {
        assert messages[k..][i - k] == messages[i];
      }
    }
  }

  lemma RunJoinsRest(messages: seq<Message>, k: nat, first: seq<Message>, rest: seq<Message>, order: Order,
                     a: nat, b: nat)
    requires k <= a <= b <= |messages| && |first| == k && |rest| == |messages| - k
    requires RunSorted(messages[k..], rest, OrderAt(messages, k, order), a - k, b - k)
    ensures RunSorted(messages, first + rest, order, a, b)
  {
    OrderShift(messages, k, a, order);
    SliceOfJoin(first, rest, a, b);
    assert messages[k..][a - k..b - k] == messages[a..b];
  }

  lemma SliceOfJoin(first: seq<Message>, rest: seq<Message>, a: nat, b: nat)
    requires |first| <= a <= b <= |first| + |rest|
    ensures (first + rest)[a..b] == rest[a - |first|..b - |first|]
  {
  }

  lemma RunInFirst(messages: seq<Message>, k: nat, a: nat, b: nat, order: Order)
    requires k <= |messages| && IsRun(messages, a, b) && b <= k
    ensures IsRun(messages[..k], a, b) && OrderAt(messages[..k], a, order) == OrderAt(messages, a, order)
  {
    OrderPrefix(messages, k, a, order);
  }

  lemma {:induction false} OrderPrefix(messages: seq<Message>, k: nat, a: nat, order: Order)
    requires a <= k <= |messages|
    ensures OrderAt(messages[..k], a, order) == OrderAt(messages, a, order)
  {
    if a > 0 {
      OrderPrefix(messages, k, a - 1, order);
    }
  }

  lemma RunInRest(messages: seq<Message>, k: nat, a: nat, b: nat)
    requires k <= |messages| && (0 < k < |messages| ==> !InRun(messages[k - 1]) || !InRun(messages[k]))
    requires IsRun(messages, a, b) && b > k
    ensures a >= k && IsRun(messages[k..], a - k, b - k)
  {
    assert InRun(messages[k]) || a > k;
  }

  lemma SingleArranged(m: Message, order: Order)
    requires !InRun(m)
    ensures Arranged([m], [m], order)
  {
  }

  /** Sorting a run changes its tool messages only, and sorts them. */
  lemma SortedRunParts(run: seq<Message>, order: Order)
    ensures var out := SortedRun(order, run);
            && SameBut(run, out) && Tools(out) == Sorted(order, Tools(run)) && Others(out) == Others(run)
  {
    var tools := Tools(run);
    var results := Sorted(order, tools);
    SortedIsStable(order, tools);
    SortedTools(order, tools);
    assert |multiset(results)| == |multiset(tools)|;
    RefillParts(run, results);
    RefillSame(run, results);
  }

  lemma WholeRun(run: seq<Message>, out: seq<Message>, order: Order)
    requires forall i :: 0 <= i < |run| ==> InRun(run[i])
    requires SameBut(run, out) && StablySorted(order, Tools(run), Tools(out))
    ensures Arranged(run, out, order)
  {
    forall a: nat, b: nat | IsRun(run, a, b)
      ensures RunSorted(run, out, order, a, b)
    {
      assert a == 0 && b == |run|;
      assert run[a..b] == run && out[a..b] == out;
    }
  }

  /** A whole run, sorted. */
  lemma RunArranged(run: seq<Message>, order: Order)
    requires forall i :: 0 <= i < |run| ==> InRun(run[i])
    ensures Arranged(run, SortedRun(order, run), order)
  {
    SortedRunParts(run, order);
    SortedIsStable(order, Tools(run));
    WholeRun(run, SortedRun(order, run), order);
  }

  lemma SortedTools(order: Order, s: seq<Message>)
    requires forall i :: 0 <= i < |s| ==> IsTool(s[i])
    ensures forall i :: 0 <= i < |Sorted(order, s)| ==> IsTool(Sorted(order, s)[i])
  {
    SortedIsStable(order, s);
    forall i | 0 <= i < |Sorted(order, s)|
      ensures IsTool(Sorted(order, s)[i])
    {
      assert Sorted(order, s)[i] in multiset(s);
    }
  }

  lemma RefillSame(run: seq<Message>, results: seq<Message>)
    requires |results| == |Tools(run)| && forall i :: 0 <= i < |results| ==> IsTool(results[i])
    ensures SameBut(run, Refill(run, results))
  {
    forall i | 0 <= i < |run|
      ensures if IsTool(run[i]) then IsTool(Refill(run, results)[i]) else Refill(run, results)[i] == run[i]
    {
      RefillAt(run, results, i);
    }
  }

  /** The function keeps its promise for every conversation. */
  lemma {:induction false} ArrangeKeepsPromise(messages: seq<Message>, order: Order)
    ensures Arranged(messages, Arrange(messages, order), order)
    decreases |messages|
  {
    if messages != [] {
      var m := messages[0];
      if !InRun(m) {
        var next := OrderAt(messages, 1, order);
        assert messages[..1] == [m];
        assert next == if SetsOrder(m) then OrderOf(m.calls) else OrderAt(messages, 0, order);
        ArrangeKeepsPromise(messages[1..], next);
        SingleArranged(m, order);
        ArrangedJoin(messages, 1, [m], Arrange(messages[1..], next), order);
      } else {
        var n := RunLength(messages);
        OrderOverRun(messages, n, order);
        ArrangeKeepsPromise(messages[n..], order);
        RunArranged(messages[..n], order);
        ArrangedJoin(messages, n, SortedRun(order, messages[..n]), Arrange(messages[n..], order), order);
      }
    }
  }

  // ---------------------------------------------------------------- the promise decides the result

  function RunStart(messages: seq<Message>, i: nat): (a: nat)
    requires i < |messages| && InRun(messages[i])
    ensures a <= i && (forall j :: a <= j <= i ==> InRun(messages[j])) && (a > 0 ==> !InRun(messages[a - 1]))
  {
    if i == 0 || !InRun(messages[i - 1]) then i else RunStart(messages, i - 1)
  }

  lemma RunAround(messages: seq<Message>, i: nat) returns (a: nat, b: nat)
    requires i < |messages| && InRun(messages[i])
    ensures IsRun(messages, a, b) && a <= i < b
  {
    a, b := RunStart(messages, i), i + RunLength(messages[i..]);
    assert forall j :: i <= j < b ==> messages[j] == messages[i..][j - i];
    assert b < |messages| ==> messages[b] == messages[i..][b - i];
  }

  lemma {:induction false} ToolCount(s: seq<Message>, t: seq<Message>)
    requires |s| == |t| && forall i :: 0 <= i < |s| ==> s[i].role == t[i].role
    ensures |Tools(s)| == |Tools(t)|
  {
    if s != [] {
      ToolCount(s[..|s| - 1], t[..|t| - 1]);
    }
  }

  lemma ToolAt(s: seq<Message>, t: seq<Message>, i: nat)
    requires |s| == |t| && (forall j :: 0 <= j < |s| ==> s[j].role == t[j].role) && Tools(s) == Tools(t)
    requires i < |s| && IsTool(s[i])
    ensures s[i] == t[i]
  {
    ToolsPrefix(s, i);
    ToolsPrefix(t, i);
    ToolCount(s[..i], t[..i]);
  }

  lemma TwoStable(order: Order, s: seq<Message>, x: seq<Message>, y: seq<Message>)
    requires StablySorted(order, s, x) && StablySorted(order, s, y)
    ensures x == y
  {
    StableUnique(order, x, y);
  }

  lemma SameTools(messages: seq<Message>, x: seq<Message>, y: seq<Message>, order: Order, a: nat, b: nat)
    requires a <= b <= |messages| == |x| == |y|
    requires RunSorted(messages, x, order, a, b) && RunSorted(messages, y, order, a, b)
    ensures Tools(x[a..b]) == Tools(y[a..b])
  {
    TwoStable(OrderAt(messages, a, order), Tools(messages[a..b]), Tools(x[a..b]), Tools(y[a..b]));
  }

  lemma SameInRun(messages: seq<Message>, x: seq<Message>, y: seq<Message>, a: nat, b: nat, i: nat)
    requires SameBut(messages, x) && SameBut(messages, y) && a <= i < b <= |messages| && IsTool(messages[i])
    requires Tools(x[a..b]) == Tools(y[a..b])
    ensures x[i] == y[i]
  {
    SliceRoles(messages, x, y, a, b);
    ToolAt(x[a..b], y[a..b], i - a);
  }

  lemma SliceRoles(messages: seq<Message>, x: seq<Message>, y: seq<Message>, a: nat, b: nat)
    requires SameBut(messages, x) && SameBut(messages, y) && a <= b <= |messages|
    ensures forall j :: 0 <= j < b - a ==> x[a..b][j].role == y[a..b][j].role == messages[a + j].role
  {
  }

  /** The promise leaves only one result. */
  lemma PromiseDecides(messages: seq<Message>, x: seq<Message>, y: seq<Message>, order: Order)
    requires Arranged(messages, x, order) && Arranged(messages, y, order)
    ensures x == y
  {
    forall i | 0 <= i < |messages|
      ensures x[i] == y[i]
    {
      if IsTool(messages[i]) {
        var a, b := RunAround(messages, i);
        SameTools(messages, x, y, order, a, b);
        SameInRun(messages, x, y, a, b, i);
      }
    }
  }

  // ---- arranged conversations stay as they are

  lemma {:induction false} SameOrder(messages: seq<Message>, out: seq<Message>, a: nat, order: Order)
    requires SameBut(messages, out) && a <= |messages|
    ensures OrderAt(out, a, order) == OrderAt(messages, a, order)
  {
    if a > 0 {
      SameOrder(messages, out, a - 1, order);
    }
  }

  lemma ArrangedAgain(messages: seq<Message>, out: seq<Message>, order: Order)
    requires Arranged(messages, out, order)
    ensures Arranged(out, out, order)
  {
    forall a: nat, b: nat | IsRun(out, a, b)
      ensures RunSorted(out, out, order, a, b)
    {
      assert IsRun(messages, a, b);
      assert RunSorted(messages, out, order, a, b);
      SameOrder(messages, out, a, order);
    }
  }

  /** Arranging twice is arranging once. */
  lemma ArrangeIdempotent(messages: seq<Message>, order: Order)
    ensures Arrange(Arrange(messages, order), order) == Arrange(messages, order)
  {
    var out := Arrange(messages, order);
    ArrangeKeepsPromise(messages, order);
    ArrangedAgain(messages, out, order);
    ArrangeKeepsPromise(out, order);
    PromiseDecides(out, out, Arrange(out, order), order);
  }

  lemma RunMultiset(run: seq<Message>, order: Order)
    ensures multiset(SortedRun(order, run)) == multiset(run)
  {
    SortedRunParts(run, order);
    SortedIsStable(order, Tools(run));
    SplitMessages(run);
    SplitMessages(SortedRun(order, run));
  }

  lemma JoinMultiset(s: seq<Message>, k: nat, a: seq<Message>, b: seq<Message>)
    requires k <= |s| && multiset(a) == multiset(s[..k]) && multiset(b) == multiset(s[k..])
    ensures multiset(a + b) == multiset(s)
  {
    assert s == s[..k] + s[k..];
  }

  /** No message is lost, invented or repeated. */
  lemma {:induction false} ArrangeMultiset(messages: seq<Message>, order: Order)
    ensures multiset(Arrange(messages, order)) == multiset(messages)
    decreases |messages|
  {
    if messages != [] {
      if !InRun(messages[0]) {
        var next := if SetsOrder(messages[0]) then OrderOf(messages[0].calls) else order;
        ArrangeMultiset(messages[1..], next);
        assert messages[..1] == [messages[0]];
        JoinMultiset(messages, 1, [messages[0]], Arrange(messages[1..], next));
      } else {
        var n := RunLength(messages);
        RunMultiset(messages[..n], order);
        ArrangeMultiset(messages[n..], order);
        JoinMultiset(messages, n, SortedRun(order, messages[..n]), Arrange(messages[n..], order));
      }
    }
  }

  // ---------------------------------------------------------------- the method

  /** Stands in for the library's stable sort. */
  method StableSort(order: Order, s: seq<Message>) returns (r: seq<Message>)
    ensures StablySorted(order, s, r) && multiset(r) == multiset(s)
  {
    r := Sorted(order, s);
    SortedIsStable(order, s);
  }

  method CallOrder(calls: seq<string>) returns (order: Order)
    ensures order == OrderOf(calls)
  {
    order := map[];
    for idx := 0 to |calls|
      invariant order == OrderOf(calls[..idx])
    {
      assert calls[..idx + 1][..idx] == calls[..idx];
      if calls[idx] != "" {
        order := order[calls[idx] := idx];
      }
    }
    assert calls[..|calls|] == calls;
  }

  /** Where the tool messages from `i` up to `end` are. */
  function ToolPositions(s: seq<Message>, i: nat, end: nat): seq<nat>
    requires i <= end <= |s|
  {
    if i == end then [] else ToolPositions(s, i, end - 1) + (if IsTool(s[end - 1]) then [end - 1] else [])
  }

  /** The run starting at `i`, and where its tool messages are. */
  method ScanRun(s: seq<Message>, i: nat) returns (runEnd: nat, positions: seq<nat>)
    requires i < |s| && InRun(s[i])
    ensures runEnd == i + RunLength(s[i..]) && i < runEnd <= |s| && positions == ToolPositions(s, i, runEnd)
  {
    runEnd, positions := i, [];
    while runEnd < |s|
      invariant i <= runEnd <= |s| && (forall j :: i <= j < runEnd ==> InRun(s[j]))
      invariant positions == ToolPositions(s, i, runEnd)
    {
      if s[runEnd].role == "tool" {
        positions := positions + [runEnd];
      } else if s[runEnd].role != "user" {
        break;
      }
      runEnd := runEnd + 1;
    }
    RunLengthIs(s, i, runEnd);
  }

  lemma {:induction false} RunLengthIs(s: seq<Message>, i: nat, end: nat)
    requires i <= end <= |s| && (forall j :: i <= j < end ==> InRun(s[j])) && (end < |s| ==> !InRun(s[end]))
    ensures RunLength(s[i..]) == end - i
    decreases end - i
  {
    if i < end {
      assert s[i..][1..] == s[i + 1..];
      RunLengthIs(s, i + 1, end);
    }
  }

  lemma ToolsSnoc(s: seq<Message>, i: nat, end: nat)
    requires i <= end < |s|
    ensures Tools(s[i..end + 1]) == Tools(s[i..end]) + (if IsTool(s[end]) then [s[end]] else [])
  {
    var t := s[i..end + 1];
    assert t[..|t| - 1] == s[i..end];
  }

  /** The k-th position is the one with k tool messages before it. */
  lemma {:induction false} PositionAt(s: seq<Message>, i: nat, end: nat)
    requires i <= end <= |s|
    ensures var p := ToolPositions(s, i, end);
            && |p| == |Tools(s[i..end])|
            && (forall k :: 0 <= k < |p| ==> i <= p[k] < end && IsTool(s[p[k]]) && |Tools(s[i..p[k]])| == k)
    decreases end - i
  {
    if i < end {
      PositionAt(s, i, end - 1);
      ToolsSnoc(s, i, end - 1);
    }
  }

  lemma {:induction false} PositionOf(s: seq<Message>, i: nat, end: nat, j: nat)
    requires i <= j < end <= |s| && IsTool(s[j])
    ensures var p := ToolPositions(s, i, end); |Tools(s[i..j])| < |p| && p[|Tools(s[i..j])|] == j
    decreases end - i
  {
    PositionsSnoc(s, i, end);
    if j < end - 1 {
      PositionOf(s, i, end - 1, j);
    } else {
      PositionAt(s, i, end - 1);
    }
  }

  lemma PositionsSnoc(s: seq<Message>, i: nat, end: nat)
    requires i < end <= |s|
    ensures ToolPositions(s, i, end) == ToolPositions(s, i, end - 1) + (if IsTool(s[end - 1]) then [end - 1] else [])
  {
  }

  /** Results are written back to the positions they were taken from. */
  method WriteBack(s: seq<Message>, i: nat, end: nat, positions: seq<nat>, results: seq<Message>)
    returns (adjusted: seq<Message>)
    requires i <= end <= |s| && positions == ToolPositions(s, i, end) && |results| == |Tools(s[i..end])|
    ensures adjusted == s[..i] + Refill(s[i..end], results) + s[end..]
  {
    adjusted := s;
    PositionAt(s, i, end);
    for k := 0 to |positions|
      invariant |adjusted| == |s|
      invariant forall j :: 0 <= j < |s| ==> adjusted[j] == Written(s, i, end, results, k, j)
    {
      adjusted := adjusted[positions[k] := results[k]];
      forall j | 0 <= j < |s|
        ensures adjusted[j] == Written(s, i, end, results, k + 1, j)
      {
        if i <= j < end && IsTool(s[j]) {
          PositionOf(s, i, end, j);
        }
      }
    }
    WrittenAll(s, i, end, results, adjusted);
  }

  /** What stands at `j` after the first `k` results have been written. */
  function Written(s: seq<Message>, i: nat, end: nat, results: seq<Message>, k: nat, j: nat): Message
    requires i <= end <= |s| && k <= |results| && j < |s|
  {
    if i <= j < end && IsTool(s[j]) && |Tools(s[i..j])| < k then results[|Tools(s[i..j])|] else s[j]
  }

  lemma WrittenAll(s: seq<Message>, i: nat, end: nat, results: seq<Message>, adjusted: seq<Message>)
    requires i <= end <= |s| && |results| == |Tools(s[i..end])| && |adjusted| == |s|
    requires forall j :: 0 <= j < |s| ==> adjusted[j] == Written(s, i, end, results, |results|, j)
    ensures adjusted == s[..i] + Refill(s[i..end], results) + s[end..]
  {
    forall j | i <= j < end
      ensures adjusted[j] == Refill(s[i..end], results)[j - i]
    {
      assert adjusted[j] == Written(s, i, end, results, |results|, j);
      WrittenIsRefill(s, i, end, results, j);
    }
    ThreeParts(s, i, end, Refill(s[i..end], results), adjusted);
  }

  lemma WrittenIsRefill(s: seq<Message>, i: nat, end: nat, results: seq<Message>, j: nat)
    requires i <= j < end <= |s| && |results| == |Tools(s[i..end])|
    ensures Written(s, i, end, results, |results|, j) == Refill(s[i..end], results)[j - i]
  {
    var run := s[i..end];
    assert run[..j - i] == s[i..j] && run[j - i] == s[j];
    RefillAt(run, results, j - i);
  }

  lemma ThreeParts(s: seq<Message>, i: nat, end: nat, mid: seq<Message>, t: seq<Message>)
    requires i <= end <= |s| == |t| && |mid| == end - i
    requires forall j :: 0 <= j < |s| ==> t[j] == if i <= j < end then mid[j - i] else s[j]
    ensures t == s[..i] + mid + s[end..]
  {
    InParts(t, i, end);
    assert t[..i] == s[..i] && t[end..] == s[end..];
    assert t[i..end] == mid;
  }

  method Gather(s: seq<Message>, i: nat, end: nat, positions: seq<nat>) returns (results: seq<Message>)
    requires i <= end <= |s| && positions == ToolPositions(s, i, end)
    ensures results == Tools(s[i..end])
  {
    results := [];
    PositionAt(s, i, end);
    for k := 0 to |positions|
      invariant results == Tools(s[i..end])[..k]
    {
      var j := positions[k];
      assert s[i..end][..j - i] == s[i..j];
      ToolsPrefix(s[i..end], j - i);
      results := results + [s[j]];
    }
  }

  lemma {:induction false} RefillBack(run: seq<Message>)
    ensures Refill(run, Tools(run)) == run
  {
    if run != [] {
      var n := |run| - 1;
      RefillBack(run[..n]);
      PartsSnoc(run[..n], run[n]);
      assert run == run[..n] + [run[n]];
      if IsTool(run[n]) {
        RefillTool(run[..n], run[n], Tools(run[..n]), run[n]);
      } else {
        RefillOther(run[..n], run[n], Tools(run[..n]));
        assert Tools(run[..n]) + [] == Tools(run[..n]);
      }
    }
  }

  /** With at most one tool message, or no call order, sorting changes nothing. */
  lemma SkippedRun(order: Order, run: seq<Message>)
    requires |Tools(run)| <= 1 || order == map[]
    ensures SortedRun(order, run) == run
  {
    var tools := Tools(run);
    SortedIsStable(order, tools);
    assert Ascending(order, tools);
    StableUnique(order, tools, Sorted(order, tools));
    RefillBack(run);
  }

  lemma OnlySorting(order: Order, run: seq<Message>, sorted: seq<Message>)
    requires StablySorted(order, Tools(run), sorted)
    ensures |sorted| == |Tools(run)| && SortedRun(order, run) == Refill(run, sorted)
  {
    SortedIsStable(order, Tools(run));
    TwoStable(order, Tools(run), sorted, Sorted(order, Tools(run)));
    assert |multiset(sorted)| == |multiset(Tools(run))|;
  }

  method Reorder(s: seq<Message>, order: Order, i: nat, runEnd: nat, positions: seq<nat>)
    returns (adjusted: seq<Message>)
    requires i <= runEnd <= |s| && positions == ToolPositions(s, i, runEnd)
    ensures adjusted == s[..i] + SortedRun(order, s[i..runEnd]) + s[runEnd..]
  {
    var results := Gather(s, i, runEnd, positions);
    var sorted := StableSort(order, results);
    OnlySorting(order, s[i..runEnd], sorted);
    adjusted := WriteBack(s, i, runEnd, positions, sorted);
  }

  /** One run of the conversation, sorted in place. */
  method SortRun(s: seq<Message>, order: Order, i: nat) returns (adjusted: seq<Message>, runEnd: nat)
    requires i < |s| && InRun(s[i])
    ensures runEnd == i + RunLength(s[i..]) && i < runEnd <= |s|
    ensures adjusted == s[..i] + SortedRun(order, s[i..runEnd]) + s[runEnd..]
  {
    var positions;
    runEnd, positions := ScanRun(s, i);
    if |positions| > 1 && order != map[] {
      adjusted := Reorder(s, order, i, runEnd, positions);
    } else {
      adjusted := s;
      SkippedSort(s, order, i, runEnd);
    }
  }

  lemma SkippedSort(s: seq<Message>, order: Order, i: nat, runEnd: nat)
    requires i <= runEnd <= |s| && (|ToolPositions(s, i, runEnd)| <= 1 || order == map[])
    ensures s == s[..i] + SortedRun(order, s[i..runEnd]) + s[runEnd..]
  {
    PositionAt(s, i, runEnd);
    SkippedRun(order, s[i..runEnd]);
    InParts(s, i, runEnd);
  }

  lemma InParts(s: seq<Message>, i: nat, end: nat)
    requires i <= end <= |s|
    ensures s == s[..i] + s[i..end] + s[end..]
  {
  }

  /** The part before `i` is done, the part from `i` untouched. */
  ghost predicate Progress(messages: seq<Message>, adjusted: seq<Message>, order: Order, i: nat) {
    && i <= |messages| == |adjusted| && adjusted[i..] == messages[i..]
    && adjusted[..i] + Arrange(messages[i..], order) == Arrange(messages, map[])
  }

  lemma Regroup(a: seq<Message>, b: seq<Message>, c: seq<Message>)
    ensures a + (b + c) == (a + b) + c
  {
  }

  lemma Passed(messages: seq<Message>, adjusted: seq<Message>, order: Order, i: nat)
    requires Progress(messages, adjusted, order, i) && i < |messages| && !InRun(messages[i])
    ensures Progress(messages, adjusted, if SetsOrder(messages[i]) then OrderOf(messages[i].calls) else order, i + 1)
  {
    var next := if SetsOrder(messages[i]) then OrderOf(messages[i].calls) else order;
    ArrangePassed(messages, i, order);
    Regroup(adjusted[..i], [messages[i]], Arrange(messages[i + 1..], next));
    assert adjusted[i] == adjusted[i..][0] == messages[i];
    assert adjusted[i + 1..] == adjusted[i..][1..] == messages[i + 1..];
    assert adjusted[..i + 1] == adjusted[..i] + [messages[i]];
  }

  lemma ArrangePassed(messages: seq<Message>, i: nat, order: Order)
    requires i < |messages| && !InRun(messages[i])
    ensures Arrange(messages[i..], order) == [messages[i]] +
            Arrange(messages[i + 1..], if SetsOrder(messages[i]) then OrderOf(messages[i].calls) else order)
  {
    assert messages[i..][1..] == messages[i + 1..];
  }

  lemma ArrangeRun(messages: seq<Message>, i: nat, end: nat, order: Order)
    requires i < |messages| && InRun(messages[i]) && end == i + RunLength(messages[i..]) && end <= |messages|
    ensures Arrange(messages[i..], order) == SortedRun(order, messages[i..end]) + Arrange(messages[end..], order)
  {
    assert messages[i..][..end - i] == messages[i..end] && messages[i..][end - i..] == messages[end..];
  }

  lemma PassedRun(messages: seq<Message>, adjusted: seq<Message>, order: Order, i: nat, end: nat,
                  adjusted': seq<Message>)
    requires Progress(messages, adjusted, order, i) && i < |messages| && InRun(messages[i])
    requires end == i + RunLength(adjusted[i..]) && end <= |adjusted|
    requires adjusted' == adjusted[..i] + SortedRun(order, adjusted[i..end]) + adjusted[end..]
    ensures Progress(messages, adjusted', order, end)
  {
    var run := messages[i..end];
    assert run == messages[i..][..end - i] == adjusted[i..end];
    assert adjusted[end..] == adjusted[i..][end - i..] == messages[end..];
    ArrangeRun(messages, i, end, order);
    Regroup(adjusted[..i], SortedRun(order, run), Arrange(messages[end..], order));
    Ends(adjusted[..i] + SortedRun(order, run), adjusted[end..], end);
  }

  lemma Ends(a: seq<Message>, b: seq<Message>, n: nat)
    requires |a| == n
    ensures (a + b)[..n] == a && (a + b)[n..] == b
  {
  }

  method SortToolResults(messages: seq<Message>) returns (adjusted: seq<Message>)
    ensures adjusted == Arrange(messages, map[])
  {
    adjusted := messages;
    var order: Order := map[];
    var i := 0;
    while i < |adjusted|
      invariant Progress(messages, adjusted, order, i)
      decreases |adjusted| - i
    {
      var msg := adjusted[i];
      assert msg == adjusted[i..][0] == messages[i];
      if msg.role != "user" && msg.role != "tool" {
        Passed(messages, adjusted, order, i);
        if msg.role == "assistant" && msg.calls != [] {
          order := CallOrder(msg.calls);
        }
        i := i + 1;
      } else {
        var next, runEnd := SortRun(adjusted, order, i);
        PassedRun(messages, adjusted, order, i, runEnd, next);
        adjusted, i := next, runEnd;
      }
    }
    assert adjusted[..i] == adjusted;
  }
}
