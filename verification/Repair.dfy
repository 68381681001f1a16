/** Repairing a history that a provider would reject: one result for every call, in its
place (crates/codegen/xai-chat-state/src/compaction_utils.rs, `repair_history`, and
crates/codegen/xai-grok-sampling-types/src/conversation.rs). */
module Repair {
  import opened Conversation
  import opened Pairing

  predicate AsksTools(item: Item) {
    item.Assistant? && item.calls != []
  }

  /** How many results the history starts with. */
  function RunLen(items: History): (n: nat)
    ensures n <= |items| && (forall k :: 0 <= k < n ==> items[k].ToolResult?)
    ensures n < |items| ==> !items[n].ToolResult?
  {
    if items == [] || !items[0].ToolResult? then 0 else 1 + RunLen(items[1..])
  }

  predicate AllResults(run: History) {
    forall x :: x in run ==> x.ToolResult?
  }

  function ResultIds(run: History): set<string> {
    if run == [] then {} else (if run[0].ToolResult? then {run[0].callId} else {}) + ResultIds(run[1..])
  }

  // ---------- the three passes ----------

  /** Of the results with one id, the last. */
  function KeepLast(run: History): (r: History)
    requires AllResults(run)
    ensures AllResults(r) && ResultIds(r) == ResultIds(run)
  {
    if run == [] then []
    else
      var rest := KeepLast(run[1..]);
      assert ([run[0]] + rest)[1..] == rest;
      if run[0].callId in ResultIds(run[1..]) then rest else [run[0]] + rest
  }

  /** `dedup_duplicate_tool_results`. */
  function Deduped(items: History): History {
    if items == [] then []
    else if AsksTools(items[0]) then
      var n := RunLen(items[1..]);
      [items[0]] + KeepLast(items[1..1 + n]) + Deduped(items[1 + n..])
    else [items[0]] + Deduped(items[1..])
  }

  /** The reason a repair gives (`DanglingToolCallReason`). */
  datatype Reason = UserCancelled | HarnessHalted(kind: string)

  function SyntheticText(name: string, reason: Reason): string {
    match reason
    case UserCancelled => "Tool execution was cancelled by the user (tool `" + name + "` was not executed)."
    case HarnessHalted(kind) =>
      "Tool execution was halted by the harness (" + kind + "); the tool `" + name + "` was not executed."
  }

  /** A synthetic result for every call that `answered` leaves open, in call order. */
  function Missing(calls: seq<ToolCall>, answered: set<string>, reason: Reason): (r: History)
    ensures AllResults(r) && ResultIds(r) == CallIds(calls) - answered
  {
    if calls == [] then []
    else
      var rest := Missing(calls[1..], answered, reason);
      if calls[0].id in answered then rest
      else [ToolResult(calls[0].id, SyntheticText(calls[0].name, reason), [])] + rest
  }

  /** `repair_dangling_tool_calls`. */
  function Answered(items: History, reason: Reason): History {
    if items == [] then []
    else if AsksTools(items[0]) then
      var n := RunLen(items[1..]);
      [items[0]] + (items[1..1 + n] + Missing(items[0].calls, ResultIds(items[1..1 + n]), reason))
      + Answered(items[1 + n..], reason)
    else [items[0]] + Answered(items[1..], reason)
  }

  /** `repair_history`. */
  function Repaired(items: History, reason: Reason): History {
    Answered(Stripped(Deduped(items), {}), reason)
  }

  // ---------- the same, block by block ----------

  /** The results of a run that answer one of `calls`, once each. */
  function Settled(calls: seq<ToolCall>, run: History): (r: History)
    requires AllResults(run)
    ensures AllResults(r) && ResultIds(r) == ResultIds(run) * CallIds(calls)
  {
    StrippedResults(KeepLast(run), CallIds(calls));
    Stripped(KeepLast(run), CallIds(calls))
  }

  /** The results behind an asking assistant, one for each call. */
  function Replies(calls: seq<ToolCall>, run: History, reason: Reason): (r: History)
    requires AllResults(run)
    ensures AllResults(r) && ResultIds(r) == CallIds(calls)
  {
    var kept := Settled(calls, run);
    var open := Missing(calls, ResultIds(kept), reason);
    ResultIdsConcat(kept, open);
    kept + open
  }

  /** `Repaired`, one block at a time: an asking assistant with its run, or a single item. */
  function RepairedBlocks(items: History, reason: Reason): (r: History)
    ensures r != [] ==> !r[0].ToolResult?
  {
    if items == [] then []
    else if AsksTools(items[0]) then
      var n := RunLen(items[1..]);
      [items[0]] + Replies(items[0].calls, items[1..1 + n], reason) + RepairedBlocks(items[1 + n..], reason)
    else if items[0].ToolResult? then RepairedBlocks(items[1..], reason)
    else [items[0]] + RepairedBlocks(items[1..], reason)
  }

  // ---------- runs ----------

  predicate Distinct(run: History)
    requires AllResults(run)
  {
    run == [] || (run[0].callId !in ResultIds(run[1..]) && Distinct(run[1..]))
  }

  lemma {:induction false} StrippedResults(run: History, ids: set<string>)
    requires AllResults(run)
    ensures AllResults(Stripped(run, ids)) && ResultIds(Stripped(run, ids)) == ResultIds(run) * ids
    ensures Distinct(run) ==> Distinct(Stripped(run, ids))
    ensures ResultIds(run) <= ids ==> Stripped(run, ids) == run
  {
    if run != [] {
      StrippedResults(run[1..], ids);
      var rest := Stripped(run[1..], ids);
      assert ([run[0]] + rest)[1..] == rest;
    }
  }

  lemma {:induction false} ResultIdsConcat(a: History, b: History)
    requires AllResults(a) && AllResults(b)
    ensures ResultIds(a + b) == ResultIds(a) + ResultIds(b)
    ensures Distinct(a + b) <==> Distinct(a) && Distinct(b) && ResultIds(a) !! ResultIds(b)
  {
    if a == [] {
      assert a + b == b;
    } else {
      assert (a + b)[1..] == a[1..] + b;
      ResultIdsConcat(a[1..], b);
    }
  }

  lemma {:induction false} KeepLastDistinct(run: History)
    requires AllResults(run)
    ensures Distinct(KeepLast(run)) && |KeepLast(run)| <= |run|
    ensures Distinct(run) ==> KeepLast(run) == run
    ensures !Distinct(run) ==> |KeepLast(run)| < |run|
  {
    if run != [] {
      KeepLastDistinct(run[1..]);
      var rest := KeepLast(run[1..]);
      assert ([run[0]] + rest)[1..] == rest;
    }
  }

  lemma {:induction false} RunLenJoin(run: History, rest: History)
    requires AllResults(run) && (rest != [] ==> !rest[0].ToolResult?)
    ensures RunLen(run + rest) == |run|
  {
    if run == [] {
      assert run + rest == rest;
    } else {
      assert (run + rest)[1..] == run[1..] + rest;
      RunLenJoin(run[1..], rest);
    }
  }

  lemma {:induction false} StrippedConcat(run: History, rest: History, ids: set<string>)
    requires AllResults(run)
    ensures Stripped(run + rest, ids) == Stripped(run, ids) + Stripped(rest, ids)
  {
    if run == [] {
      assert run + rest == rest;
    } else {
      assert (run + rest)[1..] == run[1..] + rest;
      StrippedConcat(run[1..], rest, ids);
    }
  }

  // ---------- the passes and the blocks ----------

  lemma {:induction false} DedupedHead(items: History)
    ensures items == [] <==> Deduped(items) == []
    ensures items != [] ==> Deduped(items)[0] == items[0]
  {}

  /** Where no run is open, results at the front go. */
  lemma {:induction false} StrippedHead(items: History)
    ensures Stripped(items, {}) != [] ==> !Stripped(items, {})[0].ToolResult?
  {
    if items != [] && items[0].ToolResult? {
      StrippedHead(items[1..]);
    }
  }

  lemma {:induction false} StrippedAfterRun(items: History, ids: set<string>)
    requires items != [] ==> !items[0].ToolResult?
    ensures Stripped(items, ids) == Stripped(items, {})
  {}

  /** The three passes in turn rebuild the history block by block. */
  lemma {:induction false} RepairedIsBlocks(items: History, reason: Reason)
    ensures Repaired(items, reason) == RepairedBlocks(items, reason)
    decreases |items|
  {
    if items != [] {
      var n := if AsksTools(items[0]) then RunLen(items[1..]) else 0;
      RepairedIsBlocks(items[1 + n..], reason);
      FirstBlockIs(items, n, reason);
    }
  }

  lemma {:induction false} FirstBlockIs(items: History, n: nat, reason: Reason)
    requires items != [] && n == if AsksTools(items[0]) then RunLen(items[1..]) else 0
    requires Repaired(items[1 + n..], reason) == RepairedBlocks(items[1 + n..], reason)
    ensures Repaired(items, reason) == RepairedBlocks(items, reason)
  {
    if AsksTools(items[0]) {
      AskingFirst(items, reason);
    } else {
      OtherFirst(items, reason);
    }
  }

  lemma {:induction false} AskingFirst(items: History, reason: Reason)
    requires items != [] && AsksTools(items[0])
    ensures var n := RunLen(items[1..]);
            Repaired(items, reason) ==
            [items[0]] + Replies(items[0].calls, items[1..1 + n], reason) + Repaired(items[1 + n..], reason)
  {
    var n := RunLen(items[1..]);
    BehindRun(items);
    AskingBlock(items[0], items[1..1 + n], Deduped(items[1 + n..]), reason);
  }

  /** Neither a history behind its first run, nor what deduplicating makes of it, starts with a result. */
  lemma {:induction false} BehindRun(items: History)
    requires items != []
    ensures var n := RunLen(items[1..]);
            AllResults(items[1..1 + n]) && (Deduped(items[1 + n..]) != [] ==> !Deduped(items[1 + n..])[0].ToolResult?)
  {
    var n := RunLen(items[1..]);
    DedupedHead(items[1 + n..]);
    assert items[1 + n..] != [] ==> items[1 + n..][0] == items[1..][n];
  }

  lemma {:induction false} OtherFirst(items: History, reason: Reason)
    requires items != [] && !AsksTools(items[0])
    ensures Repaired(items, reason) ==
            if items[0].ToolResult? then Repaired(items[1..], reason) else [items[0]] + Repaired(items[1..], reason)
  {
    OtherItem(items[0], Deduped(items[1..]), reason);
  }

  lemma {:induction false} OtherItem(a: Item, d: History, reason: Reason)
    requires !AsksTools(a)
    ensures Answered(Stripped([a] + d, {}), reason) ==
            if a.ToolResult? then Answered(Stripped(d, {}), reason) else [a] + Answered(Stripped(d, {}), reason)
  {
    var e := Stripped(d, {});
    assert ([a] + d)[1..] == d && ([a] + e)[1..] == e;
    assert RunAfter(a, {}) == {};
  }

  lemma {:induction false} AskingBlock(a: Item, run: History, rest: History, reason: Reason)
    requires AsksTools(a) && AllResults(run) && (rest != [] ==> !rest[0].ToolResult?)
    ensures Answered(Stripped([a] + KeepLast(run) + rest, {}), reason) ==
            [a] + Replies(a.calls, run, reason) + Answered(Stripped(rest, {}), reason)
  {
    var s, e := Settled(a.calls, run), Stripped(rest, {});
    StripAskingBlock(a, run, rest);
    StrippedHead(rest);
    AnswerAskingBlock(a, s, e, reason);
  }

  lemma {:induction false} StripAskingBlock(a: Item, run: History, rest: History)
    requires AsksTools(a) && AllResults(run) && (rest != [] ==> !rest[0].ToolResult?)
    ensures Stripped([a] + KeepLast(run) + rest, {}) == [a] + Settled(a.calls, run) + Stripped(rest, {})
  {
    StripBlock(a, KeepLast(run), rest);
  }

  lemma {:induction false} AnswerAskingBlock(a: Item, s: History, e: History, reason: Reason)
    requires AsksTools(a) && AllResults(s) && (e != [] ==> !e[0].ToolResult?)
    ensures Answered([a] + s + e, reason) ==
            [a] + (s + Missing(a.calls, ResultIds(s), reason)) + Answered(e, reason)
  {
    FrontBlock(a, s, e);
  }

  // ---------- what a provider accepts ----------

  /** `has_dangling_tool_calls`. */
  predicate HasDangling(items: History) {
    items != [] &&
    if AsksTools(items[0]) then
      var n := RunLen(items[1..]);
      !(CallIds(items[0].calls) <= ResultIds(items[1..1 + n])) || HasDangling(items[1 + n..])
    else HasDangling(items[1..])
  }

  /** No run answers one call twice. */
  predicate AnswersOnce(items: History) {
    items == [] ||
    if AsksTools(items[0]) then
      var n := RunLen(items[1..]);
      Distinct(items[1..1 + n]) && AnswersOnce(items[1 + n..])
    else AnswersOnce(items[1..])
  }

  /** Every result is in its owner's run, every call is answered, and no call twice. */
  ghost predicate Ready(items: History) {
    Paired(items, {}) && !HasDangling(items) && AnswersOnce(items)
  }

  /** No id is declared twice among the calls left open by `answered`. */
  predicate OpenIdsDistinct(calls: seq<ToolCall>, answered: set<string>) {
    calls == [] ||
    ((calls[0].id in answered || calls[0].id !in CallIds(calls[1..])) && OpenIdsDistinct(calls[1..], answered))
  }

  /** No assistant declares one id twice and leaves it unanswered. */
  predicate NoRepeatedOpenCall(items: History) {
    items == [] ||
    if AsksTools(items[0]) then
      var n := RunLen(items[1..]);
      OpenIdsDistinct(items[0].calls, ResultIds(items[1..1 + n])) && NoRepeatedOpenCall(items[1 + n..])
    else NoRepeatedOpenCall(items[1..])
  }

  // ---------- repairing meets it ----------

  lemma {:induction false} MissingDistinct(
    calls: seq<ToolCall>, answered: set<string>, ids: set<string>, reason: Reason)
    requires answered == ids * CallIds(calls) + answered && answered <= ids
    ensures Distinct(Missing(calls, answered, reason)) <==> OpenIdsDistinct(calls, ids)
  {
    if calls != [] {
      var rest := Missing(calls[1..], answered, reason);
      MissingDistinct(calls[1..], answered, ids, reason);
      if calls[0].id !in answered {
        assert ([Missing(calls, answered, reason)[0]] + rest)[1..] == rest;
      }
    }
  }

  lemma {:induction false} RepliesDistinct(calls: seq<ToolCall>, run: History, reason: Reason)
    requires AllResults(run)
    ensures Distinct(Replies(calls, run, reason)) <==> OpenIdsDistinct(calls, ResultIds(run))
  {
    var kept := Settled(calls, run);
    KeepLastDistinct(run);
    StrippedResults(KeepLast(run), CallIds(calls));
    ResultIdsConcat(kept, Missing(calls, ResultIds(kept), reason));
    MissingDistinct(calls, ResultIds(kept), ResultIds(run), reason);
  }

  /** A run that answers every call and nothing else is only freed of repetitions. */
  lemma {:induction false} RepliesComplete(calls: seq<ToolCall>, run: History, reason: Reason)
    requires AllResults(run) && ResultIds(run) == CallIds(calls)
    ensures Replies(calls, run, reason) == KeepLast(run)
  {
    StrippedResults(KeepLast(run), CallIds(calls));
    assert Settled(calls, run) == KeepLast(run);
    MissingNone(calls, CallIds(calls), reason);
    assert KeepLast(run) + [] == KeepLast(run);
  }

  lemma {:induction false} MissingNone(calls: seq<ToolCall>, answered: set<string>, reason: Reason)
    requires CallIds(calls) <= answered
    ensures Missing(calls, answered, reason) == []
  {
    if calls != [] { MissingNone(calls[1..], answered, reason); }
  }

  /** How an asking block at the front of `[a] + r + t` is read. */
  lemma {:induction false} FrontBlock(a: Item, r: History, t: History)
    requires AllResults(r) && (t != [] ==> !t[0].ToolResult?)
    ensures var out := [a] + r + t;
            out[0] == a && RunLen(out[1..]) == |r| && out[1..1 + |r|] == r && out[1 + |r|..] == t
  {
    var out := [a] + r + t;
    assert out[1..] == r + t;
    RunLenJoin(r, t);
  }

  lemma {:induction false} TwiceBlock(a: Item, r: History, t: History, reason: Reason)
    requires AsksTools(a) && AllResults(r) && ResultIds(r) == CallIds(a.calls) && (t != [] ==> !t[0].ToolResult?)
    ensures RepairedBlocks([a] + r + t, reason) == [a] + KeepLast(r) + RepairedBlocks(t, reason)
  {
    FrontBlock(a, r, t);
    RepliesComplete(a.calls, r, reason);
  }

  /** Repairing a repaired history removes what it had to insert twice, and nothing else. */
  lemma {:induction false} BlocksTwice(items: History, reason: Reason)
    ensures var once := RepairedBlocks(items, reason);
            |RepairedBlocks(once, reason)| <= |once|
            && (RepairedBlocks(once, reason) == once <==> NoRepeatedOpenCall(items))
    decreases |items|
  {
    if items == [] {
    } else if AsksTools(items[0]) {
      var n := RunLen(items[1..]);
      var a, r, t := items[0], Replies(items[0].calls, items[1..1 + n], reason), RepairedBlocks(items[1 + n..], reason);
      BlocksTwice(items[1 + n..], reason);
      TwiceBlock(a, r, t, reason);
      RepliesDistinct(a.calls, items[1..1 + n], reason);
      KeepLastDistinct(r);
      SameSplit([a], KeepLast(r), RepairedBlocks(t, reason), r, t);
    } else {
      BlocksTwice(items[1..], reason);
      if !items[0].ToolResult? {
        OtherTwice(items[0], RepairedBlocks(items[1..], reason), reason);
      }
    }
  }

  lemma {:induction false} OtherTwice(a: Item, t: History, reason: Reason)
    requires !AsksTools(a) && !a.ToolResult?
    ensures RepairedBlocks([a] + t, reason) == [a] + RepairedBlocks(t, reason)
    ensures RepairedBlocks([a] + t, reason) == [a] + t <==> RepairedBlocks(t, reason) == t
  {
    assert ([a] + t)[1..] == t;
    assert ([a] + RepairedBlocks(t, reason))[1..] == RepairedBlocks(t, reason);
  }

  /** Two texts cut alike agree exactly when their parts do, none being longer. */
  lemma {:induction false} SameSplit(a: History, x: History, y: History, x': History, y': History)
    requires |x| <= |x'| && |y| <= |y'| && (|x| == |x'| ==> x == x')
    ensures a + x + y == a + x' + y' <==> x == x' && y == y'
  {
    if a + x + y == a + x' + y' {
      assert |a + x + y| == |a + x' + y'|;
      assert y == (a + x + y)[|a| + |x|..];
      assert y' == (a + x' + y')[|a| + |x'|..];
    }
  }

  /** `repair_history` is idempotent exactly on the histories in which no assistant declares
  one id twice and leaves it unanswered. */
  lemma {:induction false} RepairTwice(items: History, reason: Reason)
    ensures Repaired(Repaired(items, reason), reason) == Repaired(items, reason) <==> NoRepeatedOpenCall(items)
  {
    RepairedIsBlocks(items, reason);
    RepairedIsBlocks(Repaired(items, reason), reason);
    BlocksTwice(items, reason);
  }

  /** A call id declared twice and never answered: the second repair removes what the first
  inserted. */
  lemma {:induction false} RepeatedCallNotIdempotent(id: string, name: string, reason: Reason)
    ensures var items := [Assistant("", [ToolCall(id, name, ""), ToolCall(id, name, "")], "")];
            Repaired(Repaired(items, reason), reason) != Repaired(items, reason)
  {
    var calls := [ToolCall(id, name, ""), ToolCall(id, name, "")];
    var items := [Assistant("", calls, "")];
    assert calls[1..] == [ToolCall(id, name, "")];
    assert items[1..] == [] && RunLen([]) == 0 && ResultIds([]) == {};
    assert id in CallIds(calls[1..]);
    assert !OpenIdsDistinct(calls, {});
    RepairTwice(items, reason);
  }

  lemma {:induction false} StrippedShorter(items: History, ids: set<string>)
    ensures |Stripped(items, ids)| <= |items|
    ensures |Stripped(items, ids)| == |items| ==> Stripped(items, ids) == items
  {
    if items != [] {
      StrippedShorter(items[1..], RunAfter(items[0], ids));
    }
  }

  lemma {:induction false} StripBlock(a: Item, r: History, t: History)
    requires a.Assistant? && AllResults(r) && (t != [] ==> !t[0].ToolResult?)
    ensures Stripped([a] + r + t, {}) == [a] + Stripped(r, CallIds(a.calls)) + Stripped(t, {})
  {
    var ids := CallIds(a.calls);
    assert [a] + r + t == [a] + (r + t);
    StrippedBehind(a, r + t);
    StrippedConcat(r, t, ids);
    StrippedAfterRun(t, ids);
    SameFront([a], Stripped(r, ids), Stripped(t, {}));
  }

  lemma {:induction false} StrippedBehind(a: Item, rest: History)
    requires a.Assistant?
    ensures Stripped([a] + rest, {}) == [a] + Stripped(rest, CallIds(a.calls))
  {
    assert ([a] + rest)[1..] == rest;
  }

  /** What a repair returns, block by block. */
  lemma {:induction false} BlocksReady(items: History, reason: Reason)
    ensures var r := RepairedBlocks(items, reason);
            Stripped(r, {}) == r && !HasDangling(r) && (AnswersOnce(r) <==> NoRepeatedOpenCall(items))
    decreases |items|
  {
    if items == [] {
    } else if AsksTools(items[0]) {
      var n := RunLen(items[1..]);
      var a, r, t := items[0], Replies(items[0].calls, items[1..1 + n], reason), RepairedBlocks(items[1 + n..], reason);
      BlocksReady(items[1 + n..], reason);
      BlockIsReady(a, r, t);
      RepliesDistinct(a.calls, items[1..1 + n], reason);
    } else {
      BlocksReady(items[1..], reason);
      if !items[0].ToolResult? {
        OtherIsReady(items[0], RepairedBlocks(items[1..], reason));
      }
    }
  }

  /** A block whose results answer its calls is as ready as what follows it. */
  lemma {:induction false} BlockIsReady(a: Item, r: History, t: History)
    requires AsksTools(a) && AllResults(r) && ResultIds(r) == CallIds(a.calls) && (t != [] ==> !t[0].ToolResult?)
    ensures Stripped(t, {}) == t ==> Stripped([a] + r + t, {}) == [a] + r + t
    ensures HasDangling([a] + r + t) <==> HasDangling(t)
    ensures AnswersOnce([a] + r + t) <==> Distinct(r) && AnswersOnce(t)
  {
    FrontBlock(a, r, t);
    StrippedResults(r, CallIds(a.calls));
    StripBlock(a, r, t);
  }

  lemma {:induction false} OtherIsReady(a: Item, t: History)
    requires !AsksTools(a) && !a.ToolResult? && (t != [] ==> !t[0].ToolResult?)
    ensures Stripped([a] + t, {}) == [a] + Stripped(t, {})
    ensures (HasDangling([a] + t) <==> HasDangling(t)) && (AnswersOnce([a] + t) <==> AnswersOnce(t))
  {
    assert ([a] + t)[1..] == t;
    StrippedAfterRun(t, RunAfter(a, {}));
  }

  /** A history is its first item, some more, and the rest. */
  lemma {:induction false} FrontSplit(items: History, n: nat)
    requires n < |items|
    ensures items == [items[0]] + items[1..1 + n] + items[1 + n..]
  {}

  lemma {:induction false} ReadyBlockParts(a: Item, run: History, rest: History)
    requires AsksTools(a) && AllResults(run) && (rest != [] ==> !rest[0].ToolResult?)
    requires var items := [a] + run + rest; Stripped(items, {}) == items && !HasDangling(items) && AnswersOnce(items)
    ensures Stripped(rest, {}) == rest && !HasDangling(rest) && AnswersOnce(rest)
    ensures ResultIds(run) == CallIds(a.calls) && Distinct(run)
  {
    StripBlock(a, run, rest);
    StrippedShorter(run, CallIds(a.calls));
    StrippedShorter(rest, {});
    SameSplit([a], Stripped(run, CallIds(a.calls)), Stripped(rest, {}), run, rest);
    StrippedResults(run, CallIds(a.calls));
    FrontBlock(a, run, rest);
  }

  lemma {:induction false} ReadyBlocksIdle(items: History, reason: Reason)
    requires Stripped(items, {}) == items && !HasDangling(items) && AnswersOnce(items)
    ensures RepairedBlocks(items, reason) == items
    decreases |items|
  {
    if items == [] {
    } else if AsksTools(items[0]) {
      var n := RunLen(items[1..]);
      var a, run, rest := items[0], items[1..1 + n], items[1 + n..];
      FrontSplit(items, n);
      assert rest != [] ==> rest[0] == items[1..][n];
      ReadyBlockParts(a, run, rest);
      RepliesComplete(a.calls, run, reason);
      KeepLastDistinct(run);
      ReadyBlocksIdle(rest, reason);
    } else {
      StrippedShorter(items[1..], RunAfter(items[0], {}));
      assert !items[0].ToolResult?;
      assert Stripped(items[1..], RunAfter(items[0], {})) == items[1..];
      assert RunAfter(items[0], {}) == {};
      ReadyBlocksIdle(items[1..], reason);
    }
  }

  /** After a repair every result lies in its owner's run and every call is answered; and no
  call is answered twice, unless one id was declared twice and left unanswered. */
  lemma {:induction false} RepairMakesReady(items: History, reason: Reason)
    ensures Paired(Repaired(items, reason), {}) && !HasDangling(Repaired(items, reason))
    ensures Ready(Repaired(items, reason)) <==> NoRepeatedOpenCall(items)
  {
    RepairedIsBlocks(items, reason);
    BlocksReady(items, reason);
    StrippedExactly(Repaired(items, reason), {});
  }

  /** A repair leaves exactly the ready histories alone; a second repair always makes one. */
  lemma {:induction false} RepairFixesExactlyReady(items: History, reason: Reason)
    ensures Repaired(items, reason) == items <==> Ready(items)
    ensures Ready(Repaired(Repaired(items, reason), reason))
  {
    RepairMakesReady(items, reason);
    if Ready(items) {
      StrippedExactly(items, {});
      RepairedIsBlocks(items, reason);
      ReadyBlocksIdle(items, reason);
    }
    if Repaired(items, reason) == items {
      RepairTwice(items, reason);
    }
    NoDanglingNoRepeat(Repaired(items, reason));
    RepairMakesReady(Repaired(items, reason), reason);
  }

  lemma {:induction false} NoDanglingNoRepeat(items: History)
    requires !HasDangling(items)
    ensures NoRepeatedOpenCall(items)
    decreases |items|
  {
    if items == [] {
    } else if AsksTools(items[0]) {
      var n := RunLen(items[1..]);
      NoDanglingNoRepeat(items[1 + n..]);
      NothingOpen(items[0].calls, ResultIds(items[1..1 + n]));
    } else {
      NoDanglingNoRepeat(items[1..]);
    }
  }

  lemma {:induction false} NothingOpen(calls: seq<ToolCall>, answered: set<string>)
    requires CallIds(calls) <= answered
    ensures OpenIdsDistinct(calls, answered)
  {
    if calls != [] { NothingOpen(calls[1..], answered); }
  }

  lemma {:induction false} SameOrShorter(a: History, x: History, y: History, x': History, y': History)
    requires |x'| <= |x| && (|x'| == |x| ==> x' == x) && |y'| <= |y| && (|y'| == |y| ==> y' == y)
    ensures |a + x' + y'| <= |a + x + y|
    ensures |a + x' + y'| == |a + x + y| ==> a + x' + y' == a + x + y
  {}

  lemma {:induction false} DedupedShorter(items: History)
    ensures |Deduped(items)| <= |items| && (|Deduped(items)| == |items| ==> Deduped(items) == items)
    ensures AnswersOnce(items) ==> Deduped(items) == items
    decreases |items|
  {
    if items == [] {
    } else if AsksTools(items[0]) {
      var n := RunLen(items[1..]);
      var run, rest := items[1..1 + n], items[1 + n..];
      DedupedShorter(rest);
      KeepLastDistinct(run);
      SameOrShorter([items[0]], run, rest, KeepLast(run), Deduped(rest));
      FrontSplit(items, n);
    } else {
      DedupedShorter(items[1..]);
    }
  }

  lemma {:induction false} AnsweredLonger(items: History, reason: Reason)
    ensures |Answered(items, reason)| >= |items|
    ensures |Answered(items, reason)| == |items| ==> Answered(items, reason) == items
    decreases |items|
  {
    if items == [] {
    } else if AsksTools(items[0]) {
      var n := RunLen(items[1..]);
      var run, rest := items[1..1 + n], items[1 + n..];
      AnsweredLonger(rest, reason);
      LongerBlock(items[0], run, Missing(items[0].calls, ResultIds(run), reason), rest, Answered(rest, reason));
      FrontSplit(items, n);
    } else {
      AnsweredLonger(items[1..], reason);
      HeadAndTail(items);
    }
  }

  lemma {:induction false} HeadAndTail(items: History)
    requires items != []
    ensures items == [items[0]] + items[1..]
  {}

  lemma {:induction false} LongerBlock(a: Item, run: History, m: History, rest: History, more: History)
    requires |more| >= |rest| && (|more| == |rest| ==> more == rest)
    ensures var out := [a] + (run + m) + more;
            |out| >= 1 + |run| + |rest| && (|out| == 1 + |run| + |rest| ==> out == [a] + run + rest)
  {
    if m == [] {
      assert run + m == run;
    }
  }

  /** The report is empty exactly when the repair rewrote nothing. */
  lemma {:induction false} ReportTellsChange(items: History, reason: Reason)
    ensures var deduped := Deduped(items);
            var stripped := Stripped(deduped, {});
            Repaired(items, reason) == items <==>
            |deduped| == |items| && Displaced(deduped, {}) == [] && |Answered(stripped, reason)| == |stripped|
  {
    var deduped := Deduped(items);
    DedupedShorter(items);
    StrippedExactly(deduped, {});
    AnsweredLonger(Stripped(deduped, {}), reason);
    RepairFixesExactlyReady(items, reason);
  }

  // ---------- the passes as they edit a history ----------

  /** What `repair_history` reports. */
  datatype Report = Report(duplicatesRemoved: nat, strippedIds: seq<string>, syntheticInserted: nat) {
    predicate Changed() {
      duplicatesRemoved > 0 || strippedIds != [] || syntheticInserted > 0
    }
  }

  /** `history` with each `(position, results)` of `repairs` spliced in, last first. */
  function Spliced(history: History, repairs: seq<(nat, History)>): History
    requires forall k :: 0 <= k < |repairs| ==> repairs[k].0 <= |history|
    decreases |repairs|
  {
    if repairs == [] then history
    else
      var (at, results) := repairs[|repairs| - 1];
      Spliced(history[..at] + results + history[at..], repairs[..|repairs| - 1])
  }

  lemma {:induction false} SplicedPrefix(x: History, y: History, repairs: seq<(nat, History)>)
    requires forall k :: 0 <= k < |repairs| ==> repairs[k].0 <= |x|
    ensures Spliced(x + y, repairs) == Spliced(x, repairs) + y
    decreases |repairs|
  {
    if repairs != [] {
      var (at, results) := repairs[|repairs| - 1];
      assert (x + y)[..at] + results + (x + y)[at..] == (x[..at] + results + x[at..]) + y;
      SplicedPrefix(x[..at] + results + x[at..], y, repairs[..|repairs| - 1]);
    }
  }

  lemma {:induction false} SpliceAtEnd(x: History, results: History, repairs: seq<(nat, History)>)
    requires forall k :: 0 <= k < |repairs| ==> repairs[k].0 <= |x|
    ensures Spliced(x, repairs + [(|x|, results)]) == Spliced(x, repairs) + results
  {
    assert x[..|x|] + results + x[|x|..] == x + results;
    assert (repairs + [(|x|, results)])[..|repairs|] == repairs;
    SplicedPrefix(x, results, repairs);
  }

  /** A front block with its repetitions removed is deduplicated like the block itself. */
  lemma {:induction false} DedupedAgain(a: Item, run: History, rest: History)
    requires AsksTools(a) && AllResults(run) && (rest != [] ==> !rest[0].ToolResult?)
    ensures Deduped([a] + run + rest) == [a] + KeepLast(run) + Deduped(rest)
    ensures Deduped([a] + KeepLast(run) + rest) == Deduped([a] + run + rest)
  {
    FrontBlock(a, run, rest);
    FrontBlock(a, KeepLast(run), rest);
    KeepLastDistinct(run);
    KeepLastDistinct(KeepLast(run));
  }

  lemma {:induction false} ResultIdAt(run: History, id: string)
    requires AllResults(run)
    ensures id in ResultIds(run) <==> exists k :: 0 <= k < |run| && run[k].callId == id
  {
    if run != [] {
      ResultIdAt(run[1..], id);
      assert forall k :: 1 <= k < |run| ==> run[k] == run[1..][k - 1];
      if id in ResultIds(run[1..]) {
        var k :| 0 <= k < |run[1..]| && run[1..][k].callId == id;
        assert run[k + 1].callId == id;
      }
    }
  }

  /** The id at `k` comes again in the run. */
  predicate Again(run: History, k: nat)
    requires k < |run| && AllResults(run)
  {
    run[k].callId in ResultIds(run[k + 1..])
  }

  lemma {:induction false} DistinctByIndex(run: History)
    requires AllResults(run)
    ensures Distinct(run) <==> forall k :: 0 <= k < |run| ==> !Again(run, k)
  {
    if run != [] {
      var rest := run[1..];
      DistinctByIndex(rest);
      forall k | 0 <= k < |rest| ensures Again(run, k + 1) <==> Again(rest, k) {
        assert run[k + 1] == rest[k] && run[k + 2..] == rest[k + 1..];
      }
      if Distinct(run) {
        forall k | 0 <= k < |run| ensures !Again(run, k) {
          if k > 0 { assert !Again(rest, k - 1); }
        }
      } else if Distinct(rest) {
        assert Again(run, 0);
      } else {
        var k :| 0 <= k < |rest| && Again(rest, k);
        assert Again(run, k + 1);
      }
    }
  }

  /** `marked` are the positions of the run `start..end` whose id comes again in the run. */
  predicate IsMarking(items: History, start: nat, end: nat, marked: set<nat>)
    requires start <= end <= |items|
  {
    && (forall k :: k in marked ==> start <= k < end)
    && (forall k :: start <= k < end ==> items[k].ToolResult?)
    && (forall k {:trigger k in marked} :: start <= k < end ==>
                                             (k in marked <==> items[k].callId in ResultIds(items[k + 1..end])))
  }

  /** The history with its first `i` items done and the rest deduplicated. */
  function DedupView(items: History, i: nat): History
    requires i <= |items|
  {
    items[..i] + Deduped(items[i..])
  }

  lemma {:induction false} DedupSkipItem(items: History, i: nat)
    requires i < |items| && !AsksTools(items[i])
    ensures DedupView(items, i + 1) == DedupView(items, i)
  {
    assert items[i..][1..] == items[i + 1..];
    SameFront(items[..i], [items[i]], Deduped(items[i + 1..]));
    assert items[..i + 1] == items[..i] + [items[i]];
  }

  lemma {:induction false} SameFront(x: History, y: History, z: History)
    ensures x + (y + z) == x + y + z
  {}

  /** The block at `i`: an asking assistant, its run up to `end`, and what follows. */
  predicate IsBlockAt(items: History, i: nat, end: nat) {
    && i < end <= |items| && AsksTools(items[i]) && AllResults(items[i + 1..end])
    && (end < |items| ==> !items[end].ToolResult?)
  }

  lemma {:induction false} BlockSlices(items: History, i: nat, end: nat)
    requires IsBlockAt(items, i, end)
    ensures items[i..] == [items[i]] + items[i + 1..end] + items[end..]
    ensures items[..end] == items[..i] + ([items[i]] + items[i + 1..end])
    ensures items[end..] != [] ==> !items[end..][0].ToolResult?
  {}

  lemma {:induction false} DedupSkipBlock(items: History, i: nat, end: nat)
    requires IsBlockAt(items, i, end) && KeepLast(items[i + 1..end]) == items[i + 1..end]
    ensures DedupView(items, end) == DedupView(items, i)
  {
    BlockSlices(items, i, end);
    DedupedAgain(items[i], items[i + 1..end], items[end..]);
    SameFront(items[..i], [items[i]] + items[i + 1..end], Deduped(items[end..]));
  }

  lemma {:induction false} DedupThinned(was: History, items: History, i: nat, end: nat)
    requires IsBlockAt(was, i, end)
    requires items == KeptFrom(was, i + 1, i + 1, end)
    ensures i <= |items| && DedupView(items, i) == DedupView(was, i)
  {
    BlockSlices(was, i, end);
    FrontKept(was, i, end);
    DedupedAgain(was[i], was[i + 1..end], was[end..]);
  }

  predicate RepairsWithin(repairs: seq<(nat, History)>, i: nat) {
    forall k :: 0 <= k < |repairs| ==> repairs[k].0 <= i
  }

  /** The history with its first `i` items repaired by splicing and the rest answered. */
  function AnswerView(items: History, repairs: seq<(nat, History)>, i: nat, reason: Reason): History
    requires i <= |items| && RepairsWithin(repairs, i)
  {
    Spliced(items[..i], repairs) + Answered(items[i..], reason)
  }

  lemma {:induction false} AnswerSkipItem(items: History, repairs: seq<(nat, History)>, i: nat, reason: Reason)
    requires i < |items| && !AsksTools(items[i]) && RepairsWithin(repairs, i)
    ensures AnswerView(items, repairs, i + 1, reason) == AnswerView(items, repairs, i, reason)
  {
    assert items[i..][1..] == items[i + 1..] && items[..i + 1] == items[..i] + [items[i]];
    SplicedPrefix(items[..i], [items[i]], repairs);
    SameFront(Spliced(items[..i], repairs), [items[i]], Answered(items[i + 1..], reason));
  }

  lemma {:induction false} AnswerSkipBlock(items: History, repairs: seq<(nat, History)>, i: nat, j: nat, reason: Reason)
    requires IsBlockAt(items, i, j) && RepairsWithin(repairs, i)
    ensures var synthetic := Missing(items[i].calls, ResultIds(items[i + 1..j]), reason);
            AnswerView(items, if synthetic == [] then repairs else repairs + [(j, synthetic)], j, reason) ==
            AnswerView(items, repairs, i, reason)
  {
    var a, run, rest := items[i], items[i + 1..j], items[j..];
    var synthetic := Missing(a.calls, ResultIds(run), reason);
    var front, tail := Spliced(items[..i], repairs), Answered(rest, reason);
    BlockSlices(items, i, j);
    AnswerAskingBlock(a, run, rest, reason);
    SplicedPrefix(items[..i], [a] + run, repairs);
    SpliceAtEnd(items[..j], synthetic, repairs);
    Regroup(front, [a], run, synthetic, tail);
  }

  lemma {:induction false} Regroup(x: History, a: History, r: History, m: History, t: History)
    ensures x + (a + (r + m) + t) == x + (a + r) + m + t
    ensures m == [] ==> x + (a + (r + m) + t) == x + (a + r) + t
  {}

  class ChatHistory {
    var items: History

    constructor (items: History)
      ensures this.items == items
    {
      this.items := items;
    }

    /** `strip_displaced_tool_results`: retains the items in their places. */
    method StripDisplacedToolResults() returns (stripped: seq<string>)
      modifies this
      ensures items == Stripped(old(items), {}) && stripped == Displaced(old(items), {})
    {
      var run: set<string> := {};
      var kept: History := [];
      stripped := [];
      for k := 0 to |items|
        invariant items == old(items)
        invariant kept + Stripped(items[k..], run) == Stripped(items, {})
        invariant stripped + Displaced(items[k..], run) == Displaced(items, {})
      {
        StripStep(items, k, run);
        var item := items[k];
        if item.ToolResult? {
          if item.callId in run {
            kept := kept + [item];
          } else {
            stripped := stripped + [item.callId];
          }
        } else {
          run := if item.Assistant? then CallIds(item.calls) else {};
          kept := kept + [item];
        }
      }
      items := kept;
    }

    /** The end of the run of results that starts at `start`. */
    method RunEnd(start: nat) returns (end: nat)
      requires start <= |items|
      ensures end == start + RunLen(items[start..])
      ensures start <= end <= |items| && AllResults(items[start..end])
      ensures end < |items| ==> !items[end].ToolResult?
    {
      end := start;
      while end < |items| && items[end].ToolResult?
        invariant start <= end <= |items|
        invariant forall k :: start <= k < end ==> items[k].ToolResult?
        invariant start + RunLen(items[start..]) == end + RunLen(items[end..])
      {
        assert items[end..][1..] == items[end + 1..];
        end := end + 1;
      }
    }

    /** The positions of a run's results that a later one with the same id replaces. */
    method MarkReplaced(start: nat, end: nat) returns (marked: set<nat>)
      requires start <= end <= |items| && AllResults(items[start..end])
      ensures IsMarking(items, start, end, marked)
    {
      ResultsAt(items, start, end);
      var seen: map<string, nat> := map[];
      marked := {};
      for k := start to end
        invariant forall id :: id in seen ==> start <= seen[id] < k && items[seen[id]].callId == id
        invariant forall m :: start <= m < k ==> items[m].callId in seen && m <= seen[items[m].callId]
        invariant forall m :: m in marked <==> start <= m < k && m < seen[items[m].callId]
      {
        var id := items[k].callId;
        if id in seen {
          marked := marked + {seen[id]};
        }
        seen := seen[id := k];
      }
      forall k | start <= k < end
        ensures k in marked <==> items[k].callId in ResultIds(items[k + 1..end])
      {
        AgainLater(items, k, end, seen[items[k].callId]);
      }
    }

    /** Removes the marked results of a run, from the last to the first. */
    method RemoveMarked(start: nat, end: nat, marked: set<nat>)
      requires start <= end <= |items| && AllResults(items[start..end])
      requires IsMarking(items, start, end, marked)
      modifies this
      ensures items == KeptFrom(old(items), start, start, end)
    {
      ghost var was := items;
      KeptFromEnds(was, start, end);
      for k := end downto start
        invariant items == KeptFrom(was, start, k, end)
      {
        SweepStep(was, start, k, end, marked);
        if k in marked {
          items := Cut(items, k);
        }
      }
    }

    /** `dedup_duplicate_tool_results`: scans for asking assistants and thins out their runs. */
    method DedupDuplicateToolResults() returns (removed: nat)
      modifies this
      ensures items == Deduped(old(items)) && removed == |old(items)| - |items|
    {
      removed := 0;
      var i := 0;
      while i < |items|
        invariant i <= |items| && removed == |old(items)| - |items|
        invariant DedupView(items, i) == Deduped(old(items))
        decreases |items| - i
      {
        if AsksTools(items[i]) {
          var end := RunEnd(i + 1);
          var thinned := ThinOut(i, end);
          if thinned > 0 {
            removed := removed + thinned;
            continue;
          }
          i := end;
        } else {
          DedupSkipItem(items, i);
          i := i + 1;
        }
      }
      assert items[i..] == [];
    }

    /** Thins out one run; when nothing was to be removed, the scan may pass it. */
    method ThinOut(i: nat, end: nat) returns (removed: nat)
      requires IsBlockAt(items, i, end)
      modifies this
      ensures removed == |old(items)| - |items| && i <= |items| && DedupView(items, i) == DedupView(old(items), i)
      ensures removed == 0 ==> items == old(items) && DedupView(items, end) == DedupView(items, i)
    {
      var before := |items|;
      var marked := MarkReplaced(i + 1, end);
      ThinnedView(items, i, end, marked);
      if marked != {} {
        RemoveMarked(i + 1, end, marked);
        removed := before - |items|;
      } else {
        removed := 0;
      }
    }

    /** `repair_dangling_tool_calls`: finds the places first, then inserts, last place first. */
    method RepairDanglingToolCalls(reason: Reason) returns (inserted: nat)
      modifies this
      ensures items == Answered(old(items), reason) && inserted == |items| - |old(items)|
    {
      var repairs := FindRepairs(reason);
      inserted := 0;
      assert repairs[..|repairs|] == repairs;
      for k := |repairs| downto 0
        invariant forall m :: 0 <= m < k ==> repairs[m].0 <= |items|
        invariant Spliced(items, repairs[..k]) == Spliced(old(items), repairs)
        invariant inserted == |items| - |old(items)|
      {
        var (at, results) := repairs[k];
        items := items[..at] + results + items[at..];
        inserted := inserted + |results|;
        assert repairs[..k + 1][..k] == repairs[..k];
      }
    }

    /** The places where results are missing, and the results to insert there. */
    method FindRepairs(reason: Reason) returns (repairs: seq<(nat, History)>)
      ensures RepairsWithin(repairs, |items|) && Spliced(items, repairs) == Answered(items, reason)
    {
      repairs := [];
      var i := 0;
      while i < |items|
        invariant i <= |items| && RepairsWithin(repairs, i)
        invariant AnswerView(items, repairs, i, reason) == Answered(items, reason)
      {
        if AsksTools(items[i]) {
          i, repairs := FindRepair(i, repairs, reason);
        } else {
          AnswerSkipItem(items, repairs, i, reason);
          i := i + 1;
        }
      }
      assert items[i..] == [] && items[..i] == items;
    }

    method FindRepair(i: nat, repairs: seq<(nat, History)>, reason: Reason) returns (j: nat, more: seq<(nat, History)>)
      requires i < |items| && AsksTools(items[i]) && RepairsWithin(repairs, i)
      ensures i < j <= |items| && RepairsWithin(more, j)
      ensures AnswerView(items, more, j, reason) == AnswerView(items, repairs, i, reason)
    {
      j := RunEnd(i + 1);
      var synthetic := Missing(items[i].calls, ResultIds(items[i + 1..j]), reason);
      AnswerSkipBlock(items, repairs, i, j, reason);
      more := if synthetic == [] then repairs else repairs + [(j, synthetic)];
    }

    /** `repair_history`. */
    method RepairHistory() returns (report: Report)
      modifies this
      ensures items == Repaired(old(items), HarnessHalted("history_repair"))
      ensures Paired(items, {}) && !HasDangling(items)
      ensures report.Changed() <==> items != old(items)
      ensures |items| == |old(items)| - report.duplicatesRemoved - |report.strippedIds| + report.syntheticInserted
    {
      var removed := DedupDuplicateToolResults();
      StrippedExactly(items, {});
      var strippedIds := StripDisplacedToolResults();
      var inserted := RepairDanglingToolCalls(HarnessHalted("history_repair"));
      report := Report(removed, strippedIds, inserted);
      RepairMakesReady(old(items), HarnessHalted("history_repair"));
      ReportTellsChange(old(items), HarnessHalted("history_repair"));
    }
  }

  /** `last` is where the id at `k` comes last before `end`. */
  lemma {:induction false} AgainLater(items: History, k: nat, end: nat, last: nat)
    requires k <= last < end <= |items| && (forall m :: k <= m < end ==> items[m].ToolResult?)
    requires items[last].callId == items[k].callId
    requires forall m :: k <= m < end && items[m].callId == items[k].callId ==> m <= last
    ensures k < last <==> items[k].callId in ResultIds(items[k + 1..end])
  {
    var later := items[k + 1..end];
    ResultIdAt(later, items[k].callId);
    if k < last { assert later[last - k - 1].callId == items[k].callId; }
  }

  lemma {:induction false} StripStep(items: History, k: nat, run: set<string>)
    requires k < |items|
    ensures var drop, next := items[k].ToolResult? && items[k].callId !in run, RunAfter(items[k], run);
            && Stripped(items[k..], run) == (if drop then [] else [items[k]]) + Stripped(items[k + 1..], next)
            && Displaced(items[k..], run) == (if drop then [items[k].callId] else []) + Displaced(items[k + 1..], next)
  {
    assert items[k..][1..] == items[k + 1..];
  }

  lemma {:induction false} ResultsAt(items: History, start: nat, end: nat)
    requires start <= end <= |items| && AllResults(items[start..end])
    ensures forall k :: start <= k < end ==> items[k].ToolResult?
  {
    forall k | start <= k < end ensures items[k].ToolResult? {
      assert items[start..end][k - start] == items[k];
    }
  }

  /** Thinning out a block by its marks, if there are any, and else passing it. */
  lemma {:induction false} ThinnedView(was: History, i: nat, end: nat, marked: set<nat>)
    requires IsBlockAt(was, i, end) && IsMarking(was, i + 1, end, marked)
    ensures if marked == {} then DedupView(was, end) == DedupView(was, i)
            else
              var items := KeptFrom(was, i + 1, i + 1, end);
              i <= |items| < |was| && DedupView(items, i) == DedupView(was, i)
  {
    MarkedMeansRepeated(was, i + 1, end, marked);
    if marked == {} {
      DedupSkipBlock(was, i, end);
    } else {
      DedupThinned(was, KeptFrom(was, i + 1, i + 1, end), i, end);
    }
  }

  lemma {:induction false} MarkedMeansRepeated(was: History, start: nat, end: nat, marked: set<nat>)
    requires start <= end <= |was| && AllResults(was[start..end])
    requires IsMarking(was, start, end, marked)
    ensures marked == {} ==> KeepLast(was[start..end]) == was[start..end]
    ensures marked != {} ==> |KeepLast(was[start..end])| < end - start
  {
    var run := was[start..end];
    forall k | 0 <= k < |run| ensures Again(run, k) <==> start + k in marked {
      MarkedIsAgain(was, start, end, marked, k);
    }
    DistinctByIndex(run);
    KeepLastDistinct(run);
    if marked != {} {
      var k :| k in marked;
      assert Again(run, k - start);
    }
  }

  lemma {:induction false} MarkedIsAgain(was: History, start: nat, end: nat, marked: set<nat>, k: nat)
    requires start <= end <= |was| && AllResults(was[start..end]) && IsMarking(was, start, end, marked)
             && k < end - start
    ensures Again(was[start..end], k) <==> start + k in marked
  {
    assert was[start..end][k + 1..] == was[start + k + 1..end];
  }

  /** After thinning out a run the part in front of it is unchanged. */
  lemma {:induction false} FrontKept(was: History, i: nat, end: nat)
    requires i < end <= |was| && AllResults(was[i + 1..end])
    ensures var items := was[..i + 1] + (KeepLast(was[i + 1..end]) + was[end..]);
            items[..i] == was[..i] && items[i..] == [was[i]] + KeepLast(was[i + 1..end]) + was[end..]
  {
    var rest := KeepLast(was[i + 1..end]) + was[end..];
    assert was[..i + 1] + rest == was[..i] + ([was[i]] + rest);
    assert [was[i]] + rest == [was[i]] + KeepLast(was[i + 1..end]) + was[end..];
  }

  function Cut(items: History, k: nat): History
    requires k < |items|
  {
    items[..k] + items[k + 1..]
  }

  /** The history when the sweep over the run `start..end` has come down to `k`. */
  ghost function KeptFrom(was: History, start: nat, k: nat, end: nat): History
    requires start <= k <= end <= |was| && AllResults(was[start..end])
  {
    assert forall m :: start <= m < end ==> was[start..end][m - start] == was[m];
    was[..k] + (KeepLast(was[k..end]) + was[end..])
  }

  lemma {:induction false} KeptFromEnds(was: History, start: nat, end: nat)
    requires start <= end <= |was| && AllResults(was[start..end])
    ensures KeptFrom(was, start, end, end) == was
  {
    assert was[end..end] == [];
  }

  lemma {:induction false} KeptFromStep(was: History, start: nat, k: nat, end: nat)
    requires start <= k < end <= |was| && AllResults(was[start..end])
    ensures AllResults(was[k + 1..end]) && k < |KeptFrom(was, start, k + 1, end)|
    ensures KeptFrom(was, start, k, end) ==
            if was[k].callId in ResultIds(was[k + 1..end]) then Cut(KeptFrom(was, start, k + 1, end), k)
            else KeptFrom(was, start, k + 1, end)
  {
    assert forall m :: start <= m < end ==> was[start..end][m - start] == was[m];
    assert was[k..end][1..] == was[k + 1..end] && was[k..end][0] == was[k];
    var rest := KeepLast(was[k + 1..end]);
    CutAt(was, k, rest + was[end..]);
    assert [was[k]] + (rest + was[end..]) == [was[k]] + rest + was[end..];
  }

  lemma {:induction false} SweepStep(was: History, start: nat, k: nat, end: nat, marked: set<nat>)
    requires start <= k < end <= |was| && AllResults(was[start..end]) && IsMarking(was, start, end, marked)
    ensures k < |KeptFrom(was, start, k + 1, end)|
    ensures KeptFrom(was, start, k, end) ==
            if k in marked then Cut(KeptFrom(was, start, k + 1, end), k) else KeptFrom(was, start, k + 1, end)
  {
    KeptFromStep(was, start, k, end);
  }

  lemma {:induction false} CutAt(was: History, k: nat, rest: History)
    requires k < |was|
    ensures Cut(was[..k + 1] + rest, k) == was[..k] + rest
    ensures was[..k + 1] + rest == was[..k] + ([was[k]] + rest)
  {}
}
