/** What a repair leaves behind each assistant, result by result. */
module RepairReplies {
  import opened Conversation
  import opened Pairing
  import opened Repair
  import opened Positions

  predicate ResultOf(item: Item, id: string) {
    item.ToolResult? && item.callId == id
  }

  /** The last result of its id in the run, for one of the calls. */
  function LastAnswers(calls: seq<ToolCall>, run: History): nat -> bool {
    (k: nat) =>
      && k < |run| && run[k].ToolResult? && (exists c :: c in calls && c.id == run[k].callId)
      && forall m :: k < m < |run| ==> !ResultOf(run[m], run[k].callId)
  }

  /** A call without a result in the run. */
  function OpenCalls(calls: seq<ToolCall>, run: History): nat -> bool {
    (k: nat) => k < |calls| && forall m :: 0 <= m < |run| ==> !ResultOf(run[m], calls[k].id)
  }

  /** What stands in for the result of a call: it names the tool and says why it was not run. */
  predicate IsSynthetic(item: Item, call: ToolCall, reason: Reason) {
    && item.ToolResult? && item.callId == call.id && item.images == []
    && match reason
       case UserCancelled =>
         item.content == "Tool execution was cancelled by the user (tool `" + call.name + "` was not executed)."
       case HarnessHalted(kind) =>
         item.content == "Tool execution was halted by the harness (" + kind + "); the tool `" + call.name
         + "` was not executed."
  }

  lemma {:induction false} CallIdsAre(calls: seq<ToolCall>, id: string)
    ensures id in CallIds(calls) <==> exists c :: c in calls && c.id == id
  {
    if calls != [] {
      CallIdsAre(calls[1..], id);
      assert calls == [calls[0]] + calls[1..];
    }
  }

  lemma {:induction false} ResultIdsAre(run: History, id: string)
    requires AllResults(run)
    ensures id in ResultIds(run) <==> exists m :: 0 <= m < |run| && ResultOf(run[m], id)
  {
    ResultIdAt(run, id);
    if id in ResultIds(run) {
      var m :| 0 <= m < |run| && run[m].callId == id;
      assert run[m] in run;
      assert ResultOf(run[m], id);
    }
  }

  /** Keeping the last results and stripping those without a call, one result at a time. */
  lemma {:induction false} SettledStep(run: History, ids: set<string>)
    requires run != [] && AllResults(run)
    ensures AllResults(run[1..])
    ensures var keep := run[0].callId in ids && run[0].callId !in ResultIds(run[1..]);
            Stripped(KeepLast(run), ids) == (if keep then [run[0]] else []) + Stripped(KeepLast(run[1..]), ids)
  {
    assert run[0] in run;
    var rest := KeepLast(run[1..]);
    assert ([run[0]] + rest)[1..] == rest;
  }

  lemma {:induction false} LastAnswersCons(calls: seq<ToolCall>, run: History)
    requires run != [] && AllResults(run)
    ensures forall i: nat :: i < |run| - 1 ==> (LastAnswers(calls, run[1..])(i) <==> LastAnswers(calls, run)(i + 1))
    ensures LastAnswers(calls, run)(0) <==>
            run[0].callId in CallIds(calls) && run[0].callId !in ResultIds(run[1..])
  {
    var rest := run[1..];
    assert run[0] in run;
    assert forall m :: 0 < m < |run| ==> run[m] == rest[m - 1];
    CallIdsAre(calls, run[0].callId);
    ResultIdsAre(rest, run[0].callId);
    forall i: nat | i < |run| - 1
      ensures LastAnswers(calls, rest)(i) <==> LastAnswers(calls, run)(i + 1)
    {
      assert forall m :: i < m < |rest| ==> rest[m] == run[m + 1];
    }
  }

  lemma {:induction false} SettledAt(calls: seq<ToolCall>, run: History) returns (at: seq<nat>)
    requires AllResults(run)
    ensures Lists(at, 0, |run|, LastAnswers(calls, run)) && TakenAt(run, at, Settled(calls, run))
  {
    at := [];
    if run != [] {
      SettledStep(run, CallIds(calls));
      LastAnswersCons(calls, run);
      var rest := SettledAt(calls, run[1..]);
      ListsAhead(rest, |run| - 1, LastAnswers(calls, run[1..]), LastAnswers(calls, run));
      at := Ahead(LastAnswers(calls, run)(0), rest);
      TakenAhead(run, rest, Settled(calls, run[1..]), LastAnswers(calls, run)(0));
    }
  }

  lemma {:induction false} TakenAhead(run: History, rest: seq<nat>, out: History, first: bool)
    requires run != [] && TakenAt(run[1..], rest, out)
    ensures TakenAt(run, Ahead(first, rest), (if first then [run[0]] else []) + out)
  {}

  predicate TakenAt(run: History, at: seq<nat>, out: History) {
    |out| == |at| && forall k :: 0 <= k < |at| ==> at[k] < |run| && out[k] == run[at[k]]
  }

  predicate SyntheticAt(calls: seq<ToolCall>, at: seq<nat>, out: History, reason: Reason) {
    |out| == |at| && forall k :: 0 <= k < |at| ==> at[k] < |calls| && IsSynthetic(out[k], calls[at[k]], reason)
  }

  lemma {:induction false} SyntheticIs(call: ToolCall, reason: Reason)
    ensures IsSynthetic(ToolResult(call.id, SyntheticText(call.name, reason), []), call, reason)
  {}

  function Unanswered(calls: seq<ToolCall>, answered: set<string>): nat -> bool {
    (k: nat) => k < |calls| && calls[k].id !in answered
  }

  lemma {:induction false} UnansweredAhead(calls: seq<ToolCall>, answered: set<string>, rest: seq<nat>, first: bool)
    requires calls != [] && Lists(rest, 0, |calls| - 1, Unanswered(calls[1..], answered))
    requires first == Unanswered(calls, answered)(0)
    ensures Lists(Ahead(first, rest), 0, |calls|, Unanswered(calls, answered))
  {
    ListsAhead(rest, |calls| - 1, Unanswered(calls[1..], answered), Unanswered(calls, answered));
  }

  lemma {:induction false} MissingAt(calls: seq<ToolCall>, answered: set<string>, reason: Reason)
    returns (at: seq<nat>)
    ensures Lists(at, 0, |calls|, Unanswered(calls, answered))
    ensures SyntheticAt(calls, at, Missing(calls, answered, reason), reason)
  {
    at := [];
    if calls != [] {
      var rest := MissingAt(calls[1..], answered, reason);
      var first := calls[0].id !in answered;
      UnansweredAhead(calls, answered, rest, first);
      at := Ahead(first, rest);
      SyntheticAhead(calls, rest, Missing(calls[1..], answered, reason), first, reason);
    }
  }

  lemma {:induction false} SyntheticAhead(
    calls: seq<ToolCall>, rest: seq<nat>, out: History, first: bool, reason: Reason)
    requires calls != [] && SyntheticAt(calls[1..], rest, out, reason)
    ensures var own := ToolResult(calls[0].id, SyntheticText(calls[0].name, reason), []);
            SyntheticAt(calls, Ahead(first, rest), (if first then [own] else []) + out, reason)
  {
    SyntheticIs(calls[0], reason);
  }

  /** Behind an assistant with calls stand, of the results in its run, the last for each call, in order, and then
  for each call without one, in the order of the calls, a text that says why it was not run. */
  lemma {:induction false} RepliesAre(calls: seq<ToolCall>, run: History, reason: Reason)
    returns (kept: seq<nat>, open: seq<nat>)
    requires AllResults(run)
    ensures Lists(kept, 0, |run|, LastAnswers(calls, run)) && Lists(open, 0, |calls|, OpenCalls(calls, run))
    ensures var r := Replies(calls, run, reason);
            && |r| == |kept| + |open|
            && TakenAt(run, kept, r[..|kept|]) && SyntheticAt(calls, open, r[|kept|..], reason)
  {
    var settled := Settled(calls, run);
    kept := SettledAt(calls, run);
    open := MissingAt(calls, ResultIds(settled), reason);
    forall k: nat | k < |calls|
      ensures Unanswered(calls, ResultIds(settled))(k) <==> OpenCalls(calls, run)(k)
    {
      CallIdsAre(calls, calls[k].id);
      ResultIdsAre(run, calls[k].id);
      assert calls[k] in calls;
    }
    assert Replies(calls, run, reason)[..|kept|] == settled;
    assert Replies(calls, run, reason)[|kept|..] == Missing(calls, ResultIds(settled), reason);
  }

  /** A repaired history, block by block: an assistant with calls is followed by its replies and nothing else of
  its run; tool results elsewhere go; all other items stay. */
  lemma {:induction false} RepairedStep(items: History, n: nat, reason: Reason)
    returns (replies: History, kept: seq<nat>, open: seq<nat>)
    requires 0 < n <= |items| && (forall k :: 0 < k < n ==> items[k].ToolResult?)
    requires n < |items| ==> !items[n].ToolResult?
    ensures if AsksTools(items[0]) then
              && Repaired(items, reason) == [items[0]] + replies + Repaired(items[n..], reason)
              && Lists(kept, 0, n - 1, LastAnswers(items[0].calls, items[1..n]))
              && Lists(open, 0, |items[0].calls|, OpenCalls(items[0].calls, items[1..n]))
              && |replies| == |kept| + |open|
              && TakenAt(items[1..n], kept, replies[..|kept|])
              && SyntheticAt(items[0].calls, open, replies[|kept|..], reason)
            else
              Repaired(items, reason) ==
              if items[0].ToolResult? then Repaired(items[1..], reason) else [items[0]] + Repaired(items[1..], reason)
  {
    replies, kept, open := [], [], [];
    if AsksTools(items[0]) {
      assert items[1..] == items[1..n] + items[n..];
      RunLenJoin(items[1..n], items[n..]);
      AskingFirst(items, reason);
      replies := Replies(items[0].calls, items[1..n], reason);
      kept, open := RepliesAre(items[0].calls, items[1..n], reason);
    } else {
      OtherFirst(items, reason);
    }
  }
}
