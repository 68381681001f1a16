/** What applying the image budget reports, and that it evicts no more than it must
(crates/codegen/xai-chat-state/src/image_budget.rs). */
module ImageOutcome {
  import T = Text
  import opened Conversation
  import opened JsonSize
  import opened ImageBudget

  /** `running` lists the running size before the first eviction and after each. */
  ghost predicate RunsDown(running: seq<nat>, items: History, w: Wire, t: Notices) {
    |running| > 0 && forall j :: 0 <= j < |running| - 1 ==>
                                   running[j + 1] == NextRunning(EvictFirst(items, j, t), running[j], w, t)
  }

  /** The images go one at a time while the running size is over the target, and the first size that is not over it,
  or the last image, ends that. */
  lemma {:induction false} EvictsNoMore(items: History, current: nat, target: nat, w: Wire, t: Notices)
    returns (running: seq<nat>)
    ensures var k := EvictLoop(items, current, target, w, t).1;
            && |running| == k + 1 && running[0] == current && RunsDown(running, items, w, t)
            && (forall j :: 0 <= j < k ==> running[j] > target)
            && (running[k] <= target || k == |Images(items)|)
    decreases |Images(items)|
  {
    if current <= target || Images(items) == [] {
      running := [current];
    } else {
      OldestGoes(items, t);
      var next := NextRunning(items, current, w, t);
      var rest := EvictsNoMore(EvictOne(items, t), next, target, w, t);
      running := [current] + rest;
      forall j | 0 <= j < |running| - 1
        ensures running[j + 1] == NextRunning(EvictFirst(items, j, t), running[j], w, t)
      {
        assert running[j + 1] == rest[j];
        if j > 0 {
          assert EvictFirst(items, j, t) == EvictFirst(EvictOne(items, t), j - 1, t);
        }
      }
    }
  }

  /** The sizes are those of the history before and after, the images are counted before, compaction is wanted from
  the trigger on, and each eviction is one image less. */
  lemma {:induction false} OutcomeTells(items: History, trigger: nat, target: nat, w: Wire, t: Notices)
    ensures var (out, o) := Budgeted(items, trigger, target, w, t);
            && (All(Images(items), CleanTail) ==> o.bodyBytes == T.Utf8Len(HistoryJson(items, w)))
            && (All(Images(items), CleanTail) ==> o.bodyBytesAfter == T.Utf8Len(HistoryJson(out, w)))
            && o.inlineImages == |Images(items)| && o.evicted == |Images(items)| - |Images(out)|
            && (o.needsCompaction <==> o.bodyBytes >= trigger)
  {
    var out := Budgeted(items, trigger, target, w, t).0;
    BudgetEvictsOldest(items, trigger, target, w, t);
    BodyBytesExactly(items, w);
    BodyBytesExactly(out, w);
  }
}
