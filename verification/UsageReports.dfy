/** The usage ledger after a run, in terms of what was reported to it
(crates/codegen/xai-chat-state/src/usage.rs). */
module UsageReports {
  import opened Wrappers
  import opened Usage
  import Billing

  /** What one call reports for a counter. A cost that is absent or not positive counts as missing. */
  function CallReports(u: CallUsage, duration: Option<u64>, ticks: Option<i64>, c: Counter): int {
    match c
    case InputTokens => u.prompt as int
    case OutputTokens => u.completion as int
    case CachedReadTokens => u.cachedPrompt as int
    case CacheCreationTokens => u.cacheCreationPrompt as int
    case ReasoningTokens => u.reasoning as int
    case ModelCalls => 1
    case ApiDurationMs => if duration.Some? then duration.value as int else 0
    case CostMissingCalls => if ticks.Some? && ticks.value > 0 then 0 else 1
  }

  function Reports(op: Op, c: Counter): int {
    match op
    case MainLoopCall(_, usage, duration, ticks) => CallReports(usage, duration, ticks, c)
    case Subagent(byModel, _) => Sum(byModel, c)
    case MarkIncomplete => 0
  }

  /** What one call or subagent reports for one model. */
  function ReportsOf(op: Op, model: string, c: Counter): int {
    match op
    case MainLoopCall(name, usage, duration, ticks) =>
      if name == model then CallReports(usage, duration, ticks, c) else 0
    case Subagent(byModel, _) => SumOf(byModel, model, c)
    case MarkIncomplete => 0
  }

  function Reported(ops: seq<Op>, c: Counter): int {
    if ops == [] then 0 else Reported(ops[..|ops| - 1], c) + Reports(ops[|ops| - 1], c)
  }

  function ReportedOf(ops: seq<Op>, model: string, c: Counter): int {
    if ops == [] then 0 else ReportedOf(ops[..|ops| - 1], model, c) + ReportsOf(ops[|ops| - 1], model, c)
  }

  function MainLoopCalls(ops: seq<Op>): nat {
    if ops == [] then 0 else MainLoopCalls(ops[..|ops| - 1]) + if ops[|ops| - 1].MainLoopCall? then 1 else 0
  }

  lemma {:induction false} SumConcat(a: seq<Entry>, b: seq<Entry>, c: Counter)
    ensures Sum(a + b, c) == Sum(a, c) + Sum(b, c)
  {
    if a == [] {
      assert a + b == b;
    } else {
      assert (a + b)[1..] == a[1..] + b;
      SumConcat(a[1..], b, c);
    }
  }

  lemma {:induction false} SumOfConcat(a: seq<Entry>, b: seq<Entry>, model: string, c: Counter)
    ensures SumOf(a + b, model, c) == SumOf(a, model, c) + SumOf(b, model, c)
    decreases |b|
  {
    if b == [] {
      assert a + b == a;
    } else {
      assert (a + b)[..|a + b| - 1] == a + b[..|b| - 1];
      SumOfConcat(a, b[..|b| - 1], model, c);
    }
  }

  lemma {:induction false} OpReports(op: Op, model: string, c: Counter)
    ensures Sum(EntriesOf(op), c) == Reports(op, c) && SumOf(EntriesOf(op), model, c) == ReportsOf(op, model, c)
  {
    match op
    case MainLoopCall(name, usage, duration, ticks) =>
      var e := Entry(name, FromCall(usage, duration, ticks));
      assert [e][1..] == [] && [e][..0] == [];
      assert Get(e.totals, c) == CallReports(usage, duration, ticks, c);
    case _ =>
  }

  lemma {:induction false} HistoryReports(ops: seq<Op>, model: string, c: Counter)
    ensures Sum(History(ops), c) == Reported(ops, c) && SumOf(History(ops), model, c) == ReportedOf(ops, model, c)
  {
    if ops != [] {
      var front, last := ops[..|ops| - 1], ops[|ops| - 1];
      HistoryReports(front, model, c);
      SumConcat(History(front), EntriesOf(last), c);
      SumOfConcat(History(front), EntriesOf(last), model, c);
      OpReports(last, model, c);
    }
  }

  /** After every run each counter, of the ledger and of each model, is the saturated sum of what was reported for
  it, and the main-loop calls are counted. */
  lemma {:induction false} TotalsAreReported(ops: seq<Op>, model: string, c: Counter)
    ensures Get(After(ops).totals, c) == Sat(Reported(ops, c))
    ensures Get(TotalsOf(After(ops).byModel, model), c) == Sat(ReportedOf(ops, model, c))
    ensures After(ops).mainLoopModelCalls as int == Sat(MainLoopCalls(ops))
  {
    RunConserves(ops, model, c);
    HistoryReports(ops, model, c);
    CallsCounted(ops);
  }

  lemma {:induction false} CallsCounted(ops: seq<Op>)
    ensures After(ops).mainLoopModelCalls as int == Sat(MainLoopCalls(ops))
  {
    if ops != [] {
      var l := After(ops[..|ops| - 1]);
      CallsCounted(ops[..|ops| - 1]);
      EnteringKeeps(Counted(l, ops[|ops| - 1]), EntriesOf(ops[|ops| - 1]));
    }
  }

  /** The ledger is marked incomplete exactly when it was told so, or a subagent was incomplete. */
  lemma {:induction false} IncompleteExactly(ops: seq<Op>)
    ensures After(ops).incomplete <==>
            MarkIncomplete in ops || exists byModel :: Subagent(byModel, true) in ops
  {
    RunCounts(ops);
    forall op | op in ops
      ensures Marks(op) <==> op == MarkIncomplete || (op.Subagent? && op == Subagent(op.byModel, true))
    {}
  }

  // ---------- cost ----------

  function CostOf(op: Op): int {
    match op
    case MainLoopCall(_, _, _, ticks) => if ticks.Some? && ticks.value > 0 then ticks.value as int else 0
    case Subagent(byModel, _) => CostSum(byModel)
    case MarkIncomplete => 0
  }

  function ReportedCosts(ops: seq<Op>): int {
    if ops == [] then 0 else ReportedCosts(ops[..|ops| - 1]) + CostOf(ops[|ops| - 1])
  }

  lemma {:induction false} CostSumConcat(a: seq<Entry>, b: seq<Entry>)
    ensures CostSum(a + b) == CostSum(a) + CostSum(b)
    decreases |b|
  {
    if b == [] {
      assert a + b == a;
    } else {
      assert (a + b)[..|a + b| - 1] == a + b[..|b| - 1];
      CostSumConcat(a, b[..|b| - 1]);
    }
  }

  lemma {:induction false} HistoryCosts(ops: seq<Op>)
    ensures CostSum(History(ops)) == ReportedCosts(ops)
  {
    if ops != [] {
      var front, last := ops[..|ops| - 1], ops[|ops| - 1];
      HistoryCosts(front);
      CostSumConcat(History(front), EntriesOf(last));
      if last.MainLoopCall? {
        var e := Entry(last.model, FromCall(last.usage, last.duration, last.ticks));
        assert [e][..0] == [];
      }
    }
  }

  /** Without negative subagent costs the total cost is the saturated sum of the positive costs reported. */
  lemma {:induction false} CostIsReported(ops: seq<Op>)
    requires NoNegativeCost(History(ops))
    ensures var sum := ReportedCosts(ops);
            OrZero(After(ops).totals.costUsdTicks) as int == if sum > I64_MAX then I64_MAX else sum
  {
    RunConservesCost(ops);
    HistoryCosts(ops);
  }

  /** The costs of the entries, those that are absent left out, in order. */
  function Costs(entries: seq<Entry>): seq<i64> {
    if entries == [] then []
    else
      var cost := entries[|entries| - 1].totals.costUsdTicks;
      Costs(entries[..|entries| - 1]) + if cost.Some? then [cost.value] else []
  }

  lemma {:induction false} FoldSnoc(costs: seq<i64>, c: i64)
    ensures Billing.SaturatingFold(costs + [c]) == SaturatingAdd(Billing.SaturatingFold(costs), c)
  {
    assert (costs + [c])[..|costs|] == costs;
  }

  lemma {:induction false} CostIsFold(entries: seq<Entry>)
    ensures var cost := EnteredAll(NEW, entries).totals.costUsdTicks;
            if Costs(entries) == [] then cost == None else cost == Some(Billing.SaturatingFold(Costs(entries)))
  {
    if entries != [] {
      var front, last := entries[..|entries| - 1], entries[|entries| - 1].totals.costUsdTicks;
      CostIsFold(front);
      var before := EnteredAll(NEW, front).totals.costUsdTicks;
      assert EnteredAll(NEW, entries).totals.costUsdTicks == MergedCost(before, last);
      if last.Some? {
        FoldSnoc(Costs(front), last.value);
      } else {
        assert Costs(front) + [] == Costs(front);
      }
    }
  }

  /** After every run the total cost is absent when none was reported, and else the saturating fold of all costs
  reported, negative ones too: their plain sum, if no partial sum is out of the 64-bit range. */
  lemma {:induction false} RunFoldsCost(ops: seq<Op>)
    ensures var cost, costs := After(ops).totals.costUsdTicks, Costs(History(ops));
            && (if costs == [] then cost == None else cost == Some(Billing.SaturatingFold(costs)))
            && ((forall k :: 0 <= k <= |costs| ==> Billing.InRange(Billing.Sum(costs[..k]))) ==>
                  OrZero(cost) as int == Billing.Sum(costs))
  {
    var costs := Costs(History(ops));
    TotalsAreEntries(ops);
    CostIsFold(History(ops));
    Billing.FoldIsSum(costs);
    assert costs[..|costs|] == costs;
  }
}
