/** The billing ledger of a session, in saturating counters (crates/codegen/xai-chat-state/src/usage.rs). */
module Usage {
  import opened Wrappers

  newtype u32 = x: int | 0 <= x < 0x1_0000_0000

  /** What one model call reports. */
  datatype CallUsage = CallUsage(
    prompt: u32, completion: u32, cachedPrompt: u32, cacheCreationPrompt: u32, reasoning: u32)

  datatype UsageTotals = UsageTotals(
    inputTokens: u64, outputTokens: u64, cachedReadTokens: u64, cacheCreationTokens: u64,
    reasoningTokens: u64, modelCalls: u64, apiDurationMs: u64,
    costUsdTicks: Option<i64>, costMissingCalls: u64)

  const ZERO: UsageTotals := UsageTotals(0, 0, 0, 0, 0, 0, 0, None, 0)

  datatype Counter =
    | InputTokens | OutputTokens | CachedReadTokens | CacheCreationTokens
    | ReasoningTokens | ModelCalls | ApiDurationMs | CostMissingCalls

  function Get(t: UsageTotals, c: Counter): (n: int)
    ensures 0 <= n <= U64_MAX
  {
    (match c
     case InputTokens => t.inputTokens
     case OutputTokens => t.outputTokens
     case CachedReadTokens => t.cachedReadTokens
     case CacheCreationTokens => t.cacheCreationTokens
     case ReasoningTokens => t.reasoningTokens
     case ModelCalls => t.modelCalls
     case ApiDurationMs => t.apiDurationMs
     case CostMissingCalls => t.costMissingCalls) as int
  }

  function Sat(n: int): int {
    if n > U64_MAX then U64_MAX else n
  }

  function Plus(a: u64, b: u64): (r: u64)
    ensures r as int == Sat(a as int + b as int)
  {
    Sat(a as int + b as int) as u64
  }

  /** `reported_cost_ticks`: only positive ticks are a report. */
  function ReportedCost(ticks: Option<i64>): Option<i64> {
    if ticks.Some? && ticks.value > 0 then ticks else None
  }

  /** `from_call`. */
  function FromCall(u: CallUsage, duration: Option<u64>, ticks: Option<i64>): UsageTotals {
    var cost := ReportedCost(ticks);
    UsageTotals(
      u.prompt as u64, u.completion as u64, u.cachedPrompt as u64, u.cacheCreationPrompt as u64, u.reasoning as u64,
      1, if duration.Some? then duration.value else 0,
      cost, if cost.None? then 1 else 0)
  }

  function OrZero(a: Option<i64>): i64 {
    if a.Some? then a.value else 0
  }

  /** `merge_cost_ticks`. */
  function MergedCost(a: Option<i64>, b: Option<i64>): Option<i64> {
    if a.None? && b.None? then None else Some(SaturatingAdd(OrZero(a), OrZero(b)))
  }

  /** `fold_totals`. */
  function Folded(a: UsageTotals, b: UsageTotals): (r: UsageTotals)
    ensures forall c :: Get(r, c) == Sat(Get(a, c) + Get(b, c))
  {
    UsageTotals(
      Plus(a.inputTokens, b.inputTokens), Plus(a.outputTokens, b.outputTokens),
      Plus(a.cachedReadTokens, b.cachedReadTokens), Plus(a.cacheCreationTokens, b.cacheCreationTokens),
      Plus(a.reasoningTokens, b.reasoningTokens), Plus(a.modelCalls, b.modelCalls),
      Plus(a.apiDurationMs, b.apiDurationMs),
      MergedCost(a.costUsdTicks, b.costUsdTicks), Plus(a.costMissingCalls, b.costMissingCalls))
  }

  // ---------- the ledger ----------

  /** A model's totals; the entries keep the order in which models first came. */
  datatype Entry = Entry(model: string, totals: UsageTotals)

  type ByModel = seq<Entry>

  datatype Ledger = Ledger(totals: UsageTotals, byModel: ByModel, mainLoopModelCalls: u64, incomplete: bool)

  const NEW: Ledger := Ledger(ZERO, [], 0, false)

  function EntriesAfter(entries: ByModel, e: Entry): ByModel {
    if entries == [] then [Entry(e.model, Folded(ZERO, e.totals))]
    else if entries[0].model == e.model then [Entry(e.model, Folded(entries[0].totals, e.totals))] + entries[1..]
    else [entries[0]] + EntriesAfter(entries[1..], e)
  }

  /** `fold_entry`. */
  function Entered(l: Ledger, e: Entry): Ledger {
    l.(totals := Folded(l.totals, e.totals), byModel := EntriesAfter(l.byModel, e))
  }

  function EnteredAll(l: Ledger, entries: seq<Entry>): Ledger {
    if entries == [] then l else Entered(EnteredAll(l, entries[..|entries| - 1]), entries[|entries| - 1])
  }

  datatype Op =
    | MainLoopCall(model: string, usage: CallUsage, duration: Option<u64>, ticks: Option<i64>)
    | Subagent(byModel: seq<Entry>, incomplete: bool)
    | MarkIncomplete

  /** The entries an operation folds in. */
  function EntriesOf(op: Op): seq<Entry> {
    match op
    case MainLoopCall(model, usage, duration, ticks) => [Entry(model, FromCall(usage, duration, ticks))]
    case Subagent(byModel, _) => byModel
    case MarkIncomplete => []
  }

  predicate Marks(op: Op) {
    op.MarkIncomplete? || (op.Subagent? && op.incomplete)
  }

  /** The part of an operation that folds no entries. */
  function Counted(l: Ledger, op: Op): Ledger {
    l.(mainLoopModelCalls := if op.MainLoopCall? then Plus(l.mainLoopModelCalls, 1) else l.mainLoopModelCalls,
    incomplete := l.incomplete || Marks(op))
  }

  function Stepped(l: Ledger, op: Op): Ledger {
    EnteredAll(Counted(l, op), EntriesOf(op))
  }

  function After(ops: seq<Op>): Ledger {
    if ops == [] then NEW else Stepped(After(ops[..|ops| - 1]), ops[|ops| - 1])
  }

  /** Everything a run has folded in. */
  function History(ops: seq<Op>): seq<Entry> {
    if ops == [] then [] else History(ops[..|ops| - 1]) + EntriesOf(ops[|ops| - 1])
  }

  // ---------- what is conserved ----------

  /** The sum of a counter over some entries, without saturation. */
  function Sum(entries: seq<Entry>, c: Counter): (n: int)
    ensures n >= 0
  {
    if entries == [] then 0 else Get(entries[0].totals, c) + Sum(entries[1..], c)
  }

  /** The sum of a counter over the entries of one model. */
  function SumOf(entries: seq<Entry>, model: string, c: Counter): (n: int)
    ensures n >= 0
  {
    if entries == [] then 0
    else SumOf(entries[..|entries| - 1], model, c)
         + if entries[|entries| - 1].model == model then Get(entries[|entries| - 1].totals, c) else 0
  }

  function TotalsOf(entries: ByModel, model: string): UsageTotals {
    if entries == [] then ZERO
    else if entries[0].model == model then entries[0].totals
    else TotalsOf(entries[1..], model)
  }

  lemma {:induction false} SumLast(entries: seq<Entry>, e: Entry, c: Counter)
    ensures Sum(entries + [e], c) == Sum(entries, c) + Get(e.totals, c)
  {
    if entries == [] {
      assert [] + [e] == [e] && [e][1..] == [];
    } else {
      assert (entries + [e])[1..] == entries[1..] + [e];
      SumLast(entries[1..], e, c);
    }
  }

  /** Folding an entry in adds it to the sum over the models, up to saturation. */
  lemma {:induction false} SumAfter(entries: ByModel, e: Entry, c: Counter)
    ensures Sat(Sum(EntriesAfter(entries, e), c)) == Sat(Sum(entries, c) + Get(e.totals, c))
  {
    if entries != [] {
      var rest := entries[1..];
      if entries[0].model == e.model {
        assert EntriesAfter(entries, e)[1..] == rest;
      } else {
        SumAfter(rest, e, c);
        assert EntriesAfter(entries, e)[1..] == EntriesAfter(rest, e);
      }
    }
  }

  lemma {:induction false} TotalsAfter(entries: ByModel, e: Entry, model: string)
    ensures TotalsOf(EntriesAfter(entries, e), model) ==
            if model == e.model then Folded(TotalsOf(entries, model), e.totals) else TotalsOf(entries, model)
  {
    if entries != [] {
      var rest := entries[1..];
      if entries[0].model == e.model {
        assert EntriesAfter(entries, e)[1..] == rest;
      } else {
        TotalsAfter(rest, e, model);
        assert EntriesAfter(entries, e)[1..] == EntriesAfter(rest, e);
      }
    }
  }

  /** The totals are the saturated sum of the per-model values and of everything ever folded in,
  and each model's totals are the saturated sum of its entries, although every step saturates. */
  predicate Conserves(l: Ledger, history: seq<Entry>, c: Counter) {
    && Get(l.totals, c) == Sat(Sum(l.byModel, c))
    && Get(l.totals, c) == Sat(Sum(history, c))
  }

  predicate ConservesModel(l: Ledger, history: seq<Entry>, model: string, c: Counter) {
    Get(TotalsOf(l.byModel, model), c) == Sat(SumOf(history, model, c))
  }

  lemma {:induction false} EntryConserves(l: Ledger, history: seq<Entry>, e: Entry, model: string, c: Counter)
    requires Conserves(l, history, c) && ConservesModel(l, history, model, c)
    ensures Conserves(Entered(l, e), history + [e], c)
    ensures ConservesModel(Entered(l, e), history + [e], model, c)
  {
    EntryConservesTotals(l, history, e, c);
    EntryConservesModel(l, history, e, model, c);
  }

  lemma {:induction false} EntryConservesTotals(l: Ledger, history: seq<Entry>, e: Entry, c: Counter)
    requires Conserves(l, history, c)
    ensures Conserves(Entered(l, e), history + [e], c)
  {
    SumAfter(l.byModel, e, c);
    SumLast(history, e, c);
    SatPlus(Sum(history, c), Get(e.totals, c));
    SatPlus(Sum(l.byModel, c), Get(e.totals, c));
  }

  lemma {:induction false} SatPlus(a: int, b: int)
    requires b >= 0
    ensures Sat(Sat(a) + b) == Sat(a + b)
  {}

  lemma {:induction false} EntryConservesModel(l: Ledger, history: seq<Entry>, e: Entry, model: string, c: Counter)
    requires ConservesModel(l, history, model, c)
    ensures ConservesModel(Entered(l, e), history + [e], model, c)
  {
    TotalsAfter(l.byModel, e, model);
    assert (history + [e])[..|history|] == history;
  }

  lemma {:induction false} EnteringConserves(
    l: Ledger, history: seq<Entry>, entries: seq<Entry>, model: string, c: Counter)
    requires Conserves(l, history, c) && ConservesModel(l, history, model, c)
    ensures Conserves(EnteredAll(l, entries), history + entries, c)
    ensures ConservesModel(EnteredAll(l, entries), history + entries, model, c)
    decreases |entries|
  {
    if entries == [] {
      assert history + entries == history;
    } else {
      var front, e := entries[..|entries| - 1], entries[|entries| - 1];
      EnteringConserves(l, history, front, model, c);
      EntryConserves(EnteredAll(l, front), history + front, e, model, c);
      assert history + entries == (history + front) + [e];
    }
  }

  /** After every run. */
  lemma {:induction false} RunConserves(ops: seq<Op>, model: string, c: Counter)
    ensures Conserves(After(ops), History(ops), c)
    ensures ConservesModel(After(ops), History(ops), model, c)
  {
    if ops != [] {
      var before, op := After(ops[..|ops| - 1]), ops[|ops| - 1];
      RunConserves(ops[..|ops| - 1], model, c);
      EnteringConserves(Counted(before, op), History(ops[..|ops| - 1]), EntriesOf(op), model, c);
    }
  }

  lemma {:induction false} OneEntry(l: Ledger, e: Entry)
    ensures EnteredAll(l, [e]) == Entered(l, e)
  {
    assert [e][..0] == [];
  }

  lemma {:induction false} EnteringKeeps(l: Ledger, entries: seq<Entry>)
    ensures var r := EnteredAll(l, entries);
            r.mainLoopModelCalls == l.mainLoopModelCalls && r.incomplete == l.incomplete
            && Get(r.totals, ModelCalls) >= Get(l.totals, ModelCalls)
  {
    if entries != [] { EnteringKeeps(l, entries[..|entries| - 1]); }
  }

  /** `main_loop_model_calls` counts the main-loop calls and never exceeds the model calls, and
  `incomplete` never reverts. */
  lemma {:induction false} RunCounts(ops: seq<Op>)
    ensures After(ops).mainLoopModelCalls as int <= Get(After(ops).totals, ModelCalls)
    ensures After(ops).incomplete <==> exists k :: 0 <= k < |ops| && Marks(ops[k])
  {
    if ops != [] {
      var n := |ops| - 1;
      var before, op := After(ops[..n]), ops[n];
      RunCounts(ops[..n]);
      EnteringKeeps(Counted(before, op), EntriesOf(op));
      if op.MainLoopCall? {
        OneEntry(Counted(before, op), EntriesOf(op)[0]);
      }
      assert forall k :: 0 <= k < n ==> ops[k] == ops[..n][k];
    }
  }

  // ---------- costs ----------

  /** No negative cost: what a call reports never is one. */
  predicate NoNegativeCost(entries: seq<Entry>) {
    forall k :: 0 <= k < |entries| ==> entries[k].totals.costUsdTicks.Some? ==>
                    entries[k].totals.costUsdTicks.value >= 0
  }

  function CostSum(entries: seq<Entry>): int {
    if entries == [] then 0
    else CostSum(entries[..|entries| - 1]) + OrZero(entries[|entries| - 1].totals.costUsdTicks) as int
  }

  predicate Costed(entries: seq<Entry>) {
    exists k :: 0 <= k < |entries| && entries[k].totals.costUsdTicks.Some?
  }

  /** The total cost is absent when no entry has one, and else their sum up to the largest 64-bit amount. */
  lemma {:induction false} CostConserved(entries: seq<Entry>)
    requires NoNegativeCost(entries)
    ensures var cost := EnteredAll(NEW, entries).totals.costUsdTicks;
            && (cost.Some? <==> Costed(entries))
            && CostSum(entries) >= 0
            && OrZero(cost) as int == if CostSum(entries) > I64_MAX then I64_MAX else CostSum(entries)
  {
    if entries != [] {
      CostConserved(entries[..|entries| - 1]);
    }
  }

  lemma {:induction false} EnteringInTurn(l: Ledger, a: seq<Entry>, b: seq<Entry>)
    ensures EnteredAll(l, a + b) == EnteredAll(EnteredAll(l, a), b)
    decreases |b|
  {
    if b == [] {
      assert a + b == a;
    } else {
      assert (a + b)[..|a + b| - 1] == a + b[..|b| - 1];
      EnteringInTurn(l, a, b[..|b| - 1]);
    }
  }

  lemma {:induction false} SameTotals(l: Ledger, m: Ledger, entries: seq<Entry>)
    requires l.totals == m.totals
    ensures EnteredAll(l, entries).totals == EnteredAll(m, entries).totals
  {
    if entries != [] { SameTotals(l, m, entries[..|entries| - 1]); }
  }

  /** After every run without negative costs. */
  lemma {:induction false} RunConservesCost(ops: seq<Op>)
    requires NoNegativeCost(History(ops))
    ensures var cost, sum := After(ops).totals.costUsdTicks, CostSum(History(ops));
            (cost.Some? <==> Costed(History(ops))) && OrZero(cost) as int == if sum > I64_MAX then I64_MAX else sum
  {
    CostConserved(History(ops));
    TotalsAreEntries(ops);
  }

  lemma {:induction false} TotalsAreEntries(ops: seq<Op>)
    ensures After(ops).totals == EnteredAll(NEW, History(ops)).totals
  {
    if ops != [] {
      var front, op := ops[..|ops| - 1], ops[|ops| - 1];
      TotalsAreEntries(front);
      EnteringInTurn(NEW, History(front), EntriesOf(op));
      SameTotals(Counted(After(front), op), EnteredAll(NEW, History(front)), EntriesOf(op));
    }
  }

  // ---------- the object ----------

  class UsageLedger {
    var totals: UsageTotals
    var byModel: ByModel
    var mainLoopModelCalls: u64
    var incomplete: bool

    function Value(): Ledger
      reads this
    {
      Ledger(totals, byModel, mainLoopModelCalls, incomplete)
    }

    constructor ()
      ensures Value() == NEW
    {
      totals, byModel, mainLoopModelCalls, incomplete := ZERO, [], 0, false;
    }

    method RecordMainLoopCall(model: string, usage: CallUsage, duration: Option<u64>, ticks: Option<i64>)
      modifies this
      ensures Value() == Stepped(old(Value()), MainLoopCall(model, usage, duration, ticks))
    {
      var call := FromCall(usage, duration, ticks);
      mainLoopModelCalls := Plus(mainLoopModelCalls, 1);
      OneEntry(Counted(old(Value()), MainLoopCall(model, usage, duration, ticks)), Entry(model, call));
      FoldEntry(Entry(model, call));
    }

    method RecordSubagent(entries: seq<Entry>, incomplete: bool)
      modifies this
      ensures Value() == Stepped(old(Value()), Subagent(entries, incomplete))
    {
      ghost var counted := Value().(incomplete := this.incomplete || incomplete);
      var k := 0;
      while k < |entries|
        invariant k <= |entries| && this.incomplete == old(this.incomplete)
        invariant Value().(incomplete := counted.incomplete) == EnteredAll(counted, entries[..k])
      {
        assert entries[..k + 1][..k] == entries[..k];
        FoldEntry(entries[k]);
        k := k + 1;
      }
      assert entries[..k] == entries;
      EnteringKeeps(counted, entries);
      if incomplete {
        this.incomplete := true;
      }
    }

    method SetIncomplete()
      modifies this
      ensures Value() == Stepped(old(Value()), MarkIncomplete)
    {
      incomplete := true;
    }

    method FoldEntry(e: Entry)
      modifies this`totals, this`byModel
      ensures Value() == Entered(old(Value()), e)
    {
      totals := Folded(totals, e.totals);
      byModel := FoldIntoEntries(byModel, e);
    }
  }

  /** `by_model.entry(..).or_default().fold_totals(..)`. */
  method FoldIntoEntries(entries: ByModel, e: Entry) returns (r: ByModel)
    ensures r == EntriesAfter(entries, e)
  {
    var k := 0;
    while k < |entries| && entries[k].model != e.model
      invariant k <= |entries|
      invariant EntriesAfter(entries, e) == entries[..k] + EntriesAfter(entries[k..], e)
    {
      assert entries[k..][1..] == entries[k + 1..];
      assert entries[..k + 1] == entries[..k] + [entries[k]];
      k := k + 1;
    }
    if k < |entries| {
      assert entries[k..][1..] == entries[k + 1..];
      r := entries[k := Entry(e.model, Folded(entries[k].totals, e.totals))];
    } else {
      r := entries + [Entry(e.model, Folded(ZERO, e.totals))];
    }
  }
}
