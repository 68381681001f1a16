/** Shrinking a history to a token budget
(crates/codegen/xai-chat-state/src/compaction_utils.rs, `fit_conversation_to_budget`; the
estimate is crates/codegen/xai-chat-state/src/actor/state.rs, `estimate_item_tokens`). */
module Fitting {
  import opened Text
  import opened Conversation
  import opened Truncation
  import opened Pairing
  import Repair

  const BYTES_PER_TOKEN := 4
  const IMAGE_TOKENS := 765
  const U64_MAX := 0xFFFF_FFFF_FFFF_FFFF

  // ---------- the estimate ----------

  function TextBytes(parts: seq<Part>): nat {
    if parts == [] then 0 else (if parts[0].TextPart? then Utf8Len(parts[0].text) else 0) + TextBytes(parts[1..])
  }

  function ImageCount(parts: seq<Part>): nat {
    if parts == [] then 0 else (if parts[0].ImagePart? then 1 else 0) + ImageCount(parts[1..])
  }

  function ArgumentBytes(calls: seq<ToolCall>): nat {
    if calls == [] then 0 else Utf8Len(calls[0].arguments) + ArgumentBytes(calls[1..])
  }

  function Estimate(item: Item): nat {
    match item
    case System(content) => Utf8Len(content) / BYTES_PER_TOKEN
    case User(parts, _) => TextBytes(parts) / BYTES_PER_TOKEN + ImageCount(parts) * IMAGE_TOKENS
    case Assistant(content, calls, _) => (Utf8Len(content) + ArgumentBytes(calls)) / BYTES_PER_TOKEN
    case ToolResult(_, content, _) => Utf8Len(content) / BYTES_PER_TOKEN
    case BackendToolCall(summary) => Utf8Len(summary) / BYTES_PER_TOKEN
    case Reasoning(text, encrypted) =>
      Max(Utf8Len(text), (if encrypted.Some? then Utf8Len(encrypted.value) else 0) * 3 / 4) / BYTES_PER_TOKEN
  }

  function Cost(items: History): nat {
    if items == [] then 0 else Estimate(items[0]) + Cost(items[1..])
  }

  lemma {:induction false} CostConcat(a: History, b: History)
    ensures Cost(a + b) == Cost(a) + Cost(b)
  {
    if a == [] {
      assert a + b == b;
    } else {
      assert (a + b)[1..] == a[1..] + b;
      CostConcat(a[1..], b);
    }
  }

  // ---------- truncating one item ----------

  function Shortened(s: string, maxBytes: nat): string {
    match Truncated(s, maxBytes) case None => s case Some(r) => r
  }

  function ShortenedParts(parts: seq<Part>, maxBytes: nat): seq<Part> {
    if parts == [] then []
    else [if parts[0].TextPart? then TextPart(Shortened(parts[0].text, maxBytes)) else parts[0]]
         + ShortenedParts(parts[1..], maxBytes)
  }

  /** `truncate_item_to_tokens`. */
  function TruncatedItem(item: Item, maxTokens: nat): Item {
    var maxBytes := Min(maxTokens * BYTES_PER_TOKEN, U64_MAX);
    match item
    case ToolResult(id, content, images) => ToolResult(id, Shortened(content, maxBytes), images)
    case Assistant(content, calls, origin) => Assistant(Shortened(content, maxBytes), calls, origin)
    case User(parts, meta) => User(ShortenedParts(parts, maxBytes), meta)
    case _ => item
  }

  function TruncatedAll(items: History, maxTokens: nat): History {
    if items == [] then [] else [TruncatedItem(items[0], maxTokens)] + TruncatedAll(items[1..], maxTokens)
  }

  function TextCount(parts: seq<Part>): nat {
    if parts == [] then 0 else (if parts[0].TextPart? then 1 else 0) + TextCount(parts[1..])
  }

  /** The texts that a truncation may cut are under 10^8 bytes. */
  predicate Cuttable(item: Item) {
    match item
    case ToolResult(_, content, _) => Utf8Len(content) < 100_000_000
    case Assistant(content, _, _) => Utf8Len(content) < 100_000_000
    case User(parts, _) => forall p :: p in parts && p.TextPart? ==> Utf8Len(p.text) < 100_000_000
    case _ => true
  }

  /** What an item costs at most once it is cut: each text its budget, or the 16 tokens of the
  marker reserve, and what is not text as before. */
  function CutCost(item: Item, maxTokens: nat): nat {
    match item
    case ToolResult(_, _, _) => Max(maxTokens, 16)
    case Assistant(_, calls, _) => Max(maxTokens, 16) + ArgumentBytes(calls) / BYTES_PER_TOKEN
    case User(parts, _) => TextCount(parts) * Max(maxTokens, 16) + ImageCount(parts) * IMAGE_TOKENS
    case _ => Estimate(item)
  }

  lemma {:induction false} ShortenedLen(s: string, maxTokens: nat)
    requires Utf8Len(s) < 100_000_000
    ensures Utf8Len(Shortened(s, Min(maxTokens * BYTES_PER_TOKEN, U64_MAX))) <= BYTES_PER_TOKEN * Max(maxTokens, 16)
  {
    var maxBytes := Min(maxTokens * BYTES_PER_TOKEN, U64_MAX);
    if Utf8Len(s) > maxBytes {
      TruncationBound(s, maxBytes);
    }
  }

  lemma {:induction false} ShortenedPartsLen(parts: seq<Part>, maxTokens: nat)
    requires forall p :: p in parts && p.TextPart? ==> Utf8Len(p.text) < 100_000_000
    ensures var cut := ShortenedParts(parts, Min(maxTokens * BYTES_PER_TOKEN, U64_MAX));
            ImageCount(cut) == ImageCount(parts)
            && TextBytes(cut) <= TextCount(parts) * (BYTES_PER_TOKEN * Max(maxTokens, 16))
  {
    if parts != [] {
      ShortenedPartsLen(parts[1..], maxTokens);
      if parts[0].TextPart? {
        ShortenedLen(parts[0].text, maxTokens);
        assert (1 + TextCount(parts[1..])) * (BYTES_PER_TOKEN * Max(maxTokens, 16)) ==
               BYTES_PER_TOKEN * Max(maxTokens, 16) + TextCount(parts[1..]) * (BYTES_PER_TOKEN * Max(maxTokens, 16));
      }
    }
  }

  lemma {:induction false} TruncatedItemCost(item: Item, maxTokens: nat)
    requires Cuttable(item)
    ensures Estimate(TruncatedItem(item, maxTokens)) <= CutCost(item, maxTokens)
  {
    match item
    case ToolResult(_, content, _) => ShortenedLen(content, maxTokens);
    case Assistant(content, _, _) => ShortenedLen(content, maxTokens);
    case User(parts, _) =>
      ShortenedPartsLen(parts, maxTokens);
      TokensOf(TextCount(parts), Max(maxTokens, 16));
    case _ =>
  }

  lemma {:induction false} TokensOf(n: nat, tokens: nat)
    ensures n * (BYTES_PER_TOKEN * tokens) / BYTES_PER_TOKEN == n * tokens
  {
    assert n * (BYTES_PER_TOKEN * tokens) == BYTES_PER_TOKEN * (n * tokens);
  }

  // ---------- choosing what to keep ----------

  /** The greedy walk from the end: the first position it still affords. */
  function AffordedFrom(body: History, remaining: nat, i: nat): (start: nat)
    requires i <= |body|
    ensures start <= i
  {
    if i == 0 || Estimate(body[i - 1]) > remaining then i
    else AffordedFrom(body, remaining - Estimate(body[i - 1]), i - 1)
  }

  /** Past the results that a cut would separate from their owner. */
  function PastResults(body: History, start: nat): (r: nat)
    requires start <= |body|
    ensures start <= r <= |body| && (r < |body| ==> !body[r].ToolResult?)
  {
    start + Repair.RunLen(body[start..])
  }

  function HeadOf(items: History): History {
    if items != [] && items[0].System? then items[..1] else []
  }

  function BodyOf(items: History): History {
    items[|HeadOf(items)|..]
  }

  function Budget(items: History, maxTokens: nat): nat {
    if Cost(HeadOf(items)) <= maxTokens then maxTokens - Cost(HeadOf(items)) else 0
  }

  /** Where the results at the end of the body begin. */
  function TrailingResults(body: History): (k: nat)
    ensures k <= |body| && (forall j :: k <= j < |body| ==> body[j].ToolResult?)
    ensures k > 0 ==> !body[k - 1].ToolResult?
  {
    if body != [] && body[|body| - 1].ToolResult? then TrailingResults(body[..|body| - 1]) else |body|
  }

  /** The assistant that ends `body`, if it asks for tools. */
  function OwnerIn(body: History): History {
    if body != [] && Repair.AsksTools(body[|body| - 1]) then [body[|body| - 1]] else []
  }

  /** The last unit, cut to the budget: `recover_truncated_tail_unit`. */
  function TailUnit(body: History, budget: nat): History {
    var k := TrailingResults(body);
    var results := body[k..];
    if results == [] then
      if body == [] then [] else [TruncatedItem(body[|body| - 1], budget)]
    else
      var owner := OwnerIn(body[..k]);
      owner + TruncatedAll(results, Share(budget, Cost(owner), |results|))
  }

  /** The budget that the owner leaves to its results. */
  function Leftover(budget: nat, ownerCost: nat): nat {
    if ownerCost <= budget then budget - ownerCost else 0
  }

  /** What each of `n` results gets of the budget once its owner is paid for. */
  function Share(budget: nat, ownerCost: nat, n: nat): nat
    requires n > 0
  {
    Max(Leftover(budget, ownerCost) / n, 1)
  }

  function Start(items: History, maxTokens: nat): (r: nat)
    ensures r <= |BodyOf(items)|
  {
    var body := BodyOf(items);
    PastResults(body, AffordedFrom(body, Budget(items, maxTokens), |body|))
  }

  /** `fit_conversation_to_budget`. */
  function Fitted(items: History, maxTokens: nat): History {
    var body, start := BodyOf(items), Start(items, maxTokens);
    if Cost(items) <= maxTokens then items
    else HeadOf(items) + if start < |body| then body[start..] else TailUnit(body, Budget(items, maxTokens))
  }

  // ---------- budget ----------

  /** The greedy walk finds the longest suffix within the budget. */
  lemma {:induction false} LongestAffordable(body: History, remaining: nat, i: nat)
    requires i <= |body|
    ensures var s := AffordedFrom(body, remaining, i);
            !TooDear(body, s, i, remaining) && forall j :: 0 <= j < s ==> TooDear(body, j, i, remaining)
  {
    if i > 0 && Estimate(body[i - 1]) <= remaining {
      var left := remaining - Estimate(body[i - 1]);
      LongestAffordable(body, left, i - 1);
      AffordOneMore(body, left, i - 1, remaining, i, AffordedFrom(body, remaining, i));
    } else {
      forall j | 0 <= j < i ensures TooDear(body, j, i, remaining) { CostStep(body, j, i); }
    }
  }

  predicate TooDear(body: History, j: nat, i: nat, budget: int)
    requires j <= i <= |body|
  {
    Cost(body[j..i]) > budget
  }

  lemma {:induction false} AffordOneMore(body: History, left: nat, n: nat, remaining: nat, i: nat, s: nat)
    requires s <= n < |body| && i == n + 1 && remaining == left + Estimate(body[n])
    requires !TooDear(body, s, n, left) && forall j :: 0 <= j < s ==> TooDear(body, j, n, left)
    ensures !TooDear(body, s, i, remaining) && forall j :: 0 <= j < s ==> TooDear(body, j, i, remaining)
  {
    CostStep(body, s, i);
    forall j | 0 <= j < s ensures TooDear(body, j, i, remaining) {
      assert TooDear(body, j, n, left);
      CostStep(body, j, i);
    }
  }

  lemma {:induction false} CostStep(body: History, j: nat, i: nat)
    requires j < i <= |body|
    ensures Cost(body[j..i]) == Cost(body[j..i - 1]) + Estimate(body[i - 1])
  {
    assert body[j..i] == body[j..i - 1] + [body[i - 1]];
    CostConcat(body[j..i - 1], [body[i - 1]]);
    assert [body[i - 1]][1..] == [];
  }

  lemma {:induction false} SuffixCost(body: History, j: nat, k: nat)
    requires j <= k <= |body|
    ensures Cost(body[k..]) <= Cost(body[j..])
  {
    assert body[j..] == body[j..k] + body[k..];
    CostConcat(body[j..k], body[k..]);
  }

  lemma {:induction false} LongestSuffix(body: History, budget: nat)
    ensures var s := AffordedFrom(body, budget, |body|);
            Cost(body[s..]) <= budget && forall j :: 0 <= j < s ==> Cost(body[j..]) > budget
  {
    LongestAffordable(body, budget, |body|);
    var s := AffordedFrom(body, budget, |body|);
    assert body[s..] == body[s..|body|];
    forall j | 0 <= j < s ensures Cost(body[j..]) > budget {
      assert TooDear(body, j, |body|, budget) && body[j..] == body[j..|body|];
    }
  }

  /** An over-budget history is cut to its System head and the longest affordable suffix less
  its leading results; the total is within the budget whenever the head alone is. */
  lemma {:induction false} FitWithinBudget(items: History, maxTokens: nat)
    requires Cost(items) > maxTokens && Start(items, maxTokens) < |BodyOf(items)|
    ensures var body, start, budget := BodyOf(items), Start(items, maxTokens), Budget(items, maxTokens);
            var s := AffordedFrom(body, budget, |body|);
            && Fitted(items, maxTokens) == HeadOf(items) + body[start..] && s <= start
            && Cost(body[s..]) <= budget && (forall j :: 0 <= j < s ==> Cost(body[j..]) > budget)
            && (forall j :: s <= j < start ==> body[j].ToolResult?) && !body[start].ToolResult?
            && (Cost(HeadOf(items)) <= maxTokens ==> Cost(Fitted(items, maxTokens)) <= maxTokens)
  {
    var body, start, budget := BodyOf(items), Start(items, maxTokens), Budget(items, maxTokens);
    var s := AffordedFrom(body, budget, |body|);
    LongestSuffix(body, budget);
    SuffixCost(body, s, start);
    CostConcat(HeadOf(items), body[start..]);
    forall j | s <= j < start
      ensures body[j].ToolResult?
    {
      assert body[j] == body[s..][j - s];
    }
  }

  // ---------- what the last unit costs ----------

  lemma {:induction false} TruncatedAllCost(results: History, share: nat)
    requires Repair.AllResults(results) && forall x :: x in results ==> Cuttable(x)
    ensures Cost(TruncatedAll(results, share)) <= |results| * Max(share, 16)
  {
    if results != [] {
      TruncatedItemCost(results[0], share);
      TruncatedAllCost(results[1..], share);
      assert (1 + |results[1..]|) * Max(share, 16) == Max(share, 16) + |results[1..]| * Max(share, 16);
    }
  }

  lemma {:induction false} SharesFit(budget: nat, ownerCost: nat, n: nat)
    requires n > 0
    ensures n * Max(Share(budget, ownerCost, n), 16) <= Max(Leftover(budget, ownerCost), 16 * n)
  {
    var left := Leftover(budget, ownerCost);
    assert n * (left / n) <= left;
  }

  /** What the last unit may cost: a run of results shares what its owner leaves of the budget, or
  takes 16 tokens each; the owner is kept whole, and any other item is cut alone. */
  function TailBound(body: History, budget: nat): nat {
    var k := TrailingResults(body);
    if body == [] then 0
    else if k == |body| then CutCost(body[k - 1], budget)
    else
      var o := Cost(OwnerIn(body[..k]));
      o + Max(Leftover(budget, o), 16 * (|body| - k))
  }

  lemma {:induction false} TailUnitCost(body: History, budget: nat)
    requires forall x :: x in body ==> Cuttable(x)
    ensures Cost(TailUnit(body, budget)) <= TailBound(body, budget)
  {
    var k := TrailingResults(body);
    if k == |body| {
      if body != [] {
        TruncatedItemCost(body[k - 1], budget);
        SingleCost(TruncatedItem(body[k - 1], budget));
      }
    } else {
      var owner := OwnerIn(body[..k]);
      var share := Share(budget, Cost(owner), |body| - k);
      TruncatedAllCost(body[k..], share);
      CostConcat(owner, TruncatedAll(body[k..], share));
      SharesFit(budget, Cost(owner), |body| - k);
    }
  }

  lemma {:induction false} SingleCost(x: Item)
    ensures Cost([x]) == Estimate(x)
  {
    assert [x][1..] == [];
  }

  /** What fitting costs at most, in each of its three outcomes: nothing cut, a suffix kept, or
  only the last unit kept and truncated. */
  lemma {:induction false} FitBound(items: History, maxTokens: nat)
    requires forall x :: x in items ==> Cuttable(x)
    ensures var body, head := BodyOf(items), Cost(HeadOf(items));
            Cost(Fitted(items, maxTokens)) <=
            if Cost(items) <= maxTokens || Start(items, maxTokens) < |body| then Max(maxTokens, head)
            else head + TailBound(body, Budget(items, maxTokens))
  {
    if Cost(items) > maxTokens {
      var body, budget := BodyOf(items), Budget(items, maxTokens);
      if Start(items, maxTokens) < |body| {
        FitWithinBudget(items, maxTokens);
        SuffixCost(body, AffordedFrom(body, budget, |body|), Start(items, maxTokens));
        CostConcat(HeadOf(items), body[Start(items, maxTokens)..]);
      } else {
        assert forall x :: x in body ==> x in items;
        TailUnitCost(body, budget);
        CostConcat(HeadOf(items), TailUnit(body, budget));
      }
    }
  }

  // ---------- pairing ----------

  lemma {:induction false} TruncatedKeepsIds(items: History, maxTokens: nat)
    requires Repair.AllResults(items)
    ensures Repair.AllResults(TruncatedAll(items, maxTokens)) && |TruncatedAll(items, maxTokens)| == |items|
    ensures Repair.ResultIds(TruncatedAll(items, maxTokens)) == Repair.ResultIds(items)
  {
    if items != [] {
      assert items[0] in items;
      TruncatedKeepsIds(items[1..], maxTokens);
    }
  }

  /** Behind an owner, a run of results is paired exactly when their ids are among its calls. */
  lemma {:induction false} OwnerAndRun(a: Item, run: History, ids: set<string>)
    requires a.Assistant? && Repair.AllResults(run)
    ensures Stripped([a] + run, ids) == [a] + run <==> Repair.ResultIds(run) <= CallIds(a.calls)
  {
    assert ([a] + run)[1..] == run;
    StrippedParts([a] + run, ids);
    Repair.StrippedResults(run, CallIds(a.calls));
  }

  lemma {:induction false} HeadQuiet(items: History)
    requires Stripped(items, {}) == items
    ensures NoResults(HeadOf(items)) && Stripped(BodyOf(items), {}) == BodyOf(items)
  {
    if HeadOf(items) != [] {
      StrippedParts(items, {});
      assert BodyOf(items) == items[1..];
    } else {
      assert BodyOf(items) == items;
    }
  }

  lemma {:induction false} SuffixAfterPlain(body: History, k: nat)
    requires Stripped(body, {}) == body && k < |body| && !body[k].ToolResult?
    ensures Stripped(body[k..], {}) == body[k..]
  {
    SuffixPaired(body, {}, k);
    Repair.StrippedAfterRun(body[k..], RunAt(body, {}, k));
  }

  lemma {:induction false} OwnerOf(a: Item, run: History)
    requires run != [] && Repair.AllResults(run) && !a.ToolResult? && Stripped([a] + run, {}) == [a] + run
    ensures Repair.AsksTools(a) && Repair.ResultIds(run) <= CallIds(a.calls)
  {
    assert ([a] + run)[1..] == run;
    StrippedParts([a] + run, {});
    StrippedParts(run, RunAfter(a, {}));
    OwnerAndRun(a, run, {});
  }

  /** In a paired body the trailing results have their owner right before them. */
  lemma {:induction false} TrailingOwner(body: History)
    requires Stripped(body, {}) == body && TrailingResults(body) < |body|
    ensures var k := TrailingResults(body);
            k > 0 && Repair.AsksTools(body[k - 1]) && Repair.ResultIds(body[k..]) <= CallIds(body[k - 1].calls)
  {
    var k := TrailingResults(body);
    if k == 0 {
      StrippedParts(body, {});
    } else {
      SuffixAfterPlain(body, k - 1);
      assert body[k - 1..] == [body[k - 1]] + body[k..];
      OwnerOf(body[k - 1], body[k..]);
    }
  }

  lemma {:induction false} TailUnitPaired(body: History, budget: nat)
    requires Stripped(body, {}) == body
    ensures Stripped(TailUnit(body, budget), {}) == TailUnit(body, budget)
  {
    var k := TrailingResults(body);
    var results := body[k..];
    if results == [] {
      if body != [] {
        var x := TruncatedItem(body[|body| - 1], budget);
        assert [x][1..] == [] && !x.ToolResult?;
        StrippedParts([x], {});
      }
    } else {
      TrailingOwner(body);
      var share := Share(budget, Cost([body[k - 1]]), |results|);
      TruncatedKeepsIds(results, share);
      OwnerAndRun(body[k - 1], TruncatedAll(results, share), {});
    }
  }

  /** Fitting keeps tool pairing: if every result lies in its owner's contiguous run, it does
  so after fitting. */
  lemma {:induction false} FitKeepsPairing(items: History, maxTokens: nat)
    requires Paired(items, {})
    ensures Paired(Fitted(items, maxTokens), {})
  {
    StrippedExactly(items, {});
    HeadQuiet(items);
    var body, start := BodyOf(items), Start(items, maxTokens);
    if Cost(items) > maxTokens {
      if start < |body| {
        SuffixAfterPlain(body, start);
        PlainInFront(HeadOf(items), body[start..], {});
      } else {
        TailUnitPaired(body, Budget(items, maxTokens));
        PlainInFront(HeadOf(items), TailUnit(body, Budget(items, maxTokens)), {});
      }
      StrippedExactly(Fitted(items, maxTokens), {});
    }
  }

  // ---------- the procedures ----------

  function Reversed(items: History): History {
    if items == [] then [] else Reversed(items[1..]) + [items[0]]
  }

  lemma {:induction false} ReversedSnoc(items: History, x: Item)
    ensures Reversed(items + [x]) == [x] + Reversed(items)
  {
    if items == [] {
      assert [] + [x] == [x] && [x][1..] == [];
    } else {
      assert (items + [x])[1..] == items[1..] + [x];
      ReversedSnoc(items[1..], x);
    }
  }

  lemma {:induction false} TrailingIs(items: History, k: nat)
    requires k <= |items| && (forall j :: k <= j < |items| ==> items[j].ToolResult?)
    requires k > 0 ==> !items[k - 1].ToolResult?
    ensures TrailingResults(items) == k
  {}

  lemma {:induction false} TruncatedSnoc(items: History, x: Item, maxTokens: nat)
    ensures TruncatedAll(items + [x], maxTokens) == TruncatedAll(items, maxTokens) + [TruncatedItem(x, maxTokens)]
  {
    if items == [] {
      assert [] + [x] == [x] && [x][1..] == [];
    } else {
      assert (items + [x])[1..] == items[1..] + [x];
      TruncatedSnoc(items[1..], x, maxTokens);
    }
  }

  /** `recover_truncated_tail_unit`: pops the last unit off the body and truncates it. */
  method RecoverTruncatedTailUnit(conversation: History, budget: nat) returns (unit: History)
    ensures unit == TailUnit(conversation, budget)
  {
    var body, results := SplitTrailing(conversation);
    if results == [] {
      if body == [] {
        return [];
      }
      return [TruncatedItem(body[|body| - 1], budget)];
    }
    unit := OwnerIn(body);
    unit := AppendTruncated(unit, results, Share(budget, Cost(unit), |results|));
  }

  /** Pops the results off the end. */
  method SplitTrailing(conversation: History) returns (body: History, results: History)
    ensures var k := TrailingResults(conversation);
            body == conversation[..k] && results == conversation[k..]
  {
    body, results := conversation, [];
    while body != [] && body[|body| - 1].ToolResult?
      invariant |body| <= |conversation| && body == conversation[..|body|]
      invariant Reversed(results) == conversation[|body|..]
      invariant forall j :: |body| <= j < |conversation| ==> conversation[j].ToolResult?
    {
      var last := body[|body| - 1];
      ReversedSnoc(results, last);
      assert conversation[|body| - 1..] == [last] + conversation[|body|..];
      results := results + [last];
      body := body[..|body| - 1];
    }
    results := Reversed(results);
    TrailingIs(conversation, |body|);
  }

  method AppendTruncated(owner: History, results: History, per: nat) returns (unit: History)
    ensures unit == owner + TruncatedAll(results, per)
  {
    unit := owner;
    for k := 0 to |results|
      invariant unit == owner + TruncatedAll(results[..k], per)
    {
      assert results[..k + 1] == results[..k] + [results[k]];
      TruncatedSnoc(results[..k], results[k], per);
      unit := unit + [TruncatedItem(results[k], per)];
    }
    assert results[..|results|] == results;
  }

  /** `fit_conversation_to_budget`. */
  method FitConversationToBudget(conversation: History, maxTokens: nat) returns (fitted: History)
    ensures fitted == Fitted(conversation, maxTokens)
  {
    if Cost(conversation) <= maxTokens {
      return conversation;
    }
    var body, budget := BodyOf(conversation), Budget(conversation, maxTokens);
    var start := WalkBack(body, budget);
    start := SkipResults(body, start);
    fitted := HeadOf(conversation);
    if start < |body| {
      fitted := fitted + body[start..];
    } else {
      var unit := RecoverTruncatedTailUnit(body, budget);
      fitted := fitted + unit;
    }
  }

  /** The loop that affords items from the end, newest first. */
  method WalkBack(body: History, budget: nat) returns (start: nat)
    ensures start == AffordedFrom(body, budget, |body|)
  {
    var remaining := budget;
    start := |body|;
    for i := |body| downto 0
      invariant 0 <= remaining && start == i
      invariant AffordedFrom(body, remaining, i) == AffordedFrom(body, budget, |body|)
    {
      var cost := Estimate(body[i]);
      if cost > remaining {
        break;
      }
      remaining := remaining - cost;
      start := i;
    }
  }

  /** The loop that moves past results cut off from their owner. */
  method SkipResults(body: History, from: nat) returns (start: nat)
    requires from <= |body|
    ensures start == PastResults(body, from)
  {
    start := from;
    while start < |body| && body[start].ToolResult?
      invariant from <= start <= |body| && start + Repair.RunLen(body[start..]) == from + Repair.RunLen(body[from..])
    {
      assert body[start..][1..] == body[start + 1..];
      start := start + 1;
    }
  }
}
