/** What fitting a history to a token budget keeps of it, item by item. */
module FittingShape {
  import opened Text
  import opened Conversation
  import opened Truncation
  import opened Fitting

  /** A history within the budget is left alone. */
  lemma {:induction false} FittingKeepsWhole(items: History, maxTokens: nat)
    requires Cost(items) <= maxTokens
    ensures Fitted(items, maxTokens) == items
  {}

  // ---------- one item ----------

  /** A text within its bytes is kept whole; of a longer one, the longest prefix on a character boundary within
  the bytes less 64, and a marker with the number of bytes dropped. */
  ghost predicate TextCutTo(s: string, r: string, maxBytes: nat) {
    if Utf8Len(s) <= maxBytes then r == s
    else exists k, number | 0 <= k <= |s| :: IsCutAt(s, r, maxBytes, k, number)
  }

  predicate IsCutAt(s: string, r: string, maxBytes: nat, k: nat, number: string)
    requires k <= |s|
  {
    && r == s[..k] + ("\n[... truncated " + number + " bytes to fit the compaction window ...]")
    && ReadDecimal(number) == Utf8Len(s) - Utf8Len(s[..k])
    && (k == 0 || Utf8Len(s[..k]) + 64 <= maxBytes)
    && (k < |s| && maxBytes >= 64 ==> Utf8Len(s[..k + 1]) + 64 > maxBytes)
  }

  ghost predicate PartCutTo(was: Part, now: Part, maxBytes: nat) {
    if was.TextPart? then now.TextPart? && TextCutTo(was.text, now.text, maxBytes) else now == was
  }

  /** An item cut to so many tokens: only texts of users, assistants and tool results are cut, each to four bytes
  a token. */
  ghost predicate CutTo(was: Item, now: Item, tokens: nat) {
    var bytes := Min(4 * tokens, 0xFFFF_FFFF_FFFF_FFFF);
    match was
    case User(parts, meta) =>
      && now.User? && now.meta == meta && |now.parts| == |parts|
      && forall j :: 0 <= j < |parts| ==> PartCutTo(parts[j], now.parts[j], bytes)
    case Assistant(content, calls, origin) =>
      now.Assistant? && now.calls == calls && now.origin == origin && TextCutTo(content, now.content, bytes)
    case ToolResult(id, content, images) =>
      now.ToolResult? && now.callId == id && now.images == images && TextCutTo(content, now.content, bytes)
    case _ => now == was
  }

  lemma {:induction false} PrefixGrows(s: string, k: nat)
    requires k < |s|
    ensures Utf8Len(s[..k + 1]) == Utf8Len(s[..k]) + CharBytes(s[k])
  {
    assert s[..k + 1] == s[..k] + [s[k]];
    Utf8LenConcat(s[..k], [s[k]]);
    assert [s[k]][1..] == "";
  }

  lemma {:induction false} PrefixBoundary(s: string, k: nat)
    requires k <= |s|
    ensures IsCharBoundary(s, Utf8Len(s[..k]))
  {
    if k > 0 {
      PrefixBoundary(s[1..], k - 1);
      assert s[..k][1..] == s[1..][..k - 1];
    }
  }

  lemma {:induction false} ShortenedIs(s: string, maxBytes: nat)
    ensures TextCutTo(s, Shortened(s, maxBytes), maxBytes)
  {
    if Utf8Len(s) > maxBytes {
      TruncationBound(s, maxBytes);
      KeptLen(s, maxBytes);
      var kept, dropped := Kept(s, maxBytes), Dropped(s, maxBytes);
      var k := |kept|;
      assert kept == s[..k];
      if k < |s| {
        PrefixGrows(s, k);
        PrefixBoundary(s, k + 1);
      }
      assert k > 0 ==> Utf8Len(s[..k]) > 0;
      assert IsCutAt(s, Shortened(s, maxBytes), maxBytes, k, Decimal(dropped));
    }
  }

  lemma {:induction false} ShortenedPartsAre(parts: seq<Part>, maxBytes: nat)
    ensures var r := ShortenedParts(parts, maxBytes);
            |r| == |parts| && forall j :: 0 <= j < |parts| ==> PartCutTo(parts[j], r[j], maxBytes)
  {
    if parts != [] {
      ShortenedPartsAre(parts[1..], maxBytes);
      if parts[0].TextPart? { ShortenedIs(parts[0].text, maxBytes); }
    }
  }

  lemma {:induction false} TruncatedIs(item: Item, tokens: nat)
    ensures CutTo(item, TruncatedItem(item, tokens), tokens)
  {
    var bytes := Min(4 * tokens, 0xFFFF_FFFF_FFFF_FFFF);
    match item
    case User(parts, _) => ShortenedPartsAre(parts, bytes);
    case Assistant(content, _, _) => ShortenedIs(content, bytes);
    case ToolResult(_, content, _) => ShortenedIs(content, bytes);
    case _ =>
  }

  lemma {:induction false} TruncatedAllAre(items: History, tokens: nat)
    ensures var r := TruncatedAll(items, tokens);
            |r| == |items| && forall j :: 0 <= j < |items| ==> CutTo(items[j], r[j], tokens)
  {
    if items != [] {
      TruncatedAllAre(items[1..], tokens);
      TruncatedIs(items[0], tokens);
    }
  }

  // ---------- the last unit ----------

  /** Where the run of tool results at the end starts. */
  predicate TrailStart(body: History, k: int) {
    && 0 <= k <= |body| && (forall j :: k <= j < |body| ==> body[j].ToolResult?)
    && (k > 0 ==> !body[k - 1].ToolResult?)
  }

  /** The assistant that asked for the results, if it stands right before them. */
  function Owner(body: History, k: nat): History
    requires k <= |body|
  {
    if k > 0 && body[k - 1].Assistant? && body[k - 1].calls != [] then [body[k - 1]] else []
  }

  /** What each of `n` results may take: an even share of what the owner leaves, and at least one token. */
  predicate IsShare(budget: nat, ownerCost: nat, n: nat, share: nat) {
    share >= 1 && (share > 1 ==> share * n + ownerCost <= budget) && (share + 1) * n + ownerCost > budget
  }

  /** The last item cut to the budget, or, when tool results come last, all of these cut to an even share behind
  their owner, which is whole. */
  ghost predicate IsLastUnit(body: History, budget: nat, unit: History, k: nat, share: nat)
    requires k <= |body|
  {
    if body == [] then unit == []
    else if k == |body| then |unit| == 1 && CutTo(body[k - 1], unit[0], budget)
    else
      IsShare(budget, Cost(Owner(body, k)), |body| - k, share) && AreCut(body, k, Owner(body, k), unit, share)
  }

  /** The owner, and behind it each result from `k` on, cut. */
  ghost predicate AreCut(body: History, k: nat, owner: History, unit: History, tokens: nat)
    requires k <= |body|
  {
    && |unit| == |owner| + (|body| - k) && unit[..|owner|] == owner
    && forall j :: k <= j < |body| ==> CutTo(body[j], unit[|owner| + (j - k)], tokens)
  }

  lemma {:induction false} ShareIs(budget: nat, ownerCost: nat, n: nat)
    requires n > 0
    ensures IsShare(budget, ownerCost, n, Share(budget, ownerCost, n))
  {
    var left := Leftover(budget, ownerCost);
    var q := left / n;
    assert q * n <= left < (q + 1) * n;
    if q < 1 {
      assert 2 * n > left;
    }
  }

  lemma {:induction false} ResultsBehind(body: History, k: nat, owner: History, share: nat)
    requires k <= |body|
    ensures AreCut(body, k, owner, owner + TruncatedAll(body[k..], share), share)
  {
    TruncatedAllAre(body[k..], share);
    var cut := TruncatedAll(body[k..], share);
    forall j | k <= j < |body|
      ensures CutTo(body[j], (owner + cut)[|owner| + (j - k)], share)
    {
      assert body[j] == body[k..][j - k] && (owner + cut)[|owner| + (j - k)] == cut[j - k];
    }
  }

  lemma {:induction false} LastItemCut(body: History, budget: nat, share: nat)
    requires TrailingResults(body) == |body|
    ensures IsLastUnit(body, budget, TailUnit(body, budget), |body|, share)
  {
    if body != [] {
      TruncatedIs(body[|body| - 1], budget);
      assert body[|body|..] == [];
    }
  }

  lemma {:induction false} LastResultsCut(body: History, budget: nat, k: nat) returns (share: nat)
    requires k == TrailingResults(body) < |body|
    ensures IsShare(budget, Cost(Owner(body, k)), |body| - k, share)
    ensures AreCut(body, k, Owner(body, k), TailUnit(body, budget), share)
  {
    var owner := Owner(body, k);
    share := Share(budget, Cost(owner), |body| - k);
    ShareIs(budget, Cost(owner), |body| - k);
    ResultsBehind(body, k, owner, share);
    UnitOfResults(body, budget, k);
  }

  lemma {:induction false} OwnerIs(body: History, k: nat)
    requires k <= |body|
    ensures OwnerIn(body[..k]) == Owner(body, k)
  {}

  lemma {:induction false} UnitOfResults(body: History, budget: nat, k: nat)
    requires k == TrailingResults(body) < |body|
    ensures var owner := Owner(body, k);
            TailUnit(body, budget) == owner + TruncatedAll(body[k..], Share(budget, Cost(owner), |body| - k))
  {
    OwnerIs(body, k);
    var results := body[k..];
    assert |results| == |body| - k && results != [];
  }

  lemma {:induction false} TailUnitIs(body: History, budget: nat) returns (k: nat, share: nat)
    ensures TrailStart(body, k) && IsLastUnit(body, budget, TailUnit(body, budget), k, share)
  {
    k := TrailingResults(body);
    share := 1;
    if k < |body| {
      share := LastResultsCut(body, budget, k);
    } else {
      LastItemCut(body, budget, share);
    }
  }

  // ---------- the whole ----------

  /** The least start from which a suffix is within the budget. */
  ghost predicate LongestWithin(body: History, budget: nat, s: int) {
    0 <= s <= |body| && Cost(body[s..]) <= budget && forall j :: 0 <= j < s ==> Cost(body[j..]) > budget
  }

  /** The first item from `s` on that is no tool result. */
  predicate PastResultsAt(body: History, s: nat, start: nat) {
    && s <= start <= |body| && (forall j :: s <= j < start ==> body[j].ToolResult?)
    && (start < |body| ==> !body[start].ToolResult?)
  }

  /** An over-budget history keeps its System message, if it opens with one, and behind it the longest suffix that
  the rest of the budget affords less its leading tool results; if nothing of that is left, its last unit, cut. */
  lemma {:induction false} FittedIs(items: History, maxTokens: nat)
    returns (h: nat, s: nat, start: nat, k: nat, share: nat)
    requires Cost(items) > maxTokens
    ensures h <= |items| && h == (if items[0].System? then 1 else 0)
    ensures var body := items[h..];
            var budget := Leftover(maxTokens, if h == 1 then Estimate(items[0]) else 0);
            && LongestWithin(body, budget, s) && PastResultsAt(body, s, start) && TrailStart(body, k)
            && items[..h] <= Fitted(items, maxTokens)
            && var rest := Fitted(items, maxTokens)[h..];
            if start < |body| then rest == body[start..] else IsLastUnit(body, budget, rest, k, share)
  {
    var body, budget := BodyOf(items), Budget(items, maxTokens);
    h := |HeadOf(items)|;
    HeadIs(items, maxTokens);
    s, start := StartIs(body, budget);
    k, share := TailUnitIs(body, budget);
    HeadAndRest(items[..h], if start < |body| then body[start..] else TailUnit(body, budget));
  }

  lemma {:induction false} HeadIs(items: History, maxTokens: nat)
    requires items != []
    ensures var h := |HeadOf(items)|;
            && h == (if items[0].System? then 1 else 0) && HeadOf(items) == items[..h] && BodyOf(items) == items[h..]
            && Budget(items, maxTokens) == Leftover(maxTokens, if h == 1 then Estimate(items[0]) else 0)
  {
    if items[0].System? {
      SingleCost(items[0]);
      assert HeadOf(items) == [items[0]];
    }
  }

  lemma {:induction false} StartIs(body: History, budget: nat) returns (s: nat, start: nat)
    ensures LongestWithin(body, budget, s) && PastResultsAt(body, s, start)
    ensures s == AffordedFrom(body, budget, |body|) && start == PastResults(body, s)
  {
    s := AffordedFrom(body, budget, |body|);
    LongestSuffix(body, budget);
    start := PastResults(body, s);
    forall j | s <= j < start
      ensures body[j].ToolResult?
    {
      assert body[j] == body[s..][j - s];
    }
  }

  lemma {:induction false} HeadAndRest(head: History, rest: History)
    ensures head <= head + rest && (head + rest)[|head|..] == rest
  {}
}
