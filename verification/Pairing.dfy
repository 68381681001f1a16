/** Tool results and the calls they answer: the validity checks and filters over a history
(crates/codegen/xai-chat-state/src/compaction_utils.rs). */
module Pairing {
  import opened Conversation

  function CallIds(calls: seq<ToolCall>): set<string> {
    if calls == [] then {} else {calls[0].id} + CallIds(calls[1..])
  }

  function Declares(item: Item): set<string> {
    if item.Assistant? then CallIds(item.calls) else {}
  }

  // ---------- any earlier declaration: validate and sanitize ----------

  /** The ids that `validate_compacted_history` reports, `seen` being declared already. */
  function Orphans(items: History, seen: set<string>): seq<string> {
    if items == [] then []
    else
      var rest := Orphans(items[1..], seen + Declares(items[0]));
      if items[0].ToolResult? && items[0].callId !in seen then [items[0].callId] + rest else rest
  }

  /** What `sanitize_compacted_history` keeps. */
  function Sanitized(items: History, seen: set<string>): History {
    if items == [] then []
    else
      var rest := Sanitized(items[1..], seen + Declares(items[0]));
      if items[0].ToolResult? && items[0].callId !in seen then rest else [items[0]] + rest
  }

  // ---------- the contiguous run: strip_displaced_tool_results ----------

  /** The ids a result may carry behind `item`, given those it could carry before. */
  function RunAfter(item: Item, run: set<string>): set<string> {
    if item.ToolResult? then run else Declares(item)
  }

  function Stripped(items: History, run: set<string>): History {
    if items == [] then []
    else
      var rest := Stripped(items[1..], RunAfter(items[0], run));
      if items[0].ToolResult? && items[0].callId !in run then rest else [items[0]] + rest
  }

  function Displaced(items: History, run: set<string>): seq<string> {
    if items == [] then []
    else
      var rest := Displaced(items[1..], RunAfter(items[0], run));
      if items[0].ToolResult? && items[0].callId !in run then [items[0].callId] + rest else rest
  }

  // ---------- what they mean ----------

  /** Some earlier assistant declared the call that item `i` answers. */
  ghost predicate DeclaredBefore(items: History, i: nat, seen: set<string>)
    requires i < |items| && items[i].ToolResult?
  {
    items[i].callId in seen || exists j :: 0 <= j < i && items[i].callId in Declares(items[j])
  }

  /** Item `i` answers a call of the assistant that its contiguous run of results follows. */
  ghost predicate InItsRun(items: History, i: nat, run: set<string>)
    requires i < |items| && items[i].ToolResult?
  {
    || (items[i].callId in run && forall k :: 0 <= k < i ==> items[k].ToolResult?)
    || (exists j :: 0 <= j < i && items[i].callId in Declares(items[j])
                    && forall k :: j < k < i ==> items[k].ToolResult?)
  }

  ghost predicate Valid(items: History, seen: set<string>) {
    forall i :: 0 <= i < |items| && items[i].ToolResult? ==> DeclaredBefore(items, i, seen)
  }

  ghost predicate Paired(items: History, run: set<string>) {
    forall i :: 0 <= i < |items| && items[i].ToolResult? ==> InItsRun(items, i, run)
  }

  lemma {:induction false} ValidCons(items: History, seen: set<string>)
    requires items != []
    ensures Valid(items, seen) <==>
            (items[0].ToolResult? ==> items[0].callId in seen) && Valid(items[1..], seen + Declares(items[0]))
  {
    var t, seen' := items[1..], seen + Declares(items[0]);
    forall i | 0 <= i < |t| && t[i].ToolResult?
      ensures DeclaredBefore(items, i + 1, seen) <==> DeclaredBefore(t, i, seen')
    {
      if DeclaredBefore(items, i + 1, seen) && items[i + 1].callId !in seen' {
        var j :| 0 <= j < i + 1 && items[i + 1].callId in Declares(items[j]);
        assert t[j - 1] == items[j];
      }
      if DeclaredBefore(t, i, seen') && t[i].callId !in seen' {
        var j :| 0 <= j < i && t[i].callId in Declares(t[j]);
        assert items[j + 1] == t[j];
      }
    }
    assert forall i :: 1 <= i < |items| ==> items[i] == t[i - 1];
    if Valid(t, seen') && (items[0].ToolResult? ==> items[0].callId in seen) {
      forall i | 0 <= i < |items| && items[i].ToolResult?
        ensures DeclaredBefore(items, i, seen)
      {
        if i > 0 { assert DeclaredBefore(t, i - 1, seen'); }
      }
    }
    if Valid(items, seen) {
      forall i | 0 <= i < |t| && t[i].ToolResult?
        ensures DeclaredBefore(t, i, seen')
      {
        assert DeclaredBefore(items, i + 1, seen);
      }
    }
  }

  /** `validate_compacted_history` reports nothing exactly when every result has an earlier
  declaration. */
  lemma {:induction false} OrphansExactly(items: History, seen: set<string>)
    ensures Orphans(items, seen) == [] <==> Valid(items, seen)
  {
    if items != [] {
      OrphansExactly(items[1..], seen + Declares(items[0]));
      ValidCons(items, seen);
    }
  }

  lemma {:induction false} InItsRunCons(items: History, i: nat, run: set<string>)
    requires i + 1 < |items| && items[i + 1].ToolResult?
    ensures InItsRun(items, i + 1, run) <==> InItsRun(items[1..], i, RunAfter(items[0], run))
  {
    var t, run' := items[1..], RunAfter(items[0], run);
    assert forall k :: 0 <= k < |t| ==> t[k] == items[k + 1];
    if InItsRun(items, i + 1, run) {
      if items[i + 1].callId in run && forall k :: 0 <= k < i + 1 ==> items[k].ToolResult? {
        assert items[0].ToolResult?;
      } else {
        var j :| 0 <= j < i + 1 && items[i + 1].callId in Declares(items[j])
                 && forall k :: j < k < i + 1 ==> items[k].ToolResult?;
        if j > 0 {
          assert t[j - 1] == items[j];
        }
      }
    }
    if InItsRun(t, i, run') {
      if t[i].callId in run' && forall k :: 0 <= k < i ==> t[k].ToolResult? {
        assert forall k :: 1 <= k < i + 1 ==> items[k].ToolResult? by {
          assert forall k :: 1 <= k < i + 1 ==> items[k] == t[k - 1];
        }
      } else {
        var j :| 0 <= j < i && t[i].callId in Declares(t[j]) && forall k :: j < k < i ==> t[k].ToolResult?;
        assert items[j + 1] == t[j];
        assert forall k :: j + 1 < k < i + 1 ==> items[k] == t[k - 1];
      }
    }
  }

  lemma {:induction false} PairedCons(items: History, run: set<string>)
    requires items != []
    ensures Paired(items, run) <==>
            (items[0].ToolResult? ==> items[0].callId in run) && Paired(items[1..], RunAfter(items[0], run))
  {
    var t, run' := items[1..], RunAfter(items[0], run);
    forall i | 0 <= i < |t| && t[i].ToolResult?
      ensures InItsRun(items, i + 1, run) <==> InItsRun(t, i, run')
    {
      InItsRunCons(items, i, run);
    }
    if Paired(t, run') && (items[0].ToolResult? ==> items[0].callId in run) {
      forall i | 0 <= i < |items| && items[i].ToolResult?
        ensures InItsRun(items, i, run)
      {
        if i > 0 { assert InItsRun(t, i - 1, run'); }
      }
    }
    if Paired(items, run) {
      forall i | 0 <= i < |t| && t[i].ToolResult?
        ensures InItsRun(t, i, run')
      {
        assert InItsRun(items, i + 1, run);
      }
    }
  }

  /** The strip pass removes nothing exactly when every result lies in its owner's run. */
  lemma {:induction false} StrippedExactly(items: History, run: set<string>)
    ensures Stripped(items, run) == items <==> Paired(items, run)
    ensures Displaced(items, run) == [] <==> Paired(items, run)
    ensures |Stripped(items, run)| + |Displaced(items, run)| == |items|
  {
    if items != [] {
      StrippedExactly(items[1..], RunAfter(items[0], run));
      PairedCons(items, run);
    }
  }

  // ---------- cutting and joining paired histories ----------

  predicate NoResults(items: History) {
    forall k :: 0 <= k < |items| ==> !items[k].ToolResult?
  }

  lemma {:induction false} PairedWiderRun(items: History, run: set<string>, wide: set<string>)
    requires Stripped(items, run) == items && run <= wide
    ensures Stripped(items, wide) == items
  {
    if items != [] {
      StrippedParts(items, run);
      PairedWiderRun(items[1..], RunAfter(items[0], run), RunAfter(items[0], wide));
    }
  }

  lemma {:induction false} StrippedParts(items: History, run: set<string>)
    requires items != []
    ensures Stripped(items, run) == items <==>
            (items[0].ToolResult? ==> items[0].callId in run)
            && Stripped(items[1..], RunAfter(items[0], run)) == items[1..]
  {
    StrippedExactly(items, run);
    StrippedExactly(items[1..], RunAfter(items[0], run));
    PairedCons(items, run);
  }

  lemma {:induction false} PlainInFront(plain: History, items: History, run: set<string>)
    requires NoResults(plain) && Stripped(items, {}) == items
    ensures Stripped(plain + items, run) == plain + items
  {
    if plain == [] {
      assert plain + items == items;
      PairedWiderRun(items, {}, run);
    } else {
      var all := plain + items;
      assert all[1..] == plain[1..] + items;
      PlainInFront(plain[1..], items, RunAfter(plain[0], run));
      StrippedParts(all, run);
    }
  }

  lemma {:induction false} PlainBehind(items: History, plain: History, run: set<string>)
    requires NoResults(plain) && Stripped(items, run) == items
    ensures Stripped(items + plain, run) == items + plain
  {
    if items == [] {
      assert items + plain == plain + [];
      PlainInFront(plain, [], run);
    } else {
      var all := items + plain;
      assert all[1..] == items[1..] + plain;
      StrippedParts(items, run);
      PlainBehind(items[1..], plain, RunAfter(items[0], run));
      StrippedParts(all, run);
    }
  }

  /** The ids a result may carry at position `k`. */
  function RunAt(items: History, run: set<string>, k: nat): set<string>
    requires k <= |items|
  {
    if k == 0 then run else RunAt(items[1..], RunAfter(items[0], run), k - 1)
  }

  lemma {:induction false} SuffixPaired(items: History, run: set<string>, k: nat)
    requires k <= |items| && Stripped(items, run) == items
    ensures Stripped(items[k..], RunAt(items, run, k)) == items[k..]
    ensures k > 0 && items[k - 1].User? ==> RunAt(items, run, k) == {}
  {
    if k > 0 {
      StrippedParts(items, run);
      SuffixPaired(items[1..], RunAfter(items[0], run), k - 1);
      assert items[1..][k - 1..] == items[k..];
      assert k > 1 ==> items[1..][k - 2] == items[k - 1];
    }
  }

  // ---------- the filters agree ----------

  /** `sanitize_compacted_history` strips what `validate_compacted_history` reports, and what
  it keeps is valid; doing it twice is doing it once. */
  lemma {:induction false} SanitizeMeetsValidate(items: History, seen: set<string>)
    ensures Orphans(Sanitized(items, seen), seen) == []
    ensures Sanitized(Sanitized(items, seen), seen) == Sanitized(items, seen)
    ensures |Sanitized(items, seen)| + |Orphans(items, seen)| == |items|
    ensures Orphans(items, seen) == [] ==> Sanitized(items, seen) == items
  {
    if items != [] {
      var seen' := seen + Declares(items[0]);
      SanitizeMeetsValidate(items[1..], seen');
      var rest := Sanitized(items[1..], seen');
      if items[0].ToolResult? {
        assert seen' == seen;
      }
      assert ([items[0]] + rest)[1..] == rest;
    }
  }

  ghost predicate Subsequence(a: History, b: History) {
    a == [] || (b != [] && ((a[0] == b[0] && Subsequence(a[1..], b[1..])) || Subsequence(a, b[1..])))
  }

  /** The strip pass is the stricter filter: it keeps a subsequence of what sanitizing keeps,
  what it keeps is paired, hence valid, and doing it twice is doing it once. */
  lemma {:induction false} StripMeetsSanitize(items: History, run: set<string>, seen: set<string>)
    requires run <= seen
    ensures Subsequence(Stripped(items, run), Sanitized(items, seen))
    ensures Orphans(Stripped(items, run), seen) == []
    ensures Stripped(Stripped(items, run), run) == Stripped(items, run)
  {
    if items != [] {
      var run', seen' := RunAfter(items[0], run), seen + Declares(items[0]);
      StripMeetsSanitize(items[1..], run', seen');
      var kept, wide := Stripped(items[1..], run'), Sanitized(items[1..], seen');
      assert ([items[0]] + kept)[1..] == kept && ([items[0]] + wide)[1..] == wide;
      if items[0].ToolResult? {
        assert seen' == seen;
      }
    }
  }

  // ---------- the procedures ----------

  method ValidateCompactedHistory(items: History) returns (invalid: seq<string>)
    ensures invalid == Orphans(items, {})
    ensures invalid == [] <==> Valid(items, {})
  {
    var seen: set<string> := {};
    invalid := [];
    for k := 0 to |items|
      invariant invalid + Orphans(items[k..], seen) == Orphans(items, {})
    {
      assert items[k..][1..] == items[k + 1..] && (!items[k].Assistant? ==> seen + Declares(items[k]) == seen);
      if items[k].Assistant? {
        seen := seen + CallIds(items[k].calls);
      } else if items[k].ToolResult? && items[k].callId !in seen {
        invalid := invalid + [items[k].callId];
      }
    }
    OrphansExactly(items, {});
  }

  method SanitizeCompactedHistory(items: History) returns (kept: History, strippedIds: seq<string>)
    ensures kept == Sanitized(items, {}) && strippedIds == Orphans(items, {})
  {
    var seen: set<string> := {};
    kept, strippedIds := [], [];
    for k := 0 to |items|
      invariant kept + Sanitized(items[k..], seen) == Sanitized(items, {})
      invariant strippedIds + Orphans(items[k..], seen) == Orphans(items, {})
    {
      assert items[k..][1..] == items[k + 1..] && (!items[k].Assistant? ==> seen + Declares(items[k]) == seen);
      if items[k].ToolResult? && items[k].callId !in seen {
        strippedIds := strippedIds + [items[k].callId];
      } else {
        kept := kept + [items[k]];
        if items[k].Assistant? {
          seen := seen + CallIds(items[k].calls);
        }
      }
    }
  }
}
