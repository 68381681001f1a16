/** Cleaning of the summarizer's raw reply
(crates/codegen/xai-chat-state/src/compaction_utils.rs, `format_compact_summary`). */
module SummaryText {
  import opened Wrappers
  import opened Text

  const ANALYSIS := "<analysis>"
  const ANALYSIS_END := "</analysis>"
  const SUMMARY := "<summary>"
  const SUMMARY_END := "</summary>"
  const HEADING := "Summary:\n"
  const BLANK_LINES := "\n\n\n"
  const ZWSP: char := '\U{200B}'

  /** The control tokens, in the order in which they are defused. */
  const CONTROL_TOKENS := [SUMMARY_END, SUMMARY, ANALYSIS_END, ANALYSIS, "</summary_request>", "<summary_request>"]

  // ---------- the steps ----------

  /** Whether the `<analysis>` at `start` opens the reply or opens its summary block. */
  predicate IsLeading(s: string, start: nat)
    requires At(s, ANALYSIS, start)
  {
    match Find(s, SUMMARY)
    case Some(sp) =>
      if start < sp then true
      else
        AtChars(s, ANALYSIS, start);
        AtChars(s, SUMMARY, sp);
        assert s[start + 1] == 'a' && s[sp + 1] == 's';
        TagsApart(s, SUMMARY, sp, start);
        Trim(s[sp + 9..start]) == ""
    case None => Trim(s[..start]) == ""
  }

  /** A leading `<analysis>` block, or an unclosed one up to the summary. */
  datatype Scratchpad = Closed(lo: nat, hi: nat) | Unclosed(lo: nat, hi: nat)

  function LeadingScratchpad(s: string): (r: Option<Scratchpad>)
    ensures r.Some? ==> r.value.lo <= r.value.hi <= |s| && (r.value.Closed? ==> r.value.lo < r.value.hi)
  {
    match Find(s, ANALYSIS)
    case None => None
    case Some(start) =>
      if !IsLeading(s, start) then None
      else match Find(s[start..], ANALYSIS_END)
           case Some(rel) => Some(Closed(start, start + rel + 11))
           case None => Some(Unclosed(start, UnclosedEnd(s, start)))
  }

  /** Removes leading `<analysis>` blocks; an unclosed one ends the search. */
  function StripAnalysis(s: string): string
    decreases |s|
  {
    match LeadingScratchpad(s)
    case None => s
    case Some(Closed(lo, hi)) => StripAnalysis(Without(s, lo, hi))
    case Some(Unclosed(lo, hi)) => Without(s, lo, hi)
  }

  /** Where an unclosed `<analysis>` at `start` is cut: the next `<summary>`, or the end. */
  function UnclosedEnd(s: string, start: nat): (r: nat)
    requires start <= |s|
    ensures start <= r <= |s|
  {
    match Find(s[start..], SUMMARY)
    case Some(rel) => start + rel
    case None => |s|
  }

  predicate IsListMark(c: char) {
    c == '#' || c == '*' || c == '-' || c == '>' || c == ' ' || c == '\t'
  }

  function TrimListMarks(s: string): string {
    if s != "" && IsListMark(s[0]) then TrimListMarks(s[1..]) else s
  }

  predicate StartsWithDigit(s: string) {
    s != "" && '0' <= s[0] <= '9'
  }

  /** Drops a drafting scratchpad from the front of a summary block, unless the block
  already starts with a numbered section. */
  function StripLeadingScratchpad(inner: string): string {
    var s0 := Trim(inner);
    var s1 := if StartsWithDigit(TrimListMarks(s0)) then s0 else
              match RFind(s0, ANALYSIS_END)
              case Some(pos) => TrimStart(s0[pos + 11..])
              case None => s0;
    if At(s1, SUMMARY, 0) then TrimStart(s1[9..]) else s1
  }

  /** Turns the outermost summary block into a `Summary:` heading and its body. */
  function ExtractBlock(s: string): string {
    match (Find(s, SUMMARY), RFind(s, SUMMARY_END))
    case (Some(start), Some(end)) =>
      if end > start then
        AtChars(s, SUMMARY_END, end);
        TagsApart(s, SUMMARY, start, end);
        Rendered(s, start, end, HEADING)
      else s
    case _ => s
  }

  function Rendered(s: string, start: nat, end: nat, heading: string): string
    requires start + 9 <= end && end + 10 <= |s|
  {
    s[..start] + heading + StripLeadingScratchpad(Trim(s[start + 9..end])) + s[end + 10..]
  }

  /** A token with a zero-width space after its `<`. */
  function Defused(t: string): string
    requires t != ""
  {
    [t[0], ZWSP] + t[1..]
  }

  function DefuseAll(s: string, tokens: seq<string>): string
    requires "" !in tokens
    decreases |tokens|
  {
    if tokens == [] then s
    else DefuseAll(Replace(s, tokens[0], Defused(tokens[0])), tokens[1..])
  }

  function Neutralize(s: string): string {
    DefuseAll(s, CONTROL_TOKENS)
  }

  /** Squeezes every run of blank lines to one. */
  function CollapseBlankLines(s: string): string
    decreases |s|
  {
    if Contains(s, BLANK_LINES) then
      ReplaceShortens(s, BLANK_LINES, "\n\n");
      CollapseBlankLines(Replace(s, BLANK_LINES, "\n\n"))
    else s
  }

  function Formatted(s: string): string {
    Trim(CollapseBlankLines(Neutralize(ExtractBlock(StripAnalysis(s)))))
  }

  // ---------- what the result promises ----------

  /** Nothing in the text can be read as a live control token, and it is laid out tidily. */
  predicate Clean(s: string) {
    && (forall t :: t in CONTROL_TOKENS ==> t != "" && !Contains(s, t))
    && !Contains(s, BLANK_LINES)
    && Trimmed(s)
  }

  /** A control token: `<` opens it, and nothing else in it is `<`, a line break or the
  zero-width space. */
  predicate IsToken(t: string) {
    |t| >= 2 && t[0] == '<' && forall k :: 1 <= k < |t| ==> t[k] != '<' && t[k] != '\n' && t[k] != ZWSP
  }

  lemma {:induction false} ControlTokensAreTokens()
    ensures forall t :: t in CONTROL_TOKENS ==> IsToken(t)
    ensures IsToken(SUMMARY) && IsToken(SUMMARY_END) && IsToken(ANALYSIS) && IsToken(ANALYSIS_END)
  {}

  /** A `<` after the start of a token lies past its end. */
  lemma {:induction false} TagsApart(s: string, t: string, i: nat, j: nat)
    requires At(s, t, i) && i < j < |s| && s[j] == '<'
    requires forall k :: 1 <= k < |t| ==> t[k] != '<'
    ensures i + |t| <= j
  {
    AtChars(s, t, i);
  }

  /** Replacing `p` by a text that agrees with `p` up to a character foreign to `w`
  does not bring `w` to the front of the text. */
  lemma {:induction false} FrontNotCreated(s: string, p: string, r: string, k: nat, w: string)
    requires p != "" && k <= |p| && k < |r| && r[..k] == p[..k] && r[k] !in w
    requires At(Replace(s, p, r), w, 0)
    ensures At(s, w, 0)
  {
    if s == "" || w == "" {
    } else if At(s, p, 0) {
      var rest := Replace(s[|p|..], p, r);
      forall m | 0 <= m < |w| && m < |r|
        ensures r[m] in w
      {
        AtChars(r + rest, w, 0);
        assert r[m] == (r + rest)[m] == w[m];
      }
      assert w == r[..|w|] == r[..k][..|w|] == p[..|w|] == s[..|p|][..|w|];
    } else {
      var rest := Replace(s[1..], p, r);
      assert w == ([s[0]] + rest)[..|w|];
      assert rest[..|w| - 1] == w[1..];
      FrontNotCreated(s[1..], p, r, k, w[1..]);
      assert s[..|w|] == [s[0]] + s[1..][..|w| - 1];
    }
  }

  /** Nor does it create a token anywhere, if only its first character can be `<`. */
  lemma {:induction false} TokenNotCreated(s: string, p: string, r: string, k: nat, t: string, j: nat)
    requires p != "" && k <= |p| && k < |r| && r[..k] == p[..k]
    requires forall m :: 1 <= m < |r| ==> r[m] != '<'
    requires IsToken(t) && r[k] !in t && At(Replace(s, p, r), t, j)
    ensures Contains(s, t)
  {
    var out := Replace(s, p, r);
    AtChars(out, t, j);
    if s == "" {
    } else if j == 0 {
      FrontNotCreated(s, p, r, k, t);
    } else if At(s, p, 0) {
      assert out == r + Replace(s[|p|..], p, r) && out[|r|..] == Replace(s[|p|..], p, r);
      assert forall m :: 0 <= m < |r| ==> out[m] == r[m];
      AtTail(out, |r|, t, j);
      TokenNotCreated(s[|p|..], p, r, k, t, j - |r|);
      assert s[|p|..] == s[|p|..|s|];
      ContainsSlice(s, |p|, |s|, t);
    } else {
      assert out[1..] == Replace(s[1..], p, r);
      AtTail(out, 1, t, j);
      TokenNotCreated(s[1..], p, r, k, t, j - 1);
      assert s[1..|s|] == s[1..];
      ContainsSlice(s, 1, |s|, t);
    }
  }

  /** No token stands in its own defused form, nor begins in it. */
  lemma {:induction false} BehindDefused(t: string, rest: string, j: int)
    requires IsToken(t) && At(Defused(t) + rest, t, j)
    ensures |Defused(t)| <= j
  {
    var d := Defused(t);
    AtChars(d + rest, t, j);
    assert forall m :: 0 <= m < |d| ==> (d + rest)[m] == d[m];
    assert forall m :: 1 <= m < |d| ==> d[m] == if m == 1 then ZWSP else t[m - 1];
    assert (d + rest)[1] == ZWSP;
  }

  /** Defusing a token leaves no live occurrence of it. */
  lemma {:induction false} DefuseRemoves(s: string, t: string)
    requires IsToken(t)
    ensures !Contains(Replace(s, t, Defused(t)), t)
  {
    var d := Defused(t);
    var out := Replace(s, t, d);
    if s == "" {
    } else if At(s, t, 0) {
      var rest := Replace(s[|t|..], t, d);
      DefuseRemoves(s[|t|..], t);
      assert out[|d|..] == rest;
      AtDrop(out, |d|, t);
      forall j | At(out, t, j)
        ensures |d| <= j
      {
        BehindDefused(t, rest, j);
      }
    } else {
      DefuseRemoves(s[1..], t);
      AtDrop(out, 1, t);
      assert out[1..] == Replace(s[1..], t, d);
      if At(out, t, 0) {
        FrontNotCreated(s, t, d, 1, t);
      }
    }
  }

  /** Defusing one token after another: each is gone at the end, none comes back. */
  lemma {:induction false} DefuseAllRemoves(s: string, tokens: seq<string>, t: string)
    requires (forall u :: u in tokens ==> IsToken(u)) && "" !in tokens && IsToken(t)
    requires t in tokens || !Contains(s, t)
    ensures !Contains(DefuseAll(s, tokens), t)
    decreases |tokens|
  {
    if tokens != [] {
      var u := tokens[0];
      var next := Replace(s, u, Defused(u));
      if t == u {
        DefuseRemoves(s, t);
      } else if t !in tokens[1..] && Contains(next, t) {
        assert u in tokens;
        assert forall m :: 1 <= m < |Defused(u)| ==> Defused(u)[m] == (if m == 1 then ZWSP else u[m - 1]);
        var j :| 0 <= j <= |next| && At(next, t, j);
        TokenNotCreated(s, u, Defused(u), 1, t, j);
      }
      DefuseAllRemoves(next, tokens[1..], t);
    }
  }

  lemma {:induction false} DefuseAllIdle(s: string, tokens: seq<string>)
    requires "" !in tokens && forall u :: u in tokens ==> !Contains(s, u)
    ensures DefuseAll(s, tokens) == s
  {
    if tokens != [] {
      ReplaceAbsent(s, tokens[0], Defused(tokens[0]));
      DefuseAllIdle(s, tokens[1..]);
    }
  }

  /** Collapsing blank lines reaches its end and creates no token on the way. */
  lemma {:induction false} CollapseKeepsOut(s: string, t: string)
    requires IsToken(t) && !Contains(s, t)
    ensures !Contains(CollapseBlankLines(s), t)
    decreases |s|
  {
    if Contains(s, BLANK_LINES) {
      var next := Replace(s, BLANK_LINES, "\n\n");
      if Contains(next, t) {
        var j :| 0 <= j <= |next| && At(next, t, j);
        TokenNotCreated(s, BLANK_LINES, "\n\n", 0, t, j);
      }
      ReplaceShortens(s, BLANK_LINES, "\n\n");
      CollapseKeepsOut(next, t);
    }
  }

  lemma {:induction false} CollapseEnds(s: string)
    ensures !Contains(CollapseBlankLines(s), BLANK_LINES)
    decreases |s|
  {
    if Contains(s, BLANK_LINES) {
      ReplaceShortens(s, BLANK_LINES, "\n\n");
      CollapseEnds(Replace(s, BLANK_LINES, "\n\n"));
    }
  }

  /** Whatever the model replied, the cleaned summary holds no live control token, no double
  blank line and no outer white space. */
  lemma {:induction false} FormattedIsClean(s: string)
    ensures Clean(Formatted(s))
  {
    var block := ExtractBlock(StripAnalysis(s));
    var quiet := Neutralize(block);
    var squeezed := CollapseBlankLines(quiet);
    ControlTokensAreTokens();
    forall t | t in CONTROL_TOKENS
      ensures t != "" && !Contains(Formatted(s), t)
    {
      DefuseAllRemoves(block, CONTROL_TOKENS, t);
      CollapseKeepsOut(quiet, t);
      TrimContains(squeezed, t);
    }
    CollapseEnds(quiet);
    TrimContains(squeezed, BLANK_LINES);
    var _, _ := TrimCuts(squeezed);
  }

  /** Cleaning leaves exactly the clean texts alone; with `FormattedIsClean`, cleaning twice
  is cleaning once. */
  lemma {:induction false} FormattedFixesExactlyClean(s: string)
    ensures Formatted(s) == s <==> Clean(s)
    ensures Formatted(Formatted(s)) == Formatted(s)
  {
    FormattedIsClean(s);
    if Clean(s) {
      CleanUnchanged(s);
    }
    CleanUnchanged(Formatted(s));
  }

  lemma {:induction false} CleanUnchanged(s: string)
    requires Clean(s)
    ensures Formatted(s) == s
  {
    assert ANALYSIS in CONTROL_TOKENS && SUMMARY in CONTROL_TOKENS;
    NothingToExtract(s);
    DefuseAllIdle(s, CONTROL_TOKENS);
    TrimTrimmed(s);
  }

  lemma {:induction false} NothingToExtract(s: string)
    requires !Contains(s, ANALYSIS) && !Contains(s, SUMMARY)
    ensures ExtractBlock(StripAnalysis(s)) == s
  {}

  /** `s` is blank space, then a summary block around the clean text `body`. */
  predicate IsSummaryReply(s: string, body: string) {
    Find(s, SUMMARY).Some? && RFind(s, SUMMARY_END).Some? &&
    var start, end := Find(s, SUMMARY).value, RFind(s, SUMMARY_END).value;
    && start + 9 <= end && s[start + 9..end] == body && s[end + 10..] == ""
    && Blank(s[..start]) && !Contains(s[..start], BLANK_LINES)
    && Clean(body) && body != "" && !Contains(s, ANALYSIS)
  }

  /** A reply of the requested shape loses its scratchpad and keeps its summary verbatim. */
  lemma {:induction false} WellFormedReply(notes: string, rest: string, body: string)
    requires !Contains(notes, ANALYSIS_END) && IsSummaryReply(rest, body)
    ensures Formatted(ANALYSIS + notes + ANALYSIS_END + rest) == HEADING + body
  {
    ScratchpadDropped(notes, rest);
    BlockExtracted(rest, body);
    HeadedBlockTidied(rest[..Find(rest, SUMMARY).value], body);
  }

  lemma {:induction false} BlockExtracted(s: string, body: string)
    requires IsSummaryReply(s, body)
    ensures ExtractBlock(s) == s[..Find(s, SUMMARY).value] + HEADING + body
  {
    CleanFacts(body);
    ScratchpadIdle(body);
    RenderedIs(s, Find(s, SUMMARY).value, RFind(s, SUMMARY_END).value, HEADING, body);
  }

  lemma {:induction false} RenderedIs(s: string, start: nat, end: nat, heading: string, body: string)
    requires start + 9 <= end && end + 10 == |s| && s[start + 9..end] == body
    requires StripLeadingScratchpad(Trim(body)) == body
    ensures Rendered(s, start, end, heading) == s[..start] + heading + body
  {
    AppendNothing(s[..start] + heading + body);
  }

  lemma {:induction false} HeadedBlockTidied(gap: string, body: string)
    requires Blank(gap) && !Contains(gap, BLANK_LINES) && Clean(body) && body != ""
    ensures Trim(CollapseBlankLines(Neutralize(gap + HEADING + body))) == HEADING + body
  {
    HeadedBlockQuiet(gap, body);
    TrimAfter(gap, HEADING + body);
  }

  lemma {:induction false} HeadedBlockQuiet(gap: string, body: string)
    requires Blank(gap) && !Contains(gap, BLANK_LINES) && Clean(body) && body != ""
    ensures CollapseBlankLines(Neutralize(gap + HEADING + body)) == gap + (HEADING + body)
  {
    var head := gap + HEADING;
    HeadingIsQuiet(gap);
    ControlTokensAreTokens();
    forall t | t in CONTROL_TOKENS
      ensures t != "" && !Contains(head + body, t)
    {
      TokenBehind(head, body, t);
    }
    DefuseAllIdle(head + body, CONTROL_TOKENS);
    assert !IsWhitespace(body[0]) && !IsWhitespace(BLANK_LINES[1]) == !IsWhitespace(BLANK_LINES[2]) == false;
    ContainsJoin(head, body, BLANK_LINES);
    assert head + body == gap + (HEADING + body);
  }

  /** A token in `head + body` is one in `body`, when `head` has no `<`. */
  lemma {:induction false} TokenBehind(head: string, body: string, t: string)
    requires IsToken(t) && (forall k :: 0 <= k < |head| ==> head[k] != '<') && !Contains(body, t)
    ensures !Contains(head + body, t)
  {
    var s := head + body;
    assert s[|head|..] == body && s[..|head|] == head;
    forall j | At(s, t, j)
      ensures At(body, t, j - |head|)
    {
      AtChars(s, t, j);
      AtTail(s, |head|, t, j);
    }
  }

  lemma {:induction false} NoBlankLines(s: string)
    requires forall k :: 0 <= k < |s| - 1 ==> s[k] != '\n'
    ensures !Contains(s, BLANK_LINES)
  {
    forall j | At(s, BLANK_LINES, j)
      ensures s[j] == '\n'
    {
      AtChars(s, BLANK_LINES, j);
    }
  }

  lemma {:induction false} HeadingIsQuiet(gap: string)
    requires Blank(gap) && !Contains(gap, BLANK_LINES)
    ensures forall k :: 0 <= k < |gap + HEADING| ==> (gap + HEADING)[k] != '<'
    ensures !Contains(gap + HEADING, BLANK_LINES)
  {
    NoBlankLines(HEADING);
    ContainsJoin(gap, HEADING, BLANK_LINES);
  }

  lemma {:induction false} ScratchpadDropped(notes: string, kept: string)
    requires !Contains(notes, ANALYSIS_END) && !Contains(kept, ANALYSIS)
    ensures StripAnalysis(ANALYSIS + notes + ANALYSIS_END + kept) == kept
  {
    var s := ANALYSIS + notes + ANALYSIS_END + kept;
    FirstClose(ANALYSIS, notes, ANALYSIS_END, kept);
    LeadingAtFront(s);
    var end := 10 + |notes|;
    assert s[0..] == s && s[end + 11..] == kept;
    assert Without(s, 0, end + 11) == kept;
  }

  lemma {:induction false} LeadingAtFront(s: string)
    requires At(s, ANALYSIS, 0)
    ensures Find(s, ANALYSIS) == Some(0) && IsLeading(s, 0)
  {
    FindIs(s, ANALYSIS, 0);
    if Find(s, SUMMARY).Some? {
      AtChars(s, SUMMARY, Find(s, SUMMARY).value);
      AtChars(s, ANALYSIS, 0);
      assert s[1] == 'a' && SUMMARY[1] == 's';
    }
  }

  /** An occurrence of `t` after another tag lies wholly behind it. */
  lemma {:induction false} BehindTag(tag: string, x: string, t: string, j: int)
    requires IsToken(tag) && IsToken(t) && tag[1] != t[1] && At(tag + x, t, j)
    ensures At(x, t, j - |tag|)
  {
    AtChars(tag + x, t, j);
    assert (tag + x)[..|tag|] == tag;
    assert forall m :: 0 <= m < |tag| ==> (tag + x)[m] == tag[m];
    AtTail(tag + x, |tag|, t, j);
    assert (tag + x)[|tag|..] == x;
  }

  lemma {:induction false} FirstClose(open: string, x: string, close: string, rest: string)
    requires IsToken(open) && IsToken(close) && open[1] != close[1] && !Contains(x, close)
    ensures At(open + x + close + rest, open, 0)
    ensures Find(open + x + close + rest, close) == Some(|open| + |x|)
  {
    var s := open + x + close + rest;
    assert s == (open + x) + (close + rest);
    AtJoin(open + x, close + rest, close, |open| + |x|);
    assert At(close + rest, close, 0);
    forall j | 0 <= j < |open| + |x|
      ensures !At(s, close, j)
    {
      AtJoin(open + x, close + rest, close, j);
      if At(open + x, close, j) { BehindTag(open, x, close, j); }
    }
    FindIs(s, close, |open| + |x|);
  }

  lemma {:induction false} CleanFacts(s: string)
    requires Clean(s)
    ensures !Contains(s, ANALYSIS) && !Contains(s, ANALYSIS_END) && !At(s, SUMMARY, 0) && Trimmed(s)
  {
    assert ANALYSIS in CONTROL_TOKENS && ANALYSIS_END in CONTROL_TOKENS && SUMMARY in CONTROL_TOKENS;
  }

  lemma {:induction false} ScratchpadIdle(inner: string)
    requires Trimmed(inner) && !Contains(inner, ANALYSIS_END) && !At(inner, SUMMARY, 0)
    ensures StripLeadingScratchpad(Trim(inner)) == inner
  {
    TrimTrimmed(inner);
  }

  // ---------- the procedure ----------

  /** The loop that removes leading `<analysis>` blocks; it ends on every text. */
  method DropScratchpads(s: string) returns (result: string)
    ensures result == StripAnalysis(s)
  {
    result := s;
    var found := LeadingScratchpad(result);
    while found.Some?
      invariant found == LeadingScratchpad(result)
      invariant StripAnalysis(result) == StripAnalysis(s)
      decreases |result|
    {
      var block := found.value;
      result := Without(result, block.lo, block.hi);
      if block.Unclosed? {
        return;
      }
      found := LeadingScratchpad(result);
    }
  }

  /** The loop that squeezes blank lines. */
  method SqueezeBlankLines(s: string) returns (result: string)
    ensures result == CollapseBlankLines(s)
  {
    result := s;
    while Contains(result, BLANK_LINES)
      invariant CollapseBlankLines(result) == CollapseBlankLines(s)
      decreases |result|
    {
      ReplaceShortens(result, BLANK_LINES, "\n\n");
      result := Replace(result, BLANK_LINES, "\n\n");
    }
  }

  /** `format_compact_summary`. */
  method FormatCompactSummary(summary: string) returns (result: string)
    ensures result == Formatted(summary)
    ensures Clean(result)
  {
    result := DropScratchpads(summary);
    result := SqueezeBlankLines(Neutralize(ExtractBlock(result)));
    result := Trim(result);
    FormattedIsClean(summary);
  }
}
