/** What each stage of cleaning a summary answers, in terms of where its tags stand
(crates/codegen/xai-chat-state/src/compaction_utils.rs, `format_compact_summary`). */
module SummaryAnswers {
  import opened Wrappers
  import opened Text
  import opened SummaryText

  predicate FirstAt(s: string, p: string, from: nat, i: int) {
    from <= i && At(s, p, i) && forall j :: from <= j < i ==> !At(s, p, j)
  }

  ghost predicate LastAt(s: string, p: string, i: int) {
    At(s, p, i) && forall j :: i < j ==> !At(s, p, j)
  }

  lemma {:induction false} TrimEmpty(s: string)
    ensures Trim(s) == "" <==> Blank(s)
  {
    var lo, hi := TrimCuts(s);
    if Trim(s) == "" {
      assert s == s[..lo] + s[hi..];
    }
    if Blank(s) {
      TrimOf(s, "", "");
      assert s + "" + "" == s;
    }
  }

  lemma {:induction false} FindFirst(s: string, p: string, i: nat)
    requires FirstAt(s, p, 0, i)
    ensures Find(s, p) == Some(i)
  {}

  lemma {:induction false} FindFirstFrom(s: string, p: string, from: nat, i: nat)
    requires from <= |s| && FirstAt(s, p, from, i)
    ensures Find(s[from..], p) == Some(i - from)
  {
    AtTail(s, from, p, i);
    forall j | 0 <= j < i - from
      ensures !At(s[from..], p, j)
    {
      AtTail(s, from, p, from + j);
    }
    FindIs(s[from..], p, i - from);
  }

  lemma {:induction false} FindNothingFrom(s: string, p: string, from: nat)
    requires from <= |s| && forall j :: from <= j ==> !At(s, p, j)
    ensures Find(s[from..], p) == None
  {
    forall j: nat
      ensures !At(s[from..], p, j)
    {
      AtTail(s, from, p, from + j);
    }
  }

  lemma {:induction false} FindLast(s: string, p: string, i: nat)
    requires LastAt(s, p, i)
    ensures RFind(s, p) == Some(i)
  {}

  // ---------- the scratchpad ----------

  /** An analysis at `i` leads the reply: the summary opens behind it, or right before it up to white space;
  without a summary only white space stands before it. */
  ghost predicate Leads(s: string, i: nat)
    requires i <= |s|
  {
    if Contains(s, SUMMARY) then
      exists sp :: FirstAt(s, SUMMARY, 0, sp) && (i < sp || (sp + |SUMMARY| <= i && Blank(s[sp + |SUMMARY|..i])))
    else Blank(s[..i])
  }

  lemma {:induction false} LeadsExactly(s: string, i: nat)
    requires At(s, ANALYSIS, i)
    ensures Leads(s, i) <==> IsLeading(s, i)
  {
    match Find(s, SUMMARY)
    case Some(sp) =>
      AtChars(s, ANALYSIS, i);
      AtChars(s, SUMMARY, sp);
      assert s[i + 1] == 'a' && s[sp + 1] == 's';
      assert FirstAt(s, SUMMARY, 0, sp);
      if sp <= i {
        TagsApart(s, SUMMARY, sp, i);
        TrimEmpty(s[sp + 9..i]);
      }
    case None => TrimEmpty(s[..i]);
  }

  /** A leading analysis goes with its closing tag, and the rest is looked at again. */
  lemma {:induction false} ClosedScratchpadGoes(s: string, i: nat, j: nat)
    requires FirstAt(s, ANALYSIS, 0, i) && Leads(s, i) && FirstAt(s, ANALYSIS_END, i, j)
    ensures StripAnalysis(s) == StripAnalysis(s[..i] + s[j + |ANALYSIS_END|..])
  {
    LeadsExactly(s, i);
    FindFirst(s, ANALYSIS, i);
    FindFirstFrom(s, ANALYSIS_END, i, j);
    assert LeadingScratchpad(s) == Some(Closed(i, j + 11));
  }

  /** One that is never closed goes up to the summary, or with all that follows. */
  lemma {:induction false} UnclosedScratchpadGoes(s: string, i: nat, j: nat)
    requires FirstAt(s, ANALYSIS, 0, i) && Leads(s, i) && forall k :: i <= k ==> !At(s, ANALYSIS_END, k)
    ensures FirstAt(s, SUMMARY, i, j) ==> StripAnalysis(s) == s[..i] + s[j..]
    ensures (forall k :: i <= k ==> !At(s, SUMMARY, k)) ==> StripAnalysis(s) == s[..i]
  {
    UnclosedIs(s, i);
    if FirstAt(s, SUMMARY, i, j) {
      FindFirstFrom(s, SUMMARY, i, j);
      assert UnclosedEnd(s, i) == j;
    } else if forall k :: i <= k ==> !At(s, SUMMARY, k) {
      FindNothingFrom(s, SUMMARY, i);
      NothingBehind(s, i);
    }
  }

  lemma {:induction false} NothingBehind(s: string, i: nat)
    requires i <= |s|
    ensures s[..i] + s[|s|..] == s[..i]
  {}

  lemma {:induction false} UnclosedIs(s: string, i: nat)
    requires FirstAt(s, ANALYSIS, 0, i) && Leads(s, i) && forall k :: i <= k ==> !At(s, ANALYSIS_END, k)
    ensures StripAnalysis(s) == Without(s, i, UnclosedEnd(s, i))
  {
    LeadsExactly(s, i);
    FindFirst(s, ANALYSIS, i);
    FindNothingFrom(s, ANALYSIS_END, i);
  }

  /** Nothing else goes. */
  lemma {:induction false} OtherAnalysisStays(s: string)
    requires forall i: nat :: FirstAt(s, ANALYSIS, 0, i) ==> !Leads(s, i)
    ensures StripAnalysis(s) == s
  {
    match Find(s, ANALYSIS)
    case None =>
    case Some(i) =>
      assert FirstAt(s, ANALYSIS, 0, i);
      LeadsExactly(s, i);
  }

  // ---------- the summary block ----------

  /** The block from the first opening to the last closing tag is put under the heading, without its white space
  and scratchpad; what stands before and behind it stays. */
  lemma {:induction false} BlockIs(s: string, i: nat, j: nat)
    requires FirstAt(s, SUMMARY, 0, i) && LastAt(s, SUMMARY_END, j) && i < j
    ensures i + |SUMMARY| <= j
    ensures ExtractBlock(s) ==
            s[..i] + "Summary:\n" + StripLeadingScratchpad(Trim(s[i + |SUMMARY|..j])) + s[j + |SUMMARY_END|..]
  {
    FindFirst(s, SUMMARY, i);
    FindLast(s, SUMMARY_END, j);
    AtChars(s, SUMMARY_END, j);
    TagsApart(s, SUMMARY, i, j);
  }

  /** Without such a block the text stays. */
  lemma {:induction false} NoBlockStays(s: string)
    requires forall i: nat, j: nat :: FirstAt(s, SUMMARY, 0, i) && LastAt(s, SUMMARY_END, j) ==> j <= i
    ensures ExtractBlock(s) == s
  {
    if Find(s, SUMMARY).Some? && RFind(s, SUMMARY_END).Some? {
      assert FirstAt(s, SUMMARY, 0, Find(s, SUMMARY).value);
      assert LastAt(s, SUMMARY_END, RFind(s, SUMMARY_END).value);
    }
  }

  /** Behind list marks the text starts with a digit. */
  predicate Numbered(s: string) {
    exists k | 0 <= k < |s| :: (forall j :: 0 <= j < k ==> s[j] in "#*-> \t") && '0' <= s[k] <= '9'
  }

  lemma {:induction false} NumberedExactly(s: string)
    ensures Numbered(s) <==> StartsWithDigit(TrimListMarks(s))
  {
    if s != "" {
      NumberedExactly(s[1..]);
      if Numbered(s) && IsListMark(s[0]) {
        var k :| 0 <= k < |s| && (forall j :: 0 <= j < k ==> s[j] in "#*-> \t") && '0' <= s[k] <= '9';
        assert s[1..][k - 1] == s[k];
      }
      if Numbered(s[1..]) && IsListMark(s[0]) {
        var k :| 0 <= k < |s| - 1 && (forall j :: 0 <= j < k ==> s[1..][j] in "#*-> \t") && '0' <= s[1..][k] <= '9';
        assert s[k + 1] == s[1..][k];
        assert forall j :: 0 < j < k + 1 ==> s[j] == s[1..][j - 1];
      }
    }
  }

  /** A tag that opens the block once more goes, with the white space behind it. */
  lemma {:induction false} OpeningGoes(s: string, r: string)
    requires r == if At(s, SUMMARY, 0) then TrimStart(s[9..]) else s
    ensures SUMMARY <= s ==> r == TrimStart(s[|SUMMARY|..])
    ensures !(SUMMARY <= s) ==> r == s
  {
    assert At(s, SUMMARY, 0) <==> SUMMARY <= s;
  }

  /** A block that starts with a number keeps all its text, and so does one without a closing analysis tag. Any
  other block loses what stands before its last closing analysis tag, the tag, and the white space behind it. In
  either case a summary tag then in front goes too. */
  lemma {:induction false} BlockLosesDrafts(s: string, j: nat)
    requires Trimmed(s)
    ensures Numbered(s) || !Contains(s, ANALYSIS_END) ==>
              StripLeadingScratchpad(s) == if SUMMARY <= s then TrimStart(s[|SUMMARY|..]) else s
    ensures !Numbered(s) && LastAt(s, ANALYSIS_END, j) ==>
              var rest := TrimStart(s[j + |ANALYSIS_END|..]);
              StripLeadingScratchpad(s) == if SUMMARY <= rest then TrimStart(rest[|SUMMARY|..]) else rest
  {
    TrimTrimmed(s);
    NumberedExactly(s);
    OpeningGoes(s, if At(s, SUMMARY, 0) then TrimStart(s[9..]) else s);
    if !Numbered(s) && LastAt(s, ANALYSIS_END, j) {
      FindLast(s, ANALYSIS_END, j);
      var rest := TrimStart(s[j + 11..]);
      OpeningGoes(rest, if At(rest, SUMMARY, 0) then TrimStart(rest[9..]) else rest);
    }
  }

  /** So a summary block that opens with drafts, up to its last closing analysis tag, is cleaned to what stands
  behind these, verbatim under the heading. */
  lemma {:induction false} DraftedReply(s: string, i: nat, j: nat, d: nat, block: string, body: string)
    requires FirstAt(s, SUMMARY, 0, i) && LastAt(s, SUMMARY_END, j) && i + 9 <= j && j + 10 == |s|
    requires !Contains(s, ANALYSIS) && Blank(s[..i]) && !Contains(s[..i], BLANK_LINES)
    requires block == Trim(s[i + 9..j]) && !Numbered(block) && LastAt(block, ANALYSIS_END, d)
    requires body == TrimStart(block[d + 11..]) && body != "" && Clean(body)
    ensures Formatted(s) == "Summary:\n" + body
  {
    DraftsGo(s[i + 9..j], d, body);
    BlockIs(s, i, j);
    BlockAtEnd(s, i, j, body);
    NoAnalysis(s);
    HeadedBlockTidied(s[..i], body);
  }

  lemma {:induction false} NoAnalysis(s: string)
    requires !Contains(s, ANALYSIS)
    ensures StripAnalysis(s) == s
  {}

  lemma {:induction false} DraftsGo(inner: string, d: nat, body: string)
    requires !Numbered(Trim(inner)) && LastAt(Trim(inner), ANALYSIS_END, d)
    requires body == TrimStart(Trim(inner)[d + 11..]) && Clean(body)
    ensures StripLeadingScratchpad(Trim(inner)) == body
  {
    var lo, hi := TrimCuts(inner);
    CleanFacts(body);
    BlockLosesDrafts(Trim(inner), d);
  }

  lemma {:induction false} BlockAtEnd(s: string, i: nat, j: nat, body: string)
    requires i <= |s| && j + 10 == |s|
    ensures s[..i] + HEADING + body + s[j + 10..] == s[..i] + HEADING + body
  {
    AppendNothing(s[..i] + HEADING + body);
    assert s[j + 10..] == "";
  }

  // ---------- control tokens ----------

  /** The text without its zero-width spaces. */
  function Visible(s: string): string {
    if s == "" then "" else (if s[0] == ZWSP then "" else [s[0]]) + Visible(s[1..])
  }

  lemma {:induction false} VisibleConcat(a: string, b: string)
    ensures Visible(a + b) == Visible(a) + Visible(b)
  {
    if a == "" {
      assert a + b == b;
    } else {
      assert (a + b)[1..] == a[1..] + b;
      VisibleConcat(a[1..], b);
    }
  }

  lemma {:induction false} ReplaceVisible(s: string, p: string, r: string)
    requires p != "" && Visible(r) == Visible(p)
    ensures Visible(Replace(s, p, r)) == Visible(s)
  {
    if s != "" {
      if At(s, p, 0) {
        assert s == p + s[|p|..];
        VisibleConcat(p, s[|p|..]);
        VisibleConcat(r, Replace(s[|p|..], p, r));
        ReplaceVisible(s[|p|..], p, r);
      } else {
        VisibleConcat([s[0]], Replace(s[1..], p, r));
        ReplaceVisible(s[1..], p, r);
        assert s == [s[0]] + s[1..];
        VisibleConcat([s[0]], s[1..]);
      }
    }
  }

  lemma {:induction false} DefusedVisible(t: string)
    requires t != ""
    ensures Visible(Defused(t)) == Visible(t)
  {
    assert t == [t[0]] + t[1..] && Defused(t) == [t[0]] + ([ZWSP] + t[1..]);
    VisibleConcat([t[0]], t[1..]);
    VisibleConcat([t[0]], [ZWSP] + t[1..]);
    VisibleConcat([ZWSP], t[1..]);
    assert [ZWSP][1..] == "";
  }

  lemma {:induction false} DefuseAllVisible(s: string, tokens: seq<string>)
    requires "" !in tokens
    ensures Visible(DefuseAll(s, tokens)) == Visible(s)
    decreases |tokens|
  {
    if tokens != [] {
      assert tokens[0] in tokens;
      DefusedVisible(tokens[0]);
      ReplaceVisible(s, tokens[0], Defused(tokens[0]));
      DefuseAllVisible(Replace(s, tokens[0], Defused(tokens[0])), tokens[1..]);
    }
  }

  /** Neutralizing puts zero-width spaces into a text and changes nothing else of it. */
  lemma {:induction false} NeutralizedVisible(s: string)
    ensures Visible(Neutralize(s)) == Visible(s)
  {
    ControlTokensAreTokens();
    DefuseAllVisible(s, CONTROL_TOKENS);
  }

  /** Behind `prev`, each zero-width space of the text stands right behind a `<`. */
  predicate BehindBrackets(prev: char, s: string)
    decreases |s|
  {
    s == "" || ((s[0] == ZWSP ==> prev == '<') && BehindBrackets(s[0], s[1..]))
  }

  function LastOf(prev: char, s: string): char {
    if s == "" then prev else s[|s| - 1]
  }

  lemma {:induction false} BracketsConcat(prev: char, a: string, b: string)
    ensures BehindBrackets(prev, a + b) <==> BehindBrackets(prev, a) && BehindBrackets(LastOf(prev, a), b)
    decreases |a|
  {
    if a == "" {
      assert a + b == b;
    } else {
      assert (a + b)[1..] == a[1..] + b;
      BracketsConcat(a[0], a[1..], b);
    }
  }

  lemma {:induction false} NoSpaceInToken(prev: char, t: string)
    requires forall k :: 0 <= k < |t| ==> t[k] != ZWSP
    ensures BehindBrackets(prev, t)
    decreases |t|
  {
    if t != "" { NoSpaceInToken(t[0], t[1..]); }
  }

  lemma {:induction false} DefusedBehind(prev: char, t: string)
    requires IsToken(t)
    ensures BehindBrackets(prev, Defused(t)) && LastOf(prev, Defused(t)) == LastOf(prev, t)
  {
    var r := Defused(t);
    NoSpaceInToken(ZWSP, t[1..]);
    assert r[1..] == [ZWSP] + t[1..] && r[1..][1..] == t[1..];
  }

  lemma {:induction false} ReplaceBehind(prev: char, s: string, t: string)
    requires IsToken(t) && BehindBrackets(prev, s)
    ensures BehindBrackets(prev, Replace(s, t, Defused(t)))
    decreases |s|
  {
    if s != "" {
      if At(s, t, 0) {
        var rest := s[|t|..];
        assert s == t + rest;
        BracketsConcat(prev, t, rest);
        DefusedBehind(prev, t);
        ReplaceBehind(LastOf(prev, t), rest, t);
        BracketsConcat(prev, Defused(t), Replace(rest, t, Defused(t)));
      } else {
        var r := Replace(s[1..], t, Defused(t));
        ReplaceBehind(s[0], s[1..], t);
        assert ([s[0]] + r)[1..] == r;
      }
    }
  }

  lemma {:induction false} DefuseAllBehind(prev: char, s: string, tokens: seq<string>)
    requires "" !in tokens && (forall t :: t in tokens ==> IsToken(t)) && BehindBrackets(prev, s)
    ensures BehindBrackets(prev, DefuseAll(s, tokens))
    decreases |tokens|
  {
    if tokens != [] {
      assert tokens[0] in tokens;
      ReplaceBehind(prev, s, tokens[0]);
      DefuseAllBehind(prev, Replace(s, tokens[0], Defused(tokens[0])), tokens[1..]);
    }
  }

  /** They are put right behind an opening bracket. */
  lemma {:induction false} NeutralizedBehind(s: string, k: nat)
    requires (forall j :: 0 <= j < |s| ==> s[j] != ZWSP) && k < |Neutralize(s)| && Neutralize(s)[k] == ZWSP
    ensures k > 0 && Neutralize(s)[k - 1] == '<'
  {
    ControlTokensAreTokens();
    NoSpaceInToken(' ', s);
    DefuseAllBehind(' ', s, CONTROL_TOKENS);
    BehindAt(' ', Neutralize(s), k);
  }

  lemma {:induction false} BehindAt(prev: char, s: string, k: nat)
    requires BehindBrackets(prev, s) && k < |s| && s[k] == ZWSP
    ensures if k > 0 then s[k - 1] == '<' else prev == '<'
    decreases |s|
  {
    if k > 0 { BehindAt(s[0], s[1..], k - 1); }
  }

  // ---------- blank lines ----------

  /** The text without each line feed that two line feeds stand before; `n` of them stand before the text. */
  function Capped(s: string, n: nat): string {
    if s == "" then ""
    else if s[0] != '\n' then [s[0]] + Capped(s[1..], 0)
    else if n >= 2 then Capped(s[1..], 2)
    else "\n" + Capped(s[1..], n + 1)
  }

  lemma {:induction false} CappedBreaks(s: string, n: nat)
    requires n <= 2
    ensures Capped("\n\n\n" + s, n) == Capped("\n\n" + s, n)
  {
    var one, two, three := "\n" + s, "\n\n" + s, "\n\n\n" + s;
    assert three[1..] == two && two[1..] == one && one[1..] == s;
    assert Capped(one, 2) == Capped(s, 2);
  }

  lemma {:induction false} SqueezedCapped(s: string, n: nat)
    requires n <= 2
    ensures Capped(Replace(s, BLANK_LINES, "\n\n"), n) == Capped(s, n)
    decreases |s|, 0
  {
    if s != "" {
      if At(s, BLANK_LINES, 0) {
        var rest := s[3..];
        var r := Replace(rest, BLANK_LINES, "\n\n");
        assert s == "\n\n\n" + rest;
        CappedBreaks(rest, n);
        SqueezedBehind(rest, r, n);
      } else {
        var r := Replace(s[1..], BLANK_LINES, "\n\n");
        assert ([s[0]] + r)[1..] == r;
        SqueezedCapped(s[1..], if s[0] != '\n' then 0 else if n >= 2 then 2 else n + 1);
      }
    }
  }

  lemma {:induction false} SqueezedBehind(rest: string, r: string, n: nat)
    requires n <= 2 && r == Replace(rest, BLANK_LINES, "\n\n")
    ensures Capped("\n\n" + r, n) == Capped("\n\n" + rest, n)
    decreases |rest|, 1
  {
    SqueezedCapped(rest, 2);
    CappedBehind(r, n);
    CappedBehind(rest, n);
  }

  lemma {:induction false} CappedBehind(s: string, n: nat)
    requires n <= 2
    ensures Capped("\n\n" + s, n) == (if n == 0 then "\n\n" else if n == 1 then "\n" else "") + Capped(s, 2)
  {
    var one, two := "\n" + s, "\n\n" + s;
    assert two[1..] == one && one[1..] == s;
    assert "\n" + ("\n" + Capped(s, 2)) == "\n\n" + Capped(s, 2);
  }

  lemma {:induction false} CappedIdle(breaks: string, s: string)
    requires |breaks| <= 2 && (forall k :: 0 <= k < |breaks| ==> breaks[k] == '\n')
    requires !Contains(breaks + s, BLANK_LINES)
    ensures Capped(s, |breaks|) == s
    decreases |s|
  {
    if s != "" {
      var all := breaks + s;
      assert s == [s[0]] + s[1..];
      assert |breaks| == 2 && s[0] == '\n' ==> At(all, BLANK_LINES, 0);
      if s[0] != '\n' {
        assert all[|breaks| + 1..|all|] == "" + s[1..];
        ContainsSlice(all, |breaks| + 1, |all|, BLANK_LINES);
        CappedIdle("", s[1..]);
      } else if |breaks| < 2 {
        assert (breaks + "\n") + s[1..] == all;
        CappedIdle(breaks + "\n", s[1..]);
      }
    }
  }

  /** Squeezing drops exactly the line feeds that two line feeds stand before, and no other character. */
  lemma {:induction false} SqueezedIs(s: string)
    ensures CollapseBlankLines(s) == Capped(s, 0)
    decreases |s|
  {
    if Contains(s, BLANK_LINES) {
      ReplaceShortens(s, BLANK_LINES, "\n\n");
      SqueezedIs(Replace(s, BLANK_LINES, "\n\n"));
      SqueezedCapped(s, 0);
    } else {
      assert "" + s == s;
      CappedIdle("", s);
    }
  }
}
