/** What a user message asks, once the metadata that the runtime wrapped around it is taken
off (crates/codegen/xai-chat-state/src/compaction_utils.rs). */
module QueryText {
  import opened Wrappers
  import opened Text

  const SYSTEM_TAGS: seq<string> := [
    "user_info", "project_layout", "git_status", "fork-context", "system-reminder", "agent-memory",
    "system_reminder", "background_context", "command-name", "command-message", "command-args", "rules"
  ]

  const QUERY := "<user_query>"
  const QUERY_END := "</user_query>"
  const BEFORE_QUERY := "<user_query>\n"
  const AFTER_QUERY := "\n</user_query>"

  function Open(tag: string): string { "<" + tag + ">" }

  function Close(tag: string): string { "</" + tag + ">" }

  /** The first opening tag with a closing tag somewhere behind it, as a range. */
  function FirstBlock(s: string, open: string, close: string): (r: Option<(nat, nat)>)
    ensures r.Some? ==> r.value.0 + |close| <= r.value.1 <= |s|
  {
    match Find(s, open)
    case None => None
    case Some(start) =>
      match Find(s[start..], close)
      case None => None
      case Some(rel) => Some((start, start + rel + |close|))
  }

  /** Removes the blocks of one tag until none is left; an unclosed tag ends the search. */
  function StripTag(s: string, open: string, close: string): (r: string)
    requires close != ""
    ensures |r| <= |s|
    decreases |s|
  {
    match FirstBlock(s, open, close)
    case None => s
    case Some((lo, hi)) => StripTag(Without(s, lo, hi), open, close)
  }

  function StripTags(s: string, tags: seq<string>): (r: string)
    ensures |r| <= |s|
    decreases |tags|
  {
    if tags == [] then s else StripTags(StripTag(s, Open(tags[0]), Close(tags[0])), tags[1..])
  }

  function StripSystemTags(text: string): string {
    Trim(StripTags(text, SYSTEM_TAGS))
  }

  /** The trimmed content of the first element between two tags, or the whole text. */
  function Between(s: string, open: string, close: string): string {
    match Find(s, open)
    case None => s
    case Some(start) =>
      var inner := s[start + |open|..];
      match Find(inner, close)
      case None => s
      case Some(end) => Trim(inner[..end])
  }

  function QueryIn(s: string): string {
    Between(s, QUERY, QUERY_END)
  }

  function ExtractUserQuery(text: string): string {
    QueryIn(StripSystemTags(text))
  }

  function WrapUserQuery(text: string): string {
    BEFORE_QUERY + text + AFTER_QUERY
  }

  // ---------- the tags stay clear of the wrapping ----------

  /** A text that can only begin at the one `<` of a frame part. */
  predicate IsTag(t: string) {
    |t| >= 2 && t[0] == '<' && forall k :: 1 <= k < |t| ==> t[k] != '<' && t[k] != '\n'
  }

  /** Neither part of the frame holds `t`, nor can `t` straddle its edges. */
  predicate FrameFree(before: string, after: string, t: string) {
    && IsTag(t) && 0 < |before| && 1 < |after|
    && before[|before| - 1] == '\n' && (forall k :: 1 <= k < |before| ==> before[k] != '<') && !(t <= before)
    && after[0] == '\n' && (forall k :: 2 <= k < |after| ==> after[k] != '<') && !(t <= after[1..])
  }

  lemma {:induction false} InFrameEnd(x: string, before: string, after: string, t: string, j: int)
    requires FrameFree(before, after, t)
    ensures At(x + after, t, j) <==> At(x, t, j)
  {
    AtJoin(x, after, t, j);
    assert 1 + |t| <= |after| ==> after[1..][..|t|] == after[1..1 + |t|];
    if At(after, t, j - |x|) {
      AtChars(after, t, j - |x|);
    }
  }

  /** In a framed text `t` stands exactly where it stands in the text itself. */
  lemma {:induction false} InFrame(before: string, x: string, after: string, t: string, j: int)
    requires FrameFree(before, after, t)
    ensures At(before + x + after, t, j) <==> At(x, t, j - |before|)
  {
    var s := before + x;
    InFrameEnd(s, before, after, t, j);
    assert s[|before|..] == x && forall k :: 0 <= k < |before| ==> s[k] == before[k];
    assert |t| <= |before| ==> s[..|t|] == before[..|t|];
    if |before| <= j {
      AtTail(s, |before|, t, j);
    } else if At(s, t, j) {
      AtChars(s, t, j);
    }
  }

  predicate IsTagName(tag: string) {
    && tag != "" && (forall k :: 0 <= k < |tag| ==> tag[k] != '<' && tag[k] != '>' && tag[k] != '\n')
    && tag[0] != '/' && (|tag| == 10 ==> tag[0] != 'u')
  }

  lemma {:induction false} SystemTagsAreNames()
    ensures forall tag :: tag in SYSTEM_TAGS ==> IsTagName(tag)
  {
    assert IsTagName("user_info") && IsTagName("project_layout") && IsTagName("git_status");
    assert IsTagName("fork-context") && IsTagName("system-reminder") && IsTagName("agent-memory");
    assert IsTagName("system_reminder") && IsTagName("background_context") && IsTagName("command-name");
    assert IsTagName("command-message") && IsTagName("command-args") && IsTagName("rules");
  }

  lemma {:induction false} WrappingIsFree(tag: string)
    requires IsTagName(tag)
    ensures FrameFree(BEFORE_QUERY, AFTER_QUERY, Open(tag))
    ensures FrameFree(BEFORE_QUERY, AFTER_QUERY, Close(tag))
  {
    assert Open(tag)[|tag| + 1] == '>' && Open(tag)[1] == tag[0];
    assert Close(tag)[|tag| + 2] == '>' && Close(tag)[2] == tag[0];
    assert Close(tag)[1] == '/' && BEFORE_QUERY[1] == 'u';
    assert AFTER_QUERY[1..] == QUERY_END;
  }

  // ---------- stripping commutes with wrapping ----------

  lemma {:induction false} FindInFrame(before: string, x: string, after: string, t: string)
    requires FrameFree(before, after, t)
    ensures Find(before + x + after, t) == Shifted(Find(x, t), |before|)
  {
    var s := before + x + after;
    var fs, fx := Find(s, t), Find(x, t);
    if fs.Some? { InFrame(before, x, after, t, fs.value); }
    if fx.Some? { InFrame(before, x, after, t, |before| + fx.value); }
  }

  lemma {:induction false} FindInFrameEnd(x: string, before: string, after: string, t: string)
    requires FrameFree(before, after, t)
    ensures Find(x + after, t) == Find(x, t)
  {
    var fs, fx := Find(x + after, t), Find(x, t);
    if fs.Some? { InFrameEnd(x, before, after, t, fs.value); }
    if fx.Some? { InFrameEnd(x, before, after, t, fx.value); }
  }

  function Shifted(r: Option<nat>, d: nat): Option<nat> {
    match r case None => None case Some(i) => Some(i + d)
  }

  function ShiftedRange(r: Option<(nat, nat)>, d: nat): Option<(nat, nat)> {
    match r case None => None case Some((lo, hi)) => Some((lo + d, hi + d))
  }

  lemma {:induction false} DropFrame(before: string, x: string, after: string, i: nat)
    requires i <= |x|
    ensures (before + x + after)[|before| + i..] == x[i..] + after
  {}

  lemma {:induction false} WithoutInFrame(before: string, x: string, after: string, lo: nat, hi: nat)
    requires lo <= hi <= |x|
    ensures Without(before + x + after, |before| + lo, |before| + hi) == before + Without(x, lo, hi) + after
  {}

  lemma {:induction false} FirstBlockInFrame(before: string, x: string, after: string, open: string, close: string)
    requires FrameFree(before, after, open) && FrameFree(before, after, close)
    ensures FirstBlock(before + x + after, open, close) == ShiftedRange(FirstBlock(x, open, close), |before|)
  {
    FindInFrame(before, x, after, open);
    if Find(x, open).Some? {
      FindInFrameEnd(x[Find(x, open).value..], before, after, close);
    }
    FirstBlockShifts(before, x, after, open, close);
  }

  lemma {:induction false} FirstBlockShifts(before: string, x: string, after: string, open: string, close: string)
    requires Find(before + x + after, open) == Shifted(Find(x, open), |before|)
    requires Find(x, open).Some? ==>
               Find(x[Find(x, open).value..] + after, close) == Find(x[Find(x, open).value..], close)
    ensures FirstBlock(before + x + after, open, close) == ShiftedRange(FirstBlock(x, open, close), |before|)
  {
    if Find(x, open).Some? {
      DropFrame(before, x, after, Find(x, open).value);
    }
  }

  lemma {:induction false} StripTagInFrame(before: string, x: string, after: string, open: string, close: string)
    requires FrameFree(before, after, open) && FrameFree(before, after, close)
    ensures StripTag(before + x + after, open, close) == before + StripTag(x, open, close) + after
    decreases |x|
  {
    FirstBlockInFrame(before, x, after, open, close);
    if FirstBlock(x, open, close).Some? {
      var (lo, hi) := FirstBlock(x, open, close).value;
      StripTagInFrame(before, Without(x, lo, hi), after, open, close);
      StripFirstInFrame(before, x, after, open, close, lo, hi);
    }
  }

  lemma {:induction false} StripFirstInFrame(
    before: string, x: string, after: string, open: string, close: string, lo: nat, hi: nat)
    requires close != "" && FirstBlock(x, open, close) == Some((lo, hi))
    requires FirstBlock(before + x + after, open, close) == Some((lo + |before|, hi + |before|))
    ensures StripTag(x, open, close) == StripTag(Without(x, lo, hi), open, close)
    ensures StripTag(before + x + after, open, close) == StripTag(before + Without(x, lo, hi) + after, open, close)
  {
    WithoutInFrame(before, x, after, lo, hi);
    StripTagStep(x, open, close, lo, hi);
    StripTagStep(before + x + after, open, close, lo + |before|, hi + |before|);
  }

  lemma {:induction false} StripTagStep(s: string, open: string, close: string, lo: nat, hi: nat)
    requires close != "" && FirstBlock(s, open, close) == Some((lo, hi))
    ensures StripTag(s, open, close) == StripTag(Without(s, lo, hi), open, close)
  {}

  lemma {:induction false} StripTagsInWrapping(x: string, tags: seq<string>)
    requires forall tag :: tag in tags ==> IsTagName(tag)
    ensures StripTags(WrapUserQuery(x), tags) == WrapUserQuery(StripTags(x, tags))
    decreases |tags|
  {
    if tags != [] {
      var open, close := Open(tags[0]), Close(tags[0]);
      WrappingIsFree(tags[0]);
      StripTagInFrame(BEFORE_QUERY, x, AFTER_QUERY, open, close);
      StripTagsInWrapping(StripTag(x, open, close), tags[1..]);
    }
  }

  // ---------- reading back a wrapped query ----------

  /** The text up to the first `</user_query>`. */
  function BeforeEnd(x: string): (r: string)
    ensures |r| <= |x| && (|r| == |x| ==> r == x) && (r == x <==> !Contains(x, QUERY_END))
  {
    match Find(x, QUERY_END)
    case None => x
    case Some(end) => x[..end]
  }

  lemma {:induction false} QueryOpensWrapping(x: string)
    ensures Find(WrapUserQuery(x), QUERY) == Some(0)
    ensures WrapUserQuery(x)[|QUERY|..] == "\n" + (x + AFTER_QUERY)
  {
    assert BEFORE_QUERY == QUERY + "\n";
    assert WrapUserQuery(x) == QUERY + ("\n" + (x + AFTER_QUERY));
    FindIs(WrapUserQuery(x), QUERY, 0);
  }

  lemma {:induction false} FindQueryEnd(x: string)
    ensures Find("\n" + (x + AFTER_QUERY), QUERY_END) ==
            Some(1 + |BeforeEnd(x)| + (if Contains(x, QUERY_END) then 0 else 1))
  {
    FindAfterBreak(x, AFTER_QUERY, QUERY_END);
    assert AFTER_QUERY[1..] == QUERY_END;
  }

  /** The first closing tag in a text with one more behind a final line break. */
  lemma {:induction false} FindAfterBreak(x: string, after: string, t: string)
    requires IsTag(t) && after != "" && after[0] == '\n' && after[1..] == t
    ensures Find("\n" + (x + after), t) == Some(1 + match Find(x, t) case None => |x| + 1 case Some(e) => e)
  {
    var s, w := "\n" + (x + after), x + after;
    assert s[1..] == w && s[0] == '\n';
    assert At(after, t, 1);
    var e := match Find(x, t) case None => |x| + 1 case Some(e) => e;
    forall j | 0 <= j <= e
      ensures At(w, t, j) <==> j == e
    {
      AtJoin(x, after, t, j);
      if |x| == j { AtNotHere(after, t); }
    }
    forall j | 0 <= j <= 1 + e
      ensures At(s, t, j) <==> j == 1 + e
    {
      if j == 0 { AtNotHere(s, t); } else { AtTail(s, 1, t, j); }
    }
    FindIs(s, t, 1 + e);
  }

  lemma {:induction false} AtNotHere(s: string, t: string)
    requires IsTag(t) && s != "" && s[0] != '<'
    ensures !At(s, t, 0)
  {
    if At(s, t, 0) { AtChars(s, t, 0); }
  }

  lemma {:induction false} QueryInWrapped(x: string)
    ensures QueryIn(WrapUserQuery(x)) == Trim(BeforeEnd(x))
  {
    var tail := QueryEndsAt(x);
    QueryOpensWrapping(x);
    BetweenAtFront(WrapUserQuery(x), QUERY, QUERY_END, 1 + |BeforeEnd(x)| + |tail|);
    TrimMargins("\n", BeforeEnd(x), tail);
  }

  /** The query is the text up to its first closing tag, between blank margins. */
  lemma {:induction false} QueryEndsAt(x: string) returns (tail: string)
    ensures Blank(tail) && Blank("\n")
    ensures var inner, end := "\n" + (x + AFTER_QUERY), 1 + |BeforeEnd(x)| + |tail|;
            Find(inner, QUERY_END) == Some(end) && inner[..end] == "\n" + BeforeEnd(x) + tail
  {
    tail := if Contains(x, QUERY_END) then "" else "\n";
    FindQueryEnd(x);
    CutAtEnd(x, tail);
  }

  lemma {:induction false} BetweenAtFront(s: string, open: string, close: string, end: nat)
    requires Find(s, open) == Some(0) && Find(s[|open|..], close) == Some(end)
    ensures Between(s, open, close) == Trim(s[|open|..][..end])
  {}

  lemma {:induction false} CutAtEnd(x: string, tail: string)
    requires tail == if Contains(x, QUERY_END) then "" else "\n"
    ensures var end := 1 + |BeforeEnd(x)| + |tail|;
            end <= |"\n" + (x + AFTER_QUERY)| && ("\n" + (x + AFTER_QUERY))[..end] == "\n" + BeforeEnd(x) + tail
  {}

  lemma {:induction false} WrappingTrimmed(x: string)
    ensures Trim(WrapUserQuery(x)) == WrapUserQuery(x)
  {
    assert WrapUserQuery(x)[0] == '<' && WrapUserQuery(x)[|x| + 26] == '>';
    TrimTrimmed(WrapUserQuery(x));
  }

  /** What is read back from any wrapped text. */
  lemma {:induction false} ExtractWrapped(q: string)
    ensures ExtractUserQuery(WrapUserQuery(q)) == Trim(BeforeEnd(StripTags(q, SYSTEM_TAGS)))
  {
    StripWrapped(q);
    QueryInWrapped(StripTags(q, SYSTEM_TAGS));
  }

  lemma {:induction false} StripWrapped(q: string)
    ensures StripSystemTags(WrapUserQuery(q)) == WrapUserQuery(StripTags(q, SYSTEM_TAGS))
  {
    SystemTagsAreNames();
    StripWrappedBy(q, SYSTEM_TAGS);
  }

  lemma {:induction false} StripWrappedBy(q: string, tags: seq<string>)
    requires forall tag :: tag in tags ==> IsTagName(tag)
    ensures Trim(StripTags(WrapUserQuery(q), tags)) == WrapUserQuery(StripTags(q, tags))
  {
    StripTagsInWrapping(q, tags);
    WrappingTrimmed(StripTags(q, tags));
  }

  lemma {:induction false} TrimLength(s: string)
    ensures |Trim(s)| <= |s| && (|Trim(s)| == |s| ==> Trim(s) == s)
  {}

  lemma {:induction false} StripTagLength(s: string, open: string, close: string)
    requires close != ""
    ensures |StripTag(s, open, close)| == |s| ==> StripTag(s, open, close) == s
  {}

  lemma {:induction false} StripTagsLength(s: string, tags: seq<string>)
    ensures |StripTags(s, tags)| == |s| ==> StripTags(s, tags) == s
    decreases |tags|
  {
    if tags != [] {
      StripTagLength(s, Open(tags[0]), Close(tags[0]));
      StripTagsLength(StripTag(s, Open(tags[0]), Close(tags[0])), tags[1..]);
    }
  }

  /** A query is read back from its wrapping unchanged exactly when it holds no removable
  metadata block, no outer white space and no `</user_query>`. */
  lemma {:induction false} QuerySurvivesWrapping(q: string)
    ensures ExtractUserQuery(WrapUserQuery(q)) == q <==> StripSystemTags(q) == q && !Contains(q, QUERY_END)
  {
    var x := StripTags(q, SYSTEM_TAGS);
    var y := BeforeEnd(x);
    ExtractWrapped(q);
    StripTagsLength(q, SYSTEM_TAGS);
    TrimLength(y);
    TrimLength(x);
  }

  // ---------- the procedure ----------

  /** `strip_system_tags`, as the source runs it. */
  method StripTagBlocks(text: string) returns (result: string)
    ensures result == StripSystemTags(text)
  {
    result := StripAllTags(text, SYSTEM_TAGS);
    result := Trim(result);
  }

  method StripAllTags(text: string, tags: seq<string>) returns (result: string)
    ensures result == StripTags(text, tags)
  {
    result := text;
    for k := 0 to |tags|
      invariant StripTags(result, tags[k..]) == StripTags(text, tags)
    {
      result := StripBlocksOf(result, Open(tags[k]), Close(tags[k]));
      assert tags[k..][1..] == tags[k + 1..];
    }
  }

  method StripBlocksOf(text: string, open: string, close: string) returns (result: string)
    requires close != ""
    ensures result == StripTag(text, open, close)
  {
    result := text;
    var block := FirstBlock(result, open, close);
    while block.Some?
      invariant block == FirstBlock(result, open, close)
      invariant StripTag(result, open, close) == StripTag(text, open, close)
      decreases |result|
    {
      StripTagStep(result, open, close, block.value.0, block.value.1);
      result := Without(result, block.value.0, block.value.1);
      block := FirstBlock(result, open, close);
    }
  }
}
