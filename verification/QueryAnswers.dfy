/** What is read of a user's text, in terms of where its tags stand
(crates/codegen/xai-chat-state/src/compaction_utils.rs, `strip_system_tags` and `extract_user_query`). */
module QueryAnswers {
  import opened Wrappers
  import opened Text
  import opened QueryText
  import opened SummaryAnswers

  /** A block goes from its first opening tag to the first closing tag behind it, and the rest is looked at again. */
  lemma {:induction false} BlockGoes(s: string, open: string, close: string, i: nat, j: nat)
    requires close != "" && FirstAt(s, open, 0, i) && FirstAt(s, close, i, j)
    ensures StripTag(s, open, close) == StripTag(s[..i] + s[j + |close|..], open, close)
  {
    FindFirst(s, open, i);
    FindFirstFrom(s, close, i, j);
  }

  /** Without an opening tag, or without a closing tag behind the first, all stays. */
  lemma {:induction false} UnclosedStays(s: string, open: string, close: string)
    requires close != ""
    requires forall i: nat :: FirstAt(s, open, 0, i) ==> !Contains(s[i..], close)
    ensures StripTag(s, open, close) == s
  {
    match Find(s, open)
    case None =>
    case Some(i) =>
      assert FirstAt(s, open, 0, i);
  }

  /** The twelve kinds of blocks go one kind after another. */
  lemma {:induction false} KindsInOrder(s: string, tag: string, tags: seq<string>)
    ensures StripTags(s, []) == s
    ensures StripTags(s, [tag] + tags) == StripTags(StripTag(s, "<" + tag + ">", "</" + tag + ">"), tags)
  {
    assert ([tag] + tags)[1..] == tags;
    assert "<" + tag + ">" == Open(tag) && "</" + tag + ">" == Close(tag);
  }

  /** The query is what stands between the first opening tag and the first closing tag behind it, without outer
  white space. */
  lemma {:induction false} QueryIsBetween(s: string, i: nat, j: nat)
    requires FirstAt(s, QUERY, 0, i) && FirstAt(s, QUERY_END, i + |QUERY|, j)
    ensures QueryIn(s) == Trim(s[i + |QUERY|..j])
  {
    var k := i + |QUERY|;
    FindFirst(s, QUERY, i);
    FindFirstFrom(s, QUERY_END, k, j);
    assert s[k..][..j - k] == s[k..j];
  }

  /** Without these tags it is the whole text. */
  lemma {:induction false} QueryIsAll(s: string)
    requires forall i: nat :: FirstAt(s, QUERY, 0, i) ==> !Contains(s[i + |QUERY|..], QUERY_END)
    ensures QueryIn(s) == s
  {
    match Find(s, QUERY)
    case None =>
    case Some(i) =>
      assert FirstAt(s, QUERY, 0, i);
  }

  lemma {:induction false} NothingToStrip(s: string, tags: seq<string>)
    requires forall tag :: tag in tags ==> !Contains(s, Open(tag))
    ensures StripTags(s, tags) == s
    decreases |tags|
  {
    if tags != [] {
      assert tags[0] in tags;
      assert Find(s, Open(tags[0])) == None;
      NothingToStrip(s, tags[1..]);
    }
  }

  /** A text without any of the tags is the query, but for outer white space. */
  lemma {:induction false} PlainTextIsQuery(text: string)
    requires (forall tag :: tag in SYSTEM_TAGS ==> !Contains(text, "<" + tag + ">")) && !Contains(text, QUERY)
    ensures ExtractUserQuery(text) == Trim(text)
  {
    forall tag | tag in SYSTEM_TAGS
      ensures !Contains(text, Open(tag))
    {
      assert "<" + tag + ">" == Open(tag);
    }
    NothingToStrip(text, SYSTEM_TAGS);
    TrimContains(text, QUERY);
  }
}
