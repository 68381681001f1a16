/** Which user items count as typed by a human
(crates/codegen/xai-chat-state/src/compaction_utils.rs, `is_real_user_turn`). */
module HumanTurns {
  import opened Text
  import opened Conversation
  import opened Compaction
  import opened CompactionLaws
  import opened QueryText
  import opened SummaryAnswers
  import opened QueryAnswers

  /** No metadata block opens in the text, and no query. */
  predicate Untagged(text: string) {
    (forall tag :: tag in SYSTEM_TAGS ==> !Contains(text, "<" + tag + ">")) && !Contains(text, QUERY)
  }

  /** An item with a reason, or of another kind, is no human turn; one without a reason that shows an image is. */
  lemma {:induction false} HumanTurnsAre(item: Item)
    ensures !item.User? || item.meta.reason.Some? ==> !IsRealUserTurn(item)
    ensures item.User? && item.meta.reason.None? && (exists url :: ImagePart(url) in item.parts) ==>
              IsRealUserTurn(item)
  {}

  /** An untagged text is one unless it is blank or one of the two that continue a turn. */
  lemma {:induction false} UntaggedTurn(t: string, meta: UserMeta)
    requires Untagged(t) && meta.reason.None?
    ensures IsRealUserTurn(User([TextPart(t)], meta)) <==>
            !Blank(t) && Trim(t) != AUTO_CONTINUE_SENTINEL && Trim(t) != AUTO_CONTINUE_PROMPT
  {
    SinglePart(t);
    PlainTextIsQuery(t);
    TrimEmpty(t);
    TextTurn(t, meta);
  }

  lemma {:induction false} TextTurn(t: string, meta: UserMeta)
    requires meta.reason.None?
    ensures IsRealUserTurn(User([TextPart(t)], meta)) <==> !IsSyntheticQuery(ExtractUserQuery(t))
  {
    SinglePart(t);
    assert !([TextPart(t)][0].ImagePart?);
  }

  /** The text of a user item is that of its text parts, one per line; images add nothing. */
  lemma {:induction false} ContentIsLines(parts: seq<Part>, t: string, url: string)
    ensures UserContent([]) == ""
    ensures UserContent(parts + [ImagePart(url)]) == UserContent(parts)
    ensures UserContent(parts + [TextPart(t)]) ==
            if TextParts(parts) == [] then t else UserContent(parts) + ("\n" + t)
  {
    TextPartsSnoc(parts, ImagePart(url));
    TextPartsSnoc(parts, TextPart(t));
    assert TextParts(parts) + [] == TextParts(parts);
    JoinSnoc(TextParts(parts), t);
  }

  lemma {:induction false} TextPartsSnoc(parts: seq<Part>, p: Part)
    ensures TextParts(parts + [p]) == TextParts(parts) + TextOf(p)
  {
    if parts == [] {
      assert [] + [p] == [p] && [p][1..] == [];
      assert TextOf(p) + [] == TextOf(p) == [] + TextOf(p);
    } else {
      assert (parts + [p])[1..] == parts[1..] + [p] && (parts + [p])[0] == parts[0];
      TextPartsSnoc(parts[1..], p);
      Assoc3(TextOf(parts[0]), TextParts(parts[1..]), TextOf(p));
    }
  }

  function TextOf(p: Part): seq<string> {
    if p.TextPart? then [p.text] else []
  }

  lemma {:induction false} JoinSnoc(texts: seq<string>, t: string)
    ensures JoinLines(texts + [t]) == if texts == [] then t else JoinLines(texts) + ("\n" + t)
  {
    if texts == [] {
      assert [] + [t] == [t];
    } else {
      assert (texts + [t])[1..] == texts[1..] + [t] && (texts + [t])[0] == texts[0];
      JoinSnoc(texts[1..], t);
      if |texts| > 1 {
        Assoc3(texts[0] + "\n", JoinLines(texts[1..]), "\n" + t);
      }
    }
  }
}
