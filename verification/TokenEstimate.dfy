/** The estimate of an item's tokens
(crates/codegen/xai-chat-state/src/actor/state.rs, `estimate_item_tokens`). */
module TokenEstimate {
  import opened Text
  import opened Conversation
  import opened Fitting

  /** What is read of an item, as one text. */
  function Read(item: Item): string {
    match item
    case System(content) => content
    case User(parts, _) => Texts(parts)
    case Assistant(content, calls, _) => content + Arguments(calls)
    case ToolResult(_, content, _) => content
    case BackendToolCall(summary) => summary
    case Reasoning(text, _) => text
  }

  function Texts(parts: seq<Part>): string {
    if parts == [] then "" else (if parts[0].TextPart? then parts[0].text else "") + Texts(parts[1..])
  }

  function Arguments(calls: seq<ToolCall>): string {
    if calls == [] then "" else calls[0].arguments + Arguments(calls[1..])
  }

  lemma {:induction false} TextsLen(parts: seq<Part>)
    ensures Utf8Len(Texts(parts)) == TextBytes(parts)
  {
    if parts != [] {
      TextsLen(parts[1..]);
      Utf8LenConcat(if parts[0].TextPart? then parts[0].text else "", Texts(parts[1..]));
    }
  }

  lemma {:induction false} ArgumentsLen(calls: seq<ToolCall>)
    ensures Utf8Len(Arguments(calls)) == ArgumentBytes(calls)
  {
    if calls != [] {
      ArgumentsLen(calls[1..]);
      Utf8LenConcat(calls[0].arguments, Arguments(calls[1..]));
    }
  }

  /** `bytes` at four a token, rounded down. */
  predicate FourEach(bytes: nat, tokens: int) {
    4 * tokens <= bytes < 4 * tokens + 4
  }

  /** How many parts are images. */
  predicate IsImageCount(parts: seq<Part>, n: nat) {
    n == |set k | 0 <= k < |parts| && parts[k].ImagePart?|
  }

  lemma {:induction false} ImagesCounted(parts: seq<Part>)
    ensures IsImageCount(parts, ImageCount(parts))
  {
    var at := set k | 0 <= k < |parts| && parts[k].ImagePart?;
    if parts != [] {
      var n := |parts| - 1;
      var front := parts[..n];
      var before := set k | 0 <= k < |front| && front[k].ImagePart?;
      ImagesCounted(front);
      ImageCountSnoc(front, parts[n]);
      assert parts == front + [parts[n]];
      assert at == before + if parts[n].ImagePart? then {n} else {};
    } else {
      assert at == {};
    }
  }

  lemma {:induction false} ImageCountSnoc(parts: seq<Part>, p: Part)
    ensures ImageCount(parts + [p]) == ImageCount(parts) + if p.ImagePart? then 1 else 0
  {
    if parts == [] {
      assert [] + [p] == [p] && [p][1..] == [];
    } else {
      assert (parts + [p])[1..] == parts[1..] + [p];
      ImageCountSnoc(parts[1..], p);
    }
  }

  /** The estimate is a quarter of the bytes read, and 765 more for each image of a user item; of reasoning the
  larger of its text and three quarters of its ciphertext is read. */
  lemma {:induction false} EstimateIs(item: Item, images: nat)
    requires item.User? ==> IsImageCount(item.parts, images)
    ensures item.User? ==> FourEach(Utf8Len(Read(item)), Estimate(item) - 765 * images)
    ensures !item.User? && !item.Reasoning? ==> FourEach(Utf8Len(Read(item)), Estimate(item))
    ensures item.Reasoning? ==>
              var cipher := if item.encrypted.Some? then Utf8Len(item.encrypted.value) else 0;
              && (4 * Estimate(item) <= Utf8Len(item.text) || 16 * Estimate(item) <= 3 * cipher)
              && Utf8Len(item.text) < 4 * Estimate(item) + 4 && 3 * cipher < 16 * Estimate(item) + 16
  {
    match item
    case User(parts, _) =>
      TextsLen(parts);
      ImagesCounted(parts);
    case Assistant(content, calls, _) =>
      ArgumentsLen(calls);
      Utf8LenConcat(content, Arguments(calls));
    case _ =>
  }

  /** `estimate_item_tokens` of a user item, counting as the source does. */
  method EstimateUser(parts: seq<Part>, meta: UserMeta) returns (tokens: nat)
    ensures tokens == Estimate(User(parts, meta))
  {
    var bytes, images := 0, 0;
    var k := 0;
    while k < |parts|
      invariant k <= |parts|
      invariant bytes + TextBytes(parts[k..]) == TextBytes(parts)
      invariant images + ImageCount(parts[k..]) == ImageCount(parts)
    {
      assert parts[k..][0] == parts[k] && parts[k..][1..] == parts[k + 1..];
      match parts[k] {
        case TextPart(text) => bytes := bytes + Utf8Len(text);
        case ImagePart(_) => images := images + 1;
      }
      k := k + 1;
    }
    tokens := bytes / BYTES_PER_TOKEN + images * IMAGE_TOKENS;
  }
}
