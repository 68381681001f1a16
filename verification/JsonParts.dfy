/** Reading back the JSON of content parts and tool results
(crates/codegen/xai-grok-sampling-types/src/conversation.rs, as serde_json writes them). */
module JsonParts {
  import opened Wrappers
  import opened Text
  import opened Conversation
  import opened JsonSize
  import opened JsonEscapes

  // ---------- texts ----------

  /** A text up to its closing quote, and what stands behind that. */
  function ReadText(s: string): Option<(string, string)>
    decreases |s|
  {
    if s == "" then None
    else if s[0] == '"' then Some(("", s[1..]))
    else
      match FirstChar(s)
      case None => None
      case Some((c, n)) =>
        if n > |s| || n == 0 then None
        else
          match ReadText(s[n..])
          case None => None
          case Some((t, rest)) => Some(([c] + t, rest))
  }

  lemma {:induction false} TextStep(c: char, more: string, t: string, rest: string)
    requires ReadText(more) == Some((t, rest))
    ensures ReadText(EscapeChar(c) + more) == Some(([c] + t, rest))
  {
    CharReads(c, more);
    ReadAhead(c, more);
    assert (EscapeChar(c) + more)[0] == EscapeChar(c)[0] != '"';
  }

  lemma {:induction false} TextReads(t: string, rest: string)
    ensures ReadText(Escaped(t) + ("\"" + rest)) == Some((t, rest))
  {
    if t == "" {
      assert "" + ("\"" + rest) == "\"" + rest && ("\"" + rest)[1..] == rest;
    } else {
      var more := Escaped(t[1..]) + ("\"" + rest);
      TextReads(t[1..], rest);
      TextStep(t[0], more, t[1..], rest);
      Assoc3(EscapeChar(t[0]), Escaped(t[1..]), "\"" + rest);
      assert t == [t[0]] + t[1..];
    }
  }

  /** What stands behind `p`, if that is how the text starts. */
  function Behind(s: string, p: string): Option<string> {
    if p <= s then Some(s[|p|..]) else None
  }

  lemma {:induction false} BehindIs(p: string, rest: string)
    ensures Behind(p + rest, p) == Some(rest)
  {
    assert p <= p + rest && (p + rest)[|p|..] == rest;
  }

  // ---------- parts ----------

  /** The text of a part that opens so, and what stands behind the part. */
  function ReadOpened(s: string, open: string): Option<(string, string)> {
    match Behind(s, open)
    case None => None
    case Some(inside) =>
      match ReadText(inside)
      case None => None
      case Some((t, rest)) =>
        match Behind(rest, "}")
        case None => None
        case Some(after) => Some((t, after))
  }

  function ReadPart(s: string): Option<(Part, string)> {
    match ReadOpened(s, "{\"type\":\"text\",\"text\":\"")
    case Some((t, rest)) => Some((TextPart(t), rest))
    case None =>
      match ReadOpened(s, "{\"type\":\"image\",\"url\":\"")
      case Some((t, rest)) => Some((ImagePart(t), rest))
      case None => None
  }

  lemma {:induction false} OpenedReads(open: string, t: string, rest: string)
    ensures ReadOpened(open + Escaped(t) + "\"}" + rest, open) == Some((t, rest))
  {
    var inside := Escaped(t) + ("\"" + ("}" + rest));
    assert open + Escaped(t) + "\"}" + rest == open + inside;
    BehindIs(open, inside);
    TextReads(t, "}" + rest);
    BehindIs("}", rest);
  }

  lemma {:induction false} OpensOtherwise(s: string, open: string, other: string)
    requires |open| > 9 && |other| > 9 && open[9] != other[9] && other <= s
    ensures ReadOpened(s, open) == None
  {
    assert other <= s ==> s[9] == other[9];
  }

  lemma {:induction false} PartReads(p: Part, rest: string)
    ensures ReadPart(PartJson(p, SERDE_FRAMES) + rest) == Some((p, rest))
  {
    match p
    case TextPart(t) => OpenedReads("{\"type\":\"text\",\"text\":\"", t, rest);
    case ImagePart(url) =>
      ImageIsNoText(Escaped(url) + "\"}" + rest);
      InFour("{\"type\":\"image\",\"url\":\"", Escaped(url), "\"}", rest);
      Assoc3(Escaped(url), "\"}", rest);
      OpenedReads("{\"type\":\"image\",\"url\":\"", url, rest);
  }

  lemma {:induction false} ImageIsNoText(inside: string)
    ensures ReadOpened("{\"type\":\"image\",\"url\":\"" + inside, "{\"type\":\"text\",\"text\":\"") == None
  {
    var text, image := "{\"type\":\"text\",\"text\":\"", "{\"type\":\"image\",\"url\":\"";
    assert text[9] == 't' && image[9] == 'i';
    OpensOtherwise(image + inside, text, image);
  }

  /** The parts up to the closing bracket, and what stands behind that. */
  function ReadParts(s: string): Option<(seq<Part>, string)>
    decreases |s|
  {
    match Behind(s, "]")
    case Some(rest) => Some(([], rest))
    case None =>
      match ReadPart(s)
      case None => None
      case Some((p, more)) =>
        var next := Behind(more, ",");
        var follow := if next.Some? then next.value else more;
        if |follow| >= |s| then None
        else
          match ReadParts(follow)
          case None => None
          case Some((parts, rest)) => Some(([p] + parts, rest))
  }

  lemma {:induction false} PartOpens(p: Part, more: string)
    ensures var s := PartJson(p, SERDE_FRAMES) + more;
            Behind(s, "]") == None && |more| < |s|
  {
    var s := PartJson(p, SERDE_FRAMES) + more;
    assert s[0] == '{';
  }

  lemma {:induction false} PartsStep(s: string, p: Part, more: string, follow: string, parts: seq<Part>, rest: string)
    requires Behind(s, "]") == None && ReadPart(s) == Some((p, more))
    requires Behind(more, ",") == Some(follow) || (Behind(more, ",") == None && follow == more)
    requires |follow| < |s| && ReadParts(follow) == Some((parts, rest))
    ensures ReadParts(s) == Some(([p] + parts, rest))
  {}

  /** Single parts are read back whatever stands behind them. */
  ghost predicate Readable(f: Frames) {
    forall p, more :: var s := PartJson(p, f) + more;
                      ReadPart(s) == Some((p, more)) && Behind(s, "]") == None && |more| < |s|
  }

  lemma {:induction false} PartsRead(parts: seq<Part>, rest: string, f: Frames)
    requires Readable(f)
    ensures ReadParts(PartsJson(parts, f) + ("]" + rest)) == Some((parts, rest))
  {
    if parts == [] {
      EmptyFront("]" + rest);
      BehindIs("]", rest);
    } else {
      PartsRead(parts[1..], rest, f);
      FirstPartRead(parts, rest, f);
      assert parts == [parts[0]] + parts[1..];
    }
  }

  lemma {:induction false} FirstPartRead(parts: seq<Part>, rest: string, f: Frames)
    requires Readable(f) && parts != []
    requires ReadParts(PartsJson(parts[1..], f) + ("]" + rest)) == Some((parts[1..], rest))
    ensures ReadParts(PartsJson(parts, f) + ("]" + rest)) == Some(([parts[0]] + parts[1..], rest))
  {
    var later := PartsJson(parts[1..], f) + ("]" + rest);
    var more := Separator(|parts|) + later;
    PartsJsonIs(parts, rest, f);
    SeparatorReads(parts, rest, f);
    PartsStep(PartJson(parts[0], f) + more, parts[0], more, later, parts[1..], rest);
  }

  lemma {:induction false} PartsJsonIs(parts: seq<Part>, rest: string, f: Frames)
    requires parts != []
    ensures PartsJson(parts, f) + ("]" + rest) ==
            PartJson(parts[0], f) + (Separator(|parts|) + (PartsJson(parts[1..], f) + ("]" + rest)))
  {
    InFour(PartJson(parts[0], f), Separator(|parts|), PartsJson(parts[1..], f), "]" + rest);
  }

  lemma {:induction false} InFour(a: string, b: string, c: string, d: string)
    ensures a + b + c + d == a + (b + (c + d))
  {}

  lemma {:induction false} SeparatorReads(parts: seq<Part>, rest: string, f: Frames)
    requires parts != []
    ensures var later := PartsJson(parts[1..], f) + ("]" + rest);
            var more := Separator(|parts|) + later;
            |later| <= |more|
            && (Behind(more, ",") == Some(later) || (Behind(more, ",") == None && later == more))
  {
    var later := PartsJson(parts[1..], f) + ("]" + rest);
    if |parts| > 1 {
      BehindIs(",", later);
    } else {
      assert "" + later == later && later == "]" + rest && later[0] == ']';
    }
  }

  /** Parts are read back from their JSON. */
  lemma {:induction false} PartsReadBack(parts: seq<Part>, rest: string)
    ensures ReadParts(PartsJson(parts, SERDE_FRAMES) + ("]" + rest)) == Some((parts, rest))
  {
    forall p, more
      ensures var s := PartJson(p, SERDE_FRAMES) + more;
              ReadPart(s) == Some((p, more)) && Behind(s, "]") == None && |more| < |s|
    {
      PartReads(p, more);
      PartOpens(p, more);
    }
    PartsRead(parts, rest, SERDE_FRAMES);
  }

  // ---------- tool results ----------

  /** A tool result, and what stands behind it. */
  function ReadResult(s: string): Option<(Item, string)> {
    match Behind(s, "{\"type\":\"tool_result\",\"tool_call_id\":\"")
    case None => None
    case Some(inside) =>
      match ReadText(inside)
      case None => None
      case Some((id, behindId)) =>
        match Behind(behindId, ",\"content\":\"")
        case None => None
        case Some(within) =>
          match ReadText(within)
          case None => None
          case Some((content, behind)) =>
            match ReadImages(behind)
            case None => None
            case Some((images, rest)) => Some((ToolResult(id, content, images), rest))
  }

  /** The images of a tool result, if it has any, and its closing brace. */
  function ReadImages(s: string): Option<(seq<Part>, string)> {
    match Behind(s, "}")
    case Some(rest) => Some(([], rest))
    case None =>
      match Behind(s, ",\"images\":[")
      case None => None
      case Some(inside) =>
        match ReadParts(inside)
        case None => None
        case Some((images, close)) =>
          match Behind(close, "}")
          case None => None
          case Some(rest) => Some((images, rest))
  }

  lemma {:induction false} ImagesReadBack(images: seq<Part>, rest: string)
    ensures ReadImages(ImagesJson(images, SERDE_FRAMES) + ("}" + rest)) == Some((images, rest))
  {
    BehindIs("}", rest);
    if images == [] {
      assert "" + ("}" + rest) == "}" + rest;
    } else {
      var json := PartsJson(images, SERDE_FRAMES);
      PartsReadBack(images, "}" + rest);
      InFour(",\"images\":[", json, "]", "}" + rest);
      ImagesRead(json, images, rest);
    }
  }

  lemma {:induction false} ImagesRead(json: string, images: seq<Part>, rest: string)
    requires ReadParts(json + ("]" + ("}" + rest))) == Some((images, "}" + rest))
    ensures ReadImages(",\"images\":[" + (json + ("]" + ("}" + rest)))) == Some((images, rest))
  {
    var inside := json + ("]" + ("}" + rest));
    BehindIs(",\"images\":[", inside);
    BehindIs("}", rest);
    assert (",\"images\":[" + inside)[0] == ',';
  }

  /** A tool result is read back from its JSON. */
  lemma {:induction false} ResultReadsBack(item: Item, w: Wire, rest: string)
    requires item.ToolResult? && w.f == SERDE_FRAMES
    ensures ReadResult(ItemJson(item, w) + rest) == Some((item, rest))
  {
    var images := ImagesJson(item.images, SERDE_FRAMES);
    var behind := images + ("}" + rest);
    var within := Escaped(item.content) + ("\"" + behind);
    var inside := Escaped(item.callId) + ("\"" + (",\"content\":\"" + within));
    ResultRegroups(item.callId, item.content, images, rest);
    BehindIs("{\"type\":\"tool_result\",\"tool_call_id\":\"", inside);
    TextReads(item.callId, ",\"content\":\"" + within);
    BehindIs(",\"content\":\"", within);
    TextReads(item.content, behind);
    ImagesReadBack(item.images, rest);
  }

  lemma {:induction false} ResultRegroups(id: string, content: string, images: string, rest: string)
    ensures ResultJson(id, content, images, SERDE_FRAMES) + rest ==
            "{\"type\":\"tool_result\",\"tool_call_id\":\""
            + (Escaped(id) + ("\"" + (",\"content\":\"" + (Escaped(content) + ("\"" + (images + ("}" + rest)))))))
  {
    var open, mid := "{\"type\":\"tool_result\",\"tool_call_id\":\"", ",\"content\":\"";
    assert "\",\"content\":\"" == "\"" + mid;
    Regroup(open, Escaped(id), mid, Escaped(content), images, rest);
  }

  lemma {:induction false} Regroup(open: string, id: string, mid: string, content: string, images: string, rest: string)
    ensures open + id + (("\"" + mid) + content + "\"") + (images + "}") + rest ==
            open + (id + ("\"" + (mid + (content + ("\"" + (images + ("}" + rest)))))))
  {}

  // ---------- user items and histories ----------

  /** The parts of a user item, and what stands behind them. */
  function ReadUser(s: string): Option<(seq<Part>, string)> {
    match Behind(s, "{\"type\":\"user\",\"content\":[")
    case None => None
    case Some(inside) => ReadParts(inside)
  }

  /** The parts of a user item are read back from its JSON; behind them stand its other fields. */
  lemma {:induction false} UserReadsBack(item: Item, w: Wire, rest: string)
    requires item.User? && w.f == SERDE_FRAMES
    ensures ReadUser(ItemJson(item, w) + rest) == Some((item.parts, w.userTail(item.meta) + ("}" + rest)))
  {
    var tail := w.userTail(item.meta) + ("}" + rest);
    PartsReadBack(item.parts, tail);
    UserRegroups(SERDE_FRAMES.userOpen, PartsJson(item.parts, SERDE_FRAMES), w.userTail(item.meta), rest);
    BehindIs("{\"type\":\"user\",\"content\":[", PartsJson(item.parts, SERDE_FRAMES) + ("]" + tail));
  }

  lemma {:induction false} UserRegroups(open: string, parts: string, tail: string, rest: string)
    ensures open + parts + "]" + (tail + "}") + rest == open + (parts + ("]" + (tail + ("}" + rest))))
  {}

  /** A history is its items in order, with commas between them, in brackets. */
  lemma {:induction false} ItemsInOrder(a: History, x: Item, w: Wire)
    ensures HistoryJson([], w) == "[]" && ItemsJson([x], w) == ItemJson(x, w)
    ensures a != [] ==> ItemsJson(a + [x], w) == ItemsJson(a, w) + ("," + ItemJson(x, w))
    ensures HistoryJson(a, w) == "[" + ItemsJson(a, w) + "]"
  {
    assert [x][1..] == [];
    AppendNothing(ItemJson(x, w));
    assert "[" + "" + "]" == "[]";
    if a != [] {
      ItemsInOrder(a[1..], x, w);
      assert (a + [x])[1..] == a[1..] + [x] && (a + [x])[0] == a[0];
      if |a| == 1 {
        assert a[1..] + [x] == [x];
        AppendNothing(ItemJson(a[0], w));
      } else {
        Assoc3(ItemJson(a[0], w) + ",", ItemsJson(a[1..], w), "," + ItemJson(x, w));
      }
    }
  }
}
