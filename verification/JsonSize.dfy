/** How large a history is on the wire
(crates/codegen/xai-chat-state/src/image_budget.rs, `conversation_body_bytes`; the encoding is
that of section 7 of RFC 8259 as serde_json writes it). */
module JsonSize {
  import opened Wrappers
  import opened Text
  import opened Conversation

  // ---------- the encoding ----------

  function HexDigit(d: nat): char
    requires d < 16
  {
    if d < 10 then '0' + d as char else 'a' + (d - 10) as char
  }

  function EscapeChar(c: char): string {
    if c == '"' then "\\\""
    else if c == '\\' then "\\\\"
    else if c == '\n' then "\\n"
    else if c == '\r' then "\\r"
    else if c == '\t' then "\\t"
    else if c as int == 8 then "\\b"
    else if c as int == 12 then "\\f"
    else if c as int < 0x20 then ['\\', 'u', '0', '0', HexDigit(c as int / 16), HexDigit(c as int % 16)]
    else [c]
  }

  function Escaped(s: string): string {
    if s == "" then "" else EscapeChar(s[0]) + Escaped(s[1..])
  }

  /** The fixed texts around the variable parts of each shape. */
  datatype Frames = Frames(
    textOpen: string, imageOpen: string, partClose: string, userOpen: string, contentClose: string,
    resultOpen: string, resultContent: string, contentEnd: string, imagesOpen: string, imagesClose: string,
    itemClose: string)

  /** The frames that serde_json writes for the derived encodings. */
  const SERDE_FRAMES := Frames(
                          "{\"type\":\"text\",\"text\":\"", "{\"type\":\"image\",\"url\":\"", "\"}",
                          "{\"type\":\"user\",\"content\":[", "]",
                          "{\"type\":\"tool_result\",\"tool_call_id\":\"", "\",\"content\":\"", "\"",
                          ",\"images\":[", "]", "}")

  /** The frames, and the encodings that an eviction never touches: the fields of a user item
  behind its content, and the items that hold no images. */
  datatype Wire = Wire(f: Frames, userTail: UserMeta -> string, whole: Item -> string)

  function PartJson(p: Part, f: Frames): string {
    match p
    case TextPart(text) => f.textOpen + Escaped(text) + f.partClose
    case ImagePart(url) => f.imageOpen + Escaped(url) + f.partClose
  }

  function PartsJson(parts: seq<Part>, f: Frames): string {
    if parts == [] then "" else PartJson(parts[0], f) + Separator(|parts|) + PartsJson(parts[1..], f)
  }

  function Separator(n: nat): string {
    if n > 1 then "," else ""
  }

  function UserJson(parts: seq<Part>, tail: string, f: Frames): string {
    f.userOpen + PartsJson(parts, f) + f.contentClose + (tail + f.itemClose)
  }

  /** The `images` field, which is left out when empty. */
  function ImagesJson(images: seq<Part>, f: Frames): string {
    if images == [] then "" else f.imagesOpen + PartsJson(images, f) + f.imagesClose
  }

  function ResultJson(id: string, content: string, images: string, f: Frames): string {
    f.resultOpen + Escaped(id) + (f.resultContent + Escaped(content) + f.contentEnd) + (images + f.itemClose)
  }

  function ItemJson(item: Item, w: Wire): string {
    match item
    case User(parts, meta) => UserJson(parts, w.userTail(meta), w.f)
    case ToolResult(id, content, images) => ResultJson(id, content, ImagesJson(images, w.f), w.f)
    case _ => w.whole(item)
  }

  function ItemsJson(items: History, w: Wire): string {
    if items == [] then "" else ItemJson(items[0], w) + Separator(|items|) + ItemsJson(items[1..], w)
  }

  function HistoryJson(items: History, w: Wire): string {
    "[" + ItemsJson(items, w) + "]"
  }

  // ---------- sizes, image URLs measured by `m` ----------

  function EscapedLen(s: string): nat {
    Utf8Len(Escaped(s))
  }

  function PartSize(p: Part, f: Frames, m: string -> nat): nat {
    match p
    case TextPart(text) => Utf8Len(f.textOpen) + EscapedLen(text) + Utf8Len(f.partClose)
    case ImagePart(url) => ImageFrame(f) + m(url)
  }

  /** `IMAGE_PART_FRAME_BYTES`. */
  function ImageFrame(f: Frames): nat {
    Utf8Len(f.imageOpen) + Utf8Len(f.partClose)
  }

  function Comma(n: nat): nat {
    if n > 1 then 1 else 0
  }

  function PartsSize(parts: seq<Part>, f: Frames, m: string -> nat): nat {
    if parts == [] then 0 else PartSize(parts[0], f, m) + Comma(|parts|) + PartsSize(parts[1..], f, m)
  }

  function ImagesField(f: Frames): nat {
    Utf8Len(f.imagesOpen) + Utf8Len(f.imagesClose)
  }

  function ImagesSize(images: seq<Part>, f: Frames, m: string -> nat): nat {
    if images == [] then 0 else ImagesField(f) + PartsSize(images, f, m)
  }

  function UserFrame(f: Frames): nat {
    Utf8Len(f.userOpen) + Utf8Len(f.contentClose) + Utf8Len(f.itemClose)
  }

  function ResultFrame(f: Frames): nat {
    Utf8Len(f.resultOpen) + Utf8Len(f.resultContent) + Utf8Len(f.contentEnd) + Utf8Len(f.itemClose)
  }

  function ItemSize(item: Item, w: Wire, m: string -> nat): nat {
    match item
    case User(parts, meta) => UserFrame(w.f) + PartsSize(parts, w.f, m) + Utf8Len(w.userTail(meta))
    case ToolResult(id, content, images) =>
      ResultFrame(w.f) + EscapedLen(id) + EscapedLen(content) + ImagesSize(images, w.f, m)
    case _ => Utf8Len(w.whole(item))
  }

  function ItemsSize(items: History, w: Wire, m: string -> nat): nat {
    if items == [] then 0 else ItemSize(items[0], w, m) + Comma(|items|) + ItemsSize(items[1..], w, m)
  }

  function HistorySize(items: History, w: Wire, m: string -> nat): nat {
    2 + ItemsSize(items, w, m)
  }

  lemma {:induction false} SeparatorLen(n: nat)
    ensures Utf8Len(Separator(n)) == Comma(n)
  {
    assert ","[1..] == "";
  }

  lemma {:induction false} PartsLen(parts: seq<Part>, f: Frames)
    ensures Utf8Len(PartsJson(parts, f)) == PartsSize(parts, f, EscapedLen)
  {
    if parts != [] {
      var p := parts[0];
      PartsLen(parts[1..], f);
      var open, content := if p.TextPart? then f.textOpen else f.imageOpen, if p.TextPart? then p.text else p.url;
      Utf8LenOfThree(open, Escaped(content), f.partClose);
      Utf8LenOfThree(PartJson(p, f), Separator(|parts|), PartsJson(parts[1..], f));
      SeparatorLen(|parts|);
    }
  }

  lemma {:induction false} ItemLen(item: Item, w: Wire)
    ensures Utf8Len(ItemJson(item, w)) == ItemSize(item, w, EscapedLen)
  {
    var f := w.f;
    match item
    case User(parts, meta) =>
      var tail := w.userTail(meta);
      PartsLen(parts, f);
      Utf8LenOfThree(f.userOpen, PartsJson(parts, f), f.contentClose);
      Utf8LenConcat(tail, f.itemClose);
      Utf8LenConcat(f.userOpen + PartsJson(parts, f) + f.contentClose, tail + f.itemClose);
    case ToolResult(id, content, images) =>
      ImagesLen(images, f);
      ResultLen(id, content, ImagesJson(images, f), f);
    case _ =>
  }

  lemma {:induction false} ImagesLen(images: seq<Part>, f: Frames)
    ensures Utf8Len(ImagesJson(images, f)) == ImagesSize(images, f, EscapedLen)
  {
    PartsLen(images, f);
    Utf8LenOfThree(f.imagesOpen, PartsJson(images, f), f.imagesClose);
  }

  lemma {:induction false} ResultLen(id: string, content: string, images: string, f: Frames)
    ensures Utf8Len(ResultJson(id, content, images, f)) ==
            ResultFrame(f) + EscapedLen(id) + EscapedLen(content) + Utf8Len(images)
  {
    var a, b, c := f.resultOpen + Escaped(id), f.resultContent + Escaped(content) + f.contentEnd, images + f.itemClose;
    Utf8LenConcat(f.resultOpen, Escaped(id));
    Utf8LenOfThree(f.resultContent, Escaped(content), f.contentEnd);
    Utf8LenConcat(images, f.itemClose);
    Utf8LenOfThree(a, b, c);
  }

  lemma {:induction false} ItemsLen(items: History, w: Wire)
    ensures Utf8Len(ItemsJson(items, w)) == ItemsSize(items, w, EscapedLen)
  {
    if items != [] {
      ItemsLen(items[1..], w);
      ItemLen(items[0], w);
      Utf8LenOfThree(ItemJson(items[0], w), Separator(|items|), ItemsJson(items[1..], w));
      SeparatorLen(|items|);
    }
  }

  /** The size functions measure the encoding. */
  lemma {:induction false} HistoryLen(items: History, w: Wire)
    ensures Utf8Len(HistoryJson(items, w)) == HistorySize(items, w, EscapedLen)
  {
    ItemsLen(items, w);
    Utf8LenOfThree("[", ItemsJson(items, w), "]");
    assert "["[1..] == "" && "]"[1..] == "";
  }

  // ---------- measuring a URL without scanning its base64 tail ----------

  const DATA := "data:"
  const BASE64 := ";base64"

  function EndsWith(s: string, t: string): bool {
    At(s, t, |s| - |t|)
  }

  /** Header and tail of a base64 data URI. */
  function Base64Split(url: string): Option<(string, string)> {
    match Find(url, ",")
    case None => None
    case Some(i) =>
      var header, tail := url[..i], url[i + 1..];
      if At(header, DATA, 0) && EndsWith(header, BASE64) then Some((header, tail)) else None
  }

  /** `encoded_url_bytes`. */
  function EncodedUrlBytes(url: string): nat {
    match Base64Split(url)
    case None => EscapedLen(url)
    case Some((header, tail)) => EscapedLen(header) + 1 + Utf8Len(tail)
  }

  predicate NeedsNoEscape(s: string) {
    forall k :: 0 <= k < |s| ==> EscapeChar(s[k]) == [s[k]]
  }

  /** The base64 tail of the URL, if it has one, needs no escaping. */
  predicate CleanTail(url: string) {
    match Base64Split(url)
    case None => true
    case Some((_, tail)) => NeedsNoEscape(tail)
  }

  lemma {:induction false} EscapedConcat(a: string, b: string)
    ensures EscapedLen(a + b) == EscapedLen(a) + EscapedLen(b)
  {
    if a == "" {
      assert a + b == b;
    } else {
      assert (a + b)[1..] == a[1..] + b;
      EscapedConcat(a[1..], b);
      Utf8LenConcat(EscapeChar(a[0]), Escaped(a[1..] + b));
      Utf8LenConcat(EscapeChar(a[0]), Escaped(a[1..]));
    }
  }

  lemma {:induction false} EscapeCharLen(c: char)
    ensures Utf8Len(EscapeChar(c)) >= CharBytes(c)
    ensures Utf8Len(EscapeChar(c)) == CharBytes(c) <==> EscapeChar(c) == [c]
  {
    assert [c][1..] == "" && Utf8Len("") == 0;
    if EscapeChar(c) != [c] {
      assert |EscapeChar(c)| >= 2 && CharBytes(c) == 1;
    }
  }

  lemma {:induction false} EscapedLonger(s: string)
    ensures EscapedLen(s) >= Utf8Len(s)
    ensures EscapedLen(s) == Utf8Len(s) <==> NeedsNoEscape(s)
  {
    if s != "" {
      EscapedLonger(s[1..]);
      EscapeCharLen(s[0]);
      Utf8LenConcat(EscapeChar(s[0]), Escaped(s[1..]));
      assert NeedsNoEscape(s) <==> EscapeChar(s[0]) == [s[0]] && NeedsNoEscape(s[1..]) by {
        assert forall k :: 1 <= k < |s| ==> s[k] == s[1..][k - 1];
        assert forall k :: 0 <= k < |s[1..]| ==> s[1..][k] == s[k + 1];
      }
    }
  }

  /** Measured without its tail, a URL is never over-counted, and exact if the tail is clean. */
  lemma {:induction false} EncodedUrlExactly(url: string)
    ensures EncodedUrlBytes(url) <= EscapedLen(url)
    ensures EncodedUrlBytes(url) == EscapedLen(url) <==> CleanTail(url)
  {
    if Base64Split(url).Some? {
      var i := Find(url, ",").value;
      var header, tail := url[..i], url[i + 1..];
      AtChars(url, ",", i);
      assert url == (header + ",") + tail;
      EscapedConcat(header + ",", tail);
      EscapedConcat(header, ",");
      assert EscapedLen(",") == 1 by { assert ","[1..] == "" && EscapeChar(',') + "" == ","; }
      EscapedLonger(tail);
    }
  }

  // ---------- the whole body ----------

  /** The URLs of the images among some parts, in order. */
  function ImageUrls(parts: seq<Part>): seq<string> {
    if parts == [] then [] else (if parts[0].ImagePart? then [parts[0].url] else []) + ImageUrls(parts[1..])
  }

  /** The parts that can hold images. */
  function Gallery(item: Item): seq<Part> {
    match item
    case User(parts, _) => parts
    case ToolResult(_, _, images) => images
    case _ => []
  }

  /** The URLs of all images of a history, in order. */
  function Images(items: History): seq<string> {
    if items == [] then [] else ImageUrls(Gallery(items[0])) + Images(items[1..])
  }

  predicate All(urls: seq<string>, good: string -> bool) {
    forall url :: url in urls ==> good(url)
  }

  lemma {:induction false} AllConcat(a: seq<string>, b: seq<string>, good: string -> bool)
    ensures All(a + b, good) <==> All(a, good) && All(b, good)
  {
    assert forall url :: url in a || url in b ==> url in a + b;
  }

  /** `m` measures no URL above `n`, and exactly the good ones the same. */
  ghost predicate Below(m: string -> nat, n: string -> nat, good: string -> bool) {
    forall url :: m(url) <= n(url) && (m(url) == n(url) <==> good(url))
  }

  lemma {:induction false} PartsBelow(
    parts: seq<Part>, f: Frames, m: string -> nat, n: string -> nat, good: string -> bool)
    requires Below(m, n, good)
    ensures PartsSize(parts, f, m) <= PartsSize(parts, f, n)
    ensures PartsSize(parts, f, m) == PartsSize(parts, f, n) <==> All(ImageUrls(parts), good)
  {
    if parts != [] {
      PartsBelow(parts[1..], f, m, n, good);
      if parts[0].ImagePart? {
        AllConcat([parts[0].url], ImageUrls(parts[1..]), good);
        assert parts[0].url in [parts[0].url];
      } else {
        AllConcat([], ImageUrls(parts[1..]), good);
      }
    }
  }

  lemma {:induction false} ItemsBelow(items: History, w: Wire, m: string -> nat, n: string -> nat, good: string -> bool)
    requires Below(m, n, good)
    ensures ItemsSize(items, w, m) <= ItemsSize(items, w, n)
    ensures ItemsSize(items, w, m) == ItemsSize(items, w, n) <==> All(Images(items), good)
  {
    if items != [] {
      ItemsBelow(items[1..], w, m, n, good);
      PartsBelow(Gallery(items[0]), w.f, m, n, good);
      AllConcat(ImageUrls(Gallery(items[0])), Images(items[1..]), good);
    }
  }

  /** `conversation_body_bytes`. */
  function BodyBytes(items: History, w: Wire): nat {
    HistorySize(items, w, EncodedUrlBytes)
  }

  /** The measured size is at most the length of the serialized history, and equal to it
  exactly when no base64 tail needs escaping. */
  lemma {:induction false} BodyBytesExactly(items: History, w: Wire)
    ensures BodyBytes(items, w) <= Utf8Len(HistoryJson(items, w))
    ensures BodyBytes(items, w) == Utf8Len(HistoryJson(items, w)) <==> All(Images(items), CleanTail)
  {
    HistoryLen(items, w);
    MeasureBelow();
    ItemsBelow(items, w, EncodedUrlBytes, EscapedLen, CleanTail);
  }

  lemma {:induction false} MeasureBelow()
    ensures Below(EncodedUrlBytes, EscapedLen, CleanTail)
  {
    forall url ensures EncodedUrlBytes(url) <= EscapedLen(url)
                       && (EncodedUrlBytes(url) == EscapedLen(url) <==> CleanTail(url)) {
      EncodedUrlExactly(url);
    }
  }

  // ---------- blanking ----------

  function BlankParts(parts: seq<Part>): seq<Part> {
    if parts == [] then []
    else [if parts[0].ImagePart? then ImagePart("") else parts[0]] + BlankParts(parts[1..])
  }

  function BlankItem(item: Item): Item {
    match item
    case User(parts, meta) => User(BlankParts(parts), meta)
    case ToolResult(id, content, images) => ToolResult(id, content, BlankParts(images))
    case _ => item
  }

  function BlankAll(items: History): History {
    if items == [] then [] else [BlankItem(items[0])] + BlankAll(items[1..])
  }

  function Sum(urls: seq<string>, m: string -> nat): nat {
    if urls == [] then 0 else m(urls[0]) + Sum(urls[1..], m)
  }

  lemma {:induction false} SumConcat(a: seq<string>, b: seq<string>, m: string -> nat)
    ensures Sum(a + b, m) == Sum(a, m) + Sum(b, m)
  {
    if a == [] {
      assert a + b == b;
    } else {
      assert (a + b)[1..] == a[1..] + b;
      SumConcat(a[1..], b, m);
    }
  }

  /** Blanking the URLs leaves the size without what they contributed. */
  lemma {:induction false} BlankPartsSize(parts: seq<Part>, f: Frames, m: string -> nat, n: string -> nat)
    requires n("") == 0
    ensures |BlankParts(parts)| == |parts|
    ensures PartsSize(BlankParts(parts), f, n) + Sum(ImageUrls(parts), m) == PartsSize(parts, f, m)
  {
    if parts != [] {
      BlankPartsSize(parts[1..], f, m, n);
      var b := BlankParts(parts[1..]);
      assert BlankParts(parts)[1..] == b;
      if parts[0].ImagePart? {
        SumConcat([parts[0].url], ImageUrls(parts[1..]), m);
        assert Sum([parts[0].url], m) == m(parts[0].url) by { assert [parts[0].url][1..] == []; }
      } else {
        SumConcat([], ImageUrls(parts[1..]), m);
      }
    }
  }

  lemma {:induction false} BlankAllSize(items: History, w: Wire, m: string -> nat, n: string -> nat)
    requires n("") == 0
    ensures |BlankAll(items)| == |items|
    ensures ItemsSize(BlankAll(items), w, n) + Sum(Images(items), m) == ItemsSize(items, w, m)
  {
    if items != [] {
      BlankAllSize(items[1..], w, m, n);
      BlankItemSize(items[0], w, m, n);
      ItemsSizeCons(BlankItem(items[0]), BlankAll(items[1..]), w, n);
      SumConcat(ImageUrls(Gallery(items[0])), Images(items[1..]), m);
    }
  }

  lemma {:induction false} BlankItemSize(item: Item, w: Wire, m: string -> nat, n: string -> nat)
    requires n("") == 0
    ensures ItemSize(BlankItem(item), w, n) + Sum(ImageUrls(Gallery(item)), m) == ItemSize(item, w, m)
  {
    BlankPartsSize(Gallery(item), w.f, m, n);
  }

  lemma {:induction false} ItemsSizeCons(x: Item, rest: History, w: Wire, m: string -> nat)
    ensures ItemsSize([x] + rest, w, m) == ItemSize(x, w, m) + Comma(1 + |rest|) + ItemsSize(rest, w, m)
  {
    assert ([x] + rest)[1..] == rest;
  }

  lemma {:induction false} BlankSnoc(items: History, x: Item)
    ensures BlankAll(items + [x]) == BlankAll(items) + [BlankItem(x)] && |BlankAll(items)| == |items|
  {
    if items == [] {
      assert [] + [x] == [x] && [x][1..] == [];
    } else {
      assert (items + [x])[1..] == items[1..] + [x];
      BlankSnoc(items[1..], x);
    }
  }

  lemma {:induction false} ImagesSnoc(items: History, x: Item)
    ensures Images(items + [x]) == Images(items) + ImageUrls(Gallery(x))
  {
    if items == [] {
      assert [] + [x] == [x] && [x][1..] == [];
      assert Images([x]) == ImageUrls(Gallery(x)) + [];
    } else {
      assert (items + [x])[1..] == items[1..] + [x];
      ImagesSnoc(items[1..], x);
    }
  }

  lemma {:induction false} BlankStep(items: History, k: nat, m: string -> nat)
    requires k < |items|
    ensures |BlankAll(items[..k])| == k && BlankAll(items[..k + 1]) == BlankAll(items[..k]) + [BlankItem(items[k])]
    ensures Sum(Images(items[..k + 1]), m) == Sum(Images(items[..k]), m) + Sum(ImageUrls(Gallery(items[k])), m)
  {
    assert items[..k + 1] == items[..k] + [items[k]];
    BlankSnoc(items[..k], items[k]);
    ImagesSnoc(items[..k], items[k]);
    SumConcat(Images(items[..k]), ImageUrls(Gallery(items[k])), m);
  }

  lemma {:induction false} UpdateFront(a: History, b: History, x: Item)
    requires b != []
    ensures (a + b)[|a| := x] == a + [x] + b[1..]
  {}

  /** The loop that blanks the image URLs of a mutable copy and adds up their measure. */
  method BlankUrls(conversation: History, m: string -> nat) returns (blanked: History, urlBytes: nat)
    ensures blanked == BlankAll(conversation) && urlBytes == Sum(Images(conversation), m)
  {
    blanked, urlBytes := conversation, 0;
    for k := 0 to |conversation|
      invariant |BlankAll(conversation[..k])| == k && blanked == BlankAll(conversation[..k]) + conversation[k..]
      invariant urlBytes == Sum(Images(conversation[..k]), m)
    {
      BlankStep(conversation, k, m);
      UpdateFront(BlankAll(conversation[..k]), conversation[k..], BlankItem(conversation[k]));
      assert conversation[k..][1..] == conversation[k + 1..];
      urlBytes := urlBytes + Sum(ImageUrls(Gallery(conversation[k])), m);
      blanked := blanked[k := BlankItem(conversation[k])];
    }
    assert conversation[..|conversation|] == conversation;
  }

  /** `conversation_body_bytes`: measures a copy with blanked URLs and adds what they measure. */
  method ConversationBodyBytes(conversation: History, w: Wire) returns (bytes: nat)
    ensures bytes == BodyBytes(conversation, w)
  {
    var blanked, urlBytes := BlankUrls(conversation, EncodedUrlBytes);
    HistoryLen(blanked, w);
    BlankAllSize(conversation, w, EncodedUrlBytes, EscapedLen);
    bytes := Utf8Len(HistoryJson(blanked, w)) + urlBytes;
  }
}
