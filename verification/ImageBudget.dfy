/** Evicting the oldest images of a request until it fits
(crates/codegen/xai-chat-state/src/image_budget.rs). */
module ImageBudget {
  import opened Wrappers
  import opened Text
  import opened Conversation
  import opened JsonSize

  const IMAGE_COMPACT_PLACEHOLDER :=
    "[An earlier image was removed to keep the request within its size limit and is no longer visible. "
    + "Do not describe or reason about its contents from memory; "
    + "ask the user to re-share it if you need to see it again.]"
  const TOOL_IMAGE_COMPACT_NOTE :=
    "[One or more images from this tool result were removed to keep the request within its size limit "
    + "and are no longer visible. Do not describe or reason about their contents from memory.]"
  const MAX_REQUEST_BYTES := 50 * 1024 * 1024
  const IMAGE_COMPACT_TRIGGER_BYTES := MAX_REQUEST_BYTES - 3 * 1024 * 1024
  const IMAGE_COMPACT_RECLAIM_TARGET_BYTES := MAX_REQUEST_BYTES / 2

  /** What stands in for an evicted image: a text part, or a note in a tool result. */
  datatype Notices = Notices(placeholder: string, note: string)

  const NOTICES := Notices(IMAGE_COMPACT_PLACEHOLDER, TOOL_IMAGE_COMPACT_NOTE)

  // ---------- evicting one image ----------

  predicate HasImage(parts: seq<Part>) {
    exists p | p in parts :: p.ImagePart?
  }

  /** The position of the first image. */
  function FirstImage(parts: seq<Part>): (k: nat)
    requires HasImage(parts)
    ensures k < |parts| && parts[k].ImagePart? && forall j :: 0 <= j < k ==> parts[j].TextPart?
  {
    if parts[0].ImagePart? then 0 else
    assert parts == [parts[0]] + parts[1..];
    1 + FirstImage(parts[1..])
  }

  function WithoutPart(parts: seq<Part>, k: nat): seq<Part>
    requires k < |parts|
  {
    parts[..k] + parts[k + 1..]
  }

  function Noted(content: string, note: string): string {
    if Contains(content, note) then content else content + ("\n\n" + note)
  }

  function EvictFromItem(item: Item, t: Notices): Item
    requires HasImage(Gallery(item))
  {
    match item
    case User(parts, meta) => User(parts[FirstImage(parts) := TextPart(t.placeholder)], meta)
    case ToolResult(id, content, images) =>
      ToolResult(id, Noted(content, t.note), WithoutPart(images, FirstImage(images)))
    case _ => item
  }

  /** The first item with an image. */
  function FirstHolder(items: History): (r: Option<nat>)
    ensures r.Some? ==> r.value < |items| && HasImage(Gallery(items[r.value]))
  {
    if items == [] then None
    else if HasImage(Gallery(items[0])) then Some(0)
    else match FirstHolder(items[1..]) case None => None case Some(i) => Some(i + 1)
  }

  lemma {:induction false} FirstHolderIs(items: History)
    ensures var r := FirstHolder(items);
            forall j :: 0 <= j < (if r.Some? then r.value else |items|) ==> !HasImage(Gallery(items[j]))
  {
    if items != [] && !HasImage(Gallery(items[0])) {
      FirstHolderIs(items[1..]);
      var r := FirstHolder(items);
      forall j | 0 <= j < (if r.Some? then r.value else |items|) ensures !HasImage(Gallery(items[j])) {
        if j > 0 { assert items[j] == items[1..][j - 1]; }
      }
    }
  }

  /** Evicts the oldest image of a history. */
  function EvictOne(items: History, t: Notices): History {
    match FirstHolder(items)
    case None => items
    case Some(i) => items[i := EvictFromItem(items[i], t)]
  }

  function EvictFirst(items: History, k: nat, t: Notices): History
    decreases k
  {
    if k == 0 then items else EvictFirst(EvictOne(items, t), k - 1, t)
  }

  // ---------- the order of the images ----------

  lemma {:induction false} ImageUrlsConcat(a: seq<Part>, b: seq<Part>)
    ensures ImageUrls(a + b) == ImageUrls(a) + ImageUrls(b)
  {
    if a == [] {
      assert a + b == b;
    } else {
      assert (a + b)[1..] == a[1..] + b;
      ImageUrlsConcat(a[1..], b);
    }
  }

  lemma {:induction false} NoImageNoUrls(parts: seq<Part>)
    ensures ImageUrls(parts) == [] <==> !HasImage(parts)
  {
    if parts != [] {
      NoImageNoUrls(parts[1..]);
      assert parts == [parts[0]] + parts[1..];
    }
  }

  /** Dropping or overwriting the first image drops the first URL. */
  lemma {:induction false} FirstImageUrl(parts: seq<Part>, filler: seq<Part>)
    requires HasImage(parts) && !HasImage(filler)
    ensures var k := FirstImage(parts);
            ImageUrls(parts) == [parts[k].url] + ImageUrls(parts[..k] + filler + parts[k + 1..])
  {
    var k := FirstImage(parts);
    NoneBeforeFirst(parts);
    NoImageNoUrls(filler);
    UrlReplaced(parts[..k], parts[k], parts[k + 1..], filler);
    CutAround(parts, k);
  }

  lemma {:induction false} UrlReplaced(a: seq<Part>, p: Part, b: seq<Part>, filler: seq<Part>)
    requires p.ImagePart? && ImageUrls(a) == [] && ImageUrls(filler) == []
    ensures ImageUrls(a + [p] + b) == [p.url] + ImageUrls(a + filler + b)
  {
    UrlsBehind(a, [p], b);
    UrlsBehind(a, filler, b);
    EmptyFront(ImageUrls(b));
    assert [p][1..] == [];
  }

  lemma {:induction false} NoneBeforeFirst(parts: seq<Part>)
    requires HasImage(parts)
    ensures ImageUrls(parts[..FirstImage(parts)]) == []
  {
    NoImageNoUrls(parts[..FirstImage(parts)]);
  }

  lemma {:induction false} UrlsBehind(a: seq<Part>, m: seq<Part>, b: seq<Part>)
    requires ImageUrls(a) == []
    ensures ImageUrls(a + m + b) == ImageUrls(m) + ImageUrls(b)
  {
    ImageUrlsConcat(a + m, b);
    ImageUrlsConcat(a, m);
  }

  lemma {:induction false} CutAround(parts: seq<Part>, k: nat)
    requires k < |parts|
    ensures parts == parts[..k] + [parts[k]] + parts[k + 1..]
  {}

  lemma {:induction false} UpdateIsCut(parts: seq<Part>, k: nat, x: Part)
    requires k < |parts|
    ensures parts[k := x] == parts[..k] + [x] + parts[k + 1..]
    ensures WithoutPart(parts, k) == parts[..k] + [] + parts[k + 1..]
  {}

  /** What an item's gallery has in place of an evicted image. */
  function Filler(item: Item, t: Notices): seq<Part> {
    if item.User? then [TextPart(t.placeholder)] else []
  }

  lemma {:induction false} GalleryAfter(item: Item, t: Notices)
    requires HasImage(Gallery(item))
    ensures var parts := Gallery(item);
            var k := FirstImage(parts);
            Gallery(EvictFromItem(item, t)) == parts[..k] + Filler(item, t) + parts[k + 1..]
  {
    UpdateIsCut(Gallery(item), FirstImage(Gallery(item)), TextPart(t.placeholder));
  }

  lemma {:induction false} ItemLosesFirst(item: Item, t: Notices)
    requires HasImage(Gallery(item))
    ensures ImageUrls(Gallery(item)) ==
            [Gallery(item)[FirstImage(Gallery(item))].url] + ImageUrls(Gallery(EvictFromItem(item, t)))
  {
    GalleryAfter(item, t);
    FirstImageUrl(Gallery(item), Filler(item, t));
  }

  lemma {:induction false} EvictOneCons(items: History, t: Notices)
    requires items != []
    ensures EvictOne(items, t) == if HasImage(Gallery(items[0])) then [EvictFromItem(items[0], t)] + items[1..]
                                  else [items[0]] + EvictOne(items[1..], t)
  {}

  lemma {:induction false} NoHolder(items: History)
    ensures FirstHolder(items).None? <==> Images(items) == []
  {
    if items != [] {
      NoImageNoUrls(Gallery(items[0]));
      NoHolder(items[1..]);
    }
  }

  lemma {:induction false} OldestGoes(items: History, t: Notices)
    ensures Images(EvictOne(items, t)) == if Images(items) == [] then [] else Images(items)[1..]
  {
    if items != [] {
      EvictOneCons(items, t);
      if HasImage(Gallery(items[0])) {
        FirstOfItemGoes(items[0], items[1..], t);
        assert items == [items[0]] + items[1..];
      } else {
        OldestGoes(items[1..], t);
        NoImageNoUrls(Gallery(items[0]));
        ImagesCons(items[0], EvictOne(items[1..], t));
        assert [] + Images(items[1..]) == Images(items[1..]);
      }
    }
  }

  lemma {:induction false} ImagesCons(x: Item, rest: History)
    ensures Images([x] + rest) == ImageUrls(Gallery(x)) + Images(rest)
  {
    assert ([x] + rest)[1..] == rest;
  }

  lemma {:induction false} FirstOfItemGoes(x: Item, rest: History, t: Notices)
    requires HasImage(Gallery(x))
    ensures Images([x] + rest) != [] && Images([EvictFromItem(x, t)] + rest) == Images([x] + rest)[1..]
  {
    var url := Gallery(x)[FirstImage(Gallery(x))].url;
    ItemLosesFirst(x, t);
    ImagesCons(x, rest);
    ImagesCons(EvictFromItem(x, t), rest);
    DropHead(url, ImageUrls(Gallery(EvictFromItem(x, t))), Images(rest));
  }

  lemma {:induction false} DropHead(url: string, a: seq<string>, b: seq<string>)
    ensures ([url] + a + b)[1..] == a + b
  {}

  /** Evicting `k` images removes exactly the first `k` in conversation order. */
  lemma {:induction false} EvictsOldest(items: History, k: nat, t: Notices)
    requires k <= |Images(items)|
    ensures Images(EvictFirst(items, k, t)) == Images(items)[k..]
    decreases k
  {
    if k > 0 {
      OldestGoes(items, t);
      EvictsOldest(EvictOne(items, t), k - 1, t);
      DropTwice(Images(items), k);
    }
  }

  lemma {:induction false} DropTwice(urls: seq<string>, k: nat)
    requires 0 < k <= |urls|
    ensures urls[1..][k - 1..] == urls[k..]
  {}

  // ---------- everything else stays ----------

  /** From `a` to `b` some images went, each leaving its notice, and nothing else changed. */
  predicate OnlyImagesGo(a: Item, b: Item, t: Notices) {
    match a
    case User(parts, meta) =>
      && b.User? && b.meta == meta && |b.parts| == |parts|
      && (forall j :: 0 <= j < |parts| ==>
                        b.parts[j] == parts[j] || (parts[j].ImagePart? && b.parts[j] == TextPart(t.placeholder)))
    case ToolResult(id, content, images) =>
      && b.ToolResult? && b.callId == id && TextParts(b.images) == TextParts(images) && |b.images| <= |images|
      && (if |b.images| == |images| then b.images == images && b.content == content
          else b.content == Noted(content, t.note))
    case _ => b == a
  }

  lemma {:induction false} NotedOnce(content: string, note: string)
    ensures Noted(Noted(content, note), note) == Noted(content, note)
  {
    var s := content + ("\n\n" + note);
    assert s[|content| + 2..|content| + 2 + |note|] == note;
    assert At(s, note, |content| + 2);
  }

  lemma {:induction false} OnlyImagesGoOn(a: Item, b: Item, c: Item, t: Notices)
    requires OnlyImagesGo(a, b, t) && OnlyImagesGo(b, c, t)
    ensures OnlyImagesGo(a, c, t)
  {
    if a.ToolResult? {
      NotedOnce(a.content, t.note);
    }
  }

  lemma {:induction false} TextPartsConcat(a: seq<Part>, b: seq<Part>)
    ensures TextParts(a + b) == TextParts(a) + TextParts(b)
  {
    if a == [] {
      assert a + b == b;
    } else {
      assert (a + b)[1..] == a[1..] + b;
      TextPartsConcat(a[1..], b);
    }
  }

  lemma {:induction false} EvictFromItemOnly(item: Item, t: Notices)
    requires HasImage(Gallery(item))
    ensures OnlyImagesGo(item, EvictFromItem(item, t), t)
  {
    if item.ToolResult? {
      var images := item.images;
      var k := FirstImage(images);
      CutAround(images, k);
      TextPartsAround(images[..k], images[k], images[k + 1..]);
    }
  }

  lemma {:induction false} TextPartsAround(a: seq<Part>, image: Part, b: seq<Part>)
    requires image.ImagePart?
    ensures TextParts(a + [image] + b) == TextParts(a + b)
  {
    TextPartsConcat(a + [image], b);
    TextPartsConcat(a, [image]);
    TextPartsConcat(a, b);
    assert [image][1..] == [];
  }

  /** Evicting images keeps the number and order of the items, their ids and every other part. */
  lemma {:induction false} EvictsOnlyImages(items: History, k: nat, t: Notices)
    ensures var out := EvictFirst(items, k, t);
            |out| == |items| && forall i :: 0 <= i < |items| ==> OnlyImagesGo(items[i], out[i], t)
    decreases k
  {
    if k > 0 {
      var next := EvictOne(items, t);
      EvictsOnlyImages(next, k - 1, t);
      forall i | 0 <= i < |items|
        ensures OnlyImagesGo(items[i], EvictFirst(items, k, t)[i], t)
      {
        if FirstHolder(items) == Some(i) {
          EvictFromItemOnly(items[i], t);
        } else {
          assert next[i] == items[i];
          OnlyImagesGoSelf(items[i], t);
        }
        OnlyImagesGoOn(items[i], next[i], EvictFirst(items, k, t)[i], t);
      }
    } else {
      forall i | 0 <= i < |items| ensures OnlyImagesGo(items[i], items[i], t) { OnlyImagesGoSelf(items[i], t); }
    }
  }

  lemma {:induction false} OnlyImagesGoSelf(item: Item, t: Notices)
    ensures OnlyImagesGo(item, item, t)
  {}

  // ---------- the running size ----------

  function Minus(a: nat, b: nat): nat {
    if b <= a then a - b else 0
  }

  /** `image_part_bytes`. */
  function ImageBytes(p: Part, w: Wire): nat
    requires p.ImagePart?
  {
    PartSize(p, w.f, EncodedUrlBytes)
  }

  function PlaceholderBytes(w: Wire, t: Notices): nat {
    PartSize(TextPart(t.placeholder), w.f, EncodedUrlBytes)
  }

  function NoteBytes(t: Notices): nat {
    EscapedLen("\n\n" + t.note)
  }

  /** The running size after evicting the first image of `item`. */
  function Deduct(running: nat, item: Item, w: Wire, t: Notices): nat
    requires HasImage(Gallery(item))
  {
    var bytes := ImageBytes(Gallery(item)[FirstImage(Gallery(item))], w);
    if item.User? then Minus(running, Minus(bytes, PlaceholderBytes(w, t)))
    else Minus(running, bytes + Comma(|item.images|)) + (if Contains(item.content, t.note) then 0 else NoteBytes(t))
  }

  /** The bytes of an `images` field that is dropped with its last image, which the running
  size does not deduct. */
  function Uncounted(item: Item, w: Wire): nat {
    if item.ToolResult? && |item.images| == 1 then ImagesField(w.f) else 0
  }

  lemma {:induction false} PartsSizeConcat(a: seq<Part>, b: seq<Part>, f: Frames, m: string -> nat)
    ensures PartsSize(a + b, f, m) == PartsSize(a, f, m) + PartsSize(b, f, m) + (if a != [] && b != [] then 1 else 0)
  {
    if a == [] {
      assert a + b == b;
    } else {
      assert (a + b)[1..] == a[1..] + b;
      PartsSizeConcat(a[1..], b, f, m);
    }
  }

  lemma {:induction false} PartsSizeAt(parts: seq<Part>, k: nat, x: Part, f: Frames, m: string -> nat)
    requires k < |parts|
    ensures PartsSize(parts[k := x], f, m) + PartSize(parts[k], f, m) == PartsSize(parts, f, m) + PartSize(x, f, m)
    ensures PartsSize(WithoutPart(parts, k), f, m) + PartSize(parts[k], f, m) + Comma(|parts|) == PartsSize(parts, f, m)
  {
    var a, b := parts[..k], parts[k + 1..];
    assert parts == a + ([parts[k]] + b) && parts[k := x] == a + ([x] + b);
    PartsSizeConcat(a, [parts[k]] + b, f, m);
    PartsSizeConcat(a, [x] + b, f, m);
    PartsSizeConcat(a, b, f, m);
    assert ([parts[k]] + b)[1..] == b && ([x] + b)[1..] == b;
  }

  /** No image of a user item is smaller on the wire than the placeholder. */
  predicate BigItem(item: Item, w: Wire, t: Notices) {
    item.User? ==> forall p :: p in item.parts && p.ImagePart? ==> ImageBytes(p, w) >= PlaceholderBytes(w, t)
  }

  predicate BigImages(items: History, w: Wire, t: Notices) {
    forall i :: 0 <= i < |items| ==> BigItem(items[i], w, t)
  }

  /** By how much the first image of a user item falls short of the placeholder that replaces it. */
  function Shortfall(item: Item, w: Wire, t: Notices): nat
    requires HasImage(Gallery(item))
  {
    if item.User? then Minus(PlaceholderBytes(w, t), ImageBytes(item.parts[FirstImage(item.parts)], w)) else 0
  }

  lemma {:induction false} ItemStep(item: Item, running: nat, w: Wire, t: Notices)
    requires HasImage(Gallery(item)) && running >= ItemSize(item, w, EncodedUrlBytes)
    ensures Deduct(running, item, w, t) + ItemSize(item, w, EncodedUrlBytes) + Shortfall(item, w, t) ==
            running + ItemSize(EvictFromItem(item, t), w, EncodedUrlBytes) + Uncounted(item, w)
  {
    var parts, m := Gallery(item), EncodedUrlBytes;
    var k := FirstImage(parts);
    if item.User? {
      PartsSizeAt(parts, k, TextPart(t.placeholder), w.f, m);
    } else {
      PartsSizeAt(parts, k, parts[k], w.f, m);
      EscapedConcat(item.content, "\n\n" + t.note);
    }
  }

  lemma {:induction false} ItemsSizeUpdate(items: History, i: nat, x: Item, w: Wire, m: string -> nat)
    requires i < |items|
    ensures ItemsSize(items[i := x], w, m) + ItemSize(items[i], w, m) == ItemsSize(items, w, m) + ItemSize(x, w, m)
    ensures ItemsSize(items, w, m) >= ItemSize(items[i], w, m)
  {
    if i == 0 {
      assert items[i := x][1..] == items[1..];
    } else {
      assert items[i := x][1..] == items[1..][i - 1 := x];
      ItemsSizeUpdate(items[1..], i - 1, x, w, m);
    }
  }

  /** The running size after one more eviction, if there is an image left. */
  function NextRunning(items: History, running: nat, w: Wire, t: Notices): nat {
    match FirstHolder(items)
    case None => running
    case Some(i) => Deduct(running, items[i], w, t)
  }

  function NextUncounted(items: History, w: Wire): nat {
    match FirstHolder(items)
    case None => 0
    case Some(i) => Uncounted(items[i], w)
  }

  function NextShortfall(items: History, w: Wire, t: Notices): nat {
    match FirstHolder(items)
    case None => 0
    case Some(i) => Shortfall(items[i], w, t)
  }

  /** One eviction takes the same off the running size and the true size, but for the empty
  `images` field that only the true size loses, and what a small image falls short of the
  placeholder, which only the true size gains. So the running size remains an upper bound
  exactly when its lead and that field make up for the shortfall. */
  lemma {:induction false} RunningStepExactly(items: History, running: nat, w: Wire, t: Notices)
    requires running >= BodyBytes(items, w)
    ensures NextRunning(items, running, w, t) + BodyBytes(items, w) + NextShortfall(items, w, t) ==
            running + BodyBytes(EvictOne(items, t), w) + NextUncounted(items, w)
    ensures NextRunning(items, running, w, t) >= BodyBytes(EvictOne(items, t), w) <==>
            running - BodyBytes(items, w) + NextUncounted(items, w) >= NextShortfall(items, w, t)
  {
    match FirstHolder(items)
    case None =>
    case Some(i) =>
      ItemsSizeUpdate(items, i, EvictFromItem(items[i], t), w, EncodedUrlBytes);
      ItemStep(items[i], running, w, t);
  }

  lemma {:induction false} BigImagesKept(items: History, w: Wire, t: Notices)
    requires BigImages(items, w, t)
    ensures BigImages(EvictOne(items, t), w, t)
  {
    var next := EvictOne(items, t);
    forall i | 0 <= i < |next|
      ensures BigItem(next[i], w, t)
    {
      if FirstHolder(items) == Some(i) {
        assert BigItem(items[i], w, t);
      } else {
        assert next[i] == items[i];
      }
    }
  }

  // ---------- the eviction loop ----------

  /** Evicts, oldest first, until the running size meets the target or no image is left. */
  function EvictLoop(items: History, running: nat, target: nat, w: Wire, t: Notices): (r: (History, nat))
    decreases |Images(items)|
  {
    if running <= target || Images(items) == [] then (items, 0)
    else
      OldestGoes(items, t);
      var rest := EvictLoop(EvictOne(items, t), NextRunning(items, running, w, t), target, w, t);
      (rest.0, rest.1 + 1)
  }

  /** The loop evicts exactly the first images, and none if the target is met. */
  lemma {:induction false} LoopEvictsFirst(items: History, running: nat, target: nat, w: Wire, t: Notices)
    ensures var (out, k) := EvictLoop(items, running, target, w, t);
            k <= |Images(items)| && out == EvictFirst(items, k, t) && Images(out) == Images(items)[k..]
            && (running <= target ==> k == 0)
    decreases |Images(items)|
  {
    if running > target && Images(items) != [] {
      OldestGoes(items, t);
      LoopEvictsFirst(EvictOne(items, t), NextRunning(items, running, w, t), target, w, t);
    }
  }

  // ---------- when the running size stays an upper bound ----------

  /** The running size is at least the true size at every step of the loop. */
  predicate StaysAbove(items: History, running: nat, target: nat, w: Wire, t: Notices)
    decreases |Images(items)|
  {
    && running >= BodyBytes(items, w)
    && (running <= target || Images(items) == []
        || (OldestGoes(items, t); StaysAbove(EvictOne(items, t), NextRunning(items, running, w, t), target, w, t)))
  }

  /** Evicting the images one after another, the `images` fields dropped so far and a lead to
  begin with always make up for what small images fell short of the placeholder. */
  predicate Covered(items: History, lead: nat, w: Wire, t: Notices)
    decreases |Images(items)|
  {
    || Images(items) == []
    || (&& lead + NextUncounted(items, w) >= NextShortfall(items, w, t)
        && (OldestGoes(items, t);
            Covered(EvictOne(items, t), lead + NextUncounted(items, w) - NextShortfall(items, w, t), w, t)))
  }

  lemma {:induction false} CoveredStaysAbove(items: History, running: nat, target: nat, w: Wire, t: Notices)
    requires running >= BodyBytes(items, w) && Covered(items, running - BodyBytes(items, w), w, t)
    ensures StaysAbove(items, running, target, w, t)
    decreases |Images(items)|
  {
    if running > target && Images(items) != [] {
      OldestGoes(items, t);
      RunningStepExactly(items, running, w, t);
      CoveredStaysAbove(EvictOne(items, t), NextRunning(items, running, w, t), target, w, t);
    }
  }

  /** With no target the loop goes on to the last image, so it meets every uncovered shortfall. */
  lemma {:induction false} UncoveredFallsBelow(items: History, running: nat, w: Wire, t: Notices)
    requires running >= BodyBytes(items, w) && !Covered(items, running - BodyBytes(items, w), w, t)
    ensures !StaysAbove(items, running, 0, w, t)
    decreases |Images(items)|
  {
    OldestGoes(items, t);
    RunningStepExactly(items, running, w, t);
    if NextRunning(items, running, w, t) >= BodyBytes(EvictOne(items, t), w) {
      UncoveredFallsBelow(EvictOne(items, t), NextRunning(items, running, w, t), w, t);
    }
  }

  /** The running size stays an upper bound of the true size at every step, for every target,
  exactly when its lead covers the shortfalls. */
  lemma {:induction false} StaysAboveExactly(items: History, running: nat, w: Wire, t: Notices)
    requires running >= BodyBytes(items, w)
    ensures (forall target :: StaysAbove(items, running, target, w, t)) <==>
            Covered(items, running - BodyBytes(items, w), w, t)
  {
    if Covered(items, running - BodyBytes(items, w), w, t) {
      forall target ensures StaysAbove(items, running, target, w, t) {
        CoveredStaysAbove(items, running, target, w, t);
      }
    } else {
      UncoveredFallsBelow(items, running, w, t);
    }
  }

  // ---------- when the loop ends within the target ----------

  /** The loop ends within the target or without images. */
  predicate EndsWell(items: History, running: nat, target: nat, w: Wire, t: Notices) {
    var out := EvictLoop(items, running, target, w, t).0;
    BodyBytes(out, w) <= target || Images(out) == []
  }

  /** Evicting the images one after another, the running size bounds the true size at each new low,
  below `low` to begin with, that leaves an image: there the loop may stop. */
  predicate SafeStops(items: History, running: nat, low: nat, w: Wire, t: Notices)
    decreases |Images(items)|
  {
    || Images(items) == []
    || (&& (running < low ==> BodyBytes(items, w) <= running)
        && (OldestGoes(items, t);
            SafeStops(EvictOne(items, t), NextRunning(items, running, w, t), Lower(low, running), w, t)))
  }

  function Lower(a: nat, b: nat): nat {
    if a < b then a else b
  }

  lemma {:induction false} SafeStopEndsWell(items: History, running: nat, low: nat, target: nat, w: Wire, t: Notices)
    requires SafeStops(items, running, low, w, t) && target < low
    ensures EndsWell(items, running, target, w, t)
    decreases |Images(items)|
  {
    if running > target && Images(items) != [] {
      OldestGoes(items, t);
      SafeStopEndsWell(EvictOne(items, t), NextRunning(items, running, w, t), Lower(low, running), target, w, t);
    }
  }

  lemma {:induction false} UnsafeStop(items: History, running: nat, low: nat, w: Wire, t: Notices) returns (target: nat)
    requires !SafeStops(items, running, low, w, t)
    ensures target < low && !EndsWell(items, running, target, w, t)
    decreases |Images(items)|
  {
    if running < low && BodyBytes(items, w) > running {
      target := running;
    } else {
      OldestGoes(items, t);
      target := UnsafeStop(EvictOne(items, t), NextRunning(items, running, w, t), Lower(low, running), w, t);
    }
  }

  /** For every target below the running size the loop ends within it or without images, exactly when
  the running size bounds the true size wherever the loop may stop. */
  lemma {:induction false} LoopEndsWellExactly(items: History, running: nat, w: Wire, t: Notices)
    ensures (forall target: nat :: target < running ==> EndsWell(items, running, target, w, t)) <==>
            SafeStops(items, running, running, w, t)
  {
    if SafeStops(items, running, running, w, t) {
      forall target: nat | target < running ensures EndsWell(items, running, target, w, t) {
        SafeStopEndsWell(items, running, running, target, w, t);
      }
    } else {
      var target := UnsafeStop(items, running, running, w, t);
    }
  }

  /** So it does where the running size stays above the true size. */
  lemma {:induction false} LoopReachesTarget(items: History, running: nat, target: nat, w: Wire, t: Notices)
    requires StaysAbove(items, running, target, w, t)
    ensures EndsWell(items, running, target, w, t)
    decreases |Images(items)|
  {
    if running > target && Images(items) != [] {
      OldestGoes(items, t);
      LoopReachesTarget(EvictOne(items, t), NextRunning(items, running, w, t), target, w, t);
    }
  }

  lemma {:induction false} CoveredIsSafe(items: History, running: nat, w: Wire, t: Notices)
    requires running >= BodyBytes(items, w) && Covered(items, running - BodyBytes(items, w), w, t)
    ensures SafeStops(items, running, running, w, t)
  {
    if !SafeStops(items, running, running, w, t) {
      var target := UnsafeStop(items, running, running, w, t);
      CoveredStaysAbove(items, running, target, w, t);
      LoopReachesTarget(items, running, target, w, t);
    }
  }

  /** With no user image smaller than the placeholder nothing has to be covered. */
  lemma {:induction false} BigImagesCovered(items: History, lead: nat, w: Wire, t: Notices)
    requires BigImages(items, w, t)
    ensures Covered(items, lead, w, t)
    decreases |Images(items)|
  {
    if Images(items) != [] {
      OldestGoes(items, t);
      BigImagesKept(items, w, t);
      NoShortfall(items, w, t);
      BigImagesCovered(EvictOne(items, t), lead + NextUncounted(items, w), w, t);
    }
  }

  lemma {:induction false} NoShortfall(items: History, w: Wire, t: Notices)
    requires BigImages(items, w, t)
    ensures NextShortfall(items, w, t) == 0
  {
    if FirstHolder(items).Some? {
      assert BigItem(items[FirstHolder(items).value], w, t);
    }
  }

  /** And no eviction changes that. */
  lemma {:induction false} BigImagesStay(items: History, k: nat, w: Wire, t: Notices)
    requires BigImages(items, w, t)
    ensures BigImages(EvictFirst(items, k, t), w, t)
    decreases k
  {
    if k > 0 {
      BigImagesKept(items, w, t);
      BigImagesStay(EvictOne(items, t), k - 1, w, t);
    }
  }

  // ---------- the budget ----------

  datatype Outcome = Outcome(
    bodyBytes: nat, bodyBytesAfter: nat, inlineImages: nat, needsCompaction: bool, evicted: nat)

  /** The loop, entered only at the trigger and above the target. */
  function Selected(items: History, body: nat, trigger: nat, target: nat, w: Wire, t: Notices): (History, nat) {
    if body >= trigger && body > target then EvictLoop(items, body, target, w, t) else (items, 0)
  }

  /** `apply_image_budget_with_limits`. */
  function Budgeted(items: History, trigger: nat, target: nat, w: Wire, t: Notices): (History, Outcome) {
    var body := BodyBytes(items, w);
    var (out, k) := Selected(items, body, trigger, target, w, t);
    (out, Outcome(body, BodyBytes(out, w), |Images(items)|, body >= trigger, k))
  }

  /** Applying the budget evicts exactly the oldest images, and none below the trigger or
  within the target. */
  lemma {:induction false} BudgetEvictsOldest(items: History, trigger: nat, target: nat, w: Wire, t: Notices)
    ensures var b := Budgeted(items, trigger, target, w, t);
            b.0 == EvictFirst(items, b.1.evicted, t)
    ensures var b := Budgeted(items, trigger, target, w, t);
            b.1.evicted <= |Images(items)| && Images(b.0) == Images(items)[b.1.evicted..]
    ensures var b := Budgeted(items, trigger, target, w, t);
            b.1.evicted > 0 ==> b.1.bodyBytes >= trigger && b.1.bodyBytes > target
  {
    SelectedEvictsFirst(items, BodyBytes(items, w), trigger, target, w, t);
  }

  lemma {:induction false} SelectedEvictsFirst(
    items: History, body: nat, trigger: nat, target: nat, w: Wire, t: Notices)
    ensures var (out, k) := Selected(items, body, trigger, target, w, t);
            k <= |Images(items)| && out == EvictFirst(items, k, t) && Images(out) == Images(items)[k..]
            && (k > 0 ==> body >= trigger && body > target)
  {
    LoopEvictsFirst(items, body, target, w, t);
  }

  /** The result is below the trigger, within the target or image-free. */
  predicate BudgetMet(items: History, trigger: nat, target: nat, w: Wire, t: Notices) {
    var (out, o) := Budgeted(items, trigger, target, w, t);
    o.bodyBytesAfter < trigger || o.bodyBytesAfter <= target || Images(out) == []
  }

  /** A second application evicts nothing. */
  predicate Settled(items: History, trigger: nat, target: nat, w: Wire, t: Notices) {
    var out := Budgeted(items, trigger, target, w, t).0;
    Budgeted(out, trigger, target, w, t).1.evicted == 0
  }

  /** The loop may stop only where the running size, measured at the start, bounds the true one. */
  predicate Safe(items: History, w: Wire, t: Notices) {
    SafeStops(items, BodyBytes(items, w), BodyBytes(items, w), w, t)
  }

  lemma {:induction false} BudgetReachesTarget(items: History, trigger: nat, target: nat, w: Wire, t: Notices)
    requires Safe(items, w, t)
    ensures BudgetMet(items, trigger, target, w, t)
  {
    if BodyBytes(items, w) > target {
      SafeStopEndsWell(items, BodyBytes(items, w), BodyBytes(items, w), target, w, t);
    }
  }

  /** With the target below the trigger, an application that meets the budget is the last. */
  lemma {:induction false} BudgetSettles(items: History, trigger: nat, target: nat, w: Wire, t: Notices)
    requires target < trigger
    ensures Settled(items, trigger, target, w, t) <==> BudgetMet(items, trigger, target, w, t)
    ensures Settled(items, trigger, target, w, t) ==>
              var out := Budgeted(items, trigger, target, w, t).0;
              Budgeted(out, trigger, target, w, t).0 == out
  {}

  /** The budget is met for all limits, and settled for all limits in order, exactly when the
  running size bounds the true size wherever the loop may stop. */
  lemma {:induction false} BudgetMetExactly(items: History, w: Wire, t: Notices)
    ensures Safe(items, w, t) <==> forall trigger, target :: BudgetMet(items, trigger, target, w, t)
    ensures Safe(items, w, t) <==> forall trigger, target :: target < trigger ==> Settled(items, trigger, target, w, t)
  {
    if Safe(items, w, t) {
      forall trigger, target ensures BudgetMet(items, trigger, target, w, t) {
        BudgetReachesTarget(items, trigger, target, w, t);
      }
      forall trigger, target | target < trigger ensures Settled(items, trigger, target, w, t) {
        BudgetSettles(items, trigger, target, w, t);
      }
    } else {
      var target := UnsafeStop(items, BodyBytes(items, w), BodyBytes(items, w), w, t);
      BudgetSettles(items, target + 1, target, w, t);
      assert !BudgetMet(items, target + 1, target, w, t);
    }
  }

  function Triple(a: Part, b: Part, c: Part, meta: UserMeta): History {
    [User([a, b, c], meta)]
  }

  /** A user image smaller than the placeholder breaks the bound: evicting it enlarges the
  body unseen, and the loop ends above the target with an image left. */
  lemma {:induction false} SmallImageOvershoots(
    small: string, big: string, last: string, meta: UserMeta, target: nat, w: Wire, t: Notices)
    requires ImageBytes(ImagePart(small), w) < PlaceholderBytes(w, t) < ImageBytes(ImagePart(big), w)
    requires BodyBytes(Triple(ImagePart(small), ImagePart(big), ImagePart(last), meta), w) ==
             target + (ImageBytes(ImagePart(big), w) - PlaceholderBytes(w, t))
    ensures var items := Triple(ImagePart(small), ImagePart(big), ImagePart(last), meta);
            var out := EvictLoop(items, BodyBytes(items, w), target, w, t).0;
            BodyBytes(out, w) > target && Images(out) == [last]
  {
    var s, b, l, p := ImagePart(small), ImagePart(big), ImagePart(last), TextPart(t.placeholder);
    TwoEvictions(s, b, l, meta, BodyBytes(Triple(s, b, l, meta), w), target, w, t);
    ThreeParts(s, b, l, meta, w);
    ThreeParts(p, p, l, meta, w);
    ThreeImages(p, p, l, meta);
  }

  /** The loop on a small and a big image: the first leaves the running size as it is. */
  lemma {:induction false} TwoEvictions(
    s: Part, b: Part, l: Part, meta: UserMeta, body: nat, target: nat, w: Wire, t: Notices)
    requires s.ImagePart? && b.ImagePart? && l.ImagePart?
    requires ImageBytes(s, w) < PlaceholderBytes(w, t) < ImageBytes(b, w)
    requires body == target + (ImageBytes(b, w) - PlaceholderBytes(w, t))
    ensures var p := TextPart(t.placeholder);
            EvictLoop(Triple(s, b, l, meta), body, target, w, t).0 == Triple(p, p, l, meta)
  {
    var p := TextPart(t.placeholder);
    TripleStep(s, b, l, meta, body, target, w, t);
    assert Minus(ImageBytes(s, w), PlaceholderBytes(w, t)) == 0;
    TripleStep(p, b, l, meta, body, target, w, t);
    LoopEnd(Triple(p, p, l, meta), target, target, w, t);
  }

  lemma {:induction false} TripleStep(
    a: Part, b: Part, c: Part, meta: UserMeta, running: nat, target: nat, w: Wire, t: Notices)
    requires b.ImagePart? && running > target
    ensures var p := TextPart(t.placeholder);
            var bytes := ImageBytes(if a.ImagePart? then a else b, w);
            var next := if a.ImagePart? then Triple(p, b, c, meta) else Triple(a, p, c, meta);
            EvictLoop(Triple(a, b, c, meta), running, target, w, t).0 ==
            EvictLoop(next, Minus(running, Minus(bytes, PlaceholderBytes(w, t))), target, w, t).0
  {
    FirstOfThree(a, b, c, meta, t);
    NoHolder(Triple(a, b, c, meta));
  }

  lemma {:induction false} ThreeParts(a: Part, b: Part, c: Part, meta: UserMeta, w: Wire)
    ensures BodyBytes(Triple(a, b, c, meta), w) ==
            2 + UserFrame(w.f) + Utf8Len(w.userTail(meta)) + 2
            + PartSize(a, w.f, EncodedUrlBytes) + PartSize(b, w.f, EncodedUrlBytes) + PartSize(c, w.f, EncodedUrlBytes)
  {
    var f, m := w.f, EncodedUrlBytes;
    assert [a, b, c][1..] == [b, c] && [b, c][1..] == [c] && [c][1..] == [];
    assert PartsSize([c], f, m) == PartSize(c, f, m);
    assert PartsSize([b, c], f, m) == PartSize(b, f, m) + 1 + PartSize(c, f, m);
    var items := [User([a, b, c], meta)];
    assert items[1..] == [] && ItemsSize(items, w, m) == ItemSize(items[0], w, m);
  }

  lemma {:induction false} ThreeImages(a: Part, b: Part, c: Part, meta: UserMeta)
    ensures Images(Triple(a, b, c, meta)) == ImageUrls([a]) + ImageUrls([b]) + ImageUrls([c])
  {
    assert [a] + [b] + [c] == [a, b, c];
    ImageUrlsConcat([a] + [b], [c]);
    ImageUrlsConcat([a], [b]);
    ImagesCons(User([a, b, c], meta), []);
    assert [User([a, b, c], meta)] + [] == [User([a, b, c], meta)];
  }

  lemma {:induction false} FirstOfThree(a: Part, b: Part, c: Part, meta: UserMeta, t: Notices)
    requires b.ImagePart?
    ensures var p := TextPart(t.placeholder);
            EvictOne(Triple(a, b, c, meta), t) ==
            (if a.ImagePart? then Triple(p, b, c, meta) else Triple(a, p, c, meta))
    ensures HasImage([a, b, c]) && [a, b, c][FirstImage([a, b, c])] == (if a.ImagePart? then a else b)
    ensures FirstHolder(Triple(a, b, c, meta)) == Some(0)
  {
    var parts := [a, b, c];
    assert parts[1].ImagePart? && parts[1..] == [b, c];
    assert FirstImage(parts) == if a.ImagePart? then 0 else 1;
    assert parts[0 := TextPart(t.placeholder)] == [TextPart(t.placeholder), b, c];
    assert parts[1 := TextPart(t.placeholder)] == [a, TextPart(t.placeholder), c];
  }

  // ---------- the procedure ----------

  /** Where an image was found. A tool result is only named: its image array shifts. */
  datatype ImageLocation = InUser(item: nat, part: nat) | InToolResult(item: nat)

  function PartLocations(parts: seq<Part>, i: nat, j: nat, size: Part -> nat): seq<(ImageLocation, nat)>
    requires j <= |parts|
    decreases |parts| - j
  {
    if j == |parts| then []
    else (if parts[j].ImagePart? then [(InUser(i, j), size(parts[j]))] else []) + PartLocations(parts, i, j + 1, size)
  }

  function ToolLocations(images: seq<Part>, i: nat, size: Part -> nat): seq<(ImageLocation, nat)> {
    if images == [] then []
    else (if images[0].ImagePart? then [(InToolResult(i), size(images[0]))] else [])
         + ToolLocations(images[1..], i, size)
  }

  function ItemLocations(item: Item, i: nat, size: Part -> nat): seq<(ImageLocation, nat)> {
    match item
    case User(parts, _) => PartLocations(parts, i, 0, size)
    case ToolResult(_, _, images) => ToolLocations(images, i, size)
    case _ => []
  }

  /** The images found in the items from position `i` on. */
  function Located(items: History, i: nat, size: Part -> nat): seq<(ImageLocation, nat)>
    requires i <= |items|
    decreases |items| - i
  {
    if i == |items| then [] else ItemLocations(items[i], i, size) + Located(items, i + 1, size)
  }

  lemma {:induction false} PartLocationsStep(parts: seq<Part>, i: nat, j: nat, t: Notices, size: Part -> nat)
    requires HasImage(parts) && j <= |parts|
    ensures var k := FirstImage(parts);
            var next := parts[k := TextPart(t.placeholder)];
            PartLocations(parts, i, j, size) ==
            (if j <= k then [(InUser(i, k), size(parts[k]))] else []) + PartLocations(next, i, j, size)
    decreases |parts| - j
  {
    if j < |parts| {
      PartLocationsStep(parts, i, j + 1, t, size);
    }
  }

  lemma {:induction false} ToolLocationsConcat(a: seq<Part>, b: seq<Part>, i: nat, size: Part -> nat)
    ensures ToolLocations(a + b, i, size) == ToolLocations(a, i, size) + ToolLocations(b, i, size)
  {
    if a == [] {
      assert a + b == b;
    } else {
      assert (a + b)[1..] == a[1..] + b;
      ToolLocationsConcat(a[1..], b, i, size);
      Assoc3(ToolLocations([a[0]], i, size), ToolLocations(a[1..], i, size), ToolLocations(b, i, size));
      ToolLocationsCons(a[0], a[1..], i, size);
      ToolLocationsCons(a[0], a[1..] + b, i, size);
      assert a == [a[0]] + a[1..] && a + b == [a[0]] + (a[1..] + b);
    }
  }

  lemma {:induction false} ToolLocationsCons(p: Part, rest: seq<Part>, i: nat, size: Part -> nat)
    ensures ToolLocations([p] + rest, i, size) == ToolLocations([p], i, size) + ToolLocations(rest, i, size)
  {
    assert ([p] + rest)[1..] == rest && [p][1..] == [];
  }

  lemma {:induction false} NoToolLocations(images: seq<Part>, i: nat, size: Part -> nat)
    requires !HasImage(images)
    ensures ToolLocations(images, i, size) == []
  {
    if images != [] { NoToolLocations(images[1..], i, size); }
  }

  lemma {:induction false} ToolLocationsStep(images: seq<Part>, i: nat, size: Part -> nat)
    requires HasImage(images)
    ensures var k := FirstImage(images);
            ToolLocations(images, i, size) ==
            [(InToolResult(i), size(images[k]))] + ToolLocations(WithoutPart(images, k), i, size)
  {
    var k := FirstImage(images);
    NoToolLocations(images[..k], i, size);
    ToolLocationsAt(images, k, i, size);
    assert [images[k]][1..] == [];
  }

  lemma {:induction false} ToolLocationsAt(images: seq<Part>, k: nat, i: nat, size: Part -> nat)
    requires k < |images| && ToolLocations(images[..k], i, size) == []
    ensures ToolLocations(images, i, size) ==
            ToolLocations([images[k]], i, size) + ToolLocations(WithoutPart(images, k), i, size)
  {
    var a, b := images[..k], images[k + 1..];
    assert images == a + ([images[k]] + b);
    ToolLocationsConcat(a, [images[k]] + b, i, size);
    ToolLocationsConcat(a, b, i, size);
    ToolLocationsCons(images[k], b, i, size);
  }

  /** The location at the head of the list for `item`. */
  function HeadLocation(item: Item, i: nat, size: Part -> nat): (ImageLocation, nat)
    requires HasImage(Gallery(item))
  {
    var k := FirstImage(Gallery(item));
    (if item.User? then InUser(i, k) else InToolResult(i), size(Gallery(item)[k]))
  }

  lemma {:induction false} ItemLocationsStep(item: Item, i: nat, t: Notices, size: Part -> nat)
    requires HasImage(Gallery(item))
    ensures ItemLocations(item, i, size) ==
            [HeadLocation(item, i, size)] + ItemLocations(EvictFromItem(item, t), i, size)
  {
    if item.User? {
      PartLocationsStep(item.parts, i, 0, t, size);
    } else {
      ToolLocationsStep(item.images, i, size);
    }
  }

  lemma {:induction false} NoPartLocations(parts: seq<Part>, i: nat, j: nat, size: Part -> nat)
    requires j <= |parts| && !HasImage(parts)
    ensures PartLocations(parts, i, j, size) == []
    decreases |parts| - j
  {
    if j < |parts| { NoPartLocations(parts, i, j + 1, size); }
  }

  lemma {:induction false} NoItemLocations(item: Item, i: nat, size: Part -> nat)
    requires !HasImage(Gallery(item))
    ensures ItemLocations(item, i, size) == []
  {
    if item.User? {
      NoPartLocations(item.parts, i, 0, size);
    } else if item.ToolResult? {
      NoToolLocations(item.images, i, size);
    }
  }

  lemma {:induction false} LocatedNone(items: History, i: nat, size: Part -> nat)
    requires i <= |items| && forall j :: i <= j < |items| ==> !HasImage(Gallery(items[j]))
    ensures Located(items, i, size) == []
    decreases |items| - i
  {
    if i < |items| {
      NoItemLocations(items[i], i, size);
      LocatedNone(items, i + 1, size);
    }
  }

  lemma {:induction false} SkipEmpty(items: History, i: nat, size: Part -> nat)
    requires i < |items| && ItemLocations(items[i], i, size) == []
    ensures Located(items, i, size) == Located(items, i + 1, size)
  {}

  /** The list made before the first eviction stays right: each eviction uses up its head. */
  lemma {:induction false} LocatedStep(items: History, h: nat, i: nat, t: Notices, size: Part -> nat)
    requires i <= h < |items| && HasImage(Gallery(items[h])) && forall j :: i <= j < h ==> !HasImage(Gallery(items[j]))
    ensures Located(items, i, size) ==
            [HeadLocation(items[h], h, size)] + Located(items[h := EvictFromItem(items[h], t)], i, size)
    decreases |items| - i
  {
    var next := items[h := EvictFromItem(items[h], t)];
    if i == h {
      LocatedAt(items, h, t, size);
    } else {
      NoItemLocations(items[i], i, size);
      LocatedStep(items, h, i + 1, t, size);
      SkipEmpty(items, i, size);
      SkipEmpty(next, i, size);
    }
  }

  lemma {:induction false} LocatedAt(items: History, h: nat, t: Notices, size: Part -> nat)
    requires h < |items| && HasImage(Gallery(items[h]))
    ensures Located(items, h, size) ==
            [HeadLocation(items[h], h, size)] + Located(items[h := EvictFromItem(items[h], t)], h, size)
  {
    var x := EvictFromItem(items[h], t);
    ItemLocationsStep(items[h], h, t, size);
    LocatedBehind(items, h, x, h + 1, size);
    Assoc3([HeadLocation(items[h], h, size)], ItemLocations(x, h, size), Located(items, h + 1, size));
  }

  lemma {:induction false} LocatedBehind(items: History, h: nat, x: Item, i: nat, size: Part -> nat)
    requires h < i <= |items|
    ensures Located(items[h := x], i, size) == Located(items, i, size)
    decreases |items| - i
  {
    if i < |items| { LocatedBehind(items, h, x, i + 1, size); }
  }

  function Sizes(w: Wire): Part -> nat {
    p => PartSize(p, w.f, EncodedUrlBytes)
  }

  /** The list of images, for what the loop reads from it: its head, or that it is empty. */
  lemma {:induction false} LocatedHead(items: History, t: Notices, w: Wire)
    ensures var h := FirstHolder(items);
            if h.None? then Located(items, 0, Sizes(w)) == []
            else Located(items, 0, Sizes(w)) ==
                 [HeadLocation(items[h.value], h.value, Sizes(w))] + Located(EvictOne(items, t), 0, Sizes(w))
  {
    FirstHolderIs(items);
    match FirstHolder(items)
    case None => LocatedNone(items, 0, Sizes(w));
    case Some(h) => LocatedStep(items, h, 0, t, Sizes(w));
  }

  lemma {:induction false} LoopStep(items: History, running: nat, target: nat, w: Wire, t: Notices)
    requires FirstHolder(items).Some? && running > target
    ensures EvictLoop(items, running, target, w, t).0 ==
            EvictLoop(EvictOne(items, t), NextRunning(items, running, w, t), target, w, t).0
    ensures EvictLoop(items, running, target, w, t).1 ==
            EvictLoop(EvictOne(items, t), NextRunning(items, running, w, t), target, w, t).1 + 1
  {
    NoHolder(items);
  }

  lemma {:induction false} LoopEnd(items: History, running: nat, target: nat, w: Wire, t: Notices)
    requires running <= target || FirstHolder(items).None?
    ensures EvictLoop(items, running, target, w, t) == (items, 0)
  {
    NoHolder(items);
  }

  method FindImages(conversation: array<Item>, w: Wire) returns (images: seq<(ImageLocation, nat)>)
    ensures images == Located(conversation[..], 0, Sizes(w))
  {
    images := [];
    ghost var items, size := conversation[..], Sizes(w);
    for k := 0 to conversation.Length
      invariant images + Located(items, k, size) == Located(items, 0, size)
    {
      Assoc3(images, ItemLocations(items[k], k, size), Located(items, k + 1, size));
      images := images + ItemLocations(conversation[k], k, Sizes(w));
    }
  }

  /** Evicts the image at one location from the conversation, and its bytes from `running`. */
  method EvictAt(conversation: array<Item>, location: ImageLocation, bytes: nat, running: nat, w: Wire, t: Notices)
    returns (after: nat)
    requires var h := FirstHolder(conversation[..]);
             h.Some? && (location, bytes) == HeadLocation(conversation[h.value], h.value, Sizes(w))
    modifies conversation
    ensures conversation[..] == EvictOne(old(conversation[..]), t)
    ensures after == NextRunning(old(conversation[..]), running, w, t)
  {
    match location
    case InUser(item, part) =>
      var user := conversation[item];
      conversation[item] := User(user.parts[part := TextPart(t.placeholder)], user.meta);
      after := Minus(running, Minus(bytes, PlaceholderBytes(w, t)));
    case InToolResult(item) =>
      var result := conversation[item];
      var images := WithoutPart(result.images, FirstImage(result.images));
      after := Minus(running, bytes + if images != [] then 1 else 0);
      var content := result.content;
      if !Contains(content, t.note) {
        content := content + ("\n\n" + t.note);
        after := after + NoteBytes(t);
      }
      conversation[item] := ToolResult(result.callId, content, images);
  }

  /** `evict_images_to_budget`: lists the images once, then evicts in place along the list. */
  method EvictImagesToBudget(
    conversation: array<Item>, current: nat, target: nat, w: Wire, t: Notices) returns (evicted: nat)
    modifies conversation
    ensures conversation[..] == EvictLoop(old(conversation[..]), current, target, w, t).0
    ensures evicted == EvictLoop(old(conversation[..]), current, target, w, t).1
  {
    var images := FindImages(conversation, w);
    var running: nat := current;
    evicted := 0;
    ghost var goal := EvictLoop(conversation[..], current, target, w, t);
    while evicted < |images|
      invariant evicted <= |images| && images[evicted..] == Located(conversation[..], 0, Sizes(w))
      invariant EvictLoop(conversation[..], running, target, w, t).0 == goal.0
      invariant EvictLoop(conversation[..], running, target, w, t).1 + evicted == goal.1
    {
      LocatedHead(conversation[..], t, w);
      if running <= target {
        break;
      }
      LoopStep(conversation[..], running, target, w, t);
      var (location, bytes) := images[evicted];
      assert images[evicted..][0] == images[evicted] && images[evicted..][1..] == images[evicted + 1..];
      running := EvictAt(conversation, location, bytes, running, w, t);
      evicted := evicted + 1;
    }
    LocatedHead(conversation[..], t, w);
    LoopEnd(conversation[..], running, target, w, t);
  }

  /** `apply_image_budget_with_limits`. */
  method ApplyImageBudgetWithLimits(items: History, trigger: nat, target: nat, w: Wire, t: Notices)
    returns (out: History, outcome: Outcome)
    ensures out == Budgeted(items, trigger, target, w, t).0 && outcome == Budgeted(items, trigger, target, w, t).1
  {
    var body := ConversationBodyBytes(items, w);
    var evicted := 0;
    out := items;
    if body >= trigger && body > target {
      var conversation := new Item[|items|](i requires 0 <= i < |items| => items[i]);
      assert conversation[..] == items;
      evicted := EvictImagesToBudget(conversation, body, target, w, t);
      out := conversation[..];
    }
    var after := body;
    if evicted != 0 {
      after := ConversationBodyBytes(out, w);
    }
    LoopEvictsFirst(items, body, target, w, t);
    outcome := Outcome(body, after, |Images(items)|, body >= trigger, evicted);
  }

  lemma {:induction false} AsciiLen(s: string)
    requires forall k :: 0 <= k < |s| ==> s[k] as int < 0x80
    ensures Utf8Len(s) == |s|
  {
    if s != "" { AsciiLen(s[1..]); }
  }

  lemma {:induction false} FrameLens(f: Frames)
    requires f.imageOpen == "{\"type\":\"image\",\"url\":\"" && f.partClose == "\"}"
    ensures Utf8Len(f.imageOpen) == 23 && Utf8Len(f.partClose) == 2
  {
    AsciiLen(f.imageOpen);
    AsciiLen(f.partClose);
  }

  /** `IMAGE_PART_FRAME_BYTES`: 25 bytes frame the URL of an image. */
  lemma {:induction false} ImagePartFrame(url: string, userTail: UserMeta -> string, whole: Item -> string)
    ensures ImageBytes(ImagePart(url), SerdeWire(userTail, whole)) == 25 + EncodedUrlBytes(url)
  {
    FrameLens(SERDE_FRAMES);
  }

  /** The wire that serde_json writes to. */
  function SerdeWire(userTail: UserMeta -> string, whole: Item -> string): Wire {
    Wire(SERDE_FRAMES, userTail, whole)
  }

  /** `apply_image_budget`: the production limits settle in one application. */
  method ApplyImageBudget(items: History, userTail: UserMeta -> string, whole: Item -> string)
    returns (out: History, outcome: Outcome)
    ensures (out, outcome) == ProductionBudget(items, SerdeWire(userTail, whole))
    ensures var w := SerdeWire(userTail, whole);
            Safe(items, w, NOTICES) ==> ProductionBudget(out, w).0 == out
  {
    var w := SerdeWire(userTail, whole);
    out, outcome := ApplyImageBudgetWithLimits(
      items, IMAGE_COMPACT_TRIGGER_BYTES, IMAGE_COMPACT_RECLAIM_TARGET_BYTES, w, NOTICES);
    if Safe(items, w, NOTICES) {
      BudgetReachesTarget(
        items, IMAGE_COMPACT_TRIGGER_BYTES, IMAGE_COMPACT_RECLAIM_TARGET_BYTES, w, NOTICES);
      BudgetSettles(items, IMAGE_COMPACT_TRIGGER_BYTES, IMAGE_COMPACT_RECLAIM_TARGET_BYTES, w, NOTICES);
    }
  }

  function ProductionBudget(items: History, w: Wire): (History, Outcome) {
    Budgeted(items, IMAGE_COMPACT_TRIGGER_BYTES, IMAGE_COMPACT_RECLAIM_TARGET_BYTES, w, NOTICES)
  }
}
