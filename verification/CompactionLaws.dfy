/** Compacting a compacted history: what stays, and exactly when nothing changes. */
module CompactionLaws {
  import opened Wrappers
  import opened Text
  import opened Conversation
  import opened QueryText
  import opened Compaction

  /** What is fixed over the life of a session: the input, and how far the tail is kept. */
  datatype Session = Session(input: Input, cwdGeneration: nat, destination: Option<string>, dropTail: bool)

  function ContextOf(items: History, s: Session, human: Item -> bool): Context {
    var c := BuildContext(items, s.cwdGeneration, s.destination, human);
    if s.dropTail then ForCompaction(c, human) else c
  }

  /** One compaction: `build`, optionally `for_compaction`, then `build_compacted_history`. */
  function Compact(items: History, s: Session, human: Item -> bool): History {
    CompactedHistory(s.input, ContextOf(items, s, human))
  }

  // ---------- positions from the end ----------

  predicate NoneOf(items: History, p: Item -> bool) {
    forall x :: x in items ==> !p(x)
  }

  lemma {:induction false} LastIndexConcat(a: History, b: History, p: Item -> bool)
    ensures LastIndex(a + b, p) ==
            if LastIndex(b, p).Some? then Some(|a| + LastIndex(b, p).value) else LastIndex(a, p)
  {
    if b == [] {
      assert a + b == a;
    } else {
      var n := |b| - 1;
      assert (a + b)[..|a| + n] == a + b[..n];
      LastIndexConcat(a, b[..n], p);
    }
  }

  lemma {:induction false} LastIndexSingle(x: Item, p: Item -> bool)
    ensures LastIndex([x], p) == if p(x) then Some(0) else None
  {
    assert [x][..0] == [];
  }

  lemma {:induction false} CarriedConcat(a: History, b: History)
    ensures CarriedAll(a + b) == CarriedAll(a) + CarriedAll(b)
  {
    if a == [] {
      assert a + b == b;
    } else {
      assert (a + b)[1..] == a[1..] + b;
      CarriedConcat(a[1..], b);
    }
  }

  /** Nothing a compaction looks for: neither turns, nor agent messages, nor working items. */
  predicate Quiet(items: History, human: Item -> bool) {
    forall x :: x in items ==> !human(x) && Carried(x) == []
  }

  lemma {:induction false} QuietIsNone(items: History, human: Item -> bool)
    requires Quiet(items, human)
    ensures NoneOf(items, human) && NoneOf(items, IsAgentMessage) && NoneOf(items, Boundary(human))
  {}

  lemma {:induction false} QuietNotCarried(items: History, human: Item -> bool)
    requires Quiet(items, human)
    ensures CarriedAll(items) == []
  {
    if items != [] { QuietNotCarried(items[1..], human); }
  }

  lemma {:induction false} LastIndexNone(items: History, p: Item -> bool)
    requires NoneOf(items, p)
    ensures LastIndex(items, p) == None
  {}

  lemma {:induction false} MarginIndex(before: History, m: History, after: History, p: Item -> bool)
    requires NoneOf(before, p) && NoneOf(after, p)
    ensures LastIndex(before + m + after, p) ==
            if LastIndex(m, p).Some? then Some(|before| + LastIndex(m, p).value) else None
  {
    LastIndexNone(before, p);
    LastIndexNone(after, p);
    LastIndexConcat(before + m, after, p);
    LastIndexConcat(before, m, p);
  }

  lemma {:induction false} MarginAt(before: History, m: History, after: History, k: nat)
    requires k < |m|
    ensures (before + m + after)[|before| + k] == m[k]
  {}

  /** Quiet margins change nothing that a compaction reads. */
  lemma {:induction false} QuietMargins(before: History, m: History, after: History, human: Item -> bool)
    requires Quiet(before, human) && Quiet(after, human)
    ensures LatestAgentMessage(before + m + after, human) == LatestAgentMessage(m, human)
    ensures LastTurn(before + m + after, human) == LastTurn(m, human)
  {
    QuietIsNone(before, human);
    QuietIsNone(after, human);
    MarginIndex(before, m, after, human);
    MarginIndex(before, m, after, IsAgentMessage);
    if LastIndex(m, human).Some? {
      MarginAt(before, m, after, LastIndex(m, human).value);
    }
    if LastIndex(m, IsAgentMessage).Some? {
      MarginAt(before, m, after, LastIndex(m, IsAgentMessage).value);
    }
  }

  lemma {:induction false} StartInMargins(before: History, m: History, after: History, human: Item -> bool)
    requires Quiet(before, human) && Quiet(after, human)
    ensures RecentStart(before + m + after, human) ==
            if LastIndex(m, Boundary(human)).Some? then |before| + RecentStart(m, human) else 0
  {
    QuietIsNone(before, human);
    QuietIsNone(after, human);
    MarginIndex(before, m, after, Boundary(human));
    if LastIndex(m, Boundary(human)).Some? {
      MarginAt(before, m, after, LastIndex(m, Boundary(human)).value);
    }
  }

  lemma {:induction false} CarriedInMargins(before: History, m: History, after: History, human: Item -> bool, k: nat)
    requires Quiet(before, human) && Quiet(after, human) && k <= |m|
    ensures CarriedAll((before + m + after)[|before| + k..]) == CarriedAll(m[k..])
    ensures CarriedAll(before + m + after) == CarriedAll(m)
  {
    CarriedBefore(m[k..], after, human);
    CarriedBefore(before + m, after, human);
    QuietNotCarried(before, human);
    CarriedConcat(before, m);
    SuffixInMargins(before, m, after, k);
  }

  lemma {:induction false} CarriedBefore(m: History, after: History, human: Item -> bool)
    requires Quiet(after, human)
    ensures CarriedAll(m + after) == CarriedAll(m)
  {
    QuietNotCarried(after, human);
    CarriedConcat(m, after);
  }

  lemma {:induction false} SuffixInMargins(before: History, m: History, after: History, k: nat)
    requires k <= |m|
    ensures (before + m + after)[|before| + k..] == m[k..] + after
  {}

  lemma {:induction false} QuietMarginsTail(before: History, m: History, after: History, human: Item -> bool)
    requires Quiet(before, human) && Quiet(after, human)
    ensures RecentMessages(before + m + after, human) == RecentMessages(m, human)
  {
    StartInMargins(before, m, after, human);
    CarriedInMargins(before, m, after, human, RecentStart(m, human));
    WholeSuffix(before + m + after);
    WholeSuffix(m);
  }

  lemma {:induction false} WholeSuffix(items: History)
    ensures items[0..] == items
  {}

  // ---------- the contexts that a compaction can produce ----------

  /** The retained tail: no human turn, an agent message only in front, nothing left to omit. */
  predicate TailShaped(recent: History, human: Item -> bool) {
    && NoneOf(recent, human)
    && (recent != [] ==> NoneOf(recent[1..], IsAgentMessage))
    && CarriedAll(recent) == recent
  }

  /** How the anchor lies to the retained tail. */
  predicate AnchorFits(anchor: Option<Anchor>, recent: History, dropTail: bool) {
    && (dropTail ==> recent == [])
    && match anchor
       case None => NoneOf(recent, IsAgentMessage)
       case Some(a) =>
         && IsAgentMessage(a.item)
         && (a.position.BeforeHuman? ==> NoneOf(recent, IsAgentMessage))
         && (!a.position.BeforeHuman? && !dropTail ==> recent != [] && recent[0] == a.item)
  }

  predicate Shaped(c: Context, dropTail: bool, human: Item -> bool) {
    && TailShaped(c.recent, human) && AnchorFits(c.anchor, c.recent, dropTail)
    && (c.anchor.Some? ==> (c.anchor.value.position.Only? <==> c.lastQuery.None?))
  }

  lemma {:induction false} CarriedPlain(items: History, human: Item -> bool)
    requires IsClassifier(human)
    ensures NoneOf(CarriedAll(items), human) && CarriedAll(CarriedAll(items)) == CarriedAll(items)
    ensures NoneOf(items, IsAgentMessage) ==> NoneOf(CarriedAll(items), IsAgentMessage)
  {
    if items != [] {
      CarriedPlain(items[1..], human);
      CarriedConcat(Carried(items[0]), CarriedAll(items[1..]));
      assert Carried(items[0]) == [] || Carried(items[0]) == [Carried(items[0])[0]];
      assert CarriedAll(Carried(items[0])) == Carried(items[0]);
    }
  }

  lemma {:induction false} RecentShaped(items: History, human: Item -> bool)
    requires IsClassifier(human)
    ensures TailShaped(RecentMessages(items, human), human)
  {
    var rest := items[RecentStart(items, human)..];
    CarriedPlain(rest, human);
    LastIndexIs(items, Boundary(human));
    if rest != [] {
      CarriedPlain(rest[1..], human);
      assert forall k :: 1 <= k < |rest| ==> !Boundary(human)(rest[k]);
      assert NoneOf(rest[1..], IsAgentMessage);
    }
  }

  lemma {:induction false} ContextShaped(items: History, s: Session, human: Item -> bool)
    requires IsClassifier(human)
    ensures Shaped(ContextOf(items, s, human), s.dropTail, human)
  {
    var c := BuildContext(items, s.cwdGeneration, s.destination, human);
    RecentShaped(items, human);
    AnchorIsShaped(items, human);
    if s.dropTail {
      DroppedTailShaped(c, human);
    }
  }

  lemma {:induction false} AnchorIsShaped(items: History, human: Item -> bool)
    requires IsClassifier(human)
    ensures var anchor := LatestAgentMessage(items, human);
            AnchorFits(anchor, RecentMessages(items, human), false)
            && (anchor.Some? ==> (anchor.value.position.Only? <==> LastQuery(items, human).None?))
  {
    RecentAnchored(items, human);
    QueryPresent(items, human);
  }

  lemma {:induction false} DroppedTailShaped(c: Context, human: Item -> bool)
    requires Shaped(c, false, human)
    ensures Shaped(ForCompaction(c, human), true, human)
  {
    if c.anchor.None? {
      LastIndexNone(c.recent, IsAgentMessage);
    }
  }

  lemma {:induction false} QueryPresent(items: History, human: Item -> bool)
    requires IsClassifier(human)
    ensures LastQuery(items, human).Some? <==> LastIndex(items, human).Some?
  {}

  /** How the last agent message, the last human turn and the retained tail lie to each other. */
  lemma {:induction false} RecentAnchored(items: History, human: Item -> bool)
    requires IsClassifier(human)
    ensures var a, recent := LatestAgentMessage(items, human), RecentMessages(items, human);
            match a
            case None => NoneOf(recent, IsAgentMessage)
            case Some(a) =>
              if a.position.BeforeHuman? then NoneOf(recent, IsAgentMessage) else recent != [] && recent[0] == a.item
  {
    var i := RecentStart(items, human);
    CarriedPlain(items[i..], human);
    var b, g, h := LastIndex(items, Boundary(human)), LastIndex(items, IsAgentMessage), LastIndex(items, human);
    LastIndexIs(items, Boundary(human));
    LastIndexIs(items, IsAgentMessage);
    LastIndexIs(items, human);
    if b.Some? {
      assert Boundary(human)(items[b.value]);
    }
    assert g.Some? ==> Boundary(human)(items[g.value]);
    assert h.Some? ==> Boundary(human)(items[h.value]);
  }

  // ---------- reading a compacted history back ----------

  /** The query item of a context is read back, as the same human turn, to the same query. */
  ghost predicate QueryHolds(q: Option<string>, human: Item -> bool) {
    q.Some? ==> human(UserText(WrapUserQuery(q.value), None)) && ExtractUserQuery(WrapUserQuery(q.value)) == q.value
  }

  lemma {:induction false} SingleTurn(x: Item, human: Item -> bool)
    requires x.User? && x.meta.reason.None?
    ensures NoneOf([x], IsAgentMessage) && CarriedAll([x]) == []
    ensures LastIndex([x], human) == LastIndex([x], Boundary(human)) == if human(x) then Some(0) else None
    ensures LastTurn([x], human) == if human(x) then Some(x.parts) else None
  {
    LastIndexSingle(x, human);
    LastIndexSingle(x, Boundary(human));
  }

  lemma {:induction false} SinglePart(t: string)
    ensures UserContent([TextPart(t)]) == t
  {
    assert [TextPart(t)][1..] == [] && TextParts([]) == [];
    assert [t] + [] == [t];
  }

  lemma {:induction false} QueryReadBack(q: Option<string>, human: Item -> bool)
    ensures NoneOf(QueryItems(q), IsAgentMessage) && CarriedAll(QueryItems(q)) == []
    ensures LastIndex(QueryItems(q), human) == LastIndex(QueryItems(q), Boundary(human))
    ensures QueryHolds(q, human) ==> LastIndex(QueryItems(q), human) == if q.Some? then Some(0) else None
    ensures LastQuery(QueryItems(q), human) == q <==> QueryHolds(q, human)
  {
    if q.Some? {
      var w := WrapUserQuery(q.value);
      SingleTurn(UserText(w, None), human);
      SinglePart(w);
    }
  }

  lemma {:induction false} TurnInMargins(before: History, q: History, after: History, human: Item -> bool)
    requires NoneOf(before, human) && NoneOf(after, human)
    ensures LastIndex(before + q + after, human) ==
            if LastIndex(q, human).Some? then Some(|before| + LastIndex(q, human).value) else None
    ensures LastTurn(before + q + after, human) == LastTurn(q, human)
  {
    MarginIndex(before, q, after, human);
    if LastIndex(q, human).Some? {
      MarginAt(before, q, after, LastIndex(q, human).value);
    }
  }

  /** No agent message at all. */
  lemma {:induction false} ReadBackNoAnchor(q: History, recent: History, human: Item -> bool)
    requires NoneOf(q + recent, IsAgentMessage) && TailShaped(recent, human) && CarriedAll(q) == []
    requires LastIndex(q, Boundary(human)) == if |q| == 1 then Some(0) else None
    requires |q| <= 1
    ensures LastIndex(q + recent, IsAgentMessage) == None
    ensures RecentMessages(q + recent, human) == recent
  {
    var m := q + recent;
    LastIndexNone(m, IsAgentMessage);
    LastIndexNone(recent, Boundary(human));
    LastIndexConcat(q, recent, Boundary(human));
    assert m[|q|..] == recent;
    if |q| == 0 { assert m[0..] == recent; }
  }

  /** An agent message behind the query, with what was carried after it. */
  lemma {:induction false} ReadBackAfter(q: History, recent: History, human: Item -> bool)
    requires TailShaped(recent, human) && recent != [] && IsAgentMessage(recent[0])
    ensures LastIndex(q + recent, IsAgentMessage) == Some(|q|) && (q + recent)[|q|] == recent[0]
    ensures RecentMessages(q + recent, human) == recent
  {
    FirstIsLast(recent, IsAgentMessage);
    FirstIsLast(recent, Boundary(human));
    LastIndexConcat(q, recent, IsAgentMessage);
    LastIndexConcat(q, recent, Boundary(human));
    assert (q + recent)[|q|..] == recent;
  }

  lemma {:induction false} FirstIsLast(items: History, p: Item -> bool)
    requires items != [] && p(items[0]) && NoneOf(items[1..], p)
    ensures LastIndex(items, p) == Some(0)
  {
    LastIndexSingle(items[0], p);
    LastIndexNone(items[1..], p);
    LastIndexConcat([items[0]], items[1..], p);
    assert items == [items[0]] + items[1..];
  }

  /** An agent message in front of the query. */
  lemma {:induction false} ReadBackBefore(a: Item, x: Item, recent: History, human: Item -> bool)
    requires IsAgentMessage(a) && human(x) && !IsAgentMessage(x)
    requires NoneOf(recent, Boundary(human)) && CarriedAll(recent) == recent
    ensures LastIndex([a] + [x] + recent, IsAgentMessage) == Some(0)
    ensures RecentMessages([a] + [x] + recent, human) == recent
  {
    var m := [a] + [x] + recent;
    assert m[2..] == recent;
    LastIndexSingle(a, IsAgentMessage);
    LastIndexSingle(x, IsAgentMessage);
    LastIndexSingle(x, Boundary(human));
    LastIndexNone(recent, Boundary(human));
    LastIndexNone(recent, IsAgentMessage);
    LastIndexConcat([a] + [x], recent, IsAgentMessage);
    LastIndexConcat([a], [x], IsAgentMessage);
    LastIndexConcat([a] + [x], recent, Boundary(human));
    LastIndexConcat([a], [x], Boundary(human));
  }

  /** A query part: nothing, or one human turn. */
  predicate IsQueryPart(q: History, human: Item -> bool) {
    |q| <= 1 && (|q| == 1 ==> human(q[0]) && q[0].User? && q[0].meta.reason.None?)
  }

  predicate ArrangedFrom(anchor: Option<Anchor>, q: History, recent: History, dropTail: bool) {
    AnchorFits(anchor, recent, dropTail) && (anchor.Some? ==> (anchor.value.position.Only? <==> q == []))
  }

  lemma {:induction false} QueryPartIndex(q: History, human: Item -> bool)
    requires IsQueryPart(q, human)
    ensures NoneOf(q, IsAgentMessage) && CarriedAll(q) == []
    ensures LastIndex(q, human) == LastIndex(q, Boundary(human)) == if |q| == 1 then Some(0) else None
  {
    if |q| == 1 {
      assert q == [q[0]];
      SingleTurn(q[0], human);
    }
  }

  lemma {:induction false} Assoc(a: History, b: History, c: History, d: History)
    ensures a + b + c + d == a + b + (c + d)
    ensures [] + b + [] + d == b + d && a + b + [] + d == a + b + d && [] + b + c + [] == b + c
  {}

  lemma {:induction false} ArrangedIs(anchor: Option<Anchor>, q: History, recent: History, dropTail: bool)
    requires ArrangedFrom(anchor, q, recent, dropTail)
    ensures Arranged(anchor, q, recent) ==
            if anchor.Some? && anchor.value.position.BeforeHuman? then [anchor.value.item] + q + recent
            else if anchor.Some? && dropTail then q + [anchor.value.item]
            else q + recent
  {
    var a := EmittedAnchor(anchor, recent);
    Assoc(AnchorBefore(a), q, AnchorAfter(a), recent);
  }

  lemma {:induction false} ArrangedTurn(anchor: Option<Anchor>, q: History, recent: History, human: Item -> bool)
    requires IsClassifier(human) && NoneOf(recent, human)
    requires anchor.Some? ==> IsAgentMessage(anchor.value.item)
    ensures var k := |AnchorBefore(EmittedAnchor(anchor, recent))|;
            LastIndex(Arranged(anchor, q, recent), human) ==
            if LastIndex(q, human).Some? then Some(k + LastIndex(q, human).value) else None
    ensures LastTurn(Arranged(anchor, q, recent), human) == LastTurn(q, human)
  {
    var a := EmittedAnchor(anchor, recent);
    TurnsAroundQuery(a, recent, human);
    Assoc3(AnchorBefore(a) + q, AnchorAfter(a), recent);
    TurnInMargins(AnchorBefore(a), q, AnchorAfter(a) + recent, human);
  }

  /** No human turn stands before or behind the query. */
  lemma {:induction false} TurnsAroundQuery(anchor: Option<Anchor>, recent: History, human: Item -> bool)
    requires IsClassifier(human) && NoneOf(recent, human)
    requires anchor.Some? ==> IsAgentMessage(anchor.value.item)
    ensures NoneOf(AnchorBefore(anchor), human) && NoneOf(AnchorAfter(anchor) + recent, human)
  {}

  lemma {:induction false} ReadBackCaseNone(
    anchor: Option<Anchor>, q: History, recent: History, dropTail: bool, human: Item -> bool)
    requires IsClassifier(human) && IsQueryPart(q, human) && TailShaped(recent, human)
    requires ArrangedFrom(anchor, q, recent, dropTail)
    requires anchor.None?
    ensures LatestAgentMessage(Arranged(anchor, q, recent), human) == anchor
    ensures !dropTail ==> RecentMessages(Arranged(anchor, q, recent), human) == recent
  {
    ArrangedIs(anchor, q, recent, dropTail);
    QueryPartIndex(q, human);
    ReadBackNoAnchor(q, recent, human);
  }

  lemma {:induction false} ReadBackCaseBefore(
    anchor: Option<Anchor>, q: History, recent: History, dropTail: bool, human: Item -> bool)
    requires IsClassifier(human) && IsQueryPart(q, human) && TailShaped(recent, human)
    requires ArrangedFrom(anchor, q, recent, dropTail)
    requires anchor.Some? && anchor.value.position.BeforeHuman?
    ensures LatestAgentMessage(Arranged(anchor, q, recent), human) == anchor
    ensures !dropTail ==> RecentMessages(Arranged(anchor, q, recent), human) == recent
  {
    ArrangedIs(anchor, q, recent, dropTail);
    ArrangedTurn(anchor, q, recent, human);
    QueryPartIndex(q, human);
    assert q == [q[0]];
    ReadBackBefore(anchor.value.item, q[0], recent, human);
  }

  lemma {:induction false} CarriedSingle(a: Item)
    requires IsAgentMessage(a)
    ensures CarriedAll([a]) == [a]
  {
    assert [a][1..] == [] && [a] + [] == [a];
  }

  lemma {:induction false} ReadBackCaseAfter(
    anchor: Option<Anchor>, q: History, recent: History, dropTail: bool, human: Item -> bool)
    requires IsClassifier(human) && IsQueryPart(q, human) && TailShaped(recent, human)
    requires ArrangedFrom(anchor, q, recent, dropTail)
    requires anchor.Some? && !anchor.value.position.BeforeHuman?
    ensures LatestAgentMessage(Arranged(anchor, q, recent), human) == anchor
    ensures !dropTail ==> RecentMessages(Arranged(anchor, q, recent), human) == recent
  {
    var tail := if dropTail then [anchor.value.item] else recent;
    if dropTail { CarriedSingle(anchor.value.item); }
    ArrangedIs(anchor, q, recent, dropTail);
    ReadBackAfterQuery(anchor.value, q, tail, human);
  }

  lemma {:induction false} ReadBackAfterQuery(a: Anchor, q: History, tail: History, human: Item -> bool)
    requires IsClassifier(human) && IsQueryPart(q, human) && TailShaped(tail, human)
    requires tail != [] && tail[0] == a.item && IsAgentMessage(a.item)
    requires !a.position.BeforeHuman? && (a.position.Only? <==> q == [])
    ensures LatestAgentMessage(q + tail, human) == Some(a)
    ensures RecentMessages(q + tail, human) == tail
  {
    QueryPartIndex(q, human);
    LastIndexNone(tail, human);
    LastIndexConcat(q, tail, human);
    ReadBackAfter(q, tail, human);
  }

  /** What a compaction reads from its own product is what it was made of. */
  lemma {:induction false} ArrangedReadBack(
    anchor: Option<Anchor>, q: History, recent: History, dropTail: bool, human: Item -> bool)
    requires IsClassifier(human) && IsQueryPart(q, human) && TailShaped(recent, human)
    requires ArrangedFrom(anchor, q, recent, dropTail)
    ensures LatestAgentMessage(Arranged(anchor, q, recent), human) == anchor
    ensures !dropTail ==> RecentMessages(Arranged(anchor, q, recent), human) == recent
  {
    if anchor.None? {
      ReadBackCaseNone(anchor, q, recent, dropTail, human);
    } else if anchor.value.position.BeforeHuman? {
      ReadBackCaseBefore(anchor, q, recent, dropTail, human);
    } else {
      ReadBackCaseAfter(anchor, q, recent, dropTail, human);
    }
  }

  // ---------- the fixed point ----------

  function Select(items: History, p: Item -> bool): History {
    if items == [] then [] else (if p(items[0]) then [items[0]] else []) + Select(items[1..], p)
  }

  predicate IsPlainUser(item: Item) {
    item.User? && item.meta.reason.None?
  }

  lemma {:induction false} SelectConcat(a: History, b: History, p: Item -> bool)
    ensures Select(a + b, p) == Select(a, p) + Select(b, p)
  {
    if a == [] {
      assert a + b == b;
    } else {
      assert (a + b)[1..] == a[1..] + b;
      SelectConcat(a[1..], b, p);
      Assoc3(if p(a[0]) then [a[0]] else [], Select(a[1..], p), Select(b, p));
    }
  }

  lemma {:induction false} SelectNone(items: History, p: Item -> bool)
    requires NoneOf(items, p)
    ensures Select(items, p) == []
  {
    if items != [] {
      SelectNone(items[1..], p);
    }
  }

  lemma {:induction false} SelectInMargins(before: History, m: History, after: History, p: Item -> bool)
    requires NoneOf(before, p) && NoneOf(after, p)
    ensures Select(before + m + after, p) == Select(m, p)
  {
    SelectNone(before, p);
    SelectNone(after, p);
    SelectConcat(before + m, after, p);
    SelectConcat(before, m, p);
  }

  lemma {:induction false} HeadAndTailQuiet(input: Input, c: Context, human: Item -> bool)
    requires IsClassifier(human)
    ensures Quiet(Head(input, c), human) && Quiet(Tail(input), human)
    ensures NoneOf(Head(input, c), IsPlainUser) && NoneOf(Tail(input), IsPlainUser)
  {}

  lemma {:induction false} CarriedNoPlainUser(items: History)
    ensures NoneOf(CarriedAll(items), IsPlainUser)
  {
    if items != [] {
      CarriedNoPlainUser(items[1..]);
    }
  }

  /** The one plain user item of a compacted history is its query. */
  lemma {:induction false} PlainUsersAreQuery(input: Input, c: Context, dropTail: bool, human: Item -> bool)
    requires IsClassifier(human) && Shaped(c, dropTail, human)
    ensures Select(CompactedHistory(input, c), IsPlainUser) == QueryItems(c.lastQuery)
  {
    var q, a := QueryItems(c.lastQuery), EmittedAnchor(c.anchor, c.recent);
    HeadAndTailQuiet(input, c, human);
    SelectInMargins(Head(input, c), Arranged(c.anchor, q, c.recent), Tail(input), IsPlainUser);
    CarriedNoPlainUser(c.recent);
    Assoc(AnchorBefore(a), q, AnchorAfter(a), c.recent);
    SelectInMargins(AnchorBefore(a), q, AnchorAfter(a) + c.recent, IsPlainUser);
    PlainQuery(c.lastQuery);
  }

  lemma {:induction false} PlainQuery(q: Option<string>)
    ensures Select(QueryItems(q), IsPlainUser) == QueryItems(q)
  {
    if q.Some? {
      assert QueryItems(q)[1..] == [];
    }
  }

  function AnchorItem(anchor: Option<Anchor>): History {
    match anchor case None => [] case Some(a) => [a.item]
  }

  /** The agent messages of a compacted history: the latest one, once. */
  lemma {:induction false} AgentMessageOnce(items: History, s: Session, human: Item -> bool)
    requires IsClassifier(human)
    ensures Select(Compact(items, s, human), IsAgentMessage) ==
            AnchorItem(LatestAgentMessage(items, human))
  {
    var c := ContextOf(items, s, human);
    ContextShaped(items, s, human);
    AnchorIsLatest(items, s, human);
    AgentMessagesCompacted(s.input, c, s.dropTail, human);
  }

  lemma {:induction false} AgentMessagesCompacted(input: Input, c: Context, dropTail: bool, human: Item -> bool)
    requires IsClassifier(human) && TailShaped(c.recent, human) && AnchorFits(c.anchor, c.recent, dropTail)
    ensures Select(CompactedHistory(input, c), IsAgentMessage) == AnchorItem(c.anchor)
  {
    var q := QueryItems(c.lastQuery);
    HeadAndTailQuiet(input, c, human);
    SelectInMargins(Head(input, c), Arranged(c.anchor, q, c.recent), Tail(input), IsAgentMessage);
    assert NoneOf(q, IsAgentMessage);
    AgentMessagesArranged(c.anchor, q, c.recent, dropTail, human);
  }

  lemma {:induction false} AnchorIsLatest(items: History, s: Session, human: Item -> bool)
    requires IsClassifier(human)
    ensures ContextOf(items, s, human).anchor == LatestAgentMessage(items, human)
  {
    if LatestAgentMessage(items, human).None? {
      RecentAnchored(items, human);
      LastIndexNone(RecentMessages(items, human), IsAgentMessage);
    }
  }

  lemma {:induction false} AgentMessagesArranged(
    anchor: Option<Anchor>, q: History, recent: History, dropTail: bool, human: Item -> bool)
    requires NoneOf(q, IsAgentMessage) && TailShaped(recent, human) && AnchorFits(anchor, recent, dropTail)
    ensures Select(Arranged(anchor, q, recent), IsAgentMessage) ==
            AnchorItem(anchor)
  {
    var a := EmittedAnchor(anchor, recent);
    var before, after := AnchorBefore(a), AnchorAfter(a);
    SelectConcat(before + q + after, recent, IsAgentMessage);
    SelectConcat(before + q, after, IsAgentMessage);
    SelectConcat(before, q, IsAgentMessage);
    SelectNone(q, IsAgentMessage);
    if anchor.Some? {
      SelectSingle(anchor.value.item);
    }
    if recent != [] {
      SelectNone(recent[1..], IsAgentMessage);
    }
  }

  lemma {:induction false} SelectSingle(x: Item)
    requires IsAgentMessage(x)
    ensures Select([x], IsAgentMessage) == [x]
  {
    assert [x][1..] == [];
  }

  lemma {:induction false} LastQueryOfCompacted(items: History, s: Session, human: Item -> bool)
    requires IsClassifier(human)
    ensures var q := LastQuery(items, human);
            LastQuery(Compact(items, s, human), human) == q <==> QueryHolds(q, human)
  {
    var c := ContextOf(items, s, human);
    var q := QueryItems(c.lastQuery);
    ContextShaped(items, s, human);
    HeadAndTailQuiet(s.input, c, human);
    QuietMargins(Head(s.input, c), Arranged(c.anchor, q, c.recent), Tail(s.input), human);
    ArrangedTurn(c.anchor, q, c.recent, human);
    SameTurnSameQuery(Compact(items, s, human), q, human);
    QueryReadBack(c.lastQuery, human);
  }

  lemma {:induction false} SameTurnSameQuery(a: History, b: History, human: Item -> bool)
    requires LastTurn(a, human) == LastTurn(b, human)
    ensures LastQuery(a, human) == LastQuery(b, human)
  {}

  /** Reading a compacted history back gives the context it was built from. */
  lemma {:induction false} ContextReadBack(items: History, s: Session, human: Item -> bool)
    requires IsClassifier(human) && QueryHolds(LastQuery(items, human), human)
    ensures ContextOf(Compact(items, s, human), s, human) == ContextOf(items, s, human)
  {
    var c := ContextOf(items, s, human);
    var q := QueryItems(c.lastQuery);
    ContextShaped(items, s, human);
    HeadAndTailQuiet(s.input, c, human);
    QuietMargins(Head(s.input, c), Arranged(c.anchor, q, c.recent), Tail(s.input), human);
    QuietMarginsTail(Head(s.input, c), Arranged(c.anchor, q, c.recent), Tail(s.input), human);
    ArrangedReadBack(c.anchor, q, c.recent, s.dropTail, human);
    LastQueryOfCompacted(items, s, human);
    AnchorIsLatest(Compact(items, s, human), s, human);
  }

  /** If compacting again changes nothing, both histories hold the same query. */
  lemma {:induction false} SameHistorySameQuery(items: History, s: Session, human: Item -> bool)
    requires IsClassifier(human)
    requires Compact(Compact(items, s, human), s, human) == Compact(items, s, human)
    ensures LastQuery(Compact(items, s, human), human) == LastQuery(items, human)
  {
    var once := Compact(items, s, human);
    ContextShaped(items, s, human);
    ContextShaped(once, s, human);
    PlainUsersAreQuery(s.input, ContextOf(items, s, human), s.dropTail, human);
    PlainUsersAreQuery(s.input, ContextOf(once, s, human), s.dropTail, human);
    QueryItemsInjective(LastQuery(items, human), LastQuery(once, human));
  }

  /** Compacting again changes nothing exactly when the query is read back from its wrapping. */
  lemma {:induction false} CompactTwice(items: History, s: Session, human: Item -> bool)
    requires IsClassifier(human)
    ensures Compact(Compact(items, s, human), s, human) == Compact(items, s, human)
       <==> QueryHolds(LastQuery(items, human), human)
  {
    if QueryHolds(LastQuery(items, human), human) {
      ContextReadBack(items, s, human);
    } else if Compact(Compact(items, s, human), s, human) == Compact(items, s, human) {
      SameHistorySameQuery(items, s, human);
      LastQueryOfCompacted(items, s, human);
    }
  }

  lemma {:induction false} QueryItemsInjective(a: Option<string>, b: Option<string>)
    requires QueryItems(a) == QueryItems(b)
    ensures a == b
  {
    if a.Some? && b.Some? {
      assert QueryItems(a)[0].parts[0].text == QueryItems(b)[0].parts[0].text;
      FrameInjective(BEFORE_QUERY, a.value, b.value, AFTER_QUERY);
    }
  }

  lemma {:induction false} FrameInjective(before: string, x: string, y: string, after: string)
    requires before + x + after == before + y + after
    ensures x == y
  {
    assert |x| == |y|;
    assert x == (before + x + after)[|before|..|before| + |x|];
    assert y == (before + y + after)[|before|..|before| + |y|];
  }

  // ---------- the source's own classification ----------

  /** When a query is carried over by a compaction: a guard that reads the query alone. */
  predicate QueryCarriesOver(q: Option<string>) {
    match q
    case None => true
    case Some(t) => !IsSyntheticQuery(t) && StripSystemTags(t) == t && !Contains(t, QUERY_END)
  }

  lemma {:induction false} RealTurnsClassify()
    ensures IsClassifier(IsRealUserTurn)
  {}

  lemma {:induction false} WrappedTurnIsReal(t: string)
    requires ExtractUserQuery(WrapUserQuery(t)) == t
    ensures IsRealUserTurn(UserText(WrapUserQuery(t), None)) <==> !IsSyntheticQuery(t)
  {
    SinglePart(WrapUserQuery(t));
  }

  lemma {:induction false} CarriesOverExactly(q: Option<string>)
    ensures QueryHolds(q, IsRealUserTurn) <==> QueryCarriesOver(q)
  {
    if q.Some? {
      QuerySurvivesWrapping(q.value);
      if ExtractUserQuery(WrapUserQuery(q.value)) == q.value {
        WrappedTurnIsReal(q.value);
      }
    }
  }

  /** Compaction has reached a fixed point after one application exactly when the last human
  query is none, or is not one of the synthetic texts, holds no removable metadata block and
  no outer white space, and is free of `</user_query>`. */
  lemma {:induction false} CompactionFixedPoint(items: History, s: Session)
    ensures Compact(Compact(items, s, IsRealUserTurn), s, IsRealUserTurn) == Compact(items, s, IsRealUserTurn)
       <==> QueryCarriesOver(LastQuery(items, IsRealUserTurn))
  {
    RealTurnsClassify();
    CompactTwice(items, s, IsRealUserTurn);
    CarriesOverExactly(LastQuery(items, IsRealUserTurn));
  }

  /** One compaction after another, each with its own summary and settings. */
  function CompactAll(items: History, sessions: seq<Session>, human: Item -> bool): History {
    if sessions == [] then items
    else Compact(CompactAll(items, sessions[..|sessions| - 1], human), sessions[|sessions| - 1], human)
  }

  /** What a reader finds in a history: the latest agent message with its side, and the query. */
  function Found(items: History, human: Item -> bool): (Option<Anchor>, Option<string>) {
    (LatestAgentMessage(items, human), LastQuery(items, human))
  }

  lemma {:induction false} OneMoreCompaction(items: History, s: Session, human: Item -> bool)
    requires IsClassifier(human) && QueryHolds(LastQuery(items, human), human)
    ensures Found(Compact(items, s, human), human) == Found(items, human)
  {
    ContextReadBack(items, s, human);
    AnchorIsLatest(items, s, human);
    AnchorIsLatest(Compact(items, s, human), s, human);
    LastQueryOfCompacted(items, s, human);
  }

  lemma {:induction false} FoundAfter(items: History, sessions: seq<Session>, human: Item -> bool)
    requires IsClassifier(human) && QueryHolds(LastQuery(items, human), human)
    ensures Found(CompactAll(items, sessions, human), human) == Found(items, human)
  {
    if sessions != [] {
      var n := |sessions| - 1;
      FoundAfter(items, sessions[..n], human);
      OneMoreCompaction(CompactAll(items, sessions[..n], human), sessions[n], human);
    }
  }

  lemma {:induction false} SelectLast(items: History, p: Item -> bool)
    ensures var i, picked := LastIndex(items, p), Select(items, p);
            if i.None? then picked == [] else picked != [] && picked[|picked| - 1] == items[i.value]
  {
    if items != [] {
      var n := |items| - 1;
      SelectLast(items[..n], p);
      SelectConcat(items[..n], [items[n]], p);
      assert items == items[..n] + [items[n]] && [items[n]][1..] == [];
    }
  }

  /** Any number of compactions, whatever their summaries and whatever the query, leaves the latest
  agent message unchanged and as the only one. */
  lemma {:induction false} AgentMessageSurvives(items: History, sessions: seq<Session>, human: Item -> bool)
    requires IsClassifier(human) && sessions != []
    ensures Select(CompactAll(items, sessions, human), IsAgentMessage) == AnchorItem(LatestAgentMessage(items, human))
  {
    var n := |sessions| - 1;
    var before := CompactAll(items, sessions[..n], human);
    AgentMessageOnce(before, sessions[n], human);
    if n > 0 {
      AgentMessageSurvives(items, sessions[..n], human);
      SelectLast(before, IsAgentMessage);
    }
  }

  predicate FoundKept(items: History, sessions: seq<Session>) {
    Found(CompactAll(items, sessions, IsRealUserTurn), IsRealUserTurn) == Found(items, IsRealUserTurn)
  }

  lemma {:induction false} FoundLost(items: History, s: Session)
    requires !QueryCarriesOver(LastQuery(items, IsRealUserTurn))
    ensures !FoundKept(items, [s])
  {
    RealTurnsClassify();
    CarriesOverExactly(LastQuery(items, IsRealUserTurn));
    OneIsCompact(items, s, IsRealUserTurn);
    LastQueryOfCompacted(items, s, IsRealUserTurn);
  }

  /** They also keep it on its side of the human query, and the query, exactly when that carries over;
  otherwise every first compaction already changes one or the other. */
  lemma {:induction false} FoundSurvivesExactly(items: History)
    ensures (forall sessions :: FoundKept(items, sessions)) <==> QueryCarriesOver(LastQuery(items, IsRealUserTurn))
    ensures (exists s :: FoundKept(items, [s])) <==> QueryCarriesOver(LastQuery(items, IsRealUserTurn))
  {
    var s := Session(Input("", "", None, "", None), 0, None, false);
    if QueryCarriesOver(LastQuery(items, IsRealUserTurn)) {
      RealTurnsClassify();
      CarriesOverExactly(LastQuery(items, IsRealUserTurn));
      forall sessions ensures FoundKept(items, sessions) {
        FoundAfter(items, sessions, IsRealUserTurn);
      }
      assert FoundKept(items, [s]);
    } else {
      forall s ensures !FoundKept(items, [s]) {
        FoundLost(items, s);
      }
      assert !FoundKept(items, [s]);
    }
  }

  lemma {:induction false} OneIsCompact(items: History, s: Session, human: Item -> bool)
    ensures CompactAll(items, [s], human) == Compact(items, s, human)
  {
    assert [s][..0] == [];
  }

  /** An image-only prompt is a human turn, yet its compaction is not a fixed point: the query
  it leaves behind is empty, so the next compaction drops it. */
  lemma {:induction false} ImageOnlyPromptIsLost(url: string, s: Session)
    ensures var items := [User([ImagePart(url)], UserMeta(None, None, None, None))];
            LastQuery(items, IsRealUserTurn) == Some("")
            && Compact(Compact(items, s, IsRealUserTurn), s, IsRealUserTurn) != Compact(items, s, IsRealUserTurn)
  {
    ImageOnlyQuery(url);
    CompactionFixedPoint([User([ImagePart(url)], UserMeta(None, None, None, None))], s);
  }

  lemma {:induction false} ImageOnlyQuery(url: string)
    ensures LastQuery([User([ImagePart(url)], UserMeta(None, None, None, None))], IsRealUserTurn) == Some("")
  {
    var x := User([ImagePart(url)], UserMeta(None, None, None, None));
    ImageIsTurn(x);
    SingleTurn(x, IsRealUserTurn);
    ImageHasNoText(url);
    EmptyQuery();
  }

  lemma {:induction false} ImageIsTurn(x: Item)
    requires x.User? && x.meta.reason.None? && x.parts != [] && x.parts[0].ImagePart?
    ensures IsRealUserTurn(x)
  {}

  lemma {:induction false} ImageHasNoText(url: string)
    ensures UserContent([ImagePart(url)]) == ""
  {
    assert [ImagePart(url)][1..] == [] && TextParts([]) == [];
  }

  lemma {:induction false} EmptyQuery()
    ensures ExtractUserQuery("") == ""
  {
    EmptyStripped(SYSTEM_TAGS);
    TrimTrimmed("");
    assert Find("", QUERY) == None;
  }

  lemma {:induction false} EmptyStripped(tags: seq<string>)
    ensures StripTags("", tags) == ""
    decreases |tags|
  {
    if tags != [] {
      assert FirstBlock("", Open(tags[0]), Close(tags[0])) == None;
      EmptyStripped(tags[1..]);
    }
  }
}
