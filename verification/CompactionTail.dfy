/** What a compacted history holds of the input, item by item. */
module CompactionTail {
  import opened Wrappers
  import opened Conversation
  import opened Text
  import opened QueryText
  import opened Compaction
  import opened CompactionLaws
  import opened Positions

  // ---------- the working tail ----------

  /** What the tail carries: agent messages, assistants and tool results. */
  predicate IsWork(item: Item) {
    item.Assistant? || item.ToolResult? || (item.User? && item.meta.reason == Some(AgentMessage))
  }

  /** A tool result keeps its call alone; any other item is kept whole. */
  predicate KeptAs(was: Item, now: Item) {
    if was.ToolResult? then
      now.ToolResult? && now.callId == was.callId && now.content == "Tool call omitted..." && now.images == []
    else now == was
  }

  function WorkIn(items: History): nat -> bool {
    (i: nat) => i < |items| && IsWork(items[i])
  }

  /** `tail` has one item for each work item of `items` from `start` on, in order, at the positions `at`. */
  ghost predicate Retains(items: History, start: nat, tail: History, at: seq<nat>) {
    && Lists(at, start, |items|, WorkIn(items)) && |at| == |tail|
    && forall k :: 0 <= k < |at| ==> at[k] < |items| && KeptAs(items[at[k]], tail[k])
  }

  /** Behind the last human turn, or at the last agent message if that comes later. */
  predicate IsTailStart(items: History, human: Item -> bool, start: nat) {
    && start <= |items|
    && (forall i :: start <= i < |items| ==> !human(items[i]) && (IsAgentMessage(items[i]) ==> i == start))
    && (start == 0 || human(items[start - 1]) || (start < |items| && IsAgentMessage(items[start])))
  }

  lemma {:induction false} CarriedRetains(items: History) returns (at: seq<nat>)
    ensures Retains(items, 0, CarriedAll(items), at)
  {
    if items == [] {
      at := [];
    } else {
      var rest := CarriedRetains(items[1..]);
      var first := WorkIn(items)(0);
      at := Ahead(first, rest);
      ListsAhead(rest, |items| - 1, WorkIn(items[1..]), WorkIn(items));
      forall k | 0 <= k < |at|
        ensures at[k] < |items| && KeptAs(items[at[k]], CarriedAll(items)[k])
      {
        if first && k > 0 {
          assert at[k] == rest[k - 1] + 1;
        }
      }
    }
  }

  lemma {:induction false} SuffixRetains(items: History, start: nat, tail: History, rest: seq<nat>)
    requires start <= |items| && Retains(items[start..], 0, tail, rest)
    ensures Retains(items, start, tail, MovedBy(rest, start))
  {
    MovedLists(rest, |items| - start, WorkIn(items[start..]), start, WorkIn(items));
  }

  /** The tail of a context starts behind the last human turn, or at the last agent message, and has
  there one item for each agent message, assistant and tool result, in order, and nothing else. */
  lemma {:induction false} TailRetains(items: History, human: Item -> bool) returns (start: nat, at: seq<nat>)
    requires IsClassifier(human)
    ensures IsTailStart(items, human, start) && Retains(items, start, RecentMessages(items, human), at)
  {
    start := RecentStart(items, human);
    LastIndexIs(items, Boundary(human));
    assert forall i :: start <= i < |items| && i != start ==> !Boundary(human)(items[i]);
    assert start < |items| && IsAgentMessage(items[start]) ==> !human(items[start]);
    var rest := CarriedRetains(items[start..]);
    at := MovedBy(rest, start);
    SuffixRetains(items, start, RecentMessages(items, human), rest);
  }

  /** Where a tail starts, and what it holds, is determined. */
  lemma {:induction false} TailIsUnique(
    items: History, human: Item -> bool, a: nat, b: nat, s: History, t: History, p: seq<nat>, q: seq<nat>)
    requires IsTailStart(items, human, a) && IsTailStart(items, human, b) && IsClassifier(human)
    requires Retains(items, a, s, p) && Retains(items, b, t, q)
    ensures a == b && s == t
  {
    assert a == b;
    ListsIsUnique(p, q, a, |items|, WorkIn(items));
    assert forall k :: 0 <= k < |s| ==> s[k] == t[k];
  }

  // ---------- the compacted history ----------

  /** The items behind the tail: the summary and the reminder. */
  function Behind(input: Input): nat {
    if input.reminder.Some? then 2 else 1
  }

  /** The project instructions of the session's working directory. */
  function Instructions(s: Session): Option<string> {
    if s.cwdGeneration > 0 then s.destination else s.input.agentsMd
  }

  function InFront(s: Session): nat {
    if Instructions(s).Some? then 3 else 2
  }

  predicate NoWork(items: History) {
    forall x :: x in items ==> !x.Assistant? && !x.ToolResult?
  }

  lemma {:induction false} Slices(a: History, b: History, c: History)
    ensures (a + b + c)[..|a|] == a
    ensures (a + b + c)[|a|..|a| + |b|] == b
    ensures (a + b + c)[|a| + |b|..] == c
  {}

  lemma {:induction false} AnchorIsAgent(items: History, s: Session, human: Item -> bool)
    requires IsClassifier(human)
    ensures var a := ContextOf(items, s, human).anchor;
            a.Some? ==> IsAgentMessage(a.value.item)
  {
    ContextShaped(items, s, human);
  }

  /** What stands before the tail, the tail, and what stands behind it. */
  lemma {:induction false} AroundTail(items: History, s: Session, human: Item -> bool) returns (before: History)
    requires IsClassifier(human)
    ensures Compact(items, s, human) == before + ContextOf(items, s, human).recent + Tail(s.input)
    ensures NoWork(before) && NoWork(Tail(s.input)) && |Tail(s.input)| == Behind(s.input)
  {
    var c := ContextOf(items, s, human);
    var a, q := EmittedAnchor(c.anchor, c.recent), QueryItems(c.lastQuery);
    before := Head(s.input, c) + (AnchorBefore(a) + q + AnchorAfter(a));
    Assoc3(Head(s.input, c), AnchorBefore(a) + q + AnchorAfter(a), c.recent);
    AnchorIsAgent(items, s, human);
    HeadHasNoWork(s.input, c);
    QueryHasNoWork(a, c.lastQuery);
  }

  lemma {:induction false} HeadHasNoWork(input: Input, c: Context)
    ensures NoWork(Head(input, c)) && NoWork(Tail(input)) && |Tail(input)| == Behind(input)
  {}

  lemma {:induction false} QueryHasNoWork(a: Option<Anchor>, query: Option<string>)
    requires a.Some? ==> IsAgentMessage(a.value.item)
    ensures NoWork(AnchorBefore(a) + QueryItems(query) + AnchorAfter(a))
  {}

  /** In a compacted history with its tail, the tail stands right before the summary and holds one item for
  each agent message, assistant and tool result of the input from its start on; no other assistant or tool result
  appears. */
  lemma {:induction false} CompactedTail(items: History, s: Session, human: Item -> bool)
    returns (start: nat, at: seq<nat>)
    requires IsClassifier(human) && !s.dropTail
    ensures var out := Compact(items, s, human);
            var hi := |out| - Behind(s.input);
            && IsTailStart(items, human, start) && |at| <= hi
            && Retains(items, start, out[hi - |at|..hi], at)
            && NoWork(out[..hi - |at|]) && NoWork(out[hi..])
  {
    start, at := TailRetains(items, human);
    var before := AroundTail(items, s, human);
    Slices(before, RecentMessages(items, human), Tail(s.input));
  }

  /** Without its tail a compacted history has no assistant and no tool result. */
  lemma {:induction false} CompactedWithoutTail(items: History, s: Session, human: Item -> bool)
    requires IsClassifier(human) && s.dropTail
    ensures NoWork(Compact(items, s, human))
  {
    var before := AroundTail(items, s, human);
  }

  /** A compacted history opens with the system message, the prefix and the instructions of its working
  directory, and closes with the summary and the reminder; between them stand only agent messages, assistants,
  tool results and the query. */
  lemma {:induction false} CompactedFrame(items: History, s: Session, human: Item -> bool)
    requires IsClassifier(human)
    ensures var out := Compact(items, s, human);
            var lo, hi := InFront(s), |out| - Behind(s.input);
            && lo <= hi
            && out[0] == System(s.input.systemMessage)
            && out[1] == UserText(s.input.prefix, Some(CompactionMeta))
            && (Instructions(s).Some? ==> out[2] == UserText(Instructions(s).value, Some(ProjectInstructions)))
            && out[hi] == UserText(s.input.summaryText, Some(CompactionMeta))
            && (s.input.reminder.Some? ==> out[hi + 1] == UserText(s.input.reminder.value, Some(SystemReminder)))
            && AreMiddle(out[lo..hi])
  {
    var c := ContextOf(items, s, human);
    var mid := Arranged(c.anchor, QueryItems(c.lastQuery), c.recent);
    MiddleIs(items, s, human);
    HeadItems(s, c);
    TailItems(s.input);
    Framed(Head(s.input, c), mid, Tail(s.input));
  }

  lemma {:induction false} HeadItems(s: Session, c: Context)
    requires c.cwdGeneration == s.cwdGeneration && c.destinationInstructions == s.destination
    ensures var head := Head(s.input, c);
            && |head| == InFront(s) && head[0] == System(s.input.systemMessage)
            && head[1] == UserText(s.input.prefix, Some(CompactionMeta))
            && (Instructions(s).Some? ==> head[2] == UserText(Instructions(s).value, Some(ProjectInstructions)))
  {}

  lemma {:induction false} TailItems(input: Input)
    ensures var tail := Tail(input);
            && |tail| == Behind(input) && tail[0] == UserText(input.summaryText, Some(CompactionMeta))
            && (input.reminder.Some? ==> tail[1] == UserText(input.reminder.value, Some(SystemReminder)))
  {}

  lemma {:induction false} Framed(head: History, mid: History, tail: History)
    ensures var out := head + mid + tail;
            && |out| == |head| + |mid| + |tail| && out[|head|..|head| + |mid|] == mid
            && (forall k :: 0 <= k < |head| ==> out[k] == head[k])
            && (tail != [] ==> out[|head| + |mid|] == tail[0])
            && (|tail| > 1 ==> out[|head| + |mid| + 1] == tail[1])
  {}

  lemma {:induction false} MiddleIs(items: History, s: Session, human: Item -> bool)
    requires IsClassifier(human)
    ensures var c := ContextOf(items, s, human);
            AreMiddle(Arranged(c.anchor, QueryItems(c.lastQuery), c.recent))
  {
    var c := ContextOf(items, s, human);
    AnchorIsAgent(items, s, human);
    if !s.dropTail { CarriedIsWork(items[RecentStart(items, human)..]); }
    ArrangedAreMiddle(c.anchor, c.lastQuery, c.recent);
  }

  predicate AreMiddle(items: History) {
    forall x :: x in items ==> IsWork(x) || IsPlainUser(x)
  }

  lemma {:induction false} ArrangedAreMiddle(anchor: Option<Anchor>, query: Option<string>, recent: History)
    requires (anchor.Some? ==> IsAgentMessage(anchor.value.item)) && AreMiddle(recent)
    ensures AreMiddle(Arranged(anchor, QueryItems(query), recent))
  {
    var a := EmittedAnchor(anchor, recent);
    assert AreMiddle(AnchorBefore(a)) && AreMiddle(QueryItems(query)) && AreMiddle(AnchorAfter(a));
  }

  lemma {:induction false} CarriedIsWork(items: History)
    ensures forall x :: x in CarriedAll(items) ==> IsWork(x)
  {
    if items != [] { CarriedIsWork(items[1..]); }
  }

  // ---------- the query and the agent message ----------

  predicate IsLast(items: History, p: Item -> bool, i: int) {
    0 <= i < |items| && p(items[i]) && forall j :: i < j < |items| ==> !p(items[j])
  }

  lemma {:induction false} LastIndexExactly(items: History, p: Item -> bool, i: nat)
    ensures LastIndex(items, p) == Some(i) <==> IsLast(items, p, i)
    ensures LastIndex(items, p) == None <==> NoneOf(items, p)
  {
    LastIndexIs(items, p);
    if NoneOf(items, p) { LastIndexNone(items, p); }
  }

  /** The one user turn without a reason in a compacted history is the last human turn of the input: its text
  without metadata blocks and wrapping, wrapped. */
  lemma {:induction false} CompactedQuery(items: History, s: Session, human: Item -> bool, i: nat)
    requires IsClassifier(human)
    ensures NoneOf(items, human) ==> Select(Compact(items, s, human), IsPlainUser) == []
    ensures IsLast(items, human, i) ==>
              var query := ExtractUserQuery(UserContent(items[i].parts));
              Select(Compact(items, s, human), IsPlainUser) ==
              [UserText("<user_query>\n" + query + "\n</user_query>", None)]
  {
    ContextShaped(items, s, human);
    PlainUsersAreQuery(s.input, ContextOf(items, s, human), s.dropTail, human);
    LastIndexExactly(items, human, i);
  }

  /** The agent message stays on its side of the human turn. */
  lemma {:induction false} CompactedSides(items: History, s: Session, human: Item -> bool, agent: nat, turn: nat)
    returns (agent': nat, turn': nat)
    requires IsClassifier(human) && IsLast(items, IsAgentMessage, agent) && IsLast(items, human, turn)
    ensures var out := Compact(items, s, human);
            && IsLast(out, IsAgentMessage, agent') && IsLast(out, IsPlainUser, turn')
            && out[agent'] == items[agent] && (agent' < turn' <==> agent < turn)
  {
    var c := ContextOf(items, s, human);
    var head, mid, tail := Head(s.input, c), Arranged(c.anchor, QueryItems(c.lastQuery), c.recent), Tail(s.input);
    var a, t := if agent < turn then 0 else 1, if agent < turn then 1 else 0;
    MarginsQuiet(s.input, c, human);
    MiddleSides(items, s, human, agent, turn);
    LastInMargins(head, mid, tail, IsAgentMessage, a);
    LastInMargins(head, mid, tail, IsPlainUser, t);
    agent', turn' := |head| + a, |head| + t;
  }

  lemma {:induction false} MarginsQuiet(input: Input, c: Context, human: Item -> bool)
    requires IsClassifier(human)
    ensures NoneOf(Head(input, c), IsAgentMessage) && NoneOf(Tail(input), IsAgentMessage)
    ensures NoneOf(Head(input, c), IsPlainUser) && NoneOf(Tail(input), IsPlainUser)
  {
    HeadAndTailQuiet(input, c, human);
    QuietIsNone(Head(input, c), human);
    QuietIsNone(Tail(input), human);
  }

  lemma {:induction false} MiddleSides(items: History, s: Session, human: Item -> bool, agent: nat, turn: nat)
    requires IsClassifier(human) && IsLast(items, IsAgentMessage, agent) && IsLast(items, human, turn)
    ensures var c := ContextOf(items, s, human);
            var mid := Arranged(c.anchor, QueryItems(c.lastQuery), c.recent);
            var a, t := if agent < turn then 0 else 1, if agent < turn then 1 else 0;
            IsLast(mid, IsAgentMessage, a) && IsLast(mid, IsPlainUser, t) && mid[a] == items[agent]
  {
    var c := ContextOf(items, s, human);
    LastIndexExactly(items, IsAgentMessage, agent);
    LastIndexExactly(items, human, turn);
    ContextShaped(items, s, human);
    AnchorIsLatest(items, s, human);
    CarriedNoPlainUser(c.recent);
    SidesArranged(c, QueryItems(c.lastQuery), s.dropTail, if agent < turn then 0 else 1, if agent < turn then 1 else 0);
  }

  lemma {:induction false} SidesArranged(c: Context, q: History, dropTail: bool, a: nat, t: nat)
    requires c.anchor.Some? && IsAgentMessage(c.anchor.value.item) && |q| == 1 && IsPlainUser(q[0])
    requires NoneOf(c.recent, IsPlainUser) && (c.recent != [] ==> NoneOf(c.recent[1..], IsAgentMessage))
    requires ArrangedFrom(c.anchor, q, c.recent, dropTail)
    requires if c.anchor.value.position.BeforeHuman? then a == 0 && t == 1 else a == 1 && t == 0
    ensures var mid := Arranged(c.anchor, q, c.recent);
            && IsLast(mid, IsAgentMessage, a) && IsLast(mid, IsPlainUser, t) && mid[a] == c.anchor.value.item
  {
    ArrangedIs(c.anchor, q, c.recent, dropTail);
    assert forall j :: 0 <= j < |c.recent| ==> c.recent[j] in c.recent;
    assert forall j :: 0 < j < |c.recent| ==> c.recent[j] in c.recent[1..];
  }

  lemma {:induction false} LastInMargins(before: History, m: History, after: History, p: Item -> bool, i: nat)
    requires NoneOf(before, p) && NoneOf(after, p) && IsLast(m, p, i)
    ensures IsLast(before + m + after, p, |before| + i) && (before + m + after)[|before| + i] == m[i]
  {
    var out := before + m + after;
    LastIndexExactly(m, p, i);
    MarginIndex(before, m, after, p);
    LastIndexExactly(out, p, |before| + i);
  }
}
