/** Rebuilding a chat history around a summary
(crates/codegen/xai-chat-state/src/compaction_utils.rs). */
module Compaction {
  import opened Wrappers
  import opened Conversation
  import opened QueryText

  // ---------- what counts as a human turn ----------

  const AUTO_CONTINUE_SENTINEL := "__auto_continue__"
  const AUTO_CONTINUE_PROMPT :=
    "Continue the conversation from where it left off without asking the user any further questions. "
    + "Resume directly - do not acknowledge the summary, do not recap what was happening, "
    + "do not preface with \"I'll continue\" or similar.\nPick up the last task as if the break never happened."

  predicate IsSyntheticQuery(text: string) {
    text == "" || text == AUTO_CONTINUE_SENTINEL || text == AUTO_CONTINUE_PROMPT
  }

  /** `is_real_user_turn`: typed by a human, as far as compaction is concerned. */
  predicate IsRealUserTurn(item: Item) {
    && item.User? && item.meta.reason.None?
    && ((exists k | 0 <= k < |item.parts| :: item.parts[k].ImagePart?)
        || !IsSyntheticQuery(ExtractUserQuery(UserContent(item.parts))))
  }

  /** What the passes below need to know of the classification `human`. */
  ghost predicate IsClassifier(human: Item -> bool) {
    forall item :: human(item) ==> item.User? && item.meta.reason.None?
  }

  // ---------- reading a history ----------

  /** `rposition`. */
  function LastIndex(items: History, p: Item -> bool): (r: Option<nat>)
    ensures r.Some? ==> r.value < |items| && p(items[r.value])
  {
    if items == [] then None
    else
      var n := |items| - 1;
      if p(items[n]) then Some(n) else LastIndex(items[..n], p)
  }

  lemma {:induction false} LastIndexIs(items: History, p: Item -> bool)
    ensures var r := LastIndex(items, p);
            forall j :: (if r.Some? then r.value else -1) < j < |items| ==> !p(items[j])
  {
    if items != [] && !p(items[|items| - 1]) {
      LastIndexIs(items[..|items| - 1], p);
    }
  }

  datatype Position = Only | BeforeHuman | AfterHuman

  datatype Anchor = Anchor(item: Item, position: Position)

  /** `extract_latest_agent_message`. */
  function LatestAgentMessage(items: History, human: Item -> bool): Option<Anchor> {
    match LastIndex(items, IsAgentMessage)
    case None => None
    case Some(agent) =>
      var position := match LastIndex(items, human)
        case None => Only
        case Some(turn) => if agent < turn then BeforeHuman else AfterHuman;
      Some(Anchor(items[agent], position))
  }

  /** `extract_last_real_user_query`. */
  function LastQuery(items: History, human: Item -> bool): Option<string> {
    match LastTurn(items, human)
    case None => None
    case Some(parts) => Some(ExtractUserQuery(UserContent(parts)))
  }

  /** The content of the last human turn. */
  function LastTurn(items: History, human: Item -> bool): Option<seq<Part>> {
    match LastIndex(items, human)
    case None => None
    case Some(i) => if items[i].User? then Some(items[i].parts) else None
  }

  const OMITTED := "Tool call omitted..."

  /** What is carried of an item in the retained tail. */
  function Carried(item: Item): History {
    if IsAgentMessage(item) || item.Assistant? then [item]
    else if item.ToolResult? then [ToolResult(item.callId, OMITTED, [])]
    else []
  }

  function CarriedAll(items: History): History {
    if items == [] then [] else Carried(items[0]) + CarriedAll(items[1..])
  }

  /** A compaction boundary: a human turn or an agent message. */
  function Boundary(human: Item -> bool): Item -> bool {
    item => human(item) || IsAgentMessage(item)
  }

  /** Where the retained tail starts: at the last agent message or behind the last human turn. */
  function RecentStart(items: History, human: Item -> bool): (r: nat)
    ensures r <= |items|
  {
    match LastIndex(items, Boundary(human))
    case None => 0
    case Some(i) => if IsAgentMessage(items[i]) then i else i + 1
  }

  /** `extract_messages_since_last_compaction_anchor`. */
  function RecentMessages(items: History, human: Item -> bool): History {
    CarriedAll(items[RecentStart(items, human)..])
  }

  // ---------- the state context ----------

  datatype Context = Context(
    cwdGeneration: nat, destinationInstructions: Option<string>,
    anchor: Option<Anchor>, recent: History, lastQuery: Option<string>)

  /** `CompactionStateContext::build`. */
  function BuildContext(items: History, cwdGeneration: nat, destination: Option<string>, human: Item -> bool): Context {
    Context(cwdGeneration, destination, LatestAgentMessage(items, human), RecentMessages(items, human),
            LastQuery(items, human))
  }

  /** `for_compaction`: drops the working tail and keeps the anchor. */
  function ForCompaction(c: Context, human: Item -> bool): Context {
    c.(anchor := if c.anchor.Some? then c.anchor else LatestAgentMessage(c.recent, human), recent := [])
  }

  // ---------- the compacted history ----------

  /** The parts of the input that do not depend on the history. */
  datatype Input = Input(
    systemMessage: string, prefix: string, agentsMd: Option<string>, summaryText: string, reminder: Option<string>)

  function MapText(o: Option<string>, reason: Option<SyntheticReason>): History {
    match o case None => [] case Some(t) => [UserText(t, reason)]
  }

  function Head(input: Input, c: Context): History {
    [System(input.systemMessage), UserText(input.prefix, Some(CompactionMeta))]
    + MapText(if c.cwdGeneration == 0 then input.agentsMd else c.destinationInstructions, Some(ProjectInstructions))
  }

  /** The human query, wrapped again. */
  function QueryItems(q: Option<string>): History {
    match q case None => [] case Some(t) => [UserText(WrapUserQuery(t), None)]
  }

  function Tail(input: Input): History {
    [UserText(input.summaryText, Some(CompactionMeta))] + MapText(input.reminder, Some(SystemReminder))
  }

  /** The anchor, unless the retained tail carries an agent message itself. */
  function EmittedAnchor(anchor: Option<Anchor>, recent: History): Option<Anchor> {
    if anchor.Some? && !(exists k | 0 <= k < |recent| :: IsAgentMessage(recent[k])) then anchor else None
  }

  function AnchorBefore(a: Option<Anchor>): History {
    if a.Some? && a.value.position.BeforeHuman? then [a.value.item] else []
  }

  function AnchorAfter(a: Option<Anchor>): History {
    if a.Some? && !a.value.position.BeforeHuman? then [a.value.item] else []
  }

  /** The anchor on its side of the human query, and the retained tail. */
  function Arranged(anchor: Option<Anchor>, query: History, recent: History): History {
    var a := EmittedAnchor(anchor, recent);
    AnchorBefore(a) + query + AnchorAfter(a) + recent
  }

  function CompactedHistory(input: Input, c: Context): History {
    Head(input, c) + Arranged(c.anchor, QueryItems(c.lastQuery), c.recent) + Tail(input)
  }

  lemma {:induction false} PushedInOrder(head: History, b: History, q: History, a: History, r: History, t: History)
    ensures head + b + q + a + r + t == head + (b + q + a + r) + t
  {}

  method PushText(items: History, text: Option<string>, reason: Option<SyntheticReason>) returns (r: History)
    ensures r == items + MapText(text, reason)
  {
    r := items;
    if text.Some? {
      r := r + [UserText(text.value, reason)];
    }
  }

  method PushItem(items: History, anchor: Option<Anchor>, wanted: bool) returns (r: History)
    ensures r == items + if anchor.Some? && wanted then [anchor.value.item] else []
  {
    r := items;
    if anchor.Some? && wanted {
      r := r + [anchor.value.item];
    }
  }

  /** `build_compacted_history`, as the source pushes it together. */
  method BuildCompactedHistory(input: Input, c: Context) returns (compacted: History)
    ensures compacted == CompactedHistory(input, c)
  {
    compacted := [System(input.systemMessage), UserText(input.prefix, Some(CompactionMeta))];
    var instructions := if c.cwdGeneration == 0 then input.agentsMd else c.destinationInstructions;
    compacted := PushText(compacted, instructions, Some(ProjectInstructions));
    var anchor := EmittedAnchor(c.anchor, c.recent);
    compacted := PushItem(compacted, anchor, anchor.Some? && anchor.value.position.BeforeHuman?);
    compacted := PushText(compacted, if c.lastQuery.Some? then Some(WrapUserQuery(c.lastQuery.value)) else None, None);
    compacted := PushItem(compacted, anchor, anchor.Some? && !anchor.value.position.BeforeHuman?);
    assert compacted == Head(input, c) + AnchorBefore(anchor) + QueryItems(c.lastQuery) + AnchorAfter(anchor);
    compacted := PushRecentAndTail(compacted, c.recent, input);
    PushedInOrder(Head(input, c), AnchorBefore(anchor), QueryItems(c.lastQuery), AnchorAfter(anchor), c.recent,
                  Tail(input));
  }

  method PushRecentAndTail(items: History, recent: History, input: Input) returns (r: History)
    ensures r == items + recent + Tail(input)
  {
    r := items;
    for k := 0 to |recent|
      invariant r == items + recent[..k]
    {
      r := r + [recent[k]];
    }
    assert r == items + recent;
    r := r + [UserText(input.summaryText, Some(CompactionMeta))];
    r := PushText(r, input.reminder, Some(SystemReminder));
    assert r == items + recent + Tail(input);
  }
}
