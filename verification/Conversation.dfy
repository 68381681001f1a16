/** The items of a chat history
(crates/codegen/xai-grok-sampling-types/src/conversation.rs). */
module Conversation {
  import opened Wrappers

  datatype Part = TextPart(text: string) | ImagePart(url: string)

  datatype SyntheticReason =
    | CompactionMeta | SystemReminder | LengthContinue | ProjectInstructions | AutoContinue | AutoRecovery
    | Interjection | AgentMessage | TaskCompleted | SubagentCompleted | NotificationDrain | GoalSummary
    | GoalClassifierNudge | SchedulerFired | StopHookFeedback | WorkingDirectorySwitch | UnknownReason

  datatype ToolCall = ToolCall(id: string, name: string, arguments: string)

  /** The fields of a user item beside its content. */
  datatype UserMeta = UserMeta(
    reason: Option<SyntheticReason>, cwdGeneration: Option<nat>, priorTurnInterrupt: Option<string>,
    promptIndex: Option<nat>)

  datatype Item =
    | System(content: string)
    | User(parts: seq<Part>, meta: UserMeta)
    | Assistant(content: string, calls: seq<ToolCall>, origin: string)
    | ToolResult(callId: string, content: string, images: seq<Part>)
    | BackendToolCall(summary: string)
    | Reasoning(text: string, encrypted: Option<string>)

  type History = seq<Item>

  function UserText(text: string, reason: Option<SyntheticReason>): Item {
    User([TextPart(text)], UserMeta(reason, None, None, None))
  }

  predicate IsAgentMessage(item: Item) {
    item.User? && item.meta.reason == Some(AgentMessage)
  }

  function TextParts(parts: seq<Part>): seq<string> {
    if parts == [] then []
    else (if parts[0].TextPart? then [parts[0].text] else []) + TextParts(parts[1..])
  }

  function JoinLines(texts: seq<string>): string {
    if texts == [] then "" else if |texts| == 1 then texts[0] else texts[0] + "\n" + JoinLines(texts[1..])
  }

  /** `text_content` of a user item: its text parts, one per line. */
  function UserContent(parts: seq<Part>): string {
    JoinLines(TextParts(parts))
  }
}
