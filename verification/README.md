# Verified models of the agent's core

Dafny models of the parts of the coding agent whose correctness is argued in comments and tests,
with proofs of what those comments promise, or of exactly when they hold.
`dafny verify dfyconfig.toml` checks everything.

| area | modules |
|---|---|
| compaction of a chat history (`xai-chat-state/src/compaction_utils.rs`) | `Conversation`, `Text`, `SummaryText`, `SummaryAnswers`, `QueryText`, `QueryAnswers`, `Compaction`, `CompactionLaws`, `CompactionTail`, `CompactionCalls`, `CompactionPairing`, `HumanTurns`, `Pairing`, `PairingPositions`, `Positions`, `Repair`, `RepairReplies`, `Truncation`, `Fitting`, `FittingShape`, `TokenEstimate` |
| the image byte budget (`image_budget.rs`) | `JsonSize`, `JsonEscapes`, `JsonParts`, `ImageBudget`, `ImageOutcome` |
| metering, billing and routing (`astra-auth/src/server.rs`, `store.rs`) | `SseGateway`, `SseCharges`, `Billing`, `BillingLedger`, `Routes`, `RouteDeletion`, `RouteNames`, `Storage` |
| waiting on the terminal (`ptyctl/src/wait.rs`, `session.rs`) | `WaitProtocol`, `WaitSteps`, `RawTail` |
| the codebase index (`xai-codebase-graph/src`) | `Interning`, `InterningLimits`, `Coalescer`, `CoalescerEvents` |
| line framing and the usage ledger (`line_reader.rs`, `usage.rs`) | `LineReader`, `LineMessages`, `LineServing`, `LineProgress`, `Usage`, `UsageReports` |

Each operation that the source runs step by step is a method (of a class where the source updates an
object in place), proved equal to a specification function; the lemmas are about those functions and
use no automatic induction. What each specification function answers is fixed by laws that do not name it: by
the positions of what it keeps (`Positions.Lists`), by reading back what it writes, or by an independent definition.

## What the proofs found

- Compacting twice equals compacting once exactly when the last human query is none, or is not one of the
  synthetic texts, is left alone by `strip_system_tags` and is free of `</user_query>`
  (`CompactionFixedPoint`); exactly then any number of compactions also keeps the query and the side of the agent
  message (`FoundSurvivesExactly`), which itself always survives (`AgentMessageSurvives`). A prompt that consists
  of an image only is not such a query (`ImageOnlyPromptIsLost`).
- `repair_history` is documented as idempotent. It is, exactly when no assistant declares one call id
  twice and leaves it unanswered (`RepairTwice`, `RepeatedCallNotIdempotent`); two applications always suffice.
- What the usage observer sees of a streamed response that ends cleanly is independent of the chunking exactly when
  every event with its separator, and the remainder, is at most 1 MiB + 1 byte (`ChunkingMattersExactly`); nothing is
  lost to it exactly when the remainder is at most 1 MiB (`NothingLostExactly`). The events alone, which are all that
  counts of a response that fails midway, do not depend on the chunking exactly when they keep that bound
  (`EventsAgreeExactly`).
- The image eviction may end above its target with images left (`SmallImageOvershoots`), because a user image smaller
  than the text that replaces it grows the body unseen. It meets the budget for all limits, and settles in one
  application, exactly when the running size bounds the true size at each new low that leaves an image
  (`BudgetMetExactly`); it bounds it at every step exactly when all shortfalls are made up for (`StaysAboveExactly`).
- Coalescing file events differs from handling them one by one exactly on indexed paths whose last event is a
  removal that cancelled a pending creation or modification: these stay in the index (`CoalescingAgrees`).
- A resize after the feeder has exited bumps nothing. A parked waiter has seen the current screen exactly when no such
  resize came after its check (`NoLostWakeup`), and a waiter that waits on a screen which meets its condition matches
  before its deadline exactly when it is not parked with nothing unseen after the last sender has gone (`WaiterMatchesExactly`).
- An interned string longer than 65535 bytes never reads back (`RoundTripExactly`).

## Assumptions

- A Rust `str` is a sequence of characters; byte lengths are those of UTF-8. `usize` has 64 bits.
- Tokio's `watch` is a version counter whose receiver reports an unseen version before it reports closure.
- Arbitrary functions stand for: the SSE usage observer, the grid condition, the hash of the interner, the
  indexability of a path and the contents of the disk, and the JSON of items without images.
- Randomness and clocks (ids, time stamps) and saving to disk are left out of the store; a stream whose client leaves
  is a stream that fails after the last chunk.

## Model

| member | source | states |
|---|---|---|
| SummaryText.FormatCompactSummary | crates/codegen/xai-chat-state/src/compaction_utils.rs:687-725 | the cleaner ends on every text, its loops compute `Formatted`, and the result is clean |
| SummaryText.DropScratchpads | crates/codegen/xai-chat-state/src/compaction_utils.rs:689-710 | the loop over leading `<analysis>` blocks ends and removes what the specification removes |
| SummaryText.SqueezeBlankLines | crates/codegen/xai-chat-state/src/compaction_utils.rs:721-723 | the loop that squeezes blank lines ends in the specified text |
| SummaryText.FormattedIsClean | crates/codegen/xai-chat-state/src/compaction_utils.rs:687-752 | for every reply: none of the six live control tokens, no double blank line, no outer white space; collapsing and trimming cannot bring a token back |
| SummaryText.FormattedFixesExactlyClean | crates/codegen/xai-chat-state/src/compaction_utils.rs:687-752 | cleaning leaves exactly the clean texts alone and is idempotent |
| SummaryText.DefuseAllRemoves | crates/codegen/xai-chat-state/src/compaction_utils.rs:745-752 | defusing the tokens one after another removes each and never recreates an earlier one |
| SummaryText.WellFormedReply | crates/codegen/xai-chat-state/src/compaction_utils.rs:687-752 | a reply of the requested shape loses its scratchpad and keeps its summary verbatim under the heading |
| SummaryAnswers.ClosedScratchpadGoes | crates/codegen/xai-chat-state/src/compaction_utils.rs:689-703 | an analysis that leads the reply goes with its closing tag, wherever the summary opens |
| SummaryAnswers.UnclosedScratchpadGoes | crates/codegen/xai-chat-state/src/compaction_utils.rs:704-709 | one that is never closed goes up to the summary, or with all that follows |
| SummaryAnswers.OtherAnalysisStays | crates/codegen/xai-chat-state/src/compaction_utils.rs:689-697 | nothing else goes |
| SummaryAnswers.BlockIs | crates/codegen/xai-chat-state/src/compaction_utils.rs:711-719 | the block from the first opening to the last closing tag is put under the heading between what stood before and behind it |
| SummaryAnswers.NoBlockStays | crates/codegen/xai-chat-state/src/compaction_utils.rs:711-714 | a text without such a block stays |
| SummaryAnswers.BlockLosesDrafts | crates/codegen/xai-chat-state/src/compaction_utils.rs:729-741 | a numbered block keeps its text, any other loses all up to its last closing analysis tag |
| SummaryAnswers.DraftedReply | crates/codegen/xai-chat-state/src/compaction_utils.rs:687-741 | so a block that opens with drafts is cleaned to what stands behind them, verbatim |
| SummaryAnswers.NeutralizedVisible | crates/codegen/xai-chat-state/src/compaction_utils.rs:745-752 | neutralizing adds zero-width spaces and changes nothing else |
| SummaryAnswers.NeutralizedBehind | crates/codegen/xai-chat-state/src/compaction_utils.rs:745-752 | each stands right behind a `<` |
| SummaryAnswers.SqueezedIs | crates/codegen/xai-chat-state/src/compaction_utils.rs:721-723 | squeezing drops exactly the line feeds that two line feeds stand before |
| QueryText.StripTagBlocks | crates/codegen/xai-chat-state/src/compaction_utils.rs:275-291 | the loops over the tags compute `StripSystemTags` |
| QueryText.StripTagsInWrapping | crates/codegen/xai-chat-state/src/compaction_utils.rs:275-291 | stripping metadata blocks commutes with wrapping a query |
| QueryText.ExtractWrapped | crates/codegen/xai-chat-state/src/compaction_utils.rs:293-304 | what is read back from any wrapped text |
| QueryText.QuerySurvivesWrapping | crates/codegen/xai-chat-state/src/compaction_utils.rs:822-825 | wrap then extract is the identity exactly on texts without removable blocks, outer white space and `</user_query>` |
| QueryAnswers.BlockGoes | crates/codegen/xai-chat-state/src/compaction_utils.rs:275-291 | a metadata block goes from its first opening tag to the first closing tag behind it |
| QueryAnswers.UnclosedStays | crates/codegen/xai-chat-state/src/compaction_utils.rs:275-291 | without these tags all stays |
| QueryAnswers.QueryIsBetween | crates/codegen/xai-chat-state/src/compaction_utils.rs:295-302 | the query is what stands between its tags, trimmed |
| QueryAnswers.QueryIsAll | crates/codegen/xai-chat-state/src/compaction_utils.rs:303-303 | without these tags it is the whole text |
| QueryAnswers.PlainTextIsQuery | crates/codegen/xai-chat-state/src/compaction_utils.rs:293-304 | a text without any of the tags is the query, trimmed |
| HumanTurns.HumanTurnsAre | crates/codegen/xai-chat-state/src/compaction_utils.rs:336-354 | items with a reason are no human turns, items that show an image are |
| HumanTurns.UntaggedTurn | crates/codegen/xai-chat-state/src/compaction_utils.rs:336-354 | an untagged text is one unless it is blank or one of the two that continue a turn |
| HumanTurns.ContentIsLines | crates/codegen/xai-grok-sampling-types/src/conversation.rs:1267-1280 | the text of an item is that of its text parts, one per line |
| Compaction.BuildCompactedHistory | crates/codegen/xai-chat-state/src/compaction_utils.rs:863-930 | the pushes build head, anchor, query, tail and reminder in the specified order |
| CompactionLaws.ContextShaped | crates/codegen/xai-chat-state/src/compaction_utils.rs:627-682 | in every context the tail holds no human turn, an agent message only in front, and the anchor is consistent with it |
| CompactionTail.CompactedTail | crates/codegen/xai-chat-state/src/compaction_utils.rs:451-494 | the tail stands right before the summary and has, from the last agent message on or behind the last human turn, one item for each agent message, assistant and tool result, in order: results with their call id, `Tool call omitted...` and no images, the others unchanged; no other assistant or result appears |
| CompactionTail.TailIsUnique | crates/codegen/xai-chat-state/src/compaction_utils.rs:451-494 | that determines where the tail starts and what it holds |
| CompactionTail.CompactedWithoutTail | crates/codegen/xai-chat-state/src/compaction_utils.rs:660-682 | without its tail a compacted history has no assistant and no tool result |
| CompactionTail.CompactedFrame | crates/codegen/xai-chat-state/src/compaction_utils.rs:863-930 | what it opens and closes with, and which kinds of items stand between |
| CompactionTail.CompactedQuery | crates/codegen/xai-chat-state/src/compaction_utils.rs:863-930 | its one plain user turn is the last human turn, stripped and wrapped, or there is none |
| CompactionTail.CompactedSides | crates/codegen/xai-chat-state/src/compaction_utils.rs:433-449 | the agent message stays on its side of the human turn |
| CompactionCalls.CompactionLeavesNoneOpen | crates/codegen/xai-chat-state/src/compaction_utils.rs:451-494 | if every call of the input has a result in its run, so has every call of the compacted history |
| CompactionLaws.ContextReadBack | crates/codegen/xai-chat-state/src/compaction_utils.rs:627-682 | reading a compacted history back gives the context it was built from |
| CompactionLaws.CompactTwice | crates/codegen/xai-chat-state/src/compaction_utils.rs:863-930 | for any classification of human turns, compacting again changes nothing exactly when the query is read back from its wrapping |
| CompactionLaws.CompactionFixedPoint | crates/codegen/xai-chat-state/src/compaction_utils.rs:336-354 | the same for the real classification, with a condition on the last query alone |
| CompactionLaws.AgentMessageOnce | crates/codegen/xai-chat-state/src/compaction_utils.rs:433-449 | the latest agent message, and no other, appears in a compacted history, exactly once |
| CompactionLaws.AgentMessageSurvives | crates/codegen/xai-chat-state/src/compaction_utils.rs:433-494 | any number of compactions, whatever their settings and the query, leaves the latest agent message unchanged and as the only one |
| CompactionLaws.FoundSurvivesExactly | crates/codegen/xai-chat-state/src/compaction_utils.rs:433-494 | its side of the query, and the query, survive any number of compactions if and only if the query carries over; else no first compaction keeps both |
| CompactionLaws.ImageOnlyPromptIsLost | crates/codegen/xai-chat-state/src/compaction_utils.rs:336-354 | a concrete history whose compaction is not a fixed point |
| CompactionPairing.CompactionKeepsPairing | crates/codegen/xai-chat-state/src/compaction_utils.rs:451-494 | if every result lies in its owner's run, the same holds after compaction, with or without the tail, and validation reports nothing |
| CompactionPairing.CompactionPairedExactly | crates/codegen/xai-chat-state/src/compaction_utils.rs:863-930 | every result of a compacted history lies in its run if and only if it does so in the retained tail |
| CompactionPairing.DroppedTailPairs | crates/codegen/xai-chat-state/src/compaction_utils.rs:663-682 | with the tail dropped nothing is ever orphaned, whatever the input |
| Pairing.ValidateCompactedHistory | crates/codegen/xai-chat-state/src/compaction_utils.rs:941-958 | the loop reports the specified ids, none exactly when every result has an earlier declaration |
| Pairing.SanitizeCompactedHistory | crates/codegen/xai-chat-state/src/compaction_utils.rs:962-989 | strips exactly the ids that validation reports, and what it keeps validates |
| Pairing.OrphansExactly | crates/codegen/xai-chat-state/src/compaction_utils.rs:941-958 | validation is silent if and only if each result is declared by an earlier assistant |
| Pairing.StrippedExactly | crates/codegen/xai-chat-state/src/compaction_utils.rs:1030-1056 | the strip pass removes nothing if and only if each result lies in its owner's contiguous run |
| PairingPositions.SanitizedAt | crates/codegen/xai-chat-state/src/compaction_utils.rs:941-989 | sanitizing keeps, in order, all but the results that no earlier assistant declares; validation reports the ids of these in order |
| PairingPositions.StrippedAt | crates/codegen/xai-chat-state/src/compaction_utils.rs:1030-1056 | stripping keeps, in order, all but the results outside the run of their owner, and reports the ids of these in order |
| Pairing.SanitizeMeetsValidate | crates/codegen/xai-chat-state/src/compaction_utils.rs:962-989 | the sanitized history validates, sanitizing is idempotent and loses as many items as are reported |
| Pairing.StripMeetsSanitize | crates/codegen/xai-chat-state/src/compaction_utils.rs:1030-1056 | the strip pass keeps a subsequence of what sanitizing keeps, which validates, and is idempotent |
| Repair.ChatHistory.StripDisplacedToolResults | crates/codegen/xai-chat-state/src/compaction_utils.rs:1030-1056 | the in-place retain leaves the stripped history and returns the displaced ids |
| Repair.ChatHistory.DedupDuplicateToolResults | crates/codegen/xai-grok-sampling-types/src/conversation.rs:2010-2069 | the scan keeps of each run the last result of every id and counts the rest |
| Repair.ChatHistory.RepairDanglingToolCalls | crates/codegen/xai-grok-sampling-types/src/conversation.rs:1900-1960 | the insertions, last place first, give every open call a result at the end of its run |
| Repair.ChatHistory.RepairHistory | crates/codegen/xai-chat-state/src/compaction_utils.rs:1012-1026 | the three passes leave the repaired history, and the report tells whether anything changed |
| Repair.RepairedIsBlocks | crates/codegen/xai-chat-state/src/compaction_utils.rs:1012-1026 | the three passes refine one pass that rebuilds each assistant with its run |
| RepairReplies.RepliesAre | crates/codegen/xai-grok-sampling-types/src/conversation.rs:1900-2069 | behind an assistant stand the last result of its run for each call, in order, then for each call without one, in the order of the calls, a text that names the tool and the reason |
| RepairReplies.RepairedStep | crates/codegen/xai-chat-state/src/compaction_utils.rs:1012-1026 | a repaired history block by block: assistants with these replies, no results elsewhere, all other items |
| Repair.RepairMakesReady | crates/codegen/xai-grok-sampling-types/src/conversation.rs:1964-1993 | after a repair every result is in its run and no call dangles; and none is answered twice exactly when no open call was declared twice |
| Repair.RepairFixesExactlyReady | crates/codegen/xai-chat-state/src/compaction_utils.rs:1009-1026 | a repair leaves exactly the ready histories alone, and two repairs always make one |
| Repair.RepairTwice | crates/codegen/xai-chat-state/src/compaction_utils.rs:1009-1026 | exactly when the documented idempotence holds |
| Repair.RepeatedCallNotIdempotent | crates/codegen/xai-chat-state/src/compaction_utils.rs:1009-1026 | a concrete history on which it does not |
| Repair.ReportTellsChange | crates/codegen/xai-chat-state/src/compaction_utils.rs:1001-1008 | the report is empty if and only if the history was not rewritten |
| Truncation.TruncateTextToBytes | crates/codegen/xai-chat-state/src/compaction_utils.rs:242-257 | the walk to a character boundary computes the specified text |
| Truncation.TruncationBound | crates/codegen/xai-chat-state/src/compaction_utils.rs:242-257 | the longest prefix on a character boundary within the reserve, the exact number of bytes dropped, and exactly when the result is within max(budget, 64) |
| FittingShape.ShortenedIs | crates/codegen/xai-chat-state/src/compaction_utils.rs:242-257 | a text within its bytes stays whole; of a longer one stays the longest whole-character prefix that leaves 64 bytes, with the number of bytes dropped |
| TokenEstimate.EstimateIs | crates/codegen/xai-chat-state/src/actor/state.rs:59-95 | a quarter of the bytes read, 765 for each image of a user item, and of reasoning the larger of text and three quarters of ciphertext |
| TokenEstimate.EstimateUser | crates/codegen/xai-chat-state/src/actor/state.rs:63-74 | the loop over the parts computes it |
| Fitting.FitConversationToBudget | crates/codegen/xai-chat-state/src/compaction_utils.rs:144-177 | the backward walk and the skip over results compute `Fitted` |
| Fitting.RecoverTruncatedTailUnit | crates/codegen/xai-chat-state/src/compaction_utils.rs:179-211 | popping the trailing results and cutting each computes the last unit with its owner |
| Fitting.LongestAffordable | crates/codegen/xai-chat-state/src/compaction_utils.rs:158-167 | the greedy walk finds the longest suffix within the budget |
| Fitting.FitWithinBudget | crates/codegen/xai-chat-state/src/compaction_utils.rs:144-177 | System head plus the longest affordable suffix less its leading results, within the budget whenever the head alone is |
| FittingShape.FittingKeepsWhole | crates/codegen/xai-chat-state/src/compaction_utils.rs:148-151 | a history within the budget is left alone |
| FittingShape.FittedIs | crates/codegen/xai-chat-state/src/compaction_utils.rs:152-177 | any other is its System head and the longest suffix that the rest of the budget affords, less its leading results, or else its last unit |
| FittingShape.TailUnitIs | crates/codegen/xai-chat-state/src/compaction_utils.rs:179-211 | the last unit: the item cut to the budget, or all trailing results cut to an even share behind their owner, which is whole |
| FittingShape.TruncatedIs | crates/codegen/xai-chat-state/src/compaction_utils.rs:213-240 | a cut item keeps its kind, ids, calls, images, meta data and parts; only its texts are cut, each to its bytes |
| Fitting.TruncatedItemCost | crates/codegen/xai-chat-state/src/compaction_utils.rs:213-240 | what an item costs at most once it is cut: each text its budget or 16 tokens, the rest as before |
| Fitting.TailUnitCost | crates/codegen/xai-chat-state/src/compaction_utils.rs:179-211 | the last unit costs its owner plus the larger of what the owner leaves of the budget and 16 tokens a result; any other last item its own cut |
| Fitting.FitBound | crates/codegen/xai-chat-state/src/compaction_utils.rs:144-211 | what the fitted history costs at most in each outcome: untouched, a suffix, or only the truncated last unit |
| Fitting.FitKeepsPairing | crates/codegen/xai-chat-state/src/compaction_utils.rs:144-211 | fitting keeps every result in its owner's contiguous run |
| JsonSize.ConversationBodyBytes | crates/codegen/xai-chat-state/src/image_budget.rs:175-202 | measuring a copy with blanked URLs and adding the URLs' own measure gives the size function |
| JsonSize.HistoryLen | crates/codegen/xai-chat-state/src/image_budget.rs:37-62 | the size functions measure the escaped JSON text, because escaped length is additive |
| JsonEscapes.EscapedReadsBack | crates/codegen/xai-chat-state/src/image_budget.rs:49-62 | an escaped text is read back by the grammar of RFC 8259, section 7 |
| JsonParts.PartsReadBack | crates/codegen/xai-chat-state/src/image_budget.rs:49-62 | content parts are read back from their JSON |
| JsonParts.UserReadsBack | crates/codegen/xai-chat-state/src/image_budget.rs:49-62 | so are the parts of a user item, in front of its other fields |
| JsonParts.ResultReadsBack | crates/codegen/xai-chat-state/src/image_budget.rs:49-62 | so are tool results, with their images |
| JsonParts.ItemsInOrder | crates/codegen/xai-chat-state/src/image_budget.rs:49-62 | a history is its items in order with commas between them |
| JsonEscapes.DataUrlsAreCut | crates/codegen/xai-chat-state/src/image_budget.rs:152-161 | exactly the base64 data URLs are cut, at their first comma |
| JsonSize.EncodedUrlExactly | crates/codegen/xai-chat-state/src/image_budget.rs:152-161 | a URL's measure never exceeds its escaped length and equals it exactly when its base64 tail needs no escaping |
| JsonSize.BodyBytesExactly | crates/codegen/xai-chat-state/src/image_budget.rs:172-202 | the measured size equals the length of the serialized history if and only if no base64 tail needs escaping, and never exceeds it |
| ImageBudget.EvictImagesToBudget | crates/codegen/xai-chat-state/src/image_budget.rs:210-287 | the in-place loop along a list made once evicts what the specification evicts, although positions shift |
| ImageBudget.ApplyImageBudget | crates/codegen/xai-chat-state/src/image_budget.rs:110-118 | the production limits on the serde_json encoding; safe histories settle in one application |
| ImageBudget.ImagePartFrame | crates/codegen/xai-chat-state/src/image_budget.rs:163-170 | an image part takes 25 bytes and what its URL measures |
| ImageBudget.EvictsOldest | crates/codegen/xai-chat-state/src/image_budget.rs:210-287 | evicting k images removes exactly the first k in conversation order |
| ImageBudget.EvictsOnlyImages | crates/codegen/xai-chat-state/src/image_budget.rs:210-287 | item order, ids and all other parts stay, a tool result gets its note once |
| ImageBudget.RunningStepExactly | crates/codegen/xai-chat-state/src/image_budget.rs:251-285 | the running size after an eviction, exactly; it stays an upper bound if and only if lead and dropped field cover the image's shortfall |
| ImageBudget.LoopEvictsFirst | crates/codegen/xai-chat-state/src/image_budget.rs:210-287 | whatever the sizes, the loop evicts a prefix of the images, and none within the target |
| ImageOutcome.EvictsNoMore | crates/codegen/xai-chat-state/src/image_budget.rs:210-287 | the running size is over the target before each eviction, and the loop stops at the first size that is not, or without images |
| ImageOutcome.OutcomeTells | crates/codegen/xai-chat-state/src/image_budget.rs:123-150 | sizes before and after, images, trigger and evictions as reported are those of the two histories |
| ImageBudget.StaysAboveExactly | crates/codegen/xai-chat-state/src/image_budget.rs:251-285 | the running size bounds the true size at every step, for every target, if and only if the partial sums of dropped fields less shortfalls never use up its lead |
| ImageBudget.LoopReachesTarget | crates/codegen/xai-chat-state/src/image_budget.rs:210-287 | where the running size stays above the true size, the loop ends within the target or without images |
| ImageBudget.LoopEndsWellExactly | crates/codegen/xai-chat-state/src/image_budget.rs:251-285 | the loop ends within the target or without images for every target if and only if the running size bounds the true size at each new low that leaves an image |
| ImageBudget.CoveredIsSafe | crates/codegen/xai-chat-state/src/image_budget.rs:251-285 | covered shortfalls suffice for that |
| ImageBudget.BigImagesCovered | crates/codegen/xai-chat-state/src/image_budget.rs:257-264 | without user images smaller than the placeholder nothing has to be covered |
| ImageBudget.BudgetEvictsOldest | crates/codegen/xai-chat-state/src/image_budget.rs:123-150 | below the trigger or within the target nothing goes, else exactly the reported number of oldest images |
| ImageBudget.BudgetReachesTarget | crates/codegen/xai-chat-state/src/image_budget.rs:123-150 | where the running size is safe (the condition of `LoopEndsWellExactly`) the result is below the trigger, within the target, or image-free |
| ImageBudget.BudgetSettles | crates/codegen/xai-chat-state/src/image_budget.rs:123-150 | with the target below the trigger a second application evicts nothing if and only if the first met the budget |
| ImageBudget.BudgetMetExactly | crates/codegen/xai-chat-state/src/image_budget.rs:123-150 | all limits are met, and all ordered limits settle, if and only if the running size is safe wherever the loop may stop |
| ImageBudget.SmallImageOvershoots | crates/codegen/xai-chat-state/src/image_budget.rs:257-264 | a family of histories on which the loop ends above the target with an image left |
| SseGateway.FindBoundary | crates/codegen/astra-auth/src/server.rs:2319-2329 | the earliest separator of either kind, if there is one |
| SseGateway.GatewayStreamResponse | crates/codegen/astra-auth/src/server.rs:2377-2421 | the received bytes are forwarded unchanged and the charges are those of the specification |
| SseGateway.FrameConserves | crates/codegen/astra-auth/src/server.rs:2402-2409 | events and remainder together are the buffer, and no complete event is left |
| SseGateway.FrameInParts | crates/codegen/astra-auth/src/server.rs:2402-2409 | framing may stop anywhere and continue with the remainder |
| SseGateway.ChargedOnce | crates/codegen/astra-auth/src/server.rs:2405-2421 | usage is charged exactly once on a clean end and at most once otherwise |
| SseCharges.ChargeOfShown | crates/codegen/astra-auth/src/server.rs:2405-2421 | with the usage fed from event to event: the charge is the usage read up to the first event that ends the response; else, on a clean end, all that was read and the buffered rest; else nothing |
| SseCharges.ChargeIs | crates/codegen/astra-auth/src/server.rs:2392-2421 | the same in terms of the bytes of the response, when its events are shown whole |
| SseCharges.ResponseBills | crates/codegen/astra-auth/src/server.rs:2405-2421 | so a response that ends with an event bills its user once for the usage read up to it |
| SseCharges.EventsEndAtSeparators | crates/codegen/astra-auth/src/server.rs:2319-2329 | each event ends with its first separator, two LF or two CR LF, and none is left in the remainder |
| SseCharges.ForwardedInOrder | crates/codegen/astra-auth/src/server.rs:2388-2416 | the chunks are passed on in order up to the first failure |
| SseGateway.ChunkingDoesNotMatter | crates/codegen/astra-auth/src/server.rs:2392-2415 | if events and remainder are at most 1 MiB + 1 byte, all chunkings show the events of the unbroken text and leave the same buffer |
| SseGateway.SameBytesSameCharge | crates/codegen/astra-auth/src/server.rs:2392-2421 | two chunkings of one response are charged alike within the bound; if it fails midway, with a remainder of any size |
| SseGateway.ChunkingMattersExactly | crates/codegen/astra-auth/src/server.rs:2410-2413 | two chunkings of a response never disagree if and only if that bound holds; otherwise two that disagree are constructed |
| SseGateway.NothingLostExactly | crates/codegen/astra-auth/src/server.rs:2410-2413 | every chunking shows the frame of the unbroken text if and only if, besides, the remainder is at most 1 MiB |
| SseGateway.EventsAgreeExactly | crates/codegen/astra-auth/src/server.rs:2392-2413 | the events shown, of clean or failing responses, are independent of the chunking if and only if each is at most 1 MiB + 1 byte |
| Billing.CostIsExact | crates/codegen/astra-auth/src/server.rs:1989-1999 | for all 64-bit prices and counts the charge is the clamped sum of the two exact ceilings, nothing saturates on the way |
| Billing.CostGrows | crates/codegen/astra-auth/src/server.rs:1989-1999 | the charge is monotone in prices and counts |
| Billing.CombinedIsCheaper | crates/codegen/astra-auth/src/server.rs:1989-1999 | one combined charge is at most two split ones, and at most two micro-USD less unless clamped |
| Billing.BalanceIsFold | crates/codegen/astra-auth/src/store.rs:454-480 | after every run of registrations, adjustments and recordings each balance is the saturating fold of its user's ledger |
| Billing.FoldIsSum | crates/codegen/astra-auth/src/store.rs:467-467 | the fold follows the plain sums if and only if every partial sum is in the 64-bit range |
| Billing.BalanceIsSum | crates/codegen/astra-auth/src/store.rs:454-480 | so then a balance is the sum of its ledger entries |
| Billing.RecordingCharges | crates/codegen/astra-auth/src/server.rs:2001-2014 | recording usage touches no other account and never raises a balance |
| BillingLedger.AdjustmentMoves | crates/codegen/astra-auth/src/store.rs:454-480 | the first user with the id moves by the amount, clamped to 64 bits, no other user changes, and the ledger has just that entry more; for an unknown user nothing changes |
| BillingLedger.RecordingMoves | crates/codegen/astra-auth/src/server.rs:2001-2014 | a response with tokens bills its user the clamped sum of the two exact ceilings, under the route's name with its counts; any other changes nothing |
| BillingLedger.LedgerIsMoves | crates/codegen/astra-auth/src/store.rs:454-480 | after every run the ledger is the list of the adjustments made for known users, in order, and nothing else |
| Routes.UpsertAt | crates/codegen/astra-auth/src/store.rs:384-419 | an upsert leaves exactly one default, says which, and changes nothing else but its own route |
| RouteDeletion.DeleteLeaves | crates/codegen/astra-auth/src/store.rs:421-437 | deleting leaves the routes of other ids, in order, as they were, but that the first enabled one takes over if the default went |
| RouteNames.AnswersExactly | crates/codegen/astra-auth/src/server.rs:2042-2048 | a route answers to its three names in any ASCII letter case and to nothing else |
| Routes.RunKeepsSound | crates/codegen/astra-auth/src/store.rs:384-437 | after every run ids are unique, at most one route is default, and without a default none is enabled |
| Routes.NamedRequest | crates/codegen/astra-auth/src/server.rs:2038-2050 | a named request gets the first enabled route answering in any letter case, never the default instead |
| Routes.ChosenIsEnabled | crates/codegen/astra-auth/src/server.rs:2034-2057 | whatever is requested, a chosen route is in the table and enabled |
| Routes.BlankRequestChooses | crates/codegen/astra-auth/src/server.rs:2051-2057 | an unnamed request gets the enabled default or the only enabled route, and fails for want of routes exactly when none is enabled |
| Routes.NoDefaultRouteExactly | crates/codegen/astra-auth/src/server.rs:2030-2057 | after every run `NoDefaultRoute` occurs if and only if the request is blank, the default disabled and two routes enabled |
| Storage.Store.UpsertModelRoute | crates/codegen/astra-auth/src/store.rs:384-419 | the edits in place leave the specified table and keep it sound |
| Storage.Store.DeleteModelRoute | crates/codegen/astra-auth/src/store.rs:421-437 | likewise; the answer tells whether the id was there |
| Storage.Store.AdjustBalance | crates/codegen/astra-auth/src/store.rs:454-480 | balance and ledger move together, an unknown user changes nothing |
| Storage.Store.RecordUsage | crates/codegen/astra-auth/src/server.rs:2001-2014 | a response without tokens is not recorded, any other is charged |
| WaitProtocol.RunKeepsInv | crates/codegen/ptyctl/src/session.rs:159-172 | what every interleaving of feed, bump, resize, exit and the waiter's steps keeps |
| WaitProtocol.NoLostWakeup | crates/codegen/ptyctl/src/wait.rs:90-121 | a waiter parked with nothing unseen or awaited has found its condition false on the grid it checked, which is the current one if and only if no resize without a sender came after |
| WaitProtocol.OutcomeIsSound | crates/codegen/ptyctl/src/wait.rs:110-121 | a match is of the checked grid; the end is reported only after the grid of the last bump was checked; its snapshot shows that grid unless a resize without a sender wrote one after the check |
| WaitSteps.EndsExactly | crates/codegen/ptyctl/src/wait.rs:110-121 | a wait runs out of time exactly when it timed out, and ends with the session exactly when it saw the channel closed; an end is final |
| WaitSteps.TimeoutReports | crates/codegen/ptyctl/src/wait.rs:117-121 | a parked waiter can time out at any point and then, within four steps, reports the grid of that moment, having found its condition false |
| WaitSteps.WakesOnBump | crates/codegen/ptyctl/src/wait.rs:92-111 | no waiter wakes without a bump since it last marked the version as seen |
| WaitSteps.StepIsAllowed | crates/codegen/ptyctl/src/session.rs:268-283 | while a resize holds the session nobody else draws, checks or takes a snapshot |
| WaitSteps.RunRecords | crates/codegen/ptyctl/src/session.rs:159-172 | the grids of a run are those drawn, in order, and the version counts the bumps |
| WaitProtocol.SnapshotIsCheckedExactly | crates/codegen/ptyctl/src/wait.rs:161-186 | the snapshot of a reported end is of the current grid, the checked one if and only if no resize without a sender came after |
| WaitProtocol.StrayResizeIsMissed | crates/codegen/ptyctl/src/session.rs:272-283 | a run in which a resize after the feeder's exit is missed |
| WaitProtocol.WaiterMatches | crates/codegen/ptyctl/src/wait.rs:90-121 | once nothing changes the grid, a waiter whose condition holds matches within eight steps in every order |
| WaitProtocol.WaiterMatchesExactly | crates/codegen/ptyctl/src/wait.rs:90-121 | once nothing changes a grid that meets the condition, and before the deadline, a waiter comes to match if and only if it is not parked with nothing unseen after the last sender is gone |
| RawTail.Tail.Push | crates/codegen/ptyctl/src/wait.rs:195-206 | the tail is the last 2048 bytes of everything fed |
| RawTail.LastOfLast | crates/codegen/ptyctl/src/wait.rs:195-206 | what was dropped is never needed again |
| Interning.LookupAgrees | crates/codegen/xai-codebase-graph/src/interner.rs:143-154 | for any hash function looking up agrees with searching the list |
| Interning.InternRefines | crates/codegen/xai-codebase-graph/src/interner.rs:108-133 | interning adds to a duplicate-free list, returns the index, and old ids keep their meaning |
| Interning.RoundTripExactly | crates/codegen/xai-codebase-graph/src/interner.rs:124-132 | with room in the arena what is interned reads back if and only if it is at most 65535 bytes long |
| Interning.RunIsFaithful | crates/codegen/xai-codebase-graph/src/interner.rs:108-167 | after every run in which whatever is newly stored is at most 65535 bytes long and starts within 32 bits, ids, lookup and `from_parts` agree with the list |
| Interning.IdsSuffice | crates/codegen/xai-codebase-graph/src/interner.rs:126-127 | an arena within 32 bits never runs out of 32-bit ids |
| InterningLimits.ReadsBackAt | crates/codegen/xai-codebase-graph/src/interner.rs:124-132 | what any newly stored string reads back as, whatever the size of the arena |
| InterningLimits.FullArenaMisreads | crates/codegen/xai-codebase-graph/src/interner.rs:124-132 | the first string beyond 4 GiB reads back exactly when the arena starts with it |
| Interning.StringInterner.FromParts | crates/codegen/xai-codebase-graph/src/interner.rs:261-278 | the loop rebuilds the specified lookup table |
| Interning.StringInterner.InternBytes | crates/codegen/xai-codebase-graph/src/interner.rs:108-133 | the edits of arena, offsets and lookup leave the specified state |
| Interning.StringInterner.GetBytesId | crates/codegen/xai-codebase-graph/src/interner.rs:143-154 | the loop over a bucket finds the specified id |
| Coalescer.CoalescingAgrees | crates/codegen/xai-codebase-graph/src/index_manager.rs:1460-1498 | coalesced and one-by-one processing agree on a path if and only if it is not an indexed, wanted path whose last note cancelled |
| Coalescer.PendingLast | crates/codegen/xai-codebase-graph/src/index_manager.rs:1474-1498 | what is pending on a path, in terms of its last two events |
| Coalescer.BatchesAgree | crates/codegen/xai-codebase-graph/src/index_manager.rs:789-828 | however events are cut into batches, the indexes agree on a path if and only if the last batch that notes it does not cancel on a wanted path indexed before |
| Coalescer.QuietBatchesAgree | crates/codegen/xai-codebase-graph/src/index_manager.rs:789-828 | batches in which nothing is removed after it was created or modified leave the one-by-one index |
| Coalescer.ModifiedThenRemovedStays | crates/codegen/xai-codebase-graph/src/index_manager.rs:1474-1498 | a concrete batch that leaves a removed file indexed |
| CoalescerEvents.EventsApplied | crates/codegen/xai-codebase-graph/src/index_manager.rs:1087-1115 | after a run of events, one by one, the index says of a path what the last event that mentions it says |
| CoalescerEvents.RenameApplied | crates/codegen/xai-codebase-graph/src/index_manager.rs:1460-1467 | after a rename nothing of the first path, the disk of the second, all others as before |
| CoalescerEvents.CoalescedApplied | crates/codegen/xai-codebase-graph/src/index_manager.rs:1460-1498 | after coalesced events the same, unless the removal cancelled, which leaves the path as it was |
| CoalescerEvents.ReplacedIsCreated | crates/codegen/xai-codebase-graph/src/index_manager.rs:1488-1491 | a path removed, without cancelling, and then made or changed is pending as created |
| CoalescerEvents.QueueApplied | crates/codegen/xai-codebase-graph/src/index_manager.rs:792-820 | the same for an event and the commands waiting behind it |
| CoalescerEvents.BatchesApplied | crates/codegen/xai-codebase-graph/src/index_manager.rs:789-828 | and for a run cut into any batches, except exactly on a path left stale |
| Coalescer.CoalescedEvents.Add | crates/codegen/xai-codebase-graph/src/index_manager.rs:1460-1472 | a rename with both paths removes and creates, other events note each path |
| Coalescer.IndexManager.ProcessEvents | crates/codegen/xai-codebase-graph/src/index_manager.rs:792-820 | waiting file events are drained up to the first other command and flushed before it |
| Coalescer.IndexManager.ApplyCoalesced | crates/codegen/xai-codebase-graph/src/index_manager.rs:1087-1115 | in any order of the entries, the specified index |
| LineReader.ReadLineCapped | crates/codegen/xai-acp-lib/src/line_reader.rs:126-163 | for any chunks the first line, or the error exactly when the line exceeds the cap |
| LineReader.ReaderTask | crates/codegen/xai-acp-lib/src/line_reader.rs:57-74 | the messages depend on the source's bytes alone |
| LineReader.MessagesAre | crates/codegen/xai-acp-lib/src/line_reader.rs:57-74 | the lines in order; all bytes when no line exceeds the cap and the source does not fail; each error exactly when it is due |
| LineMessages.LinesReach | crates/codegen/xai-acp-lib/src/line_reader.rs:57-74 | the messages are whole lines up to the first that exceeds the cap, the unfinished one of a failing source, or the end, and then the error that is due |
| LineServing.LineBufferedRead.PollRead | crates/codegen/xai-acp-lib/src/line_reader.rs:85-121 | serving from buffer and cursor refines serving from the unserved rest |
| LineServing.DeliversPrefix | crates/codegen/xai-acp-lib/src/line_reader.rs:85-121 | for any buffers and arrival times the bytes returned are a prefix of the source |
| LineServing.PendingBetweenLines | crates/codegen/xai-acp-lib/src/line_reader.rs:106-120 | `Pending` only when the bytes so far end a line or are the whole source |
| LineServing.EndMeansAll | crates/codegen/xai-acp-lib/src/line_reader.rs:85-121 | the end, reported without an error before, means that the whole source was returned, that it did not fail and that no line exceeds the cap |
| LineServing.ErrorsAreReal | crates/codegen/xai-acp-lib/src/line_reader.rs:117-117 | an error is returned only for an over-long line or a failing source; with `EndMeansAll` each due error comes before the end |
| LineProgress.PollProgresses | crates/codegen/xai-acp-lib/src/line_reader.rs:85-121 | once there is something to read a call is answered, with as many bytes of the line as fit, an error, or the end when nothing is ahead |
| LineProgress.EagerReaderGetsAll | crates/codegen/xai-acp-lib/src/line_reader.rs:85-121 | a reader that keeps asking has after two calls more than the source has bytes got every line sent and is told the end |
| Usage.UsageLedger.RecordMainLoopCall | crates/codegen/xai-chat-state/src/usage.rs:119-130 | the call is counted and folded into totals and its model |
| Usage.UsageLedger.RecordSubagent | crates/codegen/xai-chat-state/src/usage.rs:133-140 | the loop folds every entry, and only adds to `incomplete` |
| Usage.RunConserves | crates/codegen/xai-chat-state/src/usage.rs:73-104 | after every run each total is the saturated sum of the per-model values and of all that was ever folded in, and each model's totals of its entries |
| Usage.RunCounts | crates/codegen/xai-chat-state/src/usage.rs:116-153 | main-loop calls never exceed model calls, and `incomplete` is set exactly once something marked it |
| Usage.RunConservesCost | crates/codegen/xai-chat-state/src/usage.rs:97-104 | without negative costs the total cost is absent exactly when none was reported, and else the saturated sum |
| UsageReports.TotalsAreReported | crates/codegen/xai-chat-state/src/usage.rs:46-104 | after every run each counter, of the ledger and of each model, is the saturated sum of what was reported for it, and main-loop calls are counted exactly |
| UsageReports.IncompleteExactly | crates/codegen/xai-chat-state/src/usage.rs:133-144 | the ledger is incomplete exactly when it was told so or a subagent was |
| UsageReports.CostIsReported | crates/codegen/xai-chat-state/src/usage.rs:97-104 | without negative costs the total is the saturated sum of the positive costs reported |
| UsageReports.RunFoldsCost | crates/codegen/xai-chat-state/src/usage.rs:97-104 | with any costs it is their saturating fold, the plain sum while partial sums are in range |

## Left out

- wait_stable: its claims are about wall-clock time and the fairness of `select!`.
- Fitted: token sums are unbounded; a sum beyond 64 bits is not modelled.
- ReadLineCapped: the number of bytes in the error's text, which depends on the chunks, and a source that delivers bytes after it reported its end.
- ReaderTask: the capacity of the channel, and a receiver dropped early.
- CoalescingAgrees: two spellings of one path, which the index stores under one relative path; the disk is fixed during a run.
- InternRefines: an arena beyond 4 GiB, where starts wrap around; `ReadsBackAt` says what is read there.
- ChunkingMattersExactly: knows the two separators the code knows, not every line ending of section 9.2.6 of the WHATWG HTML Standard.
- UpsertModelRoute: fields of a route that neither the table nor the choice reads (protocol, URL, context window, key).
- CreateUser: accounts that start with a balance, as only a store file edited by hand could hold.
- DropScratchpads: search positions count characters, where the source counts bytes of ASCII patterns.
- HTTP handlers, authentication, mail, parsing of request and event bodies, tree-sitter, the terminal grid and the PTY: calls into libraries.
- Other helpers of the same files (transcript hints, degenerate-summary checks, segment preparation): single branches.
