# Verified models of the doit agent runtime

Dafny models of ten parts of the agent runtime, with proofs over all inputs or
all runs. `dafny verify dfyconfig.toml` checks the project.

- **Leader-reconnect bridge** (`Rpc`, `SessionCache`, `Replay`, `Bridge`). The
  stdio bridge remembers the handshake and every open session, and brings a new
  leader to the old one's state after a crash. The cache is compared with a
  reading of the traffic by JSON-RPC ids that never mentions the cache. The two
  tasks and the sender lock are one state machine, and the results hold in every
  interleaving.
- **Conversation pairing, repair, fitting and compaction** (`Conversation`,
  `Pairing`, `Repair`, `RepairPositions`, `RepairPasses`, `Text`, `Budget`,
  `Summary`, `SummaryShapes`, `Compaction`, `QueryShapes`). Tool calls and their
  results must stay paired through validation, repair, budget fitting and
  compaction; the summary a model writes is cleaned; live state survives rounds.
  What each pass puts out is stated by position or by the parts of a text.
- **Event-driven waits** (`Wait`): feeder, resizer and waiters around a grid, its
  lock and a generation counter.
- **Line-buffered reader** (`LineReader`): a chunked producer and a partial-read
  consumer against the plain byte stream.
- **String interner** (`Interner`): a hash index over an arena against a list.
- **Usage ledger** (`Ledger`): conservation under saturating arithmetic.
- **Continuation nudges** (`Nudge`): when a run nudges, on which lane, and how often.
- **Segment renderer** (`Segment`, `SegmentCap`) and **crash blob** (`CrashBlob`): a greedy
  byte budget, and a writer and parser that undo each other.

`Prelude` holds what all modules share. Methods and classes follow the source's
loops and fields and are proved against functions; the lemmas are about those
functions.

## Where the code and its documentation differ

The models follow the code; each difference has a lemma with an input and, for
all inputs, the exact condition.

- Repair is documented as idempotent. It is not when an assistant declares an
  unanswered id twice: `Repair.RepairIdempotentIff`.
- Truncated text is documented as within its byte limit. The marker can be longer
  than the room reserved for it: `Budget.SmallLimitFitsIff`,
  `Budget.LargeLimitFitsIff`.
- A wait reported as ended is documented as made on the final grid. A resize after
  the feeder is gone changes the grid without waking anybody:
  `Wait.LateResizeFoolsSleeper`, `Wait.EndedWasFalseOnFinalGrid`.
- A segment document is meant to stay under its cap. The newlines between turns
  are not charged: every document of up to 75 turns does, and for each larger
  number some document does not, `SegmentCap.CapHoldsIff`; many short turns
  always exceed it, `SegmentCap.BlankPromptsExceed`.
- The last query is meant to survive compaction. An image-only prompt is captured
  as the empty query and lost: `Compaction.QueryIsFixedIff`.
- Interned bytes of 65536 or more do not come back, since the length is cast to
  16 bits: `Interner.InternRecoversIff`.
- A closed session leaves the cache, but the filter in front of the cache looks
  for `initialize`, `session/load` and `session/new` only, so an ordinary close
  line never reaches it. A run in which a closed session is replayed is
  `Bridge.ClosedSessionIsReplayed`; which sessions are replayed, exactly, is
  `Bridge.ReplayedIffNoCloseShown`.

## Model

| member | source | states |
|---|---|---|
| `SessionCache.StdioReplayState.UpsertSession` | crates/codegen/doit/src/main.rs:537-543 | replaces the first entry of that session in place, else appends one; nothing else in the cache changes |
| `SessionCache.StdioReplayState.RemoveSession` | crates/codegen/doit/src/main.rs:544-549 | drops every entry of the session, and forgets the last-active id only if it names that session |
| `SessionCache.StdioReplayState.CacheOutgoing` | crates/codegen/doit/src/main.rs:551-613 | the new cache for a client line of each kind (initialize, load, new, close), and no change for any other line or for text that is not JSON |
| `SessionCache.StdioReplayState.CacheIncoming` | crates/codegen/doit/src/main.rs:614-629 | an assigned id takes the pending description if there is one, and always becomes the last active session |
| `SessionCache.HandshakeIsLast` | crates/codegen/doit/src/main.rs:559-563 | after any traffic the cached handshake is the last `initialize` line of the client, and there is one if and only if the client sent one |
| `Rpc.SessionIdIs` | crates/codegen/doit/src/main.rs:566-571 | a session is named by a text under `sessionId`, or under `session_id` when the first key is missing, and by nothing else |
| `SessionCache.OneAtATimeIsInTurn` | crates/codegen/doit/src/main.rs:590-629 | a client with at most one `session/new` unanswered at a time, whose leader assigns ids only in their answers, is in turn: every assignment answers, by JSON-RPC id, a request with no other one sent and no other id assigned in between |
| `SessionCache.AnswerFindsPending` | crates/codegen/doit/src/main.rs:614-629 | when requests are in turn, the request an assignment answers by id is the one the cache holds pending, although the cache never looks at ids |
| `SessionCache.CacheIsExact` | crates/codegen/doit/src/main.rs:536-629 | for every history with requests in turn, rejected ones allowed, the cached sessions are exactly those opened and not closed since, one entry each, in first-seen order, each described by its latest opening; "open" and "described by" are read off the history, not the cache |
| `SessionCache.LastIsLastOpened` | crates/codegen/doit/src/main.rs:544-549 | in every history the last-active id is a session if and only if it was the last one opened and has not been closed since |
| `SessionCache.LastIsCached` | crates/codegen/doit/src/main.rs:614-629 | when requests are in turn the last-active session is one of the cached ones |
| `SessionCache.OverlappingNewsLoseASession` | crates/codegen/doit/src/main.rs:590-600 | with two `session/new` in flight the first answer files the second request and the second session is not cached: the one-at-a-time condition is needed |
| `Replay.Link.Pump` | crates/codegen/doit/src/main.rs:700-735 | consumes signals up to the first that is an answer, unwritable, late or missing; forwards everything before it in order; reports what that signal says |
| `Replay.Link.RequestUntilResponse` | crates/codegen/doit/src/main.rs:681-735 | a sent request yields one genuine exchange, whose forwarded lines are appended to stdout; without an id nothing is consumed; a failed send changes nothing |
| `Replay.Link.ReplayState` | crates/codegen/doit/src/main.rs:768-824 | the requests sent are the first ones of the script, in order, their exchanges are back to back, stdout grows by what they forward; it is cut short only by a failed send, a failed exchange or a handshake not accepted; the primary session is chosen from the restored ones |
| `Replay.ClientSeesAllButReplies` | crates/codegen/doit/src/main.rs:681-735 | with stdout writable, what the client sees of a replay is the consumed prefix of the leader's stream, in order, without the swallowed positions |
| `Replay.OneReplyEach` | crates/codegen/doit/src/main.rs:681-735 | exactly one position is swallowed for each answered request that carries an id, all within the consumed prefix |
| `Replay.SwallowedIsTheReply` | crates/codegen/doit/src/main.rs:652-665 | the swallowed line is the answer: it matches the request's id, carries no method, and no earlier line of the exchange does so |
| `Rpc.ReplyIs` | crates/codegen/doit/src/main.rs:652-665 | an object answers a request if and only if it has the id and no method; the presence of `error` alone decides between failure and success |
| `Replay.PrimaryWasRestored` | crates/codegen/doit/src/main.rs:818-824 | a session id is returned if and only if some load succeeded; it had a successful load; it is the last active one whenever that one was restored |
| `Replay.LoadNamesSession` | crates/codegen/doit/src/main.rs:739-757 | the load replayed for a session names it and is read off the history: the line of the client that opened it last, or a `session/load` under the bridge's own id with the cwd and MCP servers of the `session/new` whose answer did; there is none only if that request had no cwd |
| `Replay.ScriptRestoresOpenSessions` | crates/codegen/doit/src/main.rs:739-824 | for every history with requests in turn, the scripted loads are exactly those of the open sessions that were not created without a cwd, one each, with the parameters they were opened with, in first-seen order: a session is scripted if and only if it is open and was not so created |
| `Replay.ScriptOpensWithHandshake` | crates/codegen/doit/src/main.rs:774-790 | the script opens with the client's last handshake, and is empty if and only if there was none |
| `Replay.ChosenByHistory` | crates/codegen/doit/src/main.rs:818-824 | the session reported is the last active one of the history when it was restored, else the last restored |
| `Replay.AllSucceed` | crates/codegen/doit/src/main.rs:681-735 | a leader whose stream answers every request of the script with a result makes every exchange succeed |
| `Replay.Link.ReplayHistory` | crates/codegen/doit/src/main.rs:768-824 | after any history with a handshake and requests in turn, a leader that takes and answers every request with a result receives the client's last handshake and then exactly those loads; the session reported is the last active one, or else the last restored |
| `Bridge.StepKeepsInv` | crates/codegen/doit/src/main.rs:1044-1113 | every step of either task, a crash included, keeps the lock, order, cache and log invariant |
| `Bridge.NewLeaderSeesReplayFirst` | crates/codegen/doit/src/main.rs:1096-1113 | in every interleaving a new connection carries a possibly cut replay and then only client lines; the replay is the script of a snapshot whose traffic holds every (filtered) client line read by then, so also every line an earlier connection accepted |
| `Bridge.LinesArriveInOrder` | crates/codegen/doit/src/main.rs:1044-1070 | connections accept client lines in the order they were read, across reconnects, and no line is accepted twice |
| `Bridge.LateLineStaysBehind` | crates/codegen/doit/src/main.rs:1096-1113 | a run in which the old channel accepts a line after the reconnect and before the swap: the line is on the old connection and on no later one |
| `Bridge.DeliveredLoadIsReplayed` | crates/codegen/doit/src/main.rs:1044-1113 | a load an earlier connection accepted, also after the reconnect, is among the requests of every later complete replay, unless since the last load of that session the cache was shown a close or reassignment of it |
| `Bridge.ShownInTurn` | crates/codegen/doit/src/main.rs:1053-1080 | when requests are in turn in all the traffic the filters look at, and they pass every `session/new` and every assignment, requests are in turn in what the cache is shown, whatever rejections are held back |
| `Bridge.ReplayedIffNoCloseShown` | crates/codegen/doit/src/main.rs:1044-1113 | when requests are in turn in what the cache was shown, read off the traffic and the filter: a complete replay loads a session again if and only if it was not created without a cwd and the filter passed no close of it since its last opening, that opening being shown |
| `Bridge.ClosedSessionIsReplayed` | crates/codegen/doit/src/main.rs:1053-1056 | for every handshake, load and close whose close line is held back by the filter, a run in which the first leader receives the close and the second one is still sent the load |
| `Pairing.ValidateCompactedHistory` | crates/codegen/xai-chat-state/src/compaction_utils.rs:881-900 | reports the orphaned results in order; reports nothing if and only if every result's call is declared earlier |
| `Pairing.SanitizeCompactedHistory` | crates/codegen/xai-chat-state/src/compaction_utils.rs:917-944 | keeps exactly the items that are not orphaned results and returns the ids of the others |
| `Pairing.OrphansAreExact` | crates/codegen/xai-chat-state/src/compaction_utils.rs:881-900 | the scan finds no orphan if and only if every result has an earlier declaration of its id |
| `Pairing.OrphansByPosition` | crates/codegen/xai-chat-state/src/compaction_utils.rs:881-944 | the ids reported, and the items kept, are those at the positions of results whose call is not declared at an earlier position, in order |
| `Pairing.SanitizedIsValid` | crates/codegen/xai-chat-state/src/compaction_utils.rs:917-944 | what is left satisfies the provider invariant, the check finds nothing in it, and kept plus stripped is the whole history |
| `Pairing.SanitizeIsIdentityIffClean` | crates/codegen/xai-chat-state/src/compaction_utils.rs:917-944 | sanitizing changes nothing if and only if nothing is reported |
| `Pairing.ContiguousImpliesClean` | crates/codegen/xai-chat-state/src/compaction_utils.rs:867-944 | the contiguous-run rule implies the check, and such a history is left alone |
| `Repair.KeepLastSpec` | crates/codegen/xai-grok-sampling-types/src/conversation.rs:2911-2966 | deduplicating a run keeps its ids, keeps one result of each, and that one is the last of its id |
| `RepairPasses.FindDuplicates` | crates/codegen/xai-grok-sampling-types/src/conversation.rs:2911-2966 | marks exactly the results that a later result of the same id in the run supersedes |
| `RepairPasses.RemoveMarked` | crates/codegen/xai-grok-sampling-types/src/conversation.rs:2911-2966 | removing marked positions from the back leaves exactly the unmarked ones, in order |
| `RepairPasses.DedupDuplicateToolResults` | crates/codegen/xai-grok-sampling-types/src/conversation.rs:2911-2966 | the rescanning loop computes the run-by-run deduplication, and its count is the number of items lost |
| `Repair.StripKeepsOwned` | crates/codegen/xai-chat-state/src/compaction_utils.rs:996-1022 | by position, from any point of the scan on: a result is kept if and only if it stands in the run of an assistant that declares it |
| `RepairPasses.StripDisplacedToolResults` | crates/codegen/xai-chat-state/src/compaction_utils.rs:996-1022 | the loop keeps exactly the items that are not results without such an owner, and returns the ids of the others in order |
| `RepairPasses.RepairDanglingToolCalls` | crates/codegen/xai-grok-sampling-types/src/conversation.rs:2784-2844 | inserts one synthetic result for each unanswered declared call, at the end of its run, back to front; the output by position, and the count is the growth |
| `RepairPasses.RepairHistory` | crates/codegen/xai-chat-state/src/compaction_utils.rs:970-984 | the output by position, and the report: duplicates are the results superseded later in their run, stripped ids those of the remaining results without an owner, in order, inserted the unanswered calls; "changed" if and only if the input was not well paired, and if and only if the output differs |
| `RepairPositions.RepairIsOutput` | crates/codegen/xai-chat-state/src/compaction_utils.rs:964-984 | what one repair puts out, by position: every item that is neither superseded nor displaced, in order, and at the end of each run one result for each call of its assistant that has none |
| `RepairPositions.ReportByPosition` | crates/codegen/xai-chat-state/src/compaction_utils.rs:970-984 | the three passes, counted by position: results superseded, results displaced with their ids in order, and calls without a result |
| `RepairPositions.BackfillIsOutput` | crates/codegen/xai-grok-sampling-types/src/conversation.rs:2784-2844 | the last pass alone keeps every item and adds those results, by position |
| `Repair.ThreePassesRepair` | crates/codegen/xai-chat-state/src/compaction_utils.rs:970-984 | three passes over the whole list equal repairing each assistant block on its own |
| `Repair.RepairKeepsOthers` | crates/codegen/xai-chat-state/src/compaction_utils.rs:964-984 | every item that is not a tool result is kept, in order |
| `Repair.RepairAnswersEveryCall` | crates/codegen/xai-chat-state/src/compaction_utils.rs:964-984 | for every history, after one repair no result is displaced, every call is answered in its run, and the compaction check finds nothing |
| `Repair.RepairPairsIff` | crates/codegen/xai-chat-state/src/compaction_utils.rs:964-984 | one repair leaves one result per call id if and only if no assistant declares an unanswered id twice |
| `Repair.RepairFixedIff` | crates/codegen/xai-chat-state/src/compaction_utils.rs:964-984 | repair is the identity exactly on well-paired histories |
| `Repair.RepairIdempotentIff` | crates/codegen/xai-chat-state/src/compaction_utils.rs:964-969 | the documented idempotence holds if and only if no assistant declares an unanswered id twice |
| `Repair.RepairNotIdempotentExample` | crates/codegen/xai-chat-state/src/compaction_utils.rs:964-969 | a history on which the second repair still changes something |
| `Repair.TwoRepairsSuffice` | crates/codegen/xai-chat-state/src/compaction_utils.rs:964-984 | two repairs always give a well-paired history, which a third leaves alone |
| `Budget.BoundaryBelow` | crates/codegen/xai-chat-state/src/compaction_utils.rs:230-234 | walking down to a character boundary finds the longest prefix within the byte limit |
| `Budget.TruncateTextToBytes` | crates/codegen/xai-chat-state/src/compaction_utils.rs:225-240 | nothing for a text that fits; else that longest prefix followed by the marker with the number of bytes dropped |
| `Budget.TruncationFitsIff` | crates/codegen/xai-chat-state/src/compaction_utils.rs:224-240 | the documented bound holds if and only if the dropped byte count has few enough digits for the room left |
| `Budget.SmallLimitFitsIff` | crates/codegen/xai-chat-state/src/compaction_utils.rs:224-240 | under the 64-byte reserve it holds if and only if the limit is at least 57 and the text's length is below ten to the limit less 56 |
| `Budget.LargeLimitFitsIff` | crates/codegen/xai-chat-state/src/compaction_utils.rs:224-240 | from the reserve on, it holds for all texts of a length if and only if the length exceeds the limit less 64 by under a hundred million bytes |
| `Budget.TruncationInPractice` | crates/codegen/xai-chat-state/src/compaction_utils.rs:224-240 | so it holds for every text under a hundred million bytes once the limit is 64, and fails for every limit under 57 |
| `Budget.TruncatedItemFrom` | crates/codegen/xai-chat-state/src/compaction_utils.rs:196-223 | truncation keeps an item's kind, call ids, result id and images; each text is whole, or a prefix followed by the marker with the bytes dropped |
| `Budget.PopResults` | crates/codegen/xai-chat-state/src/compaction_utils.rs:163-194 | pops exactly the trailing results and returns them in their original order |
| `Budget.RecoverTruncatedTailUnit` | crates/codegen/xai-chat-state/src/compaction_utils.rs:163-194 | keeps the last turn: one item cut to the budget; or the trailing results after their owner, whole, each cut to the largest number of tokens they can all have out of what the owner leaves, or to one; a cut text is its longest prefix within four bytes per token less the reserve, and the marker |
| `Budget.TailRecoversLastTurn` | crates/codegen/xai-chat-state/src/compaction_utils.rs:163-194 | the function behind it has that size for every conversation and budget |
| `Budget.AffordableStart` | crates/codegen/xai-chat-state/src/compaction_utils.rs:128-161 | walking back finds the longest suffix within the budget |
| `Budget.FitConversationToBudget` | crates/codegen/xai-chat-state/src/compaction_utils.rs:128-161 | the output is the input when it fits, else the leading System item with the longest affordable tail that starts no orphaned run, else with the recovered last turn |
| `Budget.FitKeepsContiguousRuns` | crates/codegen/xai-chat-state/src/compaction_utils.rs:128-194 | fitting never breaks the contiguous-run rule |
| `Budget.FitKeepsEnds` | crates/codegen/xai-chat-state/src/compaction_utils.rs:128-194 | the leading System item and the last turn always survive, the turn with its ids, images and order, each text whole or a prefix followed by the marker with the bytes dropped |
| `Budget.FitWithinBudget` | crates/codegen/xai-chat-state/src/compaction_utils.rs:128-161 | whenever a tail is kept the total is at most the larger of the budget and the System item's cost |
| `Summary.DefuseRemoves` | crates/codegen/xai-chat-state/src/compaction_utils.rs:691-698 | replacing one control token leaves no occurrence of it and creates none of another |
| `Summary.NeutralizeLeavesNoTokens` | crates/codegen/xai-chat-state/src/compaction_utils.rs:691-698 | the replacements in the source's order leave no control token in any text |
| `Summary.NeutralizeIsUndone` | crates/codegen/xai-chat-state/src/compaction_utils.rs:691-698 | neutralizing only inserts zero-width spaces: dropping them gives the original back |
| `Summary.PeelLeadingAnalysis` | crates/codegen/xai-chat-state/src/compaction_utils.rs:626-648 | the loop removes leading scratchpad blocks until none leads |
| `Summary.CollapseBlankLines` | crates/codegen/xai-chat-state/src/compaction_utils.rs:659-662 | the replacement loop reaches the collapsed text |
| `Summary.CollapseSpec` | crates/codegen/xai-chat-state/src/compaction_utils.rs:659-662 | repeatedly replacing three newlines by two cuts every run to at most two and changes nothing else |
| `Summary.FormatCompactSummary` | crates/codegen/xai-chat-state/src/compaction_utils.rs:625-663 | the result is clean for every input, and a clean input is returned as it is |
| `Summary.FormattedIsClean` | crates/codegen/xai-chat-state/src/compaction_utils.rs:625-698 | no control token, no triple newline and no surrounding whitespace is left, whatever the model wrote |
| `Summary.FormatFixesClean` | crates/codegen/xai-chat-state/src/compaction_utils.rs:625-698 | a clean text is returned as it is |
| `Summary.FormatIdempotent` | crates/codegen/xai-chat-state/src/compaction_utils.rs:625-698 | cleaning twice is cleaning once |
| `SummaryShapes.FormatSummary` | crates/codegen/xai-chat-state/src/compaction_utils.rs:625-663 | any text before and after a summary block whose body has no tags: the body, trimmed of any padding, is put under its heading in place, and the whole is defused, collapsed and trimmed |
| `SummaryShapes.TrimPadded` | crates/codegen/xai-chat-state/src/compaction_utils.rs:654-656 | padding of any whitespace around a trimmed body is what trimming takes off |
| `SummaryShapes.FormatScratchedSummary` | crates/codegen/xai-chat-state/src/compaction_utils.rs:625-663 | the same with a scratchpad block in front, whatever it says, after any whitespace |
| `SummaryShapes.FormatScratched` | crates/codegen/xai-chat-state/src/compaction_utils.rs:627-641 | a closed scratchpad in front never changes the result |
| `SummaryShapes.FormatUnclosedScratch` | crates/codegen/xai-chat-state/src/compaction_utils.rs:642-648 | a scratchpad that is never closed goes, up to the summary tag |
| `SummaryShapes.FormatNumbered` | crates/codegen/xai-chat-state/src/compaction_utils.rs:674-681 | a body that opens on a numbered section, behind any decoration, keeps its text, tags it quotes included |
| `SummaryShapes.FormatHeaderScratch` | crates/codegen/xai-chat-state/src/compaction_utils.rs:674-687 | in an unnumbered body everything through the last closing analysis tag goes, and a nested opening tag after it |
| `SummaryShapes.FormatPlain` | crates/codegen/xai-chat-state/src/compaction_utils.rs:625-663 | a text without tags has its blank lines capped and its ends trimmed, and nothing else |
| `SummaryShapes.FormatRequestedShape` | crates/codegen/xai-chat-state/src/compaction_utils.rs:618-663 | a scratchpad followed by a clean summary block gives that summary under its heading |
| `SummaryShapes.UnwrapBlock` | crates/codegen/xai-chat-state/src/compaction_utils.rs:649-657 | the block from the first opening to the last closing tag is unwrapped in place |
| `SummaryShapes.UnwrapUnclosed` | crates/codegen/xai-chat-state/src/compaction_utils.rs:649-657 | an opening tag with no closing tag after it is left alone |
| `SummaryShapes.LeadsIff` | crates/codegen/xai-chat-state/src/compaction_utils.rs:628-631 | when a scratchpad leads, by the text around it: before any summary tag, directly behind the first one, or at the front without one |
| `SummaryShapes.PeelClosed` | crates/codegen/xai-chat-state/src/compaction_utils.rs:627-641 | a leading scratchpad goes through its first closing tag, and peeling goes on |
| `SummaryShapes.PeelUnclosed` | crates/codegen/xai-chat-state/src/compaction_utils.rs:642-648 | a leading scratchpad that is never closed goes up to the next summary tag |
| `SummaryShapes.PeelToEnd` | crates/codegen/xai-chat-state/src/compaction_utils.rs:642-648 | a leading scratchpad that is never closed goes to the end of the text when no summary tag follows |
| `SummaryShapes.PeelNotLeading` | crates/codegen/xai-chat-state/src/compaction_utils.rs:632-634 | a scratchpad that does not lead stays, with everything after it |
| `SummaryShapes.NeutralizeFirst` | crates/codegen/xai-chat-state/src/compaction_utils.rs:691-698 | the six replacements together break the first token right after its `<`, keep the text before it and go on behind it |
| `Compaction.StripSystemTagBlocks` | crates/codegen/xai-chat-state/src/compaction_utils.rs:259-274 | the nested loops cut the blocks of each tag until none is closed |
| `Compaction.StripTagsShrinks` | crates/codegen/xai-chat-state/src/compaction_utils.rs:259-274 | stripping is the identity exactly on texts where no tag's turn finds a closed block, and shortens every other text |
| `QueryShapes.StripBlock` | crates/codegen/xai-chat-state/src/compaction_utils.rs:259-274 | the first block of a tag goes with its tags, what stands around it is joined, and stripping goes on |
| `QueryShapes.StripUnclosed` | crates/codegen/xai-chat-state/src/compaction_utils.rs:268-270 | a first opening tag that is never closed stops the loop and changes nothing |
| `QueryShapes.StripAbsent` | crates/codegen/xai-chat-state/src/compaction_utils.rs:264-264 | without an opening tag nothing goes |
| `QueryShapes.SystemTagsArePlain` | crates/codegen/xai-chat-state/src/compaction_utils.rs:259-263 | opening and closing tags of every system tag name are tokens, as the laws on blocks ask |
| `QueryShapes.QueryIsBetweenTags` | crates/codegen/xai-chat-state/src/compaction_utils.rs:280-286 | the query is what stands between the first opening tag and the first closing tag after it; the text around is dropped |
| `QueryShapes.UntaggedIsWhole` | crates/codegen/xai-chat-state/src/compaction_utils.rs:287-289 | without the opening tag the whole text is the query |
| `QueryShapes.UnclosedIsWhole` | crates/codegen/xai-chat-state/src/compaction_utils.rs:283-289 | so it is when the first opening tag is never closed |
| `QueryShapes.WrappedIsReal` | crates/codegen/xai-chat-state/src/compaction_utils.rs:328-368 | a wrapped query that survives wrapping is a real turn if and only if it is not empty and neither continuation text |
| `Compaction.QueryRoundTripIff` | crates/codegen/xai-chat-state/src/compaction_utils.rs:280-289 | extracting a wrapped query gives it back if and only if it is trimmed, lacks the closing tag and has no system block |
| `Compaction.BoundarySpec` | crates/codegen/xai-chat-state/src/compaction_utils.rs:444-464 | the boundary is just past the last real user turn |
| `QueryShapes.RecentAt` | crates/codegen/xai-chat-state/src/compaction_utils.rs:452-463 | every assistant message after the boundary is carried over whole and every result under its id with the omission text, at the position their order gives |
| `QueryShapes.RecentCount` | crates/codegen/xai-chat-state/src/compaction_utils.rs:452-463 | nothing but assistant messages and results is carried over |
| `Compaction.AssembleHistory` | crates/codegen/xai-chat-state/src/compaction_utils.rs:828-863 | by position: the system item, the prefix, the instructions if any, the wrapped query if any, the recent items, the summary, and the reminder if any last |
| `Compaction.RebuiltIsLaidOut` | crates/codegen/xai-chat-state/src/compaction_utils.rs:828-863 | the function behind it has that layout for every state |
| `Compaction.BuildCompactedHistory` | crates/codegen/xai-chat-state/src/compaction_utils.rs:702-863 | the same with the summary text being the continuation preamble, the cleaned summary and the hint |
| `Compaction.RecentIsFixed` | crates/codegen/xai-chat-state/src/compaction_utils.rs:444-464 | the messages since the last real user turn are a fixed point of capture and rebuild, for every history, query and summary |
| `Compaction.QueryIsFixedIff` | crates/codegen/xai-chat-state/src/compaction_utils.rs:391-397 | the last query is kept if and only if it survives wrapping and is not a synthetic text |
| `Compaction.ImageOnlyPrompt` | crates/codegen/xai-chat-state/src/compaction_utils.rs:350-397 | an image-only prompt is captured as the empty query |
| `Compaction.EmptyQueryIsLost` | crates/codegen/xai-chat-state/src/compaction_utils.rs:391-397 | and the empty query does not come back after one compaction |
| `Compaction.RoundsKeepLiveState` | crates/codegen/xai-chat-state/src/compaction_utils.rs:570-580 | over any number of rounds the recent messages are kept, and the whole live state when the query survives |
| `Compaction.CompactionKeepsContiguousRuns` | crates/codegen/xai-chat-state/src/compaction_utils.rs:828-863 | compacting a history that obeys the contiguous-run rule gives one that obeys it, and sanitizing it strips nothing |
| `Wait.StepKeepsInv` | crates/codegen/ptyctl/src/wait.rs:97-128 | every step of feeder, resizer and waiters keeps the invariant on who owes which bump |
| `Wait.TestedCurrentIff` | crates/codegen/ptyctl/src/wait.rs:97-128 | in every reachable state a sleeper with nothing unseen, or a wait reported ended, has tested the current grid if and only if no later change is still without its bump |
| `Wait.NoLostWakeup` | crates/codegen/ptyctl/src/wait.rs:97-128 | while the sender lives, in a settled state no sleeper with nothing unseen has its condition true on the current grid |
| `Wait.MetSleeperMatches` | crates/codegen/ptyctl/src/wait.rs:97-128 | a sleeper whose condition holds on a settled grid can wake, and its own next steps report the match |
| `Wait.MatchedWasTrue` | crates/codegen/ptyctl/src/wait.rs:102-116 | "matched" was true on the grid it was tested on |
| `Wait.MetMeans` | crates/codegen/ptyctl/src/wait.rs:102-106 | "text shown" means an occurrence somewhere on the screen, "text gone" none anywhere |
| `Wait.EndedWasFalseOnFinalGrid` | crates/codegen/ptyctl/src/wait.rs:117-123 | unless a resize changes the grid after the feeder is gone, "ended" means the condition was false on the grid that is still current |
| `Wait.LateResizeFoolsSleeper` | crates/codegen/ptyctl/src/session.rs:271-284 | with one, for every sleeper and every screen it waits for, there is a run that reports "ended" on that very screen |
| `Wait.EndedCanBeWrong` | crates/codegen/ptyctl/src/wait.rs:117-123 | such a run from the start |
| `Wait.RawTail.Push` | crates/codegen/ptyctl/src/wait.rs:202-213 | after any pushes the tail is the last 2048 bytes of all output |
| `LineReader.Source.ReadLineCapped` | crates/codegen/xai-acp-lib/src/line_reader.rs:140-177 | returns the next line, end or error of the byte stream whatever the chunk boundaries, and consumes exactly the line returned |
| `LineReader.Produce` | crates/codegen/xai-acp-lib/src/line_reader.rs:68-85 | what is sent depends on the bytes and the fault only, not on the chunking |
| `LineReader.LinesCarrySource` | crates/codegen/xai-acp-lib/src/line_reader.rs:140-177 | the lines join to the source up to its first line over the cap, less an unterminated last line when the source ends in a read fault; an error follows if and only if there is a fault or a line over the cap |
| `LineReader.ErrorsComeLast` | crates/codegen/xai-acp-lib/src/line_reader.rs:68-85 | an error is the last thing sent |
| `LineReader.LineBufferedRead.PollRead` | crates/codegen/xai-acp-lib/src/line_reader.rs:96-132 | serves from the stash, else from the next line, else end, error or pending, as one transition of the reader |
| `LineReader.ReadServesAllItCan` | crates/codegen/xai-acp-lib/src/line_reader.rs:96-132 | a read serves as much of the line ahead as its buffer holds and keeps the rest for the next |
| `LineReader.ServedIsPrefix` | crates/codegen/xai-acp-lib/src/line_reader.rs:96-132 | in every run of producer and consumer, with or without a fault, the bytes served are a prefix of that part of the source |
| `LineReader.PendingOnlyBetweenLines` | crates/codegen/xai-acp-lib/src/line_reader.rs:96-132 | a read is pending only when no received byte is unserved and whole lines were served |
| `LineReader.EmptyReadMeansEnd` | crates/codegen/xai-acp-lib/src/line_reader.rs:96-132 | an empty read into a non-empty buffer means all of that part was served; without fault or oversized line, the whole source |
| `LineReader.ErrorComesAfterLines` | crates/codegen/xai-acp-lib/src/line_reader.rs:96-132 | an error surfaces only after all of that part was served, and only with a fault or an oversized line |
| `Interner.GetBytesSpec` | crates/codegen/xai-codebase-graph/src/interner.rs:180-186 | every id of a table that represents a list denotes that list's string, and no other id denotes any |
| `Interner.LookupIsScan` | crates/codegen/xai-codebase-graph/src/interner.rs:157-168 | hash lookup equals a linear scan of the list, for every hash function |
| `Interner.StringInterner.Lookup` | crates/codegen/xai-codebase-graph/src/interner.rs:157-168 | the candidate loop computes that lookup |
| `Interner.StringInterner.InternBytes` | crates/codegen/xai-codebase-graph/src/interner.rs:119-144 | the new table and id, with the 32-bit and 16-bit casts as in the source |
| `Interner.StringInterner.FromParts` | crates/codegen/xai-codebase-graph/src/interner.rs:286-303 | the loop rebuilds the index of the given arena and offsets |
| `Interner.InternRefinesList` | crates/codegen/xai-codebase-graph/src/interner.rs:119-144 | interning finds the string or appends it to the list the table represents |
| `Interner.IdsAreStable` | crates/codegen/xai-codebase-graph/src/interner.rs:119-144 | ids handed out earlier keep denoting the same bytes |
| `Interner.InternRecoversIff` | crates/codegen/xai-codebase-graph/src/interner.rs:119-186 | a string comes back from its id if and only if it is shorter than 65536 bytes |
| `Interner.LongStringNeverFound` | crates/codegen/xai-codebase-graph/src/interner.rs:119-168 | a longer one is never found and is stored again on every call |
| `Interner.RunRefinesList` | crates/codegen/xai-codebase-graph/src/interner.rs:119-186 | any run within the limits, for any hash, refines a duplicate-free list in first-seen order, and every id returned on the way denotes its string |
| `Interner.SameIdIffSameBytes` | crates/codegen/xai-codebase-graph/src/interner.rs:119-144 | over a whole run two calls return the same id if and only if the bytes are equal |
| `Interner.AnyRunRecovers` | crates/codegen/xai-codebase-graph/src/interner.rs:119-186 | in any run after which the arena and the ids still have room in 32 bits, strings of any length allowed, every id denotes its string cut to its 16-bit length, so short strings come back whole, and two short strings share an id if and only if they are equal |
| `Interner.LongAnswersForShortIff` | crates/codegen/xai-codebase-graph/src/interner.rs:119-168 | a long string interned first answers for a short one if and only if its kept part is the short string and the hashes collide |
| `Interner.FromPartsRoundTrip` | crates/codegen/xai-codebase-graph/src/interner.rs:286-303 | rebuilding from arena and offsets gives back the same index for a table of short strings |
| `Interner.FromPartsKeepsIndexIff` | crates/codegen/xai-codebase-graph/src/interner.rs:286-303 | for any table the rebuilt index is that of the kept parts, and is the old one if and only if no long string's kept part hashes elsewhere |
| `Ledger.UsageLedger.AddEntry` | crates/codegen/xai-chat-state/src/usage.rs:140-147 | folds one entry into the totals and its model |
| `Ledger.UsageLedger.RecordMainLoopCall` | crates/codegen/xai-chat-state/src/usage.rs:114-126 | records one main-loop call and counts it |
| `Ledger.UsageLedger.RecordSubagent` | crates/codegen/xai-chat-state/src/usage.rs:127-135 | folds every entry of a subagent and its incomplete flag |
| `Ledger.UsageLedger.MarkIncomplete` | crates/codegen/xai-chat-state/src/usage.rs:136-138 | sets the flag and nothing else |
| `Ledger.LedgerIsFold` | crates/codegen/xai-chat-state/src/usage.rs:108-147 | any recordings amount to folding all their entries |
| `Ledger.BillSumsRecordings` | crates/codegen/xai-chat-state/src/usage.rs:44-147 | every figure of the bill, in total and per model, is the capped sum over the recordings of what each call and subagent reported: input of prompt tokens, output of completion tokens, and so on |
| `Ledger.MainCallsCounted` | crates/codegen/xai-chat-state/src/usage.rs:114-126 | the main-loop calls are counted, up to the width |
| `Ledger.LedgerShape` | crates/codegen/xai-chat-state/src/usage.rs:71-147 | totals are the fold of all entries, each model's those of its own, one key per model seen |
| `Ledger.FoldedIsCappedSum` | crates/codegen/xai-chat-state/src/usage.rs:71-100 | with non-negative costs every measure of a fold is the exact sum, capped |
| `Ledger.TotalsAreModelSums` | crates/codegen/xai-chat-state/src/usage.rs:71-147 | after any recordings with non-negative costs the totals equal the saturated sum of the per-model entries |
| `Ledger.BillIgnoresOrder` | crates/codegen/xai-chat-state/src/usage.rs:71-147 | and neither totals nor per-model entries depend on the order of recording |
| `Ledger.MainCallsWithinTotal` | crates/codegen/xai-chat-state/src/usage.rs:114-147 | main-loop calls never exceed total model calls, whatever is recorded |
| `Ledger.IncompleteIsSticky` | crates/codegen/xai-chat-state/src/usage.rs:127-138 | the flag is set if and only if some recording set it |
| `Ledger.TotalCostIsFold` | crates/codegen/xai-chat-state/src/usage.rs:93-100 | the total cost is the saturating fold of the reported costs, or absent when none is |
| `Ledger.CostOrderIrrelevantIff` | crates/codegen/xai-chat-state/src/usage.rs:93-100 | for costs of any sign the fold is order-independent if and only if they have one sign or neither gains nor losses can saturate |
| `Nudge.Engine.Process` | do-harness/hooks/bin/continuation-nudge.py:564-596 | one event: the tool flags are applied, then the decision is taken; new state and decision |
| `Nudge.EventKeepsMemory` | do-harness/hooks/bin/continuation-nudge.py:411-507 | a tool event never touches the nudge memory, only the streak by an explicit override |
| `Nudge.RunNudgesIff` | do-harness/hooks/bin/continuation-nudge.py:333-348 | when an event of a run nudges and on which lane: the most urgent lane that calls, unless the maximum is reached or the nudge repeats the last one within its cooldown |
| `Nudge.SelectsMostUrgent` | do-harness/hooks/bin/continuation-nudge.py:333-348 | a lane is selected if and only if it calls and no more urgent one does |
| `Nudge.FlagsAreLatest` | do-harness/hooks/bin/continuation-nudge.py:411-486 | whenever a decision is made each flag of open work is what was last said of it, by the envelope before the tool call |
| `Nudge.FocusIsLatest` | do-harness/hooks/bin/continuation-nudge.py:351-360 | the focus a nudge is decided on is the latest name given to its lane, or the default, up to 120 characters |
| `Nudge.InterruptStep` | do-harness/hooks/bin/continuation-nudge.py:418-436 | an interrupt stands until it is cleared, the goal is closed or an interrupt nudge answers it |
| `Nudge.StreakCountsFruitless` | do-harness/hooks/bin/continuation-nudge.py:510-561 | without overrides the streak is exactly the number of nudges since the last progress, outside the streak lane and with work open |
| `Nudge.NudgeKeepsLimits` | do-harness/hooks/bin/continuation-nudge.py:510-561 | one decision keeps the count limit and the cooldown between equal nudges |
| `Nudge.NudgesAreLimited` | do-harness/hooks/bin/continuation-nudge.py:398-561 | over every run the emitted nudges never exceed the maximum and a repeated nudge waits out its cooldown |
| `Nudge.NudgeBoundsStreak` | do-harness/hooks/bin/continuation-nudge.py:510-561 | one decision raises the streak above its threshold only with an interrupt nudge |
| `Nudge.StreakIsBounded` | do-harness/hooks/bin/continuation-nudge.py:510-561 | over every run without explicit overrides the streak is at most its threshold plus the number of interrupt nudges |
| `Segment.FilenameRoundTrip` | crates/codegen/xai-chat-state/src/compaction_transcript.rs:81-97 | the index parsed from a segment file name is the index it was made from, for every 64-bit index |
| `Segment.LabelWidth` | crates/codegen/xai-chat-state/src/compaction_transcript.rs:81-83 | labels have at least three digits and no padding from 100 on |
| `Segment.RenderTurns` | crates/codegen/xai-chat-state/src/compaction_transcript.rs:484-496 | the greedy loop renders the longest prefix of turns within the budget |
| `Segment.RenderSegment` | crates/codegen/xai-chat-state/src/compaction_transcript.rs:437-507 | the document is the preamble, that prefix and, if turns are left, a notice with exactly their number |
| `Segment.DocumentLength` | crates/codegen/xai-chat-state/src/compaction_transcript.rs:484-507 | the document's exact size |
| `Segment.DocumentShows` | crates/codegen/xai-chat-state/src/compaction_transcript.rs:484-507 | the document opens with the preamble, shows every rendered turn whole, in order and one newline apart, and ends with the notice |
| `Segment.NoticeTells` | crates/codegen/xai-chat-state/src/compaction_transcript.rs:22-23 | the notice names the cap first and the number of turns left out second |
| `Segment.DocumentBound` | crates/codegen/xai-chat-state/src/compaction_transcript.rs:479-507 | when the preamble fits, it is at most the cap plus the number of rendered turns, and at most the cap up to 55 turns |
| `SegmentCap.RenderSegmentMd` | crates/codegen/xai-chat-state/src/compaction_transcript.rs:437-507 | with turns, the preamble of header, metadata, statistics and summary, then the longest prefix of turns rendered at the detail level; without, the preamble alone |
| `SegmentCap.TurnShowsText` | crates/codegen/xai-chat-state/src/compaction_transcript.rs:317-389 | above the signature level a turn shows its text under its header: whole, or at the balanced level the first 2000 characters of an assistant and the first 500 of a tool result |
| `SegmentCap.RequestAt` | crates/codegen/xai-chat-state/src/compaction_transcript.rs:324-329 | every call has its request line, in order, with one line per argument |
| `SegmentCap.RequestCount` | crates/codegen/xai-chat-state/src/compaction_transcript.rs:324-329 | the request and argument lines are all the lines of the calls |
| `SegmentCap.SignatureLine` | crates/codegen/xai-chat-state/src/compaction_transcript.rs:392-430 | at the signature level a turn is its header with the signature of every call, or the marker of a result |
| `SegmentCap.SummaryStands` | crates/codegen/xai-chat-state/src/compaction_transcript.rs:456-464 | the trimmed summary, or a note that it is empty, stands right under its heading |
| `SegmentCap.CapHoldsIff` | crates/codegen/xai-chat-state/src/compaction_transcript.rs:479-507 | at every detail level all documents of n turns whose preamble fits stay within the cap if and only if n is at most 75 |
| `SegmentCap.FewTurnsFit` | crates/codegen/xai-chat-state/src/compaction_transcript.rs:479-507 | up to 75 turns the document stays within the cap, whatever renders them |
| `SegmentCap.ShortTurnsExceed` | crates/codegen/xai-chat-state/src/compaction_transcript.rs:479-507 | when some turns are left out and the first of them takes at most b bytes, b plus 74 rendered turns put the document over the cap |
| `SegmentCap.BlankPromptsExceed` | crates/codegen/xai-chat-state/src/compaction_transcript.rs:387-507 | thirty thousand blank prompts, rendered as one header line each, put the document over the cap at every detail level |
| `CrashBlob.WriteHeader` | crates/codegen/xai-crash-handler/src/format.rs:126-157 | fills the first 64 bytes with the fields in order and leaves the rest of the buffer alone |
| `CrashBlob.LeByte` | crates/codegen/xai-crash-handler/src/format.rs:139-143 | byte i of a written integer is the one of weight 256 to the i |
| `CrashBlob.WriteFrame` | crates/codegen/xai-crash-handler/src/format.rs:160-163 | appends one little-endian frame and leaves the rest alone |
| `CrashBlob.WriteBlob` | crates/codegen/xai-crash-handler/src/format.rs:126-163 | the buffer starts with the encoding of the crash |
| `CrashBlob.Parse` | crates/codegen/xai-crash-handler/src/format.rs:49-111 | the frame loop computes the decoding |
| `CrashBlob.VersionRoundTripIff` | crates/codegen/xai-crash-handler/src/format.rs:49-157 | a version string survives its field if and only if it fits and does not end in NUL |
| `CrashBlob.ParseAfterWrite` | crates/codegen/xai-crash-handler/src/format.rs:49-163 | parsing a written blob, with any trailing bytes, returns every field but possibly the version |
| `CrashBlob.ParseUndoesWriteIff` | crates/codegen/xai-crash-handler/src/format.rs:49-163 | and the version too, if and only if it fits and does not end in NUL |
| `CrashBlob.PrefixesAreRejected` | crates/codegen/xai-crash-handler/src/format.rs:49-111 | every proper prefix of a written blob is rejected |
| `CrashBlob.WriteUndoesParse` | crates/codegen/xai-crash-handler/src/format.rs:49-163 | any accepted blob with a well-formed version field starts with the encoding of what it parses to |

## Left out

- JSON text: a JSON text and its value are not told apart, so parsing, printing and the re-parse of stored MCP servers are not modelled.
- The substring filters in front of the cache: every line comes with an arbitrary yes or no.
- Bridge.LinesArriveInOrder: a line counts once the connection's channel accepts it; whether a leader that dies had read it is not modelled.
- The leader's lines pumped during a replay are not offered to the cache and are followed in the replay model only.
- Clocks: a timeout or a passed deadline is a signal that may come at any point; the 60, 180 and 300 second values are not modelled.
- Bridge cancellation, a failed reconnect and the `x.ai/leader_reconnected` notification: they end a run or add one line to stdout.
- Bridge.StepKeepsInv: the replay in the bridge sends its script one request per step and may stop at any time, which allows every outcome of the replay method; stdout is followed in the replay model only.
- Token estimates are an arbitrary non-negative cost per item.
- Budget.FitWithinBudget: says nothing when only the recovered last turn is kept, because its parts are cut by an estimate of four bytes per token that the cost need not follow.
- The auto-continue prompt, the compaction frame items and the transcript hint are parameters; how they are gathered is not modelled.
- Waits for a stable screen, and the screen text attached to a timeout: the first depends on the choice between a ready timer and a ready bump, and the second re-reads the grid.
- Regular expressions in waits are arbitrary sets of screen texts.
- Ledger.BillIgnoresOrder: holds of non-negative costs; for any costs Ledger.CostOrderIrrelevantIff gives the exact condition on the total.
- Interner.RunRefinesList: needs each string under 65536 bytes; Interner.AnyRunRecovers says what holds of other runs. Both need room in 32 bits for the arena and the number of stored strings, the width of offsets and ids.
- Nudge texts, state files, and the extraction of flags from tool payloads: an event carries the extracted flags.
- Nudge.StreakIsBounded: leaves out explicit streak overrides, which set any value.
- Nudge.StreakCountsFruitless: leaves them out too.
- SegmentCap.CapHoldsIff: the statistics block is any function of the items that takes at most 1000 bytes for blank prompts, where the source's takes about 200; how it is computed, the reading of JSON arguments and the index rows are not modelled.
- CrashBlob.WriteBlob: the buffer is large enough, which the writer demands of its caller; the signal handler itself is not modelled.
- CrashBlob.WriteUndoesParse: needs a well-formed version field, because the parser reads an ill-formed one as the empty version and its bytes are gone.
- The rest of the repository: user interface, telemetry, updates, tools, sampling clients and installation scripts.
