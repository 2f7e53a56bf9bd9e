# Tacklr: a verified model of its stateful core

Tacklr runs agents durably. Its hard code keeps several representations of one thing in agreement: the
context window and what the providers are sent, committed state and the rows it is stored as, live text
and the log, a block tree and the edit script of a document. These Dafny modules model that code and
prove that the representations agree, or say exactly when they do.

| part | modules | what is proved |
|---|---|---|
| Context window | `Messages`, `ContextWindow`, `WindowTrim`, `Window` | every window an operation leaves fits the model, loses nothing that was not archived or stored, and is complete rounds but for one family of replies, given exactly |
| Provider encoders | `OpenAIInput`, `OpenAIContents`, `AnthropicTurns`, `AnthropicContents`, `AnthropicPairs` | what a request holds of any window, message by message; its turns are well shaped; on such windows each call is sent with its own result |
| Rounds and calls | `Plan`, `PlanExact`, `CallState`, `CallWrites`, `RoundCommit`, `RoundInfer`, `HarnessCommit` | concurrent calls commit as a serial run, each reads its own writes, a round is complete, and a Commit keeps the window's invariant |
| Persistence | `SessionRows`, `SessionStore`, `Positions`, `Checkpoint`, `CheckpointRestore`, `HarnessRestore` | diffs refine full snapshots, compare-and-swap serializes the workers, and rows in any order restore the state |
| Streaming | `Streaming`, `ExactlyOnce`, `MergeExact`, `EventLog` | a reader gets each byte once over any loss and interleaving, and exactly when a delta is sent; tails miss nothing |
| Google Docs scripts | `DocsBody`, `DocsReplace`, `DocsBlocks`, `DocsReplaceAll`, `DocsDelete`, `DocsDeleteExact`, `DocsInsert`, `DocsInsertExact`, `DocsInsertText`, `DocsInsertStyles`, `DocsInsertShown`, `DocsSet` | index-based scripts computed up front do what they say when run in order, or exactly when they do |
| Inline markup | `Inline`, `InlineRoundTrip` | parser and printer round trip |
| Knowledge trees | `TreeParts`, `TreeStore`, `TreeExact`, `TreeRuns`, `TreeRewrites`, `TreeRevisions` | over whole runs of the store, exactly when a tree write that keeps rows is the simple rewrite, and when it commits |
| Paging | `Paging` | pages lose and repeat nothing |
| Documents | `LineIndex`, `Structure`, `StructureIds`, `StructureBlocks`, `ReadAhead` | index, block view and read-ahead agree with a simple specification |

`Numerals` and `Sequences` hold facts the others share.

Where the source promises more than it keeps, the model keeps the code's behaviour, and a lemma says exactly
when the promise holds: `CollapsedExactly`, `StoredExactly`, `RestoresExactly`, `KeysInOrderExactly`,
`TurnEndsOnce`, `ChunkExactly`, `NextIsSent`, `FirstReadExactly`, `SetBlocksDeletes`, `InsertedText`, `ShownExactly`, `SetExactly`,
`RoundTripExact`, `IdempotentExact`, `WriteIsRewrite`, `CrossedExactly`, `PutsExactly`, `CommitsExactly`,
`SaysAllCompleted`, `LinesRoundTrip`, `SameIdExactly`, `SameBlockId`. Others give an input where it fails.

Parameters of the model, and what is asked of them: the provider's tokenizer (no token is shorter than a
byte of the encoding, and appending messages adds at most their encoded size), whether a count, an archive,
a summary or a store succeeds, a graph engine's embedding model, index texts and validation, JSON encodings (what is encoded decodes to itself; a user value may fail to
encode), SHA-256 and ids derived from it (no collisions, and no part's id is its parent's or empty), `strings.TrimSpace`, slugs, the order in which
goroutines run and maps iterate, the style the Docs service gives inserted units, and a graph that keeps its
documented cursor contract. The Docs service is modelled by what its requests do to a body of UTF-16 units:
delete, insert, style a range, make a list (which strips the leading tabs of each paragraph), or refuse a
range outside the body.

## Model

| member | source | states |
|---|---|---|
| Window.Window.Fit | window.go:110-141 | After success the request on the window takes at most `size` tokens whether or not the provider can count; the count always bounds the prefix it counted; a whole window stays whole (complete rounds, the count cut at a round boundary) unless its second message becomes a reply that reads as a plan document and has calls; any error leaves messages and count as they were. A round whose bound is below the threshold is appended untouched; past that, the history is archived if and only if what the request takes, counted or bounded, is over the threshold and there is some beyond the protected prefix, one summary of it then stands there, results are cut if and only if the request is then over the size, and the round is refused only when no result has anything left |
| Window.Window.Refit | window.go:150-166 | Collapses what the last counted request carried (or everything) into the protected prefix and the summary the model wrote of it, archives exactly that part, and fails exactly when there is nothing beyond the protected prefix or a host call fails; errors change nothing |
| Window.Window.InstallPlan | window.go:170-178 | Leaves the first message and the plan document, a whole window whatever it was before; fails exactly on an empty plan and then changes nothing |
| Window.Window.HandOff | window.go:184-203 | Archives everything after the first message before the window is replaced by that message, the plan, the handoff the model wrote from the window and, while todos are open, the nudge; a whole window whatever it was before; errors change nothing |
| Window.Window.Add | window.go:97-101 | Appends a round unchanged, and keeps a whole window whole as Fit does |
| Window.Window.Collapse | window.go:213-230 | The messages from the protected prefix to `end` are archived, then one summary, written from all up to `end`, stands in their place, with a note exactly when they can be searched, and the rest loses its reasoning |
| Window.Window.Squeeze | window.go:110-141 | Past the bound: what the request takes is measured; over the threshold, with something to archive, the history is collapsed, and otherwise stays; the round is trimmed exactly when it is over the size then, pass by pass, until it fits or no result has anything left |
| Window.Window.Measure | window.go:252-266 | What it returns is never below the tokens of the request, for a provider that counts, cannot count, or stops being able to |
| Window.Window.Trim | window.go:271-316 | Terminates though its notes can raise the measured size; every pass cuts the first of the largest results to the nearest character boundary at its share of the size; what it returns fits; each cut result's full text was stored exactly once; it gives up only when no result has a byte left to cut |
| Window.Window.Largest | window.go:277-291 | The first of the results with the most content left, or -1 |
| Window.Window.NextCut | window.go:292-311 | The next cut keeps strictly less: what the size leaves of it in proportion, down to a character boundary and to no less; it stores the full text only the first time |
| Window.CollapsedExactly | window.go:213-230 | A collapse of complete rounds at a round boundary leaves complete rounds if and only if the second message is not a reply that reads as a plan document and has calls |
| Window.CollapsedSound | window.go:213-230 | Collapsing a sound window at a round boundary leaves a sound window |
| Window.CollapsedThenRound | window.go:110-141 | A window collapsed to its end takes a round without its reasoning and stays complete |
| Window.FitConserves | window.go:110-141 | Every message of the old window and of the round that is not reasoning is in the new window, whole or cut with its full text stored, or was handed to the archive |
| Window.CollapseKeepsPlan | window.go:213-230 | A collapse keeps the first message and an installed plan in their places, with the summary next; a second message that does not read as a plan is not kept |
| Window.FitKeepsPlan | window.go:110-141 | Whatever a commit of a round does to the window, an installed plan stays its second message |
| Window.RefitConserves | window.go:150-166 | Corollary of what a collapse is: every message a refit takes away, but reasoning, is in the archived batch |
| Window.TrimmedConserves | window.go:271-316 | Every message of a trimmed round is there whole, or as a prefix and a note with its full text stored under its call id |
| Window.CutsAreWellFormed | window.go:300-305 | A cut of well-formed UTF-8 is well-formed (section 3 of RFC 3629) |
| ContextWindow.BoundIsUpper | window.go:243-248 | The bound is at least the tokens of the request, given that no token is shorter than a byte (types.go:76-83) |
| ContextWindow.BoundAdds | window.go:239-248 | The bound of the counted request is its count, or the size of an empty request without one; every message after it, of the window or of the round, adds its encoded size |
| ContextWindow.ProtectedExactly | window.go:371-376 | The protected prefix of complete rounds ends at a round boundary if and only if its second message is not a reply that reads as a plan document and has calls |
| ContextWindow.PlanReplySplitsRound | window.go:371-376 | A first reply that reads as a plan document and calls makes such a window |
| WindowTrim.AlignDown | window.go:303-305 | The greatest character boundary at or below a position |
| WindowTrim.AlignedPrefix | window.go:303-305 | Cutting well-formed UTF-8 at a character boundary leaves it well-formed |
| WindowTrim.ReadsEncoded | window.go:303-305 | The bytes of a code point (section 3 of RFC 3629) are read as one character wherever they stand, and only the first can start one |
| WindowTrim.ReadIsEncoded | window.go:303-305 | Whatever is read as one character is the bytes of a code point |
| WindowTrim.TrimmedFrame | window.go:271-316 | Corollary of what a trim is: it keeps the number of messages, their roles and their call ids |
| WindowTrim.TotalFalls | window.go:271-316 | The sum of the kept lengths falls by exactly what one cut takes: the measure the loop ends by |
| WindowTrim.CutSays | window.go:378-388 | What a cut leaves of a result: its first bytes, how many of how many they are, and where the full text is when something keeps it |
| Messages.ResultsMatchCalls | window.go:103-141 | In a complete window the results answer the calls one for one, in call order |
| Messages.CompleteSuffix | window.go:213-230 | Cutting a complete window at a round boundary leaves a complete rest |
| Messages.ScanWithoutReasoning | window.go:235-237 | Dropping reasoning keeps rounds complete |
| Messages.WithoutReasoningAt | window.go:235-237 | What is left without reasoning is every other message once, in order |
| OpenAIInput.TakeToolOutput | openai/openai.go:709-731 | The first result that no call took with the call's wire id, or else with its item key |
| OpenAIInput.MarshalMessages | openai/openai.go:681-844 | The items of the request, as the loop appends them with the pairing and stamping state; InputHolds says what they are |
| OpenAIContents.InputHolds | openai/openai.go:681-844 | For every window, complete or not: the prompt when there is one, then each message's own item and each call with its wire id, qualified name, arguments and status, its output right after it from the first result for its wire id that no call took, or else for its item key; results that no call takes are dropped; the last output is stamped, and nothing else but the prompt and a plan, when stamps are asked for |
| OpenAIInput.CompleteWindowPairs | openai/openai.go:709-761 | On a complete window with wire ids, searching for a call's result gives what pairing by position gives |
| OpenAIInput.CompleteWindowInput | openai/openai.go:681-844 | On such a window every call has its own result right after it, and the outputs are the window's results, each once, in order |
| AnthropicTurns.Turns | anthropic/wire.go:152-212 | The turns of a window, as the loop builds them with its open turn, calls and results; TurnsHold and ResultsKept say what they hold |
| AnthropicTurns.Encoder.Append | anthropic/wire.go:156-165 | A block joins the last turn of its role, or opens a new one |
| AnthropicTurns.Encoder.Insert | anthropic/wire.go:166-178 | A result goes after the results and before the other blocks of its user turn |
| AnthropicTurns.TurnsShaped | anthropic/wire.go:152-212 | For every window, valid or not: roles alternate, no turn is empty, results come first in a user turn, and each names a call of the turn right before it |
| AnthropicContents.TurnsHold | anthropic/wire.go:152-262 | For every window: the blocks of the turns that are no results are, message by message and in order, and in turns of the right role, a user's media and then its trimmed text, a reply's content and then each call with its wire id, qualified name and input, a developer's or the system's text in a reminder, cached exactly for a plan document, and thinking blocks as they came; nothing else is sent |
| AnthropicContents.ResultsKept | anthropic/wire.go:152-212 | For every window: the results in the turns are, in order and with their contents, those of the tool messages whose call is in the last turn before them, or in the one before that when the last one opens with results |
| AnthropicPairs.CompleteWindowTurns | anthropic/wire.go:152-212 | On a window of complete rounds no result is dropped, and each turn answers exactly the calls of the turn before it, in call order |
| RoundCommit.Infer | durable_steps.go:74-143 | The reply and the events of a chunk stream, up to a failed chunk; InferExactly and EventsExactly say what they are |
| RoundInfer.InferExactly | durable_steps.go:74-143 | There is no reply if and only if a chunk failed; its messages are those of the completed texts and of the chunks with calls, in order, each text all that streamed of it or its own; its calls are all the calls and its count the last one reported |
| RoundInfer.EventsExactly | agent.go:332-352 | The events are those of the chunks, in order, up to the first that failed: a piece's with the length of what streamed of its message before, a completed text's with all of it |
| RoundCommit.InferredFromModel | durable_steps.go:74-143 | A reply's messages carry exactly the reply's calls, in order |
| RoundCommit.NewRound | drive.go:45-51 | One call that has not run for each call of the reply, in order |
| RoundCommit.FinishCall | durable_steps.go:178-181 | A finished call has a result under its own wire id and keeps its writes |
| RoundCommit.CommitReplyRound | durable_steps.go:49-69 | The committed state becomes the calls' writes applied one call after another; the round is the reply and, call by call, the result of a call that is done and a cancelled one for any other; a lost body stops it after the calls before |
| RoundCommit.RoundIsComplete | durable_steps.go:49-69 | Every round a commit appends is complete, cancelled calls included |
| RoundCommit.LastWriteWins | session_manager.go:49-70 | After a commit a key holds the last write of it in call order, or what it held when no call wrote it |
| CallWrites.CommitsExactly | session_manager.go:49-70 | After a round every state key, permission and rest holds what the round's last write of it in call order put there, a delete leaving none, or what it held; the plan is the calls' changes in call order |
| CallWrites.SeesExactly | call.go:74-234 | What a running call sees is the same of its own writes over the committed state |
| CallWrites.Decides | session_permissions.go:31-43 | The answer for a tool is what the user decided, else always for a granted tool, else none |
| RoundCommit.SerialBoard | durable_steps.go:49-69 | The committed plan is all the calls' plan changes replayed in call order |
| RoundCommit.CommitKeepsCompleted | durable_steps.go:49-69 | No commit takes a completed todo away |
| RoundCommit.StrongestEffect | durable_steps.go:51-60 | Installing a plan wins over a handoff, whichever call asks |
| HarnessCommit.Harness.Commit | durable_steps.go:26-45 | Whatever a Commit returns, the count bounds what it counted, the committed state is the host values and then the calls' writes in call order, and a whole window stays whole unless the reply becomes its second message, reads as a plan document and has calls; after success a user message, or a round without an effect, leaves a window that fits, and unless a plan was installed every message, each done call's own result and each cancelled one among them, is in the window, whole or cut with its full text stored, or was archived |
| HarnessCommit.Harness.CommitReply | durable_steps.go:49-69 | The writes are applied before the messages go in, so a failed Commit leaves them applied; a lost body leaves the window as it was; after success without a plan installed, the reply and every call's result are in the window, whole or cut with the full text stored, or archived |
| HarnessCommit.Harness.CommitRound | agent.go:58-67 | A round without an effect is fitted or changes nothing; with one it goes in as it is, and the window is then the first message and the plan, or the first message, the plan, the handoff and the nudge, or keeps the round when the effect fails |
| HarnessCommit.Harness.CountOpen | model_tasks.go:102-110 | Some todo is open exactly when not all are completed |
| HarnessCommit.ReplyRound | durable_steps.go:49-69 | A reply and its calls' results are complete rounds, and can follow a sound window if and only if the reply does not become its second message, read as a plan document and have calls |
| CallState.SessionManager.Apply | session_manager.go:49-70 | A call's state, permission, rest and plan writes applied in order, and nothing else changed |
| CallState.SessionManager.SetState | session_manager.go:42-46 | Host values over the committed ones |
| CallState.CallContext.constructor | call.go:46-55 | A run after a park reads what the call's earlier runs wrote |
| CallState.CallContext.StateGet | call.go:74-82 | Reads the committed value with the call's own writes applied |
| CallState.CallContext.StateSet | call.go:85-95 | What the call sees is the committed state with its writes applied, the value under the key, if and only if the value is what its encoding decodes to; a value that does not encode writes nothing |
| CallState.CallContext.StateDelete | call.go:98-103 | What the call then sees has no value under the key |
| CallState.CallContext.Decision | call.go:173-183 | The decision the committed state would give with the call's own answers applied, a user's over a grant |
| CallState.CallContext.RememberAnswer | call.go:187-200 | Only an always-answer is remembered |
| CallState.CallContext.Rest | call.go:204-214 | The rest the committed state would give with the call's own applied |
| CallState.CallContext.SetRest | call.go:216-220 | What the call then sees holds the rest |
| CallState.CallContext.SeePlan | call.go:224-234 | The committed plan with the call's own changes replayed |
| CallState.CallContext.ChangePlan | call.go:238-248 | The change's outcome on the plan the call sees; one that fails writes nothing |
| CallState.OwnOverCommitted | call.go:74-82 | The call's own values over the committed ones are the committed ones with its writes applied |
| Plan.CreateChange | builtins.go:194-214 | The created plan: refused while todos exist; the first open todo starts, the others wait; without todos there is a document and no plan |
| Plan.FinishChange | builtins.go:216-242 | Completing a todo: refused without plan, title or when completed; the next open todo below starts |
| Plan.ReviseChange | builtins.go:244-276 | Editing a plan: insertions at their orders, then deletions by title, each refusal as the source orders them |
| PlanExact.CreateExactly | builtins.go:194-214 | Todo by todo: refused while there are todos; the first open one starts, later open ones without a status wait, and the rest stay |
| PlanExact.FinishExactly | builtins.go:216-242 | The first todo of the title is completed and the first open one below it starts, with a handoff; without one everything else stays; refused without a plan, without the title, or when it is completed |
| PlanExact.ReviseExactly | builtins.go:244-276 | Each addition is put at its order of the list that those before it left, and then each title's first todo is dropped; the first order out of bounds, missing title or completed todo refuses the edit; a new document replaces the old and hands off |
| Plan.PlanStore.Apply | builtins.go:183-192 | A change that fails leaves the plan and its update flag as they were |
| Plan.PlanStore.ConsumeUpdated | session_plan.go:61-70 | The todos once for each change since the last time |
| Plan.ReplayKeepsCompleted | builtins.go:159-276 | After any plan operation the completed todos are a subsequence of the completed todos after it |
| Plan.CompletedStay | builtins.go:159-276 | The same over any run of plan operations |
| Plan.SaysAllCompleted | builtins.go:227-240 | complete_todo says that all todos are completed truly if and only if no todo above the one it completes is open |
| Plan.SaysAllCompletedEarly | builtins.go:227-240 | With an open todo above it says so with one open |
| SessionRows.DigestOf | session/checkpoint.go:38-44 | The digest of a row is that of its last entry |
| SessionRows.Diff | session/checkpoint.go:49-67 | Puts of new or changed rows in next's order, then deletes of the rows next lacks, in row order, each once |
| SessionRows.DiffApplies | session/checkpoint.go:46-67 | Applied to the rows the digest was taken of, the diff gives exactly next's rows, repeated rows included |
| SessionRows.DiffIsMinimal | session/checkpoint.go:46-67 | The diff has one change for each row that differs and no other |
| SessionStore.MemoryStore.Save | session/snapshot.go:35-64 | Compare-and-swap: another revision, or no session id, changes nothing; else the changed rows under the next generation |
| SessionStore.MemoryStore.Load | session/snapshot.go:67-79 | The stored rows, each once, in some order, with their revision |
| SessionStore.MemoryStore.Revision | session/snapshot.go:82-90 | The stored revision, or none |
| SessionStore.LastCommitStored | session/snapshot.go:33-79 | Over every interleaving of workers that load, diff and save, without deletes, the stored rows are those of the last successful commit |
| SessionStore.CommitsFromLatest | session/internal/snapshot.go:68-99 | Corollary of the invariant of LastCommitStored: a commit that is saved was made from the rows stored then; another changes nothing |
| SessionRows.DiffAppliesTo | session/snapshot.go:35-64 | Applied to other rows than its digest was taken of, a diff gives next's rows if and only if the two agree on every row it does not write |
| SessionStore.StoredExactly | session/snapshot.go:35-131 | Over every run, deletes included, the stored rows are all along those of the last successful commit if and only if every save the store takes finds, outside what it writes, the rows it was made of |
| SessionStore.DeletedRevisionReturns | session/snapshot.go:125-131 | A run with a delete where one does not: the stored rows are no commit's |
| Positions.PositionOrder | checkpoint.go:45-45 | Below one hundred million, keys sort exactly as their numbers |
| Positions.KeysInOrderExactly | checkpoint.go:43-45 | The keys of n rows sort as their positions if and only if there are at most one hundred million |
| Checkpoint.Checkpoint | checkpoint.go:52-85 | The rows of the committed state, section by section; it fails exactly when a user value does not encode |
| Checkpoint.SortedMap | checkpoint.go:88-96 | A map's rows, each key once, in key order |
| Checkpoint.WindowRows | window.go:320-333 | One row for each message under its position, and the count when there is one |
| CheckpointRestore.Harness.RestoreCheckpoint | checkpoint.go:99-159 | Replaces the state with the rows', or changes nothing |
| CheckpointRestore.RestoreWindow | window.go:336-357 | The messages and the count of the rows; fails on a value that does not decode or a message that is not valid |
| CheckpointRestore.RestoreOfCheckpoint | checkpoint.go:52-159 | The rows of a checkpoint, in any order, restore the state they were taken of, but for an emptied plan; they fail exactly when a message is not valid |
| CheckpointRestore.RestoresExactly | checkpoint.go:64-66 | The state comes back unchanged if and only if exactly its tool messages have a call id, its plan is not an emptied one, and its count is of some tokens or none |
| CheckpointRestore.LoadRestores | session/snapshot.go:67-79 | The rows a store gives back after a commit restore the committed state |
| HarnessRestore.Install | checkpoint.go:99-159 | Installing restored state sets window, count, values, decisions, rests and plan, and leaves what the state says, whose checkpoint it would be again |
| HarnessRestore.CommittedRestores | checkpoint.go:52-159 | The window and the committed state that a Commit leaves come back from their checkpoint's rows in any order as they were, the count a bound of the same prefix, if and only if the messages are valid and the plan is not an emptied one |
| Streaming.AssembledText | model_tasks.go:42-51 | After any stream of chunks the assembler has, of every message, its pieces joined |
| Streaming.ChunkEvents | agent.go:332-352 | A piece's event is the message's text from the event's offset on; the event of a message's end has all the text that streamed, or its own when nothing did |
| Streaming.Live.Publish | session/live.go:28-37 | Each reader of the session with room gets the event, another misses it, and no other session changes |
| ExactlyOnce.OffsetSent | session/live.go:116-140 | A delta that Merge sends starts where the reader's text of its message ends |
| ExactlyOnce.FirstSent | session/live.go:116-140 | And it comes before its message's complete event |
| ExactlyOnce.OnceMeans | server/protocol.go:80-92 | What streamed before a complete event, and its content from `streamed` on, are its content, and no delta follows |
| ExactlyOnce.StepKeeps | session/live.go:61-140 | What every step of writer, loss, merge and follow keeps, message by message |
| ExactlyOnce.ReadOnce | session/live.go:61-140 | In every run a reader's deltas of a message join to a prefix of its full text, none follows the complete event, which comes at most once, and the prefix and Content[Streamed:] are the full text |
| ExactlyOnce.ReadAll | session/live.go:61-140 | The reader's loop over what is live and then logged, with Merge and the follow as objects that keep their state, sends exactly what the run of ReadOnce sends |
| MergeExact.TakenExactly | session/live.go:61-140 | In every run, with any loss and interleaving: the next live delta is sent if and only if it starts where the text of its message ends that the reader got this turn, and no complete event of it came this turn; every event of the log is sent |
| MergeExact.NextIsSent | session/live.go:116-140 | Of a message whose complete event did not come, a live delta that starts where the reader's text ends is sent if and only if no turn ended since the text began |
| MergeExact.ReadsAll | session/live.go:61-140 | In every run without loss, until a message's complete event comes and unless a turn ended after its first delta, the deltas the reader got and those on their way join to all that was written of it |
| MergeExact.EndCuts | session/live.go:116-121 | A run in which a turn ends before all pieces are taken: a piece that was heard and comes next is never sent |
| ExactlyOnce.TurnEndsOnce | session/live.go:116-121 | When a turn's end is taken, what is live reaches the reader without a repeat if and only if no first delta of a message it has whole is among it |
| ExactlyOnce.ChunkExactly | agent.go:332-352 | A text chunk keeps its message at one logged complete event, of its whole text, if and only if it is a piece or an end of a message not completed yet, or all of a completed text of which nothing streamed; an empty one that completes nothing, and a second end, never do |
| ExactlyOnce.ImproperRepeats | agent.go:337-342 | In every state, an empty chunk that completes nothing, or a second end, gives the reader a message twice once it is complete and the log is taken |
| EventLog.SessionLog.Append | session/eventlog.go:49-57 | The k-th append is event k |
| EventLog.SessionLog.Head | session/eventlog.go:99-109 | The number of the last event, trimmed or not |
| EventLog.SessionLog.Trim | session/eventlog.go:112-126 | Drops events up to a number; the head and the numbers of the others stay |
| EventLog.SessionLog.Read | session/eventlog.go:68-77 | The entries a tail has not read, the head, and the change to wait for |
| EventLog.TailsMissNothing | session/eventlog.go:62-96 | Over every interleaving of appends, trims and tails, for every tail whose first read finds the log at its start or beyond: what it sends rises from above `after`, skips only retry entries and events trimmed before it read them, and when it waits for a change that has not come it has nothing unread |
| EventLog.FirstReadExactly | session/eventlog.go:62-77 | For every tail about to read first: the run can go on until it sends an event it was to skip if and only if the log has not reached `after` |
| DocsBody.DocsIndexLen | vfs/rich.go:578-588 | The number of UTF-16 units (section 2.1 of RFC 2781) |
| DocsBody.Utf16Injective | vfs/rich.go:578-588 | The units determine the text |
| DocsBody.CharDecodes | vfs/rich.go:578-588 | A code point's units are those of section 2.1 of RFC 2781: one below the basic plane's end, else a high and a low surrogate that give it back |
| DocsBody.ShowsUnits | vfs/docs_map.go:39-52 | What it is to show runs, unit by unit: each unit of a run's text in its place, and, when the run has a mark, with each of its four marks that is on and no other |
| DocsReplace.MapInlineStyles | vfs/docs_map.go:54-65 | One style request for each run of text with marks, on its units |
| DocsReplace.StylesKeepText | vfs/docs_map.go:54-65 | Running them gives every marked run exactly its marks and changes no text and no other unit |
| DocsReplace.ScriptEdits | vfs/docs_map.go:93-116 | One edit's requests put units that show its runs in place of its range, and touch nothing else |
| DocsReplace.BackwardEdits | vfs/docs_map.go:161-188 | Scripts of ascending edits run from the end of the body make every edit and nothing else |
| DocsBlocks.MapReplaceBlock | vfs/docs_map.go:93-116 | The script of the edits a block calls for at its location, or its error |
| DocsBlocks.MapReplaceTable | vfs/docs_map.go:118-159 | The script of the edits that give each cell the text of its own row and column, the last cell first, or the error for a shape that does not fit |
| DocsReplaceAll.MapReplaceBlocks | vfs/docs_map.go:161-188 | The scripts of all locations, the last of the body first; there is one if and only if every location but an image's gets a last written block that can be written there |
| DocsReplaceAll.TabScript | vfs/docs_map.go:161-188 | On each tab the whole script does what that tab's edits do |
| DocsReplaceAll.ReplaceBlocks | vfs/docs_map.go:161-188 | When the locations of a tab, and the cells of a table, do not overlap: the edits are exactly those that the last written block of each location's id calls for, its runs or parsed text in a text location and the parsed text of its own row and column in each cell; each range without its terminator then holds exactly that under its marks, every other unit is untouched, and no request is refused |
| DocsDelete.MapSetBlocksDeletes | vfs/docs_map.go:192-249 | The delete script: spans of the tab by falling start, without kept images, the first section break and the last text's terminator |
| DocsDeleteExact.DeletesExactly | vfs/docs_map.go:192-249 | A range is listed if and only if it is that of a structural span of the tab or of a location whose image is not kept, but not of the first section break, without the terminator when it is that of the last text, and not empty |
| DocsDelete.DeletedUnits | vfs/docs_map.go:192-249 | The listed ranges hold exactly the units of the listed spans, but for the first section break and the last text's terminator |
| DocsDelete.SetBlocksDeletes | vfs/docs_map.go:192-249 | The script deletes exactly what it lists if and only if no two of the listed spans share a unit that goes, in whatever order they are listed; otherwise more units go |
| DocsDelete.SetBlocksApart | vfs/docs_map.go:192-249 | For spans that do not overlap, the body keeps exactly the units no span takes |
| DocsDelete.NestedImage | vfs/docs_api.go:567-568 | A paragraph, an image in it and the last paragraph, listed side by side, make the script take the terminator that must stay |
| DocsInsert.MapInsertBlocks | vfs/docs_map.go:299-369 | The insert script of table-free blocks and the index after it, or the error of an image the document does not have |
| DocsInsertExact.InsertExactly | vfs/docs_map.go:299-379 | There is no script if and only if the document lacks an image; else the first batch is, block by block, the payload with an item's nesting tabs, on its units the paragraph style of its heading level or the normal one, and after the items of each list bullets of its first item's type on all of them; what follows a list comes as much earlier as the tabs that bullets strip |
| DocsInsertText.OneText | vfs/docs_map.go:78-85 | One block's text requests put its payload at the index and change nothing else, or are refused exactly when the index is past the end |
| DocsInsert.SplitTextStyles | vfs/docs_map.go:67-76 | The two batches of a script, each in order |
| DocsInsertText.StripLine | vfs/docs_map.go:356-359 | Bullets leave a line's text as it is exactly when it does not start with a tab, and shorten it otherwise |
| DocsInsertText.InsertedText | vfs/docs_map.go:299-369 | The first batch leaves a body that has every block's text and a newline in order at the index and all its own units, if and only if no line of an item starts with a tab; when one does, units are missing; the returned index counts the whole text |
| DocsInsertText.TabLedItem | vfs/docs_map.go:343-359 | An item whose text starts with a tab loses it, and the returned index is one too high |
| DocsInsertStyles.StylesRight | vfs/docs_map.go:343-357 | The text styles are requested on the right units if and only if no styled item comes below a nested one of its list |
| DocsInsertShown.ShownExactly | vfs/docs_map.go:299-369 | On clean blocks the script shows every block under its marks, in every body and whatever style the service gives inserted units, if and only if no styled item comes below a nested one of its list |
| DocsInsertShown.MissedUnit | vfs/docs_map.go:343-357 | Of styles that are not the right ones, none covers the first unit of the first that is not |
| DocsInsertStyles.InsertedStyled | vfs/docs_map.go:299-369 | Then both batches leave every block's text under its marks, and every unit of the body |
| DocsSet.SetExactly | vfs/gdrive_write.go:567-690 | On clean blocks, the delete script and the insert script after it leave every unit that no listed span takes, and at the index every block under its marks, in every body and whatever style inserted units get, if and only if no two listed spans share a unit that goes and no styled item comes below a nested one of its list |
| Inline.ParseInline | vfs/inline.go:24-29 | The runs of a text, by the scan of parseInline and the merge after it |
| Inline.ParseRuns | vfs/inline.go:118-179 | The scan, with its builder and nested spans, computes the recursive parse |
| Inline.ParseLink | vfs/inline.go:182-209 | A link at a bracket: balanced label, target up to the first closing parenthesis |
| Inline.IndexClose | vfs/inline.go:211-222 | The first delimiter that no backslash escapes, or -1 |
| Inline.MergeRuns | vfs/inline.go:257-273 | Neighbours the source's test of marks takes as equal become one run, and empty runs go |
| Inline.EscapeInline | vfs/inline.go:241-255 | The escaped text, character by character |
| Inline.FormatInline | vfs/inline.go:32-46 | The printed runs, one after another |
| Inline.EscapesLast | vfs/inline.go:241-255 | A text is printed character by character, with a backslash before exactly the six characters that could open or close something; a target with one before closing parentheses |
| Inline.PrintsAs | vfs/inline.go:224-239 | A run is printed italic inside bold inside struck inside its link, each when its mark is on |
| InlineRoundTrip.RoundTrip | vfs/inline.go:23-51 | Parsing what was printed gives the runs back, merged, under the marks the printer writes, when no target holds a closing parenthesis |
| InlineRoundTrip.RoundTripCanonical | vfs/inline.go:23-51 | On marks of the four kinds that is merging alone |
| InlineRoundTrip.RoundTripExact | vfs/inline.go:224-239 | For runs with text the round trip holds if and only if no target holds a closing parenthesis |
| InlineRoundTrip.PlainRoundTrip | vfs/inline.go:49-51 | PlainInline of a printed list is the concatenation of its texts |
| InlineRoundTrip.MergePlain | vfs/inline.go:257-273 | Merging never changes the text |
| InlineRoundTrip.MergeFlat | vfs/inline.go:257-273 | Merging keeps every character under its marks, and leaves no two neighbours with the same marks, when no mark value is empty |
| InlineRoundTrip.NormalUnique | vfs/inline.go:257-273 | A merged list is determined by what it says |
| InlineRoundTrip.ParsedLinkable | vfs/inline.go:118-209 | Every parsed list has texts that are not empty and targets without a closing parenthesis |
| InlineRoundTrip.IdempotentExact | vfs/inline.go:23-51 | Printing after parsing is idempotent on a text if and only if no two neighbouring runs of its parse come to have the same marks, and some |
| InlineRoundTrip.IdempotentWithTargets | vfs/inline.go:23-51 | It is on every text whose parse has no empty link target |
| InlineRoundTrip.IdempotentFails | vfs/inline.go:150-156 | With an empty target it is not |
| InlineRoundTrip.EmptyTargetSwallows | vfs/inline.go:302-312 | The test of marks makes an empty target swallow the next run's emphasis |
| InlineRoundTrip.ParseWrapped | vfs/inline.go:118-179 | A delimited span parses to its inner text under the mark, wherever it stands |
| InlineRoundTrip.ParseStarred | vfs/inline.go:118-179 | A single star reads as italic |
| InlineRoundTrip.ParseLinked | vfs/inline.go:182-209 | A printed link parses to its label under its target |
| TreeParts.FrameInjective | brain/tree.go:122-129 | The length-prefixed bytes a digest is of determine the strings |
| TreeParts.PrepareParts | brain/tree.go:43-64 | Each part with its defaults and the id of its content, or an error for the first part that is refused |
| TreeParts.IdsNeverRepeat | brain/tree.go:131-135 | Part ids never repeat, whatever texts do |
| TreeParts.EmbedBatches | brain/embed.go:93-148 | The parts in order, reused or new, in batches that are full but for the last |
| TreeExact.PreparesExactly | brain/tree.go:86-120 | A part is refused with an id, deleted, in another namespace, or when it is not valid as it would be stored; field by field, what the caller left open comes from the parent and the part's place |
| TreeExact.StagesExactly | brain/embed.go:93-148 | A kept part goes to the store as its id, place and properties; a new one goes whole, with the model exactly when it has a text |
| TreeStore.MemoryStore.ReadTree | brain/memory.go:98-116 | The tree's revision, and its live parts of the same embedding model that the scope reads |
| TreeStore.MemoryStore.CommitTree | brain/memory.go:131-169 | All of the tree or an error that changes nothing, with the errors in the source's order; the revision goes up by one |
| TreeExact.CommitErrorExactly | brain/memory.go:131-188 | A write is refused for the first reason of the source's order: an invalid or invisible parent, another revision, or the first part outside the scope, with an id twice, or to keep a row that is no part of the tree |
| TreeExact.CommitExactly | brain/memory.go:150-169 | Row by row: a kept part has what its row held, live, in its new place; a new one its own row; both the parent's namespace and readers; the tree's other parts are gone and no other row changes |
| TreeExact.ReusableExactly | brain/memory.go:107-116 | The parts that may stay are the live ones of the tree and the model that the scope sees |
| TreeStore.MemoryStore.SoftDelete | brain/memory.go:207-226 | Marks the object and its parts deleted, or changes nothing |
| TreeStore.MemoryStore.PurgeDeleted | brain/memory.go:229-244 | Removes exactly the covered rows that were deleted before the cutoff, with the revisions of the trees among them, and counts them |
| TreeStore.MemoryStore.Erase | brain/memory.go:247-269 | Removes exactly the rows the scope reads, with the revisions of the trees among them, and returns the first-class ones |
| TreeExact.DeleteExactly | brain/memory.go:207-226 | A soft delete marks the object and its parts and changes nothing else of any row, or is refused |
| TreeExact.RemovalsExactly | brain/memory.go:229-269 | What a purge and an erase remove, row by row |
| TreeStore.WriteIsRewrite | brain/memory.go:98-169 | In whatever order batches finish, the rows are those of deleting every part and inserting all fresh, if and only if each kept row has its part's content |
| TreeRewrites.CrossedExactly | brain/memory.go:98-169 | In every run, where rows are under ids of no other content when it reads, a tree write that commits is the simple rewrite if and only if each row it keeps that a put wrote since it read has its part's content |
| TreeRewrites.PutOverKept | brain/memory.go:68-79 | A put of other content over a row that a write keeps, after the write read, lets it commit and not be the rewrite, whatever model the put's row has |
| TreeRewrites.CommitOwn | brain/tree.go:120-135 | A tree write that crosses no put leaves rows under ids of no other content |
| TreeRewrites.CommitsRewrite | brain/memory.go:98-244 | In every run whose commits cross no put, and whose puts of parts so far are under ids of no other content, each tree write that commits is the simple rewrite, through soft deletes, purges, erases and writes of other trees |
| TreeRewrites.PutsExactly | brain/write.go:30-46 | In a run whose commits cross no put, every tree write, now or however the run goes on without puts, is the simple rewrite if and only if no put the store took is of a part, with the model the store embeds with, under an id that the engine gives to a part of other content of the same parent and tenant |
| TreeRewrites.PutUnderPartId | brain/memory.go:68-79 | A part written, other content put under its id, and the tree written again: the second write keeps the put's content |
| TreeRevisions.CommitsExactly | brain/memory.go:120-169 | A tree write that its checks allow commits if and only if as many writes of its tree had committed, since the tree's row was last removed, when it read as when it commits; where the row stays, if and only if none committed in between |
| TreeRevisions.OneCommitPerRevision | brain/memory.go:135-137 | Two writes of a tree that commit read one revision if and only if those counts are equal; where the row stays, the later one read a higher revision, so at most one commits of those that read one |
| TreeRevisions.ReopensAfterRemoval | brain/memory.go:229-269 | While a tree's revision is not above the one a write read, as after a purge, the run can go on without removing the row until a write that read then commits |
| TreeRevisions.ReopensOnlyAfterRemoval | brain/memory.go:229-269 | And only then |
| TreeRevisions.PurgeRepeatsRevision | brain/memory.go:229-244 | A run: a tree is written, deleted and purged, and a second write that read before the first commits |
| Paging.ReadPage | brain/results.go:160-207 | At most `limit` results from the front, the rest holds exactly the others, a page that is not full is the last, and the loop ends across walk continuations |
| Paging.Read | brain/results.go:211-253 | The results of references whose rows the scope reads and, for graph hits, that pass the filter, in order |
| Paging.HitsExactly | brain/results.go:211-253 | The results are those of the references that resolve, at rising positions, each with its own rows and relation |
| Paging.Related | brain/related.go:45-89 | The first page of what contains the object or is in it, when asked for, and then of the whole walk |
| Paging.Containment | brain/related.go:120-143 | A record's parts that pass the filter, in order; or a part's record and then its siblings |
| Paging.PartsExactly | brain/related.go:120-143 | The references of parts are those of the parts that pass the filter but for one, at rising positions |
| Paging.NearbyExactly | brain/related.go:134-141 | The parts around a place: from the radius before it to the radius after it, as far as there are any |
| Paging.SiblingsNearby | brain/related.go:134-141 | The siblings are exactly the other parts at most the radius away that pass the filter |
| Paging.PagingIsLossless | brain/results.go:149-207 | For any limits, the pages joined are a prefix of all results, and all of them once there is no more |
| Paging.PagingEnds | brain/results.go:160-207 | After more pages than there are results, none has more |
| LineIndex.LineStartsOf | vfs/rich.go:389-401 | Where each line starts; an empty text has none |
| LineIndex.LineAt | vfs/document.go:268-274 | The line of an index |
| LineIndex.SpliceLines | vfs/document.go:301-351 | The newline-join of the lines with a range replaced, or the error of a range or a line |
| LineIndex.TextBody.ReplaceLines | vfs/document.go:293-299 | The same on a document, whose index stays right; an error leaves the text |
| LineIndex.TextBody.Lines | vfs/document.go:235-250 | The lines of a range, or an error |
| LineIndex.EditIsListEdit | vfs/document.go:301-351 | An edit of a document is the edit of its list of lines, unless one empty line is left |
| LineIndex.ReplaceByItself | vfs/document.go:235-250 | Replacing lines by themselves changes nothing |
| LineIndex.LinesRoundTrip | vfs/rich.go:389-401 | Reading joined lines gives them back if and only if they are not a single empty line |
| ReadAhead.RemoteFile.ReadAt | vfs/ranged.go:53-73 | Exactly the object's bytes at the offset, EOF exactly when the request passes the end, and at most one range request, whatever failed before |
| ReadAhead.RemoteFile.Fill | vfs/ranged.go:77-91 | The window is a slice of the object that holds what was asked or reaches the end; a failed request leaves it empty |
| Structure.AtxHeading | vfs/structure.go:140-170 | The level and title of an ATX heading, closing hashes dropped |
| Structure.FindHeads | vfs/structure.go:39-63 | The headings outside fenced code, on rising lines |
| Structure.BlocksFromMarkdown | vfs/structure.go:23-138 | The preamble and the headings with their spans and ids |
| StructureBlocks.MarkdownBlocks | vfs/structure.go:23-138 | For every text, told from its lines: a block for each heading that is in no fence, in line order, which ends at the next of its level or above or after the last line, with its parent's id and a slash before its slug and its number from the second time on; and a preamble exactly when the first line is no heading |
| StructureBlocks.HeadingIs | vfs/structure.go:140-170 | A line is a heading of a level and title if and only if it has at most three spaces, that many hashes, one to six, then a blank or its end; the title is the trimmed rest, without closing hashes after a blank |
| StructureBlocks.HeadsAre | vfs/structure.go:39-63 | The headings are those of the lines that no fence of three backticks or tildes is open at, and that open none |
| Structure.SpansNest | vfs/structure.go:117-124 | Two headings' spans are disjoint or nested |
| Structure.ParentIsInnermost | vfs/structure.go:97-116 | A heading's parent is the innermost heading whose span contains it |
| Structure.RootsPartition | vfs/structure.go:65-84 | Every line is in the preamble or in exactly one root heading's span |
| StructureIds.MarkdownSpans | vfs/structure.go:23-138 | All three, for every text |
| StructureIds.ChildIdExtends | vfs/structure.go:101-116 | A heading's id starts with its parent's id and a slash |
| StructureIds.SameIdExactly | vfs/structure.go:105-114 | Two headings have one id if and only if the number put on one makes the base of the other, used there for the first time |
| StructureIds.SameBlockId | vfs/structure.go:65-114 | Over all blocks, the preamble's among them: two have one id exactly then, or when one is the preamble's and the other a root heading named preamble that is the first of its name |
| StructureIds.RepeatedId | vfs/structure.go:105-114 | Headings "A", "A" and "A 2" give one id twice |

## Left out

- Window.Window.Measure: integers are unbounded, so the 64-bit product of a result's length and the window's size does not overflow, and the threshold is 85 percent in integers, not the float product.
- OpenAIInput.MarshalMessages: a nil message, which the encoder skips, cannot be in a modelled window; the content of user parts and of reasoning items is taken as encoded.
- AnthropicTurns.Turns: nil messages are left out likewise; media parts, thinking blocks and tool inputs are taken as the blocks a client makes of them.
- RoundCommit.CommitReplyRound: a body that says done but has no result, which no run of a call makes, is outside its requires; the plan updates it streams are not modelled, only that the flag is consumed.
- RoundCommit.Infer: calls of a completed chunk on reasoning text are possible in the type but put by no provider; the lemma on replies asks that there are none.
- CallState.CallContext.SeePlan: a plan change is a function of values; the source's edit changes the slice it is given in place, so a view that replays an edit which fails half way can show it half applied. Two goroutines of one call that change the plan at once are not modelled.
- CheckpointRestore.RestoreWindow: a count row decoded over an earlier one replaces it whole; a checkpoint has one.
- Checkpoint.Checkpoint: user values are those that JSON gives back unchanged; a number that comes back as another type is not modelled.
- SessionStore.MemoryStore.Save: revisions are generations, not their decimal text, and do not wrap at 64 bits; calls' bodies (PutCall, Calls, ClearCalls) are not modelled.
- ExactlyOnce.ReadOnce: a message is written by one stream, so a model request that is run again uses new message ids; a chunk that ends a turn is not sent on, as the emitters drop it; tool progress updates share the live channel and are not modelled.
- HarnessCommit.Harness.Commit: its requires say what a reply and a user message are; the MIME types a model takes are a parameter, and the handoff's text is the host's.
- EventLog.TailsMissNothing: closing a session ends its tails; runs with a close are not modelled.
- DocsBlocks.MapReplaceTable: parsing a table's text is a field of the block; the sort is an insertion sort, where the library's may order equal starts otherwise.
- DocsInsert.MapInsertBlocks: tables, whose script continues after the document is read again, are not modelled; paragraph styles and list presets are requests without an effect on units.
- DocsDelete.NestedImage: the reading of a document into spans is not modelled.
- DocsSet.SetExactly: the index of the insert script, which the source reads from the document after the deletes, is any index of the kept body; no other revision of the document comes between the batches.
- TreeStore.MemoryStore.CommitTree: times and embeddings of rows are not modelled, only the embedding's model; which rows were deleted before a purge's cutoff is a parameter. Session messages, which an erase also removes, are not modelled.
- TreeParts.EmbedBatches: batches finish in any order, which the lemmas quantify over; slots and cancellation are not modelled, and a failed batch fails the write before the store changes.
- Paging.ReadPage: scores, evidence, facets, counts and truncation are not modelled, nor a store or graph that fails.
- ReadAhead.RemoteFile.ReadAt: the object does not change while it is read; the streaming Read beside it is not modelled.
- Structure.BlocksFromMarkdown: slugs and trimming are parameters.
- Shell jail, git, object stores, Drive, Graph, MCP and model clients, WebSocket transport: I/O over services.
- Telemetry, prompts, tool schemas, titles, kind validation, MIME tables, error texts: no state worth an invariant.
- Embedding, lexical and trigram scores, ranking, HTML decoding: heuristics, or work of another library.
- The session orchestrator and its workers' step order, parks and jobs of calls: not needed by the properties here.
