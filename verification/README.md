# Session fold, turn protocol and transport: a verified model

This project models how TrueForge turns a session's event log into a chat and how its server runs
turns, and proves what that code relies on. It has four parts.

**The client's event fold.** Events of a session are folded into one bucket per thread (`Deltas`,
`Events`, `Fold`, `FoldState`), and the fold can be reached in three ways: reading a live stream
with deltas, loading history page by page, and putting older pages in front of what is loaded.
`Meaning`, `InputMeaning` and `DeltaMeaning` say what a fold and the turn records contain, in terms
of the log, the user's input and the deltas sent. `PrependLaws` gives the exact condition under
which joining two folds is folding on, step by step and over whole runs. Merging a delta is not
idempotent; `Replay`, `Absorption`, `SteadyBlocks`, `SteadyDeltas` and `Replayability` say exactly
which logs may be replayed on top of any prefix of themselves, as a check on the log alone, and
`Reconnect` builds on it: over any pattern of dropped connections every event is folded exactly
once. `Paging`, `LongTips` and `HistoryLoading` say exactly when paged loading is lossless.
`TimeOrder`, `Compaction`, `Rendering`, `RouteAgreement`, `SubAgents` and `WholeFolds` cover what a
fold is rendered to, nested content included, and why reading it live and reloading it render alike;
`RenderingMeaning` and `NestedMeaning` say what the user sees of it.

**The server's turn protocol.** `TurnStore` is a stored turn; `TurnStream` executes one against it
while others freeze, pause or abort it between any two steps. `TurnContext`, `TurnTree` and
`SessionTurns` model creating turns from frozen parents, and the tree the turns form.

**The client's run machine.** `RunMachine` sends, commits and abandons turns under generation
counters, `RunRecords` says what it records of each turn and why, `Scoping` says which root messages
a turn group shows and that scrolling up leaves them alone, `GroupAgreement` runs the machine beside
the log its turns leave and proves that a reload scopes every group as the live records do, and
`Projection` with `Superseding` turns the records into messages, which `ProjectionMeaning`
describes.

**Required actions and transport.** `MessageTree`, `RequiredActions` and `RequiredActionLoops` are
the tree of tool calls with its approvals and questions, and `ThreadScopes` says where each input
goes. `RequestReply`, `Executor` and `Transport` are the request-reply protocol over Redis, and
`SseTracker` the incremental reader of server-sent events (a partial form of section 9.2.6 of the
WHATWG HTML Standard).

Code that changes things in place is modelled by classes and methods whose contracts equate the new
state with a function of the old one; the laws are then proved about those functions. A JavaScript
`Map` is a key sequence with a map (`JsMaps`) wherever its order can be seen. Concurrency is a
schedule of other parties' actions between any two steps of a method, or a run of steps of a state
machine; the theorems hold for every schedule and every run.

Where a property fails in the code, a lemma gives the case and another states exactly when it holds:

- a cut between a question and its answer (`PrependLaws.AnswerCutFromItsQuestion`, `PrependLaws.PrependRun`);
- a delta replayed without its base (`Absorption.UngroundedDelta`, `Replayability.ReplayExactly`);
- text for block content, which one merger drops (`Deltas.TextForBlocksIsDropped`, `Deltas.MergersAgree`);
- an auth prompt delivered before a drop (`Reconnect.AuthPromptForgotten`, `Reconnect.AuthPromptExact`);
- an open tip longer than the first load (`LongTips.LongTipLosesItsAnswers`, `Paging.PagedLoadingIsLossless`, `Scoping.TipIsResumed`);
- a message that has arrived but is not painted when the user's next one supersedes it (`GroupAgreement.HasteLosesTheAnswer`, `GroupAgreement.SendAgrees`);
- a message sent while another send still waits for its session or headers (`RunMachine.OverlappingSendsLoseTheFirst`, `RunMachine.SupersededSendIsLost`);
- an approval under a sub-agent that is not paused itself (`Superseding.DeepApprovalStays`, `Superseding.StripSettles`);
- a tool call that asks for an approval and an answer at once (`RequiredActions.BothAskedForLosesTheDecision`, `RequiredActions.DeniedAndAnsweredSendsTheObject`, `RequiredActions.ResumesExactly`);
- two groups without messages that show the same compaction (`Compaction.EmptyScopesShare`, `Compaction.SharedExactly`).

The comment on `nextModelMessageIdAfter` speaks of insertion order; the code walks in time order, and
so does the model.

## Model

| member | source | states |
|---|---|---|
| `Deltas.ModelMessageEvent.MergeEventDelta` | packages/assistant-ui-runtime/src/server/eventUtils.ts:25-125 | changes the message in place to the one the runtime merge function gives: text, refusal and reasoning appended, tool-call fragments merged by index, finish reason and usage replaced |
| `Deltas.ModelMessageEvent.SdkMergeEventDelta` | packages/trueforge-sdk/src/events.ts:20-117 | changes the message in place to the one the SDK merge function gives |
| `Deltas.ModelMessageEvent.MergeStreamEventDelta` | packages/assistant-ui-runtime/src/modelMessageImageContent.ts:59-107 | merges content blocks by index on top of the runtime merge |
| `Deltas.FragmentAgreement` | packages/trueforge-sdk/src/events.ts:63-117 | on one fragment the two mergers agree exactly when the fragment extends a call that is there or opens the next slot with an id and a name |
| `Deltas.CallsAgree` | packages/assistant-ui-runtime/src/server/eventUtils.ts:56-125 | on a dense array the two mergers give the same calls for every list of fragments in index order with identity first |
| `Deltas.MergersAgree` | packages/trueforge-sdk/src/events.ts:20-117 | over a stream of such deltas the two mergers leave the same text, reasoning and calls exactly when the message has no block content or the stream brings no text |
| `Deltas.TextForBlocksIsDropped` | packages/trueforge-sdk/src/events.ts:20-43 | a text delta for a message that shows an image: the runtime appends a text block and the SDK leaves the message as it is |
| `Deltas.RefusalAgreement` | packages/trueforge-sdk/src/events.ts:41-43 | on one delta the two mergers agree on the refusal exactly when the delta brings none, or there is no refusal text yet and an empty one only repeats an empty one |
| `Deltas.ArgumentsConcatenate` | packages/assistant-ui-runtime/src/server/eventUtils.ts:94-125 | after any fragments in index order, the arguments of slot i are its old arguments followed by those of the fragments for i, in order |
| `Deltas.BlocksConcatenate` | packages/assistant-ui-runtime/src/modelMessageImageContent.ts:59-88 | block i ends as its old payload followed by the payloads of the block deltas for i, in order, whatever the other indices receive |
| `DeltaMeaning.RuntimeConcatenates` | packages/assistant-ui-runtime/src/server/eventUtils.ts:25-54 | after any deltas text, reasoning and refusal are what there was followed by everything sent, in order |
| `DeltaMeaning.SdkConcatenates` | packages/trueforge-sdk/src/events.ts:20-62 | the same for text on content without blocks and for reasoning; block content stays, and of refusals the last counts |
| `DeltaMeaning.LastGivenCounts` | packages/trueforge-sdk/src/events.ts:20-62 | finish reason and usage are the last given; an empty reason counts for the SDK only |
| `DeltaMeaning.CallsAreNamed` | packages/assistant-ui-runtime/src/server/eventUtils.ts:56-125 | a slot is there when it was or a fragment is for it, and has the last id, name and information given for it |
| `FoldState.PeerThreadFoldState.GetOrCreateBucket` | packages/assistant-ui-runtime/src/foldPeerThreads.ts:114-129 | returns the thread's bucket and adds an empty one, last in order, only when there was none |
| `FoldState.IngestEventIntoBucket` | packages/assistant-ui-runtime/src/foldPeerThreads.ts:167-226 | the loops over references compute the bucket the fold function gives |
| `FoldState.PeerThreadFoldState.IngestStreamEvent` | packages/assistant-ui-runtime/src/foldPeerThreads.ts:400-428 | the live route changes the fold to the one the fold function gives, and reports content-affecting events exactly |
| `FoldState.PeerThreadFoldState.IngestTurnEvent` | packages/assistant-ui-runtime/src/foldPeerThreads.ts:430-448 | the history route changes the fold to the one the fold function gives |
| `FoldState.PeerThreadFoldState.RecordToolResponse` | packages/assistant-ui-runtime/src/foldPeerThreads.ts:780-799 | stores the answer in every asking thread, or in the root thread when none asks |
| `FoldState.PeerThreadFoldState.RecordToolApproval` | packages/assistant-ui-runtime/src/foldPeerThreads.ts:754-777 | stores the decision in every awaiting thread, or in the root thread when none awaits it |
| `FoldState.PeerThreadFoldState.ApplyUserToolResponses` | packages/assistant-ui-runtime/src/toolResponse.ts:295-310 | applies a turn's answers and decisions in order; a reason is kept for denials only |
| `FoldState.PrependFoldState` | packages/assistant-ui-runtime/src/convertTurnMessages.ts:371-415 | the result is new, neither half changes, and it is the join of the two folds, with the older half first in every order |
| `InputMeaning.InputDecides` | packages/assistant-ui-runtime/src/toolResponse.ts:295-310 | after any input every thread that awaited the call has the first verdict on it, an approval without a reason and a denial with its own; the root has the last one, unless a single one went elsewhere; nothing else changes |
| `InputMeaning.InputReplies` | packages/assistant-ui-runtime/src/toolResponse.ts:295-310 | the same for answers and the threads that asked |
| `Meaning.ResultsAreLastAnswers` | packages/assistant-ui-runtime/src/foldPeerThreads.ts:189-193 | a stored result is the content of the last tool response to that call in the log |
| `Meaning.QuestionsAreOpen` | packages/assistant-ui-runtime/src/foldPeerThreads.ts:189-214 | a question is open exactly when it was asked and has not been answered since |
| `Meaning.ApprovalsAreRequested` | packages/assistant-ui-runtime/src/foldPeerThreads.ts:195-200 | an approval is awaited exactly when some event of the log asks for it |
| `Meaning.EventsAreMerged` | packages/assistant-ui-runtime/src/foldPeerThreads.ts:172-180 | the message stored under an id is its last base with every later delta merged, in order |
| `Meaning.DoneAndFailed` | packages/assistant-ui-runtime/src/foldPeerThreads.ts:216-226 | a thread is done exactly when its log says so, and carries the last failure named, with a default text |
| `Meaning.TitlesAreLast` | packages/assistant-ui-runtime/src/foldPeerThreads.ts:167-226 | a thread's title and agent are the last its log names |
| `Meaning.MessagesAreListed` | packages/assistant-ui-runtime/src/foldPeerThreads.ts:172-180 | a message is listed exactly when the log stores one under its id |
| `PrependLaws.AskedInside` | packages/assistant-ui-runtime/src/foldPeerThreads.ts:202-214 | asking on joined messages equals asking inside the newer half exactly when each kept reference resolves alike |
| `PrependLaws.JoinStep` | packages/assistant-ui-runtime/src/foldPeerThreads.ts:167-226 | for one thread, folding an event into the joined bucket equals joining after folding it into the newer half exactly when the event is separable |
| `PrependLaws.PrependStep` | packages/assistant-ui-runtime/src/convertTurnMessages.ts:371-415 | the same for the whole fold and every operation, answers and decisions included: an exact condition in both directions |
| `PrependLaws.PrependRun` | packages/assistant-ui-runtime/src/convertTurnMessages.ts:371-415 | joining agrees with folding on after every prefix of a run exactly when every operation is separable where it happens |
| `PrependLaws.PrependAssociative` | packages/assistant-ui-runtime/src/convertTurnMessages.ts:371-415 | joining folds is associative |
| `PrependLaws.PrependEmpty` | packages/assistant-ui-runtime/src/convertTurnMessages.ts:371-415 | the empty fold is its identity on both sides |
| `PrependLaws.PrependIsFold` | packages/assistant-ui-runtime/src/convertTurnMessages.ts:371-415 | folding a log at once is joining the folds of two segments when the newer refers to nothing of the older |
| `PrependLaws.AnswerCutFromItsQuestion` | packages/assistant-ui-runtime/src/convertTurnMessages.ts:371-415 | a concrete cut between a question and its answer where the join brings the answered question back |
| `Replay.BucketStepFields` | packages/assistant-ui-runtime/src/foldPeerThreads.ts:167-226 | every event changes a bucket field by field, each field depending on itself alone except that questions read stored messages |
| `Replay.StepAgree` | packages/assistant-ui-runtime/src/foldPeerThreads.ts:167-226 | one event on two buckets that differ in some cells makes the cells it overwrites equal |
| `Replay.Absorb` | packages/assistant-ui-runtime/src/foldPeerThreads.ts:167-226 | two buckets that differ in some cells come together in all cells a log overwrites, if its questions read clean messages |
| `Absorption.BucketReplay` | packages/assistant-ui-runtime/src/foldPeerThreads.ts:167-226 | a thread's log can be replayed on every prefix of itself, whatever the bucket was, exactly when every message is stored by the log or has steady deltas, and every question left open reads a message that is the same in a replay |
| `Absorption.ReplayAbsorbed` | packages/assistant-ui-runtime/src/foldPeerThreads.ts:400-448 | for every fold and every prefix, ingesting the prefix and then the whole log gives the fold of ingesting it once, orders and links included, exactly when every thread's part can be replayed |
| `Absorption.GroundedAbsorbs` | packages/assistant-ui-runtime/src/foldPeerThreads.ts:172-214 | a log that brings each delta's base and each question's message before it can be replayed |
| `Absorption.UngroundedDelta` | packages/assistant-ui-runtime/src/foldPeerThreads.ts:172-178 | a concrete delta without its base in the log that the replay merges twice |
| `SteadyDeltas.SteadyExactly` | packages/assistant-ui-runtime/src/modelMessageImageContent.ts:59-107 | deltas may be merged again after any number of them exactly when none appends text, reasoning, refusal or arguments and each block delta is empty or is for a block that is sent both text and an image |
| `SteadyBlocks.SettledExactly` | packages/assistant-ui-runtime/src/modelMessageImageContent.ts:59-88 | the same for block deltas alone, on every list of blocks: a change of kind starts the block anew, and anything else must be empty |
| `Replayability.ReadsExactly` | packages/assistant-ui-runtime/src/foldPeerThreads.ts:202-214 | the arguments a question reads after some of a message's deltas are the same in every replay exactly when, up to the first slot those deltas name the call, no later delta names a slot anew, or opens one for a call without an id |
| `Replayability.AbsorbingExactly` | packages/assistant-ui-runtime/src/foldPeerThreads.ts:167-226 | a thread's log can be replayed exactly when a check that can be made on the log alone succeeds on its deltas and questions |
| `Replayability.ReplayExactly` | packages/assistant-ui-runtime/src/foldPeerThreads.ts:400-448 | the same for whole folds: every replay, onto every fold and after every prefix, gives the fold of one reading exactly when the check succeeds on every thread the log reaches |
| `Replay.ResumeOverHistory` | packages/assistant-ui-runtime/src/useTrueForgeAgentMessages.ts:830-852 | after a reload only what history wrote and the replay does not overwrite can differ |
| `Reconnect.TurnRun.ReadStream` | packages/assistant-ui-runtime/src/convertTurnMessages.ts:1736-1834 | reads one connection until it stops, advancing the cursor with every event, and folds what the stream route folds |
| `Reconnect.TurnRun.Connection` | packages/assistant-ui-runtime/src/useTrueForgeAgentMessages.ts:655-696 | one pass of the reconnect loop, with its ways to end |
| `Reconnect.TurnRun.Run` | packages/assistant-ui-runtime/src/useTrueForgeAgentMessages.ts:653-696 | after any list of connections the fold is the one of ingesting the log once up to the cursor |
| `Reconnect.ConnectCaughtUp` | packages/assistant-ui-runtime/src/useTrueForgeAgentMessages.ts:655-696 | every connection, dropped anywhere, keeps the fold equal to ingesting the log once up to the cursor |
| `Reconnect.ExactlyOnce` | packages/assistant-ui-runtime/src/useTrueForgeAgentMessages.ts:593-696 | when the turn is seen to end, it ended as the log says and every event through that end was folded exactly once |
| `Reconnect.IdleAttempts` | packages/assistant-ui-runtime/src/useTrueForgeAgentMessages.ts:668-696 | a run goes on after at most three attempts in a row that brought no new event |
| `Reconnect.ResumeWithoutCursor` | packages/assistant-ui-runtime/src/useTrueForgeAgentMessages.ts:830-852 | reading a replayable log again onto a fold that holds some of it ends in the fold of reading it once |
| `Reconnect.AuthPromptExact` | packages/assistant-ui-runtime/src/convertTurnMessages.ts:1743-1840 | the run ends on the auth prompt exactly when the last connection itself carried the auth event |
| `Reconnect.AuthPromptForgotten` | packages/assistant-ui-runtime/src/convertTurnMessages.ts:1743-1840 | a concrete drop after the auth event whose run ends without the prompt, although the fold is the same |
| `Paging.FetchCovers` | packages/assistant-ui-runtime/src/convertTurnMessages.ts:275-329 | what is held back followed by what is loaded is exactly the pages fetched; a window below the page cap starts on a user turn |
| `Paging.LoadStops` | packages/assistant-ui-runtime/src/convertTurnMessages.ts:229-329 | a load stops at the fewest pages with which what it has begins with the creation of a user's turn whose end is in it too, unless the session starts there or the budget is spent |
| `Paging.StopsOnlyAtCap` | packages/assistant-ui-runtime/src/convertTurnMessages.ts:304-329 | wherever a scroll stands after a load that stopped inside a group, the first one included, that load has read the full page budget |
| `Paging.ScrollCovers` | packages/assistant-ui-runtime/src/convertTurnMessages.ts:703-757 | at every point of every scroll the held-back items and the history are exactly the fetched pages, and each load gets further |
| `Paging.NoTurnTwice` | packages/assistant-ui-runtime/src/convertTurnMessages.ts:703-757 | an older load puts its records in front in order and leaves out exactly those of turns recorded already; but for sandboxes made known no record changes |
| `Paging.JoinItems` | packages/assistant-ui-runtime/src/convertTurnMessages.ts:427-483 | ingesting on after an older window equals joining the two ingestions: fold, records, root ids and carried sandbox |
| `Paging.PrependWindow` | packages/assistant-ui-runtime/src/convertTurnMessages.ts:703-757 | prepending a window to a snapshot that is its history's ingestion, with or without the tip's answers, gives the ingestion of the longer history |
| `Paging.LoadsAreIngestions` | packages/assistant-ui-runtime/src/convertTurnMessages.ts:643-757 | for every log and every cut into pages, each snapshot is the one of ingesting its history at once, with the tip's answers exactly if the first load reached a turn, while no load stops inside a group |
| `Paging.PagedLoadingIsLossless` | packages/assistant-ui-runtime/src/convertTurnMessages.ts:643-757 | scrolling to the start gives the events and records with sandboxes of ingesting the whole log at once, and its fold exactly when the first load reached a turn or the open tip's answers change nothing |
| `LongTips.LongTipLosesItsAnswers` | packages/assistant-ui-runtime/src/convertTurnMessages.ts:643-757 | a concrete session whose open tip is longer than the first load: no scroll gives the fold of loading it at once |
| `Meaning.RecordsAreTurns` | packages/assistant-ui-runtime/src/convertTurnMessages.ts:427-483 | one record per turn created and done, in order: the id, time and input of its creation, the state it was done with, and the sandbox it made first or else the one known before |
| `HistoryLoading.FetchSessionEventsWindow` | packages/assistant-ui-runtime/src/convertTurnMessages.ts:304-329 | the page loop returns the window of the fetch function, which `Paging.LoadStops` characterises |
| `HistoryLoading.IngestSessionEvents` | packages/assistant-ui-runtime/src/convertTurnMessages.ts:427-483 | the ingestion loop over the mutable fold returns the records and leaves the fold of the ingestion function |
| `HistoryLoading.FindOpenTurnCreated` | packages/assistant-ui-runtime/src/convertTurnMessages.ts:541-553 | finds the turn the ingestion has open at the end, with its id and input |
| `HistoryLoading.BuildSnapshotFromSessionEvents` | packages/assistant-ui-runtime/src/convertTurnMessages.ts:581-697 | the first load, for everything that asking for the open tip can give: the tip attached as the turn to resume with its group's baseline, or recorded when it has ended by now; its answers applied for the first paint and again as the server gives them; when the server says no more of the tip than its event, it is the load all statements on paging and scoping are about |
| `HistoryLoading.EndedTipIsDone` | packages/assistant-ui-runtime/src/convertTurnMessages.ts:485-505 | a tip found ended is recorded as its `turn.done` event would have recorded it, but for the sandbox, and the fold is the one after that event with the answers applied once more |
| `HistoryLoading.PropagateSandbox` | packages/assistant-ui-runtime/src/convertTurnMessages.ts:731-745 | carries each sandbox forward onto the turns that name none, a turn's own winning |
| `HistoryLoading.PrependOlderSessionHistory` | packages/assistant-ui-runtime/src/convertTurnMessages.ts:703-757 | returns the snapshot of the load function and leaves the given one as it is |
| `Scoping.ComputeGroupRootBaseline` | packages/assistant-ui-runtime/src/convertTurnMessages.ts:1013-1023 | collects the root ids of every turn before the last group |
| `Scoping.IngestionCovers` | packages/assistant-ui-runtime/src/convertTurnMessages.ts:427-483 | on a bracketed log the records' root ids followed by the open tip's are all root messages, in order |
| `Scoping.SinceBaselineIsLastGroup` | packages/assistant-ui-runtime/src/convertTurnMessages.ts:998-1023 | the root messages since the computed baseline are those of the last group's turns and the open tip, in order |
| `Scoping.PrependKeepsScope` | packages/assistant-ui-runtime/src/convertTurnMessages.ts:703-757 | after every load of older pages the active group shows the root messages it showed after the first, although fold and baseline have grown |
| `Scoping.TipIsResumed` | packages/assistant-ui-runtime/src/convertTurnMessages.ts:507-535 | scrolled to its start, a session holds its open tip and the baseline that loading it at once computes exactly when the first load reached a turn or there is no open tip |
| `GroupAgreement.GroupsAgree` | packages/assistant-ui-runtime/src/useTrueForgeAgentMessages.ts:191-418 | in every run of sends with their waits and failures, continuations, commits, abandons and reloads beside the log they leave, the live snapshot has the same groups of root messages as the log's ingestion, in order, as long as no message that is shown supersedes what was never flushed |
| `GroupAgreement.RecordsAgree` | packages/assistant-ui-runtime/src/convertTurnMessages.ts:427-483 | at rest the live records alone have the groups of the reloaded ones |
| `GroupAgreement.SendAgrees` | packages/assistant-ui-runtime/src/useTrueForgeAgentMessages.ts:1002-1025 | showing a message keeps that agreement exactly when what it supersedes is flushed: an active stream is there, or everything since the baseline is recorded |
| `GroupAgreement.UnpaintedIsLost` | packages/assistant-ui-runtime/src/useTrueForgeAgentMessages.ts:606-627 | in any session: a message folded before an update is painted, and then superseded, is in no live record and in the reloaded group |
| `GroupAgreement.HasteLosesTheAnswer` | packages/assistant-ui-runtime/src/useTrueForgeAgentMessages.ts:606-627 | a concrete session, run from its start by allowed moves, in which that happens |
| `RunMachine.CommitConserves` | packages/assistant-ui-runtime/src/useTrueForgeAgentMessages.ts:354-418 | committing keeps every user message exactly when the pending message does not meet a record of the same turn |
| `RunMachine.AbandonConserves` | packages/assistant-ui-runtime/src/useTrueForgeAgentMessages.ts:191-268 | abandoning keeps every user message under the same exact condition, and leaves none pending |
| `RunMachine.SendsAreConserved` | packages/assistant-ui-runtime/src/useTrueForgeAgentMessages.ts:890-1034 | at every state of every run each sent message is held exactly once, pending or in one record, or its send failed and said so, or is still waiting; all are held or told of exactly when none waits |
| `RunMachine.SupersededSendIsLost` | packages/assistant-ui-runtime/src/useTrueForgeAgentMessages.ts:890-913 | a send that still waits when something else starts waits in every later state, so its message is never shown; one that is the last thing started shows it |
| `RunMachine.OverlappingSendsLoseTheFirst` | packages/assistant-ui-runtime/src/useTrueForgeAgentMessages.ts:890-913 | a concrete run of two sends that wait at once: the first message is neither shown nor told of |
| `RunMachine.OnlyTheLastStreamWrites` | packages/assistant-ui-runtime/src/useTrueForgeAgentMessages.ts:575-729 | at every step of every run, what changes the turns or the active stream is a send or continuation that applies, or a step of a stream after whose start no send, stream or continuation has begun |
| `RunMachine.ClashLoses` | packages/assistant-ui-runtime/src/useTrueForgeAgentMessages.ts:379-396 | at a snapshot with a clash, which no run reaches, committing would lose the message: the condition of the conservation law is needed |
| `RunRecords.StepRecordsIt` | packages/assistant-ui-runtime/src/useTrueForgeAgentMessages.ts:191-418 | what every step of the machine records: state, time, input, sandbox and root messages of the turn it commits or leaves behind, and what stays in flight |
| `RunRecords.RecordTellsItsEnd` | packages/assistant-ui-runtime/src/useTrueForgeAgentMessages.ts:191-418 | in every run a record is cancelled by the client when the step that wrote it left its turn behind, and otherwise finished, or cancelled for the reason its stream gave |
| `RunMachine.AgentMessages.BeginSend` | packages/assistant-ui-runtime/src/useTrueForgeAgentMessages.ts:888-893 | beginning a send silences the stream before at once |
| `RunMachine.AgentMessages.SendTurn` | packages/assistant-ui-runtime/src/useTrueForgeAgentMessages.ts:911-1034 | after its wait a send returns without a word when something else has started; otherwise whatever is in flight moves to the turns, an unfinished stream as cancelled by the client, and the message becomes pending under a new generation |
| `RunMachine.AgentMessages.SendFailed` | packages/assistant-ui-runtime/src/useTrueForgeAgentMessages.ts:1085-1128 | a send that fails while it waits says so and abandons an unfinished stream as cancelled by the client, unless something else has started |
| `RunMachine.AgentMessages.ContinueTurn` | packages/assistant-ui-runtime/src/useTrueForgeAgentMessages.ts:890-923 | a continuation commits with its answers and runs under the turn it continues, unless something else has started meanwhile |
| `RunMachine.AgentMessages.HandleGatewayTurnId` | packages/assistant-ui-runtime/src/useTrueForgeAgentMessages.ts:938-966 | renames the stream and, if it is still that turn's, the pending message |
| `RunMachine.AgentMessages.FlushPendingStreamUpdate` | packages/assistant-ui-runtime/src/useTrueForgeAgentMessages.ts:606-627 | sets the active stream only for the current generation |
| `RunMachine.AgentMessages.FinishStream` | packages/assistant-ui-runtime/src/useTrueForgeAgentMessages.ts:697-729 | commits or abandons only for the current generation: an aborted stream as cancelled by the client, one that gave a reason as cancelled with it, any other as finished |
| `Projection.StagedInTwo` | packages/assistant-ui-runtime/src/convertTurnMessages.ts:1275-1293 | staging later turns' decisions and answers and then the turn's own is staging their unions, a later turn's word counting first |
| `Projection.CollectSubsequent` | packages/assistant-ui-runtime/src/toolApproval.ts:270-291 | the loop over later turns of the group collects their decisions and answers, the latest counting |
| `Projection.BuildTurn` | packages/assistant-ui-runtime/src/convertTurnMessages.ts:1258-1306 | builds a turn's content and pause: staged content, and a pause for approvals or answers only while something in it is pending |
| `Projection.ProjectHistoryTurns` | packages/assistant-ui-runtime/src/convertTurnMessages.ts:1252-1371 | the loop gives, per user turn up to the first running one, its message and at most one assistant that shows the group's latest turn |
| `Projection.ProjectHistory` | packages/assistant-ui-runtime/src/convertTurnMessages.ts:1229-1371 | user messages are the user turns in order; assistants directly follow their own and show their own group; ids distinct; and before the last user message nothing is paused and nothing asks for the user but what hid under a message that was not paused |
| `ProjectionMeaning.HistoryShows` | packages/assistant-ui-runtime/src/convertTurnMessages.ts:1252-1371 | turn by turn up to the first running one: a user's turn gives its message and, when there is something to show, the assistant's, with the content, pause and threads of the last finished turn of its group that has something to show |
| `ProjectionMeaning.LastWordCounts` | packages/assistant-ui-runtime/src/convertTurnMessages.ts:1073-1095 | what an input decides or answers is the last word it has on each call |
| `ProjectionMeaning.GroupWord` | packages/assistant-ui-runtime/src/toolApproval.ts:270-291 | what a turn and the later ones of its group decide and answer is what their input says, read as one |
| `ProjectionMeaning.ContentTells` | packages/assistant-ui-runtime/src/convertTurnMessages.ts:1275-1293 | a turn's content is what is rendered of it, each call told the last word that its group's input has on it from that turn on |
| `Superseding.StripSettles` | packages/assistant-ui-runtime/src/convertTurnMessages.ts:1166-1226 | after stripping, the recursive pending test is false exactly when nothing pending lies under a message that is not paused |
| `Superseding.StripKeeps` | packages/assistant-ui-runtime/src/convertTurnMessages.ts:1166-1226 | stripping keeps texts, calls, results and nesting |
| `Superseding.StripReaches` | packages/assistant-ui-runtime/src/convertTurnMessages.ts:1166-1226 | under messages that are all paused, open questions are dropped, open approvals denied, and what was answered, decided or settled stays; nothing else changes |
| `Superseding.DeepApprovalStays` | packages/assistant-ui-runtime/src/convertTurnMessages.ts:1191-1199 | an approval in a sub-agent's sub-agent stays pending when the sub-agent between has nothing pending itself |
| `Projection.MessageIdsDistinct` | packages/assistant-ui-runtime/src/convertTurnMessages.ts:855-925 | with distinct turn ids all message ids are distinct |
| `TimeOrder.TimeOrderSorted` | packages/assistant-ui-runtime/src/foldPeerThreads.ts:247-249 | the emission order is sorted by time |
| `TimeOrder.TiesKeepArrival` | packages/assistant-ui-runtime/src/foldPeerThreads.ts:247-249 | events of the same time stay in the order they arrived |
| `TimeOrder.OrderCommutesWithDropping` | packages/assistant-ui-runtime/src/foldPeerThreads.ts:247-249 | the stable sort commutes with dropping events |
| `Compaction.FindNextModelMessage` | packages/assistant-ui-runtime/src/foldPeerThreads.ts:252-266 | the scan finds the first model message after a start |
| `Compaction.FindPreviousModelMessage` | packages/assistant-ui-runtime/src/foldPeerThreads.ts:269-286 | the scan finds the last model message before a start |
| `Compaction.FindFinishedForStarted` | packages/assistant-ui-runtime/src/foldPeerThreads.ts:326-348 | the scan finds the first finish unless another start comes first |
| `Compaction.PairingIsInjective` | packages/assistant-ui-runtime/src/foldPeerThreads.ts:326-348 | two starts never share a finish |
| `Compaction.FinishIsNext` | packages/assistant-ui-runtime/src/foldPeerThreads.ts:326-348 | a start is paired with the finish that follows it exactly when no other compaction starts or finishes in between |
| `Compaction.ShownExactly` | packages/assistant-ui-runtime/src/foldPeerThreads.ts:296-324 | a start is shown exactly when nothing is left out, the message after it is shown, or it is at the live tip and not too late |
| `Compaction.SharedExactly` | packages/assistant-ui-runtime/src/foldPeerThreads.ts:296-324 | two disjoint scopes show the same start exactly when no model message follows it, neither was settled before it, and each is empty or holds the message right before it |
| `Compaction.AttributionIsUnambiguous` | packages/assistant-ui-runtime/src/foldPeerThreads.ts:296-324 | over disjoint nonempty scopes a start is shown by at most one |
| `Compaction.AttributionIsTotal` | packages/assistant-ui-runtime/src/foldPeerThreads.ts:296-324 | when the scopes hold every model message and no cutoff applies, a start is shown |
| `Compaction.EmptyScopesShare` | packages/assistant-ui-runtime/src/foldPeerThreads.ts:296-324 | two cancelled turns without messages both show a compaction that started before either was completed |
| `Rendering.Collapsed` | packages/assistant-ui-runtime/src/foldPeerThreads.ts:625-664 | one part per tool call, standing where it first occurred with what it was last; nothing else lost or moved |
| `Rendering.BuildThreadAssistantParts` | packages/assistant-ui-runtime/src/foldPeerThreads.ts:356-672 | the walk with its index map builds exactly those parts, a compaction with its status among them |
| `RenderingMeaning.MessageShows` | packages/assistant-ui-runtime/src/modelMessageContent.ts:58-149 | a message shows its reasoning, its text or refusal, its images and its calls, in this order; each call with its answer, or its denial as an error, its decision, and its question while it is open |
| `Strings.TrimExact` | packages/assistant-ui-runtime/src/modelMessageImageContent.ts:129-145 | trimming an image's address takes the white space off both ends and nothing else |
| `RenderingMeaning.ThreadShows` | packages/assistant-ui-runtime/src/foldPeerThreads.ts:608-672 | everything a message shows is among the parts of its thread, each call in the one part it has |
| `RenderingMeaning.ThreadShowsOnly` | packages/assistant-ui-runtime/src/foldPeerThreads.ts:608-672 | every part but a compaction is one that a shown message has |
| `RenderingMeaning.CompactionShows` | packages/assistant-ui-runtime/src/foldPeerThreads.ts:356-384 | exactly the compactions that belong to what is shown are seen, each over, stopped, broken or going on, by its finish, its thread and the parent's end |
| `RenderingMeaning.AbortShapedIs` | packages/assistant-ui-runtime/src/foldPeerThreads.ts:151-159 | an error is the noise of a cancel exactly when one of two phrases is anywhere in it, in whatever case |
| `RouteAgreement.ScansDrop` | packages/assistant-ui-runtime/src/foldPeerThreads.ts:252-348 | the compaction scans do not see events that are not rendered |
| `RouteAgreement.RunsAlike` | packages/assistant-ui-runtime/src/foldPeerThreads.ts:400-448 | on a log without deltas the live bucket is the reloaded one without the events that are not rendered |
| `RouteAgreement.ThreadRendersAlike` | packages/assistant-ui-runtime/src/foldPeerThreads.ts:608-672 | one thread's log renders to the same parts live and reloaded, for every scope and cutoff |
| `WholeFolds.RoutesRenderAlike` | packages/assistant-ui-runtime/src/foldPeerThreads.ts:400-707 | a whole log read live and reloaded gives the same links, the same parts on every thread and the same nested content, with the sub-agents' titles and statuses |
| `WholeFolds.ThreadOnlyInHistory` | packages/assistant-ui-runtime/src/foldPeerThreads.ts:400-448 | a concrete log whose two folds do not have the same threads |
| `SubAgents.LinksStayRooted` | packages/assistant-ui-runtime/src/foldPeerThreads.ts:409-418 | parent links stay a tree when each spawn names a new thread and an existing parent |
| `SubAgents.VisitOnce` | packages/assistant-ui-runtime/src/foldPeerThreads.ts:555-606 | a walk over the spawning calls visits each thread at most once; that it ends is its termination |
| `SubAgents.ContentVisits` | packages/assistant-ui-runtime/src/foldPeerThreads.ts:555-707 | building a thread's nested content visits exactly the threads of that walk, in order |
| `SubAgents.RenderingIsATree` | packages/assistant-ui-runtime/src/foldPeerThreads.ts:400-707 | for every log whose spawns name new threads and existing parents, read either way, building the root's content ends, nests each thread at most once, and shows no call in two parts of a thread |
| `NestedMeaning.ContentIs` | packages/assistant-ui-runtime/src/foldPeerThreads.ts:555-606 | under a call that the first message with it has as one that creates sub-agents are exactly the threads linked to it, in order, each with its own title, agent, status and content; under any other part is nothing |
| `NestedMeaning.StatusOfLog` | packages/assistant-ui-runtime/src/foldPeerThreads.ts:507-543 | a nested thread's status, read off its log and the parent's end: asking the user first, then stopped, failed, running, complete |
| `NestedMeaning.HeaderOfLog` | packages/assistant-ui-runtime/src/foldPeerThreads.ts:545-554 | over a whole log, by either route, its title and agent are the last named and its status is the log's |
| `MessageTree.FirstDecisionWins` | packages/assistant-ui-runtime/src/toolApproval.ts:203-247 | staging two maps in turn is staging their union, the first winning, for decisions and answers alike |
| `MessageTree.StagingIsIdempotent` | packages/assistant-ui-runtime/src/toolApproval.ts:203-247 | staging the same map again changes nothing |
| `MessageTree.KindsCommute` | packages/assistant-ui-runtime/src/toolResponse.ts:240-272 | decisions and answers can be staged in either order |
| `MessageTree.StagingKeepsTree` | packages/assistant-ui-runtime/src/toolApproval.ts:166-184 | the same calls are visited in the same order and scope, each with its own staging |
| `MessageTree.StagingTells` | packages/assistant-ui-runtime/src/toolApproval.ts:218-247 | each call of the tree gets exactly what is staged for it: a decision on an open approval, with its reason or the old one, a denial also as the call's error, an answer to an open question; every other call stays |
| `MessageTree.StagingKeepsShape` | packages/assistant-ui-runtime/src/toolApproval.ts:203-247 | staging writes decisions and results only |
| `RequiredActions.PendingListExact` | packages/assistant-ui-runtime/src/collectPending.ts:34-125 | the list of pending calls is empty exactly when the recursive test says nothing is pending |
| `RequiredActions.PendingAfterStaging` | packages/assistant-ui-runtime/src/toolApproval.ts:218-247 | exactly the pending calls that nothing is staged for stay pending |
| `RequiredActions.CollectsAwaiting` | packages/assistant-ui-runtime/src/toolApproval.ts:361-404 | once nothing is pending the inputs are those of the staged calls, in walk order, each in its scope; `ThreadScopes.CollectsByPath` says which thread that is |
| `RequiredActions.ResumesExactly` | packages/assistant-ui-runtime/src/toolApproval.ts:350-359 | a call's inputs after staging are its answers and nothing else exactly when it is unambiguous; a denied call that also asks a question is so only if its answer is the text of an object |
| `RequiredActions.ResumeIsComplete` | packages/assistant-ui-runtime/src/requiredActionInputs.ts:14-22 | with an answer staged for everything pending, one input per formerly pending call is sent, each its own, and no more; `ThreadScopes.ResumesByPath` says to which thread |
| `ThreadScopes.CollectsByPath` | packages/assistant-ui-runtime/src/toolApproval.ts:361-404 | each input says what is staged on its call, to the thread of the innermost message around the call that names one, for approvals and answers apart, else to the caller's |
| `ThreadScopes.SendsAllOrNothing` | packages/assistant-ui-runtime/src/requiredActionInputs.ts:14-22 | while any call reached in the message waits for an approval or an answer nothing is sent; then everything staged is, decisions before answers |
| `ThreadScopes.ResumesByPath` | packages/assistant-ui-runtime/src/requiredActionInputs.ts:14-22 | with something staged for everything pending, the decisions of the calls that waited for approval and then the answers of those that asked are sent, each call's own, to its nearest thread |
| `ThreadScopes.WalksByPath` | packages/assistant-ui-runtime/src/collectPending.ts:34-55 | the pending calls are listed each in its nearest thread; for the list of both kinds, in the nearest that a message names for either |
| `RequiredActions.BothAskedForLosesTheDecision` | packages/assistant-ui-runtime/src/toolApproval.ts:350-359 | a concrete call that asks for approval and an answer, whose decision is never sent |
| `RequiredActions.DeniedAndAnsweredSendsTheObject` | packages/assistant-ui-runtime/src/toolResponse.ts:166-173 | a call denied and answered with the same text: what is sent is the error object as a string |
| `RequiredActionLoops.MessageHasPending` | packages/assistant-ui-runtime/src/toolApproval.ts:139-164 | the recursive test with its early returns |
| `RequiredActionLoops.CollectInputsFrom` | packages/assistant-ui-runtime/src/toolApproval.ts:372-404 | the collecting loop over a message and its nested messages, whose threads `ThreadScopes.CollectsByPath` states |
| `RequiredActionLoops.WalkToolCallParts` | packages/assistant-ui-runtime/src/collectPending.ts:34-55 | the walk pushes exactly the pending calls, scoped as the caller asks |
| `TurnStore.StoredTurn.AppendToEvents` | packages/trueforge-core/src/agent-session/store/InMemorySessionStore.ts:541-550 | appends exactly when the turn is running, and otherwise says why not |
| `TurnStore.StoredTurn.UpdateTurnTerminalState` | packages/trueforge-core/src/agent-session/store/InMemorySessionStore.ts:520-539 | the first end wins and is logged; an ended turn keeps its end |
| `TurnStore.StoredTurn.FreezeAndGetTurn` | packages/trueforge-core/src/agent-session/store/InMemorySessionStore.ts:441-466 | cancels a turn that has not ended; an ended turn is unchanged |
| `TurnStore.StoredTurn.UpdateTurnNonTerminalState` | packages/trueforge-core/src/agent-session/store/InMemorySessionStore.ts:492-518 | pauses only a running turn and resumes only a paused one |
| `TurnStream.TurnHandle.PersistExecutionEvent` | packages/trueforge-core/src/agent-session/TurnHandle.ts:450-654 | what each kind of event stores, patches and tells: an event is stored before it is shown, one that fails adds nothing to the event log |
| `TurnStream.TurnHandle.Execute` | packages/trueforge-core/src/agent-session/TurnHandle.ts:235-296 | handles the orchestrator's events in order until all are handled, one fails, the turn is found frozen or the consumer leaves; what failed and what came out are the orchestrator's own or a refused write |
| `TurnStream.TurnHandle.Finish` | packages/trueforge-core/src/agent-session/TurnHandle.ts:297-414 | the end by cases: the reason of the first abort that had happened by then, else the error caught, else the root agent's error, else done, or cancelled by a consumer who left; written unless the store has an end, and the resolver closed once |
| `TurnStream.TurnHandle.Stream` | packages/trueforge-core/src/agent-session/TurnHandle.ts:216-414 | in every interleaving some first part of the orchestrator's events is handled, each stored, patched and told in order as its kind has it, and nothing else; an undisturbed run handles all of them and ends as the orchestrator did; the stored end is one and final, a consumer that is still there is told exactly that end, last, and the resolver is closed once |
| `TurnContext.CollectContextAppends` | packages/trueforge-core/src/agent-session/SessionHandle.ts:71-97 | one append per thread, in order of first mention, each the total of what was addressed to it |
| `TurnContext.CollectedMeansTheSame` | packages/trueforge-core/src/agent-session/SessionHandle.ts:71-97 | sending the collected appends has the effect of sending the events one by one |
| `TurnContext.AppliesTotals` | packages/trueforge-core/src/agent-session/store/InMemorySessionStore.ts:116-130 | appends apply exactly when every thread they name is known, and each thread gets its total |
| `TurnContext.BuildsOnPrevious` | packages/trueforge-core/src/agent-session/store/InMemorySessionStore.ts:132-167 | every thread of a new turn continues where the previous turn's left it, or starts empty: its context with what was added, the last usage and completion given, its capability state as given; servers and sandbox are the previous turn's |
| `TurnContext.BuildsExactly` | packages/trueforge-core/src/agent-session/store/InMemorySessionStore.ts:132-167 | a turn can be built exactly when its new threads are new and named once, additions go to known or new threads, and each of these and no other is given its capability state once |
| `TurnTree.StepKeeps` | packages/trueforge-core/src/agent-session/SessionHandle.ts:180-359 | every step of creates, freezes and streams keeps the tree invariant |
| `TurnTree.TreeOverAllRuns` | packages/trueforge-core/src/agent-session/SessionHandle.ts:273-319 | over all interleavings: unique ids, ended parents, children starting from the parent's final snapshot, ancestors the last twenty of the true path, first turn its root |
| `TurnTree.PreparesAsAsked` | packages/trueforge-core/src/agent-session/SessionHandle.ts:39-47 | without a request, or with `auto`, a create continues the tip; with `none`, or without a tip, nothing; otherwise the turn named: the turn to continue is frozen and held, a missing one fails the create |
| `TurnTree.CommitsAsPrepared` | packages/trueforge-core/src/agent-session/store/InMemorySessionStore.ts:384-439 | the turn stored continues exactly the turn its create froze, from that turn's final snapshot |
| `TurnTree.RunningIsLeaf` | packages/trueforge-core/src/agent-session/SessionHandle.ts:196-203 | a turn with a child has ended |
| `TurnTree.NeverPreviousTurnRunning` | packages/trueforge-core/src/agent-session/store/InMemorySessionStore.ts:398-407 | a create that froze its parent is never told that it is still running |
| `TurnTree.EndedIsFinal` | packages/trueforge-core/src/agent-session/store/InMemorySessionStore.ts:441-539 | once ended, a turn's record never changes |
| `TurnTree.ResolveAncestorChain` | packages/trueforge-core/src/agent-session/store/InMemorySessionStore.ts:784-804 | chaining twenty-ancestor windows recovers the whole path from the root |
| `SessionTurns.SessionStore.CreateTurn` | packages/trueforge-core/src/agent-session/store/InMemorySessionStore.ts:384-439 | inserts the turn and moves the last turn in one step, or refuses and changes nothing |
| `SessionTurns.SessionStore.FreezeAndGetTurn` | packages/trueforge-core/src/agent-session/store/InMemorySessionStore.ts:441-466 | returns the ended record, or nothing for an unknown turn |
| `SessionTurns.SessionHandle.CreateTurn` | packages/trueforge-core/src/agent-session/SessionHandle.ts:180-345 | whatever others do before the commit and before the session is read again: a create without a request or with `auto` continues the tip, with `none` nothing, otherwise the turn named; that turn is frozen; the create fails exactly when it is missing, the send was rejected, or the store refuses for a stated reason, and then stores nothing; otherwise the turn is stored under it, the tip becomes the newest turn by then, and the resolver is closed exactly when the create failed after its parent was found, even when the turn is stored |
| `RequestReply.AwaitReply` | packages/trueforge-core/src/request-reply/client.ts:75-94 | the wait ends at the first poll that finds a reply, no executor or no time left, before the timeout plus one poll interval |
| `RequestReply.ReplyIsReceived` | packages/trueforge-core/src/request-reply/client.ts:75-94 | a reply written before the deadline by a live executor is what the caller gets |
| `RequestReply.DeathIsNoticed` | packages/trueforge-core/src/request-reply/client.ts:82-87 | without a reply, the caller stops within a poll interval of the heartbeat's expiry |
| `RequestReply.HeartbeatUnbroken` | packages/trueforge-core/src/request-reply/executor.ts:162-198 | the key exists from the first beat to the last exactly when no beat comes later than the previous one's lifetime |
| `RequestReply.OnTimeIsAlive` | packages/trueforge-core/src/request-reply/executor.ts:96-97 | beats on time, or late by at most half an interval, never let the key expire |
| `Transport.OneReplyEach` | packages/trueforge-core/src/request-reply/client.ts:44-95 | over every run a caller that receives a reply receives one, the handler's to its own request, in the poll that ends its wait; that wait is the one the poll loop runs on what it saw, and its last poll comes before the timeout plus one interval |
| `Transport.ReplyIsDelivered` | packages/trueforge-core/src/request-reply/client.ts:44-95 | a request that was taken and handled is answered: the first poll after that, if the caller still waits and the reply has not expired, ends the wait with the handler's first reply |
| `Transport.PollDecides` | packages/trueforge-core/src/request-reply/client.ts:75-94 | what each poll decides, from the reply key, the beats so far and the time |
| `Transport.RejectedIsNeverHandled` | packages/trueforge-core/src/request-reply/client.ts:57-73 | a request that found no heartbeat or subscription, was empty or came after close is never handled |
| `Executor.RequestReplyExecutor.StartHeartbeat` | packages/trueforge-core/src/request-reply/executor.ts:179-190 | restarts the one timer, unless the executor is closed; a timer is live only while subscribed |
| `Executor.RequestReplyExecutor.Subscribed` | packages/trueforge-core/src/request-reply/executor.ts:138-160 | a subscription answered after close starts no heartbeat |
| `Executor.RequestReplyExecutor.OnMessage` | packages/trueforge-core/src/request-reply/executor.ts:277-294 | takes a request exactly when the message is not empty and the executor is open, as the intake of the transport does |
| `Executor.RequestReplyExecutor.Unsubscribed` | packages/trueforge-core/src/request-reply/executor.ts:299-312 | no timer is live once close has returned |
| `Executor.RequestReplyExecutor.DrainReturns` | packages/trueforge-core/src/request-reply/executor.ts:315-318 | drain returns only when every request ever started has finished |
| `SseTracker.SplitConcat` | packages/frontend/src/sentryFetch.ts:95-106 | splitting a text cut anywhere, also between CR and LF, gives the same lines and remainder |
| `SseTracker.SplitCuts` | packages/frontend/src/sentryFetch.ts:95-106 | splitting cuts a text at its line breaks and nowhere else, and loses nothing; a carriage return belongs to the break right after it |
| `SseTracker.Tracker.OnChunk` | packages/frontend/src/sentryFetch.ts:95-107 | after a chunk the tracker has read exactly the text so far |
| `SseTracker.Tracker.OnChunks` | packages/frontend/src/sentryFetch.ts:95-107 | every way of cutting the text leads to the same event state |
| `SseTracker.BlockIsOneEvent` | packages/frontend/src/sentryFetch.ts:62-93 | a block of lines closed by a blank line is one event with the block's last id and joined data, or none |
| `SseTracker.BlocksAreEvents` | packages/frontend/src/sentryFetch.ts:62-93 | reading any blocks of lines is recording their events in order |
| `SseTracker.EventsTell` | packages/frontend/src/sentryFetch.ts:40-93 | after any events: their number, the last kind and id, whether the turn is done, and the last status and error an event about the turn gave |

## Left out

- Aliasing of event objects and buckets: they are values held in the classes' fields, so an update in place through a second reference is not modelled; `mergeStreamEventDelta` on the stored object becomes a replacement of the stored value.
- The JSON of tool arguments, data URIs, attachments, filenames of images, MCP server lists and their text: opaque or absent.
- The `type` of tool-call deltas, which only one merger reads, and their `providerSpecificFields`, which one merger merges and the other replaces.
- Deltas.MergersAgree: compares text, reasoning and calls; refusals are compared on one delta at a time, by `Deltas.RefusalAgreement`.
- HistoryLoading.EndedTipIsDone: the statements on paging, scoping and reloading are about loads whose tip is still open and known by its event (`HistoryLoading.BuildSnapshotFromSessionEvents`); scrolling on from a tip found ended is not followed further.
- Paging.PagedLoadingIsLossless: asks that no load stopped inside a group, which only the ten-page cap can cause (`Paging.StopsOnlyAtCap`), and that no turn refers back across the start of a user's turn.
- The listing API: pages are fixed lists and tokens their indices, so events arriving while older pages are read are not modelled.
- Reconnect: cancelling, superseding and the delay between attempts end or space the attempts and are represented by the list of attempts ending; `subscribeToTurn` is taken to exist, and the stream not to have expired on the server.
- The pending auth prompt's server list and the sandbox id yielded with an update, beyond whether the auth event was seen.
- GroupAgreement.GroupsAgree: takes the client to fold what the log gets for its current stream, the server to log nothing more for a superseded stream, and updates to have content only once a root message is folded; a reload loads the log in one window. Groups without root messages are not compared.
- WholeFolds.RoutesRenderAlike: is about logs without deltas and with one event per id, as history stores them, and about ingested events without a turn's own answers.
- The custom metadata of rendered sub-agent messages beyond title, agent, status and thread; which tool calls create sub-agents is a parameter.
- SubAgents.ContentVisits: counts a nested thread whether or not it renders to any content.
- Rendering.BuildThreadAssistantParts: gives one thread's parts; nesting is in `SubAgents.Content`.
- Projection: the content built from the fold is an input; `pendingUser`, the active stream and locally staged actions, laid over the history, are not modelled; of a message's metadata only what scopes its inputs is.
- React: state updates are sequential steps; loading a different session, prepending during a run, branching, and failures between a stream's start and its `turn.created` are not steps of the run machine.
- RunMachine.SendsAreConserved: takes ids made by the client and the gateway to be fresh, and continuations to apply only when no message is pending.
- `updateToolApprovalInContent` and finding the current paused message: single scans that would add easy members.
- RequiredActions: messages without nested messages have an empty list of them, and arguments and payloads of calls are absent.
- Turn metrics, timestamps, outputs and required actions of a terminal state: an end is its status with message or reason.
- TurnStream.TurnHandle.Stream: closing the orchestrator's generator and the resolver is taken not to throw.
- Building agent threads, definitions, tracing and sandboxes in `createTurn`: the input's effect is a delta given from outside, or a rejected send.
- Session rows other than the last turn, the inbound event inbox, listing and pagination in the store, and deleting sessions.
- An empty string as requested previous turn: the model records it as no previous turn.
- Redis failures, malformed messages and handler errors other than as replies; a subscription that is answered after `close` stays subscribed, as in the code, and its messages are dropped.
- RequestReply.AwaitReply: takes sleeps to be exact and the poll interval to be positive.
- Transport.OneReplyEach: has one executor, and times only where a poll or a publish looks at the heartbeat.
- SseTracker: text decoding, timing and byte counters, and span attributes other than the event state; reading a payload is a parameter.
- HTTP, routing, configuration, user interface, the generated SDK client and the orchestrator: not part of this model.
