# CodeWhale: a verified model

This project models the parts of CodeWhale where several pieces of state must stay in step, and
proves what they promise, with Dafny 4.11. `dafny verify dfyconfig.toml` checks all of it.

| module | models |
|---|---|
| `SseFraming`, `SseMessages`, `SseDialects` | cutting server-sent-event frames out of network chunks, and parsing them, with either line ending |
| `TurnStream`, `RuntimeBridges` | one turn read from the runtime's event stream; the bridge object and its saved positions |
| `TurnRuns` | whole runs of a bridge against a runtime with an append-only event log |
| `BridgeSlot` | the cached, reference-counted bridge under every interleaving of callers, updates and shutdowns |
| `UnaryCodec` | an envelope codec with the properties `TurnRuns` asks of one |
| `AppServer`, `Output` | the stdio dispatcher, its state and the lines it writes |
| `Sessions`, `SessionExample` | both halves together: what a client on stdio gets of the runtime's log |
| `ConfigRaces` | config updates that overlap over HTTP |
| `ConstantTime` | the bearer-token comparison |
| `Glob` | the greedy wildcard matcher |
| `Credentials`, `Providers` | API keys in the config file and the secret store |
| `ModelRegistry` | the model index, the resolver and provider inference |
| `UpstreamUrl` | the version algebra of upstream URLs |
| `SdkEventStream` | the JavaScript event-stream reader |
| `HtmlStrip` | the HTML-to-text scanner |
| `Options`, `Text` | shared vocabulary |

Code that works step by step is a method or a class here, proved equal to a function on values;
what the code is for is then proved about that function or its runs. Choices of the outside world
(does a write succeed, which chunks arrive before a connection breaks, how do callers interleave)
are parameters, so that every theorem holds for all of them. Every lemma switches Dafny's automatic
induction off, so each induction is written out.

## What the proofs found

The model follows the code. Where the code does less than its documentation or a caller might
expect, a lemma gives an instance and another says exactly when it does meet the expectation.

- Glob: a literal comparison comes before the star test, so pattern `*` rejects the value `*a`.
  The matcher is sound for all inputs, complete for a value exactly when the value has no `*`, and
  complete for a pattern exactly when the pattern has no `*`.
- Framing: CRLFCRLF is looked for anywhere before LFLF is looked for at all. How a stream is cut
  into chunks makes no difference exactly when it is not `Mixed`: at no frame does an LFLF come
  before a CRLFCRLF.
- Field values: all leading white space goes, where section 9.2.6 of the HTML Standard strips one
  space only. A printed message comes back unchanged exactly when nothing of it was to be trimmed.
- JavaScript reader: it ends frames at LFLF only. A stream with CRLF line ends, which section 9.2.5
  of the HTML Standard allows, comes to it as a single frame.
- Event streams: the runtime reads its backlog before it subscribes to live events. A turn that
  finishes has reached its client in full exactly when it had ended before that gap or none of its
  deltas was logged in the gap.
- Bridge start: when the HTTP client cannot be built after the spawn, the child is never killed.
  Every live child is within reach of a handle exactly as long as that has not happened.
- Prompts: `prompt/request` writes a group of its own on stdout, through the hook sink, before it
  can fail; so an error reply may follow a closed group.
- Shutdown: the slot by itself, which is locked apart from the bridge, lets a shutdown kill a bridge
  that a caller has acquired and not yet locked; the caller then streams on a dead child. In every
  run all handles lead to running children exactly as long as no shutdown does that. As shipped
  this cannot happen: the only callers of acquire and shutdown sit in the one loop of `run_stdio`,
  which finishes a request before it reads the next and stops at a shutdown, and with one request
  at a time no handle ever leads to a dead child.
- Config updates over HTTP: sets, unsets and reloads taken one at a time keep shared config and
  runtime equal, and the disk too while saves succeed. Overlapping ones leave the three in
  agreement, whatever is set, exactly when all three are one and the same request's change. Changes
  of different keys lose nothing exactly when every edit finds the version of the edit before it in
  the shared config, and the last edit's version is there at the end; of two, exactly when the one
  that edits last shares last.
- Replies: a request without an id is answered with a null id, where section 4.1 of the JSON-RPC 2.0
  specification wants no answer. A run answers a notification exactly when there is one up to and
  including the first shutdown.
- Migration: it keeps every effective key whichever writes fail exactly when the two Siliconflow
  providers, which share a slot, agree beforehand and no blank Deepseek block hides a root key that
  the secret store does not hold.
- Setting a blank key takes effect unless it could not be saved while the secret store holds
  another one. Together with a migration that brings out such a root key, this is all that ever
  parts the stored keys from a plain map.

## Model

| member | source | states |
|---|---|---|
| SseFraming.FrameBuffer.Extend | crates/app-server/src/lib.rs:1030-1036 | a chunk is appended before the size of the whole buffer is judged, so a refused chunk is still in the buffer |
| SseFraming.FrameBuffer.TakeFrame | crates/app-server/src/lib.rs:1161-1169 | taking a frame is one step of draining: what it returns and what it leaves are the first frame and the rest of the drain; with no frame left nothing moves |
| SseFraming.DrainConserves | crates/app-server/src/lib.rs:1037-1040 | frames taken plus what stays in the buffer are the buffer, byte for byte |
| SseFraming.DrainLeavesNoDelimiter | crates/app-server/src/lib.rs:1161-1169 | neither delimiter is left in a drained buffer |
| SseFraming.FeedConserves | crates/app-server/src/lib.rs:1027-1040 | over any run of chunks, all frames taken and the final buffer are all bytes received, in order |
| SseFraming.FeedResidual | crates/app-server/src/lib.rs:1027-1040 | in a run the size limit does not stop, the final buffer has no delimiter and is within the limit |
| SseFraming.ShortStreamsStayWithinLimit | crates/app-server/src/lib.rs:1032-1036 | a stream no longer than the limit is never stopped, however it is cut |
| SseFraming.DrainInTwo | crates/app-server/src/lib.rs:1161-1169 | draining a front part and then the rest gives what draining the whole at once gives, for streams that do not mix delimiters |
| SseFraming.ChunkIndependentIff | crates/app-server/src/lib.rs:1161-1169 | every cutting of a stream into chunks yields the same frames exactly when the stream is not mixed |
| SseFraming.OneDelimiterIsNotMixed | crates/app-server/src/lib.rs:1161-1169 | a stream that lacks one of the two delimiters is not mixed |
| SseFraming.MixedWitness | crates/app-server/src/lib.rs:1161-1169 | for every mixed stream, a cutting that changes the frames |
| SseFraming.ChunkingMatters | crates/app-server/src/lib.rs:1161-1169 | an instance: a frame ending in LFLF and one ending in CRLFCRLF are one frame if they arrive together, two if not |
| SseMessages.ParseSseFrame | crates/app-server/src/lib.rs:1171-1187 | the line loop computes the parse function about which the round trips are proved |
| SseMessages.DrainPrinted | crates/app-server/src/lib.rs:1161-1169 | the frames cut from a printed list of events are the printed events, one each, with nothing left |
| SseMessages.ParsePrinted | crates/app-server/src/lib.rs:1171-1187 | a printed event parses to its trimmed name and its data lines joined; an event without data and a comment to nothing |
| SseMessages.RoundTrip | crates/app-server/src/lib.rs:1027-1041 | print any list of events and comments and cut it anywhere: reading gives back that list, in order, with nothing left |
| SseMessages.ExactIff | crates/app-server/src/lib.rs:1178-1182 | a printed event comes back unchanged exactly when its name has no space at its ends and its data lines have none in front |
| SseMessages.SpacesAreLost | crates/app-server/src/lib.rs:1180-1181 | an instance: of two spaces in front of a data line both are lost |
| SseDialects.FrameIsRead | crates/app-server/src/lib.rs:1171-1187 | a frame of any field lines, with LF or with CRLF throughout, is read as its last event name, trimmed, and all its data lines, trimmed in front and joined; as nothing without a name or without data |
| SseDialects.FramesAreRead | crates/app-server/src/lib.rs:1027-1041 | print any such frames, in either line ending, and cut the text anywhere: what is read is what they say, in order, with nothing left |
| TurnStream.ReadFrames | crates/app-server/src/lib.rs:1037-1081 | the inner loop does to output and position what consuming the drained frames one by one does |
| TurnStream.StreamTurnEvents | crates/app-server/src/lib.rs:1010-1085 | the outer loop writes one delta line for each delta of the stream function, in order, and ends as it does |
| TurnStream.VerdictIff | crates/app-server/src/lib.rs:1139-1152 | the status of a completion is failed, interrupted or canceled exactly if it spells that word (or cancelled), in any ASCII case, and completed otherwise, also if it is absent |
| TurnStream.ConsumeDoneIff | crates/app-server/src/lib.rs:1068-1075 | the loop ends exactly at the first completion of its turn that everything before it lets through, with that completion's verdict and error |
| TurnStream.StreamMovesOn | crates/app-server/src/lib.rs:1046-1048 | whatever arrives, a turn that ends does so at or beyond the position it started from |
| RuntimeBridges.RuntimeBridge.EnsureRuntimeThread | crates/app-server/src/lib.rs:892-930 | a known stdio thread keeps its runtime thread; a new one gets the created one, without losing a position saved for that; a failed creation changes nothing |
| RuntimeBridges.RuntimeBridge.MessageThread | crates/app-server/src/lib.rs:932-1008 | output, answer and saved position are those of one exchange: no line without a turn, a closed group otherwise, and a position that moves only when the turn ended |
| RuntimeBridges.AnswerSpelled | crates/app-server/src/lib.rs:980-1007 | a turn is accepted exactly if its completion has none of the four words; else the answer is its error text, or the words for how it ended |
| RuntimeBridges.ExchangeKeepsPositions | crates/app-server/src/lib.rs:974-978 | no exchange moves a saved position back; one whose turn does not end leaves the bridge as it was |
| TurnRuns.FramesReceived | crates/app-server/src/lib.rs:1029-1037 | a connection that breaks anywhere has delivered exactly the frames of some first part of what was sent |
| TurnStream.StreamIsConsume | crates/app-server/src/lib.rs:1029-1084 | chunk by chunk the loop comes to what it would make of all frames at once |
| TurnRuns.ConsumeEntries | crates/app-server/src/lib.rs:1041-1080 | of a list of log entries the loop passes on the non-empty agent_message deltas of its own turn before the first completion, and finishes exactly when there is a completion, with the verdict its status spells |
| TurnRuns.WireToClient | crates/app-server/src/lib.rs:1010-1085 | from bytes to client: a finished turn saw its completion and passed on exactly the deltas owed of the entries sent |
| TurnRuns.CompletionArrives | crates/app-server/src/lib.rs:1068-1075 | when everything sent arrives within the size limit and holds the completion, the turn does finish |
| TurnRuns.InvNext | crates/app-server/src/lib.rs:968-978 | every step of bridge and runtime keeps every saved position within its thread's log, and moves none back, whether turns finish or fail |
| TurnRuns.TurnExact | crates/app-server/src/lib.rs:1041-1080 | a finished turn passed on exactly the deltas logged for it before its first completion, once each, in log order, nothing of another turn, of the log without its gap |
| TurnRuns.PositionIsCompletion | crates/app-server/src/lib.rs:974-978 | the position saved after a finished turn is the sequence number of its completion; a turn that does not finish leaves all positions alone |
| TurnRuns.GapLosesExactly | crates/tui/src/runtime_api.rs:2050-2085 | a finished turn reached its client in full exactly when the gap between backlog read and subscription spares it; on a log that completes the turn once, exactly when the turn had ended before the gap or has no delta in it |
| TurnRuns.SparesOnce | crates/tui/src/runtime_api.rs:2050-2085 | what sparing comes to when a turn completes once: ended before, or no delta inside |
| TurnRuns.GapCanLose | crates/tui/src/runtime_api.rs:2050-2085 | an instance: a turn reported complete whose only delta never reached the client |
| TurnRuns.TurnIsPrefix | crates/app-server/src/lib.rs:1029-1084 | a turn that breaks off anywhere has passed on a first part of what it owes and nothing else |
| UnaryCodec.CodecIsFaithful | crates/app-server/src/lib.rs:1044-1045 | there is a codec whose every envelope decodes to itself from lines that survive printing, so the theorems about turns speak of something |
| UnaryCodec.GapDoesLose | crates/tui/src/runtime_api.rs:2050-2085 | the losing instance for that codec, without any assumption |
| TurnRuns.RunKeepsInv | crates/tui/src/runtime_threads.rs:657-705 | at every point of every run no saved position is beyond its thread's log |
| TurnRuns.RunKeepsPositions | crates/app-server/src/lib.rs:968-978 | over every run, between any two points, no saved position moves back, also across failed turns |
| TurnRuns.EveryTurnExact | crates/app-server/src/lib.rs:932-1085 | in every run every finished turn passed on exactly what it owed, if and only if the gap spared it |
| BridgeSlot.InvNext | crates/app-server/src/lib.rs:769-793 | every step of acquiring, locking, finishing, invalidating and shutting down keeps the invariant: handles are known, nobody is killed twice, what is owned is held, one turn on a bridge |
| BridgeSlot.RunKeepsInv | crates/app-server/src/lib.rs:1104-1121 | the invariant holds at every point under every interleaving |
| BridgeSlot.KillsOnlyIdle | crates/app-server/src/lib.rs:1104-1121 | a child is killed only when no turn streams on it, by a shutdown holding the lock or with the last handle |
| BridgeSlot.LiveIsHeldIff | crates/app-server/src/lib.rs:796-815 | in every run every live child is within reach of a handle exactly as long as no start failed after its spawn and before its client was built |
| BridgeSlot.OrphanStays | crates/app-server/src/lib.rs:796-815 | a child leaked that way is out of reach for good |
| BridgeSlot.SlotStays | crates/app-server/src/lib.rs:769-784 | a cached bridge stays cached until an invalidation or a shutdown |
| BridgeSlot.SameBridge | crates/app-server/src/lib.rs:769-784 | two acquires with no invalidation or shutdown between them return the same bridge, however many children the race spawned |
| BridgeSlot.ReadTakesOrStarts | crates/app-server/src/lib.rs:772-774 | a cached bridge is taken without spawning anything; an empty slot makes the caller start one |
| BridgeSlot.StartEnds | crates/app-server/src/lib.rs:796-815 | a start ends with a bridge of its own or with none, and then its child is dead unless the client could not be built |
| BridgeSlot.InsertPrefersCached | crates/app-server/src/lib.rs:780-783 | the bridge cached meanwhile wins over the caller's own, whose child dies at once |
| BridgeSlot.TurnSteps | crates/app-server/src/lib.rs:738-751 | locking makes a caller stream; finishing gives up lock and handle, and the child dies exactly if that was the last handle |
| BridgeSlot.InvalidateEmpties | crates/app-server/src/lib.rs:786-793 | an invalidation empties the slot, and kills the bridge's child at once unless a caller still holds it |
| BridgeSlot.ShutdownKills | crates/app-server/src/lib.rs:1510-1513 | a shutdown takes the bridge out of the slot and kills its child |
| BridgeSlot.NoStaleAcquire | crates/app-server/src/lib.rs:786-793 | in every run nobody who looks at the slot after an invalidation or a shutdown gets the bridge that was in it |
| BridgeSlot.StepsEnabled | crates/app-server/src/lib.rs:755-784 | what each caller, invalidation and shutdown waits for: the slot while a shutdown has it, a bridge while a turn streams on it, and nothing else |
| BridgeSlot.NeverStuck | crates/app-server/src/lib.rs:755-793 | nobody waits for ever: there is always a step of one's own, a turn that can finish, or a shutdown that can kill |
| BridgeSlot.HandlesLiveIff | crates/app-server/src/lib.rs:1510-1513 | of all steps only a shutdown killing a bridge that a caller has acquired leaves a handle on a dead child |
| BridgeSlot.RunHandlesLiveIff | crates/app-server/src/lib.rs:1510-1513 | over whole runs: all handles lead to running children throughout exactly as long as no shutdown does that |
| BridgeSlot.OneAtATimeIsSafe | crates/app-server/src/lib.rs:275-342 | with one request at a time, as the stdio loop serves them, no handle ever leads to a dead child |
| BridgeSlot.TurnOnDeadChild | crates/app-server/src/lib.rs:724-738 | with several requests under way the slot alone does not prevent it: a run, which the one-request-at-a-time stdio loop cannot produce, in which a turn streams on a child killed before |
| AppServer.AppState.ApplyConfigUpdate | crates/app-server/src/lib.rs:1691-1716 | the whole new state after an update: disk if asked and possible, shared config, runtime, policy if given, no cached bridge |
| AppServer.AppState.ProcessAppRequest | crates/app-server/src/lib.rs:1524-1678 | the state and outcome of each request are those of the request function the lemmas are about |
| AppServer.AppState.AcquireBridge | crates/app-server/src/lib.rs:769-784 | with one caller: the cached bridge, or a new one running on the config on disk |
| AppServer.AppState.HandleThreadMessage | crates/app-server/src/lib.rs:724-751 | state, verdict and output of a message are those of the message function |
| AppServer.AppState.AnnounceModel | crates/core/src/lib.rs:1285-1300 | a prompt request prints one closed group with the one delta model-selected |
| AppServer.AppState.Dispatch | crates/app-server/src/lib.rs:1211-1522 | state, reply and streamed lines of a request are those of the dispatch function |
| AppServer.AppState.Handle | crates/app-server/src/lib.rs:281-339 | one round of the loop, from the line read to the lines written; or an edit of the files from outside, between two lines |
| AppServer.AppState.RunStdio | crates/app-server/src/lib.rs:275-342 | final state and whole output are those of the run function, which stops at the first shutdown |
| AppServer.RoundKeepsCoherent | crates/app-server/src/lib.rs:1550-1621 | after every round shared config and runtime config are equal and a cached bridge was spawned after the last applied update, on that config if it is what the disk holds and nobody else has edited the disk since |
| AppServer.OnlyReloadsMovePolicy | crates/app-server/src/lib.rs:1588-1621 | the policy is what the last successful reload found; config and disk move with edits and successful reloads only; a failed reload changes nothing |
| AppServer.UpdateReachesAll | crates/app-server/src/lib.rs:1691-1716 | one update reaches the shared config, the runtime, the bridge and, if it can be saved, the disk, even when the edit reports an error |
| AppServer.AppRequestsDone | crates/app-server/src/lib.rs:1524-1678 | a set installs the config the editor's assignment gives and an unset that of its removal, each with that edit's verdict; a reload installs what it finds; the first answer to a request is recorded, a second refused |
| AppServer.ConfigIsLastWritten | crates/app-server/src/lib.rs:1550-1621 | over every run, with an editor that takes every key, each key ends up as the last set, unset or reload reached left it |
| AppServer.ShutdownDropsBridge | crates/app-server/src/lib.rs:1510-1518 | a shutdown lets go of the bridge and of nothing else |
| AppServer.NothingAfterShutdown | crates/app-server/src/lib.rs:327-331 | whatever follows a shutdown is not read |
| AppServer.PromptAnnounces | crates/core/src/lib.rs:1285-1300 | a prompt is announced by a start, the one delta model-selected and an end, whether it then succeeds or fails |
| AppServer.GroupNamesThread | crates/app-server/src/lib.rs:742-751 | the group of a message names the runtime thread its stdio thread was on, or else the one just created, which it is on from then on |
| AppServer.AnswersStay | crates/app-server/src/lib.rs:1650-1677 | a recorded answer is never replaced, and a second submission is told so |
| AppServer.PolicyIsLastReloaded | crates/app-server/src/lib.rs:1588-1621 | over every run the policy ends up as the last successful reload before the first shutdown found it, and as it was if there was none |
| AppServer.RunKeepsAnswers | crates/app-server/src/lib.rs:1650-1677 | over every run a recorded answer stands |
| AppServer.NotificationsIff | crates/app-server/src/lib.rs:640-658 | a run answers a request without an id exactly when it gets to one, up to and including the first shutdown |
| AppServer.NotificationAnswered | crates/app-server/src/lib.rs:640-646 | an instance: a health check without an id, answered with a null id |
| AppServer.AppState.constructor | crates/app-server/src/lib.rs:470-520 | a server starts coherent, on the config and policy it loaded, with no bridge and no answers |
| AppServer.CachedBridgeMovesOn | crates/app-server/src/lib.rs:724-751 | while a bridge stays cached, threads keep their runtime threads and no position moves back |
| AppServer.AcceptedIff | crates/app-server/src/lib.rs:980-1007 | a message gets a result exactly when bridge, thread, turn and connection are there and the stream is read to a completion whose status is absent or none of the four words |
| AppServer.RoundResponds | crates/app-server/src/lib.rs:281-339 | each line read gets nothing if blank, else at most one closed group with one response id and then one reply with the right id and error code; no message is accepted without a group, and every prompt has one, even if it fails |
| AppServer.TranscriptReplies | crates/app-server/src/lib.rs:640-658 | in a transcript the ids of the replies are exactly those owed, in order, null for lines without one |
| AppServer.RunResponds | crates/app-server/src/lib.rs:275-342 | every run writes a transcript of its input up to the first shutdown and ends coherent |
| Sessions.MessageDeliversOwed | crates/app-server/src/lib.rs:724-751 | from log to stdout: a message whose turn finishes writes one group with exactly the deltas owed of the delivered log, and is accepted exactly when the completion's status is absent or none of the four words |
| Sessions.MessageInFullIff | crates/app-server/src/lib.rs:724-751 | the group holds everything owed of the whole log exactly when the gap spared the turn |
| Sessions.PositionsStayInStep | crates/app-server/src/lib.rs:976-978 | after a message the bridge's saved positions are those of the run on the runtime's side |
| Sessions.LinkedNext | crates/app-server/src/lib.rs:790-793 | whatever a session does next, also when a bridge is dropped and another spawned, the bridge's saved positions are those of the runtime's sound world |
| Sessions.MessageIsOwed | crates/app-server/src/lib.rs:932-1008 | the lines of any message: no group without a turn, an empty one without a connection, otherwise a first part of what the turn owes, all of it if the turn finishes |
| Sessions.SessionIsOwed | crates/app-server/src/lib.rs:275-342 | over a whole session, bridges coming and going, turns failing and the runtime logging as it likes, every group of the stdio output is the one owed |
| Sessions.StartIsLinked | crates/app-server/src/lib.rs:470-520 | a server just started, beside any good logs, is the start of such a session |
| Sessions.ApartNext | crates/app-server/src/lib.rs:892-930 | in every session different stdio threads stay on different runtime threads |
| SessionExample.FirstMessage | crates/app-server/src/lib.rs:724-751 | the first message of a server beside an empty runtime delivers all its turn owes, for any log that completes the turn, and is accepted exactly if it ended well |
| SessionExample.FirstMessageIsSession | crates/app-server/src/lib.rs:275-342 | every such message is a session in the sense of the theorems above, so they speak of something |
| SessionExample.SaysHi | crates/app-server/src/lib.rs:724-751 | an instance: one group that says hi, and an accepting reply |
| ConfigRaces.AloneIsServed | crates/app-server/src/lib.rs:1550-1621 | a set, unset or reload that no other interrupts leaves shared config and runtime equal to the old config with its edit, or to the disk; and the disk likewise if it saves |
| ConfigRaces.OneByOneAgrees | crates/app-server/src/lib.rs:1550-1621 | taken one at a time each builds on what the one before left, shared config and runtime agree after each, and the disk too when every save succeeds |
| ConfigRaces.RunIsAfter | crates/app-server/src/lib.rs:1550-1564 | a run is determined by its start and its schedule, so theorems about schedules are about runs |
| ConfigRaces.VersionsInPlace | crates/app-server/src/lib.rs:1550-1621 | at any point of any schedule of changes and reloads, saves failing or not, the shared config is the version of its last writer, the disk that of the last to save, the runtime that of the last to push |
| ConfigRaces.OriginCarries | crates/app-server/src/lib.rs:1600-1616 | a reload carries the version of the change that was last saved before it read the disk |
| ConfigRaces.AgreementIff | crates/app-server/src/lib.rs:1691-1716 | the three agree exactly when those three requests carry equal snapshots |
| ConfigRaces.EditTouchesItsKey | crates/app-server/src/lib.rs:1550-1579 | an edit touches its own key and no other, a rejected one none |
| ConfigRaces.ScheduleAgreesIff | crates/app-server/src/lib.rs:1691-1716 | a schedule, of any number of changes and reloads, leaves them in agreement whatever is set exactly when all three are one request's change |
| ConfigRaces.NothingLostIff | crates/app-server/src/lib.rs:1551-1558 | of changes to different keys, each of which changes something, no edit made so far is missing exactly when every edit found the latest version in the shared config and it is there now |
| ConfigRaces.OutOfLineParts | crates/app-server/src/lib.rs:1551-1558 | an edit that did not parts two edits for good: no config afterwards holds both |
| ConfigRaces.TwoLoseNothingIff | crates/app-server/src/lib.rs:1551-1558 | two such changes gone through to the end lose nothing exactly when the one that edits last shares last |
| ConfigRaces.OverlapLosesUpdate | crates/app-server/src/lib.rs:1551-1558 | two overlapping sets, both answered, one of which left no trace |
| ConfigRaces.OverlapBreaksAgreement | crates/app-server/src/lib.rs:1691-1716 | two overlapping sets after which the shared config has a key the runtime lacks |
| ConstantTime.ConstantTimeEq | crates/app-server/src/lib.rs:622-630 | true exactly for equal byte strings of any lengths, in as many rounds as the longer one is long |
| ConstantTime.XorIsZeroIff | crates/app-server/src/lib.rs:623 | exclusive or is zero exactly for equal words, lengths included |
| ConstantTime.OrIsZeroIff | crates/app-server/src/lib.rs:627 | a collected difference never disappears again |
| ConstantTime.WithinWidth | crates/app-server/src/lib.rs:623-627 | on words of any width both operators stay within it, so nothing is cut off in a machine word |
| Glob.WildcardCharsMatch | crates/config/src/harness.rs:222-247 | never true without a match, true for every match when pattern and value do not both hold a star, within the stated number of iterations |
| Glob.ScanSound | crates/config/src/harness.rs:228-246 | from any state of the loop, acceptance means that the state can still be completed to a match |
| Glob.NewStarSubsumesOld | crates/config/src/harness.rs:234-237 | the exchange argument: what moving an earlier star on could still match, the latest star can match too, so forgetting the earlier one is safe |
| Glob.ScanComplete | crates/config/src/harness.rs:228-246 | from any state that can be completed to a match the loop accepts, when pattern and value do not both hold a star |
| Glob.AgreesOnValueIff | crates/config/src/harness.rs:228-233 | the loop agrees with the match relation for every pattern exactly on values without a star |
| Glob.AgreesOnPatternIff | crates/config/src/harness.rs:228-233 | the loop agrees with the match relation for every value exactly on patterns without a star |
| Glob.StarMissesStar | crates/config/src/harness.rs:228-233 | an instance: `*` rejects `*a`, which it matches |
| Credentials.CredentialStore.ClearFromConfig | crates/cli/src/lib.rs:1935-1940 | the provider's block goes, and for Deepseek the root key; nothing else |
| Credentials.CredentialStore.Persist | crates/cli/src/lib.rs:1909-1933 | an accepted key is in the slot and nowhere in the config; a refused one is in the config, and what the slot held stays |
| Credentials.CredentialStore.Clear | crates/cli/src/lib.rs:2309-2317 | the key is gone from both places |
| Credentials.CredentialStore.MigrateProvider | crates/cli/src/lib.rs:2373-2406 | one provider's share: on a dry run only a report, otherwise its key moves or stays as a whole |
| Credentials.CredentialStore.Migrate | crates/cli/src/lib.rs:2368-2406 | a dry run changes nothing and reports the plaintext keys; a real one reports exactly what it moved |
| Credentials.HoldersIff | crates/cli/src/lib.rs:2375-2397 | a dry run reports exactly the providers that have a plaintext key |
| Credentials.SlotsMeetIff | crates/cli/src/lib.rs:1862-1868 | two providers share a slot exactly if they are one or the Siliconflow pair |
| Credentials.MovedIff | crates/cli/src/lib.rs:2373-2406 | exactly the reported providers lose their plaintext key, and each of them had one |
| Text.BlankIsTrimmedAway | crates/cli/src/lib.rs:1991 | blank keys are those that trimming leaves nothing of |
| Text.TrimIff | crates/agent/src/lib.rs:1182-1184 | trimming leaves the one core that begins and ends without white space, with nothing but white space around it |
| Text.SpacesListed | crates/app-server/src/lib.rs:1179 | white space is Unicode's White_Space, character by character |
| Text.ScriptSpacesListed | npm/runtime-sdk/index.js:192 | what trimStart removes in JavaScript, character by character |
| Text.LowerTells | crates/agent/src/lib.rs:1182-1184 | lower-casing tells two texts apart exactly if they differ in more than ASCII case |
| Credentials.SetTakesEffectIff | crates/cli/src/lib.rs:1909-1933 | a set takes effect unless a blank key could not be saved over a stored one; other slots are untouched |
| Credentials.ClearTakesEffect | crates/cli/src/lib.rs:2309-2317 | after a clear there is no effective key; other slots are untouched |
| Credentials.MigrateAtKeepsIff | crates/cli/src/lib.rs:2375-2406 | one migration step shows in the effective key exactly when it brings out a root key hidden by a blank block |
| Credentials.MigratedUnsharedAt | crates/cli/src/lib.rs:2373-2406 | what a whole migration does to a provider with its own slot is what its own turn does |
| Credentials.MigrateKeepsUnsharedIff | crates/cli/src/lib.rs:2368-2406 | a provider with its own slot keeps its effective key whichever writes fail, unless it is Deepseek with a hidden root whose write succeeds |
| Credentials.MigrateKeepsPair | crates/cli/src/lib.rs:1862-1868 | the two providers that share a slot keep theirs if they agree beforehand |
| Credentials.MigrateCompletes | crates/cli/src/lib.rs:2368-2406 | if all writes succeed no plaintext key is left, and a second migration changes nothing |
| Credentials.MigratePreservesIff | crates/cli/src/lib.rs:2368-2406 | every effective key is kept under every pattern of failing writes exactly when the pair agrees and no root key is hidden |
| Credentials.DoRefinesIff | crates/cli/src/lib.rs:2258-2317 | one command does to effective keys what it does to a plain map exactly when it does not stray |
| Credentials.RunRefinesPlainMapIff | crates/cli/src/lib.rs:1909-2012 | over every run of login, set, clear and migrate with failing writes, each provider with its own slot has the key a plain map driven by the same commands holds, at every point, exactly when no command strays: no blank key that could not be saved over a stored one, no hidden root brought out |
| Credentials.TamedRunsRefine | crates/cli/src/lib.rs:1909-1933 | no command strays when keys are not blank or can be saved and no root is hidden at the start |
| Credentials.HiddenRootComesOut | crates/cli/src/lib.rs:2375-2386 | an instance: a root key behind a blank block is not in use before a migration and is after it |
| Credentials.BlankSetIsIgnored | crates/cli/src/lib.rs:1909-1933 | an instance: a blank key that cannot be saved leaves the old one in use |
| Providers.AllListsEveryProvider | crates/config/src/provider_kind.rs:136-171 | the list a migration goes through misses no provider |
| ModelRegistry.Registry.constructor | crates/agent/src/lib.rs:1048-1057 | the finished index agrees with the linear scan on every key |
| ModelRegistry.Registry.ClaimNames | crates/agent/src/lib.rs:1050-1055 | one model claims its id and then each alias |
| ModelRegistry.AllClaimedHolds | crates/agent/src/lib.rs:1051-1054 | claiming adds exactly the new names and overturns no earlier claim |
| ModelRegistry.OneMoreModel | crates/agent/src/lib.rs:1050-1055 | after one more model the index still agrees with the scan, and covers that model too |
| ModelRegistry.MatchesIff | crates/agent/src/lib.rs:1241-1248 | a model matches a name exactly if its id or an alias is that name letter by letter, but for ASCII case and white space around it |
| ModelRegistry.IndexIsFirstNamed | crates/agent/src/lib.rs:1048-1057 | a name leads to the first model that goes by it in this sense, and to nothing exactly when none does |
| ModelRegistry.IndexIsDetermined | crates/agent/src/lib.rs:1048-1057 | there is only one index that agrees with the scan |
| ModelRegistry.Registry.Resolve | crates/agent/src/lib.rs:1077-1179 | fallback exactly when the hint is not Ollama, passes nothing through and no model goes by the name; which model, letter for letter, in every case; fallback stays with the hinted provider when it has a model |
| ModelRegistry.PassesIff | crates/agent/src/lib.rs:1258-1302 | Atlascloud passes any name with a slash through, Arcee any that is not blank, Xiaomi any without a control character inside, and nobody else anything |
| ModelRegistry.ResolvesAlike | crates/agent/src/lib.rs:1077-1184 | case and outer white space of a name never matter: the same model up to the case of its id, and the same word on fallback |
| ModelRegistry.Registry.InferredProvider | crates/app-server/src/chat_completions.rs:166-177 | the configured provider exactly when it has a match or passes the name through, else the provider of the first match anywhere, else none |
| ModelRegistry.InfersAlike | crates/app-server/src/chat_completions.rs:166-177 | nor do they for the inferred provider |
| UpstreamUrl.VersionedEnds | crates/app-server/src/chat_completions.rs:241-248 | a versioned URL ends in a version segment and in no slash |
| UpstreamUrl.VersionedIdempotent | crates/app-server/src/chat_completions.rs:241-248 | versioning twice is versioning once |
| UpstreamUrl.UnversionedOfVersioned | crates/app-server/src/chat_completions.rs:250-258 | adding a version first does not change what is left when it is taken off |
| UpstreamUrl.EndpointOfVersioned | crates/app-server/src/chat_completions.rs:219-239 | versioning the base URL beforehand changes no endpoint |
| UpstreamUrl.TrailingSlashesIgnored | crates/app-server/src/chat_completions.rs:219-258 | trailing slashes change neither the endpoint nor the two base forms |
| UpstreamUrl.EndpointIsNumbered | crates/app-server/src/chat_completions.rs:228-238 | without a path suffix the endpoint is /chat/completions right under v and digits, never beta, never missing |
| UpstreamUrl.VersionSpelled | crates/app-server/src/chat_completions.rs:264-270 | a version segment is the word beta, or a v with at least one digit and nothing else, in any ASCII case |
| UpstreamUrl.EndpointWithSuffix | crates/app-server/src/chat_completions.rs:219-226 | a path suffix goes right under the root: a version at the end of the base makes way, anything else stays, slashes where they meet come to one |
| UpstreamUrl.EndpointWithoutSuffix | crates/app-server/src/chat_completions.rs:227-238 | without one a numbered version stays, beta gives way to v1, and v1 is added to what has no version; a blank suffix counts as none |
| UpstreamUrl.BuildUrl | crates/app-server/src/chat_completions.rs:219-239 | the method builds that endpoint |
| SdkEventStream.ParseEventStream | npm/runtime-sdk/index.js:166-198 | for every text and every cutting of it the consumer sees the events of the leftmost split at LFLF, the remainder as a last frame, up to the first frame that does not decode |
| SdkEventStream.FrameIsParsed | npm/runtime-sdk/index.js:188-198 | a frame of any field lines comes to its data lines, trimmed in front and joined; to nothing if that is empty or the end marker |
| SdkEventStream.YieldsUpToBad | npm/runtime-sdk/index.js:166-186 | the consumer gets what the frames come to, in order, up to the first that does not decode, and the reader throws on that one |
| SdkEventStream.CrlfStreamIsOneFrame | npm/runtime-sdk/index.js:172-174 | a stream with CRLF line ends is never cut |
| SdkEventStream.PiecesJoin | npm/runtime-sdk/index.js:174-179 | the split loses nothing of the text |
| SdkEventStream.PiecesAreLeftmost | npm/runtime-sdk/index.js:174-179 | no piece could have been cut earlier |
| SdkEventStream.PiecesOfJoin | npm/runtime-sdk/index.js:174-179 | a text has no other leftmost split |
| HtmlStrip.FindClosingRawTextTag | web/lib/content-watch.ts:164-173 | the scan ends where the raw text does |
| HtmlStrip.PastClosingIsFirst | web/lib/content-watch.ts:164-173 | raw text ends at the end of the first tag that closes it if there is one, otherwise with the input |
| HtmlStrip.RawTagSpelled | web/lib/content-watch.ts:150-162 | a script or style element opens and closes with its whole name, letter by letter in any ASCII case, with the name ending there |
| HtmlStrip.SegmentsIff | web/lib/content-watch.ts:190-216 | there is exactly one list of segments in which no text is a `<`, a tag runs to its first `>`, and a script or style element runs from an opening tag to the end of the first tag that closes it, each cut off by the end of the input at most; and the scanner's is that list |
| HtmlStrip.SegmentsAreInput | web/lib/content-watch.ts:190-216 | those segments together are the input, in order |
| HtmlStrip.VisibleAt | web/lib/content-watch.ts:190-216 | the visible text has one character for each segment: its own for text, a space for a tag or a raw element, so what stood on both sides stays apart |
| HtmlStrip.VisibleHasNoBracket | web/lib/content-watch.ts:190-216 | no `<` is ever visible text |
| HtmlStrip.StripMarkup | web/lib/content-watch.ts:190-214 | for whatever way there is to segment the input, the output is its text, with a space for each tag and each raw element |
| HtmlStrip.CollapseWhitespace | web/lib/content-watch.ts:175-188 | the loop spells the words of its input with single spaces, trimmed |
| HtmlStrip.CollapsedIsNormal | web/lib/content-watch.ts:175-188 | no white character but single spaces, none at either end |
| HtmlStrip.CollapsedKeepsWords | web/lib/content-watch.ts:175-188 | collapsing keeps all words, in order |
| HtmlStrip.WhiteParts | web/lib/content-watch.ts:175-188 | words are parted by any white character, wherever it stands |
| HtmlStrip.RunIsWord | web/lib/content-watch.ts:175-188 | a run without white characters is one word |
| HtmlStrip.ScriptTrimSplits | web/lib/content-watch.ts:187 | the final trim takes nothing but white space, at the ends alone, and all of it there |
| HtmlStrip.CollapsedIff | web/lib/content-watch.ts:175-188 | exactly the normal, trimmed texts are left alone |
| HtmlStrip.CollapseIdempotent | web/lib/content-watch.ts:175-188 | collapsing twice is collapsing once |
| HtmlStrip.StripHtmlForPrompt | web/lib/content-watch.ts:190-217 | the result is the normal form of that text, cut to 8000 characters, without a `<` |
| HtmlStrip.StripIdempotent | web/lib/content-watch.ts:190-217 | before the cut, stripping what has been stripped changes nothing |

## Left out

- JSON and UTF-8 decoding: envelopes are already decoded, bytes are characters; a frame that is not valid UTF-8, which the code skips, does not occur.
- HTTP, child processes, sockets, timeouts and the readiness wait: they appear as outcomes that a step may have.
- Failing writes on stdout: the writer accepts every line.
- Failing reads and deletes of the secret store, and failures to save config.toml from the CLI.
- The fields a persisted key leaves behind besides the key itself (crates/cli/src/lib.rs:1877-1906), the scrubbing of config backups, and the warnings and report text of a migration.
- `codewhale logout`, which deletes one stored secret and is not an operation on the key map.
- Texts of replies and errors: a reply is a result with its ok flag, or an error with its code.
- Thread and goal requests of the stdio dispatcher: each is one outcome of the runtime. Of a prompt only what it prints and whether it fails. Hook sinks other than stdout. Thread hints only shape the request that creates a runtime thread.
- `set_value` and `unset_value` of the config are arbitrary functions; `update_config` and `reload_config_and_policy` install what they are given.
- Sequence numbers are unbounded; the code's saturating u64 is not modelled.
- `matches_route` and the comparison of provider routes around the glob matcher: a case distinction on top of it.
- The built-in model table: the registry is proved for every list of models.
- Non-ASCII letters in `eq_ignore_ascii_case`, ids compared with the ASCII lower case on both sides; UTF-16 code units in JavaScript strings are characters here.
- Request authentication beyond the token comparison, CORS, HTTP status codes and header maps: wide, easy case distinctions.
