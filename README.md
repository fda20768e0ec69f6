# Stranger chat and video matchmaking, modelled in Dafny

The system pairs anonymous strangers. A WebSocket server (`index.js`) keeps
one waiting queue per mode ("chat" and "video"). It pairs each new joiner
with a waiting connection and relays chat text and WebRTC signalling between
the two partners. It tears a pair down on "leave" or on disconnect, and it
terminates connections that stop answering its heartbeat pings. The video
page (`public/video.js`) negotiates a peer-to-peer connection over that relay
using the "perfect negotiation" pattern. The server's choice of initiator
makes the other side polite. An offer collision is resolved by the impolite
side ignoring the incoming offer. ICE candidates that arrive before a remote
description is applied are queued and flushed later.

The project has two halves. Each half is a pure state machine with lemmas
about it, plus a class with the program's own mutable variables. Every method
of the class is proved to have exactly the effect of one transition function.

- `Protocol.dfy`: the messages exchanged, and what a received frame parses to.
- `Sequences.dfy`: `Without`, the model of `Array.prototype.filter(e => e !== x)`, and its lemmas.
- `Matchmaking.dfy`, `MatchmakingProofs.dfy`, `RelayServer.dfy`: the server.
  The state holds the registered sockets, the open ones, the `isAlive` flags,
  `ws.mode`, both queues, the pairing map, a log of every send, ping and
  terminate, and the next connection identity.
- `Negotiation.dfy`, `NegotiationProofs.dfy`, `VideoClient.dfy`: the video client.
  - Each async handler is split at its awaits. The part before the first
    await is one step. The handler then waits as a suspended task holding
    the id of the peer connection it captured. A later event resumes it with
    the outcome of the browser calls it awaited.
  - A task whose connection has meanwhile been closed by `cleanup` finds
    every call on that connection rejected.
  - What the browser decides is a parameter of the step: the camera's
    tracks, whether `addIceCandidate` accepts a candidate, how far answering
    an offer got.

Two invariants are proved:

- Server: pairing is symmetric and irreflexive. Nobody waits twice, waits in
  both queues, or waits while paired. Every step of the server as written
  keeps it, as long as a connection joins only while it neither waits nor is
  paired.
- Client: connection ids only grow, and a connection never carries two
  senders for one track (`WellFormed`). Every step of the client as written
  keeps this. The second half, that no ICE candidate waits in the queue once
  the connection has a remote description (`NoStrandedCandidates`), holds
  only with the corrected answer handler (`NegotiationProofs.ValidNextCorrected`).
  The code as written breaks it (see Findings).

Where the code and the design documentation disagree, the model follows the
code:

- The documentation promises strict first-in-first-out pairing, for example
  "A, B and C wait, then D is paired with A". In the code a join pushes onto
  a queue only when the queue is empty, so a queue never holds more than one
  connection (`MatchmakingProofs.QueuesHoldAtMostOne`), and that scenario
  cannot arise.
- The documentation calls a connection's mode immutable. The code overwrites
  `ws.mode` on every join and does not guard against a second join. The model
  does the same, and witness lemmas show the effects.
- The documentation says queued candidates are applied once the remote
  description is applied. The code does so only on the offer path (see
  Findings).

## Model

| member | source | states |
|---|---|---|
| Sequences.Without | index.js:96-97 | filtering never lengthens the sequence |
| Sequences.WithoutMembers | index.js:96-97 | filtering keeps exactly the elements other than `x` |
| Sequences.WithoutAppend | index.js:96-97 | filtering distributes over concatenation, so the survivors keep their relative order |
| Sequences.WithoutAbsent | index.js:96-97 | filtering out an element that is not there changes nothing |
| Sequences.WithoutNoDup | index.js:96-97 | filtering keeps a duplicate-free queue duplicate-free |
| Matchmaking.Accept | index.js:27-29 | the new connection is registered, open and alive, the next id grows, and queues, pairs, modes and log are untouched |
| Matchmaking.PairClients | index.js:17-25 | the two are recorded as each other's partner, every other pair is kept, the queues are untouched, and exactly two messages are appended to the log |
| Matchmaking.HandleJoin | index.js:40-58 | the joiner's mode is recorded; registration, openness and liveness are untouched; at most two messages are sent; a mode other than "chat" or "video" changes no pair and sends nothing |
| Matchmaking.HandleRelay | index.js:61-73 | only the log can change, and then by one send of the message to the sender's partner |
| Matchmaking.HandleLeave | index.js:75-84 | the sender has no partner afterwards and no new pair appears; registration, openness, liveness and queues are untouched; at most one message is sent |
| Matchmaking.HandleClose | index.js:87-98 | the connection is unregistered, not open, unpaired and waits in neither queue; the log only grows |
| Matchmaking.HandlePong | index.js:30 | the connection's flag is set and nothing else changes |
| Matchmaking.Beat | index.js:103-106 | a connection whose flag is false is closed; any other gets its flag cleared; one log entry either way; only openness, flags and log change |
| Matchmaking.BeatAll | index.js:103-107 | the heartbeat loop changes no queue, pair, mode or registration; it only closes sockets and writes exactly one log entry per connection |
| Matchmaking.Heartbeat | index.js:102-108 | a heartbeat changes no registration, pair or queue, only closes sockets, and writes one log entry per registered connection |
| Matchmaking.Receive | index.js:32-85 | an unparseable frame changes nothing; no message changes registration, openness or liveness; a new pair entry only ever involves the sender or a waiting connection |
| Matchmaking.ReceiveAsWritten | index.js:32-40 | every frame other than JSON `null` is handled as `Receive` handles it (a `null` frame crashes the process) |
| Matchmaking.Next | index.js:27-108 | no event shrinks the log or the next connection id |
| MatchmakingProofs.JoinEmptyQueueWaits | index.js:40-58 | joining a mode with an empty queue appends the joiner to that queue and sends it one "waiting"; the other queue and the pairs are unchanged |
| MatchmakingProofs.JoinPairsWithLongestWaiting | index.js:17-25 | joining a mode with a non-empty queue dequeues exactly the head, pairs it with the joiner both ways, and tells the joiner it initiates and the head that it does not |
| MatchmakingProofs.JoinOtherModeChangesNothing | index.js:40-59 | a join with any other mode only records the mode |
| MatchmakingProofs.RelayOnlyToOpenPartner | index.js:61-73 | chat, offer, answer and ice reach the partner unchanged exactly when a partner exists and is open; otherwise nothing changes |
| MatchmakingProofs.UnknownInputDropped | index.js:32-38 | unparseable frames and unknown message types have no effect |
| MatchmakingProofs.NullFrameCrashesServer | index.js:32-40 | a JSON `null` frame crashes the server as written, while the corrected handler drops it |
| MatchmakingProofs.LeaveWhilePaired | index.js:75-84 | "leave" removes both pair entries and notifies the partner once if it is open; the queues are untouched |
| MatchmakingProofs.LeaveWhileUnpaired | index.js:75-84 | "leave" without a partner changes nothing |
| MatchmakingProofs.RepeatedLeaveNotifiesOnce | index.js:75-84 | a second "leave" changes nothing, so "partner-left" is sent at most once |
| MatchmakingProofs.LeaveLeavesNoDanglingPartner | index.js:75-84 | with symmetric pairing, teardown leaves no entry pointing at either former partner and keeps the map symmetric |
| MatchmakingProofs.CloseTearsDown | index.js:87-98 | "close" removes exactly the pair both ways, notifies an open partner once, filters the connection out of both queues in order, unregisters it and closes it; flags, modes and the next id are unchanged |
| MatchmakingProofs.CloseIdempotent | index.js:87-98 | a second close changes nothing |
| MatchmakingProofs.TickOutputsExactly | index.js:102-108 | a heartbeat terminates exactly the connections whose flag is false and pings every other one |
| MatchmakingProofs.BeatAllEffect | index.js:102-108 | over distinct connections the heartbeat's log, its closed sockets and its new flags are given in closed form |
| MatchmakingProofs.SilentConnectionTerminatedBySecondTick | index.js:102-108 | a connection that never answers is terminated by the second heartbeat at the latest |
| MatchmakingProofs.PongedConnectionSurvivesTick | index.js:29-30 | a connection that answered the last ping is pinged again, not terminated |
| MatchmakingProofs.NewConnectionLifetime | index.js:27-30 | a new connection survives its first heartbeat and, if silent, is terminated by the second |
| MatchmakingProofs.QueuesHoldAtMostOne | index.js:40-58 | no event ever makes a queue longer than one |
| MatchmakingProofs.JoinKeepsQueuesShort | index.js:40-58 | a join never makes a queue longer than one |
| MatchmakingProofs.ValidInitial | index.js:12-14 | the empty server satisfies the invariant |
| MatchmakingProofs.ValidAccept | index.js:27-29 | accepting a connection keeps the invariant |
| MatchmakingProofs.ValidEnqueue | index.js:40-58 | queueing a joiner keeps the invariant |
| MatchmakingProofs.ValidDequeue | index.js:17-25 | pairing a joiner with the head keeps the invariant |
| MatchmakingProofs.PopKeepsNoDup | index.js:44 | shifting the head off a duplicate-free queue leaves a duplicate-free queue without it |
| MatchmakingProofs.ValidAfterPairing | index.js:17-25 | any state that pairs the joiner with the head of a queue and pops it, changing nothing else that the invariant reads, keeps the invariant |
| MatchmakingProofs.ValidJoin | index.js:40-58 | a join by a connection that neither waits nor is paired keeps the invariant |
| MatchmakingProofs.ValidLeave | index.js:75-84 | "leave" keeps the invariant |
| MatchmakingProofs.ValidClose | index.js:87-98 | "close" keeps the invariant |
| MatchmakingProofs.ValidAfterClose | index.js:87-98 | any state shaped as `CloseTearsDown` describes keeps the invariant |
| MatchmakingProofs.ValidNext | index.js:27-108 | every admissible event keeps the invariant |
| MatchmakingProofs.RejoinWhileWaitingPairsWithItself | index.js:40-58 | the only waiting connection joining the same mode again is paired with itself |
| MatchmakingProofs.RejoinOtherModeWaitsTwice | index.js:40-58 | a connection waiting for chat that joins video waits in both queues |
| MatchmakingProofs.RejoinWhilePairedBreaksSymmetry | index.js:17-25 | a paired connection joining again while someone waits leaves the pairing asymmetric |
| MatchmakingProofs.PairThenDisconnect | index.js:40-98 | A waits, B's join pairs B (initiator) with A, and B's disconnect tells A once and leaves A neither waiting nor paired |
| RelayServer.Server.OnConnection | index.js:27-30 | registers a fresh, open, alive connection, as `Accept` does |
| RelayServer.Server.PairClients | index.js:17-25 | records the pair both ways and sends both "paired" messages |
| RelayServer.Server.TearDown | index.js:75-84 | removes the pair and notifies an open partner, as `HandleLeave` does |
| RelayServer.Server.OnMessage | index.js:32-85 | the message handler's effect is exactly `Receive` |
| RelayServer.Server.OnClose | index.js:87-98 | the close handler's effect is exactly `HandleClose` |
| RelayServer.Server.OnPong | index.js:30 | sets the connection's flag |
| RelayServer.Server.Heartbeat | index.js:102-108 | the interval body's loop has exactly the effect of `Heartbeat` |
| Negotiation.EnsurePeerConnection | public/video.js:46-47 | returns the existing connection unchanged if there is one, else a new connection with nothing negotiated; nothing else changes |
| Negotiation.AttachTracks | public/video.js:103-107 | existing senders stay first and in order, every track ends with a sender, only tracks are added, and no duplicate sender is created |
| Negotiation.AttachLocalMedia | public/video.js:96-108 | the local stream is kept once obtained and every one of its tracks has a sender |
| Negotiation.DrainPending | public/video.js:175-179 | the flush always empties the candidate queue, leaves a non-current connection alone and changes no flag, task or send |
| Negotiation.Admitted | public/video.js:176-179 | the flush never adds more candidates than were queued |
| Negotiation.StartOffer | public/video.js:111-115 | `makingOffer` is raised, a connection exists, one offer task is suspended, and nothing is sent or queued |
| Negotiation.FinishOffer | public/video.js:116-124 | `makingOffer` is cleared, the task is removed, sends only grow, the queue is untouched, and a stale task leaves the connection and sends alone |
| Negotiation.OnPaired | public/video.js:137-149 | politeness is the negation of `initiator` and a connection exists; nothing is sent or queued |
| Negotiation.OnOffer | public/video.js:151-161 | a connection exists; nothing is sent or queued; politeness and `makingOffer` are kept; the polite side never ignores and always starts setting the remote description |
| Negotiation.FinishAnswering | public/video.js:162-179 | `isSettingRemoteDesc` is cleared and the queue emptied, the task is removed, sends only grow, and a stale task leaves the connection and sends alone |
| Negotiation.OnAnswer | public/video.js:183-188 | a connection exists and an existing one is kept; nothing is sent or queued |
| Negotiation.SettleAnswerAsWritten | public/video.js:187-197 | the queue and sends are untouched, the task is removed, and an answer that does not take leaves the connection alone |
| Negotiation.SettleAnswer | public/video.js:183-198 | when the answer takes the connection has a remote description and the queue is empty; otherwise queue and connection are untouched; nothing is sent |
| Negotiation.OnIce | public/video.js:200-214 | a connection exists, no task or send changes, and the queue is either kept or grows by the candidate at the back |
| Negotiation.Cleanup | public/video.js:235-254 | connection and stream are dropped, the queue emptied and the three flags cleared; politeness, tasks and sends are kept |
| Negotiation.Receive | public/video.js:128-232 | no message sends anything before an await or lowers the next connection id; "partner-left" drops the connection; "waiting", "chat" and unknown types change nothing |
| Negotiation.NextAsWritten | public/video.js:128-232 | no step of the client as written retracts a send or lowers the next connection id |
| Negotiation.NextCorrected | public/video.js:128-232 | no step retracts a send or lowers the next connection id, and only the answer handler's resumption differs from the program as written |

| NegotiationProofs.EnsurePeerConnectionIdempotent | public/video.js:46-47 | a second `createPeerConnection` returns the same connection and changes nothing |
| NegotiationProofs.AttachCovered | public/video.js:103-107 | tracks that all have a sender add nothing |
| NegotiationProofs.AttachTracksIdempotent | public/video.js:103-107 | attaching the same tracks twice adds nothing the second time |
| NegotiationProofs.AttachLocalMediaEffect | public/video.js:96-108 | attaching media is idempotent and keeps senders duplicate-free; it touches only the stream, the senders and possibly creates the connection |
| NegotiationProofs.PairedAssignsRoles | public/video.js:137-149 | "paired" makes the initiator impolite and the other side polite, and only the initiator starts an offer |
| NegotiationProofs.StartOfferRaisesFlag | public/video.js:111-115 | making an offer raises `makingOffer` and suspends one offer task |
| NegotiationProofs.FinishOfferEffect | public/video.js:116-124 | `makingOffer` is cleared whatever happens; the offer is sent exactly when it was made on the current connection in a state that takes it |
| NegotiationProofs.OfferIgnoredExactlyOnCollision | public/video.js:151-161 | an offer is ignored iff the client is impolite and is making an offer or is not stable; an ignored offer changes only `ignoreOffer`, an accepted one raises `isSettingRemoteDesc` and starts answering |
| NegotiationProofs.PoliteNeverIgnoresOffer | public/video.js:154-155 | the polite side never ignores an offer |
| NegotiationProofs.GlareResolvedByPoliteness | public/video.js:151-161 | when both peers offer at once, exactly one of them yields, and that one is the polite side |
| NegotiationProofs.AnswerDroppedWhileSettingRemote | public/video.js:183-193 | an answer arriving while a remote description is being set is dropped; otherwise it is applied |
| NegotiationProofs.IceAppliedOrQueued | public/video.js:200-214 | a candidate is added at once when the connection has a remote description, and is otherwise queued at the back |
| NegotiationProofs.AdmittedExactly | public/video.js:176-179 | the flushed candidates that are added are exactly those not rejected |
| NegotiationProofs.AdmittedAppend | public/video.js:176-179 | the flush treats each candidate on its own and in order |
| NegotiationProofs.AdmittedAll | public/video.js:176-179 | with no rejection every queued candidate is added in arrival order |
| NegotiationProofs.FailedCandidateDoesNotStopDrain | public/video.js:178 | a rejected candidate does not stop the candidates after it |
| NegotiationProofs.AdmittedRejectedOne | public/video.js:178 | a rejected candidate adds nothing |
| NegotiationProofs.FinishAnsweringEffect | public/video.js:162-179 | after answering, `isSettingRemoteDesc` is clear and the queue empty; on the current connection the queued candidates are added in order; the answer is sent only when produced |
| NegotiationProofs.SettleAnswerAsWrittenKeepsQueue | public/video.js:183-198 | the answer handler as written leaves the queued candidates where they are |
| NegotiationProofs.SettleAnswerDrains | public/video.js:183-198 | the corrected answer handler adds the queued candidates in order once the answer takes |
| NegotiationProofs.CleanupResets | public/video.js:235-254 | cleanup drops the connection and stream, resets the flags and queue, keeps politeness, and is idempotent |
| NegotiationProofs.StaleTaskCannotTouchNewConnection | public/video.js:222-227 | after "partner-left", the connection created next, by any handler or by either kind of "paired", has an id no suspended task holds |
| NegotiationProofs.StaleResumptionLeavesConnection | public/video.js:116-124 | a task resumed after its connection was replaced leaves the current connection and the sends unchanged, as written and corrected alike |
| NegotiationProofs.StaleAnswerHandlerClearsNewSession | public/video.js:171-179 | the `finally` and flush of an offer handler from a closed session clear `isSettingRemoteDesc` and empty the queue of the new session, losing its queued candidate |
| NegotiationProofs.StaleOfferHandlerClearsNewSession | public/video.js:122-124 | the `finally` of an offer from a closed session clears `makingOffer` while the new session's offer is still pending |
| NegotiationProofs.ValidInitial | public/video.js:10-18 | the page's initial state satisfies the client invariant |
| NegotiationProofs.ValidAttach | public/video.js:96-108 | attaching media keeps the client invariant |
| NegotiationProofs.ValidPaired | public/video.js:137-149 | "paired" keeps `WellFormed` and, when it held, `NoStrandedCandidates` |
| NegotiationProofs.ValidOffer | public/video.js:151-161 | an offer keeps `WellFormed` and, when it held, `NoStrandedCandidates` |
| NegotiationProofs.ValidIce | public/video.js:200-214 | an ICE message keeps `WellFormed` and, when it held, `NoStrandedCandidates` |
| NegotiationProofs.ValidReceive | public/video.js:128-232 | every message keeps `WellFormed` and, when it held, `NoStrandedCandidates` |
| NegotiationProofs.ValidFinishOffer | public/video.js:116-124 | finishing an offer keeps `WellFormed` and, when it held, `NoStrandedCandidates` |
| NegotiationProofs.ValidFinishAnswering | public/video.js:162-179 | finishing an answer to an offer from a `WellFormed` state yields the whole client invariant, since the flush empties the queue |
| NegotiationProofs.WellFormedSettleAnswerAsWritten | public/video.js:183-198 | the answer handler as written keeps `WellFormed` |
| NegotiationProofs.ValidSettleAnswer | public/video.js:183-198 | the corrected answer handler keeps the client invariant |
| NegotiationProofs.WellFormedNextAsWritten | public/video.js:128-232 | every step of the client as written keeps `WellFormed` |
| NegotiationProofs.ValidNextCorrected | public/video.js:128-232 | with the corrected answer handler every step keeps the whole client invariant, so no candidate is ever stranded |
| NegotiationProofs.BeforeAnswerSettles | public/video.js:137-214 | a reachable state in which the answer is pending and one candidate is queued |
| NegotiationProofs.AnswerRaceStrandsCandidate | public/video.js:183-198 | as written, once the answer is applied the candidate queued meanwhile is still queued and not added, with a remote description in place; the corrected handler adds it |
| NegotiationProofs.StrandedQueueSurvivesAsWritten | public/video.js:128-232 | as written, once the connection has a remote description, every later step except an offer handler's resumption and "partner-left" keeps the queue as it is |
| NegotiationProofs.AttachKeepsConnection | public/video.js:96-108 | attaching media to an existing connection changes only its senders and leaves the queue alone |
| VideoClient.AddMissingTracks | public/video.js:103-107 | the attach loop computes exactly `AttachTracks` |
| VideoClient.Client.CreatePeerConnection | public/video.js:46-47 | has exactly the effect of `EnsurePeerConnection` and returns the current connection |
| VideoClient.Client.EnsureLocalMediaAndAttach | public/video.js:96-108 | has exactly the effect of `AttachLocalMedia` |
| VideoClient.Client.MakeAndSendOffer | public/video.js:111-115 | has exactly the effect of `StartOffer` |
| VideoClient.Client.ResumeOffer | public/video.js:116-124 | has exactly the effect of `FinishOffer` |
| VideoClient.Client.HandleMsg | public/video.js:128-232 | has exactly the effect of `Receive` |
| VideoClient.Client.HandlePaired | public/video.js:137-149 | has exactly the effect of `OnPaired` |
| VideoClient.Client.HandleOffer | public/video.js:151-161 | has exactly the effect of `OnOffer` |
| VideoClient.Client.ResumeAnswering | public/video.js:162-179 | has exactly the effect of `FinishAnswering` |
| VideoClient.Client.FlushPendingCandidates | public/video.js:175-179 | the shift loop has exactly the effect of `DrainPending` |
| VideoClient.Client.ResumeAnswerAsWritten | public/video.js:183-198 | has exactly the effect of `SettleAnswerAsWritten` |
| VideoClient.Client.ResumeAnswer | public/video.js:183-198 | has exactly the effect of the corrected `SettleAnswer` |
| VideoClient.Client.Cleanup | public/video.js:235-254 | has exactly the effect of `Cleanup` |
| VideoClient.Client.Step | public/video.js:128-232 | one event, handled by the code as written, has exactly the effect of `NextAsWritten` |
| VideoClient.Client.StepCorrected | public/video.js:128-232 | one event, with the corrected answer handler, has exactly the effect of `NextCorrected` |

## Left out

- The Express static file server, the HTTP server, `PORT` and `listen` (index.js:1-10, 114-115) are not modelled. They serve files and play no part in matchmaking.
- The ws library is not modelled. A socket's `readyState` is the `open` set. `wss.clients` is the `clients` sequence. The close event comes after terminate as a separate event.
- JSON encoding is not modelled. A frame is already decoded into a `Message`, or is marked unparseable or `null`. Extra fields of a relayed object are not kept; offer, answer and ice payloads are opaque strings.
- `wss.on("close")` and `clearInterval` (index.js:110-112) are left out because the model has no server shutdown.
- The callbacks run one at a time on the event loop, and each is one atomic step. Interleavings inside a single callback do not exist in Node.
- The pairing invariant `MatchmakingProofs.ValidNext` holds only for admissible events: a join from a connection that neither waits nor is paired. The code does not enforce this; the witness lemmas show what happens otherwise.
- `getUserMedia` always succeeds and yields the `camera` tracks given to the step. Its failure is not modelled.
- In the "paired" case, the wait for `getUserMedia` is part of the same step.
- The awaits of the flush loop (public/video.js:176-179) happen inside one step. Interleaving events between two candidates of one flush are not modelled.
- The `addIceCandidate` await of the "ice" case (public/video.js:205) is part of the same step.
- Once a step's outcome is resumed, its browser calls (`createOffer`, `setLocalDescription`, `setRemoteDescription`, `createAnswer`) are summarised by a parameter: an offer or none, an `AnswerResult`, or accepted or not.
- Remote tracks, `ontrack`, `onicecandidate` (local candidates sent to the server) and `onconnectionstatechange` are left out. They move media or log; none of them reads or writes a negotiation flag.
- The page's UI is left out: `append`, the send and skip buttons, and the DOM elements.
- `createSocket` in public/common.js is not part of this model, and neither is public/chat.js, the text-only client.
- The "waiting" and "chat" cases of the client's message handler only write to the page, so they change no modelled state.
- `addTrack` failing on a closed connection is not modelled; a connection's senders start empty.
- A handler suspended on a connection that `cleanup` has closed resumes with every browser call rejected. Its `finally` and its flush loop then act on the module variables of the new session as written: `NegotiationProofs.StaleAnswerHandlerClearsNewSession` and `NegotiationProofs.StaleOfferHandlerClearsNewSession` show the flags and the queue being reset. Whether a browser ever settles the promises of a closed `RTCPeerConnection` is outside the model.
- NegotiationProofs.ValidNextCorrected: the full client invariant, including `NoStrandedCandidates`, is proved only for the corrected answer handler; for the code as written only `WellFormed` is kept (`NegotiationProofs.WellFormedNextAsWritten`).
- VideoClient.Client.StepCorrected: describes the corrected answer handler, not the code as written; `VideoClient.Client.Step` is the code as written.

## Findings

| source | as written | input that shows it | evidently intended | confidence | as-written member | corrected member |
|---|---|---|---|---|---|---|
| index.js:32-40 | `JSON.parse` is guarded, but `msg.type` is read outside the `try`; a frame that parses to `null` throws a TypeError that nothing catches, and the server process exits | a client sends the text frame `null` | malformed frames are dropped and the server keeps running | high, not executed | Matchmaking.ReceiveAsWritten | Matchmaking.Receive |
| public/video.js:183-198 | the answer handler applies the remote answer but never flushes `pendingCandidates`; candidates that arrived while `setRemoteDescription(answer)` was pending stay queued, and later candidates bypass the queue | initiator: paired, offer sent, answer received, ICE candidate "c" received, answer applied | queued candidates are added, in order, right after the remote description is applied, as the offer path does | high, not executed | NegotiationProofs.AnswerRaceStrandsCandidate | NegotiationProofs.SettleAnswerDrains |
