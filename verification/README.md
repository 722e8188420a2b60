# The port-forwarding data plane of uulink, modelled and verified

This Dafny project models the code that carries many TCP streams over several relay
sessions, and proves what it promises for every input, every run and every interleaving.

- **Streams** (`Pipe`, `Stream*`). One forwarded connection, as two endpoints joined by two
  FIFO channels of frames. `StreamEndpoint` has one step for every lock section, channel
  operation and I/O operation of the accept or dial goroutine, the receive goroutine,
  readLoop, writeLoop and the half-close timer; the outcomes of reads, writes, dials and
  sends are parameters of the steps. `Pipe` is one direction of a stream with the invariant
  that all moves keep; `StreamLocal` is the invariant of one endpoint; `StreamMoves` shows
  that every step is a move; `StreamSystem` puts two endpoints together, with the link going
  down at any moment, and proves the invariant of all reachable states. What follows from it
  is in `StreamReads`, `StreamTheorems`, `StreamGrammar`, `StreamHalfClose`, `StreamAnswer`,
  `StreamProgress`, `StreamGraceful` and `StreamCleanup`. `StreamRuns` puts concrete runs together;
  `StreamStop`, `StreamWaits`, `StreamFins`, `StreamWedge` and `StreamEnding` use them to say
  exactly when a promise fails.
- **The session pool** (`Keys`, `PoolState`, `PoolRuns`, `PoolBalance`, `PoolHealth`,
  `SessionPool`). The operations on the redundant indexes as functions, laws over runs of
  operations, and the class whose loops are verified against the functions.
- **The stream table and the runtimes** (`Tunnel`, `SessionRuntime`). Classes over the pool:
  no binding outlives its stream, every frame follows its binding, no closed runtime's session
  comes back.
- **The codec** (`Decimal`, `Wire`, `WireLoops`, `PortMapping`, `MessageRoundTrip`,
  `MessageLoops`, `Scanner`, `Handshake`, `WireBytes`). The Protocol Buffers wire format (sections
  "Base 128 Varints" and "Message Structure" of the encoding specification) as field lists,
  both decoders and all builders against them, and the bytes written out.
- **The push queue and the port list** (`PushQueue`, `PortList`, `PortParser`,
  `PortEntries`).

`dafny verify dfyconfig.toml` checks everything.

## What does not hold

These promises of comments, or of the obvious reading, do not hold as they stand. Here is
what holds instead.

- *In order, nothing lost* fails when `Stop` meets an open stream: `enqueue` gives up as soon
  as the tunnel is stopping, before the stream has left the table, so one DATA can be dropped
  and a later one still be written. `StreamStop.SafeFromStop`: no run can do this exactly
  when the window is one; `StreamStop.PrefixUnlessStopping`: it takes a `Stop`. The history
  variable `gap` marks it in the other results.
- *Every DATA before a FIN has been written when the FIN is handled*
  (pkg/tunnel/tunnel.go:862-863) fails with it, and there no window helps: the FIN behind a
  dropped DATA can still be handled, and the local connection sees a clean end after missing
  bytes (`StreamStop.CutShortIsReachable`, `StreamStop.NoWindowSavesHalfClose`).
  `StreamTheorems.HalfCloseIsComplete`: all that was sent has been written exactly when this
  side has dropped none of it, and always if its tunnel is not stopping.
- *A clean end means that nothing is missing* fails with a send, too. A send can fail while the
  session stays up; readLoop then ends, and its end is announced like that of any other
  connection (`StreamReads.CutBySendIsReachable`, in every configuration and without a Stop).
  `StreamTheorems.CleanEndIsComplete`: nothing is missing exactly when no DATA was dropped and
  none given up; and `StreamReads.NothingFollowsFailure`: at least nothing follows the missing
  bytes.
- *The peer is told, so it does not wait for its own timeout* (pkg/tunnel/tunnel.go:831-832)
  fails when the peer ends first and the half-close timer fires between the lock section of
  handleLocalEOF (845-851) and its removeStream: the timer takes the flag for a FIN already taken
  care of, wins the compare-and-delete (733), and writeLoop's FIN is never sent.
  `StreamEnding.FinCanBeLost`: every configuration has this run, for either side.
  `StreamEnding.SilentEndings`: nothing else makes such a teardown silent.
  `StreamEnding.EitherOrderEndsAlike`: in every other interleaving exactly one FIN is routed.
- *HandleFrame never blocks on local I/O* (pkg/tunnel/tunnel.go:548) is true of a direction
  exactly when its window is on and the inbox at its end has room for at least two items more
  than the window (`StreamWaits.WaitsExactly`). With equal sizes, which is the default, DATA
  never waits for a local write (`StreamWaits.DataWaitsExactly`), but a FIN can.
- *A reader waiting for credit goes on* fails when failed sends have used up the window. A
  DATA_ACK that fails is only logged, while session and stream stay, so its credit is gone for
  good. `StreamWedge.WedgeIsReachable`: every configuration with a window can lose all of it.
  `StreamWedge.ProgressIsExact`: short of that the reader goes on, whatever the order in which
  what is under way is handled; after it, it goes on only if a teardown was pending already,
  and `StreamWedge.LostCreditsNeverReturn`: nothing ever brings a credit back.
- *At most one FIN per side* is false in every configuration (`StreamFins.TwoFinsAreReachable`).
  A side routes two FINs exactly when it tears down a stream that is still bound after a failed
  local write, its own end having been announced (`StreamFins.TwoFinsExactly`); never three.
- *The answer to a CONNECT arrives* fails with the session that should take it: a SYN_ACK that
  fails is only logged, and the initiator then waits for good (`StreamAnswer.AnswerIsNeeded`).
- *CONNECTs are bound before dispatch, and rejected ones released* leaves a binding behind
  for IDs that are not 1 to 20 digits (`Tunnels.Tunnel.Incoming`); the protobuf decoder never
  makes such IDs, the JSON fallback can.
- *A closed session is gone* (`SessionRuntimes.SessionSet.ClosedIsGone`) holds of the program,
  but not of every use of the pool, which looks at the ID only and leaves it to its callers to
  keep IDs unique (pkg/tunnel/pool.go:138). A CONNECT on the transport of a closed runtime,
  while another session is registered under its ID, would bind its stream to the dead session (`SessionRuntimes.SessionSet.ConnectOnDead`). No run of the program does so:
  the only sessions that reuse an ID are those of the controller's retry
  (cmd/uulink/multisession.go:416-420), whose callback does not bind (470-477), and those whose
  callback binds (709-717) get fresh IDs; `SessionRuntimes.SessionSet.Connect` keeps every set
  valid then.
- *remove closes the runtime* closes only the last one with the ID
  (`SessionRuntimes.SessionSet.Remove`); listed IDs have to be unique, as
  pkg/tunnel/pool.go:138 demands.
- *A message ends with a field* is not checked for fixed-size fields
  (`MessageRoundTrip.CutOffExactly`).

The history variable `mute` marks an end one of whose frames was refused or failed. Inbox
sizes are at least one, as pkg/settings/network.go:60 makes them.

## Model

Main results come first; rows marked Step are parts of them that are worth looking up.

| member | source | states |
|---|---|---|
| `StreamSystem.ReachableInv` | pkg/tunnel/tunnel.go:506-992 | **Main.** the system invariant holds in every state two tunnels can reach from any window and inbox sizes, whatever the interleaving |
| `StreamTheorems.WrittenIsPrefixOfRead` | pkg/tunnel/tunnel.go:891-992 | **Main.** in every reachable state the bytes given to one local connection are a prefix of the bytes the transport took from the other side, unless a stopping tunnel has dropped a DATA; and those, always, a prefix of the bytes the connection of the other side delivered |
| `StreamTheorems.NothingIsLost` | pkg/tunnel/tunnel.go:813-992 | **Main.** while a stream is open, what was written, what is held and what is on the wire make up exactly what was sent, in this order; and together with what readLoop holds, exactly what it has read, as long as it runs |
| `StreamTheorems.HalfCloseIsComplete` | pkg/tunnel/tunnel.go:813-932 | **Main.** in every reachable state, when the FIN that announces the end of the peer's data is handled, the peer's reader has ended, and what has been written is all that the peer sent if and only if this side has dropped no DATA; always, if this tunnel is not stopping |
| `StreamTheorems.CleanEndIsComplete` | pkg/tunnel/tunnel.go:813-992 | **Main.** over every run, when the FIN that announces the end of the peer's data is handled, all that the connection of the peer delivered has been written if and only if this side has dropped no DATA and the readLoop of the peer has given none up |
| `StreamReads.SentIsPrefixOfRead` | pkg/tunnel/tunnel.go:960-992 | **Main.** over every run, what the transport took from readLoop is a prefix of what the connection delivered; together with what readLoop holds it is all of it if and only if no DATA has been given up, because its send failed or because the stream closed while it waited for credit |
| `StreamReads.NothingFollowsFailure` | pkg/tunnel/tunnel.go:964-983 | **Main.** a DATA that is given up is the last: readLoop goes on to queue its end, and in every later run reads and sends nothing more |
| `StreamTheorems.CreditIsConserved` | pkg/tunnel/tunnel.go:762-992 | **Main.** while a stream is open, the tokens of its semaphore are the DATA on the wire, held or being acknowledged by the peer, the ACKs on the way back, the token taken for a DATA not yet sent, and those a failed send or a lost ACK has written off |
| `StreamTheorems.CreditIsExact` | pkg/tunnel/tunnel.go:762-992 | **Main.** while both ends are open and nothing has failed or been dropped, the tokens are exactly the DATA on the wire, held or being acknowledged, the ACKs on the way back, and the DATA about to be sent |
| `StreamStop.SafeFromStop` | pkg/tunnel/tunnel.go:811-819 | **Main.** the prefix law only, in either direction: every run writes a prefix of what was sent if and only if the window is one; with no window or two credits and more, Stop can drop a DATA and still write a later one |
| `StreamStop.NoWindowSavesHalfClose` | pkg/tunnel/tunnel.go:811-932 | **Main.** no configuration, not even a window of one, makes every run handle the end of the data of a side only after all of it has been written |
| `StreamWedge.ProgressIsExact` | pkg/tunnel/tunnel.go:705-976 | **Main.** in every reachable state with both ends open and a reader at a full window: handling what is under way can give it a credit or end the stream, and every long enough run of it does, if and only if failed sends have written off less than the window or one of the ends is already being torn down |
| `StreamWedge.QuietSendsGoOn` | pkg/tunnel/tunnel.go:705-976 | **Main.** in particular whenever no send of the stream has failed |
| `StreamWedge.LostCreditsNeverReturn` | pkg/tunnel/tunnel.go:705-976 | **Main.** once a full window is written off, no run whatsoever lets that side send another byte |
| `StreamWedge.WedgeIsReachable` | pkg/tunnel/tunnel.go:705-713 | **Main.** for every configuration with a window, in either direction, there is a run into that state: every DATA_ACK of one window fails, and session and stream stay |
| `StreamWaits.WaitsExactly` | pkg/tunnel/tunnel.go:545-600 | **Main.** for all inbox sizes and windows, and in either direction: a run in which the receive goroutine waits for a full inbox while the writer is in a local write exists if and only if the window is off or the inbox has room for fewer than two items more than the window |
| `StreamWaits.DataWaitsExactly` | pkg/tunnel/tunnel.go:545-600 | **Main.** the same for DATA alone: if and only if the window is off or larger than the inbox |
| `StreamFins.TwoFinsExactly` | pkg/tunnel/tunnel.go:821-925 | **Main.** over any run from any configuration a side routes at most two FINs, and two if and only if at some event of the run it tears down, after a failed local write, a stream that is still bound and whose FIN has been routed |
| `StreamFins.TwoFinsAreReachable` | pkg/tunnel/tunnel.go:841-925 | **Main.** in every configuration and for either side there is a run in which it routes exactly its opening frame, the FIN of its own end and the FIN of a failed write |
| `StreamGrammar.TracesFollowGrammar` | pkg/tunnel/tunnel.go:506-992 | **Main.** in every reachable state the frames each side has routed follow its grammar |
| `StreamGrammar.TornDownOnce` | pkg/tunnel/tunnel.go:728-746 | **Main.** over any run, a stream that was torn down stays out of the table, unbound and silent |
| `StreamAnswer.AnswerIsNeeded` | pkg/tunnel/tunnel.go:666-675 | **Main.** after the responder's SYN_ACK(yes) a run in which the initiator's stream becomes ready exists if and only if the session took the SYN_ACK, the link is up and the initiator still has the stream; a SYN_ACK that fails is only logged, and the initiator waits for good |
| `StreamAnswer.FailedDialEndsBoth` | pkg/tunnel/tunnel.go:652-661 | **Main.** in every reachable state a failed dial takes the responder out and unbinds it; its refusal, if it can be passed, is then the only frame on its way, and takes the initiator out without an answer |
| `StreamEnding.EitherOrderEndsAlike` | pkg/tunnel/tunnel.go:821-886 | **Main.** with both ends queued in either order, and writeLoop and timer taking turns in any way until neither has a step: the stream is removed and unbound, both directions are closed and both goroutines done, with exactly one FIN routed; except that, with the end of the peer first, none is routed if and only if the timer overtakes writeLoop on the way |
| `StreamEnding.SilentEndings` | pkg/tunnel/tunnel.go:728-860 | **Main.** in every reachable state, a teardown by writeLoop or by the half-close timer of a bound stream whose FIN has not been routed takes the stream out, and routes no FIN if and only if it is the timer overtaking a writeLoop that has closed the local direction as the second one and is about to remove the stream with a FIN |
| `StreamEnding.FinCanBeLost` | pkg/tunnel/tunnel.go:821-860 | **Main.** in every configuration and whichever side ends first, there is a run, without any failure, after which the other side is gone without a FIN and this side is half-closed, waiting for its own timer, with nothing on the way |
| `StreamGraceful.GracefulEnd` | pkg/tunnel/tunnel.go:821-992 | **Main.** from every reachable state in which both connections are at their ends, nothing has failed, no tunnel is stopping and no timer is at work: every sequence of steps that handle what is under way is bounded, can go on until both streams are gone, and has then given each side all that the other sent |
| `StreamCleanup.GoroutinesEnd` | pkg/tunnel/tunnel.go:652-992 | **Main.** from every reachable state in which the stream of a side has been torn down, the steps of its goroutines, in any order, come to an end after a bounded number, and exactly when all of them have ended; until then one of them has a step that needs neither peer nor link nor room nor credit |
| `StreamCleanup.LostSessionSilences` | pkg/tunnel/pool.go:139-162 | **Main.** a session can be lost at any moment; over any later run its stream routes nothing, and closing it, possible at once, takes it out of the table without a frame |
| `StreamHalfClose.HalfClosedIsWatched` | pkg/tunnel/tunnel.go:821-886 | **Main.** in every reachable state a stream in the table with both FIN flags is about to be removed, and a half-closed one has its timer running or about to be armed |
| `PoolRuns.IndexesAlwaysAgree` | pkg/tunnel/pool.go:67-310 | **Main.** after any sequence of operations session IDs are unique, all indexes have the same IDs, each count is the number of bindings, and sampled bytes do not exceed received bytes |
| `PoolRuns.StreamsKeepTheirSession` | pkg/tunnel/pool.go:184-299 | **Main.** over any run a bound stream keeps its session and every frame sent for it goes there, until it is released, the session removed or the pool closed |
| `PoolRuns.RepliesFollowConnect` | pkg/tunnel/pool.go:184-197 | **Main.** over any run, what is sent for a stream after its CONNECT has come in on a registered session leaves through that session, until release, removal or closing |
| `PoolRuns.UnboundFramesAreRefused` | pkg/tunnel/pool.go:257-299 | **Main.** over any run every frame but a CONNECT of an unbound stream is refused until something binds it again |
| `PoolRuns.RemovedStaysAbsent` | pkg/tunnel/pool.go:137-162 | **Main.** a removed session is neither registered nor bound to any stream ever again unless it is added again |
| `PoolBalance.RoundRobinBalances` | pkg/tunnel/pool.go:240-242 | **Main.** k new streams over n fresh sessions: round robin gives each the quotient rounded down or up |
| `PoolBalance.LeastLoadedBalances` | pkg/tunnel/pool.go:228-239 | **Main.** so does least loaded |
| `PoolBalance.RoundRobinTakesTurns` | pkg/tunnel/pool.go:240-242 | **Main.** the k-th new stream gets the k-th session of this order, over and over, from where the counter stands |
| `PoolBalance.HealthAwareIsMaximal` | pkg/tunnel/pool.go:215-227 | **Main.** the health-aware choice is a registered session with the highest score, and all scores are positive |
| `PoolHealth.ReceivedIsTotal` | pkg/tunnel/pool.go:96-132 | **Main.** over any run the total of a session is the sum of the positive sizes observed for it since it was added |
| `PoolHealth.SlowerIsNotChosen` | pkg/tunnel/pool.go:213-227 | **Main.** two sessions first measured at the same time, with equally many streams: the next health-aware choice is not the one that has received less since, if the other one received more than 64 KiB a second |
| `SessionPools.SessionPool.RemoveSession` | pkg/tunnel/pool.go:139-162 | **Main.** returns every stream of the session once and no other, under the IDs it was bound with, and removes session and bindings |
| `Tunnels.Tunnel.RemoveStream` | pkg/tunnel/tunnel.go:728-746 | **Main.** only the object in the table under its key is torn down, once; its last frame is handed to the session it is still bound to, then the binding goes; a stale object changes and sends nothing |
| `Tunnels.Tunnel.Incoming` | cmd/uulink/multisession.go:709-717 | **Main.** binding before dispatch leaves a binding behind if and only if the dispatch ignores IDs the pool has taken, with the resulting pool in every case; never for IDs from the decoder |
| `SessionRuntimes.SessionSet.ClosedIsGone` | cmd/uulink/multisession.go:180-197 | **Main.** no resurrection: the session object of a closed runtime is neither registered nor bound to any stream, also with IDs used again and with any stream traffic in between |
| `SessionRuntimes.SessionSet.Connect` | cmd/uulink/multisession.go:709-717 | **Main.** a CONNECT that comes in keeps the set valid, except if and only if it binds its stream to a session that is not registered while another one with its ID is; so always, if no other runtime has ever had its ID, as with the callers that bind |
| `SessionRuntimes.SessionSet.Remove` | cmd/uulink/multisession.go:246-262 | **Main.** only the last runtime with the ID is closed, so every runtime stays accounted for if and only if the others were closed; in particular if the listed IDs are unique; the pool loses that session, if it was open, and nothing else |
| `SessionRuntimes.SessionSet.CloseAll` | cmd/uulink/multisession.go:271-282 | **Main.** every runtime ever given to add is closed, its session out of the pool and bound to no stream; with no other open runtime, pool and bindings are empty |
| `MessageRoundTrip.RoundTripIsExact` | pkg/proto/gvpb/portmapping.go:64-142 | **Main.** unchanged exactly when its numbers are canonical and its type is given |
| `MessageRoundTrip.UnknownFieldsAreTransparent` | pkg/proto/gvpb/portmapping.go:133-138 | **Main.** complete fields with unknown numbers at any field boundary change nothing about a message |
| `MessageRoundTrip.CutOffExactly` | pkg/proto/gvpb/portmapping.go:327-345 | **Main.** data is read although it does not end with a field if and only if it is complete fields followed by such a cut-off field |
| `MessageRoundTrip.TunnelFramesArrive` | pkg/tunnel/message.go:49-66 | **Main.** a frame can be built exactly when its IDs fit, and arrives with the same type and payload, and with the same IDs exactly when they are canonical |
| `MessageRoundTrip.IDsStayApart` | pkg/tunnel/message.go:49-71 | **Main.** different canonical messages have different encodings |
| `MessageLoops.DecodeMessageLoop` | pkg/proto/gvpb/portmapping.go:95-142 | **Main.** the same for the message |
| `Scanner.ScannerAgreesWithFields` | pkg/peer/peer.go:1013-1079 | **Main.** on any data that is such a message, the scanner and the other decoder agree |
| `Handshake.EchoInverts` | pkg/peer/peer.go:973-1011 | **Main.** an echo is understood exactly when its sequence number is not zero and it has flags, and then both come back |
| `WireBytes.MessageBytes` | pkg/proto/gvpb/portmapping.go:64-92 | **Main.** a message that encodes, byte for byte |
| `WireBytes.MatchesCapture` | pkg/proto/gvpb/handshake_test.go:11-20 | **Main.** without overrides they are exactly the bytes captured from the official client |
| `MessageRoundTrip.DecodingIsExact` | pkg/proto/gvpb/portmapping.go:95-233 | **Main.** any data is read if and only if it is a field list whose known fields have their types and whose frame can be read, and each slot holds its last field; a frame without a type is a SYN |
| `PortParser.PortsRoundTrip` | pkg/tunnel/tunnel.go:79-116 | **Main.** parsing undoes printing exactly for the non-empty sets of ports in 1 to 65535 |
| `PortEntries.BlanksDoNotMatter` | pkg/tunnel/tunnel.go:79-116 | **Main.** blanks around entries, around the ends of ranges and at the ends of the text change nothing, for any entries but the empty text |
| `PushQueues.PushQueue.NeverSleepsOnWork` | cmd/uulink/options.go:192-226 | **Main.** a parked worker without token and without done has nothing queued, and every accepted job was started or dropped |
| `PushQueues.PushQueue.StartsInOrder` | cmd/uulink/options.go:192-273 | **Main.** jobs start in the order of acceptance, each with the closure last handed in for it |
| `StreamLocal.StepKeeps` | pkg/tunnel/tunnel.go:506-992 | every step of every goroutine of one endpoint keeps the local invariant: the two FIN flags, the timer and the pending removal agree, the local EOF comes last, and the routed frames follow the protocol automaton |
| `StreamMoves.StepMoves` | pkg/tunnel/tunnel.go:506-992 | every step of an endpoint is one legal move of the sending side of one direction and one legal move of the receiving side of the other |
| `StreamSystem.NextInv` | pkg/tunnel/tunnel.go:506-992 | the system invariant is kept by every step of either tunnel and by the loss of the link |
| `StreamReads.CutBySendIsReachable` | pkg/tunnel/tunnel.go:976-992 | every configuration has a run, in either direction and without any Stop, in which a send fails and the peer then handles a clean end after missing bytes |
| `StreamTheorems.WindowIsRespected` | pkg/tunnel/tunnel.go:422-446 | never more unacknowledged DATA than the window |
| `StreamTheorems.AckFindsToken` | pkg/tunnel/tunnel.go:762-769 | an ACK that arrives never finds the semaphore empty |
| `StreamTheorems.DeliveryWaits` | pkg/tunnel/tunnel.go:545-600 | with a window no larger than the inbox, a DATA that finds the inbox full waits for a slot taken by the local EOF, never for local I/O; a FIN waits for local I/O only behind the local EOF or an earlier FIN |
| `StreamGrammar.ScanIsGrammar` | pkg/tunnel/tunnel.go:821-992 | the protocol automaton accepts exactly the grammar: CONNECT or SYN_ACK(yes), then DATA and ACK, then at most a FIN; ACKs and a second FIN follow only a FIN that announces the end of the data, and the second FIN is a failed write's |
| `StreamFins.SecondFin` | pkg/tunnel/tunnel.go:728-925 | behind a first FIN a step routes another if and only if it is that teardown, and the first FIN then announced the end of the data |
| `StreamGrammar.NothingBeforeReply` | pkg/tunnel/tunnel.go:506-536 | in every run in which no SYN_ACK has been handled by the initiator, it has routed nothing but its CONNECT |
| `StreamAnswer.CallIsExact` | pkg/tunnel/tunnel.go:518-535 | in every reachable state the stream of the initiator stays, bound and waiting for the answer, if and only if a session was there for the CONNECT and took it; otherwise it is gone and nothing is on its way |
| `StreamAnswer.ConnectIsTurnedDown` | pkg/tunnel/tunnel.go:602-650 | in every reachable state a CONNECT that is turned down leaves no stream and no binding, and routes exactly one refusal on the session it came in on; if the session takes it, it takes the initiator out without an answer |
| `StreamHalfClose.LocalEofIsNotLost` | pkg/tunnel/tunnel.go:952-992 | in every reachable state in which readLoop has ended on a stream in the table, its local EOF is queued, being handled or has closed its direction, unless the tunnel is stopping |
| `StreamHalfClose.TimerEndsStream` | pkg/tunnel/tunnel.go:821-839 | the half-close timer takes the stream out, and sends a FIN exactly when it finds the local flag clear; that is not the same as no FIN having been sent, see StreamEnding.SilentEndings |
| `StreamHalfClose.FailedWriteEndsStream` | pkg/tunnel/tunnel.go:913-925 | a failed write takes the stream out and sends a FIN; what was written of the DATA stays written |
| `StreamProgress.DrainingFrees` | pkg/tunnel/tunnel.go:891-976 | any sequence of such steps as long as the work left then gives the reader a credit on the way, or ends the stream |
| `StreamProgress.BlockedReaderUnblocks` | pkg/tunnel/tunnel.go:948-976 | the same for every reachable state |
| `StreamStop.PrefixUnlessStopping` | pkg/tunnel/tunnel.go:811-819 | whatever the window, a tunnel that is not stopping writes a prefix of what was sent |
| `Keys.CutInverts` | pkg/tunnel/pool.go:154-158 | cutting a stream key gives rule and stream back exactly when the rule ID contains no NUL |
| `Keys.KeyInjective` | pkg/tunnel/tunnel.go:1035-1037 | different streams of rules without NUL have different keys |
| `PoolRuns.Selects` | pkg/tunnel/pool.go:201-252 | a selection binds the stream to a registered session, fails only on an empty pool, and changes no other binding |
| `PoolRuns.BindTakes` | pkg/tunnel/pool.go:184-197 | binding has an effect if and only if both IDs are there, the pool is open, the session registered and the stream unbound; then the stream goes to that session |
| `PoolRuns.LostSessionPartition` | pkg/tunnel/pool.go:139-162 | removing a session takes away exactly its bindings and leaves all others with their sessions |
| `PoolBalance.LeastLoadedIsMinimal` | pkg/tunnel/pool.go:228-239 | the least-loaded choice is a minimum of the true binding counts |
| `PoolBalance.RegistersInOrder` | pkg/tunnel/pool.go:96-121 | sessions stand in the order in which they were added |
| `PoolHealth.RateIs` | pkg/tunnel/pool.go:321-342 | over any run without new selections, the rate then measured is what was received, by the time that passed, blended into the rate so far; a clock that has not advanced changes no rate |
| `PoolHealth.ChoiceWeighsMost` | pkg/tunnel/pool.go:213-227 | the choice has, against any other session, at least the capacity per stream, one stream more counting as a tenth of an idle session |
| `PoolHealth.UnmeasuredIsFast` | pkg/tunnel/pool.go:348-352 | a session not measured yet counts as 8 MiB a second |
| `PoolHealth.SmoothConverges` | pkg/tunnel/pool.go:336-342 | after k equal samples the smoothed rate is off by 0.65 to the k-th power of the distance it began with |
| `SessionPools.SessionPool.AddSession` | pkg/tunnel/pool.go:96-121 | the loop over the registered sessions against the value-level operation |
| `SessionPools.SessionPool.ObserveReceived` | pkg/tunnel/pool.go:125-132 | counts positive sizes of registered sessions only, as the total of PoolHealth.ReceivedIsTotal |
| `SessionPools.SessionPool.DropBindings` | pkg/tunnel/pool.go:152-160 | the walk over the bindings, in any order |
| `SessionPools.SessionPool.SessionCount` | pkg/tunnel/pool.go:176-180 | the number of distinct IDs |
| `SessionPools.SessionPool.BindStream` | pkg/tunnel/pool.go:184-197 | binds an unbound stream to a registered session of an open pool, and does nothing otherwise |
| `SessionPools.SessionPool.SelectSession` | pkg/tunnel/pool.go:201-252 | returns the bound session or binds the policy's choice; fails exactly on an unbound stream and an empty pool |
| `SessionPools.SessionPool.Pick` | pkg/tunnel/pool.go:213-243 | the policy's choice, and what the choice itself changes |
| `SessionPools.SessionPool.FewestStreams` | pkg/tunnel/pool.go:229-239 | the running minimum is the first of the least loaded sessions |
| `SessionPools.SessionPool.ScoreAll` | pkg/tunnel/pool.go:216-227 | the running maximum is the first session with the highest score; every session is scored once |
| `SessionPools.SessionPool.HealthScore` | pkg/tunnel/pool.go:321-359 | measures, smooths and weighs one session and touches no other |
| `SessionPools.SessionPool.ReleaseStream` | pkg/tunnel/pool.go:257-267 | drops the binding and gives the count back |
| `SessionPools.SessionPool.SendRoutedFrame` | pkg/tunnel/pool.go:283-299 | a CONNECT selects, any other frame follows the binding or is refused without any change |
| `SessionPools.SessionPool.Close` | pkg/tunnel/pool.go:302-318 | empties the pool, then closes every session once, in order, and reports exactly the failures |
| `Tunnels.StreamIDsRepeat` | pkg/tunnel/tunnel.go:690-695 | two IDs of a rule are the same if and only if full turns of 2^32 lie between them |
| `Tunnels.Tunnel.Accept` | pkg/tunnel/tunnel.go:506-536 | an accepted stream gets the next ID; it stays in the table, bound by the policy and with its CONNECT handed to that session, if and only if the CONNECT can be built, a session is there to take it, and it is sent; otherwise it is closed and leaves neither table entry nor binding, and no other binding changes |
| `Tunnels.Tunnel.SendConnect` | pkg/tunnel/tunnel.go:523-533 | succeeds if and only if a session is registered or bound and takes the CONNECT; it binds the stream by the policy and changes no other binding |
| `Tunnels.Tunnel.HandleConnect` | pkg/tunnel/tunnel.go:602-650 | a rejected CONNECT is answered no on the session it is bound to and its binding released; any other adds one stream without connection, to be dialled |
| `Tunnels.Tunnel.DialStream` | pkg/tunnel/tunnel.go:652-677 | a failed dial refuses and removes the stream if it is still there; a connection for a closed stream is thrown away; otherwise it is attached, answered yes and ready |
| `Tunnels.Tunnel.HandleSynAck` | pkg/tunnel/tunnel.go:565-578 | a refusal removes the stream and its binding without a frame, any other SYN_ACK makes it ready; no other stream changes |
| `Tunnels.Tunnel.HandleLocalEOF` | pkg/tunnel/tunnel.go:843-860 | with nothing between its lock section and its removal: the first end is announced by a FIN, the second removes the stream with one; a repeated one does nothing |
| `Tunnels.Tunnel.HandleRemoteFIN` | pkg/tunnel/tunnel.go:864-886 | the same: the first end shuts the write side of the local connection, the second removes the stream without a frame; a repeated one does nothing |
| `Tunnels.Tunnel.TimerFired` | pkg/tunnel/tunnel.go:827-838 | the same: the timer removes its own stream, with a FIN exactly when it finds the local flag clear, and does nothing when it is late |
| `Tunnels.Tunnel.CloseStreams` | pkg/tunnel/tunnel.go:754-760 | exactly the named streams leave the table, closed, and exactly their bindings the pool |
| `Tunnels.Tunnel.CloseStream` | pkg/tunnel/tunnel.go:748-752 | the stream with this key, if there is one, and no other |
| `Tunnels.Tunnel.SessionLost` | cmd/uulink/multisession.go:461-461 | losing a session takes exactly its streams out of pool and table |
| `Tunnels.Tunnel.RemoveAll` | pkg/tunnel/tunnel.go:500-503 | afterwards table and bindings are empty and every stream is closed |
| `SessionRuntimes.SessionRuntime.Close` | cmd/uulink/multisession.go:170-188 | only the first call has an effect: the session and its streams leave pool and table |
| `SessionRuntimes.SessionSet.Create` | cmd/uulink/multisession.go:459-461 | a new runtime needs a Session object of its own and nothing else: its ID may be that of a closed one |
| `SessionRuntimes.SessionSet.Ready` | cmd/uulink/multisession.go:726-727 | readiness after the close changes nothing; before it, the session is registered |
| `SessionRuntimes.SessionSet.ClosedIdIsFree` | cmd/uulink/multisession.go:180-197 | its ID is registered or bound only if another runtime that is open has it |
| `SessionRuntimes.SessionSet.TryAgain` | cmd/uulink/multisession.go:416-420 | a direct attempt that times out, ready or not, and is tried again under the same ID: the first is closed and neither registered nor bound, the second is registered unless the pool is closed, and no stream is bound by it |
| `SessionRuntimes.SessionSet.Connection` | pkg/tunnel/tunnel.go:506-536 | accepting a local connection keeps the set valid, and the stream stays under the same condition |
| `SessionRuntimes.SessionSet.ConnectOnDead` | pkg/tunnel/pool.go:137-197 | what the interface of the pool allows: after a retry under the same ID, a CONNECT on the transport of the first attempt does bind its stream to the closed session |
| `SessionRuntimes.SessionSet.Handle` | pkg/tunnel/tunnel.go:565-886 | so does everything else that can happen to a stream, and each event has its effect on it |
| `SessionRuntimes.SessionSet.Add` | cmd/uulink/multisession.go:229-244 | an open set lists an open runtime as the last one and leaves it, the pool and the table alone; one that has ended is not listed; a closed set closes the runtime and lists nothing; no other runtime is touched |
| `Decimal.ValueOfFormat` | pkg/proto/gvpb/portmapping.go:119-124 | a printed number is canonical and has its value |
| `Decimal.PrintsBack` | pkg/proto/gvpb/portmapping.go:70-83 | reading and printing gives the text back exactly when it is canonical |
| `Wire.VarintRoundTrip` | pkg/proto/gvpb/portmapping.go:293-311 | a varint read is the varint written, for every 64-bit value and whatever follows |
| `Wire.FieldsRoundTrip` | pkg/proto/gvpb/portmapping.go:282-345 | the field list read is the field list written |
| `Wire.FieldsConcat` | pkg/proto/gvpb/portmapping.go:95-142 | at a field boundary the field list of the whole is that of the parts |
| `WireLoops.AppendVarint` | pkg/proto/gvpb/portmapping.go:293-299 | the shifting loop writes the base 128 form |
| `WireLoops.DecodeVarint` | pkg/proto/gvpb/portmapping.go:301-311 | the loop computes the 64-bit value and length, with the tenth byte cut off at 64 bits, or the error |
| `WireLoops.DecodeBytesField` | pkg/proto/gvpb/portmapping.go:313-325 | contents and length, or the error |
| `WireLoops.SkipField` | pkg/proto/gvpb/portmapping.go:327-345 | what is passed over for each wire type |
| `WireLoops.SkipsTheField` | pkg/proto/gvpb/portmapping.go:327-345 | skipping passes over exactly the field that reading would find, and fails together with it |
| `PortMapping.TypeTables` | pkg/proto/gvpb/portmapping.go:235-267 | the two type tables are inverse on the five types, and an unknown value never reads as one of them |
| `PortMapping.FrameRoundTrip` | pkg/proto/gvpb/portmapping.go:144-233 | a frame that can be written is read back in normal form |
| `PortMapping.MessageReadsBack` | pkg/proto/gvpb/portmapping.go:64-142 | the written field list of a message stands for its normal form |
| `MessageRoundTrip.RoundTrip` | pkg/proto/gvpb/portmapping.go:64-142 | every message that encodes decodes to its normal form |
| `MessageRoundTrip.UnknownFieldsAreTransparentInFrame` | pkg/proto/gvpb/portmapping.go:221-227 | nor about a frame |
| `MessageRoundTrip.CutOffFixedFieldIsRead` | pkg/proto/gvpb/portmapping.go:334-341 | a fixed-size field of 8 or 4 bytes cut off behind complete fields is read like a whole one |
| `MessageRoundTrip.LastFieldWins` | pkg/proto/gvpb/portmapping.go:182-233 | a frame is read exactly when its known fields have their wire types, and each slot then holds its last field |
| `MessageRoundTrip.LastMessageFieldWins` | pkg/proto/gvpb/portmapping.go:95-142 | the same for a message, whose frame has to be readable itself |
| `MessageLoops.EncodeFrame` | pkg/proto/gvpb/portmapping.go:144-180 | the growing buffer against the field list, error cases included |
| `MessageLoops.EncodeMessage` | pkg/proto/gvpb/portmapping.go:64-92 | the same for the message |
| `MessageLoops.DecodeFrameLoop` | pkg/proto/gvpb/portmapping.go:182-233 | the moving position against the field list; every turn moves it forward |
| `Scanner.ScannerAgrees` | pkg/peer/peer.go:1013-1079 | on every list of varint and bytes fields the scanner finds the first match of the list |
| `Scanner.ScannerStops` | pkg/peer/peer.go:1013-1079 | in front of a fixed-size, unknown or cut-off field the scanner finds the first match, and behind it nothing |
| `Scanner.PbFieldLoop` | pkg/peer/peer.go:1013-1046 | the loop against its specification on arbitrary bytes |
| `Scanner.PbVarintLoop` | pkg/peer/peer.go:1048-1079 | the same for varints |
| `Handshake.ConnectOptions` | pkg/proto/gvpb/handshake.go:24-56 | the builder writes its field list |
| `Handshake.ControlHandshake` | pkg/proto/gvpb/handshake.go:58-69 | the same; the sequence number zero is left out |
| `Handshake.TextHandshake` | pkg/proto/gvpb/handshake.go:71-76 | the same |
| `Handshake.ControlEcho` | pkg/peer/peer.go:973-981 | the same for the echo |
| `Handshake.ConnectReadsBack` | pkg/proto/gvpb/handshake.go:24-56 | the scanner finds exactly the device ID, the capabilities and the version put in |
| `Handshake.ControlReadsBack` | pkg/proto/gvpb/handshake.go:58-69 | it finds the capabilities, and does not take a control handshake for an echo |
| `Handshake.TextReadsBack` | pkg/proto/gvpb/handshake.go:71-76 | it finds the packed list of message types |
| `Handshake.EchoIsExact` | pkg/peer/peer.go:991-1011 | a message like an echo is understood if and only if its action is 1, its sequence number not zero and its flags not empty |
| `Handshake.OverrideReadsBack` | pkg/proto/gvpb/handshake.go:24-27 | capabilities given by the caller replace the default ones, in both handshakes |
| `WireBytes.ConnectBytes` | pkg/proto/gvpb/handshake.go:24-56 | ConnectOptions, byte for byte, for every device, version and capabilities |
| `WireBytes.ControlBytes` | pkg/proto/gvpb/handshake.go:58-69 | ControlHandshake, byte for byte |
| `WireBytes.TextBytes` | pkg/proto/gvpb/handshake.go:71-76 | TextHandshake, byte for byte |
| `WireBytes.EchoBytes` | pkg/peer/peer.go:973-981 | the echo, byte for byte |
| `Handshake.ParseControlEchoLoop` | pkg/peer/peer.go:991-1011 | the parser against its specification |
| `PortList.StretchesCover` | cmd/uulink/options.go:392-424 | the stretches of an increasing list are separated and cover exactly its members |
| `PortList.StretchesAreMaximal` | cmd/uulink/options.go:392-424 | no stretch can be extended |
| `PortList.FormatSorted` | cmd/uulink/options.go:402-423 | the loop prints exactly the stretches |
| `PortList.SortAllSorts` | cmd/uulink/options.go:396-400 | the sorted keys are increasing and the same ports |
| `PortList.FormatAllowedPorts` | cmd/uulink/options.go:392-424 | for the keys in any order, the text is that of the stretches of the sorted keys |
| `PortList.SortedIsUnique` | cmd/uulink/options.go:396-400 | there is only one increasing list of a set of ports |
| `PortParser.ParseAllowedPortsLoop` | pkg/tunnel/tunnel.go:79-116 | the loops over entries and ranges against the specification that PortEntries pins down, error cases included |
| `PortParser.StretchRoundTrip` | pkg/tunnel/tunnel.go:92-112 | a printed stretch is parsed back exactly when it lies within 1 to 65535, and is an error otherwise |
| `PortParser.PrintingIsInjective` | cmd/uulink/options.go:392-424 | different sets of ports are printed differently |
| `PortEntries.SingleIsExact` | pkg/tunnel/tunnel.go:90-112 | an entry without a dash is the port n if and only if it is a decimal number n from 1 to 65535, with or without a plus sign, between any blanks |
| `PortEntries.RangeIsExact` | pkg/tunnel/tunnel.go:94-106 | an entry with a dash is the range x to y if and only if two such numbers, x not above y, stand around the first dash, each between any blanks |
| `PortEntries.OnlyEmptyIsAny` | pkg/tunnel/tunnel.go:80-87 | no restriction is the result for the empty text only, and blanks alone are an error |
| `PortEntries.SpacedPortsRoundTrip` | pkg/tunnel/tunnel.go:79-116 | so every printed list of ports is read back with blanks put in wherever they may stand |
| `PushQueues.PushQueue.Submit` | cmd/uulink/options.go:237-273 | says exactly when a job is accepted, coalesced, refused as full or closed, and what the queue then holds |
| `PushQueues.PushQueue.Next` | cmd/uulink/options.go:201-219 | the worker ends, parks, or starts the oldest job with its latest closure |
| `PushQueues.PushQueue.Stop` | cmd/uulink/options.go:228-233 | drops what has not started, and only that |
| `StreamEndpoint.Remove` | pkg/tunnel/tunnel.go:728-746 | Step: removeStream has an effect only on a stream in the table; a stream in the table is gone afterwards, and neither its timer nor the position of its writer is touched |
| `StreamEndpoint.Receive` | pkg/tunnel/tunnel.go:550-600 | Step: handling a frame routes nothing unless it is a CONNECT, leaves the writer of a stream in the table alone, and, unless it is a CONNECT or SYN_ACK, also table membership, set-up and readiness |
| `Pipe.KeepSink` | pkg/tunnel/tunnel.go:813-932 | Step: every move of a receiving side keeps order, completeness and the credit balance of its direction |
| `Pipe.KeepSends` | pkg/tunnel/tunnel.go:960-981 | Step: sending a DATA or announcing a FIN keeps order, completeness and the credit balance |
| `StreamReads.NothingReadBehindEnd` | pkg/tunnel/tunnel.go:958-991 | Step: after a read that finds the end of the connection, with bytes or without, nothing is read in any later run |
| `StreamReads.NothingReadAfterTeardown` | pkg/tunnel/tunnel.go:935-950 | Step: a stream torn down before its readLoop has begun is never read |
| `StreamReads.ReadingStarts` | pkg/tunnel/tunnel.go:935-950 | Step: in every reachable state a ready stream in the table can be read, also while the tunnel is stopping |
| `StreamReads.ReachableReads` | pkg/tunnel/tunnel.go:960-992 | Step: in every reachable state in which readLoop runs, sent and held bytes are exactly those read |
| `StreamWaits.CanWait` | pkg/tunnel/tunnel.go:813-819 | Step: the run for every such configuration: a window of DATA, the local EOF and two FINs fill the inbox behind a write |
| `StreamWaits.NeverWaits` | pkg/tunnel/tunnel.go:813-819 | Step: no run of any other configuration does it: the inbox holds at most the rest of the window, the local EOF and one of the two FINs |
| `StreamAnswer.ConnectIsTakenUp` | pkg/tunnel/tunnel.go:636-644 | Step: one that is accepted gives a stream to dial and no answer yet |
| `StreamGrammar.GoneIsFinal` | pkg/tunnel/tunnel.go:728-746 | Step: once torn down, no step of an endpoint routes a frame, binds the stream or puts it back |
| `StreamHalfClose.UndisturbedOrdersAgree` | pkg/tunnel/tunnel.go:841-886 | Step: without the timer, local EOF and remote FIN in either order lead to the very same state and send the same single FIN |
| `StreamHalfClose.RepeatedFinChangesNothing` | pkg/tunnel/tunnel.go:864-870 | Step: a second FIN from the peer is taken from the inbox and changes nothing else |
| `StreamHalfClose.LateEofChangesNothing` | pkg/tunnel/tunnel.go:843-849 | Step: a local EOF after the timer has closed the direction changes nothing |
| `StreamHalfClose.LateTimerChangesNothing` | pkg/tunnel/tunnel.go:821-839 | Step: a timer that fires after the teardown changes nothing but itself |
| `StreamEnding.SilentEnding` | pkg/tunnel/tunnel.go:728-860 | Step: the same for one endpoint under the local invariant |
| `StreamEnding.NeverTold` | pkg/tunnel/tunnel.go:728-746 | Step: over any run after such a teardown, the peer handles no FIN as long as it has the stream |
| `StreamEnding.PlayWinds` | pkg/tunnel/tunnel.go:821-932 | Step: any such interleaving keeps the invariants and is no longer than the work left |
| `StreamEnding.PlayTells` | pkg/tunnel/tunnel.go:728-886 | Step: any such interleaving that removes a stream whose FIN has not been routed routes one, or none if and only if the timer overtakes writeLoop |
| `StreamEnding.ComesToRest` | pkg/tunnel/tunnel.go:821-932 | Step: there is such an interleaving to the end from every such state |
| `StreamEnding.BothInIsReachable` | pkg/tunnel/tunnel.go:813-992 | Step: every configuration with room for two items has runs to both orders, the two states differing in the order only |
| `StreamEnding.LocalFirstNeverRaces` | pkg/tunnel/tunnel.go:843-860 | Step: with the local end first the timer never overtakes |
| `StreamGraceful.EndsGracefully` | pkg/tunnel/tunnel.go:821-992 | Step: so there is such a run |
| `StreamGraceful.ReadOutIsReachable` | pkg/tunnel/tunnel.go:506-975 | Step: every configuration has runs into such a state |
| `StreamStop.CutShortIsReachable` | pkg/tunnel/tunnel.go:482-504 | Step: in every configuration and either direction there is a run through Stop in which the FIN behind a dropped DATA is handled: the connection sees a clean end after missing bytes |
| `StreamProgress.DrainingEnds` | pkg/tunnel/tunnel.go:550-992 | Step: every step that handles what is under way strictly decreases the work left, and leaves reader, window and written-off credits alone |
| `StreamProgress.AlwaysAStep` | pkg/tunnel/tunnel.go:948-976 | Step: a reader at a full window, unless all credits are written off and no teardown is pending, never waits alone: something under way can be handled, a responder that has answered and is not ready yet included |
| `StreamProgress.BlockedReaderGoesOn` | pkg/tunnel/tunnel.go:891-976 | Step: and there is a run of such steps that does |
| `StreamWedge.TeardownCanBePending` | pkg/tunnel/tunnel.go:913-925 | Step: and one in which all credits are lost but a failed write is about to end the stream, which is why the pending teardown is part of the condition |
| `StreamWedge.BlockedIsReachable` | pkg/tunnel/tunnel.go:960-967 | Step: and one to a reader at a full window none of whose sends has failed |
| `StreamStop.OneCreditIsSafe` | pkg/tunnel/tunnel.go:811-819 | Step: with one credit nothing can follow a dropped DATA |
| `StreamStop.GapIsReachable` | pkg/tunnel/tunnel.go:482-504 | Step: for every other window there is a run through Stop whose written bytes are no prefix of those sent |
| `Keys.JoinCut` | pkg/tunnel/pool.go:154-158 | Step: joining the parts of a cut key always gives the same key |
| `PoolState.EmptyAgrees` | pkg/tunnel/pool.go:87-93 | Step: the indexes of a new pool agree |
| `PoolState.AddedAgrees` | pkg/tunnel/pool.go:96-121 | Step: adding a session keeps all indexes of the pool in agreement, also when it is refused |
| `PoolState.ObservedAgrees` | pkg/tunnel/pool.go:125-132 | Step: so does counting received bytes; how they are counted says PoolHealth.ReceivedIsTotal |
| `PoolState.RemovedAgrees` | pkg/tunnel/pool.go:139-162 | Step: so does removing a session with its streams |
| `PoolState.KeptInOrder` | pkg/tunnel/pool.go:142-149 | Step: removing a session leaves the others in their order |
| `PoolState.BoundAgrees` | pkg/tunnel/pool.go:184-197 | Step: so does binding a stream, also when it is ignored or already bound |
| `PoolState.ReleasedAgrees` | pkg/tunnel/pool.go:257-267 | Step: so does releasing one |
| `PoolState.ClosedAgrees` | pkg/tunnel/pool.go:302-310 | Step: so does closing the pool |
| `PoolState.ScoredAgrees` | pkg/tunnel/pool.go:321-347 | Step: so does scoring every session |
| `PoolState.SamplesNonNegative` | pkg/tunnel/pool.go:332-335 | Step: as long as sampled bytes do not exceed received bytes, a measured rate is not negative and the subtraction does not wrap |
| `PoolState.SmoothIsBounded` | pkg/tunnel/pool.go:336-342 | Step: the smoothed rate of any series of samples lies between zero and the largest of them |
| `PoolState.ScoreIsPositive` | pkg/tunnel/pool.go:348-358 | Step: every score is positive and falls with the number of streams |
| `PoolRuns.BindingEnds` | pkg/tunnel/pool.go:139-310 | Step: release, removal of the session and closing do end a binding |
| `PoolRuns.ClosedForEver` | pkg/tunnel/pool.go:96-121 | Step: a closed pool stays empty over any run |
| `PoolBalance.ChoiceIsTotal` | pkg/tunnel/pool.go:213-243 | Step: every policy has a choice as long as a session is registered |
| `PoolBalance.ChoiceIsUnique` | pkg/tunnel/pool.go:213-243 | Step: and only one |
| `PoolBalance.RatesAreBounded` | pkg/tunnel/pool.go:321-347 | Step: the rate a choice uses is that of the measured samples and lies between zero and their peak |
| `PoolHealth.ReceivedGrows` | pkg/tunnel/pool.go:125-132 | Step: and grows by exactly these, whatever happens to others |
| `PoolHealth.ScoringSamples` | pkg/tunnel/pool.go:343-345 | Step: a selection leaves every session measured, with the total and the time of it |
| `SessionPools.SessionPool.HasSession` | pkg/tunnel/pool.go:164-173 | Step: true exactly for registered IDs |
| `SessionPools.SessionPool.CloseSessions` | pkg/tunnel/pool.go:312-317 | Step: the loop over the sessions |
| `Tunnels.DecodedIsValid` | pkg/tunnel/tunnel.go:211-221 | Step: an ID made by the protobuf decoder is empty or passes the tunnel's check |
| `Tunnels.IgnoredIDsLeak` | pkg/tunnel/tunnel.go:211-221 | Step: an ID the tunnel ignores, other than the empty one, is never made by the decoder |
| `Tunnels.Tunnel.TakeOut` | pkg/tunnel/tunnel.go:733-737 | Step: the compare-and-delete on the table, with the close |
| `Tunnels.Tunnel.NextStreamID` | pkg/tunnel/tunnel.go:690-695 | Step: per rule the next 32-bit number, printed |
| `Tunnels.Tunnel.MarkLocalEnd` | pkg/tunnel/tunnel.go:844-851 | Step: the lock section of handleLocalEOF: sets the local flag, and sees whether it was the first to, and whether the peer has ended |
| `Tunnels.Tunnel.MarkPeerEnd` | pkg/tunnel/tunnel.go:865-873 | Step: the same of handleRemoteFIN |
| `Tunnels.Tunnel.MarkTimeout` | pkg/tunnel/tunnel.go:828-836 | Step: the same of the timer: it is to send a FIN if and only if it has set the local flag itself |
| `Tunnels.Tunnel.LocalEofAndTimer` | pkg/tunnel/tunnel.go:827-856 | Step: the peer has ended, and the timer comes between the lock section and the removal of handleLocalEOF: the stream is torn down once and its binding released either way, and a FIN is sent if and only if the removal of handleLocalEOF is the first |
| `SessionRuntimes.SessionRuntime.Activate` | cmd/uulink/multisession.go:191-197 | Step: a closed runtime never registers its session |
| `SessionRuntimes.Split` | cmd/uulink/multisession.go:249-256 | Step: the walk of remove keeps all other runtimes and finds the last one with the ID |
| `SessionRuntimes.SessionSet.Begin` | cmd/uulink/multisession.go:219-227 | Step: no job starts after closeAll |
| `SessionRuntimes.SessionSet.TimesOut` | cmd/uulink/multisession.go:416-420 | Step: its first half |
| `SessionRuntimes.SessionSet.RegisteredIsOwned` | cmd/uulink/multisession.go:191-197 | Step: with an ID that no other runtime has had, a registered ID means that this very session is registered |
| `Decimal.SixtyFourBits` | pkg/tunnel/tunnel.go:44-48 | Step: a 64-bit number prints within the ID length limit |
| `Wire.VarintIsStable` | pkg/proto/gvpb/portmapping.go:301-311 | Step: a varint does not depend on what follows it |
| `Wire.FieldRoundTrip` | pkg/proto/gvpb/portmapping.go:282-325 | Step: so for a varint or bytes field |
| `WireLoops.AppendFieldVarint` | pkg/proto/gvpb/portmapping.go:282-285 | Step: tag and value |
| `WireLoops.AppendFieldBytes` | pkg/proto/gvpb/portmapping.go:287-291 | Step: tag, length and contents |
| `PortMapping.TypesStayApart` | pkg/proto/gvpb/portmapping.go:252-267 | Step: different type numbers have different names, unknown ones included |
| `WireBytes.FrameBytes` | pkg/proto/gvpb/portmapping.go:144-180 | Step: a frame that encodes, byte for byte, with the tags and the five type numbers written out |
| `Handshake.DefaultCapabilities` | pkg/proto/gvpb/handshake.go:11-17 | Step: the table of defaults as a field list |
| `WireBytes.DefaultBytes` | pkg/proto/gvpb/handshake.go:11-17 | Step: the default capabilities, byte for byte |
| `PortEntries.EntriesDecide` | pkg/tunnel/tunnel.go:79-116 | Step: any text but the empty one is its comma-separated entries, one by one |
| `PortEntries.OnlyRangesHaveDashes` | cmd/uulink/options.go:402-423 | Step: a stretch is printed with a dash if and only if it has more than one port |
| `PortEntries.AsciiBlanks` | pkg/tunnel/tunnel.go:80-90 | Step: among the ASCII characters the blanks are the space and the five from tab to carriage return |
| `PushQueues.PushQueue.Find` | cmd/uulink/options.go:255-262 | Step: the first queued job with the key |
| `PushQueues.PushQueue.Replace` | cmd/uulink/options.go:255-262 | Step: a duplicate key replaces the closure and keeps its place |
| `PushQueues.PushQueue.Append` | cmd/uulink/options.go:268-272 | Step: a new job goes last and leaves a wake token |
| `PushQueues.PushQueue.ShiftDown` | cmd/uulink/options.go:217-217 | Step: the copy in place moves every job one slot down |
| `PushQueues.PushQueue.WakeUp` | cmd/uulink/options.go:208-214 | Step: taking the token sends the worker back to look |
| `PushQueues.PushQueue.CheckDone` | cmd/uulink/options.go:194-199 | Step: done is looked at before every turn |
| `PushQueues.PushQueue.SeeDone` | cmd/uulink/options.go:208-211 | Step: a parked worker goes to stop when done is closed |
| `PushQueues.PushQueue.Finish` | cmd/uulink/options.go:224-225 | Step: after a job the worker looks again |
| `PushQueues.TakesFirst` | cmd/uulink/options.go:216-219 | Step: starting the oldest job keeps the order and the distinct keys |

## Left out

- The stream endpoints are modelled on values, as a state machine over the steps of their goroutines, and not as a class: interleavings, not updates in place, are the point there. The table, the pool, the runtimes and the queue are classes.
- One key has one incarnation in the stream model: a CONNECT for a stream that is gone is ignored there. `Tunnels` covers several objects under one key.
- Outcomes of a session's own send in `Tunnels`: the log says which session a frame is handed to; that the session may then fail is part of the stream model.
- In `Tunnels`, `HandleLocalEOF`, `HandleRemoteFIN` and `TimerFired` are a lock section with the removal that follows it; `LocalEofAndTimer` is the one interleaving of them there, and all are in the stream model (`StreamEnding`).
- The race between `Stop` and `acceptLoop`: in the model a stream is not closed from outside between its entry in the table and its CONNECT.
- Wrap-around of 64-bit counters: numbers are unbounded, and the limits appear where the code checks them. Stream IDs do wrap at 32 bits.
- Lengths of 2^63 and more, which `decodeBytesField` and the scanner convert to `int`: no slice is that long, and the model treats such a length as too long.
- decodeVarint's OR of shifted groups is written as a sum, which is the same since the groups do not overlap.
- Failures to build a DATA, ACK or FIN message inside a stream: the IDs of a stream in the table always encode (`MessageRoundTrip.TunnelFramesArrive`).
- JSON: the payloads of CONNECT and SYN_ACK, target validation and the JSON fallback of the decoder appear as the verdict of the step or the method.
- Sockets, listeners, dialling, keepalives, clocks, log limiting: outcomes and times are parameters.
- Frames on two different sessions for one stream: the pool keeps a stream on one session, and a session is a FIFO.
- Floating-point rounding in the health score: rates and scores are real numbers.
- The context, the job counter's wait and signaling in `sessionSet`; only `begin` counts jobs.
- `strconv.Atoi` beyond 64 bits: the number is unbounded in the model, and no port either way.
- WebRTC, ICE, signaling, the REST client, configuration, `AdaptiveSessionPool`, the policy parsers, PCK framing: input/output plumbing or easy case distinctions.
- StreamGraceful.GracefulEnd: no new failure, Stop, timer or loss of the link during the run; each of them can end a stream early, and the other results say with what.
- StreamTheorems.WrittenIsPrefixOfRead: weaker than the plain prefix law, because Stop can break that law; SafeFromStop and PrefixUnlessStopping give the exact condition.
- StreamProgress.BlockedReaderUnblocks: both ends are bound and open and the link is up; handling what is under way does not include new failures, which are covered by the runs of StreamWedge.LostCreditsNeverReturn.
