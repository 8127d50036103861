# The portal's event pipeline, verified

A shipment lookup in this demo crosses three services, and each hop emits trace events. The page
shows them: they travel over a Go fan-out bus and server-sent event frames into a paced queue in the
browser, and from there into the engine that drives the three inspector views. This project models
that pipeline and proves what each part of it keeps over every run, and what the parts guarantee
together.

| file | what it models |
|---|---|
| `Events.dfy` | trace events, error types, stages, unwrapping of forwarded frames |
| `Logs.dfy` | logs from which entries are lost: what is kept, in order |
| `PaceModel.dfy`, `PaceQueue.dfy` | the pace queue: a state machine, and the class proved against it |
| `PaceTheorems.dfy`, `PacingBound.dfy` | every run of the pace queue; time between deliveries |
| `EngineModel.dfy`, `ResolveEngine.dfy`, `EngineTheorems.dfy`, `EngineRuns.dfy` | the resolve engine: state machine, class, every run; what a run shows |
| `TraceBus.dfy` | the trace bus: interleavings of its operations, and the classes |
| `Sse.dfy`, `SseReads.dfy` | the frame writer and the splitter; the loop over reads of a stream |
| `ExternalCarrier.dfy`, `Portal.dfy` | the external resolve, and the pipeline from bus to engine |
| `IdentityCache.dfy`, `LookupContext.dfy`, `CarrierLookup.dfy` | identity cache, trace subscription lifetime, lookup pipeline |
| `Inspectors.dfy` | what the layers, topology and trace views show |

`dafny verify dfyconfig.toml` checks the whole project.

## How to read it

Code that updates variables in place is a class whose methods follow the source statement by
statement (`PaceQueue.Queue`, `ResolveEngine.Engine`, `TraceBus.Bus`, `TraceBus.Channel`,
`IdentityCache.Aggregator`, `CarrierLookup.Handler`, `ExternalCarrier.Resolve`, the splitter's loops).
Each method is proved to do what one step of a state machine does, in closed form: the recursive
`drain`, for instance, delivers the whole queue at once or one event and a timer. The theorems are
about lists of steps of these machines. Steps are total: a timer that is not live or not due, or a
receive from an empty channel, changes nothing, so every list of operations is a run.

The browser runtime's live timers are part of the queue's state and kept apart from the one handle
the queue remembers. A `Deliver` output carries the time of the delivery and the hold that the queue
is meant to keep after it, which is the pace scaled by the weight of the event then at the head.

## What the proofs found

- A replay forgets the handle of the timer it has just armed (`paceQueue.ts:146-147`). The timer stays
  live. Order, conservation and wake-up survive this, and there are never more forgotten timers than
  there were replays. The hold that the comment at `paceQueue.ts:77-78` promises does not survive it: an
  event pushed before the replay's hold is over goes out at once (`ReplayBreaksTheBound`), and of events
  pushed after it the forgotten timer releases the second within the hold of the first
  (`ForgottenTimerIsEarly`). Errors and skips send out what is queued at once, by design. `SpacedRunIff`
  says of every run whatever when the holds are kept: exactly if each step that delivers comes after the
  last hold, and delivers one event or at pace 0.
- A flush mid-walk, or a replay at pace 0, leaves the queue marked as walking with no timer to end the
  walk, exactly if no forgotten timer is live (`StuckIff`); only a push or a skip ends such a walk
  (`StuckUntil`). A replay at any other pace forgets its timer, but that timer comes due after one pace
  and, unless something else is pushed, ends the walk if no skip or other timer has (`PacedReplayEnds`).
  At pace 0, and only then, the comment at `paceQueue.ts:144-145` is not what happens: subscribers do
  hear idle and then walking again (`ReplayIsHeard`).
- The comment at `paceQueue.ts:16` has the token's issuance dwelt on longest. The weight scales the wait
  before an event: the issuance is waited for longest, and is itself left after the wait for what is
  queued behind it, one unscaled pace if that is nothing (`WeightIsTheWaitBefore`).
- The engine's guard against late events reads a mirror of the status, which the effect of a render
  brings up to date. An event delivered after the response but before that effect rewinds the finished
  view (`LateEventRewinds`); the view survives exactly if no event takes the stage further while the
  mirror still says running, be it from the effect of an older render (`DoneSurvivesIff`). An error view
  is rewound in the same way (`LateEventRewindsTheError`): status and error do not depend on where the
  HTTP failure falls, but the stage shown does, and `StageAfterErrorIs` says what it is.
- A network failure replaces an error that came from an event, payload and all, although an HTTP
  failure does not (`ErrorSurvivesIff`). End to end, the foreign URI is shown exactly until one happens
  (`PeerUriReachesTheError`).
- An empty peer URI is not merged into the error (`ExternalResolveShowsTheForeignUri`).
- The splitter panics exactly on three newlines in a row. A stream of frames never has them, however it
  is cut. But a read that ends inside a frame's text, or that holds the second newline of a separator
  and goes on, loses or changes frames, whatever the other reads are. `ReadsIff` says exactly which
  reads lose nothing.
- A bearer token shows its length and its first four characters, and one shorter than that shows whole.
- In an error state of an external resolve the trace log shows the rejection out of order unless the
  attestation stage was completed (`ErrorLogIsAPrefixIff`).

## Model

| member | source | states |
|---|---|---|
| PaceTheorems.Conservation | apps/portal/ui-src/src/engine/paceQueue.ts:57-154 | over every run, the queue is the most recently accepted events, and delivered followed by queued is the accepted events less exactly those queued at a flush, in order of acceptance |
| PaceTheorems.DeliveredInOrder | apps/portal/ui-src/src/engine/paceQueue.ts:57-154 | delivered and queued are a subsequence of accepted; every accepted event is delivered, queued or flushed, once; without a flush nothing is missing |
| PaceTheorems.ScheduleIndependence | apps/portal/ui-src/src/engine/paceQueue.ts:57-88 | two runs without flushes that accept the same events have delivered the same sequence when both are empty, whatever the paces, timers and skips |
| PaceTheorems.NoLostWakeup | apps/portal/ui-src/src/engine/paceQueue.ts:57-101 | at rest a queued event implies a remembered timer, a remembered timer is live and implies walking, and skip mode is off |
| PaceTheorems.FiringDecreases | apps/portal/ui-src/src/engine/paceQueue.ts:57-81 | every timer firing strictly decreases twice the queue length plus the number of live timers |
| PaceTheorems.TimersEmptyTheQueue | apps/portal/ui-src/src/engine/paceQueue.ts:57-81 | left to its timers the queue fires a bounded number of times, and with no timer left nothing is queued |
| PaceTheorems.SubscribersKnow | apps/portal/ui-src/src/engine/paceQueue.ts:45-55 | over every run the last walking notification says what the flag says, and no notification repeats what subscribers know |
| PaceTheorems.OrphansBounded | apps/portal/ui-src/src/engine/paceQueue.ts:141-149 | the live timers that the queue has forgotten never outnumber the replays so far, and one more bounds all live timers |
| PaceTheorems.NoReplayNoOrphan | apps/portal/ui-src/src/engine/paceQueue.ts:80-84 | without replays at most one timer is live, and it is the remembered one |
| PaceTheorems.StuckIff | apps/portal/ui-src/src/engine/paceQueue.ts:95-149 | a step leaves the queue walking without any live timer, remembered or forgotten, exactly if it flushes mid-walk with no forgotten timer live, and a replay only at pace 0 |
| PaceTheorems.StuckUntil | apps/portal/ui-src/src/engine/paceQueue.ts:103-201 | a walk without a timer stays so until a skip, or a push other than another replay at pace 0 |
| PaceTheorems.PacedReplayEnds | apps/portal/ui-src/src/engine/paceQueue.ts:141-149 | after a replay at any other pace, whatever fires, flushes, skips or changes the pace while nothing else is pushed, the walk goes on exactly until a timer fires or the user skips, and until then the forgotten timer is live and due after one pace |
| PaceTheorems.ReplaysIff | apps/portal/ui-src/src/engine/paceQueue.ts:141 | a push is a replay exactly if it is a resolve request during a walk, whatever the event carries |
| PaceTheorems.ReplayIsHeard | apps/portal/ui-src/src/engine/paceQueue.ts:144-148 | a replay delivers its event at once, and subscribers hear idle and walking again exactly at pace 0 |
| PaceTheorems.StuckWalkIsReachable | apps/portal/ui-src/src/engine/paceQueue.ts:141-149 | a replay at pace 0 leaves the queue walking, empty and without any timer |
| PacingBound.DeliveriesArePaced | apps/portal/ui-src/src/engine/paceQueue.ts:66-88 | over runs of plain pushes, firings and pace changes, each delivery comes no earlier than the hold of the one before it |
| PacingBound.StepIsSpacedIff | apps/portal/ui-src/src/engine/paceQueue.ts:103-201 | whatever the operation, the deliveries stay a hold apart exactly if it delivers nothing, or comes after the last hold and delivers one event or at pace 0 |
| PacingBound.SpacedRunIff | apps/portal/ui-src/src/engine/paceQueue.ts:57-201 | over every run, with errors, replays, skips, flushes and forgotten timers, consecutive deliveries are at least the hold of the earlier one apart exactly if every step meets that condition |
| PacingBound.ReplayBreaksTheBound | apps/portal/ui-src/src/engine/paceQueue.ts:141-149 | after a replay of any paced walk the next event pushed, whatever it is, is delivered at once, and the bound is kept exactly if one pace has passed in between |
| PacingBound.ForgottenTimerIsEarly | apps/portal/ui-src/src/engine/paceQueue.ts:141-149 | of two events pushed after the hold of a replay, the first is on time and the second waits, and the forgotten timer releases it within the hold of the first |
| PacingBound.WeightIsTheWaitBefore | apps/portal/ui-src/src/engine/paceQueue.ts:77-80 | an event is waited for by its weight and then held by the weight of what follows, one pace if nothing does; the wait is longer than that exactly before the token's issuance and its exchange, and never longer than before the issuance |
| PaceModel.StepConserves | apps/portal/ui-src/src/engine/paceQueue.ts:103-154 | one step delivers or keeps what was queued, followed by what it accepts; a flush discards exactly what was queued |
| PaceModel.ForwardedEventIsAccepted | apps/portal/ui-src/src/engine/paceQueue.ts:106-120 | a forwarded frame that decodes to an event is accepted as that event, once, even if that is again a wrapper |
| PaceModel.UntypedIsIgnored | apps/portal/ui-src/src/engine/paceQueue.ts:106-120 | a frame that decodes to a value without a type changes nothing, nor does such a value itself |
| PaceModel.OtherEventIsAccepted | apps/portal/ui-src/src/engine/paceQueue.ts:106-120 | any other event is accepted as it is, and so is a wrapper whose frame is missing, falsy, or does not decode |
| PaceQueue.Queue.Drain | apps/portal/ui-src/src/engine/paceQueue.ts:57-81 | the recursion delivers everything and goes idle, or delivers one event and arms a timer |
| PaceQueue.Queue.Push | apps/portal/ui-src/src/engine/paceQueue.ts:105-154 | unwrapping, error preemption, replay and enqueueing are the machine's push of what has arrived |
| PaceQueue.Queue.PushError | apps/portal/ui-src/src/engine/paceQueue.ts:127-138 | the loop delivers all that is queued, in order, ahead of the error |
| PaceQueue.Queue.PreemptAndFlush | apps/portal/ui-src/src/engine/paceQueue.ts:95-101 | the remembered timer is cleared and the queue emptied; walking stays |
| PaceQueue.Queue.SetPace | apps/portal/ui-src/src/engine/paceQueue.ts:172-187 | the pace named by the key or number, never negative, 0 for anything else, and nothing but the pace changes |
| PaceQueue.Queue.Skip | apps/portal/ui-src/src/engine/paceQueue.ts:193-201 | a walk is drained at once; an idle queue is left alone |
| PaceQueue.Queue.Fire | apps/portal/ui-src/src/engine/paceQueue.ts:57-81 | a live timer that fires is live no more and drains, whether or not it is the remembered one |
| EngineTheorems.StageIsFurthest | apps/portal/ui-src/src/engine/useResolveEngine.ts:97-147 | over every run, whatever the commit lag, a visible stage is the furthest reached and equals the completion shown |
| EngineTheorems.CompletionNeverRewinds | apps/portal/ui-src/src/engine/useResolveEngine.ts:74-75 | with the mirror committed before each delivery, completion never decreases within a run |
| EngineTheorems.DoneSurvivesIff | apps/portal/ui-src/src/engine/useResolveEngine.ts:83-147 | after the response the completed view lasts, for any lag of renders and their effects, exactly if no event takes the stage further while the mirror still has a status from before the response that says running |
| EngineTheorems.FinishedHasOutcome | apps/portal/ui-src/src/engine/useResolveEngine.ts:190-196 | over every run a completed view has an outcome, so that condition applies to every one |
| EngineTheorems.MirroredDoneSurvives | apps/portal/ui-src/src/engine/useResolveEngine.ts:190-196 | with the mirror committed before each delivery the completed view survives to the end of the run |
| EngineTheorems.LateEventRewinds | apps/portal/ui-src/src/engine/useResolveEngine.ts:83-86 | from the start, a run in which an event delivered before the commit rewinds the completed view |
| EngineTheorems.SignalsCommute | apps/portal/ui-src/src/engine/useResolveEngine.ts:97-125 | the same deliveries, one of them an error, end in the same status and error wherever the HTTP failures, renders and effects fall; neither run shows a stage exactly if in neither an event gets past the stale mirror after the last error |
| EngineTheorems.StageAfterErrorIs | apps/portal/ui-src/src/engine/useResolveEngine.ts:83-147 | the stage shown with the error is none, or the furthest that an event after the last error reaches while the mirror still says running |
| EngineTheorems.LateEventRewindsTheError | apps/portal/ui-src/src/engine/useResolveEngine.ts:83-86 | two runs that differ only in where the HTTP failure falls, and end in an error view without and with a stage |
| EngineTheorems.ErrorIsTheLastSseError | apps/portal/ui-src/src/engine/useResolveEngine.ts:197-210 | the error shown is the last error event's, merged with the peer URI seen before it, for any commit lag |
| EngineTheorems.ErrorSurvivesIff | apps/portal/ui-src/src/engine/useResolveEngine.ts:212-216 | if network failures may happen too, that error is shown exactly if none has happened since |
| EngineRuns.RunStartsOver | apps/portal/ui-src/src/engine/useResolveEngine.ts:172-180 | a run or a reset forgets status, stage, completion, result, error and peer URI of all that came before; only the mirror and the render behind it are left |
| EngineRuns.StatusIs | apps/portal/ui-src/src/engine/useResolveEngine.ts:154-158 | over every run the status is that of the last start, reset, response, failure or error event; a walk turns an idle page running and nothing else |
| EngineRuns.FurthestStageIs | apps/portal/ui-src/src/engine/useResolveEngine.ts:141-147 | while no new run starts, the furthest stage is that of the non-error events delivered while the mirror says running, if further than the old one |
| EngineRuns.RunShowsTheStage | apps/portal/ui-src/src/engine/useResolveEngine.ts:141-147 | a run that is not decided yet shows as stage and completion the furthest stage of the events delivered while the mirror said running, for any lag |
| EngineRuns.MirroredRunShowsTheFurthest | apps/portal/ui-src/src/engine/useResolveEngine.ts:141-147 | with the mirror committed before each delivery, that is the furthest stage of all events delivered |
| EngineRuns.InternalResolveStages | apps/portal/ui-src/src/engine/stageMap.ts:7-32 | with the mirror committed before each delivery, the events of a successful internal resolve take the stage through 0, 1, 1, 2, 3, 4, 4, 4 one by one |
| EngineRuns.OutcomeIsShown | apps/portal/ui-src/src/engine/useResolveEngine.ts:190-217 | a response shows its data and completion; a bad one its text, unless an event's error is there; a network failure its message; failures leave stage, completion and result as they are |
| EngineRuns.ErrorShowsTheUriSeen | apps/portal/ui-src/src/engine/useResolveEngine.ts:100-125 | an error event is shown with its type, message and payload, and in place of its own URI the one that the last event to see one saw before it in the same run, unless that is null, false, 0 or empty |
| EngineRuns.ErrorShowsItsPayload | apps/portal/ui-src/src/engine/useResolveEngine.ts:112-125 | if no event of the run saw a URI, the error is shown with its own payload, whatever an earlier run saw |
| Events.ErrorTypeIff | apps/portal/ui-src/src/engine/stageMap.ts:56-58 | a type is an error type exactly if it is some stem and one of the three endings |
| ResolveEngine.Engine.OnEvent | apps/portal/ui-src/src/engine/useResolveEngine.ts:97-148 | the subscriber's statements are the machine's step for an event |
| ResolveEngine.Engine.ResponseFailed | apps/portal/ui-src/src/engine/useResolveEngine.ts:197-210 | an error that carries a payload is kept |
| ResolveEngine.Engine.Reset | apps/portal/ui-src/src/engine/useResolveEngine.ts:219-229 | the engine starts over and the pace queue is flushed |
| Portal.PeerUriReachesTheError | apps/portal/ui-src/src/engine/useResolveEngine.ts:100-125 | from any state of queue and engine, once the page has received a peer URI and then an error, forwarded or not, with nothing dropped, the engine shows that error with that URI until a network failure, and after one an error without a payload, for every interleaving of timers, skips, pace changes, renders, effects, HTTP and network failures; likewise without a URI if none is seen or known |
| Portal.ExternalResolveShowsTheForeignUri | apps/portal/external_carrier_client.go:61-79 | an external resolve ends with an error shown, with a payload exactly if no network failure came after the handshake error; it is then that error, with the rejected certificate's URI exactly if that is not empty |
| Portal.ExternalResolveShowsTheError | apps/portal/external_carrier_client.go:75-83 | a resolve whose dial fails in the network, or is refused with a certificate without URIs, ends with the handshake error and nothing but its message |
| Portal.CarrierErrorIsShown | apps/portal/ui-src/src/engine/paceQueue.ts:106-138 | an error event of the carrier, forwarded as a frame, ends up as the error shown, with its type, message and payload |
| Portal.ArrivalStartsTheRun | apps/portal/ui-src/src/engine/useResolveEngine.ts:154-158 | an event that arrives at an idle page and queue starts the page running |
| Portal.NothingDropped | apps/portal/trace.go:28-68 | the channel a page subscribes on a bus asked for at least as many places as there are events drops none, under every interleaving |
| Portal.UriAheadStep | apps/portal/ui-src/src/engine/paceQueue.ts:122-138 | a step of the queue that does not flush changes the URI known after the queue has drained only by what it accepts |
| ExternalCarrier.Resolve | apps/portal/external_carrier_client.go:46-94 | the events of the dial's outcome are emitted to the bus in order, and the verdict is the outcome's |
| ExternalCarrier.ScriptIs | apps/portal/external_carrier_client.go:46-93 | a resolve starts, sees the first foreign URI exactly if a certificate with URIs was refused, and has a handshake error exactly if the dial was not accepted |
| BusModel.Delivery | apps/portal/trace.go:28-68 | under every interleaving, received and buffered are a subsequence of the events emitted while registered; with the dropped ones they add up; with none dropped nothing is missing; the buffer keeps within its size |
| BusModel.LosesNothingIff | apps/portal/trace.go:61-67 | under every interleaving a channel loses one event for each emission that finds its buffer full, and has every event of its window exactly if there is none |
| BusModel.FewEventsAreKept | apps/portal/trace.go:28-44 | on a bus asked for any size, a channel whose window has no more events than that size, or than one, has lost none and has them all |
| BusModel.EmissionIsLostIff | apps/portal/trace.go:61-67 | an emission to a registered channel is lost exactly if as many events as it has places were offered before, not lost, and are not yet received |
| BusModel.ReceptionsTake | apps/portal/trace.go:83-91 | receptions take what waits in order, and as many as are waiting take all of it |
| BusModel.ChannelsAreSafe | apps/portal/trace.go:38-53 | a registered channel is open, none is closed twice, and unsubscribing again has no effect |
| BusModel.RunKeeps | apps/carrier/trace.go:34-64 | a channel is registered exactly between its subscription and its removal, and is offered exactly the events emitted in between |
| TraceBus.Bus.Emit | apps/portal/trace.go:55-68 | the loop, in any order of channels, offers the event to each registered channel once and leaves the others alone |
| TraceBus.Bus.Unsubscribe | apps/portal/trace.go:46-53 | a registered channel is removed and closed; any other is left alone |
| TraceBus.Channel.TrySend | apps/portal/trace.go:63-66 | an open channel takes the event or, when full, drops it |
| Sse.SplitOnDoubleNewline | apps/portal/carrier_client.go:175-188 | panics exactly on three newlines in a row, and otherwise returns the re-encoded text between newline pairs |
| Sse.SplitFrames | apps/portal/carrier_client.go:165-173 | returns the data of the pieces that start with the prefix and hold more than it |
| Sse.RoundTrip | apps/portal/trace.go:92-95 | splitting the printed frames gives back each body re-encoded, and the bodies themselves exactly if all are ASCII |
| Sse.EncodeInjective | apps/portal/carrier_client.go:178 | taking bytes for code points loses nothing |
| Sse.EncodeIsIdentityIffAscii | apps/portal/carrier_client.go:178 | it is the identity exactly on ASCII, and never shortens |
| Sse.DecodesToTheBytes | apps/portal/carrier_client.go:178 | decoding the re-encoded text as UTF-8 gives the original bytes as code points |
| Sse.FrameFormat | apps/portal/trace.go:92-96 | a frame is `data: `, the body, and two newlines |
| Sse.PiecesRejoin | apps/portal/carrier_client.go:175-188 | without three newlines in a row, the pieces with their separators are the input re-encoded |
| SseReads.ReadsIff | apps/portal/carrier_client.go:149-163 | for any reads of a stream of frames, splitting them one by one gives the frames of the whole stream exactly if every read ends at the edge of a frame or just before its separator, or is a lone newline of a separator cut up |
| SseReads.ReadsWithinInk | apps/portal/carrier_client.go:151-158 | the frames of any reads whatever take no more bytes other than newlines than the reads hold |
| SseReads.ReadsNeverPanic | apps/portal/carrier_client.go:151-158 | however a stream of frames is cut, no read of it makes the splitter panic |
| SseReads.StreamCarrierTrace | apps/portal/carrier_client.go:149-163 | the loop republishes the frames of each read in order, panics exactly if a read makes the splitter panic, and by then has republished those of the reads before it |
| Sse.WriteFrames | apps/carrier/trace.go:88-91 | the three writes per event make up the frames |
| IdentityCache.ServedIsFresh | apps/portal/identity.go:111-122 | a call that does not fetch is served what the last fetch brought, less than 30 seconds after it was back, and no error if the source returns one of the two |
| IdentityCache.ServedIsTheLastFetch | apps/portal/identity.go:111-122 | every call, whether it fetches or not, is served what the last fetch up to and including it brought |
| IdentityCache.FetchRate | apps/portal/identity.go:45-122 | an interval of length T holds at most 1 + T/30s successful fetches, whatever fails in between |
| IdentityCache.SuccessesAreApart | apps/portal/identity.go:111-122 | two successful fetches are back at least 30 seconds apart |
| IdentityCache.Aggregator.CarrierCached | apps/portal/identity.go:111-122 | the served pair and the new cache are those of the cache's step |
| LookupContext.EventuallyCancelled | apps/portal/carrier_client.go:69-73 | a lookup takes at most five steps besides time passing, and when none is left and the grace is over its trace context is cancelled |
| LookupContext.CancelledInTime | apps/portal/carrier_client.go:72 | with a timer that fires when due, the trace context is cancelled within 500ms of the return |
| LookupContext.ArmedAtTheReturn | apps/portal/carrier_client.go:72 | the timer is armed at the time at which the first deferred call runs |
| LookupContext.LateCallerKeepsTheGrace | apps/portal/carrier_client.go:59-73 | if the caller cancels only after the deferred calls, the trace context is cancelled by the timer alone, 500ms after the return or later, and exactly then if the timer fires when due |
| LookupContext.EarlyCallerCancels | apps/portal/carrier_client.go:70-71 | in every reachable state, a caller that cancels before the deferred calls are done cancels the trace context there and then |
| CarrierLookup.SecretShowsOnlyItsLength | apps/carrier/handler.go:180-204 | two lookups that differ only in the secret have the same trace and response exactly if the lengths are equal |
| CarrierLookup.TokenShowsOnlyItsStart | apps/carrier/handler.go:166-178 | two lookups that differ only in the bearer token have the same trace and response exactly if the lengths and the first four characters are equal |
| CarrierLookup.RedactionShows | apps/carrier/redact.go:10-15 | redaction of equally long tokens tells exactly their first four characters apart |
| CarrierLookup.FailureEndsTheTrace | apps/carrier/handler.go:118-218 | a well-formed lookup is a bad gateway exactly if a stage fails, and exactly then its trace ends in an error event; no error event comes earlier; five events mean that every stage passed |
| CarrierLookup.TraceIs | apps/carrier/handler.go:118-218 | the trace is the milestones passed, in order, each showing each of its fields, and one event that says how the lookup ended, together with the response; a malformed id leaves none |
| CarrierLookup.AnswerIsTheRow | apps/carrier/handler.go:206-216 | lookups that pass every stage and differ only in the shipments answer alike exactly if both miss the id or hold the same row, and the answer is the row |
| CarrierLookup.Handler.HandleLookup | apps/carrier/handler.go:118-218 | the statements emit the pipeline's events and give its response |
| Inspectors.GatesAgree | apps/portal/ui-src/src/visualizations/LayersInspector.tsx:105-113 | in every reachable state the layers and topology views give all five gates the same state, and an active gate has only passed or rejected ones before it |
| Inspectors.GatesShowTheStage | apps/portal/ui-src/src/visualizations/LayersInspector.tsx:105-113 | over every run the gates before the stage shown are passed, its own is active, later ones locked; all passed at completion; the second rejected and later ones locked in an error state |
| Inspectors.InternalResolveLightsTheGates | apps/portal/ui-src/src/visualizations/TopologyInspector.tsx:13-24 | with the mirror committed before each delivery, the events of a successful internal resolve light the gates in turn in both views, and the response passes them all |
| Inspectors.LogIsAPrefix | apps/portal/ui-src/src/visualizations/TraceInspector.tsx:102-106 | in every reachable state without an error the visible rows are the first of the template, as many as the completion says |
| Inspectors.LogOnlyGrows | apps/portal/ui-src/src/visualizations/TraceInspector.tsx:44-106 | within a run, with the mirror committed before each delivery, the visible rows only grow |
| Inspectors.ErrorLogIsAPrefixIff | apps/portal/ui-src/src/visualizations/TraceInspector.tsx:102-106 | in an error state the visible rows are a prefix exactly for an internal resolve or one that completed attestation |

## Left out

- PaceQueue.Queue.SetPace: the value of a string as a number is a parameter, and a number is finite: a pace of NaN or infinity is not modelled.
- PaceModel.Weighted: the weight table is a plain object, so an event typed `constructor` or `toString` would take an inherited function for its weight and a delay that is not a number; here it weighs 1.
- ResolveEngine.Engine.OnEvent: the issuance's `iat` and `exp` are not passed on to the TTL ticker, which is not modelled.
- ResolveEngine.Engine.Reset: the TTL ticker is not frozen, for the same reason.
- SseReads.StreamCarrierTrace: the frames are collected in order; wrapping and emitting each is `TraceBus.Bus.Emit`.
- Portal.PeerUriReachesTheError: the browser's event source and JSON parsing between channel and queue are the identity on events; unwrapping uses a decoder that is a parameter.
- Subscribers that throw, re-enter the queue or come and go during a fan-out; `paceQueue.reset`, which drops them all.
- React's batching: a state update takes effect at once, only renders and the mirror lag; rendering, layout and texts of the views.
- The TTL ticker and its formatting: a clamped difference of clock readings.
- `Lookup` beyond the lifetime of its trace context: request building, HTTP and TLS; the outcome of the TLS dial is a parameter.
- `parseJWTHeader`, `decodeJWTClaims`, `parseJWTType`, `parseExpiresIn`: what they read off a token is given with the token.
- `snapshot` and the certificate metadata of the portal's own identity.
- A trace event's timestamp and source; JSON encoding of events and responses.
- The internal carrier's shipment id check, the acme carrier, deployment and scripts.
