/** What every run of the resolve engine keeps. */
module EngineTheorems {
  import opened Options
  import opened Events
  import opened EngineModel

  ghost predicate WithinRun(ops: seq<Op>) {
    forall op | op in ops :: !op.RunOp? && !op.ResetOp?
  }

  /** Every delivery finds the mirror equal to the status. */
  ghost predicate Mirrored(e: Engine, ops: seq<Op>) {
    ops == [] ||
    (var was := Play(e, ops[..|ops| - 1]);
     Mirrored(e, ops[..|ops| - 1]) && (ops[|ops| - 1].EventOp? ==> was.mirror == was.status))
  }

  // ---- Stage and completion ----

  /** However far the mirror lags, a visible stage is the highest one reached and is what is
      shown as completed. */
  lemma {:induction false} StageIsFurthest(ops: seq<Op>)
    ensures var e := Play(START, ops);
      && -1 <= e.stage <= 5 && -1 <= e.maxStage <= 5 && 0 <= e.completed <= 6
      && (e.stage >= 0 ==> e.stage == e.completed == e.maxStage)
  {
    hide EventToStage, IsError, SseError, NoteUri;
    if ops != [] { StageIsFurthest(ops[..|ops| - 1]); }
  }

  /** Until an outcome is known, completion is the highest stage reached. */
  ghost predicate Settled(e: Engine) {
    && 0 <= e.completed <= 6 && -1 <= e.maxStage <= 5
    && (e.status in {Idle, Running} ==> e.completed == if e.maxStage < 0 then 0 else e.maxStage)
    && (e.maxStage >= 0 && e.completed != 6 ==> e.completed == e.maxStage)
  }

  lemma {:induction false} MirroredSettles(ops: seq<Op>)
    requires Mirrored(START, ops)
    ensures Settled(Play(START, ops))
  {
    if ops != [] { MirroredSettles(ops[..|ops| - 1]); }
  }

  /** With the mirror committed before each delivery, completion never goes back within a run. */
  lemma {:induction false} CompletionNeverRewinds(before: seq<Op>, ops: seq<Op>)
    requires Mirrored(START, before + ops) && WithinRun(ops)
    ensures Play(START, before + ops).completed >= Play(START, before).completed
  {
    if ops == [] {
      assert before + ops == before;
    } else {
      var n := |ops| - 1;
      assert (before + ops)[..|before| + n] == before + ops[..n];
      CompletionNeverRewinds(before, ops[..n]);
      MirroredSettles(before + ops[..n]);
    }
  }

  predicate ShowsDone(e: Engine) {
    e.stage == -1 && e.completed == 6
  }

  /** Every state from `e` on shows completion. */
  ghost predicate AlwaysShowsDone(e: Engine, ops: seq<Op>) {
    ShowsDone(Play(e, ops)) && (ops == [] || AlwaysShowsDone(e, ops[..|ops| - 1]))
  }

  /** No delivery is let through: at each, the mirror says that the run is over, or the stage is no news. */
  ghost predicate NeverAdvances(e: Engine, ops: seq<Op>) {
    ops == [] ||
    (NeverAdvances(e, ops[..|ops| - 1])
     && (ops[|ops| - 1].EventOp? ==> !Advances(Play(e, ops[..|ops| - 1]), ops[|ops| - 1].ev)))
  }

  /** Once the outcome is known, the mirror still says that the run is on: it did, and no effect has run;
      or the last effect to run is that of an earlier render. */
  predicate Lags(e: Engine, ops: seq<Op>) {
    if ops == [] then e.mirror == Running else
    match ops[|ops| - 1]
    case RenderOp | CommitOp => e.rendered == Running && RenderOp !in ops[..|ops| - 1]
    case _ => Lags(e, ops[..|ops| - 1])
  }

  /** The furthest stage of the events, other than errors, delivered while the mirror lags. */
  function FurthestLate(e: Engine, ops: seq<Op>): (f: int)
    ensures -1 <= f <= 5
  {
    if ops == [] then -1 else
    var init, op := ops[..|ops| - 1], ops[|ops| - 1];
    var f := FurthestLate(e, init);
    if op.EventOp? && !IsError(op.ev) && Lags(e, init) && EventToStage(op.ev.ty) > f
    then EventToStage(op.ev.ty) else f
  }

  /** An event takes the stage further while the mirror lags. */
  predicate Overtaken(e: Engine, ops: seq<Op>) {
    FurthestLate(e, ops) > e.maxStage && FurthestLate(e, ops) >= 0
  }

  /** Once the HTTP response is in, the run shows completion for good exactly when no late event
      gets past the stale mirror. */
  lemma {:induction false} DoneSurvivesIff(e: Engine, ops: seq<Op>)
    requires ShowsDone(e) && WithinRun(ops)
    ensures AlwaysShowsDone(e, ops) <==> NeverAdvances(e, ops)
    ensures e.status in {Done, Failed} ==> (AlwaysShowsDone(e, ops) <==> !Overtaken(e, ops))
  {
    if ops != [] {
      DoneSurvivesIff(e, ops[..|ops| - 1]);
    }
    if e.status in {Done, Failed} { OvertakenIff(e, ops); }
  }

  /** A finished view is finished by an outcome, so the condition applies to every reachable one. */
  lemma {:induction false} FinishedHasOutcome(ops: seq<Op>)
    ensures Play(START, ops).completed == 6 ==> Play(START, ops).status in {Done, Failed}
  {
    hide IsError, SseError, NoteUri;
    if ops != [] { FinishedHasOutcome(ops[..|ops| - 1]); }
  }

  lemma {:induction false} OvertakenIff(e: Engine, ops: seq<Op>)
    requires e.status in {Done, Failed} && WithinRun(ops)
    ensures NeverAdvances(e, ops) <==> !Overtaken(e, ops)
    ensures Play(e, ops).maxStage == if Overtaken(e, ops) then FurthestLate(e, ops) else e.maxStage
  {
    hide Step, Lags, IsError, EventToStage;
    if ops != [] {
      var init, op := ops[..|ops| - 1], ops[|ops| - 1];
      assert op in ops && forall op | op in init :: op in ops;
      OvertakenIff(e, init);
      MirrorLags(e, init);
      OutcomeStep(Play(e, init), op);
    }
  }

  /** A known outcome stays known, whatever its kind, so from then on a render takes up nothing else. */
  lemma {:induction false} MirrorLags(e: Engine, ops: seq<Op>)
    requires e.status in {Done, Failed} && WithinRun(ops)
    ensures var e' := Play(e, ops);
      && e'.status in {Done, Failed}
      && (e'.mirror == Running <==> Lags(e, ops))
      && (e'.rendered == Running <==> e.rendered == Running && RenderOp !in ops)
  {
    hide Step;
    if ops != [] {
      var init, op := ops[..|ops| - 1], ops[|ops| - 1];
      assert ops == init + [op] && op in ops && forall op | op in init :: op in ops;
      MirrorLags(e, init);
      OutcomeStep(Play(e, init), op);
    }
  }

  lemma OutcomeStep(e: Engine, op: Op)
    requires e.status in {Done, Failed} && !op.RunOp? && !op.ResetOp?
    ensures var e' := Step(e, op);
      && e'.status in {Done, Failed}
      && e'.mirror == (if op.RenderOp? || op.CommitOp? then e.rendered else e.mirror)
      && e'.rendered == (if op.RenderOp? then e.status else e.rendered)
      && e'.maxStage == (if op.EventOp? && Advances(e, op.ev) then EventToStage(op.ev.ty) else e.maxStage)
  {}

  /** That is the case if the mirror is committed before the next delivery. */
  lemma {:induction false} MirroredDoneSurvives(e: Engine, data: Json, ops: seq<Op>)
    requires WithinRun(ops) && Mirrored(HttpOk(e, data), ops)
    ensures var done := HttpOk(e, data);
      && AlwaysShowsDone(done, ops) && Play(done, ops).status in {Done, Failed}
      && ((forall op | op in ops :: !op.HttpOkOp?) ==> Play(done, ops).result == Some(data))
  {
    if ops != [] {
      assert ops[|ops| - 1] in ops && forall op | op in ops[..|ops| - 1] :: op in ops;
      MirroredDoneSurvives(e, data, ops[..|ops| - 1]);
    }
  }

  const HANDSHAKE_OK := Event("mtls.handshake.ok", None)

  /** And it is not always the case: the response lands, and an event delivered before the mirror
      is committed rewinds the view. */
  lemma LateEventRewinds(data: Json)
    ensures var e := Play(START, [RunOp, RenderOp, CommitOp] + [HttpOkOp(data), EventOp(HANDSHAKE_OK)]);
      e.status == Done && e.stage == 1 && e.completed == 1
  {
    HandshakeOk();
    RunsOn(START);
    PlayConcat(START, [RunOp, RenderOp, CommitOp], [HttpOkOp(data), EventOp(HANDSHAKE_OK)]);
    PlayTwo(Play(START, [RunOp, RenderOp, CommitOp]), HttpOkOp(data), EventOp(HANDSHAKE_OK));
  }

  lemma HandshakeOk()
    ensures !IsError(HANDSHAKE_OK) && EventToStage(HANDSHAKE_OK.ty) == 1
  {
    var ty := HANDSHAKE_OK.ty;
    assert ty[|ty| - 4..] == "e.ok" && ty[|ty| - 6..] == "ake.ok";
  }

  /** A render and its effect bring the mirror up to date. */
  lemma Refreshes(e: Engine)
    ensures Play(e, [RenderOp, CommitOp]) == e.(mirror := e.status, rendered := e.status)
  {
    PlayTwo(e, RenderOp, CommitOp);
  }

  lemma RunsOn(e: Engine)
    ensures Play(e, [RunOp, RenderOp, CommitOp]) == Run(e).(mirror := Running, rendered := Running)
  {
    PlayOne(e, RunOp);
    Refreshes(Run(e));
    PlayConcat(e, [RunOp], [RenderOp, CommitOp]);
    assert [RunOp, RenderOp, CommitOp] == [RunOp] + [RenderOp, CommitOp];
  }

  lemma {:induction false} PlayConcat(e: Engine, a: seq<Op>, b: seq<Op>)
    ensures Play(e, a + b) == Play(Play(e, a), b)
  {
    hide Step;
    if b == [] {
      assert a + b == a;
    } else {
      PlayConcat(e, a, b[..|b| - 1]);
      assert (a + b)[..|a + b| - 1] == a + b[..|b| - 1];
    }
  }

  lemma PlayOne(e: Engine, op: Op)
    ensures Play(e, [op]) == Step(e, op)
  {
    hide Step;
    assert [op][..0] == [];
  }

  lemma PlayTwo(e: Engine, a: Op, b: Op)
    ensures Play(e, [a, b]) == Step(Step(e, a), b)
  {
    hide Step;
    PlayConcat(e, [a], [b]);
    PlayOne(e, a);
    PlayOne(Step(e, a), b);
    assert [a, b] == [a] + [b];
  }

  // ---- The two signals ----

  /** The events delivered by a list of operations. */
  function EventsOf(ops: seq<Op>): seq<Event> {
    if ops == [] then [] else
    EventsOf(ops[..|ops| - 1]) + if ops[|ops| - 1].EventOp? then [ops[|ops| - 1].ev] else []
  }

  /** The peer URI noted last. */
  function UriAfter(uri: Option<Json>, evs: seq<Event>): Option<Json> {
    if evs == [] then uri else NoteUri(UriAfter(uri, evs[..|evs| - 1]), evs[|evs| - 1])
  }

  /** The last error among the events, merged with the peer URI noted by then. */
  function LastError(uri: Option<Json>, evs: seq<Event>): Option<ResolveError> {
    if evs == [] then None
    else if IsError(evs[|evs| - 1]) then Some(SseError(evs[|evs| - 1], UriAfter(uri, evs)))
    else LastError(uri, evs[..|evs| - 1])
  }

  /** Deliveries, walking notifications, renders, their effects and failing responses, in any order. */
  ghost predicate FailingRun(ops: seq<Op>) {
    forall op | op in ops :: op.EventOp? || op.WalkingOp? || op.RenderOp? || op.CommitOp? || op.HttpFailOp?
  }

  /** Wherever the HTTP failure falls among the deliveries and commits, the error shown is the
      last error event's once one has been delivered. */
  lemma {:induction false} ErrorIsTheLastSseError(e: Engine, ops: seq<Op>)
    requires FailingRun(ops)
    requires LastError(e.peerUri, EventsOf(ops)).Some?
    ensures Play(e, ops).status == Failed && Play(e, ops).error == LastError(e.peerUri, EventsOf(ops))
  {
    hide Step, IsError, UriAfter, SseError;
    var init, op := ops[..|ops| - 1], ops[|ops| - 1];
    assert op in ops && forall op | op in init :: op in ops;
    LastErrorStep(e.peerUri, ops);
    UriFollowsEvents(e, init);
    LastErrorHasPayload(e.peerUri, EventsOf(init));
    ErrorStep(Play(e, init), op);
    if !(op.EventOp? && IsError(op.ev)) { ErrorIsTheLastSseError(e, init); }
  }

  lemma {:induction false} LastErrorHasPayload(uri: Option<Json>, evs: seq<Event>)
    ensures LastError(uri, evs).Some? ==> LastError(uri, evs).value.payload.Some?
  {
    if evs != [] { LastErrorHasPayload(uri, evs[..|evs| - 1]); }
  }

  lemma {:induction false} StageStaysDown(e: Engine, ops: seq<Op>)
    requires FailingRun(ops) && Mirrored(e, ops)
    ensures LastError(e.peerUri, EventsOf(ops)).Some? ==> Play(e, ops).stage == -1
  {
    if ops != [] {
      var init, op := ops[..|ops| - 1], ops[|ops| - 1];
      StageStaysDown(e, init);
      if LastError(e.peerUri, EventsOf(init)).Some? { ErrorIsTheLastSseError(e, init); }
      if op.EventOp? {
        assert EventsOf(ops)[..|EventsOf(ops)| - 1] == EventsOf(init);
      } else {
        assert EventsOf(ops) == EventsOf(init);
      }
    }
  }

  /** How many operations there are up to the last error event, that one included. */
  function UpToLastError(ops: seq<Op>): (n: nat)
    ensures n <= |ops|
  {
    if ops == [] || (ops[|ops| - 1].EventOp? && IsError(ops[|ops| - 1].ev)) then |ops|
    else UpToLastError(ops[..|ops| - 1])
  }

  /** An event later than the last error gets past the stale mirror. */
  predicate ErrorOvertaken(e: Engine, ops: seq<Op>) {
    var n := UpToLastError(ops);
    Overtaken(Play(e, ops[..n]), ops[n..])
  }

  function LateStage(e: Engine, ops: seq<Op>): int {
    var n := UpToLastError(ops);
    FurthestLate(Play(e, ops[..n]), ops[n..])
  }

  /** The stage shown with the error: none, unless a late event brings one back. */
  function StageOfError(e: Engine, ops: seq<Op>): (stage: int)
    ensures stage == -1 <==> !ErrorOvertaken(e, ops)
  {
    if ErrorOvertaken(e, ops) then LateStage(e, ops) else -1
  }

  lemma StageAfterErrorIs(e: Engine, ops: seq<Op>)
    requires FailingRun(ops)
    requires LastError(e.peerUri, EventsOf(ops)).Some?
    ensures Play(e, ops).stage == StageOfError(e, ops)
  {
    hide Step, Play, Overtaken, LastError;
    var n := UpToLastError(ops);
    ErrorIsReached(e, ops);
    assert forall op | op in ops[n..] :: op in ops;
    assert ops[..n] + ops[n..] == ops;
    StageAfterOutcome(Play(e, ops[..n]), ops[n..]);
    PlayConcat(e, ops[..n], ops[n..]);
  }

  lemma {:induction false} ErrorIsReached(e: Engine, ops: seq<Op>)
    requires LastError(e.peerUri, EventsOf(ops)).Some?
    ensures var n := UpToLastError(ops);
      && Play(e, ops[..n]).status == Failed && Play(e, ops[..n]).stage == -1
      && forall op | op in ops[n..] && op.EventOp? :: !IsError(op.ev)
  {
    var init, op := ops[..|ops| - 1], ops[|ops| - 1];
    if op.EventOp? && IsError(op.ev) {
      assert ops[..|ops|] == ops;
    } else {
      if op.EventOp? {
        assert EventsOf(ops)[..|EventsOf(ops)| - 1] == EventsOf(init);
      } else {
        assert EventsOf(ops) == EventsOf(init);
      }
      ErrorIsReached(e, init);
      var n := UpToLastError(init);
      assert init[..n] == ops[..n] && ops[n..] == init[n..] + [op];
    }
  }

  /** From a known outcome on, while only events, commits and failing responses follow. */
  lemma {:induction false} StageAfterOutcome(e: Engine, ops: seq<Op>)
    requires e.status in {Done, Failed} && e.stage == -1
    requires FailingRun(ops) && forall op | op in ops && op.EventOp? :: !IsError(op.ev)
    ensures Play(e, ops).stage == if Overtaken(e, ops) then FurthestLate(e, ops) else -1
  {
    if ops != [] {
      var init, op := ops[..|ops| - 1], ops[|ops| - 1];
      assert op in ops && forall op | op in init :: op in ops;
      StageAfterOutcome(e, init);
      OvertakenIff(e, init);
      MirrorLags(e, init);
    }
  }

  /** The two signals commute: the same deliveries, at least one of them an error, end in the same
      status and error wherever the HTTP failures and commits fall among them; and in the same view, with
      no stage, exactly if in neither run a late event gets past the stale mirror after the last error. */
  lemma SignalsCommute(e: Engine, ops: seq<Op>, ops': seq<Op>)
    requires FailingRun(ops) && FailingRun(ops')
    requires EventsOf(ops) == EventsOf(ops')
    requires exists ev :: ev in EventsOf(ops) && IsError(ev)
    ensures var a, b := Play(e, ops), Play(e, ops');
      && a.status == b.status == Failed && a.error == b.error
      && a.stage == StageOfError(e, ops) && b.stage == StageOfError(e, ops')
      && (a.stage == b.stage == -1 <==> !ErrorOvertaken(e, ops) && !ErrorOvertaken(e, ops'))
      && (Mirrored(e, ops) && Mirrored(e, ops') ==> a.stage == b.stage == -1)
  {
    var ev :| ev in EventsOf(ops) && IsError(ev);
    SomeErrorIsLast(e.peerUri, EventsOf(ops), ev);
    ErrorIsTheLastSseError(e, ops);
    ErrorIsTheLastSseError(e, ops');
    StageAfterErrorIs(e, ops);
    StageAfterErrorIs(e, ops');
    if Mirrored(e, ops) { StageStaysDown(e, ops); }
    if Mirrored(e, ops') { StageStaysDown(e, ops'); }
  }

  const REJECTED := Event(HANDSHAKE_ERR, None)

  /** And the stage does depend on where the failure falls: of two runs that differ only in that, the error
      view of one shows no stage, and that of the other a stage that a late event has brought back. */
  lemma LateEventRewindsTheError(message: string)
    ensures var e := Play(START, [RunOp, RenderOp, CommitOp]);
      var late := [RenderOp, CommitOp] + [EventOp(REJECTED), EventOp(HANDSHAKE_OK)];
      var ops, ops' := [HttpFailOp(message)] + late, late + [HttpFailOp(message)];
      && FailingRun(ops) && FailingRun(ops') && EventsOf(ops) == EventsOf(ops')
      && Play(e, ops).status == Play(e, ops').status == Failed
      && Play(e, ops).stage == -1 && Play(e, ops').stage == 1
  {
    hide EventsOf, OnEvent, Run;
    var e, fail := Play(START, [RunOp, RenderOp, CommitOp]), HttpFailOp(message);
    var late := [RenderOp, CommitOp] + [EventOp(REJECTED), EventOp(HANDSHAKE_OK)];
    RunsOn(START);
    LateOutcomes(e, message);
    PlayLate(e);
    PlayLate(Step(e, fail));
    PlayOne(e, fail);
    PlayOne(Play(e, late), fail);
    PlayConcat(e, [fail], late);
    PlayConcat(e, late, [fail]);
    NoEvents(fail);
    EventsConcat([fail], late);
    EventsConcat(late, [fail]);
  }

  lemma NoEvents(op: Op)
    requires !op.EventOp?
    ensures EventsOf([op]) == []
  {
    assert [op][..0] == [];
  }

  /** The two events find the failure mirrored, or they come before it. */
  lemma LateOutcomes(e: Engine, message: string)
    requires e == Run(START).(mirror := Running, rendered := Running)
    ensures var failed := HttpFail(e, message).(mirror := Failed, rendered := Failed);
      var early, late := OnEvent(OnEvent(failed, REJECTED), HANDSHAKE_OK), OnEvent(OnEvent(e, REJECTED), HANDSHAKE_OK);
      && early.status == Failed && early.stage == -1
      && HttpFail(late, message).status == Failed && HttpFail(late, message).stage == 1
  {
    HandshakeOk();
    HandshakeRejected();
  }

  lemma HandshakeRejected()
    ensures IsError(REJECTED) && REJECTED.ty != PEER_URI_SEEN
  {
    var ty := REJECTED.ty;
    assert ty[|ty| - 4..] == ".err";
  }

  lemma PlayLate(e: Engine)
    ensures Play(e, [RenderOp, CommitOp] + [EventOp(REJECTED), EventOp(HANDSHAKE_OK)])
         == OnEvent(OnEvent(e.(mirror := e.status, rendered := e.status), REJECTED), HANDSHAKE_OK)
  {
    hide OnEvent;
    Refreshes(e);
    PlayTwo(e.(mirror := e.status, rendered := e.status), EventOp(REJECTED), EventOp(HANDSHAKE_OK));
    PlayConcat(e, [RenderOp, CommitOp], [EventOp(REJECTED), EventOp(HANDSHAKE_OK)]);
  }

  lemma {:induction false} EventsConcat(a: seq<Op>, b: seq<Op>)
    ensures EventsOf(a + b) == EventsOf(a) + EventsOf(b)
  {
    if b == [] {
      assert a + b == a;
    } else {
      EventsConcat(a, b[..|b| - 1]);
      assert (a + b)[..|a + b| - 1] == a + b[..|b| - 1];
    }
  }

  lemma {:induction false} SomeErrorIsLast(uri: Option<Json>, evs: seq<Event>, ev: Event)
    requires ev in evs && IsError(ev)
    ensures LastError(uri, evs).Some?
  {
    if evs[|evs| - 1] != ev { SomeErrorIsLast(uri, evs[..|evs| - 1], ev); }
  }

  /** No request has failed in the network since the last error event. */
  predicate NoNetworkFailureSince(ops: seq<Op>) {
    ops == [] ||
    (var op := ops[|ops| - 1];
     (op.EventOp? && IsError(op.ev)) || (!op.NetworkFailOp? && NoNetworkFailureSince(ops[..|ops| - 1])))
  }

  /** A network failure is not such a response: if it may happen too, the last error event's error
      is shown exactly when none has happened since. */
  lemma {:induction false} ErrorSurvivesIff(e: Engine, ops: seq<Op>)
    requires forall op | op in ops ::
      op.EventOp? || op.WalkingOp? || op.RenderOp? || op.CommitOp? || op.HttpFailOp? || op.NetworkFailOp?
    requires LastError(e.peerUri, EventsOf(ops)).Some?
    ensures var e', last := Play(e, ops), LastError(e.peerUri, EventsOf(ops));
      && e'.error.Some?
      && (e'.error == last <==> NoNetworkFailureSince(ops))
      && (e'.error.value.payload.Some? <==> NoNetworkFailureSince(ops))
  {
    hide Step, IsError, UriAfter, SseError;
    var init, op := ops[..|ops| - 1], ops[|ops| - 1];
    assert op in ops && forall op | op in init :: op in ops;
    LastErrorHasPayload(e.peerUri, EventsOf(ops));
    LastErrorStep(e.peerUri, ops);
    UriFollowsEvents(e, init);
    ErrorStep(Play(e, init), op);
    if !(op.EventOp? && IsError(op.ev)) { ErrorSurvivesIff(e, init); }
  }

  /** What an operation does to the error: an error event sets it, a network failure replaces it by one
      without a payload, and nothing else changes one that carries a payload or follows a network failure. */
  lemma ErrorStep(e: Engine, op: Op)
    requires op.EventOp? || op.WalkingOp? || op.RenderOp? || op.CommitOp? || op.HttpFailOp? || op.NetworkFailOp?
    ensures var e' := Step(e, op);
      && (e.status == Failed || (op.EventOp? && IsError(op.ev)) ==> e'.status == Failed)
      && (op.EventOp? && IsError(op.ev) ==> e'.error == Some(SseError(op.ev, NoteUri(e.peerUri, op.ev))))
      && (op.EventOp? && !IsError(op.ev) ==> e'.error == e.error)
      && (op.WalkingOp? || op.RenderOp? || op.CommitOp? ==> e'.error == e.error)
      && (op.NetworkFailOp? ==> e'.error.Some? && e'.error.value.payload.None?)
      && (op.HttpFailOp? && e.error.Some? && e.error.value.payload.Some? ==> e'.error == e.error)
      && (op.HttpFailOp? && !(e.error.Some? && e.error.value.payload.Some?) ==>
            e'.error.Some? && e'.error.value.payload.None?)
  {
    hide IsError, SseError, NoteUri;
  }

  lemma LastErrorStep(uri: Option<Json>, ops: seq<Op>)
    requires ops != []
    ensures var init, op := ops[..|ops| - 1], ops[|ops| - 1];
      LastError(uri, EventsOf(ops)) ==
        if op.EventOp? && IsError(op.ev) then Some(SseError(op.ev, NoteUri(UriAfter(uri, EventsOf(init)), op.ev)))
        else LastError(uri, EventsOf(init))
  {
    hide IsError, SseError, NoteUri;
    var init, op := ops[..|ops| - 1], ops[|ops| - 1];
    if op.EventOp? {
      assert EventsOf(ops)[..|EventsOf(ops)| - 1] == EventsOf(init);
    } else {
      assert EventsOf(ops) == EventsOf(init);
    }
  }

  lemma {:induction false} UriFollowsEvents(e: Engine, ops: seq<Op>)
    requires WithinRun(ops)
    ensures Play(e, ops).peerUri == UriAfter(e.peerUri, EventsOf(ops))
  {
    if ops != [] {
      var init, op := ops[..|ops| - 1], ops[|ops| - 1];
      UriFollowsEvents(e, init);
      UriStep(Play(e, init), op);
      if op.EventOp? {
        assert EventsOf(ops)[..|EventsOf(ops)| - 1] == EventsOf(init);
      } else {
        assert EventsOf(ops) == EventsOf(init);
      }
    }
  }

  lemma UriStep(e: Engine, op: Op)
    requires !op.RunOp? && !op.ResetOp?
    ensures Step(e, op).peerUri == if op.EventOp? then NoteUri(e.peerUri, op.ev) else e.peerUri
  {}
}
