/** What a resolve shows while it runs and when it is over, by what has happened since it was started. */
module EngineRuns {
  import opened Options
  import opened Events
  import opened EngineModel
  import opened EngineTheorems

  // ---- Starting over ----

  /** A run forgets everything that came before it, errors and peer URIs included, and so does a reset;
      only the mirror and the render behind it are left over. */
  lemma RunStartsOver(before: seq<Op>)
    ensures var e := Play(START, before);
      && Play(START, before + [RunOp]) == START.(status := Running, mirror := e.mirror, rendered := e.rendered)
      && Play(START, before + [ResetOp]) == START.(mirror := e.mirror, rendered := e.rendered)
  {
    hide Play;
    PlayNext(START, before, RunOp);
    PlayNext(START, before, ResetOp);
  }

  lemma PlayNext(e: Engine, ops: seq<Op>, op: Op)
    ensures Play(e, ops + [op]) == Step(Play(e, ops), op)
  {
    assert (ops + [op])[..|ops|] == ops;
  }

  /** A run that has rendered: from here on it is the same whatever came before. */
  lemma FreshRun(before: seq<Op>, ops: seq<Op>)
    ensures Play(START, before + [RunOp, RenderOp, CommitOp] + ops)
         == Play(START.(status := Running, mirror := Running, rendered := Running), ops)
  {
    hide Play;
    RunsOn(Play(START, before));
    PlayConcat(START, before, [RunOp, RenderOp, CommitOp]);
    PlayConcat(START, before + [RunOp, RenderOp, CommitOp], ops);
  }

  // ---- Status ----

  /** The last operation that decides the status decides it; a walk starts an idle page running. */
  function StatusOf(ops: seq<Op>): Status {
    if ops == [] then Idle else
    var init := ops[..|ops| - 1];
    match ops[|ops| - 1]
    case RunOp => Running
    case ResetOp => Idle
    case HttpOkOp(_) => Done
    case HttpFailOp(_) | NetworkFailOp(_) => Failed
    case EventOp(ev) => if IsError(ev) then Failed else StatusOf(init)
    case WalkingOp(on) => if on && StatusOf(init) == Idle then Running else StatusOf(init)
    case RenderOp | CommitOp => StatusOf(init)
  }

  lemma {:induction false} StatusIs(ops: seq<Op>)
    ensures Play(START, ops).status == StatusOf(ops)
  {
    hide IsError, SseError, NoteUri, EventToStage;
    if ops != [] { StatusIs(ops[..|ops| - 1]); }
  }

  // ---- Stage ----

  /** Neither the response nor an error has come. */
  predicate Undecided(ops: seq<Op>) {
    forall op | op in ops ::
      !op.HttpOkOp? && !op.HttpFailOp? && !op.NetworkFailOp? && (op.EventOp? ==> !IsError(op.ev))
  }

  /** The furthest stage of the events, other than errors, delivered while the mirror says running. */
  ghost function FurthestHeeded(e: Engine, ops: seq<Op>): (f: int)
    ensures -1 <= f <= 5
  {
    if ops == [] then -1 else
    var init, op := ops[..|ops| - 1], ops[|ops| - 1];
    var f := FurthestHeeded(e, init);
    if op.EventOp? && !IsError(op.ev) && Play(e, init).mirror == Running && EventToStage(op.ev.ty) > f
    then EventToStage(op.ev.ty) else f
  }

  /** The furthest stage is that of the events heeded, if it is further than the old one. */
  lemma {:induction false} FurthestStageIs(e: Engine, ops: seq<Op>)
    requires WithinRun(ops)
    ensures var f := FurthestHeeded(e, ops);
      Play(e, ops).maxStage == if f > e.maxStage && f >= 0 then f else e.maxStage
  {
    hide IsError, EventToStage, SseError, NoteUri;
    if ops != [] {
      assert forall op | op in ops[..|ops| - 1] :: op in ops;
      FurthestStageIs(e, ops[..|ops| - 1]);
    }
  }

  /** Until the outcome is known, the stage shown is that, and so is the completion. */
  lemma {:induction false} UndecidedShowsTheStage(e: Engine, ops: seq<Op>)
    requires e.status == Running && e.stage == e.maxStage && e.completed == (if e.maxStage < 0 then 0 else e.maxStage)
    requires WithinRun(ops) && Undecided(ops)
    ensures var e' := Play(e, ops);
      e'.status == Running && e'.stage == e'.maxStage && e'.completed == if e'.maxStage < 0 then 0 else e'.maxStage
  {
    hide IsError, EventToStage, SseError, NoteUri;
    if ops != [] {
      var op := ops[|ops| - 1];
      assert op in ops && forall op | op in ops[..|ops| - 1] :: op in ops;
      UndecidedShowsTheStage(e, ops[..|ops| - 1]);
    }
  }

  /** While a resolve runs, whatever came before it and however renders and effects lag, it shows the
      furthest stage of the events delivered while the mirror said running. */
  lemma RunShowsTheStage(before: seq<Op>, ops: seq<Op>)
    requires WithinRun(ops) && Undecided(ops)
    ensures var e := Play(START, before + [RunOp]);
      var e', f := Play(START, before + [RunOp] + ops), FurthestHeeded(e, ops);
      e'.status == Running && e'.stage == e'.maxStage == f && e'.completed == if f < 0 then 0 else f
  {
    hide Play, FurthestHeeded;
    RunStartsOver(before);
    PlayConcat(START, before + [RunOp], ops);
    FurthestStageIs(Play(START, before + [RunOp]), ops);
    UndecidedShowsTheStage(Play(START, before + [RunOp]), ops);
  }

  /** With the mirror committed before each delivery that is the furthest of all events delivered. */
  lemma MirroredRunShowsTheFurthest(before: seq<Op>, ops: seq<Op>)
    requires WithinRun(ops) && Undecided(ops) && Mirrored(Play(START, before + [RunOp]), ops)
    ensures var e', evs := Play(START, before + [RunOp] + ops), EventsOf(ops);
      && -1 <= e'.stage && e'.completed == (if e'.stage < 0 then 0 else e'.stage)
      && (forall ev | ev in evs :: EventToStage(ev.ty) <= e'.stage)
      && (e'.stage >= 0 ==> exists ev :: ev in evs && EventToStage(ev.ty) == e'.stage)
  {
    hide Play, FurthestHeeded, Mirrored, EventsOf;
    RunShowsTheStage(before, ops);
    RunStartsOver(before);
    HeedsAll(Play(START, before + [RunOp]), ops);
  }

  lemma {:induction false} HeedsAll(e: Engine, ops: seq<Op>)
    requires e.status == Running && e.stage == e.maxStage && e.completed == (if e.maxStage < 0 then 0 else e.maxStage)
    requires WithinRun(ops) && Undecided(ops) && Mirrored(e, ops)
    ensures var f := FurthestHeeded(e, ops);
      && (forall ev | ev in EventsOf(ops) :: EventToStage(ev.ty) <= f)
      && (f >= 0 ==> exists ev :: ev in EventsOf(ops) && EventToStage(ev.ty) == f)
  {
    hide Play, IsError, EventToStage;
    if ops != [] {
      var init, op := ops[..|ops| - 1], ops[|ops| - 1];
      assert op in ops && forall op | op in init :: op in ops;
      HeedsAll(e, init);
      UndecidedShowsTheStage(e, init);
      var f := FurthestHeeded(e, init);
      if f >= 0 {
        var ev :| ev in EventsOf(init) && EventToStage(ev.ty) == f;
        assert ev in EventsOf(ops);
      }
      if op.EventOp? { assert op.ev in EventsOf(ops); }
    }
  }

  // ---- An internal resolve ----

  /** The events of an internal resolve that everything goes well in, and the stage each of them shows. */
  const INTERNAL: seq<string> :=
    [RESOLVE_REQUESTED, "mtls.handshake.start", "request.received", "jwt_svid.issued", "sm.authn_jwt.ok",
     "sm.secret_fetched.ok", "carrier.lookup.ok", "mtls.handshake.ok"]

  const STAGES: seq<int> := [0, 1, 1, 2, 3, 4, 4, 4]

  predicate InternalEvents(evs: seq<Event>) {
    |evs| <= |INTERNAL| && forall i | 0 <= i < |evs| :: evs[i].ty == INTERNAL[i]
  }

  /** They take the stage through its course one by one, with the mirror committed before each. */
  lemma InternalResolveStages(before: seq<Op>, ops: seq<Op>)
    requires WithinRun(ops) && Undecided(ops) && Mirrored(Play(START, before + [RunOp]), ops)
    requires InternalEvents(EventsOf(ops)) && EventsOf(ops) != []
    ensures var e := Play(START, before + [RunOp] + ops);
      e.stage == e.completed == STAGES[|EventsOf(ops)| - 1]
  {
    hide Play, Mirrored, EventsOf, EventToStage;
    MirroredRunShowsTheFurthest(before, ops);
    var e, evs := Play(START, before + [RunOp] + ops), EventsOf(ops);
    StagesOfInternal();
    assert evs[0] in evs;
    var n := |evs| - 1;
    var at := if n == 2 then 1 else if n > 5 then 5 else n;
    assert evs[at] in evs && EventToStage(evs[at].ty) == STAGES[n];
    forall ev | ev in evs ensures EventToStage(ev.ty) <= STAGES[n] {
      var i :| 0 <= i < |evs| && evs[i] == ev;
      assert EventToStage(ev.ty) <= STAGES[i] <= STAGES[n];
    }
  }

  lemma StagesOfInternal()
    ensures EventToStage(INTERNAL[0]) == 0 && EventToStage(INTERNAL[1]) == 1 && EventToStage(INTERNAL[2]) == -1
    ensures EventToStage(INTERNAL[3]) == 2 && EventToStage(INTERNAL[4]) == 3 && EventToStage(INTERNAL[5]) == 4
    ensures EventToStage(INTERNAL[6]) == -1 && EventToStage(INTERNAL[7]) == 1
  {}

  const HANDSHAKE: seq<string> :=
    ["mtls.handshake.start", "mtls.peer_uri_seen", "mtls.handshake.ok", "mtls.handshake.err", "mtls.handshake.error"]

  /** The types that belong to a stage, and no others, can move it. */
  lemma StageTypes(ty: string)
    ensures EventToStage(ty) == 0 <==> ty == "portal.resolve.requested"
    ensures EventToStage(ty) == 1 <==> ty in HANDSHAKE
    ensures EventToStage(ty) == 2 <==> ty == "jwt_svid.issued"
    ensures EventToStage(ty) == 3 <==> ty == "sm.authn_jwt.ok"
    ensures EventToStage(ty) == 4 <==> ty == "sm.secret_fetched.ok"
    ensures EventToStage(ty) == 5 <==> ty == "portal.resolve.ok"
  {}

  // ---- Outcomes ----

  predicate SameProgress(e: Engine, e': Engine) {
    e'.stage == e.stage && e'.completed == e.completed && e'.maxStage == e.maxStage && e'.result == e.result
  }

  /** What a response or its failure shows: the result of a good one; of a bad one its message, unless an
      event's error is there to be kept; and of a network failure its message in any case. A failure leaves
      the stage and the completion shown as they are. */
  lemma OutcomeIsShown(before: seq<Op>, ops: seq<Op>, text: string, data: Json)
    requires WithinRun(ops)
    ensures var start := before + [RunOp] + ops;
      && Play(START, start + [HttpOkOp(data)]).result == Some(data)
      && ShowsDone(Play(START, start + [HttpOkOp(data)]))
      && Play(START, start + [NetworkFailOp(text)]).error == Some(ResolveError("network.error", Some(Str(text)), None))
      && (forall fail | fail in [HttpFailOp(text), NetworkFailOp(text)] :: SameProgress(Play(START, start), Play(START, start + [fail])))
      && ((forall op | op in ops && op.EventOp? :: !IsError(op.ev)) ==>
            Play(START, start + [HttpFailOp(text)]).error == Some(ResolveError("http.error", Some(Str(text)), None)))
  {
    hide Play, Step, IsError, SameProgress, ShowsDone;
    var start := before + [RunOp] + ops;
    PlayNext(START, start, HttpOkOp(data));
    PlayNext(START, start, NetworkFailOp(text));
    PlayNext(START, start, HttpFailOp(text));
    OutcomeSteps(Play(START, start), text, data);
    if forall op | op in ops && op.EventOp? :: !IsError(op.ev) {
      RunStartsOver(before);
      PlayConcat(START, before + [RunOp], ops);
      NoEventError(Play(START, before + [RunOp]), ops);
    }
  }

  lemma OutcomeSteps(e: Engine, text: string, data: Json)
    ensures Step(e, HttpOkOp(data)).result == Some(data) && ShowsDone(Step(e, HttpOkOp(data)))
    ensures Step(e, NetworkFailOp(text)).error == Some(ResolveError("network.error", Some(Str(text)), None))
    ensures SameProgress(e, Step(e, HttpFailOp(text))) && SameProgress(e, Step(e, NetworkFailOp(text)))
    ensures e.error.None? || e.error.value.payload.None? ==>
      Step(e, HttpFailOp(text)).error == Some(ResolveError("http.error", Some(Str(text)), None))
  {}

  lemma {:induction false} NoEventError(e: Engine, ops: seq<Op>)
    requires WithinRun(ops) && (forall op | op in ops && op.EventOp? :: !IsError(op.ev))
    requires e.error.None? || e.error.value.payload.None?
    ensures Play(e, ops).error.None? || Play(e, ops).error.value.payload.None?
  {
    hide IsError, SseError, NoteUri, EventToStage;
    if ops != [] {
      assert ops[|ops| - 1] in ops && forall op | op in ops[..|ops| - 1] :: op in ops;
      NoEventError(e, ops[..|ops| - 1]);
    }
  }

  // ---- The error of an event ----

  /** The payload an error shows: its own, with the URI seen in its place if that is worth showing. */
  predicate ShowsError(shown: Option<ResolveError>, err: Event, uri: Option<Json>) {
    && shown.Some? && shown.value.ty == err.ty && shown.value.payload.Some?
    && var own, p := err.payload.GetOr(map[]), shown.value.payload.value;
       && (p == if uri.Some? && uri.value !in FALSY then own["uri" := uri.value] else own)
       && shown.value.message == (if "err" in p then Some(p["err"]) else None)
  }

  /** The event sees a peer URI, or sees that there is none. */
  predicate SeesUri(op: Op) {
    op.EventOp? && op.ev.ty == PEER_URI_SEEN && op.ev.payload.Some?
  }

  /** The URI that an event saw. */
  function SeenIn(ev: Event): Option<Json> {
    if ev.payload.Some? && "uri" in ev.payload.value then Some(ev.payload.value["uri"]) else None
  }

  /** In a run without network failures since, the last error event is shown with the URI that the last
      event to see one saw before it in that run. */
  lemma ErrorShowsTheUriSeen(before: seq<Op>, ops: seq<Op>, seen: Event, between: seq<Op>, err: Event, after: seq<Op>)
    requires WithinRun(ops) && WithinRun(between) && SeesUri(EventOp(seen)) && forall op | op in between :: !SeesUri(op)
    requires IsError(err) && err.ty != PEER_URI_SEEN
    requires FailingRun(after) && forall op | op in after && op.EventOp? :: !IsError(op.ev)
    ensures var e := Play(START, before + [RunOp] + ops + [EventOp(seen)] + between + ([EventOp(err)] + after));
      e.status == Failed && ShowsError(e.error, err, SeenIn(seen))
  {
    hide Play, IsError, SeesUri, FailingRun, ShowsError;
    var start := before + [RunOp] + ops;
    PlayNext(START, start, EventOp(seen));
    UriIsSeen(Play(START, start), seen);
    PlayConcat(START, start + [EventOp(seen)], between);
    UriStays(Play(START, start + [EventOp(seen)]), between);
    PlayConcat(START, start + [EventOp(seen)] + between, [EventOp(err)] + after);
    ErrorStaysShown(Play(START, start + [EventOp(seen)] + between), err, after, SeenIn(seen));
  }

  /** If no event of the run saw one, it is shown with its own payload, whatever an earlier run saw. */
  lemma ErrorShowsItsPayload(before: seq<Op>, ops: seq<Op>, err: Event, after: seq<Op>)
    requires WithinRun(ops) && forall op | op in ops :: !SeesUri(op)
    requires IsError(err) && err.ty != PEER_URI_SEEN
    requires FailingRun(after) && forall op | op in after && op.EventOp? :: !IsError(op.ev)
    ensures var e := Play(START, before + [RunOp] + ops + ([EventOp(err)] + after));
      e.status == Failed && ShowsError(e.error, err, None)
  {
    hide Play, IsError, SeesUri, FailingRun, ShowsError;
    var start := before + [RunOp];
    RunStartsOver(before);
    PlayConcat(START, start, ops);
    UriStays(Play(START, start), ops);
    PlayConcat(START, start + ops, [EventOp(err)] + after);
    ErrorStaysShown(Play(START, start + ops), err, after, None);
  }

  /** The engine knows the URI; a missing one, null included, is no URI. */
  predicate Knows(e: Engine, uri: Option<Json>) {
    e.peerUri == if uri == Some(Null) then None else uri
  }

  lemma UriIsSeen(e: Engine, seen: Event)
    requires SeesUri(EventOp(seen))
    ensures Knows(Step(e, EventOp(seen)), SeenIn(seen))
  {}

  lemma ErrorStaysShown(e: Engine, err: Event, after: seq<Op>, uri: Option<Json>)
    requires Knows(e, uri) && IsError(err) && err.ty != PEER_URI_SEEN
    requires FailingRun(after) && forall op | op in after && op.EventOp? :: !IsError(op.ev)
    ensures var e' := Play(e, [EventOp(err)] + after); e'.status == Failed && ShowsError(e'.error, err, uri)
  {
    hide Play, IsError;
    PlayConcat(e, [EventOp(err)], after);
    PlayOne(e, EventOp(err));
    KeepsError(Step(e, EventOp(err)), after);
  }

  lemma {:induction false} UriStays(e: Engine, ops: seq<Op>)
    requires WithinRun(ops) && forall op | op in ops :: !SeesUri(op)
    ensures Play(e, ops).peerUri == e.peerUri
  {
    hide IsError, SseError, EventToStage;
    if ops != [] {
      assert ops[|ops| - 1] in ops && forall op | op in ops[..|ops| - 1] :: op in ops;
      UriStays(e, ops[..|ops| - 1]);
    }
  }

  lemma {:induction false} KeepsError(e: Engine, ops: seq<Op>)
    requires FailingRun(ops) && forall op | op in ops && op.EventOp? :: !IsError(op.ev)
    requires e.status == Failed && e.error.Some? && e.error.value.payload.Some?
    ensures Play(e, ops).status == Failed && Play(e, ops).error == e.error
  {
    hide IsError, SseError, NoteUri, EventToStage;
    if ops != [] {
      assert ops[|ops| - 1] in ops && forall op | op in ops[..|ops| - 1] :: op in ops;
      KeepsError(e, ops[..|ops| - 1]);
    }
  }
}
