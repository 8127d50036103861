/** The resolve engine as a state machine driven by two unsynchronised signals: the events the
    pace queue delivers and the outcome of the HTTP request. */
module EngineModel {
  import opened Options
  import opened Events

  datatype Status = Idle | Running | Done | Failed

  datatype ResolveError = ResolveError(ty: string, message: Option<Json>, payload: Option<Fields>)

  /** `mirror` is the copy of the status that the event subscriber reads. It lags twice: a render takes
      up the status, as `rendered`, and the render's effect copies that to the mirror later. */
  datatype Engine = Engine(
    status: Status,
    stage: int,
    completed: int,
    result: Option<Json>,
    error: Option<ResolveError>,
    maxStage: int,
    peerUri: Option<Json>,
    mirror: Status,
    rendered: Status)

  const START := Engine(Idle, -1, 0, None, None, -1, None, Idle, Idle)

  /** A field of a payload; a missing or null field is None. */
  function Field(payload: Option<Fields>, name: string): Option<Json> {
    if payload.Some? && name in payload.value && payload.value[name] != Null
    then Some(payload.value[name]) else None
  }

  function NoteUri(peerUri: Option<Json>, ev: Event): Option<Json> {
    if ev.ty == PEER_URI_SEEN && ev.payload.Some? then Field(ev.payload, "uri") else peerUri
  }

  /** The payload of an error with the captured peer URI, unless that is missing or empty. */
  function Merge(payload: Option<Fields>, uri: Option<Json>): Fields {
    var own := payload.GetOr(map[]);
    if uri.Some? && Truthy(uri.value) then own["uri" := uri.value] else own
  }

  function SseError(ev: Event, uri: Option<Json>): ResolveError {
    var merged := Merge(ev.payload, uri);
    ResolveError(ev.ty, if "err" in merged then Some(merged["err"]) else None, Some(merged))
  }

  /** An event that moves the stage forward. */
  predicate Advances(e: Engine, ev: Event) {
    !IsError(ev) && e.mirror == Running && EventToStage(ev.ty) > e.maxStage && EventToStage(ev.ty) >= 0
  }

  function OnEvent(e: Engine, ev: Event): Engine {
    var uri := NoteUri(e.peerUri, ev);
    var idx := EventToStage(ev.ty);
    if IsError(ev) then
      e.(peerUri := uri, error := Some(SseError(ev, uri)), stage := -1, status := Failed)
    else if Advances(e, ev) then
      e.(peerUri := uri, maxStage := idx, stage := idx, completed := idx)
    else
      e.(peerUri := uri)
  }

  function OnWalking(e: Engine, on: bool): Engine {
    if on && e.status in {Idle, Running} then e.(status := Running) else e
  }

  function Run(e: Engine): Engine {
    Engine(Running, -1, 0, None, None, -1, None, e.mirror, e.rendered)
  }

  function Reset(e: Engine): Engine {
    Engine(Idle, -1, 0, None, None, -1, None, e.mirror, e.rendered)
  }

  function HttpOk(e: Engine, data: Json): Engine {
    e.(result := Some(data), status := Done, stage := -1, completed := 6)
  }

  /** An error that carries a payload came from an event, and is kept. */
  function HttpFail(e: Engine, message: string): Engine {
    var kept := e.error.Some? && e.error.value.payload.Some?;
    e.(status := Failed,
       error := if kept then e.error else Some(ResolveError("http.error", Some(Str(message)), None)))
  }

  function NetworkFail(e: Engine, message: string): Engine {
    e.(status := Failed, error := Some(ResolveError("network.error", Some(Str(message)), None)))
  }

  /** The effect of the last render runs. */
  function Commit(e: Engine): Engine {
    e.(mirror := e.rendered)
  }

  /** A render's effect runs before the next render at the latest. */
  function Render(e: Engine): Engine {
    Commit(e).(rendered := e.status)
  }

  datatype Op =
    | EventOp(ev: Event)
    | WalkingOp(on: bool)
    | RunOp
    | ResetOp
    | HttpOkOp(data: Json)
    | HttpFailOp(message: string)
    | NetworkFailOp(message: string)
    | RenderOp
    | CommitOp

  function Step(e: Engine, op: Op): Engine {
    match op
    case EventOp(ev) => OnEvent(e, ev)
    case WalkingOp(on) => OnWalking(e, on)
    case RunOp => Run(e)
    case ResetOp => Reset(e)
    case HttpOkOp(data) => HttpOk(e, data)
    case HttpFailOp(message) => HttpFail(e, message)
    case NetworkFailOp(message) => NetworkFail(e, message)
    case RenderOp => Render(e)
    case CommitOp => Commit(e)
  }

  function Play(e: Engine, ops: seq<Op>): Engine {
    if ops == [] then e else Step(Play(e, ops[..|ops| - 1]), ops[|ops| - 1])
  }
}
