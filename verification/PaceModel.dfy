/** The pace queue as a state machine: what each public call and each timer firing does, in
    closed form. Every step runs to completion before the next one starts. */
module PaceModel {
  import opened Options
  import opened Events

  /** `timers` are the live timers and when each is due; `pending` is the one handle the queue
      remembers. The two are separate: a live timer need not be the pending one. */
  datatype State = State(
    queue: seq<Event>,
    pending: Option<nat>,
    walking: bool,
    skipping: bool,
    pace: real,
    timers: map<nat, real>,
    nextTimer: nat,
    now: real)

  /** What subscribers observe: an event, with the time of its delivery and how long the queue
      is meant to hold before the next one, or a walking/idle notification. */
  datatype Output = Deliver(ev: Event, at: real, hold: real) | Walk(on: bool)

  datatype Reaction = Reaction(s: State, out: seq<Output>)

  const FRESH := State([], None, false, false, 0.0, map[], 0, 0.0)

  /** The pace, scaled by the weight of an event type. */
  function Weighted(pace: real, ty: string): (w: real)
    ensures pace == 0.0 ==> w == 0.0
  {
    match ty
    case "mtls.handshake.start" => 0.7 * pace
    case "jwt_svid.issued" => 2.0 * pace
    case "sm.authn_jwt.ok" => 1.5 * pace
    case _ => pace
  }

  /** How long the queue is meant to hold after a delivery that leaves `rest` queued: the pace
      scaled by the weight of the next event, unscaled if there is none. */
  function Hold(pace: real, rest: seq<Event>): (w: real)
    ensures pace == 0.0 ==> w == 0.0
  {
    if rest == [] then pace else Weighted(pace, rest[0].ty)
  }

  /** The whole of `q` delivered in order at one instant. */
  function Deliveries(q: seq<Event>, pace: real, now: real): seq<Output> {
    seq(|q|, i requires 0 <= i < |q| => Deliver(q[i], now, Hold(pace, q[i + 1..])))
  }

  /** Notifications go out only on a change. */
  function Toggle(before: bool, after: bool): seq<Output> {
    if before == after then [] else [Walk(after)]
  }

  function ClearPending(s: State): State {
    match s.pending
    case None => s
    case Some(t) => s.(pending := None, timers := s.timers - {t})
  }

  function Flush(s: State): State {
    ClearPending(s).(queue := [])
  }

  /** Everything queued goes out at once, and the queue goes idle. */
  function DrainAll(s: State): Reaction {
    Reaction(s.(queue := [], pending := None, walking := false, skipping := false),
             Deliveries(s.queue, s.pace, s.now) + Toggle(s.walking, false))
  }

  /** One event goes out and a timer is armed for the next. */
  function DrainOne(s: State): Reaction
    requires s.queue != []
  {
    var rest := s.queue[1..];
    var hold := Hold(s.pace, rest);
    Reaction(s.(queue := rest, pending := Some(s.nextTimer),
                timers := s.timers[s.nextTimer := s.now + hold], nextTimer := s.nextTimer + 1),
             [Deliver(s.queue[0], s.now, hold)])
  }

  /** The queue drains at once at pace 0 and while skipping; an empty queue goes idle. */
  function Drain(s: State): Reaction {
    if s.queue == [] || s.skipping || s.pace == 0.0 then DrainAll(s) else DrainOne(s)
  }

  /** An error takes everything queued out with it, in order and ahead of it. */
  function PushError(s: State, ev: Event): Reaction {
    Reaction(ClearPending(s).(queue := [], walking := false),
             Deliveries(s.queue, s.pace, s.now) + [Deliver(ev, s.now, Hold(s.pace, []))]
             + Toggle(s.walking, false))
  }

  predicate Replays(s: State, ev: Event) {
    !IsError(ev) && ev.ty == RESOLVE_REQUESTED && s.walking
  }

  /** A new resolve mid-walk drops what is queued. The handle of the timer that the drain has
      just armed is forgotten, but the timer stays live. */
  function PushReplay(s: State, ev: Event): Reaction {
    var r := Drain(Flush(s).(queue := [ev]));
    Reaction(r.s.(pending := None, walking := true), r.out + Toggle(r.s.walking, true))
  }

  function Enqueue(s: State, ev: Event): Reaction {
    var q := s.(queue := s.queue + [ev]);
    if s.pending.Some? then Reaction(q, [])
    else
      var r := Drain(q.(walking := true));
      Reaction(r.s, Toggle(s.walking, true) + r.out)
  }

  function Push(s: State, ev: Event): Reaction {
    if IsError(ev) then PushError(s, ev)
    else if Replays(s, ev) then PushReplay(s, ev)
    else Enqueue(s, ev)
  }

  /** A push of what has arrived: a forwarded event is unwrapped, and what has no type is ignored. */
  function PushRaw(s: State, raw: Incoming, decode: Json -> Option<Incoming>): Reaction {
    match Unwrap(raw, decode)
    case Untyped => Reaction(s, [])
    case Typed(ev) => Push(s, ev)
  }

  function Skip(s: State): Reaction {
    if s.walking then Drain(ClearPending(s).(skipping := true)) else Reaction(s, [])
  }

  predicate Due(s: State, t: nat) {
    t in s.timers && s.timers[t] <= s.now
  }

  /** A timer fires at most once, and not before it is due. */
  function Fire(s: State, t: nat): Reaction
    requires Due(s, t)
  {
    Drain(s.(timers := s.timers - {t}))
  }

  function ClampPace(v: real): real {
    if v < 0.0 then 0.0 else v
  }

  type Duration = d: real | d >= 0.0 witness 0.0

  datatype Op =
    | PushOp(ev: Event)
    | FireOp(t: nat)
    | SkipOp
    | SetPaceOp(v: real)
    | FlushOp
    | AdvanceOp(dt: Duration)

  /** A firing that is not possible leaves the state as it is, so every list of operations is a run. */
  function Step(s: State, op: Op): Reaction {
    match op
    case PushOp(ev) => Push(s, ev)
    case FireOp(t) => if Due(s, t) then Fire(s, t) else Reaction(s, [])
    case SkipOp => Skip(s)
    case SetPaceOp(v) => Reaction(s.(pace := ClampPace(v)), [])
    case FlushOp => Reaction(Flush(s), [])
    case AdvanceOp(dt) => Reaction(s.(now := s.now + dt), [])
  }

  /** The operations that discard what is queued. */
  predicate Flushes(s: State, op: Op) {
    op.FlushOp? || (op.PushOp? && Replays(s, op.ev))
  }

  function Accepted(op: Op): seq<Event> {
    if op.PushOp? then [op.ev] else []
  }

  /** The deliveries among the outputs. */
  function Stamps(out: seq<Output>): (d: seq<Output>)
    ensures forall i | 0 <= i < |d| :: d[i].Deliver?
  {
    if out == [] then [] else
    var n := |out| - 1;
    Stamps(out[..n]) + if out[n].Deliver? then [out[n]] else []
  }

  /** The events delivered, in order. */
  function Delivered(out: seq<Output>): seq<Event> {
    if out == [] then [] else
    var n := |out| - 1;
    Delivered(out[..n]) + if out[n].Deliver? then [out[n].ev] else []
  }

  lemma {:induction false} DeliveredConcat(a: seq<Output>, b: seq<Output>)
    ensures Delivered(a + b) == Delivered(a) + Delivered(b)
  {
    if b == [] {
      assert a + b == a;
    } else {
      var n := |b| - 1;
      DeliveredConcat(a, b[..n]);
      assert (a + b)[..|a| + n] == a + b[..n];
    }
  }

  lemma DeliveredDeliveries(q: seq<Event>, pace: real, now: real)
    ensures Delivered(Deliveries(q, pace, now)) == q
  {
    if q != [] {
      DeliveredOfPrefix(q, pace, now, |q|);
      assert q[..|q|] == q && Deliveries(q, pace, now)[..|q|] == Deliveries(q, pace, now);
    }
  }

  lemma {:induction false} DeliveredOfPrefix(q: seq<Event>, pace: real, now: real, n: nat)
    requires n <= |q|
    ensures Delivered(Deliveries(q, pace, now)[..n]) == q[..n]
  {
    if n > 0 {
      DeliveredOfPrefix(q, pace, now, n - 1);
      var d := Deliveries(q, pace, now);
      assert d[..n][..n - 1] == d[..n - 1];
      assert q[..n] == q[..n - 1] + [q[n - 1]];
    }
  }

  /** No step loses, invents or reorders an event unless it flushes; a flush loses exactly what is queued. */
  lemma StepConserves(s: State, op: Op)
    ensures var r := Step(s, op);
      Delivered(r.out) + r.s.queue == (if Flushes(s, op) then [] else s.queue) + Accepted(op)
  {
    hide Push, Drain, Delivered, IsError;
    NothingDelivered();
    match op
    case PushOp(ev) => PushConserves(s, ev);
    case FireOp(t) =>
      if Due(s, t) { DrainConserves(s.(timers := s.timers - {t})); }
    case SkipOp =>
      if s.walking { DrainConserves(ClearPending(s).(skipping := true)); }
    case _ =>
  }

  // ---- Forwarded events ----

  /** A frame that decodes to an event is accepted as that event, once: even if that is again a wrapper. */
  lemma ForwardedEventIsAccepted(s: State, fields: Fields, frame: Json, inner: Event, decode: Json -> Option<Incoming>)
    requires frame !in FALSY && decode(frame) == Some(Typed(inner))
    ensures var r := PushRaw(s, Typed(Event(FORWARDED, Some(fields["frame" := frame]))), decode);
      && r == Push(s, inner)
      && Delivered(r.out) + r.s.queue == (if Replays(s, inner) then [] else s.queue) + [inner]
  {
    hide Push, Delivered, Replays;
    PushConserves(s, inner);
  }

  /** One that decodes to a value without a type changes nothing, and neither does such a value itself. */
  lemma UntypedIsIgnored(s: State, fields: Fields, frame: Json, decode: Json -> Option<Incoming>)
    requires frame !in FALSY && decode(frame) == Some(Untyped)
    ensures PushRaw(s, Typed(Event(FORWARDED, Some(fields["frame" := frame]))), decode) == Reaction(s, [])
    ensures PushRaw(s, Untyped, decode) == Reaction(s, [])
  {}

  /** Any other event is accepted as it is: one of another type, or a wrapper whose frame is missing, is
      falsy, or does not decode. */
  lemma OtherEventIsAccepted(s: State, ev: Event, decode: Json -> Option<Incoming>)
    requires ev.ty == FORWARDED && ev.payload.Some? && "frame" in ev.payload.value ==>
      ev.payload.value["frame"] in FALSY || decode(ev.payload.value["frame"]).None?
    ensures var r := PushRaw(s, Typed(ev), decode);
      && r == Push(s, ev)
      && Delivered(r.out) + r.s.queue == (if Replays(s, ev) then [] else s.queue) + [ev]
  {
    hide Push, Delivered, Replays;
    PushConserves(s, ev);
  }

  lemma NothingDelivered()
    ensures Delivered([]) == []
  {}

  lemma ToggleDeliversNothing(before: bool, after: bool)
    ensures Delivered(Toggle(before, after)) == []
  {
    assert [Walk(after)][..0] == [];
  }

  lemma DrainConserves(s: State)
    ensures var r := Drain(s); Delivered(r.out) + r.s.queue == s.queue
  {
    hide Deliveries, Hold;
    DeliveredDeliveries(s.queue, s.pace, s.now);
    DeliveredConcat(Deliveries(s.queue, s.pace, s.now), Toggle(s.walking, false));
  }

  lemma PushConserves(s: State, ev: Event)
    ensures var r := Push(s, ev);
      Delivered(r.out) + r.s.queue == (if Replays(s, ev) then [] else s.queue) + [ev]
  {
    if IsError(ev) {
      PushErrorConserves(s, ev);
    } else if Replays(s, ev) {
      PushReplayConserves(s, ev);
    } else {
      EnqueueConserves(s, ev);
    }
  }

  lemma EnqueueConserves(s: State, ev: Event)
    ensures var r := Enqueue(s, ev); Delivered(r.out) + r.s.queue == s.queue + [ev]
  {
    hide Drain, Delivered;
    NothingDelivered();
    if s.pending.None? {
      var q := s.(queue := s.queue + [ev], walking := true);
      ToggleDeliversNothing(s.walking, true);
      DrainConserves(q);
      DeliveredConcat(Toggle(s.walking, true), Drain(q).out);
    }
  }

  lemma PushErrorConserves(s: State, ev: Event)
    ensures var r := PushError(s, ev); Delivered(r.out) == s.queue + [ev] && r.s.queue == []
  {
    var all := Deliveries(s.queue, s.pace, s.now);
    var last := [Deliver(ev, s.now, Hold(s.pace, []))];
    DeliveredDeliveries(s.queue, s.pace, s.now);
    DeliveredConcat(all, last);
    DeliveredConcat(all + last, Toggle(s.walking, false));
  }

  lemma PushReplayConserves(s: State, ev: Event)
    ensures var r := PushReplay(s, ev); Delivered(r.out) == [ev] && r.s.queue == []
  {
    hide Delivered, Deliveries;
    var q := Flush(s).(queue := [ev]);
    var r := Drain(q);
    DrainConserves(q);
    assert r.s.queue == [];
    ToggleDeliversNothing(r.s.walking, true);
    DeliveredConcat(r.out, Toggle(r.s.walking, true));
  }
}
