/** The lifetime of the carrier trace subscription of a lookup. The lookup's deferred calls arm a
    timer and then detach the subscription from the caller's context; the caller may cancel at any
    time, and its cancellation takes effect in a goroutine of its own. Times are in milliseconds. */
module LookupContext {
  import opened Options

  type Time = nat

  const GRACE: Time := 500

  /** How far the lookup is, and the state of the hook on the caller's context. */
  datatype Phase = InFlight | Armed | Returned
  datatype Hook = Waiting | Started | Ran | Stopped

  datatype State = State(now: Time, phase: Phase, hook: Hook, armedAt: Option<Time>, fired: bool, cancelledAt: Option<Time>)

  const START := State(0, InFlight, Waiting, None, false, None)

  datatype Op =
    | CallerCancels
    | HookRuns
    | DeferredArm
    | DeferredStop
    | TimerFires
    | Pass(dt: nat)

  /** The grace of an armed timer is over. */
  predicate Due(s: State) {
    s.armedAt.Some? && s.now >= s.armedAt.value + GRACE
  }

  /** Cancelling again has no effect. */
  function Cancel(s: State): State {
    if s.cancelledAt.None? then s.(cancelledAt := Some(s.now)) else s
  }

  predicate Enabled(s: State, op: Op) {
    match op
    case CallerCancels => s.hook == Waiting
    case HookRuns => s.hook == Started
    case DeferredArm => s.phase == InFlight
    case DeferredStop => s.phase == Armed
    case TimerFires => Due(s) && !s.fired
    case Pass(_) => true
  }

  /** Stopping the hook only keeps it from starting: one that has started still cancels. */
  function Step(s: State, op: Op): State {
    if !Enabled(s, op) then s else
    match op
    case CallerCancels => s.(hook := Started)
    case HookRuns => Cancel(s.(hook := Ran))
    case DeferredArm => s.(phase := Armed, armedAt := Some(s.now))
    case DeferredStop => s.(phase := Returned, hook := if s.hook == Waiting then Stopped else s.hook)
    case TimerFires => Cancel(s.(fired := true))
    case Pass(dt) => s.(now := s.now + dt)
  }

  function Run(ops: seq<Op>): State {
    if ops == [] then START else Step(Run(ops[..|ops| - 1]), ops[|ops| - 1])
  }

  ghost predicate Sound(s: State) {
    && (s.phase == InFlight <==> s.armedAt.None?)
    && (s.phase == Returned ==> s.hook != Waiting)
    && (s.hook == Stopped ==> s.phase == Returned)
    && (s.fired ==> Due(s) && s.cancelledAt.Some?)
    && (s.hook == Ran ==> s.cancelledAt.Some?)
    && (s.cancelledAt.Some? <==> s.fired || s.hook == Ran)
    && (s.cancelledAt.Some? ==> s.cancelledAt.value <= s.now)
    && (s.cancelledAt.Some? && s.hook in {Waiting, Stopped} ==> s.armedAt.Some? && s.cancelledAt.value >= s.armedAt.value + GRACE)
  }

  lemma {:induction false} RunIsSound(ops: seq<Op>)
    ensures Sound(Run(ops))
  {
    if ops != [] { RunIsSound(ops[..|ops| - 1]); }
  }

  /** How much time has passed. */
  function Clock(ops: seq<Op>): Time {
    if ops == [] then 0 else Clock(ops[..|ops| - 1]) + match ops[|ops| - 1] case Pass(dt) => dt case _ => 0
  }

  /** When the lookup returned, which is when the first of its deferred calls ran. */
  function ReturnedAt(ops: seq<Op>): Option<Time> {
    if ops == [] then None else
    var init := ops[..|ops| - 1];
    if ReturnedAt(init).None? && ops[|ops| - 1] == DeferredArm then Some(Clock(init)) else ReturnedAt(init)
  }

  /** The machine's clock and timer are these. */
  lemma {:induction false} ArmedAtTheReturn(ops: seq<Op>)
    ensures Run(ops).now == Clock(ops) && Run(ops).armedAt == ReturnedAt(ops)
  {
    RunIsSound(ops);
    if ops != [] {
      RunIsSound(ops[..|ops| - 1]);
      ArmedAtTheReturn(ops[..|ops| - 1]);
    }
  }

  /** How many more steps, other than time passing, the lookup can take. */
  function Left(s: State): nat {
    (match s.hook case Waiting => 2 case Started => 1 case _ => 0)
    + (match s.phase case InFlight => 2 case Armed => 1 case Returned => 0)
    + if s.fired then 0 else 1
  }

  /** How many it has taken. */
  ghost function Taken(ops: seq<Op>): nat {
    if ops == [] then 0 else
    var op := ops[|ops| - 1];
    Taken(ops[..|ops| - 1]) + if !op.Pass? && Enabled(Run(ops[..|ops| - 1]), op) then 1 else 0
  }

  /** Nothing is left to happen but a cancellation by the caller, or time passing. */
  predicate AtRest(s: State) {
    !Enabled(s, DeferredArm) && !Enabled(s, DeferredStop) && !Enabled(s, HookRuns) && !Enabled(s, TimerFires)
  }

  /** The trace context is cancelled in the end: no run takes more than five steps, whatever the caller
      does, and one that comes to rest with the grace over has cancelled it. */
  lemma {:induction false} EventuallyCancelled(ops: seq<Op>)
    ensures Taken(ops) + Left(Run(ops)) <= 5
    ensures AtRest(Run(ops)) ==> ReturnedAt(ops).Some?
    ensures AtRest(Run(ops)) && Clock(ops) >= ReturnedAt(ops).value + 500 ==> Run(ops).cancelledAt.Some?
  {
    RunIsSound(ops);
    ArmedAtTheReturn(ops);
    if ops != [] { EventuallyCancelled(ops[..|ops| - 1]); }
  }

  /** No time passes beyond the end of the grace before the timer has fired. */
  ghost predicate TimerIsPunctual(ops: seq<Op>) {
    ops == [] ||
    (var s, op := Run(ops[..|ops| - 1]), ops[|ops| - 1];
     && TimerIsPunctual(ops[..|ops| - 1])
     && (op.Pass? && s.armedAt.Some? && !s.fired ==> s.now + op.dt <= s.armedAt.value + GRACE))
  }

  /** With a punctual timer the trace context is cancelled no later than 500ms after the return. */
  lemma {:induction false} CancelledInTime(ops: seq<Op>)
    requires TimerIsPunctual(ops)
    ensures var s := Run(ops);
      ReturnedAt(ops).Some? ==>
        && (Clock(ops) > ReturnedAt(ops).value + 500 ==> s.fired)
        && (s.fired ==> s.cancelledAt.Some? && s.cancelledAt.value <= ReturnedAt(ops).value + 500)
  {
    RunIsSound(ops);
    ArmedAtTheReturn(ops);
    if ops != [] {
      CancelledInTime(ops[..|ops| - 1]);
      RunIsSound(ops[..|ops| - 1]);
      ArmedAtTheReturn(ops[..|ops| - 1]);
    }
  }

  /** The caller's cancellation comes only after the deferred calls have run. */
  ghost predicate CallerIsLate(ops: seq<Op>) {
    ops == [] ||
    (CallerIsLate(ops[..|ops| - 1])
     && (ops[|ops| - 1] == CallerCancels ==> Run(ops[..|ops| - 1]).phase == Returned))
  }

  /** Then the trace context gets its whole grace after the return, whatever the caller does later,
      and is cancelled by the timer and nothing else: by a punctual one, at the end of the grace. */
  lemma {:induction false} LateCallerKeepsTheGrace(ops: seq<Op>)
    requires CallerIsLate(ops)
    ensures var s := Run(ops);
      && (s.cancelledAt.Some? <==> s.fired)
      && (s.cancelledAt.Some? ==> ReturnedAt(ops).Some? && s.cancelledAt.value >= ReturnedAt(ops).value + 500)
      && (s.cancelledAt.Some? && TimerIsPunctual(ops) ==> s.cancelledAt.value == ReturnedAt(ops).value + 500)
      && s.hook == if s.phase == Returned then Stopped else Waiting
  {
    RunIsSound(ops);
    ArmedAtTheReturn(ops);
    if ops != [] { LateCallerKeepsTheGrace(ops[..|ops| - 1]); }
    if TimerIsPunctual(ops) { CancelledInTime(ops); }
  }

  /** A caller that cancels before the deferred calls are done cuts the trace short there and then, also if
      they are done before the hook runs; one that finds the hook stopped does not. */
  lemma EarlyCallerCancels(ops: seq<Op>)
    requires Run(ops).cancelledAt.None?
    ensures var s, cut := Run(ops), if Run(ops).hook == Stopped then None else Some(Clock(ops));
      && Run(ops + [CallerCancels] + [HookRuns]).cancelledAt == cut
      && Run(ops + [CallerCancels] + [DeferredStop] + [HookRuns]).cancelledAt == cut
      && (s.phase != Returned ==> s.hook != Stopped)
  {
    RunIsSound(ops);
    ArmedAtTheReturn(ops);
    RunNext(ops, CallerCancels);
    RunNext(ops + [CallerCancels], HookRuns);
    RunNext(ops + [CallerCancels], DeferredStop);
    RunNext(ops + [CallerCancels] + [DeferredStop], HookRuns);
  }

  lemma RunNext(ops: seq<Op>, op: Op)
    ensures Run(ops + [op]) == Step(Run(ops), op)
  {
    assert (ops + [op])[..|ops|] == ops;
  }
}
