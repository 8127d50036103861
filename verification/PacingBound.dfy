/** How far apart deliveries are, and when they are not. */
module PacingBound {
  import opened Options
  import opened Events
  import opened PaceModel
  import opened PaceTheorems

  /** Each delivery comes no earlier than the hold of the one before it. */
  ghost predicate Spaced(d: seq<Output>) {
    && (forall i | 0 <= i < |d| :: d[i].Deliver?)
    && (forall i, j | 0 <= i && i + 1 == j < |d| :: d[j].at >= d[i].at + d[i].hold)
  }

  /** By `now`, the hold of the last delivery is over. */
  ghost predicate Ready(d: seq<Output>, now: real) {
    d == [] || (d[|d| - 1].Deliver? && now >= d[|d| - 1].at + d[|d| - 1].hold)
  }

  /** Pushing an event that is neither an error nor a replay, a timer, a pace change, time passing. */
  predicate Plain(s: State, op: Op) {
    match op
    case PushOp(ev) => !IsError(ev) && !Replays(s, ev)
    case FireOp(_) | SetPaceOp(_) | AdvanceOp(_) => true
    case SkipOp | FlushOp => false
  }

  ghost predicate PlainRun(ops: seq<Op>) {
    ops == [] || (PlainRun(ops[..|ops| - 1]) && Plain(Run(ops[..|ops| - 1]).s, ops[|ops| - 1]))
  }

  ghost predicate Pacing(s: State, d: seq<Output>) {
    Awake(s) && Timely(s, d)
  }

  /** The only live timer is the remembered one, and it is not due before the hold is over. */
  ghost predicate Timely(s: State, d: seq<Output>) {
    && (forall t | t in s.timers :: s.pending == Some(t))
    && (s.pending.Some? ==> s.pending.value in s.timers)
    && Spaced(d)
    && Ready(d, match s.pending case None => s.now case Some(t) => s.timers[t])
  }

  /** Over every plain run, whatever its pace changes and timer firings, consecutive deliveries are
      at least the hold of the earlier one apart. */
  lemma {:induction false} DeliveriesArePaced(ops: seq<Op>)
    requires PlainRun(ops)
    ensures Pacing(Run(ops).s, Stamps(Run(ops).out))
  {
    if ops != [] {
      var l, op := Run(ops[..|ops| - 1]), ops[|ops| - 1];
      DeliveriesArePaced(ops[..|ops| - 1]);
      StampsConcat(l.out, Step(l.s, op).out);
      PacedStep(l.s, op, Stamps(l.out));
    }
  }

  lemma PacedStep(s: State, op: Op, d: seq<Output>)
    requires Pacing(s, d) && Plain(s, op)
    ensures var r := Step(s, op); Pacing(r.s, d + Stamps(r.out))
  {
    hide Awake, Timely, Push, Drain, Stamps;
    AwakeStep(s, op);
    match op
    case PushOp(ev) => PacedPush(s, ev, d);
    case FireOp(t) =>
      if Due(s, t) {
        OnlyTimer(s, t, d);
        PacedDrain(s.(timers := s.timers - {t}), d);
      } else {
        StillPaced(s, s, d);
      }
    case SetPaceOp(_) => StillPaced(s, Step(s, op).s, d);
    case AdvanceOp(_) => StillPaced(s, Step(s, op).s, d);
  }

  lemma PacedPush(s: State, ev: Event, d: seq<Output>)
    requires Pacing(s, d) && !IsError(ev) && !Replays(s, ev)
    ensures var r := Push(s, ev); Timely(r.s, d + Stamps(r.out))
  {
    hide Spaced, Drain, Stamps;
    if s.pending.None? {
      var q := s.(queue := s.queue + [ev], walking := true);
      StampsConcat(Toggle(s.walking, true), Drain(q).out);
      StampsOfToggle(s.walking, true);
      assert [] + Stamps(Drain(q).out) == Stamps(Drain(q).out);
      PacedDrain(q, d);
    } else {
      StillPaced(s, Push(s, ev).s, d);
    }
  }

  /** A timer that fires was the only one, and by then the hold is over. */
  lemma OnlyTimer(s: State, t: nat, d: seq<Output>)
    requires Pacing(s, d) && Due(s, t)
    ensures s.timers - {t} == map[] && Spaced(d) && Ready(d, s.now) && s.pace >= 0.0 && !s.skipping
  {
    hide Spaced;
  }

  /** Nothing is delivered, no timer changes, and the clock is not turned back. */
  lemma StillPaced(s: State, s': State, d: seq<Output>)
    requires Timely(s, d)
    requires s'.timers == s.timers && s'.pending == s.pending && s'.now >= s.now
    ensures Timely(s', d + Stamps([]))
  {
    hide Spaced;
    assert d + Stamps([]) == d;
  }

  lemma PacedDrain(s: State, d: seq<Output>)
    requires Spaced(d) && Ready(d, s.now) && !s.skipping && s.pace >= 0.0 && s.timers == map[]
    ensures var r := Drain(s); Timely(r.s, d + Stamps(r.out))
  {
    hide Spaced, Stamps;
    var e := Stamps(Drain(s).out);
    DrainIsBatch(s);
    SpacedIff(d, e, s.now, s.pace);
    if e == [] { assert d + e == d; }
  }

  // ---- What goes out, and when that is on time ----

  /** Deliveries at one instant, at one pace: a pace of 0 holds for nothing, any other for some time. */
  ghost predicate Batch(e: seq<Output>, now: real, pace: real) {
    forall i | 0 <= i < |e| :: e[i].Deliver? && e[i].at == now && if pace == 0.0 then e[i].hold == 0.0 else e[i].hold > 0.0
  }

  /** A batch keeps to the hold before it exactly if it comes when that is over, and is a single event
      unless nothing is held. */
  lemma SpacedIff(d: seq<Output>, e: seq<Output>, now: real, pace: real)
    requires Spaced(d) && Batch(e, now, pace)
    ensures Spaced(d + e) <==> e == [] || (Ready(d, now) && (|e| == 1 || pace == 0.0))
  {
    var all := d + e;
    if e == [] {
      assert all == d;
    } else {
      if d != [] { assert all[|d| - 1] == d[|d| - 1] && all[|d|] == e[0]; }
      if |e| > 1 { assert all[|d|] == e[0] && all[|d| + 1] == e[1]; }
    }
  }

  /** How many events an operation sends out. */
  function Outgoing(s: State, op: Op): nat {
    match op
    case PushOp(ev) =>
      if IsError(ev) then |s.queue| + 1
      else if Replays(s, ev) || s.pending.None? then 1
      else 0
    case FireOp(t) => if Due(s, t) then DrainCount(s) else 0
    case SkipOp => if s.walking then |s.queue| else 0
    case _ => 0
  }

  function DrainCount(s: State): nat {
    if s.queue == [] || s.skipping || s.pace == 0.0 then |s.queue| else 1
  }

  /** The hold of the last delivery is over, and one event goes out, or nothing is held; or nothing goes out. */
  ghost predicate OnTime(s: State, op: Op, d: seq<Output>) {
    Outgoing(s, op) == 0 || (Ready(d, s.now) && (Outgoing(s, op) == 1 || s.pace == 0.0))
  }

  /** Whatever the operation, the deliveries stay spaced exactly if it is on time. */
  lemma StepIsSpacedIff(s: State, op: Op, d: seq<Output>)
    requires Awake(s) && Spaced(d)
    ensures Spaced(d + Stamps(Step(s, op).out)) <==> OnTime(s, op, d)
  {
    hide Spaced, Ready, Stamps, Batch, Awake, Step, Outgoing;
    AwakePace(s);
    StepIsBatch(s, op);
    SpacedIff(d, Stamps(Step(s, op).out), s.now, s.pace);
  }

  lemma AwakePace(s: State)
    requires Awake(s)
    ensures s.pace >= 0.0
  {}

  ghost predicate AlwaysOnTime(ops: seq<Op>) {
    ops == [] ||
    (var l := Run(ops[..|ops| - 1]);
     AlwaysOnTime(ops[..|ops| - 1]) && OnTime(l.s, ops[|ops| - 1], Stamps(l.out)))
  }

  /** Over every run, errors, replays, skips, flushes and forgotten timers included: consecutive
      deliveries are at least the hold of the earlier one apart exactly if every step is on time. */
  lemma {:induction false} SpacedRunIff(ops: seq<Op>)
    ensures Spaced(Stamps(Run(ops).out)) <==> AlwaysOnTime(ops)
  {
    hide Spaced, Stamps, OnTime, Step, Awake;
    if ops == [] {
      NothingIsSpaced();
    } else {
      var l, op := Run(ops[..|ops| - 1]), ops[|ops| - 1];
      SpacedRunIff(ops[..|ops| - 1]);
      NoLostWakeup(ops[..|ops| - 1]);
      StampsConcat(l.out, Step(l.s, op).out);
      if Spaced(Stamps(l.out)) {
        StepIsSpacedIff(l.s, op, Stamps(l.out));
      } else {
        SpacedFront(Stamps(l.out), Stamps(Step(l.s, op).out));
      }
    }
  }

  lemma NothingIsSpaced()
    ensures Spaced(Stamps([]))
  {}

  lemma SpacedFront(d: seq<Output>, e: seq<Output>)
    ensures Spaced(d + e) ==> Spaced(d)
  {
    assert forall i | 0 <= i < |d| :: (d + e)[i] == d[i];
  }

  /** Every step sends out a batch of the size it should. */
  lemma StepIsBatch(s: State, op: Op)
    requires Awake(s)
    ensures Batch(Stamps(Step(s, op).out), s.now, s.pace) && |Stamps(Step(s, op).out)| == Outgoing(s, op)
  {
    hide Stamps, Batch, Push, Drain;
    NoBatch(s);
    match op
    case PushOp(ev) => PushIsBatch(s, ev);
    case FireOp(t) => if Due(s, t) { DrainIsBatch(s.(timers := s.timers - {t})); }
    case SkipOp => if s.walking { DrainIsBatch(ClearPending(s).(skipping := true)); }
    case _ =>
  }

  lemma NoBatch(s: State)
    ensures Stamps([]) == [] && Batch([], s.now, s.pace)
  {}

  lemma PushIsBatch(s: State, ev: Event)
    requires Awake(s)
    ensures var e := Stamps(Push(s, ev).out); Batch(e, s.now, s.pace) && |e| == Outgoing(s, PushOp(ev))
  {
    hide Stamps, Drain, Deliveries, Hold, Batch, IsError;
    NoBatch(s);
    if IsError(ev) {
      ErrorIsBatch(s, ev);
    } else if Replays(s, ev) {
      var q := Flush(s).(queue := [ev]);
      DrainIsBatch(q);
      StampsOfToggle(Drain(q).s.walking, true);
      StampsConcat(Drain(q).out, Toggle(Drain(q).s.walking, true));
      assert Stamps(Drain(q).out) + [] == Stamps(Drain(q).out);
    } else if s.pending.None? {
      var q := s.(queue := s.queue + [ev], walking := true);
      DrainIsBatch(q);
      StampsOfToggle(s.walking, true);
      StampsConcat(Toggle(s.walking, true), Drain(q).out);
      assert [] + Stamps(Drain(q).out) == Stamps(Drain(q).out);
    }
  }

  lemma ErrorIsBatch(s: State, ev: Event)
    requires s.pace >= 0.0
    ensures var e := Stamps(PushError(s, ev).out); Batch(e, s.now, s.pace) && |e| == |s.queue| + 1
  {
    hide Stamps, Hold;
    var all := Deliveries(s.queue, s.pace, s.now) + [Deliver(ev, s.now, Hold(s.pace, []))];
    HoldsAre(s.pace);
    StampsOfDeliveries(all);
    StampsOfToggle(s.walking, false);
    StampsConcat(all, Toggle(s.walking, false));
    assert all + [] == all;
  }

  lemma DrainIsBatch(s: State)
    requires s.pace >= 0.0
    ensures var e := Stamps(Drain(s).out);
      && Batch(e, s.now, s.pace) && |e| == DrainCount(s)
      && (DrainCount(s) == 1 && !s.skipping && s.pace > 0.0 ==> e == [Deliver(s.queue[0], s.now, Hold(s.pace, s.queue[1..]))])
  {
    hide Stamps, Hold;
    HoldsAre(s.pace);
    if s.queue == [] || s.skipping || s.pace == 0.0 {
      var all := Deliveries(s.queue, s.pace, s.now);
      StampsOfDeliveries(all);
      StampsOfToggle(s.walking, false);
      StampsConcat(all, Toggle(s.walking, false));
      assert all + [] == all;
    } else {
      StampsOfDeliveries(DrainOne(s).out);
    }
  }

  lemma HoldsAre(pace: real)
    requires pace >= 0.0
    ensures forall rest :: if pace == 0.0 then Hold(pace, rest) == 0.0 else Hold(pace, rest) > 0.0
  {}

  lemma StampsOfToggle(before: bool, after: bool)
    ensures Stamps(Toggle(before, after)) == []
  {
    assert [Walk(after)][..0] == [];
  }

  lemma {:induction false} StampsConcat(a: seq<Output>, b: seq<Output>)
    ensures Stamps(a + b) == Stamps(a) + Stamps(b)
  {
    if b == [] {
      assert a + b == a;
    } else {
      var n := |b| - 1;
      StampsConcat(a, b[..n]);
      assert (a + b)[..|a| + n] == a + b[..n];
    }
  }

  lemma {:induction false} StampsOfDeliveries(d: seq<Output>)
    requires forall i | 0 <= i < |d| :: d[i].Deliver?
    ensures Stamps(d) == d
  {
    if d != [] {
      StampsOfDeliveries(d[..|d| - 1]);
    }
  }

  /** An event's weight scales the wait before it, not the dwell on it: of two queued events the first is
      held by the weight of the second, and the second by that of what follows, for one pace if nothing
      does. So the token's issuance, which is waited for longest, may itself be left sooner than it came. */
  lemma WeightIsTheWaitBefore(s: State, first: Event, second: Event, rest: seq<Event>)
    requires s.queue == [first, second] + rest && !s.skipping && s.pace > 0.0
    ensures var wait, r := Weighted(s.pace, second.ty), Drain(s);
      var r' := Step(Step(r.s, AdvanceOp(wait)).s, FireOp(s.nextTimer));
      && r.out == [Deliver(first, s.now, wait)]
      && r'.out == [Deliver(second, s.now + wait, Hold(s.pace, rest))]
      && Hold(s.pace, []) == s.pace
      && wait == (if second.ty == "jwt_svid.issued" then s.pace + s.pace
                  else if second.ty == "sm.authn_jwt.ok" then 3.0 * s.pace / 2.0
                  else if second.ty == "mtls.handshake.start" then 7.0 * s.pace / 10.0
                  else s.pace)
  {
    assert s.queue[1..] == [second] + rest && ([second] + rest)[1..] == rest;
  }

  // ---- How a replay comes too early ----

  /** After a replay of a paced walk the next event pushed goes out at once, whatever the two events are;
      the bound holds exactly if the pace has passed in between. */
  lemma ReplayBreaksTheBound(s: State, ev: Event, dt: Duration, next: Event)
    requires Awake(s) && Replays(s, ev) && s.pace > 0.0
    ensures var r := Step(s, PushOp(ev));
      var r' := Step(Step(r.s, AdvanceOp(dt)).s, PushOp(next));
      var d := Stamps(r.out) + Stamps(r'.out);
      && Delivered(r.out) == [ev] && Delivered(r'.out) == [next]
      && (Spaced(d) <==> dt >= s.pace)
  {
    hide Spaced, Stamps, Delivered, Drain, Push, Awake, IsError;
    var r := Step(s, PushOp(ev));
    var w := Step(r.s, AdvanceOp(dt)).s;
    ReplayGoesOut(s, ev);
    AwakeStep(s, PushOp(ev));
    AwakeStep(r.s, AdvanceOp(dt));
    NextGoesOut(w, next);
    OneIsSpaced(r.out[0]);
    StepIsSpacedIff(w, PushOp(next), Stamps(r.out));
  }

  lemma OneIsSpaced(o: Output)
    requires o.Deliver?
    ensures Stamps([o]) == [o] && Spaced([o]) && Delivered([o]) == [o.ev]
  {
    assert [o][..0] == [];
  }

  lemma ReplayGoesOut(s: State, ev: Event)
    requires Awake(s) && Replays(s, ev) && s.pace > 0.0
    ensures var r := Push(s, ev);
      && r.out == [Deliver(ev, s.now, s.pace)]
      && r.s.queue == [] && r.s.pending.None? && r.s.walking && r.s.pace == s.pace && r.s.now == s.now
      && s.nextTimer in r.s.timers && r.s.timers[s.nextTimer] == s.now + s.pace && r.s.nextTimer == s.nextTimer + 1
  {
    ReplayOut(s, ev);
    ReplayLeavesTimers(s, ev);
    assert [Deliver(ev, s.now, s.pace)] + [] == [Deliver(ev, s.now, s.pace)];
  }

  /** With nothing queued and no timer remembered, a push delivers its event, whatever it is. */
  lemma NextGoesOut(s: State, ev: Event)
    requires Awake(s) && s.queue == [] && s.pending.None? && s.pace > 0.0
    ensures Outgoing(s, PushOp(ev)) == 1 && Delivered(Push(s, ev).out) == [ev]
  {
    hide Push, IsError;
    StepConserves(s, PushOp(ev));
    NextLeavesNone(s, ev);
    assert [] + [ev] == [ev];
    assert Delivered(Push(s, ev).out) + [] == Delivered(Push(s, ev).out);
  }

  lemma NextLeavesNone(s: State, ev: Event)
    requires s.queue == [] && s.pending.None?
    ensures Push(s, ev).s.queue == []
  {}

  /** The forgotten timer of a replay comes too early as well. An event pushed when the replay's hold is over
      goes out on time, and one pushed after it is queued; but the forgotten timer is due by then, and when it
      fires it delivers the second event within the hold of the first. */
  lemma ForgottenTimerIsEarly(s: State, ev: Event, dt: Duration, a: Event, b: Event)
    requires Awake(s) && Replays(s, ev) && s.pace > 0.0 && dt >= s.pace
    requires forall next | next in [a, b] :: !IsError(next) && next.ty != RESOLVE_REQUESTED
    ensures var r := Step(s, PushOp(ev));
      var ra := Step(Step(r.s, AdvanceOp(dt)).s, PushOp(a));
      var rb := Step(ra.s, PushOp(b));
      var rt := Step(rb.s, FireOp(s.nextTimer));
      && Spaced(Stamps(r.out) + Stamps(ra.out)) && rb.out == []
      && Due(rb.s, s.nextTimer) && rb.s.pending.Some? && rb.s.pending != Some(s.nextTimer)
      && rt.out == [Deliver(b, s.now + dt, s.pace)]
      && !Spaced(Stamps(r.out) + Stamps(ra.out) + Stamps(rt.out))
  {
    hide Spaced, Stamps, Push, Awake, IsError, Step;
    var r := Step(s, PushOp(ev));
    var ra := Step(Step(r.s, AdvanceOp(dt)).s, PushOp(a));
    ForgottenTimerRuns(s, ev, dt, a, b);
    ReplayBreaksTheBound(s, ev, dt, a);
    OneIsSpaced(r.out[0]);
    OneIsSpaced(ra.out[0]);
    OneIsSpaced(Deliver(b, s.now + dt, s.pace));
    TooClose(r.out + ra.out, Deliver(b, s.now + dt, s.pace));
  }

  lemma ForgottenTimerRuns(s: State, ev: Event, dt: Duration, a: Event, b: Event)
    requires Awake(s) && Replays(s, ev) && s.pace > 0.0 && dt >= s.pace
    requires forall next | next in [a, b] :: !IsError(next) && next.ty != RESOLVE_REQUESTED
    ensures var r := Step(s, PushOp(ev));
      var ra := Step(Step(r.s, AdvanceOp(dt)).s, PushOp(a));
      var rb := Step(ra.s, PushOp(b));
      && r.out == [Deliver(ev, s.now, s.pace)] && ra.out == [Deliver(a, s.now + dt, s.pace)] && rb.out == []
      && Due(rb.s, s.nextTimer) && rb.s.pending.Some? && rb.s.pending != Some(s.nextTimer)
      && Step(rb.s, FireOp(s.nextTimer)).out == [Deliver(b, s.now + dt, s.pace)]
  {
    hide Push, Fire, IsError;
    ReplayGoesOut(s, ev);
    AwakeStep(s, PushOp(ev));
    var w := Step(Push(s, ev).s, AdvanceOp(dt)).s;
    FirstGoesOut(w, a);
    SecondWaits(Push(w, a).s, b);
    TimerReleases(Push(Push(w, a).s, b).s, s.nextTimer, b);
  }

  lemma FirstGoesOut(s: State, ev: Event)
    requires !IsError(ev) && ev.ty != RESOLVE_REQUESTED
    requires s.queue == [] && s.pending.None? && s.walking && !s.skipping && s.pace > 0.0
    ensures Push(s, ev)
         == Reaction(s.(pending := Some(s.nextTimer), nextTimer := s.nextTimer + 1,
                        timers := s.timers[s.nextTimer := s.now + s.pace]),
                     [Deliver(ev, s.now, s.pace)])
  {
    hide IsError;
    var q := s.(queue := s.queue + [ev], walking := true);
    assert q.queue == [ev] && q.queue[1..] == [];
    assert [] + DrainOne(q).out == DrainOne(q).out;
  }

  lemma SecondWaits(s: State, ev: Event)
    requires !IsError(ev) && ev.ty != RESOLVE_REQUESTED && s.queue == [] && s.pending.Some?
    ensures Push(s, ev) == Reaction(s.(queue := [ev]), [])
  {
    hide IsError;
    assert s.queue + [ev] == [ev];
  }

  lemma TimerReleases(s: State, t: nat, ev: Event)
    requires Due(s, t) && s.queue == [ev] && !s.skipping && s.pace > 0.0
    ensures Fire(s, t).out == [Deliver(ev, s.now, s.pace)]
  {
    assert s.queue[1..] == [];
  }

  lemma TooClose(d: seq<Output>, o: Output)
    requires d != [] && d[|d| - 1].Deliver? && o.Deliver? && o.at < d[|d| - 1].at + d[|d| - 1].hold
    ensures !Spaced(d + [o])
  {
    var n := |d| - 1;
    assert (d + [o])[n] == d[n] && (d + [o])[n + 1] == o;
  }
}
