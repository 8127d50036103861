/** What every run of the pace queue keeps, whatever the pace changes, timer firings, skips,
    errors, replays and flushes it is made of. */
module PaceTheorems {
  import opened Options
  import opened Events
  import opened Logs
  import opened PaceModel

  /** A run so far: the state it reached, all that subscribers observed, the events accepted, the
      indices of those that were queued at a flush, and the number of replays. */
  datatype Ledger = Ledger(s: State, out: seq<Output>, accepted: seq<Event>, lost: set<nat>, replays: nat)

  const START := Ledger(FRESH, [], [], {}, 0)

  ghost function Next(l: Ledger, op: Op): Ledger {
    var r := Step(l.s, op);
    Ledger(
      r.s,
      l.out + r.out,
      l.accepted + Accepted(op),
      l.lost + if Flushes(l.s, op) && |l.s.queue| <= |l.accepted|
               then Range(|l.accepted| - |l.s.queue|, |l.accepted|) else {},
      l.replays + if op.PushOp? && Replays(l.s, op.ev) then 1 else 0)
  }

  ghost function Run(ops: seq<Op>): Ledger {
    if ops == [] then START else Next(Run(ops[..|ops| - 1]), ops[|ops| - 1])
  }

  /** No operation of the run flushes. */
  ghost predicate NeverFlushes(ops: seq<Op>) {
    ops == [] || (NeverFlushes(ops[..|ops| - 1]) && !Flushes(Run(ops[..|ops| - 1]).s, ops[|ops| - 1]))
  }

  // ---- Conservation and order ----

  /** The queue is the most recently accepted events, nothing in it is lost, and what is not lost
      was delivered or is queued, in the order of acceptance. */
  ghost predicate Conserved(l: Ledger) {
    && |l.s.queue| <= |l.accepted|
    && l.s.queue == l.accepted[|l.accepted| - |l.s.queue|..]
    && (forall i | i in l.lost :: i < |l.accepted| - |l.s.queue|)
    && Kept(l.accepted, l.lost) == Delivered(l.out) + l.s.queue
  }

  lemma {:induction false} Conservation(ops: seq<Op>)
    ensures Conserved(Run(ops))
    ensures NeverFlushes(ops) ==> Run(ops).lost == {}
  {
    if ops != [] {
      Conservation(ops[..|ops| - 1]);
      ConservedNext(Run(ops[..|ops| - 1]), ops[|ops| - 1]);
    }
  }

  lemma ConservedNext(l: Ledger, op: Op)
    requires Conserved(l)
    ensures Conserved(Next(l, op))
  {
    hide Step, Kept, Delivered, Flushes, Accepted;
    RecentStays(l, op);
    KeptStays(l, op);
  }

  lemma KeptStays(l: Ledger, op: Op)
    requires Conserved(l)
    ensures var l' := Next(l, op); Kept(l'.accepted, l'.lost) == Delivered(l'.out) + l'.s.queue
  {
    hide Step, Kept, Delivered, Flushes, Accepted, Conserved;
    var l', r := Next(l, op), Step(l.s, op);
    StepConserves(l.s, op);
    DeliveredConcat(l.out, r.out);
    KeptAfterFlush(l, op);
    OnlyAcceptedAreLost(l, op);
    AcceptKeeps(l.accepted, op, l'.lost);
    Regroup(Delivered(l.out), if Flushes(l.s, op) then [] else l.s.queue, Accepted(op), Delivered(r.out), r.s.queue);
  }

  lemma Regroup(a: seq<Event>, b: seq<Event>, c: seq<Event>, d: seq<Event>, e: seq<Event>)
    requires d + e == b + c
    ensures a + b + c == a + d + e
  {
    assert a + b + c == a + (b + c) && a + d + e == a + (d + e);
  }

  /** Before the new event is accepted: a flush loses exactly what is queued. */
  lemma KeptAfterFlush(l: Ledger, op: Op)
    requires Conserved(l)
    ensures Kept(l.accepted, Next(l, op).lost) == Delivered(l.out) + if Flushes(l.s, op) then [] else l.s.queue
  {
    hide Step, Kept, Delivered, Flushes, Accepted;
    var m := |l.accepted| - |l.s.queue|;
    KeptSplit(l.accepted, l.lost, m);
    KeptDropSuffix(l.accepted, l.lost, m);
    Cancel(Kept(l.accepted[..m], l.lost), Delivered(l.out), l.s.queue);
    assert Next(l, op).lost == if Flushes(l.s, op) then l.lost + Range(m, |l.accepted|) else l.lost;
  }

  lemma OnlyAcceptedAreLost(l: Ledger, op: Op)
    requires Conserved(l)
    ensures forall i | i in Next(l, op).lost :: i < |l.accepted|
  {
    hide Step, Kept, Delivered, Flushes, Accepted;
  }

  lemma Cancel(a: seq<Event>, b: seq<Event>, c: seq<Event>)
    requires a + c == b + c
    ensures a == b
  {
    assert a == (a + c)[..|a|] && b == (b + c)[..|b|];
  }

  lemma AcceptKeeps(accepted: seq<Event>, op: Op, lost: set<nat>)
    requires forall i | i in lost :: i < |accepted|
    ensures Kept(accepted + Accepted(op), lost) == Kept(accepted, lost) + Accepted(op)
  {
    if op.PushOp? {
      KeptAppend(accepted, op.ev, lost);
    } else {
      assert accepted + [] == accepted;
    }
  }

  lemma RecentStays(l: Ledger, op: Op)
    requires Conserved(l)
    ensures var l' := Next(l, op);
      && |l'.s.queue| <= |l'.accepted|
      && l'.s.queue == l'.accepted[|l'.accepted| - |l'.s.queue|..]
      && (forall i | i in l'.lost :: i < |l'.accepted| - |l'.s.queue|)
  {
    hide Step, Kept, Delivered, Flushes, Accepted;
    QueueIsRecent(l.s, op);
    var l', all := Next(l, op), l.s.queue + Accepted(op);
    assert l'.accepted[|l'.accepted| - |all|..] == all;
  }

  /** A step leaves a suffix of what was queued and accepted. */
  lemma QueueIsRecent(s: State, op: Op)
    ensures var r, all := Step(s, op), s.queue + Accepted(op);
      |r.s.queue| <= |all| && r.s.queue == all[|all| - |r.s.queue|..]
      && (Flushes(s, op) ==> r.s.queue == [])
  {
    var r := Step(s, op);
    StepConserves(s, op);
    if op.PushOp? && Replays(s, op.ev) {
      PushReplayConserves(s, op.ev);
    } else if !op.FlushOp? {
      var all := Delivered(r.out) + r.s.queue;
      assert all == s.queue + Accepted(op);
      assert all[|Delivered(r.out)|..] == r.s.queue;
    }
  }

  /** What has been delivered is a subsequence of what was accepted, and every accepted event is
      delivered, queued, or among those queued at a flush, never two of these. */
  lemma DeliveredInOrder(ops: seq<Op>)
    ensures var l := Run(ops);
      && IsSubsequence(Delivered(l.out) + l.s.queue, l.accepted)
      && |Delivered(l.out)| + |l.s.queue| + |l.lost| == |l.accepted|
      && (NeverFlushes(ops) ==> Delivered(l.out) + l.s.queue == l.accepted)
  {
    var l := Run(ops);
    Conservation(ops);
    KeptIsSubsequence(l.accepted, l.lost);
    KeptCount(l.accepted, l.lost);
    KeptAll(l.accepted);
  }

  /** Two runs that accept the same events and never flush deliver the same sequence by the time
      both are empty, whatever their paces, timers and skips. */
  lemma ScheduleIndependence(ops: seq<Op>, ops': seq<Op>)
    requires NeverFlushes(ops) && NeverFlushes(ops')
    requires Run(ops).accepted == Run(ops').accepted
    requires Run(ops).s.queue == Run(ops').s.queue == []
    ensures Delivered(Run(ops).out) == Delivered(Run(ops').out) == Run(ops).accepted
  {
    DeliveredInOrder(ops);
    DeliveredInOrder(ops');
  }

  // ---- No lost wakeup, termination ----

  /** Live timers other than the one the queue remembers. */
  function Orphans(s: State): set<nat> {
    s.timers.Keys - match s.pending case None => {} case Some(t) => {t}
  }

  /** At rest, a queued event has a live timer coming for it, and the queue knows that it walks. */
  ghost predicate Awake(s: State) {
    && (s.queue != [] ==> s.pending.Some?)
    && (s.pending.Some? ==> s.walking && s.pending.value in s.timers)
    && !s.skipping
    && s.pace >= 0.0
    && (forall t | t in s.timers :: t < s.nextTimer)
  }

  lemma {:induction false} NoLostWakeup(ops: seq<Op>)
    ensures Awake(Run(ops).s)
  {
    if ops != [] {
      NoLostWakeup(ops[..|ops| - 1]);
      AwakeStep(Run(ops[..|ops| - 1]).s, ops[|ops| - 1]);
    }
  }

  lemma AwakeStep(s: State, op: Op)
    requires Awake(s)
    ensures Awake(Step(s, op).s)
  {
    hide Deliveries, Weighted, IsError;
    match op
    case PushOp(ev) =>
      if Replays(s, ev) { AwakeDrain(Flush(s).(queue := [ev])); }
      AwakeDrain(s.(queue := s.queue + [ev], walking := true));
    case FireOp(t) => AwakeDrain(s.(timers := s.timers - {t}));
    case SkipOp => AwakeDrain(ClearPending(s).(skipping := true));
    case _ =>
  }

  lemma AwakeDrain(s: State)
    requires s.pace >= 0.0 && (forall t | t in s.timers :: t < s.nextTimer)
    requires s.queue != [] ==> s.walking
    ensures Awake(Drain(s).s)
  {}

  function Measure(s: State): nat {
    2 * |s.queue| + |s.timers|
  }

  /** A firing takes one live timer away and makes at most one, delivering as it does. */
  lemma FiringDecreases(s: State, t: nat)
    requires Due(s, t)
    ensures Measure(Fire(s, t).s) < Measure(s)
  {
    var s' := s.(timers := s.timers - {t});
    assert s.timers.Keys == s'.timers.Keys + {t};
    DrainMeasure(s');
  }

  lemma DrainMeasure(s: State)
    ensures Measure(Drain(s).s) <= Measure(s)
  {
    if s.queue != [] { MapGrows(s.timers, s.nextTimer, s.now + Hold(s.pace, s.queue[1..])); }
  }

  lemma MapGrows(m: map<nat, real>, k: nat, v: real)
    ensures |m[k := v]| <= |m| + 1
  {
    assert m[k := v].Keys == m.Keys + {k};
  }

  /** The number of firings that take place in a list of operations. */
  ghost function Firings(s: State, ops: seq<Op>): nat
    decreases |ops|
  {
    if ops == [] then 0 else
    Firings(Step(s, ops[0]).s, ops[1..]) + if ops[0].FireOp? && Due(s, ops[0].t) then 1 else 0
  }

  ghost function Final(s: State, ops: seq<Op>): State
    decreases |ops|
  {
    if ops == [] then s else Final(Step(s, ops[0]).s, ops[1..])
  }

  /** Left to its timers, the queue fires no more than its measure allows; and if no timer is left,
      nothing is queued. */
  lemma {:induction false} TimersEmptyTheQueue(s: State, ops: seq<Op>)
    requires Awake(s)
    requires forall op | op in ops :: op.FireOp? || op.AdvanceOp?
    ensures var s' := Final(s, ops);
      && Firings(s, ops) + Measure(s') <= Measure(s)
      && (s'.timers == map[] ==> s'.queue == [])
    decreases |ops|
  {
    if ops != [] {
      var op := ops[0];
      AwakeStep(s, op);
      if op.FireOp? && Due(s, op.t) { FiringDecreases(s, op.t); }
      TimersEmptyTheQueue(Step(s, op).s, ops[1..]);
    }
  }

  // ---- Walking notifications ----

  /** What subscribers last heard about walking. */
  function Heard(before: bool, out: seq<Output>): bool {
    if out == [] then before
    else if out[|out| - 1].Walk? then out[|out| - 1].on
    else Heard(before, out[..|out| - 1])
  }

  /** Every notification is news. */
  ghost predicate AllNews(before: bool, out: seq<Output>) {
    forall i | 0 <= i < |out| && out[i].Walk? :: out[i].on != Heard(before, out[..i])
  }

  /** Subscribers always know whether the queue is walking, and are never told what they know. */
  lemma {:induction false} SubscribersKnow(ops: seq<Op>)
    ensures var l := Run(ops); Heard(false, l.out) == l.s.walking && AllNews(false, l.out)
  {
    if ops != [] {
      var l, op := Run(ops[..|ops| - 1]), ops[|ops| - 1];
      SubscribersKnow(ops[..|ops| - 1]);
      StepTells(l.s, op);
      HeardConcat(false, l.out, Step(l.s, op).out);
    }
  }

  ghost predicate Tells(was: bool, r: Reaction) {
    Heard(was, r.out) == r.s.walking && AllNews(was, r.out)
  }

  lemma StepTells(s: State, op: Op)
    ensures Tells(s.walking, Step(s, op))
  {
    hide Heard, AllNews, DrainAll, DrainOne;
    NothingTold(s.walking);
    match op
    case PushOp(ev) => PushTells(s, ev);
    case FireOp(t) => if Due(s, t) { DrainTells(s.(timers := s.timers - {t})); }
    case SkipOp => if s.walking { DrainTells(ClearPending(s).(skipping := true)); }
    case _ =>
  }

  lemma PushTells(s: State, ev: Event)
    ensures Tells(s.walking, Push(s, ev))
  {
    hide Heard, AllNews, DrainAll, DrainOne, Deliveries;
    NothingTold(s.walking);
    if IsError(ev) {
      var last := [Deliver(ev, s.now, Hold(s.pace, []))];
      DeliveriesTell(s.walking, s.queue, s.pace, s.now);
      OneTells(s.walking, last[0]);
      ToggleTells(s.walking, false);
      HeardConcat(s.walking, Deliveries(s.queue, s.pace, s.now), last);
      HeardConcat(s.walking, Deliveries(s.queue, s.pace, s.now) + last, Toggle(s.walking, false));
    } else if Replays(s, ev) {
      var r := Drain(Flush(s).(queue := [ev]));
      DrainTells(Flush(s).(queue := [ev]));
      ToggleTells(r.s.walking, true);
      HeardConcat(s.walking, r.out, Toggle(r.s.walking, true));
    } else if s.pending.None? {
      var q := s.(queue := s.queue + [ev], walking := true);
      ToggleTells(s.walking, true);
      DrainTells(q);
      HeardConcat(s.walking, Toggle(s.walking, true), Drain(q).out);
    }
  }

  lemma DrainTells(s: State)
    ensures Tells(s.walking, Drain(s))
  {
    hide Heard, AllNews, Deliveries;
    DeliveriesTell(s.walking, s.queue, s.pace, s.now);
    ToggleTells(s.walking, false);
    HeardConcat(s.walking, Deliveries(s.queue, s.pace, s.now), Toggle(s.walking, false));
    if s.queue != [] { OneTells(s.walking, DrainOne(s).out[0]); }
  }

  lemma NothingTold(was: bool)
    ensures Heard(was, []) == was && AllNews(was, [])
  {}

  lemma OneTells(was: bool, o: Output)
    requires o.Deliver?
    ensures Heard(was, [o]) == was && AllNews(was, [o])
  {
    assert [o][..0] == [];
  }

  lemma ToggleTells(was: bool, next: bool)
    ensures Heard(was, Toggle(was, next)) == next && AllNews(was, Toggle(was, next))
  {
    assert [Walk(next)][..0] == [];
  }

  lemma DeliveriesTell(was: bool, q: seq<Event>, pace: real, now: real)
    ensures Heard(was, Deliveries(q, pace, now)) == was && AllNews(was, Deliveries(q, pace, now))
  {
    NoWalkHeard(was, Deliveries(q, pace, now));
  }

  lemma {:induction false} NoWalkHeard(was: bool, out: seq<Output>)
    requires forall i | 0 <= i < |out| :: out[i].Deliver?
    ensures Heard(was, out) == was
  {
    if out != [] { NoWalkHeard(was, out[..|out| - 1]); }
  }

  lemma {:induction false} HeardConcat(was: bool, a: seq<Output>, b: seq<Output>)
    ensures Heard(was, a + b) == Heard(Heard(was, a), b)
    ensures AllNews(was, a) && AllNews(Heard(was, a), b) ==> AllNews(was, a + b)
  {
    if b == [] {
      assert a + b == a;
    } else {
      var init := b[..|b| - 1];
      HeardConcat(was, a, init);
      assert (a + b)[..|a + b| - 1] == a + init;
      if AllNews(was, a) && AllNews(Heard(was, a), b) {
        assert AllNews(Heard(was, a), init) by { assert forall i | 0 <= i < |init| :: init[..i] == b[..i]; }
        NewsAppend(was, a + init, b[|b| - 1]);
        assert a + b == a + init + [b[|b| - 1]];
      }
    }
  }

  lemma NewsAppend(was: bool, out: seq<Output>, o: Output)
    requires AllNews(was, out) && (o.Walk? ==> o.on != Heard(was, out))
    ensures AllNews(was, out + [o])
  {
    forall i | 0 <= i < |out + [o]| && (out + [o])[i].Walk? ensures (out + [o])[i].on != Heard(was, (out + [o])[..i]) {
      assert (out + [o])[..i] == out[..i];
      if i == |out| { assert out[..i] == out; }
    }
  }

  // ---- Live timers ----

  /** Each replay leaves at most one timer that the queue has forgotten; nothing else adds to them. */
  lemma {:induction false} OrphansBounded(ops: seq<Op>)
    ensures var l := Run(ops); |Orphans(l.s)| <= l.replays && |l.s.timers| <= 1 + l.replays
  {
    if ops != [] {
      var l := Run(ops[..|ops| - 1]);
      OrphansBounded(ops[..|ops| - 1]);
      NoLostWakeup(ops[..|ops| - 1]);
      OrphansStep(l.s, ops[|ops| - 1]);
      NoLostWakeup(ops);
    }
    TimersAreOrphansOrPending(Run(ops).s);
  }

  lemma TimersAreOrphansOrPending(s: State)
    ensures |s.timers| <= |Orphans(s)| + 1
  {
    var p := match s.pending case None => {} case Some(t) => {t};
    assert s.timers.Keys <= Orphans(s) + p;
    SubsetSize(s.timers.Keys, Orphans(s) + p);
  }

  lemma {:induction false} SubsetSize(a: set<nat>, b: set<nat>)
    requires a <= b
    ensures |a| <= |b|
  {
    if a != {} {
      var x :| x in a;
      SubsetSize(a - {x}, b - {x});
    }
  }

  /** The forgotten timers change only at a replay, which may add the timer it arms, and at the
      firing of one, when the remembered timer takes its place. */
  lemma OrphansStep(s: State, op: Op)
    requires Awake(s)
    ensures |Orphans(Step(s, op).s)| <= |Orphans(s)| + if op.PushOp? && Replays(s, op.ev) then 1 else 0
  {
    var s' := Step(s, op).s;
    OrphansAfter(s, op);
    if op.PushOp? && Replays(s, op.ev) {
      SubsetSize(Orphans(s'), Orphans(s) + {s.nextTimer});
    } else if op.FireOp? && Due(s, op.t) && op.t in Orphans(s) && s.pending.Some? {
      SubsetSize(Orphans(s'), Orphans(s) - {op.t} + {s.pending.value});
    } else {
      SubsetSize(Orphans(s'), Orphans(s));
    }
  }

  lemma OrphansAfter(s: State, op: Op)
    requires Awake(s)
    ensures var after := Orphans(Step(s, op).s);
      if op.PushOp? && Replays(s, op.ev) then after <= Orphans(s) + {s.nextTimer}
      else if op.FireOp? && Due(s, op.t) && op.t in Orphans(s) && s.pending.Some? then
        after <= Orphans(s) - {op.t} + {s.pending.value}
      else after <= Orphans(s)
  {
    match op
    case PushOp(ev) =>
      OrphansDrain(Flush(s).(queue := [ev]));
      OrphansDrain(s.(queue := s.queue + [ev], walking := true));
    case FireOp(t) => OrphansDrain(s.(timers := s.timers - {t}));
    case SkipOp => OrphansDrain(ClearPending(s).(skipping := true));
    case _ =>
  }

  /** Draining forgets the remembered timer and remembers only the one it arms. */
  lemma OrphansDrain(s: State)
    requires forall t | t in s.timers :: t < s.nextTimer
    ensures Orphans(Drain(s).s) <= s.timers.Keys
    ensures Drain(s).s.timers.Keys <= s.timers.Keys + {s.nextTimer}
  {}

  /** Without replays the queue remembers every live timer. */
  lemma NoReplayNoOrphan(ops: seq<Op>)
    requires Run(ops).replays == 0
    ensures Orphans(Run(ops).s) == {} && |Run(ops).s.timers| <= 1
  {
    OrphansBounded(ops);
  }

  // ---- Walks that nothing ends ----

  /** The queue says that it walks, and no timer is live to end the walk, not even a forgotten one. */
  predicate Stuck(s: State) {
    s.walking && s.timers == map[]
  }

  /** A walk gets stuck exactly by a flush, or by a replay at pace 0, when no forgotten timer is live. */
  lemma StuckIff(s: State, op: Op)
    requires Awake(s) && !Stuck(s)
    ensures Stuck(Step(s, op).s)
      <==> s.walking && Flushes(s, op) && Orphans(s) == {} && (op.FlushOp? || s.pace == 0.0)
  {
    FlushLeavesOrphans(s);
    match op
    case PushOp(ev) => if Replays(s, ev) { ReplayLeavesTimers(s, ev); } else { PlainPushIsAwaited(s, ev); }
    case FireOp(t) => DrainIsAwaited(s.(timers := s.timers - {t}));
    case SkipOp => DrainIsAwaited(ClearPending(s).(skipping := true));
    case _ =>
  }

  /** Whatever happens to a stuck walk short of a push or a skip leaves it stuck. A skip ends it, and so
      does a push, unless it is another replay at pace 0. */
  lemma StuckUntil(s: State, op: Op)
    requires Awake(s) && Stuck(s)
    ensures Stuck(Step(s, op).s)
      <==> match op case PushOp(ev) => Replays(s, ev) && s.pace == 0.0 case SkipOp => false case _ => true
  {
    FlushLeavesOrphans(s);
    match op
    case PushOp(ev) => if Replays(s, ev) { ReplayLeavesTimers(s, ev); } else { PlainPushIsAwaited(s, ev); }
    case SkipOp => DrainIsAwaited(ClearPending(s).(skipping := true));
    case _ =>
  }

  /** A flush takes away the remembered timer and no other. */
  lemma FlushLeavesOrphans(s: State)
    ensures Flush(s).timers.Keys == Orphans(s) && Flush(s).walking == s.walking
    ensures Flush(s).timers == map[] <==> Orphans(s) == {}
  {
    assert Flush(s).timers.Keys == Orphans(s);
  }

  /** After a drain the queue is idle, or the timer just armed is live. */
  lemma DrainIsAwaited(s: State)
    ensures var s' := Drain(s).s; !s'.walking || s.nextTimer in s'.timers
  {}

  lemma PlainPushIsAwaited(s: State, ev: Event)
    requires Awake(s) && !Replays(s, ev)
    ensures !Stuck(Push(s, ev).s)
  {
    if !IsError(ev) && s.pending.None? { DrainIsAwaited(s.(queue := s.queue + [ev], walking := true)); }
  }

  /** A replay forgets every timer; the one it arms, if any, stays live. */
  lemma ReplayLeavesTimers(s: State, ev: Event)
    requires Awake(s) && Replays(s, ev)
    ensures var s' := Push(s, ev).s;
      && s'.walking && s'.pending.None? && s'.queue == []
      && s'.timers == (if s.pace == 0.0 then Flush(s).timers else Flush(s).timers[s.nextTimer := s.now + s.pace])
      && (Stuck(s') <==> s.pace == 0.0 && Orphans(s) == {})
  {
    FlushLeavesOrphans(s);
    assert s.nextTimer in Flush(s).timers[s.nextTimer := s.now + s.pace];
    var q := Flush(s).(queue := [ev]);
    assert q.queue[1..] == [];
  }

  /** So a replay of a paced walk is not stuck. Unless something else is pushed, and whatever else happens,
      the walk goes on exactly until a timer fires or the user skips; and as long as it does, the forgotten
      timer is there, due after one pace. */
  lemma PacedReplayEnds(s: State, ev: Event, ops: seq<Op>)
    requires Awake(s) && Replays(s, ev) && s.pace > 0.0
    requires forall op | op in ops :: !op.PushOp?
    ensures var s', s'' := Push(s, ev).s, Final(Push(s, ev).s, ops);
      && s''.queue == []
      && (s''.walking <==> Firings(s', ops) == 0 && SkipOp !in ops)
      && (s''.walking ==> s.nextTimer in s''.timers && s''.timers[s.nextTimer] == s.now + s.pace)
      && (s''.walking && s''.now >= s.now + s.pace ==> Due(s'', s.nextTimer))
  {
    hide Push;
    ReplayLeavesTimers(s, ev);
    EmptyWalk(Push(s, ev).s, s.nextTimer, ops);
  }

  /** A walk with nothing queued and no timer remembered, while nothing is pushed. */
  lemma {:induction false} EmptyWalk(s: State, t: nat, ops: seq<Op>)
    requires s.queue == [] && s.pending.None? && (s.walking ==> t in s.timers)
    requires forall op | op in ops :: !op.PushOp?
    ensures var s' := Final(s, ops);
      && s'.queue == [] && s'.pending.None?
      && (s'.walking <==> s.walking && Firings(s, ops) == 0 && SkipOp !in ops)
      && (s'.walking ==> t in s'.timers && s'.timers[t] == s.timers[t])
    decreases |ops|
  {
    hide Step;
    if ops != [] {
      assert ops[0] in ops && ops == [ops[0]] + ops[1..];
      EmptyWalkStep(s, t, ops[0]);
      EmptyWalk(Step(s, ops[0]).s, t, ops[1..]);
    }
  }

  lemma EmptyWalkStep(s: State, t: nat, op: Op)
    requires s.queue == [] && s.pending.None? && (s.walking ==> t in s.timers) && !op.PushOp?
    ensures var s' := Step(s, op).s;
      && s'.queue == [] && s'.pending.None?
      && (s'.walking <==> s.walking && !(op.FireOp? && Due(s, op.t)) && !op.SkipOp?)
      && (s'.walking ==> s'.timers == s.timers)
  {}

  /** A replay is a resolve request during a walk, whatever it carries. */
  lemma ReplaysIff(s: State, ev: Event)
    ensures Replays(s, ev) <==> ev.ty == "portal.resolve.requested" && s.walking
  {
    var ty := RESOLVE_REQUESTED;
    assert ty[|ty| - 4..] == "sted" && ty[|ty| - 6..] == "uested";
  }

  /** A resolve request during a walk goes out at once, and subscribers hear that the walk has ended and
      started again exactly at pace 0. */
  lemma ReplayIsHeard(s: State, ev: Event)
    requires Awake(s) && s.walking && ev.ty == RESOLVE_REQUESTED
    ensures Push(s, ev).out
         == [Deliver(ev, s.now, s.pace)] + if s.pace == 0.0 then [Walk(false), Walk(true)] else []
  {
    hide Replays, IsError;
    ReplaysIff(s, ev);
    ReplayOut(s, ev);
  }

  lemma ReplayOut(s: State, ev: Event)
    requires Awake(s) && Replays(s, ev)
    ensures Push(s, ev).out
         == [Deliver(ev, s.now, s.pace)] + if s.pace == 0.0 then [Walk(false), Walk(true)] else []
  {
    var q := Flush(s).(queue := [ev]);
    assert q.queue[1..] == [];
    if s.pace == 0.0 {
      assert Deliveries([ev], s.pace, s.now) == [Deliver(ev, s.now, 0.0)] by { assert [ev][1..] == []; }
      assert DrainAll(q).out == [Deliver(ev, s.now, 0.0), Walk(false)];
      assert DrainAll(q).out + [Walk(true)] == [Deliver(ev, s.now, 0.0)] + [Walk(false), Walk(true)];
    } else {
      assert DrainOne(q).out + [] == [Deliver(ev, s.now, s.pace)] + [];
    }
  }

  const GO := Event(RESOLVE_REQUESTED, None)

  lemma GoIsNoError()
    ensures !IsError(GO)
  {
    assert GO.ty[|GO.ty| - 4..] == "sted" && GO.ty[|GO.ty| - 6..] == "uested";
  }

  /** A stuck walk is possible from the start: a walk, then a replay at pace 0. */
  lemma StuckWalkIsReachable()
    ensures exists ops :: Stuck(Run(ops).s) && Run(ops).s.queue == []
  {
    var ops := [SetPaceOp(100.0), PushOp(GO), SetPaceOp(0.0), PushOp(GO)];
    assert ops[..1] == [] + [ops[0]] && ops[..2] == ops[..1] + [ops[1]] && ops[..3] == ops[..2] + [ops[2]];
    assert ops == ops[..3] + [ops[3]];
    hide Push;
    var s1 := FRESH.(pace := 100.0);
    var s2 := Push(s1, GO).s;
    var s3 := s2.(pace := 0.0);
    FirstWalk(s1);
    ReplayAtOnce(s3);
    Reaches([], FRESH, SetPaceOp(100.0));
    Reaches(ops[..1], s1, PushOp(GO));
    Reaches(ops[..2], s2, SetPaceOp(0.0));
    Reaches(ops[..3], s3, PushOp(GO));
    assert Stuck(Run(ops).s);
  }

  lemma FirstWalk(s: State)
    requires s == FRESH.(pace := 100.0)
    ensures Push(s, GO).s == s.(walking := true, pending := Some(0), timers := map[0 := 100.0], nextTimer := 1)
  {
    GoIsNoError();
    assert [GO][1..] == [];
  }

  lemma ReplayAtOnce(s: State)
    requires s.walking && s.pace == 0.0 && s.pending == Some(0) && s.timers.Keys == {0}
    ensures var s' := Push(s, GO).s; s'.walking && s'.queue == [] && s'.timers == map[]
  {
    GoIsNoError();
  }

  lemma Reaches(ops: seq<Op>, s: State, op: Op)
    requires Run(ops).s == s
    ensures Run(ops + [op]).s == Step(s, op).s
  {
    assert (ops + [op])[..|ops|] == ops;
  }
}
