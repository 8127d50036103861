/** The pace queue as the page runs it: shared variables that the public calls and the timer
    callback update in place. Each method is proved against the state machine of PaceModel. */
module PaceQueue {
  import opened Options
  import opened Events
  import M = PaceModel

  datatype PaceSetting = Number(v: real) | Text(key: string)

  class Queue {
    var queue: seq<Event>
    var pendingTimer: Option<nat>
    var walking: bool
    var skipMode: bool
    var currentPace: real

    // The runtime's side: its clock and its live timers. A timer's id is never used again.
    var timers: map<nat, real>
    var nextTimer: nat
    var clock: real

    // Everything the subscribers have been told so far.
    ghost var out: seq<M.Output>

    ghost function View(): M.State
      reads this
    {
      M.State(queue, pendingTimer, walking, skipMode, currentPace, timers, nextTimer, clock)
    }

    constructor ()
      ensures View() == M.FRESH && out == []
    {
      queue, pendingTimer, walking, skipMode, currentPace := [], None, false, false, 0.0;
      timers, nextTimer, clock := map[], 0, 0.0;
      out := [];
    }

    method Fanout(ev: Event)
      modifies this`out
      ensures out == old(out) + [M.Deliver(ev, clock, M.Hold(currentPace, queue))]
    {
      out := out + [M.Deliver(ev, clock, M.Hold(currentPace, queue))];
    }

    method SetWalking(next: bool)
      modifies this`walking, this`out
      ensures walking == next
      ensures out == old(out) + M.Toggle(old(walking), next)
    {
      if walking == next { return; }
      walking := next;
      out := out + [M.Walk(next)];
    }

    method ClearTimer()
      modifies this`pendingTimer, this`timers
      ensures View() == M.ClearPending(old(View()))
    {
      if pendingTimer.Some? {
        timers := timers - {pendingTimer.value};
        pendingTimer := None;
      }
    }

    method GoIdle()
      modifies this`skipMode, this`walking, this`out
      ensures View() == old(View()).(skipping := false, walking := false)
      ensures out == old(out) + M.Toggle(old(walking), false)
    {
      skipMode := false;
      SetWalking(false);
    }

    method FanoutHead()
      requires queue != []
      modifies this`queue, this`out
      ensures queue == old(queue)[1..]
      ensures out == old(out) + [M.Deliver(old(queue)[0], clock, M.Hold(currentPace, queue))]
    {
      var ev := queue[0];
      queue := queue[1..];
      Fanout(ev);
    }

    /** `setTimeout(drain, delay)`, with the handle remembered. */
    method Arm(delay: real)
      modifies this`pendingTimer, this`timers, this`nextTimer
      ensures View() == old(View()).(pending := Some(old(nextTimer)), nextTimer := old(nextTimer) + 1,
                                     timers := old(timers)[old(nextTimer) := clock + delay])
    {
      timers := timers[nextTimer := clock + delay];
      pendingTimer := Some(nextTimer);
      nextTimer := nextTimer + 1;
    }

    method Drain()
      modifies this
      ensures var r := M.Drain(old(View())); View() == r.s && out == old(out) + r.out
      decreases |queue|
    {
      hide M.DrainAll, M.Deliveries;
      ghost var s := View();
      DrainAtOnce(s);
      pendingTimer := None;
      if |queue| == 0 {
        GoIdle();
        return;
      }
      FanoutHead();
      var pace := if skipMode then 0.0 else currentPace;
      if pace == 0.0 {
        if |queue| == 0 {
          DrainAtOnce(View());
          GoIdle();
          return;
        }
        Drain();
        return;
      }
      Arm(M.Hold(pace, queue));
    }

    method Kick()
      modifies this
      ensures var s := old(View());
        if s.pending.Some? then View() == s && out == old(out)
        else var r := M.Drain(s.(walking := true));
             View() == r.s && out == old(out) + M.Toggle(s.walking, true) + r.out
    {
      if pendingTimer.Some? { return; }
      SetWalking(true);
      Drain();
    }

    method PreemptAndFlush()
      modifies this`pendingTimer, this`timers, this`queue
      ensures View() == M.Flush(old(View()))
    {
      ClearTimer();
      queue := [];
    }

    /** Pushing a value without a string type does nothing; `decode` is JSON.parse. */
    method Push(raw: Incoming, decode: Json -> Option<Incoming>)
      modifies this
      ensures var r := M.PushRaw(old(View()), raw, decode); View() == r.s && out == old(out) + r.out
    {
      hide M.Drain, M.PushError, M.PushReplay, Unwrap, IsErrorType;
      var unwrapped := Unwrap(raw, decode);
      if unwrapped.Untyped? { return; }
      var ev := unwrapped.ev;
      if IsErrorType(ev.ty) {
        PushError(ev);
      } else if ev.ty == RESOLVE_REQUESTED && walking {
        PushReplay(ev);
      } else {
        queue := queue + [ev];
        Kick();
      }
    }

    /** The replay branch of Push. */
    method PushReplay(ev: Event)
      modifies this
      ensures var r := M.PushReplay(old(View()), ev); View() == r.s && out == old(out) + r.out
    {
      PreemptAndFlush();
      queue := queue + [ev];
      assert queue == [ev];
      Drain();
      pendingTimer := None;
      SetWalking(true);
    }

    /** The error branch of Push: the loop empties the queue ahead of the error. */
    method PushError(ev: Event)
      modifies this
      ensures var r := M.PushError(old(View()), ev); View() == r.s && out == old(out) + r.out
    {
      hide M.Hold, M.Deliveries;
      ClearTimer();
      DeliveriesAre(old(queue), currentPace, clock);
      ghost var all := M.Deliveries(old(queue), currentPace, clock);
      ghost var sent := 0;
      while |queue| > 0
        invariant 0 <= sent <= |all| && queue == old(queue)[sent..]
        invariant out == old(out) + all[..sent]
        invariant View() == M.ClearPending(old(View())).(queue := queue)
        decreases |queue|
      {
        FanoutHead();
        sent := sent + 1;
        assert all[..sent] == all[..sent - 1] + [all[sent - 1]];
      }
      assert all[..sent] == all && queue == [];
      Fanout(ev);
      SetWalking(false);
    }

    /** `number` is the finite value of a string as a number, if it has one. */
    method SetPace(value: PaceSetting, number: string -> Option<real>)
      modifies this`currentPace
      ensures value.Number? ==> currentPace == if value.v > 0.0 then value.v else 0.0
      ensures value == Text("off") ==> currentPace == 0.0
      ensures value == Text("fast") ==> currentPace == 150.0
      ensures value == Text("medium") ==> currentPace == 300.0
      ensures value == Text("slow") ==> currentPace == 600.0
      ensures value.Text? && value.key !in ["off", "fast", "medium", "slow"] ==>
        currentPace == match number(value.key) case None => 0.0 case Some(n) => if n > 0.0 then n else 0.0
      ensures View() == M.Step(old(View()), M.SetPaceOp(if value.Number? then value.v else currentPace)).s
    {
      match value
      case Number(v) => currentPace := if v < 0.0 then 0.0 else v;
      case Text(key) =>
        if key == "off" {
          currentPace := 0.0;
        } else if key == "fast" {
          currentPace := 150.0;
        } else if key == "medium" {
          currentPace := 300.0;
        } else if key == "slow" {
          currentPace := 600.0;
        } else {
          var n := number(key);
          currentPace := if n.Some? && n.value >= 0.0 then n.value else 0.0;
        }
    }

    method Skip()
      modifies this
      ensures var r := M.Skip(old(View())); View() == r.s && out == old(out) + r.out
    {
      if !walking { return; }
      skipMode := true;
      ClearTimer();
      Drain();
    }

    /** The runtime fires a timer: it is live no more, and the callback runs. */
    method Fire(t: nat)
      requires t in timers && timers[t] <= clock
      modifies this
      ensures var r := M.Fire(old(View()), t); View() == r.s && out == old(out) + r.out
    {
      timers := timers - {t};
      Drain();
    }
  }

  /** Draining at once is going idle if nothing is queued, and otherwise delivering the head and
      draining at once what is left. */
  lemma DrainAtOnce(s: M.State)
    ensures s.queue == [] ==>
      M.DrainAll(s) == M.Reaction(s.(pending := None, walking := false, skipping := false), M.Toggle(s.walking, false))
    ensures s.queue != [] ==>
      var rest := M.DrainAll(s.(queue := s.queue[1..], pending := None));
      M.DrainAll(s) == M.Reaction(rest.s, [M.Deliver(s.queue[0], s.now, M.Hold(s.pace, s.queue[1..]))] + rest.out)
  {
    if s.queue == [] {
      assert M.Deliveries([], s.pace, s.now) == [];
      assert [] + M.Toggle(s.walking, false) == M.Toggle(s.walking, false);
    } else {
      DeliveriesStep(s.queue, s.pace, s.now);
    }
  }

  lemma DeliveriesAre(q: seq<Event>, pace: real, now: real)
    ensures var all := M.Deliveries(q, pace, now);
      |all| == |q| && forall i | 0 <= i < |q| :: all[i] == M.Deliver(q[i], now, M.Hold(pace, q[i + 1..]))
  {
    hide M.Hold;
  }

  lemma DeliveriesStep(q: seq<Event>, pace: real, now: real)
    requires q != []
    ensures M.Deliveries(q, pace, now)
         == [M.Deliver(q[0], now, M.Hold(pace, q[1..]))] + M.Deliveries(q[1..], pace, now)
  {
    var all := M.Deliveries(q, pace, now);
    var split := [M.Deliver(q[0], now, M.Hold(pace, q[1..]))] + M.Deliveries(q[1..], pace, now);
    assert |all| == |split|;
    forall i | 0 <= i < |q| ensures all[i] == split[i] {
      if i > 0 { assert q[1..][i..] == q[i + 1..]; }
    }
  }
}
