/** The portal end to end, while one resolve is in flight: events are emitted to the page's channel of
    the trace bus, received and pushed into the pace queue, and delivered to the resolve engine, while
    timers fire, the user changes the pace and skips, the response arrives and renders commit. */
module Portal {
  import opened Options
  import opened Events
  import opened Logs
  import Bus = BusModel
  import Pace = PaceModel
  import Engine = EngineModel
  import Theorems = EngineTheorems
  import Runs = EngineRuns
  import External = ExternalCarrier

  /** `script` is what is still to be emitted. */
  datatype State = State(script: seq<Event>, chan: Bus.Chan, pace: Pace.State, engine: Engine.Engine)

  /** A timer, a skip, a pace change, time passing; a render or its effect, a failing response, a network
      failure. */
  datatype Op =
    | Emit
    | Receive
    | PaceOp(p: Pace.Op)
    | EngineOp(e: Engine.Op)

  predicate InFlight(op: Op) {
    match op
    case Emit | Receive => true
    case PaceOp(p) => !p.PushOp? && !p.FlushOp?
    case EngineOp(e) => e.RenderOp? || e.CommitOp? || e.HttpFailOp? || e.NetworkFailOp?
  }

  type Decoder = Json -> Option<Incoming>

  /** The event that reaches the queue for one received from the bus, if it has a type. */
  function Arrival(ev: Event, decode: Decoder): Option<Event> {
    match Unwrap(Typed(ev), decode)
    case Untyped => None
    case Typed(e) => Some(e)
  }

  /** The subscribers' reactions to the queue's outputs, in order. */
  function Feed(e: Engine.Engine, out: seq<Pace.Output>): Engine.Engine {
    if out == [] then e else
    var before := Feed(e, out[..|out| - 1]);
    match out[|out| - 1]
    case Deliver(ev, _, _) => Engine.OnEvent(before, ev)
    case Walk(on) => Engine.OnWalking(before, on)
  }

  function React(s: State, r: Pace.Reaction): State {
    s.(pace := r.s, engine := Feed(s.engine, r.out))
  }

  function Step(s: State, op: Op, decode: Decoder): State {
    match op
    case Emit =>
      if s.script == [] then s else s.(script := s.script[1..], chan := Bus.Offer(s.chan, s.script[0]))
    case Receive =>
      if s.chan.buf == [] then s
      else
        var taken := s.(chan := Bus.Take(s.chan));
        (match Arrival(s.chan.buf[0], decode)
         case None => taken
         case Some(ev) => React(taken, Pace.Push(s.pace, ev)))
    case PaceOp(p) => React(s, Pace.Step(s.pace, p))
    case EngineOp(e) => s.(engine := Engine.Step(s.engine, e))
  }

  function Run(s: State, ops: seq<Op>, decode: Decoder): State {
    if ops == [] then s else Step(Run(s, ops[..|ops| - 1], decode), ops[|ops| - 1], decode)
  }

  /** The channel that a page subscribes on a bus asked for `bufSize`. */
  function PageChannel(bufSize: int): (c: Bus.Chan)
    ensures c == Bus.Opened(Bus.Places(bufSize))
  {
    var b := Bus.Step(Bus.NewBus<int>(bufSize), Bus.Subscribe(0));
    b.chans[0]
  }

  /** Nothing emitted yet, on a new channel; queue and engine in any state whatever. */
  predicate Begins(s: State, script: seq<Event>, bufSize: int) {
    s.script == script && s.chan == PageChannel(bufSize)
  }

  // ---- What the outputs do to the engine ----

  lemma {:induction false} FeedConcat(e: Engine.Engine, a: seq<Pace.Output>, b: seq<Pace.Output>)
    ensures Feed(e, a + b) == Feed(Feed(e, a), b)
  {
    hide Engine.OnEvent, Engine.OnWalking;
    if b == [] {
      assert a + b == a;
    } else {
      FeedConcat(e, a, b[..|b| - 1]);
      assert (a + b)[..|a + b| - 1] == a + b[..|b| - 1];
    }
  }

  lemma {:induction false} FeedUri(e: Engine.Engine, out: seq<Pace.Output>)
    ensures Feed(e, out).peerUri == Theorems.UriAfter(e.peerUri, Pace.Delivered(out))
  {
    hide Engine.OnEvent, Engine.OnWalking, Engine.NoteUri;
    if out != [] {
      var init, last := out[..|out| - 1], out[|out| - 1];
      FeedUri(e, init);
      if last.Deliver? {
        EventUri(Feed(e, init), last.ev);
        assert Pace.Delivered(out)[..|Pace.Delivered(out)| - 1] == Pace.Delivered(init);
      } else {
        WalkingUri(Feed(e, init), last.on);
        assert Pace.Delivered(out) == Pace.Delivered(init);
      }
    }
  }

  lemma EventUri(e: Engine.Engine, ev: Event)
    ensures Engine.OnEvent(e, ev).peerUri == Engine.NoteUri(e.peerUri, ev)
  {}

  lemma WalkingUri(e: Engine.Engine, on: bool)
    ensures Engine.OnWalking(e, on).peerUri == e.peerUri
  {}

  lemma {:induction false} UriAfterConcat(uri: Option<Json>, a: seq<Event>, b: seq<Event>)
    ensures Theorems.UriAfter(uri, a + b) == Theorems.UriAfter(Theorems.UriAfter(uri, a), b)
  {
    if b == [] {
      assert a + b == a;
    } else {
      UriAfterConcat(uri, a, b[..|b| - 1]);
      assert (a + b)[..|a + b| - 1] == a + b[..|b| - 1];
    }
  }

  ghost predicate NoErrors(evs: seq<Event>) {
    forall ev | ev in evs :: !IsError(ev)
  }

  /** The engine shows the error, with the URI if there is one; or, if that is intact no more, some error
      that carries no payload. */
  predicate Shows(e: Engine.Engine, err: Event, uri: Option<Json>, intact: bool) {
    && e.status == Engine.Failed && e.error.Some?
    && if intact then Runs.ShowsError(e.error, err, uri) else e.error.value.payload.None?
  }

  lemma {:induction false} FeedKeepsShowing(e: Engine.Engine, out: seq<Pace.Output>, err: Event, uri: Option<Json>, intact: bool)
    requires Shows(e, err, uri, intact) && NoErrors(Pace.Delivered(out))
    ensures Shows(Feed(e, out), err, uri, intact)
  {
    if out != [] {
      var init, last := out[..|out| - 1], out[|out| - 1];
      assert forall ev | ev in Pace.Delivered(init) :: ev in Pace.Delivered(out);
      FeedKeepsShowing(e, init, err, uri, intact);
      if last.Deliver? {
        assert last.ev in Pace.Delivered(out);
        NonErrorKeepsShowing(Feed(e, init), last.ev, err, uri, intact);
      }
    }
  }

  lemma NonErrorKeepsShowing(e: Engine.Engine, ev: Event, err: Event, uri: Option<Json>, intact: bool)
    requires Shows(e, err, uri, intact) && !IsError(ev)
    ensures Shows(Engine.OnEvent(e, ev), err, uri, intact)
  {}

  /** The URI known once everything queued is delivered. */
  function UriAhead(s: State): Option<Json> {
    Theorems.UriAfter(s.engine.peerUri, s.pace.queue)
  }

  /** A step of the queue that does not flush leaves the URI ahead as it is, but for what it accepts. */
  lemma UriAheadStep(s: State, op: Pace.Op)
    requires !Pace.Flushes(s.pace, op)
    ensures UriAhead(React(s, Pace.Step(s.pace, op))) == Theorems.UriAfter(UriAhead(s), Pace.Accepted(op))
  {
    hide *;
    var r := Pace.Step(s.pace, op);
    Pace.StepConserves(s.pace, op);
    FeedUri(s.engine, r.out);
    UriAfterConcat(s.engine.peerUri, Pace.Delivered(r.out), r.s.queue);
    UriAfterConcat(s.engine.peerUri, s.pace.queue, Pace.Accepted(op));
    UriAheadIs(s);
    UriAheadIs(React(s, r));
    ReactIs(s, r);
  }

  lemma UriAheadIs(s: State)
    ensures UriAhead(s) == Theorems.UriAfter(s.engine.peerUri, s.pace.queue)
  {}

  lemma ReactIs(s: State, r: Pace.Reaction)
    ensures React(s, r) == s.(pace := r.s, engine := Feed(s.engine, r.out))
  {}

  /** An error shown stays shown over a step of the queue that involves no error. */
  lemma ShowingStep(s: State, op: Pace.Op, err: Event, uri: Option<Json>, intact: bool)
    requires Shows(s.engine, err, uri, intact) && NoErrors(s.pace.queue) && NoErrors(Pace.Accepted(op))
    ensures var s' := React(s, Pace.Step(s.pace, op)); Shows(s'.engine, err, uri, intact) && NoErrors(s'.pace.queue)
  {
    hide Shows, Pace.Step, Pace.Delivered, Feed, Pace.Flushes, Pace.Accepted;
    var r := Pace.Step(s.pace, op);
    var all := (if Pace.Flushes(s.pace, op) then [] else s.pace.queue) + Pace.Accepted(op);
    Pace.StepConserves(s.pace, op);
    assert Pace.Delivered(r.out) + r.s.queue == all;
    assert forall ev :: ev in Pace.Delivered(r.out) + r.s.queue <==> ev in Pace.Delivered(r.out) || ev in r.s.queue;
    FeedKeepsShowing(s.engine, r.out, err, uri, intact);
  }

  /** Pushing the error delivers what is queued ahead of it, and then the error with the URI. */
  lemma ErrorArrives(s: State, err: Event, uri: Option<Json>)
    requires IsError(err) && UriAhead(s) == uri && uri != Some(Null)
    ensures var s' := React(s, Pace.Push(s.pace, err)); Shows(s'.engine, err, uri, true) && s'.pace.queue == []
  {
    var p := s.pace;
    var all := Pace.Deliveries(p.queue, p.pace, p.now);
    var last := [Pace.Deliver(err, p.now, Pace.Hold(p.pace, []))];
    var end := Pace.Toggle(p.walking, false);
    Pace.DeliveredDeliveries(p.queue, p.pace, p.now);
    FeedUri(s.engine, all);
    FeedConcat(s.engine, all, last);
    FeedConcat(s.engine, all + last, end);
    ErrorShows(Feed(s.engine, all), last, end, err, uri);
    assert Pace.Push(p, err).out == all + last + end;
  }

  lemma ErrorShows(e: Engine.Engine, last: seq<Pace.Output>, end: seq<Pace.Output>, err: Event, uri: Option<Json>)
    requires IsError(err) && e.peerUri == uri && uri != Some(Null) && err.ty != PEER_URI_SEEN
    requires |last| == 1 && last[0].Deliver? && last[0].ev == err
    requires end == [] || end == [Pace.Walk(false)]
    ensures Shows(Feed(Feed(e, last), end), err, uri, true)
  {
    assert last[..0] == [];
    assert Feed(e, last) == Engine.OnEvent(e, err);
    if end != [] { assert end[..0] == []; }
  }

  // ---- The guarantee ----

  /** The events emitted: anything; the peer URI, if one is seen; anything but another URI or another
      resolve; the error; anything but another error. If no URI is seen, there is none among the others either. */
  datatype Story = Story(before: seq<Event>, uri: Option<string>, between: seq<Event>, err: Event, after: seq<Event>)

  function UriPart(t: Story): seq<Event> {
    match t.uri
    case None => []
    case Some(uri) => [External.PeerUriSeen(uri)]
  }

  function Script(t: Story): seq<Event> {
    t.before + UriPart(t) + t.between + [t.err] + t.after
  }

  /** The index of the error. */
  function ErrAt(t: Story): nat {
    |t.before| + |UriPart(t)| + |t.between|
  }

  function UriOf(t: Story): Option<Json> {
    match t.uri
    case None => None
    case Some(uri) => Some(Str(uri))
  }

  ghost predicate NoUriArrives(evs: seq<Event>, decode: Decoder) {
    forall ev | ev in evs :: match Arrival(ev, decode) case None => true case Some(e) => e.ty != PEER_URI_SEEN
  }

  ghost predicate Told(t: Story, decode: Decoder) {
    && Arrival(t.err, decode).Some? && IsError(Arrival(t.err, decode).value)
    && NoUriArrives(t.between, decode)
    && (t.uri.None? ==> NoUriArrives(t.before, decode))
    && (t.uri.Some? ==> forall ev | ev in t.between :: match Arrival(ev, decode)
        case None => true
        case Some(e) => e.ty != RESOLVE_REQUESTED)
    && (forall ev | ev in t.after :: match Arrival(ev, decode)
        case None => true
        case Some(e) => !IsError(e))
  }

  /** No URI is known or on its way through the queue. */
  ghost predicate Quiet(s: State) {
    s.engine.peerUri.None? && forall ev | ev in s.pace.queue :: ev.ty != PEER_URI_SEEN
  }

  /** Where the page is in the story, by the number of events it has received. */
  ghost predicate Follows(s: State, t: Story, decode: Decoder, intact: bool) {
    var k := |s.chan.received|;
    && (k <= ErrAt(t) ==> intact)
    && (t.uri.Some? && |t.before| < k <= ErrAt(t) ==> UriAhead(s) == UriOf(t))
    && (t.uri.None? && k <= ErrAt(t) ==> Quiet(s))
    && (ErrAt(t) < k ==>
          && Arrival(t.err, decode).Some? && Shows(s.engine, Arrival(t.err, decode).value, UriOf(t), intact)
          && NoErrors(s.pace.queue))
  }

  /** A network failure once the page has received the story's error. */
  predicate Clobbers(s: State, t: Story, op: Op) {
    op.EngineOp? && op.e.NetworkFailOp? && |s.chan.received| > ErrAt(t)
  }

  /** There has been none. */
  ghost predicate StaysIntact(s: State, t: Story, ops: seq<Op>, decode: Decoder) {
    ops == [] ||
    (StaysIntact(s, t, ops[..|ops| - 1], decode) && !Clobbers(Run(s, ops[..|ops| - 1], decode), t, ops[|ops| - 1]))
  }

  /** The channel holds what was emitted and not yet received. */
  ghost predicate Carried(s: State, script: seq<Event>) {
    s.chan.offered + s.script == script && Bus.Accounted(s.chan)
  }

  lemma {:induction false} RunCarries(s: State, ops: seq<Op>, decode: Decoder, script: seq<Event>, bufSize: int)
    requires Begins(s, script, bufSize)
    ensures Carried(Run(s, ops, decode), script)
  {
    if ops != [] {
      hide Step, Carried;
      RunCarries(s, ops[..|ops| - 1], decode, script, bufSize);
      StepCarries(Run(s, ops[..|ops| - 1], decode), ops[|ops| - 1], decode, script);
    }
  }

  lemma {:induction false} RunKeepsCap(s: State, ops: seq<Op>, decode: Decoder)
    ensures Run(s, ops, decode).chan.cap == s.chan.cap
  {
    if ops != [] {
      hide Arrival, Feed, Pace.Step, Pace.Push, Engine.Step;
      RunKeepsCap(s, ops[..|ops| - 1], decode);
    }
  }

  lemma StepCarries(s: State, op: Op, decode: Decoder, script: seq<Event>)
    requires Carried(s, script)
    ensures Carried(Step(s, op, decode), script)
  {
    hide Arrival, Feed, Pace.Step, Pace.Push, Engine.Step;
    if op.Emit? && s.script != [] {
      Bus.OfferAccounted(s.chan, s.script[0]);
    } else if op.Receive? && s.chan.buf != [] {
      Bus.TakeAccounted(s.chan);
    }
  }

  /** Whatever the page's queue and engine were doing, and however emissions, receptions, timers, time,
      pace changes, skips, renders, failing responses and network failures interleave: once the page has
      received the error event, forwarded or not, with nothing dropped on the way, the engine shows that error
      with that URI, if there is one, as long as there has been no network failure since, and from then on an error without a payload. */
  lemma {:induction false} PeerUriReachesTheError(s: State, t: Story, bufSize: int, ops: seq<Op>, decode: Decoder)
    requires Told(t, decode) && Begins(s, Script(t), bufSize) && (t.uri.None? ==> Quiet(s))
    requires forall op | op in ops :: InFlight(op)
    requires Run(s, ops, decode).chan.lost == {}
    ensures Follows(Run(s, ops, decode), t, decode, StaysIntact(s, t, ops, decode))
  {
    if ops != [] {
      hide Step, Follows, Told, Script, Begins, Clobbers, Quiet;
      var init, op := ops[..|ops| - 1], ops[|ops| - 1];
      var s' := Run(s, init, decode);
      LossesStay(s', op, decode);
      PeerUriReachesTheError(s, t, bufSize, init, decode);
      RunCarries(s, init, decode, Script(t), bufSize);
      assert op in ops;
      StepFollows(s', t, op, decode, StaysIntact(s, t, init, decode));
    } else {
      assert Run(s, ops, decode) == s;
    }
  }

  lemma StepFollows(s: State, t: Story, op: Op, decode: Decoder, intact: bool)
    requires Follows(s, t, decode, intact) && Told(t, decode) && Carried(s, Script(t)) && s.chan.lost == {} && InFlight(op)
    ensures Follows(Step(s, op, decode), t, decode, intact && !Clobbers(s, t, op))
  {
    match op
    case Emit =>
    case Receive => if s.chan.buf != [] { Received(s, t, decode, intact); }
    case PaceOp(p) => PaceStepFollows(s, t, p, decode, intact);
    case EngineOp(e) =>
  }

  lemma LossesStay(s: State, op: Op, decode: Decoder)
    ensures s.chan.lost <= Step(s, op, decode).chan.lost
  {}

  lemma PaceStepFollows(s: State, t: Story, p: Pace.Op, decode: Decoder, intact: bool)
    requires Follows(s, t, decode, intact) && !p.PushOp? && !p.FlushOp?
    ensures Follows(React(s, Pace.Step(s.pace, p)), t, decode, intact)
  {
    hide Pace.Step, Shows, UriAhead, NoErrors, Quiet, Arrival;
    NothingAccepted(p);
    var k := |s.chan.received|;
    if t.uri.Some? && |t.before| < k <= ErrAt(t) { UriAheadStep(s, p); }
    if t.uri.None? && k <= ErrAt(t) { QuietStep(s, p); }
    if ErrAt(t) < k { ShowingStep(s, p, Arrival(t.err, decode).value, UriOf(t), intact); }
  }

  lemma NothingAccepted(p: Pace.Op)
    requires !p.PushOp?
    ensures Pace.Accepted(p) == [] && NoErrors(Pace.Accepted(p))
  {}

  /** The next event of the story arrives. */
  lemma Received(s: State, t: Story, decode: Decoder, intact: bool)
    requires Told(t, decode) && Carried(s, Script(t)) && s.chan.lost == {} && s.chan.buf != []
    requires Follows(s, t, decode, intact)
    ensures Follows(Step(s, Receive, decode), t, decode, intact)
  {
    hide Arrival, Shows, UriAhead, Quiet, NoErrors, Pace.Push, Script;
    var k, ev := |s.chan.received|, s.chan.buf[0];
    NextOfStory(s, t);
    var taken := s.(chan := Bus.Take(s.chan));
    SamePage(s, taken);
    if k < ErrAt(t) && t.uri.None? {
      QuietArrival(taken, ev, decode);
    } else if t.uri.Some? && k == |t.before| {
      UriArrives(taken, t.uri.value, decode);
    } else if t.uri.Some? && |t.before| < k < ErrAt(t) {
      BetweenArrives(taken, ev, Str(t.uri.value), decode);
    } else if k == ErrAt(t) {
      if t.uri.None? { QuietIsAhead(taken); }
      ErrorArrives(taken, Arrival(ev, decode).value, UriOf(t));
      NoErrorsInNothing();
    } else if k > ErrAt(t) {
      AfterArrives(taken, ev, Arrival(t.err, decode).value, UriOf(t), decode, intact);
    }
  }

  lemma NoErrorsInNothing()
    ensures NoErrors([])
  {}

  /** What the queue and the engine are does not depend on the channel. */
  lemma SamePage(s: State, s': State)
    requires s'.pace == s.pace && s'.engine == s.engine
    ensures UriAhead(s') == UriAhead(s) && (Quiet(s') <==> Quiet(s))
  {}

  lemma QuietIsAhead(s: State)
    requires Quiet(s)
    ensures UriAhead(s) == None
  {
    NoUriAfter(s.engine.peerUri, s.pace.queue);
  }

  lemma {:induction false} NoUriAfter(uri: Option<Json>, evs: seq<Event>)
    requires forall ev | ev in evs :: ev.ty != PEER_URI_SEEN
    ensures Theorems.UriAfter(uri, evs) == uri
  {
    if evs != [] {
      assert evs[|evs| - 1] in evs && forall ev | ev in evs[..|evs| - 1] :: ev in evs;
      NoUriAfter(uri, evs[..|evs| - 1]);
    }
  }

  /** A step of the queue that accepts no URI keeps it quiet, flushing or not. */
  lemma QuietStep(s: State, op: Pace.Op)
    requires Quiet(s) && forall ev | ev in Pace.Accepted(op) :: ev.ty != PEER_URI_SEEN
    ensures Quiet(React(s, Pace.Step(s.pace, op)))
  {
    hide Pace.Step, Pace.Delivered, Feed, Pace.Flushes, Pace.Accepted;
    var r := Pace.Step(s.pace, op);
    var all := (if Pace.Flushes(s.pace, op) then [] else s.pace.queue) + Pace.Accepted(op);
    Pace.StepConserves(s.pace, op);
    assert Pace.Delivered(r.out) + r.s.queue == all;
    assert forall ev :: ev in Pace.Delivered(r.out) + r.s.queue <==> ev in Pace.Delivered(r.out) || ev in r.s.queue;
    FeedUri(s.engine, r.out);
    NoUriAfter(s.engine.peerUri, Pace.Delivered(r.out));
  }

  lemma QuietArrival(s: State, ev: Event, decode: Decoder)
    requires Quiet(s)
    requires match Arrival(ev, decode) case None => true case Some(e) => e.ty != PEER_URI_SEEN
    ensures Arrival(ev, decode).Some? ==> Quiet(React(s, Pace.Push(s.pace, Arrival(ev, decode).value)))
  {
    hide Quiet, Pace.Push, Arrival, React;
    if Arrival(ev, decode).Some? { QuietStep(s, Pace.PushOp(Arrival(ev, decode).value)); }
  }

  lemma NextOfStory(s: State, t: Story)
    requires Carried(s, Script(t)) && s.chan.lost == {} && s.chan.buf != []
    ensures var k, ev := |s.chan.received|, s.chan.buf[0];
      && (k < |t.before| ==> ev in t.before)
      && (t.uri.Some? && k == |t.before| ==> ev == External.PeerUriSeen(t.uri.value))
      && (|t.before| + |UriPart(t)| <= k < ErrAt(t) ==> ev in t.between)
      && (k == ErrAt(t) ==> ev == t.err)
      && (ErrAt(t) < k ==> ev in t.after)
  {
    var k := |s.chan.received|;
    KeptAll(s.chan.offered);
    assert Script(t)[k] == (s.chan.received + s.chan.buf + s.script)[k] == s.chan.buf[0];
  }

  lemma UriArrives(s: State, uri: string, decode: Decoder)
    ensures Arrival(External.PeerUriSeen(uri), decode) == Some(External.PeerUriSeen(uri))
    ensures UriAhead(React(s, Pace.Push(s.pace, External.PeerUriSeen(uri)))) == Some(Str(uri))
  {
    hide UriAhead, Pace.Push;
    var ev := External.PeerUriSeen(uri);
    assert ev.ty != RESOLVE_REQUESTED && ev.ty != "carrier.event.raw" by { assert |ev.ty| != |RESOLVE_REQUESTED|; assert ev.ty[0] == 'm'; }
    UriAheadStep(s, Pace.PushOp(ev));
    assert [ev][..0] == [];
    assert Theorems.UriAfter(UriAhead(s), [ev]) == Engine.NoteUri(UriAhead(s), ev);
  }

  lemma BetweenArrives(s: State, ev: Event, uri: Json, decode: Decoder)
    requires UriAhead(s) == Some(uri)
    requires match Arrival(ev, decode)
      case None => true
      case Some(e) => e.ty != PEER_URI_SEEN && e.ty != RESOLVE_REQUESTED
    ensures Arrival(ev, decode).Some? ==> UriAhead(React(s, Pace.Push(s.pace, Arrival(ev, decode).value))) == Some(uri)
  {
    hide UriAhead, Pace.Push, Arrival;
    if Arrival(ev, decode).Some? {
      var e := Arrival(ev, decode).value;
      UriAheadStep(s, Pace.PushOp(e));
      assert [e][..0] == [];
      assert Theorems.UriAfter(UriAhead(s), [e]) == Engine.NoteUri(UriAhead(s), e);
    }
  }

  lemma AfterArrives(s: State, ev: Event, err: Event, uri: Option<Json>, decode: Decoder, intact: bool)
    requires Shows(s.engine, err, uri, intact) && NoErrors(s.pace.queue)
    requires match Arrival(ev, decode)
      case None => true
      case Some(e) => !IsError(e)
    ensures Arrival(ev, decode).Some? ==>
      var s' := React(s, Pace.Push(s.pace, Arrival(ev, decode).value));
      Shows(s'.engine, err, uri, intact) && NoErrors(s'.pace.queue)
  {
    hide Shows, Pace.Push, Arrival, React;
    if Arrival(ev, decode).Some? {
      ShowingStep(s, Pace.PushOp(Arrival(ev, decode).value), err, uri, intact);
    }
  }

  /** While the request does not fail in the network, nothing clobbers the error. */
  lemma {:induction false} IntactWithoutNetworkFailure(s: State, t: Story, ops: seq<Op>, decode: Decoder)
    requires forall op | op in ops :: !(op.EngineOp? && op.e.NetworkFailOp?)
    ensures StaysIntact(s, t, ops, decode)
  {
    hide Run;
    if ops != [] {
      assert ops[|ops| - 1] in ops && forall op | op in ops[..|ops| - 1] :: op in ops;
      IntactWithoutNetworkFailure(s, t, ops[..|ops| - 1], decode);
    }
  }

  /** A bus asked for at least as many places as there are events drops none of them. */
  lemma {:induction false} NothingDropped(s: State, script: seq<Event>, bufSize: int, ops: seq<Op>, decode: Decoder)
    requires Begins(s, script, bufSize) && |script| <= bufSize
    ensures Run(s, ops, decode).chan.lost == {}
  {
    if ops != [] {
      var s' := Run(s, ops[..|ops| - 1], decode);
      NothingDropped(s, script, bufSize, ops[..|ops| - 1], decode);
      RunCarries(s, ops[..|ops| - 1], decode, script, bufSize);
      RunKeepsCap(s, ops[..|ops| - 1], decode);
      KeptCount(s'.chan.offered, s'.chan.lost);
      assert |s'.chan.buf| <= |s'.chan.offered|;
    }
  }

  /** Once the page has everything of a story, it shows an error, and that carries a payload exactly if no
      network failure has come since the story's error; it is then that error, with the story's URI. */
  lemma StoryIsShown(s: State, t: Story, bufSize: int, ops: seq<Op>, decode: Decoder)
    requires Told(t, decode) && Begins(s, Script(t), bufSize) && (t.uri.None? ==> Quiet(s))
    requires |Script(t)| <= bufSize && forall op | op in ops :: InFlight(op)
    requires var end := Run(s, ops, decode); end.script == [] && end.chan.buf == []
    ensures var e := Run(s, ops, decode).engine;
      && e.status == Engine.Failed && e.error.Some?
      && (e.error.value.payload.Some? <==> StaysIntact(s, t, ops, decode))
      && (e.error.value.payload.Some? ==> Runs.ShowsError(e.error, Arrival(t.err, decode).value, UriOf(t)))
  {
    hide Run, Step, InFlight, Quiet, Arrival, Begins, NoUriArrives;
    NothingDropped(s, Script(t), bufSize, ops, decode);
    PeerUriReachesTheError(s, t, bufSize, ops, decode);
    RunCarries(s, ops, decode, Script(t), bufSize);
    AllReceived(Run(s, ops, decode), Script(t));
  }

  lemma AllReceived(s: State, script: seq<Event>)
    requires Carried(s, script) && s.chan.lost == {} && s.script == [] && s.chan.buf == []
    ensures s.chan.received == script
  {
    KeptAll(s.chan.offered);
  }

  /** The external resolve that is refused with the foreign certificate's URIs: the page ends up with the
      handshake error, with the first URI exactly if that is not empty. */
  lemma ExternalResolveShowsTheForeignUri(
      s: State, id: string, addr: string, uris: seq<string>, err: string,
      bufSize: int, ops: seq<Op>, decode: Decoder)
    requires uris != [] && bufSize >= 5
    requires Begins(s, External.RequestScript(id, addr, External.Rejected(uris, err)), bufSize)
    requires forall op | op in ops :: InFlight(op)
    requires var end := Run(s, ops, decode); end.script == [] && end.chan.buf == []
    ensures var e := Run(s, ops, decode).engine;
      && e.status == Engine.Failed && e.error.Some?
      && (e.error.value.payload.Some? <==> StaysIntact(s, ResolveStory(id, addr, Some(uris[0]), err), ops, decode))
      && (e.error.value.payload.Some? ==> ShowsUri(e.error.value, err, uris[0]))
  {
    hide Run, InFlight, Told, Begins, StaysIntact;
    ResolveIsTold(id, addr, Some(uris[0]), err, decode);
    StoryIsShown(s, ResolveStory(id, addr, Some(uris[0]), err), bufSize, ops, decode);
    assert "err" != "uri" by { assert "err"[0] != "uri"[0]; }
  }

  /** One that fails in the network, or is refused with a certificate without URIs: the handshake error all
      the same, with nothing but its message, unless a URI was known before. */
  lemma ExternalResolveShowsTheError(
      s: State, id: string, addr: string, dial: External.Dial, err: string,
      bufSize: int, ops: seq<Op>, decode: Decoder)
    requires dial in [External.Rejected([], err), External.NetworkError(err)] && bufSize >= 4
    requires Begins(s, External.RequestScript(id, addr, dial), bufSize) && Quiet(s)
    requires forall op | op in ops :: InFlight(op)
    requires var end := Run(s, ops, decode); end.script == [] && end.chan.buf == []
    ensures var e := Run(s, ops, decode).engine;
      && e.status == Engine.Failed && e.error.Some?
      && (e.error.value.payload.Some? <==> StaysIntact(s, ResolveStory(id, addr, None, err), ops, decode))
      && (e.error.value.payload.Some? ==>
            e.error.value == Engine.ResolveError("mtls.handshake.err", Some(Str(err)), Some(map["err" := Str(err)])))
  {
    hide Run, InFlight, Told, Begins, StaysIntact, Quiet;
    ResolveIsTold(id, addr, None, err, decode);
    StoryIsShown(s, ResolveStory(id, addr, None, err), bufSize, ops, decode);
  }

  function Forwarded(frame: Json): Event {
    Event(FORWARDED, Some(map["frame" := frame]))
  }

  /** An internal resolve that fails at the carrier: the carrier's error event arrives forwarded, and the
      page ends up with that event's error and payload. */
  lemma CarrierErrorIsShown(
      s: State, before: seq<Event>, frame: Json, inner: Event, after: seq<Event>,
      bufSize: int, ops: seq<Op>, decode: Decoder)
    requires frame !in FALSY && decode(frame) == Some(Typed(inner)) && IsError(inner)
    requires NoUriArrives(before, decode) && Quiet(s)
    requires forall ev | ev in after :: match Arrival(ev, decode) case None => true case Some(e) => !IsError(e)
    requires Begins(s, before + [Forwarded(frame)] + after, bufSize) && |before| + 1 + |after| <= bufSize
    requires forall op | op in ops :: InFlight(op)
    requires var end := Run(s, ops, decode); end.script == [] && end.chan.buf == []
    ensures var e := Run(s, ops, decode).engine;
      && e.status == Engine.Failed && e.error.Some?
      && (e.error.value.payload.Some? <==> StaysIntact(s, Story(before, None, [], Forwarded(frame), after), ops, decode))
      && (e.error.value.payload.Some? ==> Runs.ShowsError(e.error, inner, None))
  {
    hide Run, InFlight, StaysIntact, Quiet, Begins;
    var t := Story(before, None, [], Forwarded(frame), after);
    assert Script(t) == before + [Forwarded(frame)] + after;
    StoryIsShown(s, t, bufSize, ops, decode);
  }

  predicate ShowsUri(shown: Engine.ResolveError, err: string, uri: string) {
    && shown.ty == HANDSHAKE_ERR && shown.payload.Some?
    && "err" in shown.payload.value && shown.payload.value["err"] == Str(err)
    && ("uri" in shown.payload.value <==> uri != "")
    && ("uri" in shown.payload.value ==> shown.payload.value["uri"] == Str(uri))
  }

  function ResolveStory(id: string, addr: string, uri: Option<string>, err: string): Story {
    Story([External.Requested(id), External.Start(addr)], uri, [], External.HandshakeErr(err), [External.RESOLVE_REJECTED])
  }

  lemma ResolveIsTold(id: string, addr: string, uri: Option<string>, err: string, decode: Decoder)
    ensures var t := ResolveStory(id, addr, uri, err);
      && Told(t, decode) && Arrival(t.err, decode) == Some(External.HandshakeErr(err))
      && |Script(t)| == (if uri.None? then 4 else 5)
      && (uri.None? ==> Script(t) == External.RequestScript(id, addr, External.NetworkError(err)))
      && (uri.None? ==> Script(t) == External.RequestScript(id, addr, External.Rejected([], err)))
      && (forall uris: seq<string> | uris != [] && Some(uris[0]) == uri ::
            Script(t) == External.RequestScript(id, addr, External.Rejected(uris, err)))
  {
    hide Arrival, IsError;
    ErrorArrivesAsItIs(err, decode);
    RejectedIsNoError(decode);
    NamesAreNoUri(id, addr, decode);
  }

  lemma NamesAreNoUri(id: string, addr: string, decode: Decoder)
    ensures NoUriArrives([External.Requested(id), External.Start(addr)], decode)
  {
    var a, b := External.Requested(id).ty, External.Start(addr).ty;
    assert a[0] == 'p' && b[0] == 'm' && |b| != |PEER_URI_SEEN|;
  }

  lemma ErrorArrivesAsItIs(err: string, decode: Decoder)
    ensures var ev := External.HandshakeErr(err); IsError(ev) && Arrival(ev, decode) == Some(ev)
  {
    var ty := HANDSHAKE_ERR;
    assert ty[|ty| - 4..] == ".err" && ty[0] == 'm';
  }

  lemma RejectedIsNoError(decode: Decoder)
    ensures var ev := External.RESOLVE_REJECTED; !IsError(ev) && Arrival(ev, decode) == Some(ev)
  {
    var ty := External.RESOLVE_REJECTED.ty;
    assert ty[|ty| - 4..] == "cted" && ty[|ty| - 6..] == "jected" && ty[0] == 'p';
  }

  // ---- Walking ----

  /** An idle page starts running when something other than an error arrives at its idle queue, although no
      run was started on it. */
  lemma ArrivalStartsTheRun(s: State, ev: Event, decode: Decoder)
    requires s.chan.buf != [] && Arrival(s.chan.buf[0], decode) == Some(ev) && !IsError(ev)
    requires s.engine.status == Engine.Idle && s.pace.queue == [] && s.pace.pending.None? && !s.pace.walking
    ensures Step(s, Receive, decode).engine.status == Engine.Running
  {
    hide Arrival, IsError, Pace.Drain, Feed, Pace.Delivered;
    var q := s.pace.(queue := s.pace.queue + [ev], walking := true);
    var out := Pace.Drain(q).out;
    Pace.DrainConserves(q);
    assert q.queue == [ev];
    assert forall e | e in Pace.Delivered(out) :: e in Pace.Delivered(out) + Pace.Drain(q).s.queue;
    FeedConcat(s.engine, [Pace.Walk(true)], out);
    FeedWalk(s.engine, true);
    FeedKeepsRunning(Feed(s.engine, [Pace.Walk(true)]), out);
  }

  lemma FeedWalk(e: Engine.Engine, on: bool)
    ensures Feed(e, [Pace.Walk(on)]) == Engine.OnWalking(e, on)
  {
    assert [Pace.Walk(on)][..0] == [];
  }

  lemma {:induction false} FeedKeepsRunning(e: Engine.Engine, out: seq<Pace.Output>)
    requires e.status == Engine.Running && NoErrors(Pace.Delivered(out))
    ensures Feed(e, out).status == Engine.Running
  {
    hide IsError, EventToStage;
    if out != [] {
      var init, last := out[..|out| - 1], out[|out| - 1];
      assert forall ev | ev in Pace.Delivered(init) :: ev in Pace.Delivered(out);
      FeedKeepsRunning(e, init);
      if last.Deliver? { assert last.ev in Pace.Delivered(out); }
    }
  }
}
