/** The trace bus: fan-out to bounded channels, dropping what a full channel cannot take. The
    same code runs in the portal and in the carrier. Every operation holds the bus's mutex, so a
    concurrent run is an interleaving of whole operations. */
module BusModel {
  import opened Events
  import opened Logs

  /** A channel, with the history of the events emitted while it was registered, the indices of
      those that found its buffer full, and the events received from it. */
  datatype Chan = Chan(cap: nat, buf: seq<Event>, closes: nat, offered: seq<Event>, lost: set<nat>, received: seq<Event>)

  function Opened(cap: nat): Chan {
    Chan(cap, [], 0, [], {}, [])
  }

  /** A send that does not wait. */
  function Offer(c: Chan, ev: Event): Chan {
    if |c.buf| < c.cap then c.(buf := c.buf + [ev], offered := c.offered + [ev])
    else c.(offered := c.offered + [ev], lost := c.lost + {|c.offered|})
  }

  function Take(c: Chan): Chan
    requires c.buf != []
  {
    c.(buf := c.buf[1..], received := c.received + [c.buf[0]])
  }

  datatype Bus<K> = Bus(subs: set<K>, chans: map<K, Chan>, bufSize: nat)

  function NewBus<K>(bufSize: int): Bus<K> {
    Bus({}, map[], if bufSize < 1 then 1 else bufSize)
  }

  datatype Op<K> = Subscribe(k: K) | Unsubscribe(k: K) | Emit(ev: Event) | Receive(k: K)

  /** Subscribing makes a new channel: a key already in use, and receiving from an empty or unknown
      channel, leave the bus as it is. */
  function Step<K>(b: Bus<K>, op: Op<K>): Bus<K> {
    match op
    case Subscribe(k) =>
      if k in b.chans then b else b.(subs := b.subs + {k}, chans := b.chans[k := Opened(b.bufSize)])
    case Unsubscribe(k) =>
      if k in b.subs && k in b.chans then
        b.(subs := b.subs - {k}, chans := b.chans[k := b.chans[k].(closes := b.chans[k].closes + 1)])
      else b
    case Emit(ev) => b.(chans := map k | k in b.chans :: if k in b.subs then Offer(b.chans[k], ev) else b.chans[k])
    case Receive(k) =>
      if k in b.chans && b.chans[k].buf != [] then b.(chans := b.chans[k := Take(b.chans[k])]) else b
  }

  function Run<K>(bufSize: int, ops: seq<Op<K>>): Bus<K> {
    if ops == [] then NewBus(bufSize) else Step(Run(bufSize, ops[..|ops| - 1]), ops[|ops| - 1])
  }

  function EmitAll<K>(b: Bus<K>, evs: seq<Event>): Bus<K> {
    if evs == [] then b else Step(EmitAll(b, evs[..|evs| - 1]), Emit(evs[|evs| - 1]))
  }

  // ---- Delivery ----

  /** Nothing is reordered or invented, and what is not received or buffered found the buffer full. */
  ghost predicate Accounted(c: Chan) {
    && |c.buf| <= c.cap
    && (forall i | i in c.lost :: i < |c.offered|)
    && Kept(c.offered, c.lost) == c.received + c.buf
  }

  lemma OfferAccounted(c: Chan, ev: Event)
    requires Accounted(c)
    ensures Accounted(Offer(c, ev))
  {
    KeptAppend(c.offered, ev, Offer(c, ev).lost);
    KeptLocal(c.offered, c.lost, Offer(c, ev).lost);
    assert Offer(c, ev).received + Offer(c, ev).buf == c.received + c.buf + if |c.buf| < c.cap then [ev] else [];
  }

  lemma TakeAccounted(c: Chan)
    requires Accounted(c) && c.buf != []
    ensures Accounted(Take(c))
  {
    assert c.received + c.buf == Take(c).received + Take(c).buf;
  }

  /** Whether a channel is registered after the operations: subscribed, and not unsubscribed. */
  predicate Registered<K(==)>(ops: seq<Op<K>>, k: K) {
    ops != [] &&
    match ops[|ops| - 1]
    case Subscribe(k') => Registered(ops[..|ops| - 1], k) || (k' == k && Subscribe(k) !in ops[..|ops| - 1])
    case Unsubscribe(k') => k' != k && Registered(ops[..|ops| - 1], k)
    case _ => Registered(ops[..|ops| - 1], k)
  }

  /** The events emitted while a channel was registered. */
  function Window<K(==)>(ops: seq<Op<K>>, k: K): seq<Event> {
    if ops == [] then [] else
    var init, op := ops[..|ops| - 1], ops[|ops| - 1];
    Window(init, k) + if op.Emit? && Registered(init, k) then [op.ev] else []
  }

  /** What a run keeps of each channel: it is registered and open, or closed once and for all; the
      events offered to it are those of its window; and all of them are accounted for. */
  ghost predicate KeepsChannel<K>(ops: seq<Op<K>>, b: Bus<K>, k: K) {
    && (k in b.chans <==> Subscribe(k) in ops)
    && (k in b.subs <==> Registered(ops, k))
    && (k in b.subs ==> k in b.chans)
    && (k !in b.chans ==> Window(ops, k) == [])
    && (k in b.chans ==>
          && b.chans[k].cap == b.bufSize
          && b.chans[k].closes == (if k in b.subs then 0 else 1)
          && b.chans[k].offered == Window(ops, k)
          && Accounted(b.chans[k]))
  }

  lemma {:induction false} RunKeeps<K>(bufSize: int, ops: seq<Op<K>>, k: K)
    ensures KeepsChannel(ops, Run(bufSize, ops), k)
  {
    if ops != [] {
      var init, op := ops[..|ops| - 1], ops[|ops| - 1];
      RunKeeps(bufSize, init, k);
      var b := Run(bufSize, init);
      assert ops == init + [op];
      if op.Emit? && k in b.subs { OfferAccounted(b.chans[k], op.ev); }
      if op.Receive? && op.k == k && k in b.chans && b.chans[k].buf != [] { TakeAccounted(b.chans[k]); }
    }
  }

  /** Under every interleaving, what a subscriber has received and can still receive is a subsequence
      of the events emitted while it was registered; its buffer keeps within its size; and received,
      buffered and dropped events add up to those emitted. With nothing dropped, nothing is missing. */
  lemma Delivery<K>(bufSize: int, ops: seq<Op<K>>, k: K)
    requires k in Run(bufSize, ops).chans
    ensures var c := Run(bufSize, ops).chans[k];
      && IsSubsequence(c.received + c.buf, Window(ops, k))
      && |c.buf| <= Run(bufSize, ops).bufSize
      && |c.received| + |c.buf| + |c.lost| == |Window(ops, k)|
      && (c.lost == {} ==> c.received + c.buf == Window(ops, k))
  {
    var c := Run(bufSize, ops).chans[k];
    RunKeeps(bufSize, ops, k);
    KeptIsSubsequence(c.offered, c.lost);
    KeptCount(c.offered, c.lost);
    KeptAll(c.offered);
  }

  /** The operation emits while the channel is registered and its buffer is full. */
  predicate FindsFull<K>(b: Bus<K>, op: Op<K>, k: K) {
    op.Emit? && k in b.subs && k in b.chans && |b.chans[k].buf| >= b.bufSize
  }

  /** How often that happens in a run. */
  ghost function FullEmits<K>(bufSize: int, ops: seq<Op<K>>, k: K): nat {
    if ops == [] then 0 else
    FullEmits(bufSize, ops[..|ops| - 1], k)
    + if FindsFull(Run(bufSize, ops[..|ops| - 1]), ops[|ops| - 1], k) then 1 else 0
  }

  /** The buffer has room at every emission of the channel's window. */
  ghost predicate NeverFull<K>(bufSize: int, ops: seq<Op<K>>, k: K) {
    forall i | 0 <= i < |ops| :: !FindsFull(Run(bufSize, ops[..i]), ops[i], k)
  }

  /** Over every run, a channel loses one event for each emission that finds its buffer full; so it loses
      nothing, and what was emitted is what is received or buffered, exactly if the buffer always has room. */
  lemma LosesNothingIff<K>(bufSize: int, ops: seq<Op<K>>, k: K)
    requires k in Run(bufSize, ops).chans
    ensures var c := Run(bufSize, ops).chans[k];
      && |c.lost| == FullEmits(bufSize, ops, k)
      && (c.lost == {} <==> NeverFull(bufSize, ops, k))
      && (c.received + c.buf == Window(ops, k) <==> NeverFull(bufSize, ops, k))
  {
    LostAreFullEmits(bufSize, ops, k);
    NeverFullIff(bufSize, ops, k);
    Delivery(bufSize, ops, k);
  }

  ghost function LostCount<K>(b: Bus<K>, k: K): nat {
    if k in b.chans then |b.chans[k].lost| else 0
  }

  lemma {:induction false} LostAreFullEmits<K>(bufSize: int, ops: seq<Op<K>>, k: K)
    ensures FullEmits(bufSize, ops, k) == LostCount(Run(bufSize, ops), k)
  {
    hide Step, FindsFull, LostCount, KeepsChannel;
    if ops == [] {
      NoneLost(bufSize, k);
    } else {
      var init, op := ops[..|ops| - 1], ops[|ops| - 1];
      LostAreFullEmits(bufSize, init, k);
      RunKeeps(bufSize, init, k);
      LostStep(init, Run(bufSize, init), op, k);
    }
  }

  lemma NoneLost<K>(bufSize: int, k: K)
    ensures LostCount(NewBus(bufSize), k) == 0
  {}

  lemma LostStep<K>(ops: seq<Op<K>>, b: Bus<K>, op: Op<K>, k: K)
    requires KeepsChannel(ops, b, k)
    ensures LostCount(Step(b, op), k) == LostCount(b, k) + if FindsFull(b, op, k) then 1 else 0
  {
    hide Window, Registered, Kept;
    if FindsFull(b, op, k) { assert |b.chans[k].offered| !in b.chans[k].lost; }
  }

  lemma {:induction false} NeverFullIff<K>(bufSize: int, ops: seq<Op<K>>, k: K)
    ensures NeverFull(bufSize, ops, k) <==> FullEmits(bufSize, ops, k) == 0
  {
    hide Run, FindsFull;
    if ops != [] {
      var init := ops[..|ops| - 1];
      NeverFullIff(bufSize, init, k);
      assert forall i | 0 <= i < |init| :: init[..i] == ops[..i];
    }
  }

  // ---- Capacity ----

  /** What a bus asked for `bufSize` gives each channel: at least one place. */
  function Places(bufSize: int): nat {
    if bufSize > 1 then bufSize else 1
  }

  lemma {:induction false} ChannelsHavePlaces<K>(bufSize: int, ops: seq<Op<K>>)
    ensures Run(bufSize, ops).bufSize == Places(bufSize)
  {
    if ops != [] { ChannelsHavePlaces(bufSize, ops[..|ops| - 1]); }
  }

  /** A channel loses none of the first events of its window, as many as it has places. */
  lemma FewEventsAreKept<K>(bufSize: int, ops: seq<Op<K>>, k: K)
    requires k in Run(bufSize, ops).chans && |Window(ops, k)| <= Places(bufSize)
    ensures Run(bufSize, ops).chans[k].lost == {}
    ensures Run(bufSize, ops).chans[k].received + Run(bufSize, ops).chans[k].buf == Window(ops, k)
  {
    NeverFullYet(bufSize, ops, k);
    LosesNothingIff(bufSize, ops, k);
  }

  lemma NeverFullYet<K>(bufSize: int, ops: seq<Op<K>>, k: K)
    requires |Window(ops, k)| <= Places(bufSize)
    ensures NeverFull(bufSize, ops, k)
  {
    forall i | 0 <= i < |ops| ensures !FindsFull(Run(bufSize, ops[..i]), ops[i], k) {
      var b := Run(bufSize, ops[..i]);
      if ops[i].Emit? && k in b.subs && k in b.chans {
        RunKeeps(bufSize, ops[..i], k);
        Delivery(bufSize, ops[..i], k);
        ChannelsHavePlaces(bufSize, ops[..i]);
        WindowGrows(ops, i + 1, k);
        assert ops[..i + 1][..i] == ops[..i];
      }
    }
  }

  lemma {:induction false} WindowGrows<K>(ops: seq<Op<K>>, n: nat, k: K)
    requires n <= |ops|
    ensures |Window(ops[..n], k)| <= |Window(ops, k)|
  {
    if n == |ops| {
      assert ops[..n] == ops;
    } else {
      WindowGrows(ops[..|ops| - 1], n, k);
      assert ops[..|ops| - 1][..n] == ops[..n];
    }
  }

  /** An emission to a registered channel is lost exactly if all places are taken by events offered before
      it, not lost, and not yet received. */
  lemma EmissionIsLostIff<K>(bufSize: int, ops: seq<Op<K>>, ev: Event, k: K)
    requires k in Run(bufSize, ops).chans && Registered(ops, k)
    ensures var c := Run(bufSize, ops).chans[k];
      var waiting := |Window(ops, k)| - |c.lost| - |c.received|;
      && k in Run(bufSize, ops + [Emit(ev)]).chans
      && Run(bufSize, ops + [Emit(ev)]).chans[k].lost
         == c.lost + if waiting >= Places(bufSize) then {|Window(ops, k)|} else {}
  {
    RunKeeps(bufSize, ops, k);
    Delivery(bufSize, ops, k);
    ChannelsHavePlaces(bufSize, ops);
    assert (ops + [Emit(ev)])[..|ops|] == ops;
  }

  /** Receiving gets what waits, in order: after `n` receptions the first `n` of it, or all there is. */
  lemma {:induction false} ReceptionsTake<K>(bufSize: int, ops: seq<Op<K>>, k: K, n: nat)
    requires k in Run(bufSize, ops).chans
    ensures var c, b' := Run(bufSize, ops).chans[k], Run(bufSize, ops + seq(n, _ => Receive(k)));
      var m := if n < |c.buf| then n else |c.buf|;
      && k in b'.chans && b'.chans[k].lost == c.lost
      && b'.chans[k].received == c.received + c.buf[..m] && b'.chans[k].buf == c.buf[m..]
  {
    var all := ops + seq(n, _ => Receive(k));
    if n == 0 {
      assert all == ops;
    } else {
      ReceptionsTake(bufSize, ops, k, n - 1);
      assert all[..|all| - 1] == ops + seq(n - 1, _ => Receive(k));
      assert all[|all| - 1] == Receive(k);
    }
  }

  /** Channels are safe under every interleaving: what is registered is open, so an emission never
      sends on a closed channel; no channel is closed twice; unsubscribing twice is unsubscribing once. */
  lemma ChannelsAreSafe<K>(bufSize: int, ops: seq<Op<K>>, k: K)
    ensures var b := Run(bufSize, ops);
      && (k in b.subs ==> k in b.chans && b.chans[k].closes == 0)
      && (k in b.chans ==> b.chans[k].closes <= 1)
      && (k in b.subs <==> Registered(ops, k))
      && Step(Step(b, Unsubscribe(k)), Unsubscribe(k)) == Step(b, Unsubscribe(k))
  {
    RunKeeps(bufSize, ops, k);
  }
}

/** The bus as the services run it. */
module TraceBus {
  import opened Events
  import M = BusModel

  /** A buffered Go channel. Sending on a closed channel and closing one twice would panic. */
  class Channel {
    const cap: nat
    var buf: seq<Event>
    var closed: bool
    ghost var offered: seq<Event>
    ghost var lost: set<nat>
    ghost var received: seq<Event>

    ghost function View(): M.Chan
      reads this
    {
      M.Chan(cap, buf, if closed then 1 else 0, offered, lost, received)
    }

    constructor (cap: nat)
      ensures View() == M.Opened(cap)
    {
      this.cap, buf, closed := cap, [], false;
      offered, lost, received := [], {}, [];
    }

    /** `select { case ch <- ev: default: }` */
    method TrySend(ev: Event)
      requires !closed
      modifies this
      ensures View() == M.Offer(old(View()), ev)
    {
      if |buf| < cap {
        buf := buf + [ev];
      } else {
        lost := lost + {|offered|};
      }
      offered := offered + [ev];
    }

    method Close()
      requires !closed
      modifies this`closed
      ensures View() == old(View()).(closes := 1)
    {
      closed := true;
    }

    /** Receiving waits for an event; a closed channel still gives what it holds. */
    method Receive() returns (ev: Event)
      requires buf != []
      modifies this
      ensures ev == old(buf)[0] && View() == M.Take(old(View()))
    {
      ev := buf[0];
      buf := buf[1..];
      received := received + [ev];
    }
  }

  class Bus {
    var subs: set<Channel>
    const bufSize: nat
    ghost var all: set<Channel>

    /** Every registered channel is open. */
    ghost predicate Valid()
      reads this, all
    {
      subs <= all && forall ch | ch in subs :: !ch.closed
    }

    ghost function View(): M.Bus<Channel>
      reads this, all
    {
      M.Bus(subs, map ch | ch in all :: ch.View(), bufSize)
    }

    constructor (bufSize: int)
      ensures Valid() && all == {} && View() == M.NewBus(bufSize)
    {
      this.bufSize := if bufSize < 1 then 1 else bufSize;
      subs, all := {}, {};
    }

    method Subscribe() returns (ch: Channel)
      requires Valid()
      modifies this
      ensures Valid() && fresh(ch) && all == old(all) + {ch}
      ensures View() == M.Step(old(View()), M.Subscribe(ch))
    {
      ch := new Channel(bufSize);
      subs := subs + {ch};
      all := all + {ch};
    }

    method Unsubscribe(ch: Channel)
      requires Valid()
      modifies this, ch
      ensures Valid() && all == old(all)
      ensures View() == M.Step(old(View()), M.Unsubscribe(ch))
    {
      if ch in subs {
        subs := subs - {ch};
        ch.Close();
      }
    }

    /** The channels are visited in no particular order. */
    method Emit(ev: Event)
      requires Valid()
      modifies subs
      ensures Valid() && all == old(all)
      ensures View() == M.Step(old(View()), M.Emit(ev))
    {
      var todo := subs;
      while todo != {}
        invariant todo <= subs
        invariant forall ch | ch in subs :: !ch.closed
        invariant forall ch | ch in all ::
          ch.View() == if ch in subs && ch !in todo then M.Offer(old(ch.View()), ev) else old(ch.View())
        decreases todo
      {
        var ch :| ch in todo;
        ch.TrySend(ev);
        todo := todo - {ch};
      }
    }
  }
}
