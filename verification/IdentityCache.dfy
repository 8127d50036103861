/** The portal's cache of the carrier's identity. A mutex serialises the calls, so a history is a
    list of them in order. Times are in nanoseconds. */
module IdentityCache {
  import opened Options

  type Time = int

  const SECOND: Time := 1_000_000_000
  const TTL: Time := 30 * SECOND

  /** What the source returned: in Go both a response and an error are possible. */
  datatype Fetched<T> = Fetched(resp: Option<T>, err: Option<string>)

  datatype Cache<T> = Cache(at: Time, held: Fetched<T>)

  function Empty<T>(): Cache<T> {
    Cache(0, Fetched(None, None))
  }

  /** A call: when it looks at the clock, what the source would return, and when that is back. */
  datatype Call<T> = Call(asked: Time, answer: Fetched<T>, back: Time)

  predicate Fresh<T>(c: Cache<T>, now: Time) {
    c.held.resp.Some? && now - c.at < TTL
  }

  function Served<T>(c: Cache<T>, call: Call<T>): Fetched<T> {
    if Fresh(c, call.asked) then c.held else call.answer
  }

  function After<T>(c: Cache<T>, call: Call<T>): Cache<T> {
    if Fresh(c, call.asked) then c else Cache(call.back, call.answer)
  }

  class Aggregator<T> {
    var cachedAt: Time
    var cachedResp: Option<T>
    var cachedErr: Option<string>

    ghost function View(): Cache<T>
      reads this
    {
      Cache(cachedAt, Fetched(cachedResp, cachedErr))
    }

    constructor ()
      ensures View() == Empty()
    {
      cachedAt, cachedResp, cachedErr := 0, None, None;
    }

    /** The clock and the source are given by what they answer during the call. */
    method CarrierCached(call: Call<T>) returns (r: Fetched<T>)
      modifies this
      ensures r == Served(old(View()), call) && View() == After(old(View()), call)
    {
      if cachedResp.Some? && call.asked - cachedAt < TTL {
        return Fetched(cachedResp, cachedErr);
      }
      cachedAt := call.back;
      cachedResp := call.answer.resp;
      cachedErr := call.answer.err;
      return call.answer;
    }
  }

  // ---- Histories ----

  function Play<T>(calls: seq<Call<T>>): Cache<T> {
    if calls == [] then Empty() else After(Play(calls[..|calls| - 1]), calls[|calls| - 1])
  }

  predicate Hits<T>(calls: seq<Call<T>>, i: nat)
    requires i < |calls|
  {
    Fresh(Play(calls[..i]), calls[i].asked)
  }

  /** Call `j` fetched, and it is the last call before `i` that did. */
  ghost predicate LastFetch<T>(calls: seq<Call<T>>, i: nat, j: nat)
    requires i <= |calls|
  {
    j < i && !Hits(calls, j) && forall k: nat | j < k < i :: Hits(calls, k)
  }

  /** The clock never goes back: not within a call, and not between calls. */
  ghost predicate Monotone<T>(calls: seq<Call<T>>) {
    && (forall i | 0 <= i < |calls| :: calls[i].asked <= calls[i].back)
    && (forall i, j | 0 <= i < j < |calls| :: calls[i].back <= calls[j].asked)
  }

  /** The source returns a response or an error, not both. */
  ghost predicate Exclusive<T>(calls: seq<Call<T>>) {
    forall i | 0 <= i < |calls| :: calls[i].answer.resp.None? || calls[i].answer.err.None?
  }

  /** What the cache holds is what the last fetch brought, as of when it was back. */
  lemma {:induction false} HoldsTheLastFetch<T>(calls: seq<Call<T>>)
    ensures Play(calls).held.resp.Some? ==>
      exists j: nat :: LastFetch(calls, |calls|, j) && Play(calls) == Cache(calls[j].back, calls[j].answer)
  {
    if calls != [] {
      var n := |calls| - 1;
      var init := calls[..n];
      HoldsTheLastFetch(init);
      assert forall i: nat | i < n :: calls[..i] == init[..i];
      if !Hits(calls, n) {
        assert LastFetch(calls, |calls|, n);
      } else {
        var j: nat :| LastFetch(init, n, j) && Play(init) == Cache(init[j].back, init[j].answer);
        assert forall k: nat | k < n :: Hits(calls, k) == Hits(init, k);
        assert LastFetch(calls, |calls|, j);
      }
    }
  }

  /** A call that does not fetch is served what the last fetch brought, less than 30 seconds after it
      was back; if the source never returns both, that is never an error. */
  lemma ServedIsFresh<T>(calls: seq<Call<T>>, i: nat)
    requires i < |calls| && Hits(calls, i)
    ensures exists j: nat ::
      (LastFetch(calls, i, j)
       && Served(Play(calls[..i]), calls[i]) == calls[j].answer && calls[j].answer.resp.Some?
       && calls[i].asked - calls[j].back < 30 * SECOND)
    ensures Exclusive(calls) ==> Served(Play(calls[..i]), calls[i]).err.None?
  {
    var init := calls[..i];
    HoldsTheLastFetch(init);
    var j: nat :| LastFetch(init, i, j) && Play(init) == Cache(init[j].back, init[j].answer);
    assert forall k: nat | k < i :: calls[..k] == init[..k];
    assert forall k: nat | k < i :: Hits(calls, k) == Hits(init, k);
    assert LastFetch(calls, i, j);
  }

  /** Whether it fetches or not, every call is served what the last fetch brought, its own included. */
  lemma ServedIsTheLastFetch<T>(calls: seq<Call<T>>, i: nat)
    requires i < |calls|
    ensures exists j: nat :: LastFetch(calls, i + 1, j) && Served(Play(calls[..i]), calls[i]) == calls[j].answer
  {
    hide Play;
    if Hits(calls, i) {
      ServedIsFresh(calls, i);
      var j: nat :| LastFetch(calls, i, j) && Served(Play(calls[..i]), calls[i]) == calls[j].answer;
      assert LastFetch(calls, i + 1, j);
    } else {
      assert LastFetch(calls, i + 1, i);
    }
  }

  /** A call fetches and brings a response. */
  predicate Succeeds<T>(calls: seq<Call<T>>, i: nat)
    requires i < |calls|
  {
    !Hits(calls, i) && calls[i].answer.resp.Some?
  }

  /** Successful fetches are back at least 30 seconds apart, whatever fails in between. */
  lemma SuccessesAreApart<T>(calls: seq<Call<T>>, i: nat, j: nat)
    requires Monotone(calls) && i < j < |calls| && Succeeds(calls, i) && Succeeds(calls, j)
    ensures calls[j].back - calls[i].back >= 30 * SECOND
  {
    FreshUntil(calls, i, j);
  }

  /** After a successful fetch, the cache is left alone or the 30 seconds are over. */
  lemma {:induction false} FreshUntil<T>(calls: seq<Call<T>>, i: nat, n: nat)
    requires Monotone(calls) && i < n < |calls| && Succeeds(calls, i)
    ensures Play(calls[..n]) == Cache(calls[i].back, calls[i].answer) || calls[n].asked - calls[i].back >= TTL
  {
    assert calls[..n][..n - 1] == calls[..n - 1] && calls[..n][n - 1] == calls[n - 1];
    if n > i + 1 {
      FreshUntil(calls, i, n - 1);
      assert calls[n - 1].asked <= calls[n - 1].back <= calls[n].asked;
    }
  }

  /** The successful fetches that are back in [from, to]. */
  ghost function SuccessesIn<T>(calls: seq<Call<T>>, n: nat, from: Time, to: Time): nat
    requires n <= |calls|
  {
    if n == 0 then 0 else
    SuccessesIn(calls, n - 1, from, to)
    + if Succeeds(calls, n - 1) && from <= calls[n - 1].back <= to then 1 else 0
  }

  /** An interval of length T holds at most 1 + T/30s of them. */
  lemma FetchRate<T>(calls: seq<Call<T>>, from: Time, to: Time)
    requires Monotone(calls) && from <= to
    ensures SuccessesIn(calls, |calls|, from, to) <= 1 + (to - from) / (30 * SECOND)
  {
    var count, last := CountApart(calls, |calls|, from, to);
    if count > 0 {
      assert (count - 1) * TTL <= to - from;
    }
  }

  lemma {:induction false} CountApart<T>(calls: seq<Call<T>>, n: nat, from: Time, to: Time)
    returns (count: nat, last: nat)
    requires Monotone(calls) && n <= |calls|
    ensures count == SuccessesIn(calls, n, from, to)
    ensures count > 0 ==>
      (last < n && Succeeds(calls, last) && from <= calls[last].back <= to
       && calls[last].back - from >= (count - 1) * TTL)
  {
    if n == 0 {
      count, last := 0, 0;
    } else {
      count, last := CountApart(calls, n - 1, from, to);
      if Succeeds(calls, n - 1) && from <= calls[n - 1].back <= to {
        if count > 0 { SuccessesAreApart(calls, last, n - 1); }
        count, last := count + 1, n - 1;
      }
    }
  }
}
