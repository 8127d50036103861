/** Logs from which some entries have been lost: the common vocabulary in which the pace
    queue and the trace bus state what they kept and what they dropped. */
module Logs {

  /** The entries of `log` whose index is not in `lost`, in log order. */
  ghost function Kept<T>(log: seq<T>, lost: set<nat>): seq<T> {
    if log == [] then [] else
    var n: nat := |log| - 1;
    Kept(log[..n], lost) + if n in lost then [] else [log[n]]
  }

  /** The indices from `lo` up to, but not including, `hi`. */
  function Range(lo: nat, hi: nat): (r: set<nat>)
    ensures forall i :: i in r <==> lo <= i < hi
  {
    if hi <= lo then {} else Range(lo, hi - 1) + {hi - 1}
  }

  lemma KeptAppend<T>(log: seq<T>, x: T, lost: set<nat>)
    ensures Kept(log + [x], lost) == Kept(log, lost) + if |log| in lost then [] else [x]
  {
    assert (log + [x])[..|log|] == log;
  }

  lemma {:induction false} KeptLocal<T>(log: seq<T>, a: set<nat>, b: set<nat>)
    requires forall i: nat | i < |log| :: i in a <==> i in b
    ensures Kept(log, a) == Kept(log, b)
  {
    if log != [] {
      KeptLocal(log[..|log| - 1], a, b);
    }
  }

  /** What is kept of a log splits at any index that no loss lies beyond. */
  lemma {:induction false} KeptSplit<T>(log: seq<T>, lost: set<nat>, m: nat)
    requires m <= |log|
    requires forall i | i in lost :: i < m
    ensures Kept(log, lost) == Kept(log[..m], lost) + log[m..]
  {
    if |log| == m {
      assert log[..m] == log;
    } else {
      var n := |log| - 1;
      KeptSplit(log[..n], lost, m);
      assert log[..n][..m] == log[..m];
      assert log[m..] == log[..n][m..] + [log[n]];
    }
  }

  lemma KeptAll<T>(log: seq<T>)
    ensures Kept(log, {}) == log
  {
    KeptSplit(log, {}, 0);
  }

  /** Losing everything from index `m` on leaves what was kept of the first `m` entries. */
  lemma {:induction false} KeptDropSuffix<T>(log: seq<T>, lost: set<nat>, m: nat)
    requires m <= |log|
    ensures Kept(log, lost + Range(m, |log|)) == Kept(log[..m], lost)
  {
    if |log| == m {
      assert log[..m] == log;
      KeptLocal(log, lost + Range(m, |log|), lost);
    } else {
      var n: nat := |log| - 1;
      KeptDropSuffix(log[..n], lost, m);
      KeptLocal(log[..n], lost + Range(m, |log|), lost + Range(m, n));
      assert log[..n][..m] == log[..m];
    }
  }

  /** Every entry is kept or lost. */
  lemma {:induction false} KeptCount<T>(log: seq<T>, lost: set<nat>)
    requires forall i | i in lost :: i < |log|
    ensures |Kept(log, lost)| + |lost| == |log|
  {
    if log == [] {
      assert lost == {};
    } else {
      var n: nat := |log| - 1;
      KeptCount(log[..n], lost - {n});
      KeptLocal(log[..n], lost - {n}, lost);
    }
  }

  /** `part` can be obtained from `whole` by deleting entries: an increasing choice of indices. */
  ghost predicate IsSubsequence<T>(part: seq<T>, whole: seq<T>) {
    exists at: seq<nat> :: Picks(at, part, whole)
  }

  ghost predicate Picks<T>(at: seq<nat>, part: seq<T>, whole: seq<T>) {
    && |at| == |part|
    && (forall i | 0 <= i < |at| :: at[i] < |whole| && whole[at[i]] == part[i])
    && (forall i, j | 0 <= i < j < |at| :: at[i] < at[j])
  }

  lemma KeptIsSubsequence<T>(log: seq<T>, lost: set<nat>)
    ensures IsSubsequence(Kept(log, lost), log)
  {
    var at := KeptPicks(log, lost);
  }

  lemma {:induction false} KeptPicks<T>(log: seq<T>, lost: set<nat>) returns (at: seq<nat>)
    ensures Picks(at, Kept(log, lost), log)
  {
    if log == [] {
      at := [];
    } else {
      var n: nat := |log| - 1;
      hide Picks;
      at := KeptPicks(log[..n], lost);
      PicksLonger(at, Kept(log[..n], lost), log);
      if n !in lost { at := at + [n]; }
    }
  }

  lemma PicksLonger<T>(at: seq<nat>, part: seq<T>, whole: seq<T>)
    requires whole != [] && Picks(at, part, whole[..|whole| - 1])
    ensures Picks(at, part + [], whole)
    ensures Picks(at + [|whole| - 1], part + [whole[|whole| - 1]], whole)
  {}
}
