/** What the three inspector views show of an engine state, and how they agree. */
module Inspectors {
  import opened Events
  import opened EngineModel
  import EngineTheorems
  import EngineRuns

  // ---- Gates ----

  datatype LayerState = Locked | Active | Passed | Rejected
  datatype CardState = CardLocked | CardActive | CardDone
  datatype MtlsState = MtlsRejected | MtlsDone | MtlsActive | MtlsLocked

  /** The layers view: one state per gate. */
  function StateFor(e: Engine, gate: nat): LayerState {
    if e.status == Failed && gate == 1 then Rejected
    else if e.status == Failed && gate > 1 then Locked
    else if e.completed > gate then Passed
    else if e.stage == gate then Active
    else Locked
  }

  /** The topology view: a card for the workload certificates, the mTLS bracket, and a card and a
      link each for the token, the exchange and the secret. */
  function PortalCard(e: Engine): CardState {
    if e.completed > 0 then CardDone else if e.stage == 0 then CardActive else CardLocked
  }

  function Mtls(e: Engine): MtlsState {
    if e.status == Failed then MtlsRejected
    else if e.completed > 1 then MtlsDone
    else if e.stage == 1 then MtlsActive
    else MtlsLocked
  }

  function Card(reachedAfter: nat, e: Engine, failStage: nat): CardState {
    if e.status == Failed && reachedAfter >= failStage then CardLocked
    else if e.completed > reachedAfter then CardDone
    else if e.stage == reachedAfter then CardActive
    else CardLocked
  }

  function Link(e: Engine, gate: nat): CardState {
    if e.status == Failed then CardLocked
    else if e.completed > gate then CardDone
    else if e.stage == gate then CardActive
    else CardLocked
  }

  function OfCard(c: CardState): LayerState {
    match c
    case CardLocked => Locked
    case CardActive => Active
    case CardDone => Passed
  }

  function OfMtls(m: MtlsState): LayerState {
    match m
    case MtlsRejected => Rejected
    case MtlsDone => Passed
    case MtlsActive => Active
    case MtlsLocked => Locked
  }

  /** The topology view's state of a gate, in the layers view's terms. */
  function TopologyState(e: Engine, gate: nat): LayerState
    requires gate < 5
  {
    if gate == 0 then OfCard(PortalCard(e))
    else if gate == 1 then OfMtls(Mtls(e))
    else OfCard(Card(gate, e, 2))
  }

  /** In every reachable state the two views agree on all five gates, and the links agree with the
      cards; and the gate that is active, if any, has only passed or rejected gates before it and
      only locked or rejected ones after it. */
  lemma GatesAgree(ops: seq<Op>, gate: nat)
    requires gate < 5
    ensures var e := Play(START, ops);
      && StateFor(e, gate) == TopologyState(e, gate)
      && (gate >= 2 ==> Link(e, gate) == Card(gate, e, 2))
      && (StateFor(e, gate) == Active ==> forall g: nat | g < 5 ::
            (g < gate ==> StateFor(e, g) in {Passed, Rejected})
            && (g > gate ==> StateFor(e, g) == Locked || StateFor(e, g) == Rejected))
  {
    hide Play;
    EngineTheorems.StageIsFurthest(ops);
    GatesOf(Play(START, ops), gate);
  }

  lemma GatesOf(e: Engine, gate: nat)
    requires gate < 5
    requires -1 <= e.stage <= 5 && 0 <= e.completed <= 6 && (e.stage >= 0 ==> e.stage == e.completed)
    ensures StateFor(e, gate) == TopologyState(e, gate)
    ensures gate >= 2 ==> Link(e, gate) == Card(gate, e, 2)
    ensures StateFor(e, gate) == Active ==> forall g: nat | g < 5 ::
      (g < gate ==> StateFor(e, g) in {Passed, Rejected})
      && (g > gate ==> StateFor(e, g) == Locked || StateFor(e, g) == Rejected)
  {}

  /** Over every run: with a stage shown, the gates before it are passed, its own is active and the later
      ones are locked; once all is completed every gate is passed; before anything is, none is; and in an
      error state the second gate is rejected and the later ones are locked. */
  lemma GatesShowTheStage(ops: seq<Op>, gate: nat)
    requires gate < 5
    ensures var e := Play(START, ops);
      if e.status == Failed then
        && (gate == 0 ==> (StateFor(e, 0) == Passed <==> e.completed >= 1))
        && (gate >= 1 ==> StateFor(e, gate) == if gate == 1 then Rejected else Locked)
      else
        && (e.stage >= 0 ==> StateFor(e, gate) == if gate < e.stage then Passed else if gate == e.stage then Active else Locked)
        && (e.completed == 6 ==> StateFor(e, gate) == Passed)
        && (e.completed == 0 && e.stage == -1 ==> StateFor(e, gate) == Locked)
  {
    hide Play;
    EngineTheorems.StageIsFurthest(ops);
  }

  /** So the gates of an internal resolve light up in turn, both in the layers and in the topology view, and
      are all passed when the response is in. */
  lemma InternalResolveLightsTheGates(before: seq<Op>, ops: seq<Op>, data: Json, gate: nat)
    requires EngineTheorems.WithinRun(ops) && EngineRuns.Undecided(ops)
    requires EngineTheorems.Mirrored(Play(START, before + [RunOp]), ops)
    requires EngineRuns.InternalEvents(EngineTheorems.EventsOf(ops)) && EngineTheorems.EventsOf(ops) != [] && gate < 5
    ensures var run := before + [RunOp] + ops;
      var stage := EngineRuns.STAGES[|EngineTheorems.EventsOf(ops)| - 1];
      && StateFor(Play(START, run), gate) == TopologyState(Play(START, run), gate)
         == (if gate < stage then Passed else if gate == stage then Active else Locked)
      && StateFor(Play(START, run + [HttpOkOp(data)]), gate) == TopologyState(Play(START, run + [HttpOkOp(data)]), gate) == Passed
  {
    hide Play, TopologyState, StateFor, EngineRuns.InternalEvents;
    var run := before + [RunOp] + ops;
    EngineRuns.InternalResolveStages(before, ops);
    EngineRuns.RunShowsTheStage(before, ops);
    GatesShowTheStage(run, gate);
    GatesAgree(run, gate);
    EngineRuns.OutcomeIsShown(before, ops, "", data);
    EngineRuns.PlayNext(START, run, HttpOkOp(data));
    GatesShowTheStage(run + [HttpOkOp(data)], gate);
    GatesAgree(run + [HttpOkOp(data)], gate);
  }

  // ---- The trace log ----

  datatype Kind = Req | Res
  datatype Row = Row(stage: nat, kind: Kind, isError: bool)

  /** The template of the log; an external resolve's ends with the rejection. */
  function BuildEvents(external: bool): seq<Row> {
    var base := [Row(0, Req, false), Row(0, Res, false), Row(1, Req, false)];
    if external then base + [Row(1, Res, true)]
    else base + [Row(1, Res, false), Row(2, Req, false), Row(2, Res, false), Row(3, Req, false), Row(3, Res, false),
                 Row(4, Req, false), Row(4, Res, false), Row(5, Req, false), Row(5, Res, false)]
  }

  predicate Visible(e: Engine, row: Row) {
    if row.kind == Req then row.stage <= e.completed || e.stage >= row.stage
    else if e.status == Failed && row.isError then true
    else e.completed > row.stage
  }

  function Log(e: Engine, rows: seq<Row>): seq<Row> {
    if rows == [] then [] else
    (if Visible(e, rows[0]) then [rows[0]] else []) + Log(e, rows[1..])
  }

  function Shown(e: Engine, external: bool): seq<Row> {
    Log(e, BuildEvents(external))
  }

  /** How many rows a completion shows: the request of the stage reached, and both rows of each
      stage before it. */
  function Length(completed: int, external: bool): nat
    requires 0 <= completed <= 6
  {
    var n, all := 2 * completed + 1, |BuildEvents(external)|;
    if n > all then all else n
  }

  /** Row `i` of the template belongs to stage i / 2. */
  lemma RowAt(external: bool, i: nat)
    requires i < |BuildEvents(external)|
    ensures BuildEvents(external)[i] == Row(i / 2, if i % 2 == 0 then Req else Res, external && i == 3)
  {}

  lemma {:induction false} LogOfPrefix(e: Engine, rows: seq<Row>, n: nat)
    requires n <= |rows|
    requires forall i | 0 <= i < |rows| :: Visible(e, rows[i]) <==> i < n
    ensures Log(e, rows) == rows[..n]
  {
    if rows != [] {
      var m := if n == 0 then 0 else n - 1;
      forall i | 0 <= i < |rows[1..]| ensures Visible(e, rows[1..][i]) <==> i < m {
        assert rows[1..][i] == rows[i + 1];
      }
      LogOfPrefix(e, rows[1..], m);
      if n > 0 { assert rows[..n] == [rows[0]] + rows[1..][..m]; }
    }
  }

  /** In every reachable state without an error, the log is the first rows of the template, as many
      as the completion says. */
  lemma LogIsAPrefix(ops: seq<Op>, external: bool)
    requires Play(START, ops).status != Failed
    ensures var e := Play(START, ops);
      0 <= e.completed <= 6 && Shown(e, external) == BuildEvents(external)[..Length(e.completed, external)]
  {
    var e, rows := Play(START, ops), BuildEvents(external);
    EngineTheorems.StageIsFurthest(ops);
    forall i | 0 <= i < |rows| ensures Visible(e, rows[i]) <==> i < Length(e.completed, external) {
      RowAt(external, i);
    }
    LogOfPrefix(e, rows, Length(e.completed, external));
  }

  /** Within one run, with the mirror committed before each delivery, the log only grows. */
  lemma LogOnlyGrows(before: seq<Op>, ops: seq<Op>, external: bool)
    requires EngineTheorems.Mirrored(START, before + ops) && EngineTheorems.WithinRun(ops)
    requires Play(START, before).status != Failed && Play(START, before + ops).status != Failed
    ensures Shown(Play(START, before), external) <= Shown(Play(START, before + ops), external)
  {
    LogIsAPrefix(before, external);
    LogIsAPrefix(before + ops, external);
    EngineTheorems.CompletionNeverRewinds(before, ops);
  }

  /** In an error state the internal log is a prefix too; the external one, which shows the rejection
      at once, is a prefix exactly if the attestation stage was completed. */
  lemma ErrorLogIsAPrefixIff(ops: seq<Op>, external: bool)
    requires Play(START, ops).status == Failed
    ensures var e := Play(START, ops);
      Shown(e, external) <= BuildEvents(external) <==> !external || e.completed >= 1
  {
    var e, rows := Play(START, ops), BuildEvents(external);
    EngineTheorems.StageIsFurthest(ops);
    if !external {
      forall i | 0 <= i < |rows| ensures Visible(e, rows[i]) <==> i < Length(e.completed, false) {
        RowAt(false, i);
      }
      LogOfPrefix(e, rows, Length(e.completed, false));
    } else if e.completed >= 1 {
      LogOfPrefix(e, rows, 4);
    } else {
      RejectedLog(e);
      assert Shown(e, true)[1] != rows[1];
    }
  }

  /** Nothing completed: the rejection follows the first request, out of the template's order. */
  lemma RejectedLog(e: Engine)
    requires e.status == Failed && e.completed == 0 && e.stage <= 0
    ensures Shown(e, true) == [Row(0, Req, false), Row(1, Res, true)]
  {
    var a, b, c, d := Row(0, Req, false), Row(0, Res, false), Row(1, Req, false), Row(1, Res, true);
    LogCons(e, a, [b, c, d]);
    LogCons(e, b, [c, d]);
    LogCons(e, c, [d]);
    LogCons(e, d, []);
    assert BuildEvents(true) == [a] + [b, c, d] && [b, c, d] == [b] + [c, d] && [c, d] == [c] + [d] && [d] == [d] + [];
  }

  lemma LogCons(e: Engine, row: Row, rest: seq<Row>)
    ensures Log(e, [row] + rest) == (if Visible(e, row) then [row] else []) + Log(e, rest)
  {
    assert ([row] + rest)[1..] == rest;
  }
}
