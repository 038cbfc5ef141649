/** When the gateway cancel overtakes the order, the loop frees the cancelled quantity at
    once but the ledger keeps it active until the cancel takes effect: a two-step run then
    fails the reconstruction. */
module LateCancels {
  import opened Wrappers
  import opened Venue
  import opened Latency
  import opened ExecutionMachine
  import opened StrategyLedger
  import opened StrategySteps
  import opened OrderLives
  import opened Finalization
  import opened LedgerAgreement

  const NOTHING: State :=
    State(0, [], 0, {}, [], 0, map[], [], [], [], [], map[], 0, [], [], [], [])

  /** The execution agent sends through a venue profile with an automatic cancel interval. */
  predicate Sends(cfg: Config, decisionMs: nat, profile: ProfileName, cancelAfterMs: nat) {
    cfg.WellFormed() && cfg.agents[cfg.execution] == AgentConfig(ProfileFor(decisionMs, profile), cancelAfterMs)
  }

  /** Such an agent on the slow profile, and a parent of at least one lot. */
  predicate Overtaken(cfg: Config, decisionMs: nat, cancelAfterMs: nat) {
    Sends(cfg, decisionMs, High, cancelAfterMs) && cancelAfterMs < MESSAGE_STEP_MS && cfg.lot <= cfg.target
  }

  function Lots(cfg: Config): nat
    requires cfg.WellFormed()
  {
    (cfg.target / cfg.lot) * cfg.lot
  }

  lemma LotsAreMostOfIt(cfg: Config)
    requires cfg.WellFormed() && cfg.lot <= cfg.target
    ensures 0 < Lots(cfg) <= cfg.target < 2 * Lots(cfg)
  {
    assert cfg.target == cfg.lot * (cfg.target / cfg.lot) + cfg.target % cfg.lot;
    OneLotFits(cfg.lot, cfg.target / cfg.lot);
  }

  lemma OneLotFits(lot: nat, lots: nat)
    requires 0 < lots
    ensures lot <= lot * lots
  {
  }

  function Request(cfg: Config, id: OrderId, step: nat): Event
    requires cfg.WellFormed()
  {
    var order := Order(id, cfg.execution, cfg.symbol, cfg.side, Market, Lots(cfg), Lots(cfg), step);
    ScheduleChild(order, cfg.target, Rejected)
  }

  /** The agent asks for the whole parent at each of the first two steps. */
  function TwoRequests(cfg: Config): seq<Event>
    requires cfg.WellFormed()
  {
    [Request(cfg, "child-0", 0), EndStep, Request(cfg, "child-1", 1), EndStep]
  }

  /** The state after a request that the gateway cancelled. */
  function AfterRequest(cfg: Config, s: State, id: OrderId): State
    requires cfg.WellFormed()
  {
    s.(orderLog := s.orderLog + [OrderRow(id, cfg.execution, Lots(cfg), s.clock, None, Some(false))],
       cancelLog := s.cancelLog + [CancelRow(id, cfg.execution, Lots(cfg), GatewayCancelStep(cfg, s, cfg.execution))])
  }

  /** Nothing of the agent is queued, resting or filled, so the whole parent is available again. */
  predicate Idle(s: State) {
    s.pending == [] && s.book == [] && s.tradeLog == [] && s.executed == 0
  }

  lemma RequestIsCancelled(cfg: Config, s: State, id: OrderId, decisionMs: nat, cancelAfterMs: nat)
    requires Overtaken(cfg, decisionMs, cancelAfterMs) && Idle(s) && DistinctIds(s.orderLog)
    requires forall i :: 0 <= i < |s.orderLog| ==> s.orderLog[i].id != id
    ensures Enabled(cfg, s, Request(cfg, id, s.clock))
    ensures Apply(cfg, s, Request(cfg, id, s.clock)) == AfterRequest(cfg, s, id)
    ensures s.clock + 2 <= GatewayCancelStep(cfg, s, cfg.execution)
  {
    LotsAreMostOfIt(cfg);
    var order := Request(cfg, id, s.clock).order;
    assert order.id !in LogIds(s.orderLog);
    assert Child(cfg, s, order, cfg.target) == Some(order) by {
      assert ActiveQuantity(cfg, s) == 0;
    }
    var row := OrderRow(id, cfg.execution, Lots(cfg), s.clock, None, None);
    AppendedRowResolves(s.orderLog, row);
  }

  lemma {:induction false} AppendedRowResolves(log: seq<OrderRow>, row: OrderRow)
    requires forall i :: 0 <= i < |log| ==> log[i].id != row.id
    ensures Resolve(log + [row], row.id, None, false) == log + [row.(arrivalStep := None, accepted := Some(false))]
  {
    if log != [] {
      assert (log + [row])[1..] == log[1..] + [row];
      AppendedRowResolves(log[1..], row);
    }
  }

  lemma IdleCloses(cfg: Config, s: State)
    requires cfg.WellFormed() && Idle(s)
    ensures Enabled(cfg, s, EndStep) && Idle(StepClosed(cfg, s))
  {
  }

  /** The final state of the two-step run. */
  function Ruined(cfg: Config): State
    requires cfg.WellFormed()
  {
    StepClosed(cfg, AfterRequest(cfg, StepClosed(cfg, AfterRequest(cfg, NOTHING, "child-0")), "child-1"))
  }

  /** A run that left the agent idle can go on with one more request and the end of its step. */
  lemma OneMoreRequest(cfg: Config, events: seq<Event>, s: State, id: OrderId, decisionMs: nat, cancelAfterMs: nat)
    requires Overtaken(cfg, decisionMs, cancelAfterMs) && Run(cfg, NOTHING, events, s)
    requires Idle(s) && DistinctIds(s.orderLog) && forall i :: 0 <= i < |s.orderLog| ==> s.orderLog[i].id != id
    ensures Run(cfg, NOTHING, events + [Request(cfg, id, s.clock), EndStep], StepClosed(cfg, AfterRequest(cfg, s, id)))
    ensures Idle(StepClosed(cfg, AfterRequest(cfg, s, id)))
    ensures s.clock + 2 <= GatewayCancelStep(cfg, s, cfg.execution)
  {
    var requested := AfterRequest(cfg, s, id);
    RequestIsCancelled(cfg, s, id, decisionMs, cancelAfterMs);
    RunSnoc(cfg, NOTHING, events, s, Request(cfg, id, s.clock));
    IdleCloses(cfg, requested);
    RunSnoc(cfg, NOTHING, events + [Request(cfg, id, s.clock)], requested, EndStep);
    assert events + [Request(cfg, id, s.clock)] + [EndStep] == events + [Request(cfg, id, s.clock), EndStep];
  }

  lemma TwoRequestsRun(cfg: Config, decisionMs: nat, cancelAfterMs: nat)
    requires Overtaken(cfg, decisionMs, cancelAfterMs)
    ensures Run(cfg, NOTHING, TwoRequests(cfg), Ruined(cfg))
    ensures 2 <= GatewayCancelStep(cfg, NOTHING, cfg.execution)
    ensures 2 <= GatewayCancelStep(cfg, StepClosed(cfg, AfterRequest(cfg, NOTHING, "child-0")), cfg.execution)
  {
    var first := [Request(cfg, "child-0", 0), EndStep];
    OneMoreRequest(cfg, [], NOTHING, "child-0", decisionMs, cancelAfterMs);
    assert [] + first == first;
    OneMoreRequest(cfg, first, StepClosed(cfg, AfterRequest(cfg, NOTHING, "child-0")), "child-1",
                   decisionMs, cancelAfterMs);
    assert first + [Request(cfg, "child-1", 1), EndStep] == TwoRequests(cfg);
  }

  lemma RuinedLogs(cfg: Config, arrivalPrice: nat, decisionMs: nat, cancelAfterMs: nat)
    requires Overtaken(cfg, decisionMs, cancelAfterMs)
    ensures var logs := Finalized(cfg, Ruined(cfg), arrivalPrice, map[]);
            ActiveBefore(logs, 2) == 2 * Lots(cfg) && FilledBefore(logs, 2) == 0 && !InOrderBefore(logs, 2)
  {
    TwoRequestsRun(cfg, decisionMs, cancelAfterMs);
    LotsAreMostOfIt(cfg);
    var s := Ruined(cfg);
    var g0 := GatewayCancelStep(cfg, NOTHING, cfg.execution);
    var g1 := GatewayCancelStep(cfg, StepClosed(cfg, AfterRequest(cfg, NOTHING, "child-0")), cfg.execution);
    var q := Lots(cfg);
    var log, cancels := s.orderLog, s.cancelLog;
    assert log == [OrderRow("child-0", cfg.execution, q, 0, None, Some(false)),
                   OrderRow("child-1", cfg.execution, q, 1, None, Some(false))];
    assert cancels == [CancelRow("child-0", cfg.execution, q, g0), CancelRow("child-1", cfg.execution, q, g1)];
    TwoRowsInLedger(DeskOf(s), cancels, cfg.execution, q, log[0], log[1]);
    LateCancelsDoNotCount(cancels, cfg.execution, 2);
    TooActive(Finalized(cfg, s, arrivalPrice, map[]));
  }

  lemma TwoRowsInLedger(d: Desk, cancels: seq<CancelRow>, agent: AgentId, quantity: nat, first: OrderRow,
                        second: OrderRow)
    requires first.agent == second.agent == agent && first.quantity == second.quantity == quantity
    requires first.submittedStep == 0 && second.submittedStep == 1
    requires first.arrivalStep.None? && second.arrivalStep.None?
    ensures var orders := FinalRows(d, cancels, [first, second]);
            Outstanding(orders, agent, 2) == 2 * quantity
  {
    var a, b := FinalRow(d, cancels, first), FinalRow(d, cancels, second);
    assert [first, second][..1] == [first] && [first][..0] == [];
    assert FinalRows(d, cancels, [first]) == [] + [a];
    assert FinalRows(d, cancels, [first, second]) == [] + [a] + [b];
    OutstandingNext([], a, agent, 2);
    OutstandingNext([] + [a], b, agent, 2);
  }

  lemma {:induction false} LateCancelsDoNotCount(cancels: seq<CancelRow>, agent: AgentId, bound: nat)
    requires forall c :: c in cancels ==> bound <= c.effectiveStep
    ensures AllBefore(CancelledEntries(FinalCancels(cancels), agent), bound) == 0
  {
    if cancels != [] {
      var front, last := cancels[..|cancels| - 1], cancels[|cancels| - 1];
      LateCancelsDoNotCount(front, agent, bound);
      assert last in cancels;
      var row := LedgerCancel(last.id, last.agent, last.quantity, last.effectiveStep);
      assert (FinalCancels(front) + [row])[..|FinalCancels(front)|] == FinalCancels(front);
      Appended(CancelledEntries(FinalCancels(cancels), agent), CancelledEntries(FinalCancels(front), agent),
               CancelledEntry(row, agent), "", bound);
    }
  }

  lemma TooActive(logs: Logs)
    requires logs.target < ActiveBefore(logs, 2) && FilledBefore(logs, 2) == 0
    ensures !InOrderBefore(logs, 2)
  {
    assert !StepInOrder(logs, 1);
  }

  /** The reconstruction of the two-step run aborts at its second step. */
  lemma LateCancelBreaksLedger(cfg: Config, decisionMs: nat, cancelAfterMs: nat, arrivalPrice: nat)
    requires Overtaken(cfg, decisionMs, cancelAfterMs)
    ensures Finished(cfg, NOTHING, TwoRequests(cfg), Ruined(cfg)) && Ruined(cfg).clock == 2
    ensures !InOrderBefore(Finalized(cfg, Ruined(cfg), arrivalPrice, map[]), 2)
  {
    TwoRequestsRun(cfg, decisionMs, cancelAfterMs);
    StartsFromNothing(cfg);
    RuinedLogs(cfg, arrivalPrice, decisionMs, cancelAfterMs);
  }

  lemma StartsFromNothing(cfg: Config)
    ensures Initial(cfg, NOTHING)
  {
  }

  /** Every finished run, however much of the inventory was collected, can be rebuilt. */
  ghost predicate AlwaysRebuilds(cfg: Config, arrivalPrice: nat)
    requires cfg.WellFormed()
  {
    forall s0: State, events: seq<Event>, s: State, inventory: map<nat, int> ::
      Finished(cfg, s0, events, s) && CollectedFrom(inventory, s.snapshots) ==>
        InOrderBefore(Finalized(cfg, s, arrivalPrice, inventory), s.clock)
  }

  /** The reconstruction agrees with every run exactly when no gateway cancel can overtake its
      order: unless the venue is slow and the cancel interval shorter than a step. */
  lemma RebuildsUnlessOvertaken(cfg: Config, decisionMs: nat, profile: ProfileName, cancelAfterMs: nat,
                                arrivalPrice: nat)
    requires Sends(cfg, decisionMs, profile, cancelAfterMs) && cfg.lot <= cfg.target
    ensures AlwaysRebuilds(cfg, arrivalPrice) <==> !(profile == High && cancelAfterMs < MESSAGE_STEP_MS)
  {
    OvertakingProfiles(decisionMs, profile, cancelAfterMs);
    if profile == High && cancelAfterMs < MESSAGE_STEP_MS {
      LateCancelBreaksLedger(cfg, decisionMs, cancelAfterMs, arrivalPrice);
      assert CollectedFrom(map[], Ruined(cfg).snapshots);
    } else {
      forall s0: State, events: seq<Event>, s: State, inventory: map<nat, int>
        | Finished(cfg, s0, events, s) && CollectedFrom(inventory, s.snapshots)
        ensures InOrderBefore(Finalized(cfg, s, arrivalPrice, inventory), s.clock)
      {
        LedgerMatchesRun(cfg, s0, events, s, arrivalPrice, inventory);
      }
    }
  }
}
