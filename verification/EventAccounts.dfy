/** Every event of the loop keeps the order accounting of the execution agent and leaves the
    accounting of closed steps as it was. */
module EventAccounts {
  import opened Wrappers
  import opened Venue
  import opened Latency
  import opened ExecutionMachine
  import opened StepChecks
  import opened StrategyLedger
  import opened OrderLives
  import opened DeskMoves

  // ----- events keep the order accounting

  predicate ForeignCancels(cfg: Config, pending: seq<Message>, cancelLog: seq<CancelRow>, log: seq<OrderRow>) {
    && (forall m :: m in pending && m.body.Cancellation? ==> m.body.agent != cfg.execution)
    && (forall c :: c in cancelLog ==> c.agent != cfg.execution && Filed(log, c.id, c.agent))
  }

  ghost predicate Accounted(cfg: Config, s: State) {
    InOrder(DeskOf(s), cfg.execution) && ForeignCancels(cfg, s.pending, s.cancelLog, s.orderLog)
  }

  lemma SubmittedIsAnswered(cfg: Config, s: State, order: Order, response: Response)
    requires Accepts(cfg, s, order, response)
    ensures DeskOf(Submitted(cfg, s, order, response)) == Answered(DeskOf(s), order, response)
    ensures Submitted(cfg, s, order, response).cancelLog == s.cancelLog
  {
    assert s.tradeLog + [] == s.tradeLog;
  }

  lemma ResolvedStaysForeign(cfg: Config, pending: seq<Message>, cancels: seq<CancelRow>, log: seq<OrderRow>,
                             id: OrderId, arrival: Option<nat>, accepted: bool)
    requires ForeignCancels(cfg, pending, cancels, log) && DistinctIds(log)
    ensures ForeignCancels(cfg, pending, cancels, Resolve(log, id, arrival, accepted))
  {
    ResolveOneRow(log, id, arrival, accepted);
    forall c | c in cancels
      ensures Filed(Resolve(log, id, arrival, accepted), c.id, c.agent)
    {
      SameRowsFile(log, Resolve(log, id, arrival, accepted), c.id, c.agent);
    }
  }

  /** A submission from a desk on which the order's row awaits its answer. */
  lemma SubmissionKeepsAccounts(cfg: Config, s: State, order: Order, response: Response)
    requires Accepts(cfg, s, order, response) && Awaiting(DeskOf(s), cfg.execution, order)
    requires ForeignCancels(cfg, s.pending, s.cancelLog, s.orderLog)
    requires NoSelfTrades(Submitted(cfg, s, order, response).tradeLog, cfg.execution)
    ensures var s' := Submitted(cfg, s, order, response);
            Accounted(cfg, s') && ClosedStepsKept(DeskOf(s), DeskOf(s'), cfg.execution)
  {
    var trades := TradesAfter(s.book, order, response, s.clock);
    SubmittedIsAnswered(cfg, s, order, response);
    assert NoSelfTrades(trades, cfg.execution) by {
      forall t | t in trades
        ensures !(t.makerAgent == cfg.execution && t.takerAgent == cfg.execution)
      {
        assert t in s.tradeLog + trades;
      }
    }
    AnswerKeepsOrder(DeskOf(s), cfg.execution, order, response);
    ResolvedStaysForeign(cfg, s.pending, s.cancelLog, s.orderLog, order.id, Some(s.clock), response.Accepted?);
  }

  lemma LongerLogStaysForeign(cfg: Config, s: State, order: Order)
    requires ForeignCancels(cfg, s.pending, s.cancelLog, s.orderLog)
    ensures ForeignCancels(cfg, s.pending, s.cancelLog, s.orderLog + [RowFor(order)])
  {
    forall c | c in s.cancelLog
      ensures Filed(s.orderLog + [RowFor(order)], c.id, c.agent)
    {
      LongerLogFilesOne(s.orderLog, RowFor(order), c.id, c.agent);
    }
  }

  lemma FreshIsUnfiled(s: State, order: Order)
    requires 0 < order.quantity == order.remaining && order.submittedStep == s.clock && order.id !in LogIds(s.orderLog)
    ensures Unfiled(DeskOf(s), order)
  {
    forall i | 0 <= i < |s.orderLog|
      ensures s.orderLog[i].id != order.id
    {
      assert s.orderLog[i].id in LogIds(s.orderLog);
    }
  }

  lemma RecordingKeepsAccounts(cfg: Config, s: State, order: Order)
    requires Accounted(cfg, s) && Fresh(s, order)
    ensures var s' := Recorded(s, order);
            && Awaiting(DeskOf(s'), cfg.execution, order) && ForeignCancels(cfg, s'.pending, s'.cancelLog, s'.orderLog)
            && ClosedStepsKept(DeskOf(s), DeskOf(s'), cfg.execution)
  {
    FreshIsUnfiled(s, order);
    RecordingAwaits(DeskOf(s), cfg.execution, order);
    LongerLogStaysForeign(cfg, s, order);
    assert DeskOf(Recorded(s, order)) == RecordedDesk(DeskOf(s), order);
  }

  lemma GatewayKeepsAccounts(cfg: Config, s: State, order: Order, cancel: CancelRow)
    requires Awaiting(DeskOf(s), cfg.execution, order) && ForeignCancels(cfg, s.pending, s.cancelLog, s.orderLog)
    requires order.agent != cfg.execution && cancel.agent == order.agent && cancel.id == order.id
    ensures var s' := s.(orderLog := Resolve(s.orderLog, order.id, None, false), cancelLog := s.cancelLog + [cancel]);
            Accounted(cfg, s') && ClosedStepsKept(DeskOf(s), DeskOf(s'), cfg.execution)
  {
    ForeignResolveKeepsOrder(DeskOf(s), cfg.execution, order);
    ResolvedStaysForeign(cfg, s.pending, s.cancelLog, s.orderLog, order.id, None, false);
    var k :| AwaitingAt(DeskOf(s), cfg.execution, order, k);
    assert Filed(s.orderLog, order.id, order.agent);
    ResolveOneRow(s.orderLog, order.id, None, false);
    SameRowsFile(s.orderLog, Resolve(s.orderLog, order.id, None, false), order.id, order.agent);
  }

  lemma QueueingKeepsAccounts(cfg: Config, s: State, order: Order, step: nat, timeMs: nat)
    requires Awaiting(DeskOf(s), cfg.execution, order) && ForeignCancels(cfg, s.pending, s.cancelLog, s.orderLog)
    requires 0 < order.remaining
    ensures var s' := Pushed(s, step, timeMs, Arrival(order));
            Accounted(cfg, s') && ClosedStepsKept(DeskOf(s), DeskOf(s'), cfg.execution)
  {
    var m := Message(step, timeMs, s.sequence + 1, Arrival(order));
    QueueingKeepsOrder(DeskOf(s), cfg.execution, m, order);
    InsertedOrOld(s.pending, m);
    assert DeskOf(Pushed(s, step, timeMs, Arrival(order))) == QueuedDesk(DeskOf(s), m);
  }

  lemma {:induction false} InsertedOrOld(pending: seq<Message>, m: Message)
    ensures forall x :: x in Insert(pending, m) ==> x == m || x in pending
  {
    if pending != [] && !Before(m, pending[0]) {
      InsertedOrOld(pending[1..], m);
    }
  }

  lemma DispatchKeepsAccounts(cfg: Config, s: State, order: Order, response: Response)
    requires order.agent in cfg.agents && Accepts(cfg, s, order, response)
    requires Accounted(cfg, s) && Fresh(s, order)
    requires order.agent == cfg.execution ==> !CancelledInTransit(cfg, cfg.execution)
    requires NoSelfTrades(Dispatched(cfg, s, order, response).tradeLog, cfg.execution)
    ensures var s' := Dispatched(cfg, s, order, response);
            Accounted(cfg, s') && ClosedStepsKept(DeskOf(s), DeskOf(s'), cfg.execution)
  {
    var timing := Timing(s.clock, cfg.agents[order.agent].latency);
    var recorded := Recorded(s, order);
    var sent := recorded.(dispatched := s.dispatched + [Ticket(order.agent, order.id)]);
    var reached := sent.(reached := s.reached + [Ticket(order.agent, order.id)]);
    var s' := Dispatched(cfg, s, order, response);
    RecordingKeepsAccounts(cfg, s, order);
    assert DeskOf(sent) == DeskOf(recorded) == DeskOf(reached);
    if CancelledInTransit(cfg, order.agent) {
      GatewayKeepsAccounts(cfg, recorded, order, CancelRow(order.id, order.agent, order.remaining,
                                                           GatewayCancelStep(cfg, s, order.agent)));
    } else if ReachesAtOnce(cfg, s, order.agent) {
      SubmissionKeepsAccounts(cfg, reached, order, response);
    } else {
      QueueingKeepsAccounts(cfg, sent, order, timing.arrivalStep, timing.arrivalMs);
    }
    KeptTwice(DeskOf(s), DeskOf(recorded), DeskOf(s'), cfg.execution);
  }

  lemma CancelKeepsAccounts(cfg: Config, s: State, id: OrderId, agent: AgentId, effectiveStep: nat)
    requires Accounted(cfg, s) && agent != cfg.execution
    ensures var s' := CancelApplied(s, id, agent, effectiveStep);
            Accounted(cfg, s') && ClosedStepsKept(DeskOf(s), DeskOf(s'), cfg.execution)
  {
    var found := Find(s.book, id);
    if found.Some? && found.value.agent == agent {
      RemovalKeepsOrder(DeskOf(s), cfg.execution, id);
      FindIsInBook(s.book, id);
      FindHasId(s.book, id);
      assert Filed(s.orderLog, id, agent);
    }
  }

  lemma DeliveryKeepsAccounts(cfg: Config, s: State, response: Response)
    requires cfg.WellFormed() && Enabled(cfg, s, DeliverNext(response)) && Accounted(cfg, s)
    requires NoSelfTrades(Delivered(cfg, s, response).tradeLog, cfg.execution)
    ensures var s' := Delivered(cfg, s, response);
            Accounted(cfg, s') && ClosedStepsKept(DeskOf(s), DeskOf(s'), cfg.execution)
  {
    var m := s.pending[0];
    var popped := s.(pending := s.pending[1..], delivered := s.delivered + [Delivery(m, s.clock)]);
    assert DeskOf(popped) == PoppedDesk(DeskOf(s));
    assert m in s.pending && forall x :: x in popped.pending ==> x in s.pending;
    match m.body
    case Arrival(order) =>
      var landed := popped.(reached := s.reached + [Ticket(order.agent, order.id)]);
      PoppingAwaits(DeskOf(s), cfg.execution);
      SubmissionKeepsAccounts(cfg, landed, order, response);
      KeptTwice(DeskOf(s), DeskOf(landed), DeskOf(Delivered(cfg, s, response)), cfg.execution);
    case Cancellation(id, agent) =>
      var settled := popped.(pendingCancelIds := s.pendingCancelIds - {id});
      PoppingCancelKeepsOrder(DeskOf(s), cfg.execution);
      CancelKeepsAccounts(cfg, settled, id, agent, m.step);
      KeptTwice(DeskOf(s), DeskOf(settled), DeskOf(Delivered(cfg, s, response)), cfg.execution);
  }

  lemma CancelRequestKeepsAccounts(cfg: Config, s: State, agent: AgentId, id: OrderId)
    requires agent in cfg.agents && agent != cfg.execution && Accounted(cfg, s)
    ensures var s' := CancelRequested(cfg, s, agent, id);
            Accounted(cfg, s') && ClosedStepsKept(DeskOf(s), DeskOf(s'), cfg.execution)
  {
    var effectiveMs := s.clock * MESSAGE_STEP_MS + cfg.agents[agent].latency.cancelMs;
    var effectiveStep := effectiveMs / MESSAGE_STEP_MS;
    if effectiveStep <= s.clock {
      CancelKeepsAccounts(cfg, s, id, agent, effectiveStep);
    } else {
      var m := Message(effectiveStep, effectiveMs, s.sequence + 1, Cancellation(id, agent));
      QueueingCancelKeepsOrder(DeskOf(s), cfg.execution, m);
      InsertedOrOld(s.pending, m);
    }
  }

  lemma EventKeepsAccounts(cfg: Config, s: State, e: Event)
    requires cfg.WellFormed() && Enabled(cfg, s, e) && Accounted(cfg, s) && !CancelledInTransit(cfg, cfg.execution)
    requires NoSelfTrades(Apply(cfg, s, e).tradeLog, cfg.execution)
    ensures Accounted(cfg, Apply(cfg, s, e))
    ensures ClosedStepsKept(DeskOf(s), DeskOf(Apply(cfg, s, e)), cfg.execution)
  {
    match e
    case RefreshVolume(_) =>
    case DeliverNext(response) => DeliveryKeepsAccounts(cfg, s, response);
    case DirectSubmit(order, response) =>
      RecordingKeepsAccounts(cfg, s, order);
      SubmissionKeepsAccounts(cfg, Recorded(s, order), order, response);
      KeptTwice(DeskOf(s), DeskOf(Recorded(s, order)), DeskOf(Apply(cfg, s, e)), cfg.execution);
    case DirectCancel(agent, id) => CancelKeepsAccounts(cfg, s, id, agent, s.clock);
    case RequestCancel(agent, id) => CancelRequestKeepsAccounts(cfg, s, agent, id);
    case Schedule(order, response) =>
      if Normalized(cfg, order).Some? { DispatchKeepsAccounts(cfg, s, Normalized(cfg, order).value, response); }
    case ScheduleChild(order, adjusted, response) =>
      if Child(cfg, s, order, adjusted).Some? {
        DispatchKeepsAccounts(cfg, s, Child(cfg, s, order, adjusted).value, response);
      }
    case EndStep => TickKeepsOrder(DeskOf(s), cfg.execution);
  }
}
