/** The parent order is never over-committed and a step never trades more than its
    budget, in every state any run can reach. */
module ParentCapacity {
  import opened Wrappers
  import opened Venue
  import opened Latency
  import opened ExecutionMachine

  /** Filled, queued and resting quantity of the execution agent stay within the parent. */
  ghost predicate WithinParent(cfg: Config, s: State) {
    && s.executed == FilledFor(s.tradeLog, cfg.execution)
    && s.executed + ActiveQuantity(cfg, s) <= cfg.target
  }

  /** What a symbol traded since the last refresh and what is left make up its budget. */
  ghost predicate WithinBudget(cfg: Config, s: State) {
    && s.refreshedAt <= |s.tradeLog|
    && s.volumeLeft.Keys == s.budgets.Keys
    && (cfg.volumeLimiting ==>
          && (forall symbol :: symbol in s.budgets ==>
                s.volumeLeft[symbol] + TradedIn(s.tradeLog[s.refreshedAt..], symbol) == s.budgets[symbol])
          && (forall symbol :: symbol !in s.budgets ==> TradedIn(s.tradeLog[s.refreshedAt..], symbol) == 0))
  }

  lemma {:induction false} QueuedAfterInsert(pending: seq<Message>, m: Message, agent: AgentId)
    ensures QueuedOf(Insert(pending, m), agent) == QueuedOf(pending, agent) + QueuedOf([m], agent)
  {
    if pending != [] && !Before(m, pending[0]) {
      QueuedAfterInsert(pending[1..], m, agent);
    }
  }

  /** A submission moves quantity between filled and resting; the only quantity it
      can add to the agent's commitments is that of the agent's own order. */
  lemma SubmissionConserves(cfg: Config, s: State, order: Order, response: Response)
    requires Accepts(cfg, s, order, response)
    requires s.executed == FilledFor(s.tradeLog, cfg.execution)
    ensures var s' := Submitted(cfg, s, order, response);
            && s'.executed == FilledFor(s'.tradeLog, cfg.execution)
            && s'.executed + RestingOf(s'.book, cfg.execution)
               <= s.executed + RestingOf(s.book, cfg.execution)
                  + if order.agent == cfg.execution then order.remaining else 0
  {
    match response
    case Rejected =>
    case Accepted(fills, rests) =>
      var trades := TradesOf(s.book, order, fills, s.clock);
      FilledForConcat(s.tradeLog, trades, cfg.execution);
      TradesComeFromMakers(s.book, order, fills, s.clock, cfg.execution);
      var leftover := if rests then [order.(remaining := order.remaining - Matched(fills))] else [];
      RestingOfConcat(ReduceAll(s.book, fills), leftover, cfg.execution);
  }

  lemma SubmissionKeepsBudget(cfg: Config, s: State, order: Order, response: Response)
    requires Accepts(cfg, s, order, response) && WithinBudget(cfg, s)
    ensures WithinBudget(cfg, Submitted(cfg, s, order, response))
  {
    if response.Accepted? {
      var s' := Submitted(cfg, s, order, response);
      var trades := TradesOf(s.book, order, response.fills, s.clock);
      assert s'.tradeLog[s.refreshedAt..] == s.tradeLog[s.refreshedAt..] + trades;
      forall symbol
        ensures TradedIn(s'.tradeLog[s.refreshedAt..], symbol)
             == TradedIn(s.tradeLog[s.refreshedAt..], symbol)
                + if symbol == order.symbol then Matched(response.fills) else 0
      {
        TradedInConcat(s.tradeLog[s.refreshedAt..], trades, symbol);
        TradesStayInSymbol(s.book, order, response.fills, s.clock, symbol);
      }
    }
  }

  lemma QueueingConserves(cfg: Config, s: State, order: Order, step: nat, timeMs: nat)
    ensures var s' := Pushed(s, step, timeMs, Arrival(order));
            && s'.executed == s.executed && s'.tradeLog == s.tradeLog
            && ActiveQuantity(cfg, s')
               == ActiveQuantity(cfg, s) + if order.agent == cfg.execution then order.remaining else 0
  {
    QueuedAfterInsert(s.pending, Message(step, timeMs, s.sequence + 1, Arrival(order)), cfg.execution);
  }

  /** The state a submitted order leaves its agent from. */
  function Sent(s: State, order: Order): State {
    Recorded(s, order).(dispatched := s.dispatched + [Ticket(order.agent, order.id)])
  }

  /** An order sent with latency adds at most its own quantity to its owner's commitments. */
  lemma DispatchConserves(cfg: Config, s: State, order: Order, response: Response)
    requires order.agent in cfg.agents && Accepts(cfg, s, order, response)
    requires s.executed == FilledFor(s.tradeLog, cfg.execution)
    ensures var s' := Dispatched(cfg, s, order, response);
            && s'.executed == FilledFor(s'.tradeLog, cfg.execution)
            && s'.executed + ActiveQuantity(cfg, s')
               <= s.executed + ActiveQuantity(cfg, s)
                  + if order.agent == cfg.execution then order.remaining else 0
  {
    var timing := Timing(s.clock, cfg.agents[order.agent].latency);
    if CancelledInTransit(cfg, order.agent) {
    } else if ReachesAtOnce(cfg, s, order.agent) {
      SubmissionConserves(cfg, Sent(s, order).(reached := s.reached + [Ticket(order.agent, order.id)]), order,
                          response);
    } else {
      QueueingConserves(cfg, Sent(s, order), order, timing.arrivalStep, timing.arrivalMs);
    }
  }

  lemma DispatchKeepsBudget(cfg: Config, s: State, order: Order, response: Response)
    requires order.agent in cfg.agents && Accepts(cfg, s, order, response) && WithinBudget(cfg, s)
    ensures WithinBudget(cfg, Dispatched(cfg, s, order, response))
  {
    var s' := Dispatched(cfg, s, order, response);
    if !CancelledInTransit(cfg, order.agent) && ReachesAtOnce(cfg, s, order.agent) {
      SubmissionKeepsBudget(cfg, Sent(s, order).(reached := s.reached + [Ticket(order.agent, order.id)]),
                            order, response);
    } else {
      SameTradesKeepBudget(cfg, s, s');
    }
  }

  lemma SameTradesKeepBudget(cfg: Config, s: State, s': State)
    requires WithinBudget(cfg, s)
    requires s'.tradeLog == s.tradeLog && s'.volumeLeft == s.volumeLeft
    requires s'.budgets == s.budgets && s'.refreshedAt == s.refreshedAt
    ensures WithinBudget(cfg, s')
  {
  }

  lemma CancelConserves(cfg: Config, s: State, id: OrderId, agent: AgentId, effectiveStep: nat)
    ensures var s' := CancelApplied(s, id, agent, effectiveStep);
            && s'.executed == s.executed && s'.tradeLog == s.tradeLog && s'.pending == s.pending
            && ActiveQuantity(cfg, s') <= ActiveQuantity(cfg, s)
  {
    RemoveTakesFromOwner(s.book, id, cfg.execution);
  }

  lemma DeliveryConserves(cfg: Config, s: State, response: Response)
    requires cfg.WellFormed() && Enabled(cfg, s, DeliverNext(response)) && WithinParent(cfg, s)
    ensures WithinParent(cfg, Delivered(cfg, s, response))
  {
    var m := s.pending[0];
    var popped := s.(pending := s.pending[1..], delivered := s.delivered + [Delivery(m, s.clock)]);
    match m.body
    case Arrival(order) =>
      SubmissionConserves(cfg, popped.(reached := s.reached + [Ticket(order.agent, order.id)]), order, response);
    case Cancellation(id, agent) =>
      CancelConserves(cfg, popped.(pendingCancelIds := s.pendingCancelIds - {id}), id, agent, m.step);
  }

  lemma CancelRequestConserves(cfg: Config, s: State, agent: AgentId, id: OrderId)
    requires agent in cfg.agents && WithinParent(cfg, s)
    ensures WithinParent(cfg, CancelRequested(cfg, s, agent, id))
  {
    var effectiveMs := s.clock * MESSAGE_STEP_MS + cfg.agents[agent].latency.cancelMs;
    var effectiveStep := effectiveMs / MESSAGE_STEP_MS;
    CancelConserves(cfg, s, id, agent, effectiveStep);
    QueuedAfterInsert(s.pending, Message(effectiveStep, effectiveMs, s.sequence + 1, Cancellation(id, agent)),
                      cfg.execution);
  }

  lemma WholeLots(quantity: int, lot: nat)
    requires 0 < lot
    ensures (quantity / lot) * lot <= quantity
  {
  }

  lemma ChildFits(cfg: Config, s: State, order: Order, adjusted: int)
    requires cfg.WellFormed() && Child(cfg, s, order, adjusted).Some?
    ensures s.executed + ActiveQuantity(cfg, s) + Child(cfg, s, order, adjusted).value.remaining <= cfg.target
  {
    WholeLots(Min(cfg.target - s.executed - ActiveQuantity(cfg, s), adjusted), cfg.lot);
  }

  lemma StepKeepsParent(cfg: Config, s: State, e: Event)
    requires cfg.WellFormed() && Enabled(cfg, s, e) && WithinParent(cfg, s)
    ensures WithinParent(cfg, Apply(cfg, s, e))
  {
    match e
    case RefreshVolume(_) =>
    case DeliverNext(response) => DeliveryConserves(cfg, s, response);
    case DirectSubmit(order, response) => SubmissionConserves(cfg, Recorded(s, order), order, response);
    case DirectCancel(agent, id) => CancelConserves(cfg, s, id, agent, s.clock);
    case RequestCancel(agent, id) => CancelRequestConserves(cfg, s, agent, id);
    case Schedule(order, response) =>
      if Normalized(cfg, order).Some? { DispatchConserves(cfg, s, Normalized(cfg, order).value, response); }
    case ScheduleChild(order, adjusted, response) =>
      if Child(cfg, s, order, adjusted).Some? {
        ChildFits(cfg, s, order, adjusted);
        DispatchConserves(cfg, s, Child(cfg, s, order, adjusted).value, response);
      }
    case EndStep =>
  }

  lemma DeliveryKeepsBudget(cfg: Config, s: State, response: Response)
    requires cfg.WellFormed() && Enabled(cfg, s, DeliverNext(response)) && WithinBudget(cfg, s)
    ensures WithinBudget(cfg, Delivered(cfg, s, response))
  {
    var m := s.pending[0];
    var popped := s.(pending := s.pending[1..], delivered := s.delivered + [Delivery(m, s.clock)]);
    match m.body
    case Arrival(order) =>
      SubmissionKeepsBudget(cfg, popped.(reached := s.reached + [Ticket(order.agent, order.id)]), order, response);
    case Cancellation(_, _) => SameTradesKeepBudget(cfg, s, Delivered(cfg, s, response));
  }

  lemma StepKeepsBudget(cfg: Config, s: State, e: Event)
    requires cfg.WellFormed() && Enabled(cfg, s, e) && WithinBudget(cfg, s)
    ensures WithinBudget(cfg, Apply(cfg, s, e))
  {
    match e
    case RefreshVolume(budgets) => assert s.tradeLog[|s.tradeLog|..] == [];
    case DeliverNext(response) => DeliveryKeepsBudget(cfg, s, response);
    case DirectSubmit(order, response) => SubmissionKeepsBudget(cfg, Recorded(s, order), order, response);
    case DirectCancel(_, _) => SameTradesKeepBudget(cfg, s, Apply(cfg, s, e));
    case RequestCancel(_, _) => SameTradesKeepBudget(cfg, s, Apply(cfg, s, e));
    case Schedule(order, response) =>
      if Normalized(cfg, order).Some? { DispatchKeepsBudget(cfg, s, Normalized(cfg, order).value, response); }
    case ScheduleChild(order, adjusted, response) =>
      if Child(cfg, s, order, adjusted).Some? {
        DispatchKeepsBudget(cfg, s, Child(cfg, s, order, adjusted).value, response);
      }
    case EndStep => SameTradesKeepBudget(cfg, s, Apply(cfg, s, e));
  }

  lemma {:induction false} NoFillsForOutsiders(trades: seq<Trade>, agent: AgentId)
    requires forall i :: 0 <= i < |trades| ==> !trades[i].Involves(agent)
    ensures FilledFor(trades, agent) == 0
  {
    if trades != [] {
      NoFillsForOutsiders(trades[..|trades| - 1], agent);
    }
  }

  lemma {:induction false} NothingRestsForOutsiders(book: seq<Order>, agent: AgentId)
    requires forall i :: 0 <= i < |book| ==> book[i].agent != agent
    ensures RestingOf(book, agent) == 0
  {
    if book != [] {
      NothingRestsForOutsiders(book[1..], agent);
    }
  }

  lemma InitiallyWithin(cfg: Config, s: State)
    requires Initial(cfg, s)
    ensures WithinParent(cfg, s) && WithinBudget(cfg, s)
  {
    NoFillsForOutsiders(s.tradeLog, cfg.execution);
    NothingRestsForOutsiders(s.book, cfg.execution);
    assert s.tradeLog[|s.tradeLog|..] == [];
  }

  lemma {:induction false} RunKeepsBoth(cfg: Config, s: State, events: seq<Event>, s': State)
    requires cfg.WellFormed() && Run(cfg, s, events, s') && WithinParent(cfg, s) && WithinBudget(cfg, s)
    ensures WithinParent(cfg, s') && WithinBudget(cfg, s')
    decreases events
  {
    if events != [] {
      StepKeepsParent(cfg, s, events[0]);
      StepKeepsBudget(cfg, s, events[0]);
      RunKeepsBoth(cfg, Apply(cfg, s, events[0]), events[1..], s');
    }
  }

  /** Whatever other accounts fill, cancel or submit, whatever is halted or cancelled
      in transit, and whatever sizes the agent asks for: filled plus queued plus resting
      quantity never exceeds the parent, and the executed counter is the logged fills. */
  lemma ParentNeverOvercommitted(cfg: Config, s0: State, events: seq<Event>, s: State)
    requires cfg.WellFormed() && Initial(cfg, s0) && Run(cfg, s0, events, s)
    ensures s.executed == FilledFor(s.tradeLog, cfg.execution)
    ensures s.executed + ActiveQuantity(cfg, s) <= cfg.target
  {
    InitiallyWithin(cfg, s0);
    RunKeepsBoth(cfg, s0, events, s);
  }

  /** With volume limiting on, no symbol trades more between two refreshes than its budget,
      and a symbol without a budget does not trade at all. */
  lemma TradedWithinBudget(cfg: Config, s0: State, events: seq<Event>, s: State, symbol: Symbol)
    requires cfg.WellFormed() && Initial(cfg, s0) && Run(cfg, s0, events, s) && cfg.volumeLimiting
    ensures s.refreshedAt <= |s.tradeLog|
    ensures TradedIn(s.tradeLog[s.refreshedAt..], symbol) <= if symbol in s.budgets then s.budgets[symbol] else 0
  {
    InitiallyWithin(cfg, s0);
    RunKeepsBoth(cfg, s0, events, s);
  }
}
