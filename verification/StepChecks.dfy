/** The end-of-step assertion on the parent order: which part of it can fail, and
    exactly when it does. */
module StepChecks {
  import opened Wrappers
  import opened Venue
  import opened Latency
  import opened ExecutionMachine
  import opened ParentCapacity

  // ----- the inventory test, trade by trade

  /** The trade moves the parent's inventory by exactly its quantity, in the parent's direction. */
  predicate OnTask(cfg: Config, trade: Trade) {
    trade.Involves(cfg.execution) ==>
      && trade.symbol == cfg.symbol
      && (trade.BuyerAgent() == cfg.execution <==> cfg.side == Buy)
      && (trade.SellerAgent() == cfg.execution <==> cfg.side == Sell)
  }

  predicate AllOnTask(cfg: Config, trades: seq<Trade>) {
    forall i :: 0 <= i < |trades| ==> OnTask(cfg, trades[i])
  }

  predicate AllPositive(trades: seq<Trade>) {
    forall i :: 0 <= i < |trades| ==> 0 < trades[i].quantity
  }

  /** Account inventory equals signed fills exactly when every trade of the agent is on task:
      a trade on the wrong side, in another symbol or with itself can never be made good. */
  lemma {:induction false} InventoryTiesExactly(cfg: Config, trades: seq<Trade>)
    requires AllPositive(trades)
    ensures Direction(cfg.side) * Inventory(trades, cfg.execution, cfg.symbol) <= FilledFor(trades, cfg.execution)
    ensures Inventory(trades, cfg.execution, cfg.symbol) == Direction(cfg.side) * FilledFor(trades, cfg.execution)
       <==> AllOnTask(cfg, trades)
  {
    if trades != [] {
      var front, last := trades[..|trades| - 1], trades[|trades| - 1];
      InventoryTiesExactly(cfg, front);
      assert AllOnTask(cfg, trades) <==> AllOnTask(cfg, front) && OnTask(cfg, last) by {
        assert trades[|trades| - 1] == last;
        assert forall i :: 0 <= i < |front| ==> front[i] == trades[i];
      }
      assert 0 < last.quantity;
    }
  }

  // ----- every logged trade has a positive quantity

  lemma {:induction false} TradesArePositive(book: seq<Order>, taker: Order, fills: seq<Fill>, step: nat)
    requires FillsFit(book, taker, fills)
    ensures AllPositive(TradesOf(book, taker, fills, step))
    decreases fills
  {
    if fills != [] {
      TradesArePositive(Reduce(book, fills[0].makerId, fills[0].quantity), taker, fills[1..], step);
    }
  }

  /** The trades one event adds to the log. */
  function NewTrades(cfg: Config, s: State, e: Event): seq<Trade>
    requires cfg.WellFormed() && Enabled(cfg, s, e)
  {
    match e
    case DeliverNext(response) =>
      if s.pending[0].body.Arrival? then TradesAfter(s.book, s.pending[0].body.order, response, s.clock) else []
    case DirectSubmit(order, response) => TradesAfter(s.book, order, response, s.clock)
    case Schedule(order, response) =>
      if Normalized(cfg, order).Some? then SentTrades(cfg, s, Normalized(cfg, order).value, response) else []
    case ScheduleChild(order, adjusted, response) =>
      if Child(cfg, s, order, adjusted).Some?
      then SentTrades(cfg, s, Child(cfg, s, order, adjusted).value, response) else []
    case _ => []
  }

  function SentTrades(cfg: Config, s: State, order: Order, response: Response): seq<Trade>
    requires order.agent in cfg.agents && Accepts(cfg, s, order, response)
  {
    if CancelledInTransit(cfg, order.agent) || !ReachesAtOnce(cfg, s, order.agent) then []
    else TradesAfter(s.book, order, response, s.clock)
  }

  lemma LogGrowsByNewTrades(cfg: Config, s: State, e: Event)
    requires cfg.WellFormed() && Enabled(cfg, s, e)
    ensures Apply(cfg, s, e).tradeLog == s.tradeLog + NewTrades(cfg, s, e)
    ensures AllPositive(NewTrades(cfg, s, e))
  {
    assert s.tradeLog + [] == s.tradeLog;
    match e
    case DeliverNext(response) =>
      if s.pending[0].body.Arrival? && response.Accepted? {
        TradesArePositive(s.book, s.pending[0].body.order, response.fills, s.clock);
      }
    case DirectSubmit(order, response) =>
      if response.Accepted? { TradesArePositive(s.book, order, response.fills, s.clock); }
    case Schedule(order, response) =>
      if Normalized(cfg, order).Some? { SentTradesArePositive(cfg, s, Normalized(cfg, order).value, response); }
    case ScheduleChild(order, adjusted, response) =>
      if Child(cfg, s, order, adjusted).Some? {
        SentTradesArePositive(cfg, s, Child(cfg, s, order, adjusted).value, response);
      }
    case _ =>
  }

  lemma SentTradesArePositive(cfg: Config, s: State, order: Order, response: Response)
    requires order.agent in cfg.agents && Accepts(cfg, s, order, response)
    ensures AllPositive(SentTrades(cfg, s, order, response))
    ensures Dispatched(cfg, s, order, response).tradeLog == s.tradeLog + SentTrades(cfg, s, order, response)
  {
    assert s.tradeLog + [] == s.tradeLog;
    if response.Accepted? { TradesArePositive(s.book, order, response.fills, s.clock); }
  }

  lemma {:induction false} RunKeepsTradesPositive(cfg: Config, s: State, events: seq<Event>, s': State)
    requires cfg.WellFormed() && Run(cfg, s, events, s') && AllPositive(s.tradeLog)
    ensures AllPositive(s'.tradeLog)
    decreases events
  {
    if events != [] {
      LogGrowsByNewTrades(cfg, s, events[0]);
      RunKeepsTradesPositive(cfg, Apply(cfg, s, events[0]), events[1..], s');
    }
  }

  /** In any reachable state with nothing left to deliver, the step closes exactly when all
      of the agent's trades so far are on task; the other two tests cannot fail. */
  lemma StepClosesExactly(cfg: Config, s0: State, events: seq<Event>, s: State)
    requires cfg.WellFormed() && Initial(cfg, s0) && Run(cfg, s0, events, s) && NothingDue(s)
    ensures Enabled(cfg, s, EndStep) <==> AllOnTask(cfg, s.tradeLog)
  {
    ParentNeverOvercommitted(cfg, s0, events, s);
    RunKeepsTradesPositive(cfg, s0, events, s);
    InventoryTiesExactly(cfg, s.tradeLog);
  }

  // ----- an agent that only ever sends orders for its own task always passes

  predicate ForTask(cfg: Config, order: Order) {
    order.agent == cfg.execution ==> order.side == cfg.side && order.symbol == cfg.symbol
  }

  predicate BookForTask(cfg: Config, book: seq<Order>) {
    forall o :: o in book ==> ForTask(cfg, o)
  }

  predicate MessageForTask(cfg: Config, m: Message) {
    m.body.Arrival? ==> ForTask(cfg, m.body.order)
  }

  predicate QueueForTask(cfg: Config, pending: seq<Message>) {
    forall m :: m in pending ==> MessageForTask(cfg, m)
  }

  /** The parent has room for a lot, and the gateway does not cancel every child on its way. */
  predicate CanTrade(cfg: Config)
    requires cfg.WellFormed()
  {
    cfg.lot <= cfg.target && !CancelledInTransit(cfg, cfg.execution)
  }

  predicate EventForTask(cfg: Config, e: Event)
    requires cfg.WellFormed()
  {
    e.ScheduleChild? && CanTrade(cfg) ==> ForTask(cfg, e.order)
  }

  lemma {:induction false} FindIsInBook(book: seq<Order>, id: OrderId)
    requires Find(book, id).Some?
    ensures Find(book, id).value in book
  {
    if book[0].id != id {
      FindIsInBook(book[1..], id);
    }
  }

  lemma {:induction false} ReduceKeepsTask(cfg: Config, book: seq<Order>, id: OrderId, quantity: nat)
    requires BookForTask(cfg, book)
    ensures BookForTask(cfg, Reduce(book, id, quantity))
  {
    if book != [] {
      assert BookForTask(cfg, book[1..]) && ForTask(cfg, book[0]);
      if book[0].id != id {
        ReduceKeepsTask(cfg, book[1..], id, quantity);
      } else if quantity < book[0].remaining {
        assert ForTask(cfg, book[0].(remaining := book[0].remaining - quantity));
      }
    }
  }

  lemma {:induction false} RemoveKeepsTask(cfg: Config, book: seq<Order>, id: OrderId)
    requires BookForTask(cfg, book)
    ensures BookForTask(cfg, Remove(book, id))
  {
    if book != [] && book[0].id != id {
      assert BookForTask(cfg, book[1..]);
      RemoveKeepsTask(cfg, book[1..], id);
    }
  }

  lemma {:induction false} FillsKeepTask(cfg: Config, book: seq<Order>, taker: Order, fills: seq<Fill>, step: nat)
    requires FillsFit(book, taker, fills) && BookForTask(cfg, book) && ForTask(cfg, taker)
    ensures BookForTask(cfg, ReduceAll(book, fills)) && AllOnTask(cfg, TradesOf(book, taker, fills, step))
    decreases fills
  {
    if fills != [] {
      var f := fills[0];
      FindIsInBook(book, f.makerId);
      ReduceKeepsTask(cfg, book, f.makerId, f.quantity);
      FillsKeepTask(cfg, Reduce(book, f.makerId, f.quantity), taker, fills[1..], step);
      assert ForTask(cfg, Find(book, f.makerId).value);
    }
  }

  lemma SubmissionKeepsTask(cfg: Config, book: seq<Order>, taker: Order, response: Response, step: nat)
    requires Conforms(book, taker, None, response) && BookForTask(cfg, book) && ForTask(cfg, taker)
    ensures BookForTask(cfg, BookAfter(book, taker, response))
    ensures AllOnTask(cfg, TradesAfter(book, taker, response, step))
  {
    if response.Accepted? {
      FillsKeepTask(cfg, book, taker, response.fills, step);
    }
  }

  lemma {:induction false} InsertKeepsTask(cfg: Config, pending: seq<Message>, m: Message)
    requires QueueForTask(cfg, pending) && MessageForTask(cfg, m)
    ensures QueueForTask(cfg, Insert(pending, m))
  {
    if pending != [] && !Before(m, pending[0]) {
      assert QueueForTask(cfg, pending[1..]);
      InsertKeepsTask(cfg, pending[1..], m);
    }
  }

  predicate AtTask(cfg: Config, s: State) {
    BookForTask(cfg, s.book) && QueueForTask(cfg, s.pending) && AllOnTask(cfg, s.tradeLog)
  }

  lemma DispatchKeepsTask(cfg: Config, s: State, order: Order, response: Response)
    requires order.agent in cfg.agents && Accepts(cfg, s, order, response) && AtTask(cfg, s) && ForTask(cfg, order)
    ensures AtTask(cfg, Dispatched(cfg, s, order, response))
  {
    var timing := Timing(s.clock, cfg.agents[order.agent].latency);
    if CancelledInTransit(cfg, order.agent) {
    } else if ReachesAtOnce(cfg, s, order.agent) {
      SubmissionKeepsTask(cfg, s.book, order, response, s.clock);
    } else {
      InsertKeepsTask(cfg, s.pending, Message(timing.arrivalStep, timing.arrivalMs, s.sequence + 1, Arrival(order)));
    }
  }

  lemma DeliveryKeepsTask(cfg: Config, s: State, response: Response)
    requires cfg.WellFormed() && Enabled(cfg, s, DeliverNext(response)) && AtTask(cfg, s)
    ensures AtTask(cfg, Delivered(cfg, s, response))
  {
    assert s.pending[0] in s.pending && MessageForTask(cfg, s.pending[0]);
    assert QueueForTask(cfg, s.pending[1..]);
    match s.pending[0].body
    case Arrival(order) => SubmissionKeepsTask(cfg, s.book, order, response, s.clock);
    case Cancellation(id, _) => RemoveKeepsTask(cfg, s.book, id);
  }

  lemma CancelRequestKeepsTask(cfg: Config, s: State, agent: AgentId, id: OrderId)
    requires agent in cfg.agents && AtTask(cfg, s)
    ensures AtTask(cfg, CancelRequested(cfg, s, agent, id))
  {
    var effectiveMs := s.clock * MESSAGE_STEP_MS + cfg.agents[agent].latency.cancelMs;
    RemoveKeepsTask(cfg, s.book, id);
    InsertKeepsTask(cfg, s.pending, Message(effectiveMs / MESSAGE_STEP_MS, effectiveMs, s.sequence + 1,
                                            Cancellation(id, agent)));
  }

  lemma ChildKeepsTask(cfg: Config, s: State, order: Order, adjusted: int, response: Response)
    requires cfg.WellFormed() && Enabled(cfg, s, ScheduleChild(order, adjusted, response)) && AtTask(cfg, s)
    requires CanTrade(cfg) ==> ForTask(cfg, order)
    ensures AtTask(cfg, Apply(cfg, s, ScheduleChild(order, adjusted, response)))
  {
    var child := Child(cfg, s, order, adjusted);
    if child.Some? {
      SomeLotAvailable(Min(cfg.target - s.executed - ActiveQuantity(cfg, s), adjusted), cfg.lot);
      if !CancelledInTransit(cfg, cfg.execution) { DispatchKeepsTask(cfg, s, child.value, response); }
    }
  }

  lemma SomeLotAvailable(quantity: int, lot: nat)
    requires 0 < lot && 0 < (quantity / lot) * lot
    ensures lot <= quantity
  {
  }

  lemma StepKeepsTask(cfg: Config, s: State, e: Event)
    requires cfg.WellFormed() && Enabled(cfg, s, e) && AtTask(cfg, s) && EventForTask(cfg, e)
    ensures AtTask(cfg, Apply(cfg, s, e))
  {
    match e
    case DeliverNext(response) => DeliveryKeepsTask(cfg, s, response);
    case DirectSubmit(order, response) => SubmissionKeepsTask(cfg, s.book, order, response, s.clock);
    case DirectCancel(_, id) => RemoveKeepsTask(cfg, s.book, id);
    case RequestCancel(agent, id) => CancelRequestKeepsTask(cfg, s, agent, id);
    case Schedule(order, response) =>
      if Normalized(cfg, order).Some? { DispatchKeepsTask(cfg, s, Normalized(cfg, order).value, response); }
    case ScheduleChild(order, adjusted, response) => ChildKeepsTask(cfg, s, order, adjusted, response);
    case _ =>
  }

  lemma {:induction false} RunKeepsTask(cfg: Config, s: State, events: seq<Event>, s': State)
    requires cfg.WellFormed() && Run(cfg, s, events, s') && AtTask(cfg, s)
    requires forall i :: 0 <= i < |events| ==> EventForTask(cfg, events[i])
    ensures AtTask(cfg, s')
    decreases events
  {
    if events != [] {
      StepKeepsTask(cfg, s, events[0]);
      RunKeepsTask(cfg, Apply(cfg, s, events[0]), events[1..], s');
    }
  }

  /** An agent whose children are all for the parent's side and symbol, or never trade, never trades with
      itself and never fails the end-of-step assertion, whatever the venue does. */
  lemma OneSidedAgentNeverAborts(cfg: Config, s0: State, events: seq<Event>, s: State)
    requires cfg.WellFormed() && Initial(cfg, s0) && Run(cfg, s0, events, s) && NothingDue(s)
    requires forall i :: 0 <= i < |events| ==> EventForTask(cfg, events[i])
    ensures Enabled(cfg, s, EndStep)
    ensures forall i :: 0 <= i < |s.tradeLog| ==>
              s.tradeLog[i].BuyerAgent() == cfg.execution ==> s.tradeLog[i].SellerAgent() != cfg.execution
  {
    RunKeepsTask(cfg, s0, events, s);
    StepClosesExactly(cfg, s0, events, s);
  }
}
