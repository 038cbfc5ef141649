/** The loop itself: its closures over the pending heap, the volume budgets and the executed
    counter, each proved to do one event of the execution machine. */
module SimulationLoop {
  import opened Wrappers
  import opened Venue
  import opened Latency
  import opened ExecutionMachine
  import opened StrategySteps

  /** The venue's answer to its n-th submission, given its book, the order and the volume cap.
      Halts, prices and queue positions are in here. */
  type Answers = (nat, seq<Order>, Order, Option<nat>) -> Response

  ghost predicate Honest(answers: Answers) {
    forall n, book, order, cap :: Conforms(book, order, cap, answers(n, book, order, cap))
  }

  class Loop {
    const cfg: Config

    var clock: nat
    var pending: seq<Message>
    var pendingSequence: nat
    var pendingCancelIds: set<OrderId>
    var book: seq<Order>
    var executedQuantity: nat
    var stepVolumeRemaining: map<Symbol, nat>
    var orderLog: seq<OrderRow>
    var tradeLog: seq<Trade>
    var cancelLog: seq<CancelRow>
    var snapshots: seq<Snapshot>

    ghost var budgets: map<Symbol, nat>
    ghost var refreshedAt: nat
    ghost var enqueued: seq<Message>
    ghost var delivered: seq<Delivery>
    ghost var dispatched: seq<Ticket>
    ghost var reached: seq<Ticket>

    ghost function Current(): State
      reads this
    {
      State(clock, pending, pendingSequence, pendingCancelIds, book, executedQuantity, stepVolumeRemaining,
            orderLog, tradeLog, cancelLog, snapshots, budgets, refreshedAt, enqueued, delivered, dispatched, reached)
    }

    /** Starts from books that hold only other accounts' quotes. */
    constructor (cfg: Config, book: seq<Order>, orderLog: seq<OrderRow>, tradeLog: seq<Trade>,
                 stepVolumeRemaining: map<Symbol, nat>)
      requires DistinctIds(orderLog) && forall i :: 0 <= i < |orderLog| ==> orderLog[i].agent != cfg.execution
      requires KeyedById(book)
      requires forall o :: o in book ==> o.agent != cfg.execution && Filed(orderLog, o.id, o.agent)
      requires forall t :: t in tradeLog ==>
                 && !t.Involves(cfg.execution) && 0 < t.quantity && t.step == 0
                 && Filed(orderLog, t.makerId, t.makerAgent) && Filed(orderLog, t.takerId, t.takerAgent)
      ensures Initial(cfg, Current())
      ensures this.cfg == cfg && this.book == book && this.orderLog == orderLog && this.tradeLog == tradeLog
    {
      this.cfg := cfg;
      this.clock, this.pending, this.pendingSequence, this.pendingCancelIds := 0, [], 0, {};
      this.book, this.executedQuantity, this.stepVolumeRemaining := book, 0, stepVolumeRemaining;
      this.orderLog, this.tradeLog, this.cancelLog, this.snapshots := orderLog, tradeLog, [], [];
      this.budgets, this.refreshedAt := stepVolumeRemaining, |tradeLog|;
      this.enqueued, this.delivered, this.dispatched, this.reached := [], [], [], [];
    }

    /** Books an accepted order's trades: the logs, the executed counter and the volume budget. */
    method BookTrades(order: Order, trades: seq<Trade>, matched: nat)
      modifies `executedQuantity, `stepVolumeRemaining, `orderLog, `tradeLog
      ensures executedQuantity == old(executedQuantity) + FilledFor(trades, cfg.execution)
      ensures stepVolumeRemaining == VolumeAfter(cfg, old(stepVolumeRemaining), order.symbol, matched)
      ensures orderLog == Resolve(old(orderLog), order.id, Some(clock), true) && tradeLog == old(tradeLog) + trades
    {
      var filled := CountFills(trades, cfg.execution);
      tradeLog := tradeLog + trades;
      orderLog := Resolve(orderLog, order.id, Some(clock), true);
      if cfg.volumeLimiting && order.symbol in stepVolumeRemaining {
        var left := stepVolumeRemaining[order.symbol] - matched;
        stepVolumeRemaining := stepVolumeRemaining[order.symbol := if left < 0 then 0 else left];
      }
      executedQuantity := executedQuantity + filled;
    }

    /** Takes the venue's answer to a recorded order; a halt refuses it and changes only its row. */
    method SubmitToExchange(order: Order, response: Response)
      requires Accepts(cfg, Current(), order, response)
      modifies `book, `executedQuantity, `stepVolumeRemaining, `orderLog, `tradeLog
      ensures Current() == Submitted(cfg, old(Current()), order, response)
    {
      match response
      case Rejected =>
        orderLog := Resolve(orderLog, order.id, Some(clock), false);
      case Accepted(fills, _) =>
        BookTrades(order, TradesAfter(book, order, response, clock), Matched(fills));
        book := BookAfter(book, order, response);
    }

    /** Quantity of the execution agent at work: its queued orders, then its resting ones. */
    method ActiveStrategyQuantity() returns (active: nat)
      ensures active == ActiveQuantity(cfg, Current())
    {
      active := 0;
      for i := 0 to |pending|
        invariant active + QueuedOf(pending[i..], cfg.execution) == QueuedOf(pending, cfg.execution)
      {
        assert pending[i..][1..] == pending[i + 1..];
        match pending[i].body {
          case Arrival(order) =>
            if order.agent == cfg.execution { active := active + order.remaining; }
          case Cancellation(_, _) =>
        }
      }
      assert pending[|pending|..] == [];
      var queued := active;
      for i := 0 to |book|
        invariant active + RestingOf(book[i..], cfg.execution) == queued + RestingOf(book, cfg.execution)
      {
        assert book[i..][1..] == book[i + 1..];
        if book[i].agent == cfg.execution { active := active + book[i].remaining; }
      }
      assert book[|book|..] == [];
    }

    method Push(step: nat, timeMs: nat, body: Body)
      modifies `pending, `pendingSequence, `enqueued
      ensures Current() == Pushed(old(Current()), step, timeMs, body)
    {
      pendingSequence := pendingSequence + 1;
      var m := Message(step, timeMs, pendingSequence, body);
      pending := Insert(pending, m);
      enqueued := enqueued + [m];
    }

    /** Puts a resting order out of the book, if it is still there and the agent's. */
    method CancelAtExchange(id: OrderId, agent: AgentId, effectiveStep: nat)
      modifies `book, `cancelLog
      ensures Current() == CancelApplied(old(Current()), id, agent, effectiveStep)
    {
      var found := Find(book, id);
      if found.Some? && found.value.agent == agent {
        book := Remove(book, id);
        cancelLog := cancelLog + [CancelRow(id, agent, found.value.remaining, effectiveStep)];
      }
    }

    method RequestCancelOf(agent: AgentId, id: OrderId)
      requires cfg.WellFormed() && Enabled(cfg, Current(), RequestCancel(agent, id))
      modifies this
      ensures Current() == Apply(cfg, old(Current()), RequestCancel(agent, id))
    {
      var effectiveMs := clock * MESSAGE_STEP_MS + cfg.agents[agent].latency.cancelMs;
      var effectiveStep := effectiveMs / MESSAGE_STEP_MS;
      ghost var before := pendingCancelIds;
      pendingCancelIds := pendingCancelIds + {id};
      if effectiveStep <= clock {
        CancelAtExchange(id, agent, effectiveStep);
        pendingCancelIds := pendingCancelIds - {id};
        assert pendingCancelIds == before;
        return;
      }
      Push(effectiveStep, effectiveMs, Cancellation(id, agent));
    }

    /** Records, stamps and sends an order of whole lots: cancelled at the gateway, submitted
        at once, or queued until it arrives. */
    method Send(order: Order, response: Response)
      requires order.agent in cfg.agents && Accepts(cfg, Current(), order, response)
      modifies this
      ensures Current() == Dispatched(cfg, old(Current()), order, response)
    {
      var latency := cfg.agents[order.agent].latency;
      var timing := Timing(clock, latency);
      orderLog := orderLog + [OrderRow(order.id, order.agent, order.quantity, order.submittedStep, None, None)];
      var requestMs := timing.submissionMs + cfg.agents[order.agent].cancelAfterMs;
      var cancelMs := requestMs + latency.cancelMs;
      if cancelMs < timing.arrivalMs {
        orderLog := Resolve(orderLog, order.id, None, false);
        cancelLog := cancelLog + [CancelRow(order.id, order.agent, order.remaining, cancelMs / MESSAGE_STEP_MS)];
        return;
      }
      dispatched := dispatched + [Ticket(order.agent, order.id)];
      if timing.arrivalStep <= clock {
        reached := reached + [Ticket(order.agent, order.id)];
        SubmitToExchange(order, response);
      } else {
        Push(timing.arrivalStep, timing.arrivalMs, Arrival(order));
      }
    }

    /** An order-flow account's order, straight to the venue. */
    method SubmitDirect(order: Order, response: Response)
      requires cfg.WellFormed() && Enabled(cfg, Current(), DirectSubmit(order, response))
      modifies this
      ensures Current() == Apply(cfg, old(Current()), DirectSubmit(order, response))
    {
      orderLog := orderLog + [OrderRow(order.id, order.agent, order.quantity, order.submittedStep, None, None)];
      SubmitToExchange(order, response);
    }

    /** Another account's order, cut to whole lots. */
    method ScheduleOrder(order: Order, response: Response)
      requires cfg.WellFormed() && Enabled(cfg, Current(), Schedule(order, response))
      modifies this
      ensures Current() == Apply(cfg, old(Current()), Schedule(order, response))
    {
      var quantity := (order.quantity / cfg.lot) * cfg.lot;
      if quantity <= 0 { return; }
      Send(order.(quantity := quantity, remaining := quantity), response);
    }

    /** A child of the parent order: the sized quantity, cut to what the parent can still take
        and to whole lots. */
    method ScheduleChildOf(order: Order, adjusted: int, response: Response)
      requires cfg.WellFormed() && Enabled(cfg, Current(), ScheduleChild(order, adjusted, response))
      modifies this
      ensures Current() == Apply(cfg, old(Current()), ScheduleChild(order, adjusted, response))
    {
      var active := ActiveStrategyQuantity();
      var available := cfg.target - executedQuantity - active;
      if available <= 0 { return; }
      var quantity := (Min(available, adjusted) / cfg.lot) * cfg.lot;
      if quantity <= 0 { return; }
      Send(order.(quantity := quantity, remaining := quantity), response);
    }

    /** Takes the head off the heap. */
    method PopHead() returns (m: Message)
      requires pending != []
      modifies `pending, `delivered
      ensures m == old(pending)[0] && pending == old(pending)[1..]
      ensures delivered == old(delivered) + [Delivery(m, clock)]
    {
      m := pending[0];
      pending := pending[1..];
      delivered := delivered + [Delivery(m, clock)];
    }

    method DeliverOrder(order: Order, response: Response)
      requires cfg.WellFormed() && Enabled(cfg, Current(), DeliverNext(response)) && pending[0].body == Arrival(order)
      modifies this
      ensures Current() == Delivered(cfg, old(Current()), response)
    {
      var _ := PopHead();
      reached := reached + [Ticket(order.agent, order.id)];
      SubmitToExchange(order, response);
    }

    method DeliverCancel(id: OrderId, agent: AgentId)
      requires pending != [] && pending[0].body == Cancellation(id, agent)
      modifies this
      ensures Current() == Delivered(cfg, old(Current()), Rejected)
    {
      var m := PopHead();
      CancelAtExchange(id, agent, m.step);
      pendingCancelIds := pendingCancelIds - {id};
    }

    /** Delivers the message at the head of the heap. */
    method DeliverHead(response: Response)
      requires cfg.WellFormed() && Enabled(cfg, Current(), DeliverNext(response))
      modifies this
      ensures Current() == Apply(cfg, old(Current()), DeliverNext(response))
    {
      match pending[0].body
      case Arrival(order) => DeliverOrder(order, response);
      case Cancellation(id, agent) => DeliverCancel(id, agent);
    }

    /** Delivers everything that is due, in heap order, whatever the venue answers. */
    method DeliverDue(answers: Answers) returns (ghost events: seq<Event>)
      requires cfg.WellFormed() && Honest(answers)
      modifies this
      ensures Run(cfg, old(Current()), events, Current()) && NothingDue(Current())
      ensures forall i :: 0 <= i < |events| ==> events[i].DeliverNext?
      ensures clock == old(clock) && |events| == old(|pending|) - |pending|
    {
      ghost var start := Current();
      events := [];
      var n := 0;
      while pending != [] && pending[0].step <= clock
        invariant Run(cfg, start, events, Current()) && clock == old(clock)
        invariant forall i :: 0 <= i < |events| ==> events[i].DeliverNext?
        invariant |events| + |pending| == old(|pending|)
        decreases |pending|
      {
        ghost var mid := Current();
        var response := Answer(answers, n);
        DeliverHead(response);
        RunSnoc(cfg, start, events, mid, DeliverNext(response));
        events := events + [DeliverNext(response)];
        n := n + 1;
      }
    }

    /** The venue's n-th answer, to the message at the head of the heap. */
    function Answer(answers: Answers, n: nat): Response
      requires pending != []
      reads this
    {
      match pending[0].body
      case Cancellation(_, _) => Rejected
      case Arrival(order) =>
        answers(n, book, order,
                if !cfg.volumeLimiting then None
                else Some(if order.symbol in stepVolumeRemaining then stepVolumeRemaining[order.symbol] else 0))
    }

    /** Sets every asset's budget for the step from the scaled base volume. */
    method RefreshStepVolume(assets: seq<Symbol>, scaled: nat, volumeCap: Option<nat>)
      requires cfg.WellFormed()
      modifies `stepVolumeRemaining, `budgets, `refreshedAt
      ensures exists budgets :: Current() == Apply(cfg, old(Current()), RefreshVolume(budgets))
      ensures forall symbol :: symbol in stepVolumeRemaining <==> symbol in assets
      ensures forall symbol :: symbol in assets ==>
                var budget := stepVolumeRemaining[symbol];
                && cfg.lot <= budget && (IsWholeLots(budget, cfg.lot) || volumeCap == Some(budget))
                && budget <= Max(cfg.lot, scaled) && (volumeCap.Some? ==> budget <= Max(cfg.lot, volumeCap.value))
                && (scaled < budget + cfg.lot || (volumeCap.Some? && volumeCap.value <= budget))
    {
      var budget := scaled - scaled % cfg.lot;
      CutIsWhole(scaled, cfg.lot);
      assert scaled < budget + cfg.lot;
      if volumeCap.Some? && volumeCap.value < budget { budget := volumeCap.value; }
      if budget < cfg.lot { budget := cfg.lot; }
      assert IsWholeLots(budget, cfg.lot) || volumeCap == Some(budget);
      var refreshed := map[];
      for i := 0 to |assets|
        invariant forall symbol :: symbol in refreshed <==> symbol in assets[..i]
        invariant forall symbol :: symbol in refreshed ==> refreshed[symbol] == budget
      {
        refreshed := refreshed[assets[i] := budget];
      }
      ghost var start := Current();
      stepVolumeRemaining, budgets, refreshedAt := refreshed, refreshed, |tradeLog|;
      assert Current() == Apply(cfg, start, RefreshVolume(refreshed));
    }

    /** Runs the end-of-step assertion on the parent order and closes the step if it holds. */
    method CloseStep() returns (ok: bool)
      requires cfg.WellFormed() && NothingDue(Current())
      modifies `clock, `snapshots
      ensures ok <==> Enabled(cfg, old(Current()), EndStep)
      ensures Current() == if ok then Apply(cfg, old(Current()), EndStep) else old(Current())
    {
      var fills := CountFills(tradeLog, cfg.execution);
      var inventory := CountInventory(tradeLog, cfg.execution, cfg.symbol);
      var active := ActiveStrategyQuantity();
      ok := executedQuantity == fills && inventory == Direction(cfg.side) * fills && fills + active <= cfg.target;
      if ok {
        snapshots := snapshots + [Snapshot(executedQuantity, active, inventory)];
        clock := clock + 1;
      }
    }
  }

  function Max(a: int, b: int): int { if a <= b then b else a }

  predicate IsWholeLots(quantity: nat, lot: nat)
    requires 0 < lot
  {
    quantity == (quantity / lot) * lot
  }

  lemma CutIsWhole(quantity: nat, lot: nat)
    requires 0 < lot
    ensures IsWholeLots(quantity - quantity % lot, lot)
  {
    assert quantity - quantity % lot == (quantity / lot) * lot;
    QuotientOfMultiple(quantity / lot, lot);
  }

  lemma QuotientOfMultiple(lots: nat, lot: nat)
    requires 0 < lot
    ensures (lots * lot) / lot == lots
  {
    var q, r := (lots * lot) / lot, (lots * lot) % lot;
    assert lots * lot == q * lot + r;
    Distribute(lots, q, lot);
    if q < lots {
      Grows(lots - q, lot);
    } else if lots < q {
      Grows(q - lots, lot);
    }
  }

  lemma Distribute(a: nat, b: nat, lot: nat)
    ensures (a - b) * lot == a * lot - b * lot && (b - a) * lot == b * lot - a * lot
  {
  }

  lemma Grows(factor: nat, lot: nat)
    requires 0 < factor
    ensures lot <= factor * lot
  {
  }

  /** Quantity of the trades an account took part in. */
  method CountFills(trades: seq<Trade>, agent: AgentId) returns (total: nat)
    ensures total == FilledFor(trades, agent)
  {
    total := 0;
    for i := 0 to |trades|
      invariant total == FilledFor(trades[..i], agent)
    {
      PrefixOf(trades, i);
      if trades[i].Involves(agent) { total := total + trades[i].quantity; }
    }
    assert trades[..|trades|] == trades;
  }

  /** What an account's inventory in a symbol comes to after some trades. */
  method CountInventory(trades: seq<Trade>, agent: AgentId, symbol: Symbol) returns (inventory: int)
    ensures inventory == Inventory(trades, agent, symbol)
  {
    inventory := 0;
    for i := 0 to |trades|
      invariant inventory == Inventory(trades[..i], agent, symbol)
    {
      PrefixOf(trades, i);
      var t := trades[i];
      if t.symbol == symbol && t.BuyerAgent() == agent { inventory := inventory + t.quantity; }
      if t.symbol == symbol && t.SellerAgent() == agent { inventory := inventory - t.quantity; }
    }
    assert trades[..|trades|] == trades;
  }
}
