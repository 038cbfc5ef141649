/** What the loop's other events do, seen from outside: how large an order is sent, when a message
    is due, and where a submission's quantity goes. */
module LoopEffects {
  import opened Wrappers
  import opened Venue
  import opened Latency
  import opened ExecutionMachine
  import opened StepChecks

  // ----- how large an order is sent

  /** The most whole lots within `room`. */
  ghost predicate MostLots(quantity: int, room: int, lot: nat) {
    0 < lot && quantity <= room < quantity + lot && exists lots: nat :: quantity == lots * lot
  }

  lemma CutIsMostLots(room: int, lot: nat)
    requires 0 < lot && 0 <= room
    ensures MostLots((room / lot) * lot, room, lot)
  {
    var lots: nat := room / lot;
    assert room == lots * lot + room % lot;
  }

  /** An order of another account is sent with the most whole lots it asks for, or not at all when
      that is none. */
  lemma NormalizedIsMost(cfg: Config, order: Order)
    requires cfg.WellFormed()
    ensures match Normalized(cfg, order)
            case None => order.quantity < cfg.lot
            case Some(whole) =>
              && MostLots(whole.quantity, order.quantity, cfg.lot) && 0 < whole.quantity == whole.remaining
              && whole == order.(quantity := whole.quantity, remaining := whole.remaining)
  {
    CutIsMostLots(order.quantity, cfg.lot);
  }

  /** What is not yet filled, queued or resting of the parent. */
  function Uncommitted(cfg: Config, s: State): int {
    cfg.target - FilledFor(s.tradeLog, cfg.execution) - QueuedOf(s.pending, cfg.execution)
    - RestingOf(s.book, cfg.execution)
  }

  /** A child is the most whole lots within both the sized quantity and what the parent can still
      take, and nothing is sent when that is less than a lot. */
  lemma ChildIsMost(cfg: Config, s: State, order: Order, adjusted: int)
    requires cfg.WellFormed() && s.executed == FilledFor(s.tradeLog, cfg.execution)
    ensures var room := if Uncommitted(cfg, s) <= adjusted then Uncommitted(cfg, s) else adjusted;
            match Child(cfg, s, order, adjusted)
            case None => room < cfg.lot
            case Some(child) =>
              && MostLots(child.quantity, room, cfg.lot) && 0 < child.quantity == child.remaining
              && child == order.(quantity := child.quantity, remaining := child.remaining)
  {
    var room := if Uncommitted(cfg, s) <= adjusted then Uncommitted(cfg, s) else adjusted;
    if 0 <= room {
      CutIsMostLots(room, cfg.lot);
    } else {
      NegativeCut(room, cfg.lot);
    }
  }

  lemma NegativeCut(room: int, lot: nat)
    requires room < 0 < lot
    ensures (room / lot) * lot <= room
  {
  }

  // ----- when a message is due

  /** The agent's whole entry delay in steps: feed, decision and order entry. */
  function EntrySteps(cfg: Config, agent: AgentId): nat
    requires agent in cfg.agents
  {
    var latency := cfg.agents[agent].latency;
    (latency.feedMs + latency.decisionMs + latency.orderEntryMs) / MESSAGE_STEP_MS
  }

  /** A dispatched order is cancelled on its way exactly when its automatic cancel is quicker; else it
      reaches the venue in the same step without touching the heap, or is due after its entry delay. */
  lemma DispatchIsTimely(cfg: Config, s: State, order: Order, response: Response)
    requires order.agent in cfg.agents && Accepts(cfg, s, order, response)
    ensures var s', latency := Dispatched(cfg, s, order, response), cfg.agents[order.agent].latency;
            var ticket := Ticket(order.agent, order.id);
            if cfg.agents[order.agent].cancelAfterMs + latency.cancelMs < latency.orderEntryMs then
              var sentMs := latency.feedMs + latency.decisionMs + cfg.agents[order.agent].cancelAfterMs;
              && s' == s.(orderLog := s'.orderLog, cancelLog := s'.cancelLog)
              && s'.cancelLog == s.cancelLog + [CancelRow(order.id, order.agent, order.remaining,
                                                          s.clock + (sentMs + latency.cancelMs) / MESSAGE_STEP_MS)]
            else if EntrySteps(cfg, order.agent) == 0 then
              s'.pending == s.pending && s'.enqueued == s.enqueued && s'.reached == s.reached + [ticket]
            else
              && s'.enqueued == s.enqueued + [s'.enqueued[|s.enqueued|]] && s'.reached == s.reached
              && s'.enqueued[|s.enqueued|].body == Arrival(order)
              && s'.enqueued[|s.enqueued|].step == s.clock + EntrySteps(cfg, order.agent)
              && s'.enqueued[|s.enqueued|].timeMs
                 == s.clock * MESSAGE_STEP_MS + latency.feedMs + latency.decisionMs + latency.orderEntryMs
              && s'.book == s.book && s'.tradeLog == s.tradeLog
  {
    DelayIsConstant(s.clock, cfg.agents[order.agent].latency);
  }

  /** A requested cancel with a delay of at least a step is queued for exactly that delay, and tracked. */
  lemma CancelIsTimely(cfg: Config, s: State, agent: AgentId, id: OrderId)
    requires cfg.WellFormed() && Enabled(cfg, s, RequestCancel(agent, id))
    requires MESSAGE_STEP_MS <= cfg.agents[agent].latency.cancelMs
    ensures var s' := Apply(cfg, s, RequestCancel(agent, id));
            && s'.enqueued == s.enqueued + [s'.enqueued[|s.enqueued|]]
            && s'.enqueued[|s.enqueued|].body == Cancellation(id, agent)
            && s'.enqueued[|s.enqueued|].step == s.clock + cfg.agents[agent].latency.cancelMs / MESSAGE_STEP_MS
            && s'.enqueued[|s.enqueued|].timeMs == s.clock * MESSAGE_STEP_MS + cfg.agents[agent].latency.cancelMs
            && s'.pendingCancelIds == s.pendingCancelIds + {id}
            && s'.book == s.book && s'.cancelLog == s.cancelLog
  {
  }

  // ----- where a submission's quantity goes

  /** Quantity an account traded as maker. */
  function MadeBy(trades: seq<Trade>, agent: AgentId): nat {
    if trades == [] then 0
    else (if trades[0].makerAgent == agent then trades[0].quantity else 0) + MadeBy(trades[1..], agent)
  }

  lemma {:induction false} MakersGiveUp(book: seq<Order>, taker: Order, fills: seq<Fill>, step: nat, agent: AgentId)
    requires FillsFit(book, taker, fills)
    ensures RestingOf(book, agent)
         == RestingOf(ReduceAll(book, fills), agent) + MadeBy(TradesOf(book, taker, fills, step), agent)
    decreases fills
  {
    if fills != [] {
      var after := Reduce(book, fills[0].makerId, fills[0].quantity);
      ReduceTakesFromOwner(book, fills[0].makerId, fills[0].quantity, agent);
      MakersGiveUp(after, taker, fills[1..], step, agent);
      assert TradesOf(book, taker, fills, step)[1..] == TradesOf(after, taker, fills[1..], step);
    }
  }

  /** Every account's resting quantity changes by exactly what it made, and the taker's by its leftover
      if that rests. */
  lemma SubmissionSettles(book: seq<Order>, taker: Order, response: Response, step: nat, agent: AgentId)
    requires Conforms(book, taker, None, response)
    ensures RestingOf(BookAfter(book, taker, response), agent)
            + MadeBy(TradesAfter(book, taker, response, step), agent)
         == RestingOf(book, agent)
            + if response.Accepted? && response.rests && taker.agent == agent
              then taker.remaining - Matched(response.fills) else 0
  {
    match response
    case Rejected =>
    case Accepted(fills, rests) =>
      var left := taker.(remaining := taker.remaining - Matched(fills));
      MakersGiveUp(book, taker, fills, step, agent);
      RestingOfConcat(ReduceAll(book, fills), if rests then [left] else [], agent);
      assert [left][1..] == [];
  }

  /** One trade per fill, at its price and quantity, between the order's owner and the taker. */
  predicate Prints(book: seq<Order>, taker: Order, fill: Fill, trade: Trade, step: nat) {
    && trade.makerId == fill.makerId && trade.quantity == fill.quantity && trade.price == fill.price
    && trade.takerId == taker.id && trade.takerAgent == taker.agent && trade.takerSide == taker.side
    && trade.symbol == taker.symbol && trade.step == step
    && exists o :: o in book && o.id == fill.makerId && o.agent == trade.makerAgent
  }

  lemma {:induction false} ReducedOwners(book: seq<Order>, id: OrderId, quantity: nat, o: Order)
    requires o in Reduce(book, id, quantity)
    ensures exists p :: p in book && p.id == o.id && p.agent == o.agent
  {
    assert book == [book[0]] + book[1..];
    if book[0].id == id {
      if o in book[1..] {
        assert o in book;
      } else {
        assert o.id == book[0].id && o.agent == book[0].agent && book[0] in book;
      }
    } else if o != book[0] {
      ReducedOwners(book[1..], id, quantity, o);
      var p :| p in book[1..] && p.id == o.id && p.agent == o.agent;
      assert p in book;
    }
  }

  lemma {:induction false} FoundInBook(book: seq<Order>, id: OrderId)
    requires Find(book, id).Some?
    ensures Find(book, id).value in book && Find(book, id).value.id == id
  {
    if book[0].id != id {
      FoundInBook(book[1..], id);
    }
  }

  /** The trades of a submission are its fills, in order. */
  lemma {:induction false} TradesPrintFills(book: seq<Order>, taker: Order, fills: seq<Fill>, step: nat)
    requires FillsFit(book, taker, fills)
    ensures var trades := TradesOf(book, taker, fills, step);
            |trades| == |fills| && forall i :: 0 <= i < |fills| ==> Prints(book, taker, fills[i], trades[i], step)
    decreases fills
  {
    if fills != [] {
      var after := Reduce(book, fills[0].makerId, fills[0].quantity);
      var trades := TradesOf(book, taker, fills, step);
      TradesPrintFills(after, taker, fills[1..], step);
      FoundInBook(book, fills[0].makerId);
      forall i | 0 <= i < |fills|
        ensures Prints(book, taker, fills[i], trades[i], step)
      {
        if i != 0 {
          assert trades[i] == TradesOf(after, taker, fills[1..], step)[i - 1] && fills[i] == fills[1..][i - 1];
          assert Prints(after, taker, fills[i], trades[i], step);
          var o :| o in after && o.id == fills[i].makerId && o.agent == trades[i].makerAgent;
          ReducedOwners(book, fills[0].makerId, fills[0].quantity, o);
        }
      }
    }
  }
}
