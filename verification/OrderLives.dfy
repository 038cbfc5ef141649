/** What becomes of each order of the execution agent: while it travels, once it is
    refused, and once it is accepted, its quantity is always accounted for. */
module OrderLives {
  import opened Wrappers
  import opened Venue
  import opened ExecutionMachine
  import opened StrategyLedger
  import opened StepChecks

  /** The part of the state that order accounting depends on. */
  datatype Desk = Desk(clock: nat, pending: seq<Message>, book: seq<Order>, log: seq<OrderRow>, trades: seq<Trade>)

  function DeskOf(s: State): Desk {
    Desk(s.clock, s.pending, s.book, s.orderLog, s.tradeLog)
  }

  function CarriedUnder(m: Message, id: OrderId): nat {
    match m.body
    case Arrival(order) => if order.id == id then order.remaining else 0
    case Cancellation(_, _) => 0
  }

  function TransitUnder(pending: seq<Message>, id: OrderId): nat {
    if pending == [] then 0 else CarriedUnder(pending[0], id) + TransitUnder(pending[1..], id)
  }

  function FilledUnder(trades: seq<Trade>, agent: AgentId, id: OrderId): nat {
    SumFor(FilledEntries(trades, agent), id)
  }

  function FilledUnderBefore(trades: seq<Trade>, agent: AgentId, id: OrderId, bound: nat): nat {
    BeforeFor(FilledEntries(trades, agent), id, bound)
  }

  // ----- invariants

  /** Where an order's quantity is, by the state of its log row. */
  predicate RowFits(row: OrderRow, clock: nat, transit: nat, resting: nat, filled: nat) {
    && row.submittedStep <= clock
    && match row.accepted
       case None => row.arrivalStep.None? && transit == row.quantity && resting == 0 && filled == 0
       case Some(accepted) =>
         && row.arrivalStep.Some? && row.submittedStep <= row.arrivalStep.value <= clock && transit == 0
         && (if accepted then filled + resting <= row.quantity else filled == 0 && resting == 0)
  }

  predicate RowLives(d: Desk, agent: AgentId, row: OrderRow) {
    && RowFits(row, d.clock, TransitUnder(d.pending, row.id), RestingUnder(d.book, row.id),
               FilledUnder(d.trades, agent, row.id))
    && FilledUnderBefore(d.trades, agent, row.id, row.submittedStep) == 0
  }

  predicate AllLive(d: Desk, agent: AgentId) {
    forall i :: 0 <= i < |d.log| && d.log[i].agent == agent ==> RowLives(d, agent, d.log[i])
  }

  /** All rows but that of order `id`. */
  predicate OthersLive(d: Desk, agent: AgentId, id: OrderId) {
    forall i :: 0 <= i < |d.log| && d.log[i].agent == agent && d.log[i].id != id ==> RowLives(d, agent, d.log[i])
  }

  predicate FiledWhole(log: seq<OrderRow>, order: Order) {
    exists i :: 0 <= i < |log| && log[i].id == order.id && log[i].agent == order.agent
                && log[i].quantity == order.remaining && 0 < order.remaining
  }

  predicate MessageFiled(log: seq<OrderRow>, m: Message) {
    m.body.Arrival? ==> FiledWhole(log, m.body.order)
  }

  predicate TradeFiled(log: seq<OrderRow>, t: Trade) {
    Filed(log, t.makerId, t.makerAgent) && Filed(log, t.takerId, t.takerAgent)
  }

  predicate PendingFiled(log: seq<OrderRow>, pending: seq<Message>) {
    forall m :: m in pending ==> MessageFiled(log, m)
  }

  predicate BookFiled(log: seq<OrderRow>, book: seq<Order>) {
    forall o :: o in book ==> Filed(log, o.id, o.agent)
  }

  predicate TradesFiled(log: seq<OrderRow>, trades: seq<Trade>) {
    forall t :: t in trades ==> TradeFiled(log, t)
  }

  predicate TradedBy(trades: seq<Trade>, clock: nat) {
    forall t :: t in trades ==> t.step <= clock
  }

  /** Every order, trade and message refers to a row of the log, and rows have distinct ids. */
  predicate Tidy(d: Desk) {
    && DistinctIds(d.log)
    && PendingFiled(d.log, d.pending) && BookFiled(d.log, d.book) && TradesFiled(d.log, d.trades)
    && TradedBy(d.trades, d.clock)
  }

  predicate NoSelfTrades(trades: seq<Trade>, agent: AgentId) {
    forall t :: t in trades ==> !(t.makerAgent == agent && t.takerAgent == agent)
  }

  // ----- quantity of an order that left at some step, seen from before `bound`

  /** Rejected and expired quantity of a row. */
  function Lost(row: OrderRow, resting: nat, filled: nat): nat {
    match row.accepted
    case None => 0
    case Some(accepted) =>
      if !accepted then row.quantity
      else if row.quantity <= filled + resting then 0 else row.quantity - filled - resting
  }

  /** What the reconstructed ledger will call the order's active quantity before `bound`. */
  function RowActive(d: Desk, agent: AgentId, row: OrderRow, bound: nat): int {
    (if row.submittedStep < bound then row.quantity else 0)
    - FilledUnderBefore(d.trades, agent, row.id, bound)
    - (if row.arrivalStep.Some? && row.arrivalStep.value < bound
       then Lost(row, RestingUnder(d.book, row.id), FilledUnder(d.trades, agent, row.id)) else 0)
  }

  /** No row the agent already had changes its closed steps. */
  predicate ClosedStepsKept(d: Desk, d': Desk, agent: AgentId) {
    && |d.log| <= |d'.log| && d'.clock >= d.clock
    && (forall i :: 0 <= i < |d.log| ==>
          && d'.log[i].id == d.log[i].id && d'.log[i].agent == d.log[i].agent
          && d'.log[i].quantity == d.log[i].quantity && d'.log[i].submittedStep == d.log[i].submittedStep)
    && (forall i, bound: nat :: 0 <= i < |d.log| && d.log[i].agent == agent && bound <= d.clock ==>
          RowActive(d', agent, d'.log[i], bound) == RowActive(d, agent, d.log[i], bound))
    && (forall i :: |d.log| <= i < |d'.log| ==> d.clock <= d'.log[i].submittedStep)
    && (forall bound: nat :: bound <= d.clock ==>
          AllBefore(FilledEntries(d'.trades, agent), bound) == AllBefore(FilledEntries(d.trades, agent), bound))
  }

  // ----- entries of longer logs

  lemma {:induction false} FilledEntriesConcat(a: seq<Trade>, b: seq<Trade>, agent: AgentId)
    ensures FilledEntries(a + b, agent) == FilledEntries(a, agent) + FilledEntries(b, agent)
  {
    if b == [] {
      assert a + b == a;
    } else {
      var front, last := b[..|b| - 1], b[|b| - 1];
      assert (a + b)[..|a + b| - 1] == a + front;
      FilledEntriesConcat(a, front, agent);
    }
  }

  lemma {:induction false} SumForConcat(a: seq<Entry>, b: seq<Entry>, id: OrderId)
    ensures SumFor(a + b, id) == SumFor(a, id) + SumFor(b, id)
  {
    if b == [] {
      assert a + b == a;
    } else {
      assert (a + b)[..|a + b| - 1] == a + b[..|b| - 1];
      SumForConcat(a, b[..|b| - 1], id);
    }
  }

  lemma {:induction false} LaterEntriesDoNotCount(a: seq<Entry>, b: seq<Entry>, id: OrderId, bound: nat)
    requires forall e :: e in b ==> bound <= e.step
    ensures BeforeFor(a + b, id, bound) == BeforeFor(a, id, bound)
    ensures AllBefore(a + b, bound) == AllBefore(a, bound)
  {
    if b == [] {
      assert a + b == a;
    } else {
      assert (a + b)[..|a + b| - 1] == a + b[..|b| - 1];
      assert b[|b| - 1] in b;
      LaterEntriesDoNotCount(a, b[..|b| - 1], id, bound);
    }
  }

  lemma {:induction false} EntriesKeepSteps(trades: seq<Trade>, agent: AgentId, step: nat)
    requires forall t :: t in trades ==> t.step == step
    ensures forall e :: e in FilledEntries(trades, agent) ==> e.step == step
  {
    if trades != [] {
      assert trades[|trades| - 1] in trades;
      EntriesKeepSteps(trades[..|trades| - 1], agent, step);
    }
  }

  /** Appending this step's trades adds to an order's fills, but not to its earlier ones. */
  lemma FillsGrow(trades: seq<Trade>, more: seq<Trade>, agent: AgentId, id: OrderId, step: nat)
    requires forall t :: t in more ==> t.step == step
    ensures FilledUnder(trades + more, agent, id) == FilledUnder(trades, agent, id) + FilledUnder(more, agent, id)
    ensures forall bound: nat :: bound <= step ==>
              && FilledUnderBefore(trades + more, agent, id, bound) == FilledUnderBefore(trades, agent, id, bound)
              && AllBefore(FilledEntries(trades + more, agent), bound) == AllBefore(FilledEntries(trades, agent), bound)
  {
    FilledEntriesConcat(trades, more, agent);
    EntriesKeepSteps(more, agent, step);
    SumForConcat(FilledEntries(trades, agent), FilledEntries(more, agent), id);
    forall bound: nat | bound <= step
      ensures FilledUnderBefore(trades + more, agent, id, bound) == FilledUnderBefore(trades, agent, id, bound)
      ensures AllBefore(FilledEntries(trades + more, agent), bound) == AllBefore(FilledEntries(trades, agent), bound)
    {
      LaterEntriesDoNotCount(FilledEntries(trades, agent), FilledEntries(more, agent), id, bound);
    }
  }

  // ----- what one submission does to one order of the agent

  /** Orders under this id, if any, are the agent's. */
  predicate OwnedUnder(book: seq<Order>, id: OrderId, agent: AgentId) {
    forall o :: o in book && o.id == id ==> o.agent == agent
  }

  lemma {:induction false} ReduceUnder(book: seq<Order>, maker: OrderId, quantity: nat, id: OrderId, agent: AgentId)
    requires Find(book, maker).Some? && quantity <= Find(book, maker).value.remaining
    requires OwnedUnder(book, id, agent)
    ensures RestingUnder(book, id)
         == RestingUnder(Reduce(book, maker, quantity), id) + if maker == id then quantity else 0
    ensures OwnedUnder(Reduce(book, maker, quantity), id, agent)
  {
    assert book[0] in book;
    if book[0].id != maker {
      assert OwnedUnder(book[1..], id, agent);
      ReduceUnder(book[1..], maker, quantity, id, agent);
    } else if book[0].remaining > quantity {
      assert OwnedUnder(book[1..], id, agent);
      assert book[0].(remaining := book[0].remaining - quantity).agent == book[0].agent;
    }
  }

  lemma OneFill(trade: Trade, rest: seq<Trade>, agent: AgentId, id: OrderId)
    ensures FilledUnder([trade] + rest, agent, id)
         == FilledUnder(rest, agent, id) + if StrategyOrderId(trade, agent) == Some(id) then trade.quantity else 0
  {
    FilledEntriesConcat([trade], rest, agent);
    SumForConcat(FilledEntries([trade], agent), FilledEntries(rest, agent), id);
    assert [trade][..0] == [];
    assert FilledEntries([], agent) == [];
    assert FilledEntries([trade], agent) == [] + Listed(FilledEntry(trade, agent)) == Listed(FilledEntry(trade, agent));
    match FilledEntry(trade, agent)
    case Some(e) => assert [e][..0] == [];
    case None =>
  }

  lemma {:induction false} FillsMoveQuantity(book: seq<Order>, taker: Order, fills: seq<Fill>, step: nat,
                                             agent: AgentId, id: OrderId)
    requires FillsFit(book, taker, fills) && OwnedUnder(book, id, agent)
    requires taker.id == id ==> taker.agent == agent
    requires NoSelfTrades(TradesOf(book, taker, fills, step), agent)
    ensures FilledUnder(TradesOf(book, taker, fills, step), agent, id) + RestingUnder(ReduceAll(book, fills), id)
         == RestingUnder(book, id) + if taker.id == id then Matched(fills) else 0
    decreases fills
  {
    if fills != [] {
      var f := fills[0];
      var maker := Find(book, f.makerId).value;
      var after := Reduce(book, f.makerId, f.quantity);
      var trades := TradesOf(book, taker, fills, step);
      var rest := TradesOf(after, taker, fills[1..], step);
      assert trades == [trades[0]] + rest;
      assert trades[0] in trades;
      assert forall t :: t in rest ==> t in trades;
      FindIsInBook(book, f.makerId);
      FindHasId(book, f.makerId);
      ReduceUnder(book, f.makerId, f.quantity, id, agent);
      FillsMoveQuantity(after, taker, fills[1..], step, agent, id);
      OneFill(trades[0], rest, agent, id);
    }
  }

  lemma {:induction false} FindHasId(book: seq<Order>, id: OrderId)
    requires Find(book, id).Some?
    ensures Find(book, id).value.id == id
  {
    if book[0].id != id {
      FindHasId(book[1..], id);
    }
  }

  lemma {:induction false} RestingUnderConcat(a: seq<Order>, b: seq<Order>, id: OrderId)
    ensures RestingUnder(a + b, id) == RestingUnder(a, id) + RestingUnder(b, id)
  {
    if a == [] {
      assert a + b == b;
    } else {
      assert (a + b)[1..] == a[1..] + b;
      RestingUnderConcat(a[1..], b, id);
    }
  }

  lemma {:induction false} TradesHappenNow(book: seq<Order>, taker: Order, fills: seq<Fill>, step: nat)
    requires FillsFit(book, taker, fills)
    ensures forall t :: t in TradesOf(book, taker, fills, step) ==> t.step == step
    decreases fills
  {
    if fills != [] {
      TradesHappenNow(Reduce(book, fills[0].makerId, fills[0].quantity), taker, fills[1..], step);
    }
  }

  /** What a submission does to the quantity of one order of the agent: for others, fills come
      out of what rests; the submitted order itself fills and possibly rests. */
  lemma SubmissionMovesQuantity(book: seq<Order>, taker: Order, response: Response, step: nat,
                                agent: AgentId, id: OrderId)
    requires Conforms(book, taker, None, response) && OwnedUnder(book, id, agent)
    requires taker.id == id ==> taker.agent == agent
    requires NoSelfTrades(TradesAfter(book, taker, response, step), agent)
    ensures var filled := FilledUnder(TradesAfter(book, taker, response, step), agent, id);
            var resting := RestingUnder(BookAfter(book, taker, response), id);
            && (taker.id != id ==> filled + resting == RestingUnder(book, id))
            && (taker.id == id ==> filled + resting <= RestingUnder(book, id) + taker.remaining)
            && (response.Rejected? ==> filled == 0 && resting == RestingUnder(book, id))
  {
    match response
    case Rejected =>
    case Accepted(fills, rests) =>
      FillsMoveQuantity(book, taker, fills, step, agent, id);
      RestingUnderConcat(ReduceAll(book, fills),
                         if rests then [taker.(remaining := taker.remaining - Matched(fills))] else [], id);
  }

  // ----- rows keep their names

  predicate SameRows(log: seq<OrderRow>, log': seq<OrderRow>) {
    && |log| == |log'|
    && forall i :: 0 <= i < |log| ==>
         log'[i].id == log[i].id && log'[i].agent == log[i].agent && log'[i].quantity == log[i].quantity
         && log'[i].submittedStep == log[i].submittedStep
  }

  lemma {:induction false} ResolveOneRow(log: seq<OrderRow>, id: OrderId, arrival: Option<nat>, accepted: bool)
    requires DistinctIds(log)
    ensures var log' := Resolve(log, id, arrival, accepted);
            && SameRows(log, log')
            && forall i :: 0 <= i < |log| ==>
                 log'[i] == if log[i].id == id then log[i].(arrivalStep := arrival, accepted := Some(accepted))
                            else log[i]
  {
    if log != [] && log[0].id != id {
      ResolveOneRow(log[1..], id, arrival, accepted);
    }
  }

  lemma FiledAs(log: seq<OrderRow>, i: int, id: OrderId, agent: AgentId)
    requires DistinctIds(log) && Filed(log, id, agent) && 0 <= i < |log| && log[i].id == id
    ensures log[i].agent == agent
  {
    var j :| 0 <= j < |log| && log[j].id == id && log[j].agent == agent;
    assert i == j;
  }

  lemma SameRowsKeepFiling(d: Desk, log': seq<OrderRow>)
    requires Tidy(d) && SameRows(d.log, log')
    ensures Tidy(d.(log := log'))
  {
    forall m | m in d.pending && m.body.Arrival?
      ensures MessageFiled(log', m)
    {
      assert MessageFiled(d.log, m);
      var order := m.body.order;
      var i :| 0 <= i < |d.log| && d.log[i].id == order.id && d.log[i].agent == order.agent
               && d.log[i].quantity == order.remaining && 0 < order.remaining;
      assert log'[i].id == order.id;
    }
    forall o | o in d.book
      ensures Filed(log', o.id, o.agent)
    {
      SameRowsFile(d.log, log', o.id, o.agent);
    }
    forall t | t in d.trades
      ensures TradeFiled(log', t)
    {
      assert TradeFiled(d.log, t);
      SameRowsFile(d.log, log', t.makerId, t.makerAgent);
      SameRowsFile(d.log, log', t.takerId, t.takerAgent);
    }
  }

  lemma SameRowsFile(log: seq<OrderRow>, log': seq<OrderRow>, id: OrderId, agent: AgentId)
    requires SameRows(log, log') && Filed(log, id, agent)
    ensures Filed(log', id, agent)
  {
    var i :| 0 <= i < |log| && log[i].id == id && log[i].agent == agent;
    assert log'[i].id == id;
  }

  lemma OwnBook(d: Desk, i: int)
    requires Tidy(d) && 0 <= i < |d.log|
    ensures OwnedUnder(d.book, d.log[i].id, d.log[i].agent)
  {
    forall o | o in d.book && o.id == d.log[i].id
      ensures o.agent == d.log[i].agent
    {
      FiledAs(d.log, i, o.id, o.agent);
    }
  }

  // ----- trades and books after a submission are filed

  lemma {:induction false} ReduceKeepsFiling(log: seq<OrderRow>, book: seq<Order>, id: OrderId, quantity: nat)
    requires BookFiled(log, book)
    ensures BookFiled(log, Reduce(book, id, quantity))
  {
    if book != [] {
      assert BookFiled(log, book[1..]) && Filed(log, book[0].id, book[0].agent);
      if book[0].id != id {
        ReduceKeepsFiling(log, book[1..], id, quantity);
      }
    }
  }

  lemma {:induction false} RemoveKeepsFiling(log: seq<OrderRow>, book: seq<Order>, id: OrderId)
    requires BookFiled(log, book)
    ensures BookFiled(log, Remove(book, id))
  {
    if book != [] {
      assert BookFiled(log, book[1..]) && Filed(log, book[0].id, book[0].agent);
      if book[0].id != id {
        RemoveKeepsFiling(log, book[1..], id);
      }
    }
  }

  lemma {:induction false} FillsAreFiled(log: seq<OrderRow>, book: seq<Order>, taker: Order, fills: seq<Fill>,
                                         step: nat)
    requires FillsFit(book, taker, fills) && BookFiled(log, book) && Filed(log, taker.id, taker.agent)
    ensures BookFiled(log, ReduceAll(book, fills)) && TradesFiled(log, TradesOf(book, taker, fills, step))
    decreases fills
  {
    if fills != [] {
      var f := fills[0];
      FindIsInBook(book, f.makerId);
      ReduceKeepsFiling(log, book, f.makerId, f.quantity);
      FillsAreFiled(log, Reduce(book, f.makerId, f.quantity), taker, fills[1..], step);
    }
  }
}
