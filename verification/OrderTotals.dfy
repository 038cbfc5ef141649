/** Adding up over the agent's orders: what each order has in transit, at rest, filled and
    active is exactly what the whole heap, book, trade log and ledger hold for the agent. */
module OrderTotals {
  import opened Wrappers
  import opened Venue
  import opened ExecutionMachine
  import opened StrategyLedger
  import opened OrderLives
  import opened DeskMoves

  /** A per-order amount summed over the agent's rows of the log. */
  function OverRows(log: seq<OrderRow>, agent: AgentId, amount: OrderId -> nat): nat {
    if log == [] then 0
    else
      var last := log[|log| - 1];
      OverRows(log[..|log| - 1], agent, amount) + if last.agent == agent then amount(last.id) else 0
  }

  lemma {:induction false} SumOfAmounts(log: seq<OrderRow>, agent: AgentId, a: OrderId -> nat, b: OrderId -> nat,
                                        both: OrderId -> nat)
    requires forall id :: both(id) == a(id) + b(id)
    ensures OverRows(log, agent, both) == OverRows(log, agent, a) + OverRows(log, agent, b)
  {
    if log != [] {
      SumOfAmounts(log[..|log| - 1], agent, a, b, both);
    }
  }

  lemma {:induction false} AbsentFromRows(log: seq<OrderRow>, agent: AgentId, amount: OrderId -> nat)
    requires forall i :: 0 <= i < |log| && log[i].agent == agent ==> amount(log[i].id) == 0
    ensures OverRows(log, agent, amount) == 0
  {
    if log != [] {
      AbsentFromRows(log[..|log| - 1], agent, amount);
    }
  }

  /** An amount held by one order is counted once, if the order is the agent's. */
  lemma {:induction false} CountedOnce(log: seq<OrderRow>, agent: AgentId, amount: OrderId -> nat,
                                       id: OrderId, owner: AgentId)
    requires DistinctIds(log) && Filed(log, id, owner) && forall x :: x != id ==> amount(x) == 0
    ensures OverRows(log, agent, amount) == if owner == agent then amount(id) else 0
  {
    var front, last := log[..|log| - 1], log[|log| - 1];
    if last.id == id {
      FiledAs(log, |log| - 1, id, owner);
      AbsentFromRows(front, agent, amount);
    } else {
      var i :| 0 <= i < |log| && log[i].id == id && log[i].agent == owner;
      assert front[i].id == id;
      CountedOnce(front, agent, amount, id, owner);
    }
  }

  lemma {:induction false} RestingSplits(log: seq<OrderRow>, agent: AgentId, book: seq<Order>)
    requires DistinctIds(log) && BookFiled(log, book)
    ensures OverRows(log, agent, id => RestingUnder(book, id)) == RestingOf(book, agent)
  {
    if book == [] {
      AbsentFromRows(log, agent, id => RestingUnder([], id));
    } else {
      var first, rest := book[0], book[1..];
      assert Filed(log, first.id, first.agent);
      RestingSplits(log, agent, rest);
      var one := (id: OrderId) => if first.id == id then first.remaining else 0;
      CountedOnce(log, agent, one, first.id, first.agent);
      SumOfAmounts(log, agent, one, id => RestingUnder(rest, id), id => RestingUnder(book, id));
    }
  }

  lemma {:induction false} TransitSplits(log: seq<OrderRow>, agent: AgentId, pending: seq<Message>)
    requires DistinctIds(log) && PendingFiled(log, pending)
    ensures OverRows(log, agent, id => TransitUnder(pending, id)) == QueuedOf(pending, agent)
  {
    if pending == [] {
      AbsentFromRows(log, agent, id => TransitUnder([], id));
    } else {
      var first, rest := pending[0], pending[1..];
      assert MessageFiled(log, first);
      TransitSplits(log, agent, rest);
      var one := (id: OrderId) => CarriedUnder(first, id);
      match first.body {
        case Arrival(order) => CountedOnce(log, agent, one, order.id, order.agent);
        case Cancellation(_, _) => AbsentFromRows(log, agent, one);
      }
      SumOfAmounts(log, agent, one, id => TransitUnder(rest, id), id => TransitUnder(pending, id));
    }
  }

  lemma {:induction false} OwnEntries(log: seq<OrderRow>, agent: AgentId, trades: seq<Trade>)
    requires TradesFiled(log, trades)
    ensures forall e :: e in FilledEntries(trades, agent) ==> Filed(log, e.id, agent)
  {
    if trades != [] {
      assert TradeFiled(log, trades[|trades| - 1]);
      OwnEntries(log, agent, trades[..|trades| - 1]);
    }
  }

  lemma {:induction false} EntriesSplit(log: seq<OrderRow>, agent: AgentId, entries: seq<Entry>, bound: nat)
    requires DistinctIds(log) && forall e :: e in entries ==> Filed(log, e.id, agent)
    ensures OverRows(log, agent, id => BeforeFor(entries, id, bound)) == AllBefore(entries, bound)
  {
    if entries == [] {
      AbsentFromRows(log, agent, id => BeforeFor([], id, bound));
    } else {
      var front, last := entries[..|entries| - 1], entries[|entries| - 1];
      EntriesSplit(log, agent, front, bound);
      assert last in entries;
      var one := (id: OrderId) => if last.id == id && last.step < bound then last.quantity else 0;
      CountedOnce(log, agent, one, last.id, agent);
      SumOfAmounts(log, agent, id => BeforeFor(front, id, bound), one, id => BeforeFor(entries, id, bound));
    }
  }

  lemma FillsSplit(log: seq<OrderRow>, agent: AgentId, trades: seq<Trade>, bound: nat)
    requires DistinctIds(log) && TradesFiled(log, trades)
    ensures OverRows(log, agent, id => BeforeFor(FilledEntries(trades, agent), id, bound))
         == AllBefore(FilledEntries(trades, agent), bound)
  {
    OwnEntries(log, agent, trades);
    EntriesSplit(log, agent, FilledEntries(trades, agent), bound);
  }

  // ----- the agent's active quantity before a step

  function RowsActive(d: Desk, agent: AgentId, log: seq<OrderRow>, bound: nat): int {
    if log == [] then 0
    else
      var last := log[|log| - 1];
      RowsActive(d, agent, log[..|log| - 1], bound)
      + if last.agent == agent then RowActive(d, agent, last, bound) else 0
  }

  function TotalActive(d: Desk, agent: AgentId, bound: nat): int {
    RowsActive(d, agent, d.log, bound)
  }

  lemma {:induction false} EverythingIsBefore(trades: seq<Trade>, agent: AgentId, id: OrderId, clock: nat, bound: nat)
    requires TradedBy(trades, clock) && clock < bound
    ensures FilledUnderBefore(trades, agent, id, bound) == FilledUnder(trades, agent, id)
    ensures AllBefore(FilledEntries(trades, agent), bound) == Sum(FilledEntries(trades, agent))
  {
    if trades != [] {
      var front, last := trades[..|trades| - 1], trades[|trades| - 1];
      assert last in trades;
      EverythingIsBefore(front, agent, id, clock, bound);
      var entries := FilledEntries(front, agent);
      match FilledEntry(last, agent)
      case None => assert FilledEntries(trades, agent) == entries;
      case Some(e) => assert (entries + [e])[..|entries|] == entries;
    }
  }

  lemma {:induction false} RowsActiveNow(d: Desk, agent: AgentId, log: seq<OrderRow>, bound: nat)
    requires TradedBy(d.trades, d.clock) && d.clock < bound
    requires forall i :: 0 <= i < |log| && log[i].agent == agent ==> RowLives(d, agent, log[i])
    ensures RowsActive(d, agent, log, bound)
         == OverRows(log, agent, id => TransitUnder(d.pending, id))
            + OverRows(log, agent, id => RestingUnder(d.book, id))
  {
    if log != [] {
      var last := log[|log| - 1];
      RowsActiveNow(d, agent, log[..|log| - 1], bound);
      if last.agent == agent {
        assert RowLives(d, agent, last);
        EverythingIsBefore(d.trades, agent, last.id, d.clock, bound);
      }
    }
  }

  /** Seen from after the current step, the active quantity is what is queued and resting. */
  lemma ActiveNow(d: Desk, agent: AgentId, bound: nat)
    requires InOrder(d, agent) && d.clock < bound
    ensures TotalActive(d, agent, bound) == QueuedOf(d.pending, agent) + RestingOf(d.book, agent)
  {
    RowsActiveNow(d, agent, d.log, bound);
    TransitSplits(d.log, agent, d.pending);
    RestingSplits(d.log, agent, d.book);
  }

  lemma {:induction false} BeforeGrows(entries: seq<Entry>, id: OrderId, bound: nat, later: nat)
    requires bound <= later
    ensures BeforeFor(entries, id, bound) <= BeforeFor(entries, id, later)
  {
    if entries != [] {
      BeforeGrows(entries[..|entries| - 1], id, bound, later);
    }
  }

  /** An order is nowhere to be seen before its own submission. */
  lemma NotYetActive(d: Desk, agent: AgentId, row: OrderRow, bound: nat)
    requires RowLives(d, agent, row) && bound <= row.submittedStep
    ensures RowActive(d, agent, row, bound) == 0
  {
    BeforeGrows(FilledEntries(d.trades, agent), row.id, bound, row.submittedStep);
  }

  /** Rows that are each as active in one desk as in the other are so together. */
  lemma {:induction false} RowsActiveAlike(d: Desk, d': Desk, agent: AgentId, log: seq<OrderRow>, log': seq<OrderRow>,
                                           bound: nat)
    requires |log| == |log'| && forall i :: 0 <= i < |log| ==> log'[i].agent == log[i].agent
    requires forall i :: 0 <= i < |log| && log[i].agent == agent ==>
               RowActive(d', agent, log'[i], bound) == RowActive(d, agent, log[i], bound)
    ensures RowsActive(d', agent, log', bound) == RowsActive(d, agent, log, bound)
  {
    if log != [] {
      RowsActiveAlike(d, d', agent, log[..|log| - 1], log'[..|log| - 1], bound);
    }
  }

  lemma {:induction false} NewRowsInactive(d: Desk, agent: AgentId, log: seq<OrderRow>, before: nat, bound: nat)
    requires before <= |log|
    requires forall i :: before <= i < |log| && log[i].agent == agent ==> RowActive(d, agent, log[i], bound) == 0
    ensures RowsActive(d, agent, log, bound) == RowsActive(d, agent, log[..before], bound)
  {
    if |log| == before {
      assert log[..before] == log;
    } else {
      assert log[..|log| - 1][..before] == log[..before];
      NewRowsInactive(d, agent, log[..|log| - 1], before, bound);
    }
  }

  lemma ActiveKept(d: Desk, d': Desk, agent: AgentId, bound: nat)
    requires ClosedStepsKept(d, d', agent) && AllLive(d', agent) && bound <= d.clock
    ensures TotalActive(d', agent, bound) == TotalActive(d, agent, bound)
  {
    forall i | |d.log| <= i < |d'.log| && d'.log[i].agent == agent
      ensures RowActive(d', agent, d'.log[i], bound) == 0
    {
      NotYetActive(d', agent, d'.log[i], bound);
    }
    NewRowsInactive(d', agent, d'.log, |d.log|, bound);
    RowsActiveAlike(d, d', agent, d.log, d'.log[..|d.log|], bound);
  }
}
