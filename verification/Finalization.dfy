/** Resolving the order log after the last step, and what the resolved rows say about the
    orders of the execution agent. */
module Finalization {
  import opened Wrappers
  import opened Venue
  import opened ExecutionMachine
  import opened StrategyLedger
  import opened StrategySteps
  import opened OrderLives
  import opened DeskMoves
  import opened EventAccounts
  import opened OrderTotals

  // ----- the resolution, row by row

  /** Fills of an order, from either side of the trade log. */
  function FilledQuantity(trades: seq<Trade>, id: OrderId): nat {
    if trades == [] then 0
    else
      var last := trades[|trades| - 1];
      FilledQuantity(trades[..|trades| - 1], id) + if last.makerId == id || last.takerId == id then last.quantity else 0
  }

  /** The cancelled quantity of an order; a later cancel row replaces an earlier one. */
  function CancelledQuantity(cancels: seq<CancelRow>, id: OrderId): nat {
    if cancels == [] then 0
    else
      var last := cancels[|cancels| - 1];
      if last.id == id then last.quantity else CancelledQuantity(cancels[..|cancels| - 1], id)
  }

  function FinalRow(d: Desk, cancels: seq<CancelRow>, row: OrderRow): LedgerOrder {
    var filled := FilledQuantity(d.trades, row.id);
    var cancelled := CancelledQuantity(cancels, row.id);
    var rejected, expired :=
      match row.accepted {
        case None => 0
        case Some(accepted) => if !accepted && cancelled == 0 then row.quantity else 0
      },
      match row.accepted {
        case None => 0
        case Some(accepted) =>
          var active := RestingUnder(d.book, row.id);
          if !accepted || row.quantity <= filled + cancelled + active then 0
          else row.quantity - filled - cancelled - active
      };
    LedgerOrder(row.id, row.agent, row.quantity, row.submittedStep, row.arrivalStep, rejected, expired)
  }

  function FinalRows(d: Desk, cancels: seq<CancelRow>, log: seq<OrderRow>): seq<LedgerOrder> {
    if log == [] then []
    else FinalRows(d, cancels, log[..|log| - 1]) + [FinalRow(d, cancels, log[|log| - 1])]
  }

  function FinalCancels(cancels: seq<CancelRow>): seq<LedgerCancel> {
    if cancels == [] then []
    else
      var last := cancels[|cancels| - 1];
      FinalCancels(cancels[..|cancels| - 1]) + [LedgerCancel(last.id, last.agent, last.quantity, last.effectiveStep)]
  }

  /** The logs the reconstruction reads after a run. `inventory` holds the account inventory of
      whichever steps the run collected. */
  function Finalized(cfg: Config, s: State, arrivalPrice: nat, inventory: map<nat, int>): Logs {
    Logs(cfg.execution, cfg.symbol, Direction(cfg.side), cfg.target, arrivalPrice,
         FinalRows(DeskOf(s), s.cancelLog, s.orderLog), FinalCancels(s.cancelLog), s.tradeLog, inventory)
  }

  // ----- for the agent's orders the resolution only splits off what was lost

  lemma {:induction false} SidesAgree(d: Desk, trades: seq<Trade>, agent: AgentId, i: int)
    requires Tidy(d) && 0 <= i < |d.log| && d.log[i].agent == agent
    requires TradesFiled(d.log, trades) && NoSelfTrades(trades, agent)
    ensures FilledQuantity(trades, d.log[i].id) == FilledUnder(trades, agent, d.log[i].id)
  {
    if trades != [] {
      var front, last := trades[..|trades| - 1], trades[|trades| - 1];
      var id := d.log[i].id;
      assert last in trades && TradeFiled(d.log, last);
      SidesAgree(d, front, agent, i);
      if last.makerId == id { FiledAs(d.log, i, id, last.makerAgent); }
      if last.takerId == id { FiledAs(d.log, i, id, last.takerAgent); }
      SumForConcat(FilledEntries(front, agent), Listed(FilledEntry(last, agent)), id);
      OneEntry(FilledEntry(last, agent), id);
    }
  }

  lemma OneEntry(entry: Option<Entry>, id: OrderId)
    ensures SumFor(Listed(entry), id) == if entry.Some? && entry.value.id == id then entry.value.quantity else 0
  {
    if entry.Some? { assert [entry.value][..0] == []; }
  }

  lemma {:induction false} NotCancelled(d: Desk, cancels: seq<CancelRow>, agent: AgentId, i: int)
    requires Tidy(d) && 0 <= i < |d.log| && d.log[i].agent == agent
    requires forall c :: c in cancels ==> c.agent != agent && Filed(d.log, c.id, c.agent)
    ensures CancelledQuantity(cancels, d.log[i].id) == 0
  {
    if cancels != [] {
      var last := cancels[|cancels| - 1];
      assert last in cancels;
      if last.id == d.log[i].id { FiledAs(d.log, i, last.id, last.agent); }
      NotCancelled(d, cancels[..|cancels| - 1], agent, i);
    }
  }

  /** Everything under which the agent's resolved rows are what its live rows promise. */
  ghost predicate Settled(d: Desk, cancels: seq<CancelRow>, agent: AgentId) {
    && InOrder(d, agent) && NoSelfTrades(d.trades, agent)
    && forall c :: c in cancels ==> c.agent != agent && Filed(d.log, c.id, c.agent)
  }

  lemma FinalRowIsLost(d: Desk, cancels: seq<CancelRow>, agent: AgentId, i: int)
    requires Settled(d, cancels, agent) && 0 <= i < |d.log| && d.log[i].agent == agent
    ensures var row := FinalRow(d, cancels, d.log[i]);
            && row.rejected + row.expired
               == Lost(d.log[i], RestingUnder(d.book, row.id), FilledUnder(d.trades, agent, row.id))
  {
    SidesAgree(d, d.trades, agent, i);
    NotCancelled(d, cancels, agent, i);
  }

  lemma {:induction false} NoCancelEntries(cancels: seq<CancelRow>, agent: AgentId)
    requires forall c :: c in cancels ==> c.agent != agent
    ensures CancelledEntries(FinalCancels(cancels), agent) == []
  {
    if cancels != [] {
      assert cancels[|cancels| - 1] in cancels;
      NoCancelEntries(cancels[..|cancels| - 1], agent);
    }
  }

  // ----- the ledger's totals

  lemma Appended(longer: seq<Entry>, entries: seq<Entry>, entry: Option<Entry>, id: OrderId, bound: nat)
    requires longer == entries + Listed(entry)
    ensures AllBefore(longer, bound)
         == AllBefore(entries, bound) + if entry.Some? && entry.value.step < bound then entry.value.quantity else 0
    ensures BeforeFor(longer, id, bound)
         == BeforeFor(entries, id, bound)
            + if entry.Some? && entry.value.id == id && entry.value.step < bound then entry.value.quantity else 0
  {
    match entry
    case Some(e) => assert (entries + [e])[..|entries|] == entries;
    case None => assert entries + [] == entries;
  }

  lemma EntriesNext(orders: seq<LedgerOrder>, order: LedgerOrder, agent: AgentId)
    ensures SubmittedEntries(orders + [order], agent)
         == SubmittedEntries(orders, agent) + Listed(SubmittedEntry(order, agent))
    ensures ExpiredEntries(orders + [order], agent)
         == ExpiredEntries(orders, agent) + Listed(ExpiredEntry(order, agent))
    ensures RejectedEntries(orders + [order], agent)
         == RejectedEntries(orders, agent) + Listed(RejectedEntry(order, agent))
  {
    assert (orders + [order])[..|orders|] == orders;
  }

  /** What one more resolved row does to each of the three lists. */
  lemma RowAppends(orders: seq<LedgerOrder>, order: LedgerOrder, agent: AgentId, id: OrderId, bound: nat)
    ensures var longer := orders + [order];
            var own := order.agent == agent;
            var there := own && order.arrivalStep.Some? && order.arrivalStep.value < bound;
            && AllBefore(SubmittedEntries(longer, agent), bound)
               == AllBefore(SubmittedEntries(orders, agent), bound)
                  + (if own && order.submittedStep < bound then order.quantity else 0)
            && AllBefore(ExpiredEntries(longer, agent), bound)
               == AllBefore(ExpiredEntries(orders, agent), bound) + (if there then order.expired else 0)
            && AllBefore(RejectedEntries(longer, agent), bound)
               == AllBefore(RejectedEntries(orders, agent), bound) + (if there then order.rejected else 0)
            && BeforeFor(SubmittedEntries(longer, agent), id, bound)
               == BeforeFor(SubmittedEntries(orders, agent), id, bound)
                  + (if own && order.id == id && order.submittedStep < bound then order.quantity else 0)
            && BeforeFor(ExpiredEntries(longer, agent), id, bound)
               == BeforeFor(ExpiredEntries(orders, agent), id, bound)
                  + (if there && order.id == id then order.expired else 0)
            && BeforeFor(RejectedEntries(longer, agent), id, bound)
               == BeforeFor(RejectedEntries(orders, agent), id, bound)
                  + (if there && order.id == id then order.rejected else 0)
  {
    var longer := orders + [order];
    EntriesNext(orders, order, agent);
    Appended(SubmittedEntries(longer, agent), SubmittedEntries(orders, agent), SubmittedEntry(order, agent), id, bound);
    Appended(ExpiredEntries(longer, agent), ExpiredEntries(orders, agent), ExpiredEntry(order, agent), id, bound);
    Appended(RejectedEntries(longer, agent), RejectedEntries(orders, agent), RejectedEntry(order, agent), id, bound);
  }

  /** What one resolved row adds before `bound`. */
  function OutstandingIn(order: LedgerOrder, agent: AgentId, bound: nat): int {
    if order.agent != agent then 0
    else (if order.submittedStep < bound then order.quantity else 0)
         - if order.arrivalStep.Some? && order.arrivalStep.value < bound then order.rejected + order.expired else 0
  }

  /** Submitted less lost quantity of the resolved rows before `bound`. */
  function Outstanding(orders: seq<LedgerOrder>, agent: AgentId, bound: nat): int {
    AllBefore(SubmittedEntries(orders, agent), bound) - AllBefore(ExpiredEntries(orders, agent), bound)
    - AllBefore(RejectedEntries(orders, agent), bound)
  }

  lemma OutstandingNext(orders: seq<LedgerOrder>, order: LedgerOrder, agent: AgentId, bound: nat)
    ensures Outstanding(orders + [order], agent, bound)
         == Outstanding(orders, agent, bound) + OutstandingIn(order, agent, bound)
  {
    RowAppends(orders, order, agent, order.id, bound);
  }

  /** A row of the agent puts its active and its filled quantity into the ledger. */
  lemma RowInLedger(d: Desk, cancels: seq<CancelRow>, agent: AgentId, i: int, bound: nat)
    requires Settled(d, cancels, agent) && 0 <= i < |d.log| && d.log[i].agent == agent
    ensures OutstandingIn(FinalRow(d, cancels, d.log[i]), agent, bound)
         == RowActive(d, agent, d.log[i], bound) + FilledUnderBefore(d.trades, agent, d.log[i].id, bound)
  {
    FinalRowIsLost(d, cancels, agent, i);
  }

  function FilledByRows(d: Desk, agent: AgentId, log: seq<OrderRow>, bound: nat): nat {
    OverRows(log, agent, id => BeforeFor(FilledEntries(d.trades, agent), id, bound))
  }

  lemma PrefixSums(d: Desk, cancels: seq<CancelRow>, agent: AgentId, n: nat, bound: nat)
    requires n < |d.log|
    ensures FinalRows(d, cancels, d.log[..n + 1])
         == FinalRows(d, cancels, d.log[..n]) + [FinalRow(d, cancels, d.log[n])]
    ensures RowsActive(d, agent, d.log[..n + 1], bound)
         == RowsActive(d, agent, d.log[..n], bound)
            + if d.log[n].agent == agent then RowActive(d, agent, d.log[n], bound) else 0
    ensures FilledByRows(d, agent, d.log[..n + 1], bound)
         == FilledByRows(d, agent, d.log[..n], bound)
            + if d.log[n].agent == agent then FilledUnderBefore(d.trades, agent, d.log[n].id, bound) else 0
  {
    PrefixOf(d.log, n);
  }

  /** How far the ledger of the first `n` rows is from their active and filled quantity. */
  function Discrepancy(d: Desk, cancels: seq<CancelRow>, agent: AgentId, n: nat, bound: nat): int
    requires n <= |d.log|
  {
    Outstanding(FinalRows(d, cancels, d.log[..n]), agent, bound)
    - RowsActive(d, agent, d.log[..n], bound) - FilledByRows(d, agent, d.log[..n], bound)
  }

  lemma DiscrepancyStays(d: Desk, cancels: seq<CancelRow>, agent: AgentId, n: nat, bound: nat)
    requires Settled(d, cancels, agent) && n < |d.log|
    ensures Discrepancy(d, cancels, agent, n + 1, bound) == Discrepancy(d, cancels, agent, n, bound)
  {
    var order := FinalRow(d, cancels, d.log[n]);
    var active := RowActive(d, agent, d.log[n], bound);
    var filled := FilledUnderBefore(d.trades, agent, d.log[n].id, bound);
    var own := d.log[n].agent == agent;
    PrefixSums(d, cancels, agent, n, bound);
    assert OutstandingIn(order, agent, bound) == if own then active + filled else 0 by {
      if own { RowInLedger(d, cancels, agent, n, bound); }
    }
    assert Outstanding(FinalRows(d, cancels, d.log[..n + 1]), agent, bound)
        == Outstanding(FinalRows(d, cancels, d.log[..n]), agent, bound) + OutstandingIn(order, agent, bound) by {
      OutstandingNext(FinalRows(d, cancels, d.log[..n]), order, agent, bound);
    }
  }

  lemma NoDiscrepancyAtFirst(d: Desk, cancels: seq<CancelRow>, agent: AgentId, bound: nat)
    ensures Discrepancy(d, cancels, agent, 0, bound) == 0
  {
    assert d.log[..0] == [];
  }

  lemma {:induction false} OutstandingIsActivePlusFilled(d: Desk, cancels: seq<CancelRow>, agent: AgentId, n: nat,
                                                         bound: nat)
    requires Settled(d, cancels, agent) && n <= |d.log|
    ensures Discrepancy(d, cancels, agent, n, bound) == 0
  {
    if n == 0 {
      NoDiscrepancyAtFirst(d, cancels, agent, bound);
    } else {
      OutstandingIsActivePlusFilled(d, cancels, agent, n - 1, bound);
      DiscrepancyStays(d, cancels, agent, n - 1, bound);
    }
  }

  /** The rebuilt active quantity before a step is the sum of the orders' own. */
  lemma LedgerActive(d: Desk, cancels: seq<CancelRow>, logs: Logs, bound: nat)
    requires Settled(d, cancels, logs.strategy)
    requires logs.orders == FinalRows(d, cancels, d.log) && logs.cancels == FinalCancels(cancels)
    requires logs.trades == d.trades
    ensures ActiveBefore(logs, bound) == TotalActive(d, logs.strategy, bound)
  {
    OutstandingIsActivePlusFilled(d, cancels, logs.strategy, |d.log|, bound);
    assert d.log[..|d.log|] == d.log;
    FillsSplit(d.log, logs.strategy, d.trades, bound);
    NoCancelEntries(cancels, logs.strategy);
  }

  // ----- no order terminates more than it submitted

  /** Submitted less lost quantity of one order before `bound`. */
  function OutstandingOf(orders: seq<LedgerOrder>, agent: AgentId, id: OrderId, bound: nat): int {
    BeforeFor(SubmittedEntries(orders, agent), id, bound) - BeforeFor(ExpiredEntries(orders, agent), id, bound)
    - BeforeFor(RejectedEntries(orders, agent), id, bound)
  }

  lemma OutstandingOfNext(orders: seq<LedgerOrder>, order: LedgerOrder, agent: AgentId, id: OrderId, bound: nat)
    ensures OutstandingOf(orders + [order], agent, id, bound)
         == OutstandingOf(orders, agent, id, bound) + if order.id == id then OutstandingIn(order, agent, bound) else 0
  {
    RowAppends(orders, order, agent, id, bound);
  }

  lemma {:induction false} OutstandingOfAbsent(d: Desk, cancels: seq<CancelRow>, log: seq<OrderRow>, agent: AgentId,
                                               id: OrderId, bound: nat)
    requires forall i :: 0 <= i < |log| ==> log[i].id != id || log[i].agent != agent
    ensures OutstandingOf(FinalRows(d, cancels, log), agent, id, bound) == 0
  {
    if log != [] {
      OutstandingOfAbsent(d, cancels, log[..|log| - 1], agent, id, bound);
      OutstandingOfNext(FinalRows(d, cancels, log[..|log| - 1]), FinalRow(d, cancels, log[|log| - 1]), agent, id,
                        bound);
    }
  }

  lemma {:induction false} OutstandingOfRow(d: Desk, cancels: seq<CancelRow>, log: seq<OrderRow>, agent: AgentId,
                                            i: int, bound: nat)
    requires DistinctIds(log) && 0 <= i < |log|
    ensures OutstandingOf(FinalRows(d, cancels, log), agent, log[i].id, bound)
         == OutstandingIn(FinalRow(d, cancels, log[i]), agent, bound)
  {
    var front, last := log[..|log| - 1], log[|log| - 1];
    if i == |log| - 1 {
      OutstandingOfAbsent(d, cancels, front, agent, log[i].id, bound);
    } else {
      OutstandingOfRow(d, cancels, front, agent, i, bound);
    }
    OutstandingOfNext(FinalRows(d, cancels, front), FinalRow(d, cancels, last), agent, log[i].id, bound);
  }

  lemma RowCoversFills(d: Desk, cancels: seq<CancelRow>, agent: AgentId, i: int, bound: nat)
    requires Settled(d, cancels, agent) && 0 <= i < |d.log| && d.log[i].agent == agent
    ensures FilledUnderBefore(d.trades, agent, d.log[i].id, bound)
         <= OutstandingIn(FinalRow(d, cancels, d.log[i]), agent, bound)
  {
    assert RowLives(d, agent, d.log[i]);
    FinalRowIsLost(d, cancels, agent, i);
    BeforeIsPart(FilledEntries(d.trades, agent), d.log[i].id, bound);
    if bound <= d.log[i].submittedStep {
      BeforeGrows(FilledEntries(d.trades, agent), d.log[i].id, bound, d.log[i].submittedStep);
    }
  }

  lemma OrderCoversFills(d: Desk, cancels: seq<CancelRow>, agent: AgentId, id: OrderId, bound: nat)
    requires Settled(d, cancels, agent)
    ensures FilledUnderBefore(d.trades, agent, id, bound)
         <= OutstandingOf(FinalRows(d, cancels, d.log), agent, id, bound)
  {
    if i :| 0 <= i < |d.log| && d.log[i].id == id && d.log[i].agent == agent {
      OutstandingOfRow(d, cancels, d.log, agent, i, bound);
      RowCoversFills(d, cancels, agent, i, bound);
    } else {
      OutstandingOfAbsent(d, cancels, d.log, agent, id, bound);
      OwnEntries(d.log, agent, d.trades);
      NoSuchEntry(FilledEntries(d.trades, agent), id, bound);
    }
  }

  lemma {:induction false} NoSuchEntry(entries: seq<Entry>, id: OrderId, bound: nat)
    requires forall e :: e in entries ==> e.id != id
    ensures BeforeFor(entries, id, bound) == 0
  {
    if entries != [] {
      assert entries[|entries| - 1] in entries;
      NoSuchEntry(entries[..|entries| - 1], id, bound);
    }
  }

  lemma LedgerNeverOverTerminates(d: Desk, cancels: seq<CancelRow>, logs: Logs, bound: nat)
    requires Settled(d, cancels, logs.strategy)
    requires logs.orders == FinalRows(d, cancels, d.log) && logs.cancels == FinalCancels(cancels)
    requires logs.trades == d.trades
    ensures NothingOverTerminated(logs, bound)
  {
    NoCancelEntries(cancels, logs.strategy);
    forall id
      ensures TerminatedBefore(logs, id, bound) <= SubmittedBefore(logs, id, bound)
    {
      OrderCoversFills(d, cancels, logs.strategy, id, bound);
    }
  }
}
