/** After a finished run, the rebuilt columns in the loop's own terms: what was sent, what the venue
    halted, and what it accepted without filling or resting it. */
module FinishedColumns {
  import opened Wrappers
  import opened Venue
  import opened ExecutionMachine
  import opened ParentCapacity
  import opened StepChecks
  import opened StrategyLedger
  import opened StepColumns
  import opened OrderLives
  import opened DeskMoves
  import opened EventAccounts
  import opened Finalization
  import opened LedgerAgreement

  /** The agent's orders in a log: everything it sent. */
  function SentQuantity(log: seq<OrderRow>, agent: AgentId): nat {
    if log == [] then 0
    else
      var last := log[|log| - 1];
      SentQuantity(log[..|log| - 1], agent) + if last.agent == agent then last.quantity else 0
  }

  /** Those the venue refused. */
  function HaltedQuantity(log: seq<OrderRow>, agent: AgentId): nat {
    if log == [] then 0
    else
      var last := log[|log| - 1];
      HaltedQuantity(log[..|log| - 1], agent)
      + if last.agent == agent && last.accepted == Some(false) then last.quantity else 0
  }

  /** What the venue accepted and neither filled nor left resting. */
  function DroppedQuantity(d: Desk, log: seq<OrderRow>, agent: AgentId): int {
    if log == [] then 0
    else
      var last := log[|log| - 1];
      DroppedQuantity(d, log[..|log| - 1], agent)
      + if last.agent == agent && last.accepted == Some(true)
        then last.quantity - FilledUnder(d.trades, agent, last.id) - RestingUnder(d.book, last.id) else 0
  }

  /** Everything of the agent happened in closed steps. */
  predicate AllClosed(d: Desk, agent: AgentId) {
    && (forall i :: 0 <= i < |d.log| && d.log[i].agent == agent ==>
          && d.log[i].submittedStep < d.clock
          && (d.log[i].arrivalStep.Some? ==> d.log[i].arrivalStep.value < d.clock))
    && (forall t :: t in d.trades && t.Involves(agent) ==> t.step < d.clock)
  }

  /** The resolved row of an order splits what was lost into what was halted and what was dropped. */
  ghost predicate Splits(d: Desk, cancels: seq<CancelRow>, agent: AgentId, live: OrderRow) {
    var row := FinalRow(d, cancels, live);
    && row.rejected == (if live.accepted == Some(false) then live.quantity else 0)
    && row.expired == (if live.accepted == Some(true)
                       then live.quantity - FilledUnder(d.trades, agent, live.id) - RestingUnder(d.book, live.id)
                       else 0)
    && (live.accepted.Some? ==> live.arrivalStep.Some?)
  }

  ghost predicate AllSplit(d: Desk, cancels: seq<CancelRow>, agent: AgentId) {
    forall i :: 0 <= i < |d.log| && d.log[i].agent == agent ==> Splits(d, cancels, agent, d.log[i])
  }

  lemma FinalRowSplits(d: Desk, cancels: seq<CancelRow>, agent: AgentId, i: int)
    requires Settled(d, cancels, agent) && 0 <= i < |d.log| && d.log[i].agent == agent
    ensures Splits(d, cancels, agent, d.log[i])
  {
    SidesAgree(d, d.trades, agent, i);
    NotCancelled(d, cancels, agent, i);
    assert RowLives(d, agent, d.log[i]);
  }

  lemma FiguresNext(d: Desk, front: seq<OrderRow>, row: OrderRow, agent: AgentId)
    ensures var longer, own := front + [row], row.agent == agent;
            && SentQuantity(longer, agent) == SentQuantity(front, agent) + (if own then row.quantity else 0)
            && HaltedQuantity(longer, agent)
               == HaltedQuantity(front, agent) + (if own && row.accepted == Some(false) then row.quantity else 0)
            && DroppedQuantity(d, longer, agent)
               == DroppedQuantity(d, front, agent)
                  + (if own && row.accepted == Some(true)
                     then row.quantity - FilledUnder(d.trades, agent, row.id) - RestingUnder(d.book, row.id) else 0)
  {
    assert (front + [row])[..|front|] == front;
  }

  lemma FinalRowsNext(d: Desk, cancels: seq<CancelRow>, front: seq<OrderRow>, row: OrderRow)
    ensures FinalRows(d, cancels, front + [row]) == FinalRows(d, cancels, front) + [FinalRow(d, cancels, row)]
  {
    assert (front + [row])[..|front|] == front;
  }

  /** What one more resolved row adds to the columns. */
  lemma ColumnsNext(d: Desk, cancels: seq<CancelRow>, agent: AgentId, row: OrderRow, front: seq<LedgerOrder>)
    requires row.agent == agent ==>
               && Splits(d, cancels, agent, row) && row.submittedStep < d.clock
               && (row.arrivalStep.Some? ==> row.arrivalStep.value < d.clock)
    ensures var longer, own := front + [FinalRow(d, cancels, row)], row.agent == agent;
            && SubmittedUntil(longer, agent, d.clock)
               == SubmittedUntil(front, agent, d.clock) + (if own then row.quantity else 0)
            && RejectedUntil(longer, agent, d.clock)
               == RejectedUntil(front, agent, d.clock)
                  + (if own && row.accepted == Some(false) then row.quantity else 0)
            && ExpiredUntil(longer, agent, d.clock)
               == ExpiredUntil(front, agent, d.clock)
                  + (if own && row.accepted == Some(true)
                     then row.quantity - FilledUnder(d.trades, agent, row.id) - RestingUnder(d.book, row.id) else 0)
  {
    OneMoreOrder(front, FinalRow(d, cancels, row), agent, d.clock);
  }

  /** The columns of some resolved rows are the figures of the log they were resolved from. */
  predicate Agree(d: Desk, rows: seq<LedgerOrder>, log: seq<OrderRow>, agent: AgentId) {
    && SubmittedUntil(rows, agent, d.clock) == SentQuantity(log, agent)
    && RejectedUntil(rows, agent, d.clock) == HaltedQuantity(log, agent)
    && ExpiredUntil(rows, agent, d.clock) == DroppedQuantity(d, log, agent)
  }

  lemma AgreeNext(d: Desk, cancels: seq<CancelRow>, agent: AgentId, front: seq<OrderRow>, row: OrderRow)
    requires Agree(d, FinalRows(d, cancels, front), front, agent)
    requires row.agent == agent ==>
               && Splits(d, cancels, agent, row) && row.submittedStep < d.clock
               && (row.arrivalStep.Some? ==> row.arrivalStep.value < d.clock)
    ensures Agree(d, FinalRows(d, cancels, front + [row]), front + [row], agent)
  {
    FiguresNext(d, front, row, agent);
    FinalRowsNext(d, cancels, front, row);
    ColumnsNext(d, cancels, agent, row, FinalRows(d, cancels, front));
  }

  lemma {:induction false} ResolvedColumns(d: Desk, cancels: seq<CancelRow>, agent: AgentId, n: nat)
    requires AllSplit(d, cancels, agent) && AllClosed(d, agent) && n <= |d.log|
    ensures Agree(d, FinalRows(d, cancels, d.log[..n]), d.log[..n], agent)
  {
    if n != 0 {
      ResolvedColumns(d, cancels, agent, n - 1);
      AgreeNext(d, cancels, agent, d.log[..n - 1], d.log[n - 1]);
      assert d.log[..n] == d.log[..n - 1] + [d.log[n - 1]];
    }
  }

  lemma {:induction false} AllTradesUntil(trades: seq<Trade>, agent: AgentId, bound: nat)
    requires forall t :: t in trades && t.Involves(agent) ==> t.step < bound
    ensures FilledFor(TradesUntil(trades, bound), agent) == FilledFor(trades, agent)
  {
    if trades != [] {
      var front, last := trades[..|trades| - 1], trades[|trades| - 1];
      assert last in trades && forall t :: t in front ==> t in trades;
      AllTradesUntil(front, agent, bound);
      LastFill(trades, agent, bound);
    }
  }

  lemma {:induction false} NothingCancelled(cancels: seq<CancelRow>, agent: AgentId, bound: nat)
    requires forall c :: c in cancels ==> c.agent != agent
    ensures CancelledUntil(FinalCancels(cancels), agent, bound) == 0
  {
    if cancels != [] {
      var front, last := FinalCancels(cancels[..|cancels| - 1]), cancels[|cancels| - 1];
      assert last in cancels;
      NothingCancelled(cancels[..|cancels| - 1], agent, bound);
      OneMoreCancel(front, LedgerCancel(last.id, last.agent, last.quantity, last.effectiveStep), agent, bound);
    }
  }

  lemma FinishedIsClosed(cfg: Config, s0: State, events: seq<Event>, s: State)
    requires cfg.WellFormed() && Finished(cfg, s0, events, s) && !CancelledInTransit(cfg, cfg.execution)
    ensures Settled(DeskOf(s), s.cancelLog, cfg.execution) && AllClosed(DeskOf(s), cfg.execution)
  {
    InitiallyNoted(cfg, s0);
    InitiallyWithin(cfg, s0);
    FinishedWithoutSelfTrades(cfg, s0, events, s);
    RunKeepsNotes(cfg, s0, events, s);
    if events != [] {
      var mid := LastEvent(cfg, s0, events, s);
      RunKeepsNotes(cfg, s0, events[..|events| - 1], mid);
      forall i | 0 <= i < |s.orderLog| && s.orderLog[i].agent == cfg.execution
        ensures s.orderLog[i].submittedStep < s.clock
        ensures s.orderLog[i].arrivalStep.Some? ==> s.orderLog[i].arrivalStep.value < s.clock
      {
        assert RowLives(DeskOf(mid), cfg.execution, mid.orderLog[i]);
      }
    }
  }

  lemma OrderColumns(d: Desk, cancels: seq<CancelRow>, agent: AgentId, logs: Logs)
    requires Settled(d, cancels, agent) && AllClosed(d, agent)
    requires logs.strategy == agent && logs.orders == FinalRows(d, cancels, d.log)
    ensures Logged(logs, Column.Submitted, d.clock) == SentQuantity(d.log, agent)
    ensures Logged(logs, Column.Rejected, d.clock) == HaltedQuantity(d.log, agent)
    ensures Logged(logs, Column.Expired, d.clock) == DroppedQuantity(d, d.log, agent)
  {
    forall i | 0 <= i < |d.log| && d.log[i].agent == agent
      ensures Splits(d, cancels, agent, d.log[i])
    {
      FinalRowSplits(d, cancels, agent, i);
    }
    ResolvedColumns(d, cancels, agent, |d.log|);
    assert d.log[..|d.log|] == d.log;
  }

  lemma OtherColumns(trades: seq<Trade>, cancels: seq<CancelRow>, agent: AgentId, logs: Logs, bound: nat)
    requires forall t :: t in trades && t.Involves(agent) ==> t.step < bound
    requires forall c :: c in cancels ==> c.agent != agent
    requires logs.strategy == agent && logs.trades == trades && logs.cancels == FinalCancels(cancels)
    ensures Logged(logs, Column.Cancelled, bound) == 0
    ensures Logged(logs, Column.Filled, bound) == FilledFor(trades, agent)
  {
    AllTradesUntil(trades, agent, bound);
    NothingCancelled(cancels, agent, bound);
  }

  lemma FinishedLogs(cfg: Config, s: State, logs: Logs)
    requires Settled(DeskOf(s), s.cancelLog, cfg.execution) && AllClosed(DeskOf(s), cfg.execution)
    requires logs.strategy == cfg.execution && logs.trades == s.tradeLog
    requires logs.orders == FinalRows(DeskOf(s), s.cancelLog, s.orderLog) && logs.cancels == FinalCancels(s.cancelLog)
    ensures Logged(logs, Column.Submitted, s.clock) == SentQuantity(s.orderLog, cfg.execution)
    ensures Logged(logs, Column.Rejected, s.clock) == HaltedQuantity(s.orderLog, cfg.execution)
    ensures Logged(logs, Column.Expired, s.clock) == DroppedQuantity(DeskOf(s), s.orderLog, cfg.execution)
    ensures Logged(logs, Column.Cancelled, s.clock) == 0
    ensures Logged(logs, Column.Filled, s.clock) == FilledFor(s.tradeLog, cfg.execution)
  {
    OrderColumns(DeskOf(s), s.cancelLog, cfg.execution, logs);
    OtherColumns(s.tradeLog, s.cancelLog, cfg.execution, logs, s.clock);
  }

  lemma WholeColumn(rows: seq<StepRow>, logs: Logs, column: Column)
    requires logs.WellFormed() && ColumnsTie(rows, logs)
    ensures ColumnTotal(rows, column) == Logged(logs, column, |rows|)
  {
    assert rows[..|rows|] == rows;
    assert TotalsTie(rows[..|rows|], logs);
  }

  /** After any finished run in which cancels cannot overtake orders, the rows rebuilt from its logs
      add up to the loop's own figures: submitted is what the agent sent, rejected what the venue
      halted, expired what it accepted and neither filled nor left resting, filled the agent's
      trades, and nothing of the agent was cancelled. */
  lemma FinishedColumnsTie(cfg: Config, s0: State, events: seq<Event>, s: State, arrivalPrice: nat,
                           inventory: map<nat, int>, rows: seq<StepRow>)
    requires cfg.WellFormed() && Finished(cfg, s0, events, s) && !CancelledInTransit(cfg, cfg.execution)
    requires Finalized(cfg, s, arrivalPrice, inventory).WellFormed()
    requires ColumnsTie(rows, Finalized(cfg, s, arrivalPrice, inventory)) && |rows| == s.clock
    ensures ColumnTotal(rows, Column.Submitted) == SentQuantity(s.orderLog, cfg.execution)
    ensures ColumnTotal(rows, Column.Rejected) == HaltedQuantity(s.orderLog, cfg.execution)
    ensures ColumnTotal(rows, Column.Expired) == DroppedQuantity(DeskOf(s), s.orderLog, cfg.execution)
    ensures ColumnTotal(rows, Column.Cancelled) == 0
    ensures ColumnTotal(rows, Column.Filled) == s.executed
  {
    var logs := Finalized(cfg, s, arrivalPrice, inventory);
    FinishedIsClosed(cfg, s0, events, s);
    ParentNeverOvercommitted(cfg, s0, events, s);
    FinishedLogs(cfg, s, logs);
    WholeColumn(rows, logs, Column.Submitted);
    WholeColumn(rows, logs, Column.Rejected);
    WholeColumn(rows, logs, Column.Expired);
    WholeColumn(rows, logs, Column.Cancelled);
    WholeColumn(rows, logs, Column.Filled);
  }
}
