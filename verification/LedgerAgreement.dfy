/** The ledger rebuilt from the finalized logs agrees, step by step, with what the loop
    itself knew when it closed the step - exactly when no cancel can overtake an order. */
module LedgerAgreement {
  import opened Wrappers
  import opened Venue
  import opened ExecutionMachine
  import opened ParentCapacity
  import opened StepChecks
  import opened StrategyLedger
  import opened StrategySteps
  import opened OrderLives
  import opened DeskMoves
  import opened EventAccounts
  import opened OrderTotals
  import opened Finalization
  import Shortfall

  // ----- what the loop noted at the end of each step

  /** The note of a closed step says what the trade log and the orders say about it. */
  predicate NoteAgrees(cfg: Config, d: Desk, note: Snapshot, step: nat) {
    && note.active == TotalActive(d, cfg.execution, step + 1)
    && note.executed == AllBefore(FilledEntries(d.trades, cfg.execution), step + 1)
    && note.inventory == Direction(cfg.side) * note.executed
    && note.executed + note.active <= cfg.target
  }

  predicate NotesAgree(cfg: Config, d: Desk, notes: seq<Snapshot>) {
    |notes| == d.clock && forall step :: 0 <= step < |notes| ==> NoteAgrees(cfg, d, notes[step], step)
  }

  lemma NotesKept(cfg: Config, d: Desk, d': Desk, notes: seq<Snapshot>)
    requires NotesAgree(cfg, d, notes) && d'.clock == d.clock
    requires ClosedStepsKept(d, d', cfg.execution) && AllLive(d', cfg.execution)
    ensures NotesAgree(cfg, d', notes)
  {
    forall step | 0 <= step < |notes|
      ensures NoteAgrees(cfg, d', notes[step], step)
    {
      assert NoteAgrees(cfg, d, notes[step], step);
      ActiveKept(d, d', cfg.execution, step + 1);
    }
  }

  lemma NewNoteAgrees(cfg: Config, s: State)
    requires Accounted(cfg, s) && ParentChecks(cfg, s) && WithinParent(cfg, s)
    ensures NoteAgrees(cfg, DeskOf(s), Snapshot(s.executed, ActiveQuantity(cfg, s),
                                                Inventory(s.tradeLog, cfg.execution, cfg.symbol)), s.clock)
  {
    ActiveNow(DeskOf(s), cfg.execution, s.clock + 1);
    Shortfall.ExecutedIsFilled(s.tradeLog, cfg.execution);
    EverythingIsBefore(s.tradeLog, cfg.execution, "", s.clock, s.clock + 1);
  }

  lemma {:induction false} ClockDoesNotCount(d: Desk, d': Desk, agent: AgentId, log: seq<OrderRow>, bound: nat)
    requires d' == d.(clock := d'.clock)
    ensures RowsActive(d', agent, log, bound) == RowsActive(d, agent, log, bound)
  {
    if log != [] {
      ClockDoesNotCount(d, d', agent, log[..|log| - 1], bound);
    }
  }

  lemma NotesGrow(cfg: Config, d: Desk, notes: seq<Snapshot>, note: Snapshot)
    requires NotesAgree(cfg, d, notes) && NoteAgrees(cfg, d, note, d.clock)
    ensures NotesAgree(cfg, d.(clock := d.clock + 1), notes + [note])
  {
    var d' := d.(clock := d.clock + 1);
    forall step | 0 <= step < |notes + [note]|
      ensures NoteAgrees(cfg, d', (notes + [note])[step], step)
    {
      ClockDoesNotCount(d, d', cfg.execution, d.log, step + 1);
      assert NoteAgrees(cfg, d, (notes + [note])[step], step);
    }
  }

  lemma EventKeepsNotes(cfg: Config, s: State, e: Event)
    requires cfg.WellFormed() && Enabled(cfg, s, e) && !CancelledInTransit(cfg, cfg.execution)
    requires Accounted(cfg, s) && WithinParent(cfg, s) && NotesAgree(cfg, DeskOf(s), s.snapshots)
    requires NoSelfTrades(Apply(cfg, s, e).tradeLog, cfg.execution)
    ensures var s' := Apply(cfg, s, e);
            Accounted(cfg, s') && WithinParent(cfg, s') && NotesAgree(cfg, DeskOf(s'), s'.snapshots)
  {
    EventKeepsAccounts(cfg, s, e);
    StepKeepsParent(cfg, s, e);
    if e.EndStep? {
      NewNoteAgrees(cfg, s);
      NotesGrow(cfg, DeskOf(s), s.snapshots, Snapshot(s.executed, ActiveQuantity(cfg, s),
                                                      Inventory(s.tradeLog, cfg.execution, cfg.symbol)));
    } else {
      NotesStayPut(cfg, s, e);
      NotesKept(cfg, DeskOf(s), DeskOf(Apply(cfg, s, e)), s.snapshots);
    }
  }

  lemma DispatchStaysPut(cfg: Config, s: State, order: Order, response: Response)
    requires order.agent in cfg.agents && Accepts(cfg, s, order, response)
    ensures var s' := Dispatched(cfg, s, order, response);
            s'.snapshots == s.snapshots && s'.clock == s.clock
  {
  }

  lemma NotesStayPut(cfg: Config, s: State, e: Event)
    requires cfg.WellFormed() && Enabled(cfg, s, e) && !e.EndStep?
    ensures Apply(cfg, s, e).snapshots == s.snapshots && Apply(cfg, s, e).clock == s.clock
  {
    match e
    case Schedule(order, response) =>
      if Normalized(cfg, order).Some? { DispatchStaysPut(cfg, s, Normalized(cfg, order).value, response); }
    case ScheduleChild(order, adjusted, response) =>
      if Child(cfg, s, order, adjusted).Some? {
        DispatchStaysPut(cfg, s, Child(cfg, s, order, adjusted).value, response);
      }
    case _ =>
  }

  lemma {:induction false} LogOnlyGrows(cfg: Config, s: State, events: seq<Event>, s': State)
    requires cfg.WellFormed() && Run(cfg, s, events, s')
    ensures s.tradeLog <= s'.tradeLog
    decreases events
  {
    if events != [] {
      LogGrowsByNewTrades(cfg, s, events[0]);
      LogOnlyGrows(cfg, Apply(cfg, s, events[0]), events[1..], s');
    }
  }

  lemma {:induction false} RunKeepsNotes(cfg: Config, s: State, events: seq<Event>, s': State)
    requires cfg.WellFormed() && Run(cfg, s, events, s') && !CancelledInTransit(cfg, cfg.execution)
    requires Accounted(cfg, s) && WithinParent(cfg, s) && NotesAgree(cfg, DeskOf(s), s.snapshots)
    requires NoSelfTrades(s'.tradeLog, cfg.execution)
    ensures Accounted(cfg, s') && WithinParent(cfg, s') && NotesAgree(cfg, DeskOf(s'), s'.snapshots)
    decreases events
  {
    if events != [] {
      var next := Apply(cfg, s, events[0]);
      LogOnlyGrows(cfg, next, events[1..], s');
      assert forall t :: t in next.tradeLog ==> t in s'.tradeLog;
      EventKeepsNotes(cfg, s, events[0]);
      RunKeepsNotes(cfg, next, events[1..], s');
    }
  }

  lemma InitiallyNoted(cfg: Config, s: State)
    requires Initial(cfg, s)
    ensures Accounted(cfg, s) && NotesAgree(cfg, DeskOf(s), s.snapshots)
  {
  }

  // ----- finished runs

  /** A run that ended by closing a step (or never started one). */
  ghost predicate Finished(cfg: Config, s0: State, events: seq<Event>, s: State)
    requires cfg.WellFormed()
  {
    && Initial(cfg, s0) && Run(cfg, s0, events, s)
    && (events == [] || events[|events| - 1] == EndStep)
  }

  lemma {:induction false} LastEvent(cfg: Config, s: State, events: seq<Event>, s': State) returns (mid: State)
    requires cfg.WellFormed() && Run(cfg, s, events, s') && events != []
    ensures Run(cfg, s, events[..|events| - 1], mid)
    ensures Enabled(cfg, mid, events[|events| - 1]) && s' == Apply(cfg, mid, events[|events| - 1])
    decreases events
  {
    var next := Apply(cfg, s, events[0]);
    if |events| == 1 {
      assert events[1..] == [] && events[..0] == [];
      mid := s;
    } else {
      mid := LastEvent(cfg, next, events[1..], s');
      assert events[1..][..|events| - 2] == events[..|events| - 1][1..];
    }
  }

  lemma FinishedWithoutSelfTrades(cfg: Config, s0: State, events: seq<Event>, s: State)
    requires cfg.WellFormed() && Finished(cfg, s0, events, s)
    ensures NoSelfTrades(s.tradeLog, cfg.execution)
  {
    if events != [] {
      var mid := LastEvent(cfg, s0, events, s);
      RunKeepsTradesPositive(cfg, s0, events[..|events| - 1], mid);
      InventoryTiesExactly(cfg, mid.tradeLog);
      forall t | t in s.tradeLog
        ensures !(t.makerAgent == cfg.execution && t.takerAgent == cfg.execution)
      {
        var i :| 0 <= i < |mid.tradeLog| && mid.tradeLog[i] == t;
        assert OnTask(cfg, mid.tradeLog[i]);
      }
    }
  }

  /** The collected inventories are those the loop saw at the end of the same steps. */
  predicate CollectedFrom(inventory: map<nat, int>, notes: seq<Snapshot>) {
    forall step :: step in inventory ==> step < |notes| && inventory[step] == notes[step].inventory
  }

  /** One closed step of a settled desk, in the rebuilt ledger. */
  lemma StepMatches(cfg: Config, d: Desk, cancels: seq<CancelRow>, logs: Logs, note: Snapshot, step: nat)
    requires Settled(d, cancels, cfg.execution) && NoteAgrees(cfg, d, note, step)
    requires logs.strategy == cfg.execution && logs.direction == Direction(cfg.side) && logs.target == cfg.target
    requires logs.orders == FinalRows(d, cancels, d.log) && logs.cancels == FinalCancels(cancels)
    requires logs.trades == d.trades
    requires step in logs.inventory ==> logs.inventory[step] == note.inventory
    ensures StepInOrder(logs, step)
    ensures ActiveBefore(logs, step + 1) == note.active && FilledBefore(logs, step + 1) == note.executed
  {
    LedgerActive(d, cancels, logs, step + 1);
    LedgerNeverOverTerminates(d, cancels, logs, step + 1);
  }

  lemma AllStepsMatch(cfg: Config, d: Desk, cancels: seq<CancelRow>, logs: Logs, notes: seq<Snapshot>)
    requires Settled(d, cancels, cfg.execution) && NotesAgree(cfg, d, notes)
    requires logs.strategy == cfg.execution && logs.direction == Direction(cfg.side) && logs.target == cfg.target
    requires logs.orders == FinalRows(d, cancels, d.log) && logs.cancels == FinalCancels(cancels)
    requires logs.trades == d.trades && CollectedFrom(logs.inventory, notes)
    ensures InOrderBefore(logs, |notes|)
    ensures forall step: nat :: step < |notes| ==>
              && ActiveBefore(logs, step + 1) == notes[step].active
              && FilledBefore(logs, step + 1) == notes[step].executed
  {
    forall step: nat | step < |notes|
      ensures StepInOrder(logs, step)
      ensures ActiveBefore(logs, step + 1) == notes[step].active && FilledBefore(logs, step + 1) == notes[step].executed
    {
      StepMatches(cfg, d, cancels, logs, notes[step], step);
    }
  }

  /** Unless cancels overtake orders: after any finished run the reconstruction succeeds on
      every step, and its active and filled quantities are those the loop had at that time. */
  lemma LedgerMatchesRun(cfg: Config, s0: State, events: seq<Event>, s: State, arrivalPrice: nat,
                         inventory: map<nat, int>)
    requires cfg.WellFormed() && Finished(cfg, s0, events, s) && !CancelledInTransit(cfg, cfg.execution)
    requires CollectedFrom(inventory, s.snapshots)
    ensures var logs := Finalized(cfg, s, arrivalPrice, inventory);
            && InOrderBefore(logs, s.clock) && |s.snapshots| == s.clock
            && forall step: nat :: step < s.clock ==>
                 && ActiveBefore(logs, step + 1) == s.snapshots[step].active
                 && FilledBefore(logs, step + 1) == s.snapshots[step].executed
  {
    var logs := Finalized(cfg, s, arrivalPrice, inventory);
    InitiallyNoted(cfg, s0);
    InitiallyWithin(cfg, s0);
    FinishedWithoutSelfTrades(cfg, s0, events, s);
    RunKeepsNotes(cfg, s0, events, s);
    AllStepsMatch(cfg, DeskOf(s), s.cancelLog, logs, s.snapshots);
  }
}
