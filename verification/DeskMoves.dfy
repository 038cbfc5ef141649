/** Every event of the loop keeps the order accounting, and none rewrites the accounting
    of a step that has already closed. */
module DeskMoves {
  import opened Wrappers
  import opened Venue
  import opened ExecutionMachine
  import opened StrategyLedger
  import opened StepChecks
  import opened OrderLives

  ghost predicate InOrder(d: Desk, agent: AgentId) {
    Tidy(d) && AllLive(d, agent)
  }

  /** The order's row is in the log, and none of its quantity is anywhere yet. */
  predicate AwaitingAt(d: Desk, agent: AgentId, order: Order, i: int) {
    && 0 <= i < |d.log|
    && d.log[i].id == order.id && d.log[i].agent == order.agent && d.log[i].quantity == order.remaining
    && (order.agent == agent ==>
          && d.log[i].accepted.None? && d.log[i].arrivalStep.None? && d.log[i].submittedStep <= d.clock
          && TransitUnder(d.pending, order.id) == 0 && RestingUnder(d.book, order.id) == 0
          && FilledUnder(d.trades, agent, order.id) == 0)
  }

  ghost predicate Awaiting(d: Desk, agent: AgentId, order: Order) {
    Tidy(d) && OthersLive(d, agent, order.id) && exists i :: AwaitingAt(d, agent, order, i)
  }

  lemma KeptTwice(d: Desk, mid: Desk, d': Desk, agent: AgentId)
    requires ClosedStepsKept(d, mid, agent) && ClosedStepsKept(mid, d', agent)
    ensures ClosedStepsKept(d, d', agent)
  {
    forall i | |d.log| <= i < |d'.log|
      ensures d.clock <= d'.log[i].submittedStep
    {
      if i < |mid.log| { assert d'.log[i].submittedStep == mid.log[i].submittedStep; }
    }
  }

  lemma {:induction false} BeforeIsPart(entries: seq<Entry>, id: OrderId, bound: nat)
    ensures BeforeFor(entries, id, bound) <= SumFor(entries, id)
  {
    if entries != [] {
      BeforeIsPart(entries[..|entries| - 1], id, bound);
    }
  }

  // ----- a submission

  function Answered(d: Desk, order: Order, response: Response): Desk
    requires Conforms(d.book, order, None, response)
  {
    d.(log := Resolve(d.log, order.id, Some(d.clock), response.Accepted?),
       book := BookAfter(d.book, order, response),
       trades := d.trades + TradesAfter(d.book, order, response, d.clock))
  }

  lemma AnswerKeepsTidy(d: Desk, agent: AgentId, order: Order, response: Response)
    requires Awaiting(d, agent, order) && Conforms(d.book, order, None, response)
    requires NoSelfTrades(TradesAfter(d.book, order, response, d.clock), agent)
    ensures Tidy(Answered(d, order, response))
  {
    var i :| AwaitingAt(d, agent, order, i);
    var log' := Resolve(d.log, order.id, Some(d.clock), response.Accepted?);
    ResolveOneRow(d.log, order.id, Some(d.clock), response.Accepted?);
    SameRowsKeepFiling(d, log');
    assert log'[i].id == order.id && log'[i].agent == order.agent;
    assert Filed(log', order.id, order.agent);
    if response.Accepted? {
      TradesHappenNow(d.book, order, response.fills, d.clock);
      FillsAreFiled(log', d.book, order, response.fills, d.clock);
    }
  }

  /** The submitted order's own row after the answer. */
  lemma OwnRowAnswered(d: Desk, agent: AgentId, order: Order, response: Response, i: int)
    requires Awaiting(d, agent, order) && Conforms(d.book, order, None, response)
    requires NoSelfTrades(TradesAfter(d.book, order, response, d.clock), agent)
    requires AwaitingAt(d, agent, order, i) && order.agent == agent
    ensures var d' := Answered(d, order, response);
            && i < |d'.log| && RowLives(d', agent, d'.log[i])
            && forall bound: nat :: bound <= d.clock ==>
                 RowActive(d', agent, d'.log[i], bound) == RowActive(d, agent, d.log[i], bound)
  {
    ResolveOneRow(d.log, order.id, Some(d.clock), response.Accepted?);
    OwnBook(d, i);
    SubmissionMovesQuantity(d.book, order, response, d.clock, agent, order.id);
    AnswerGrowsFills(d, agent, order, response, order.id);
    BeforeIsPart(FilledEntries(d.trades, agent), order.id, d.log[i].submittedStep);
    BeforeIsPart(FilledEntries(d.trades, agent), order.id, d.clock);
  }

  lemma OtherRowAnswered(d: Desk, agent: AgentId, order: Order, response: Response, i: int)
    requires Awaiting(d, agent, order) && Conforms(d.book, order, None, response)
    requires NoSelfTrades(TradesAfter(d.book, order, response, d.clock), agent)
    requires 0 <= i < |d.log| && d.log[i].id != order.id && d.log[i].agent == agent
    ensures var d' := Answered(d, order, response);
            && i < |d'.log| && d'.log[i] == d.log[i] && RowLives(d', agent, d'.log[i])
            && forall bound: nat :: bound <= d.clock ==>
                 RowActive(d', agent, d'.log[i], bound) == RowActive(d, agent, d.log[i], bound)
  {
    var id := d.log[i].id;
    ResolveOneRow(d.log, order.id, Some(d.clock), response.Accepted?);
    OwnBook(d, i);
    SubmissionMovesQuantity(d.book, order, response, d.clock, agent, id);
    AnswerGrowsFills(d, agent, order, response, id);
    assert RowLives(d, agent, d.log[i]);
    BystanderLives(d, Answered(d, order, response), agent, d.log[i]);
  }

  /** A row whose fills come out of what rests is as it was, up to the current step. */
  lemma BystanderLives(d: Desk, d': Desk, agent: AgentId, row: OrderRow)
    requires RowLives(d, agent, row) && d'.clock == d.clock && d'.pending == d.pending
    requires FilledUnder(d'.trades, agent, row.id) + RestingUnder(d'.book, row.id)
          == FilledUnder(d.trades, agent, row.id) + RestingUnder(d.book, row.id)
    requires forall bound: nat :: bound <= d.clock ==>
               FilledUnderBefore(d'.trades, agent, row.id, bound) == FilledUnderBefore(d.trades, agent, row.id, bound)
    ensures RowLives(d', agent, row)
    ensures forall bound: nat :: bound <= d.clock ==>
              RowActive(d', agent, row, bound) == RowActive(d, agent, row, bound)
  {
  }

  lemma AnswerGrowsFills(d: Desk, agent: AgentId, order: Order, response: Response, id: OrderId)
    requires Conforms(d.book, order, None, response)
    ensures var d' := Answered(d, order, response);
            && FilledUnder(d'.trades, agent, id)
               == FilledUnder(d.trades, agent, id)
                  + FilledUnder(TradesAfter(d.book, order, response, d.clock), agent, id)
            && forall bound: nat :: bound <= d.clock ==>
                 && FilledUnderBefore(d'.trades, agent, id, bound) == FilledUnderBefore(d.trades, agent, id, bound)
                 && AllBefore(FilledEntries(d'.trades, agent), bound)
                    == AllBefore(FilledEntries(d.trades, agent), bound)
  {
    if response.Accepted? {
      TradesHappenNow(d.book, order, response.fills, d.clock);
    }
    FillsGrow(d.trades, TradesAfter(d.book, order, response, d.clock), agent, id, d.clock);
  }

  lemma AnswerKeepsOrder(d: Desk, agent: AgentId, order: Order, response: Response)
    requires Awaiting(d, agent, order) && Conforms(d.book, order, None, response)
    requires NoSelfTrades(TradesAfter(d.book, order, response, d.clock), agent)
    ensures InOrder(Answered(d, order, response), agent)
    ensures ClosedStepsKept(d, Answered(d, order, response), agent)
  {
    var d' := Answered(d, order, response);
    AnswerKeepsTidy(d, agent, order, response);
    ResolveOneRow(d.log, order.id, Some(d.clock), response.Accepted?);
    AnswerGrowsFills(d, agent, order, response, order.id);
    var k :| AwaitingAt(d, agent, order, k);
    forall i | 0 <= i < |d.log| && d.log[i].agent == agent
      ensures RowLives(d', agent, d'.log[i])
      ensures forall bound: nat :: bound <= d.clock ==>
                RowActive(d', agent, d'.log[i], bound) == RowActive(d, agent, d.log[i], bound)
    {
      if d.log[i].id == order.id {
        assert i == k;
        OwnRowAnswered(d, agent, order, response, i);
      } else {
        OtherRowAnswered(d, agent, order, response, i);
      }
    }
  }

  // ----- recording, popping and queueing

  lemma {:induction false} UnfiledHasNothing(d: Desk, id: OrderId, agent: AgentId)
    requires Tidy(d) && forall i :: 0 <= i < |d.log| ==> d.log[i].id != id
    ensures TransitUnder(d.pending, id) == 0 && RestingUnder(d.book, id) == 0 && FilledUnder(d.trades, agent, id) == 0
  {
    NothingInTransit(d.log, d.pending, id);
    NothingResting(d.log, d.book, id);
    NothingFilled(d.log, d.trades, agent, id);
  }

  lemma {:induction false} NothingInTransit(log: seq<OrderRow>, pending: seq<Message>, id: OrderId)
    requires PendingFiled(log, pending) && forall i :: 0 <= i < |log| ==> log[i].id != id
    ensures TransitUnder(pending, id) == 0
  {
    if pending != [] {
      assert MessageFiled(log, pending[0]);
      NothingInTransit(log, pending[1..], id);
    }
  }

  lemma {:induction false} NothingResting(log: seq<OrderRow>, book: seq<Order>, id: OrderId)
    requires BookFiled(log, book) && forall i :: 0 <= i < |log| ==> log[i].id != id
    ensures RestingUnder(book, id) == 0
  {
    if book != [] {
      assert Filed(log, book[0].id, book[0].agent);
      NothingResting(log, book[1..], id);
    }
  }

  lemma {:induction false} NothingFilled(log: seq<OrderRow>, trades: seq<Trade>, agent: AgentId, id: OrderId)
    requires TradesFiled(log, trades) && forall i :: 0 <= i < |log| ==> log[i].id != id
    ensures FilledUnder(trades, agent, id) == 0
  {
    if trades != [] {
      var front, last := trades[..|trades| - 1], trades[|trades| - 1];
      assert TradeFiled(log, last);
      NothingFilled(log, front, agent, id);
      SumForConcat(FilledEntries(front, agent), Listed(FilledEntry(last, agent)), id);
      assert FilledEntry(last, agent).Some? ==> FilledEntry(last, agent).value.id != id;
      assert [last][..0] == [];
    }
  }

  function RowFor(order: Order): OrderRow {
    OrderRow(order.id, order.agent, order.quantity, order.submittedStep, None, None)
  }

  function RecordedDesk(d: Desk, order: Order): Desk {
    d.(log := d.log + [RowFor(order)])
  }

  predicate Unfiled(d: Desk, order: Order) {
    && 0 < order.quantity == order.remaining && order.submittedStep == d.clock
    && forall i :: 0 <= i < |d.log| ==> d.log[i].id != order.id
  }

  lemma LongerLogFiles(d: Desk, row: OrderRow)
    requires Tidy(d) && forall i :: 0 <= i < |d.log| ==> d.log[i].id != row.id
    ensures Tidy(d.(log := d.log + [row]))
  {
    var log' := d.log + [row];
    assert forall i :: 0 <= i < |d.log| ==> log'[i] == d.log[i];
    forall m | m in d.pending && m.body.Arrival?
      ensures MessageFiled(log', m)
    {
      assert MessageFiled(d.log, m);
      var order := m.body.order;
      var i :| 0 <= i < |d.log| && d.log[i].id == order.id && d.log[i].agent == order.agent
               && d.log[i].quantity == order.remaining && 0 < order.remaining;
      assert log'[i].id == order.id;
    }
    forall o | o in d.book
      ensures Filed(log', o.id, o.agent)
    {
      LongerLogFilesOne(d.log, row, o.id, o.agent);
    }
    forall t | t in d.trades
      ensures TradeFiled(log', t)
    {
      assert TradeFiled(d.log, t);
      LongerLogFilesOne(d.log, row, t.makerId, t.makerAgent);
      LongerLogFilesOne(d.log, row, t.takerId, t.takerAgent);
    }
  }

  lemma LongerLogFilesOne(log: seq<OrderRow>, row: OrderRow, id: OrderId, agent: AgentId)
    requires Filed(log, id, agent)
    ensures Filed(log + [row], id, agent)
  {
    var i :| 0 <= i < |log| && log[i].id == id && log[i].agent == agent;
    assert (log + [row])[i].id == id;
  }

  lemma RecordingAwaits(d: Desk, agent: AgentId, order: Order)
    requires InOrder(d, agent) && Unfiled(d, order)
    ensures Awaiting(RecordedDesk(d, order), agent, order)
    ensures ClosedStepsKept(d, RecordedDesk(d, order), agent)
  {
    var d' := RecordedDesk(d, order);
    UnfiledHasNothing(d, order.id, agent);
    LongerLogFiles(d, RowFor(order));
    forall i | 0 <= i < |d'.log| && d'.log[i].agent == agent && d'.log[i].id != order.id
      ensures RowLives(d', agent, d'.log[i])
    {
      assert RowLives(d, agent, d.log[i]);
    }
    assert AwaitingAt(d', agent, order, |d.log|);
  }

  function PoppedDesk(d: Desk): Desk
    requires d.pending != []
  {
    d.(pending := d.pending[1..])
  }

  lemma PoppingKeepsTidy(d: Desk)
    requires Tidy(d) && d.pending != []
    ensures Tidy(PoppedDesk(d)) && MessageFiled(d.log, d.pending[0])
  {
    assert d.pending[0] in d.pending;
    assert forall m :: m in d.pending[1..] ==> m in d.pending;
  }

  lemma PoppingAwaits(d: Desk, agent: AgentId)
    requires InOrder(d, agent) && d.pending != [] && d.pending[0].body.Arrival?
    ensures Awaiting(PoppedDesk(d), agent, d.pending[0].body.order)
    ensures ClosedStepsKept(d, PoppedDesk(d), agent)
  {
    var d' := PoppedDesk(d);
    var order := d.pending[0].body.order;
    PoppingKeepsTidy(d);
    var k :| 0 <= k < |d.log| && d.log[k].id == order.id && d.log[k].agent == order.agent
             && d.log[k].quantity == order.remaining && 0 < order.remaining;
    forall i | 0 <= i < |d.log| && d.log[i].agent == agent && d.log[i].id != order.id
      ensures RowLives(d', agent, d.log[i])
    {
      assert RowLives(d, agent, d.log[i]);
    }
    assert order.agent == agent ==> RowLives(d, agent, d.log[k]);
    assert AwaitingAt(d', agent, order, k);
  }

  lemma PoppingCancelKeepsOrder(d: Desk, agent: AgentId)
    requires InOrder(d, agent) && d.pending != [] && d.pending[0].body.Cancellation?
    ensures InOrder(PoppedDesk(d), agent) && ClosedStepsKept(d, PoppedDesk(d), agent)
  {
    PoppingKeepsTidy(d);
    forall i | 0 <= i < |d.log| && d.log[i].agent == agent
      ensures RowLives(PoppedDesk(d), agent, d.log[i])
    {
      assert RowLives(d, agent, d.log[i]);
    }
  }

  lemma {:induction false} InsertUnder(pending: seq<Message>, m: Message, id: OrderId)
    ensures TransitUnder(Insert(pending, m), id) == TransitUnder(pending, id) + CarriedUnder(m, id)
  {
    if pending == [] {
      assert [m][1..] == [];
    } else if Before(m, pending[0]) {
      assert ([m] + pending)[1..] == pending;
    } else {
      var tail := Insert(pending[1..], m);
      assert ([pending[0]] + tail)[1..] == tail;
      InsertUnder(pending[1..], m, id);
    }
  }

  lemma {:induction false} InsertKeepsFiling(log: seq<OrderRow>, pending: seq<Message>, m: Message)
    requires PendingFiled(log, pending) && MessageFiled(log, m)
    ensures PendingFiled(log, Insert(pending, m))
  {
    if pending != [] && !Before(m, pending[0]) {
      assert PendingFiled(log, pending[1..]) && MessageFiled(log, pending[0]);
      InsertKeepsFiling(log, pending[1..], m);
    }
  }

  function QueuedDesk(d: Desk, m: Message): Desk {
    d.(pending := Insert(d.pending, m))
  }

  lemma QueueingKeepsOrder(d: Desk, agent: AgentId, m: Message, order: Order)
    requires Awaiting(d, agent, order) && m.body == Arrival(order) && 0 < order.remaining
    ensures InOrder(QueuedDesk(d, m), agent) && ClosedStepsKept(d, QueuedDesk(d, m), agent)
  {
    var d' := QueuedDesk(d, m);
    var k :| AwaitingAt(d, agent, order, k);
    assert FiledWhole(d.log, order);
    InsertKeepsFiling(d.log, d.pending, m);
    forall i | 0 <= i < |d.log| && d.log[i].agent == agent
      ensures RowLives(d', agent, d.log[i])
    {
      InsertUnder(d.pending, m, d.log[i].id);
      BeforeIsPart(FilledEntries(d.trades, agent), d.log[i].id, d.log[i].submittedStep);
      if d.log[i].id == order.id {
        assert i == k;
      } else {
        assert RowLives(d, agent, d.log[i]);
      }
    }
  }

  lemma QueueingCancelKeepsOrder(d: Desk, agent: AgentId, m: Message)
    requires InOrder(d, agent) && m.body.Cancellation?
    ensures InOrder(QueuedDesk(d, m), agent) && ClosedStepsKept(d, QueuedDesk(d, m), agent)
  {
    InsertKeepsFiling(d.log, d.pending, m);
    forall i | 0 <= i < |d.log| && d.log[i].agent == agent
      ensures RowLives(QueuedDesk(d, m), agent, d.log[i])
    {
      InsertUnder(d.pending, m, d.log[i].id);
      assert RowLives(d, agent, d.log[i]);
    }
  }

  // ----- cancels of other accounts, and the clock

  lemma {:induction false} RemoveUnder(book: seq<Order>, gone: OrderId, id: OrderId)
    requires gone != id
    ensures RestingUnder(Remove(book, gone), id) == RestingUnder(book, id)
  {
    if book != [] && book[0].id != gone {
      RemoveUnder(book[1..], gone, id);
    }
  }

  lemma RemovalKeepsOrder(d: Desk, agent: AgentId, gone: OrderId)
    requires InOrder(d, agent) && Find(d.book, gone).Some? && Find(d.book, gone).value.agent != agent
    ensures var d' := d.(book := Remove(d.book, gone));
            InOrder(d', agent) && ClosedStepsKept(d, d', agent)
  {
    var d' := d.(book := Remove(d.book, gone));
    RemoveKeepsFiling(d.log, d.book, gone);
    FindIsInBook(d.book, gone);
    FindHasId(d.book, gone);
    forall i | 0 <= i < |d.log| && d.log[i].agent == agent
      ensures RowLives(d', agent, d.log[i])
      ensures RestingUnder(d'.book, d.log[i].id) == RestingUnder(d.book, d.log[i].id)
    {
      assert RowLives(d, agent, d.log[i]);
      OwnBook(d, i);
      RemoveUnder(d.book, gone, d.log[i].id);
    }
  }

  lemma TickKeepsOrder(d: Desk, agent: AgentId)
    requires InOrder(d, agent)
    ensures var d' := d.(clock := d.clock + 1);
            InOrder(d', agent) && ClosedStepsKept(d, d', agent)
  {
    forall i | 0 <= i < |d.log| && d.log[i].agent == agent
      ensures RowLives(d.(clock := d.clock + 1), agent, d.log[i])
    {
      assert RowLives(d, agent, d.log[i]);
    }
  }

  /** Another account's order cancelled at the gateway. */
  lemma ForeignResolveKeepsOrder(d: Desk, agent: AgentId, order: Order)
    requires Awaiting(d, agent, order) && order.agent != agent
    ensures var d' := d.(log := Resolve(d.log, order.id, None, false));
            InOrder(d', agent) && ClosedStepsKept(d, d', agent)
  {
    var d' := d.(log := Resolve(d.log, order.id, None, false));
    ResolveOneRow(d.log, order.id, None, false);
    SameRowsKeepFiling(d, d'.log);
    var k :| AwaitingAt(d, agent, order, k);
    forall i | 0 <= i < |d.log| && d.log[i].agent == agent
      ensures d'.log[i] == d.log[i] && RowLives(d', agent, d'.log[i])
    {
      assert d.log[i].id != d.log[k].id;
      assert RowLives(d, agent, d.log[i]);
    }
  }
}
