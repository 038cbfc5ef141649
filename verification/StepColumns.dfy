/** The rebuilt rows read column by column against the logs: whatever prefix of the run one adds up,
    every column comes to what the logs say about those steps. */
module StepColumns {
  import opened Wrappers
  import opened Venue
  import opened StrategyLedger
  import opened Shortfall

  // ----- what the logs say about the steps before `bound`

  function SubmittedUntil(orders: seq<LedgerOrder>, agent: AgentId, bound: nat): nat {
    if orders == [] then 0
    else
      var last := orders[|orders| - 1];
      SubmittedUntil(orders[..|orders| - 1], agent, bound)
      + if last.agent == agent && last.submittedStep < bound then last.quantity else 0
  }

  predicate ArrivedUntil(order: LedgerOrder, agent: AgentId, bound: nat) {
    order.agent == agent && order.arrivalStep.Some? && order.arrivalStep.value < bound
  }

  function ExpiredUntil(orders: seq<LedgerOrder>, agent: AgentId, bound: nat): nat {
    if orders == [] then 0
    else
      var last := orders[|orders| - 1];
      ExpiredUntil(orders[..|orders| - 1], agent, bound) + if ArrivedUntil(last, agent, bound) then last.expired else 0
  }

  function RejectedUntil(orders: seq<LedgerOrder>, agent: AgentId, bound: nat): nat {
    if orders == [] then 0
    else
      var last := orders[|orders| - 1];
      RejectedUntil(orders[..|orders| - 1], agent, bound)
      + if ArrivedUntil(last, agent, bound) then last.rejected else 0
  }

  function CancelledUntil(cancels: seq<LedgerCancel>, agent: AgentId, bound: nat): nat {
    if cancels == [] then 0
    else
      var last := cancels[|cancels| - 1];
      CancelledUntil(cancels[..|cancels| - 1], agent, bound)
      + if last.agent == agent && last.effectiveStep < bound then last.quantity else 0
  }

  /** The trades before `bound`; trades are logged in the order of their steps. */
  function TradesUntil(trades: seq<Trade>, bound: nat): seq<Trade> {
    if trades == [] then []
    else
      var last := trades[|trades| - 1];
      TradesUntil(trades[..|trades| - 1], bound) + if last.step < bound then [last] else []
  }

  // ----- columns

  datatype Column = Submitted | Cancelled | Expired | Rejected | Filled | MarketVolume

  function Cell(row: StepRow, column: Column): nat {
    match column
    case Submitted => row.submitted
    case Cancelled => row.cancelled
    case Expired => row.expired
    case Rejected => row.rejected
    case Filled => row.filled
    case MarketVolume => row.marketVolume
  }

  function ColumnTotal(rows: seq<StepRow>, column: Column): nat {
    if rows == [] then 0 else ColumnTotal(rows[..|rows| - 1], column) + Cell(rows[|rows| - 1], column)
  }

  /** What the logs say about the steps before `bound`, by column. */
  function Logged(logs: Logs, column: Column, bound: nat): nat {
    match column
    case Submitted => SubmittedUntil(logs.orders, logs.strategy, bound)
    case Cancelled => CancelledUntil(logs.cancels, logs.strategy, bound)
    case Expired => ExpiredUntil(logs.orders, logs.strategy, bound)
    case Rejected => RejectedUntil(logs.orders, logs.strategy, bound)
    case Filled => FilledFor(TradesUntil(logs.trades, bound), logs.strategy)
    case MarketVolume => TradedIn(TradesUntil(logs.trades, bound), logs.symbol)
  }

  /** The additive columns of these rows come to what the logs say about as many steps. */
  predicate TotalsTie(rows: seq<StepRow>, logs: Logs) {
    forall column: Column :: ColumnTotal(rows, column) == Logged(logs, column, |rows|)
  }

  function ShortfallTotal(rows: seq<StepRow>): real {
    if rows == [] then 0.0 else ShortfallTotal(rows[..|rows| - 1]) + rows[|rows| - 1].shortfall
  }

  /** What the strategy paid over the arrival price before `bound`, in basis points of all it executed. */
  function ShortfallUntil(logs: Logs, bound: nat): real
    requires logs.WellFormed()
  {
    var trades, executed := TradesUntil(logs.trades, bound), FilledFor(logs.trades, logs.strategy);
    if executed == 0 then 0.0
    else
      ClosedForm(logs, Notional(trades, logs.strategy), FilledFor(trades, logs.strategy) as real) / executed as real
  }

  // ----- one order alone

  function OrdersOf(orders: seq<LedgerOrder>, id: OrderId): seq<LedgerOrder> {
    if orders == [] then []
    else
      var last := orders[|orders| - 1];
      OrdersOf(orders[..|orders| - 1], id) + if last.id == id then [last] else []
  }

  function CancelsOf(cancels: seq<LedgerCancel>, id: OrderId): seq<LedgerCancel> {
    if cancels == [] then []
    else
      var last := cancels[|cancels| - 1];
      CancelsOf(cancels[..|cancels| - 1], id) + if last.id == id then [last] else []
  }

  /** The trades in which the account traded through this order. */
  function TradesOfOrder(trades: seq<Trade>, agent: AgentId, id: OrderId): seq<Trade> {
    if trades == [] then []
    else
      var last := trades[|trades| - 1];
      TradesOfOrder(trades[..|trades| - 1], agent, id) + if StrategyOrderId(last, agent) == Some(id) then [last] else []
  }

  function ForOrder(logs: Logs, id: OrderId): Logs {
    logs.(orders := OrdersOf(logs.orders, id), cancels := CancelsOf(logs.cancels, id),
          trades := TradesOfOrder(logs.trades, logs.strategy, id))
  }

  /** Submitted quantity of the steps before `bound` that has not ended in one of the four ways. */
  function OutstandingAt(logs: Logs, bound: nat): int {
    Logged(logs, Column.Submitted, bound) - Logged(logs, Column.Filled, bound) - Logged(logs, Column.Cancelled, bound)
    - Logged(logs, Column.Expired, bound) - Logged(logs, Column.Rejected, bound)
  }

  /** The strategy's orders that have some. */
  function OpenIds(logs: Logs, bound: nat): set<OrderId> {
    set o | o in logs.orders && o.agent == logs.strategy && 0 < OutstandingAt(ForOrder(logs, o.id), bound) :: o.id
  }

  /** The last row's running columns follow from the additive ones. */
  predicate RunningTies(rows: seq<StepRow>, logs: Logs)
    requires rows != []
  {
    var last, step := rows[|rows| - 1], |rows| - 1;
    var filled := ColumnTotal(rows, Column.Filled);
    && last.step == step
    && last.active == ColumnTotal(rows, Column.Submitted) - filled - ColumnTotal(rows, Column.Cancelled)
                      - ColumnTotal(rows, Column.Expired) - ColumnTotal(rows, Column.Rejected)
    && last.openOrders == |OpenIds(logs, |rows|)|
    && last.filledInventory == filled && last.remainingParent == logs.target - filled
    && last.accountInventory == if step in logs.inventory then logs.inventory[step] else logs.direction * filled
  }

  /** So do all prefixes of the rows. */
  predicate ColumnsTie(rows: seq<StepRow>, logs: Logs)
    requires logs.WellFormed()
  {
    && (forall k :: 0 <= k <= |rows| ==> ShortfallTotal(rows[..k]) == ShortfallUntil(logs, k))
    && (forall k :: 0 <= k <= |rows| ==> TotalsTie(rows[..k], logs))
    && (forall k :: 0 < k <= |rows| ==> RunningTies(rows[..k], logs))
  }

  // ----- the entries' sums are the logs' own

  lemma ListedAddsUp(entries: seq<Entry>, entry: Option<Entry>, bound: nat)
    ensures AllBefore(entries + Listed(entry), bound)
         == AllBefore(entries, bound) + if entry.Some? && entry.value.step < bound then entry.value.quantity else 0
  {
    match entry
    case Some(e) => assert (entries + [e])[..|entries|] == entries;
    case None => assert entries + [] == entries;
  }

  lemma {:induction false} SubmissionsAddUp(orders: seq<LedgerOrder>, agent: AgentId, bound: nat)
    ensures AllBefore(SubmittedEntries(orders, agent), bound) == SubmittedUntil(orders, agent, bound)
  {
    if orders != [] {
      var front, last := orders[..|orders| - 1], orders[|orders| - 1];
      SubmissionsAddUp(front, agent, bound);
      ListedAddsUp(SubmittedEntries(front, agent), SubmittedEntry(last, agent), bound);
    }
  }

  lemma {:induction false} ExpiriesAddUp(orders: seq<LedgerOrder>, agent: AgentId, bound: nat)
    ensures AllBefore(ExpiredEntries(orders, agent), bound) == ExpiredUntil(orders, agent, bound)
  {
    if orders != [] {
      var front, last := orders[..|orders| - 1], orders[|orders| - 1];
      ExpiriesAddUp(front, agent, bound);
      ListedAddsUp(ExpiredEntries(front, agent), ExpiredEntry(last, agent), bound);
    }
  }

  lemma {:induction false} RejectionsAddUp(orders: seq<LedgerOrder>, agent: AgentId, bound: nat)
    ensures AllBefore(RejectedEntries(orders, agent), bound) == RejectedUntil(orders, agent, bound)
  {
    if orders != [] {
      var front, last := orders[..|orders| - 1], orders[|orders| - 1];
      RejectionsAddUp(front, agent, bound);
      ListedAddsUp(RejectedEntries(front, agent), RejectedEntry(last, agent), bound);
    }
  }

  lemma {:induction false} CancelsAddUp(cancels: seq<LedgerCancel>, agent: AgentId, bound: nat)
    ensures AllBefore(CancelledEntries(cancels, agent), bound) == CancelledUntil(cancels, agent, bound)
  {
    if cancels != [] {
      var front, last := cancels[..|cancels| - 1], cancels[|cancels| - 1];
      CancelsAddUp(front, agent, bound);
      ListedAddsUp(CancelledEntries(front, agent), CancelledEntry(last, agent), bound);
    }
  }

  /** What the last trade of a log adds to the fills before `bound`. */
  lemma LastFill(trades: seq<Trade>, agent: AgentId, bound: nat)
    requires trades != []
    ensures var front, last := trades[..|trades| - 1], trades[|trades| - 1];
            FilledFor(TradesUntil(trades, bound), agent)
              == FilledFor(TradesUntil(front, bound), agent)
                 + if last.step < bound && last.Involves(agent) then last.quantity else 0
  {
    var before, last := TradesUntil(trades[..|trades| - 1], bound), trades[|trades| - 1];
    if last.step < bound {
      assert (before + [last])[..|before|] == before;
    } else {
      assert before + [] == before;
    }
  }

  lemma LastVolume(trades: seq<Trade>, symbol: Symbol, bound: nat)
    requires trades != []
    ensures var front, last := trades[..|trades| - 1], trades[|trades| - 1];
            TradedIn(TradesUntil(trades, bound), symbol)
              == TradedIn(TradesUntil(front, bound), symbol)
                 + if last.step < bound && last.symbol == symbol then last.quantity else 0
  {
    var before, last := TradesUntil(trades[..|trades| - 1], bound), trades[|trades| - 1];
    if last.step < bound {
      assert (before + [last])[..|before|] == before;
    } else {
      assert before + [] == before;
    }
  }

  lemma {:induction false} TradesAddUp(trades: seq<Trade>, agent: AgentId, bound: nat)
    ensures AllBefore(FilledEntries(trades, agent), bound) == FilledFor(TradesUntil(trades, bound), agent)
  {
    if trades != [] {
      var front, last := trades[..|trades| - 1], trades[|trades| - 1];
      TradesAddUp(front, agent, bound);
      FilledSides(last, agent);
      ListedAddsUp(FilledEntries(front, agent), FilledEntry(last, agent), bound);
      assert FilledEntries(trades, agent) == FilledEntries(front, agent) + Listed(FilledEntry(last, agent));
      LastFill(trades, agent, bound);
    }
  }

  /** A trade makes an entry exactly when the account is on one of its sides. */
  lemma FilledSides(trade: Trade, agent: AgentId)
    ensures FilledEntry(trade, agent).Some? <==> trade.Involves(agent)
    ensures trade.Involves(agent) ==>
              FilledEntry(trade, agent).value.step == trade.step
              && FilledEntry(trade, agent).value.quantity == trade.quantity
  {
  }

  lemma {:induction false} NoVolumeYet(trades: seq<Trade>, symbol: Symbol)
    ensures TradedIn(TradesUntil(trades, 0), symbol) == 0
  {
    if trades != [] {
      NoVolumeYet(trades[..|trades| - 1], symbol);
      LastVolume(trades, symbol, 0);
    }
  }

  lemma {:induction false} VolumeNextStep(trades: seq<Trade>, symbol: Symbol, step: nat)
    ensures TradedIn(TradesUntil(trades, step + 1), symbol)
         == TradedIn(TradesUntil(trades, step), symbol) + VolumeAt(trades, symbol, step)
  {
    if trades != [] {
      VolumeNextStep(trades[..|trades| - 1], symbol, step);
      LastVolume(trades, symbol, step);
      LastVolume(trades, symbol, step + 1);
    }
  }

  /** The running sums of the entries before some step, in the logs' own terms. */
  function EntriesIn(logs: Logs, column: Column, bound: nat): nat {
    match column
    case Submitted => AllBefore(SubmittedEntries(logs.orders, logs.strategy), bound)
    case Cancelled => AllBefore(CancelledEntries(logs.cancels, logs.strategy), bound)
    case Expired => AllBefore(ExpiredEntries(logs.orders, logs.strategy), bound)
    case Rejected => AllBefore(RejectedEntries(logs.orders, logs.strategy), bound)
    case Filled => FilledBefore(logs, bound)
    case MarketVolume => 0
  }

  lemma LoggedIsEntries(logs: Logs, column: Column, bound: nat)
    requires column != Column.MarketVolume
    ensures Logged(logs, column, bound) == EntriesIn(logs, column, bound)
  {
    match column
    case Submitted => SubmissionsAddUp(logs.orders, logs.strategy, bound);
    case Cancelled => CancelsAddUp(logs.cancels, logs.strategy, bound);
    case Expired => ExpiriesAddUp(logs.orders, logs.strategy, bound);
    case Rejected => RejectionsAddUp(logs.orders, logs.strategy, bound);
    case Filled => TradesAddUp(logs.trades, logs.strategy, bound);
  }

  lemma ActiveIsOutstanding(logs: Logs, bound: nat)
    ensures ActiveBefore(logs, bound) == OutstandingAt(logs, bound)
  {
    LoggedIsEntries(logs, Column.Submitted, bound);
    LoggedIsEntries(logs, Column.Filled, bound);
    LoggedIsEntries(logs, Column.Cancelled, bound);
    LoggedIsEntries(logs, Column.Expired, bound);
    LoggedIsEntries(logs, Column.Rejected, bound);
  }

  // ----- what is open, order by order

  lemma {:induction false} SubmittedOfOne(orders: seq<LedgerOrder>, agent: AgentId, id: OrderId, bound: nat)
    ensures BeforeFor(SubmittedEntries(orders, agent), id, bound) == SubmittedUntil(OrdersOf(orders, id), agent, bound)
  {
    if orders != [] {
      var front, last := orders[..|orders| - 1], orders[|orders| - 1];
      SubmittedOfOne(front, agent, id, bound);
      ListedForOne(SubmittedEntries(front, agent), SubmittedEntry(last, agent), id, bound);
      OneMoreOrder(OrdersOf(front, id), last, agent, bound);
    }
  }

  lemma {:induction false} ExpiredOfOne(orders: seq<LedgerOrder>, agent: AgentId, id: OrderId, bound: nat)
    ensures BeforeFor(ExpiredEntries(orders, agent), id, bound) == ExpiredUntil(OrdersOf(orders, id), agent, bound)
  {
    if orders != [] {
      var front, last := orders[..|orders| - 1], orders[|orders| - 1];
      ExpiredOfOne(front, agent, id, bound);
      ListedForOne(ExpiredEntries(front, agent), ExpiredEntry(last, agent), id, bound);
      LostShares(last, agent, id, bound);
      OneMoreOrder(OrdersOf(front, id), last, agent, bound);
    }
  }

  lemma {:induction false} RejectedOfOne(orders: seq<LedgerOrder>, agent: AgentId, id: OrderId, bound: nat)
    ensures BeforeFor(RejectedEntries(orders, agent), id, bound) == RejectedUntil(OrdersOf(orders, id), agent, bound)
  {
    if orders != [] {
      var front, last := orders[..|orders| - 1], orders[|orders| - 1];
      RejectedOfOne(front, agent, id, bound);
      ListedForOne(RejectedEntries(front, agent), RejectedEntry(last, agent), id, bound);
      LostShares(last, agent, id, bound);
      OneMoreOrder(OrdersOf(front, id), last, agent, bound);
    }
  }

  /** Quantity an entry puts into the sums of one order before `bound`. */
  function Share(entry: Option<Entry>, id: OrderId, bound: nat): nat {
    if entry.Some? && entry.value.id == id && entry.value.step < bound then entry.value.quantity else 0
  }

  lemma LostShares(order: LedgerOrder, agent: AgentId, id: OrderId, bound: nat)
    ensures Share(ExpiredEntry(order, agent), id, bound)
         == if order.id == id && ArrivedUntil(order, agent, bound) then order.expired else 0
    ensures Share(RejectedEntry(order, agent), id, bound)
         == if order.id == id && ArrivedUntil(order, agent, bound) then order.rejected else 0
  {
  }

  lemma OneMoreOrder(orders: seq<LedgerOrder>, order: LedgerOrder, agent: AgentId, bound: nat)
    ensures SubmittedUntil(orders + [order], agent, bound)
         == SubmittedUntil(orders, agent, bound)
            + if order.agent == agent && order.submittedStep < bound then order.quantity else 0
    ensures ExpiredUntil(orders + [order], agent, bound)
         == ExpiredUntil(orders, agent, bound) + if ArrivedUntil(order, agent, bound) then order.expired else 0
    ensures RejectedUntil(orders + [order], agent, bound)
         == RejectedUntil(orders, agent, bound) + if ArrivedUntil(order, agent, bound) then order.rejected else 0
    ensures orders + [] == orders
  {
    assert (orders + [order])[..|orders|] == orders;
  }

  lemma {:induction false} CancelledOfOne(cancels: seq<LedgerCancel>, agent: AgentId, id: OrderId, bound: nat)
    ensures BeforeFor(CancelledEntries(cancels, agent), id, bound)
         == CancelledUntil(CancelsOf(cancels, id), agent, bound)
  {
    if cancels != [] {
      var front, last := cancels[..|cancels| - 1], cancels[|cancels| - 1];
      CancelledOfOne(front, agent, id, bound);
      ListedForOne(CancelledEntries(front, agent), CancelledEntry(last, agent), id, bound);
      CancelledShare(last, agent, id, bound);
      OneMoreCancel(CancelsOf(front, id), last, agent, bound);
    }
  }

  lemma CancelledShare(cancel: LedgerCancel, agent: AgentId, id: OrderId, bound: nat)
    ensures Share(CancelledEntry(cancel, agent), id, bound)
         == if cancel.id == id && cancel.agent == agent && cancel.effectiveStep < bound then cancel.quantity else 0
  {
  }

  lemma OneMoreCancel(cancels: seq<LedgerCancel>, cancel: LedgerCancel, agent: AgentId, bound: nat)
    ensures CancelledUntil(cancels + [cancel], agent, bound)
         == CancelledUntil(cancels, agent, bound)
            + if cancel.agent == agent && cancel.effectiveStep < bound then cancel.quantity else 0
    ensures cancels + [] == cancels
  {
    assert (cancels + [cancel])[..|cancels|] == cancels;
  }

  lemma {:induction false} FilledOfOne(trades: seq<Trade>, agent: AgentId, id: OrderId, bound: nat)
    ensures BeforeFor(FilledEntries(trades, agent), id, bound)
         == FilledFor(TradesUntil(TradesOfOrder(trades, agent, id), bound), agent)
  {
    if trades != [] {
      var front, last := trades[..|trades| - 1], trades[|trades| - 1];
      var own := TradesOfOrder(front, agent, id);
      FilledOfOne(front, agent, id, bound);
      FilledSides(last, agent);
      ListedForOne(FilledEntries(front, agent), FilledEntry(last, agent), id, bound);
      assert FilledEntries(trades, agent) == FilledEntries(front, agent) + Listed(FilledEntry(last, agent));
      if StrategyOrderId(last, agent) == Some(id) {
        assert (own + [last])[..|own|] == own;
        LastFill(own + [last], agent, bound);
      } else {
        assert own + [] == own;
      }
    }
  }

  lemma ListedForOne(entries: seq<Entry>, entry: Option<Entry>, id: OrderId, bound: nat)
    ensures BeforeFor(entries + Listed(entry), id, bound)
         == BeforeFor(entries, id, bound) + Share(entry, id, bound)
  {
    match entry
    case Some(e) => assert (entries + [e])[..|entries|] == entries;
    case None => assert entries + [] == entries;
  }

  /** Quantity of one order's entries in a column. */
  function EntriesOfOne(logs: Logs, id: OrderId, column: Column, bound: nat): nat {
    match column
    case Submitted => BeforeFor(SubmittedEntries(logs.orders, logs.strategy), id, bound)
    case Cancelled => BeforeFor(CancelledEntries(logs.cancels, logs.strategy), id, bound)
    case Expired => BeforeFor(ExpiredEntries(logs.orders, logs.strategy), id, bound)
    case Rejected => BeforeFor(RejectedEntries(logs.orders, logs.strategy), id, bound)
    case Filled => BeforeFor(FilledEntries(logs.trades, logs.strategy), id, bound)
    case MarketVolume => 0
  }

  lemma LoggedOfOne(logs: Logs, id: OrderId, column: Column, bound: nat)
    requires column != Column.MarketVolume
    ensures Logged(ForOrder(logs, id), column, bound) == EntriesOfOne(logs, id, column, bound)
  {
    match column
    case Submitted => SubmittedOfOne(logs.orders, logs.strategy, id, bound);
    case Cancelled => CancelledOfOne(logs.cancels, logs.strategy, id, bound);
    case Expired => ExpiredOfOne(logs.orders, logs.strategy, id, bound);
    case Rejected => RejectedOfOne(logs.orders, logs.strategy, id, bound);
    case Filled => FilledOfOne(logs.trades, logs.strategy, id, bound);
  }

  lemma OutstandingOfOne(logs: Logs, id: OrderId, bound: nat)
    ensures OutstandingAt(ForOrder(logs, id), bound)
         == SubmittedBefore(logs, id, bound) - TerminatedBefore(logs, id, bound)
  {
    LoggedOfOne(logs, id, Column.Submitted, bound);
    LoggedOfOne(logs, id, Column.Cancelled, bound);
    LoggedOfOne(logs, id, Column.Expired, bound);
    LoggedOfOne(logs, id, Column.Rejected, bound);
    LoggedOfOne(logs, id, Column.Filled, bound);
  }

  /** The ids with a submission entry are the ids of the strategy's orders. */
  lemma {:induction false} SubmittedIds(orders: seq<LedgerOrder>, agent: AgentId, id: OrderId)
    ensures (exists e :: e in SubmittedEntries(orders, agent) && e.id == id)
       <==> (exists o :: o in orders && o.agent == agent && o.id == id)
  {
    if orders != [] {
      var front, last := orders[..|orders| - 1], orders[|orders| - 1];
      SubmittedIds(front, agent, id);
      assert orders == front + [last];
      var before, added := SubmittedEntries(front, agent), Listed(SubmittedEntry(last, agent));
      assert SubmittedEntries(orders, agent) == before + added;
      if e :| e in before && e.id == id { assert e in before + added; }
      if last.agent == agent && last.id == id { assert SubmittedEntry(last, agent).value in before + added; }
    }
  }

  lemma OpenIdsAreOpen(logs: Logs, step: nat)
    ensures OpenIds(logs, step + 1) == OpenOrders(logs, step)
  {
    forall id
      ensures id in OpenIds(logs, step + 1) <==> id in OpenOrders(logs, step)
    {
      OutstandingOfOne(logs, id, step + 1);
      SubmittedIds(logs.orders, logs.strategy, id);
    }
  }

  // ----- when the rows can be rebuilt

  /** What the logs say about the steps up to `step` holds together: no order has ended more than it
      submitted, the parent still covers what is outstanding, and the account's recorded inventory, if
      there is one, is what the fills so far make it. */
  ghost predicate HoldsTogether(logs: Logs, step: nat) {
    var filled := Logged(logs, Column.Filled, step + 1);
    && (forall id :: 0 <= OutstandingAt(ForOrder(logs, id), step + 1))
    && filled + OutstandingAt(logs, step + 1) <= logs.target
    && (step in logs.inventory ==> logs.inventory[step] == logs.direction * filled)
  }

  lemma NothingOverEnded(logs: Logs, bound: nat)
    ensures NothingOverTerminated(logs, bound) <==> forall id :: 0 <= OutstandingAt(ForOrder(logs, id), bound)
  {
    forall id
      ensures OutstandingAt(ForOrder(logs, id), bound)
           == SubmittedBefore(logs, id, bound) - TerminatedBefore(logs, id, bound)
    {
      OutstandingOfOne(logs, id, bound);
    }
    assert (forall id :: 0 <= OutstandingAt(ForOrder(logs, id), bound)) ==> NothingOverTerminated(logs, bound);
  }

  lemma InOrderHoldsTogether(logs: Logs, step: nat)
    ensures StepInOrder(logs, step) <==> HoldsTogether(logs, step)
  {
    NothingOverEnded(logs, step + 1);
    ActiveIsOutstanding(logs, step + 1);
    TradesAddUp(logs.trades, logs.strategy, step + 1);
  }

  // ----- the rows

  lemma ColumnSnoc(rows: seq<StepRow>, row: StepRow, column: Column)
    ensures ColumnTotal(rows + [row], column) == ColumnTotal(rows, column) + Cell(row, column)
  {
    assert (rows + [row])[..|rows|] == rows;
  }

  lemma CellIsDifference(logs: Logs, column: Column, step: nat)
    requires logs.WellFormed()
    ensures Logged(logs, column, step + 1) == Logged(logs, column, step) + Cell(RowAt(logs, step), column)
  {
    if column != Column.MarketVolume {
      LoggedIsEntries(logs, column, step);
      LoggedIsEntries(logs, column, step + 1);
    }
    match column
    case Submitted => AllBeforeNext(SubmittedEntries(logs.orders, logs.strategy), step);
    case Cancelled => AllBeforeNext(CancelledEntries(logs.cancels, logs.strategy), step);
    case Expired => AllBeforeNext(ExpiredEntries(logs.orders, logs.strategy), step);
    case Rejected => AllBeforeNext(RejectedEntries(logs.orders, logs.strategy), step);
    case Filled => AllBeforeNext(FilledEntries(logs.trades, logs.strategy), step);
    case MarketVolume => VolumeNextStep(logs.trades, logs.symbol, step);
  }

  lemma ColumnNext(rows: seq<StepRow>, logs: Logs, row: StepRow, column: Column)
    requires logs.WellFormed() && row == RowAt(logs, |rows|)
    requires ColumnTotal(rows, column) == Logged(logs, column, |rows|)
    ensures ColumnTotal(rows + [row], column) == Logged(logs, column, |rows| + 1)
  {
    ColumnSnoc(rows, row, column);
    CellIsDifference(logs, column, |rows|);
  }

  lemma AdditiveColumnsNext(rows: seq<StepRow>, logs: Logs, row: StepRow)
    requires logs.WellFormed() && row == RowAt(logs, |rows|) && TotalsTie(rows, logs)
    ensures TotalsTie(rows + [row], logs)
  {
    forall column
      ensures ColumnTotal(rows + [row], column) == Logged(logs, column, |rows| + 1)
    {
      ColumnNext(rows, logs, row, column);
    }
  }

  /** A row's running columns, in the logs' own terms. */
  lemma RunningCells(logs: Logs, step: nat)
    requires logs.WellFormed()
    ensures RowAt(logs, step).step == step && RowAt(logs, step).active == OutstandingAt(logs, step + 1)
    ensures RowAt(logs, step).filledInventory == Logged(logs, Column.Filled, step + 1)
    ensures RowAt(logs, step).remainingParent == logs.target - Logged(logs, Column.Filled, step + 1)
  {
    ActiveIsOutstanding(logs, step + 1);
    TradesAddUp(logs.trades, logs.strategy, step + 1);
  }

  lemma InventoryCell(logs: Logs, step: nat)
    requires logs.WellFormed()
    ensures RowAt(logs, step).accountInventory
         == if step in logs.inventory then logs.inventory[step]
            else logs.direction * Logged(logs, Column.Filled, step + 1)
  {
    TradesAddUp(logs.trades, logs.strategy, step + 1);
  }

  lemma OpenCell(logs: Logs, step: nat)
    requires logs.WellFormed()
    ensures RowAt(logs, step).openOrders == |OpenIds(logs, step + 1)|
  {
    OpenIdsAreOpen(logs, step);
  }

  lemma RunningColumnsNext(rows: seq<StepRow>, logs: Logs, row: StepRow)
    requires logs.WellFormed() && row == RowAt(logs, |rows|) && TotalsTie(rows + [row], logs)
    ensures RunningTies(rows + [row], logs)
  {
    var longer, bound := rows + [row], |rows| + 1;
    RunningCells(logs, |rows|);
    OpenCell(logs, |rows|);
    InventoryCell(logs, |rows|);
    assert ColumnTotal(longer, Column.Submitted) == Logged(logs, Column.Submitted, bound);
    assert ColumnTotal(longer, Column.Filled) == Logged(logs, Column.Filled, bound);
    assert ColumnTotal(longer, Column.Cancelled) == Logged(logs, Column.Cancelled, bound);
    assert ColumnTotal(longer, Column.Expired) == Logged(logs, Column.Expired, bound);
    assert ColumnTotal(longer, Column.Rejected) == Logged(logs, Column.Rejected, bound);
  }

  lemma NoRowsTie(logs: Logs)
    ensures TotalsTie([], logs)
  {
    forall column
      ensures Logged(logs, column, 0) == 0
    {
      NothingLoggedYet(logs, column);
    }
  }

  lemma NothingLoggedYet(logs: Logs, column: Column)
    ensures Logged(logs, column, 0) == 0
  {
    if column != Column.MarketVolume { LoggedIsEntries(logs, column, 0); }
    match column
    case Submitted => NothingBeforeZero(SubmittedEntries(logs.orders, logs.strategy), "");
    case Cancelled => NothingBeforeZero(CancelledEntries(logs.cancels, logs.strategy), "");
    case Expired => NothingBeforeZero(ExpiredEntries(logs.orders, logs.strategy), "");
    case Rejected => NothingBeforeZero(RejectedEntries(logs.orders, logs.strategy), "");
    case Filled => NothingBeforeZero(FilledEntries(logs.trades, logs.strategy), "");
    case MarketVolume => NoVolumeYet(logs.trades, logs.symbol);
  }

  lemma EmptyColumnsTie(logs: Logs)
    requires logs.WellFormed()
    ensures ColumnsTie([], logs)
  {
    NoRowsTie(logs);
    ContributionsUntil(logs, 0);
    var none: seq<StepRow> := [];
    assert none[..0] == none;
  }

  lemma {:induction false} TermsUntil(logs: Logs, trades: seq<Trade>, bound: nat)
    requires logs.WellFormed()
    ensures SumOfNumerators(logs, trades, bound) == Terms(logs, TradesUntil(trades, bound))
  {
    if trades == [] {
      NoTradesNoNumerators(logs, bound);
    } else {
      var front, last := TradesUntil(trades[..|trades| - 1], bound), trades[|trades| - 1];
      TermsUntil(logs, trades[..|trades| - 1], bound);
      LastTradeCountsOnce(logs, trades, bound);
      assert (front + [last])[..|front|] == front == front + [];
    }
  }

  /** The contributions of the steps so far are the shortfall of the trades so far. */
  lemma ContributionsUntil(logs: Logs, bound: nat)
    requires logs.WellFormed()
    ensures SumOfContributions(logs, bound) == ShortfallUntil(logs, bound)
  {
    var executed := FilledFor(logs.trades, logs.strategy);
    ExecutedIsFilled(logs.trades, logs.strategy);
    if executed == 0 {
      NoFillsNoContributions(logs, bound);
    } else {
      ContributionsAreScaledNumerators(logs, bound, executed);
      TermsUntil(logs, logs.trades, bound);
      TermsFoldToNotional(logs, TradesUntil(logs.trades, bound));
    }
  }

  lemma ShortfallNext(rows: seq<StepRow>, logs: Logs, row: StepRow)
    requires logs.WellFormed() && row == RowAt(logs, |rows|)
    requires forall k :: 0 <= k <= |rows| ==> ShortfallTotal(rows[..k]) == ShortfallUntil(logs, k)
    ensures forall k :: 0 <= k <= |rows| + 1 ==> ShortfallTotal((rows + [row])[..k]) == ShortfallUntil(logs, k)
  {
    var longer := rows + [row];
    ContributionsUntil(logs, |rows|);
    ContributionsUntil(logs, |rows| + 1);
    assert rows[..|rows|] == rows && longer[..|rows| + 1] == longer;
    ShortfallSnoc(rows, row);
    assert forall k :: 0 <= k <= |rows| ==> longer[..k] == rows[..k];
  }

  lemma ShortfallSnoc(rows: seq<StepRow>, row: StepRow)
    ensures ShortfallTotal(rows + [row]) == ShortfallTotal(rows) + row.shortfall
  {
    assert (rows + [row])[..|rows|] == rows;
  }

  lemma PrefixesTieNext(rows: seq<StepRow>, logs: Logs, row: StepRow)
    requires forall k :: 0 <= k <= |rows| ==> TotalsTie(rows[..k], logs)
    requires forall k :: 0 < k <= |rows| ==> RunningTies(rows[..k], logs)
    requires TotalsTie(rows + [row], logs) && RunningTies(rows + [row], logs)
    ensures forall k :: 0 <= k <= |rows| + 1 ==> TotalsTie((rows + [row])[..k], logs)
    ensures forall k :: 0 < k <= |rows| + 1 ==> RunningTies((rows + [row])[..k], logs)
  {
    var longer := rows + [row];
    forall k | 0 <= k <= |longer|
      ensures TotalsTie(longer[..k], logs) && (0 < k ==> RunningTies(longer[..k], logs))
    {
      assert longer[..k] == if k <= |rows| then rows[..k] else longer;
    }
  }

  /** One more row, for the step after the last. */
  lemma ColumnsTieNext(rows: seq<StepRow>, logs: Logs, row: StepRow)
    requires logs.WellFormed() && row == RowAt(logs, |rows|) && ColumnsTie(rows, logs)
    ensures ColumnsTie(rows + [row], logs)
  {
    assert TotalsTie(rows, logs) by {
      assert rows[..|rows|] == rows;
    }
    AdditiveColumnsNext(rows, logs, row);
    RunningColumnsNext(rows, logs, row);
    ShortfallNext(rows, logs, row);
    PrefixesTieNext(rows, logs, row);
  }
}
