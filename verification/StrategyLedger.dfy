/** The per-step accounting rebuilt from the order, cancel and trade logs after a run. */
module StrategyLedger {
  import opened Wrappers
  import opened Venue

  /** A resolved row of the order log. */
  datatype LedgerOrder = LedgerOrder(id: OrderId, agent: AgentId, quantity: nat, submittedStep: nat,
                                     arrivalStep: Option<nat>, rejected: nat, expired: nat)

  datatype LedgerCancel = LedgerCancel(id: OrderId, agent: AgentId, quantity: nat, effectiveStep: nat)

  /** A quantity moving in or out of one order at one step. */
  datatype Entry = Entry(step: nat, id: OrderId, quantity: nat)

  datatype StepRow = StepRow(step: nat, submitted: nat, cancelled: nat, expired: nat, rejected: nat, filled: nat,
                             active: int, openOrders: nat, marketVolume: nat, remainingParent: int,
                             filledInventory: nat, accountInventory: int, shortfall: real)

  /** Everything the reconstruction reads. */
  datatype Logs = Logs(strategy: AgentId, symbol: Symbol, direction: int, target: nat, arrivalPrice: nat,
                       orders: seq<LedgerOrder>, cancels: seq<LedgerCancel>, trades: seq<Trade>,
                       inventory: map<nat, int>)
  {
    predicate WellFormed() { 0 < arrivalPrice && (direction == 1 || direction == -1) }
  }

  // ----- what the logs say about one step

  function StrategyOrderId(trade: Trade, strategy: AgentId): Option<OrderId> {
    if trade.makerAgent == strategy then Some(trade.makerId)
    else if trade.takerAgent == strategy then Some(trade.takerId)
    else None
  }

  /** The entry a log row contributes, if any. */
  function SubmittedEntry(order: LedgerOrder, strategy: AgentId): Option<Entry> {
    if order.agent == strategy then Some(Entry(order.submittedStep, order.id, order.quantity)) else None
  }

  function RejectedEntry(order: LedgerOrder, strategy: AgentId): Option<Entry> {
    if order.agent == strategy && order.arrivalStep.Some? && order.rejected != 0
    then Some(Entry(order.arrivalStep.value, order.id, order.rejected)) else None
  }

  function ExpiredEntry(order: LedgerOrder, strategy: AgentId): Option<Entry> {
    if order.agent == strategy && order.arrivalStep.Some? && order.expired != 0
    then Some(Entry(order.arrivalStep.value, order.id, order.expired)) else None
  }

  function CancelledEntry(cancel: LedgerCancel, strategy: AgentId): Option<Entry> {
    if cancel.agent == strategy then Some(Entry(cancel.effectiveStep, cancel.id, cancel.quantity)) else None
  }

  function FilledEntry(trade: Trade, strategy: AgentId): Option<Entry> {
    match StrategyOrderId(trade, strategy)
    case Some(id) => Some(Entry(trade.step, id, trade.quantity))
    case None => None
  }

  function Listed(entry: Option<Entry>): seq<Entry> {
    if entry.Some? then [entry.value] else []
  }

  function SubmittedEntries(orders: seq<LedgerOrder>, strategy: AgentId): seq<Entry> {
    if orders == [] then []
    else SubmittedEntries(orders[..|orders| - 1], strategy) + Listed(SubmittedEntry(orders[|orders| - 1], strategy))
  }

  function RejectedEntries(orders: seq<LedgerOrder>, strategy: AgentId): seq<Entry> {
    if orders == [] then []
    else RejectedEntries(orders[..|orders| - 1], strategy) + Listed(RejectedEntry(orders[|orders| - 1], strategy))
  }

  function ExpiredEntries(orders: seq<LedgerOrder>, strategy: AgentId): seq<Entry> {
    if orders == [] then []
    else ExpiredEntries(orders[..|orders| - 1], strategy) + Listed(ExpiredEntry(orders[|orders| - 1], strategy))
  }

  function CancelledEntries(cancels: seq<LedgerCancel>, strategy: AgentId): seq<Entry> {
    if cancels == [] then []
    else CancelledEntries(cancels[..|cancels| - 1], strategy) + Listed(CancelledEntry(cancels[|cancels| - 1], strategy))
  }

  function FilledEntries(trades: seq<Trade>, strategy: AgentId): seq<Entry> {
    if trades == [] then []
    else FilledEntries(trades[..|trades| - 1], strategy) + Listed(FilledEntry(trades[|trades| - 1], strategy))
  }

  function At(entries: seq<Entry>, step: nat): seq<Entry> {
    if entries == [] then []
    else
      var last := entries[|entries| - 1];
      At(entries[..|entries| - 1], step) + if last.step == step then [last] else []
  }

  /** Quantity of order `id` in entries before step `bound`. */
  function BeforeFor(entries: seq<Entry>, id: OrderId, bound: nat): nat {
    if entries == [] then 0
    else
      var last := entries[|entries| - 1];
      BeforeFor(entries[..|entries| - 1], id, bound) + if last.id == id && last.step < bound then last.quantity else 0
  }

  function AllBefore(entries: seq<Entry>, bound: nat): nat {
    if entries == [] then 0
    else
      var last := entries[|entries| - 1];
      AllBefore(entries[..|entries| - 1], bound) + if last.step < bound then last.quantity else 0
  }

  function Sum(entries: seq<Entry>): nat {
    if entries == [] then 0 else Sum(entries[..|entries| - 1]) + entries[|entries| - 1].quantity
  }

  function SumFor(entries: seq<Entry>, id: OrderId): nat {
    if entries == [] then 0
    else
      var last := entries[|entries| - 1];
      SumFor(entries[..|entries| - 1], id) + if last.id == id then last.quantity else 0
  }

  // ----- when a step is in order

  function SubmittedBefore(logs: Logs, id: OrderId, bound: nat): nat {
    BeforeFor(SubmittedEntries(logs.orders, logs.strategy), id, bound)
  }

  /** Quantity of an order that has left the market before a step, by any of the four ways out. */
  function TerminatedBefore(logs: Logs, id: OrderId, bound: nat): nat {
    BeforeFor(FilledEntries(logs.trades, logs.strategy), id, bound)
    + BeforeFor(CancelledEntries(logs.cancels, logs.strategy), id, bound)
    + BeforeFor(ExpiredEntries(logs.orders, logs.strategy), id, bound)
    + BeforeFor(RejectedEntries(logs.orders, logs.strategy), id, bound)
  }

  function FilledBefore(logs: Logs, bound: nat): nat {
    AllBefore(FilledEntries(logs.trades, logs.strategy), bound)
  }

  /** Submitted quantity that has not left the market before a step. */
  function ActiveBefore(logs: Logs, bound: nat): int {
    AllBefore(SubmittedEntries(logs.orders, logs.strategy), bound)
    - FilledBefore(logs, bound)
    - AllBefore(CancelledEntries(logs.cancels, logs.strategy), bound)
    - AllBefore(ExpiredEntries(logs.orders, logs.strategy), bound)
    - AllBefore(RejectedEntries(logs.orders, logs.strategy), bound)
  }

  function AccountInventory(logs: Logs, step: nat): int {
    if step in logs.inventory then logs.inventory[step] else logs.direction * FilledBefore(logs, step + 1)
  }

  /** No order has terminated more than it submitted. */
  ghost predicate NothingOverTerminated(logs: Logs, bound: nat) {
    forall id :: TerminatedBefore(logs, id, bound) <= SubmittedBefore(logs, id, bound)
  }

  /** The logs tell a consistent story up to and including `step`. */
  ghost predicate StepInOrder(logs: Logs, step: nat) {
    && NothingOverTerminated(logs, step + 1)
    && AccountInventory(logs, step) == logs.direction * FilledBefore(logs, step + 1)
    && ActiveBefore(logs, step + 1) <= logs.target - FilledBefore(logs, step + 1)
  }

  // ----- shortfall terms

  function Term(logs: Logs, trade: Trade): real
    requires logs.WellFormed()
  {
    logs.direction as real * (trade.price as real / logs.arrivalPrice as real - 1.0) * 10000.0 * trade.quantity as real
  }

  /** Shortfall of the strategy's trades at one step. */
  function NumeratorAt(logs: Logs, trades: seq<Trade>, step: nat): real
    requires logs.WellFormed()
  {
    if trades == [] then 0.0
    else
      var last := trades[|trades| - 1];
      NumeratorAt(logs, trades[..|trades| - 1], step)
      + if StrategyOrderId(last, logs.strategy).Some? && last.step == step then Term(logs, last) else 0.0
  }

  function VolumeAt(trades: seq<Trade>, symbol: Symbol, step: nat): nat {
    if trades == [] then 0
    else
      var last := trades[|trades| - 1];
      VolumeAt(trades[..|trades| - 1], symbol, step)
      + if last.symbol == symbol && last.step == step then last.quantity else 0
  }

  function Contribution(logs: Logs, step: nat): real
    requires logs.WellFormed()
  {
    var total := Sum(FilledEntries(logs.trades, logs.strategy));
    if total == 0 then 0.0 else NumeratorAt(logs, logs.trades, step) / total as real
  }

  /** Orders with quantity still at work at the end of a step. */
  ghost function OpenOrders(logs: Logs, step: nat): set<OrderId> {
    set e | e in SubmittedEntries(logs.orders, logs.strategy)
            && TerminatedBefore(logs, e.id, step + 1) < SubmittedBefore(logs, e.id, step + 1) :: e.id
  }

  /** The row a consistent step gets. */
  ghost function RowAt(logs: Logs, step: nat): StepRow
    requires logs.WellFormed()
  {
    StepRow(step,
            Sum(At(SubmittedEntries(logs.orders, logs.strategy), step)),
            Sum(At(CancelledEntries(logs.cancels, logs.strategy), step)),
            Sum(At(ExpiredEntries(logs.orders, logs.strategy), step)),
            Sum(At(RejectedEntries(logs.orders, logs.strategy), step)),
            Sum(At(FilledEntries(logs.trades, logs.strategy), step)),
            ActiveBefore(logs, step + 1),
            |OpenOrders(logs, step)|,
            VolumeAt(logs.trades, logs.symbol, step),
            logs.target - FilledBefore(logs, step + 1),
            FilledBefore(logs, step + 1),
            AccountInventory(logs, step),
            Contribution(logs, step))
  }

  // ----- sums step by step

  lemma {:induction false} BeforeNext(entries: seq<Entry>, id: OrderId, step: nat)
    ensures BeforeFor(entries, id, step + 1) == BeforeFor(entries, id, step) + SumFor(At(entries, step), id)
  {
    if entries != [] {
      var front, last := entries[..|entries| - 1], entries[|entries| - 1];
      BeforeNext(front, id, step);
      assert (At(front, step) + [last])[..|At(front, step)|] == At(front, step) == At(front, step) + [];
    }
  }

  lemma {:induction false} AllBeforeNext(entries: seq<Entry>, step: nat)
    ensures AllBefore(entries, step + 1) == AllBefore(entries, step) + Sum(At(entries, step))
  {
    if entries != [] {
      var front, last := entries[..|entries| - 1], entries[|entries| - 1];
      AllBeforeNext(front, step);
      assert (At(front, step) + [last])[..|At(front, step)|] == At(front, step) == At(front, step) + [];
    }
  }

  lemma {:induction false} NothingBeforeZero(entries: seq<Entry>, id: OrderId)
    ensures BeforeFor(entries, id, 0) == 0 && AllBefore(entries, 0) == 0
  {
    if entries != [] {
      NothingBeforeZero(entries[..|entries| - 1], id);
    }
  }

  // ----- the table of active children, in insertion order

  type Table = seq<(OrderId, int)>

  function Lookup(table: Table, id: OrderId): int {
    if table == [] then 0 else if table[0].0 == id then table[0].1 else Lookup(table[1..], id)
  }

  function Store(table: Table, id: OrderId, value: int): Table {
    if table == [] then [(id, value)]
    else if table[0].0 == id then [(id, value)] + table[1..]
    else [table[0]] + Store(table[1..], id, value)
  }

  function Total(table: Table): int {
    if table == [] then 0 else table[0].1 + Total(table[1..])
  }

  function Positive(table: Table): nat {
    if table == [] then 0 else (if table[0].1 > 0 then 1 else 0) + Positive(table[1..])
  }

  function Keys(table: Table): set<OrderId> {
    if table == [] then {} else {table[0].0} + Keys(table[1..])
  }

  predicate DistinctKeys(table: Table) {
    table == [] || (table[0].0 !in Keys(table[1..]) && DistinctKeys(table[1..]))
  }

  lemma {:induction false} StoreEffect(table: Table, id: OrderId, value: int)
    ensures Total(Store(table, id, value)) == Total(table) - Lookup(table, id) + value
    ensures forall other ::
              Lookup(Store(table, id, value), other) == if other == id then value else Lookup(table, other)
    ensures Keys(Store(table, id, value)) == Keys(table) + {id}
    ensures DistinctKeys(table) ==> DistinctKeys(Store(table, id, value))
  {
    if table != [] && table[0].0 != id {
      StoreEffect(table[1..], id, value);
    }
  }

  lemma {:induction false} AbsentIsZero(table: Table, id: OrderId)
    requires id !in Keys(table)
    ensures Lookup(table, id) == 0
  {
    if table != [] {
      AbsentIsZero(table[1..], id);
    }
  }

  function PositiveKeys(table: Table): set<OrderId> {
    set id | id in Keys(table) && Lookup(table, id) > 0
  }

  lemma {:induction false} PositiveCountsKeys(table: Table)
    requires DistinctKeys(table)
    ensures Positive(table) == |PositiveKeys(table)|
  {
    if table != [] {
      var rest := table[1..];
      PositiveCountsKeys(rest);
      AbsentIsZero(rest, table[0].0);
      assert forall id :: id in Keys(rest) ==> Lookup(table, id) == Lookup(rest, id);
      if table[0].1 > 0 {
        assert PositiveKeys(table) == PositiveKeys(rest) + {table[0].0};
        assert table[0].0 !in PositiveKeys(rest);
      } else {
        assert PositiveKeys(table) == PositiveKeys(rest);
      }
    }
  }
}
