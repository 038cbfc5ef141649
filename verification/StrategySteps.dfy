/** The reconstruction of the strategy's per-step accounting, loop by loop, and exactly
    when it succeeds. */
module StrategySteps {
  import opened Wrappers
  import opened Venue
  import opened StrategyLedger
  import opened Shortfall
  import opened StepColumns

  type Groups = map<nat, seq<Entry>>

  function Group(groups: Groups, step: nat): seq<Entry> {
    if step in groups then groups[step] else []
  }

  ghost predicate GroupsOf(groups: Groups, entries: seq<Entry>) {
    forall step :: Group(groups, step) == At(entries, step)
  }

  function Extended(groups: Groups, entry: Option<Entry>): Groups {
    if entry.Some? then groups[entry.value.step := Group(groups, entry.value.step) + [entry.value]] else groups
  }

  lemma ExtendGroups(groups: Groups, entries: seq<Entry>, entry: Option<Entry>)
    requires GroupsOf(groups, entries)
    ensures GroupsOf(Extended(groups, entry), entries + Listed(entry))
  {
    match entry
    case Some(e) => assert (entries + [e])[..|entries|] == entries;
    case None => assert entries + [] == entries;
  }

  lemma PrefixOf<T>(s: seq<T>, i: nat)
    requires i < |s|
    ensures s[..i + 1][..i] == s[..i] && s[..i + 1][i] == s[i]
  {
  }

  method GroupOrders(orders: seq<LedgerOrder>, strategy: AgentId)
    returns (submitted: Groups, rejected: Groups, expired: Groups)
    ensures GroupsOf(submitted, SubmittedEntries(orders, strategy))
    ensures GroupsOf(rejected, RejectedEntries(orders, strategy))
    ensures GroupsOf(expired, ExpiredEntries(orders, strategy))
  {
    submitted, rejected, expired := map[], map[], map[];
    for i := 0 to |orders|
      invariant GroupsOf(submitted, SubmittedEntries(orders[..i], strategy))
      invariant GroupsOf(rejected, RejectedEntries(orders[..i], strategy))
      invariant GroupsOf(expired, ExpiredEntries(orders[..i], strategy))
    {
      PrefixOf(orders, i);
      ExtendGroups(submitted, SubmittedEntries(orders[..i], strategy), SubmittedEntry(orders[i], strategy));
      ExtendGroups(rejected, RejectedEntries(orders[..i], strategy), RejectedEntry(orders[i], strategy));
      ExtendGroups(expired, ExpiredEntries(orders[..i], strategy), ExpiredEntry(orders[i], strategy));
      submitted := Extended(submitted, SubmittedEntry(orders[i], strategy));
      rejected := Extended(rejected, RejectedEntry(orders[i], strategy));
      expired := Extended(expired, ExpiredEntry(orders[i], strategy));
    }
    assert orders[..|orders|] == orders;
  }

  method GroupCancels(cancels: seq<LedgerCancel>, strategy: AgentId) returns (cancelled: Groups)
    ensures GroupsOf(cancelled, CancelledEntries(cancels, strategy))
  {
    cancelled := map[];
    for i := 0 to |cancels|
      invariant GroupsOf(cancelled, CancelledEntries(cancels[..i], strategy))
    {
      PrefixOf(cancels, i);
      ExtendGroups(cancelled, CancelledEntries(cancels[..i], strategy), CancelledEntry(cancels[i], strategy));
      cancelled := Extended(cancelled, CancelledEntry(cancels[i], strategy));
    }
    assert cancels[..|cancels|] == cancels;
  }

  ghost predicate VolumesOf(volumes: map<nat, nat>, trades: seq<Trade>, symbol: Symbol) {
    forall step :: (if step in volumes then volumes[step] else 0) == VolumeAt(trades, symbol, step)
  }

  ghost predicate NumeratorsOf(numerators: map<nat, real>, logs: Logs, trades: seq<Trade>)
    requires logs.WellFormed()
  {
    forall step :: (if step in numerators then numerators[step] else 0.0) == NumeratorAt(logs, trades, step)
  }

  function AddedVolume(volumes: map<nat, nat>, trade: Trade, symbol: Symbol): map<nat, nat> {
    if trade.symbol == symbol
    then volumes[trade.step := (if trade.step in volumes then volumes[trade.step] else 0) + trade.quantity]
    else volumes
  }

  function AddedNumerator(numerators: map<nat, real>, logs: Logs, trade: Trade): map<nat, real>
    requires logs.WellFormed()
  {
    if StrategyOrderId(trade, logs.strategy).Some?
    then numerators[trade.step :=
           (if trade.step in numerators then numerators[trade.step] else 0.0) + Term(logs, trade)]
    else numerators
  }

  lemma VolumeNext(volumes: map<nat, nat>, trades: seq<Trade>, i: nat, symbol: Symbol)
    requires i < |trades| && VolumesOf(volumes, trades[..i], symbol)
    ensures VolumesOf(AddedVolume(volumes, trades[i], symbol), trades[..i + 1], symbol)
  {
    PrefixOf(trades, i);
  }

  lemma NumeratorNext(numerators: map<nat, real>, logs: Logs, trades: seq<Trade>, i: nat)
    requires logs.WellFormed() && i < |trades| && NumeratorsOf(numerators, logs, trades[..i])
    ensures NumeratorsOf(AddedNumerator(numerators, logs, trades[i]), logs, trades[..i + 1])
  {
    PrefixOf(trades, i);
  }

  lemma FillNext(groups: Groups, trades: seq<Trade>, i: nat, strategy: AgentId)
    requires i < |trades| && GroupsOf(groups, FilledEntries(trades[..i], strategy))
    ensures GroupsOf(Extended(groups, FilledEntry(trades[i], strategy)), FilledEntries(trades[..i + 1], strategy))
    ensures Sum(FilledEntries(trades[..i + 1], strategy))
         == Sum(FilledEntries(trades[..i], strategy))
            + if FilledEntry(trades[i], strategy).Some? then trades[i].quantity else 0
  {
    PrefixOf(trades, i);
    ExtendGroups(groups, FilledEntries(trades[..i], strategy), FilledEntry(trades[i], strategy));
    ExtendSum(FilledEntries(trades[..i], strategy), FilledEntry(trades[i], strategy));
  }

  lemma ExtendSum(entries: seq<Entry>, entry: Option<Entry>)
    ensures Sum(entries + Listed(entry)) == Sum(entries) + if entry.Some? then entry.value.quantity else 0
  {
    match entry
    case Some(e) => assert (entries + [e])[..|entries|] == entries;
    case None => assert entries + [] == entries;
  }

  method GroupTrades(logs: Logs)
    returns (filled: Groups, volumes: map<nat, nat>, numerators: map<nat, real>, total: nat)
    requires logs.WellFormed()
    ensures GroupsOf(filled, FilledEntries(logs.trades, logs.strategy))
    ensures VolumesOf(volumes, logs.trades, logs.symbol)
    ensures NumeratorsOf(numerators, logs, logs.trades)
    ensures total == Sum(FilledEntries(logs.trades, logs.strategy))
  {
    var trades := logs.trades;
    filled, volumes, numerators, total := map[], map[], map[], 0;
    for i := 0 to |trades|
      invariant GroupsOf(filled, FilledEntries(trades[..i], logs.strategy))
      invariant VolumesOf(volumes, trades[..i], logs.symbol)
      invariant NumeratorsOf(numerators, logs, trades[..i])
      invariant total == Sum(FilledEntries(trades[..i], logs.strategy))
    {
      VolumeNext(volumes, trades, i, logs.symbol);
      NumeratorNext(numerators, logs, trades, i);
      FillNext(filled, trades, i, logs.strategy);
      volumes := AddedVolume(volumes, trades[i], logs.symbol);
      if FilledEntry(trades[i], logs.strategy).Some? { total := total + trades[i].quantity; }
      filled := Extended(filled, FilledEntry(trades[i], logs.strategy));
      numerators := AddedNumerator(numerators, logs, trades[i]);
    }
    assert trades[..|trades|] == trades;
  }

  /** Adds the step's submissions to the table. */
  method AddSubmissions(table: Table, entries: seq<Entry>) returns (after: Table)
    requires DistinctKeys(table)
    ensures DistinctKeys(after)
    ensures Total(after) == Total(table) + Sum(entries)
    ensures forall id :: Lookup(after, id) == Lookup(table, id) + SumFor(entries, id)
  {
    after := table;
    for i := 0 to |entries|
      invariant DistinctKeys(after)
      invariant Total(after) == Total(table) + Sum(entries[..i])
      invariant forall id :: Lookup(after, id) == Lookup(table, id) + SumFor(entries[..i], id)
    {
      PrefixOf(entries, i);
      var value := Lookup(after, entries[i].id) + entries[i].quantity;
      StoreEffect(after, entries[i].id, value);
      after := Store(after, entries[i].id, value);
    }
    assert entries[..|entries|] == entries;
  }

  /** Takes terminations off the table; `None` is the negative-quantity assertion. */
  method Terminate(table: Table, entries: seq<Entry>) returns (after: Option<Table>)
    requires DistinctKeys(table)
    ensures after.Some? ==>
              && DistinctKeys(after.value)
              && Total(after.value) == Total(table) - Sum(entries)
              && forall id :: Lookup(after.value, id) == Lookup(table, id) - SumFor(entries, id)
    ensures after.Some? ==> forall id :: 0 <= Lookup(table, id) ==> 0 <= Lookup(after.value, id)
    ensures after.None? ==> exists id :: Lookup(table, id) < SumFor(entries, id)
  {
    var current := table;
    for i := 0 to |entries|
      invariant DistinctKeys(current)
      invariant Total(current) == Total(table) - Sum(entries[..i])
      invariant forall id :: Lookup(current, id) == Lookup(table, id) - SumFor(entries[..i], id)
      invariant forall id :: 0 <= Lookup(table, id) ==> 0 <= Lookup(current, id)
    {
      PrefixOf(entries, i);
      var value := Lookup(current, entries[i].id) - entries[i].quantity;
      StoreEffect(current, entries[i].id, value);
      if value < 0 {
        SumForGrows(entries, i + 1, entries[i].id);
        return None;
      }
      current := Store(current, entries[i].id, value);
    }
    assert entries[..|entries|] == entries;
    after := Some(current);
  }

  lemma {:induction false} SumForGrows(entries: seq<Entry>, i: nat, id: OrderId)
    requires i <= |entries|
    ensures SumFor(entries[..i], id) <= SumFor(entries, id)
  {
    if i == |entries| {
      assert entries[..i] == entries;
    } else {
      assert entries[..|entries| - 1][..i] == entries[..i];
      SumForGrows(entries[..|entries| - 1], i, id);
    }
  }

  // ----- the fold over the steps

  /** The table holds, for every order, what it has left just before step `bound`. */
  ghost predicate TableAt(logs: Logs, table: Table, bound: nat) {
    && DistinctKeys(table)
    && Total(table) == ActiveBefore(logs, bound)
    && forall id :: Lookup(table, id) == SubmittedBefore(logs, id, bound) - TerminatedBefore(logs, id, bound)
  }

  lemma {:induction false} PositiveSum(entries: seq<Entry>, id: OrderId, bound: nat)
    requires 0 < BeforeFor(entries, id, bound)
    ensures exists e :: e in entries && e.id == id
  {
    var last := entries[|entries| - 1];
    if last.id != id {
      PositiveSum(entries[..|entries| - 1], id, bound);
    }
  }

  /** The positive rows of the table are the open orders. */
  lemma PositiveAreOpen(logs: Logs, table: Table, step: nat)
    requires TableAt(logs, table, step + 1)
    ensures PositiveKeys(table) == OpenOrders(logs, step)
    ensures Positive(table) == |OpenOrders(logs, step)|
  {
    PositiveCountsKeys(table);
    forall id
      ensures id in PositiveKeys(table) <==> id in OpenOrders(logs, step)
    {
      if id !in Keys(table) { AbsentIsZero(table, id); }
      if id in PositiveKeys(table) {
        PositiveSum(SubmittedEntries(logs.orders, logs.strategy), id, step + 1);
      }
    }
  }

  /** One step's entries carry every sum from the start of the step to its end. */
  lemma StepAdvances(logs: Logs, step: nat, id: OrderId)
    ensures SubmittedBefore(logs, id, step + 1)
         == SubmittedBefore(logs, id, step) + SumFor(At(SubmittedEntries(logs.orders, logs.strategy), step), id)
    ensures TerminatedBefore(logs, id, step + 1)
         == TerminatedBefore(logs, id, step)
            + SumFor(At(FilledEntries(logs.trades, logs.strategy), step), id)
            + SumFor(At(CancelledEntries(logs.cancels, logs.strategy), step), id)
            + SumFor(At(ExpiredEntries(logs.orders, logs.strategy), step), id)
            + SumFor(At(RejectedEntries(logs.orders, logs.strategy), step), id)
  {
    BeforeNext(SubmittedEntries(logs.orders, logs.strategy), id, step);
    BeforeNext(FilledEntries(logs.trades, logs.strategy), id, step);
    BeforeNext(CancelledEntries(logs.cancels, logs.strategy), id, step);
    BeforeNext(ExpiredEntries(logs.orders, logs.strategy), id, step);
    BeforeNext(RejectedEntries(logs.orders, logs.strategy), id, step);
  }

  lemma TotalsAdvance(logs: Logs, step: nat)
    ensures FilledBefore(logs, step + 1)
         == FilledBefore(logs, step) + Sum(At(FilledEntries(logs.trades, logs.strategy), step))
    ensures ActiveBefore(logs, step + 1)
         == ActiveBefore(logs, step)
            + Sum(At(SubmittedEntries(logs.orders, logs.strategy), step))
            - Sum(At(FilledEntries(logs.trades, logs.strategy), step))
            - Sum(At(CancelledEntries(logs.cancels, logs.strategy), step))
            - Sum(At(ExpiredEntries(logs.orders, logs.strategy), step))
            - Sum(At(RejectedEntries(logs.orders, logs.strategy), step))
  {
    AllBeforeNext(SubmittedEntries(logs.orders, logs.strategy), step);
    AllBeforeNext(FilledEntries(logs.trades, logs.strategy), step);
    AllBeforeNext(CancelledEntries(logs.cancels, logs.strategy), step);
    AllBeforeNext(ExpiredEntries(logs.orders, logs.strategy), step);
    AllBeforeNext(RejectedEntries(logs.orders, logs.strategy), step);
  }

  /** The grouped logs: the source's dictionaries keyed by step. */
  datatype Grouped = Grouped(submitted: Groups, rejected: Groups, expired: Groups, cancelled: Groups, filled: Groups,
                             volumes: map<nat, nat>, numerators: map<nat, real>, total: nat)

  ghost predicate GroupingOf(g: Grouped, logs: Logs)
    requires logs.WellFormed()
  {
    && GroupsOf(g.submitted, SubmittedEntries(logs.orders, logs.strategy))
    && GroupsOf(g.rejected, RejectedEntries(logs.orders, logs.strategy))
    && GroupsOf(g.expired, ExpiredEntries(logs.orders, logs.strategy))
    && GroupsOf(g.cancelled, CancelledEntries(logs.cancels, logs.strategy))
    && GroupsOf(g.filled, FilledEntries(logs.trades, logs.strategy))
    && VolumesOf(g.volumes, logs.trades, logs.symbol)
    && NumeratorsOf(g.numerators, logs, logs.trades)
    && g.total == Sum(FilledEntries(logs.trades, logs.strategy))
  }

  /** The four kinds of termination in turn; an order may lose no more than it has. */
  method TerminateAll(table: Table, filled: seq<Entry>, cancelled: seq<Entry>, expired: seq<Entry>,
                      rejected: seq<Entry>)
    returns (after: Option<Table>)
    requires DistinctKeys(table) && forall id :: 0 <= Lookup(table, id)
    ensures after.Some? <==>
              forall id :: SumFor(filled, id) + SumFor(cancelled, id) + SumFor(expired, id) + SumFor(rejected, id)
                           <= Lookup(table, id)
    ensures after.Some? ==>
              && DistinctKeys(after.value)
              && Total(after.value) == Total(table) - Sum(filled) - Sum(cancelled) - Sum(expired) - Sum(rejected)
              && forall id :: Lookup(after.value, id)
                           == Lookup(table, id) - SumFor(filled, id) - SumFor(cancelled, id)
                              - SumFor(expired, id) - SumFor(rejected, id)
  {
    after := Terminate(table, filled);
    if after.None? { return; }
    after := Terminate(after.value, cancelled);
    if after.None? { return; }
    after := Terminate(after.value, expired);
    if after.None? { return; }
    after := Terminate(after.value, rejected);
  }

  /** What a step's entries of order `id` do to it. */
  ghost function TerminatedAt(logs: Logs, id: OrderId, step: nat): nat {
    SumFor(At(FilledEntries(logs.trades, logs.strategy), step), id)
    + SumFor(At(CancelledEntries(logs.cancels, logs.strategy), step), id)
    + SumFor(At(ExpiredEntries(logs.orders, logs.strategy), step), id)
    + SumFor(At(RejectedEntries(logs.orders, logs.strategy), step), id)
  }

  lemma CoverageNext(logs: Logs, table: Table, withSubmissions: Table, step: nat)
    requires TableAt(logs, table, step)
    requires forall id :: Lookup(withSubmissions, id)
               == Lookup(table, id) + SumFor(At(SubmittedEntries(logs.orders, logs.strategy), step), id)
    ensures forall id :: Lookup(withSubmissions, id) - TerminatedAt(logs, id, step)
               == SubmittedBefore(logs, id, step + 1) - TerminatedBefore(logs, id, step + 1)
    ensures NothingOverTerminated(logs, step + 1)
       <==> forall id :: TerminatedAt(logs, id, step) <= Lookup(withSubmissions, id)
  {
    var next := step + 1;
    forall id
      ensures Lookup(withSubmissions, id) - TerminatedAt(logs, id, step)
           == SubmittedBefore(logs, id, next) - TerminatedBefore(logs, id, next)
    {
      StepAdvances(logs, step, id);
    }
    if forall id :: TerminatedAt(logs, id, step) <= Lookup(withSubmissions, id) {
      forall id
        ensures TerminatedBefore(logs, id, next) <= SubmittedBefore(logs, id, next)
      {
        assert TerminatedAt(logs, id, step) <= Lookup(withSubmissions, id);
      }
    }
  }

  /** One step of the fold: the table after the step, or `None` when an order over-terminated. */
  method AdvanceTable(logs: Logs, step: nat, table: Table, g: Grouped) returns (after: Option<Table>)
    requires logs.WellFormed() && GroupingOf(g, logs)
    requires TableAt(logs, table, step) && NothingOverTerminated(logs, step)
    ensures after.Some? <==> NothingOverTerminated(logs, step + 1)
    ensures after.Some? ==> TableAt(logs, after.value, step + 1)
  {
    var withSubmissions := AddSubmissions(table, Group(g.submitted, step));
    CoverageNext(logs, table, withSubmissions, step);
    forall id
      ensures 0 <= Lookup(withSubmissions, id)
    {
      assert TerminatedBefore(logs, id, step) <= SubmittedBefore(logs, id, step);
    }
    after := TerminateAll(withSubmissions, Group(g.filled, step), Group(g.cancelled, step), Group(g.expired, step),
                          Group(g.rejected, step));
    if after.Some? {
      TableNext(logs, step, table, withSubmissions, after.value);
    }
  }

  lemma TableNext(logs: Logs, step: nat, table: Table, withSubmissions: Table, after: Table)
    requires TableAt(logs, table, step) && DistinctKeys(after)
    requires forall id :: Lookup(withSubmissions, id) - TerminatedAt(logs, id, step)
               == SubmittedBefore(logs, id, step + 1) - TerminatedBefore(logs, id, step + 1)
    requires forall id :: Lookup(after, id) == Lookup(withSubmissions, id) - TerminatedAt(logs, id, step)
    requires Total(withSubmissions) == Total(table) + Sum(At(SubmittedEntries(logs.orders, logs.strategy), step))
    requires Total(after) == Total(withSubmissions)
               - Sum(At(FilledEntries(logs.trades, logs.strategy), step))
               - Sum(At(CancelledEntries(logs.cancels, logs.strategy), step))
               - Sum(At(ExpiredEntries(logs.orders, logs.strategy), step))
               - Sum(At(RejectedEntries(logs.orders, logs.strategy), step))
    ensures TableAt(logs, after, step + 1)
  {
    TotalsAdvance(logs, step);
  }

  /** The five running totals of the fold. */
  datatype Cumulative = Cumulative(submitted: nat, filled: nat, cancelled: nat, expired: nat, rejected: nat)

  ghost predicate CumulativeAt(c: Cumulative, logs: Logs, bound: nat) {
    && c.submitted == AllBefore(SubmittedEntries(logs.orders, logs.strategy), bound)
    && c.filled == FilledBefore(logs, bound)
    && c.cancelled == AllBefore(CancelledEntries(logs.cancels, logs.strategy), bound)
    && c.expired == AllBefore(ExpiredEntries(logs.orders, logs.strategy), bound)
    && c.rejected == AllBefore(RejectedEntries(logs.orders, logs.strategy), bound)
  }

  method AddTotals(logs: Logs, step: nat, g: Grouped, c: Cumulative) returns (next: Cumulative)
    requires logs.WellFormed() && GroupingOf(g, logs) && CumulativeAt(c, logs, step)
    ensures CumulativeAt(next, logs, step + 1)
  {
    AllBeforeNext(SubmittedEntries(logs.orders, logs.strategy), step);
    AllBeforeNext(FilledEntries(logs.trades, logs.strategy), step);
    AllBeforeNext(CancelledEntries(logs.cancels, logs.strategy), step);
    AllBeforeNext(ExpiredEntries(logs.orders, logs.strategy), step);
    AllBeforeNext(RejectedEntries(logs.orders, logs.strategy), step);
    next := Cumulative(c.submitted + Sum(Group(g.submitted, step)), c.filled + Sum(Group(g.filled, step)),
                       c.cancelled + Sum(Group(g.cancelled, step)), c.expired + Sum(Group(g.expired, step)),
                       c.rejected + Sum(Group(g.rejected, step)));
  }

  /** The end-of-step tests. The child and parent identities are tested too, but only the
      account inventory and the parent capacity decide the outcome. */
  method TestsPass(logs: Logs, step: nat, table: Table, c: Cumulative)
    returns (childTies: bool, parentTies: bool, inventoryTies: bool, pass: bool)
    requires logs.WellFormed() && CumulativeAt(c, logs, step + 1)
    requires TableAt(logs, table, step + 1) && NothingOverTerminated(logs, step + 1)
    ensures childTies && parentTies
    ensures pass <==> StepInOrder(logs, step)
  {
    var active := Total(table);
    var remaining := logs.target - c.filled;
    var expected := logs.direction * c.filled;
    var inventory := if step in logs.inventory then logs.inventory[step] else expected;
    childTies := c.submitted == c.filled + c.cancelled + c.expired + c.rejected + active;
    var cancelledTerminal := 0;
    parentTies := logs.target == c.filled + cancelledTerminal + remaining;
    inventoryTies := inventory == expected;
    pass := !(!childTies || !parentTies || !inventoryTies || active > remaining);
  }

  /** Quantity of a step in a grouped log. */
  function Amount(groups: Groups, step: nat): nat {
    Sum(Group(groups, step))
  }

  lemma AmountAt(groups: Groups, entries: seq<Entry>, step: nat)
    requires GroupsOf(groups, entries)
    ensures Amount(groups, step) == Sum(At(entries, step))
  {
  }

  lemma AmountsAt(g: Grouped, logs: Logs, step: nat)
    requires logs.WellFormed() && GroupingOf(g, logs)
    ensures Amount(g.submitted, step) == Sum(At(SubmittedEntries(logs.orders, logs.strategy), step))
    ensures Amount(g.cancelled, step) == Sum(At(CancelledEntries(logs.cancels, logs.strategy), step))
    ensures Amount(g.expired, step) == Sum(At(ExpiredEntries(logs.orders, logs.strategy), step))
    ensures Amount(g.rejected, step) == Sum(At(RejectedEntries(logs.orders, logs.strategy), step))
    ensures Amount(g.filled, step) == Sum(At(FilledEntries(logs.trades, logs.strategy), step))
  {
    AmountAt(g.submitted, SubmittedEntries(logs.orders, logs.strategy), step);
    AmountAt(g.cancelled, CancelledEntries(logs.cancels, logs.strategy), step);
    AmountAt(g.expired, ExpiredEntries(logs.orders, logs.strategy), step);
    AmountAt(g.rejected, RejectedEntries(logs.orders, logs.strategy), step);
    AmountAt(g.filled, FilledEntries(logs.trades, logs.strategy), step);
  }

  /** The step's share of the shortfall, as a quotient of the grouped terms. */
  method MakeContribution(logs: Logs, step: nat, numerators: map<nat, real>, total: nat) returns (bps: real)
    requires logs.WellFormed() && NumeratorsOf(numerators, logs, logs.trades)
    requires total == Sum(FilledEntries(logs.trades, logs.strategy))
    ensures bps == Contribution(logs, step)
  {
    var numerator := if step in numerators then numerators[step] else 0.0;
    bps := if total == 0 then 0.0 else numerator / total as real;
  }

  method LookUpVolume(logs: Logs, step: nat, volumes: map<nat, nat>) returns (volume: nat)
    requires VolumesOf(volumes, logs.trades, logs.symbol)
    ensures volume == VolumeAt(logs.trades, logs.symbol, step)
  {
    volume := if step in volumes then volumes[step] else 0;
  }

  method LookUpInventory(logs: Logs, step: nat, expected: int) returns (inventory: int)
    requires expected == logs.direction * FilledBefore(logs, step + 1)
    ensures inventory == AccountInventory(logs, step)
  {
    inventory := if step in logs.inventory then logs.inventory[step] else expected;
  }

  method MakeRow(logs: Logs, step: nat, active: int, openOrders: nat, g: Grouped, c: Cumulative) returns (row: StepRow)
    requires logs.WellFormed() && GroupingOf(g, logs) && CumulativeAt(c, logs, step + 1)
    requires active == ActiveBefore(logs, step + 1) && openOrders == |OpenOrders(logs, step)|
    ensures row == RowAt(logs, step)
  {
    AmountsAt(g, logs, step);
    var bps := MakeContribution(logs, step, g.numerators, g.total);
    var volume := LookUpVolume(logs, step, g.volumes);
    var inventory := LookUpInventory(logs, step, logs.direction * c.filled);
    row := StepRow(step, Amount(g.submitted, step), Amount(g.cancelled, step), Amount(g.expired, step),
                   Amount(g.rejected, step), Amount(g.filled, step),
                   active, openOrders, volume, logs.target - c.filled, c.filled, inventory, bps);
  }

  /** Advances the fold by one step: the new table and the step's row, unless an assertion fails. */
  method FoldStep(logs: Logs, step: nat, table: Table, g: Grouped, c: Cumulative)
    returns (after: Table, next: Cumulative, row: Option<StepRow>)
    requires logs.WellFormed() && GroupingOf(g, logs) && CumulativeAt(c, logs, step)
    requires TableAt(logs, table, step) && NothingOverTerminated(logs, step)
    ensures row.Some? <==> StepInOrder(logs, step)
    ensures row.Some? ==> row.value == RowAt(logs, step)
    ensures row.Some? ==> CumulativeAt(next, logs, step + 1)
    ensures row.Some? ==> TableAt(logs, after, step + 1) && NothingOverTerminated(logs, step + 1)
  {
    after, next := table, c;
    var advanced := AdvanceTable(logs, step, table, g);
    if advanced.None? {
      return after, next, None;
    }
    after := advanced.value;
    next := AddTotals(logs, step, g, c);
    var _, _, _, pass := TestsPass(logs, step, after, next);
    if !pass {
      return after, next, None;
    }
    PositiveAreOpen(logs, after, step);
    var made := MakeRow(logs, step, Total(after), Positive(after), g, next);
    row := Some(made);
  }

  ghost predicate InOrderBefore(logs: Logs, steps: nat) {
    forall step: nat :: step < steps ==> StepInOrder(logs, step)
  }

  ghost predicate RowsOf(rows: seq<StepRow>, logs: Logs)
    requires logs.WellFormed()
  {
    forall step: nat :: step < |rows| ==> rows[step] == RowAt(logs, step)
  }

  lemma RowsExtend(rows: seq<StepRow>, logs: Logs, row: StepRow)
    requires logs.WellFormed() && RowsOf(rows, logs) && row == RowAt(logs, |rows|)
    requires InOrderBefore(logs, |rows|) && StepInOrder(logs, |rows|)
    ensures RowsOf(rows + [row], logs) && InOrderBefore(logs, |rows| + 1)
  {
  }

  method GroupLogs(logs: Logs) returns (g: Grouped)
    requires logs.WellFormed()
    ensures GroupingOf(g, logs)
  {
    var submitted, rejected, expired := GroupOrders(logs.orders, logs.strategy);
    var cancelled := GroupCancels(logs.cancels, logs.strategy);
    var filled, volumes, numerators, total := GroupTrades(logs);
    g := Grouped(submitted, rejected, expired, cancelled, filled, volumes, numerators, total);
  }

  /** Rebuilds the per-step rows. It returns normally exactly when every step's story is in
      order, and then every row says what the logs say about its step, and every column adds up
      to what they say about the run; otherwise it raises. */
  method BuildStrategySteps(logs: Logs, steps: nat) returns (rows: Option<seq<StepRow>>)
    requires logs.WellFormed()
    ensures rows.Some? <==> InOrderBefore(logs, steps)
    ensures rows.Some? <==> forall step: nat :: step < steps ==> HoldsTogether(logs, step)
    ensures rows.Some? ==> |rows.value| == steps && RowsOf(rows.value, logs) && ColumnsTie(rows.value, logs)
    ensures rows.Some? && WithinHorizon(logs.trades, logs.strategy, steps) ==>
              ShortfallTotal(rows.value) == SummaryShortfall(logs)
  {
    forall step: nat {
      InOrderHoldsTogether(logs, step);
    }
    var g := GroupLogs(logs);
    var table: Table, c, built: seq<StepRow> := [], Cumulative(0, 0, 0, 0, 0), [];
    EmptyTable(logs);
    EmptyColumnsTie(logs);
    for step := 0 to steps
      invariant |built| == step && CumulativeAt(c, logs, step)
      invariant TableAt(logs, table, step) && NothingOverTerminated(logs, step)
      invariant InOrderBefore(logs, step) && RowsOf(built, logs) && ColumnsTie(built, logs)
    {
      var row: Option<StepRow>;
      table, c, row := FoldStep(logs, step, table, g, c);
      if row.None? {
        assert !InOrderBefore(logs, steps);
        return None;
      }
      RowsExtend(built, logs, row.value);
      ColumnsTieNext(built, logs, row.value);
      built := built + [row.value];
    }
    rows := Some(built);
    if WithinHorizon(logs.trades, logs.strategy, steps) {
      ContributionsUntil(logs, steps);
      ContributionsAddUp(logs, steps);
      assert built[..steps] == built;
    }
  }

  lemma EmptyTable(logs: Logs)
    ensures TableAt(logs, [], 0) && NothingOverTerminated(logs, 0)
    ensures CumulativeAt(Cumulative(0, 0, 0, 0, 0), logs, 0)
  {
    EmptyFor(logs, "");
    forall id: OrderId
      ensures SubmittedBefore(logs, id, 0) == 0 && TerminatedBefore(logs, id, 0) == 0
    {
      EmptyFor(logs, id);
    }
  }

  lemma EmptyFor(logs: Logs, id: OrderId)
    ensures SubmittedBefore(logs, id, 0) == 0 && TerminatedBefore(logs, id, 0) == 0
    ensures ActiveBefore(logs, 0) == 0 && CumulativeAt(Cumulative(0, 0, 0, 0, 0), logs, 0)
  {
    NothingBeforeZero(SubmittedEntries(logs.orders, logs.strategy), id);
    NothingBeforeZero(FilledEntries(logs.trades, logs.strategy), id);
    NothingBeforeZero(CancelledEntries(logs.cancels, logs.strategy), id);
    NothingBeforeZero(ExpiredEntries(logs.orders, logs.strategy), id);
    NothingBeforeZero(RejectedEntries(logs.orders, logs.strategy), id);
  }
}
