/** The per-step shortfall contributions add up to the implementation shortfall that the
    run summary computes on its own from the average price. */
module Shortfall {
  import opened Wrappers
  import opened Venue
  import opened StrategyLedger

  /** Sum of the rows' contributions over the first `steps` steps. */
  function SumOfContributions(logs: Logs, steps: nat): real
    requires logs.WellFormed()
  {
    if steps == 0 then 0.0 else SumOfContributions(logs, steps - 1) + Contribution(logs, steps - 1)
  }

  function SumOfNumerators(logs: Logs, trades: seq<Trade>, steps: nat): real
    requires logs.WellFormed()
  {
    if steps == 0 then 0.0 else SumOfNumerators(logs, trades, steps - 1) + NumeratorAt(logs, trades, steps - 1)
  }

  // ----- the summary's own computation

  function Notional(trades: seq<Trade>, strategy: AgentId): real {
    if trades == [] then 0.0
    else
      var last := trades[|trades| - 1];
      Notional(trades[..|trades| - 1], strategy)
      + if last.Involves(strategy) then last.price as real * last.quantity as real else 0.0
  }

  function SummaryShortfall(logs: Logs): real
    requires logs.WellFormed()
  {
    var executed := FilledFor(logs.trades, logs.strategy);
    if executed == 0 then 0.0
    else
      var average := Notional(logs.trades, logs.strategy) / executed as real;
      logs.direction as real * (average / logs.arrivalPrice as real - 1.0) * 10000.0
  }

  // ----- the two agree

  lemma StrategySides(trade: Trade, strategy: AgentId)
    ensures trade.Involves(strategy) <==> StrategyOrderId(trade, strategy).Some?
  {
  }

  lemma {:induction false} ExecutedIsFilled(trades: seq<Trade>, strategy: AgentId)
    ensures FilledFor(trades, strategy) == Sum(FilledEntries(trades, strategy))
  {
    if trades != [] {
      var front, last := trades[..|trades| - 1], trades[|trades| - 1];
      ExecutedIsFilled(front, strategy);
      var before := FilledEntries(front, strategy);
      match FilledEntry(last, strategy) {
        case Some(e) => assert (before + [e])[..|before|] == before;
        case None => assert before + [] == before;
      }
    }
  }

  predicate WithinHorizon(trades: seq<Trade>, strategy: AgentId, steps: nat) {
    forall i :: 0 <= i < |trades| && trades[i].Involves(strategy) ==> trades[i].step < steps
  }

  /** Regrouping the terms by step loses none of the trades within the horizon. */
  lemma {:induction false} LastTradeCountsOnce(logs: Logs, trades: seq<Trade>, steps: nat)
    requires logs.WellFormed() && trades != []
    ensures SumOfNumerators(logs, trades, steps)
         == SumOfNumerators(logs, trades[..|trades| - 1], steps)
            + if trades[|trades| - 1].Involves(logs.strategy) && trades[|trades| - 1].step < steps
              then Term(logs, trades[|trades| - 1]) else 0.0
  {
    if steps != 0 {
      LastTradeCountsOnce(logs, trades, steps - 1);
      StrategySides(trades[|trades| - 1], logs.strategy);
    }
  }

  lemma {:induction false} NoTradesNoNumerators(logs: Logs, steps: nat)
    requires logs.WellFormed()
    ensures SumOfNumerators(logs, [], steps) == 0.0
  {
    if steps != 0 {
      NoTradesNoNumerators(logs, steps - 1);
    }
  }

  lemma TermExpands(direction: real, price: real, arrival: real, quantity: real)
    requires arrival > 0.0
    ensures direction * (price / arrival - 1.0) * 10000.0 * quantity
         == direction * 10000.0 * (price * quantity / arrival - quantity)
  {
    var ratio := price / arrival;
    assert price == ratio * arrival;
    assert price * quantity == (ratio * quantity) * arrival;
    assert price * quantity / arrival == ratio * quantity;
  }

  lemma ScaleBack(direction: real, notional: real, arrival: real, executed: real)
    requires arrival > 0.0 && executed > 0.0
    ensures direction * 10000.0 * (notional / arrival - executed) / executed
         == direction * (notional / executed / arrival - 1.0) * 10000.0
  {
    var average := notional / executed;
    var x := average / arrival;
    assert notional == average * executed;
    assert average == x * arrival;
    assert notional == (x * executed) * arrival;
    assert notional / arrival == x * executed;
    assert direction * 10000.0 * (x * executed - executed) == (direction * (x - 1.0) * 10000.0) * executed;
  }

  /** Adding one trade's term moves the closed form from the old sums to the new ones. */
  lemma AddTerm(direction: real, price: real, arrival: real, quantity: real, notional: real, executed: real)
    requires arrival > 0.0
    ensures direction * 10000.0 * (notional / arrival - executed)
            + direction * (price / arrival - 1.0) * 10000.0 * quantity
         == direction * 10000.0 * ((notional + price * quantity) / arrival - (executed + quantity))
  {
    TermExpands(direction, price, arrival, quantity);
    var a, b := notional / arrival, price * quantity / arrival;
    assert (notional + price * quantity) / arrival == a + b;
    Distribute(direction * 10000.0, a - executed, b - quantity);
  }

  lemma Distribute(k: real, x: real, y: real)
    ensures k * x + k * y == k * (x + y)
  {
  }

  /** What `executed` bought for `notional` cost over the arrival price, in basis points times quantity. */
  function ClosedForm(logs: Logs, notional: real, executed: real): real
    requires logs.WellFormed()
  {
    logs.direction as real * 10000.0 * (notional / logs.arrivalPrice as real - executed)
  }

  lemma ClosedFormNext(logs: Logs, trade: Trade, notional: real, executed: real)
    requires logs.WellFormed()
    ensures ClosedForm(logs, notional, executed) + Term(logs, trade)
         == ClosedForm(logs, notional + trade.price as real * trade.quantity as real,
                       executed + trade.quantity as real)
  {
    AddTerm(logs.direction as real, trade.price as real, logs.arrivalPrice as real, trade.quantity as real,
            notional, executed);
  }

  lemma ClosedFormStart(logs: Logs)
    requires logs.WellFormed()
    ensures ClosedForm(logs, 0.0, 0.0) == 0.0
  {
  }

  /** The strategy's terms without grouping by step. */
  function Terms(logs: Logs, trades: seq<Trade>): real
    requires logs.WellFormed()
  {
    if trades == [] then 0.0
    else
      var last := trades[|trades| - 1];
      Terms(logs, trades[..|trades| - 1]) + if last.Involves(logs.strategy) then Term(logs, last) else 0.0
  }

  lemma {:induction false} RegroupByStep(logs: Logs, trades: seq<Trade>, steps: nat)
    requires logs.WellFormed() && WithinHorizon(trades, logs.strategy, steps)
    ensures SumOfNumerators(logs, trades, steps) == Terms(logs, trades)
  {
    if trades == [] {
      NoTradesNoNumerators(logs, steps);
    } else {
      RegroupByStep(logs, trades[..|trades| - 1], steps);
      LastTradeCountsOnce(logs, trades, steps);
    }
  }

  lemma {:induction false} TermsFoldToNotional(logs: Logs, trades: seq<Trade>)
    requires logs.WellFormed()
    ensures Terms(logs, trades)
         == ClosedForm(logs, Notional(trades, logs.strategy), FilledFor(trades, logs.strategy) as real)
  {
    if trades == [] {
      ClosedFormStart(logs);
    } else {
      var front, last := trades[..|trades| - 1], trades[|trades| - 1];
      TermsFoldToNotional(logs, front);
      var notional, executed := Notional(front, logs.strategy), FilledFor(front, logs.strategy) as real;
      if last.Involves(logs.strategy) {
        var value, quantity := last.price as real * last.quantity as real, last.quantity as real;
        assert Notional(trades, logs.strategy) == notional + value;
        assert FilledFor(trades, logs.strategy) as real == executed + quantity;
        ClosedFormNext(logs, last, notional, executed);
        assert Terms(logs, trades) == Terms(logs, front) + Term(logs, last);
      } else {
        assert Terms(logs, trades) == Terms(logs, front) + 0.0;
      }
    }
  }

  lemma QuotientSum(a: real, b: real, total: real)
    requires total > 0.0
    ensures (a + b) / total == a / total + b / total
  {
  }

  lemma {:induction false} ContributionsAreScaledNumerators(logs: Logs, steps: nat, total: nat)
    requires logs.WellFormed() && total == Sum(FilledEntries(logs.trades, logs.strategy)) && 0 < total
    ensures SumOfContributions(logs, steps) == SumOfNumerators(logs, logs.trades, steps) / total as real
  {
    if steps != 0 {
      ContributionsAreScaledNumerators(logs, steps - 1, total);
      QuotientSum(SumOfNumerators(logs, logs.trades, steps - 1), NumeratorAt(logs, logs.trades, steps - 1),
                  total as real);
    }
  }

  lemma {:induction false} NoFillsNoContributions(logs: Logs, steps: nat)
    requires logs.WellFormed() && Sum(FilledEntries(logs.trades, logs.strategy)) == 0
    ensures SumOfContributions(logs, steps) == 0.0
  {
    if steps != 0 {
      NoFillsNoContributions(logs, steps - 1);
    }
  }

  lemma ClosedFormIsSummary(logs: Logs)
    requires logs.WellFormed() && 0 < FilledFor(logs.trades, logs.strategy)
    ensures ClosedForm(logs, Notional(logs.trades, logs.strategy), FilledFor(logs.trades, logs.strategy) as real)
              / FilledFor(logs.trades, logs.strategy) as real
         == SummaryShortfall(logs)
  {
    ScaleBack(logs.direction as real, Notional(logs.trades, logs.strategy), logs.arrivalPrice as real,
              FilledFor(logs.trades, logs.strategy) as real);
  }

  /** For every trade log whose strategy trades fall within the run, the contributions of
      the rows add up to the summary's implementation shortfall. */
  lemma ContributionsAddUp(logs: Logs, steps: nat)
    requires logs.WellFormed() && WithinHorizon(logs.trades, logs.strategy, steps)
    ensures SumOfContributions(logs, steps) == SummaryShortfall(logs)
  {
    var executed := FilledFor(logs.trades, logs.strategy);
    ExecutedIsFilled(logs.trades, logs.strategy);
    if executed == 0 {
      NoFillsNoContributions(logs, steps);
    } else {
      ContributionsAreScaledNumerators(logs, steps, executed);
      RegroupByStep(logs, logs.trades, steps);
      assert SumOfContributions(logs, steps) == Terms(logs, logs.trades) / executed as real;
      TermsFoldToNotional(logs, logs.trades);
      ClosedFormIsSummary(logs);
    }
  }
}
