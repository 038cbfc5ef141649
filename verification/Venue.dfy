/** The exchange as the simulation loop sees it: resting orders that another
    submission may fill, and a contract on what one submission can do. Prices
    and queue positions are the venue's business and stay abstract. */
module Venue {
  import opened Wrappers

  type AgentId = string
  type OrderId = string
  type Symbol = string

  datatype Side = Buy | Sell
  datatype OrderKind = Limit | Market

  datatype Order = Order(id: OrderId, agent: AgentId, symbol: Symbol, side: Side, kind: OrderKind,
                         quantity: nat, remaining: nat, submittedStep: nat)

  /** One match against a resting order. */
  datatype Fill = Fill(makerId: OrderId, quantity: nat, price: nat)

  /** What a submission does: it is refused (halt) or accepted with some fills,
      after which the leftover rests or disappears. */
  datatype Response = Rejected | Accepted(fills: seq<Fill>, rests: bool)

  datatype Trade = Trade(makerId: OrderId, makerAgent: AgentId, takerId: OrderId, takerAgent: AgentId,
                         takerSide: Side, symbol: Symbol, quantity: nat, price: nat, step: nat)
  {
    function BuyerAgent(): AgentId { if takerSide == Buy then takerAgent else makerAgent }

    function SellerAgent(): AgentId { if takerSide == Buy then makerAgent else takerAgent }

    predicate Involves(agent: AgentId) { BuyerAgent() == agent || SellerAgent() == agent }
  }

  // ----- the resting book

  function Find(book: seq<Order>, id: OrderId): Option<Order> {
    if book == [] then None
    else if book[0].id == id then Some(book[0])
    else Find(book[1..], id)
  }

  /** Takes `quantity` off the resting order `id`; an emptied order leaves. */
  function Reduce(book: seq<Order>, id: OrderId, quantity: nat): seq<Order> {
    if book == [] then []
    else if book[0].id == id then
      if book[0].remaining <= quantity then book[1..]
      else [book[0].(remaining := book[0].remaining - quantity)] + book[1..]
    else [book[0]] + Reduce(book[1..], id, quantity)
  }

  function Remove(book: seq<Order>, id: OrderId): seq<Order> {
    if book == [] then []
    else if book[0].id == id then book[1..]
    else [book[0]] + Remove(book[1..], id)
  }

  function ReduceAll(book: seq<Order>, fills: seq<Fill>): seq<Order>
    decreases fills
  {
    if fills == [] then book
    else ReduceAll(Reduce(book, fills[0].makerId, fills[0].quantity), fills[1..])
  }

  function RestingOf(book: seq<Order>, agent: AgentId): nat {
    if book == [] then 0
    else (if book[0].agent == agent then book[0].remaining else 0) + RestingOf(book[1..], agent)
  }

  function RestingUnder(book: seq<Order>, id: OrderId): nat {
    if book == [] then 0
    else (if book[0].id == id then book[0].remaining else 0) + RestingUnder(book[1..], id)
  }

  // ----- the contract of a submission

  function Matched(fills: seq<Fill>): nat {
    if fills == [] then 0 else fills[0].quantity + Matched(fills[1..])
  }

  /** Every fill is a positive part of an opposite order still resting when it happens. */
  predicate FillsFit(book: seq<Order>, taker: Order, fills: seq<Fill>)
    decreases fills
  {
    fills == [] ||
    var maker := Find(book, fills[0].makerId);
    && 0 < fills[0].quantity
    && maker.Some?
    && fills[0].quantity <= maker.value.remaining
    && maker.value.side != taker.side
    && maker.value.symbol == taker.symbol
    && FillsFit(Reduce(book, fills[0].makerId, fills[0].quantity), taker, fills[1..])
  }

  predicate Conforms(book: seq<Order>, taker: Order, maxMatch: Option<nat>, response: Response) {
    response.Accepted? ==>
      && FillsFit(book, taker, response.fills)
      && Matched(response.fills) <= taker.remaining
      && (maxMatch.Some? ==> Matched(response.fills) <= maxMatch.value)
      && (response.rests ==> taker.kind == Limit && Matched(response.fills) < taker.remaining)
  }

  function BookAfter(book: seq<Order>, taker: Order, response: Response): seq<Order>
    requires Conforms(book, taker, None, response)
  {
    match response
    case Rejected => book
    case Accepted(fills, rests) =>
      ReduceAll(book, fills) + if rests then [taker.(remaining := taker.remaining - Matched(fills))] else []
  }

  function TradesOf(book: seq<Order>, taker: Order, fills: seq<Fill>, step: nat): seq<Trade>
    requires FillsFit(book, taker, fills)
    decreases fills
  {
    if fills == [] then []
    else
      var maker := Find(book, fills[0].makerId).value;
      [Trade(maker.id, maker.agent, taker.id, taker.agent, taker.side, taker.symbol,
             fills[0].quantity, fills[0].price, step)]
      + TradesOf(Reduce(book, fills[0].makerId, fills[0].quantity), taker, fills[1..], step)
  }

  function TradesAfter(book: seq<Order>, taker: Order, response: Response, step: nat): seq<Trade>
    requires Conforms(book, taker, None, response)
  {
    if response.Rejected? then [] else TradesOf(book, taker, response.fills, step)
  }

  // ----- sums over trade logs

  // Logs only ever grow at the end, so everything that reads them recurses from there.

  /** Quantity of the trades an account took part in, on either side. */
  function FilledFor(trades: seq<Trade>, agent: AgentId): nat {
    if trades == [] then 0
    else
      var last := trades[|trades| - 1];
      FilledFor(trades[..|trades| - 1], agent) + if last.Involves(agent) then last.quantity else 0
  }

  function TradedIn(trades: seq<Trade>, symbol: Symbol): nat {
    if trades == [] then 0
    else
      var last := trades[|trades| - 1];
      TradedIn(trades[..|trades| - 1], symbol) + if last.symbol == symbol then last.quantity else 0
  }

  lemma {:induction false} FilledForConcat(a: seq<Trade>, b: seq<Trade>, agent: AgentId)
    ensures FilledFor(a + b, agent) == FilledFor(a, agent) + FilledFor(b, agent)
  {
    if b == [] {
      assert a + b == a;
    } else {
      assert (a + b)[..|a + b| - 1] == a + b[..|b| - 1];
      FilledForConcat(a, b[..|b| - 1], agent);
    }
  }

  lemma {:induction false} TradedInConcat(a: seq<Trade>, b: seq<Trade>, symbol: Symbol)
    ensures TradedIn(a + b, symbol) == TradedIn(a, symbol) + TradedIn(b, symbol)
  {
    if b == [] {
      assert a + b == a;
    } else {
      assert (a + b)[..|a + b| - 1] == a + b[..|b| - 1];
      TradedInConcat(a, b[..|b| - 1], symbol);
    }
  }

  lemma {:induction false} RestingOfConcat(a: seq<Order>, b: seq<Order>, agent: AgentId)
    ensures RestingOf(a + b, agent) == RestingOf(a, agent) + RestingOf(b, agent)
  {
    if a == [] {
      assert a + b == b;
    } else {
      assert (a + b)[1..] == a[1..] + b;
      RestingOfConcat(a[1..], b, agent);
    }
  }

  lemma {:induction false} ReduceTakesFromOwner(book: seq<Order>, id: OrderId, quantity: nat, agent: AgentId)
    requires Find(book, id).Some? && quantity <= Find(book, id).value.remaining
    ensures RestingOf(book, agent)
         == RestingOf(Reduce(book, id, quantity), agent)
            + if Find(book, id).value.agent == agent then quantity else 0
  {
    if book[0].id != id {
      ReduceTakesFromOwner(book[1..], id, quantity, agent);
    }
  }

  lemma {:induction false} RemoveTakesFromOwner(book: seq<Order>, id: OrderId, agent: AgentId)
    ensures RestingOf(Remove(book, id), agent) <= RestingOf(book, agent)
    ensures Find(book, id).Some? && Find(book, id).value.agent != agent
        ==> RestingOf(Remove(book, id), agent) == RestingOf(book, agent)
  {
    if book != [] && book[0].id != id {
      RemoveTakesFromOwner(book[1..], id, agent);
    }
  }

  /** An account's resting quantity falls by at most what it traded: exactly the
      trades in which it was the maker. For the taker every trade counts. */
  lemma {:induction false} TradesComeFromMakers(book: seq<Order>, taker: Order, fills: seq<Fill>, step: nat,
                                                agent: AgentId)
    requires FillsFit(book, taker, fills)
    ensures var trades := TradesOf(book, taker, fills, step);
            && RestingOf(ReduceAll(book, fills), agent) <= RestingOf(book, agent)
            && (taker.agent != agent ==>
                  RestingOf(ReduceAll(book, fills), agent) + FilledFor(trades, agent) == RestingOf(book, agent))
            && (taker.agent == agent ==> FilledFor(trades, agent) == Matched(fills))
    decreases fills
  {
    if fills != [] {
      var f := fills[0];
      ReduceTakesFromOwner(book, f.makerId, f.quantity, agent);
      var rest := TradesOf(Reduce(book, f.makerId, f.quantity), taker, fills[1..], step);
      TradesComeFromMakers(Reduce(book, f.makerId, f.quantity), taker, fills[1..], step, agent);
      FilledForConcat([TradesOf(book, taker, fills, step)[0]], rest, agent);
    }
  }

  /** All trades of a submission are in its symbol, so they add up to its matched quantity. */
  lemma {:induction false} TradesStayInSymbol(book: seq<Order>, taker: Order, fills: seq<Fill>, step: nat,
                                              symbol: Symbol)
    requires FillsFit(book, taker, fills)
    ensures TradedIn(TradesOf(book, taker, fills, step), symbol)
         == if symbol == taker.symbol then Matched(fills) else 0
    decreases fills
  {
    if fills != [] {
      var rest := TradesOf(Reduce(book, fills[0].makerId, fills[0].quantity), taker, fills[1..], step);
      TradesStayInSymbol(Reduce(book, fills[0].makerId, fills[0].quantity), taker, fills[1..], step, symbol);
      TradedInConcat([TradesOf(book, taker, fills, step)[0]], rest, symbol);
    }
  }
}
