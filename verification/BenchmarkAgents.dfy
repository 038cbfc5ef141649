/** The benchmark's built-in agents in closed loop with an exchange that may fill or cancel
    their orders in any order. */
module BenchmarkAgents {

  datatype Side = Buy | Sell

  type OrderId = nat

  datatype Open = Open(id: OrderId, side: Side, remaining: nat)

  datatype Action = Hold | Cancel(id: OrderId) | Submit(side: Side, quantity: nat)

  // ----- the TWAP decision rule

  function SameSide(orders: seq<Open>, side: Side): seq<Open> {
    if orders == [] then []
    else if orders[0].side == side then [orders[0]] + SameSide(orders[1..], side)
    else SameSide(orders[1..], side)
  }

  function Quantity(orders: seq<Open>): nat {
    if orders == [] then 0 else orders[0].remaining + Quantity(orders[1..])
  }

  /** The first of the largest orders. */
  function Largest(orders: seq<Open>): Open
    requires orders != []
  {
    if |orders| == 1 then orders[0]
    else
      var rest := Largest(orders[1..]);
      if rest.remaining > orders[0].remaining then rest else orders[0]
  }

  function Min(a: int, b: int): int { if a <= b then a else b }

  function Max(a: int, b: int): int { if a <= b then b else a }

  function Twap(side: Side, open: seq<Open>, remaining: int, slice: int): Action {
    var sameSide := SameSide(open, side);
    var outstanding := Quantity(sameSide);
    if remaining <= 0 then (if sameSide != [] then Cancel(sameSide[0].id) else Hold)
    else if outstanding > remaining then Cancel(Largest(sameSide).id)
    else if remaining - outstanding <= 0 then Hold
    else Submit(side, Min(remaining - outstanding, Max(1, slice)))
  }

  // ----- the closed loop

  /** `delivered` is the net quantity on the parent's side; open orders may be on either side. */
  datatype Desk = Desk(side: Side, target: int, delivered: int, open: seq<Open>, nextId: OrderId)

  /** What can happen next: the agent decides, or the exchange fills or drops an open order. */
  datatype Move = Decide(slice: int) | Fill(id: OrderId, quantity: nat) | Drop(id: OrderId)

  function Removed(orders: seq<Open>, id: OrderId): seq<Open> {
    if orders == [] then []
    else if orders[0].id == id then orders[1..]
    else [orders[0]] + Removed(orders[1..], id)
  }

  /** Takes a fill off an order; a filled order leaves the list. */
  function Filled(orders: seq<Open>, id: OrderId, quantity: nat): seq<Open> {
    if orders == [] then []
    else if orders[0].id == id then
      (if orders[0].remaining <= quantity then orders[1..]
       else [orders[0].(remaining := orders[0].remaining - quantity)] + orders[1..])
    else [orders[0]] + Filled(orders[1..], id, quantity)
  }

  predicate Fillable(orders: seq<Open>, id: OrderId, quantity: nat)
    ensures Fillable(orders, id, quantity) ==> id in Ids(orders)
  {
    orders != [] && if orders[0].id == id then quantity <= orders[0].remaining else Fillable(orders[1..], id, quantity)
  }

  function Ids(orders: seq<Open>): set<OrderId> {
    if orders == [] then {} else {orders[0].id} + Ids(orders[1..])
  }

  /** Distinct orders, on either side, with ids that were handed out before `nextId`. */
  predicate Placed(orders: seq<Open>, nextId: OrderId) {
    orders == [] || (orders[0].id !in Ids(orders[1..]) && orders[0].id < nextId && Placed(orders[1..], nextId))
  }

  predicate Sound(d: Desk) { Placed(d.open, d.nextId) }

  /** The side of the first order with this id. */
  function SideOf(orders: seq<Open>, id: OrderId): Side
    requires id in Ids(orders)
  {
    if orders[0].id == id then orders[0].side else SideOf(orders[1..], id)
  }

  /** The observation clamps what is left at zero. */
  function Remaining(d: Desk): int { Max(0, d.target - d.delivered) }

  function Choice(d: Desk, slice: int): Action { Twap(d.side, d.open, Remaining(d), slice) }

  function Done(d: Desk, action: Action): Desk {
    match action
    case Hold => d
    case Cancel(id) => d.(open := Removed(d.open, id))
    case Submit(side, quantity) => d.(open := d.open + [Open(d.nextId, side, quantity)], nextId := d.nextId + 1)
  }

  predicate Possible(d: Desk, move: Move) {
    move.Fill? ==> Fillable(d.open, move.id, move.quantity)
  }

  /** A fill on the other side takes from what was delivered. */
  function Moved(d: Desk, move: Move): Desk
    requires Possible(d, move)
  {
    match move
    case Decide(slice) => Done(d, Choice(d, slice))
    case Fill(id, quantity) =>
      d.(open := Filled(d.open, id, quantity),
         delivered := if SideOf(d.open, id) == d.side then d.delivered + quantity else d.delivered - quantity)
    case Drop(id) => d.(open := Removed(d.open, id))
  }

  ghost predicate Run(d: Desk, moves: seq<Move>, d': Desk)
    decreases moves
  {
    if moves == [] then d == d' else Possible(d, moves[0]) && Run(Moved(d, moves[0]), moves[1..], d')
  }

  /** How far delivered plus outstanding same-side quantity is above the target. */
  function Excess(d: Desk): int { d.delivered + Quantity(SameSide(d.open, d.side)) - d.target }

  // ----- lemmas about the order list

  lemma {:induction false} LargestIsListed(orders: seq<Open>)
    requires orders != []
    ensures Largest(orders).id in Ids(orders)
  {
    if |orders| > 1 {
      LargestIsListed(orders[1..]);
    }
  }

  lemma {:induction false} SameSideIsPart(orders: seq<Open>, side: Side, nextId: OrderId)
    requires Placed(orders, nextId)
    ensures Placed(SameSide(orders, side), nextId) && Ids(SameSide(orders, side)) <= Ids(orders)
  {
    if orders != [] {
      SameSideIsPart(orders[1..], side, nextId);
      assert ([orders[0]] + SameSide(orders[1..], side))[1..] == SameSide(orders[1..], side);
    }
  }

  lemma {:induction false} RemovedEffect(orders: seq<Open>, id: OrderId, nextId: OrderId)
    requires Placed(orders, nextId)
    ensures var rest := Removed(orders, id);
            && Placed(rest, nextId) && Ids(rest) <= Ids(orders)
            && Quantity(rest) <= Quantity(orders)
            && |rest| == |orders| - (if id in Ids(orders) then 1 else 0)
            && (id !in Ids(orders) ==> rest == orders)
  {
    if orders != [] && orders[0].id != id {
      RemovedEffect(orders[1..], id, nextId);
      assert ([orders[0]] + Removed(orders[1..], id))[1..] == Removed(orders[1..], id);
    }
  }

  /** Taking an order out of the list takes it out of its side. */
  lemma {:induction false} RemovedFromSide(orders: seq<Open>, id: OrderId, side: Side, nextId: OrderId)
    requires Placed(orders, nextId)
    ensures SameSide(Removed(orders, id), side) == Removed(SameSide(orders, side), id)
  {
    if orders != [] {
      var rest := orders[1..];
      SameSideIsPart(rest, side, nextId);
      assert ([orders[0]] + SameSide(rest, side))[1..] == SameSide(rest, side);
      if orders[0].id == id {
        RemovedEffect(SameSide(rest, side), id, nextId);
      } else {
        RemovedFromSide(rest, id, side, nextId);
        assert ([orders[0]] + Removed(rest, id))[1..] == Removed(rest, id);
      }
    }
  }

  lemma {:induction false} FilledEffect(orders: seq<Open>, id: OrderId, quantity: nat, nextId: OrderId)
    requires Placed(orders, nextId) && Fillable(orders, id, quantity)
    ensures Placed(Filled(orders, id, quantity), nextId) && Ids(Filled(orders, id, quantity)) <= Ids(orders)
  {
    if orders[0].id != id {
      FilledEffect(orders[1..], id, quantity, nextId);
      assert ([orders[0]] + Filled(orders[1..], id, quantity))[1..] == Filled(orders[1..], id, quantity);
    } else if orders[0].remaining > quantity {
      assert ([orders[0].(remaining := orders[0].remaining - quantity)] + orders[1..])[1..] == orders[1..];
    }
  }

  /** A fill takes its quantity off the side of its order and leaves the other side alone. */
  lemma {:induction false} FilledOnSide(orders: seq<Open>, id: OrderId, quantity: nat, side: Side)
    requires Fillable(orders, id, quantity)
    ensures Quantity(SameSide(Filled(orders, id, quantity), side))
         == Quantity(SameSide(orders, side)) - if SideOf(orders, id) == side then quantity else 0
  {
    var first, rest := orders[0], orders[1..];
    assert ([first] + SameSide(rest, side))[1..] == SameSide(rest, side);
    if first.id != id {
      FilledOnSide(rest, id, quantity, side);
      assert ([first] + Filled(rest, id, quantity))[1..] == Filled(rest, id, quantity);
      assert ([first] + SameSide(Filled(rest, id, quantity), side))[1..] == SameSide(Filled(rest, id, quantity), side);
    } else if first.remaining > quantity {
      var reduced := first.(remaining := first.remaining - quantity);
      assert ([reduced] + rest)[1..] == rest;
      assert ([reduced] + SameSide(rest, side))[1..] == SameSide(rest, side);
    }
  }

  lemma {:induction false} PlacedSnoc(orders: seq<Open>, order: Open, nextId: OrderId)
    requires Placed(orders, nextId) && order.id == nextId
    ensures Placed(orders + [order], nextId + 1)
    ensures Ids(orders + [order]) == Ids(orders) + {order.id} && order.id !in Ids(orders)
  {
    if orders == [] {
      assert [order][1..] == [] && [] + [order] == [order];
    } else {
      assert (orders + [order])[1..] == orders[1..] + [order];
      PlacedSnoc(orders[1..], order, nextId);
    }
  }

  lemma {:induction false} QuantitySnoc(orders: seq<Open>, order: Open)
    ensures Quantity(orders + [order]) == Quantity(orders) + order.remaining
  {
    if orders == [] {
      assert [order][1..] == [];
    } else {
      assert (orders + [order])[1..] == orders[1..] + [order];
      QuantitySnoc(orders[1..], order);
    }
  }

  lemma {:induction false} SameSideSnoc(orders: seq<Open>, order: Open, side: Side)
    ensures SameSide(orders + [order], side) == SameSide(orders, side) + if order.side == side then [order] else []
  {
    if orders == [] {
      assert [order][1..] == [] && [] + [order] == [order];
    } else {
      assert (orders + [order])[1..] == orders[1..] + [order];
      SameSideSnoc(orders[1..], order, side);
    }
  }

  // ----- the target is never exceeded from a clean start

  lemma CancelTakesOut(d: Desk, id: OrderId)
    requires Sound(d) && id in Ids(SameSide(d.open, d.side))
    ensures var d' := Done(d, Cancel(id));
            && Sound(d') && Excess(d') <= Excess(d)
            && |SameSide(d'.open, d.side)| == |SameSide(d.open, d.side)| - 1
  {
    RemovedEffect(d.open, id, d.nextId);
    RemovedFromSide(d.open, id, d.side, d.nextId);
    SameSideIsPart(d.open, d.side, d.nextId);
    RemovedEffect(SameSide(d.open, d.side), id, d.nextId);
  }

  lemma SubmitAdds(d: Desk, quantity: nat)
    requires Sound(d)
    ensures var d' := Done(d, Submit(d.side, quantity));
            Sound(d') && Excess(d') == Excess(d) + quantity
  {
    var order := Open(d.nextId, d.side, quantity);
    PlacedSnoc(d.open, order, d.nextId);
    SameSideSnoc(d.open, order, d.side);
    QuantitySnoc(SameSide(d.open, d.side), order);
  }

  /** A decision never pushes the excess above zero, and while there is an excess it submits nothing
      and takes one open order of its side out, if there is one. */
  lemma DecisionIsSafe(d: Desk, slice: int)
    requires Sound(d)
    ensures var d' := Done(d, Choice(d, slice));
            && Sound(d') && Excess(d') <= Max(0, Excess(d))
            && (0 < Excess(d) ==>
                  && !Choice(d, slice).Submit?
                  && |SameSide(d'.open, d.side)| == Max(0, |SameSide(d.open, d.side)| - 1))
  {
    match Choice(d, slice) {
      case Hold =>
      case Cancel(id) =>
        LargestIsListed(SameSide(d.open, d.side));
        CancelTakesOut(d, id);
      case Submit(side, quantity) =>
        SubmitAdds(d, quantity);
    }
  }

  lemma MoveIsSafe(d: Desk, move: Move)
    requires Sound(d) && Possible(d, move)
    ensures Sound(Moved(d, move)) && Excess(Moved(d, move)) <= Max(0, Excess(d))
  {
    match move
    case Decide(slice) => DecisionIsSafe(d, slice);
    case Fill(id, quantity) =>
      FilledEffect(d.open, id, quantity, d.nextId);
      FilledOnSide(d.open, id, quantity, d.side);
    case Drop(id) =>
      RemovedEffect(d.open, id, d.nextId);
      RemovedFromSide(d.open, id, d.side, d.nextId);
      SameSideIsPart(d.open, d.side, d.nextId);
      RemovedEffect(SameSide(d.open, d.side), id, d.nextId);
  }

  /** Against any exchange: delivered plus outstanding never exceeds the target once it does not,
      and an excess that was there before never grows. */
  lemma {:induction false} ExcessNeverGrows(d: Desk, moves: seq<Move>, d': Desk)
    requires Sound(d) && Run(d, moves, d')
    ensures Sound(d') && Excess(d') <= Max(0, Excess(d))
    decreases moves
  {
    if moves != [] {
      MoveIsSafe(d, moves[0]);
      ExcessNeverGrows(Moved(d, moves[0]), moves[1..], d');
    }
  }

  function Decisions(d: Desk, slice: int, n: nat): Desk {
    if n == 0 then d else Done(Decisions(d, slice, n - 1), Choice(Decisions(d, slice, n - 1), slice))
  }

  lemma {:induction false} DecisionsThinOut(d: Desk, slice: int, n: nat)
    requires Sound(d)
    ensures var d' := Decisions(d, slice, n);
            && Sound(d') && Excess(d') <= Max(0, Excess(d)) && d'.delivered == d.delivered && d'.target == d.target
            && d'.side == d.side
            && (0 < Excess(d') ==> |SameSide(d'.open, d.side)| == Max(0, |SameSide(d.open, d.side)| - n))
  {
    if n != 0 {
      DecisionsThinOut(d, slice, n - 1);
      DecisionIsSafe(Decisions(d, slice, n - 1), slice);
    }
  }

  /** Without fills an excess of open quantity is gone after as many decisions as there are open
      orders of its side; what was delivered beyond the target stays. */
  lemma ExcessClears(d: Desk, slice: int, n: nat)
    requires Sound(d) && |SameSide(d.open, d.side)| <= n
    ensures Excess(Decisions(d, slice, n)) <= Max(0, d.delivered - d.target)
  {
    DecisionsThinOut(d, slice, n);
  }

  // ----- the agent makes progress

  /** The first order with an id. */
  function Listed(orders: seq<Open>, id: OrderId): Open
    requires id in Ids(orders)
  {
    if orders[0].id == id then orders[0] else Listed(orders[1..], id)
  }

  lemma {:induction false} RemovedQuantity(orders: seq<Open>, id: OrderId)
    requires id in Ids(orders)
    ensures Quantity(Removed(orders, id)) == Quantity(orders) - Listed(orders, id).remaining
  {
    if orders[0].id != id {
      RemovedQuantity(orders[1..], id);
      assert ([orders[0]] + Removed(orders[1..], id))[1..] == Removed(orders[1..], id);
    }
  }

  lemma {:induction false} LargestIsLargest(orders: seq<Open>, nextId: OrderId)
    requires orders != [] && Placed(orders, nextId)
    ensures Largest(orders) in orders && forall o :: o in orders ==> o.remaining <= Largest(orders).remaining
    ensures Largest(orders).id in Ids(orders) && Listed(orders, Largest(orders).id) == Largest(orders)
  {
    LargestIsListed(orders);
    if |orders| > 1 {
      LargestIsLargest(orders[1..], nextId);
      LargestIsListed(orders[1..]);
      assert orders == [orders[0]] + orders[1..];
    }
  }

  /** Below the target the agent always adds its slice, or what is missing; with nothing missing it
      never changes that. */
  lemma DecisionAddsSlice(d: Desk, slice: int)
    requires Sound(d) && Excess(d) <= 0
    ensures var d' := Done(d, Choice(d, slice));
            && (Excess(d) < 0 ==> Excess(d') == Min(0, Excess(d) + Max(1, slice)))
            && (Excess(d) < 0 ==> d'.open == d.open + [Open(d.nextId, d.side, Excess(d') - Excess(d))])
            && (Excess(d) == 0 ==> Excess(d') == 0)
  {
    if Excess(d) < 0 {
      SubmitAdds(d, Min(-Excess(d), Max(1, slice)));
    } else if Choice(d, slice).Cancel? {
      var sameSide := SameSide(d.open, d.side);
      RemovedFromSide(d.open, sameSide[0].id, d.side, d.nextId);
      assert Quantity(sameSide) == sameSide[0].remaining + Quantity(sameSide[1..]);
    }
  }

  /** Over-committed, it takes a whole order out: while something remains to be bought or sold a largest
      one of its side, and the first one when nothing does. */
  lemma DecisionTakesOut(d: Desk, slice: int)
    requires Sound(d) && 0 < Excess(d) && SameSide(d.open, d.side) != []
    ensures var sameSide, d' := SameSide(d.open, d.side), Done(d, Choice(d, slice));
            if d.delivered < d.target
            then exists o :: o in sameSide && Excess(d') == Excess(d) - o.remaining
                             && forall other :: other in sameSide ==> other.remaining <= o.remaining
            else SameSide(d'.open, d.side) == sameSide[1..]
  {
    var sameSide := SameSide(d.open, d.side);
    SameSideIsPart(d.open, d.side, d.nextId);
    LargestIsLargest(sameSide, d.nextId);
    LargestIsListed(sameSide);
    RemovedFromSide(d.open, Largest(sameSide).id, d.side, d.nextId);
    RemovedFromSide(d.open, sameSide[0].id, d.side, d.nextId);
    RemovedQuantity(sameSide, Largest(sameSide).id);
  }

  /** A decision whose order, if it submits one, fills at once. */
  function FilledRound(d: Desk, slice: int): Desk
    requires Sound(d) && d.open == []
  {
    var d' := Done(d, Choice(d, slice));
    if !Choice(d, slice).Submit? then d' else Moved(d', Fill(d.nextId, d'.open[0].remaining))
  }

  lemma RoundDelivers(d: Desk, slice: int)
    requires Sound(d) && d.open == [] && d.delivered <= d.target
    ensures var d' := FilledRound(d, slice);
            && d'.open == [] && d'.target == d.target && d'.side == d.side
            && d'.delivered == Min(d.target, d.delivered + Max(1, slice))
  {
    DecisionAddsSlice(d, slice);
  }

  function FilledRounds(d: Desk, slice: int, n: nat): (d': Desk)
    requires Sound(d) && d.open == []
    requires d.delivered <= d.target
    ensures Sound(d') && d'.open == [] && d'.delivered <= d'.target == d.target
  {
    if n == 0 then d
    else
      var before := FilledRounds(d, slice, n - 1);
      RoundDelivers(before, slice);
      FilledRound(before, slice)
  }

  lemma {:induction false} RoundsDeliver(d: Desk, slice: int, n: nat)
    requires Sound(d) && d.open == [] && d.delivered <= d.target
    ensures FilledRounds(d, slice, n).delivered == Min(d.target, d.delivered + n * Max(1, slice))
  {
    if n != 0 {
      RoundsDeliver(d, slice, n - 1);
      RoundDelivers(FilledRounds(d, slice, n - 1), slice);
      assert n * Max(1, slice) == (n - 1) * Max(1, slice) + Max(1, slice);
      if d.target < d.delivered + (n - 1) * Max(1, slice) { assert 0 <= Max(1, slice); }
    }
  }

  /** Against an exchange that fills every order before the next decision, the agent delivers its whole
      target in as many decisions as it has slices, rounded up, and in no fewer. */
  lemma TargetIsDelivered(side: Side, target: nat, slice: int, n: nat)
    ensures FilledRounds(Desk(side, target, 0, [], 0), slice, n).delivered == target
       <==> (target + Max(1, slice) - 1) / Max(1, slice) <= n
  {
    RoundsDeliver(Desk(side, target, 0, [], 0), slice, n);
    RoundedUp(target, Max(1, slice), n);
  }

  lemma RoundedUp(target: nat, slice: nat, n: nat)
    requires 1 <= slice
    ensures (target + slice - 1) / slice <= n <==> target <= n * slice
  {
    var q, r := (target + slice - 1) / slice, (target + slice - 1) % slice;
    assert target + slice - 1 == q * slice + r;
    if q <= n { Scales(q, n, slice); } else { Scales(n + 1, q, slice); }
  }

  lemma Scales(a: nat, b: nat, slice: nat)
    requires a <= b
    ensures a * slice <= b * slice
  {
    assert b * slice - a * slice == (b - a) * slice;
  }

  // ----- the passive maker

  /** The maker's rule; with no quote to cancel it has nothing to answer and holds. */
  function PassiveMaker(open: seq<Open>, quantity: nat, maxOpen: nat): Action {
    if |open| >= maxOpen then (if open == [] then Hold else Cancel(open[0].id))
    else Submit(if |SameSide(open, Buy)| <= |SameSide(open, Sell)| then Buy else Sell, quantity)
  }

  /** The maker never quotes beyond its limit: below it a quote of its size is added, and from there on
      every decision takes the oldest one out. */
  lemma MakerStaysWithinLimit(open: seq<Open>, nextId: OrderId, quantity: nat, maxOpen: nat)
    ensures var d' := Done(Desk(Buy, 0, 0, open, nextId), PassiveMaker(open, quantity, maxOpen));
            && |d'.open| <= Max(maxOpen, |open| - 1)
            && (|open| < maxOpen ==>
                  |d'.open| == |open| + 1 && d'.open[..|open|] == open && d'.open[|open|].remaining == quantity)
            && (maxOpen <= |open| && open != [] ==> d'.open == open[1..])
  {
  }

  /** It keeps the two sides level: a quote goes to the side with fewer of them. */
  lemma MakerBalances(open: seq<Open>, nextId: OrderId, quantity: nat, maxOpen: nat)
    requires |open| < maxOpen
    ensures var d' := Done(Desk(Buy, 0, 0, open, nextId), PassiveMaker(open, quantity, maxOpen));
            var before := |SameSide(open, Buy)| - |SameSide(open, Sell)|;
            var after := |SameSide(d'.open, Buy)| - |SameSide(d'.open, Sell)|;
            after == if before <= 0 then before + 1 else before - 1
  {
    var side := if |SameSide(open, Buy)| <= |SameSide(open, Sell)| then Buy else Sell;
    SameSideSnoc(open, Open(nextId, side, quantity), Buy);
    SameSideSnoc(open, Open(nextId, side, quantity), Sell);
  }
}
