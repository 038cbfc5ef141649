/** What a cancel does, in every reachable state: the owner's resting order leaves the book for good,
    and the cancel log says how much of it there was. */
module CancelEffects {
  import opened Wrappers
  import opened Venue
  import opened Latency
  import opened ExecutionMachine
  import opened StepChecks

  // ----- every order is in at most one place

  /** Number of queued arrivals of an order. */
  function Queued(pending: seq<Message>, id: OrderId): nat {
    if pending == [] then 0
    else (if pending[0].body.Arrival? && pending[0].body.order.id == id then 1 else 0) + Queued(pending[1..], id)
  }

  /** Number of resting orders with an id. */
  function Resting(book: seq<Order>, id: OrderId): nat {
    if book == [] then 0 else (if book[0].id == id then 1 else 0) + Resting(book[1..], id)
  }

  predicate Known(log: seq<OrderRow>, id: OrderId) {
    exists i :: 0 <= i < |log| && log[i].id == id
  }

  predicate AtMostOnce(s: State, id: OrderId) {
    Queued(s.pending, id) + Resting(s.book, id) <= if Known(s.orderLog, id) then 1 else 0
  }

  ghost predicate OneOfEach(s: State) {
    forall id :: AtMostOnce(s, id)
  }

  lemma {:induction false} InsertCounts(pending: seq<Message>, m: Message, id: OrderId)
    ensures Queued(Insert(pending, m), id)
         == Queued(pending, id) + if m.body.Arrival? && m.body.order.id == id then 1 else 0
  {
    if pending == [] {
      assert [m][1..] == [];
    } else if Before(m, pending[0]) {
      assert ([m] + pending)[1..] == pending;
    } else {
      var tail := Insert(pending[1..], m);
      assert ([pending[0]] + tail)[1..] == tail;
      InsertCounts(pending[1..], m, id);
    }
  }

  lemma {:induction false} RestingConcat(a: seq<Order>, b: seq<Order>, id: OrderId)
    ensures Resting(a + b, id) == Resting(a, id) + Resting(b, id)
  {
    if a == [] {
      assert a + b == b;
    } else {
      assert (a + b)[1..] == a[1..] + b;
      RestingConcat(a[1..], b, id);
    }
  }

  lemma {:induction false} ReduceCounts(book: seq<Order>, maker: OrderId, quantity: nat, id: OrderId)
    ensures Resting(Reduce(book, maker, quantity), id) <= Resting(book, id)
  {
    if book != [] {
      if book[0].id != maker {
        ReduceCounts(book[1..], maker, quantity, id);
      } else if quantity < book[0].remaining {
        assert ([book[0].(remaining := book[0].remaining - quantity)] + book[1..])[1..] == book[1..];
      }
    }
  }

  lemma {:induction false} ReduceAllCounts(book: seq<Order>, fills: seq<Fill>, id: OrderId)
    ensures Resting(ReduceAll(book, fills), id) <= Resting(book, id)
    decreases fills
  {
    if fills != [] {
      ReduceCounts(book, fills[0].makerId, fills[0].quantity, id);
      ReduceAllCounts(Reduce(book, fills[0].makerId, fills[0].quantity), fills[1..], id);
    }
  }

  lemma SubmissionCounts(book: seq<Order>, taker: Order, response: Response, id: OrderId)
    requires Conforms(book, taker, None, response)
    ensures Resting(BookAfter(book, taker, response), id)
         <= Resting(book, id) + if taker.id == id then 1 else 0
  {
    match response
    case Rejected =>
    case Accepted(fills, rests) =>
      var left := taker.(remaining := taker.remaining - Matched(fills));
      ReduceAllCounts(book, fills, id);
      RestingConcat(ReduceAll(book, fills), if rests then [left] else [], id);
      assert [left][1..] == [];
  }

  lemma {:induction false} ResolveKnows(log: seq<OrderRow>, resolved: OrderId, arrival: Option<nat>, accepted: bool,
                                        id: OrderId)
    ensures Known(Resolve(log, resolved, arrival, accepted), id) <==> Known(log, id)
  {
    if log != [] {
      var log' := Resolve(log, resolved, arrival, accepted);
      KnownSplits(log, id);
      KnownSplits(log', id);
      if log[0].id != resolved {
        ResolveKnows(log[1..], resolved, arrival, accepted, id);
        assert log'[1..] == Resolve(log[1..], resolved, arrival, accepted);
      } else {
        assert log'[1..] == log[1..];
      }
    }
  }

  lemma KnownSplits(log: seq<OrderRow>, id: OrderId)
    requires log != []
    ensures Known(log, id) <==> log[0].id == id || Known(log[1..], id)
  {
    if i :| 0 <= i < |log| && log[i].id == id {
      if i != 0 { assert log[1..][i - 1].id == id; }
    }
    if i :| 0 <= i < |log| - 1 && log[1..][i].id == id {
      assert log[i + 1].id == id;
    }
  }

  lemma RecordedKnows(log: seq<OrderRow>, row: OrderRow, id: OrderId)
    ensures Known(log + [row], id) <==> Known(log, id) || row.id == id
  {
    if i :| 0 <= i < |log| && log[i].id == id { assert (log + [row])[i].id == id; }
    assert (log + [row])[|log|] == row;
    if i :| 0 <= i < |log| + 1 && (log + [row])[i].id == id {
      if i < |log| { assert log[i].id == id; }
    }
  }

  /** From a state in which the submitted order is known and nowhere. */
  lemma SubmissionKeepsOne(cfg: Config, s: State, order: Order, response: Response)
    requires Accepts(cfg, s, order, response) && OneOfEach(s)
    requires Known(s.orderLog, order.id) && Queued(s.pending, order.id) + Resting(s.book, order.id) == 0
    ensures OneOfEach(Submitted(cfg, s, order, response))
  {
    var s' := Submitted(cfg, s, order, response);
    forall id
      ensures AtMostOnce(s', id)
    {
      assert AtMostOnce(s, id);
      SubmissionCounts(s.book, order, response, id);
      ResolveKnows(s.orderLog, order.id, Some(s.clock), response.Accepted?, id);
    }
  }

  lemma FreshIsNowhere(s: State, order: Order)
    requires OneOfEach(s) && Fresh(s, order)
    ensures !Known(s.orderLog, order.id) && Queued(s.pending, order.id) + Resting(s.book, order.id) == 0
    ensures OneOfEach(Recorded(s, order)) && Known(Recorded(s, order).orderLog, order.id)
  {
    var row := OrderRow(order.id, order.agent, order.quantity, order.submittedStep, None, None);
    assert AtMostOnce(s, order.id);
    forall i | 0 <= i < |s.orderLog|
      ensures s.orderLog[i].id != order.id
    {
      assert s.orderLog[i].id in LogIds(s.orderLog);
    }
    forall id
      ensures AtMostOnce(Recorded(s, order), id)
    {
      assert AtMostOnce(s, id);
      RecordedKnows(s.orderLog, row, id);
    }
    RecordedKnows(s.orderLog, row, order.id);
  }

  lemma PushKeepsOne(s: State, step: nat, timeMs: nat, body: Body)
    requires OneOfEach(s)
    requires body.Arrival? ==> Known(s.orderLog, body.order.id)
                               && Queued(s.pending, body.order.id) + Resting(s.book, body.order.id) == 0
    ensures OneOfEach(Pushed(s, step, timeMs, body))
  {
    forall id
      ensures AtMostOnce(Pushed(s, step, timeMs, body), id)
    {
      assert AtMostOnce(s, id);
      InsertCounts(s.pending, Message(step, timeMs, s.sequence + 1, body), id);
    }
  }

  lemma DispatchKeepsOne(cfg: Config, s: State, order: Order, response: Response)
    requires order.agent in cfg.agents && Accepts(cfg, s, order, response) && OneOfEach(s) && Fresh(s, order)
    ensures OneOfEach(Dispatched(cfg, s, order, response))
  {
    var timing := Timing(s.clock, cfg.agents[order.agent].latency);
    var recorded := Recorded(s, order);
    var sent := recorded.(dispatched := s.dispatched + [Ticket(order.agent, order.id)]);
    FreshIsNowhere(s, order);
    SamePlaces(recorded, sent);
    if CancelledInTransit(cfg, order.agent) {
      forall id
        ensures AtMostOnce(Dispatched(cfg, s, order, response), id)
      {
        assert AtMostOnce(recorded, id);
        ResolveKnows(recorded.orderLog, order.id, None, false, id);
      }
    } else if ReachesAtOnce(cfg, s, order.agent) {
      var reached := sent.(reached := s.reached + [Ticket(order.agent, order.id)]);
      SamePlaces(sent, reached);
      SubmissionKeepsOne(cfg, reached, order, response);
    } else {
      PushKeepsOne(sent, timing.arrivalStep, timing.arrivalMs, Arrival(order));
    }
  }

  lemma SamePlaces(s: State, s': State)
    requires OneOfEach(s) && s'.pending == s.pending && s'.book == s.book && s'.orderLog == s.orderLog
    ensures OneOfEach(s')
  {
    forall id
      ensures AtMostOnce(s', id)
    {
      assert AtMostOnce(s, id);
    }
  }

  lemma {:induction false} RemoveCounts(book: seq<Order>, gone: OrderId, id: OrderId)
    ensures Resting(Remove(book, gone), id) <= Resting(book, id)
    ensures gone == id && Resting(book, id) == 1 ==> Resting(Remove(book, gone), id) == 0
  {
    if book != [] && book[0].id != gone {
      RemoveCounts(book[1..], gone, id);
    }
  }

  lemma CancelKeepsOne(s: State, id: OrderId, agent: AgentId, effectiveStep: nat)
    requires OneOfEach(s)
    ensures OneOfEach(CancelApplied(s, id, agent, effectiveStep))
  {
    forall other
      ensures AtMostOnce(CancelApplied(s, id, agent, effectiveStep), other)
    {
      assert AtMostOnce(s, other);
      RemoveCounts(s.book, id, other);
    }
  }

  lemma PoppedOne(s: State)
    requires OneOfEach(s) && s.pending != []
    ensures OneOfEach(s.(pending := s.pending[1..]))
    ensures s.pending[0].body.Arrival? ==>
              var id := s.pending[0].body.order.id;
              Known(s.orderLog, id) && Queued(s.pending[1..], id) + Resting(s.book, id) == 0
  {
    forall id
      ensures AtMostOnce(s.(pending := s.pending[1..]), id)
    {
      assert AtMostOnce(s, id);
    }
    if s.pending[0].body.Arrival? { assert AtMostOnce(s, s.pending[0].body.order.id); }
  }

  lemma DeliveryKeepsOne(cfg: Config, s: State, response: Response)
    requires cfg.WellFormed() && Enabled(cfg, s, DeliverNext(response)) && OneOfEach(s)
    ensures OneOfEach(Delivered(cfg, s, response))
  {
    var m := s.pending[0];
    var popped := s.(pending := s.pending[1..], delivered := s.delivered + [Delivery(m, s.clock)]);
    PoppedOne(s);
    SamePlaces(s.(pending := s.pending[1..]), popped);
    match m.body
    case Arrival(order) =>
      var landed := popped.(reached := s.reached + [Ticket(order.agent, order.id)]);
      SamePlaces(popped, landed);
      SubmissionKeepsOne(cfg, landed, order, response);
    case Cancellation(id, agent) =>
      var settled := popped.(pendingCancelIds := s.pendingCancelIds - {id});
      SamePlaces(popped, settled);
      CancelKeepsOne(settled, id, agent, m.step);
  }

  lemma StepKeepsOne(cfg: Config, s: State, e: Event)
    requires cfg.WellFormed() && Enabled(cfg, s, e) && OneOfEach(s)
    ensures OneOfEach(Apply(cfg, s, e))
  {
    match e
    case DeliverNext(response) => DeliveryKeepsOne(cfg, s, response);
    case DirectSubmit(order, response) =>
      FreshIsNowhere(s, order);
      SubmissionKeepsOne(cfg, Recorded(s, order), order, response);
    case DirectCancel(agent, id) => CancelKeepsOne(s, id, agent, s.clock);
    case RequestCancel(agent, id) =>
      var effectiveMs := s.clock * MESSAGE_STEP_MS + cfg.agents[agent].latency.cancelMs;
      var tracked := s.(pendingCancelIds := s.pendingCancelIds + {id});
      SamePlaces(s, tracked);
      CancelKeepsOne(s, id, agent, effectiveMs / MESSAGE_STEP_MS);
      PushKeepsOne(tracked, effectiveMs / MESSAGE_STEP_MS, effectiveMs, Cancellation(id, agent));
    case Schedule(order, response) =>
      if Normalized(cfg, order).Some? { DispatchKeepsOne(cfg, s, Normalized(cfg, order).value, response); }
    case ScheduleChild(order, adjusted, response) =>
      if Child(cfg, s, order, adjusted).Some? {
        DispatchKeepsOne(cfg, s, Child(cfg, s, order, adjusted).value, response);
      }
    case RefreshVolume(_) => SamePlaces(s, Apply(cfg, s, e));
    case EndStep => SamePlaces(s, Apply(cfg, s, e));
  }

  lemma {:induction false} KeyedCounts(book: seq<Order>, id: OrderId)
    requires KeyedById(book)
    ensures Resting(book, id) <= 1
    ensures 0 < Resting(book, id) ==> exists o :: o in book && o.id == id
  {
    if book != [] {
      KeyedCounts(book[1..], id);
      assert book[0] in book && forall o :: o in book[1..] ==> o in book;
      if 0 < Resting(book[1..], id) {
        var o :| o in book[1..] && o.id == id;
        var j :| 0 <= j < |book[1..]| && book[1..][j] == o;
        assert book[0].id != book[j + 1].id;
      }
    }
  }

  lemma InitiallyOne(cfg: Config, s: State)
    requires Initial(cfg, s)
    ensures OneOfEach(s)
  {
    forall id
      ensures AtMostOnce(s, id)
    {
      KeyedCounts(s.book, id);
      if o :| o in s.book && o.id == id { assert Filed(s.orderLog, o.id, o.agent); }
    }
  }

  lemma {:induction false} RunKeepsOne(cfg: Config, s: State, events: seq<Event>, s': State)
    requires cfg.WellFormed() && Run(cfg, s, events, s') && OneOfEach(s)
    ensures OneOfEach(s')
    decreases events
  {
    if events != [] {
      StepKeepsOne(cfg, s, events[0]);
      RunKeepsOne(cfg, Apply(cfg, s, events[0]), events[1..], s');
    }
  }

  // ----- a cancel that is carried out

  /** The event carries out a cancel of order `id` by this account: a direct one, one requested
      without delay, or a queued one that is delivered. */
  predicate CarriesOut(cfg: Config, s: State, e: Event, id: OrderId, agent: AgentId)
    requires cfg.WellFormed() && Enabled(cfg, s, e)
  {
    match e
    case DirectCancel(a, i) => a == agent && i == id
    case RequestCancel(a, i) => a == agent && i == id && cfg.agents[a].latency.cancelMs < MESSAGE_STEP_MS
    case DeliverNext(_) => s.pending[0].body == Cancellation(id, agent)
    case _ => false
  }

  /** The step a cancel takes effect at: a queued one at its own, the others now. */
  function EffectiveAt(s: State, e: Event): nat
    requires e.DeliverNext? ==> s.pending != []
  {
    if e.DeliverNext? then s.pending[0].step else s.clock
  }

  predicate Rests(book: seq<Order>, id: OrderId, agent: AgentId) {
    exists o :: o in book && o.id == id && o.agent == agent
  }

  lemma {:induction false} FindWhenOne(book: seq<Order>, id: OrderId, agent: AgentId)
    requires Resting(book, id) <= 1
    ensures Rests(book, id, agent) <==> Find(book, id).Some? && Find(book, id).value.agent == agent
    ensures Find(book, id).Some? ==> Find(book, id).value.remaining == RestingUnder(book, id) && Resting(book, id) == 1
  {
    if book != [] {
      assert book == [book[0]] + book[1..];
      if book[0].id == id {
        NoneResting(book[1..], id);
      } else {
        FindWhenOne(book[1..], id, agent);
        assert Rests(book, id, agent) <==> Rests(book[1..], id, agent);
      }
    }
  }

  lemma {:induction false} NoneResting(book: seq<Order>, id: OrderId)
    requires Resting(book, id) == 0
    ensures RestingUnder(book, id) == 0 && forall o :: o in book ==> o.id != id
  {
    if book != [] {
      assert book == [book[0]] + book[1..];
      NoneResting(book[1..], id);
    }
  }

  lemma {:induction false} RemoveTakesOwners(book: seq<Order>, id: OrderId, a: AgentId)
    requires Find(book, id).Some?
    ensures RestingOf(book, a)
         == RestingOf(Remove(book, id), a)
            + if Find(book, id).value.agent == a then Find(book, id).value.remaining else 0
    ensures forall o: Order :: o.id != id ==> (o in Remove(book, id) <==> o in book)
  {
    assert book == [book[0]] + book[1..];
    if book[0].id != id {
      RemoveTakesOwners(book[1..], id, a);
    }
  }

  /** The owner's order is out of the book, and out of nobody else's quantity; the log has one more
      row, with what rested. */
  predicate TakenOut(s: State, s': State, id: OrderId, agent: AgentId, effectiveStep: nat) {
    && RestingUnder(s'.book, id) == 0 && (forall o :: o in s'.book ==> o.id != id)
    && (forall o :: o in s.book && o.id != id ==> o in s'.book) && (forall o :: o in s'.book ==> o in s.book)
    && s'.cancelLog == s.cancelLog + [CancelRow(id, agent, RestingUnder(s.book, id), effectiveStep)]
  }

  ghost predicate OnlyOwnerLoses(s: State, s': State, agent: AgentId, quantity: nat) {
    forall a :: RestingOf(s.book, a) == RestingOf(s'.book, a) + if a == agent then quantity else 0
  }

  lemma AppliedTakesOut(s: State, id: OrderId, agent: AgentId, effectiveStep: nat)
    requires OneOfEach(s)
    ensures var s' := CancelApplied(s, id, agent, effectiveStep);
            if Rests(s.book, id, agent)
            then TakenOut(s, s', id, agent, effectiveStep) && OnlyOwnerLoses(s, s', agent, RestingUnder(s.book, id))
            else s'.book == s.book && s'.cancelLog == s.cancelLog
  {
    assert AtMostOnce(s, id);
    FindWhenOne(s.book, id, agent);
    if Rests(s.book, id, agent) {
      RemoveCounts(s.book, id, id);
      NoneResting(Remove(s.book, id), id);
      forall a
        ensures RestingOf(s.book, a)
             == RestingOf(Remove(s.book, id), a) + if a == agent then RestingUnder(s.book, id) else 0
      {
        RemoveTakesOwners(s.book, id, a);
      }
      RemoveTakesOwners(s.book, id, agent);
    }
  }

  /** In every reachable state, an event that carries out a cancel takes the owner's resting order out
      of the book, logs exactly the quantity it takes from the owner and nothing from anyone else; if the
      order is not there or not the account's, book and log stay as they were. */
  lemma CancelTakesOrderOut(cfg: Config, s0: State, events: seq<Event>, s: State, e: Event, id: OrderId,
                            agent: AgentId)
    requires cfg.WellFormed() && Initial(cfg, s0) && Run(cfg, s0, events, s)
    requires Enabled(cfg, s, e) && CarriesOut(cfg, s, e, id, agent)
    ensures var s' := Apply(cfg, s, e);
            && (if Rests(s.book, id, agent)
                then TakenOut(s, s', id, agent, EffectiveAt(s, e))
                     && OnlyOwnerLoses(s, s', agent, RestingUnder(s.book, id))
                else s'.book == s.book && s'.cancelLog == s.cancelLog)
            && s'.tradeLog == s.tradeLog && s'.orderLog == s.orderLog && s'.executed == s.executed
            && (e.DeliverNext? ==> id !in s'.pendingCancelIds)
            && (!e.DeliverNext? ==> s'.pending == s.pending && s'.pendingCancelIds == s.pendingCancelIds)
  {
    InitiallyOne(cfg, s0);
    RunKeepsOne(cfg, s0, events, s);
    var ready := ReadyToCancel(cfg, s, e, id, agent);
    AppliedTakesOut(ready, id, agent, EffectiveAt(s, e));
  }

  /** The state in which the venue is asked to cancel: a delivered message is off the heap. */
  lemma ReadyToCancel(cfg: Config, s: State, e: Event, id: OrderId, agent: AgentId) returns (ready: State)
    requires cfg.WellFormed() && OneOfEach(s) && Enabled(cfg, s, e) && CarriesOut(cfg, s, e, id, agent)
    ensures OneOfEach(ready) && Apply(cfg, s, e) == CancelApplied(ready, id, agent, EffectiveAt(s, e))
    ensures ready.book == s.book && ready.cancelLog == s.cancelLog && ready.tradeLog == s.tradeLog
    ensures ready.orderLog == s.orderLog && ready.executed == s.executed
    ensures if e.DeliverNext? then id !in ready.pendingCancelIds
            else ready.pending == s.pending && ready.pendingCancelIds == s.pendingCancelIds
  {
    ready := s;
    if e.DeliverNext? {
      PoppedOne(s);
      ready := s.(pending := s.pending[1..], delivered := s.delivered + [Delivery(s.pending[0], s.clock)],
                  pendingCancelIds := s.pendingCancelIds - {id});
      SamePlaces(s.(pending := s.pending[1..]), ready);
    }
  }

  // ----- an order that has left never comes back

  /** Known, and neither queued nor resting. */
  predicate Gone(s: State, id: OrderId) {
    Known(s.orderLog, id) && Queued(s.pending, id) == 0 && Resting(s.book, id) == 0
  }

  predicate Avoids(trades: seq<Trade>, id: OrderId) {
    forall t :: t in trades ==> t.makerId != id && t.takerId != id
  }

  lemma {:induction false} FoundRests(book: seq<Order>, id: OrderId)
    requires Find(book, id).Some?
    ensures Find(book, id).value.id == id && 0 < Resting(book, id)
  {
    if book[0].id != id {
      FoundRests(book[1..], id);
    }
  }

  lemma {:induction false} TradesAvoid(book: seq<Order>, taker: Order, fills: seq<Fill>, step: nat, id: OrderId)
    requires FillsFit(book, taker, fills) && Resting(book, id) == 0 && taker.id != id
    ensures Avoids(TradesOf(book, taker, fills, step), id)
    decreases fills
  {
    if fills != [] {
      FoundRests(book, fills[0].makerId);
      ReduceCounts(book, fills[0].makerId, fills[0].quantity, id);
      TradesAvoid(Reduce(book, fills[0].makerId, fills[0].quantity), taker, fills[1..], step, id);
    }
  }

  lemma SubmissionAvoids(cfg: Config, s: State, order: Order, response: Response, id: OrderId)
    requires Accepts(cfg, s, order, response) && Gone(s, id) && order.id != id
    ensures Gone(Submitted(cfg, s, order, response), id) && Avoids(TradesAfter(s.book, order, response, s.clock), id)
  {
    SubmissionCounts(s.book, order, response, id);
    ResolveKnows(s.orderLog, order.id, Some(s.clock), response.Accepted?, id);
    if response.Accepted? { TradesAvoid(s.book, order, response.fills, s.clock, id); }
  }

  lemma FreshIsOther(s: State, order: Order, id: OrderId)
    requires Gone(s, id) && Fresh(s, order)
    ensures order.id != id && Gone(Recorded(s, order), id)
  {
    var i :| 0 <= i < |s.orderLog| && s.orderLog[i].id == id;
    assert s.orderLog[i].id in LogIds(s.orderLog);
    RecordedKnows(s.orderLog, OrderRow(order.id, order.agent, order.quantity, order.submittedStep, None, None), id);
  }

  lemma DispatchAvoids(cfg: Config, s: State, order: Order, response: Response, id: OrderId)
    requires order.agent in cfg.agents && Accepts(cfg, s, order, response) && Gone(s, id) && Fresh(s, order)
    ensures Gone(Dispatched(cfg, s, order, response), id) && Avoids(SentTrades(cfg, s, order, response), id)
  {
    var timing := Timing(s.clock, cfg.agents[order.agent].latency);
    var sent := Recorded(s, order).(dispatched := s.dispatched + [Ticket(order.agent, order.id)]);
    FreshIsOther(s, order, id);
    if CancelledInTransit(cfg, order.agent) {
      ResolveKnows(Recorded(s, order).orderLog, order.id, None, false, id);
    } else if ReachesAtOnce(cfg, s, order.agent) {
      SubmissionAvoids(cfg, sent.(reached := s.reached + [Ticket(order.agent, order.id)]), order, response, id);
    } else {
      InsertCounts(s.pending, Message(timing.arrivalStep, timing.arrivalMs, s.sequence + 1, Arrival(order)), id);
    }
  }

  lemma RemovalAvoids(s: State, other: OrderId, agent: AgentId, effectiveStep: nat, id: OrderId)
    requires Gone(s, id)
    ensures Gone(CancelApplied(s, other, agent, effectiveStep), id)
  {
    RemoveCounts(s.book, other, id);
  }

  lemma StepAvoids(cfg: Config, s: State, e: Event, id: OrderId)
    requires cfg.WellFormed() && Enabled(cfg, s, e) && Gone(s, id)
    ensures Gone(Apply(cfg, s, e), id) && Avoids(NewTrades(cfg, s, e), id)
  {
    match e
    case DeliverNext(response) =>
      var m := s.pending[0];
      var popped := s.(pending := s.pending[1..], delivered := s.delivered + [Delivery(m, s.clock)]);
      assert Gone(popped, id);
      if m.body.Arrival? {
        var order := m.body.order;
        SubmissionAvoids(cfg, popped.(reached := s.reached + [Ticket(order.agent, order.id)]), order, response, id);
      } else {
        var ready := popped.(pendingCancelIds := s.pendingCancelIds - {m.body.id});
        RemovalAvoids(ready, m.body.id, m.body.agent, m.step, id);
      }
    case DirectSubmit(order, response) =>
      FreshIsOther(s, order, id);
      SubmissionAvoids(cfg, Recorded(s, order), order, response, id);
    case DirectCancel(agent, other) => RemovalAvoids(s, other, agent, s.clock, id);
    case RequestCancel(agent, other) =>
      var effectiveMs := s.clock * MESSAGE_STEP_MS + cfg.agents[agent].latency.cancelMs;
      RemovalAvoids(s, other, agent, effectiveMs / MESSAGE_STEP_MS, id);
      InsertCounts(s.pending, Message(effectiveMs / MESSAGE_STEP_MS, effectiveMs, s.sequence + 1,
                                      Cancellation(other, agent)), id);
    case Schedule(order, response) =>
      if Normalized(cfg, order).Some? { DispatchAvoids(cfg, s, Normalized(cfg, order).value, response, id); }
    case ScheduleChild(order, adjusted, response) =>
      if Child(cfg, s, order, adjusted).Some? {
        DispatchAvoids(cfg, s, Child(cfg, s, order, adjusted).value, response, id);
      }
    case _ =>
  }

  lemma {:induction false} GoneForGood(cfg: Config, s: State, events: seq<Event>, s': State, id: OrderId)
    requires cfg.WellFormed() && Run(cfg, s, events, s') && Gone(s, id)
    ensures Gone(s', id) && s.tradeLog <= s'.tradeLog && Avoids(s'.tradeLog[|s.tradeLog|..], id)
    decreases events
  {
    if events != [] {
      var next := Apply(cfg, s, events[0]);
      StepAvoids(cfg, s, events[0], id);
      LogGrowsByNewTrades(cfg, s, events[0]);
      GoneForGood(cfg, next, events[1..], s', id);
      AvoidsBoth(s.tradeLog, NewTrades(cfg, s, events[0]), s'.tradeLog, id);
    }
  }

  lemma AvoidsBoth(before: seq<Trade>, added: seq<Trade>, after: seq<Trade>, id: OrderId)
    requires before + added <= after && Avoids(added, id) && Avoids(after[|before + added|..], id)
    ensures before <= after && Avoids(after[|before|..], id)
  {
    assert after[|before|..] == added + after[|before + added|..];
  }

  /** Once its cancel is carried out, an order never rests, travels or trades again, whatever happens. */
  lemma CancelledNeverTrades(cfg: Config, s0: State, events: seq<Event>, s: State, e: Event, id: OrderId,
                             agent: AgentId, more: seq<Event>, s': State)
    requires cfg.WellFormed() && Initial(cfg, s0) && Run(cfg, s0, events, s)
    requires Enabled(cfg, s, e) && CarriesOut(cfg, s, e, id, agent) && Rests(s.book, id, agent)
    requires Run(cfg, Apply(cfg, s, e), more, s')
    ensures RestingUnder(s'.book, id) == 0 && Queued(s'.pending, id) == 0
    ensures s.tradeLog <= s'.tradeLog && Avoids(s'.tradeLog[|s.tradeLog|..], id)
  {
    var next := Apply(cfg, s, e);
    InitiallyOne(cfg, s0);
    RunKeepsOne(cfg, s0, events, s);
    StepKeepsOne(cfg, s, e);
    assert AtMostOnce(s, id) && AtMostOnce(next, id);
    FindWhenOne(s.book, id, agent);
    CancelTakesOrderOut(cfg, s0, events, s, e, id, agent);
    NoOrderNoneResting(next.book, id);
    GoneForGood(cfg, next, more, s', id);
    NoneResting(s'.book, id);
  }

  lemma {:induction false} NoOrderNoneResting(book: seq<Order>, id: OrderId)
    requires forall o :: o in book ==> o.id != id
    ensures Resting(book, id) == 0
  {
    if book != [] {
      assert book[0] in book && forall o :: o in book[1..] ==> o in book;
      NoOrderNoneResting(book[1..], id);
    }
  }
}
