/** Delayed messages are delivered exactly once, exactly at their step, in heap order;
    an agent's orders arrive in the order it sent them; and the set of pending cancel
    ids is the set of queued cancels. */
module MessageDelivery {
  import opened Wrappers
  import opened Venue
  import opened Latency
  import opened ExecutionMachine

  // ----- what an event does to the messages, apart from everything else

  datatype Transit = Transit(clock: nat, pending: seq<Message>, sequence: nat, pendingCancelIds: set<OrderId>,
                             enqueued: seq<Message>, delivered: seq<Delivery>,
                             dispatched: seq<Ticket>, reached: seq<Ticket>)

  datatype Move =
    | Stay
    | Tick
    | Pop
    | SendAtOnce(ticket: Ticket)
    | SendLater(order: Order, step: nat, timeMs: nat)
    | CancelLater(id: OrderId, agent: AgentId, step: nat, timeMs: nat)

  function View(s: State): Transit {
    Transit(s.clock, s.pending, s.sequence, s.pendingCancelIds, s.enqueued, s.delivered, s.dispatched, s.reached)
  }

  function Queue(t: Transit, m: Message): Transit {
    t.(sequence := t.sequence + 1, pending := Insert(t.pending, m), enqueued := t.enqueued + [m])
  }

  function Landed(m: Message): seq<Ticket> {
    match m.body
    case Arrival(order) => [Ticket(order.agent, order.id)]
    case Cancellation(_, _) => []
  }

  function Settled(m: Message): set<OrderId> {
    match m.body
    case Arrival(_) => {}
    case Cancellation(id, _) => {id}
  }

  function Moved(t: Transit, move: Move): Transit
    requires move.Pop? ==> t.pending != []
  {
    match move
    case Stay => t
    case Tick => t.(clock := t.clock + 1)
    case Pop =>
      var m := t.pending[0];
      t.(pending := t.pending[1..], delivered := t.delivered + [Delivery(m, t.clock)],
         reached := t.reached + Landed(m), pendingCancelIds := t.pendingCancelIds - Settled(m))
    case SendAtOnce(ticket) =>
      t.(dispatched := t.dispatched + [ticket], reached := t.reached + [ticket])
    case SendLater(order, step, timeMs) =>
      Queue(t.(dispatched := t.dispatched + [Ticket(order.agent, order.id)]),
            Message(step, timeMs, t.sequence + 1, Arrival(order)))
    case CancelLater(id, agent, step, timeMs) =>
      Queue(t.(pendingCancelIds := t.pendingCancelIds + {id}),
            Message(step, timeMs, t.sequence + 1, Cancellation(id, agent)))
  }

  function SendMove(cfg: Config, clock: nat, order: Order): Move
    requires order.agent in cfg.agents
  {
    var timing := Timing(clock, cfg.agents[order.agent].latency);
    if CancelledInTransit(cfg, order.agent) then Stay
    else if timing.arrivalStep <= clock then SendAtOnce(Ticket(order.agent, order.id))
    else SendLater(order, timing.arrivalStep, timing.arrivalMs)
  }

  function CancelMove(cfg: Config, clock: nat, agent: AgentId, id: OrderId): Move
    requires agent in cfg.agents
  {
    var effectiveMs := clock * MESSAGE_STEP_MS + cfg.agents[agent].latency.cancelMs;
    if effectiveMs / MESSAGE_STEP_MS <= clock then Stay
    else CancelLater(id, agent, effectiveMs / MESSAGE_STEP_MS, effectiveMs)
  }

  function MoveOf(cfg: Config, s: State, e: Event): Move
    requires cfg.WellFormed() && Enabled(cfg, s, e)
  {
    match e
    case DeliverNext(_) => Pop
    case RequestCancel(agent, id) => CancelMove(cfg, s.clock, agent, id)
    case Schedule(order, _) =>
      if Normalized(cfg, order).Some? then SendMove(cfg, s.clock, Normalized(cfg, order).value) else Stay
    case ScheduleChild(order, adjusted, _) =>
      if Child(cfg, s, order, adjusted).Some?
      then SendMove(cfg, s.clock, Child(cfg, s, order, adjusted).value) else Stay
    case EndStep => Tick
    case _ => Stay
  }

  lemma DispatchMoves(cfg: Config, s: State, order: Order, response: Response)
    requires order.agent in cfg.agents && Accepts(cfg, s, order, response)
    ensures View(Dispatched(cfg, s, order, response)) == Moved(View(s), SendMove(cfg, s.clock, order))
  {
  }

  lemma DeliveryMoves(cfg: Config, s: State, response: Response)
    requires cfg.WellFormed() && Enabled(cfg, s, DeliverNext(response))
    ensures View(Delivered(cfg, s, response)) == Moved(View(s), Pop)
  {
    match s.pending[0].body
    case Arrival(_) => assert s.pendingCancelIds - {} == s.pendingCancelIds;
    case Cancellation(_, _) => assert s.reached + [] == s.reached;
  }

  lemma EventMoves(cfg: Config, s: State, e: Event)
    requires cfg.WellFormed() && Enabled(cfg, s, e)
    ensures View(Apply(cfg, s, e)) == Moved(View(s), MoveOf(cfg, s, e))
  {
    match e
    case DeliverNext(response) => DeliveryMoves(cfg, s, response);
    case Schedule(order, response) =>
      if Normalized(cfg, order).Some? { DispatchMoves(cfg, s, Normalized(cfg, order).value, response); }
    case ScheduleChild(order, adjusted, response) =>
      if Child(cfg, s, order, adjusted).Some? { DispatchMoves(cfg, s, Child(cfg, s, order, adjusted).value, response); }
    case _ =>
  }

  /** When a move may happen. */
  predicate Allowed(cfg: Config, t: Transit, move: Move) {
    match move
    case Stay => true
    case Tick => t.pending == [] || t.clock < t.pending[0].step
    case Pop => t.pending != [] && t.pending[0].step <= t.clock
    case SendAtOnce(ticket) =>
      ticket.agent in cfg.agents && Timing(t.clock, cfg.agents[ticket.agent].latency).arrivalStep <= t.clock
    case SendLater(order, step, timeMs) =>
      && order.agent in cfg.agents && t.clock < step && order.submittedStep == t.clock
      && step == Timing(t.clock, cfg.agents[order.agent].latency).arrivalStep
      && timeMs == Timing(t.clock, cfg.agents[order.agent].latency).arrivalMs
    case CancelLater(id, agent, step, timeMs) => t.clock < step && id !in t.pendingCancelIds
  }

  lemma MovesAreAllowed(cfg: Config, s: State, e: Event)
    requires cfg.WellFormed() && Enabled(cfg, s, e)
    ensures Allowed(cfg, View(s), MoveOf(cfg, s, e))
  {
  }

  // ----- the heap and the history account for every message ever queued

  function Messages(deliveries: seq<Delivery>): seq<Message> {
    if deliveries == [] then []
    else Messages(deliveries[..|deliveries| - 1]) + [deliveries[|deliveries| - 1].message]
  }

  predicate Ordered(messages: seq<Message>) {
    messages == [] || (Ordered(messages[1..]) && forall m :: m in messages[1..] ==> Before(messages[0], m))
  }

  /** Sequence numbers count pushes, so no two messages share one. */
  predicate Numbered(enqueued: seq<Message>, sequence: nat) {
    && sequence == |enqueued|
    && forall i :: 0 <= i < |enqueued| ==> enqueued[i].sequence == i + 1
  }

  /** Nothing queued is overdue, and nothing queued was pushed in the future. */
  predicate NotOverdue(pending: seq<Message>, clock: nat, sequence: nat) {
    forall m :: m in pending ==> clock <= m.step && m.sequence <= sequence
  }

  /** Deliveries happened at their own step. */
  predicate OnTime(delivered: seq<Delivery>, clock: nat) {
    forall d :: d in delivered ==> d.clock == d.message.step && d.message.step <= clock
  }

  /** Deliveries followed heap order and all precede what is still queued. */
  predicate InHeapOrder(delivered: seq<Delivery>, pending: seq<Message>) {
    && (forall j, k :: 0 <= j < k < |delivered| ==> Before(delivered[j].message, delivered[k].message))
    && (forall d, m :: d in delivered && m in pending ==> Before(d.message, m))
  }

  predicate Accounted(t: Transit) {
    multiset(t.enqueued) == multiset(t.pending) + multiset(Messages(t.delivered))
  }

  predicate HeapConsistent(t: Transit) {
    && Numbered(t.enqueued, t.sequence)
    && Accounted(t)
    && Ordered(t.pending)
    && NotOverdue(t.pending, t.clock, t.sequence)
    && OnTime(t.delivered, t.clock)
    && InHeapOrder(t.delivered, t.pending)
  }

  lemma MessagesSnoc(deliveries: seq<Delivery>, d: Delivery)
    ensures Messages(deliveries + [d]) == Messages(deliveries) + [d.message]
  {
    assert (deliveries + [d])[..|deliveries|] == deliveries;
  }

  lemma {:induction false} MessagesAt(deliveries: seq<Delivery>)
    ensures |Messages(deliveries)| == |deliveries|
    ensures forall i :: 0 <= i < |deliveries| ==> Messages(deliveries)[i] == deliveries[i].message
  {
    if deliveries != [] {
      MessagesAt(deliveries[..|deliveries| - 1]);
    }
  }

  lemma {:induction false} InsertAddsOne(pending: seq<Message>, m: Message)
    ensures multiset(Insert(pending, m)) == multiset(pending) + multiset{m}
    ensures forall x :: x in Insert(pending, m) <==> x == m || x in pending
  {
    if pending != [] && !Before(m, pending[0]) {
      assert pending == [pending[0]] + pending[1..];
      InsertAddsOne(pending[1..], m);
    }
  }

  /** Pushing with a larger sequence number than all others keeps the heap sorted. */
  lemma {:induction false} InsertKeepsOrder(pending: seq<Message>, m: Message)
    requires Ordered(pending)
    requires forall x :: x in pending ==> x.sequence < m.sequence
    ensures Ordered(Insert(pending, m))
  {
    if pending != [] {
      if Before(m, pending[0]) {
        assert ([m] + pending)[1..] == pending;
        forall x | x in pending
          ensures Before(m, x)
        {
          assert x == pending[0] || x in pending[1..];
        }
      } else {
        var tail := Insert(pending[1..], m);
        InsertKeepsOrder(pending[1..], m);
        InsertAddsOne(pending[1..], m);
        assert pending[0] in pending;
        assert ([pending[0]] + tail)[1..] == tail;
      }
    }
  }

  lemma QueueKeepsHeap(t: Transit, m: Message)
    requires HeapConsistent(t) && t.clock < m.step && m.sequence == t.sequence + 1
    ensures HeapConsistent(Queue(t, m))
  {
    InsertAddsOne(t.pending, m);
    InsertKeepsOrder(t.pending, m);
    QueueKeepsHeapOrder(t, m);
    assert multiset(t.enqueued + [m]) == multiset(t.enqueued) + multiset{m};
  }

  lemma QueueKeepsHeapOrder(t: Transit, m: Message)
    requires OnTime(t.delivered, t.clock) && InHeapOrder(t.delivered, t.pending) && t.clock < m.step
    ensures InHeapOrder(t.delivered, Insert(t.pending, m))
  {
    InsertAddsOne(t.pending, m);
    forall d | d in t.delivered
      ensures Before(d.message, m)
    {
    }
  }

  lemma PopKeepsHeap(t: Transit)
    requires HeapConsistent(t) && t.pending != [] && t.pending[0].step <= t.clock
    ensures HeapConsistent(Moved(t, Pop))
  {
    var m := t.pending[0];
    var d := Delivery(m, t.clock);
    assert m in t.pending;
    MessagesSnoc(t.delivered, d);
    assert t.pending == [m] + t.pending[1..];
    assert multiset(t.pending) == multiset{m} + multiset(t.pending[1..]);
    assert multiset(Messages(t.delivered) + [m]) == multiset(Messages(t.delivered)) + multiset{m};
    PopKeepsOrder(t.delivered, t.pending, d);
  }

  lemma PopKeepsOrder(delivered: seq<Delivery>, pending: seq<Message>, d: Delivery)
    requires pending != [] && Ordered(pending) && InHeapOrder(delivered, pending) && d.message == pending[0]
    ensures InHeapOrder(delivered + [d], pending[1..])
  {
    var after := delivered + [d];
    assert pending[0] in pending;
    forall j, k | 0 <= j < k < |after|
      ensures Before(after[j].message, after[k].message)
    {
      if k == |delivered| { assert delivered[j] in delivered; }
    }
    forall x, m | x in after && m in pending[1..]
      ensures Before(x.message, m)
    {
      assert m in pending;
      assert x in delivered || x == d;
    }
  }

  lemma TickKeepsHeap(t: Transit)
    requires HeapConsistent(t) && (t.pending == [] || t.clock < t.pending[0].step)
    ensures HeapConsistent(t.(clock := t.clock + 1))
  {
    forall m | m in t.pending
      ensures t.clock + 1 <= m.step
    {
      assert m == t.pending[0] || m in t.pending[1..];
    }
  }

  lemma MoveKeepsHeap(cfg: Config, t: Transit, move: Move)
    requires HeapConsistent(t) && Allowed(cfg, t, move)
    ensures HeapConsistent(Moved(t, move))
  {
    match move
    case Stay =>
    case Tick => TickKeepsHeap(t);
    case Pop => PopKeepsHeap(t);
    case SendAtOnce(_) =>
    case SendLater(order, step, timeMs) =>
      QueueKeepsHeap(t.(dispatched := t.dispatched + [Ticket(order.agent, order.id)]),
                     Message(step, timeMs, t.sequence + 1, Arrival(order)));
    case CancelLater(id, agent, step, timeMs) =>
      QueueKeepsHeap(t.(pendingCancelIds := t.pendingCancelIds + {id}),
                     Message(step, timeMs, t.sequence + 1, Cancellation(id, agent)));
  }

  lemma {:induction false} RunKeepsHeap(cfg: Config, s: State, events: seq<Event>, s': State)
    requires cfg.WellFormed() && Run(cfg, s, events, s') && HeapConsistent(View(s))
    ensures HeapConsistent(View(s'))
    decreases events
  {
    if events != [] {
      EventMoves(cfg, s, events[0]);
      MovesAreAllowed(cfg, s, events[0]);
      MoveKeepsHeap(cfg, View(s), MoveOf(cfg, s, events[0]));
      RunKeepsHeap(cfg, Apply(cfg, s, events[0]), events[1..], s');
    }
  }

  lemma CountOnce(messages: seq<Message>, i: nat)
    requires i < |messages|
    requires forall j :: 0 <= j < |messages| ==> messages[j].sequence == j + 1
    ensures multiset(messages)[messages[i]] == 1
  {
    var m := messages[i];
    assert messages == messages[..i] + [m] + messages[i + 1..];
    assert m !in messages[..i] && m !in messages[i + 1..];
  }

  /** A queued message is in exactly one of the two places. */
  lemma QueuedOrDelivered(t: Transit, m: Message)
    requires HeapConsistent(t) && m in t.enqueued
    ensures m in t.pending <==> m !in Messages(t.delivered)
  {
    var i :| 0 <= i < |t.enqueued| && t.enqueued[i] == m;
    CountOnce(t.enqueued, i);
    assert multiset(t.pending)[m] + multiset(Messages(t.delivered))[m] == 1;
  }

  predicate DeliveredAt(delivered: seq<Delivery>, m: Message, k: int) {
    0 <= k < |delivered| && delivered[k].message == m
  }

  lemma PunctualDelivery(t: Transit, m: Message, k: int)
    requires HeapConsistent(t) && DeliveredAt(t.delivered, m, k)
    ensures t.delivered[k].clock == m.step && m.step <= t.clock
    ensures forall j :: DeliveredAt(t.delivered, m, j) ==> j == k
  {
    assert t.delivered[k] in t.delivered;
  }

  lemma DeliveredSomewhere(t: Transit, m: Message)
    requires HeapConsistent(t) && m in t.enqueued && m !in t.pending
    ensures exists k :: DeliveredAt(t.delivered, m, k)
  {
    QueuedOrDelivered(t, m);
    MessagesAt(t.delivered);
    var past := Messages(t.delivered);
    var k :| 0 <= k < |past| && past[k] == m;
    assert DeliveredAt(t.delivered, m, k);
  }

  /** Each queued message whose step has closed was delivered once and only once, while the
      clock showed exactly that step; later ones are still queued; deliveries follow heap order. */
  lemma DeliveredExactlyOnce(cfg: Config, s0: State, events: seq<Event>, s: State, m: Message)
    requires cfg.WellFormed() && Initial(cfg, s0) && Run(cfg, s0, events, s) && m in s.enqueued
    ensures forall k :: DeliveredAt(s.delivered, m, k) ==> s.delivered[k].clock == m.step
    ensures forall j, k :: DeliveredAt(s.delivered, m, j) && DeliveredAt(s.delivered, m, k) ==> j == k
    ensures m.step < s.clock ==> exists k :: DeliveredAt(s.delivered, m, k)
    ensures s.clock < m.step ==> m in s.pending && forall k :: !DeliveredAt(s.delivered, m, k)
    ensures forall j, k :: 0 <= j < k < |s.delivered| ==>
              var a, b := s.delivered[j].message, s.delivered[k].message;
              a.step < b.step || (a.step == b.step &&
                (a.timeMs < b.timeMs || (a.timeMs == b.timeMs && a.sequence < b.sequence)))
  {
    RunKeepsHeap(cfg, s0, events, s);
    forall k | DeliveredAt(s.delivered, m, k)
      ensures s.delivered[k].clock == m.step && m.step <= s.clock
      ensures forall j :: DeliveredAt(s.delivered, m, j) ==> j == k
    {
      PunctualDelivery(View(s), m, k);
    }
    if m !in s.pending {
      DeliveredSomewhere(View(s), m);
    }
    assert forall j, k :: 0 <= j < k < |s.delivered| ==> Before(s.delivered[j].message, s.delivered[k].message);
  }

  lemma InsertedHead(pending: seq<Message>, m: Message)
    ensures Insert(pending, m)[0] == m || (pending != [] && Insert(pending, m)[0] == pending[0])
  {
  }

  /** Once the drain loop has emptied what is due, nothing else in the step makes a message due
      again: whatever is queued later arrives in a later step. */
  lemma NothingDueStays(cfg: Config, s: State, e: Event)
    requires cfg.WellFormed() && Enabled(cfg, s, e) && NothingDue(s) && !e.EndStep?
    ensures NothingDue(Apply(cfg, s, e))
  {
    var t, move := View(s), MoveOf(cfg, s, e);
    EventMoves(cfg, s, e);
    MovesAreAllowed(cfg, s, e);
    match move
    case SendLater(order, step, timeMs) =>
      InsertedHead(t.pending, Message(step, timeMs, t.sequence + 1, Arrival(order)));
    case CancelLater(id, agent, step, timeMs) =>
      InsertedHead(t.pending, Message(step, timeMs, t.sequence + 1, Cancellation(id, agent)));
    case _ =>
  }

  // ----- orders arrive in the order they were sent

  function TicketsOf(tickets: seq<Ticket>, agent: AgentId): seq<OrderId> {
    if tickets == [] then []
    else
      var last := tickets[|tickets| - 1];
      TicketsOf(tickets[..|tickets| - 1], agent) + if last.agent == agent then [last.id] else []
  }

  function Carried(m: Message, agent: AgentId): seq<OrderId> {
    match m.body
    case Arrival(order) => if order.agent == agent then [order.id] else []
    case Cancellation(_, _) => []
  }

  function InTransit(pending: seq<Message>, agent: AgentId): seq<OrderId> {
    if pending == [] then [] else Carried(pending[0], agent) + InTransit(pending[1..], agent)
  }

  predicate Carries(m: Message, agent: AgentId) {
    m.body.Arrival? && m.body.order.agent == agent
  }

  /** An order in transit carries the stamps of its own submission step. */
  predicate Stamped(cfg: Config, m: Message, clock: nat) {
    m.body.Arrival? ==>
      var order := m.body.order;
      && order.agent in cfg.agents
      && order.submittedStep <= clock
      && order.submittedStep < m.step
      && m.step == Timing(order.submittedStep, cfg.agents[order.agent].latency).arrivalStep
      && m.timeMs == Timing(order.submittedStep, cfg.agents[order.agent].latency).arrivalMs
  }

  predicate AllStamped(cfg: Config, pending: seq<Message>, clock: nat) {
    forall m :: m in pending ==> Stamped(cfg, m, clock)
  }

  /** What an agent sent is what has arrived followed by what is in transit. */
  predicate Fifo(t: Transit, agent: AgentId) {
    TicketsOf(t.dispatched, agent) == TicketsOf(t.reached, agent) + InTransit(t.pending, agent)
  }

  lemma TicketsSnoc(tickets: seq<Ticket>, t: Ticket, agent: AgentId)
    ensures TicketsOf(tickets + [t], agent) == TicketsOf(tickets, agent) + if t.agent == agent then [t.id] else []
  {
    assert (tickets + [t])[..|tickets|] == tickets;
  }

  lemma {:induction false} NoneInTransit(pending: seq<Message>, agent: AgentId)
    requires forall m :: m in pending ==> !Carries(m, agent)
    ensures InTransit(pending, agent) == []
  {
    if pending != [] {
      assert !Carries(pending[0], agent);
      NoneInTransit(pending[1..], agent);
    }
  }

  /** A message later than all of an agent's queued orders goes behind them. */
  lemma {:induction false} InsertGoesLast(pending: seq<Message>, m: Message, agent: AgentId)
    requires Ordered(pending)
    requires Carries(m, agent) ==> forall x :: x in pending && Carries(x, agent) ==> Before(x, m)
    ensures InTransit(Insert(pending, m), agent) == InTransit(pending, agent) + Carried(m, agent)
  {
    if pending == [] {
      assert [m][1..] == [];
    } else if Before(m, pending[0]) {
      assert ([m] + pending)[1..] == pending;
      if Carries(m, agent) {
        forall x | x in pending
          ensures !Carries(x, agent)
        {
          assert x == pending[0] || x in pending[1..];
        }
        NoneInTransit(pending, agent);
      }
    } else {
      var tail := Insert(pending[1..], m);
      InsertGoesLast(pending[1..], m, agent);
      assert ([pending[0]] + tail)[1..] == tail;
      Associate(Carried(pending[0], agent), InTransit(pending[1..], agent), Carried(m, agent));
    }
  }

  lemma Associate<T>(a: seq<T>, b: seq<T>, c: seq<T>)
    ensures a + (b + c) == (a + b) + c
  {
  }

  lemma WaitingMeansDelay(cfg: Config, t: Transit, agent: AgentId)
    requires agent in cfg.agents && AllStamped(cfg, t.pending, t.clock)
    requires Timing(t.clock, cfg.agents[agent].latency).arrivalStep <= t.clock
    ensures InTransit(t.pending, agent) == []
  {
    forall m | m in t.pending
      ensures !Carries(m, agent)
    {
      assert Stamped(cfg, m, t.clock);
      DelayIsConstant(t.clock, cfg.agents[agent].latency);
      if Carries(m, agent) { DelayIsConstant(m.body.order.submittedStep, cfg.agents[agent].latency); }
    }
    NoneInTransit(t.pending, agent);
  }

  lemma LaterThanItsOwn(cfg: Config, t: Transit, m: Message, agent: AgentId)
    requires agent in cfg.agents && AllStamped(cfg, t.pending, t.clock) && NotOverdue(t.pending, t.clock, t.sequence)
    requires m.sequence == t.sequence + 1
    requires m.step == Timing(t.clock, cfg.agents[agent].latency).arrivalStep
    requires m.timeMs == Timing(t.clock, cfg.agents[agent].latency).arrivalMs
    ensures forall x :: x in t.pending && Carries(x, agent) ==> Before(x, m)
  {
    forall x | x in t.pending && Carries(x, agent)
      ensures Before(x, m)
    {
      assert Stamped(cfg, x, t.clock);
      DelayIsConstant(t.clock, cfg.agents[agent].latency);
      DelayIsConstant(x.body.order.submittedStep, cfg.agents[agent].latency);
    }
  }

  lemma PopMovesTicket(t: Transit, agent: AgentId)
    requires t.pending != [] && Fifo(t, agent)
    ensures Fifo(Moved(t, Pop), agent)
  {
    var m := t.pending[0];
    Associate(TicketsOf(t.reached, agent), Carried(m, agent), InTransit(t.pending[1..], agent));
    match m.body
    case Arrival(order) => TicketsSnoc(t.reached, Ticket(order.agent, order.id), agent);
    case Cancellation(_, _) =>
      assert t.reached + [] == t.reached;
      assert TicketsOf(t.reached, agent) + [] == TicketsOf(t.reached, agent);
  }

  lemma SendAtOnceKeepsFifo(cfg: Config, t: Transit, ticket: Ticket, agent: AgentId)
    requires AllStamped(cfg, t.pending, t.clock) && Fifo(t, agent) && Allowed(cfg, t, SendAtOnce(ticket))
    ensures Fifo(Moved(t, SendAtOnce(ticket)), agent)
  {
    TicketsSnoc(t.dispatched, ticket, agent);
    TicketsSnoc(t.reached, ticket, agent);
    if agent == ticket.agent {
      WaitingMeansDelay(cfg, t, agent);
    }
  }

  lemma SendLaterKeepsFifo(cfg: Config, t: Transit, order: Order, step: nat, timeMs: nat, agent: AgentId)
    requires HeapConsistent(t) && AllStamped(cfg, t.pending, t.clock) && Fifo(t, agent)
    requires Allowed(cfg, t, SendLater(order, step, timeMs))
    ensures Fifo(Moved(t, SendLater(order, step, timeMs)), agent)
  {
    var m := Message(step, timeMs, t.sequence + 1, Arrival(order));
    TicketsSnoc(t.dispatched, Ticket(order.agent, order.id), agent);
    LaterThanItsOwn(cfg, t, m, order.agent);
    InsertGoesLast(t.pending, m, agent);
    Associate(TicketsOf(t.reached, agent), InTransit(t.pending, agent), Carried(m, agent));
  }

  lemma CancelLaterKeepsFifo(t: Transit, m: Message, agent: AgentId)
    requires HeapConsistent(t) && Fifo(t, agent) && m.body.Cancellation?
    ensures InTransit(Insert(t.pending, m), agent) == InTransit(t.pending, agent)
  {
    InsertGoesLast(t.pending, m, agent);
    assert InTransit(t.pending, agent) + [] == InTransit(t.pending, agent);
  }

  lemma MoveKeepsFifo(cfg: Config, t: Transit, move: Move, agent: AgentId)
    requires HeapConsistent(t) && AllStamped(cfg, t.pending, t.clock) && Fifo(t, agent) && Allowed(cfg, t, move)
    ensures Fifo(Moved(t, move), agent)
  {
    match move
    case Stay =>
    case Tick =>
    case Pop => PopMovesTicket(t, agent);
    case SendAtOnce(ticket) => SendAtOnceKeepsFifo(cfg, t, ticket, agent);
    case SendLater(order, step, timeMs) => SendLaterKeepsFifo(cfg, t, order, step, timeMs, agent);
    case CancelLater(id, owner, step, timeMs) =>
      CancelLaterKeepsFifo(t, Message(step, timeMs, t.sequence + 1, Cancellation(id, owner)), agent);
  }

  lemma MoveKeepsStamps(cfg: Config, t: Transit, move: Move)
    requires AllStamped(cfg, t.pending, t.clock) && Allowed(cfg, t, move)
    ensures AllStamped(cfg, Moved(t, move).pending, Moved(t, move).clock)
  {
    var t' := Moved(t, move);
    match move
    case SendLater(order, step, timeMs) =>
      InsertAddsOne(t.pending, Message(step, timeMs, t.sequence + 1, Arrival(order)));
    case CancelLater(id, agent, step, timeMs) =>
      InsertAddsOne(t.pending, Message(step, timeMs, t.sequence + 1, Cancellation(id, agent)));
    case _ =>
      forall m | m in t'.pending
        ensures Stamped(cfg, m, t'.clock)
      {
        assert m in t.pending && Stamped(cfg, m, t.clock);
      }
  }

  lemma {:induction false} RunKeepsFifo(cfg: Config, s: State, events: seq<Event>, s': State, agent: AgentId)
    requires cfg.WellFormed() && Run(cfg, s, events, s') && HeapConsistent(View(s))
    requires AllStamped(cfg, s.pending, s.clock) && Fifo(View(s), agent)
    ensures Fifo(View(s'), agent)
    decreases events
  {
    if events != [] {
      var e := events[0];
      EventMoves(cfg, s, e);
      MovesAreAllowed(cfg, s, e);
      MoveKeepsHeap(cfg, View(s), MoveOf(cfg, s, e));
      MoveKeepsStamps(cfg, View(s), MoveOf(cfg, s, e));
      MoveKeepsFifo(cfg, View(s), MoveOf(cfg, s, e), agent);
      RunKeepsFifo(cfg, Apply(cfg, s, e), events[1..], s', agent);
    }
  }

  /** An agent's orders that were not cancelled at the gateway reach the venue in the order the
      agent sent them; what has not arrived yet is exactly what is queued, in that order. */
  lemma ArrivalsKeepSubmissionOrder(cfg: Config, s0: State, events: seq<Event>, s: State, agent: AgentId)
    requires cfg.WellFormed() && Initial(cfg, s0) && Run(cfg, s0, events, s)
    ensures TicketsOf(s.dispatched, agent) == TicketsOf(s.reached, agent) + InTransit(s.pending, agent)
  {
    RunKeepsFifo(cfg, s0, events, s, agent);
  }

  // ----- queued cancels

  function QueuedCancels(pending: seq<Message>): multiset<OrderId> {
    if pending == [] then multiset{} else multiset(Settled(pending[0])) + QueuedCancels(pending[1..])
  }

  /** The tracked ids are exactly the orders with a queued cancel, and none is queued twice. */
  ghost predicate CancelsTracked(t: Transit) {
    forall id :: QueuedCancels(t.pending)[id] == if id in t.pendingCancelIds then 1 else 0
  }

  lemma {:induction false} InsertCountsCancel(pending: seq<Message>, m: Message, id: OrderId)
    ensures QueuedCancels(Insert(pending, m))[id]
         == QueuedCancels(pending)[id] + if id in Settled(m) then 1 else 0
  {
    if pending == [] {
      assert [m][1..] == [];
    } else if Before(m, pending[0]) {
      assert ([m] + pending)[1..] == pending;
    } else {
      var tail := Insert(pending[1..], m);
      assert ([pending[0]] + tail)[1..] == tail;
      InsertCountsCancel(pending[1..], m, id);
    }
  }

  lemma MoveTracksCancels(cfg: Config, t: Transit, move: Move)
    requires CancelsTracked(t) && Allowed(cfg, t, move)
    ensures CancelsTracked(Moved(t, move))
  {
    var t' := Moved(t, move);
    forall id
      ensures QueuedCancels(t'.pending)[id] == if id in t'.pendingCancelIds then 1 else 0
    {
      match move
      case SendLater(order, step, timeMs) =>
        InsertCountsCancel(t.pending, Message(step, timeMs, t.sequence + 1, Arrival(order)), id);
      case CancelLater(other, agent, step, timeMs) =>
        InsertCountsCancel(t.pending, Message(step, timeMs, t.sequence + 1, Cancellation(other, agent)), id);
      case Pop =>
        assert QueuedCancels(t.pending)[id]
            == (if id in Settled(t.pending[0]) then 1 else 0) + QueuedCancels(t.pending[1..])[id];
      case _ =>
    }
  }

  lemma {:induction false} RunTracksCancels(cfg: Config, s: State, events: seq<Event>, s': State)
    requires cfg.WellFormed() && Run(cfg, s, events, s') && CancelsTracked(View(s))
    ensures CancelsTracked(View(s'))
    decreases events
  {
    if events != [] {
      EventMoves(cfg, s, events[0]);
      MovesAreAllowed(cfg, s, events[0]);
      MoveTracksCancels(cfg, View(s), MoveOf(cfg, s, events[0]));
      RunTracksCancels(cfg, Apply(cfg, s, events[0]), events[1..], s');
    }
  }

  /** At any moment an id is remembered as pending exactly when one cancel of it is queued,
      and never more than one is. */
  lemma PendingCancelsAreQueuedOnce(cfg: Config, s0: State, events: seq<Event>, s: State, id: OrderId)
    requires cfg.WellFormed() && Initial(cfg, s0) && Run(cfg, s0, events, s)
    ensures QueuedCancels(s.pending)[id] == if id in s.pendingCancelIds then 1 else 0
  {
    RunTracksCancels(cfg, s0, events, s);
  }
}
