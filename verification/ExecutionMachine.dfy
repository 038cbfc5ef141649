/** The simulation loop's order lifecycle as a state machine: a clock, a heap of
    delayed messages, the resting book and the three logs. One event is one thing
    the loop does; a run is any sequence of enabled events, so it also covers every
    order in which other accounts act. */
module ExecutionMachine {
  import opened Wrappers
  import opened Venue
  import opened Latency

  datatype AgentConfig = AgentConfig(latency: LatencyProfile, cancelAfterMs: nat)

  /** `agents` are the accounts that schedule orders with latency; every other
      account submits straight to the venue. */
  datatype Config = Config(execution: AgentId, side: Side, target: nat, symbol: Symbol, lot: nat,
                           agents: map<AgentId, AgentConfig>, volumeLimiting: bool)
  {
    predicate WellFormed() { 0 < lot && execution in agents }
  }

  datatype Body = Arrival(order: Order) | Cancellation(id: OrderId, agent: AgentId)

  datatype Message = Message(step: nat, timeMs: nat, sequence: nat, body: Body)

  datatype Delivery = Delivery(message: Message, clock: nat)

  /** An order as its owner knows it: used to compare orders of submission and arrival. */
  datatype Ticket = Ticket(agent: AgentId, id: OrderId)

  /** A row of the order log. `arrivalStep` and `accepted` stay absent while the order is in transit. */
  datatype OrderRow = OrderRow(id: OrderId, agent: AgentId, quantity: nat, submittedStep: nat,
                               arrivalStep: Option<nat>, accepted: Option<bool>)

  datatype CancelRow = CancelRow(id: OrderId, agent: AgentId, quantity: nat, effectiveStep: nat)

  /** What the loop knows about the parent order when it closes a step. */
  datatype Snapshot = Snapshot(executed: nat, active: nat, inventory: int)

  datatype State = State(
    clock: nat,
    pending: seq<Message>,
    sequence: nat,
    pendingCancelIds: set<OrderId>,
    book: seq<Order>,
    executed: nat,
    volumeLeft: map<Symbol, nat>,
    orderLog: seq<OrderRow>,
    tradeLog: seq<Trade>,
    cancelLog: seq<CancelRow>,
    snapshots: seq<Snapshot>,
    // history, read only by the theorems
    budgets: map<Symbol, nat>,
    refreshedAt: nat,
    enqueued: seq<Message>,
    delivered: seq<Delivery>,
    dispatched: seq<Ticket>,
    reached: seq<Ticket>)

  // ----- the message heap, kept in delivery order

  predicate Before(a: Message, b: Message) {
    || a.step < b.step
    || (a.step == b.step && a.timeMs < b.timeMs)
    || (a.step == b.step && a.timeMs == b.timeMs && a.sequence < b.sequence)
  }

  function Insert(pending: seq<Message>, m: Message): seq<Message> {
    if pending == [] then [m]
    else if Before(m, pending[0]) then [m] + pending
    else [pending[0]] + Insert(pending[1..], m)
  }

  function QueuedOf(pending: seq<Message>, agent: AgentId): nat {
    if pending == [] then 0
    else
      (match pending[0].body
       case Arrival(order) => if order.agent == agent then order.remaining else 0
       case Cancellation(_, _) => 0)
      + QueuedOf(pending[1..], agent)
  }

  /** Quantity the execution agent still has at work: queued messages plus resting orders. */
  function ActiveQuantity(cfg: Config, s: State): nat {
    QueuedOf(s.pending, cfg.execution) + RestingOf(s.book, cfg.execution)
  }

  // ----- logs

  function LogIds(log: seq<OrderRow>): set<OrderId> {
    set i | 0 <= i < |log| :: log[i].id
  }

  predicate DistinctIds(log: seq<OrderRow>) {
    forall i, j :: 0 <= i < j < |log| ==> log[i].id != log[j].id
  }

  /** The order log has a row for this order of this agent. */
  predicate Filed(log: seq<OrderRow>, id: OrderId, agent: AgentId) {
    exists i :: 0 <= i < |log| && log[i].id == id && log[i].agent == agent
  }

  function Resolve(log: seq<OrderRow>, id: OrderId, arrival: Option<nat>, accepted: bool): seq<OrderRow> {
    if log == [] then []
    else if log[0].id == id then [log[0].(arrivalStep := arrival, accepted := Some(accepted))] + log[1..]
    else [log[0]] + Resolve(log[1..], id, arrival, accepted)
  }

  function Recorded(s: State, order: Order): State {
    s.(orderLog := s.orderLog + [OrderRow(order.id, order.agent, order.quantity, order.submittedStep, None, None)])
  }

  // ----- the loop's closures

  function MaxMatch(cfg: Config, s: State, symbol: Symbol): Option<nat> {
    if cfg.volumeLimiting then Some(if symbol in s.volumeLeft then s.volumeLeft[symbol] else 0) else None
  }

  predicate Accepts(cfg: Config, s: State, order: Order, response: Response) {
    Conforms(s.book, order, MaxMatch(cfg, s, order.symbol), response)
  }

  /** The volume budgets once `filled` more has traded in a symbol. */
  function VolumeAfter(cfg: Config, left: map<Symbol, nat>, symbol: Symbol, filled: nat): map<Symbol, nat> {
    if cfg.volumeLimiting && symbol in left
    then left[symbol := if filled <= left[symbol] then left[symbol] - filled else 0]
    else left
  }

  /** One submission to the venue of an order already in the order log. */
  function Submitted(cfg: Config, s: State, order: Order, response: Response): State
    requires Accepts(cfg, s, order, response)
  {
    match response
    case Rejected =>
      s.(orderLog := Resolve(s.orderLog, order.id, Some(s.clock), false))
    case Accepted(fills, _) =>
      var trades := TradesAfter(s.book, order, response, s.clock);
      s.(book := BookAfter(s.book, order, response),
         executed := s.executed + FilledFor(trades, cfg.execution),
         volumeLeft := VolumeAfter(cfg, s.volumeLeft, order.symbol, Matched(fills)),
         orderLog := Resolve(s.orderLog, order.id, Some(s.clock), true),
         tradeLog := s.tradeLog + trades)
  }

  function Pushed(s: State, step: nat, timeMs: nat, body: Body): State {
    var m := Message(step, timeMs, s.sequence + 1, body);
    s.(sequence := s.sequence + 1, pending := Insert(s.pending, m), enqueued := s.enqueued + [m])
  }

  /** The lot contract: the largest whole number of lots, or nothing at all. */
  function Normalized(cfg: Config, order: Order): Option<Order>
    requires cfg.WellFormed()
  {
    var quantity := (order.quantity / cfg.lot) * cfg.lot;
    if quantity == 0 then None else Some(order.(quantity := quantity, remaining := quantity))
  }

  predicate ReachesAtOnce(cfg: Config, s: State, agent: AgentId)
    requires agent in cfg.agents
  {
    Timing(s.clock, cfg.agents[agent].latency).arrivalStep <= s.clock
  }

  predicate CancelledInTransit(cfg: Config, agent: AgentId)
    requires agent in cfg.agents
  {
    CancelOvertakes(cfg.agents[agent].latency, cfg.agents[agent].cancelAfterMs)
  }

  /** Step at which the gateway's cancel of an order decided now takes effect. */
  function GatewayCancelStep(cfg: Config, s: State, agent: AgentId): nat
    requires agent in cfg.agents
  {
    var latency := cfg.agents[agent].latency;
    (Timing(s.clock, latency).submissionMs + cfg.agents[agent].cancelAfterMs + latency.cancelMs) / MESSAGE_STEP_MS
  }

  /** An order of whole lots leaves its agent: it is cancelled at the gateway,
      submitted at once, or queued until it arrives. */
  function Dispatched(cfg: Config, s: State, order: Order, response: Response): State
    requires order.agent in cfg.agents
    requires Accepts(cfg, s, order, response)
  {
    var timing := Timing(s.clock, cfg.agents[order.agent].latency);
    var recorded := Recorded(s, order);
    if CancelledInTransit(cfg, order.agent) then
      recorded.(orderLog := Resolve(recorded.orderLog, order.id, None, false),
                cancelLog := s.cancelLog + [CancelRow(order.id, order.agent, order.remaining,
                                                      GatewayCancelStep(cfg, s, order.agent))])
    else
      var sent := recorded.(dispatched := s.dispatched + [Ticket(order.agent, order.id)]);
      if ReachesAtOnce(cfg, s, order.agent) then
        Submitted(cfg, sent.(reached := s.reached + [Ticket(order.agent, order.id)]), order, response)
      else
        Pushed(sent, timing.arrivalStep, timing.arrivalMs, Arrival(order))
  }

  /** A cancel reaching the venue; it fails harmlessly if the order is gone or not the agent's. */
  function CancelApplied(s: State, id: OrderId, agent: AgentId, effectiveStep: nat): State {
    var found := Find(s.book, id);
    if found.Some? && found.value.agent == agent then
      s.(book := Remove(s.book, id),
         cancelLog := s.cancelLog + [CancelRow(id, agent, found.value.remaining, effectiveStep)])
    else s
  }

  function CancelRequested(cfg: Config, s: State, agent: AgentId, id: OrderId): State
    requires agent in cfg.agents
  {
    var effectiveMs := s.clock * MESSAGE_STEP_MS + cfg.agents[agent].latency.cancelMs;
    var effectiveStep := effectiveMs / MESSAGE_STEP_MS;
    if effectiveStep <= s.clock then
      CancelApplied(s, id, agent, effectiveStep)
    else
      Pushed(s.(pendingCancelIds := s.pendingCancelIds + {id}), effectiveStep, effectiveMs, Cancellation(id, agent))
  }

  function Delivered(cfg: Config, s: State, response: Response): State
    requires s.pending != []
    requires s.pending[0].body.Arrival? ==> Accepts(cfg, s, s.pending[0].body.order, response)
  {
    var m := s.pending[0];
    var popped := s.(pending := s.pending[1..], delivered := s.delivered + [Delivery(m, s.clock)]);
    match m.body
    case Arrival(order) =>
      Submitted(cfg, popped.(reached := s.reached + [Ticket(order.agent, order.id)]), order, response)
    case Cancellation(id, agent) =>
      CancelApplied(popped.(pendingCancelIds := s.pendingCancelIds - {id}), id, agent, m.step)
  }

  /** The sizing block's last lines: never more than the parent can still take, in whole lots. */
  function Child(cfg: Config, s: State, order: Order, adjusted: int): Option<Order>
    requires cfg.WellFormed()
  {
    var available := cfg.target - s.executed - ActiveQuantity(cfg, s);
    var quantity := (Min(available, adjusted) / cfg.lot) * cfg.lot;
    if available <= 0 || quantity <= 0 then None
    else Some(order.(quantity := quantity, remaining := quantity))
  }

  function Min(a: int, b: int): int { if a <= b then a else b }

  // ----- closing a step

  function Inventory(trades: seq<Trade>, agent: AgentId, symbol: Symbol): int {
    if trades == [] then 0
    else
      var last := trades[|trades| - 1];
      Inventory(trades[..|trades| - 1], agent, symbol)
      + (if last.symbol == symbol && last.BuyerAgent() == agent then last.quantity else 0)
      - (if last.symbol == symbol && last.SellerAgent() == agent then last.quantity else 0)
  }

  function Direction(side: Side): int { if side == Buy then 1 else -1 }

  predicate InventoryTies(cfg: Config, s: State) {
    Inventory(s.tradeLog, cfg.execution, cfg.symbol)
      == Direction(cfg.side) * FilledFor(s.tradeLog, cfg.execution)
  }

  /** The loop's own assertion about the parent order; a run that fails it aborts. */
  predicate ParentChecks(cfg: Config, s: State) {
    && s.executed == FilledFor(s.tradeLog, cfg.execution)
    && InventoryTies(cfg, s)
    && FilledFor(s.tradeLog, cfg.execution) + ActiveQuantity(cfg, s) <= cfg.target
  }

  predicate NothingDue(s: State) {
    s.pending == [] || s.clock < s.pending[0].step
  }

  function StepClosed(cfg: Config, s: State): State {
    s.(snapshots := s.snapshots + [Snapshot(s.executed, ActiveQuantity(cfg, s),
                                            Inventory(s.tradeLog, cfg.execution, cfg.symbol))],
       clock := s.clock + 1)
  }

  // ----- events and runs

  datatype Event =
    | RefreshVolume(budgets: map<Symbol, nat>)
    | DeliverNext(response: Response)
    | DirectSubmit(order: Order, response: Response)
    | DirectCancel(agent: AgentId, id: OrderId)
    | RequestCancel(agent: AgentId, id: OrderId)
    | Schedule(order: Order, response: Response)
    | ScheduleChild(order: Order, adjusted: int, response: Response)
    | EndStep

  /** An order no log has seen, as an agent or order-flow provider makes it. */
  predicate Fresh(s: State, order: Order) {
    && 0 < order.quantity == order.remaining
    && order.submittedStep == s.clock
    && order.id !in LogIds(s.orderLog)
  }

  predicate Enabled(cfg: Config, s: State, e: Event)
    requires cfg.WellFormed()
  {
    match e
    case RefreshVolume(_) => true
    case DeliverNext(response) =>
      && s.pending != []
      && s.pending[0].step <= s.clock
      && (s.pending[0].body.Arrival? ==> Accepts(cfg, s, s.pending[0].body.order, response))
    case DirectSubmit(order, response) =>
      Fresh(s, order) && order.agent !in cfg.agents && Accepts(cfg, s, order, response)
    case DirectCancel(agent, id) =>
      agent !in cfg.agents
    case RequestCancel(agent, id) =>
      && agent in cfg.agents && agent != cfg.execution
      && Find(s.book, id).Some? && id !in s.pendingCancelIds
    case Schedule(order, response) =>
      && Fresh(s, order) && order.agent in cfg.agents && order.agent != cfg.execution
      && (Normalized(cfg, order).Some? ==> Accepts(cfg, s, Normalized(cfg, order).value, response))
    case ScheduleChild(order, adjusted, response) =>
      && Fresh(s, order) && order.agent == cfg.execution
      && (Child(cfg, s, order, adjusted).Some? ==> Accepts(cfg, s, Child(cfg, s, order, adjusted).value, response))
    case EndStep =>
      NothingDue(s) && ParentChecks(cfg, s)
  }

  function Apply(cfg: Config, s: State, e: Event): State
    requires cfg.WellFormed() && Enabled(cfg, s, e)
  {
    match e
    case RefreshVolume(budgets) =>
      s.(volumeLeft := budgets, budgets := budgets, refreshedAt := |s.tradeLog|)
    case DeliverNext(response) => Delivered(cfg, s, response)
    case DirectSubmit(order, response) => Submitted(cfg, Recorded(s, order), order, response)
    case DirectCancel(agent, id) => CancelApplied(s, id, agent, s.clock)
    case RequestCancel(agent, id) => CancelRequested(cfg, s, agent, id)
    case Schedule(order, response) =>
      (match Normalized(cfg, order)
       case None => s
       case Some(whole) => Dispatched(cfg, s, whole, response))
    case ScheduleChild(order, adjusted, response) =>
      (match Child(cfg, s, order, adjusted)
       case None => s
       case Some(child) => Dispatched(cfg, s, child, response))
    case EndStep => StepClosed(cfg, s)
  }

  ghost predicate Run(cfg: Config, s: State, events: seq<Event>, s': State)
    requires cfg.WellFormed()
    decreases events
  {
    if events == [] then s == s'
    else Enabled(cfg, s, events[0]) && Run(cfg, Apply(cfg, s, events[0]), events[1..], s')
  }

  /** The venue keeps its resting orders in a dictionary. */
  predicate KeyedById(book: seq<Order>) {
    forall i, j :: 0 <= i < j < |book| ==> book[i].id != book[j].id
  }

  /** The state after the books are primed: resting quotes of other accounts, nothing in transit. */
  predicate Initial(cfg: Config, s: State) {
    && s.clock == 0 && s.pending == [] && s.sequence == 0 && s.pendingCancelIds == {} && s.executed == 0
    && s.cancelLog == [] && s.snapshots == []
    && s.volumeLeft == s.budgets && s.refreshedAt == |s.tradeLog|
    && s.enqueued == [] && s.delivered == [] && s.dispatched == [] && s.reached == []
    && DistinctIds(s.orderLog)
    && (forall i :: 0 <= i < |s.orderLog| ==> s.orderLog[i].agent != cfg.execution)
    && KeyedById(s.book)
    && (forall o :: o in s.book ==> o.agent != cfg.execution && Filed(s.orderLog, o.id, o.agent))
    && (forall t :: t in s.tradeLog ==>
          && !t.Involves(cfg.execution) && 0 < t.quantity && t.step == 0
          && Filed(s.orderLog, t.makerId, t.makerAgent) && Filed(s.orderLog, t.takerId, t.takerAgent))
  }

  /** A run that ends can be extended by one more event. */
  lemma {:induction false} RunSnoc(cfg: Config, s: State, events: seq<Event>, mid: State, e: Event)
    requires cfg.WellFormed()
    requires Run(cfg, s, events, mid) && Enabled(cfg, mid, e)
    ensures Run(cfg, s, events + [e], Apply(cfg, mid, e))
    decreases events
  {
    if events != [] {
      RunSnoc(cfg, Apply(cfg, s, events[0]), events[1..], mid, e);
      assert (events + [e])[1..] == events[1..] + [e];
    } else {
      assert ([] + [e])[1..] == [];
      assert Run(cfg, Apply(cfg, mid, e), [], Apply(cfg, mid, e));
    }
  }
}
