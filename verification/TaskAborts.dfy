/** The end-of-step assertion in terms of what the agent may send: for which sets of children no
    run can ever fail it. */
module TaskAborts {
  import opened Wrappers
  import opened Venue
  import opened Latency
  import opened ExecutionMachine
  import opened StepChecks

  /** Side and symbol of a child order. */
  type Intent = (Side, Symbol)

  /** The agent's children are all of allowed kinds. */
  predicate SendsOnly(events: seq<Event>, allowed: set<Intent>) {
    forall i :: 0 <= i < |events| && events[i].ScheduleChild? ==>
      (events[i].order.side, events[i].order.symbol) in allowed
  }

  /** Whatever the venue and the other accounts do, and whenever nothing is left to deliver. */
  ghost predicate AlwaysCloses(cfg: Config, allowed: set<Intent>)
    requires cfg.WellFormed()
  {
    forall s0, events, s ::
      Initial(cfg, s0) && Run(cfg, s0, events, s) && NothingDue(s) && SendsOnly(events, allowed) ==>
        Enabled(cfg, s, EndStep)
  }

  // ----- a run that fails, for any child that is off task

  function Opposite(side: Side): Side { if side == Buy then Sell else Buy }

  /** Another account offers one lot of what the agent will ask for. */
  function Offer(cfg: Config, intent: Intent): Order {
    Order("offer", cfg.execution + "-other", intent.1, Opposite(intent.0), Limit, cfg.lot, cfg.lot, 0)
  }

  function Wish(cfg: Config, intent: Intent): Order {
    Order("child", cfg.execution, intent.1, intent.0, Market, cfg.lot, cfg.lot, 0)
  }

  function Primed(cfg: Config, intent: Intent): State {
    State(0, [], 0, {}, [Offer(cfg, intent)], 0, map[],
          [OrderRow("offer", cfg.execution + "-other", cfg.lot, 0, Some(0), Some(true))], [], [], [],
          map[], 0, [], [], [], [])
  }

  /** The venue matches the child against the offer. */
  function Match(cfg: Config): Response { Accepted([Fill("offer", cfg.lot, 1)], false) }

  lemma PrimedIsInitial(cfg: Config, intent: Intent)
    requires cfg.WellFormed()
    ensures Initial(cfg, Primed(cfg, intent))
  {
    var s := Primed(cfg, intent);
    assert |cfg.execution + "-other"| != |cfg.execution|;
    assert s.orderLog[0].id == "offer";
    assert Filed(s.orderLog, "offer", cfg.execution + "-other");
  }

  /** The state once the step's volume budget allows one lot. */
  function Funded(cfg: Config, intent: Intent): State {
    Primed(cfg, intent).(volumeLeft := map[intent.1 := cfg.lot], budgets := map[intent.1 := cfg.lot])
  }

  lemma ChildIsOneLot(cfg: Config, intent: Intent)
    requires cfg.WellFormed() && cfg.lot <= cfg.target
    ensures Child(cfg, Funded(cfg, intent), Wish(cfg, intent), cfg.lot) == Some(Wish(cfg, intent))
  {
    assert RestingOf(Funded(cfg, intent).book, cfg.execution) == 0 by {
      assert |cfg.execution + "-other"| != |cfg.execution|;
      assert Funded(cfg, intent).book[1..] == [];
    }
    assert (cfg.lot / cfg.lot) * cfg.lot == cfg.lot;
  }

  /** The match is possible wherever the offer rests and a lot is left to trade. */
  lemma MatchIsAccepted(cfg: Config, s: State, intent: Intent)
    requires cfg.WellFormed() && s.book == [Offer(cfg, intent)] && s.volumeLeft == map[intent.1 := cfg.lot]
    ensures Accepts(cfg, s, Wish(cfg, intent), Match(cfg))
  {
    var fills := Match(cfg).fills;
    assert fills[1..] == [] && Matched(fills[1..]) == 0;
    assert Find(s.book, "offer") == Some(Offer(cfg, intent));
    assert FillsFit(Reduce(s.book, "offer", cfg.lot), Wish(cfg, intent), fills[1..]);
  }

  lemma MatchIsOffTask(cfg: Config, s: State, intent: Intent)
    requires cfg.WellFormed() && Accepts(cfg, s, Wish(cfg, intent), Match(cfg))
    requires intent != (cfg.side, cfg.symbol)
    ensures !AllOnTask(cfg, s.tradeLog + TradesAfter(s.book, Wish(cfg, intent), Match(cfg), s.clock))
  {
    var trades := TradesAfter(s.book, Wish(cfg, intent), Match(cfg), s.clock);
    var trade := trades[0];
    assert trade.takerAgent == cfg.execution && trade.takerSide == intent.0 && trade.symbol == intent.1;
    assert !OnTask(cfg, trade);
    assert (s.tradeLog + trades)[|s.tradeLog|] == trade;
  }

  /** Steps close one after another until the first queued message is due. */
  lemma {:induction false} WaitFor(cfg: Config, s0: State, events: seq<Event>, s: State, k: nat)
    returns (longer: seq<Event>, s': State)
    requires cfg.WellFormed() && Run(cfg, s0, events, s)
    requires s.pending != [] && s.pending[0].step == s.clock + k && ParentChecks(cfg, s)
    ensures Run(cfg, s0, longer, s') && s' == s.(clock := s.clock + k, snapshots := s'.snapshots)
    ensures forall allowed :: SendsOnly(events, allowed) ==> SendsOnly(longer, allowed)
    decreases k
  {
    if k == 0 {
      longer, s' := events, s;
    } else {
      RunSnoc(cfg, s0, events, s, EndStep);
      longer, s' := WaitFor(cfg, s0, events + [EndStep], Apply(cfg, s, EndStep), k - 1);
    }
  }

  /** The child goes out in the first step. */
  function Send(cfg: Config, intent: Intent, response: Response): Event {
    ScheduleChild(Wish(cfg, intent), cfg.lot, response)
  }

  function Sent(cfg: Config, intent: Intent, response: Response): State
    requires cfg.WellFormed()
    requires Accepts(cfg, Funded(cfg, intent), Wish(cfg, intent), response)
  {
    Dispatched(cfg, Funded(cfg, intent), Wish(cfg, intent), response)
  }

  lemma SendRun(cfg: Config, intent: Intent, response: Response)
    requires cfg.WellFormed() && CanTrade(cfg) && Accepts(cfg, Funded(cfg, intent), Wish(cfg, intent), response)
    ensures Run(cfg, Primed(cfg, intent), [RefreshVolume(map[intent.1 := cfg.lot]), Send(cfg, intent, response)],
                Sent(cfg, intent, response))
  {
    var s0, funded := Primed(cfg, intent), Funded(cfg, intent);
    var refresh := RefreshVolume(map[intent.1 := cfg.lot]);
    var send := Send(cfg, intent, response);
    ChildIsOneLot(cfg, intent);
    assert "child" !in LogIds(funded.orderLog);
    assert Apply(cfg, s0, refresh) == funded;
    assert Enabled(cfg, funded, send) && Apply(cfg, funded, send) == Sent(cfg, intent, response);
    assert [refresh, send][1..] == [send] && [send][1..] == [];
    assert Run(cfg, Sent(cfg, intent, response), [], Sent(cfg, intent, response));
    assert Run(cfg, funded, [send], Sent(cfg, intent, response));
  }

  /** The child is all that is queued, and the step it was sent in can close. */
  lemma SentWaits(cfg: Config, intent: Intent)
    requires cfg.WellFormed() && CanTrade(cfg) && !ReachesAtOnce(cfg, Funded(cfg, intent), cfg.execution)
    ensures var sent := Sent(cfg, intent, Rejected);
            && |sent.pending| == 1 && sent.pending[0].body == Arrival(Wish(cfg, intent)) && sent.clock == 0
            && sent.book == [Offer(cfg, intent)] && sent.volumeLeft == map[intent.1 := cfg.lot]
            && sent.tradeLog == [] && ParentChecks(cfg, sent)
  {
    var sent := Sent(cfg, intent, Rejected);
    assert sent.pending[1..] == [] && sent.book[1..] == [];
    assert |cfg.execution + "-other"| != |cfg.execution|;
    assert RestingOf(sent.book, cfg.execution) == 0;
    assert QueuedOf(sent.pending, cfg.execution) == cfg.lot + QueuedOf(sent.pending[1..], cfg.execution) == cfg.lot;
  }

  lemma OffTaskAtOnce(cfg: Config, intent: Intent)
    requires cfg.WellFormed() && CanTrade(cfg) && ReachesAtOnce(cfg, Funded(cfg, intent), cfg.execution)
    requires intent != (cfg.side, cfg.symbol) && Accepts(cfg, Funded(cfg, intent), Wish(cfg, intent), Match(cfg))
    ensures NothingDue(Sent(cfg, intent, Match(cfg))) && !AllOnTask(cfg, Sent(cfg, intent, Match(cfg)).tradeLog)
  {
    MatchIsOffTask(cfg, Funded(cfg, intent), intent);
  }

  lemma OffTaskOnArrival(cfg: Config, intent: Intent, s: State)
    requires cfg.WellFormed() && intent != (cfg.side, cfg.symbol)
    requires |s.pending| == 1 && s.pending[0].body == Arrival(Wish(cfg, intent)) && s.pending[0].step == s.clock
    requires s.book == [Offer(cfg, intent)] && s.volumeLeft == map[intent.1 := cfg.lot]
    ensures Enabled(cfg, s, DeliverNext(Match(cfg)))
    ensures var s' := Apply(cfg, s, DeliverNext(Match(cfg))); NothingDue(s') && !AllOnTask(cfg, s'.tradeLog)
  {
    MatchIsAccepted(cfg, s, intent);
    MatchIsOffTask(cfg, s, intent);
  }

  /** Sends the child; when it does not arrive at once, steps close until it does. */
  lemma OffTaskRun(cfg: Config, intent: Intent) returns (events: seq<Event>, s: State)
    requires cfg.WellFormed() && CanTrade(cfg) && intent != (cfg.side, cfg.symbol)
    ensures Run(cfg, Primed(cfg, intent), events, s) && NothingDue(s) && SendsOnly(events, {intent})
    ensures !AllOnTask(cfg, s.tradeLog)
  {
    var refresh := RefreshVolume(map[intent.1 := cfg.lot]);
    if ReachesAtOnce(cfg, Funded(cfg, intent), cfg.execution) {
      MatchIsAccepted(cfg, Funded(cfg, intent), intent);
      SendRun(cfg, intent, Match(cfg));
      OffTaskAtOnce(cfg, intent);
      events, s := [refresh, Send(cfg, intent, Match(cfg))], Sent(cfg, intent, Match(cfg));
    } else {
      SendRun(cfg, intent, Rejected);
      SentWaits(cfg, intent);
      var sent, deliver := Sent(cfg, intent, Rejected), DeliverNext(Match(cfg));
      var early, due := WaitFor(cfg, Primed(cfg, intent), [refresh, Send(cfg, intent, Rejected)], sent,
                                sent.pending[0].step);
      OffTaskOnArrival(cfg, intent, due);
      RunSnoc(cfg, Primed(cfg, intent), early, due, deliver);
      assert SendsOnly(early, {intent});
      events, s := early + [deliver], Apply(cfg, due, deliver);
    }
  }

  /** What the agent may send decides: no run can fail the assertion if and only if every allowed
      child is on the parent's side and in its symbol - or no child can trade at all. */
  lemma ClosesExactlyWhenOnTask(cfg: Config, allowed: set<Intent>)
    requires cfg.WellFormed()
    ensures AlwaysCloses(cfg, allowed)
       <==> !CanTrade(cfg) || forall intent :: intent in allowed ==> intent == (cfg.side, cfg.symbol)
  {
    if !CanTrade(cfg) || forall intent :: intent in allowed ==> intent == (cfg.side, cfg.symbol) {
      forall s0, events, s | Initial(cfg, s0) && Run(cfg, s0, events, s) && NothingDue(s) && SendsOnly(events, allowed)
        ensures Enabled(cfg, s, EndStep)
      {
        OneSidedAgentNeverAborts(cfg, s0, events, s);
      }
    } else {
      var intent :| intent in allowed && intent != (cfg.side, cfg.symbol);
      var events, s := OffTaskRun(cfg, intent);
      PrimedIsInitial(cfg, intent);
      StepClosesExactly(cfg, Primed(cfg, intent), events, s);
      assert SendsOnly(events, allowed);
    }
  }
}
