/** The response journal around an isolated strategy: sessions look a request up, run the
    strategy when it is new, and must get their answer past the journal before they return it. */
module ResponseJournal {
  import opened Wrappers

  /** An artifact and a request, each by its digest; the idempotency key is their digest in turn. */
  datatype Key = Key(artifact: string, request: string)

  type Action = string

  type SessionId = nat

  /** Where a session that has not answered yet stands. */
  datatype Stage = Missed(key: Key) | Answered(key: Key, action: Action)

  datatype Return = Return(key: Key, action: Action)

  datatype World = World(journal: map<Key, Action>, sessions: map<SessionId, Stage>, returned: seq<Return>)

  /** One atomic step of one session. The strategy's answer in `Run` is arbitrary each time,
      the hold that stands in for its failures included. */
  datatype Step =
    | Lookup(session: SessionId, key: Key)
    | Run(session: SessionId, action: Action)
    | Record(session: SessionId)
    | Crash(session: SessionId)

  predicate Possible(w: World, step: Step) {
    match step
    case Lookup(session, _) => session !in w.sessions
    case Run(session, _) => session in w.sessions && w.sessions[session].Missed?
    case Record(session) => session in w.sessions && w.sessions[session].Answered?
    case Crash(session) => session in w.sessions
  }

  /** The journal's transaction: the first answer for a key is kept, the same one again is
      harmless, another one is refused. */
  datatype Verdict = Admitted(journal: map<Key, Action>) | Conflict

  function Recorded(journal: map<Key, Action>, key: Key, action: Action): Verdict {
    if key !in journal then Admitted(journal[key := action])
    else if journal[key] == action then Admitted(journal)
    else Conflict
  }

  function Next(w: World, step: Step): World
    requires Possible(w, step)
  {
    match step
    case Lookup(session, key) =>
      if key in w.journal then w.(returned := w.returned + [Return(key, w.journal[key])])
      else w.(sessions := w.sessions[session := Missed(key)])
    case Run(session, action) =>
      w.(sessions := w.sessions[session := Answered(w.sessions[session].key, action)])
    case Record(session) =>
      var stage := w.sessions[session];
      var idle := w.(sessions := w.sessions - {session});
      (match Recorded(w.journal, stage.key, stage.action)
       case Admitted(journal) =>
         idle.(journal := journal, returned := w.returned + [Return(stage.key, stage.action)])
       case Conflict => idle)
    case Crash(session) => w.(sessions := w.sessions - {session})
  }

  ghost predicate Reaches(w: World, steps: seq<Step>, w': World)
    decreases steps
  {
    if steps == [] then w == w' else Possible(w, steps[0]) && Reaches(Next(w, steps[0]), steps[1..], w')
  }

  const START: World := World(map[], map[], [])

  /** Everything ever returned is what the journal holds for its key. */
  predicate Backed(w: World) {
    forall i :: 0 <= i < |w.returned| ==>
      w.returned[i].key in w.journal && w.journal[w.returned[i].key] == w.returned[i].action
  }

  /** Entries are added, never changed or removed. */
  predicate Extends(journal: map<Key, Action>, journal': map<Key, Action>) {
    forall key :: key in journal ==> key in journal' && journal'[key] == journal[key]
  }

  lemma StepKeepsBacked(w: World, step: Step)
    requires Possible(w, step) && Backed(w)
    ensures Backed(Next(w, step)) && Extends(w.journal, Next(w, step).journal)
    ensures w.returned <= Next(w, step).returned
  {
  }

  lemma {:induction false} RunKeepsBacked(w: World, steps: seq<Step>, w': World)
    requires Reaches(w, steps, w') && Backed(w)
    ensures Backed(w') && Extends(w.journal, w'.journal) && w.returned <= w'.returned
    decreases steps
  {
    if steps != [] {
      StepKeepsBacked(w, steps[0]);
      RunKeepsBacked(Next(w, steps[0]), steps[1..], w');
    }
  }

  /** Agreement: with any number of sessions interleaving and crashing, and a strategy that may
      answer differently each time, all answers returned for one artifact and request are the same. */
  lemma ReturnsAgree(steps: seq<Step>, w: World, i: nat, j: nat)
    requires Reaches(START, steps, w) && i < |w.returned| && j < |w.returned|
    requires w.returned[i].key == w.returned[j].key
    ensures w.returned[i].action == w.returned[j].action
    ensures w.returned[i].key in w.journal && w.journal[w.returned[i].key] == w.returned[i].action
  {
    RunKeepsBacked(START, steps, w);
  }

  /** A recorded entry never changes, whatever happens later. */
  lemma EntriesNeverChange(earlier: seq<Step>, w: World, later: seq<Step>, w': World)
    requires Reaches(START, earlier, w) && Reaches(w, later, w')
    ensures Extends(w.journal, w'.journal)
  {
    RunKeepsBacked(START, earlier, w);
    RunKeepsBacked(w, later, w');
  }

  /** A session that nobody disturbs gets an answer returned: the recorded one if there is one, else
      the strategy's own, which is then recorded; other entries and sessions stay as they are. */
  lemma UndisturbedSessionReturns(w: World, session: SessionId, key: Key, action: Action)
    requires session !in w.sessions
    ensures Possible(w, Lookup(session, key))
    ensures var w1 := Next(w, Lookup(session, key));
            if key in w.journal
            then w1 == w.(returned := w.returned + [Return(key, w.journal[key])])
            else
              && Possible(w1, Run(session, action))
              && var w2 := Next(w1, Run(session, action));
                 Possible(w2, Record(session))
                 && Next(w2, Record(session))
                    == w.(journal := w.journal[key := action], returned := w.returned + [Return(key, action)])
  {
    assert w.sessions[session := Answered(key, action)] - {session} == w.sessions;
  }

  /** A session that crashes before it records leaves nothing behind. */
  lemma CrashLeavesNoTrace(w: World, session: SessionId, key: Key, action: Action)
    requires session !in w.sessions && key !in w.journal
    ensures var missed := Next(w, Lookup(session, key));
            && Next(missed, Crash(session)) == w
            && Next(Next(missed, Run(session, action)), Crash(session)) == w
  {
    assert w.sessions[session := Missed(key)] - {session} == w.sessions;
    assert w.sessions[session := Answered(key, action)] - {session} == w.sessions;
  }

  /** A session whose answer comes second to a different one returns nothing and is gone. */
  lemma LateAnswerIsRefused(w: World, session: SessionId)
    requires Possible(w, Record(session))
    requires var stage := w.sessions[session]; stage.key in w.journal && w.journal[stage.key] != stage.action
    ensures Next(w, Record(session)) == w.(sessions := w.sessions - {session})
  {
  }

  // ----- the journal and a session's decide

  datatype Entry = Entry(key: Key, action: Action)

  class Journal {
    var records: map<Key, Action>

    constructor ()
      ensures records == map[]
    {
      records := map[];
    }

    method Find(key: Key) returns (found: Option<Action>)
      ensures found == if key in records then Some(records[key]) else None
    {
      found := if key in records then Some(records[key]) else None;
    }

    /** Keeps a response before it reaches matching; false is the conflict that raises. */
    method RecordResponse(key: Key, action: Action) returns (ok: bool)
      modifies this
      ensures ok <==> Recorded(old(records), key, action).Admitted?
      ensures records == if ok then Recorded(old(records), key, action).journal else old(records)
      ensures Extends(old(records), records) && (ok <==> key in records && records[key] == action)
      ensures ok <==> (key in old(records) ==> old(records)[key] == action)
    {
      if key !in records {
        records := records[key := action];
        return true;
      }
      ok := records[key] == action;
    }

    /** One decision. `answer` is what the strategy says if it is asked; `others` are the responses
        other sessions record while it runs. A returned action is the journal's. */
    method Decide(key: Key, answer: Action, others: seq<Entry>) returns (decided: Option<Action>)
      modifies this
      ensures Extends(old(records), records)
      ensures decided.Some? ==> key in records && records[key] == decided.value
      ensures key in old(records) ==> decided == Some(old(records)[key]) && records == old(records)
      ensures decided.None? ==> key !in old(records) && key in records && records[key] != answer
      ensures key !in old(records) && (forall i :: 0 <= i < |others| ==> others[i].key != key) ==>
                decided == Some(answer)
    {
      var recovered := Find(key);
      if recovered.Some? { return recovered; }
      for i := 0 to |others|
        invariant Extends(old(records), records)
        invariant (forall j :: 0 <= j < i ==> others[j].key != key) && key !in old(records) ==> key !in records
      {
        var _ := RecordResponse(others[i].key, others[i].action);
      }
      var ok := RecordResponse(key, answer);
      decided := if ok then Some(answer) else None;
    }
  }
}
