/** The challenge tables of the durable store and its transactions. A transaction works on a
    copy of the committed tables; raising anywhere leaves the committed tables as they were. */
module ChallengeStore {
  import opened Wrappers

  type ChallengeId = string
  type UserId = string

  datatype Phase = Draft | PublicPractice | SubmissionLocked | HiddenEvaluation | Released | Archived

  datatype PhaseRow = PhaseRow(challenge: ChallengeId, previous: Phase, next: Phase)

  datatype PracticeRow = PracticeRow(runId: string, challenge: ChallengeId, user: UserId)

  datatype SubmissionRow = SubmissionRow(submissionId: string, challenge: ChallengeId, user: UserId, isFinal: bool)

  /** `hash` is the digest of `matrix`; the row's key is made from it. */
  datatype EvaluationRow = EvaluationRow(challenge: ChallengeId, hash: string, matrix: string, releasedAt: Option<nat>)

  datatype Tables = Tables(phases: map<ChallengeId, Phase>, phaseLog: seq<PhaseRow>, practice: seq<PracticeRow>,
                           submissions: seq<SubmissionRow>, evaluations: seq<EvaluationRow>, users: set<UserId>)

  datatype Error = UnknownChallenge | IllegalTransition | WrongPhase | QuotaExhausted | DuplicateKey
                 | DifferentEvaluation | MissingEvaluation

  datatype Outcome = Done | Raised(error: Error)

  datatype Call =
    | EnsureDefault(challenge: ChallengeId)
    | Transition(challenge: ChallengeId, next: Phase)
    | SavePractice(runId: string, challenge: ChallengeId, user: UserId, maxRuns: nat)
    | SaveSubmission(submissionId: string, challenge: ChallengeId, user: UserId, isFinal: bool, maxFinal: nat)
    | SaveEvaluation(challenge: ChallengeId, hash: string, matrix: string)
    | SaveEvaluationAndTransition(challenge: ChallengeId, hash: string, matrix: string)
    | ReleaseEvaluation(challenge: ChallengeId, now: nat)
    | ReleaseChallenge(challenge: ChallengeId, now: nat)

  function Successor(phase: Phase): Option<Phase> {
    match phase
    case Draft => Some(PublicPractice)
    case PublicPractice => Some(SubmissionLocked)
    case SubmissionLocked => Some(HiddenEvaluation)
    case HiddenEvaluation => Some(Released)
    case Released => Some(Archived)
    case Archived => None
  }

  // ----- queries

  function CountRuns(rows: seq<PracticeRow>, challenge: ChallengeId, user: UserId): nat {
    if rows == [] then 0
    else
      var last := rows[|rows| - 1];
      CountRuns(rows[..|rows| - 1], challenge, user) + if last.challenge == challenge && last.user == user then 1 else 0
  }

  function CountFinal(rows: seq<SubmissionRow>, challenge: ChallengeId, user: UserId): nat {
    if rows == [] then 0
    else
      var last := rows[|rows| - 1];
      CountFinal(rows[..|rows| - 1], challenge, user)
      + if last.challenge == challenge && last.user == user && last.isFinal then 1 else 0
  }

  function FindEvaluation(rows: seq<EvaluationRow>, challenge: ChallengeId): Option<EvaluationRow> {
    if rows == [] then None
    else if rows[0].challenge == challenge then Some(rows[0])
    else FindEvaluation(rows[1..], challenge)
  }

  predicate RunIdTaken(rows: seq<PracticeRow>, runId: string) {
    exists i :: 0 <= i < |rows| && rows[i].runId == runId
  }

  predicate SubmissionIdTaken(rows: seq<SubmissionRow>, submissionId: string) {
    exists i :: 0 <= i < |rows| && rows[i].submissionId == submissionId
  }

  predicate HashTaken(rows: seq<EvaluationRow>, hash: string) {
    exists i :: 0 <= i < |rows| && rows[i].hash == hash
  }

  /** Marks the challenge's evaluation released at `now` unless it already was. */
  function MarkReleased(rows: seq<EvaluationRow>, challenge: ChallengeId, now: nat): seq<EvaluationRow> {
    if rows == [] then []
    else
      (if rows[0].challenge == challenge && rows[0].releasedAt.None? then [rows[0].(releasedAt := Some(now))]
       else [rows[0]])
      + MarkReleased(rows[1..], challenge, now)
  }

  predicate Logged(log: seq<PhaseRow>, challenge: ChallengeId) {
    exists i :: 0 <= i < |log| && log[i].challenge == challenge
  }

  // ----- what inserting and marking do to the evaluation a query finds

  lemma {:induction false} FindAppended(rows: seq<EvaluationRow>, row: EvaluationRow, challenge: ChallengeId)
    ensures FindEvaluation(rows + [row], challenge)
         == if FindEvaluation(rows, challenge).Some? then FindEvaluation(rows, challenge)
            else if row.challenge == challenge then Some(row) else None
  {
    if rows == [] {
      assert [row][1..] == [];
    } else {
      assert (rows + [row])[1..] == rows[1..] + [row];
      FindAppended(rows[1..], row, challenge);
    }
  }

  /** The evaluation as it is once released at `now`: an earlier release time stays. */
  function ReleasedBy(row: EvaluationRow, now: nat): EvaluationRow {
    row.(releasedAt := Some(row.releasedAt.GetOr(now)))
  }

  lemma {:induction false} FindMarked(rows: seq<EvaluationRow>, marked: ChallengeId, now: nat, challenge: ChallengeId)
    ensures var before := FindEvaluation(rows, challenge);
            FindEvaluation(MarkReleased(rows, marked, now), challenge)
              == if before.Some? && marked == challenge then Some(ReleasedBy(before.value, now)) else before
  {
    if rows != [] && rows[0].challenge != challenge {
      FindMarked(rows[1..], marked, now, challenge);
    }
  }

  // ----- the transactions on values: the new tables, or the error raised

  datatype Attempt = Commit(tables: Tables) | Rollback(error: Error)

  function Advanced(t: Tables, challenge: ChallengeId, previous: Phase, next: Phase): Tables {
    t.(phases := t.phases[challenge := next], phaseLog := t.phaseLog + [PhaseRow(challenge, previous, next)])
  }

  /** Shared by the two ways of saving an evaluation: saving the same matrix again is harmless. */
  function WithEvaluation(t: Tables, challenge: ChallengeId, hash: string, matrix: string): Attempt {
    match FindEvaluation(t.evaluations, challenge)
    case Some(row) => if row.hash != hash then Rollback(DifferentEvaluation) else Commit(t)
    case None =>
      if challenge !in t.phases then Rollback(UnknownChallenge)
      else if HashTaken(t.evaluations, hash) then Rollback(DuplicateKey)
      else Commit(t.(evaluations := t.evaluations + [EvaluationRow(challenge, hash, matrix, None)]))
  }

  function Attempted(t: Tables, call: Call): Attempt {
    match call
    case EnsureDefault(challenge) =>
      Commit(t.(phases := if challenge in t.phases then t.phases else t.phases[challenge := PublicPractice],
                phaseLog := if Logged(t.phaseLog, challenge) then t.phaseLog
                            else t.phaseLog + [PhaseRow(challenge, Draft, PublicPractice)]))
    case Transition(challenge, next) =>
      if challenge !in t.phases then Rollback(UnknownChallenge)
      else if Successor(t.phases[challenge]) != Some(next) then Rollback(IllegalTransition)
      else Commit(Advanced(t, challenge, t.phases[challenge], next))
    case SavePractice(runId, challenge, user, maxRuns) =>
      if challenge !in t.phases then Rollback(UnknownChallenge)
      else if t.phases[challenge] != PublicPractice then Rollback(WrongPhase)
      else if CountRuns(t.practice, challenge, user) >= maxRuns then Rollback(QuotaExhausted)
      else if RunIdTaken(t.practice, runId) then Rollback(DuplicateKey)
      else Commit(t.(users := t.users + {user}, practice := t.practice + [PracticeRow(runId, challenge, user)]))
    case SaveSubmission(submissionId, challenge, user, isFinal, maxFinal) =>
      if challenge !in t.phases then Rollback(UnknownChallenge)
      else if t.phases[challenge] != PublicPractice then Rollback(WrongPhase)
      else if isFinal && CountFinal(t.submissions, challenge, user) >= maxFinal then Rollback(QuotaExhausted)
      else if SubmissionIdTaken(t.submissions, submissionId)
              || (isFinal && CountFinal(t.submissions, challenge, user) > 0) then Rollback(DuplicateKey)
      else Commit(t.(users := t.users + {user},
                     submissions := t.submissions + [SubmissionRow(submissionId, challenge, user, isFinal)]))
    case SaveEvaluation(challenge, hash, matrix) =>
      WithEvaluation(t, challenge, hash, matrix)
    case SaveEvaluationAndTransition(challenge, hash, matrix) =>
      if challenge !in t.phases then Rollback(UnknownChallenge)
      else if t.phases[challenge] != SubmissionLocked then Rollback(WrongPhase)
      else (match WithEvaluation(t, challenge, hash, matrix)
            case Rollback(error) => Rollback(error)
            case Commit(saved) => Commit(Advanced(saved, challenge, SubmissionLocked, HiddenEvaluation)))
    case ReleaseEvaluation(challenge, now) =>
      if FindEvaluation(t.evaluations, challenge).None? then Rollback(UnknownChallenge)
      else Commit(t.(evaluations := MarkReleased(t.evaluations, challenge, now)))
    case ReleaseChallenge(challenge, now) =>
      if challenge !in t.phases then Rollback(UnknownChallenge)
      else if t.phases[challenge] != HiddenEvaluation then Rollback(WrongPhase)
      else if FindEvaluation(t.evaluations, challenge).None? then Rollback(MissingEvaluation)
      else Commit(Advanced(t.(evaluations := MarkReleased(t.evaluations, challenge, now)),
                           challenge, HiddenEvaluation, Released))
  }

  /** The committed tables after a call. */
  function After(t: Tables, call: Call): Tables {
    match Attempted(t, call)
    case Commit(tables) => tables
    case Rollback(_) => t
  }

  function OutcomeOf(t: Tables, call: Call): Outcome {
    match Attempted(t, call)
    case Commit(_) => Done
    case Rollback(error) => Raised(error)
  }

  function AfterAll(t: Tables, calls: seq<Call>): Tables {
    if calls == [] then t else After(AfterAll(t, calls[..|calls| - 1]), calls[|calls| - 1])
  }

  const EMPTY: Tables := Tables(map[], [], [], [], [], {})

  // ----- the store

  class ArenaStore {
    var committed: Tables

    constructor ()
      ensures committed == EMPTY
    {
      committed := EMPTY;
    }

    method EnsureDefaultChallenge(challenge: ChallengeId)
      modifies this
      ensures committed == After(old(committed), EnsureDefault(challenge))
    {
      var work := committed;
      if challenge !in work.phases { work := work.(phases := work.phases[challenge := PublicPractice]); }
      if !Logged(work.phaseLog, challenge) {
        work := work.(phaseLog := work.phaseLog + [PhaseRow(challenge, Draft, PublicPractice)]);
      }
      committed := work;
    }

    method DoTransition(challenge: ChallengeId, next: Phase) returns (outcome: Outcome)
      modifies this
      ensures committed == After(old(committed), Transition(challenge, next))
      ensures outcome == OutcomeOf(old(committed), Transition(challenge, next))
      ensures outcome.Raised? ==> committed == old(committed)
    {
      var work := committed;
      if challenge !in work.phases { return Raised(UnknownChallenge); }
      var previous := work.phases[challenge];
      if Successor(previous) != Some(next) { return Raised(IllegalTransition); }
      work := work.(phases := work.phases[challenge := next]);
      work := work.(phaseLog := work.phaseLog + [PhaseRow(challenge, previous, next)]);
      committed := work;
      outcome := Done;
    }

    /** The users row is written before the quota is tested; a refusal takes it back. */
    method DoSavePractice(runId: string, challenge: ChallengeId, user: UserId, maxRuns: nat) returns (outcome: Outcome)
      modifies this
      ensures committed == After(old(committed), SavePractice(runId, challenge, user, maxRuns))
      ensures outcome == OutcomeOf(old(committed), SavePractice(runId, challenge, user, maxRuns))
      ensures outcome.Raised? ==> committed == old(committed)
    {
      var work := committed;
      if challenge !in work.phases { return Raised(UnknownChallenge); }
      if work.phases[challenge] != PublicPractice { return Raised(WrongPhase); }
      work := work.(users := work.users + {user});
      var count := 0;
      for i := 0 to |work.practice|
        invariant count == CountRuns(work.practice[..i], challenge, user)
      {
        assert work.practice[..i + 1][..i] == work.practice[..i];
        if work.practice[i].challenge == challenge && work.practice[i].user == user { count := count + 1; }
      }
      assert work.practice[..|work.practice|] == work.practice;
      if count >= maxRuns { return Raised(QuotaExhausted); }
      if RunIdTaken(work.practice, runId) { return Raised(DuplicateKey); }
      work := work.(practice := work.practice + [PracticeRow(runId, challenge, user)]);
      committed := work;
      outcome := Done;
    }

    method DoSaveSubmission(submissionId: string, challenge: ChallengeId, user: UserId, isFinal: bool, maxFinal: nat)
      returns (outcome: Outcome)
      modifies this
      ensures committed == After(old(committed), SaveSubmission(submissionId, challenge, user, isFinal, maxFinal))
      ensures outcome == OutcomeOf(old(committed), SaveSubmission(submissionId, challenge, user, isFinal, maxFinal))
      ensures outcome.Raised? ==> committed == old(committed)
    {
      var work := committed;
      if challenge !in work.phases { return Raised(UnknownChallenge); }
      if work.phases[challenge] != PublicPractice { return Raised(WrongPhase); }
      work := work.(users := work.users + {user});
      var count := 0;
      for i := 0 to |work.submissions|
        invariant count == CountFinal(work.submissions[..i], challenge, user)
      {
        assert work.submissions[..i + 1][..i] == work.submissions[..i];
        var row := work.submissions[i];
        if row.challenge == challenge && row.user == user && row.isFinal { count := count + 1; }
      }
      assert work.submissions[..|work.submissions|] == work.submissions;
      if isFinal && count >= maxFinal { return Raised(QuotaExhausted); }
      if SubmissionIdTaken(work.submissions, submissionId) || (isFinal && count > 0) { return Raised(DuplicateKey); }
      work := work.(submissions := work.submissions + [SubmissionRow(submissionId, challenge, user, isFinal)]);
      committed := work;
      outcome := Done;
    }

    /** Afterwards the challenge's evaluation is the one given, or the one it already had with the
        same digest; another digest is refused. */
    method DoSaveEvaluation(challenge: ChallengeId, hash: string, matrix: string) returns (outcome: Outcome)
      modifies this
      ensures committed == After(old(committed), SaveEvaluation(challenge, hash, matrix))
      ensures outcome == OutcomeOf(old(committed), SaveEvaluation(challenge, hash, matrix))
      ensures outcome.Raised? ==> committed == old(committed)
      ensures var before := FindEvaluation(old(committed).evaluations, challenge);
              var after := FindEvaluation(committed.evaluations, challenge);
              && (outcome == Raised(DifferentEvaluation) <==> before.Some? && before.value.hash != hash)
              && (outcome.Done? ==>
                    && after.Some? && after.value.hash == hash
                    && after == if before.Some? then before else Some(EvaluationRow(challenge, hash, matrix, None)))
      ensures forall other :: other != challenge ==>
                FindEvaluation(committed.evaluations, other) == FindEvaluation(old(committed).evaluations, other)
    {
      var work := committed;
      var existing := FindEvaluation(work.evaluations, challenge);
      if existing.Some? {
        return if existing.value.hash != hash then Raised(DifferentEvaluation) else Done;
      }
      if challenge !in work.phases { return Raised(UnknownChallenge); }
      if HashTaken(work.evaluations, hash) { return Raised(DuplicateKey); }
      var row := EvaluationRow(challenge, hash, matrix, None);
      forall c
        ensures FindEvaluation(work.evaluations + [row], c)
             == if c == challenge then Some(row) else FindEvaluation(work.evaluations, c)
      {
        FindAppended(work.evaluations, row, c);
      }
      committed := work.(evaluations := work.evaluations + [row]);
      outcome := Done;
    }

    method DoSaveEvaluationAndTransition(challenge: ChallengeId, hash: string, matrix: string)
      returns (outcome: Outcome)
      modifies this
      ensures committed == After(old(committed), SaveEvaluationAndTransition(challenge, hash, matrix))
      ensures outcome == OutcomeOf(old(committed), SaveEvaluationAndTransition(challenge, hash, matrix))
      ensures outcome.Raised? ==> committed == old(committed)
    {
      var work := committed;
      if challenge !in work.phases { return Raised(UnknownChallenge); }
      if work.phases[challenge] != SubmissionLocked { return Raised(WrongPhase); }
      match WithEvaluation(work, challenge, hash, matrix) {
        case Rollback(error) =>
          return Raised(error);
        case Commit(saved) =>
          work := saved;
      }
      work := work.(phases := work.phases[challenge := HiddenEvaluation]);
      work := work.(phaseLog := work.phaseLog + [PhaseRow(challenge, SubmissionLocked, HiddenEvaluation)]);
      committed := work;
      outcome := Done;
    }

    method DoReleaseEvaluation(challenge: ChallengeId, now: nat) returns (outcome: Outcome)
      modifies this
      ensures committed == After(old(committed), ReleaseEvaluation(challenge, now))
      ensures outcome == OutcomeOf(old(committed), ReleaseEvaluation(challenge, now))
      ensures outcome.Raised? ==> committed == old(committed)
      ensures outcome.Done? <==> FindEvaluation(old(committed).evaluations, challenge).Some?
      ensures outcome.Done? ==>
                FindEvaluation(committed.evaluations, challenge)
                  == Some(ReleasedBy(FindEvaluation(old(committed).evaluations, challenge).value, now))
      ensures forall other :: other != challenge ==>
                FindEvaluation(committed.evaluations, other) == FindEvaluation(old(committed).evaluations, other)
      ensures committed == old(committed).(evaluations := committed.evaluations)
    {
      if FindEvaluation(committed.evaluations, challenge).None? { return Raised(UnknownChallenge); }
      forall c {
        FindMarked(committed.evaluations, challenge, now, c);
      }
      committed := committed.(evaluations := MarkReleased(committed.evaluations, challenge, now));
      outcome := Done;
    }

    method DoReleaseChallenge(challenge: ChallengeId, now: nat) returns (outcome: Outcome)
      modifies this
      ensures committed == After(old(committed), ReleaseChallenge(challenge, now))
      ensures outcome == OutcomeOf(old(committed), ReleaseChallenge(challenge, now))
      ensures outcome.Raised? ==> committed == old(committed)
    {
      var work := committed;
      if challenge !in work.phases { return Raised(UnknownChallenge); }
      if work.phases[challenge] != HiddenEvaluation { return Raised(WrongPhase); }
      if FindEvaluation(work.evaluations, challenge).None? { return Raised(MissingEvaluation); }
      work := work.(evaluations := MarkReleased(work.evaluations, challenge, now));
      work := work.(phases := work.phases[challenge := Released]);
      work := work.(phaseLog := work.phaseLog + [PhaseRow(challenge, HiddenEvaluation, Released)]);
      committed := work;
      outcome := Done;
    }
  }
}
