/** What holds of the challenge tables after any history of calls, in whatever order concurrent
    clients' transactions were serialized, and what no later call can change. */
module ChallengeHistory {
  import opened Wrappers
  import opened ChallengeStore

  // ----- the phase log

  function Rank(phase: Phase): nat {
    match phase
    case Draft => 0
    case PublicPractice => 1
    case SubmissionLocked => 2
    case HiddenEvaluation => 3
    case Released => 4
    case Archived => 5
  }

  /** The phases a challenge has been through: draft, then one per row of its log. */
  function Chronicle(log: seq<PhaseRow>, challenge: ChallengeId): seq<PhaseRow> {
    if log == [] then []
    else
      var last := log[|log| - 1];
      Chronicle(log[..|log| - 1], challenge) + if last.challenge == challenge then [last] else []
  }

  /** Row k of a chronicle leads from the k-th phase to the next one. */
  predicate Unbroken(rows: seq<PhaseRow>) {
    forall k :: 0 <= k < |rows| ==> Rank(rows[k].previous) == k && Rank(rows[k].next) == k + 1
  }

  /** The log of a challenge is an unbroken chain from draft to its current phase, and exists
      exactly for the challenges there are. */
  predicate LogSound(t: Tables, challenge: ChallengeId) {
    var rows := Chronicle(t.phaseLog, challenge);
    && Unbroken(rows)
    && (challenge in t.phases <==> rows != [])
    && (challenge in t.phases ==> |rows| == Rank(t.phases[challenge]))
  }

  lemma ChronicleSnoc(log: seq<PhaseRow>, row: PhaseRow, challenge: ChallengeId)
    ensures Chronicle(log + [row], challenge)
         == Chronicle(log, challenge) + if row.challenge == challenge then [row] else []
  {
    assert (log + [row])[..|log|] == log;
  }

  lemma {:induction false} LoggedHasChronicle(log: seq<PhaseRow>, challenge: ChallengeId)
    ensures Logged(log, challenge) <==> Chronicle(log, challenge) != []
  {
    if log != [] {
      var front, last := log[..|log| - 1], log[|log| - 1];
      LoggedHasChronicle(front, challenge);
      if Logged(log, challenge) && last.challenge != challenge {
        var i :| 0 <= i < |log| && log[i].challenge == challenge;
        assert front[i].challenge == challenge;
      }
      if Logged(front, challenge) {
        var i :| 0 <= i < |front| && front[i].challenge == challenge;
        assert log[i].challenge == challenge;
      }
    }
  }

  lemma AdvancingIsSound(t: Tables, challenge: ChallengeId, next: Phase, other: ChallengeId)
    requires challenge in t.phases && Successor(t.phases[challenge]) == Some(next)
    requires LogSound(t, challenge) && LogSound(t, other)
    ensures LogSound(Advanced(t, challenge, t.phases[challenge], next), other)
  {
    ChronicleSnoc(t.phaseLog, PhaseRow(challenge, t.phases[challenge], next), other);
  }

  lemma DefaultIsSound(t: Tables, challenge: ChallengeId, other: ChallengeId)
    requires LogSound(t, challenge) && LogSound(t, other)
    ensures LogSound(After(t, EnsureDefault(challenge)), other)
  {
    LoggedHasChronicle(t.phaseLog, challenge);
    ChronicleSnoc(t.phaseLog, PhaseRow(challenge, Draft, PublicPractice), other);
  }

  lemma CallKeepsLogSound(t: Tables, call: Call, other: ChallengeId)
    requires LogSound(t, call.challenge) && LogSound(t, other)
    ensures LogSound(After(t, call), other)
  {
    if Attempted(t, call).Commit? {
      match call
      case EnsureDefault(challenge) => DefaultIsSound(t, challenge, other);
      case Transition(challenge, next) => AdvancingIsSound(t, challenge, next, other);
      case SaveEvaluationAndTransition(challenge, hash, matrix) =>
        var saved := WithEvaluation(t, challenge, hash, matrix).tables;
        AdvancingIsSound(saved, challenge, HiddenEvaluation, other);
      case ReleaseChallenge(challenge, now) =>
        AdvancingIsSound(t.(evaluations := MarkReleased(t.evaluations, challenge, now)), challenge, Released, other);
      case _ =>
    }
  }

  /** After any history the phase log of every challenge is one unbroken chain along the only
      order of phases, ending in the current phase. */
  lemma {:induction false} PhaseLogIsChain(calls: seq<Call>, challenge: ChallengeId)
    ensures LogSound(AfterAll(EMPTY, calls), challenge)
  {
    if calls != [] {
      var front, last := calls[..|calls| - 1], calls[|calls| - 1];
      PhaseLogIsChain(front, challenge);
      PhaseLogIsChain(front, last.challenge);
      CallKeepsLogSound(AfterAll(EMPTY, front), last, challenge);
    }
  }

  // ----- quotas

  ghost predicate RunsWithin(t: Tables, limit: nat) {
    forall c, u :: CountRuns(t.practice, c, u) <= limit
  }

  ghost predicate OneFinalEach(t: Tables) {
    forall c, u :: CountFinal(t.submissions, c, u) <= 1
  }

  predicate Limited(call: Call, limit: nat) {
    call.SavePractice? ==> call.maxRuns <= limit
  }

  lemma CountRunsSnoc(rows: seq<PracticeRow>, row: PracticeRow, challenge: ChallengeId, user: UserId)
    ensures CountRuns(rows + [row], challenge, user)
         == CountRuns(rows, challenge, user) + if row.challenge == challenge && row.user == user then 1 else 0
  {
    assert (rows + [row])[..|rows|] == rows;
  }

  lemma CountFinalSnoc(rows: seq<SubmissionRow>, row: SubmissionRow, challenge: ChallengeId, user: UserId)
    ensures CountFinal(rows + [row], challenge, user)
         == CountFinal(rows, challenge, user)
            + if row.challenge == challenge && row.user == user && row.isFinal then 1 else 0
  {
    assert (rows + [row])[..|rows|] == rows;
  }

  lemma CallKeepsRuns(t: Tables, call: Call, limit: nat)
    requires RunsWithin(t, limit) && Limited(call, limit)
    ensures RunsWithin(After(t, call), limit)
  {
    if call.SavePractice? && Attempted(t, call).Commit? {
      forall c, u
        ensures CountRuns(After(t, call).practice, c, u) <= limit
      {
        CountRunsSnoc(t.practice, PracticeRow(call.runId, call.challenge, call.user), c, u);
      }
    } else {
      assert After(t, call).practice == t.practice;
    }
  }

  lemma CallKeepsFinals(t: Tables, call: Call)
    requires OneFinalEach(t)
    ensures OneFinalEach(After(t, call))
  {
    if call.SaveSubmission? && Attempted(t, call).Commit? {
      forall c, u
        ensures CountFinal(After(t, call).submissions, c, u) <= 1
      {
        CountFinalSnoc(t.submissions, SubmissionRow(call.submissionId, call.challenge, call.user, call.isFinal), c, u);
      }
    } else {
      assert After(t, call).submissions == t.submissions;
    }
  }

  /** However clients interleave, no user gets more practice runs than the largest limit any call
      passed, and nobody ever has two final submissions for a challenge. */
  lemma {:induction false} QuotasHold(calls: seq<Call>, limit: nat)
    requires forall i :: 0 <= i < |calls| ==> Limited(calls[i], limit)
    ensures RunsWithin(AfterAll(EMPTY, calls), limit) && OneFinalEach(AfterAll(EMPTY, calls))
  {
    if calls != [] {
      QuotasHold(calls[..|calls| - 1], limit);
      CallKeepsRuns(AfterAll(EMPTY, calls[..|calls| - 1]), calls[|calls| - 1], limit);
      CallKeepsFinals(AfterAll(EMPTY, calls[..|calls| - 1]), calls[|calls| - 1]);
    }
  }

  // ----- one evaluation per challenge

  predicate OneEvaluationEach(rows: seq<EvaluationRow>) {
    forall i, j :: 0 <= i < j < |rows| ==> rows[i].challenge != rows[j].challenge
  }

  lemma {:induction false} FoundEvaluation(rows: seq<EvaluationRow>, challenge: ChallengeId)
    ensures var row := FindEvaluation(rows, challenge);
            && (row.None? <==> forall i :: 0 <= i < |rows| ==> rows[i].challenge != challenge)
            && (row.Some? ==> row.value in rows && row.value.challenge == challenge)
  {
    if rows != [] && rows[0].challenge != challenge {
      FoundEvaluation(rows[1..], challenge);
    }
  }

  lemma {:induction false} MarkingKeepsRows(rows: seq<EvaluationRow>, challenge: ChallengeId, now: nat)
    ensures var rows' := MarkReleased(rows, challenge, now);
            && |rows'| == |rows|
            && forall i :: 0 <= i < |rows| ==>
                 rows'[i] == if rows[i].challenge == challenge && rows[i].releasedAt.None?
                             then rows[i].(releasedAt := Some(now)) else rows[i]
  {
    if rows != [] {
      MarkingKeepsRows(rows[1..], challenge, now);
    }
  }

  lemma CallKeepsOneEvaluation(t: Tables, call: Call)
    requires OneEvaluationEach(t.evaluations)
    ensures OneEvaluationEach(After(t, call).evaluations)
  {
    FoundEvaluation(t.evaluations, call.challenge);
    if call.ReleaseEvaluation? || call.ReleaseChallenge? {
      MarkingKeepsRows(t.evaluations, call.challenge, call.now);
    }
  }

  /** There is never more than one evaluation of a challenge. */
  lemma {:induction false} AtMostOneEvaluation(calls: seq<Call>)
    ensures OneEvaluationEach(AfterAll(EMPTY, calls).evaluations)
  {
    if calls != [] {
      AtMostOneEvaluation(calls[..|calls| - 1]);
      CallKeepsOneEvaluation(AfterAll(EMPTY, calls[..|calls| - 1]), calls[|calls| - 1]);
    }
  }

  // ----- what no later call can change

  function RunsOf(rows: seq<PracticeRow>, challenge: ChallengeId): seq<PracticeRow> {
    if rows == [] then []
    else
      var last := rows[|rows| - 1];
      RunsOf(rows[..|rows| - 1], challenge) + if last.challenge == challenge then [last] else []
  }

  function SubmissionsOf(rows: seq<SubmissionRow>, challenge: ChallengeId): seq<SubmissionRow> {
    if rows == [] then []
    else
      var last := rows[|rows| - 1];
      SubmissionsOf(rows[..|rows| - 1], challenge) + if last.challenge == challenge then [last] else []
  }

  /** The challenge has left public practice for good. */
  predicate Closed(t: Tables, challenge: ChallengeId) {
    challenge in t.phases && Rank(t.phases[challenge]) > Rank(PublicPractice)
  }

  /** The later row tells the same story: same matrix, and the release time once written stays. */
  predicate SameEvaluation(row: EvaluationRow, later: EvaluationRow) {
    && later.challenge == row.challenge && later.hash == row.hash && later.matrix == row.matrix
    && (row.releasedAt.Some? ==> later.releasedAt == row.releasedAt)
  }

  /** What is settled about a challenge in `t` is the same in `t'`. */
  predicate Preserved(t: Tables, t': Tables, challenge: ChallengeId) {
    && t.phaseLog <= t'.phaseLog
    && (challenge in t.phases ==>
          challenge in t'.phases && Rank(t.phases[challenge]) <= Rank(t'.phases[challenge]))
    && (Closed(t, challenge) ==>
          && RunsOf(t'.practice, challenge) == RunsOf(t.practice, challenge)
          && SubmissionsOf(t'.submissions, challenge) == SubmissionsOf(t.submissions, challenge))
    && |t.evaluations| <= |t'.evaluations|
    && forall i :: 0 <= i < |t.evaluations| ==> SameEvaluation(t.evaluations[i], t'.evaluations[i])
  }

  lemma PreservedTwice(t: Tables, mid: Tables, t': Tables, challenge: ChallengeId)
    requires Preserved(t, mid, challenge) && Preserved(mid, t', challenge)
    ensures Preserved(t, t', challenge)
  {
    forall i | 0 <= i < |t.evaluations|
      ensures SameEvaluation(t.evaluations[i], t'.evaluations[i])
    {
      assert SameEvaluation(mid.evaluations[i], t'.evaluations[i]);
    }
  }

  lemma RunsSnoc(rows: seq<PracticeRow>, row: PracticeRow, challenge: ChallengeId)
    requires row.challenge != challenge
    ensures RunsOf(rows + [row], challenge) == RunsOf(rows, challenge)
  {
    assert (rows + [row])[..|rows|] == rows;
  }

  lemma SubmissionsSnoc(rows: seq<SubmissionRow>, row: SubmissionRow, challenge: ChallengeId)
    requires row.challenge != challenge
    ensures SubmissionsOf(rows + [row], challenge) == SubmissionsOf(rows, challenge)
  {
    assert (rows + [row])[..|rows|] == rows;
  }

  /** Rows that were added belong to a challenge in public practice. */
  lemma NewRowsPreserve(t: Tables, t': Tables, c: ChallengeId, challenge: ChallengeId)
    requires t' == t.(users := t'.users, practice := t'.practice, submissions := t'.submissions)
    requires c in t.phases && t.phases[c] == PublicPractice
    requires c != challenge ==>
               && RunsOf(t'.practice, challenge) == RunsOf(t.practice, challenge)
               && SubmissionsOf(t'.submissions, challenge) == SubmissionsOf(t.submissions, challenge)
    ensures Preserved(t, t', challenge)
  {
  }

  lemma PracticePreserves(t: Tables, call: Call, challenge: ChallengeId)
    requires call.SavePractice? && Attempted(t, call).Commit?
    ensures Preserved(t, After(t, call), challenge)
  {
    if call.challenge != challenge {
      RunsSnoc(t.practice, PracticeRow(call.runId, call.challenge, call.user), challenge);
    }
    NewRowsPreserve(t, After(t, call), call.challenge, challenge);
  }

  lemma SubmissionPreserves(t: Tables, call: Call, challenge: ChallengeId)
    requires call.SaveSubmission? && Attempted(t, call).Commit?
    ensures Preserved(t, After(t, call), challenge)
  {
    if call.challenge != challenge {
      SubmissionsSnoc(t.submissions, SubmissionRow(call.submissionId, call.challenge, call.user, call.isFinal),
                      challenge);
    }
    NewRowsPreserve(t, After(t, call), call.challenge, challenge);
  }

  lemma SavingPreserves(t: Tables, c: ChallengeId, hash: string, matrix: string)
    requires WithEvaluation(t, c, hash, matrix).Commit?
    ensures var saved := WithEvaluation(t, c, hash, matrix).tables;
            && saved == t.(evaluations := saved.evaluations) && t.evaluations <= saved.evaluations
  {
  }

  lemma CallPreserves(t: Tables, call: Call, challenge: ChallengeId)
    ensures Preserved(t, After(t, call), challenge)
  {
    if Attempted(t, call).Commit? {
      match call
      case SavePractice(_, _, _, _) => PracticePreserves(t, call, challenge);
      case SaveSubmission(_, _, _, _, _) => SubmissionPreserves(t, call, challenge);
      case SaveEvaluation(c, hash, matrix) => SavingPreserves(t, c, hash, matrix);
      case SaveEvaluationAndTransition(c, hash, matrix) => SavingPreserves(t, c, hash, matrix);
      case ReleaseEvaluation(c, now) => MarkingKeepsRows(t.evaluations, c, now);
      case ReleaseChallenge(c, now) => MarkingKeepsRows(t.evaluations, c, now);
      case _ =>
    }
  }

  /** From any reachable point on: phases only move forward, closed challenges keep their practice
      runs and submissions, evaluations keep their matrix, and a release time is written once. */
  lemma {:induction false} HistoryPreserves(t: Tables, calls: seq<Call>, challenge: ChallengeId)
    ensures Preserved(t, AfterAll(t, calls), challenge)
  {
    if calls != [] {
      HistoryPreserves(t, calls[..|calls| - 1], challenge);
      CallPreserves(AfterAll(t, calls[..|calls| - 1]), calls[|calls| - 1], challenge);
      PreservedTwice(t, AfterAll(t, calls[..|calls| - 1]), AfterAll(t, calls), challenge);
    }
  }

  // ----- is a released challenge always evaluated?

  /** The bare transition asks for no evaluation; this is what it would have to find. */
  predicate Guarded(t: Tables, call: Call) {
    match call
    case Transition(challenge, next) =>
      var row := FindEvaluation(t.evaluations, challenge);
      && (next == HiddenEvaluation ==> row.Some?)
      && (next == Released ==> row.Some? && row.value.releasedAt.Some?)
    case _ => true
  }

  /** Past the lock a challenge has an evaluation, and from release on that one is released. */
  predicate Evaluated(t: Tables, challenge: ChallengeId) {
    challenge in t.phases ==>
      var row := FindEvaluation(t.evaluations, challenge);
      && (Rank(t.phases[challenge]) >= Rank(HiddenEvaluation) ==> row.Some?)
      && (Rank(t.phases[challenge]) >= Rank(Released) ==> row.value.releasedAt.Some?)
  }

  lemma SavingKeepsEvaluated(t: Tables, challenge: ChallengeId, hash: string, matrix: string, other: ChallengeId)
    requires Evaluated(t, other) && WithEvaluation(t, challenge, hash, matrix).Commit?
    ensures var saved := WithEvaluation(t, challenge, hash, matrix).tables;
            && Evaluated(saved, other) && saved.phases == t.phases
            && FindEvaluation(saved.evaluations, challenge).Some?
  {
    FindAppended(t.evaluations, EvaluationRow(challenge, hash, matrix, None), other);
    FindAppended(t.evaluations, EvaluationRow(challenge, hash, matrix, None), challenge);
  }

  /** A committed call keeps its challenge's evidence in step with its phase exactly when the
      guard holds, and never disturbs another challenge. */
  lemma EvaluatedExactlyWhenGuarded(t: Tables, call: Call, other: ChallengeId)
    requires Evaluated(t, other) && OutcomeOf(t, call).Done?
    ensures Evaluated(After(t, call), other) <==> other != call.challenge || Guarded(t, call)
  {
    match call
    case SaveEvaluation(challenge, hash, matrix) => SavingKeepsEvaluated(t, challenge, hash, matrix, other);
    case SaveEvaluationAndTransition(challenge, hash, matrix) =>
      SavingKeepsEvaluated(t, challenge, hash, matrix, other);
    case ReleaseEvaluation(challenge, now) => FindMarked(t.evaluations, challenge, now, other);
    case ReleaseChallenge(challenge, now) => FindMarked(t.evaluations, challenge, now, other);
    case _ =>
  }

  /** If bare transitions are only made when the guard holds, every challenge past the lock has its
      evaluation and every released one is marked released. */
  lemma {:induction false} ReleasedIsEvaluated(calls: seq<Call>, challenge: ChallengeId)
    requires forall i :: 0 <= i < |calls| ==> Guarded(AfterAll(EMPTY, calls[..i]), calls[i])
    ensures Evaluated(AfterAll(EMPTY, calls), challenge)
  {
    if calls != [] {
      var front, last := calls[..|calls| - 1], calls[|calls| - 1];
      assert forall i :: 0 <= i < |front| ==> front[..i] == calls[..i];
      ReleasedIsEvaluated(front, challenge);
      assert Guarded(AfterAll(EMPTY, front), last);
      if OutcomeOf(AfterAll(EMPTY, front), last).Done? {
        EvaluatedExactlyWhenGuarded(AfterAll(EMPTY, front), last, challenge);
      }
    }
  }

  /** Without the guard a challenge can be released without ever having been evaluated. */
  lemma BareTransitionsSkipEvaluation(challenge: ChallengeId)
    ensures var t := AfterAll(EMPTY, [EnsureDefault(challenge), Transition(challenge, SubmissionLocked),
                                      Transition(challenge, HiddenEvaluation), Transition(challenge, Released)]);
            && challenge in t.phases && t.phases[challenge] == Released
            && FindEvaluation(t.evaluations, challenge).None?
  {
    var calls := [EnsureDefault(challenge), Transition(challenge, SubmissionLocked),
                  Transition(challenge, HiddenEvaluation), Transition(challenge, Released)];
    assert calls[..3][..2] == calls[..2] && calls[..2][..1] == calls[..1] && calls[..1][..0] == [];
    var t1 := After(EMPTY, calls[0]);
    assert AfterAll(EMPTY, calls[..1]) == t1;
    var t2 := After(t1, calls[1]);
    assert AfterAll(EMPTY, calls[..2]) == t2;
    assert AfterAll(EMPTY, calls[..3]) == After(t2, calls[2]);
  }
}
