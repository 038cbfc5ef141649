/** When a call on the challenge tables commits, what it then adds, and what an error says about
    the tables - read off the rows themselves. */
module ChallengeEffects {
  import opened Wrappers
  import opened ChallengeStore
  import opened ChallengeHistory

  // ----- the rows a user has

  function RunsBy(t: Tables, challenge: ChallengeId, user: UserId): set<int> {
    set i | 0 <= i < |t.practice| && t.practice[i].challenge == challenge && t.practice[i].user == user
  }

  predicate HasFinal(t: Tables, challenge: ChallengeId, user: UserId) {
    exists i :: 0 <= i < |t.submissions| && t.submissions[i].challenge == challenge && t.submissions[i].user == user
                && t.submissions[i].isFinal
  }

  predicate HasEvaluation(t: Tables, challenge: ChallengeId) {
    exists i :: 0 <= i < |t.evaluations| && t.evaluations[i].challenge == challenge
  }

  predicate In(t: Tables, challenge: ChallengeId, phase: Phase) {
    challenge in t.phases && t.phases[challenge] == phase
  }

  lemma {:induction false} RunsAreCounted(t: Tables, challenge: ChallengeId, user: UserId)
    ensures CountRuns(t.practice, challenge, user) == |RunsBy(t, challenge, user)|
    decreases |t.practice|
  {
    if t.practice != [] {
      var n := |t.practice| - 1;
      var before := t.(practice := t.practice[..n]);
      RunsAreCounted(before, challenge, user);
      LastRunCounts(t, before, n, challenge, user);
    }
  }

  lemma LastRunCounts(t: Tables, before: Tables, n: nat, challenge: ChallengeId, user: UserId)
    requires |t.practice| == n + 1 && before == t.(practice := t.practice[..n])
    ensures |RunsBy(t, challenge, user)|
         == |RunsBy(before, challenge, user)|
            + if t.practice[n].challenge == challenge && t.practice[n].user == user then 1 else 0
  {
    var own := if t.practice[n].challenge == challenge && t.practice[n].user == user then {n} else {};
    var all, others := RunsBy(t, challenge, user), RunsBy(before, challenge, user);
    forall i
      ensures i in all <==> i in others || i in own
    {
    }
    assert all == others + own && n !in others;
  }

  lemma {:induction false} FinalIsCounted(t: Tables, challenge: ChallengeId, user: UserId)
    ensures CountFinal(t.submissions, challenge, user) > 0 <==> HasFinal(t, challenge, user)
    decreases |t.submissions|
  {
    if t.submissions != [] {
      var n := |t.submissions| - 1;
      var before := t.(submissions := t.submissions[..n]);
      FinalIsCounted(before, challenge, user);
      if i :| 0 <= i < n && before.submissions[i].challenge == challenge && before.submissions[i].user == user
              && before.submissions[i].isFinal {
        assert t.submissions[i].isFinal;
      }
    }
  }

  lemma EvaluationIsFound(t: Tables, challenge: ChallengeId)
    ensures FindEvaluation(t.evaluations, challenge).Some? <==> HasEvaluation(t, challenge)
  {
    FoundEvaluation(t.evaluations, challenge);
  }

  // ----- exactly when a call commits

  /** No other digest is stored for the challenge, and an unknown one can be stored. */
  predicate CanSave(t: Tables, challenge: ChallengeId, hash: string) {
    && (forall i :: 0 <= i < |t.evaluations| && t.evaluations[i].challenge == challenge ==>
          t.evaluations[i].hash == hash)
    && (HasEvaluation(t, challenge)
        || (challenge in t.phases && forall i :: 0 <= i < |t.evaluations| ==> t.evaluations[i].hash != hash))
  }

  predicate Allowed(t: Tables, call: Call) {
    match call
    case EnsureDefault(_) => true
    case Transition(c, next) => c in t.phases && Rank(next) == Rank(t.phases[c]) + 1
    case SavePractice(runId, c, user, maxRuns) =>
      && In(t, c, PublicPractice) && |RunsBy(t, c, user)| < maxRuns
      && forall i :: 0 <= i < |t.practice| ==> t.practice[i].runId != runId
    case SaveSubmission(submissionId, c, user, isFinal, maxFinal) =>
      && In(t, c, PublicPractice) && (isFinal ==> 0 < maxFinal && !HasFinal(t, c, user))
      && forall i :: 0 <= i < |t.submissions| ==> t.submissions[i].submissionId != submissionId
    case SaveEvaluation(c, hash, _) => CanSave(t, c, hash)
    case SaveEvaluationAndTransition(c, hash, _) => In(t, c, SubmissionLocked) && CanSave(t, c, hash)
    case ReleaseEvaluation(c, _) => HasEvaluation(t, c)
    case ReleaseChallenge(c, _) => In(t, c, HiddenEvaluation) && HasEvaluation(t, c)
  }

  lemma NextHasNextRank(phase: Phase, next: Phase)
    ensures Successor(phase) == Some(next) <==> Rank(next) == Rank(phase) + 1
  {
  }

  lemma SavesExactly(t: Tables, challenge: ChallengeId, hash: string, matrix: string)
    requires OneEvaluationEach(t.evaluations)
    ensures WithEvaluation(t, challenge, hash, matrix).Commit? <==> CanSave(t, challenge, hash)
  {
    FoundEvaluation(t.evaluations, challenge);
    EvaluationIsFound(t, challenge);
    var found := FindEvaluation(t.evaluations, challenge);
    if found.Some? {
      var i :| 0 <= i < |t.evaluations| && t.evaluations[i] == found.value;
      assert forall j :: 0 <= j < |t.evaluations| && t.evaluations[j].challenge == challenge ==> j == i;
    }
  }

  /** In every reachable state a call commits exactly when the rows there allow it. */
  lemma CommitsExactly(calls: seq<Call>, call: Call)
    ensures var t := AfterAll(EMPTY, calls); OutcomeOf(t, call).Done? <==> Allowed(t, call)
  {
    var t := AfterAll(EMPTY, calls);
    AtMostOneEvaluation(calls);
    EvaluationIsFound(t, call.challenge);
    match call
    case Transition(c, next) =>
      if c in t.phases { NextHasNextRank(t.phases[c], next); }
    case SavePractice(_, c, user, _) => RunsAreCounted(t, c, user);
    case SaveSubmission(_, c, user, _, maxFinal) => FinalIsCounted(t, c, user);
    case SaveEvaluation(c, hash, matrix) => SavesExactly(t, c, hash, matrix);
    case SaveEvaluationAndTransition(c, hash, matrix) => SavesExactly(t, c, hash, matrix);
    case _ =>
  }

  // ----- what a committed call adds

  predicate Advances(call: Call) {
    call.Transition? || call.SaveEvaluationAndTransition? || call.ReleaseChallenge?
  }

  /** Phases move for the call's own challenge only: one on, to the first, or not at all. */
  predicate PhaseMoves(t: Tables, t': Tables, call: Call) {
    var c := call.challenge;
    && t'.phases.Keys == t.phases.Keys + (if call.EnsureDefault? then {c} else {})
    && (forall other :: other in t.phases && other != c ==> t'.phases[other] == t.phases[other])
    && (c in t.phases ==> Rank(t'.phases[c]) == Rank(t.phases[c]) + if Advances(call) then 1 else 0)
    && (c in t'.phases && c !in t.phases ==> t'.phases[c] == PublicPractice)
  }

  /** The log gains the move made; a challenge without any row gets the one for its opening. */
  predicate LogGrows(t: Tables, t': Tables, call: Call) {
    var c := call.challenge;
    t'.phaseLog == t.phaseLog + if Advances(call) && c in t.phases && c in t'.phases
                                then [PhaseRow(c, t.phases[c], t'.phases[c])]
                                else if call.EnsureDefault? && (forall i :: 0 <= i < |t.phaseLog| ==>
                                                                  t.phaseLog[i].challenge != c)
                                then [PhaseRow(c, Draft, PublicPractice)] else []
  }

  /** Practice runs, submissions and users gain what was saved, nothing else. */
  predicate RowsGrow(t: Tables, t': Tables, call: Call) {
    && t'.practice == t.practice + (if call.SavePractice?
                                    then [PracticeRow(call.runId, call.challenge, call.user)] else [])
    && t'.submissions == t.submissions + (if call.SaveSubmission?
                                          then [SubmissionRow(call.submissionId, call.challenge, call.user,
                                                              call.isFinal)] else [])
    && t'.users == t.users + (if call.SavePractice? || call.SaveSubmission? then {call.user} else {})
  }

  /** Saving adds the challenge's one evaluation, unreleased; releasing dates it once. */
  predicate EvaluationsGrow(t: Tables, t': Tables, call: Call) {
    && t'.evaluations[..Min(|t.evaluations|, |t'.evaluations|)] == Dated(t, call)
    && t'.evaluations[Min(|t.evaluations|, |t'.evaluations|)..]
       == if (call.SaveEvaluation? || call.SaveEvaluationAndTransition?) && !HasEvaluation(t, call.challenge)
          then [EvaluationRow(call.challenge, call.hash, call.matrix, None)] else []
  }

  function Min(a: int, b: int): int { if a < b then a else b }

  function Dated(t: Tables, call: Call): seq<EvaluationRow> {
    seq(|t.evaluations|, i requires 0 <= i < |t.evaluations| =>
      var row := t.evaluations[i];
      if (call.ReleaseEvaluation? || call.ReleaseChallenge?) && row.challenge == call.challenge
      then row.(releasedAt := Some(row.releasedAt.GetOr(call.now))) else row)
  }

  lemma EvaluationsAfter(t: Tables, call: Call)
    requires OutcomeOf(t, call).Done?
    ensures EvaluationsGrow(t, After(t, call), call)
  {
    EvaluationIsFound(t, call.challenge);
    if call.ReleaseEvaluation? || call.ReleaseChallenge? {
      MarkingKeepsRows(t.evaluations, call.challenge, call.now);
    }
  }

  lemma PhasesAfter(t: Tables, call: Call)
    requires OutcomeOf(t, call).Done?
    ensures PhaseMoves(t, After(t, call), call)
  {
    if call.Transition? { NextHasNextRank(t.phases[call.challenge], call.next); }
  }

  lemma LogAfter(t: Tables, call: Call)
    requires OutcomeOf(t, call).Done?
    ensures LogGrows(t, After(t, call), call)
  {
    if Logged(t.phaseLog, call.challenge) {
      var i :| 0 <= i < |t.phaseLog| && t.phaseLog[i].challenge == call.challenge;
    }
  }

  lemma RowsAfter(t: Tables, call: Call)
    requires OutcomeOf(t, call).Done?
    ensures RowsGrow(t, After(t, call), call)
  {
  }

  /** A committed call changes its own challenge's phase, log and rows in exactly this way and
      everything else not at all; a refused one changes nothing. */
  lemma CommitAdds(t: Tables, call: Call)
    ensures var t' := After(t, call);
            if OutcomeOf(t, call).Done?
            then
              PhaseMoves(t, t', call) && LogGrows(t, t', call) && RowsGrow(t, t', call) && EvaluationsGrow(t, t', call)
            else t' == t
  {
    if OutcomeOf(t, call).Done? {
      PhasesAfter(t, call);
      LogAfter(t, call);
      RowsAfter(t, call);
      EvaluationsAfter(t, call);
    }
  }

  // ----- an error tells what is wrong

  predicate Explains(t: Tables, call: Call, error: Error) {
    var c := call.challenge;
    match error
    case UnknownChallenge => c !in t.phases || (call.ReleaseEvaluation? && !HasEvaluation(t, c))
    case IllegalTransition => call.Transition? && c in t.phases && Rank(call.next) != Rank(t.phases[c]) + 1
    case WrongPhase =>
      && c in t.phases
      && t.phases[c] != (match call
                         case SaveEvaluationAndTransition(_, _, _) => SubmissionLocked
                         case ReleaseChallenge(_, _) => HiddenEvaluation
                         case _ => PublicPractice)
    case QuotaExhausted =>
      || (call.SavePractice? && |RunsBy(t, c, call.user)| >= call.maxRuns)
      || (call.SaveSubmission? && call.isFinal && (call.maxFinal == 0 || HasFinal(t, c, call.user)))
    case DuplicateKey =>
      || (call.SavePractice? && RunIdTaken(t.practice, call.runId))
      || (call.SaveSubmission? && (SubmissionIdTaken(t.submissions, call.submissionId)
                                   || (call.isFinal && HasFinal(t, c, call.user))))
      || ((call.SaveEvaluation? || call.SaveEvaluationAndTransition?) && HashTaken(t.evaluations, call.hash))
    case DifferentEvaluation =>
      && (call.SaveEvaluation? || call.SaveEvaluationAndTransition?)
      && exists i :: 0 <= i < |t.evaluations| && t.evaluations[i].challenge == c && t.evaluations[i].hash != call.hash
    case MissingEvaluation => call.ReleaseChallenge? && !HasEvaluation(t, c)
  }

  /** Whatever a refused call raises names something that is wrong with it. */
  lemma ErrorsAreCauses(t: Tables, call: Call)
    requires OutcomeOf(t, call).Raised?
    ensures Explains(t, call, OutcomeOf(t, call).error)
  {
    EvaluationIsFound(t, call.challenge);
    FoundEvaluation(t.evaluations, call.challenge);
    if call.Transition? && call.challenge in t.phases { NextHasNextRank(t.phases[call.challenge], call.next); }
    if call.SavePractice? { RunsAreCounted(t, call.challenge, call.user); }
    if call.SaveSubmission? { FinalIsCounted(t, call.challenge, call.user); }
  }
}
