/** Leased jobs: claiming, finishing and finding the next claimable job, with times that every
    call reads from a clock that never runs backwards. */
module JobLease {
  import opened Wrappers

  type JobId = string

  datatype Status = Queued | Running | Completed | Failed

  /** `position` is the job's place in the creation order. */
  datatype Job = Job(status: Status, attempt: nat, leaseExpires: Option<nat>, position: nat)

  /** `claim` is history: the index of the call that granted the finishing worker its claim. The
      store never sees it. */
  datatype Call =
    | Create(id: JobId)
    | Claim(id: JobId, now: nat, leaseExpires: nat)
    | Finish(id: JobId, completed: bool, now: nat, claim: nat)

  type Jobs = map<JobId, Job>

  predicate Claimable(job: Job, now: nat) {
    || job.status == Queued || job.status == Failed
    || (job.status == Running && job.leaseExpires.Some? && job.leaseExpires.value <= now)
  }

  /** Whether the call does something; the others raise or return nothing. */
  predicate Granted(jobs: Jobs, call: Call) {
    match call
    case Create(id) => id !in jobs
    case Claim(id, now, _) => id in jobs && Claimable(jobs[id], now)
    case Finish(id, _, _, _) => id in jobs && jobs[id].status == Running
  }

  function After(jobs: Jobs, call: Call): Jobs {
    if !Granted(jobs, call) then jobs
    else
      match call
      case Create(id) => jobs[id := Job(Queued, 0, None, |jobs|)]
      case Claim(id, _, leaseExpires) =>
        jobs[id := jobs[id].(status := Running, attempt := jobs[id].attempt + 1, leaseExpires := Some(leaseExpires))]
      case Finish(id, completed, _, _) =>
        jobs[id := jobs[id].(status := if completed then Completed else Failed, leaseExpires := None)]
  }

  function AfterAll(calls: seq<Call>): Jobs {
    if calls == [] then map[] else After(AfterAll(calls[..|calls| - 1]), calls[|calls| - 1])
  }

  // ----- the table

  class JobTable {
    var jobs: Jobs

    constructor ()
      ensures jobs == AfterAll([])
    {
      jobs := map[];
    }

    method CreateJob(id: JobId) returns (ok: bool)
      modifies this
      ensures ok == Granted(old(jobs), Create(id)) && jobs == After(old(jobs), Create(id))
    {
      ok := id !in jobs;
      if ok { jobs := jobs[id := Job(Queued, 0, None, |jobs|)]; }
    }

    /** Claims queued, failed or expired work; `None` when the job is taken or done. */
    method ClaimJob(id: JobId, now: nat, leaseExpires: nat) returns (claimed: Option<Job>)
      modifies this
      ensures jobs == After(old(jobs), Claim(id, now, leaseExpires))
      ensures claimed.Some? <==> Granted(old(jobs), Claim(id, now, leaseExpires))
      ensures claimed.Some? ==> id in jobs && claimed.value == jobs[id]
    {
      if id !in jobs { return None; }
      var job := jobs[id];
      var open := job.status == Queued || job.status == Failed;
      var expired := job.status == Running && job.leaseExpires.Some? && job.leaseExpires.value <= now;
      if !open && !expired { return None; }
      job := job.(status := Running, attempt := job.attempt + 1, leaseExpires := Some(leaseExpires));
      jobs := jobs[id := job];
      claimed := Some(job);
    }

    method FinishJob(id: JobId, completed: bool, now: nat, ghost claim: nat) returns (ok: bool)
      modifies this
      ensures ok == Granted(old(jobs), Finish(id, completed, now, claim))
      ensures jobs == After(old(jobs), Finish(id, completed, now, claim))
    {
      if id !in jobs { return false; }
      var job := jobs[id];
      ok := job.status == Running;
      if ok {
        jobs := jobs[id := job.(status := if completed then Completed else Failed, leaseExpires := None)];
      }
    }

    /** The earliest created job that is queued or whose lease has run out; failed jobs wait to be
        claimed by name. */
    method NextClaimable(ids: seq<JobId>, now: nat) returns (next: Option<JobId>)
      requires forall id :: id in ids <==> id in jobs
      ensures next.Some? ==>
                && next.value in jobs && jobs[next.value].status != Failed && Claimable(jobs[next.value], now)
                && forall id :: id in jobs && jobs[id].status != Failed && Claimable(jobs[id], now) ==>
                     jobs[next.value].position <= jobs[id].position
      ensures next.None? ==> forall id :: id in jobs && jobs[id].status != Failed ==> !Claimable(jobs[id], now)
    {
      next := None;
      for i := 0 to |ids|
        invariant next.Some? ==>
                    && next.value in jobs && jobs[next.value].status != Failed && Claimable(jobs[next.value], now)
                    && forall j :: 0 <= j < i && jobs[ids[j]].status != Failed && Claimable(jobs[ids[j]], now) ==>
                         jobs[next.value].position <= jobs[ids[j]].position
        invariant next.None? ==>
                    forall j :: 0 <= j < i && jobs[ids[j]].status != Failed ==> !Claimable(jobs[ids[j]], now)
      {
        assert ids[i] in ids;
        var job := jobs[ids[i]];
        if job.status != Failed && Claimable(job, now)
           && (next.None? || job.position < jobs[next.value].position) {
          next := Some(ids[i]);
        }
      }
    }
  }

  // ----- histories

  /** The state just before call `i`. */
  function Prior(calls: seq<Call>, i: nat): Jobs
    requires i <= |calls|
  {
    AfterAll(calls[..i])
  }

  predicate GrantedAt(calls: seq<Call>, i: nat)
    requires i < |calls|
  {
    Granted(Prior(calls, i), calls[i])
  }

  predicate ClaimsAt(calls: seq<Call>, i: nat, id: JobId)
    requires i < |calls|
  {
    calls[i].Claim? && calls[i].id == id && GrantedAt(calls, i)
  }

  /** The clock never runs backwards. */
  predicate Timely(calls: seq<Call>) {
    forall i, j :: 0 <= i < j < |calls| && !calls[i].Create? && !calls[j].Create? ==> calls[i].now <= calls[j].now
  }

  lemma PriorNext(calls: seq<Call>, i: nat)
    requires i < |calls|
    ensures Prior(calls, i + 1) == After(Prior(calls, i), calls[i])
  {
    assert calls[..i + 1][..i] == calls[..i];
  }

  function ClaimsOf(calls: seq<Call>, id: JobId, n: nat): nat
    requires n <= |calls|
  {
    if n == 0 then 0 else ClaimsOf(calls, id, n - 1) + if ClaimsAt(calls, n - 1, id) then 1 else 0
  }

  /** A job's attempt number is the number of times it was handed out. */
  lemma {:induction false} AttemptCountsClaims(calls: seq<Call>, id: JobId, n: nat)
    requires n <= |calls|
    ensures id in Prior(calls, n) ==> Prior(calls, n)[id].attempt == ClaimsOf(calls, id, n)
    ensures id !in Prior(calls, n) ==> ClaimsOf(calls, id, n) == 0
  {
    if n != 0 {
      AttemptCountsClaims(calls, id, n - 1);
      PriorNext(calls, n - 1);
    }
  }

  /** Once completed, a job stays exactly as it is. */
  lemma {:induction false} CompletedIsForever(calls: seq<Call>, id: JobId, n: nat, later: nat)
    requires n <= later <= |calls|
    requires id in Prior(calls, n) && Prior(calls, n)[id].status == Completed
    ensures id in Prior(calls, later) && Prior(calls, later)[id] == Prior(calls, n)[id]
  {
    if n < later {
      CompletedIsForever(calls, id, n, later - 1);
      PriorNext(calls, later - 1);
    }
  }

  /** A failure recorded for the job between two calls. */
  predicate FailsAt(calls: seq<Call>, k: nat, id: JobId)
    requires k < |calls|
  {
    calls[k].Finish? && calls[k].id == id && !calls[k].completed && GrantedAt(calls, k)
  }

  /** Whether the claim made at call `i` has been given back, or its lease has run out by `now`. */
  predicate LeaseOver(calls: seq<Call>, i: nat, n: nat, id: JobId, now: nat)
    requires i < n <= |calls| && calls[i].Claim?
  {
    calls[i].leaseExpires <= now || exists k :: i < k < n && FailsAt(calls, k, id)
  }

  /** While nothing of the kind happened, the job is running under that very lease, or completed. */
  predicate StillHeld(calls: seq<Call>, i: nat, n: nat, id: JobId)
    requires i < n <= |calls| && calls[i].Claim?
  {
    var jobs := Prior(calls, n);
    && id in jobs
    && (jobs[id].status == Completed
        || (jobs[id].status == Running && jobs[id].leaseExpires == Some(calls[i].leaseExpires)))
  }

  lemma {:induction false} HeldUntilOver(calls: seq<Call>, id: JobId, i: nat, n: nat)
    requires Timely(calls) && i < n <= |calls| && ClaimsAt(calls, i, id)
    requires forall j :: i < j < n && calls[j].Claim? ==> !LeaseOver(calls, i, j, id, calls[j].now)
    requires forall k :: i < k < n ==> !FailsAt(calls, k, id)
    ensures StillHeld(calls, i, n, id)
  {
    PriorNext(calls, n - 1);
    if n > i + 1 {
      var call := calls[n - 1];
      HeldUntilOver(calls, id, i, n - 1);
      assert call.Claim? ==> !LeaseOver(calls, i, n - 1, id, call.now);
      assert !FailsAt(calls, n - 1, id);
    }
  }

  lemma OverByThen(calls: seq<Call>, id: JobId, i: nat, j: nat, n: nat, now: nat)
    requires i < j < n <= |calls| && calls[i].Claim? && calls[j].Claim? && calls[j].now <= now
    requires LeaseOver(calls, i, j, id, calls[j].now)
    ensures LeaseOver(calls, i, n, id, now)
  {
  }

  /** Any two grants of one job are separated by a recorded failure or by the first lease running
      out before the second. */
  lemma ClaimsAreSeparated(calls: seq<Call>, id: JobId, i: nat, n: nat)
    requires Timely(calls) && i < n < |calls| && ClaimsAt(calls, i, id) && ClaimsAt(calls, n, id)
    ensures LeaseOver(calls, i, n, id, calls[n].now)
  {
    if j :| i < j < n && calls[j].Claim? && LeaseOver(calls, i, j, id, calls[j].now) {
      OverByThen(calls, id, i, j, n, calls[n].now);
    } else if k :| i < k < n && FailsAt(calls, k, id) {
    } else {
      HeldUntilOver(calls, id, i, n);
    }
  }

  // ----- exactly when a call is granted, told by the calls before it

  predicate CreatedBefore(calls: seq<Call>, id: JobId, n: nat)
    requires n <= |calls|
  {
    exists i :: 0 <= i < n && calls[i] == Create(id)
  }

  /** The job was handed out or given back by call `i`. */
  predicate MovesAt(calls: seq<Call>, i: nat, id: JobId)
    requires i < |calls|
  {
    !calls[i].Create? && calls[i].id == id && GrantedAt(calls, i)
  }

  /** The last call before `n` that handed the job out or gave it back. */
  function LastMove(calls: seq<Call>, id: JobId, n: nat): (last: Option<nat>)
    requires n <= |calls|
    ensures last.None? ==> forall i :: 0 <= i < n ==> !MovesAt(calls, i, id)
    ensures last.Some? ==> last.value < n && MovesAt(calls, last.value, id)
                           && forall i :: last.value < i < n ==> !MovesAt(calls, i, id)
  {
    if n == 0 then None else if MovesAt(calls, n - 1, id) then Some(n - 1) else LastMove(calls, id, n - 1)
  }

  /** Who holds a job is decided by its last move. */
  predicate Explained(job: Job, calls: seq<Call>, last: Option<nat>) {
    if last.None? then job.status == Queued
    else
      last.value < |calls|
      && match calls[last.value]
         case Create(_) => false
         case Claim(_, _, leaseExpires) => job.status == Running && job.leaseExpires == Some(leaseExpires)
         case Finish(_, completed, _, _) =>
           job.status == (if completed then Completed else Failed) && job.leaseExpires.None?
  }

  lemma {:induction false} ExistsOnceCreated(calls: seq<Call>, id: JobId, n: nat)
    requires n <= |calls|
    ensures id in Prior(calls, n) <==> CreatedBefore(calls, id, n)
  {
    if n != 0 {
      ExistsOnceCreated(calls, id, n - 1);
      PriorNext(calls, n - 1);
      if CreatedBefore(calls, id, n - 1) {
        var i :| 0 <= i < n - 1 && calls[i] == Create(id);
        assert CreatedBefore(calls, id, n);
      }
      if calls[n - 1] == Create(id) { assert CreatedBefore(calls, id, n); }
    }
  }

  lemma {:induction false} StatusIsLastMove(calls: seq<Call>, id: JobId, n: nat)
    requires n <= |calls|
    ensures id in Prior(calls, n) ==> Explained(Prior(calls, n)[id], calls, LastMove(calls, id, n))
    ensures id !in Prior(calls, n) ==> LastMove(calls, id, n).None?
  {
    if n != 0 {
      StatusIsLastMove(calls, id, n - 1);
      PriorNext(calls, n - 1);
    }
  }

  /** Nobody has the job: it never was handed out, its last lease has run out, or its last holder
      reported a failure. */
  predicate Free(calls: seq<Call>, last: Option<nat>, now: nat)
    requires last.Some? ==> last.value < |calls|
  {
    || last.None?
    || (calls[last.value].Claim? && calls[last.value].leaseExpires <= now)
    || (calls[last.value].Finish? && !calls[last.value].completed)
  }

  /** A job is created once; it is handed out exactly when it exists and nobody has it; and it can
      be finished exactly when its last move handed it out. */
  lemma GrantedExactly(calls: seq<Call>, n: nat)
    requires n < |calls|
    ensures calls[n].Create? ==> (GrantedAt(calls, n) <==> !CreatedBefore(calls, calls[n].id, n))
    ensures calls[n].Claim? ==>
              (GrantedAt(calls, n) <==> CreatedBefore(calls, calls[n].id, n)
                                        && Free(calls, LastMove(calls, calls[n].id, n), calls[n].now))
    ensures var last := LastMove(calls, calls[n].id, n);
            calls[n].Finish? ==> (GrantedAt(calls, n) <==> last.Some? && calls[last.value].Claim?)
  {
    ExistsOnceCreated(calls, calls[n].id, n);
    StatusIsLastMove(calls, calls[n].id, n);
  }

  lemma {:induction false} PlacesAreTaken(calls: seq<Call>, n: nat)
    requires n <= |calls|
    ensures forall id :: id in Prior(calls, n) ==> Prior(calls, n)[id].position < |Prior(calls, n)|
  {
    if n != 0 {
      PlacesAreTaken(calls, n - 1);
      PriorNext(calls, n - 1);
    }
  }

  /** Positions follow the order of creation: a job there before another was created is before it. */
  lemma {:induction false} PlacesFollowCreation(calls: seq<Call>, first: JobId, second: JobId, i: nat, n: nat)
    requires i < n <= |calls| && first in Prior(calls, i) && calls[i] == Create(second) && GrantedAt(calls, i)
    ensures first in Prior(calls, n) && second in Prior(calls, n)
    ensures Prior(calls, n)[first].position < Prior(calls, n)[second].position
  {
    PriorNext(calls, n - 1);
    if n == i + 1 {
      PlacesAreTaken(calls, i);
    } else {
      PlacesFollowCreation(calls, first, second, i, n - 1);
    }
  }

  /** Whatever the lookup would return can be claimed at that time or later, if no other call
      comes in between. */
  lemma FoundCanBeClaimed(jobs: Jobs, id: JobId, now: nat, later: nat, leaseExpires: nat)
    requires id in jobs && Claimable(jobs[id], now) && now <= later
    ensures var jobs' := After(jobs, Claim(id, later, leaseExpires));
            && jobs'[id].status == Running && jobs'[id].attempt == jobs[id].attempt + 1
            && jobs'[id].leaseExpires == Some(leaseExpires)
  {
  }

  // ----- does a finish end the lease it comes from?

  /** Every finish comes from an earlier granted claim of its job, and each claim is finished at
      most once. */
  predicate Sourced(calls: seq<Call>) {
    && (forall k :: 0 <= k < |calls| && calls[k].Finish? ==>
          calls[k].claim < k && ClaimsAt(calls, calls[k].claim, calls[k].id))
    && (forall j, k :: 0 <= j < k < |calls| && calls[j].Finish? && calls[k].Finish? ==>
          calls[j].claim != calls[k].claim)
  }

  /** Claims are made for at least `lease`, and a worker finishes before `allowance` has passed
      since its lease ran out. */
  predicate Punctual(calls: seq<Call>, lease: nat, allowance: nat) {
    && (forall i :: 0 <= i < |calls| && calls[i].Claim? ==> calls[i].now + lease <= calls[i].leaseExpires)
    && (forall k :: 0 <= k < |calls| && calls[k].Finish? && calls[k].claim < k && calls[calls[k].claim].Claim? ==>
          calls[k].now < calls[calls[k].claim].leaseExpires + allowance)
  }

  /** The job has not been handed out again between the finish's claim and the finish. */
  predicate EndsOwnLease(calls: seq<Call>, k: nat)
    requires k < |calls| && calls[k].Finish?
  {
    forall j :: calls[k].claim < j < k ==> !ClaimsAt(calls, j, calls[k].id)
  }

  predicate AllEndOwn(calls: seq<Call>) {
    forall k :: 0 <= k < |calls| && calls[k].Finish? && GrantedAt(calls, k) ==> EndsOwnLease(calls, k)
  }

  /** A second grant `j` before the finish at `k` would need an expiry, which is too late, or a
      failure recorded by some other claim - which then did not end its own lease, or was itself
      granted between the two. */
  lemma {:induction false} NotHandedOutAgain(calls: seq<Call>, lease: nat, k: nat, j: nat)
    requires Timely(calls) && Sourced(calls) && Punctual(calls, lease, 0)
    requires k < |calls| && calls[k].Finish? && calls[k].claim < j < k
    ensures !ClaimsAt(calls, j, calls[k].id)
    decreases k, j
  {
    var i, id := calls[k].claim, calls[k].id;
    if ClaimsAt(calls, j, id) {
      ClaimsAreSeparated(calls, id, i, j);
      assert calls[j].now <= calls[k].now < calls[i].leaseExpires;
      var m :| i < m < j && FailsAt(calls, m, id);
      var other := calls[m].claim;
      assert other != i && ClaimsAt(calls, other, id);
      if other < i {
        NotHandedOutAgain(calls, lease, m, i);
      } else {
        NotHandedOutAgain(calls, lease, k, other);
      }
    }
  }

  /** Finishing looks at the status only, so a finish that comes just as its lease runs out can end
      the lease of the next holder: while that one has `lease` left to go the job is failed, and a
      third worker is let in. */
  lemma LateFinishEndsNewLease(id: JobId, start: nat, lease: nat)
    requires 0 < lease
    ensures var calls := LateHistory(id, start, lease);
            && Timely(calls) && Sourced(calls) && Punctual(calls, lease, 1)
            && GrantedAt(calls, 3) && !EndsOwnLease(calls, 3)
            && ClaimsAt(calls, 4, id) && calls[4].now < calls[2].leaseExpires
  {
    var calls := LateHistory(id, start, lease);
    assert calls[..0] == [];
    PriorNext(calls, 0);
    PriorNext(calls, 1);
    PriorNext(calls, 2);
    PriorNext(calls, 3);
    assert ClaimsAt(calls, 1, id) && ClaimsAt(calls, 2, id);
  }

  /** The first worker's claim is call 1, its finish call 3; call 2 is the second worker's claim. */
  function LateHistory(id: JobId, start: nat, lease: nat): seq<Call> {
    var expiry := start + lease;
    [Create(id), Claim(id, start, expiry), Claim(id, expiry, expiry + lease), Finish(id, false, expiry, 1),
     Claim(id, expiry, expiry + lease)]
  }

  lemma PunctualFinishesAreOwn(calls: seq<Call>, lease: nat)
    requires Timely(calls) && Sourced(calls) && Punctual(calls, lease, 0)
    ensures AllEndOwn(calls)
  {
    forall k: nat, j: nat | k < |calls| && calls[k].Finish? && calls[k].claim < j < k
      ensures !ClaimsAt(calls, j, calls[k].id)
    {
      NotHandedOutAgain(calls, lease, k, j);
    }
  }

  predicate Admitted(calls: seq<Call>, lease: nat, allowance: nat) {
    Timely(calls) && Sourced(calls) && Punctual(calls, lease, allowance)
  }

  /** Over every history of punctual workers. */
  ghost predicate FinishesAreOwn(lease: nat, allowance: nat) {
    forall calls :: Admitted(calls, lease, allowance) ==> AllEndOwn(calls)
  }

  /** Whatever the length of the leases: every granted finish ends its own claim's lease, in all
      histories, if and only if no worker finishes at or after its lease's expiry. */
  lemma FinishesAreOwnExactly(lease: nat, allowance: nat)
    requires 0 < lease
    ensures FinishesAreOwn(lease, allowance) <==> allowance == 0
  {
    if allowance == 0 {
      forall calls | Admitted(calls, lease, 0)
        ensures AllEndOwn(calls)
      {
        PunctualFinishesAreOwn(calls, lease);
      }
    } else {
      LateHistoryBreaks(lease, allowance);
      assert Admitted(LateHistory("", 0, lease), lease, allowance);
    }
  }

  lemma LateHistoryBreaks(lease: nat, allowance: nat)
    requires 0 < lease && 0 < allowance
    ensures Admitted(LateHistory("", 0, lease), lease, allowance) && !AllEndOwn(LateHistory("", 0, lease))
  {
    LateFinishEndsNewLease("", 0, lease);
    assert LateHistory("", 0, lease)[3].Finish?;
  }
}
