/** Bounded overtaking: once a job has waited past the starvation limit, priority no longer matters. */
module JobFairness {
  import opened Options
  import opened Approvals
  import opened JobTable
  import opened JobSafety
  import opened JobRuns

  /** The remaining attempts of the other unfinished jobs of the queue ordered no later than job `i`. */
  function AheadWeight(target: Identity, i: JobId): (nat, Job) -> int {
    (k: nat, job: Job) => AttemptsAhead(target, i, k, job)
  }

  function AttemptsAhead(target: Identity, i: JobId, k: JobId, job: Job): int {
    if k != i && !job.state.Terminal() && InFront(job, target) then job.maxAttempts - job.attempts else 0
  }

  predicate InFront(job: Job, target: Identity) {
    job.queue == target.queue && TimesNotLater(job.scheduledAt, job.createdAt, target.scheduledAt, target.createdAt)
  }

  function Ahead(s: Store, i: JobId): int
    requires i < |s.jobs|
  {
    Sum(s.jobs, AheadWeight(IdentityOf(s.jobs[i]), i))
  }

  /** Nobody cancels job `i`, closes its tenant, or backdates another job to before it. */
  ghost predicate LeavesAlone(s: Store, a: Action, t: Store, i: JobId)
    requires i < |s.jobs|
  {
    && a != Cancel(i)
    && TenantOpen(t, s.jobs[i])
    && (a.EnqueueJob? && a.request.scheduledAt.Some? ==> a.request.scheduledAt.value > s.jobs[i].scheduledAt)
  }

  predicate ClaimsFrom(a: Action, queue: string) {
    a.ClaimJob? && a.queue == queue
  }

  predicate Takes(a: Action, i: JobId) {
    a.ClaimJob? && a.pick == Some(i)
  }

  lemma AgedJobUntouched(s: Store, a: Action, t: Store, i: JobId)
    requires Inv(s) && Next(s, a, t) && i < |s.jobs| && Aged(s, s.jobs[i], s.jobs[i].queue)
    requires LeavesAlone(s, a, t, i) && !Takes(a, i)
    ensures i < |t.jobs| && t.jobs[i] == s.jobs[i] && Aged(t, t.jobs[i], t.jobs[i].queue)
  {
    assert RowOk(s.jobs[i]);
    if a.ClaimJob? {
      assert Reaped(s).jobs[i] == ReapRow(s.now, s.jobs[i]);
    }
  }

  /** A claim of the aged job's queue never comes back empty and takes a job ordered no later. */
  lemma ClaimRespectsAge(s: Store, a: Action, t: Store, i: JobId)
    requires Inv(s) && Next(s, a, t) && i < |s.jobs| && Aged(s, s.jobs[i], s.jobs[i].queue)
    requires ClaimsFrom(a, s.jobs[i].queue)
    ensures a.pick.Some? && a.pick.value < |s.jobs|
    ensures NotLater(s.jobs[a.pick.value], s.jobs[i])
    ensures Aged(s, s.jobs[a.pick.value], s.jobs[i].queue)
  {
    var r := Reaped(s);
    assert RowOk(s.jobs[i]);
    assert r.jobs[i] == ReapRow(s.now, s.jobs[i]) == s.jobs[i];
    assert Aged(r, r.jobs[i], r.jobs[i].queue);
    var p := a.pick.value;
    assert r.jobs[p] == ReapRow(s.now, s.jobs[p]) && RowOk(s.jobs[p]);
  }

  /** Reaping, claiming elsewhere and lease calls give no job more attempts and bring none back. */
  ghost predicate NoMoreToDo(a: Job, b: Job) {
    && IdentityOf(b) == IdentityOf(a) && a.attempts <= b.attempts && a.attempts <= a.maxAttempts
    && (a.state.Terminal() ==> b.state.Terminal())
  }

  lemma AheadInPlace(s: Store, t: Store, i: JobId)
    requires i < |s.jobs| == |t.jobs| && IdentityOf(t.jobs[i]) == IdentityOf(s.jobs[i])
    requires forall k :: 0 <= k < |s.jobs| ==> NoMoreToDo(s.jobs[k], t.jobs[k])
    ensures Ahead(t, i) <= Ahead(s, i)
  {
    var target := IdentityOf(s.jobs[i]);
    forall k | 0 <= k < |s.jobs|
      ensures AheadWeight(target, i)(k, t.jobs[k]) <= AheadWeight(target, i)(k, s.jobs[k])
    {
      assert NoMoreToDo(s.jobs[k], t.jobs[k]);
      assert AttemptsAhead(target, i, k, t.jobs[k]) <= AttemptsAhead(target, i, k, s.jobs[k]);
    }
    SumBelow(t.jobs, s.jobs, AheadWeight(target, i), AheadWeight(target, i));
  }

  lemma AheadAfterClaim(s: Store, i: JobId, p: JobId, worker: Worker, token: Token)
    requires i < |s.jobs| && p < |s.jobs| && p != i && !s.jobs[p].state.Terminal()
    ensures Ahead(Claimed(s, p, worker, token), i)
            == Ahead(s, i) - (if s.jobs[p].queue == s.jobs[i].queue && NotLater(s.jobs[p], s.jobs[i]) then 1 else 0)
  {
    var t := Claimed(s, p, worker, token);
    var target := IdentityOf(s.jobs[i]);
    SumUpdate(s.jobs, p, t.jobs[p], AheadWeight(target, i));
    assert IdentityOf(t.jobs[i]) == target;
    assert AttemptsAhead(target, i, p, t.jobs[p]) == AttemptsAhead(target, i, p, s.jobs[p])
                                                     - if InFront(s.jobs[p], target) then 1 else 0;
  }

  lemma AheadAfterEnqueue(s: Store, job: Job, i: JobId)
    requires i < |s.jobs| && s.jobs[i].scheduledAt < job.scheduledAt
    ensures Ahead(s.(jobs := s.jobs + [job]), i) == Ahead(s, i)
  {
    var target := IdentityOf(s.jobs[i]);
    assert IdentityOf((s.jobs + [job])[i]) == target;
    SumAppend(s.jobs, job, AheadWeight(target, i));
    assert AttemptsAhead(target, i, |s.jobs|, job) == 0;
  }

  lemma AheadClaim(s: Store, a: Action, t: Store, i: JobId)
    requires Inv(s) && Next(s, a, t) && i < |s.jobs| && Aged(s, s.jobs[i], s.jobs[i].queue)
    requires a.ClaimJob? && !Takes(a, i)
    ensures i < |t.jobs|
    ensures Ahead(t, i) <= Ahead(s, i) - if ClaimsFrom(a, s.jobs[i].queue) then 1 else 0
  {
    var r := Reaped(s);
    forall k | 0 <= k < |s.jobs| ensures NoMoreToDo(s.jobs[k], r.jobs[k]) {
      assert r.jobs[k] == ReapRow(s.now, s.jobs[k]) && RowOk(s.jobs[k]);
    }
    AheadInPlace(s, r, i);
    if a.queue == s.jobs[i].queue {
      ClaimRespectsAge(s, a, t, i);
      var p := a.pick.value;
      assert NoMoreToDo(s.jobs[p], r.jobs[p]) && NoMoreToDo(s.jobs[i], r.jobs[i]);
      assert r.jobs[p].queue == r.jobs[i].queue && NotLater(r.jobs[p], r.jobs[i]);
    }
    if a.pick.Some? {
      AheadAfterClaim(r, i, a.pick.value, a.worker, a.token);
    }
  }

  /** No step adds to what is ahead of an aged job, and every claim of its queue takes one away. */
  lemma AheadStep(s: Store, a: Action, t: Store, i: JobId)
    requires Inv(s) && Next(s, a, t) && i < |s.jobs| && Aged(s, s.jobs[i], s.jobs[i].queue)
    requires LeavesAlone(s, a, t, i) && !Takes(a, i)
    ensures i < |t.jobs|
    ensures Ahead(t, i) <= Ahead(s, i) - if ClaimsFrom(a, s.jobs[i].queue) then 1 else 0
  {
    if a.EnqueueJob? {
      if t != s {
        AheadAfterEnqueue(s, NewJob(a.request, s.now), i);
      }
    } else if a.ClaimJob? {
      AheadClaim(s, a, t, i);
    } else {
      forall k | 0 <= k < |s.jobs| ensures k < |t.jobs| && NoMoreToDo(s.jobs[k], t.jobs[k]) {
        JobsStay(s, a, t, k);
        assert RowOk(s.jobs[k]);
        if s.jobs[k].state.Terminal() {
          TerminalStep(s, a, t, k);
        }
      }
      AheadInPlace(s, t, i);
    }
  }

  lemma AheadNonNegative(s: Store, i: JobId)
    requires Inv(s) && i < |s.jobs|
    ensures 0 <= Ahead(s, i)
  {
    forall k | 0 <= k < |s.jobs| ensures 0 <= AheadWeight(IdentityOf(s.jobs[i]), i)(k, s.jobs[k]) {
      assert RowOk(s.jobs[k]);
    }
    SumZero(s.jobs);
    SumBelow(s.jobs, s.jobs, (k: nat, job: Job) => 0, AheadWeight(IdentityOf(s.jobs[i]), i));
  }

  lemma {:induction false} SumZero(jobs: seq<Job>)
    ensures Sum(jobs, (k: nat, job: Job) => 0) == 0
  {
    if jobs != [] {
      SumZero(jobs[..|jobs| - 1]);
    }
  }

  function ClaimsOf(acts: seq<Action>, queue: string, n: nat): nat
    requires n <= |acts|
  {
    if n == 0 then 0
    else ClaimsOf(acts, queue, n - 1) + if ClaimsFrom(acts[n - 1], queue) then 1 else 0
  }

  ghost predicate Waits(states: seq<Store>, acts: seq<Action>, n: nat, i: JobId)
    requires IsRun(states, acts) && n <= |acts|
  {
    forall k :: 0 <= k < n ==> PassesOver(states[k], acts[k], states[k + 1], i)
  }

  ghost predicate PassesOver(s: Store, a: Action, t: Store, i: JobId) {
    i < |s.jobs| && LeavesAlone(s, a, t, i) && !Takes(a, i)
  }

  lemma {:induction false} OvertakenRow(states: seq<Store>, acts: seq<Action>, n: nat, i: JobId)
    requires IsRun(states, acts) && Inv(states[0]) && n <= |acts|
    requires i < |states[0].jobs| && Aged(states[0], states[0].jobs[i], states[0].jobs[i].queue)
    requires Waits(states, acts, n, i)
    ensures i < |states[n].jobs|
    ensures states[n].jobs[i] == states[0].jobs[i] && Aged(states[n], states[n].jobs[i], states[n].jobs[i].queue)
    ensures Ahead(states[n], i) + ClaimsOf(acts, states[0].jobs[i].queue, n) <= Ahead(states[0], i)
    decreases n
  {
    if n > 0 {
      OvertakenRow(states, acts, n - 1, i);
      var s, a, t := states[n - 1], acts[n - 1], states[n];
      assert PassesOver(s, a, t, i);
      assert Inv(s) by { RunKeeps(states, acts, n - 1); }
      AgedJobUntouched(s, a, t, i);
      AheadStep(s, a, t, i);
    }
  }

  /** Whatever fresh higher-priority jobs arrive: as long as an aged job is left waiting, its queue has
      been claimed from at most as often as the unfinished jobs ordered no later than it had attempts
      left. */
  lemma BoundedOvertaking(states: seq<Store>, acts: seq<Action>, i: JobId)
    requires IsRun(states, acts) && Inv(states[0])
    requires i < |states[0].jobs| && Aged(states[0], states[0].jobs[i], states[0].jobs[i].queue)
    requires Waits(states, acts, |acts|, i)
    ensures ClaimsOf(acts, states[0].jobs[i].queue, |acts|) <= Ahead(states[0], i)
  {
    OvertakenRow(states, acts, |acts|, i);
    RunKeeps(states, acts, |acts|);
    AheadNonNegative(states[|acts|], i);
  }
}
