/** What a lease is worth, in times and calls only: from a claim or a renewal at time t nobody else gets the
    job before t plus the lease length, and afterwards anybody may. */
module JobLeases {
  import opened Options
  import opened Approvals
  import opened JobTable
  import opened JobSafety
  import opened JobRuns

  ghost predicate Claims(acts: seq<Action>, k: nat, i: JobId)
    requires k < |acts|
  {
    acts[k].ClaimJob? && acts[k].pick == Some(i)
  }

  /** Step `k` claims job `i`, or its holder marks it running, reports progress or extends the lease. */
  ghost predicate Renews(states: seq<Store>, acts: seq<Action>, k: nat, i: JobId)
    requires IsRun(states, acts) && k < |acts|
  {
    || Claims(acts, k, i)
    || (TakesEffect(states, acts, k, i) && (acts[k].op.MarkRunning? || acts[k].op.Heartbeat? || acts[k].op.Extend?))
  }

  /** Step `k` completes or fails job `i`. */
  ghost predicate Ends(states: seq<Store>, acts: seq<Action>, k: nat, i: JobId)
    requires IsRun(states, acts) && k < |acts|
  {
    TakesEffect(states, acts, k, i) && (acts[k].op.Complete? || acts[k].op.Fail?)
  }

  ghost predicate NoneEnds(states: seq<Store>, acts: seq<Action>, k: nat, m: nat, i: JobId)
    requires IsRun(states, acts) && m <= |acts|
  {
    forall n :: k < n < m ==> !Ends(states, acts, n, i)
  }

  lemma NoneEndsBefore(states: seq<Store>, acts: seq<Action>, k: nat, m: nat, i: JobId)
    requires IsRun(states, acts) && 0 < m < |states| && NoneEnds(states, acts, k, m, i)
    ensures NoneEnds(states, acts, k, m - 1, i)
    ensures k < m - 1 ==> !Ends(states, acts, m - 1, i)
  {
  }

  ghost predicate NoneRenews(states: seq<Store>, acts: seq<Action>, k: nat, m: nat, i: JobId)
    requires IsRun(states, acts) && m <= |acts|
  {
    forall n :: k < n < m ==> !Renews(states, acts, n, i)
  }

  /** Both rows are leased, by the same claim. */
  ghost predicate SameHolder(a: Job, b: Job) {
    && a.state.Live() && b.state.Live() && a.lease.Some? && b.lease.Some?
    && a.lease.value.owner == b.lease.value.owner && a.lease.value.token == b.lease.value.token
    && a.attempts == b.attempts
  }

  // ---- The clock ----

  lemma {:induction false} TimeGrows(states: seq<Store>, acts: seq<Action>, k: nat, m: nat)
    requires IsRun(states, acts) && k <= m < |states|
    ensures states[k].now <= states[m].now && states[k].settings == states[m].settings
    decreases m
  {
    if k < m {
      TimeGrows(states, acts, k, m - 1);
      assert Next(states[m - 1], acts[m - 1], states[m]);
    }
  }

  // ---- One step ----

  /** A claim or a renewal leaves a lease of the full length from now on. */
  lemma FullLease(states: seq<Store>, acts: seq<Action>, k: nat, i: JobId)
    requires IsRun(states, acts) && Inv(states[0]) && k < |acts| && Renews(states, acts, k, i)
    ensures i < |states[k + 1].jobs|
    ensures var job := states[k + 1].jobs[i];
            && job.state.Live() && job.lease.Some?
            && job.lease.value.expires == states[k].now + states[k].settings.leaseSeconds
    ensures acts[k].ClaimJob? ==>
              states[k + 1].jobs[i].lease.value.owner == acts[k].worker
              && states[k + 1].jobs[i].lease.value.token == acts[k].token
  {
    RunKeeps(states, acts, k);
    assert Next(states[k], acts[k], states[k + 1]);
    assert i < |states[k].jobs| ==> RowOk(states[k].jobs[i]);
  }

  /** Before a lease runs out its job changes hands by no step, and only its own holder's calls touch it. */
  lemma LeasedStep(states: seq<Store>, acts: seq<Action>, m: nat, i: JobId)
    requires IsRun(states, acts) && Inv(states[0]) && m < |acts| && !Ends(states, acts, m, i)
    requires i < |states[m].jobs| && states[m].jobs[i].state.Live() && states[m].jobs[i].lease.Some?
    requires states[m].now <= states[m].jobs[i].lease.value.expires
    ensures !Claims(acts, m, i) && i < |states[m + 1].jobs|
    ensures SameHolder(states[m].jobs[i], states[m + 1].jobs[i])
    ensures acts[m].ClaimJob? ==> states[m + 1].jobs[i] == states[m].jobs[i]
    ensures states[m].jobs[i].lease.value.expires <= states[m + 1].jobs[i].lease.value.expires
            || states[m].now + states[m].settings.leaseSeconds <= states[m + 1].jobs[i].lease.value.expires
  {
    RunKeeps(states, acts, m);
    var s, a, t := states[m], acts[m], states[m + 1];
    assert Next(s, a, t);
    assert RowOk(s.jobs[i]);
    if a.ClaimJob? {
      assert Reaped(s).jobs[i] == s.jobs[i];
    }
    LeasedRowChanges(s, a, t, i);
  }

  // ---- No overtaking ----

  /** The row of job `i` in `s` is leased at least until `until`, by the claim that leases `row`. */
  ghost predicate LeasedUntil(s: Store, i: JobId, row: Job, until: int) {
    i < |s.jobs| && SameHolder(row, s.jobs[i]) && until <= s.jobs[i].lease.value.expires
  }

  lemma {:induction false} StaysLeased(states: seq<Store>, acts: seq<Action>, k: nat, m: nat, i: JobId)
    requires IsRun(states, acts) && Inv(states[0]) && k < m < |states| && Renews(states, acts, k, i)
    requires NoneEnds(states, acts, k, m, i)
    requires states[m - 1].now <= states[k].now + states[k].settings.leaseSeconds
    ensures i < |states[k + 1].jobs|
    ensures LeasedUntil(states[m], i, states[k + 1].jobs[i], states[k].now + states[k].settings.leaseSeconds)
    decreases m
  {
    FullLease(states, acts, k, i);
    if k + 1 < m {
      TimeGrows(states, acts, m - 2, m - 1);
      NoneEndsBefore(states, acts, k, m, i);
      StaysLeased(states, acts, k, m - 1, i);
      OneStepLeased(states, acts, k, m - 1, i, states[k + 1].jobs[i]);
    }
  }

  lemma OneStepLeased(states: seq<Store>, acts: seq<Action>, k: nat, m: nat, i: JobId, row: Job)
    requires IsRun(states, acts) && Inv(states[0]) && k < m < |acts| && !Ends(states, acts, m, i)
    requires states[m].now <= states[k].now + states[k].settings.leaseSeconds
    requires LeasedUntil(states[m], i, row, states[k].now + states[k].settings.leaseSeconds)
    ensures LeasedUntil(states[m + 1], i, row, states[k].now + states[k].settings.leaseSeconds)
  {
    TimeGrows(states, acts, k, m);
    LeasedStep(states, acts, m, i);
  }

  /** Job `i` was claimed or renewed at step `k`, and no call completed or failed it since: then no step up
      to a full lease length later claims it again or reaps it, and it is still with the same claim. */
  lemma LeaseHolds(states: seq<Store>, acts: seq<Action>, k: nat, m: nat, i: JobId)
    requires IsRun(states, acts) && Inv(states[0]) && k < m < |acts| && Renews(states, acts, k, i)
    requires NoneEnds(states, acts, k, m, i)
    requires states[m].now <= states[k].now + states[k].settings.leaseSeconds
    ensures !Claims(acts, m, i) && i < |states[k + 1].jobs| && i < |states[m].jobs| && i < |states[m + 1].jobs|
    ensures SameHolder(states[k + 1].jobs[i], states[m].jobs[i])
    ensures acts[m].ClaimJob? ==> states[m + 1].jobs[i] == states[m].jobs[i]
    ensures !Ends(states, acts, m, i) ==> SameHolder(states[m].jobs[i], states[m + 1].jobs[i])
  {
    TimeGrows(states, acts, m - 1, m);
    StaysLeased(states, acts, k, m, i);
    if Ends(states, acts, m, i) {
      assert !acts[m].ClaimJob?;
      assert Next(states[m], acts[m], states[m + 1]);
    } else {
      LeasedStep(states, acts, m, i);
    }
  }

  ghost predicate HeldBy(s: Store, i: JobId, worker: Worker, token: Token) {
    && i < |s.jobs| && s.jobs[i].state.Live() && s.jobs[i].lease.Some?
    && s.jobs[i].lease.value.owner == worker && s.jobs[i].lease.value.token == token
  }

  /** The steps `renewals` all claim or renew job `i`, each within a lease length of the one before. */
  ghost predicate RenewedInTime(states: seq<Store>, acts: seq<Action>, renewals: seq<nat>, i: JobId)
    requires IsRun(states, acts)
    decreases |renewals|
  {
    && renewals != []
    && var n := |renewals| - 1;
       && renewals[n] < |acts| && Renews(states, acts, renewals[n], i)
       && (n > 0 ==>
             && renewals[0] <= renewals[n - 1] < renewals[n]
             && states[renewals[n]].now <= states[renewals[n - 1]].now + states[0].settings.leaseSeconds
             && RenewedInTime(states, acts, renewals[..n], i))
  }

  /** Over step `m` the job stays with whoever held it after the renewal `r`. */
  lemma StaysHeld(states: seq<Store>, acts: seq<Action>, k: nat, r: nat, m: nat, i: JobId, worker: Worker, token: Token)
    requires IsRun(states, acts) && Inv(states[0]) && k <= r <= m < |acts| && Renews(states, acts, r, i)
    requires states[m].now <= states[r].now + states[0].settings.leaseSeconds && NoneEnds(states, acts, k, m + 1, i)
    requires HeldBy(states[r + 1], i, worker, token)
    ensures m > r ==> !Claims(acts, m, i)
    ensures HeldBy(states[m + 1], i, worker, token)
  {
    if m > r {
      TimeGrows(states, acts, 0, r);
      assert NoneEnds(states, acts, r, m, i) && !Ends(states, acts, m, i);
      LeaseHolds(states, acts, r, m, i);
    }
  }

  lemma ClaimHolds(states: seq<Store>, acts: seq<Action>, k: nat, i: JobId, worker: Worker, queue: string, token: Token)
    requires IsRun(states, acts) && Inv(states[0]) && k < |acts| && acts[k] == ClaimJob(worker, queue, token, Some(i))
    ensures HeldBy(states[k + 1], i, worker, token)
  {
    FullLease(states, acts, k, i);
  }

  lemma NoneEndsUpTo(states: seq<Store>, acts: seq<Action>, k: nat, r: nat, m: nat, i: JobId)
    requires IsRun(states, acts) && r <= m <= |acts| && NoneEnds(states, acts, k, m, i)
    ensures NoneEnds(states, acts, k, r, i)
  {
  }

  /** A worker that renews at least once in every lease length is never overtaken: as long as it neither
      completes nor fails the job, no step claims the job and its lease is still that worker's. */
  lemma {:induction false} NeverOvertaken(states: seq<Store>, acts: seq<Action>, renewals: seq<nat>, m: nat, i: JobId,
      worker: Worker, queue: string, token: Token)
    requires IsRun(states, acts) && Inv(states[0]) && RenewedInTime(states, acts, renewals, i)
    requires acts[renewals[0]] == ClaimJob(worker, queue, token, Some(i))
    requires renewals[|renewals| - 1] <= m < |acts|
    requires states[m].now <= states[renewals[|renewals| - 1]].now + states[0].settings.leaseSeconds
    requires NoneEnds(states, acts, renewals[0], m + 1, i)
    ensures Claims(acts, m, i) <==> m == renewals[0]
    ensures HeldBy(states[m + 1], i, worker, token)
    decreases |renewals|
  {
    var n := |renewals| - 1;
    var k, r := renewals[0], renewals[n];
    if n == 0 {
      ClaimHolds(states, acts, k, i, worker, queue, token);
    } else {
      NoneEndsUpTo(states, acts, k, r + 1, m + 1, i);
      NeverOvertaken(states, acts, renewals[..n], r, i, worker, queue, token);
    }
    StaysHeld(states, acts, k, r, m, i, worker, token);
  }

  // ---- When a lease runs out ----

  /** A job is leased only when it is due, and stays due. */
  ghost predicate LeasedAreDue(s: Store) {
    forall i :: 0 <= i < |s.jobs| && s.jobs[i].state.Live() ==> DueNow(s, i)
  }

  ghost predicate DueNow(s: Store, i: JobId)
    requires i < |s.jobs|
  {
    s.jobs[i].scheduledAt <= s.now && (s.jobs[i].nextRetry.Some? ==> s.jobs[i].nextRetry.value <= s.now)
  }

  lemma DueRow(s: Store, a: Action, t: Store, i: JobId)
    requires Inv(s) && LeasedAreDue(s) && Next(s, a, t) && i < |t.jobs| && t.jobs[i].state.Live()
    ensures DueNow(t, i)
  {
    assert i < |s.jobs| ==> RowOk(s.jobs[i]);
    if i < |s.jobs| && s.jobs[i].state.Live() {
      assert DueNow(s, i);
      LeasedRowChanges(s, a, t, i);
    } else if a.ClaimJob? {
      assert Reaped(s).jobs[i] == s.jobs[i];
    }
  }

  lemma DueStep(s: Store, a: Action, t: Store)
    requires Inv(s) && LeasedAreDue(s) && Next(s, a, t)
    ensures LeasedAreDue(t)
  {
    forall i | 0 <= i < |t.jobs| && t.jobs[i].state.Live() ensures DueNow(t, i) {
      DueRow(s, a, t, i);
    }
  }

  lemma {:induction false} DueOverRuns(states: seq<Store>, acts: seq<Action>, m: nat)
    requires IsRun(states, acts) && Init(states[0]) && m < |states|
    ensures LeasedAreDue(states[m])
    decreases m
  {
    if m > 0 {
      DueOverRuns(states, acts, m - 1);
      InitInv(states[0]);
      RunKeeps(states, acts, m - 1);
      DueStep(states[m - 1], acts[m - 1], states[m]);
    }
  }

  /** Left alone since its lease was to end at `until`, the row is as it was, or was reaped after that. */
  ghost predicate LeftAlone(s: Store, i: JobId, row: Job, until: int) {
    && i < |s.jobs| && IdentityOf(s.jobs[i]) == IdentityOf(row) && s.jobs[i].attempts == row.attempts
    && if s.jobs[i].state.Live()
       then s.jobs[i] == row
       else s.jobs[i].state.DeadLetter? && until < s.now && row.attempts >= row.maxAttempts
  }

  lemma AloneStep(s: Store, a: Action, t: Store, i: JobId, row: Job, until: int)
    requires Inv(s) && Next(s, a, t)
    requires LeftAlone(s, i, row, until) && row.lease.Some? && row.lease.value.expires == until
    requires a.ClaimJob? ==> a.pick != Some(i)
    requires a.UseLease? && s.held[a.holder].job == i ==> !Effective(s, s.held[a.holder])
    ensures LeftAlone(t, i, row, until)
  {
    assert RowOk(s.jobs[i]);
    if a.ClaimJob? {
      assert Reaped(s).jobs[i] == ReapRow(s.now, s.jobs[i]);
    } else if s.jobs[i].state.Live() {
      LeasedRowChanges(s, a, t, i);
    } else {
      TerminalStep(s, a, t, i);
    }
  }

  lemma {:induction false} AloneSince(states: seq<Store>, acts: seq<Action>, k: nat, m: nat, i: JobId)
    requires IsRun(states, acts) && Inv(states[0]) && k < m < |states| && Renews(states, acts, k, i)
    requires NoneEnds(states, acts, k, m, i) && NoneRenews(states, acts, k, m, i)
    ensures i < |states[k + 1].jobs|
    ensures LeftAlone(states[m], i, states[k + 1].jobs[i], states[k].now + states[k].settings.leaseSeconds)
    decreases m
  {
    FullLease(states, acts, k, i);
    if k + 1 < m {
      AloneSince(states, acts, k, m - 1, i);
      assert !Ends(states, acts, m - 1, i) && !Renews(states, acts, m - 1, i);
      RunKeeps(states, acts, m - 1);
      AloneStep(states[m - 1], acts[m - 1], states[m], i, states[k + 1].jobs[i],
                states[k].now + states[k].settings.leaseSeconds);
    }
  }

  /** Job `i` was last claimed or renewed at step `k`, and nothing completed or failed it since. With attempts
      left it is claimable again exactly when more than the lease length has passed and its brokerage is
      open; without, it is reapable exactly then, until a claim reaps it. */
  lemma ClaimableAgainExactly(states: seq<Store>, acts: seq<Action>, k: nat, m: nat, i: JobId)
    requires IsRun(states, acts) && Init(states[0]) && k < m < |states| && Renews(states, acts, k, i)
    requires NoneEnds(states, acts, k, m, i) && NoneRenews(states, acts, k, m, i)
    ensures i < |states[m].jobs|
    ensures var s, job := states[m], states[m].jobs[i];
            var over := states[k].now + states[k].settings.leaseSeconds < s.now;
            if job.attempts < job.maxAttempts
            then Ready(s, job, job.queue) <==> over && ("privacy:" <= job.jobType || job.tenant !in s.inactive)
            else if job.state.DeadLetter? then over
            else Reapable(s.now, job) <==> over
  {
    InitInv(states[0]);
    FullLease(states, acts, k, i);
    AloneSince(states, acts, k, m, i);
    DueOverRuns(states, acts, m);
    assert states[m].jobs[i].state.Live() ==> DueNow(states[m], i);
  }
}
