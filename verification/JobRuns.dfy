/** Main theorems about the job queue: fencing, absorbing outcomes, retries, progress and idempotency,
    over every run of workers, producers, approvers and the clock. */
module JobRuns {
  import opened Options
  import opened Approvals
  import opened JobTable
  import opened JobSafety

  // ---- Fencing ----

  /** A worker whose job was claimed again since changes nothing, whatever it calls. */
  lemma StaleWorkerIsFenced(s: Store, h: nat, g: nat, op: LeaseOp)
    requires Inv(s) && h < g < |s.held| && s.held[h].job == s.held[g].job
    ensures LeaseUpdate(s, s.held[h], op) == s
  {
    if Effective(s, s.held[h]) {
      TokenMeansCurrent(s, h);
    }
  }

  /** A leased row changes only by its latest claimant, or by a claim that finds the lease expired. */
  lemma LeasedRowChanges(s: Store, a: Action, t: Store, i: JobId)
    requires Inv(s) && Next(s, a, t) && i < |s.jobs| && s.jobs[i].state.Live()
    ensures i < |t.jobs|
    ensures t.jobs[i] != s.jobs[i] ==>
              || (a.UseLease? && Holder(s, i, a.holder)
                  && forall g :: 0 <= g < |s.held| && s.held[g].job == i ==> g <= a.holder)
              || (a.ClaimJob? && LeaseExpired(s.now, s.jobs[i]))
  {
    if a.UseLease? && t.jobs[i] != s.jobs[i] {
      TokenMeansCurrent(s, a.holder);
    }
    if a.ClaimJob? {
      var r := Reaped(s);
      assert r.jobs[i] == ReapRow(s.now, s.jobs[i]);
    }
  }

  // ---- Absorbing outcomes ----

  lemma TerminalStep(s: Store, a: Action, t: Store, i: JobId)
    requires Inv(s) && Next(s, a, t) && i < |s.jobs| && s.jobs[i].state.Terminal()
    ensures i < |t.jobs| && (t.jobs[i] == s.jobs[i] || t.jobs[i] == Emptied(s.jobs[i]))
  {
    assert RowOk(s.jobs[i]);
    if a.ClaimJob? {
      var r := Reaped(s);
      assert r.jobs[i] == ReapRow(s.now, s.jobs[i]);
    }
  }

  lemma {:induction false} TerminalRow(states: seq<Store>, acts: seq<Action>, k: nat, m: nat, i: JobId)
    requires IsRun(states, acts) && Inv(states[0]) && k <= m < |states|
    requires i < |states[k].jobs| && states[k].jobs[i].state.Terminal()
    ensures i < |states[m].jobs|
    ensures states[m].jobs[i] == states[k].jobs[i] || states[m].jobs[i] == Emptied(states[k].jobs[i])
    decreases m
  {
    if k < m {
      TerminalRow(states, acts, k, m - 1, i);
      var s, a, t := states[m - 1], acts[m - 1], states[m];
      assert Inv(s) by { RunKeeps(states, acts, m - 1); }
      TerminalStep(s, a, t, i);
    }
  }

  /** Succeeded, partial, dead_letter and cancelled rows hold no lease and never change again, except that
      retention may empty their payload and result. */
  lemma TerminalForever(states: seq<Store>, acts: seq<Action>, k: nat, m: nat, i: JobId)
    requires IsRun(states, acts) && Inv(states[0]) && k <= m < |states|
    requires i < |states[k].jobs| && states[k].jobs[i].state.Terminal()
    ensures i < |states[m].jobs| && states[m].jobs[i].state == states[k].jobs[i].state
    ensures states[m].jobs[i] == states[k].jobs[i] || states[m].jobs[i] == Emptied(states[k].jobs[i])
    ensures states[m].jobs[i].lease.None?
  {
    TerminalRow(states, acts, k, m, i);
    RunKeeps(states, acts, k);
    assert RowOk(states[k].jobs[i]);
  }

  /** A cancelled job stays cancelled and is never leased again; one that was being worked on, or finished,
      is not cancelled. */
  lemma CancelStops(states: seq<Store>, acts: seq<Action>, k: nat, m: nat, i: JobId)
    requires IsRun(states, acts) && Inv(states[0]) && k < m < |states|
    requires acts[k] == Cancel(i) && i < |states[k].jobs|
    ensures i < |states[m].jobs|
    ensures states[k].jobs[i].state.Queued? || states[k].jobs[i].state.Failed? ==>
              states[m].jobs[i].state.Cancelled? && states[m].jobs[i].lease.None?
              && states[m].jobs[i].attempts == states[k].jobs[i].attempts
    ensures !states[k].jobs[i].state.Queued? && !states[k].jobs[i].state.Failed? ==> states[k + 1] == states[k]
  {
    assert Next(states[k], acts[k], states[k + 1]);
    if states[k].jobs[i].state.Waiting() {
      TerminalForever(states, acts, k + 1, m, i);
    } else {
      JobsKeepIdentity(states, acts, k, m, i);
    }
  }

  /** Once retention swept a finished job its payload and result are gone for good, and its state stays. */
  lemma SweptForever(states: seq<Store>, acts: seq<Action>, k: nat, m: nat, i: JobId)
    requires IsRun(states, acts) && Inv(states[0]) && k < m < |states|
    requires acts[k] == Sweep(i) && i < |states[k].jobs| && states[k].jobs[i].state.Terminal()
    ensures i < |states[m].jobs| && states[m].jobs[i].payload == "{}" && states[m].jobs[i].result == Some("{}")
    ensures states[m].jobs[i].state == states[k].jobs[i].state
  {
    assert Next(states[k], acts[k], states[k + 1]);
    TerminalForever(states, acts, k + 1, m, i);
  }

  lemma {:induction false} HeldGrows(states: seq<Store>, acts: seq<Action>, k: nat, m: nat)
    requires IsRun(states, acts) && k <= m < |states|
    ensures states[k].held <= states[m].held
    decreases m
  {
    if k < m {
      HeldGrows(states, acts, k, m - 1);
      assert Next(states[m - 1], acts[m - 1], states[m]);
    }
  }

  /** Action `k` is a worker's call on job `i`. */
  ghost predicate CallOn(states: seq<Store>, acts: seq<Action>, k: nat, i: JobId)
    requires IsRun(states, acts) && k < |acts|
  {
    acts[k].UseLease? && acts[k].holder < |states[k].held| && states[k].held[acts[k].holder].job == i
  }

  ghost predicate TakesEffect(states: seq<Store>, acts: seq<Action>, k: nat, i: JobId)
    requires IsRun(states, acts) && k < |acts|
  {
    CallOn(states, acts, k, i) && Effective(states[k], states[k].held[acts[k].holder])
  }

  /** At most one completion of a job takes effect, and no call of any worker on it takes effect after. */
  lemma CompletedOnce(states: seq<Store>, acts: seq<Action>, k: nat, m: nat, i: JobId)
    requires IsRun(states, acts) && Inv(states[0]) && k < m < |acts|
    requires TakesEffect(states, acts, k, i) && acts[k].op.Complete?
    ensures !TakesEffect(states, acts, m, i)
  {
    assert Next(states[k], acts[k], states[k + 1]);
    TerminalForever(states, acts, k + 1, m, i);
  }

  // ---- Retry decisions made from a snapshot ----

  /** The dead-letter decision of an effective fail_job is the one its row would make, and a row left
      `failed` has attempts left and waits for the backoff of the attempt it counts. */
  lemma RetryIsSound(s: Store, h: nat, code: string, terminal: bool)
    requires Inv(s) && h < |s.held| && Effective(s, s.held[h])
    ensures var job := s.jobs[s.held[h].job];
            var row := LeaseUpdate(s, s.held[h], Fail(code, terminal)).jobs[s.held[h].job];
            && (row.state == DeadLetter <==> terminal || job.attempts == job.maxAttempts)
            && (row.state == Failed <==> !terminal && job.attempts < job.maxAttempts)
            && (row.state == Failed ==> row.nextRetry == Some(s.now + RetrySeconds(job.attempts)))
  {
    TokenMeansCurrent(s, h);
    assert HeldOk(s, h) && RowOk(s.jobs[s.held[h].job]);
  }

  lemma {:induction false} DoubledGrows(a: nat, b: nat)
    requires a <= b
    ensures 1 <= Doubled(a) <= Doubled(b)
  {
    if b > 0 {
      DoubledGrows(if a == b then a - 1 else a, b - 1);
    }
  }

  lemma BackoffBounds(attempt: nat)
    ensures 5 <= RetrySeconds(attempt) <= 3600
  {
    DoubledGrows(0, if attempt == 0 then 0 else attempt - 1);
  }

  /** The backoff starts at five seconds and doubles with every attempt up to its ceiling, which it reaches
      exactly from the eleventh on. */
  lemma BackoffShape(attempt: nat, later: nat)
    requires 1 <= attempt <= later
    ensures RetrySeconds(1) == 5 && RetrySeconds(attempt) <= RetrySeconds(later)
    ensures RetrySeconds(attempt) == 3600 <==> attempt >= 11
    ensures RetrySeconds(attempt + 1) == if 2 * RetrySeconds(attempt) < 3600 then 2 * RetrySeconds(attempt) else 3600
  {
    DoubledGrows(attempt - 1, later - 1);
    assert Doubled(4) == 16 && Doubled(8) == 256;
    assert Doubled(9) == 512 && Doubled(10) == 1024;
    if attempt >= 11 {
      DoubledGrows(10, attempt - 1);
    } else {
      DoubledGrows(attempt - 1, 9);
    }
  }

  /** In every reachable store: attempts never exceed their limit, `failed` leaves attempts, and the
      attempt rows of a job are numbered exactly 1, 2, ..., attempt_count, in order. */
  lemma AttemptsAreSound(states: seq<Store>, acts: seq<Action>, k: nat, i: JobId)
    requires IsRun(states, acts) && Init(states[0]) && k < |states| && i < |states[k].jobs|
    ensures var job := states[k].jobs[i];
            && job.attempts <= job.maxAttempts <= 20
            && (job.state.Waiting() ==> job.attempts < job.maxAttempts)
            && (job.lease.Some? <==> job.state.Live())
            && Numbers(states[k].attempts, i) == UpTo(job.attempts)
  {
    InitInv(states[0]);
    RunKeeps(states, acts, k);
    assert RowOk(states[k].jobs[i]);
  }

  // ---- Progress ----

  /** Seconds after which job `i`, if nobody touches it, is claimable or its dead lease is reapable. */
  function WaitFor(s: Store, i: JobId): nat
    requires i < |s.jobs|
  {
    var job := s.jobs[i];
    var retry := job.nextRetry.Some? && job.nextRetry.value > job.scheduledAt;
    var due := if retry then job.nextRetry.value else job.scheduledAt;
    var free := if job.lease.Some? && job.lease.value.expires + 1 > due then job.lease.value.expires + 1 else due;
    if free > s.now then free - s.now else 0
  }

  /** From every reachable store a job that is not finished, of an open tenant, becomes claimable or
      reapable after a finite wait; a reapable one is dead-lettered by the very next claim of any queue,
      and while one is claimable no claim of its queue comes back empty. */
  lemma NeverStuck(s: Store, i: JobId, worker: Worker, queue: string, token: Token, pick: Option<JobId>, u: Store)
    requires Inv(s) && i < |s.jobs| && !s.jobs[i].state.Terminal() && TenantOpen(s, s.jobs[i])
    requires ClaimStep(s.(now := s.now + WaitFor(s, i)), worker, queue, token, pick, u)
    ensures var t := s.(now := s.now + WaitFor(s, i));
            && Next(s, Tick(WaitFor(s, i)), t)
            && (Reapable(t.now, s.jobs[i]) || Ready(t, s.jobs[i], s.jobs[i].queue))
            && (Reapable(t.now, s.jobs[i]) ==> u.jobs[i].state == DeadLetter)
            && (Ready(t, s.jobs[i], s.jobs[i].queue) && queue == s.jobs[i].queue ==> pick.Some?)
  {
    var t := s.(now := s.now + WaitFor(s, i));
    assert RowOk(s.jobs[i]);
    var r := Reaped(t);
    assert r.jobs[i] == ReapRow(t.now, s.jobs[i]);
  }

  function ClaimsMade(acts: seq<Action>): nat {
    if acts == [] then 0
    else ClaimsMade(acts[..|acts| - 1]) + if acts[|acts| - 1].ClaimJob? && acts[|acts| - 1].pick.Some? then 1 else 0
  }

  lemma {:induction false} ClaimsAreAttempts(states: seq<Store>, acts: seq<Action>)
    requires IsRun(states, acts)
    ensures |states[|acts|].attempts| == |states[0].attempts| + ClaimsMade(acts)
  {
    if acts != [] {
      var n := |acts| - 1;
      ClaimsAreAttempts(states[..n + 1], acts[..n]);
      assert Next(states[n], acts[n], states[n + 1]);
    }
  }

  /** However a run goes, it claims no more often than the attempt limits of its jobs add up to. */
  lemma ClaimsAreBounded(states: seq<Store>, acts: seq<Action>)
    requires IsRun(states, acts) && Init(states[0])
    ensures ClaimsMade(acts) <= Sum(states[|acts|].jobs, LimitWeight())
  {
    var t := states[|acts|];
    InitInv(states[0]);
    RunKeeps(states, acts, |acts|);
    ClaimsAreAttempts(states, acts);
    forall i | 0 <= i < |t.jobs| ensures AttemptWeight()(i, t.jobs[i]) <= LimitWeight()(i, t.jobs[i]) {
      assert RowOk(t.jobs[i]);
    }
    SumBelow(t.jobs, t.jobs, AttemptWeight(), LimitWeight());
  }

  // ---- Idempotent enqueue ----

  lemma {:induction false} JobsKeepIdentity(states: seq<Store>, acts: seq<Action>, k: nat, m: nat, i: JobId)
    requires IsRun(states, acts) && k <= m < |states| && i < |states[k].jobs|
    ensures i < |states[m].jobs|
    ensures IdentityOf(states[m].jobs[i]) == IdentityOf(states[k].jobs[i])
    decreases m
  {
    if k < m {
      JobsKeepIdentity(states, acts, k, m - 1, i);
      var s, a, t := states[m - 1], acts[m - 1], states[m];
      assert Next(s, a, t) by { assert states[m - 1 + 1] == t; }
      JobsStay(s, a, t, i);
    }
  }

  /** Two accepted requests of one tenant under one idempotency key are answered with the same job, and
      only the first of them creates it. */
  lemma SameKeySameJob(states: seq<Store>, acts: seq<Action>, k: nat, m: nat)
    requires IsRun(states, acts) && Init(states[0]) && k < m < |acts|
    requires acts[k].EnqueueJob? && acts[k].outcome.Accepted?
    requires acts[m].EnqueueJob? && acts[m].outcome.Accepted?
    requires acts[k].request.tenant == acts[m].request.tenant && acts[k].request.key == acts[m].request.key
    ensures acts[m].outcome.job == acts[k].outcome.job && !acts[m].outcome.created
  {
    InitInv(states[0]);
    RunKeeps(states, acts, m);
    assert Next(states[k], acts[k], states[k + 1]) && Next(states[m], acts[m], states[m + 1]);
    var i := acts[k].outcome.job;
    JobsKeepIdentity(states, acts, k + 1, m, i);
    assert HasKey(states[m].jobs[i], acts[m].request.tenant, acts[m].request.key);
  }
}
