/** The queue as the code runs it: rows updated in place, selection by scanning, one worker's loop. Each
    method is proved to take exactly the step of JobTable that the run theorems are about. */
module JobQueue {
  import opened Options
  import opened Approvals
  import opened JobTable
  import opened JobSafety

  function ReapableCount(now: int, jobs: seq<Job>): nat {
    if jobs == [] then 0
    else ReapableCount(now, jobs[..|jobs| - 1]) + if Reapable(now, jobs[|jobs| - 1]) then 1 else 0
  }

  /** What a handler does with its job. */
  datatype Outcome =
    | NoHandler
    | Finishes(partly: bool, result: string)
    | Raises
    | RaisesTerminal(code: string)    // recovery mode, or an error that says retrying cannot help
    | Dies                            // the worker process is gone

  // ---- What the callers are promised, column by column ----

  /** A request that must be let in; every other is refused. */
  predicate Admissible(approvals: Table, now: int, req: Request) {
    && 1 <= |req.jobType| <= 120 && 1 <= |req.key| <= 240
    && 0 <= req.priority <= 100 && 1 <= req.maxAttempts <= 20
    && (req.risk.ReadOnly? || req.risk.InternalEdit?
        || (&& req.approval.Some? && req.approval.value in approvals
            && var ap := approvals[req.approval.value];
               ap.tenant == req.tenant && ap.status.Approved? && now < ap.expiresAt && ap.payload == req.payload))
  }

  /** A new row: what was asked, never tried, due when asked or at once. */
  predicate FiledAs(job: Job, req: Request, now: int) {
    && job.tenant == req.tenant && job.jobType == req.jobType && job.queue == req.queue && job.risk == req.risk
    && job.payload == req.payload && job.priority == req.priority && job.key == req.key
    && job.approval == req.approval && job.maxAttempts == req.maxAttempts
    && job.state == JobState.Queued && job.attempts == 0 && job.lease.None? && job.nextRetry.None?
    && job.createdAt == now
    && (req.scheduledAt.Some? ==> job.scheduledAt == req.scheduledAt.value)
    && (req.scheduledAt.None? ==> job.scheduledAt == now)
  }

  /** A worker of `queue` may be given the job. */
  predicate MayRun(inactive: set<Tenant>, now: int, queue: string, job: Job) {
    && job.queue == queue && job.attempts < job.maxAttempts
    && job.scheduledAt <= now && (job.nextRetry.Some? ==> job.nextRetry.value <= now)
    && (job.tenant in inactive ==> "privacy:" <= job.jobType)
    && (job.state in {JobState.Queued, JobState.Failed}
        || (job.state in {Leased, Running} && job.lease.Some? && job.lease.value.expires < now))
  }

  /** The row of a failed attempt: given up when told so or after the last attempt, else due again after the
      backoff of the attempt that failed. */
  predicate FailedAs(was: Job, job: Job, snap: Snapshot, code: string, terminal: bool, now: int) {
    var last := terminal || snap.attempts >= snap.maxAttempts || (snap.attempts == 0 && snap.maxAttempts <= 1);
    && (last ==> job == was.(state := DeadLetter, errorCode := Some(code), lease := None, nextRetry := None,
                             completedAt := Some(now)))
    && (!last ==> job == was.(state := JobState.Failed, errorCode := Some(code), lease := None,
                              nextRetry := Some(now + RetrySeconds(snap.attempts)), completedAt := None))
  }

  /** A job whose last lease ran out with no attempt left is dead, and says why unless it already did; any
      other is as it was. */
  predicate ReapedAs(was: Job, job: Job, now: int) {
    if was.state in {Leased, Running} && was.lease.Some? && was.lease.value.expires < now
       && was.attempts >= was.maxAttempts
    then
      && job == was.(state := DeadLetter, lease := None, completedAt := job.completedAt, errorCode := job.errorCode)
      && job.completedAt == (if was.completedAt.Some? then was.completedAt else Some(now))
      && job.errorCode == (if was.errorCode.Some? then was.errorCode else Some("LEASE_ATTEMPTS_EXHAUSTED"))
    else job == was
  }

  ghost predicate AllReaped(was: seq<Job>, jobs: seq<Job>, now: int) {
    |jobs| == |was| && forall k :: 0 <= k < |jobs| ==> ReapedAs(was[k], jobs[k], now)
  }

  lemma ReapedRight(s: Store)
    ensures AllReaped(s.jobs, Reaped(s).jobs, s.now)
  {
  }

  /** `a` goes before `b` by priority, then scheduled time, then creation. */
  predicate Before(a: Job, b: Job) {
    || a.priority < b.priority
    || (a.priority == b.priority && a.scheduledAt < b.scheduledAt)
    || (a.priority == b.priority && a.scheduledAt == b.scheduledAt && a.createdAt < b.createdAt)
  }

  /** Due for the starvation time already, and not being worked on. */
  predicate Starved(s: Store, job: Job) {
    var since := s.now - s.settings.starvationSeconds;
    && job.state in {JobState.Queued, JobState.Failed} && job.scheduledAt <= since
    && (job.nextRetry.Some? ==> job.nextRetry.value <= since)
  }

  /** The job given out is the first of those that may run, unless some of them are starved: then it is one
      of these, and the oldest. */
  ghost predicate RightChoice(s: Store, queue: string, i: JobId)
    requires i < |s.jobs|
  {
    forall k :: 0 <= k < |s.jobs| && MayRun(s.inactive, s.now, queue, s.jobs[k]) ==>
      if Starved(s, s.jobs[i])
      then Starved(s, s.jobs[k]) ==>
             s.jobs[i].scheduledAt < s.jobs[k].scheduledAt
             || (s.jobs[i].scheduledAt == s.jobs[k].scheduledAt && s.jobs[i].createdAt <= s.jobs[k].createdAt)
      else !Starved(s, s.jobs[k]) && !Before(s.jobs[k], s.jobs[i])
  }

  /** A claim gives out a job that may run, once more tried and leased from now on; or none may run. */
  ghost predicate GivesOut(s: Store, t: Store, worker: Worker, queue: string, token: Token, pick: Option<JobId>) {
    match pick
    case Some(i) =>
      && i < |s.jobs| == |t.jobs| && MayRun(s.inactive, s.now, queue, s.jobs[i]) && RightChoice(s, queue, i)
      && t.jobs[i] == s.jobs[i].(
           state := Leased, attempts := s.jobs[i].attempts + 1, startedAt := t.jobs[i].startedAt,
           lease := Some(Lease(worker, token, s.now + s.settings.leaseSeconds)))
      && t.jobs[i].startedAt == (if s.jobs[i].startedAt.Some? then s.jobs[i].startedAt else Some(s.now))
    case None => forall k :: 0 <= k < |s.jobs| ==> !MayRun(s.inactive, s.now, queue, s.jobs[k])
  }

  lemma ChoiceIsRight(s: Store, queue: string, i: JobId)
    requires Inv(s) && ClaimPick(Reaped(s), queue, Some(i))
    ensures RightChoice(s, queue, i)
  {
    var r := Reaped(s);
    assert RowOk(s.jobs[i]) && r.jobs[i] == s.jobs[i];
    forall k | 0 <= k < |s.jobs| && MayRun(s.inactive, s.now, queue, s.jobs[k])
      ensures Aged(r, s.jobs[k], queue) <==> Starved(s, s.jobs[k])
      ensures Aged(r, s.jobs[k], queue) || Ready(r, s.jobs[k], queue)
      ensures r.jobs[k] == s.jobs[k]
    {
      assert RowOk(s.jobs[k]);
    }
  }

  lemma ClaimGivesOut(s: Store, worker: Worker, queue: string, token: Token, pick: Option<JobId>, t: Store)
    requires Inv(s) && ClaimStep(s, worker, queue, token, pick, t)
    ensures GivesOut(s, t, worker, queue, token, pick)
  {
    var r := Reaped(s);
    if pick.Some? {
      assert RowOk(s.jobs[pick.value]) && r.jobs[pick.value] == s.jobs[pick.value];
      ChoiceIsRight(s, queue, pick.value);
    } else {
      forall k | 0 <= k < |s.jobs| ensures !MayRun(s.inactive, s.now, queue, s.jobs[k]) {
        assert r.jobs[k] == ReapRow(s.now, s.jobs[k]) && !Ready(r, r.jobs[k], queue);
      }
    }
  }

  class Queue {
    const settings: Settings
    var now: int
    var inactive: set<Tenant>
    var approvals: Table
    var jobs: seq<Job>
    var attempts: seq<Attempt>
    ghost var held: seq<Snapshot>

    ghost function View(): Store
      reads this
    {
      Store(settings, now, inactive, approvals, jobs, attempts, held)
    }

    constructor (settings: Settings, start: int)
      requires settings.Valid()
      ensures Init(View()) && View().settings == settings && now == start
    {
      this.settings := settings;
      now := start;
      inactive, approvals, jobs, attempts, held := {}, map[], [], [], [];
    }

    method EnqueueJob(req: Request) returns (r: EnqueueResult)
      requires Inv(View())
      modifies this`jobs
      ensures EnqueueStep(old(View()), req, r, View())
      ensures r.Accepted? <==> Admissible(approvals, now, req)
      ensures r.Accepted? && r.created ==> jobs == old(jobs) + [jobs[r.job]] && FiledAs(jobs[r.job], req, now)
      ensures r.Accepted? ==> jobs[r.job].tenant == req.tenant && jobs[r.job].key == req.key
      ensures r.Accepted? ==>
                (r.created <==> forall i :: 0 <= i < |old(jobs)| ==> old(jobs)[i].tenant != req.tenant
                                                                     || old(jobs)[i].key != req.key)
      ensures r.Accepted? && !r.created ==> jobs == old(jobs)
      ensures Inv(View())
    {
      ghost var before := View();
      var bad := RequestError(req);
      if bad.Some? { return Denied(bad.value); }
      var refused := ApprovalError(approvals, now, req);
      if refused.Some? { return Denied(refused.value); }
      var i := 0;
      while i < |jobs|
        invariant i <= |jobs|
        invariant forall k :: 0 <= k < i ==> !HasKey(jobs[k], req.tenant, req.key)
      {
        if HasKey(jobs[i], req.tenant, req.key) { return Accepted(i, false); }
        i := i + 1;
      }
      jobs := jobs + [NewJob(req, now)];
      r := Accepted(i, true);
      EnqueueKeeps(before, req, r, View());
    }

    method ReapExhaustedLeases() returns (count: nat)
      requires Inv(View())
      modifies this`jobs
      ensures View() == Reaped(old(View()))
      ensures count == ReapableCount(now, old(jobs))
      ensures AllReaped(old(jobs), jobs, now)
      ensures Inv(View())
    {
      ghost var before := View();
      count := 0;
      var i := 0;
      while i < |jobs|
        invariant i <= |jobs| == |before.jobs|
        invariant forall k :: 0 <= k < i ==> jobs[k] == ReapRow(now, before.jobs[k])
        invariant forall k :: i <= k < |jobs| ==> jobs[k] == before.jobs[k]
        invariant count == ReapableCount(now, before.jobs[..i])
      {
        assert before.jobs[..i + 1][..i] == before.jobs[..i];
        var job := jobs[i];
        if Reapable(now, job) {
          jobs := jobs[i := job.(state := DeadLetter, lease := None,
                                 completedAt := if job.completedAt.None? then Some(now) else job.completedAt,
                                 errorCode := if job.errorCode.None?
                                              then Some("LEASE_ATTEMPTS_EXHAUSTED") else job.errorCode)];
          count := count + 1;
        }
        i := i + 1;
      }
      assert before.jobs[..i] == before.jobs;
      assert jobs == Reaped(before).jobs;
      ReapedRight(before);
      ReapKeeps(before);
    }

    /** The `aged` part of the claim query. */
    method OldestAged(queue: string) returns (best: Option<JobId>)
      ensures match best
              case Some(i) => AgedPick(View(), queue, i)
              case None => NoneAged(View(), queue)
    {
      best := None;
      var i := 0;
      while i < |jobs|
        invariant i <= |jobs|
        invariant best.Some? ==> best.value < i && Aged(View(), jobs[best.value], queue)
        invariant forall k :: 0 <= k < i && Aged(View(), jobs[k], queue) ==>
                    best.Some? && NotLater(jobs[best.value], jobs[k])
      {
        var job := jobs[i];
        var aged := && job.queue == queue && job.state.Waiting() && job.attempts < job.maxAttempts
                    && DueBy(now - settings.starvationSeconds, job)
                    && ("privacy:" <= job.jobType || job.tenant !in inactive);
        assert aged == Aged(View(), job, queue);
        if aged && (best.None? || !NotLater(jobs[best.value], job)) {
          best := Some(i);
        }
        i := i + 1;
      }
    }

    /** The `prioritized` part of the claim query. */
    method BestReady(queue: string) returns (best: Option<JobId>)
      ensures match best
              case Some(i) => ReadyPick(View(), queue, i)
              case None => NoneReady(View(), queue)
    {
      best := None;
      var i := 0;
      while i < |jobs|
        invariant i <= |jobs|
        invariant best.Some? ==> best.value < i && Ready(View(), jobs[best.value], queue)
        invariant forall k :: 0 <= k < i && Ready(View(), jobs[k], queue) ==>
                    best.Some? && NotBehind(jobs[best.value], jobs[k])
      {
        var job := jobs[i];
        var ready := && job.queue == queue && job.attempts < job.maxAttempts && DueBy(now, job)
                     && (job.state.Waiting() || LeaseExpired(now, job))
                     && ("privacy:" <= job.jobType || job.tenant !in inactive);
        assert ready == Ready(View(), job, queue);
        if ready && (best.None? || !NotBehind(jobs[best.value], job)) {
          best := Some(i);
        }
        i := i + 1;
      }
    }

    /** The UPDATE of the claim query and the attempt row that goes with it. */
    method TakeLease(i: JobId, worker: Worker, token: Token) returns (snap: Snapshot)
      requires i < |jobs|
      modifies this`jobs, this`attempts, this`held
      ensures View() == Claimed(old(View()), i, worker, token)
      ensures snap == SnapshotOf(i, View().jobs[i], worker, token)
      ensures Effective(View(), snap)
    {
      var job := jobs[i];
      jobs := jobs[i := job.(state := Leased, lease := Some(Lease(worker, token, now + settings.leaseSeconds)),
                             attempts := job.attempts + 1,
                             startedAt := if job.startedAt.None? then Some(now) else job.startedAt)];
      attempts := attempts + [Attempt(i, job.attempts + 1, worker, token)];
      snap := Snapshot(i, worker, token, job.attempts + 1, job.maxAttempts);
      held := held + [snap];
    }

    /** Reap, then lease the oldest aged job, or else the best ready one, under a fresh token. */
    method ClaimNextJob(worker: Worker, queue: string, token: Token)
        returns (snap: Option<Snapshot>, ghost pick: Option<JobId>)
      requires Inv(View()) && FreshToken(View(), token)
      modifies this`jobs, this`attempts, this`held
      ensures Next(old(View()), ClaimJob(worker, queue, token, pick), View())
      ensures snap.Some? <==> pick.Some?
      ensures snap.Some? ==> snap.value.job == pick.value < |jobs|
                             && snap.value == SnapshotOf(pick.value, View().jobs[pick.value], worker, token)
                             && held == old(held) + [snap.value] && Effective(View(), snap.value)
      ensures GivesOut(old(View()), View(), worker, queue, token, pick)
      ensures Inv(View())
    {
      ghost var before := View();
      var reaped := ReapExhaustedLeases();
      var chosen := OldestAged(queue);
      if chosen.None? {
        chosen := BestReady(queue);
      }
      pick := chosen;
      snap := None;
      if chosen.Some? {
        var taken := TakeLease(chosen.value, worker, token);
        snap := Some(taken);
      }
      assert ClaimStep(before, worker, queue, token, pick, View());
      ClaimGivesOut(before, worker, queue, token, pick, View());
      ClaimKeeps(before, worker, queue, token, pick, View());
    }

    /** The WHERE clause every guarded update shares. */
    method HoldsLease(snap: Snapshot) returns (ok: bool)
      ensures ok == Effective(View(), snap)
    {
      ok := snap.job < |jobs| && jobs[snap.job].lease.Some? && jobs[snap.job].lease.value.owner == snap.worker
            && jobs[snap.job].lease.value.token == snap.token;
    }

    method MarkJobRunning(snap: Snapshot) returns (ok: bool)
      modifies this`jobs
      ensures View() == LeaseUpdate(old(View()), snap, MarkRunning) && ok == Effective(old(View()), snap)
      ensures !ok ==> jobs == old(jobs)
      ensures ok ==> snap.job < |old(jobs)| && jobs == old(jobs)[snap.job := old(jobs)[snap.job].(
                state := Running, errorCode := None,
                lease := Some(Lease(snap.worker, snap.token, now + settings.leaseSeconds)))]
    {
      ok := HoldsLease(snap);
      if ok {
        jobs := jobs[snap.job := jobs[snap.job].(
          state := Running, lease := Some(Lease(snap.worker, snap.token, now + settings.leaseSeconds)),
          errorCode := None)];
      }
    }

    method HeartbeatJob(snap: Snapshot, progress: int) returns (ok: bool)
      modifies this`jobs
      ensures View() == LeaseUpdate(old(View()), snap, Heartbeat(progress)) && ok == Effective(old(View()), snap)
      ensures !ok ==> jobs == old(jobs)
      ensures ok ==> snap.job < |old(jobs)| && jobs == old(jobs)[snap.job := old(jobs)[snap.job].(
                progress := jobs[snap.job].progress,
                lease := Some(Lease(snap.worker, snap.token, now + settings.leaseSeconds)))]
      ensures ok ==> var shown := jobs[snap.job].progress;
                     0 <= shown <= 9999 && (0 <= progress <= 9999 ==> shown == progress)
                     && (progress > 9999 ==> shown == 9999)
    {
      ok := HoldsLease(snap);
      if ok {
        var shown := if progress > 9999 then 9999 else if progress < 0 then 0 else progress;
        jobs := jobs[snap.job := jobs[snap.job].(
          progress := shown, lease := Some(Lease(snap.worker, snap.token, now + settings.leaseSeconds)))];
      }
    }

    method ExtendLease(snap: Snapshot) returns (ok: bool)
      modifies this`jobs
      ensures View() == LeaseUpdate(old(View()), snap, Extend) && ok == Effective(old(View()), snap)
      ensures !ok ==> jobs == old(jobs)
      ensures ok ==> snap.job < |old(jobs)| && jobs == old(jobs)[snap.job := old(jobs)[snap.job].(
                lease := Some(Lease(snap.worker, snap.token, now + settings.leaseSeconds)))]
    {
      ok := HoldsLease(snap);
      if ok {
        jobs := jobs[snap.job := jobs[snap.job].(
          lease := Some(Lease(snap.worker, snap.token, now + settings.leaseSeconds)))];
      }
    }

    method CompleteJob(snap: Snapshot, partly: bool, result: string) returns (ok: bool)
      modifies this`jobs
      ensures View() == LeaseUpdate(old(View()), snap, Complete(partly, result)) && ok == Effective(old(View()), snap)
      ensures !ok ==> jobs == old(jobs)
      ensures ok ==> snap.job < |old(jobs)| && jobs == old(jobs)[snap.job := old(jobs)[snap.job].(
                state := if partly then Partial else Succeeded, result := Some(result), progress := 10000,
                completedAt := Some(now), lease := None, errorCode := None)]
    {
      ok := HoldsLease(snap);
      if ok {
        jobs := jobs[snap.job := jobs[snap.job].(
          state := if partly then Partial else Succeeded, result := Some(result), progress := 10000,
          completedAt := Some(now), lease := None, errorCode := None)];
      }
    }

    method FailJob(snap: Snapshot, code: string, terminal: bool) returns (ok: bool)
      modifies this`jobs
      ensures View() == LeaseUpdate(old(View()), snap, Fail(code, terminal)) && ok == Effective(old(View()), snap)
      ensures !ok ==> jobs == old(jobs)
      ensures ok ==> snap.job < |old(jobs)| && jobs == old(jobs)[snap.job := jobs[snap.job]]
                     && FailedAs(old(jobs)[snap.job], jobs[snap.job], snap, code, terminal, now)
    {
      var attempt := if snap.attempts == 0 then 1 else snap.attempts;
      var limit := if snap.maxAttempts == 0 then 1 else snap.maxAttempts;
      var backoff, n := 5, 1;
      while n < attempt
        invariant 1 <= n <= attempt
        invariant backoff == 5 * Doubled(n - 1)
      {
        backoff, n := 2 * backoff, n + 1;
      }
      var retry := if backoff < 3600 then backoff else 3600;
      ok := HoldsLease(snap);
      if ok {
        var job := jobs[snap.job];
        if terminal || attempt >= limit {
          jobs := jobs[snap.job := job.(state := DeadLetter, errorCode := Some(code), nextRetry := None,
                                        completedAt := Some(now), lease := None)];
        } else {
          jobs := jobs[snap.job := job.(state := Failed, errorCode := Some(code), nextRetry := Some(now + retry),
                                        completedAt := None, lease := None)];
        }
      }
    }

    /** The worker holds the lease of a job it snapshot itself. */
    ghost predicate Owns(snap: Snapshot)
      reads this
    {
      && Inv(View()) && snap in held && Effective(View(), snap)
      && snap == SnapshotOf(snap.job, jobs[snap.job], snap.worker, snap.token)
    }

    /** mark_running and the first progress report. */
    method Start(snap: Snapshot)
      requires Owns(snap)
      modifies this`jobs
      ensures Owns(snap) && jobs[snap.job].state == Running
    {
      HeldKeeps(View(), snap, MarkRunning);
      var ok := MarkJobRunning(snap);
      HeldKeeps(View(), snap, Heartbeat(100));
      ok := HeartbeatJob(snap, 100);
    }

    /** The handler's result, its error, or nothing at all, becomes the job's state. */
    method Record(snap: Snapshot, outcome: Outcome)
      requires Owns(snap) && (outcome.Dies? ==> jobs[snap.job].state == Running)
      modifies this`jobs
      ensures Inv(View()) && snap.job < |jobs| && RecordedAs(jobs[snap.job], outcome)
    {
      assert RowOk(jobs[snap.job]);
      match outcome
      case NoHandler =>
        HeldKeeps(View(), snap, Fail("NO_JOB_HANDLER", false));
        var ok := FailJob(snap, "NO_JOB_HANDLER", false);
      case Finishes(partly, result) =>
        HeldKeeps(View(), snap, Complete(partly, result));
        var ok := CompleteJob(snap, partly, result);
      case Raises =>
        HeldKeeps(View(), snap, Fail("JOB_HANDLER_ERROR", false));
        var ok := FailJob(snap, "JOB_HANDLER_ERROR", false);
      case RaisesTerminal(code) =>
        HeldKeeps(View(), snap, Fail(code, true));
        var ok := FailJob(snap, code, true);
      case Dies =>
    }

    method RunClaimed(snap: Snapshot, outcome: Outcome)
      requires Owns(snap)
      modifies this`jobs
      ensures Inv(View()) && snap.job < |jobs| && RecordedAs(jobs[snap.job], outcome)
    {
      if !outcome.NoHandler? {
        Start(snap);
      }
      Record(snap, outcome);
    }

    /** One turn of a worker's loop that nobody interferes with: claim, run the handler, record how it
        went. `done` is the snapshot it worked on; without one, nothing in the queue was claimable. */
    method WorkOnce(worker: Worker, queue: string, token: Token, outcome: Outcome) returns (done: Option<Snapshot>)
      requires Inv(View()) && FreshToken(View(), token)
      modifies this`jobs, this`attempts, this`held
      ensures Inv(View())
      ensures done.None? ==> View() == Reaped(old(View())) && NoneReady(View(), queue) && NoneAged(View(), queue)
      ensures done.Some? ==> held == old(held) + [done.value] && done.value.token == token
      ensures done.Some? ==> done.value.job < |jobs| && RecordedAs(jobs[done.value.job], outcome)
    {
      ghost var pick;
      done, pick := ClaimNextJob(worker, queue, token);
      if done.Some? {
        RunClaimed(done.value, outcome);
      }
    }
  }

  lemma HeldKeeps(s: Store, snap: Snapshot, op: LeaseOp)
    requires Inv(s) && snap in s.held
    ensures Inv(LeaseUpdate(s, snap, op))
  {
    var h :| 0 <= h < |s.held| && s.held[h] == snap;
    LeaseUpdateKeeps(s, h, op);
  }

  /** How a job must look after a worker ran it undisturbed. */
  ghost predicate RecordedAs(job: Job, outcome: Outcome) {
    match outcome
    case Finishes(partly, result) =>
      job.state == (if partly then Partial else Succeeded) && job.result == Some(result) && job.lease.None?
    case RaisesTerminal(code) => job.state == DeadLetter && job.errorCode == Some(code) && job.lease.None?
    case Dies => job.state == Running && job.lease.Some?
    case _ =>
      && job.lease.None? && job.errorCode.Some?
      && job.state == (if job.attempts < job.maxAttempts then Failed else DeadLetter)
  }
}
