/** The durable job queue of backend/automation_jobs.py: its rows, and each transaction as one atomic
    step on them. Workers keep the row they claimed as a private, possibly stale, snapshot. */
module JobTable {
  import opened Options
  import opened Approvals

  type Worker = string
  type Token = nat
  type JobId = nat

  datatype JobState = Queued | Leased | Running | Succeeded | Partial | Failed | DeadLetter | Cancelled {
    predicate Live() {
      Leased? || Running?
    }

    predicate Waiting() {
      Queued? || Failed?
    }

    predicate Terminal() {
      !Live() && !Waiting()
    }
  }

  /** lease_owner, lease_token and lease_expires_at are null together (constraint chk_job_lease). */
  datatype Lease = Lease(owner: Worker, token: Token, expires: int)

  datatype Job = Job(
    tenant: Tenant, jobType: string, queue: string, state: JobState, risk: Risk, payload: string,
    priority: int, scheduledAt: int, createdAt: int, key: string, approval: Option<ApprovalId>,
    attempts: nat, maxAttempts: nat, nextRetry: Option<int>, lease: Option<Lease>,
    startedAt: Option<int>, completedAt: Option<int>, progress: int, result: Option<string>,
    errorCode: Option<string>)

  /** One row of automation_job_attempts. */
  datatype Attempt = Attempt(job: JobId, number: nat, worker: Worker, token: Token)

  /** What a worker remembers of the row it claimed. */
  datatype Snapshot = Snapshot(job: JobId, worker: Worker, token: Token, attempts: nat, maxAttempts: nat)

  /** ORACLE_JOB_LEASE_SECONDS and ORACLE_JOB_STARVATION_SECONDS, with the floors the module applies. */
  datatype Settings = Settings(leaseSeconds: nat, starvationSeconds: nat) {
    ghost predicate Valid() {
      30 <= leaseSeconds && 5 <= starvationSeconds
    }
  }

  /** Everything the queue's transactions read or write. `held` lists every snapshot a claim ever
      returned, oldest first; a worker may act on any of them at any time, or never (it crashed). */
  datatype Store = Store(
    settings: Settings, now: int, inactive: set<Tenant>, approvals: Table,
    jobs: seq<Job>, attempts: seq<Attempt>, held: seq<Snapshot>)

  // ---- Enqueue ----

  datatype Request = Request(
    tenant: Tenant, jobType: string, queue: string, risk: Risk, payload: string, priority: int,
    maxAttempts: int, key: string, scheduledAt: Option<int>, approval: Option<ApprovalId>)

  datatype EnqueueError =
    | BadType | BadKey | BadPriority | BadAttempts
    | ApprovalMissing | ApprovalNotFound | NotApproved | ApprovalExpired | PayloadChanged

  datatype EnqueueResult = Denied(error: EnqueueError) | Accepted(job: JobId, created: bool)

  function RequestError(req: Request): Option<EnqueueError> {
    if req.jobType == "" || |req.jobType| > 120 then Some(BadType)
    else if req.key == "" || |req.key| > 240 then Some(BadKey)
    else if !(0 <= req.priority <= 100) then Some(BadPriority)
    else if !(1 <= req.maxAttempts <= 20) then Some(BadAttempts)
    else None
  }

  function ApprovalError(approvals: Table, now: int, req: Request): Option<EnqueueError> {
    if !RequiresApproval(req.risk) then None
    else if req.approval.None? then Some(ApprovalMissing)
    else if req.approval.value !in approvals || approvals[req.approval.value].tenant != req.tenant then
      Some(ApprovalNotFound)
    else
      var ap := approvals[req.approval.value];
      if !ap.status.Approved? then Some(NotApproved)
      else if ap.expiresAt <= now then Some(ApprovalExpired)
      else if ap.payload != req.payload then Some(PayloadChanged)
      else None
  }

  function NewJob(req: Request, now: int): Job
    requires RequestError(req).None?
  {
    Job(req.tenant, req.jobType, req.queue, Queued, req.risk, req.payload, req.priority,
        if req.scheduledAt.Some? then req.scheduledAt.value else now, now, req.key, req.approval,
        0, req.maxAttempts, None, None, None, None, 0, None, None)
  }

  predicate HasKey(job: Job, tenant: Tenant, key: string) {
    job.tenant == tenant && job.key == key
  }

  /** The outcome of enqueue_job; the store is changed exactly when a job is created. */
  ghost predicate EnqueueStep(s: Store, req: Request, r: EnqueueResult, t: Store) {
    match (RequestError(req), ApprovalError(s.approvals, s.now, req))
    case (Some(e), _) => r == Denied(e) && t == s
    case (None, Some(e)) => r == Denied(e) && t == s
    case (None, None) =>
      match r
      case Denied(_) => false
      case Accepted(id, false) => id < |s.jobs| && HasKey(s.jobs[id], req.tenant, req.key) && t == s
      case Accepted(id, true) =>
        && id == |s.jobs|
        && (forall i :: 0 <= i < |s.jobs| ==> !HasKey(s.jobs[i], req.tenant, req.key))
        && t == s.(jobs := s.jobs + [NewJob(req, s.now)])
  }

  // ---- Claim ----

  function ReapRow(now: int, job: Job): Job {
    if Reapable(now, job) then
      job.(state := DeadLetter, lease := None,
           completedAt := if job.completedAt.None? then Some(now) else job.completedAt,
           errorCode := if job.errorCode.None? then Some("LEASE_ATTEMPTS_EXHAUSTED") else job.errorCode)
    else job
  }

  predicate LeaseExpired(now: int, job: Job) {
    job.state.Live() && job.lease.Some? && job.lease.value.expires < now
  }

  predicate Reapable(now: int, job: Job) {
    LeaseExpired(now, job) && job.attempts >= job.maxAttempts
  }

  function Reaped(s: Store): Store {
    s.(jobs := seq(|s.jobs|, i requires 0 <= i < |s.jobs| => ReapRow(s.now, s.jobs[i])))
  }

  /** A closing or suspended brokerage does no work, except the privacy jobs that close it down. */
  predicate TenantOpen(s: Store, job: Job) {
    "privacy:" <= job.jobType || job.tenant !in s.inactive
  }

  predicate DueBy(time: int, job: Job) {
    job.scheduledAt <= time && (job.nextRetry.None? || job.nextRetry.value <= time)
  }

  predicate Aged(s: Store, job: Job, queue: string) {
    && job.queue == queue
    && job.state.Waiting()
    && job.attempts < job.maxAttempts
    && DueBy(s.now - s.settings.starvationSeconds, job)
    && TenantOpen(s, job)
  }

  predicate Ready(s: Store, job: Job, queue: string) {
    && job.queue == queue
    && job.attempts < job.maxAttempts
    && DueBy(s.now, job)
    && (job.state.Waiting() || LeaseExpired(s.now, job))
    && TenantOpen(s, job)
  }

  /** ORDER BY scheduled_at, created_at */
  predicate NotLater(a: Job, b: Job) {
    TimesNotLater(a.scheduledAt, a.createdAt, b.scheduledAt, b.createdAt)
  }

  predicate TimesNotLater(scheduled: int, created: int, scheduled': int, created': int) {
    scheduled < scheduled' || (scheduled == scheduled' && created <= created')
  }

  /** ORDER BY priority, scheduled_at, created_at */
  predicate NotBehind(a: Job, b: Job) {
    a.priority < b.priority || (a.priority == b.priority && NotLater(a, b))
  }

  ghost predicate AgedPick(s: Store, queue: string, i: JobId) {
    && i < |s.jobs| && Aged(s, s.jobs[i], queue)
    && forall k :: 0 <= k < |s.jobs| && Aged(s, s.jobs[k], queue) ==> NotLater(s.jobs[i], s.jobs[k])
  }

  ghost predicate ReadyPick(s: Store, queue: string, i: JobId) {
    && i < |s.jobs| && Ready(s, s.jobs[i], queue)
    && forall k :: 0 <= k < |s.jobs| && Ready(s, s.jobs[k], queue) ==> NotBehind(s.jobs[i], s.jobs[k])
  }

  ghost predicate NoneAged(s: Store, queue: string) {
    forall k :: 0 <= k < |s.jobs| ==> !Aged(s, s.jobs[k], queue)
  }

  ghost predicate NoneReady(s: Store, queue: string) {
    forall k :: 0 <= k < |s.jobs| ==> !Ready(s, s.jobs[k], queue)
  }

  /** Which row the claim may take: the oldest aged one; without any, the best ready one. */
  ghost predicate ClaimPick(s: Store, queue: string, pick: Option<JobId>) {
    match pick
    case Some(i) => AgedPick(s, queue, i) || (NoneAged(s, queue) && ReadyPick(s, queue, i))
    case None => NoneAged(s, queue) && NoneReady(s, queue)
  }

  function ClaimRow(s: Store, job: Job, worker: Worker, token: Token): Job {
    job.(state := Leased, lease := Some(Lease(worker, token, s.now + s.settings.leaseSeconds)),
         attempts := job.attempts + 1,
         startedAt := if job.startedAt.None? then Some(s.now) else job.startedAt)
  }

  function SnapshotOf(id: JobId, job: Job, worker: Worker, token: Token): Snapshot {
    Snapshot(id, worker, token, job.attempts, job.maxAttempts)
  }

  function Claimed(s: Store, i: JobId, worker: Worker, token: Token): Store
    requires i < |s.jobs|
  {
    var row := ClaimRow(s, s.jobs[i], worker, token);
    s.(jobs := s.jobs[i := row],
       attempts := s.attempts + [Attempt(i, row.attempts, worker, token)],
       held := s.held + [SnapshotOf(i, row, worker, token)])
  }

  predicate FreshToken(s: Store, token: Token) {
    forall h :: 0 <= h < |s.held| ==> s.held[h].token != token
  }

  ghost predicate ClaimStep(s: Store, worker: Worker, queue: string, token: Token, pick: Option<JobId>, t: Store) {
    && ClaimPick(Reaped(s), queue, pick)
    && t == match pick
            case None => Reaped(s)
            case Some(i) => Claimed(Reaped(s), i, worker, token)
  }

  // ---- Transactions guarded by the lease ----

  datatype LeaseOp =
    | MarkRunning
    | Heartbeat(progress: int)                       // in hundredths of a percent
    | Extend
    | Complete(partly: bool, result: string)
    | Fail(code: string, terminal: bool)

  predicate Matches(job: Job, snap: Snapshot) {
    job.lease.Some? && job.lease.value.owner == snap.worker && job.lease.value.token == snap.token
  }

  function Doubled(n: nat): nat {
    if n == 0 then 1 else 2 * Doubled(n - 1)
  }

  function RetrySeconds(attempt: nat): nat {
    var backoff := 5 * Doubled(if attempt == 0 then 0 else attempt - 1);
    if backoff < 3600 then backoff else 3600
  }

  /** `int(job.get(...) or 1)`: a zero in the snapshot reads as one. */
  function OrOne(n: nat): nat {
    if n == 0 then 1 else n
  }

  /** fail_job decides between retry and dead letter from the worker's snapshot, never from the row. */
  predicate GivesUp(snap: Snapshot, terminal: bool) {
    terminal || OrOne(snap.attempts) >= OrOne(snap.maxAttempts)
  }

  function ClampProgress(progress: int): int {
    var capped := if progress < 9999 then progress else 9999;
    if capped > 0 then capped else 0
  }

  function Renewed(s: Store, job: Job): Option<Lease>
    requires job.lease.Some?
  {
    Some(job.lease.value.(expires := s.now + s.settings.leaseSeconds))
  }

  function OpRow(s: Store, job: Job, snap: Snapshot, op: LeaseOp): Job
    requires job.lease.Some?
  {
    match op
    case MarkRunning => job.(state := Running, lease := Renewed(s, job), errorCode := None)
    case Heartbeat(progress) => job.(progress := ClampProgress(progress), lease := Renewed(s, job))
    case Extend => job.(lease := Renewed(s, job))
    case Complete(partly, result) =>
      job.(state := if partly then Partial else Succeeded, result := Some(result), progress := 10000,
           completedAt := Some(s.now), lease := None, errorCode := None)
    case Fail(code, terminal) =>
      if GivesUp(snap, terminal)
      then job.(state := DeadLetter, errorCode := Some(code), nextRetry := None, completedAt := Some(s.now),
                lease := None)
      else job.(state := Failed, errorCode := Some(code), nextRetry := Some(s.now + RetrySeconds(OrOne(snap.attempts))),
                completedAt := None, lease := None)
  }

  /** Does the guarded UPDATE find its row? When not, the worker gets JobLeaseLost. */
  predicate Effective(s: Store, snap: Snapshot) {
    snap.job < |s.jobs| && Matches(s.jobs[snap.job], snap)
  }

  function LeaseUpdate(s: Store, snap: Snapshot, op: LeaseOp): Store {
    if Effective(s, snap)
    then s.(jobs := s.jobs[snap.job := OpRow(s, s.jobs[snap.job], snap, op)])
    else s
  }

  // ---- Cancellation from outside the module (backend/sales_api.py) ----

  function CancelJob(s: Store, id: JobId): Store {
    if id < |s.jobs| && s.jobs[id].state.Waiting()
    then s.(jobs := s.jobs[id := s.jobs[id].(state := Cancelled, completedAt := Some(s.now))])
    else s
  }

  // ---- Retention (privacy_retention_sweep): the skeleton of a finished job stays, its content goes ----

  function Emptied(job: Job): Job {
    job.(payload := "{}", result := Some("{}"))
  }

  function SweepJob(s: Store, id: JobId): Store {
    if id < |s.jobs| && s.jobs[id].state.Terminal()
    then s.(jobs := s.jobs[id := Emptied(s.jobs[id])])
    else s
  }

  // ---- All steps of the system ----

  datatype Action =
    | EnqueueJob(request: Request, outcome: EnqueueResult)
    | ClaimJob(worker: Worker, queue: string, token: Token, pick: Option<JobId>)
    | UseLease(holder: nat, op: LeaseOp)             // some worker acts on held[holder]
    | Tick(seconds: nat)
    | SetLifecycle(tenant: Tenant, active: bool)
    | Cancel(job: JobId)
    | Sweep(job: JobId)
    | RequestApproval(id: ApprovalId, caller: Caller, actionType: string, risk: Risk, payload: string, minutes: int)
    | DecideApproval(id: ApprovalId, caller: Caller, approve: bool, expectedType: Option<string>)
    | WithdrawPending(id: ApprovalId, caller: Caller)
    | WithdrawDocument(id: ApprovalId, caller: Caller)

  ghost predicate Next(s: Store, a: Action, t: Store) {
    match a
    case EnqueueJob(req, outcome) => EnqueueStep(s, req, outcome, t)
    case ClaimJob(worker, queue, token, pick) => FreshToken(s, token) && ClaimStep(s, worker, queue, token, pick, t)
    case UseLease(holder, op) => holder < |s.held| && t == LeaseUpdate(s, s.held[holder], op)
    case Tick(seconds) => t == s.(now := s.now + seconds)
    case SetLifecycle(tenant, active) =>
      t == s.(inactive := if active then s.inactive - {tenant} else s.inactive + {tenant})
    case Cancel(id) => t == CancelJob(s, id)
    case Sweep(id) => t == SweepJob(s, id)
    case RequestApproval(id, caller, actionType, risk, payload, minutes) =>
      && id !in s.approvals
      && !risk.ReadOnly?
      && t == s.(approvals := s.approvals[id := NewApproval(caller, actionType, risk, payload, minutes, s.now)])
    case DecideApproval(id, caller, approve, expectedType) =>
      t == s.(approvals := Decide(s.approvals, caller, id, approve, expectedType, s.now).0)
    case WithdrawPending(id, caller) => t == s.(approvals := RevokePending(s.approvals, caller, id))
    case WithdrawDocument(id, caller) => t == s.(approvals := RevokeDocument(s.approvals, caller, id))
  }

  ghost predicate Init(s: Store) {
    s.settings.Valid() && s.approvals == map[] && s.jobs == [] && s.attempts == [] && s.held == []
  }

  /** `states` is the sequence of stores a run visits, one more than the actions it takes. */
  ghost predicate IsRun(states: seq<Store>, acts: seq<Action>) {
    && |states| == |acts| + 1
    && forall k {:trigger acts[k]} :: 0 <= k < |acts| ==> Next(states[k], acts[k], states[k + 1])
  }
}
