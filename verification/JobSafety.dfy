/** What every step of the job queue keeps, and what that means over whole runs. */
module JobSafety {
  import opened Options
  import opened Approvals
  import opened JobTable

  // ---- Sums over the job table ----

  function Sum(jobs: seq<Job>, weight: (nat, Job) -> int): int {
    if jobs == [] then 0
    else Sum(jobs[..|jobs| - 1], weight) + weight(|jobs| - 1, jobs[|jobs| - 1])
  }

  lemma {:induction false} SumUpdate(jobs: seq<Job>, i: nat, job: Job, weight: (nat, Job) -> int)
    requires i < |jobs|
    ensures Sum(jobs[i := job], weight) == Sum(jobs, weight) - weight(i, jobs[i]) + weight(i, job)
  {
    var last := |jobs| - 1;
    if i == last {
      assert jobs[i := job][..last] == jobs[..last];
    } else {
      assert jobs[i := job][..last] == jobs[..last][i := job];
      SumUpdate(jobs[..last], i, job, weight);
    }
  }

  lemma SumAppend(jobs: seq<Job>, job: Job, weight: (nat, Job) -> int)
    ensures Sum(jobs + [job], weight) == Sum(jobs, weight) + weight(|jobs|, job)
  {
    assert (jobs + [job])[..|jobs|] == jobs;
  }

  lemma {:induction false} SumBelow(jobs: seq<Job>, other: seq<Job>, weight: (nat, Job) -> int,
      weight': (nat, Job) -> int)
    requires |jobs| == |other|
    requires forall i :: 0 <= i < |jobs| ==> weight(i, jobs[i]) <= weight'(i, other[i])
    ensures Sum(jobs, weight) <= Sum(other, weight')
  {
    if jobs != [] {
      SumBelow(jobs[..|jobs| - 1], other[..|jobs| - 1], weight, weight');
    }
  }

  function AttemptWeight(): (nat, Job) -> int {
    (i: nat, job: Job) => job.attempts
  }

  function LimitWeight(): (nat, Job) -> int {
    (i: nat, job: Job) => job.maxAttempts
  }

  // ---- The invariant ----

  ghost predicate RowOk(job: Job) {
    && 1 <= job.maxAttempts <= 20
    && job.attempts <= job.maxAttempts
    && (job.state.Live() <==> job.lease.Some?)
    && (job.state.Live() ==> 1 <= job.attempts)
    && (job.state.Queued? ==> job.attempts == 0)
    && (job.state.Failed? ==> job.attempts < job.maxAttempts)
  }

  /** Snapshot `h` is a copy of a row that has not been claimed fewer times since, and of an attempt row. */
  ghost predicate HeldOk(s: Store, h: nat)
    requires h < |s.held| == |s.attempts|
  {
    var snap := s.held[h];
    && snap.job < |s.jobs|
    && 1 <= snap.attempts <= s.jobs[snap.job].attempts
    && snap.maxAttempts == s.jobs[snap.job].maxAttempts
    && s.attempts[h] == Attempt(snap.job, snap.attempts, snap.worker, snap.token)
  }

  /** Of two snapshots the tokens differ, and for one job the later counts more attempts. */
  ghost predicate Ordered(s: Store, h: nat, g: nat)
    requires h < |s.held| && g < |s.held|
  {
    && s.held[h].token != s.held[g].token
    && (s.held[h].job == s.held[g].job ==> s.held[h].attempts < s.held[g].attempts)
  }

  /** `h` is the snapshot of the claim that holds job `i`'s lease. */
  ghost predicate Holder(s: Store, i: JobId, h: nat)
    requires i < |s.jobs| && h < |s.held|
  {
    s.held[h].job == i && Matches(s.jobs[i], s.held[h]) && s.held[h].attempts == s.jobs[i].attempts
  }

  /** The attempt numbers recorded for job `i`, oldest first. */
  function Numbers(attempts: seq<Attempt>, i: JobId): seq<nat> {
    if attempts == [] then []
    else
      var last := attempts[|attempts| - 1];
      Numbers(attempts[..|attempts| - 1], i) + if last.job == i then [last.number] else []
  }

  function UpTo(n: nat): (r: seq<nat>)
    ensures |r| == n && forall k :: 0 <= k < n ==> r[k] == k + 1
  {
    seq(n, k requires 0 <= k < n => k + 1)
  }

  ghost predicate KeysDistinct(jobs: seq<Job>) {
    forall i, k :: 0 <= i < |jobs| && 0 <= k < |jobs| && HasKey(jobs[k], jobs[i].tenant, jobs[i].key) ==> i == k
  }

  ghost predicate Inv(s: Store) {
    && s.settings.Valid()
    && |s.held| == |s.attempts|
    && (forall i :: 0 <= i < |s.jobs| ==> RowOk(s.jobs[i]))
    && (forall h :: 0 <= h < |s.held| ==> HeldOk(s, h))
    && (forall h, g :: 0 <= h < g < |s.held| ==> Ordered(s, h, g))
    && (forall i :: 0 <= i < |s.jobs| && s.jobs[i].lease.Some? ==> exists h :: 0 <= h < |s.held| && Holder(s, i, h))
    && (forall i :: 0 <= i < |s.jobs| ==> Numbers(s.attempts, i) == UpTo(s.jobs[i].attempts))
    && (forall k :: 0 <= k < |s.attempts| ==> s.attempts[k].job < |s.jobs|)
    && KeysDistinct(s.jobs)
    && Sum(s.jobs, AttemptWeight()) == |s.attempts|
  }

  // ---- Snapshots and tokens ----

  /** A worker whose token still matches holds the row's own attempt count: retry or dead letter, decided
      from the snapshot, is decided as the row would. */
  lemma TokenMeansCurrent(s: Store, h: nat)
    requires Inv(s) && h < |s.held| && Effective(s, s.held[h])
    ensures Holder(s, s.held[h].job, h)
    ensures forall g :: 0 <= g < |s.held| && s.held[g].job == s.held[h].job ==> g <= h
  {
    var i := s.held[h].job;
    var g :| 0 <= g < |s.held| && Holder(s, i, g);
    assert s.held[g].token == s.held[h].token;
    assert g < h ==> Ordered(s, g, h);
    assert h < g ==> Ordered(s, h, g);
    forall k | 0 <= k < |s.held| && s.held[k].job == i ensures k <= h {
      assert HeldOk(s, k);
      assert h < k ==> Ordered(s, h, k);
    }
  }

  lemma {:induction false} NumbersOfNew(attempts: seq<Attempt>, i: JobId)
    requires forall k :: 0 <= k < |attempts| ==> attempts[k].job < i
    ensures Numbers(attempts, i) == []
  {
    if attempts != [] {
      NumbersOfNew(attempts[..|attempts| - 1], i);
    }
  }

  // ---- Every step keeps the invariant ----

  /** The columns no transaction writes after the insert. */
  datatype Identity = Identity(
    tenant: Tenant, key: string, maxAttempts: nat, priority: int, risk: Risk,
    approval: Option<ApprovalId>, queue: string, jobType: string, scheduledAt: int, createdAt: int)

  function IdentityOf(job: Job): Identity {
    Identity(job.tenant, job.key, job.maxAttempts, job.priority, job.risk, job.approval,
             job.queue, job.jobType, job.scheduledAt, job.createdAt)
  }

  /** How every transaction but the claim changes a row: no new attempt, no new lease. */
  ghost predicate SameJob(a: Job, b: Job) {
    && IdentityOf(a) == IdentityOf(b)
    && a.attempts == b.attempts
    && (b.lease.Some? ==> a.lease.Some? && a.lease.value.owner == b.lease.value.owner
                          && a.lease.value.token == b.lease.value.token)
  }

  /** Jobs are never deleted, keep their identity, and never lose an attempt; the payload stays until the
      job is finished. */
  lemma JobsStay(s: Store, a: Action, t: Store, i: JobId)
    requires Next(s, a, t) && i < |s.jobs|
    ensures i < |t.jobs| && IdentityOf(t.jobs[i]) == IdentityOf(s.jobs[i]) && s.jobs[i].attempts <= t.jobs[i].attempts
    ensures t.jobs[i].payload == s.jobs[i].payload || s.jobs[i].state.Terminal()
  {
    if a.ClaimJob? {
      assert Reaped(s).jobs[i] == ReapRow(s.now, s.jobs[i]);
    }
  }

  /** Every row of `t` is the same job as its row in `s`, still well formed; nobody claimed anything. */
  ghost predicate ChangedInPlace(s: Store, t: Store) {
    && |t.jobs| == |s.jobs| && t.held == s.held && t.attempts == s.attempts && t.settings == s.settings
    && forall i :: 0 <= i < |s.jobs| ==> SameJob(s.jobs[i], t.jobs[i]) && RowOk(t.jobs[i])
  }

  lemma InPlaceHeld(s: Store, t: Store)
    requires Inv(s) && ChangedInPlace(s, t)
    ensures forall h :: 0 <= h < |t.held| ==> HeldOk(t, h)
    ensures forall h, g :: 0 <= h < g < |t.held| ==> Ordered(t, h, g)
    ensures forall i :: 0 <= i < |t.jobs| && t.jobs[i].lease.Some? ==> exists h :: 0 <= h < |t.held| && Holder(t, i, h)
  {
    forall h | 0 <= h < |t.held| ensures HeldOk(t, h) { assert HeldOk(s, h); }
    forall h, g | 0 <= h < g < |t.held| ensures Ordered(t, h, g) { assert Ordered(s, h, g); }
    forall i | 0 <= i < |t.jobs| && t.jobs[i].lease.Some? ensures exists h :: 0 <= h < |t.held| && Holder(t, i, h) {
      assert SameJob(s.jobs[i], t.jobs[i]);
      var h :| 0 <= h < |s.held| && Holder(s, i, h);
      assert Holder(t, i, h);
    }
  }

  lemma InPlaceCounts(s: Store, t: Store)
    requires Inv(s) && ChangedInPlace(s, t)
    ensures forall i :: 0 <= i < |t.jobs| ==> Numbers(t.attempts, i) == UpTo(t.jobs[i].attempts)
    ensures KeysDistinct(t.jobs)
    ensures Sum(t.jobs, AttemptWeight()) == |t.attempts|
  {
    forall i, k | 0 <= i < |t.jobs| && 0 <= k < |t.jobs| && HasKey(t.jobs[k], t.jobs[i].tenant, t.jobs[i].key)
      ensures i == k
    {
      assert SameJob(s.jobs[i], t.jobs[i]) && SameJob(s.jobs[k], t.jobs[k]);
    }
    forall i | 0 <= i < |s.jobs| ensures t.jobs[i].attempts == s.jobs[i].attempts {
      assert SameJob(s.jobs[i], t.jobs[i]);
    }
    SumBelow(s.jobs, t.jobs, AttemptWeight(), AttemptWeight());
    SumBelow(t.jobs, s.jobs, AttemptWeight(), AttemptWeight());
  }

  lemma InPlace(s: Store, t: Store)
    requires Inv(s) && ChangedInPlace(s, t)
    ensures Inv(t)
  {
    InPlaceHeld(s, t);
    InPlaceCounts(s, t);
  }

  lemma ReapKeeps(s: Store)
    requires Inv(s)
    ensures Inv(Reaped(s))
  {
    var t := Reaped(s);
    forall i | 0 <= i < |s.jobs| ensures SameJob(s.jobs[i], t.jobs[i]) && RowOk(t.jobs[i]) {
      assert RowOk(s.jobs[i]);
    }
    InPlace(s, t);
  }

  lemma OpRowOk(s: Store, h: nat, op: LeaseOp)
    requires Inv(s) && h < |s.held| && Effective(s, s.held[h])
    ensures var job := s.jobs[s.held[h].job]; var row := OpRow(s, job, s.held[h], op);
            SameJob(job, row) && RowOk(row)
  {
    TokenMeansCurrent(s, h);
    assert HeldOk(s, h) && RowOk(s.jobs[s.held[h].job]);
  }

  lemma LeaseUpdateKeeps(s: Store, h: nat, op: LeaseOp)
    requires Inv(s) && h < |s.held|
    ensures Inv(LeaseUpdate(s, s.held[h], op))
  {
    if Effective(s, s.held[h]) {
      OpRowOk(s, h, op);
      InPlace(s, LeaseUpdate(s, s.held[h], op));
    }
  }

  lemma AppendedHeld(s: Store, job: Job)
    requires Inv(s) && RowOk(job) && job.lease.None?
    ensures var t := s.(jobs := s.jobs + [job]);
            && (forall h :: 0 <= h < |t.held| ==> HeldOk(t, h))
            && (forall h, g :: 0 <= h < g < |t.held| ==> Ordered(t, h, g))
            && (forall i :: 0 <= i < |t.jobs| && t.jobs[i].lease.Some? ==>
                  exists h :: 0 <= h < |t.held| && Holder(t, i, h))
  {
    var t := s.(jobs := s.jobs + [job]);
    forall h | 0 <= h < |t.held| ensures HeldOk(t, h) { assert HeldOk(s, h); }
    forall h, g | 0 <= h < g < |t.held| ensures Ordered(t, h, g) { assert Ordered(s, h, g); }
    forall i | 0 <= i < |t.jobs| && t.jobs[i].lease.Some? ensures exists h :: 0 <= h < |t.held| && Holder(t, i, h) {
      var h :| 0 <= h < |s.held| && Holder(s, i, h);
      assert Holder(t, i, h);
    }
  }

  lemma AppendedCounts(s: Store, job: Job)
    requires Inv(s) && RowOk(job) && job.attempts == 0
    ensures var t := s.(jobs := s.jobs + [job]);
            && (forall i :: 0 <= i < |t.jobs| ==> Numbers(t.attempts, i) == UpTo(t.jobs[i].attempts))
            && Sum(t.jobs, AttemptWeight()) == |t.attempts|
  {
    NumbersOfNew(s.attempts, |s.jobs|);
    SumAppend(s.jobs, job, AttemptWeight());
  }

  lemma AppendedKeys(jobs: seq<Job>, job: Job)
    requires KeysDistinct(jobs)
    requires forall i :: 0 <= i < |jobs| ==> !HasKey(jobs[i], job.tenant, job.key)
    ensures KeysDistinct(jobs + [job])
  {
    var all := jobs + [job];
    forall i | 0 <= i < |jobs| ensures !HasKey(job, jobs[i].tenant, jobs[i].key) {
      assert !HasKey(jobs[i], job.tenant, job.key);
    }
    forall i, k | 0 <= i < |all| && 0 <= k < |all| && HasKey(all[k], all[i].tenant, all[i].key) ensures i == k {
      if i < |jobs| && k < |jobs| {
        assert all[i] == jobs[i] && all[k] == jobs[k];
      }
    }
  }

  lemma EnqueueKeeps(s: Store, req: Request, r: EnqueueResult, t: Store)
    requires Inv(s) && EnqueueStep(s, req, r, t)
    ensures Inv(t)
  {
    if t != s {
      var job := NewJob(req, s.now);
      AppendedHeld(s, job);
      AppendedCounts(s, job);
      AppendedKeys(s.jobs, job);
    }
  }

  ghost predicate Claimable(s: Store, i: JobId, token: Token) {
    Inv(s) && i < |s.jobs| && FreshToken(s, token) && s.jobs[i].attempts < s.jobs[i].maxAttempts
  }

  lemma ClaimedHeld(s: Store, i: JobId, worker: Worker, token: Token)
    requires Claimable(s, i, token)
    ensures var t := Claimed(s, i, worker, token);
            && (forall h :: 0 <= h < |t.held| ==> HeldOk(t, h))
            && (forall h, g :: 0 <= h < g < |t.held| ==> Ordered(t, h, g))
  {
    var t := Claimed(s, i, worker, token);
    var n := |s.held|;
    forall h | 0 <= h < |t.held| ensures HeldOk(t, h) {
      if h < n { assert HeldOk(s, h); }
    }
    forall h, g | 0 <= h < g < |t.held| ensures Ordered(t, h, g) {
      assert HeldOk(s, h);
      if g < n { assert Ordered(s, h, g); }
    }
  }

  lemma ClaimedLeases(s: Store, i: JobId, worker: Worker, token: Token)
    requires Claimable(s, i, token)
    ensures var t := Claimed(s, i, worker, token);
            && (forall k :: 0 <= k < |t.jobs| ==> RowOk(t.jobs[k]))
            && (forall k :: 0 <= k < |t.jobs| && t.jobs[k].lease.Some? ==>
                  exists h :: 0 <= h < |t.held| && Holder(t, k, h))
  {
    var t := Claimed(s, i, worker, token);
    assert RowOk(s.jobs[i]);
    forall k | 0 <= k < |t.jobs| && t.jobs[k].lease.Some? ensures exists h :: 0 <= h < |t.held| && Holder(t, k, h) {
      if k == i {
        assert Holder(t, i, |s.held|);
      } else {
        var h :| 0 <= h < |s.held| && Holder(s, k, h);
        assert Holder(t, k, h);
      }
    }
  }

  lemma ClaimedNumbers(s: Store, i: JobId, worker: Worker, token: Token)
    requires Claimable(s, i, token)
    ensures var t := Claimed(s, i, worker, token);
            && (forall k :: 0 <= k < |t.jobs| ==> Numbers(t.attempts, k) == UpTo(t.jobs[k].attempts))
            && Sum(t.jobs, AttemptWeight()) == |t.attempts|
  {
    var t := Claimed(s, i, worker, token);
    assert t.attempts[..|s.attempts|] == s.attempts;
    forall k | 0 <= k < |t.jobs| ensures Numbers(t.attempts, k) == UpTo(t.jobs[k].attempts) {
      assert Numbers(s.attempts, k) == UpTo(s.jobs[k].attempts);
    }
    SumUpdate(s.jobs, i, t.jobs[i], AttemptWeight());
  }

  lemma ClaimedKeeps(s: Store, i: JobId, worker: Worker, token: Token)
    requires Claimable(s, i, token)
    ensures Inv(Claimed(s, i, worker, token))
  {
    ClaimedHeld(s, i, worker, token);
    ClaimedLeases(s, i, worker, token);
    ClaimedNumbers(s, i, worker, token);
  }

  lemma ClaimKeeps(s: Store, worker: Worker, queue: string, token: Token, pick: Option<JobId>, t: Store)
    requires Inv(s) && FreshToken(s, token) && ClaimStep(s, worker, queue, token, pick, t)
    ensures Inv(t)
  {
    ReapKeeps(s);
    if pick.Some? {
      ClaimedKeeps(Reaped(s), pick.value, worker, token);
    }
  }

  /** The clock, tenant lifecycles, cancellations, retention and approvals. */
  lemma OtherKeeps(s: Store, a: Action, t: Store)
    requires Inv(s) && Next(s, a, t) && !a.EnqueueJob? && !a.ClaimJob? && !a.UseLease?
    ensures Inv(t)
  {
    forall i | 0 <= i < |s.jobs| ensures SameJob(s.jobs[i], t.jobs[i]) && RowOk(t.jobs[i]) {
      assert RowOk(s.jobs[i]);
    }
    InPlace(s, t);
  }

  lemma NextKeeps(s: Store, a: Action, t: Store)
    requires Inv(s) && Next(s, a, t)
    ensures Inv(t)
  {
    match a
    case EnqueueJob(req, outcome) => EnqueueKeeps(s, req, outcome, t);
    case ClaimJob(worker, queue, token, pick) => ClaimKeeps(s, worker, queue, token, pick, t);
    case UseLease(holder, op) => LeaseUpdateKeeps(s, holder, op);
    case _ => OtherKeeps(s, a, t);
  }

  lemma {:induction false} RunKeeps(states: seq<Store>, acts: seq<Action>, k: nat)
    requires IsRun(states, acts) && Inv(states[0]) && k < |states|
    ensures Inv(states[k])
    decreases k
  {
    if k > 0 {
      RunKeeps(states, acts, k - 1);
      NextKeeps(states[k - 1], acts[k - 1], states[k]);
    }
  }

  lemma InitInv(s: Store)
    requires Init(s)
    ensures Inv(s)
  {
  }
}
