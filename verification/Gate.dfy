/** The approval gate across modules: what an approval that was granted once means for the jobs it let in. */
module Gate {
  import opened Options
  import opened Approvals
  import opened JobTable
  import opened JobSafety
  import opened JobRuns

  // ---- Approvals over a step of the system ----

  /** Rows are never deleted and keep what was asked; only the decision columns are written. */
  lemma ApprovalStep(s: Store, a: Action, t: Store, id: ApprovalId)
    requires Next(s, a, t) && id in s.approvals
    ensures id in t.approvals
    ensures t.approvals[id].tenant == s.approvals[id].tenant && t.approvals[id].payload == s.approvals[id].payload
    ensures !s.approvals[id].status.Pending? && !s.approvals[id].status.Approved? ==> t.approvals[id] == s.approvals[id]
    ensures s.approvals[id].status.Approved? && t.approvals[id] != s.approvals[id] ==>
              a.WithdrawDocument? && a.id == id && t.approvals[id].status.Revoked?
  {
  }

  /** Step `k` ruled on approval `id`, and its row in `s` is as that ruling left it. */
  ghost predicate RuledAt(states: seq<Store>, acts: seq<Action>, k: nat, id: ApprovalId, s: Store)
    requires IsRun(states, acts) && k < |acts| && id in s.approvals
  {
    && acts[k].DecideApproval? && acts[k].id == id && id in states[k].approvals
    && RuledBy(states[k].approvals[id], s.approvals[id], acts[k].caller, acts[k].approve, states[k].now)
  }

  lemma SettledStep(s: Store, a: Action, t: Store, id: ApprovalId)
    requires Next(s, a, t) && id in t.approvals
    requires t.approvals[id].status.Approved? || t.approvals[id].status.Rejected? || t.approvals[id].status.Expired?
    ensures || (id in s.approvals && s.approvals[id] == t.approvals[id])
            || (a.DecideApproval? && a.id == id && id in s.approvals
                && RuledBy(s.approvals[id], t.approvals[id], a.caller, a.approve, s.now))
  {
    if a.DecideApproval? {
      DecisionExactly(s.approvals, a.caller, a.id, a.approve, a.expectedType, s.now);
    }
  }

  /** Over every run: an approved, rejected or expired approval was ruled on by some earlier step: approved
      only when its decider said so before it expired, rejected only when its decider did. */
  lemma {:induction false} SettledByRuling(states: seq<Store>, acts: seq<Action>, n: nat, id: ApprovalId)
    requires IsRun(states, acts) && Init(states[0]) && n < |states| && id in states[n].approvals
    requires var status := states[n].approvals[id].status; status.Approved? || status.Rejected? || status.Expired?
    ensures exists k :: 0 <= k < n && RuledAt(states, acts, k, id, states[n])
    decreases n
  {
    if n > 0 {
      var s, a, t := states[n - 1], acts[n - 1], states[n];
      SettledStep(s, a, t, id);
      if id in s.approvals && s.approvals[id] == t.approvals[id] {
        SettledByRuling(states, acts, n - 1, id);
        var k :| 0 <= k < n - 1 && RuledAt(states, acts, k, id, s);
        assert RuledAt(states, acts, k, id, t);
      } else {
        assert RuledAt(states, acts, n - 1, id, t);
      }
    }
  }

  /** Step `k` is an entitled caller's yes, in time, to exactly what `req` asks for. */
  ghost predicate YesTo(states: seq<Store>, acts: seq<Action>, k: nat, req: Request)
    requires IsRun(states, acts) && k < |acts|
  {
    && acts[k].DecideApproval? && acts[k].approve && req.approval == Some(acts[k].id)
    && acts[k].id in states[k].approvals
    && var ap := states[k].approvals[acts[k].id];
       && Entitled(acts[k].caller, ap) && ap.status.Pending? && states[k].now < ap.expiresAt
       && ap.tenant == req.tenant && ap.payload == req.payload
  }

  /** Over every run: no job whose risk needs an approval is let in unless some earlier step said yes to
      its tenant's very payload, and the approval is still valid. */
  lemma NoJobWithoutYes(states: seq<Store>, acts: seq<Action>, n: nat)
    requires IsRun(states, acts) && Init(states[0]) && n < |acts|
    requires acts[n].EnqueueJob? && acts[n].outcome.Accepted?
    requires !acts[n].request.risk.ReadOnly? && !acts[n].request.risk.InternalEdit?
    ensures exists k :: 0 <= k < n && YesTo(states, acts, k, acts[n].request)
    ensures acts[n].request.approval.value in states[n].approvals
            && states[n].now < states[n].approvals[acts[n].request.approval.value].expiresAt
  {
    assert Next(states[n], acts[n], states[n + 1]);
    var id := acts[n].request.approval.value;
    SettledByRuling(states, acts, n, id);
    var k :| 0 <= k < n && RuledAt(states, acts, k, id, states[n]);
    assert YesTo(states, acts, k, acts[n].request);
  }

  // ---- The gate ----

  /** Job `i` is finished, needs no approval, or cites a granted one of its own tenant for its payload. */
  ghost predicate Admitted(s: Store, i: JobId)
    requires i < |s.jobs|
  {
    var job := s.jobs[i];
    !job.state.Terminal() && RequiresApproval(job.risk) ==>
      && job.approval.Some?
      && job.approval.value in s.approvals
      && s.approvals[job.approval.value].status.Approved?
      && s.approvals[job.approval.value].tenant == job.tenant
      && s.approvals[job.approval.value].payload == job.payload
  }

  ghost predicate GateHolds(s: Store) {
    forall i :: 0 <= i < |s.jobs| ==> Admitted(s, i)
  }

  /** An unfinished job that cites approval `id`. */
  ghost predicate Cites(s: Store, i: JobId, id: ApprovalId) {
    && i < |s.jobs| && !s.jobs[i].state.Terminal()
    && RequiresApproval(s.jobs[i].risk) && s.jobs[i].approval == Some(id)
  }

  /** The one way past the gate: editing a contract draft whose granted approval an unfinished job cites. */
  ghost predicate RevokesInUse(s: Store, a: Action) {
    && a.WithdrawDocument?
    && a.id in s.approvals
    && s.approvals[a.id].tenant == a.caller.tenant
    && s.approvals[a.id].status.Approved?
    && exists i :: Cites(s, i, a.id)
  }

  lemma JobStaysAdmitted(s: Store, a: Action, t: Store, i: JobId)
    requires Inv(s) && Next(s, a, t) && i < |s.jobs| && Admitted(s, i) && !RevokesInUse(s, a)
    ensures i < |t.jobs| && Admitted(t, i)
  {
    JobsStay(s, a, t, i);
    if s.jobs[i].state.Terminal() {
      TerminalStep(s, a, t, i);
    } else if RequiresApproval(s.jobs[i].risk) {
      assert Cites(s, i, s.jobs[i].approval.value);
      ApprovalStep(s, a, t, s.jobs[i].approval.value);
    }
  }

  lemma NewJobAdmitted(s: Store, a: Action, t: Store, i: JobId)
    requires Next(s, a, t) && |s.jobs| <= i < |t.jobs|
    ensures Admitted(t, i)
  {
  }

  lemma GateSurvives(s: Store, a: Action, t: Store)
    requires Inv(s) && GateHolds(s) && Next(s, a, t) && !RevokesInUse(s, a)
    ensures GateHolds(t)
  {
    forall i | 0 <= i < |t.jobs| ensures Admitted(t, i) {
      if i < |s.jobs| {
        JobStaysAdmitted(s, a, t, i);
      } else {
        NewJobAdmitted(s, a, t, i);
      }
    }
  }

  /** Job `i` needs an approval and cites one that was withdrawn. */
  ghost predicate Orphaned(s: Store, i: JobId) {
    && i < |s.jobs|
    && RequiresApproval(s.jobs[i].risk)
    && s.jobs[i].approval.Some?
    && s.jobs[i].approval.value in s.approvals
    && s.approvals[s.jobs[i].approval.value].status.Revoked?
  }

  lemma OrphanStays(s: Store, a: Action, t: Store, i: JobId)
    requires Next(s, a, t) && Orphaned(s, i)
    ensures Orphaned(t, i)
  {
    JobsStay(s, a, t, i);
    ApprovalStep(s, a, t, s.jobs[i].approval.value);
  }

  /** One step keeps the gate exactly when it does not withdraw an approval in use. */
  lemma GateStep(s: Store, a: Action, t: Store)
    requires Inv(s) && GateHolds(s) && Next(s, a, t)
    ensures GateHolds(t) <==> !RevokesInUse(s, a)
  {
    if RevokesInUse(s, a) {
      WithdrawalOpens(s, a, t);
    } else {
      GateSurvives(s, a, t);
    }
  }

  lemma WithdrawalOpens(s: Store, a: Action, t: Store)
    requires Next(s, a, t) && RevokesInUse(s, a)
    ensures !GateHolds(t) && exists i: nat :: Orphaned(t, i) && !t.jobs[i].state.Terminal()
  {
    var i :| Cites(s, i, a.id);
    assert t.jobs == s.jobs && Orphaned(t, i);
    assert !Admitted(t, i);
  }

  lemma {:induction false} GateUntil(states: seq<Store>, acts: seq<Action>, n: nat)
    requires IsRun(states, acts) && Init(states[0]) && n < |states|
    requires forall k {:trigger acts[k]} :: 0 <= k < n ==> !RevokesInUse(states[k], acts[k])
    ensures GateHolds(states[n])
    decreases n
  {
    if n > 0 {
      GateUntil(states, acts, n - 1);
      InitInv(states[0]);
      RunKeeps(states, acts, n - 1);
      GateSurvives(states[n - 1], acts[n - 1], states[n]);
    }
  }

  lemma {:induction false} OrphanForever(states: seq<Store>, acts: seq<Action>, k: nat, n: nat, i: JobId)
    requires IsRun(states, acts) && k <= n < |states| && Orphaned(states[k], i)
    ensures Orphaned(states[n], i)
    decreases n
  {
    if k < n {
      OrphanForever(states, acts, k, n - 1, i);
      var s, a, t := states[n - 1], acts[n - 1], states[n];
      OrphanStays(s, a, t, i);
    }
  }

  /** Over whole runs: in every state visited each unfinished approval-required job cites a still-granted
      approval of its tenant for its own payload, if and only if no step of the run withdrew a granted
      approval that an unfinished job cites. */
  lemma GateExactly(states: seq<Store>, acts: seq<Action>)
    requires IsRun(states, acts) && Init(states[0])
    ensures (forall n :: 0 <= n < |states| ==> GateHolds(states[n]))
            <==> forall k {:trigger acts[k]} :: 0 <= k < |acts| ==> !RevokesInUse(states[k], acts[k])
  {
    if k: nat :| k < |acts| && RevokesInUse(states[k], acts[k]) {
      WithdrawalOpens(states[k], acts[k], states[k + 1]);
    } else {
      forall n | 0 <= n < |states| ensures GateHolds(states[n]) {
        GateUntil(states, acts, n);
      }
    }
  }

  // ---- The failing family is inhabited ----

  const BROKER := Caller("broker", 1, BrokerOwner)
  const VAULT_JOB := Request(1, "contract:vault", "default", LegalDocument, "draft r1", 10, 5, "vault:1", None, Some(7))

  function Asked(settings: Settings): Store {
    Store(settings, 0, {},
        map[7 := NewApproval(BROKER, "contract.vault_and_approve", LegalDocument, "draft r1", 60, 0)],
          [], [], [])
  }

  function Granted(settings: Settings): Store {
    var s := Asked(settings);
    s.(approvals := s.approvals[7 := s.approvals[7].(status := Approved, decidedBy := Some("broker"))])
  }

  function Queued(settings: Settings): Store {
    Granted(settings).(jobs := [NewJob(VAULT_JOB, 0)])
  }

  function Edited(settings: Settings): Store {
    var s := Queued(settings);
    s.(approvals := s.approvals[7 := s.approvals[7].(status := Revoked, decidedBy := Some("broker"))])
  }

  lemma AskAndGrant(settings: Settings)
    ensures Next(Store(settings, 0, {}, map[], [], [], []),
                 RequestApproval(7, BROKER, "contract.vault_and_approve", LegalDocument, "draft r1", 60),
                     Asked(settings))
    ensures Next(Asked(settings), DecideApproval(7, BROKER, true, None), Granted(settings))
  {
    var table := Asked(settings).approvals;
    assert table == map[][7 := table[7]];
    assert DecideCheck(BROKER, table[7], None).None?;
  }

  lemma QueueAndEdit(settings: Settings)
    ensures Next(Granted(settings), EnqueueJob(VAULT_JOB, Accepted(0, true)), Queued(settings))
    ensures Next(Queued(settings), WithdrawDocument(7, BROKER), Edited(settings))
  {
    assert [] + [NewJob(VAULT_JOB, 0)] == Queued(settings).jobs;
  }

  /** A broker approves a contract, its vault job is queued, and the draft is then edited: the job stays
      claimable although its approval is revoked. */
  lemma GateCanFail(settings: Settings)
    requires settings.Valid()
    ensures exists states, acts :: IsRun(states, acts) && Init(states[0]) && |acts| == 4 && !GateHolds(states[4])
  {
    AskAndGrant(settings);
    QueueAndEdit(settings);
    var states := [Store(settings, 0, {}, map[], [], [], []), Asked(settings), Granted(settings), Queued(settings),
                   Edited(settings)];
    var acts := [RequestApproval(7, BROKER, "contract.vault_and_approve", LegalDocument, "draft r1", 60),
                 DecideApproval(7, BROKER, true, None), EnqueueJob(VAULT_JOB, Accepted(0, true)),
                 WithdrawDocument(7, BROKER)];
    assert IsRun(states, acts);
    assert !Admitted(states[4], 0);
  }
}
