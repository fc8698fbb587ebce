/** Two-person role changes (backend/admin_ops.py on top of backend/approval_service.py). */
module RoleChanges {
  import opened Options
  import opened Approvals

  type UserId = nat

  datatype UserRole = Admin | Owner | Agent

  datatype User = User(agent: string, role: UserRole, active: bool, tenant: Tenant, epoch: nat)

  /** The draft payload of a brokerage.role_change approval. */
  datatype Draft = Draft(user: UserId, agent: string, prior: UserRole, wanted: UserRole)

  /** One row of protected_override_events. */
  datatype Override = Override(approval: ApprovalId, user: UserId, prior: UserRole, wanted: UserRole, performer: string)

  /** `applying` holds the approvals whose execute call has decided and committed but not yet applied. */
  datatype Desk = Desk(
    now: int, approvals: Table, drafts: map<ApprovalId, Draft>, users: map<UserId, User>,
    events: seq<Override>, applying: map<ApprovalId, Caller>)

  const ROLE_CHANGE := "brokerage.role_change"

  datatype RequestError = NoSuchUser | OwnRole | Protected | Suspended | Unchanged | NotPermitted

  function RequestCheck(users: map<UserId, User>, caller: Caller, user: UserId, wanted: UserRole)
    : Option<RequestError>
  {
    if !caller.Privileged() then Some(NotPermitted)
    else if user !in users then Some(NoSuchUser)
    else
      var target := users[user];
      if SameAgent(target.agent, caller.agent) then Some(OwnRole)
      else if target.role.Admin? then Some(Protected)
      else if !target.active then Some(Suspended)
      else if target.role == wanted then Some(Unchanged)
      else None
  }

  predicate ActiveOwner(user: User, tenant: Tenant) {
    user.tenant == tenant && user.role.Owner? && user.active
  }

  ghost predicate HasOwner(users: map<UserId, User>, tenant: Tenant) {
    exists u :: u in users && ActiveOwner(users[u], tenant)
  }

  /** Does the guarded UPDATE of execute_role_change find its row? */
  predicate Applicable(users: map<UserId, User>, draft: Draft) {
    draft.user in users && users[draft.user].role == draft.prior && !draft.prior.Admin? && users[draft.user].active
  }

  function WithRole(users: map<UserId, User>, draft: Draft): map<UserId, User>
    requires draft.user in users
  {
    var user := users[draft.user];
    users[draft.user := user.(role := draft.wanted, epoch := user.epoch + 1)]
  }

  /** The second transaction of execute_role_change: all of it, or nothing. */
  ghost predicate ApplyStep(s: Desk, id: ApprovalId, ok: bool, t: Desk)
    requires id in s.applying && id in s.drafts
  {
    var draft := s.drafts[id];
    var closed := s.(applying := s.applying - {id});
    if Applicable(s.users, draft)
       && (draft.prior.Owner? ==> HasOwner(WithRole(s.users, draft), s.users[draft.user].tenant))
    then
      ok && t == closed.(users := WithRole(s.users, draft),
                         events := s.events + [Override(id, draft.user, draft.prior, draft.wanted,
                             s.applying[id].agent)])
    else
      !ok && t == closed
  }

  // ---- What else happens to accounts ----

  function Deactivated(user: User): User {
    user.(active := false, epoch := user.epoch + 1)
  }

  /** The guard of suspend_member: its UPDATE, and the owners left after it. */
  ghost predicate Suspendable(users: map<UserId, User>, u: UserId, caller: Caller) {
    && caller.Privileged() && u in users && users[u].tenant == caller.tenant && users[u].active
    && !users[u].role.Admin? && (caller.role.PlatformAdmin? || users[u].role.Agent?)
    && !SameAgent(users[u].agent, caller.agent)
    && (users[u].role.Owner? ==> HasOwner(users[u := Deactivated(users[u])], users[u].tenant))
  }

  /** `_sign_out_users`: a closure keeps the owners at first, the erasure at its end does not. */
  function SignedOut(users: map<UserId, User>, tenant: Tenant, keepOwners: bool): map<UserId, User> {
    map u | u in users ::
      if users[u].tenant == tenant && users[u].active && !users[u].role.Admin? && !(keepOwners && users[u].role.Owner?)
      then Deactivated(users[u]) else users[u]
  }

  datatype Action =
    | RequestRole(id: ApprovalId, caller: Caller, draft: Draft)    // the draft may be stale: users are read earlier
    | FileOther(id: ApprovalId, caller: Caller, actionType: string, risk: Risk, payload: string, minutes: int)
    | DecideOnly(id: ApprovalId, caller: Caller, approve: bool, expectedType: Option<string>)
    | ExecuteDecide(id: ApprovalId, caller: Caller)
    | ExecuteApply(id: ApprovalId, ok: bool)
    | Withdraw(id: ApprovalId, caller: Caller)
    | Revise(id: ApprovalId, caller: Caller)                       // a contract draft's approval, granted or not
    | Join(user: UserId, account: User)
    | Suspend(user: UserId, caller: Caller)
    | Restore(user: UserId)                                        // reinstated, or a closure withdrawn
    | SignOut(tenant: Tenant, keepOwners: bool)
    | Wait(seconds: nat)

  ghost predicate Next(s: Desk, a: Action, t: Desk) {
    match a
    case RequestRole(id, caller, draft) =>
      && id !in s.approvals && caller.Privileged()
      && !draft.prior.Admin? && !draft.wanted.Admin? && draft.prior != draft.wanted
      && !SameAgent(draft.agent, caller.agent)
      && var row := NewApproval(caller, ROLE_CHANGE, RoleOverride, "role change", 24 * 60, s.now);
         t == s.(approvals := s.approvals[id := row],
                 drafts := s.drafts[id := draft])
    case FileOther(id, caller, actionType, risk, payload, minutes) =>
      && id !in s.approvals && actionType != ROLE_CHANGE && !risk.ReadOnly?
      && t == s.(approvals := s.approvals[id := NewApproval(caller, actionType, risk, payload, minutes, s.now)])
    case DecideOnly(id, caller, approve, expectedType) =>
      t == s.(approvals := Decide(s.approvals, caller, id, approve, expectedType, s.now).0)
    case ExecuteDecide(id, caller) =>
      if id !in s.approvals || s.approvals[id].actionType != ROLE_CHANGE then t == s
      else
        var (table, decision) := Decide(s.approvals, caller, id, true, None, s.now);
        t == s.(approvals := table,
                applying := if decision == Decided(Approved) then s.applying[id := caller] else s.applying)
    case ExecuteApply(id, ok) => id in s.applying && id in s.drafts && ApplyStep(s, id, ok, t)
    case Withdraw(id, caller) => t == s.(approvals := RevokePending(s.approvals, caller, id))
    case Revise(id, caller) =>
      id in s.approvals && s.approvals[id].risk.LegalDocument?
          && t == s.(approvals := RevokeDocument(s.approvals, caller, id))
    case Join(u, account) => u !in s.users && t == s.(users := s.users[u := account])
    case Suspend(u, caller) =>
      t == if Suspendable(s.users, u, caller) then s.(users := s.users[u := Deactivated(s.users[u])]) else s
    case Restore(u) => u in s.users && t == s.(users := s.users[u := s.users[u].(active := true)])
    case SignOut(tenant, keepOwners) => t == s.(users := SignedOut(s.users, tenant, keepOwners))
    case Wait(seconds) => t == s.(now := s.now + seconds)
  }

  ghost predicate IsRun(states: seq<Desk>, acts: seq<Action>) {
    && |states| == |acts| + 1
    && forall k {:trigger acts[k]} :: 0 <= k < |acts| ==> Next(states[k], acts[k], states[k + 1])
  }

  ghost predicate Init(s: Desk) {
    s.approvals == map[] && s.drafts == map[] && s.events == [] && s.applying == map[]
  }

  // ---- The invariant ----

  ghost predicate ByAnother(ap: Approval) {
    ap.decidedBy.Some? && !SameAgent(ap.requestedBy, ap.decidedBy.value)
  }

  /** A role override that somebody approved, rejected or let expire was decided by a different account. */
  ghost predicate TwoPersons(ap: Approval) {
    ap.risk.RoleOverride? && (ap.status.Approved? || ap.status.Rejected? || ap.status.Expired?) ==> ByAnother(ap)
  }

  ghost predicate Matched(s: Desk, e: Override) {
    && e.approval in s.approvals && e.approval in s.drafts
    && s.approvals[e.approval].status.Approved?
    && s.approvals[e.approval].risk.RoleOverride?
    && s.approvals[e.approval].decidedBy == Some(e.performer)
    && s.drafts[e.approval] == Draft(e.user, s.drafts[e.approval].agent, e.prior, e.wanted)
  }

  ghost predicate InFlight(s: Desk, id: ApprovalId)
    requires id in s.applying
  {
    && id in s.approvals && id in s.drafts
    && s.approvals[id].status.Approved?
    && s.approvals[id].risk.RoleOverride?
    && s.approvals[id].decidedBy == Some(s.applying[id].agent)
    && forall k :: 0 <= k < |s.events| ==> s.events[k].approval != id
  }

  ghost predicate RoleRow(s: Desk, id: ApprovalId)
    requires id in s.approvals
  {
    (s.approvals[id].actionType == ROLE_CHANGE) ==> s.approvals[id].risk.RoleOverride? && id in s.drafts
  }

  ghost predicate Inv(s: Desk) {
    && (forall id :: id in s.approvals ==> TwoPersons(s.approvals[id]) && RoleRow(s, id))
    && (forall id :: id in s.drafts ==> id in s.approvals)
    && (forall k :: 0 <= k < |s.events| ==> Matched(s, s.events[k]))
    && (forall j, k :: 0 <= j < k < |s.events| ==> s.events[j].approval != s.events[k].approval)
    && (forall id :: id in s.applying ==> InFlight(s, id))
  }

  /** A decision is taken once: only a pending row ever changes, a contract draft's aside, and what was
      asked never does. */
  lemma DecidedOnce(s: Desk, a: Action, t: Desk, id: ApprovalId)
    requires Next(s, a, t) && id in s.approvals
    ensures id in t.approvals
    ensures !s.approvals[id].status.Pending? && !s.approvals[id].risk.LegalDocument? ==>
              t.approvals[id] == s.approvals[id]
    ensures t.approvals[id].requestedBy == s.approvals[id].requestedBy && t.approvals[id].risk == s.approvals[id].risk
    ensures t.approvals[id].actionType == s.approvals[id].actionType
    ensures id in s.drafts ==> id in t.drafts && t.drafts[id] == s.drafts[id]
  {
  }

  lemma RowsKeep(s: Desk, a: Action, t: Desk)
    requires Inv(s) && Next(s, a, t)
    ensures forall id :: id in t.approvals ==> TwoPersons(t.approvals[id]) && RoleRow(t, id)
    ensures forall id :: id in t.drafts ==> id in t.approvals
  {
    forall id | id in t.approvals ensures TwoPersons(t.approvals[id]) && RoleRow(t, id) {
      if id in s.approvals {
        DecidedOnce(s, a, t, id);
        assert TwoPersons(s.approvals[id]) && RoleRow(s, id);
      }
    }
  }

  lemma EventsKeep(s: Desk, a: Action, t: Desk)
    requires Inv(s) && Next(s, a, t)
    ensures forall k :: 0 <= k < |t.events| ==> Matched(t, t.events[k])
    ensures forall j, k :: 0 <= j < k < |t.events| ==> t.events[j].approval != t.events[k].approval
  {
    forall k | 0 <= k < |t.events| ensures Matched(t, t.events[k]) {
      if k < |s.events| {
        assert Matched(s, s.events[k]);
        DecidedOnce(s, a, t, s.events[k].approval);
      } else {
        assert InFlight(s, a.id);
      }
    }
    if a.ExecuteApply? {
      assert InFlight(s, a.id);
    }
  }

  lemma InFlightKeep(s: Desk, a: Action, t: Desk)
    requires Inv(s) && Next(s, a, t)
    ensures forall id :: id in t.applying ==> InFlight(t, id)
  {
    forall id | id in t.applying ensures InFlight(t, id) {
      if id in s.applying {
        assert InFlight(s, id);
        DecidedOnce(s, a, t, id);
      } else {
        assert RoleRow(s, id);
        forall k | 0 <= k < |s.events| ensures s.events[k].approval != id {
          assert Matched(s, s.events[k]);
        }
      }
    }
  }

  lemma NextKeeps(s: Desk, a: Action, t: Desk)
    requires Inv(s) && Next(s, a, t)
    ensures Inv(t)
  {
    RowsKeep(s, a, t);
    EventsKeep(s, a, t);
    InFlightKeep(s, a, t);
  }

  lemma {:induction false} RunKeeps(states: seq<Desk>, acts: seq<Action>, n: nat)
    requires IsRun(states, acts) && Inv(states[0]) && n < |states|
    ensures Inv(states[n])
    decreases n
  {
    if n > 0 {
      RunKeeps(states, acts, n - 1);
      NextKeeps(states[n - 1], acts[n - 1], states[n]);
    }
  }

  // ---- Main theorems ----

  /** In every reachable state: a decided role override has a decider other than its requester, an
      approval yields at most one override event, and every event matches its approval's draft and was
      performed by the approval's decider. */
  lemma TwoPersonRule(states: seq<Desk>, acts: seq<Action>, n: nat)
    requires IsRun(states, acts) && Init(states[0]) && n < |states|
    ensures forall id :: id in states[n].approvals ==> TwoPersons(states[n].approvals[id])
    ensures forall j, k :: 0 <= j < k < |states[n].events| ==>
              states[n].events[j].approval != states[n].events[k].approval
    ensures forall k :: 0 <= k < |states[n].events| ==> Matched(states[n], states[n].events[k])
  {
    RunKeeps(states, acts, n);
  }

  /** A user's role changes only by applying an approved override, decided by somebody other than its
      requester, that says exactly this change; the session epoch moves with it. */
  lemma RoleChangesOnlyByOverride(s: Desk, a: Action, t: Desk, u: UserId)
    requires Inv(s) && Next(s, a, t) && u in s.users
    ensures u in t.users
    ensures t.users[u].role != s.users[u].role ==>
              && a.ExecuteApply? && a.ok && |t.events| == |s.events| + 1
              && t.users[u] == s.users[u].(role := t.users[u].role, epoch := s.users[u].epoch + 1)
              && var e := t.events[|s.events|];
                 && e == Override(a.id, u, s.users[u].role, t.users[u].role, e.performer)
                 && a.id in s.approvals && ByAnother(s.approvals[a.id])
                     && s.approvals[a.id].decidedBy == Some(e.performer)
  {
    if a.ExecuteApply? {
      assert InFlight(s, a.id) && TwoPersons(s.approvals[a.id]);
    }
  }

  /** A step takes a brokerage's last active owner if and only if it is the final sign-out of its closure:
      no role change and no suspension does. */
  lemma OwnerRemains(s: Desk, a: Action, t: Desk, tenant: Tenant)
    requires Next(s, a, t) && HasOwner(s.users, tenant)
    ensures HasOwner(t.users, tenant) <==> a != SignOut(tenant, false)
  {
    var u :| u in s.users && ActiveOwner(s.users[u], tenant);
    if a.ExecuteApply? && a.ok && s.drafts[a.id].user == u {
      assert t.users == WithRole(s.users, s.drafts[a.id]);
    } else if a.Suspend? && a.user == u && Suspendable(s.users, u, a.caller) {
      assert t.users == s.users[u := Deactivated(s.users[u])];
    } else if a != SignOut(tenant, false) {
      assert u in t.users && ActiveOwner(t.users[u], tenant);
    }
  }

  lemma {:induction false} OwnerAlwaysRemains(states: seq<Desk>, acts: seq<Action>, n: nat, tenant: Tenant)
    requires IsRun(states, acts) && n < |states| && HasOwner(states[0].users, tenant)
    requires forall k {:trigger acts[k]} :: 0 <= k < n ==> acts[k] != SignOut(tenant, false)
    ensures HasOwner(states[n].users, tenant)
    decreases n
  {
    if n > 0 {
      OwnerAlwaysRemains(states, acts, n - 1, tenant);
      OwnerRemains(states[n - 1], acts[n - 1], states[n], tenant);
    }
  }

  // ---- What a settled approval was told ----

  /** Step `a` decides approval `id`, on its own or as the first half of applying a role change. */
  ghost predicate Decides(a: Action, id: ApprovalId) {
    (a.DecideOnly? || a.ExecuteDecide?) && a.id == id
  }

  /** Applying a role change is a yes. */
  predicate SaysYes(a: Action)
    requires a.DecideOnly? || a.ExecuteDecide?
  {
    a.ExecuteDecide? || a.approve
  }

  ghost predicate RuledAt(states: seq<Desk>, acts: seq<Action>, k: nat, id: ApprovalId, s: Desk)
    requires IsRun(states, acts) && k < |acts| && id in s.approvals
  {
    && Decides(acts[k], id) && id in states[k].approvals
    && RuledBy(states[k].approvals[id], s.approvals[id], acts[k].caller, SaysYes(acts[k]), states[k].now)
  }

  lemma SettledStep(s: Desk, a: Action, t: Desk, id: ApprovalId)
    requires Next(s, a, t) && id in t.approvals
    requires t.approvals[id].status.Approved? || t.approvals[id].status.Rejected? || t.approvals[id].status.Expired?
    ensures || (id in s.approvals && s.approvals[id] == t.approvals[id])
            || (Decides(a, id) && id in s.approvals
                && RuledBy(s.approvals[id], t.approvals[id], a.caller, SaysYes(a), s.now))
  {
    if a.DecideOnly? {
      DecisionExactly(s.approvals, a.caller, a.id, a.approve, a.expectedType, s.now);
    } else if a.ExecuteDecide? {
      DecisionExactly(s.approvals, a.caller, a.id, true, None, s.now);
    }
  }

  /** Over every run: an approved, rejected or expired approval was ruled on by some earlier step: approved
      only when its decider, entitled to it, said so before it expired. */
  lemma {:induction false} SettledByRuling(states: seq<Desk>, acts: seq<Action>, n: nat, id: ApprovalId)
    requires IsRun(states, acts) && Init(states[0]) && n < |states| && id in states[n].approvals
    requires var status := states[n].approvals[id].status; status.Approved? || status.Rejected? || status.Expired?
    ensures exists k :: 0 <= k < n && RuledAt(states, acts, k, id, states[n])
    decreases n
  {
    if n > 0 {
      var s, a, t := states[n - 1], acts[n - 1], states[n];
      SettledStep(s, a, t, id);
      if id in s.approvals && s.approvals[id] == t.approvals[id] {
        SettledByRuling(states, acts, n - 1, id);
        var k :| 0 <= k < n - 1 && RuledAt(states, acts, k, id, s);
        assert RuledAt(states, acts, k, id, t);
      } else {
        assert RuledAt(states, acts, n - 1, id, t);
      }
    }
  }

  /** An account loses its access only to an owner of its own brokerage other than itself, who is not over an
      owner unless a platform admin, or to its brokerage's closure; each time its session epoch moves. */
  lemma LosesAccessExactly(s: Desk, a: Action, t: Desk, u: UserId)
    requires Next(s, a, t) && u in s.users && s.users[u].active
    ensures u in t.users
    ensures !t.users[u].active <==>
              || (&& a.Suspend? && a.user == u && a.caller.role in {PlatformAdmin, BrokerOwner}
                  && a.caller.tenant == s.users[u].tenant && !SameAgent(a.caller.agent, s.users[u].agent)
                  && (s.users[u].role == Agent || (s.users[u].role == Owner && a.caller.role == PlatformAdmin))
                  && (s.users[u].role == Owner ==>
                        exists o :: o in s.users && o != u && ActiveOwner(s.users[o], s.users[u].tenant)))
              || (a.SignOut? && a.tenant == s.users[u].tenant
                  && (s.users[u].role == Agent || (s.users[u].role == Owner && !a.keepOwners)))
    ensures !t.users[u].active ==> t.users[u].epoch == s.users[u].epoch + 1 && t.users[u].role == s.users[u].role
  {
    if a.Suspend? && a.user == u {
      var after := s.users[u := Deactivated(s.users[u])];
      if o :| o in s.users && o != u && ActiveOwner(s.users[o], s.users[u].tenant) {
        assert ActiveOwner(after[o], s.users[u].tenant);
      }
      if HasOwner(after, s.users[u].tenant) {
        var o :| o in after && ActiveOwner(after[o], s.users[u].tenant);
        assert o != u && o in s.users && ActiveOwner(s.users[o], s.users[u].tenant);
      }
    }
  }

  // ---- When a decider is the requester ----

  /** Resubmitting an onboarding withdraws the caller's own pending role override and writes the caller,
      who requested it, into decided_by. */
  ghost predicate SelfWithdrawal(s: Desk, a: Action) {
    && a.Withdraw? && a.id in s.approvals
    && s.approvals[a.id].risk.RoleOverride? && s.approvals[a.id].status.Pending?
    && SameAgent(s.approvals[a.id].requestedBy, a.caller.agent)
  }

  /** Every role override that is no longer pending names a decider other than its requester. */
  ghost predicate AllByAnother(s: Desk) {
    forall id | id in s.approvals && s.approvals[id].risk.RoleOverride? && !s.approvals[id].status.Pending? ::
      ByAnother(s.approvals[id])
  }

  /** The step that settles an override names its requester as decider if and only if it is a self-withdrawal. */
  lemma SettledByAnotherExactly(s: Desk, a: Action, t: Desk, id: ApprovalId)
    requires Next(s, a, t) && id in s.approvals && s.approvals[id].risk.RoleOverride? && s.approvals[id].status.Pending?
    requires id in t.approvals && !t.approvals[id].status.Pending?
    ensures ByAnother(t.approvals[id]) <==> !(SelfWithdrawal(s, a) && a.id == id)
  {
    DecidedOnce(s, a, t, id);
  }

  lemma StepByAnother(s: Desk, a: Action, t: Desk)
    requires Next(s, a, t)
    ensures AllByAnother(t) <==> AllByAnother(s) && !SelfWithdrawal(s, a)
  {
    if AllByAnother(s) && !SelfWithdrawal(s, a) {
      forall id | id in t.approvals && t.approvals[id].risk.RoleOverride? && !t.approvals[id].status.Pending?
        ensures ByAnother(t.approvals[id])
      {
        DecidedOnce(s, a, t, id);
        if s.approvals[id].status.Pending? {
          SettledByAnotherExactly(s, a, t, id);
        }
      }
    } else if SelfWithdrawal(s, a) {
      SettledByAnotherExactly(s, a, t, a.id);
    } else {
      var id :| id in s.approvals && s.approvals[id].risk.RoleOverride? && !s.approvals[id].status.Pending?
                && !ByAnother(s.approvals[id]);
      DecidedOnce(s, a, t, id);
    }
  }

  /** Over every run: all settled role overrides have a decider other than their requester if and only if
      no step so far was a self-withdrawal. */
  lemma {:induction false} DeciderDiffersExactly(states: seq<Desk>, acts: seq<Action>, n: nat)
    requires IsRun(states, acts) && Init(states[0]) && n < |states|
    ensures AllByAnother(states[n])
            <==> forall k {:trigger acts[k]} :: 0 <= k < n ==> !SelfWithdrawal(states[k], acts[k])
    decreases n
  {
    if n > 0 {
      DeciderDiffersExactly(states, acts, n - 1);
      StepByAnother(states[n - 1], acts[n - 1], states[n]);
    }
  }

  /** The condition is reached from the start: file an onboarding, file it again. */
  lemma WithdrawalIsBySelf(start: Desk, caller: Caller) returns (states: seq<Desk>, acts: seq<Action>)
    requires Init(start)
    ensures IsRun(states, acts) && states[0] == start && |acts| == 2
    ensures SelfWithdrawal(states[1], acts[1]) && !AllByAnother(states[2])
  {
    var row := NewApproval(caller, "brokerage.onboarding", RoleOverride, "onboarding", 60, start.now);
    var filed := start.(approvals := map[1 := row]);
    var again := filed.(approvals := RevokePending(filed.approvals, caller, 1));
    states := [start, filed, again];
    acts := [FileOther(1, caller, "brokerage.onboarding", RoleOverride, "onboarding", 60), Withdraw(1, caller)];
    assert start.approvals[1 := filed.approvals[1]] == filed.approvals;
    assert !ByAnother(again.approvals[1]);
  }

  // ---- When applying goes through ----

  /** Everything the change needs: a pending, valid approval of this kind, an owner who did not ask for it,
      an active account still in the role the draft saw, and another active owner when it gives that up. */
  ghost predicate CanExecute(s: Desk, id: ApprovalId, caller: Caller) {
    && id in s.approvals && id in s.drafts && s.approvals[id].actionType == ROLE_CHANGE
    && s.approvals[id].status.Pending? && s.now < s.approvals[id].expiresAt
    && caller.role in {PlatformAdmin, BrokerOwner} && !SameAgent(s.approvals[id].requestedBy, caller.agent)
    && StillFits(s.users, s.drafts[id])
  }

  ghost predicate StillFits(users: map<UserId, User>, draft: Draft) {
    && draft.user in users && users[draft.user].active
    && users[draft.user].role == draft.prior && draft.prior != UserRole.Admin
    && (draft.prior == Owner && draft.wanted != Owner ==>
          exists u :: u in users && u != draft.user && ActiveOwner(users[u], users[draft.user].tenant))
  }

  lemma FitsExactly(users: map<UserId, User>, draft: Draft)
    ensures StillFits(users, draft)
            <==> Applicable(users, draft)
                 && (draft.prior.Owner? ==> HasOwner(WithRole(users, draft), users[draft.user].tenant))
  {
    if Applicable(users, draft) {
      var after, tenant := WithRole(users, draft), users[draft.user].tenant;
      if StillFits(users, draft) && draft.prior.Owner? {
        if draft.wanted == Owner {
          assert ActiveOwner(after[draft.user], tenant);
        } else {
          var u :| u in users && u != draft.user && ActiveOwner(users[u], tenant);
          assert u in after && ActiveOwner(after[u], tenant);
        }
      }
      if draft.prior.Owner? && HasOwner(after, tenant) {
        var u :| u in after && ActiveOwner(after[u], tenant);
        assert u != draft.user ==> u in users && ActiveOwner(users[u], tenant);
      }
    }
  }

  /** The two steps of one call change the role exactly when the change can go through. */
  lemma ExecutedExactly(s: Desk, id: ApprovalId, caller: Caller, decided: Desk, ok: bool, t: Desk)
    requires Inv(s) && Next(s, ExecuteDecide(id, caller), decided)
    requires if decided.applying != s.applying then Next(decided, ExecuteApply(id, ok), t) else !ok && t == decided
    ensures ok <==> CanExecute(s, id, caller)
    ensures ok ==> t.users == s.users[s.drafts[id].user :=
                     s.users[s.drafts[id].user].(role := s.drafts[id].wanted,
                                                 epoch := s.users[s.drafts[id].user].epoch + 1)]
                   && t.events == s.events + [Override(id, s.drafts[id].user, s.drafts[id].prior, s.drafts[id].wanted,
                                                       caller.agent)]
    ensures !ok ==> t.users == s.users && t.events == s.events
  {
    if id in s.approvals && s.approvals[id].actionType == ROLE_CHANGE {
      assert RoleRow(s, id);
      assert id in s.applying ==> InFlight(s, id);
      DecisionExactly(s.approvals, caller, id, true, None, s.now);
      FitsExactly(s.users, s.drafts[id]);
    }
  }

  // ---- The transactions as the service runs them ----

  class RoleDesk {
    var now: int
    var approvals: Table
    var drafts: map<ApprovalId, Draft>
    var users: map<UserId, User>
    var events: seq<Override>
    ghost var applying: map<ApprovalId, Caller>

    ghost function View(): Desk
      reads this
    {
      Desk(now, approvals, drafts, users, events, applying)
    }

    constructor (start: int, users: map<UserId, User>)
      ensures Init(View()) && View().users == users
    {
      now := start;
      this.users := users;
      approvals, drafts, events, applying := map[], map[], [], map[];
    }

    method RequestRoleChange(id: ApprovalId, caller: Caller, user: UserId, wanted: UserRole)
        returns (error: Option<RequestError>)
      requires id !in approvals && !wanted.Admin?
      modifies this`approvals, this`drafts
      ensures error == RequestCheck(users, caller, user, wanted)
      ensures error.None? ==>
                Next(old(View()), RequestRole(id, caller, Draft(user, users[user].agent, users[user].role, wanted)),
                    View())
      ensures error.Some? ==> View() == old(View())
      ensures error.None? <==>
                && caller.role in {PlatformAdmin, BrokerOwner} && user in users && users[user].active
                && users[user].role !in {UserRole.Admin, wanted} && !SameAgent(users[user].agent, caller.agent)
      ensures error.None? ==> approvals[id].status == Pending && approvals[id].requestedBy == caller.agent
                              && approvals[id].risk == RoleOverride && approvals[id].expiresAt == now + 86400
    {
      error := RequestCheck(users, caller, user, wanted);
      if error.None? {
        var target := users[user];
        drafts := drafts[id := Draft(user, target.agent, target.role, wanted)];
        approvals := approvals[id := NewApproval(caller, ROLE_CHANGE, RoleOverride, "role change", 24 * 60, now)];
      }
    }

    /** decide_approval: lock the row, run the checks in order, write the decision. */
    method DecideRow(caller: Caller, id: ApprovalId, approve: bool, expectedType: Option<string>) returns (d: Decision)
      modifies this`approvals
      ensures (approvals, d) == Decide(old(approvals), caller, id, approve, expectedType, now)
      ensures d.Decided? <==> && id in old(approvals) && old(approvals)[id].status.Pending?
                              && Entitled(caller, old(approvals)[id])
                              && (expectedType.Some? ==> old(approvals)[id].actionType == expectedType.value)
      ensures d.Refused? ==> approvals == old(approvals)
      ensures d.Decided? ==>
                && id in approvals && approvals == old(approvals)[id := approvals[id]]
                && approvals[id].status == d.status && approvals[id].decidedBy == Some(caller.agent)
                && (approvals[id].status == Approved <==> approve && now < old(approvals)[id].expiresAt)
                && (approvals[id].status == Rejected <==> !approve && now < old(approvals)[id].expiresAt)
                && (approvals[id].status == Expired <==> old(approvals)[id].expiresAt <= now)
    {
      DecisionExactly(approvals, caller, id, approve, expectedType, now);
      if id !in approvals { return Refused(NotFound); }
      var row := approvals[id];
      if expectedType.Some? && row.actionType != expectedType.value { return Refused(NotFound); }
      if !row.risk.RoleOverride? {
        if !MayDecide(caller, row) { return Refused(Forbidden); }
      } else {
        if !caller.Privileged() { return Refused(Forbidden); }
        if SameAgent(row.requestedBy, caller.agent) { return Refused(SelfOverride); }
      }
      if !row.status.Pending? { return Refused(AlreadyDecided(row.status)); }
      var status := if row.expiresAt <= now then Expired else if approve then Approved else Rejected;
      approvals := approvals[id := row.(status := status, decidedBy := Some(caller.agent))];
      d := Decided(status);
    }

    /** SELECT count(*) of the tenant's active owners. */
    method AnyOwner(tenant: Tenant) returns (found: bool)
      ensures found == HasOwner(users, tenant)
    {
      var left := users.Keys;
      found := false;
      while left != {} && !found
        invariant left <= users.Keys
        invariant found ==> HasOwner(users, tenant)
        invariant forall u :: u in users && u !in left && !found ==> !ActiveOwner(users[u], tenant)
        decreases left, if found then 0 else 1
      {
        var u :| u in left;
        if users[u].tenant == tenant && users[u].role.Owner? && users[u].active {
          found := true;
        } else {
          left := left - {u};
        }
      }
    }

    /** execute_role_change. Its decision commits first; the change itself is a second transaction that is
        rolled back whole when the user moved on or the brokerage would lose its last owner. */
    method ExecuteRoleChange(id: ApprovalId, caller: Caller) returns (ok: bool, ghost decided: Desk)
      requires Inv(View())
      modifies this
      ensures Next(old(View()), ExecuteDecide(id, caller), decided)
      ensures if decided.applying != old(applying) then Next(decided, ExecuteApply(id, ok), View())
              else !ok && View() == decided
      ensures Inv(View())
      ensures ok <==> old(CanExecute(View(), id, caller))
      ensures ok ==> users == old(users)[drafts[id].user :=
                       old(users)[drafts[id].user].(role := drafts[id].wanted,
                                                    epoch := old(users)[drafts[id].user].epoch + 1)]
                     && events == old(events) + [Override(id, drafts[id].user, drafts[id].prior, drafts[id].wanted,
                                                          caller.agent)]
      ensures !ok ==> users == old(users) && events == old(events)
    {
      ghost var before := View();
      var approved := DecideOverride(id, caller);
      decided := View();
      ok := false;
      if approved {
        ok := ApplyDraft(id, caller);
        NextKeeps(decided, ExecuteApply(id, ok), View());
      }
      ExecutedExactly(before, id, caller, decided, ok, View());
    }

    /** The decision: when it approves, this call is the one to apply the change. */
    method DecideOverride(id: ApprovalId, caller: Caller) returns (approved: bool)
      requires Inv(View())
      modifies this`approvals, this`applying
      ensures Inv(View()) && Next(old(View()), ExecuteDecide(id, caller), View())
      ensures approved <==> applying != old(applying)
      ensures approved ==> id in drafts && id in applying && applying[id] == caller
    {
      ghost var before := View();
      approved := false;
      if id in approvals && approvals[id].actionType == ROLE_CHANGE {
        var d := DecideRow(caller, id, true, None);
        approved := d == Decided(Approved);
      }
      if approved {
        applying := applying[id := caller];
      }
      assert id in before.applying ==> InFlight(before, id);
      NextKeeps(before, ExecuteDecide(id, caller), View());
      assert approved ==> InFlight(View(), id);
    }

    method ApplyDraft(id: ApprovalId, caller: Caller) returns (ok: bool)
      requires id in drafts && id in applying && applying[id] == caller
      modifies this`users, this`events, this`applying
      ensures ApplyStep(old(View()), id, ok, View())
    {
      ghost var before := View();
      var draft := drafts[id];
      applying := applying - {id};
      ok := draft.user in users && users[draft.user].role == draft.prior && !draft.prior.Admin?
          && users[draft.user].active;
      if !ok { return; }
      var saved := users;
      var user := users[draft.user];
      users := users[draft.user := user.(role := draft.wanted, epoch := user.epoch + 1)];
      if draft.prior.Owner? {
        ok := AnyOwner(user.tenant);
      }
      if ok {
        events := events + [Override(id, draft.user, draft.prior, draft.wanted, caller.agent)];
      } else {
        users := saved;      // ROLLBACK
      }
    }
  }
}
