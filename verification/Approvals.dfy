/** Human approvals (backend/approval_service.py): a row is decided once, by somebody entitled to decide it. */
module Approvals {
  import opened Options

  type Tenant = nat
  type ApprovalId = nat

  datatype Risk =
    | ReadOnly | InternalEdit | Outreach | LiveCall | CalendarWrite
    | Financial | BiddingMessage | LegalDocument | RoleOverride

  predicate RequiresApproval(risk: Risk) {
    !risk.ReadOnly? && !risk.InternalEdit?
  }

  datatype Status = Pending | Approved | Rejected | Expired | Revoked

  datatype Role = PlatformAdmin | BrokerOwner | Member

  /** The verified caller of a request. */
  datatype Caller = Caller(agent: string, tenant: Tenant, role: Role) {
    predicate Privileged() {
      role.PlatformAdmin? || role.BrokerOwner?
    }
  }

  /** One row of action_approvals. `payload` is the canonical form of the immutable draft; the stored
      SHA-256 of it is identified with the form itself. */
  datatype Approval = Approval(
    tenant: Tenant, actionType: string, risk: Risk, payload: string, requestedBy: string,
    expiresAt: int, status: Status, decidedBy: Option<string>)

  type Table = map<ApprovalId, Approval>

  // ---- Who is who: agent ids are compared trimmed and case-folded (ASCII letters) ----

  predicate IsSpace(c: char) {
    c == ' ' || c == '\t' || c == '\n' || c == '\r'
  }

  function LowerChar(c: char): char {
    if 'A' <= c <= 'Z' then ((c as int) + 32) as char else c
  }

  function Lower(s: string): (r: string)
    ensures |r| == |s|
    ensures forall i :: 0 <= i < |s| ==> r[i] == LowerChar(s[i])
  {
    seq(|s|, i requires 0 <= i < |s| => LowerChar(s[i]))
  }

  function TrimLeft(s: string): string {
    if s != [] && IsSpace(s[0]) then TrimLeft(s[1..]) else s
  }

  function TrimRight(s: string): string {
    if s != [] && IsSpace(s[|s| - 1]) then TrimRight(s[..|s| - 1]) else s
  }

  function Canonical(agent: string): string {
    Lower(TrimRight(TrimLeft(agent)))
  }

  predicate SameAgent(left: string, right: string) {
    Canonical(left) == Canonical(right)
  }

  // ---- Transactions on the table ----

  const MIN_EXPIRY := 5
  const MAX_EXPIRY := 7 * 24 * 60

  function ClampMinutes(minutes: int): int {
    var capped := if minutes < MAX_EXPIRY then minutes else MAX_EXPIRY;
    if capped > MIN_EXPIRY then capped else MIN_EXPIRY
  }

  /** The row create_approval inserts. Times are in seconds. */
  function NewApproval(caller: Caller, actionType: string, risk: Risk, payload: string, minutes: int, now: int)
    : (row: Approval)
    ensures row.status.Pending? && row.decidedBy.None? && row.requestedBy == caller.agent && row.tenant == caller.tenant
    ensures now + 300 <= row.expiresAt <= now + 604800
    ensures 5 <= minutes <= 10080 ==> row.expiresAt == now + 60 * minutes
  {
    Approval(caller.tenant, actionType, risk, payload, caller.agent, now + 60 * ClampMinutes(minutes), Pending, None)
  }

  datatype DecideError = NotFound | Forbidden | SelfOverride | AlreadyDecided(status: Status)
  datatype Decision = Refused(error: DecideError) | Decided(status: Status)

  predicate OwnerDecides(ap: Approval) {
    || ap.risk.Financial?
    || ap.risk.LegalDocument?
    || ap.actionType == "studio.site.publish"
    || ap.actionType == "marketplace:publish"
  }

  /** `_require_decider`: may this caller decide an approval that is not a role override? */
  predicate MayDecide(caller: Caller, ap: Approval) {
    if OwnerDecides(ap) then caller.Privileged()
    else caller.Privileged() || SameAgent(ap.requestedBy, caller.agent)
  }

  /** The checks of decide_approval, in its order, on the locked row. */
  function DecideCheck(caller: Caller, ap: Approval, expectedType: Option<string>): Option<DecideError> {
    if expectedType.Some? && ap.actionType != expectedType.value then Some(NotFound)
    else if !ap.risk.RoleOverride? && !MayDecide(caller, ap) then Some(Forbidden)
    else if ap.risk.RoleOverride? && !caller.Privileged() then Some(Forbidden)
    else if ap.risk.RoleOverride? && SameAgent(ap.requestedBy, caller.agent) then Some(SelfOverride)
    else if !ap.status.Pending? then Some(AlreadyDecided(ap.status))
    else None
  }

  function DecidedRow(caller: Caller, ap: Approval, approve: bool, now: int): Approval {
    var status := if ap.expiresAt <= now then Expired else if approve then Approved else Rejected;
    ap.(status := status, decidedBy := Some(caller.agent))
  }

  function Decide(table: Table, caller: Caller, id: ApprovalId, approve: bool, expectedType: Option<string>, now: int)
    : (Table, Decision)
  {
    if id !in table then (table, Refused(NotFound))
    else
      var ap := table[id];
      var error := DecideCheck(caller, ap, expectedType);
      if error.Some? then (table, Refused(error.value))
      else
        var row := DecidedRow(caller, ap, approve, now);
        (table[id := row], Decided(row.status))
  }

  // ---- What a decision is ----

  /** Money, legal documents and publishing under the brokerage's name take a broker owner; a role override
      one who did not ask for it; anything else an owner or the requester. */
  predicate Entitled(caller: Caller, ap: Approval) {
    var owner := caller.role in {PlatformAdmin, BrokerOwner};
    var own := SameAgent(ap.requestedBy, caller.agent);
    if ap.risk == RoleOverride then owner && !own
    else if ap.risk in {Financial, LegalDocument} || ap.actionType in {"studio.site.publish", "marketplace:publish"}
    then owner
    else owner || own
  }

  /** `row` is what becomes of the pending `ap` when `caller` decides it at `now`: approved or rejected as
      the caller says while it is valid, expired whatever the caller says once it is not. */
  predicate RuledBy(ap: Approval, row: Approval, caller: Caller, approve: bool, now: int) {
    && ap.status.Pending? && Entitled(caller, ap)
    && row == ap.(status := row.status, decidedBy := Some(caller.agent))
    && (row.status.Approved? <==> approve && now < ap.expiresAt)
    && (row.status.Rejected? <==> !approve && now < ap.expiresAt)
    && (row.status.Expired? <==> ap.expiresAt <= now)
  }

  /** A decision goes through exactly when an entitled caller decides a pending approval of the kind the
      route is for, and then rules on that row alone; otherwise the table stays. */
  lemma DecisionExactly(table: Table, caller: Caller, id: ApprovalId, approve: bool, expectedType: Option<string>,
      now: int)
    ensures var (after, d) := Decide(table, caller, id, approve, expectedType, now);
            && (d.Decided? <==> id in table && table[id].status.Pending? && Entitled(caller, table[id])
                                && (expectedType.Some? ==> table[id].actionType == expectedType.value))
            && (d.Refused? ==> after == table)
            && (d.Decided? ==> after == table[id := after[id]] && after[id].status == d.status
                               && RuledBy(table[id], after[id], caller, approve, now))
  {
    if id in table {
      assert DecideCheck(caller, table[id], expectedType).None? <==>
               table[id].status.Pending? && Entitled(caller, table[id])
               && (expectedType.Some? ==> table[id].actionType == expectedType.value);
    }
  }

  /** A resubmission or an edited command draft withdraws a request nobody has decided yet. */
  function RevokePending(table: Table, caller: Caller, id: ApprovalId): Table {
    if id in table && table[id].status.Pending?
    then table[id := table[id].(status := Revoked, decidedBy := Some(caller.agent))]
    else table
  }

  /** Editing a contract draft withdraws its approval even when it was already granted. */
  function RevokeDocument(table: Table, caller: Caller, id: ApprovalId): Table {
    if id in table && table[id].tenant == caller.tenant && (table[id].status.Pending? || table[id].status.Approved?)
    then table[id := table[id].(status := Revoked, decidedBy := Some(caller.agent))]
    else table
  }
}
