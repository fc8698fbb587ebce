/** The execution ledger of the assistant's effectful tools (backend/ai_chat_store.py): the claim is
    inserted before the mutation, in the mutation's own transaction, under a unique identity. */
module ToolLedger {
  import opened Options

  /** ai_tool_operations_identity */
  datatype Key = Key(tenant: string, assistant: string, callIndex: nat)

  /** What a call asks for: the tool and the canonical form of its arguments. */
  datatype Work = Work(tool: string, arguments: string)

  /** What a tool answers: an applied change carries the id of its action row, a staged one a command id. */
  datatype Receipt = Receipt(ok: bool, action: Option<string>, command: Option<string>)

  datatype Status = Completed | Failed

  datatype Row = Row(work: Work, status: Status, result: Option<Receipt>)

  /** What the caller is told. `Already` is the reply to a completed claim without a stored receipt. */
  datatype Reply = Fresh(receipt: Receipt) | Replayed(receipt: Receipt) | Already | Refused

  /** What the ledger says before a call may run. */
  datatype Seen = Nothing | Mismatch | Known(reply: Reply)

  type Table = map<Key, Row>

  /** `_ledger_replay`: a failed row says nothing. */
  function Replay(rows: Table, key: Key, work: Work): Seen {
    if key !in rows then Nothing
    else if rows[key].work != work then Mismatch
    else if rows[key].status != Completed then Nothing
    else if rows[key].result.Some? then Known(Replayed(rows[key].result.value))
    else Known(Already)
  }

  /** `_ledger_claim`: a plain INSERT, refused by any committed row of the same identity. */
  function Claimed(rows: Table, key: Key, work: Work): Option<Table> {
    if key in rows then None else Some(rows[key := Row(work, Completed, None)])
  }

  /** `_ledger_record_failure`: ON CONFLICT DO NOTHING. */
  function FailureRecorded(rows: Table, key: Key, work: Work): Table {
    if key in rows then rows else rows[key := Row(work, Failed, None)]
  }

  /** `_ledger_attach_result`: only where no receipt is stored yet. */
  function Attached(rows: Table, key: Key, receipt: Receipt): Table {
    if key in rows && rows[key].result.None? then rows[key := rows[key].(result := Some(receipt))] else rows
  }

  /** One committed claim, whether the transaction that committed it changed any record, and what it
      answered. */
  datatype Commit = Commit(key: Key, work: Work, mutated: bool, receipt: Receipt)

  // ---- Many calls at once ----

  /** Where one call of execute_safe_tool stands. `Holding` is its transaction after the claim. */
  datatype Phase =
    | Idle
    | Claiming
    | Holding(mutated: bool)
    | Committed(receipt: Receipt)
    | Failing
    | Done(reply: Reply)
    | Lost

  datatype Call = Call(key: Key, work: Work, phase: Phase)

  datatype World = World(rows: Table, calls: seq<Call>, log: seq<Commit>)

  datatype Action =
    | Arrive(key: Key, work: Work)
    | Constrained(c: nat)
    | Look(c: nat)
    | Claim(c: nat)
    | Mutate(c: nat)
    | Finish(c: nat, receipt: Receipt)
    | Abort(c: nat)
    | NoteFailure(c: nat, written: bool)
    | Attach(c: nat, written: bool)
    | Crash(c: nat)

  function At(w: World, c: nat, phase: Phase): World
    requires c < |w.calls|
  {
    w.(calls := w.calls[c := w.calls[c].(phase := phase)])
  }

  /** Another transaction holds the identity: an insert of it waits. */
  ghost predicate Held(calls: seq<Call>, key: Key) {
    exists d :: 0 <= d < |calls| && calls[d].key == key && calls[d].phase.Holding?
  }

  ghost predicate InPhase(w: World, c: nat, phase: Phase) {
    c < |w.calls| && w.calls[c].phase == phase
  }

  function Looked(w: World, c: nat): Phase
    requires c < |w.calls|
  {
    match Replay(w.rows, w.calls[c].key, w.calls[c].work)
    case Nothing => Claiming
    case Mismatch => Failing
    case Known(reply) => Done(reply)
  }

  ghost predicate Step(w: World, a: Action, w': World) {
    match a
    case Arrive(key, work) => w' == w.(calls := w.calls + [Call(key, work, Idle)])
    case Constrained(c) => InPhase(w, c, Idle) && w' == At(w, c, Failing)
    case Look(c) => InPhase(w, c, Idle) && w' == At(w, c, Looked(w, c))
    case Claim(c) =>
      && InPhase(w, c, Claiming) && !Held(w.calls, w.calls[c].key)
      && w' == At(w, c, if Claimed(w.rows, w.calls[c].key, w.calls[c].work).Some? then Holding(false) else Failing)
    case Mutate(c) => c < |w.calls| && w.calls[c].phase.Holding? && w' == At(w, c, Holding(true))
    case Finish(c, receipt) =>
      && c < |w.calls| && w.calls[c].phase.Holding?
      && var call := w.calls[c];
         var claimed := Claimed(w.rows, call.key, call.work);
         && claimed.Some?
         && w' == At(w, c, Committed(receipt)).(
                    rows := claimed.value, log := w.log + [Commit(call.key, call.work, call.phase.mutated, receipt)])
    case Abort(c) =>
      c < |w.calls| && (w.calls[c].phase.Claiming? || w.calls[c].phase.Holding?) && w' == At(w, c, Failing)
    case NoteFailure(c, written) =>
      && InPhase(w, c, Failing) && (written ==> !Held(w.calls, w.calls[c].key))
      && w' == At(w, c, Done(Refused)).(
                 rows := if written then FailureRecorded(w.rows, w.calls[c].key, w.calls[c].work) else w.rows)
    case Attach(c, written) =>
      && c < |w.calls| && w.calls[c].phase.Committed?
      && w' == At(w, c, Done(Fresh(w.calls[c].phase.receipt))).(
                 rows := if written then Attached(w.rows, w.calls[c].key, w.calls[c].phase.receipt) else w.rows)
    case Crash(c) => c < |w.calls| && !w.calls[c].phase.Done? && w' == At(w, c, Lost)
  }

  const EMPTY := World(map[], [], [])

  ghost predicate IsRun(ws: seq<World>, acts: seq<Action>) {
    |ws| == |acts| + 1 && ws[0] == EMPTY
    && forall k {:trigger acts[k]} :: 0 <= k < |acts| ==> Step(ws[k], acts[k], ws[k + 1])
  }

  // ---- The invariant ----

  /** At most one transaction holds an identity, and then no row of it is committed. */
  ghost predicate OneHolder(rows: Table, calls: seq<Call>) {
    && (forall c, d :: 0 <= c < d < |calls| && calls[c].phase.Holding? && calls[d].phase.Holding? ==>
          calls[c].key != calls[d].key)
    && (forall c :: 0 <= c < |calls| && calls[c].phase.Holding? ==> calls[c].key !in rows)
  }

  /** The log has one entry per completed row, for the same work, with the receipt the row holds if any. */
  ghost predicate LogMatches(rows: Table, log: seq<Commit>) {
    && (forall i, j :: 0 <= i < j < |log| ==> log[i].key != log[j].key)
    && (forall i :: 0 <= i < |log| ==> EntryMatches(rows, log[i]))
    && (forall key | key in rows && rows[key].status == Completed :: exists i :: 0 <= i < |log| && log[i].key == key)
  }

  predicate EntryMatches(rows: Table, entry: Commit) {
    && entry.key in rows && rows[entry.key].status == Completed && rows[entry.key].work == entry.work
    && (rows[entry.key].result.Some? ==> rows[entry.key].result.value == entry.receipt)
  }

  /** A claim of this work is committed, and answered with `receipt` if one is given. */
  ghost predicate Backed(log: seq<Commit>, key: Key, work: Work, receipt: Option<Receipt>) {
    exists i :: 0 <= i < |log| && log[i].key == key && log[i].work == work
        && (receipt.Some? ==> log[i].receipt == receipt.value)
  }

  /** What a call past its commit, or answered from the ledger, has been told is backed. */
  ghost predicate Answered(log: seq<Commit>, call: Call) {
    match call.phase
    case Committed(r) => Backed(log, call.key, call.work, Some(r))
    case Done(Fresh(r)) => Backed(log, call.key, call.work, Some(r))
    case Done(Replayed(r)) => Backed(log, call.key, call.work, Some(r))
    case Done(Already) => Backed(log, call.key, call.work, None)
    case _ => true
  }

  ghost predicate Inv(w: World) {
    && OneHolder(w.rows, w.calls) && LogMatches(w.rows, w.log)
    && (forall c :: 0 <= c < |w.calls| ==> Answered(w.log, w.calls[c]))
    && (forall key | key in w.rows && w.rows[key].status == Failed :: w.rows[key].result.None?)
  }

  /** Committed rows stay: same work, same status, and a receipt once stored is never changed. */
  ghost predicate RowsStay(rows: Table, rows': Table) {
    forall key | key in rows ::
      && key in rows' && rows'[key].work == rows[key].work && rows'[key].status == rows[key].status
      && (rows[key].result.Some? ==> rows'[key] == rows[key])
  }

  lemma StepKeeps(w: World, a: Action, w': World)
    requires Inv(w) && Step(w, a, w')
    ensures Inv(w') && RowsStay(w.rows, w'.rows)
    ensures w.log <= w'.log
  {
    match a
    case Arrive(key, work) =>
    case Constrained(c) => MoveKeeps(w, c, Failing);
    case Look(c) =>
      LookedIsBacked(w, c);
      MoveKeeps(w, c, Looked(w, c));
    case Claim(c) => MoveKeeps(w, c, w'.calls[c].phase);
    case Mutate(c) => MoveKeeps(w, c, Holding(true));
    case Finish(c, receipt) => FinishKeeps(w, c, receipt, w');
    case Abort(c) => MoveKeeps(w, c, Failing);
    case NoteFailure(c, written) => FailureKeeps(w, c, written, w');
    case Attach(c, written) => AttachKeeps(w, c, written, w');
    case Crash(c) => MoveKeeps(w, c, Lost);
  }

  lemma LookedIsBacked(w: World, c: nat)
    requires Inv(w) && c < |w.calls|
    ensures Answered(w.log, w.calls[c].(phase := Looked(w, c)))
  {
    var key := w.calls[c].key;
    if Looked(w, c).Done? {
      var i :| 0 <= i < |w.log| && w.log[i].key == key;
      assert EntryMatches(w.rows, w.log[i]);
    }
  }

  /** A longer log backs what a shorter one does. */
  lemma StillAnswered(log: seq<Commit>, more: Commit, call: Call)
    requires Answered(log, call)
    ensures Answered(log + [more], call)
  {
    forall key, work, r | Backed(log, key, work, r) ensures Backed(log + [more], key, work, r) {
      var i :| 0 <= i < |log| && log[i].key == key && log[i].work == work && (r.Some? ==> log[i].receipt == r.value);
      assert (log + [more])[i] == log[i];
    }
  }

  lemma MoveKeeps(w: World, c: nat, phase: Phase)
    requires Inv(w) && c < |w.calls| && Answered(w.log, w.calls[c].(phase := phase))
    requires phase.Holding? ==>
               w.calls[c].phase.Holding? || (w.calls[c].key !in w.rows && !Held(w.calls, w.calls[c].key))
    ensures Inv(At(w, c, phase))
  {
    var calls := At(w, c, phase).calls;
    forall d, e | 0 <= d < e < |calls| && calls[d].phase.Holding? && calls[e].phase.Holding?
      ensures calls[d].key != calls[e].key
    {
    }
  }

  lemma FinishKeeps(w: World, c: nat, receipt: Receipt, w': World)
    requires Inv(w) && Step(w, Finish(c, receipt), w')
    ensures Inv(w') && RowsStay(w.rows, w'.rows) && w.log <= w'.log
  {
    var call := w.calls[c];
    var commit := Commit(call.key, call.work, call.phase.mutated, receipt);
    Grown(w.rows, w.log, call.key, Row(call.work, Completed, None), commit);
    forall d | 0 <= d < |w'.calls| ensures Answered(w'.log, w'.calls[d]) {
      if d == c {
        assert w'.log[|w.log|] == commit;
      } else {
        StillAnswered(w.log, commit, w.calls[d]);
      }
    }
  }

  lemma FailureKeeps(w: World, c: nat, written: bool, w': World)
    requires Inv(w) && Step(w, NoteFailure(c, written), w')
    ensures Inv(w') && RowsStay(w.rows, w'.rows) && w.log <= w'.log
  {
    forall j | 0 <= j < |w'.log| ensures EntryMatches(w'.rows, w'.log[j]) {
      assert EntryMatches(w.rows, w.log[j]);
    }
  }

  lemma AttachKeeps(w: World, c: nat, written: bool, w': World)
    requires Inv(w) && Step(w, Attach(c, written), w')
    ensures Inv(w') && RowsStay(w.rows, w'.rows) && w.log <= w'.log
  {
    var call := w.calls[c];
    assert Answered(w.log, call);
    var i :| 0 <= i < |w.log| && w.log[i].key == call.key && w.log[i].receipt == call.phase.receipt;
    forall j | 0 <= j < |w'.log| ensures EntryMatches(w'.rows, w'.log[j]) {
      assert EntryMatches(w.rows, w.log[j]);
    }
  }

  lemma {:induction false} RunKeeps(ws: seq<World>, acts: seq<Action>, n: nat)
    requires IsRun(ws, acts) && n < |ws|
    ensures Inv(ws[n])
    decreases n
  {
    if n > 0 {
      RunKeeps(ws, acts, n - 1);
      StepKeeps(ws[n - 1], acts[n - 1], ws[n]);
    }
  }

  /** From any reachable state on, nothing rewrites a row, and the log only grows. */
  lemma {:induction false} RowsStayForever(ws: seq<World>, acts: seq<Action>, m: nat, n: nat)
    requires IsRun(ws, acts) && m <= n < |ws|
    ensures RowsStay(ws[m].rows, ws[n].rows) && ws[m].log <= ws[n].log
    decreases n
  {
    if m < n {
      RowsStayForever(ws, acts, m, n - 1);
      RunKeeps(ws, acts, n - 1);
      StepKeeps(ws[n - 1], acts[n - 1], ws[n]);
    }
  }

  // ---- At most once ----

  function Effects(log: seq<Commit>, key: Key): (n: nat)
    ensures n <= |log|
  {
    if log == [] then 0
    else Effects(log[..|log| - 1], key) + if log[|log| - 1].key == key && log[|log| - 1].mutated then 1 else 0
  }

  lemma {:induction false} DistinctOnce(log: seq<Commit>, key: Key)
    requires forall i, j :: 0 <= i < j < |log| ==> log[i].key != log[j].key
    ensures Effects(log, key) <= 1
    ensures Effects(log, key) == 1 <==> exists i :: 0 <= i < |log| && log[i].key == key && log[i].mutated
  {
    if log != [] {
      var n := |log| - 1;
      DistinctOnce(log[..n], key);
      assert forall i :: 0 <= i < n ==> log[..n][i] == log[i];
      if i :| 0 <= i < |log| && log[i].key == key && log[i].mutated {
        assert i < n ==> log[..n][i].key == key;
      }
    }
  }

  /** Whatever duplicates, rollbacks, crashes and lost receipts a run contains, at most one committed
      transaction of an identity changes records. */
  lemma AtMostOnce(ws: seq<World>, acts: seq<Action>, n: nat, key: Key)
    requires IsRun(ws, acts) && n < |ws|
    ensures Effects(ws[n].log, key) <= 1
  {
    RunKeeps(ws, acts, n);
    DistinctOnce(ws[n].log, key);
  }

  /** Once any row stands under an identity, completed or failed, no later transaction of it commits:
      neither for other work nor, after a failure, for the same work. A failed call is never retried. */
  lemma RowClosesIdentity(ws: seq<World>, acts: seq<Action>, m: nat, n: nat, key: Key)
    requires IsRun(ws, acts) && m <= n < |ws| && key in ws[m].rows
    ensures Effects(ws[n].log, key) == Effects(ws[m].log, key)
    ensures ws[m].rows[key].status == Failed ==> Effects(ws[n].log, key) == 0
  {
    RunKeeps(ws, acts, m);
    RunKeeps(ws, acts, n);
    RowsStayForever(ws, acts, m, n);
    DistinctOnce(ws[m].log, key);
    DistinctOnce(ws[n].log, key);
    if i :| 0 <= i < |ws[n].log| && ws[n].log[i].key == key && ws[n].log[i].mutated {
      assert EntryMatches(ws[n].rows, ws[n].log[i]);
      var j :| 0 <= j < |ws[m].log| && ws[m].log[j].key == key;
      assert ws[n].log[j] == ws[m].log[j];
      assert i == j;
    }
    if j :| 0 <= j < |ws[m].log| && ws[m].log[j].key == key && ws[m].log[j].mutated {
      assert ws[n].log[j] == ws[m].log[j];
    }
  }

  /** A change under an identity is always the work its row names: other work under a used identity
      never runs, and no call for it is told anything but a refusal. */
  lemma OtherWorkNeverRuns(ws: seq<World>, acts: seq<Action>, m: nat, n: nat, c: nat)
    requires IsRun(ws, acts) && m <= n < |ws| && c < |ws[n].calls|
    requires ws[n].calls[c].key in ws[m].rows && ws[m].rows[ws[n].calls[c].key].work != ws[n].calls[c].work
    ensures ws[n].calls[c].phase.Done? ==> ws[n].calls[c].phase.reply == Refused
    ensures !ws[n].calls[c].phase.Holding? && !ws[n].calls[c].phase.Committed?
    ensures forall i :: 0 <= i < |ws[n].log| && ws[n].log[i].key == ws[n].calls[c].key ==>
              ws[n].log[i].work != ws[n].calls[c].work
  {
    RunKeeps(ws, acts, n);
    RowsStayForever(ws, acts, m, n);
    assert Answered(ws[n].log, ws[n].calls[c]);
    forall i | 0 <= i < |ws[n].log| && ws[n].log[i].key == ws[n].calls[c].key
      ensures ws[n].log[i].work != ws[n].calls[c].work
    {
      assert EntryMatches(ws[n].rows, ws[n].log[i]);
    }
  }

  /** An answer that is not a refusal is backed by exactly one committed claim of that same work; a fresh
      or replayed receipt is, word for word, what that claim's execution answered; and the identity's
      records were changed if and only if that claim changed them. */
  lemma AnswersAreBacked(ws: seq<World>, acts: seq<Action>, n: nat, c: nat) returns (i: nat)
    requires IsRun(ws, acts) && n < |ws| && c < |ws[n].calls|
    requires ws[n].calls[c].phase.Done? && ws[n].calls[c].phase.reply != Refused
    ensures i < |ws[n].log| && ws[n].log[i].key == ws[n].calls[c].key && ws[n].log[i].work == ws[n].calls[c].work
    ensures match ws[n].calls[c].phase.reply
            case Fresh(r) => r == ws[n].log[i].receipt
            case Replayed(r) => r == ws[n].log[i].receipt
            case _ => true
    ensures forall j :: 0 <= j < |ws[n].log| && ws[n].log[j].key == ws[n].calls[c].key ==> j == i
    ensures ws[n].log[i].mutated <==> Effects(ws[n].log, ws[n].calls[c].key) == 1
  {
    RunKeeps(ws, acts, n);
    var call := ws[n].calls[c];
    assert Answered(ws[n].log, call);
    i :| 0 <= i < |ws[n].log| && ws[n].log[i].key == call.key && ws[n].log[i].work == call.work
         && match call.phase.reply {
              case Fresh(r) => r == ws[n].log[i].receipt
              case Replayed(r) => r == ws[n].log[i].receipt
              case _ => true
            };
    DistinctOnce(ws[n].log, call.key);
    forall j | 0 <= j < |ws[n].log| && ws[n].log[j].key == call.key ensures j == i {
    }
  }

  /** A call that looks after its work was committed under its identity is answered at once: with the very
      receipt of that claim when it was attached, with "already applied" when it was not; never a refusal. */
  lemma RepeatIsAnswered(ws: seq<World>, acts: seq<Action>, m: nat, n: nat, c: nat, i: nat)
    requires IsRun(ws, acts) && m <= n < |acts| && acts[n] == Look(c)
    requires c < |ws[n].calls| && i < |ws[m].log|
    requires ws[m].log[i].key == ws[n].calls[c].key && ws[m].log[i].work == ws[n].calls[c].work
    ensures ws[n].calls[c].key in ws[n].rows && c < |ws[n + 1].calls|
    ensures ws[n + 1].calls[c].phase ==
              Done(if ws[n].rows[ws[n].calls[c].key].result.Some? then Replayed(ws[m].log[i].receipt) else Already)
    ensures ws[n + 1].rows == ws[n].rows && ws[n + 1].log == ws[n].log
  {
    RunKeeps(ws, acts, n);
    RowsStayForever(ws, acts, m, n);
    assert ws[n].log[i] == ws[m].log[i];
    assert EntryMatches(ws[n].rows, ws[n].log[i]);
    assert Step(ws[n], acts[n], ws[n + 1]);
  }

  /** What a call can be told once its own transaction committed with `receipt`: that receipt, fresh. */
  predicate ToldFresh(phase: Phase, receipt: Receipt) {
    phase in {Committed(receipt), Done(Fresh(receipt)), Lost}
  }

  lemma {:induction false} CommitIsToldFresh(ws: seq<World>, acts: seq<Action>, m: nat, n: nat, c: nat,
      receipt: Receipt)
    requires IsRun(ws, acts) && m <= n < |ws| && c < |ws[m].calls| && ToldFresh(ws[m].calls[c].phase, receipt)
    ensures c < |ws[n].calls| && ToldFresh(ws[n].calls[c].phase, receipt)
    decreases n
  {
    if m < n {
      CommitIsToldFresh(ws, acts, m, n - 1, c, receipt);
      assert Step(ws[n - 1], acts[n - 1], ws[n]);
    }
  }

  /** A call under a free identity goes ahead: its look lets it claim, its claim holds unless another
      transaction does, and once its handler answers, its row stands for good and it is told that answer,
      fresh, and nothing else. */
  lemma FirstCallIsFresh(ws: seq<World>, acts: seq<Action>, n: nat, c: nat)
    requires IsRun(ws, acts) && n < |acts| && c < |ws[n].calls| && ws[n].calls[c].key !in ws[n].rows
    ensures c < |ws[n + 1].calls|
    ensures acts[n] == Look(c) ==> ws[n + 1].calls[c].phase == Claiming
    ensures acts[n] == Claim(c) ==> ws[n + 1].calls[c].phase == Holding(false)
    ensures acts[n].Finish? && acts[n].c == c ==>
              forall m :: n < m < |ws| ==>
                && c < |ws[m].calls| && ToldFresh(ws[m].calls[c].phase, acts[n].receipt)
                && ws[n].calls[c].key in ws[m].rows
                && ws[m].rows[ws[n].calls[c].key].work == ws[n].calls[c].work
                && ws[m].rows[ws[n].calls[c].key].status == Completed
  {
    assert Step(ws[n], acts[n], ws[n + 1]);
    if acts[n].Finish? && acts[n].c == c {
      forall m | n < m < |ws|
        ensures && c < |ws[m].calls| && ToldFresh(ws[m].calls[c].phase, acts[n].receipt)
                && ws[n].calls[c].key in ws[m].rows
                && ws[m].rows[ws[n].calls[c].key].work == ws[n].calls[c].work
                && ws[m].rows[ws[n].calls[c].key].status == Completed
      {
        CommitIsToldFresh(ws, acts, n + 1, m, c, acts[n].receipt);
        RowsStayForever(ws, acts, n + 1, m);
      }
    }
  }

  /** The reply "already applied" can be untrue: a tool that declines commits its claim too, and when its
      receipt is not attached, the duplicate is told the change was made. */
  lemma AlreadyCanBeUntrue(key: Key, work: Work, refusal: Receipt) returns (ws: seq<World>, acts: seq<Action>)
    requires !refusal.ok
    ensures IsRun(ws, acts) && |ws[|acts|].calls| == 2
    ensures ws[|acts|].calls[1] == Call(key, work, Done(Already)) && ws[|acts|].calls[0].phase == Done(Fresh(refusal))
    ensures Effects(ws[|acts|].log, key) == 0
  {
    var w1 := EMPTY.(calls := [Call(key, work, Idle)]);
    var w2 := At(w1, 0, Claiming);
    var w3 := At(w2, 0, Holding(false));
    var rows := map[key := Row(work, Completed, None)];
    var w4 := World(rows, [Call(key, work, Committed(refusal))], [Commit(key, work, false, refusal)]);
    var w5 := At(w4, 0, Done(Fresh(refusal)));
    var w6 := w5.(calls := w5.calls + [Call(key, work, Idle)]);
    var w7 := At(w6, 1, Done(Already));
    ws := [EMPTY, w1, w2, w3, w4, w5, w6, w7];
    acts := [Arrive(key, work), Look(0), Claim(0), Finish(0, refusal), Attach(0, false), Arrive(key, work), Look(1)];
    assert w4 == At(w3, 0, Committed(refusal)).(rows := rows, log := [] + [Commit(key, work, false, refusal)]);
    assert Effects(w7.log[..0], key) == 0;
  }

  // ---- One call, undisturbed ----

  /** What a handler does inside the transaction. */
  datatype Outcome = Applied(receipt: Receipt) | Declined(receipt: Receipt) | Raised

  /** What one call of execute_safe_tool leaves: the rows, the claims it committed, and its reply. */
  datatype Execution = Execution(rows: Table, commits: seq<Commit>, reply: Reply)

  /** `handler` is what the tool's branch of the dispatcher does, `written` whether the trailing
      transaction succeeds. */
  function Executed(rows: Table, key: Key, work: Work, handler: Outcome, written: bool): Execution {
    if key in rows then
      Execution(rows, [], match Replay(rows, key, work) case Known(r) => r case _ => Refused)
    else if handler.Raised? then
      Execution(if written then FailureRecorded(rows, key, work) else rows, [], Refused)
    else
      Execution(rows[key := Row(work, Completed, if written then Some(handler.receipt) else None)],
                [Commit(key, work, handler.Applied?, handler.receipt)], Fresh(handler.receipt))
  }

  class Executor {
    var rows: Table
    var log: seq<Commit>

    constructor ()
      ensures rows == map[] && log == []
    {
      rows, log := map[], [];
    }

    ghost predicate Valid()
      reads this
    {
      LogMatches(rows, log)
    }

    /** execute_safe_tool with a call index, for a tool that changes records. */
    method Execute(key: Key, work: Work, handler: Outcome, written: bool) returns (reply: Reply)
      requires Valid()
      modifies this
      ensures Valid() && RowsStay(old(rows), rows)
      ensures old(log) <= log
      ensures Execution(rows, log[|old(log)|..], reply) == Executed(old(rows), key, work, handler, written)
      ensures key in old(rows) ==> rows == old(rows) && log == old(log)
      ensures key in old(rows) && old(rows)[key].work == work && old(rows)[key].status == Completed ==>
                reply == match old(rows)[key].result { case Some(r) => Replayed(r) case None => Already }
      ensures key in old(rows) && (old(rows)[key].work != work || old(rows)[key].status == Failed) ==> reply == Refused
      ensures key !in old(rows) && !handler.Raised? ==>
                && reply == Fresh(handler.receipt)
                && log == old(log) + [Commit(key, work, handler.Applied?, handler.receipt)]
                && rows == old(rows)[key := Row(work, Completed, if written then Some(handler.receipt) else None)]
      ensures key !in old(rows) && handler.Raised? ==>
                && reply == Refused && log == old(log)
                && rows == if written then old(rows)[key := Row(work, Failed, None)] else old(rows)
    {
      var seen := Replay(rows, key, work);
      if seen.Known? {
        return seen.reply;
      }
      var claimed := Claimed(rows, key, work);
      if seen.Mismatch? || claimed.None? || handler.Raised? {
        if written {
          rows := FailureRecorded(rows, key, work);
        }
        Unlogged(old(rows), log, key, work);
        return Refused;
      }
      rows := claimed.value;
      log := log + [Commit(key, work, handler.Applied?, handler.receipt)];
      reply := Fresh(handler.receipt);
      if written {
        rows := Attached(rows, key, handler.receipt);
      }
      ghost var row := Row(work, Completed, if written then Some(handler.receipt) else None);
      assert rows == old(rows)[key := row];
      Grown(old(rows), old(log), key, row, Commit(key, work, handler.Applied?, handler.receipt));
    }
  }

  lemma Unlogged(rows: Table, log: seq<Commit>, key: Key, work: Work)
    requires LogMatches(rows, log)
    ensures LogMatches(FailureRecorded(rows, key, work), log) && RowsStay(rows, FailureRecorded(rows, key, work))
  {
    forall i | 0 <= i < |log| ensures EntryMatches(FailureRecorded(rows, key, work), log[i]) {
      assert EntryMatches(rows, log[i]);
    }
  }

  // ---- It is a run of the machine ----

  ghost predicate Steps(ws: seq<World>, acts: seq<Action>) {
    |ws| == |acts| + 1 && forall k {:trigger acts[k]} :: 0 <= k < |acts| ==> Step(ws[k], acts[k], ws[k + 1])
  }

  /** Where the world stands after one call was made and answered. */
  function AfterCall(w: World, key: Key, work: Work, ex: Execution): World {
    World(ex.rows, w.calls + [Call(key, work, Done(ex.reply))], w.log + ex.commits)
  }

  /** From any world in which no other transaction holds the identity, the steps of one call, taken in a
      row, end where Execute does: rows, commits and reply. */
  lemma ExecuteIsARun(w: World, key: Key, work: Work, handler: Outcome, written: bool)
    returns (ws: seq<World>, acts: seq<Action>)
    requires !Held(w.calls, key)
    ensures Steps(ws, acts) && ws[0] == w
        && ws[|acts|] == AfterCall(w, key, work, Executed(w.rows, key, work, handler, written))
  {
    var c := |w.calls|;
    var w1 := w.(calls := w.calls + [Call(key, work, Idle)]);
    var w2 := At(w1, c, Looked(w1, c));
    ws, acts := [w, w1, w2], [Arrive(key, work), Look(c)];
    assert w.log + [] == w.log;
    if w2.calls[c].phase.Done? {
      assert w2.calls == w.calls + [Call(key, work, w2.calls[c].phase)];
    } else if key in w.rows || handler.Raised? {
      var w3, more, steps := Declines(w, w2, key, work, handler);
      var w4 := AfterCall(w, key, work, Executed(w.rows, key, work, handler, written));
      assert w4.calls == At(w3, c, Done(Refused)).calls;
      ws, acts := ws + more + [w4], acts + steps + [NoteFailure(c, written)];
    } else {
      var more, steps := Commits(w, w2, key, work, handler, written);
      ws, acts := ws + more, acts + steps;
    }
  }

  /** The steps from the look to the failing phase. */
  lemma Declines(w: World, w2: World, key: Key, work: Work, handler: Outcome)
    returns (w3: World, more: seq<World>, steps: seq<Action>)
    requires !Held(w.calls, key) && (key in w.rows || handler.Raised?)
    requires var w1 := w.(calls := w.calls + [Call(key, work, Idle)]);
             w2 == At(w1, |w.calls|, Looked(w1, |w.calls|)) && !Looked(w1, |w.calls|).Done?
    ensures w3 == w.(calls := w.calls + [Call(key, work, Failing)]) && |more| == |steps| && Steps([w2] + more, steps)
    ensures ([w2] + more)[|more|] == w3
  {
    var c := |w.calls|;
    w3 := w.(calls := w.calls + [Call(key, work, Failing)]);
    more, steps := [], [];
    if w2.calls[c].phase.Failing? {
      assert w2.calls == w3.calls;
    } else if key in w.rows {
      assert At(w2, c, Failing).calls == w3.calls;
      more, steps := [w3], [Claim(c)];
    } else {
      var held := At(w2, c, Holding(false));
      assert At(held, c, Failing).calls == w3.calls;
      more, steps := [held, w3], [Claim(c), Abort(c)];
    }
  }

  /** The steps from the look to a committed claim, its receipt attached or lost. */
  lemma Commits(w: World, w2: World, key: Key, work: Work, handler: Outcome, written: bool)
    returns (more: seq<World>, steps: seq<Action>)
    requires !Held(w.calls, key) && key !in w.rows && !handler.Raised?
    requires w2 == w.(calls := w.calls + [Call(key, work, Claiming)])
    ensures |more| == |steps| && Steps([w2] + more, steps)
    ensures ([w2] + more)[|more|] == AfterCall(w, key, work, Executed(w.rows, key, work, handler, written))
  {
    var c, r := |w.calls|, handler.receipt;
    var held := At(w2, c, Holding(false));
    var did := At(held, c, Holding(handler.Applied?));
    var rows := w.rows[key := Row(work, Completed, None)];
    var done := At(did, c, Committed(r)).(rows := rows, log := w.log + [Commit(key, work, handler.Applied?, r)]);
    var last := AfterCall(w, key, work, Executed(w.rows, key, work, handler, written));
    assert last.calls == At(done, c, Done(Fresh(r))).calls;
    assert last.rows == if written then Attached(rows, key, r) else rows;
    if handler.Applied? {
      more, steps := [held, did, done, last], [Claim(c), Mutate(c), Finish(c, r), Attach(c, written)];
    } else {
      assert did == held;
      more, steps := [held, done, last], [Claim(c), Finish(c, r), Attach(c, written)];
    }
  }

  lemma Grown(rows: Table, log: seq<Commit>, key: Key, row: Row, commit: Commit)
    requires LogMatches(rows, log) && key !in rows && commit.key == key && commit.work == row.work
    requires row.status == Completed && (row.result.Some? ==> row.result.value == commit.receipt)
    ensures LogMatches(rows[key := row], log + [commit]) && RowsStay(rows, rows[key := row])
  {
    var rows', log' := rows[key := row], log + [commit];
    assert log'[|log|].key == key;
    forall i | 0 <= i < |log'| ensures EntryMatches(rows', log'[i]) {
      assert i < |log| ==> EntryMatches(rows, log[i]);
    }
    forall k | k in rows' && rows'[k].status == Completed ensures exists i :: 0 <= i < |log'| && log'[i].key == k {
      if k != key {
        var i :| 0 <= i < |log| && log[i].key == k;
        assert log'[i].key == k;
      }
    }
  }
}
