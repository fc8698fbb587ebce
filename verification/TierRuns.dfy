/** What one tier of a chat turn has to make of the replies it gets (backend/ai_chat_agent.py): which calls it
    runs, what they change, and when it stops. The models are adversaries: a script says what each model
    call brings, any tool calls in any order, an answer, or an error, and what each tool's handler then
    does. */
module TierRuns {
  import opened Options
  import opened ToolLedger

  datatype ToolCall = ToolCall(
    work: Work, wellFormed: bool, offered: bool, readOnly: bool, handler: Outcome, attached: bool)

  datatype ModelReply =
    | Message(calls: seq<ToolCall>, claimsStaging: bool, empty: bool)
    | StatusError(code: int)
    | Raises

  datatype Result = Returned(actions: seq<Receipt>) | RaisedError

  /** The gateway's providers, Fireworks and the local model speak the same loop. */
  datatype Tier = Chat(rounds: nat) | Foundry | Bedrock

  const LOCAL_ROUNDS := 3

  predicate IsChange(r: Receipt) {
    r.ok && r.action.Some?
  }

  /** `_is_record_change` */
  predicate IsRecordChange(call: ToolCall, r: Receipt) {
    r.ok && !call.readOnly && r.action.Some?
  }

  /** A handler that changed a record answers with its action id; nothing else does. */
  predicate Honest(call: ToolCall) {
    match call.handler
    case Applied(r) => IsChange(r) && !call.readOnly
    case Declined(r) => !IsChange(r)
    case Raised => true
  }

  ghost predicate HonestScript(script: seq<ModelReply>) {
    forall i, j :: 0 <= i < |script| && script[i].Message? && 0 <= j < |script[i].calls| ==> Honest(script[i].calls[j])
  }

  /** From call index `k` on, the ledger holds no receipt of a record change for this turn. */
  ghost predicate Clear(rows: Table, tenant: string, assistant: string, k: nat) {
    forall key | key in rows && key.tenant == tenant && key.assistant == assistant && key.callIndex >= k ::
      rows[key].result.None? || !IsChange(rows[key].result.value)
  }

  function ReceiptOf(reply: ToolLedger.Reply): Receipt {
    match reply
    case Fresh(r) => r
    case Replayed(r) => r
    case Already => Receipt(true, None, None)
    case Refused => Receipt(false, None, None)
  }

  /** What a ledgered call answers is a record change exactly when it committed one, which an index in use
      never does; the ledger stays clear from the next index on, and as it was when nothing changed. */
  lemma LedgeredCall(rows: Table, key: Key, call: ToolCall)
    requires Honest(call) && !call.readOnly && Clear(rows, key.tenant, key.assistant, key.callIndex)
    ensures var ex := Executed(rows, key, call.work, call.handler, call.attached);
            var changed := ex.reply.Fresh? && call.handler.Applied?;
            && (IsRecordChange(call, ReceiptOf(ex.reply)) <==> changed)
            && (changed ==> ReceiptOf(ex.reply) == call.handler.receipt && key !in rows)
            && (changed <==> ex.commits != [] && ex.commits[|ex.commits| - 1].mutated)
            && Clear(ex.rows, key.tenant, key.assistant, key.callIndex + 1)
            && (!changed && Clear(rows, key.tenant, key.assistant, 0) ==> Clear(ex.rows, key.tenant, key.assistant, 0))
  {
  }

  // ---- What the replies ask for ----

  /** How a tier passes calls on: under indexes of the turn's ledger or not, and with malformed arguments
      taken as empty (`lenient`) or reported back. */
  datatype Route = Route(tenant: string, assistant: string, ledgered: bool, lenient: bool)

  function KeyAt(route: Route, index: nat): Key {
    Key(route.tenant, route.assistant, index)
  }

  predicate Reaches(call: ToolCall, route: Route) {
    call.offered && (call.wellFormed || route.lenient)
  }

  /** The call changes a record: its handler does, and its index is free. */
  predicate Changes(call: ToolCall, key: Key, rows: Table, route: Route) {
    Reaches(call, route) && call.handler.Applied? && (route.ledgered ==> key !in rows)
  }

  /** What the calls change, the first of them with index `start`: the answers of those that do, in order. */
  function Asked(calls: seq<ToolCall>, start: nat, rows: Table, route: Route): seq<Receipt> {
    if calls == [] then []
    else
      var n := |calls| - 1;
      Asked(calls[..n], start, rows, route)
      + if Changes(calls[n], KeyAt(route, start + n), rows, route) then [calls[n].handler.receipt] else []
  }

  /** What a call is answered with: by its handler, or under an index in use from what its row holds, if it
      is for the same work. */
  function AnswerOf(call: ToolCall, key: Key, rows: Table, route: Route): Receipt {
    if !Reaches(call, route) then Receipt(false, None, None)
    else if !route.ledgered || call.readOnly || key !in rows then
      if call.handler.Raised? then Receipt(false, None, None) else call.handler.receipt
    else if rows[key].work != call.work || rows[key].status != Completed then Receipt(false, None, None)
    else if rows[key].result.Some? then rows[key].result.value else Receipt(true, None, None)
  }

  predicate Stages(receipt: Receipt) {
    receipt.ok && receipt.command.Some?
  }

  /** Some of the calls is answered with a staged command. */
  predicate Staged(calls: seq<ToolCall>, start: nat, rows: Table, route: Route) {
    calls != []
    && var n := |calls| - 1;
       Staged(calls[..n], start, rows, route) || Stages(AnswerOf(calls[n], KeyAt(route, start + n), rows, route))
  }

  /** A call that ran under a free index leaves its completed row. */
  predicate LeavesRow(call: ToolCall, key: Key, rows: Table, left: Table, route: Route) {
    route.ledgered && Reaches(call, route) && !call.readOnly && key !in rows && !call.handler.Raised? ==>
      key in left && left[key] == Row(call.work, Completed, if call.attached then Some(call.handler.receipt) else None)
  }

  ghost predicate Recorded(calls: seq<ToolCall>, start: nat, rows: Table, left: Table, route: Route) {
    forall j :: 0 <= j < |calls| ==> LeavesRow(calls[j], KeyAt(route, start + j), rows, left, route)
  }

  /** Rows that stood still stand, and every new one has an index of the turn from `start` up to `stop`. */
  ghost predicate Extends(rows: Table, left: Table, route: Route, start: nat, stop: nat) {
    && (forall key | key in rows :: key in left && left[key] == rows[key])
    && (forall key | key in left && key !in rows ::
          route.ledgered && key.tenant == route.tenant && key.assistant == route.assistant
          && start <= key.callIndex < stop)
  }

  /** The calls of all the messages, in order. */
  function CallsOf(replies: seq<ModelReply>): seq<ToolCall> {
    if replies == [] then []
    else
      var last := replies[|replies| - 1];
      CallsOf(replies[..|replies| - 1]) + if last.Message? then last.calls else []
  }

  lemma {:induction false} AskedConcat(a: seq<ToolCall>, b: seq<ToolCall>, start: nat, rows: Table, left: Table,
      route: Route)
    requires Extends(rows, left, route, start, start + |a|)
    ensures Asked(a + b, start, rows, route) == Asked(a, start, rows, route) + Asked(b, start + |a|, left, route)
    ensures Staged(a + b, start, rows, route) <==> Staged(a, start, rows, route) || Staged(b, start + |a|, left, route)
  {
    if b == [] {
      assert a + b == a;
    } else {
      var n := |b| - 1;
      AskedConcat(a, b[..n], start, rows, left, route);
      assert (a + b)[..|a + b| - 1] == a + b[..n];
      var key := KeyAt(route, start + |a| + n);
      assert key in rows <==> key in left;
    }
  }

  lemma RecordedConcat(a: seq<ToolCall>, b: seq<ToolCall>, start: nat, rows: Table, mid: Table, left: Table,
      route: Route)
    requires Recorded(a, start, rows, mid, route) && Extends(rows, mid, route, start, start + |a|)
    requires Recorded(b, start + |a|, mid, left, route)
    requires Extends(mid, left, route, start + |a|, start + |a| + |b|)
    ensures Recorded(a + b, start, rows, left, route) && Extends(rows, left, route, start, start + |a| + |b|)
  {
    forall j | 0 <= j < |a + b| ensures LeavesRow((a + b)[j], KeyAt(route, start + j), rows, left, route) {
      if j < |a| {
        assert LeavesRow(a[j], KeyAt(route, start + j), rows, mid, route);
      } else {
        var key := KeyAt(route, start + |a| + (j - |a|));
        assert LeavesRow(b[j - |a|], key, mid, left, route);
        assert key in rows <==> key in mid;
      }
    }
  }

  lemma OneMoreCall(calls: seq<ToolCall>, j: nat, start: nat, rows: Table, mid: Table, left: Table, route: Route)
    requires j < |calls| && Recorded(calls[..j], start, rows, mid, route)
    requires Extends(rows, mid, route, start, start + j) && Extends(mid, left, route, start + j, start + j + 1)
    requires LeavesRow(calls[j], KeyAt(route, start + j), mid, left, route)
    ensures Recorded(calls[..j + 1], start, rows, left, route) && Extends(rows, left, route, start, start + j + 1)
    ensures Asked(calls[..j + 1], start, rows, route)
            == Asked(calls[..j], start, rows, route)
               + if Changes(calls[j], KeyAt(route, start + j), mid, route) then [calls[j].handler.receipt] else []
    ensures Staged(calls[..j + 1], start, rows, route)
            <==> Staged(calls[..j], start, rows, route)
                 || Stages(AnswerOf(calls[j], KeyAt(route, start + j), mid, route))
  {
    assert calls[..j + 1] == calls[..j] + [calls[j]];
    RecordedConcat(calls[..j], [calls[j]], start, rows, mid, left, route);
    assert calls[..j + 1][..j] == calls[..j];
    assert KeyAt(route, start + j) in rows <==> KeyAt(route, start + j) in mid;
  }

  // ---- What a tier makes of its replies ----

  const RETRIED := {400, 404, 422, 500}

  /** Rounds of calls a tier runs. */
  function Limit(tier: Tier): nat {
    match tier
    case Chat(rounds) => if rounds == 0 then LOCAL_ROUNDS else rounds
    case _ => 2
  }

  function RouteOf(tier: Tier, tenant: string, assistant: string): Route {
    Route(tenant, assistant, !tier.Bedrock?, !tier.Chat?)
  }

  predicate Callless(reply: ModelReply) {
    reply.Message? && reply.calls == []
  }

  /** How many of the replies are messages, refusals by status, messages without calls that claim an action
      all the same, and messages without calls that do not. */
  datatype Tally = Tally(messages: nat, refusals: nat, claims: nat, plain: nat)

  function TallyOf(replies: seq<ModelReply>): Tally {
    if replies == [] then Tally(0, 0, 0, 0)
    else
      var t, last := TallyOf(replies[..|replies| - 1]), replies[|replies| - 1];
      Tally(t.messages + (if last.Message? then 1 else 0),
            t.refusals + (if last.StatusError? then 1 else 0),
            t.claims + (if Callless(last) && last.claimsStaging then 1 else 0),
            t.plain + (if Callless(last) && !last.claimsStaging then 1 else 0))
  }

  /** When a tier stops with `last` after the replies tallied in `t`. It has answered only with a message
      that asks for no call, and a plain one always ends it. Unless the model fails, it takes all its
      rounds; a status the chat loop retries without tools ends it only the second time; one reply at most
      is sent back for claiming an action, and the first that claims one nobody `staged` is. */
  ghost predicate StopsRight(tier: Tier, t: Tally, last: ModelReply, staged: bool, exhausted: bool, answered: bool) {
    var k, limit := t.messages + (if last.Message? then 1 else 0), Limit(tier);
    && k <= limit + 1
    && (answered ==> Callless(last) && (k > limit ==> tier.Chat? && !last.empty))
    && (Callless(last) && !last.empty && !last.claimsStaging && (k <= limit || tier.Chat?) ==> answered)
    && (!answered && !exhausted ==>
          && (last.Message? ==> k > limit || (k == limit && tier.Chat? && t.refusals > 0))
          && (tier.Chat? && k < limit && last.StatusError? && last.code in RETRIED ==> t.refusals > 0))
    && (tier.Chat? ==> t.claims <= 1 && t.plain == 0)
    && (tier.Chat? && answered && last.claimsStaging && k <= limit ==> staged || t.claims > 0 || t.refusals > 0)
  }

  /** One tier of the turn: the replies it took, whether it found the script at its end, the ledger before
      and after it, the receipts it collected, and whether it answered. */
  datatype TierRun = TierRun(
    tier: Tier, taken: seq<ModelReply>, exhausted: bool, rows: Table, left: Table, items: seq<Receipt>, answered: bool)

  /** What the calls ask for, from index 0 on, was done and recorded, and nothing else. */
  ghost predicate Obeyed(calls: seq<ToolCall>, rows: Table, left: Table, items: seq<Receipt>, route: Route) {
    && items == Asked(calls, 0, rows, route)
    && Recorded(calls, 0, rows, left, route)
    && Extends(rows, left, route, 0, |calls|)
  }

  /** Every reply without calls came while nothing was staged. */
  ghost predicate SentBack(taken: seq<ModelReply>, rows: Table, route: Route) {
    taken != [] ==>
      var n := |taken| - 1;
      SentBack(taken[..n], rows, route) && (Callless(taken[n]) ==> !Staged(CallsOf(taken[..n]), 0, rows, route))
  }

  /** The replies whose calls are run: one past the last round is asked for without tools. */
  function Heeded(tier: Tier, taken: seq<ModelReply>): seq<ModelReply> {
    if taken != [] && TallyOf(taken).messages > Limit(tier) then taken[..|taken| - 1] else taken
  }

  ghost predicate RunOk(run: TierRun, attachments: bool, tenant: string, assistant: string) {
    && Obeyed(CallsOf(Heeded(run.tier, run.taken)), run.rows, run.left, run.items,
              RouteOf(run.tier, tenant, assistant))
    && if run.taken == [] then !run.answered && ((attachments && run.tier.Chat?) || run.exhausted)
       else
         var n := |run.taken| - 1;
         !(attachments && run.tier.Chat?)
         && StopsRight(run.tier, TallyOf(run.taken[..n]), run.taken[n],
                       Staged(CallsOf(run.taken[..n]), 0, run.rows, RouteOf(run.tier, tenant, assistant)),
                       run.exhausted, run.answered)
         && (run.tier.Chat? ==> SentBack(run.taken[..n], run.rows, RouteOf(run.tier, tenant, assistant)))
  }

  lemma OneMoreReply(replies: seq<ModelReply>, reply: ModelReply)
    ensures CallsOf(replies + [reply]) == CallsOf(replies) + if reply.Message? then reply.calls else []
    ensures !reply.Message? || Callless(reply) ==> CallsOf(replies + [reply]) == CallsOf(replies)
    ensures var t, t' := TallyOf(replies), TallyOf(replies + [reply]);
            && t'.messages == t.messages + (if reply.Message? then 1 else 0)
            && t'.refusals == t.refusals + (if reply.StatusError? then 1 else 0)
            && t'.claims == t.claims + (if Callless(reply) && reply.claimsStaging then 1 else 0)
            && t'.plain == t.plain + (if Callless(reply) && !reply.claimsStaging then 1 else 0)
  {
    assert (replies + [reply])[..|replies|] == replies;
  }

  /** One round more. */
  lemma ObeyedMore(asked: seq<ToolCall>, calls: seq<ToolCall>, rows: Table, mid: Table, left: Table,
      items: seq<Receipt>, route: Route)
    requires Obeyed(asked, rows, mid, items, route)
    requires Recorded(calls, |asked|, mid, left, route)
    requires Extends(mid, left, route, |asked|, |asked| + |calls|)
    ensures Obeyed(asked + calls, rows, left, items + Asked(calls, |asked|, mid, route), route)
    ensures Staged(asked + calls, 0, rows, route)
            <==> Staged(asked, 0, rows, route) || Staged(calls, |asked|, mid, route)
  {
    AskedConcat(asked, calls, 0, rows, mid, route);
    RecordedConcat(asked, calls, 0, rows, mid, left, route);
  }

  // ---- The chat loop ----

  /** Between two rounds: `k` messages came, tools are off after a refusal, and at most one reply asked for
      nothing and was sent back. */
  ghost predicate InLoop(t: Tally, k: nat, tools: bool, nudged: bool) {
    t == Tally(k, if tools then 0 else 1, if nudged then 1 else 0, 0)
  }

  /** What the chat loop remembers from round to round: the next index, and what its switches stand at. */
  datatype Chat = Chatting(index: nat, tools: bool, staged: bool, nudged: bool)

  /** After `k` rounds everything the replies asked for is done. */
  ghost predicate ChatOk(run: TierRun, tenant: string, assistant: string, k: nat, chat: Chat) {
    && run.tier.Chat? && !run.answered && !run.exhausted && chat.index == |CallsOf(run.taken)|
    && Obeyed(CallsOf(run.taken), run.rows, run.left, run.items, RouteOf(run.tier, tenant, assistant))
    && InLoop(TallyOf(run.taken), k, chat.tools, chat.nudged)
    && (chat.staged <==> Staged(CallsOf(run.taken), 0, run.rows, RouteOf(run.tier, tenant, assistant)))
    && SentBack(run.taken, run.rows, RouteOf(run.tier, tenant, assistant))
  }

  /** The chat loop ends with reply `last`, taken after `k` rounds. */
  predicate EndsWith(limit: nat, k: nat, chat: Chat, last: ModelReply, answered: bool) {
    if k == limit then answered <==> Callless(last) && !last.empty
    else if last.Message? then
      last.calls == [] && answered && !(chat.tools && !chat.staged && !chat.nudged && last.claimsStaging)
    else !answered && !(last.StatusError? && chat.tools && last.code in RETRIED)
  }

  lemma ChatStart(rounds: nat, rows: Table, tenant: string, assistant: string)
    ensures ChatOk(TierRun(Tier.Chat(rounds), [], false, rows, rows, [], false), tenant, assistant, 0,
                   Chatting(0, true, false, false))
  {
  }

  /** The script ran out, or the rounds did with tools off. */
  lemma ChatRunsOut(run: TierRun, tenant: string, assistant: string, k: nat, chat: Chat, exhausted: bool)
    requires ChatOk(run, tenant, assistant, k, chat) && k <= Limit(run.tier)
    requires exhausted || (k == Limit(run.tier) && !chat.tools)
    ensures RunOk(run.(exhausted := exhausted), false, tenant, assistant)
  {
    if run.taken != [] {
      var n := |run.taken| - 1;
      assert run.taken == run.taken[..n] + [run.taken[n]];
      OneMoreReply(run.taken[..n], run.taken[n]);
    }
  }

  lemma ChatEnds(run: TierRun, tenant: string, assistant: string, k: nat, chat: Chat, last: ModelReply, exhausted: bool,
      answered: bool)
    requires ChatOk(run, tenant, assistant, k, chat) && k <= Limit(run.tier)
    requires EndsWith(Limit(run.tier), k, chat, last, answered)
    ensures RunOk(run.(taken := run.taken + [last], exhausted := exhausted, answered := answered), false, tenant,
                  assistant)
  {
    OneMoreReply(run.taken, last);
    assert (run.taken + [last])[..|run.taken|] == run.taken;
  }

  /** No message came: the script is `over`, or the model failed. */
  lemma ChatFails(run: TierRun, tenant: string, assistant: string, k: nat, chat: Chat, reply: ModelReply, over: bool)
    returns (run': TierRun)
    requires ChatOk(run, tenant, assistant, k, chat) && k < Limit(run.tier) && !reply.Message?
    requires !over ==> !(reply.StatusError? && chat.tools && reply.code in RETRIED)
    ensures run' == run.(taken := run'.taken, exhausted := over)
    ensures run'.taken == if over then run.taken else run.taken + [reply]
    ensures RunOk(run', false, tenant, assistant)
  {
    if over {
      ChatRunsOut(run, tenant, assistant, k, chat, true);
      run' := run.(exhausted := true);
    } else {
      ChatEnds(run, tenant, assistant, k, chat, reply, false, false);
      run' := run.(taken := run.taken + [reply], exhausted := false);
    }
  }

  /** A refusal turned the tools off. */
  lemma ChatRetries(run: TierRun, tenant: string, assistant: string, k: nat, chat: Chat, reply: ModelReply)
    requires ChatOk(run, tenant, assistant, k, chat) && reply.StatusError? && chat.tools
    ensures ChatOk(run.(taken := run.taken + [reply]), tenant, assistant, k, chat.(tools := false))
  {
    OneMoreReply(run.taken, reply);
    assert (run.taken + [reply])[..|run.taken|] == run.taken;
  }

  lemma ChatNudges(run: TierRun, tenant: string, assistant: string, k: nat, chat: Chat, reply: ModelReply)
    requires ChatOk(run, tenant, assistant, k, chat) && !chat.nudged && !chat.staged
    requires Callless(reply) && reply.claimsStaging
    ensures ChatOk(run.(taken := run.taken + [reply]), tenant, assistant, k + 1, chat.(nudged := true))
  {
    OneMoreReply(run.taken, reply);
    assert (run.taken + [reply])[..|run.taken|] == run.taken;
  }

  lemma ChatRan(run: TierRun, tenant: string, assistant: string, k: nat, chat: Chat, reply: ModelReply, left: Table,
      items: seq<Receipt>, staged: bool)
    requires ChatOk(run, tenant, assistant, k, chat) && reply.Message? && reply.calls != []
    requires Obeyed(CallsOf(run.taken) + reply.calls, run.rows, left, items, RouteOf(run.tier, tenant, assistant))
    requires staged <==> Staged(CallsOf(run.taken) + reply.calls, 0, run.rows, RouteOf(run.tier, tenant, assistant))
    ensures ChatOk(run.(taken := run.taken + [reply], left := left, items := items), tenant, assistant, k + 1,
                   chat.(index := chat.index + |reply.calls|, staged := staged))
  {
    OneMoreReply(run.taken, reply);
    assert (run.taken + [reply])[..|run.taken|] == run.taken;
  }

  // ---- The two rounds of Foundry and Bedrock ----

  /** After `k` rounds of calls everything they asked for is done. */
  ghost predicate RoundsOk(run: TierRun, tenant: string, assistant: string, k: nat) {
    && !run.tier.Chat? && !run.answered && TallyOf(run.taken).messages == k
    && (run.taken != [] ==> !Callless(run.taken[|run.taken| - 1]))
    && Obeyed(CallsOf(run.taken), run.rows, run.left, run.items, RouteOf(run.tier, tenant, assistant))
  }

  lemma RoundsRan(run: TierRun, tenant: string, assistant: string, k: nat, reply: ModelReply, left: Table,
      items: seq<Receipt>)
    requires RoundsOk(run, tenant, assistant, k) && reply.Message? && reply.calls != []
    requires Obeyed(CallsOf(run.taken) + reply.calls, run.rows, left, items, RouteOf(run.tier, tenant, assistant))
    ensures RoundsOk(run.(taken := run.taken + [reply], left := left, items := items), tenant, assistant, k + 1)
  {
    OneMoreReply(run.taken, reply);
  }

  lemma RoundsRunOut(run: TierRun, attachments: bool, tenant: string, assistant: string, k: nat)
    requires RoundsOk(run, tenant, assistant, k) && k <= 2
    ensures RunOk(run.(exhausted := true), attachments, tenant, assistant)
  {
    if run.taken != [] {
      var n := |run.taken| - 1;
      assert run.taken == run.taken[..n] + [run.taken[n]];
      OneMoreReply(run.taken[..n], run.taken[n]);
    }
  }

  lemma RoundsEnd(run: TierRun, attachments: bool, tenant: string, assistant: string, k: nat, last: ModelReply,
      exhausted: bool, answered: bool)
    requires RoundsOk(run, tenant, assistant, k) && k <= 2
    requires if k == 2 then !answered else if last.Message? then answered && last.calls == [] else !answered
    ensures RunOk(run.(taken := run.taken + [last], exhausted := exhausted, answered := answered), attachments, tenant,
                  assistant)
  {
    OneMoreReply(run.taken, last);
    assert (run.taken + [last])[..|run.taken|] == run.taken;
  }

  /** The run ends with `reply`, or with the script. */
  lemma RoundsStop(run: TierRun, attachments: bool, tenant: string, assistant: string, k: nat, reply: ModelReply,
      over: bool, answered: bool) returns (run': TierRun)
    requires RoundsOk(run, tenant, assistant, k) && k <= 2
    requires if over || k == 2 then !answered else if reply.Message? then answered && reply.calls == [] else !answered
    ensures run' == run.(taken := run'.taken, exhausted := over, answered := answered)
    ensures run'.taken == if over then run.taken else run.taken + [reply]
    ensures RunOk(run', attachments, tenant, assistant)
  {
    if over {
      RoundsRunOut(run, attachments, tenant, assistant, k);
      run' := run.(exhausted := true);
    } else {
      RoundsEnd(run, attachments, tenant, assistant, k, reply, false, answered);
      run' := run.(taken := run.taken + [reply], exhausted := false, answered := answered);
    }
  }

  // ---- A whole turn ----

  /** The tiers in the order the service is configured with: the gateway's providers, Fireworks, Foundry,
      Bedrock, the local model. */
  function TiersOf(gateway: nat, fireworks: bool, foundry: bool, hostedRounds: nat): (tiers: seq<Tier>)
    ensures |tiers| == gateway + (if fireworks then 1 else 0) + (if foundry then 1 else 0) + 2
    ensures forall i :: 0 <= i < gateway + (if fireworks then 1 else 0) ==> tiers[i] == Tier.Chat(hostedRounds)
    ensures foundry ==> tiers[|tiers| - 3] == Foundry
    ensures tiers[|tiers| - 2] == Bedrock && tiers[|tiers| - 1] == Tier.Chat(LOCAL_ROUNDS)
  {
    seq(gateway, _ => Tier.Chat(hostedRounds))
    + (if fireworks then [Tier.Chat(hostedRounds)] else [])
    + (if foundry then [Foundry] else [])
    + [Bedrock, Tier.Chat(LOCAL_ROUNDS)]
  }

  predicate Silent(run: TierRun) {
    !run.answered && run.items == []
  }

  /** What the turn ends with when this tier is its last. */
  function ResultOf(run: TierRun): Result {
    if Silent(run) then RaisedError else Returned(run.items)
  }

  /** The replies all the runs took, in order. */
  function TakenBy(runs: seq<TierRun>): seq<ModelReply> {
    if runs == [] then [] else TakenBy(runs[..|runs| - 1]) + runs[|runs| - 1].taken
  }

  /** The runs took the script up to what is left of it; the last one decided the result. */
  ghost predicate LeftOver(runs: seq<TierRun>, before: seq<ModelReply>, script: seq<ModelReply>, result: Result) {
    && before == TakenBy(runs) + script
    && if runs == [] then result == RaisedError
       else (runs[|runs| - 1].exhausted ==> script == []) && result == ResultOf(runs[|runs| - 1])
  }

  lemma LeftOverOn(runs: seq<TierRun>, run: TierRun, before: seq<ModelReply>, rest: seq<ModelReply>,
      script: seq<ModelReply>)
    requires LeftOver(runs, before, rest, RaisedError) && rest == run.taken + script
    requires run.exhausted ==> script == []
    ensures LeftOver(runs + [run], before, script, ResultOf(run))
  {
    assert (runs + [run])[..|runs|] == runs;
  }

  /** The first tiers were tried in order, each as it should, on the ledger the one before it left; none but
      the last of them answered or wrote. */
  ghost predicate Walked(runs: seq<TierRun>, tiers: seq<Tier>, attachments: bool, tenant: string, assistant: string,
                         rows: Table, left: Table)
    decreases |runs|
  {
    if runs == [] then left == rows
    else
      var n := |runs| - 1;
      && n < |tiers| && runs[n].tier == tiers[n] && runs[n].left == left
      && RunOk(runs[n], attachments, tenant, assistant)
      && Walked(runs[..n], tiers, attachments, tenant, assistant, rows, runs[n].rows)
      && (n > 0 ==> Silent(runs[n - 1]))
  }

  lemma WalkedOn(runs: seq<TierRun>, run: TierRun, tiers: seq<Tier>, attachments: bool, tenant: string,
      assistant: string, rows: Table)
    requires Walked(runs, tiers, attachments, tenant, assistant, rows, run.rows)
    requires |runs| < |tiers| && run.tier == tiers[|runs|] && RunOk(run, attachments, tenant, assistant)
    requires runs != [] ==> Silent(runs[|runs| - 1])
    ensures Walked(runs + [run], tiers, attachments, tenant, assistant, rows, run.left)
  {
    var all := runs + [run];
    assert all[..|all| - 1] == runs && all[|all| - 1] == run;
    assert Walked(all[..|all| - 1], tiers, attachments, tenant, assistant, rows, run.rows);
  }
}
