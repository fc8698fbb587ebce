/** The provider ladder of one chat turn (backend/ai_chat_agent.py): the loops of its tiers, and the walk down
    them. */
module Ladder {
  import opened Options
  import opened ToolLedger
  import opened TierRuns

  /** The list a tier appends its receipts to; the caller keeps it for when the tier raises. */
  class ReceiptList {
    var items: seq<Receipt>

    constructor ()
      ensures items == []
    {
      items := [];
    }

    method Append(r: Receipt)
      modifies this
      ensures items == old(items) + [r]
    {
      items := items + [r];
    }
  }

  class Turn {
    const tenant: string
    const assistant: string
    const ledger: Executor
    var script: seq<ModelReply>
    /** Every record change committed in this turn, in order. */
    ghost var changes: seq<Receipt>
    /** How many had been committed when each tier started. */
    ghost var starts: seq<nat>
    /** What each tier did, in order. */
    ghost var runs: seq<TierRun>

    constructor (tenant: string, assistant: string, ledger: Executor, script: seq<ModelReply>)
      requires ledger.Valid() && HonestScript(script) && Clear(ledger.rows, tenant, assistant, 0)
      ensures Valid() && Untouched() && this.ledger == ledger && changes == [] && starts == [] && runs == []
    {
      this.tenant, this.assistant, this.ledger, this.script := tenant, assistant, ledger, script;
      changes, starts, runs := [], [], [];
    }

    ghost predicate Valid()
      reads this, ledger
    {
      ledger.Valid() && HonestScript(script)
    }

    ghost predicate ClearFrom(k: nat)
      reads this, ledger
    {
      Clear(ledger.rows, tenant, assistant, k)
    }

    ghost predicate Untouched()
      reads this, ledger
    {
      ClearFrom(0)
    }

    /** One model call; a script that has run out raises. */
    method NextReply() returns (reply: ModelReply)
      requires HonestScript(script)
      modifies this`script
      ensures HonestScript(script)
      ensures if old(script) == [] then reply == Raises && script == [] else old(script) == [reply] + script
      ensures reply.Message? ==> forall j :: 0 <= j < |reply.calls| ==> Honest(reply.calls[j])
    {
      if script == [] {
        return Raises;
      }
      reply := script[0];
      script := script[1..];
    }

    /** execute_safe_tool: with an index an effectful tool goes through the ledger, and an index that an
        earlier tier has used, for whatever work, changes nothing. */
    method ExecuteSafeTool(call: ToolCall, index: Option<nat>) returns (receipt: Receipt)
      requires Valid() && Honest(call) && (index.Some? ==> ClearFrom(index.value))
      modifies this`changes, ledger
      ensures Valid() && (index.Some? ==> ClearFrom(index.value + 1))
      ensures IsRecordChange(call, receipt) <==>
                call.offered && call.handler.Applied?
                && (index.Some? ==> Key(tenant, assistant, index.value) !in old(ledger.rows))
      ensures IsRecordChange(call, receipt) ==> receipt == call.handler.receipt
      ensures var route := Route(tenant, assistant, index.Some?, true);
              receipt == AnswerOf(call, KeyAt(route, if index.Some? then index.value else 0), old(ledger.rows), route)
      ensures index.None? || call.readOnly || !call.offered ==> ledger.rows == old(ledger.rows)
      ensures index.Some? ==>
                var route := Route(tenant, assistant, true, true);
                && LeavesRow(call, KeyAt(route, index.value), old(ledger.rows), ledger.rows, route)
                && Extends(old(ledger.rows), ledger.rows, route, index.value, index.value + 1)
      ensures changes == old(changes) + if IsRecordChange(call, receipt) then [receipt] else []
      ensures changes == old(changes) && old(Untouched()) ==> Untouched()
      ensures index.Some? && Key(tenant, assistant, index.value) in old(ledger.rows) ==> changes == old(changes)
      ensures index.Some? && !call.readOnly ==>
                (changes != old(changes) <==> |ledger.log| > |old(ledger.log)| && ledger.log[|ledger.log| - 1].mutated)
    {
      if !call.offered {
        return Receipt(false, None, None);
      }
      if index.None? || call.readOnly {
        if call.handler.Applied? {
          changes := changes + [call.handler.receipt];
        }
        return if call.handler.Raised? then Receipt(false, None, None) else call.handler.receipt;
      }
      var key := Key(tenant, assistant, index.value);
      LedgeredCall(ledger.rows, key, call);
      var reply := ledger.Execute(key, call.work, call.handler, call.attached);
      if reply.Fresh? && call.handler.Applied? {
        changes := changes + [call.handler.receipt];
      }
      receipt := ReceiptOf(reply);
    }

    /** One call of a round. */
    method RunCall(call: ToolCall, index: nat, ledgered: bool, lenient: bool, applied: ReceiptList)
      returns (receipt: Receipt)
      requires Valid() && Honest(call) && (ledgered ==> ClearFrom(index))
      modifies this`changes, ledger, applied
      ensures Valid() && (ledgered ==> ClearFrom(index + 1))
      ensures var route := Route(tenant, assistant, ledgered, lenient);
              var more := if Changes(call, KeyAt(route, index), old(ledger.rows), route)
                          then [call.handler.receipt] else [];
              && changes == old(changes) + more && applied.items == old(applied.items) + more
              && LeavesRow(call, KeyAt(route, index), old(ledger.rows), ledger.rows, route)
              && Extends(old(ledger.rows), ledger.rows, route, index, index + 1)
              && receipt == AnswerOf(call, KeyAt(route, index), old(ledger.rows), route)
      ensures changes == old(changes) && old(Untouched()) ==> Untouched()
    {
      receipt := Receipt(false, None, None);
      if call.wellFormed || lenient {
        receipt := ExecuteSafeTool(call, if ledgered then Some(index) else None);
        if IsRecordChange(call, receipt) {
          applied.Append(receipt);
        }
      }
    }

    /** The calls of one round, in order: each call has the next index, and every one that may run does. */
    method RunCalls(calls: seq<ToolCall>, start: nat, ledgered: bool, lenient: bool, applied: ReceiptList)
      returns (index: nat, staged: bool)
      requires Valid() && (ledgered ==> ClearFrom(start)) && forall j :: 0 <= j < |calls| ==> Honest(calls[j])
      modifies this`changes, ledger, applied
      ensures Valid() && (ledgered ==> ClearFrom(index)) && index == start + |calls|
      ensures var more := Asked(calls, start, old(ledger.rows), Route(tenant, assistant, ledgered, lenient));
              changes == old(changes) + more && applied.items == old(applied.items) + more
      ensures var route := Route(tenant, assistant, ledgered, lenient);
              && Recorded(calls, start, old(ledger.rows), ledger.rows, route)
              && Extends(old(ledger.rows), ledger.rows, route, start, index)
              && (staged <==> Staged(calls, start, old(ledger.rows), route))
      ensures changes == old(changes) && old(Untouched()) ==> Untouched()
    {
      index, staged := start, false;
      ghost var route := Route(tenant, assistant, ledgered, lenient);
      ghost var rows, more := ledger.rows, [];
      for j := 0 to |calls|
        invariant Valid() && (ledgered ==> ClearFrom(index)) && index == start + j
        invariant more == Asked(calls[..j], start, rows, route)
        invariant changes == old(changes) + more && applied.items == old(applied.items) + more
        invariant Recorded(calls[..j], start, rows, ledger.rows, route)
        invariant Extends(rows, ledger.rows, route, start, index)
        invariant staged <==> Staged(calls[..j], start, rows, route)
        invariant changes == old(changes) && old(Untouched()) ==> Untouched()
      {
        ghost var mid := ledger.rows;
        var receipt := RunCall(calls[j], index, ledgered, lenient, applied);
        OneMoreCall(calls, j, start, rows, mid, ledger.rows, route);
        more := Asked(calls[..j + 1], start, rows, route);
        if receipt.ok && receipt.command.Some? {
          staged := true;
        }
        index := index + 1;
      }
      assert calls[..|calls|] == calls;
    }

    /** One round of a tier, after the calls `asked`. */
    method RunRound(calls: seq<ToolCall>, ghost asked: seq<ToolCall>, ghost rows: Table, ghost was: seq<Receipt>,
        index: nat, ledgered: bool, lenient: bool, applied: ReceiptList)
      returns (next: nat, staged: bool)
      requires Valid() && (ledgered ==> ClearFrom(index)) && forall j :: 0 <= j < |calls| ==> Honest(calls[j])
      requires index == |asked| && changes == was + applied.items && (applied.items == [] ==> Untouched())
      requires Obeyed(asked, rows, ledger.rows, applied.items, Route(tenant, assistant, ledgered, lenient))
      modifies this`changes, ledger, applied
      ensures Valid() && (ledgered ==> ClearFrom(next)) && next == |asked + calls|
      ensures Obeyed(asked + calls, rows, ledger.rows, applied.items, Route(tenant, assistant, ledgered, lenient))
      ensures changes == was + applied.items && (applied.items == [] ==> Untouched())
      ensures var route := Route(tenant, assistant, ledgered, lenient);
              Staged(asked + calls, 0, rows, route) <==> Staged(asked, 0, rows, route) || staged
    {
      ghost var mid, items := ledger.rows, applied.items;
      next, staged := RunCalls(calls, index, ledgered, lenient, applied);
      ObeyedMore(asked, calls, rows, mid, ledger.rows, items, Route(tenant, assistant, ledgered, lenient));
    }

    /** One model call of the chat loop: a server that refuses the tools is asked again without them. `taken`
        has everything but the reply, unless the script is at its end. */
    method NextChatReply(chat: Chat, ghost run: TierRun, ghost k: nat, ghost before: seq<ModelReply>)
      returns (reply: ModelReply, next: Chat, ghost taken: TierRun, ghost ended: bool)
      requires HonestScript(script) && before == run.taken + script && ChatOk(run, tenant, assistant, k, chat)
      modifies this`script
      ensures HonestScript(script)
      ensures reply.Message? ==> forall j :: 0 <= j < |reply.calls| ==> Honest(reply.calls[j])
      ensures ChatOk(taken, tenant, assistant, k, next) && next == chat.(tools := next.tools)
      ensures taken == run.(taken := taken.taken)
      ensures if ended then reply == Raises && script == [] && before == taken.taken
              else before == (taken.taken + [reply]) + script
                   && !(reply.StatusError? && next.tools && reply.code in RETRIED)
    {
      ended := script == [];
      reply := NextReply();
      next, taken := chat, run;
      if reply.StatusError? && chat.tools && reply.code in RETRIED {
        ChatRetries(run, tenant, assistant, k, chat, reply);
        next, taken := chat.(tools := false), run.(taken := run.taken + [reply]);
        ended := script == [];
        reply := NextReply();
      }
    }

    /** One round of the chat loop; it may be the last. */
    method ChatRound(chat: Chat, applied: ReceiptList, ghost run: TierRun, ghost k: nat, ghost before: seq<ModelReply>,
        ghost was: seq<Receipt>)
      returns (next: Chat, ended: bool, answered: bool, ghost run': TierRun)
      requires Valid() && ClearFrom(chat.index) && k < Limit(run.tier)
      requires changes == was + applied.items && (applied.items == [] ==> Untouched())
      requires before == run.taken + script && run.left == ledger.rows && run.items == applied.items
      requires ChatOk(run, tenant, assistant, k, chat)
      modifies this`script, this`changes, ledger, applied
      ensures Valid() && changes == was + applied.items && (applied.items == [] ==> Untouched())
      ensures run'.tier == run.tier && run'.rows == run.rows && run'.left == ledger.rows && run'.items == applied.items
      ensures before == run'.taken + script && run'.answered == answered && (run'.exhausted ==> script == [])
      ensures if ended then RunOk(run', false, tenant, assistant)
              else ClearFrom(next.index) && ChatOk(run', tenant, assistant, k + 1, next)
    {
      var reply;
      ghost var over;
      reply, next, run', over := NextChatReply(chat, run, k, before);
      ended, answered := true, false;
      if !reply.Message? {
        run' := ChatFails(run', tenant, assistant, k, next, reply, over);
        return;
      }
      if reply.calls == [] {
        if next.tools && !next.staged && !next.nudged && reply.claimsStaging {
          ChatNudges(run', tenant, assistant, k, next, reply);
          next, ended := next.(nudged := true), false;
          run' := run'.(taken := run'.taken + [reply]);
        } else {
          ChatEnds(run', tenant, assistant, k, next, reply, false, true);
          answered := true;
          run' := run'.(taken := run'.taken + [reply], exhausted := false, answered := true);
        }
        return;
      }
      next, run' := RunAsked(reply, next, applied, run', k, was);
      ended := false;
    }

    /** The calls of a chat reply. */
    method RunAsked(reply: ModelReply, chat: Chat, applied: ReceiptList, ghost run: TierRun, ghost k: nat,
        ghost was: seq<Receipt>)
      returns (next: Chat, ghost run': TierRun)
      requires reply.Message? && reply.calls != [] && forall j :: 0 <= j < |reply.calls| ==> Honest(reply.calls[j])
      requires Valid() && ClearFrom(chat.index)
      requires changes == was + applied.items && (applied.items == [] ==> Untouched())
      requires run.left == ledger.rows && run.items == applied.items && ChatOk(run, tenant, assistant, k, chat)
      modifies this`changes, ledger, applied
      ensures Valid() && ClearFrom(next.index)
      ensures changes == was + applied.items && (applied.items == [] ==> Untouched())
      ensures run' == run.(taken := run.taken + [reply], left := ledger.rows, items := applied.items)
      ensures ChatOk(run', tenant, assistant, k + 1, next)
    {
      var index, staged := RunRound(reply.calls, CallsOf(run.taken), run.rows, was, chat.index, true, false, applied);
      staged := chat.staged || staged;
      ChatRan(run, tenant, assistant, k, chat, reply, ledger.rows, applied.items, staged);
      next := chat.(index := index, staged := staged);
      run' := run.(taken := run.taken + [reply], left := ledger.rows, items := applied.items);
    }

    /** `_local_fallback`: gateway providers, Fireworks and the local model share it. True when it
        answered, false when it raised; either way `applied` has the receipts. */
    method LocalFallback(attachments: bool, maxRounds: nat, applied: ReceiptList)
        returns (answered: bool, ghost run: TierRun)
      requires Valid() && Untouched() && applied.items == []
      modifies this`script, this`changes, ledger, applied
      ensures Valid() && changes == old(changes) + applied.items && (applied.items == [] ==> Untouched())
      ensures run == TierRun(Tier.Chat(maxRounds), run.taken, run.exhausted, old(ledger.rows), ledger.rows,
                             applied.items, answered)
      ensures old(script) == run.taken + script && (run.exhausted ==> script == [])
      ensures RunOk(run, attachments, tenant, assistant)
    {
      var chat := Chatting(0, true, false, false);
      run := TierRun(Tier.Chat(maxRounds), [], false, ledger.rows, ledger.rows, [], false);
      ChatStart(maxRounds, ledger.rows, tenant, assistant);
      if attachments {
        return false, run;
      }
      var limit := if maxRounds == 0 then LOCAL_ROUNDS else maxRounds;
      var round, ended := 0, false;
      while round < limit
        invariant Valid() && ClearFrom(chat.index) && round <= limit == Limit(run.tier)
        invariant changes == old(changes) + applied.items && (applied.items == [] ==> Untouched())
        invariant run.tier == Tier.Chat(maxRounds) && run.rows == old(ledger.rows) && run.left == ledger.rows
        invariant run.items == applied.items && old(script) == run.taken + script
        invariant ChatOk(run, tenant, assistant, round, chat)
      {
        chat, ended, answered, run := ChatRound(chat, applied, run, round, old(script), old(changes));
        if ended {
          return;
        }
        round := round + 1;
      }
      answered, run := LastWord(chat, run, limit, old(script));
    }

    /** The rounds are spent: ask once more, offering no tools; without tools there is nothing more to ask. */
    method LastWord(chat: Chat, ghost run: TierRun, limit: nat, ghost before: seq<ModelReply>)
      returns (answered: bool, ghost run': TierRun)
      requires HonestScript(script) && before == run.taken + script && limit == Limit(run.tier)
      requires ChatOk(run, tenant, assistant, limit, chat)
      modifies this`script
      ensures HonestScript(script) && before == run'.taken + script && (run'.exhausted ==> script == [])
      ensures run' == run.(taken := run'.taken, exhausted := run'.exhausted, answered := answered)
      ensures RunOk(run', false, tenant, assistant)
    {
      answered := false;
      if chat.tools && script != [] {
        var last := NextReply();
        answered := last.Message? && last.calls == [] && !last.empty;
        ChatEnds(run, tenant, assistant, limit, chat, last, false, answered);
        run' := run.(taken := run.taken + [last], exhausted := false, answered := answered);
      } else {
        ChatRunsOut(run, tenant, assistant, limit, chat, script == []);
        run' := run.(exhausted := script == []);
      }
    }

    /** The calls of a Foundry or Bedrock reply. */
    method RunGiven(reply: ModelReply, applied: ReceiptList, ghost run: TierRun, index: nat, ghost k: nat,
        ghost was: seq<Receipt>, ledgered: bool)
      returns (next: nat, ghost run': TierRun)
      requires reply.Message? && reply.calls != [] && forall j :: 0 <= j < |reply.calls| ==> Honest(reply.calls[j])
      requires Valid() && ledgered == run.tier.Foundry? && (ledgered ==> ClearFrom(index))
      requires index == |CallsOf(run.taken)| && changes == was + applied.items && (applied.items == [] ==> Untouched())
      requires run.left == ledger.rows && run.items == applied.items && RoundsOk(run, tenant, assistant, k)
      modifies this`changes, ledger, applied
      ensures Valid() && (ledgered ==> ClearFrom(next)) && next == |CallsOf(run'.taken)|
      ensures changes == was + applied.items && (applied.items == [] ==> Untouched())
      ensures run' == run.(taken := run.taken + [reply], left := ledger.rows, items := applied.items)
      ensures RoundsOk(run', tenant, assistant, k + 1)
    {
      var staged;
      next, staged := RunRound(reply.calls, CallsOf(run.taken), run.rows, was, index, ledgered, true, applied);
      RoundsRan(run, tenant, assistant, k, reply, ledger.rows, applied.items);
      OneMoreReply(run.taken, reply);
      run' := run.(taken := run.taken + [reply], left := ledger.rows, items := applied.items);
    }

    /** `_foundry_generate`, and the Bedrock rounds, whose calls have no index: two rounds of calls at most. */
    method TwoRounds(tier: Tier, applied: ReceiptList, ghost attachments: bool)
        returns (answered: bool, ghost run: TierRun)
      requires Valid() && Untouched() && applied.items == [] && !tier.Chat?
      modifies this`script, this`changes, ledger, applied
      ensures Valid() && changes == old(changes) + applied.items && (applied.items == [] ==> Untouched())
      ensures run == TierRun(tier, run.taken, run.exhausted, old(ledger.rows), ledger.rows, applied.items, answered)
      ensures old(script) == run.taken + script && (run.exhausted ==> script == [])
      ensures RunOk(run, attachments, tenant, assistant)
    {
      var index := 0;
      run := TierRun(tier, [], false, ledger.rows, ledger.rows, [], false);
      ghost var over := script == [];
      var reply := NextReply();
      for round := 0 to 2
        invariant Valid() && (tier.Foundry? ==> ClearFrom(index)) && index == |CallsOf(run.taken)|
        invariant reply.Message? ==> forall j :: 0 <= j < |reply.calls| ==> Honest(reply.calls[j])
        invariant changes == old(changes) + applied.items && (applied.items == [] ==> Untouched())
        invariant run.tier == tier && run.rows == old(ledger.rows) && run.left == ledger.rows
        invariant run.items == applied.items && RoundsOk(run, tenant, assistant, round)
        invariant if over then reply == Raises && script == [] && old(script) == run.taken
                  else old(script) == (run.taken + [reply]) + script
      {
        if !reply.Message? || reply.calls == [] {
          answered := reply.Message?;
          run := RoundsStop(run, attachments, tenant, assistant, round, reply, over, answered);
          return;
        }
        index, run := RunGiven(reply, applied, run, index, round, old(changes), tier.Foundry?);
        over := script == [];
        reply := NextReply();
      }
      answered := false;
      run := RoundsStop(run, attachments, tenant, assistant, 2, reply, over, false);
    }

    /** One tier: a fresh list for its receipts, and the turn ends here if it answered or wrote anything. */
    method Try(tier: Tier, attachments: bool) returns (done: Option<seq<Receipt>>, ghost run: TierRun)
      requires Valid() && Untouched() && changes == []
      modifies this, ledger
      ensures Valid() && starts == old(starts) + [0] && runs == old(runs) + [run]
      ensures run == TierRun(tier, run.taken, run.exhausted, old(ledger.rows), ledger.rows, run.items, run.answered)
      ensures old(script) == run.taken + script && (run.exhausted ==> script == [])
      ensures RunOk(run, attachments, tenant, assistant)
      ensures done == if Silent(run) then None else Some(run.items)
      ensures if done.Some? then done.value == changes else changes == [] && Untouched()
    {
      var applied := new ReceiptList();
      starts := starts + [|changes|];
      var answered: bool;
      match tier {
        case Chat(rounds) => answered, run := LocalFallback(attachments, rounds, applied);
        case _ => answered, run := TwoRounds(tier, applied, attachments);
      }
      runs := runs + [run];
      done := if answered || applied.items != [] then Some(applied.items) else None;
    }

    /** What the turn has committed is what it returns. */
    ghost predicate Balanced(result: Result)
      reads this, ledger
    {
      match result
      case Returned(actions) => actions == changes
      case RaisedError => changes == [] && Untouched()
    }

    /** The next tier of the walk. */
    method TryNext(tiers: seq<Tier>, t: nat, attachments: bool, ghost before: seq<ModelReply>, ghost rows: Table)
      returns (result: Result)
      requires Valid() && Balanced(RaisedError) && |runs| == t < |tiers|
      requires Walked(runs, tiers, attachments, tenant, assistant, rows, ledger.rows)
      requires LeftOver(runs, before, script, RaisedError)
      modifies this, ledger
      ensures Valid() && Balanced(result) && |runs| == t + 1 && starts == old(starts) + [0]
      ensures Walked(runs, tiers, attachments, tenant, assistant, rows, ledger.rows)
      ensures LeftOver(runs, before, script, result)
    {
      ghost var was, rest := runs, script;
      ghost var run;
      var done;
      done, run := Try(tiers[t], attachments);
      WalkedOn(was, run, tiers, attachments, tenant, assistant, rows);
      LeftOverOn(was, run, before, rest, script);
      result := if done.Some? then Returned(done.value) else RaisedError;
    }

    /** `_generate`: the tiers in order. What it returns is exactly what the turn committed, nothing was
        committed when it raises, and no tier ever started after a commit. Each tier did what its replies
        asked for; the one whose receipts are returned answered or wrote, the ones before did neither; and
        it raises only when every configured tier was tried. */
    method Generate(gateway: nat, fireworks: bool, foundry: bool, attachments: bool, hostedRounds: nat)
        returns (result: Result)
      requires Valid() && Untouched() && changes == [] && starts == [] && runs == []
      modifies this, ledger
      ensures Valid()
      ensures match result { case Returned(actions) => actions == changes case RaisedError => changes == [] }
      ensures 0 < |starts| == |runs| && forall i :: 0 <= i < |starts| ==> starts[i] == 0
      ensures Walked(runs, TiersOf(gateway, fireworks, foundry, hostedRounds), attachments, tenant, assistant,
                     old(ledger.rows), ledger.rows)
      ensures LeftOver(runs, old(script), script, result)
      ensures result == RaisedError ==>
                |starts| == gateway + (if fireworks then 1 else 0) + (if foundry then 1 else 0) + 2
    {
      var tiers := TiersOf(gateway, fireworks, foundry, hostedRounds);
      ghost var before, rows := script, ledger.rows;
      result := RaisedError;
      var t := 0;
      while t < |tiers| && result == RaisedError
        invariant Valid() && Balanced(result) && t == |starts| == |runs| <= |tiers|
        invariant forall i :: 0 <= i < t ==> starts[i] == 0
        invariant Walked(runs, tiers, attachments, tenant, assistant, rows, ledger.rows)
        invariant LeftOver(runs, before, script, result)
        decreases |tiers| - t
      {
        result := TryNext(tiers, t, attachments, before, rows);
        t := t + 1;
      }
    }
  }
}
