/** Admission of chat turns (create_chat_request in backend/ai_chat_store.py, database path): one agent's
    requests are serialized by an advisory lock; their timestamps need not come in order. */
module Admission {
  import opened Options

  datatype Status = Pending | Streaming | Completed | Failed

  /** The tenant and the agent in it. */
  datatype Agent = Agent(tenant: string, user: string)

  /** One accepted request: its user message and its assistant message share the timestamp. */
  datatype Turn = Turn(agent: Agent, request: string, createdAt: int, status: Status)

  predicate IsActive(t: Turn) {
    t.status.Pending? || t.status.Streaming?
  }

  /** The message limit's window, in microseconds. */
  const MINUTE := 60_000_000

  function Active(turns: seq<Turn>, agent: Agent): (n: nat)
    ensures n <= |turns|
  {
    if turns == [] then 0
    else Active(turns[..|turns| - 1], agent)
         + if turns[|turns| - 1].agent == agent && IsActive(turns[|turns| - 1]) then 1 else 0
  }

  /** The agent's messages created after `since`. */
  function Recent(turns: seq<Turn>, agent: Agent, since: int): (n: nat)
    ensures n <= |turns|
  {
    if turns == [] then 0
    else Recent(turns[..|turns| - 1], agent, since)
         + if turns[|turns| - 1].agent == agent && turns[|turns| - 1].createdAt > since then 1 else 0
  }

  /** The agent's messages in the window (upTo - MINUTE, upTo]. */
  function InWindow(turns: seq<Turn>, agent: Agent, upTo: int): (n: nat)
    ensures n <= |turns|
  {
    if turns == [] then 0
    else InWindow(turns[..|turns| - 1], agent, upTo)
         + if turns[|turns| - 1].agent == agent && upTo - MINUTE < turns[|turns| - 1].createdAt <= upTo then 1 else 0
  }

  // ---- The same as sets of turns ----

  /** The agent's turns in progress. */
  ghost function InProgress(turns: seq<Turn>, agent: Agent): set<nat> {
    set i | 0 <= i < |turns| && turns[i].agent == agent && turns[i].status in {Pending, Streaming}
  }

  /** The agent's messages of the minute before `now`. */
  ghost function LastMinute(turns: seq<Turn>, agent: Agent, now: int): set<nat> {
    set i | 0 <= i < |turns| && turns[i].agent == agent && turns[i].createdAt > now - 60_000_000
  }

  lemma {:induction false} ActiveCounts(turns: seq<Turn>, agent: Agent)
    ensures Active(turns, agent) == |InProgress(turns, agent)|
  {
    if turns != [] {
      var n := |turns| - 1;
      ActiveCounts(turns[..n], agent);
      assert InProgress(turns, agent)
             == InProgress(turns[..n], agent)
                + if turns[n].agent == agent && IsActive(turns[n]) then {n} else {};
    }
  }

  lemma {:induction false} RecentCounts(turns: seq<Turn>, agent: Agent, now: int)
    ensures Recent(turns, agent, now - MINUTE) == |LastMinute(turns, agent, now)|
  {
    if turns != [] {
      var n := |turns| - 1;
      RecentCounts(turns[..n], agent, now);
      assert LastMinute(turns, agent, now)
             == LastMinute(turns[..n], agent, now)
                + if turns[n].agent == agent && turns[n].createdAt > now - MINUTE then {n} else {};
    }
  }

  ghost predicate IsTurnOf(turns: seq<Turn>, i: nat, agent: Agent, request: string) {
    i < |turns| && turns[i].agent == agent && turns[i].request == request
  }

  datatype Verdict = Duplicate(turn: nat) | Busy | TooMany | Unavailable | Accepted(turn: nat)

  /** What admission answers: a repeat first, then the two limits, then the record and attachments. */
  ghost predicate Admits(turns: seq<Turn>, agent: Agent, request: string, now: int, available: bool, v: Verdict) {
    if v.Duplicate? then IsTurnOf(turns, v.turn, agent, request)
    else
      && (forall i :: !IsTurnOf(turns, i, agent, request))
      && (v == Busy <==> Active(turns, agent) >= 2)
      && (v == TooMany <==> Active(turns, agent) < 2 && Recent(turns, agent, now - MINUTE) >= 20)
      && (v == Unavailable <==> Active(turns, agent) < 2 && Recent(turns, agent, now - MINUTE) < 20 && !available)
      && (v.Accepted? ==> v.turn == |turns|)
  }

  datatype Action =
    | Request(agent: Agent, request: string, now: int, available: bool, verdict: Verdict)
    | UpdateAssistant(agent: Agent, turn: nat, status: Status)
    | TimeOut(turn: nat)

  function Set(turns: seq<Turn>, i: nat, status: Status): seq<Turn>
    requires i < |turns|
  {
    turns[i := turns[i].(status := status)]
  }

  ghost predicate Step(turns: seq<Turn>, a: Action, turns': seq<Turn>) {
    match a
    case Request(agent, request, now, available, v) =>
      && Admits(turns, agent, request, now, available, v)
      && turns' == if v.Accepted? then turns + [Turn(agent, request, now, Pending)] else turns
    case UpdateAssistant(agent, i, status) =>
      turns' == if i < |turns| && turns[i].agent == agent then Set(turns, i, status) else turns
    case TimeOut(i) => i < |turns| && IsActive(turns[i]) && turns' == Set(turns, i, Failed)
  }

  ghost predicate IsRun(states: seq<seq<Turn>>, acts: seq<Action>) {
    |states| == |acts| + 1 && states[0] == []
    && forall k {:trigger acts[k]} :: 0 <= k < |acts| ==> Step(states[k], acts[k], states[k + 1])
  }

  /** update_assistant does not look at the status it overwrites: it can bring a settled turn back. */
  predicate Revives(turns: seq<Turn>, a: Action) {
    a.UpdateAssistant? && a.turn < |turns| && turns[a.turn].agent == a.agent && !IsActive(turns[a.turn])
    && (a.status.Pending? || a.status.Streaming?)
  }

  /** A settled turn of the agent is brought back while two are active. */
  predicate MakesThird(turns: seq<Turn>, a: Action, agent: Agent) {
    Revives(turns, a) && a.agent == agent && Active(turns, agent) == 2
  }

  // ---- Counting ----

  /** A window that holds the new message is no larger than what the limit counted. */
  lemma {:induction false} WindowWithinRecent(turns: seq<Turn>, agent: Agent, now: int, upTo: int)
    requires now <= upTo
    ensures InWindow(turns, agent, upTo) <= Recent(turns, agent, now - MINUTE)
  {
    if turns != [] {
      WindowWithinRecent(turns[..|turns| - 1], agent, now, upTo);
    }
  }

  lemma {:induction false} StatusLeavesWindows(turns: seq<Turn>, i: nat, status: Status, agent: Agent, upTo: int)
    requires i < |turns|
    ensures InWindow(Set(turns, i, status), agent, upTo) == InWindow(turns, agent, upTo)
  {
    var n := |turns| - 1;
    if i < n {
      assert Set(turns, i, status)[..n] == Set(turns[..n], i, status);
      StatusLeavesWindows(turns[..n], i, status, agent, upTo);
    } else {
      assert Set(turns, i, status)[..n] == turns[..n];
    }
  }

  lemma {:induction false} StatusMovesActive(turns: seq<Turn>, i: nat, status: Status, agent: Agent)
    requires i < |turns|
    ensures var mine := turns[i].agent == agent;
            Active(Set(turns, i, status), agent)
            == Active(turns, agent) - (if mine && IsActive(turns[i]) then 1 else 0)
               + (if mine && (status.Pending? || status.Streaming?) then 1 else 0)
  {
    var n := |turns| - 1;
    if i < n {
      assert Set(turns, i, status)[..n] == Set(turns[..n], i, status);
      StatusMovesActive(turns[..n], i, status, agent);
    } else {
      assert Set(turns, i, status)[..n] == turns[..n];
    }
  }

  lemma AppendCounts(turns: seq<Turn>, t: Turn, agent: Agent, upTo: int)
    ensures InWindow(turns + [t], agent, upTo)
            == InWindow(turns, agent, upTo) + if t.agent == agent && upTo - MINUTE < t.createdAt <= upTo then 1 else 0
    ensures Active(turns + [t], agent) == Active(turns, agent) + if t.agent == agent && IsActive(t) then 1 else 0
  {
    assert (turns + [t])[..|turns|] == turns;
  }

  // ---- Every window, and the third turn ----

  lemma WindowStep(turns: seq<Turn>, a: Action, turns': seq<Turn>, agent: Agent, upTo: int)
    requires Step(turns, a, turns') && InWindow(turns, agent, upTo) <= 20
    ensures InWindow(turns', agent, upTo) <= 20
  {
    match a
    case Request(who, request, now, _, v) =>
      if v.Accepted? {
        AppendCounts(turns, Turn(who, request, now, Pending), agent, upTo);
        if now <= upTo {
          WindowWithinRecent(turns, agent, now, upTo);
        }
      }
    case UpdateAssistant(_, i, status) =>
      if i < |turns| {
        StatusLeavesWindows(turns, i, status, agent, upTo);
      }
    case TimeOut(i) => StatusLeavesWindows(turns, i, Failed, agent, upTo);
  }

  /** Whatever order the timestamps come in, every window of a minute holds at most twenty messages of an
      agent. */
  lemma {:induction false} EveryWindow(states: seq<seq<Turn>>, acts: seq<Action>, n: nat, agent: Agent, upTo: int)
    requires IsRun(states, acts) && n < |states|
    ensures InWindow(states[n], agent, upTo) <= 20
    decreases n
  {
    if n > 0 {
      EveryWindow(states, acts, n - 1, agent, upTo);
      WindowStep(states[n - 1], acts[n - 1], states[n], agent, upTo);
    }
  }

  /** Admission never makes a third active turn, whatever the table holds. */
  lemma NoThirdTurn(turns: seq<Turn>, a: Action, turns': seq<Turn>, agent: Agent)
    requires Step(turns, a, turns') && a.Request?
    ensures Active(turns', agent) <= if Active(turns, agent) < 2 then 2 else Active(turns, agent)
  {
    if a.verdict.Accepted? {
      AppendCounts(turns, Turn(a.agent, a.request, a.now, Pending), agent, 0);
    }
  }

  /** Which steps can take a count of at most two above two: only a revival with two already active. */
  lemma ThirdTurnExactly(turns: seq<Turn>, a: Action, turns': seq<Turn>, agent: Agent)
    requires Step(turns, a, turns') && Active(turns, agent) <= 2
    ensures Active(turns', agent) > 2 <==> MakesThird(turns, a, agent)
  {
    match a
    case Request(_, _, _, _, _) => NoThirdTurn(turns, a, turns', agent);
    case UpdateAssistant(_, i, status) =>
      if i < |turns| {
        StatusMovesActive(turns, i, status, agent);
      }
    case TimeOut(i) => StatusMovesActive(turns, i, Failed, agent);
  }

  lemma {:induction false} TwoUntil(states: seq<seq<Turn>>, acts: seq<Action>, n: nat, agent: Agent)
    requires IsRun(states, acts) && n < |states|
    requires forall k {:trigger acts[k]} :: 0 <= k < n ==> !MakesThird(states[k], acts[k], agent)
    ensures Active(states[n], agent) <= 2
    decreases n
  {
    if n > 0 {
      TwoUntil(states, acts, n - 1, agent);
      ThirdTurnExactly(states[n - 1], acts[n - 1], states[n], agent);
    }
  }

  lemma {:induction false} FirstThird(states: seq<seq<Turn>>, acts: seq<Action>, n: nat, agent: Agent) returns (k: nat)
    requires IsRun(states, acts) && n < |acts| && MakesThird(states[n], acts[n], agent)
    ensures k <= n && MakesThird(states[k], acts[k], agent)
    ensures forall j {:trigger acts[j]} :: 0 <= j < k ==> !MakesThird(states[j], acts[j], agent)
    decreases n
  {
    k := n;
    if j: nat :| j < n && MakesThird(states[j], acts[j], agent) {
      k := FirstThird(states, acts, j, agent);
    }
  }

  /** Over every run an agent has at most two turns in progress in every state if and only if no step
      revives a settled turn of the agent with two active. */
  lemma AtMostTwo(states: seq<seq<Turn>>, acts: seq<Action>, agent: Agent)
    requires IsRun(states, acts)
    ensures (forall n :: 0 <= n < |states| ==> Active(states[n], agent) <= 2)
            <==> forall k {:trigger acts[k]} :: 0 <= k < |acts| ==> !MakesThird(states[k], acts[k], agent)
  {
    if n: nat :| n < |acts| && MakesThird(states[n], acts[n], agent) {
      var k := FirstThird(states, acts, n, agent);
      TwoUntil(states, acts, k, agent);
      ThirdTurnExactly(states[k], acts[k], states[k + 1], agent);
    } else {
      forall n | 0 <= n < |states| ensures Active(states[n], agent) <= 2 {
        TwoUntil(states, acts, n, agent);
      }
    }
  }

  /** A slow turn that the sweep timed out starts streaming after two more were admitted: three. */
  lemma ThreeAtOnce(agent: Agent, now: int) returns (states: seq<seq<Turn>>, acts: seq<Action>)
    ensures IsRun(states, acts) && Active(states[|acts|], agent) == 3
  {
    var a, b, c := Turn(agent, "a", now, Pending), Turn(agent, "b", now, Pending), Turn(agent, "c", now, Pending);
    var late := a.(status := Failed);
    states := [[], [a], [late], [late, b], [late, b, c], [a.(status := Streaming), b, c]];
    acts := [Request(agent, "a", now, true, Accepted(0)), TimeOut(0), Request(agent, "b", now, true, Accepted(1)),
             Request(agent, "c", now, true, Accepted(2)), UpdateAssistant(agent, 0, Streaming)];
    Three(agent, a, late, b, c);
  }

  lemma Three(agent: Agent, a: Turn, late: Turn, b: Turn, c: Turn)
    requires a.agent == agent && b.agent == agent && c.agent == agent && late == a.(status := Failed)
    requires IsActive(b) && IsActive(c)
    ensures Active([late], agent) == 0 && Active([late, b], agent) == 1
    ensures forall since :: Recent([late], agent, since) <= 1 && Recent([late, b], agent, since) <= 2
    ensures Active([a.(status := Streaming), b, c], agent) == 3
  {
    var x := a.(status := Streaming);
    assert [x, b, c][..2] == [x, b] && [x, b][..1] == [x];
    assert Active([x], agent) == 1 && Active([x, b], agent) == 2;
    assert [late, b][..1] == [late];
  }

  // ---- Repeats ----

  ghost predicate OnePerRequest(turns: seq<Turn>) {
    forall i, j :: 0 <= i < j < |turns| ==> turns[i].agent != turns[j].agent || turns[i].request != turns[j].request
  }

  lemma {:induction false} RequestsAreDistinct(states: seq<seq<Turn>>, acts: seq<Action>, n: nat)
    requires IsRun(states, acts) && n < |states|
    ensures OnePerRequest(states[n])
    decreases n
  {
    if n > 0 {
      RequestsAreDistinct(states, acts, n - 1);
      var was, a, now := states[n - 1], acts[n - 1], states[n];
      assert Step(was, a, now);
      forall i, j | 0 <= i < j < |now| ensures now[i].agent != now[j].agent || now[i].request != now[j].request {
        assert a.Request? && a.verdict.Accepted? ==> !IsTurnOf(was, i, a.agent, a.request);
      }
    }
  }

  lemma {:induction false} TurnsStay(states: seq<seq<Turn>>, acts: seq<Action>, m: nat, n: nat, i: nat)
    requires IsRun(states, acts) && m <= n < |states| && i < |states[m]|
    ensures i < |states[n]| && states[n][i] == states[m][i].(status := states[n][i].status)
    decreases n
  {
    if m < n {
      TurnsStay(states, acts, m, n - 1, i);
      assert Step(states[n - 1], acts[n - 1], states[n]);
    }
  }

  /** Every later repeat of an accepted request, under any load, is answered with that turn and adds
      nothing. */
  lemma RepeatsGetTheSameTurn(states: seq<seq<Turn>>, acts: seq<Action>, m: nat, n: nat)
    requires IsRun(states, acts) && m < n < |acts| && acts[m].Request? && acts[n].Request?
    requires acts[m].verdict.Accepted? && acts[n].agent == acts[m].agent && acts[n].request == acts[m].request
    ensures acts[n].verdict == Duplicate(acts[m].verdict.turn) && states[n + 1] == states[n]
  {
    var i := acts[m].verdict.turn;
    assert Step(states[m], acts[m], states[m + 1]) && Step(states[n], acts[n], states[n + 1]);
    TurnsStay(states, acts, m + 1, n, i);
    assert IsTurnOf(states[n], i, acts[n].agent, acts[n].request);
    RequestsAreDistinct(states, acts, n);
  }

  // ---- The transaction ----

  class Messages {
    var turns: seq<Turn>

    constructor ()
      ensures turns == []
    {
      turns := [];
    }

    /** The lookup by request id under the agent's lock. */
    method Existing(agent: Agent, request: string) returns (found: Option<nat>)
      ensures found.Some? ==> IsTurnOf(turns, found.value, agent, request)
      ensures found.None? ==> forall i :: !IsTurnOf(turns, i, agent, request)
    {
      var i := 0;
      while i < |turns|
        invariant i <= |turns| && forall j :: 0 <= j < i ==> !IsTurnOf(turns, j, agent, request)
      {
        if turns[i].agent == agent && turns[i].request == request {
          return Some(i);
        }
        i := i + 1;
      }
      return None;
    }

    method CreateChatRequest(agent: Agent, request: string, now: int, available: bool) returns (v: Verdict)
      modifies this
      ensures Step(old(turns), Request(agent, request, now, available, v), turns)
      ensures v.Duplicate? <==> exists i :: IsTurnOf(old(turns), i, agent, request)
      ensures v == Busy ==> |InProgress(old(turns), agent)| >= 2
      ensures v == TooMany ==> |LastMinute(old(turns), agent, now)| >= 20
      ensures v == Unavailable ==> !available
      ensures v.Accepted? ==>
                available && |InProgress(old(turns), agent)| < 2 && |LastMinute(old(turns), agent, now)| < 20
      ensures turns == old(turns) + if v.Accepted? then [Turn(agent, request, now, Pending)] else []
    {
      ActiveCounts(turns, agent);
      RecentCounts(turns, agent, now);
      var existing := Existing(agent, request);
      if existing.Some? {
        return Duplicate(existing.value);
      }
      if Active(turns, agent) >= 2 {
        return Busy;
      }
      if Recent(turns, agent, now - MINUTE) >= 20 {
        return TooMany;
      }
      if !available {
        return Unavailable;
      }
      v := Accepted(|turns|);
      turns := turns + [Turn(agent, request, now, Pending)];
    }
  }
}
