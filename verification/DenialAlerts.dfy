/** The alert on repeated access denials (backend/audit_middleware.py). Times are microseconds of a clock
    that does not go back and starts near zero at boot. */
module DenialAlerts {
  import opened Options
  import AccessWindows

  type Key = AccessWindows.Key

  const MAX_KEYS := AccessWindows.MAX_KEYS
  const DENIAL_WINDOW := 300_000_000
  const DENIAL_THRESHOLD := 5

  type Times = map<Key, seq<int>>

  /** What a dictionary of lists holds for a key: a missing one has the empty list. */
  function For(m: Times, key: Key): seq<int> {
    if key in m then m[key] else []
  }

  function CountSince(times: seq<int>, since: int): (n: nat)
    ensures n <= |times|
  {
    if times == [] then 0
    else CountSince(times[..|times| - 1], since) + if times[|times| - 1] >= since then 1 else 0
  }

  /** The latest of the times, and zero when there is none. */
  function Latest(times: seq<int>): int {
    if times == [] then 0 else times[|times| - 1]
  }

  ghost predicate Sorted(times: seq<int>) {
    forall i, j :: 0 <= i < j < |times| ==> times[i] <= times[j]
  }

  // ---- One key's window ----

  function Trimmed(window: seq<int>, since: int): seq<int> {
    if window != [] && window[0] < since then Trimmed(window[1..], since) else window
  }

  /** A key's window against all its denials: it is the end of them, and while nothing was evicted only
      old ones are missing. */
  ghost predicate KeyOk(window: seq<int>, times: seq<int>, clock: int, exact: bool) {
    && Sorted(times) && (times != [] ==> times[|times| - 1] <= clock)
    && |window| <= |times| && times[|times| - |window|..] == window
    && (exact ==> forall i :: 0 <= i < |times| - |window| ==> times[i] < clock - DENIAL_WINDOW)
  }

  /** Trimming drops denials from the front, only old ones. */
  lemma {:induction false} TrimmedOk(window: seq<int>, times: seq<int>, clock: int, exact: bool)
    requires KeyOk(window, times, clock, exact)
    ensures var r := Trimmed(window, clock - DENIAL_WINDOW);
            KeyOk(r, times, clock, exact) && (r != [] ==> r[0] >= clock - DENIAL_WINDOW)
  {
    if window != [] && window[0] < clock - DENIAL_WINDOW {
      var n := |times| - |window|;
      assert times[n] == times[n..][0];
      assert times[n + 1..] == times[n..][1..];
      TrimmedOk(window[1..], times, clock, exact);
    }
  }

  lemma Later(window: seq<int>, times: seq<int>, clock: int, exact: bool, now: int)
    requires KeyOk(window, times, clock, exact) && clock <= now
    ensures KeyOk(window, times, now, exact)
  {
  }

  lemma Grown(window: seq<int>, times: seq<int>, now: int, exact: bool)
    requires KeyOk(window, times, now, exact)
    ensures KeyOk(window + [now], times + [now], now, exact)
  {
    var n := |times| - |window|;
    assert (times + [now])[n..] == times[n..] + [now];
  }

  lemma {:induction false} CountSplit(times: seq<int>, n: nat, since: int)
    requires n <= |times|
    ensures CountSince(times, since) == CountSince(times[..n], since) + CountSince(times[n..], since)
  {
    if n < |times| {
      var m := |times| - 1;
      assert times[..m][..n] == times[..n] && times[..m][n..] == times[n..][..m - n];
      CountSplit(times[..m], n, since);
    } else {
      assert times[..n] == times;
    }
  }

  lemma {:induction false} CountAllOrNone(times: seq<int>, since: int)
    ensures (forall i :: 0 <= i < |times| ==> times[i] >= since) ==> CountSince(times, since) == |times|
    ensures (forall i :: 0 <= i < |times| ==> times[i] < since) ==> CountSince(times, since) == 0
  {
    if times != [] {
      CountAllOrNone(times[..|times| - 1], since);
    }
  }

  /** A window that starts within the last five minutes counts no more denials than there were, and just
      as many while nothing was evicted. */
  lemma WindowCounts(window: seq<int>, times: seq<int>, now: int, exact: bool)
    requires KeyOk(window, times, now, exact) && (window != [] ==> window[0] >= now - DENIAL_WINDOW)
    ensures |window| <= CountSince(times, now - DENIAL_WINDOW)
    ensures exact ==> |window| == CountSince(times, now - DENIAL_WINDOW)
  {
    var n := |times| - |window|;
    CountSplit(times, n, now - DENIAL_WINDOW);
    CountAllOrNone(times[..n], now - DENIAL_WINDOW);
    AllRecent(window, times, now - DENIAL_WINDOW);
    CountAllOrNone(window, now - DENIAL_WINDOW);
  }

  lemma AllRecent(window: seq<int>, times: seq<int>, since: int)
    requires Sorted(times) && |window| <= |times| && times[|times| - |window|..] == window
    requires window != [] ==> window[0] >= since
    ensures forall i :: 0 <= i < |window| ==> window[i] >= since
  {
    var n := |times| - |window|;
    forall i | 0 <= i < |window| ensures window[i] >= since {
      assert times[n] == window[0] && times[n + i] == window[i];
    }
  }

  // ---- All keys ----

  ghost predicate KeyAt(windows: Times, denials: Times, k: Key, clock: int, exact: bool) {
    KeyOk(For(windows, k), For(denials, k), clock, exact)
  }

  ghost predicate KeysOk(windows: Times, denials: Times, clock: int, exact: bool) {
    forall k: Key :: KeyAt(windows, denials, k, clock, exact)
  }

  ghost predicate AlertOk(lastAlert: map<Key, int>, alerts: Times, k: Key, exact: bool) {
    if k in lastAlert then For(alerts, k) != [] && lastAlert[k] == Latest(For(alerts, k))
    else exact ==> For(alerts, k) == []
  }

  ghost predicate AlertsOk(lastAlert: map<Key, int>, alerts: Times, exact: bool) {
    forall k: Key :: AlertOk(lastAlert, alerts, k, exact)
  }

  ghost predicate OrderOk(order: seq<Key>, windows: Times) {
    KeySet(order) == windows.Keys && |order| == |windows|
  }

  function KeySet(order: seq<Key>): set<Key> {
    if order == [] then {} else {order[0]} + KeySet(order[1..])
  }

  lemma {:induction false} KeySetSize(order: seq<Key>)
    ensures |KeySet(order)| <= |order|
  {
    if order != [] {
      KeySetSize(order[1..]);
    }
  }

  lemma {:induction false} KeySetGrows(order: seq<Key>, key: Key)
    ensures KeySet(order + [key]) == KeySet(order) + {key}
  {
    if order != [] {
      assert (order + [key])[1..] == order[1..] + [key];
      KeySetGrows(order[1..], key);
    }
  }

  /** The window after a denial. */
  function Next(window: seq<int>, now: int): seq<int> {
    Trimmed(window, now - DENIAL_WINDOW) + [now]
  }

  lemma OneDenial(window: seq<int>, times: seq<int>, clock: int, exact: bool, now: int)
    requires KeyOk(window, times, clock, exact) && clock <= now
    ensures KeyOk(Next(window, now), times + [now], now, exact)
    ensures |Next(window, now)| <= CountSince(times + [now], now - DENIAL_WINDOW)
    ensures exact ==> |Next(window, now)| == CountSince(times + [now], now - DENIAL_WINDOW)
  {
    Later(window, times, clock, exact, now);
    TrimmedOk(window, times, now, exact);
    Grown(Trimmed(window, now - DENIAL_WINDOW), times, now, exact);
    WindowCounts(Next(window, now), times + [now], now, exact);
  }

  /** A denial moves its own key's window, and time passes for the others. */
  lemma Noticed(windows: Times, denials: Times, clock: int, exact: bool, key: Key, now: int)
    requires KeysOk(windows, denials, clock, exact) && clock <= now
    ensures KeysOk(windows[key := Next(For(windows, key), now)], denials[key := For(denials, key) + [now]], now, exact)
  {
    var windows', denials' := windows[key := Next(For(windows, key), now)], denials[key := For(denials, key) + [now]];
    forall k: Key ensures KeyAt(windows', denials', k, now, exact) {
      assert KeyAt(windows, denials, k, clock, exact);
      if k == key {
        OneDenial(For(windows, k), For(denials, k), clock, exact, now);
      } else {
        Later(For(windows, k), For(denials, k), clock, exact, now);
      }
    }
  }

  /** Forgetting a key leaves what is said of the others, and no claim that anything is complete. */
  lemma Forgotten(windows: Times, denials: Times, clock: int, exact: bool, key: Key)
    requires KeysOk(windows, denials, clock, exact)
    ensures KeysOk(windows - {key}, denials, clock, false)
  {
    var rest := windows - {key};
    forall k: Key ensures KeyAt(rest, denials, k, clock, false) {
      assert KeyAt(windows, denials, k, clock, exact);
    }
  }

  lemma AlertForgotten(lastAlert: map<Key, int>, alerts: Times, exact: bool, key: Key)
    requires AlertsOk(lastAlert, alerts, exact)
    ensures AlertsOk(lastAlert - {key}, alerts, false)
  {
    var rest := lastAlert - {key};
    forall k: Key ensures AlertOk(rest, alerts, k, false) {
      assert AlertOk(lastAlert, alerts, k, exact);
    }
  }

  lemma Alerted(lastAlert: map<Key, int>, alerts: Times, exact: bool, key: Key, now: int)
    requires AlertsOk(lastAlert, alerts, exact)
    ensures AlertsOk(lastAlert[key := now], alerts[key := For(alerts, key) + [now]], exact)
  {
    var after, more := lastAlert[key := now], alerts[key := For(alerts, key) + [now]];
    forall k: Key ensures AlertOk(after, more, k, exact) {
      assert AlertOk(lastAlert, alerts, k, exact);
    }
  }

  lemma LastIsLatest(lastAlert: map<Key, int>, alerts: Times, exact: bool, key: Key)
    requires AlertsOk(lastAlert, alerts, exact)
    ensures exact ==> (if key in lastAlert then lastAlert[key] else 0) == Latest(For(alerts, key))
  {
    assert AlertOk(lastAlert, alerts, key, exact);
  }

  lemma FirstForgotten(order: seq<Key>, windows: Times)
    requires OrderOk(order, windows) && order != []
    ensures OrderOk(order[1..], windows - {order[0]}) && |windows - {order[0]}| == |windows| - 1
  {
    var first, later, rest := order[0], KeySet(order[1..]), windows - {order[0]};
    KeySetSize(order[1..]);
    assert windows.Keys == {first} + later && rest.Keys == windows.Keys - {first};
    assert |windows.Keys| == |windows| && |rest.Keys| == |rest|;
    assert first in later ==> windows.Keys == later;
    assert rest.Keys == later;
  }

  lemma OneMore(order: seq<Key>, windows: Times, key: Key, window: seq<int>)
    requires OrderOk(order, windows)
    ensures OrderOk(if key in windows then order else order + [key], windows[key := window])
    ensures |windows[key := window]| == |windows| + if key in windows then 0 else 1
  {
    KeySetGrows(order, key);
    var after := windows[key := window];
    assert after.Keys == windows.Keys + {key} && |after| == |after.Keys| && |windows| == |windows.Keys|;
  }

  ghost predicate Good(
    windows: Times, order: seq<Key>, lastAlert: map<Key, int>, denials: Times, alerts: Times, clock: int, evicted: bool)
  {
    && |windows| <= MAX_KEYS && OrderOk(order, windows)
    && KeysOk(windows, denials, clock, !evicted) && AlertsOk(lastAlert, alerts, !evicted)
  }

  lemma Dropped(
    windows: Times, order: seq<Key>, lastAlert: map<Key, int>, denials: Times, alerts: Times, clock: int, evicted: bool)
    requires Good(windows, order, lastAlert, denials, alerts, clock, evicted) && |windows| > 0
    ensures order != []
    ensures Good(windows - {order[0]}, order[1..], lastAlert - {order[0]}, denials, alerts, clock, true)
    ensures |windows - {order[0]}| == |windows| - 1
  {
    Forgotten(windows, denials, clock, !evicted, order[0]);
    AlertForgotten(lastAlert, alerts, !evicted, order[0]);
    FirstForgotten(order, windows);
  }

  lemma Recorded(
    windows: Times, order: seq<Key>, lastAlert: map<Key, int>, denials: Times, alerts: Times, clock: int, evicted: bool,
    key: Key, now: int)
    requires Good(windows, order, lastAlert, denials, alerts, clock, evicted) && clock <= now
    requires key in windows || |windows| < MAX_KEYS
    ensures var next, times := Next(For(windows, key), now), For(denials, key) + [now];
            && Good(windows[key := next], if key in windows then order else order + [key], lastAlert,
                    denials[key := times], alerts, now, evicted)
            && |next| <= CountSince(times, now - DENIAL_WINDOW)
            && (!evicted ==> |next| == CountSince(times, now - DENIAL_WINDOW))
  {
    assert KeyAt(windows, denials, key, clock, !evicted);
    OneDenial(For(windows, key), For(denials, key), clock, !evicted, now);
    Noticed(windows, denials, clock, !evicted, key, now);
    OneMore(order, windows, key, Next(For(windows, key), now));
  }

  class DenialWatch {
    var windows: Times
    /** The keys in the order the dictionary got them. */
    var order: seq<Key>
    var lastAlert: map<Key, int>
    /** Every denial and every alert so far, by key. */
    ghost var denials: Times
    ghost var alerts: Times
    ghost var clock: int
    ghost var evicted: bool

    constructor (start: int)
      ensures Valid() && denials == map[] && alerts == map[] && !evicted && clock == start
    {
      windows, order, lastAlert := map[], [], map[];
      denials, alerts, clock, evicted := map[], map[], start, false;
    }

    ghost predicate Valid()
      reads this
    {
      Good(windows, order, lastAlert, denials, alerts, clock, evicted)
    }

    /** `_track_access_denial`: an alert names at least five denials of its key within five minutes. Until
        the map overflows it is raised exactly when there are that many and the key's last alert, or the
        zero of the clock, is five minutes past. */
    method Track(key: Key, now: int) returns (alert: Option<nat>)
      requires Valid() && clock <= now
      modifies this
      ensures Valid() && clock == now
      ensures denials == old(denials)[key := For(old(denials), key) + [now]]
      ensures alerts == if alert.Some? then old(alerts)[key := For(old(alerts), key) + [now]] else old(alerts)
      ensures var count := CountSince(For(denials, key), now - DENIAL_WINDOW);
              && (alert.Some? ==> DENIAL_THRESHOLD <= alert.value <= count)
              && (!evicted ==>
                    alert == if count >= DENIAL_THRESHOLD && now - Latest(For(old(alerts), key)) >= DENIAL_WINDOW
                             then Some(count) else None)
      ensures evicted == (old(evicted) || (key !in old(windows) && |old(windows)| == MAX_KEYS))
    {
      if key !in windows && |windows| >= MAX_KEYS {
        DropOldest();
      }
      var n := Record(key, now);
      var due := Due(key, now, n);
      alert := if due then Some(n) else None;
    }

    /** Enough denials, and the key's last alert a window ago; it is noted as the last one. */
    method Due(key: Key, now: int, n: nat) returns (due: bool)
      requires Valid()
      modifies this`lastAlert, this`alerts
      ensures Valid()
      ensures alerts == if due then old(alerts)[key := For(old(alerts), key) + [now]] else old(alerts)
      ensures due ==> n >= DENIAL_THRESHOLD
      ensures !evicted ==> (due <==> n >= DENIAL_THRESHOLD && now - Latest(For(old(alerts), key)) >= DENIAL_WINDOW)
    {
      LastIsLatest(lastAlert, alerts, !evicted, key);
      var last := if key in lastAlert then lastAlert[key] else 0;
      due := n >= DENIAL_THRESHOLD && now - last >= DENIAL_WINDOW;
      if due {
        Alerted(lastAlert, alerts, !evicted, key, now);
        lastAlert, alerts := lastAlert[key := now], alerts[key := For(alerts, key) + [now]];
      }
    }

    /** The window trimmed and grown; it goes into the dictionary at the end if the key is new. */
    method Record(key: Key, now: int) returns (n: nat)
      requires Valid() && clock <= now && (key in windows || |windows| < MAX_KEYS)
      modifies this`windows, this`order, this`denials, this`clock
      ensures Valid() && clock == now && denials == old(denials)[key := For(old(denials), key) + [now]]
      ensures var count := CountSince(For(denials, key), now - DENIAL_WINDOW);
              n <= count && (!evicted ==> n == count)
    {
      Recorded(windows, order, lastAlert, denials, alerts, clock, evicted, key, now);
      var window := Popped(For(windows, key), now);
      window := window + [now];
      n := |window|;
      order := if key in windows then order else order + [key];
      windows, denials, clock := windows[key := window], denials[key := For(denials, key) + [now]], now;
    }

    /** The popleft loop. */
    method Popped(window: seq<int>, now: int) returns (rest: seq<int>)
      ensures rest == Trimmed(window, now - DENIAL_WINDOW)
    {
      rest := window;
      while rest != [] && now - rest[0] > DENIAL_WINDOW
        invariant Trimmed(rest, now - DENIAL_WINDOW) == Trimmed(window, now - DENIAL_WINDOW)
        decreases |rest|
      {
        rest := rest[1..];
      }
    }

    /** next(iter(...)) and the two pops. */
    method DropOldest()
      requires Valid() && |windows| > 0
      modifies this`windows, this`order, this`lastAlert, this`evicted
      ensures Valid() && evicted && |windows| == |old(windows)| - 1
      ensures old(order) != [] && order == old(order)[1..]
      ensures windows == old(windows) - {old(order)[0]} && lastAlert == old(lastAlert) - {old(order)[0]}
    {
      Dropped(windows, order, lastAlert, denials, alerts, clock, evicted);
      windows, lastAlert, order, evicted := windows - {order[0]}, lastAlert - {order[0]}, order[1..], true;
    }
  }
}
