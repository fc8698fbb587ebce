/** Coalescing of repeated platform reads (backend/audit_middleware.py). Times are microseconds of a clock
    that does not go back. */
module AccessWindows {
  /** An actor or source address, and a path. */
  datatype Key = Key(who: string, path: string)

  const MAX_KEYS := 5_000
  const READ_WINDOW := 60_000_000

  datatype Read = Read(key: Key, at: int, recorded: bool)

  ghost predicate RecordedSince(history: seq<Read>, key: Key, since: int) {
    exists i :: 0 <= i < |history| && history[i].key == key && history[i].recorded && history[i].at >= since
  }

  ghost predicate InOrder(history: seq<Read>) {
    forall i, j :: 0 <= i < j < |history| ==> history[i].at <= history[j].at
  }

  /** What is remembered was recorded. */
  ghost predicate Backed(last: map<Key, int>, history: seq<Read>) {
    forall k | k in last :: Read(k, last[k], true) in history
  }

  /** Every recorded read is remembered, or a window old by `now`. */
  ghost predicate Complete(last: map<Key, int>, history: seq<Read>, now: int) {
    forall i | 0 <= i < |history| && history[i].recorded ::
      (history[i].key in last && history[i].at <= last[history[i].key]) || now - history[i].at >= READ_WINDOW
  }

  ghost predicate Good(last: map<Key, int>, history: seq<Read>, clock: int, evictions: nat) {
    && |last| <= MAX_KEYS && InOrder(history) && Backed(last, history)
    && (forall r :: r in history ==> r.at <= clock)
    && (evictions == 0 ==> Complete(last, history, clock))
  }

  /** A full map, every key of it recorded within the window. */
  ghost predicate FullWindow(last: map<Key, int>, history: seq<Read>, now: int) {
    |last| == MAX_KEYS && forall k | k in last :: RecordedSince(history, k, now - READ_WINDOW)
  }

  class ReadLog {
    var last: map<Key, int>
    /** Every read so far, when the last was, and how often a live key was dropped for room. */
    ghost var history: seq<Read>
    ghost var clock: int
    ghost var evictions: nat

    constructor (start: int)
      ensures Valid() && history == [] && evictions == 0 && clock == start
    {
      last := map[];
      history, clock, evictions := [], start, 0;
    }

    ghost predicate Valid()
      reads this
    {
      Good(last, history, clock, evictions)
    }

    /** `_platform_read_is_new`: a coalesced read always has a recorded one of the same key less than a
        window before it; while no live key had to be dropped, the converse holds too; and a live key is
        dropped only when a full map's worth of keys were recorded within the window. */
    method IsNew(key: Key, now: int) returns (record: bool)
      requires Valid() && clock <= now
      modifies this
      ensures Valid() && history == old(history) + [Read(key, now, record)] && clock == now
      ensures !record ==> RecordedSince(old(history), key, now - READ_WINDOW + 1)
      ensures old(evictions) == 0 ==> (record <==> !RecordedSince(old(history), key, now - READ_WINDOW + 1))
      ensures evictions == old(evictions)
          || (evictions == old(evictions) + 1 && FullWindow(old(last), old(history), now))
    {
      if key in last && now - last[key] < READ_WINDOW {
        Remembered(last, history, key, now - READ_WINDOW + 1);
        Passed(last, history, clock, evictions, key, now);
        history, clock := history + [Read(key, now, false)], now;
        return false;
      }
      if evictions == 0 {
        Forgotten(last, history, key, clock, now);
      }
      Note(key, now);
      record := true;
    }

    /** Room for the key, and its time. */
    method Note(key: Key, now: int)
      requires Valid() && clock <= now
      modifies this
      ensures Valid() && history == old(history) + [Read(key, now, true)] && clock == now
      ensures evictions == old(evictions)
          || (evictions == old(evictions) + 1 && FullWindow(old(last), old(history), now))
    {
      var room, evicted := MakeRoom(now);
      ghost var dropped := if evicted then evictions + 1 else evictions;
      Noted(last, room, history, clock, evictions, dropped, key, now);
      last := room[key := now];
      history, clock, evictions := history + [Read(key, now, true)], now, dropped;
    }

    /** A full map loses its stale keys, and if that is not enough, the oldest one. */
    method MakeRoom(now: int) returns (room: map<Key, int>, evicted: bool)
      requires Good(last, history, clock, evictions)
      ensures |room| < MAX_KEYS && forall k :: k in room ==> k in last && room[k] == last[k]
      ensures evicted ==> FullWindow(last, history, now)
      ensures !evicted ==> forall k :: k in last && last[k] >= now - READ_WINDOW ==> k in room
      ensures |last| < MAX_KEYS ==> room == last
      ensures forall k, j :: k in last && k !in room && j in room ==> last[k] <= last[j]
      ensures evicted ==> |room| == |last| - 1
    {
      room, evicted := last, false;
      if |last| >= MAX_KEYS {
        room := DropStale(last, now - READ_WINDOW);
        if |room| >= MAX_KEYS {
          NothingStale(last, room);
          forall k | k in last ensures RecordedSince(history, k, now - READ_WINDOW) {
            assert k in room.Keys;
            Remembered(last, history, k, now - READ_WINDOW);
          }
          var oldest := Oldest(room);
          Popped(room, oldest);
          room := room - {oldest};
          evicted := true;
        }
      }
    }

    /** The comprehension and its pops. */
    method DropStale(seen: map<Key, int>, cutoff: int) returns (room: map<Key, int>)
      ensures forall k :: k in room <==> k in seen && seen[k] >= cutoff
      ensures forall k :: k in room ==> room[k] == seen[k]
      ensures |room| <= |seen|
    {
      var stale := set k | k in seen && seen[k] < cutoff;
      room := seen;
      while stale != {}
        invariant forall k :: k in room <==> k in seen && (seen[k] >= cutoff || k in stale)
        invariant forall k :: k in room ==> room[k] == seen[k]
        invariant |room| <= |seen| && forall k :: k in stale ==> k in seen && seen[k] < cutoff
        decreases stale
      {
        var k :| k in stale;
        Popped(room, k);
        room := room - {k};
        stale := stale - {k};
      }
    }

    /** min(..., key=...): some key of the smallest time. */
    method Oldest(seen: map<Key, int>) returns (oldest: Key)
      requires |seen| > 0
      ensures oldest in seen && forall k :: k in seen ==> seen[oldest] <= seen[k]
    {
      var left := seen.Keys;
      assert |left| > 0;
      oldest :| oldest in left;
      left := left - {oldest};
      while left != {}
        invariant left <= seen.Keys && oldest in seen
        invariant forall k :: k in seen && k !in left ==> seen[oldest] <= seen[k]
        decreases left
      {
        var k :| k in left;
        if seen[k] < seen[oldest] {
          oldest := k;
        }
        left := left - {k};
      }
    }
  }

  lemma Popped(room: map<Key, int>, k: Key)
    requires k in room
    ensures |room - {k}| == |room| - 1
  {
    assert (room - {k}).Keys == room.Keys - {k};
    assert |(room - {k}).Keys| == |room - {k}|;
  }

  lemma Remembered(last: map<Key, int>, history: seq<Read>, key: Key, since: int)
    requires Backed(last, history) && key in last && last[key] >= since
    ensures RecordedSince(history, key, since)
  {
    assert Read(key, last[key], true) in history;
  }

  lemma Forgotten(last: map<Key, int>, history: seq<Read>, key: Key, clock: int, now: int)
    requires Complete(last, history, clock) && clock <= now && (key in last ==> now - last[key] >= READ_WINDOW)
    ensures !RecordedSince(history, key, now - READ_WINDOW + 1)
  {
  }

  /** A coalesced read is only noted in the history. */
  lemma Passed(last: map<Key, int>, history: seq<Read>, clock: int, evictions: nat, key: Key, now: int)
    requires Good(last, history, clock, evictions) && clock <= now
    ensures Good(last, history + [Read(key, now, false)], now, evictions)
  {
    var next := history + [Read(key, now, false)];
    forall k | k in last ensures Read(k, last[k], true) in next {
      assert Read(k, last[k], true) in history;
    }
  }

  lemma Noted(
    last: map<Key, int>, room: map<Key, int>, history: seq<Read>, clock: int, evictions: nat, evictions': nat,
        key: Key, now: int)
    requires Good(last, history, clock, evictions) && clock <= now && evictions <= evictions'
    requires |room| < MAX_KEYS && forall k :: k in room ==> k in last && room[k] == last[k]
    requires evictions' == evictions ==> forall k :: k in last && last[k] >= now - READ_WINDOW ==> k in room
    ensures Good(room[key := now], history + [Read(key, now, true)], now, evictions')
  {
    var r := room[key := now];
    assert r.Keys == room.Keys + {key} && |r| == |r.Keys| && |room| == |room.Keys|;
    StillBacked(last, room, history, key, now);
    if evictions' == 0 {
      StillComplete(last, room, history, clock, key, now);
    }
  }

  lemma StillBacked(last: map<Key, int>, room: map<Key, int>, history: seq<Read>, key: Key, now: int)
    requires Backed(last, history) && forall k :: k in room ==> k in last && room[k] == last[k]
    ensures Backed(room[key := now], history + [Read(key, now, true)])
  {
    var next, r := history + [Read(key, now, true)], room[key := now];
    assert next[|history|] == Read(key, now, true);
    forall k | k in r ensures Read(k, r[k], true) in next {
      if k != key {
        assert Read(k, last[k], true) in history;
      }
    }
  }

  lemma StillComplete(last: map<Key, int>, room: map<Key, int>, history: seq<Read>, clock: int, key: Key, now: int)
    requires Complete(last, history, clock) && clock <= now && forall r :: r in history ==> r.at <= clock
    requires forall k :: k in last && last[k] >= now - READ_WINDOW ==> k in room
    requires forall k :: k in room ==> k in last && room[k] == last[k]
    ensures Complete(room[key := now], history + [Read(key, now, true)], now)
  {
  }

  lemma NothingStale(seen: map<Key, int>, room: map<Key, int>)
    requires |seen| <= |room| && forall k :: k in room ==> k in seen
    ensures room.Keys == seen.Keys
  {
    var a, b := room.Keys, seen.Keys;
    assert a <= b && |a| == |room| && |b| == |seen|;
    assert b == a + (b - a);
    assert |b| == |a| + |b - a|;
  }
}
