/** The verifier beside honest writers: appends, prefix expiry with a checkpoint, and verification runs
    whose pages each see the table as it then is. When does an untampered chain raise an alarm? */
module ChainAlarms {
  import opened Options
  import opened AuditChain
  import opened ChainVerifier

  /** A run between two of its pages. */
  datatype Flight = Flight(cursor: Cursor, checked: nat, broken: Option<int>, budget: nat, earlier: nat)

  datatype World = World(table: seq<Stored>, anchor: Anchor, nextSeq: int, state: State, flight: Option<Flight>)

  datatype Action =
    | Append(entry: Entry, skipped: nat)
    | Expire(cutoff: int)
    | Begin(budget: nat)
    | Page(limit: nat)
    | Finish

  /** `_pg_last_hash`: the newest row's hash, and the genesis sentinel on an empty table. */
  function LastHash(table: seq<Stored>): Hash {
    if table == [] then Genesis else table[|table| - 1].row.hash
  }

  /** How many rows lie before the first one still inside retention. */
  function Expired(table: seq<Stored>, cutoff: int): (n: nat)
    ensures n <= |table|
  {
    if table == [] || table[0].row.entry.createdAt >= cutoff then 0 else 1 + Expired(table[1..], cutoff)
  }

  function AppendTo(w: World, entry: Entry, skipped: nat): World {
    w.(table := w.table + [Stored(w.nextSeq + skipped, Inserted(entry, LastHash(w.table)))],
       nextSeq := w.nextSeq + skipped + 1)
  }

  function AnchorAt(table: seq<Stored>, n: nat): Anchor
    requires 0 < n <= |table|
  {
    Anchor(table[n - 1].seqNo, table[n - 1].row.hash)
  }

  /** privacy_expire_audit */
  function ExpireFrom(w: World, cutoff: int): World {
    var n := Expired(w.table, cutoff);
    if n == 0 then w
    else w.(table := w.table[n..], anchor := AnchorAt(w.table, n))
  }

  function Started(w: World, budget: nat): Flight {
    Flight(StartOf(w.state, w.anchor), 0, None, budget, if NewPass(w.state, w.anchor) then 0 else w.state.rowsInPass)
  }

  function PageRows(w: World, limit: nat): seq<Stored>
    requires w.flight.Some? && w.flight.value.checked <= w.flight.value.budget
  {
    var f := w.flight.value;
    var rest := After(w.table, f.cursor.seqNo);
    rest[..Smaller(Smaller(limit, f.budget - f.checked), |rest|)]
  }

  function Paged(w: World, limit: nat): Flight
    requires w.flight.Some? && w.flight.value.checked <= w.flight.value.budget
  {
    var f := w.flight.value;
    var rows := PageRows(w, limit);
    f.(cursor := LastCursor(rows, f.cursor), checked := f.checked + |rows|,
       broken := if f.broken.Some? then f.broken else FirstBreak(rows, f.cursor.hash))
  }

  /** The closing UPDATE. */
  function Closed(state: State, f: Flight, atHead: bool): State {
    var inPass := f.earlier + f.checked;
    State(
      if atHead then None else Some(f.cursor),
      if atHead then 0 else inPass,
      if atHead then Some(inPass) else state.lastPassRows,
      Some(if f.broken.Some? then Broken else if inPass == 0 then Empty else Intact),
      if f.broken.Some? then f.broken else state.brokenSeq,
      if f.broken.Some? && f.broken != state.alertedSeq then f.broken else state.alertedSeq)
  }

  ghost predicate Step(w: World, a: Action, w': World) {
    match a
    case Append(entry, skipped) => Accepted(entry) && w' == AppendTo(w, entry, skipped)
    case Expire(cutoff) => w' == ExpireFrom(w, cutoff)
    case Begin(budget) => w.flight.None? && budget > 0 && w' == w.(flight := Some(Started(w, budget)))
    case Page(limit) =>
      && w.flight.Some? && w.flight.value.checked < w.flight.value.budget && limit > 0
      && (if PageRows(w, limit) == [] then
            w' == w.(flight := None, state := Closed(w.state, w.flight.value, true))
          else w' == w.(flight := Some(Paged(w, limit))))
    case Finish =>
      && w.flight.Some? && w.flight.value.checked == w.flight.value.budget
      && w' == w.(flight := None, state := Closed(w.state, w.flight.value, false))
  }

  const FRESH := World([], Anchor(0, Genesis), 1, State(None, 0, None, None, None, None), None)

  ghost predicate IsRun(ws: seq<World>, acts: seq<Action>) {
    |ws| == |acts| + 1 && ws[0] == FRESH
    && forall k {:trigger acts[k]} :: 0 <= k < |acts| ==> Step(ws[k], acts[k], ws[k + 1])
  }

  // ---- When a page notes a break ----

  /** The page starts before the first row, and that row does not name the hash the cursor carries. */
  predicate Detached(w: World) {
    && w.flight.Some? && w.table != []
    && w.flight.value.cursor.seqNo < w.table[0].seqNo && w.table[0].row.prev != w.flight.value.cursor.hash
  }

  /** A page starts detached, or holds a row whose hash does not recompute from its columns. */
  ghost predicate Alarms(w: World, a: Action) {
    && a.Page? && w.flight.Some? && w.flight.value.checked <= w.flight.value.budget
    && (Detached(w) || exists i :: 0 <= i < |PageRows(w, a.limit)| && !Recomputes(PageRows(w, a.limit)[i].row))
  }

  /** Nothing was ever found broken. */
  predicate Quiet(w: World) {
    (w.flight.Some? ==> w.flight.value.broken.None?) && w.state.brokenSeq.None?
  }

  // ---- What every run keeps, restarts and respelled ids included ----

  /** Every row names the hash of the row before it. */
  ghost predicate Chained(rows: seq<Stored>) {
    forall i, j {:trigger rows[i], rows[j]} :: 0 <= i && j == i + 1 < |rows| ==> rows[j].row.prev == rows[i].row.hash
  }

  /** A cursor stands before the first row, or names a row with its hash. */
  predicate Placed(table: seq<Stored>, nextSeq: int, c: Cursor) {
    && c.seqNo < nextSeq
    && ((table != [] ==> c.seqNo < table[0].seqNo)
        || exists i :: 0 <= i < |table| && table[i].seqNo == c.seqNo && table[i].row.hash == c.hash)
  }

  ghost predicate Numbered(table: seq<Stored>, anchor: Anchor, nextSeq: int) {
    && Ordered(table) && anchor.seqNo < nextSeq
    && forall i :: 0 <= i < |table| ==> anchor.seqNo < table[i].seqNo < nextSeq
  }

  ghost predicate Kept(w: World) {
    && Numbered(w.table, w.anchor, w.nextSeq) && Chained(w.table)
    && (w.state.cursor.Some? ==> Placed(w.table, w.nextSeq, w.state.cursor.value))
    && (w.flight.Some? ==>
          Placed(w.table, w.nextSeq, w.flight.value.cursor) && w.flight.value.checked <= w.flight.value.budget)
    && (w.state.brokenSeq.None? ==> w.state.alertedSeq.None? && w.state.status != Some(Broken))
  }

  /** Over rows that are chained, only the first link and the hashes themselves can be broken. */
  lemma {:induction false} ChainedBreak(rows: seq<Stored>, expected: Hash)
    requires Chained(rows)
    ensures FirstBreak(rows, expected).None?
            <==> (rows != [] ==> rows[0].row.prev == expected)
                 && forall i :: 0 <= i < |rows| ==> Recomputes(rows[i].row)
  {
    if rows != [] {
      var rest := rows[1..];
      ChainedBreak(rest, rows[0].row.hash);
      assert forall i :: 0 <= i < |rest| ==> rest[i] == rows[i + 1];
      assert forall i :: 1 <= i < |rows| ==> rows[i] == rest[i - 1];
    }
  }

  lemma ChainedSlice(table: seq<Stored>, lo: nat, hi: nat)
    requires Chained(table) && lo <= hi <= |table|
    ensures Chained(table[lo..hi])
  {
  }

  /** The rows after a placed cursor are a suffix that continues from it, unless the cursor is detached. */
  lemma AfterPlaced(w: World) returns (k: nat)
    requires Kept(w) && w.flight.Some?
    ensures k <= |w.table| && After(w.table, w.flight.value.cursor.seqNo) == w.table[k..]
    ensures k < |w.table| ==> (w.table[k].row.prev == w.flight.value.cursor.hash <==> !Detached(w))
    ensures Detached(w) ==> k == 0
  {
    var c := w.flight.value.cursor;
    if w.table != [] && c.seqNo >= w.table[0].seqNo {
      var i :| 0 <= i < |w.table| && w.table[i].seqNo == c.seqNo && w.table[i].row.hash == c.hash;
      SkipPrefix(w.table, i + 1);
      k := i + 1;
      assert k < |w.table| ==> w.table[k].row.prev == w.table[i].row.hash;
    } else {
      k := 0;
      assert w.table[0..] == w.table;
    }
  }

  /** What the next page brings. */
  lemma PageExactly(w: World, limit: nat)
    requires Kept(w) && w.flight.Some? && limit > 0 && w.flight.value.checked < w.flight.value.budget
    ensures var f := Paged(w, limit);
            && (f.broken.None? <==> w.flight.value.broken.None? && !Alarms(w, Page(limit)))
            && (Alarms(w, Page(limit)) ==> PageRows(w, limit) != [])
            && Placed(w.table, w.nextSeq, f.cursor) && f.checked <= f.budget
  {
    var k := AfterPlaced(w);
    var c, rows := w.flight.value.cursor, PageRows(w, limit);
    assert rows == w.table[k..k + |rows|];
    ChainedSlice(w.table, k, k + |rows|);
    ChainedBreak(rows, c.hash);
    if rows != [] {
      assert rows[0] == w.table[k] && rows[|rows| - 1] == w.table[k + |rows| - 1];
    }
  }

  lemma AppendKept(w: World, entry: Entry, skipped: nat)
    requires Kept(w)
    ensures Kept(AppendTo(w, entry, skipped))
  {
    var w' := AppendTo(w, entry, skipped);
    PlacedGrows(w.table, w.nextSeq, w'.table, w'.nextSeq);
  }

  lemma PlacedGrows(table: seq<Stored>, nextSeq: int, table': seq<Stored>, nextSeq': int)
    requires |table'| == |table| + 1 && table'[..|table|] == table && nextSeq <= table'[|table|].seqNo < nextSeq'
    ensures forall c: Cursor :: Placed(table, nextSeq, c) ==> Placed(table', nextSeq', c)
  {
    forall c: Cursor | Placed(table, nextSeq, c) ensures Placed(table', nextSeq', c) {
      if i :| 0 <= i < |table| && table[i].seqNo == c.seqNo && table[i].row.hash == c.hash {
        assert table'[i] == table[i];
      }
    }
  }

  lemma ExpireKept(w: World, cutoff: int)
    requires Kept(w)
    ensures Kept(ExpireFrom(w, cutoff))
  {
    var n := Expired(w.table, cutoff);
    if n > 0 {
      ChainedSlice(w.table, n, |w.table|);
      assert w.table[n..|w.table|] == w.table[n..];
      PlacedStays(w.table, w.anchor, w.nextSeq, n);
    }
  }

  lemma PlacedStays(table: seq<Stored>, anchor: Anchor, nextSeq: int, n: nat)
    requires Numbered(table, anchor, nextSeq) && n <= |table|
    ensures forall c: Cursor :: Placed(table, nextSeq, c) ==> Placed(table[n..], nextSeq, c)
  {
    forall c: Cursor | Placed(table, nextSeq, c) ensures Placed(table[n..], nextSeq, c) {
      if i :| 0 <= i < |table| && table[i].seqNo == c.seqNo && table[i].row.hash == c.hash {
        if i >= n {
          assert table[n..][i - n] == table[i];
        }
      }
    }
  }

  /** Every step keeps this, and is the first to disturb the quiet if and only if it is an alarming page. */
  lemma StepExactly(w: World, a: Action, w': World)
    requires Kept(w) && Step(w, a, w')
    ensures Kept(w')
    ensures Quiet(w') <==> Quiet(w) && !Alarms(w, a)
  {
    match a
    case Append(entry, skipped) => AppendKept(w, entry, skipped);
    case Expire(cutoff) => ExpireKept(w, cutoff);
    case Begin(_) =>
    case Page(limit) => PageExactly(w, limit);
    case Finish =>
  }

  /** When the verifier notes a break, exactly: at any point of any run of honest appends, expiries and
      verifications, restarts and respelled ids included, nothing was found broken so far if and only if no
      page so far started detached or held a row whose hash does not recompute. */
  lemma {:induction false} QuietExactly(ws: seq<World>, acts: seq<Action>, n: nat)
    requires IsRun(ws, acts) && n < |ws|
    ensures Kept(ws[n])
    ensures Quiet(ws[n]) <==> forall k {:trigger acts[k]} :: 0 <= k < n ==> !Alarms(ws[k], acts[k])
    decreases n
  {
    if n > 0 {
      QuietExactly(ws, acts, n - 1);
      StepExactly(ws[n - 1], acts[n - 1], ws[n]);
    }
  }

  // ---- A run that nothing disturbs ----

  /** Only pages and the close, from the start of one run of the verifier to its end. */
  ghost predicate OneFlight(ws: seq<World>, acts: seq<Action>) {
    && |ws| == |acts| + 1 && |acts| >= 2
    && (forall k {:trigger acts[k]} :: 0 <= k < |acts| ==> Step(ws[k], acts[k], ws[k + 1]))
    && acts[0].Begin? && (forall k {:trigger acts[k]} :: 0 < k < |acts| ==> acts[k].Page? || acts[k].Finish?)
    && (forall k {:trigger ws[k]} :: 0 < k < |acts| ==> ws[k].flight.Some?) && ws[|acts|].flight.None?
  }

  /** Between its pages a run has checked a stretch of the rows from its start. */
  ghost predicate Midway(w: World, w': World, budget: nat) {
    var start := StartOf(w.state, w.anchor);
    var rest := After(w.table, start.seqNo);
    && w'.flight.Some? && w' == w.(flight := w'.flight)
    && var f := w'.flight.value;
       && f.checked <= Smaller(budget, |rest|) && f.budget == budget
       && f.earlier == (if NewPass(w.state, w.anchor) then 0 else w.state.rowsInPass)
       && f.cursor == LastCursor(rest[..f.checked], start) && f.broken == FirstBreak(rest[..f.checked], start.hash)
       && After(w.table, f.cursor.seqNo) == rest[f.checked..]
  }

  lemma PageGoesOn(w: World, w': World, budget: nat, limit: nat)
    requires Ordered(w.table) && Midway(w, w', budget) && w'.flight.value.checked < budget && limit > 0
    requires PageRows(w', limit) != []
    ensures Midway(w, w'.(flight := Some(Paged(w', limit))), budget)
  {
    var start := StartOf(w.state, w.anchor);
    var rest := After(w.table, start.seqNo);
    var f := w'.flight.value;
    PageDone(w.table, rest, start, f.checked, |PageRows(w', limit)|);
  }

  lemma {:induction false} FlightMidway(ws: seq<World>, acts: seq<Action>, n: nat)
    requires OneFlight(ws, acts) && Ordered(ws[0].table) && 0 < n < |acts|
    ensures Midway(ws[0], ws[n], acts[0].budget)
    decreases n
  {
    assert Step(ws[n - 1], acts[n - 1], ws[n]);
    if n == 1 {
      var rest := After(ws[0].table, StartOf(ws[0].state, ws[0].anchor).seqNo);
      assert rest[..0] == [] && rest[0..] == rest;
    } else {
      FlightMidway(ws, acts, n - 1);
      PageGoesOn(ws[0], ws[n - 1], acts[0].budget, acts[n - 1].limit);
    }
  }

  /** Page by page, an undisturbed run ends in exactly the bookkeeping row of the one-step specification
      that the theorems about complete passes are about. */
  lemma UndisturbedRun(ws: seq<World>, acts: seq<Action>)
    requires OneFlight(ws, acts) && Ordered(ws[0].table)
    ensures ws[|acts|] == ws[0].(state := StateAfter(ws[0].table, ws[0].anchor, ws[0].state, acts[0].budget))
  {
    var n := |acts| - 1;
    var w, w' := ws[0], ws[n];
    FlightMidway(ws, acts, n);
    assert Step(ws[0], acts[0], ws[1]) && Step(w', acts[n], ws[n + 1]);
    var rest := After(w.table, StartOf(w.state, w.anchor).seqNo);
    assert acts[n].Page? ==> w'.flight.value.checked == |rest|;
  }
}
