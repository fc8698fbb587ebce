/** Honest chains under honest writers: when verify_chain itself turns false, and what is left of false alarms
    when it does not. */
module HonestChains {
  import opened Options
  import opened AuditChain
  import opened ChainVerifier
  import opened ChainAlarms

  /** An append onto a table that expiry emptied restarts from the genesis sentinel, not from the anchor. */
  predicate RestartsChain(w: World, a: Action) {
    a.Append? && w.table == [] && w.anchor.hash != Genesis
  }

  /** An append whose uuids the columns spell differently. */
  predicate Respells(a: Action) {
    a.Append? && !Canonical(a.entry)
  }

  /** A run whose place an expiry has overtaken reads another page, and there is something on it. */
  predicate ReadsPastExpiry(w: World, a: Action) {
    a.Page? && w.flight.Some? && w.flight.value.cursor.seqNo < w.anchor.seqNo && w.table != []
  }

  /** What verify_chain answers. */
  predicate Intact(w: World) {
    Verifies(RowsOf(w.table), w.anchor.hash)
  }

  // ---- When verify_chain turns false ----

  /** An append keeps an intact chain intact exactly when it neither restarts an emptied one nor respells. */
  lemma AppendExactly(w: World, entry: Entry, skipped: nat)
    requires Intact(w)
    ensures Intact(AppendTo(w, entry, skipped))
            <==> !RestartsChain(w, Append(entry, skipped)) && !Respells(Append(entry, skipped))
  {
    var rows, row := RowsOf(w.table), Inserted(entry, LastHash(w.table));
    assert RowsOf(AppendTo(w, entry, skipped).table) == rows + [row];
    VerifiesConcat(rows, [row], w.anchor.hash);
  }

  /** An expired prefix leaves an intact chain intact from its checkpoint. */
  lemma ExpiryKeepsIntact(w: World, cutoff: int)
    requires Intact(w)
    ensures Intact(ExpireFrom(w, cutoff))
  {
    var n := Expired(w.table, cutoff);
    assert RowsOf(w.table) == RowsOf(w.table[..n]) + RowsOf(w.table[n..]);
    VerifiesConcat(RowsOf(w.table[..n]), RowsOf(w.table[n..]), w.anchor.hash);
  }

  lemma {:induction false} IntactUntil(ws: seq<World>, acts: seq<Action>, n: nat)
    requires IsRun(ws, acts) && n < |ws|
    requires forall k {:trigger acts[k]} :: 0 <= k < n ==> !RestartsChain(ws[k], acts[k]) && !Respells(acts[k])
    ensures Intact(ws[n])
    decreases n
  {
    if n > 0 {
      IntactUntil(ws, acts, n - 1);
      var w, a := ws[n - 1], acts[n - 1];
      assert Step(w, a, ws[n]);
      match a
      case Append(entry, skipped) => AppendExactly(w, entry, skipped);
      case Expire(cutoff) => ExpiryKeepsIntact(w, cutoff);
      case _ =>
    }
  }

  /** verify_chain is true in every state of a run if and only if no append of it restarts an emptied chain
      or carries an id that its column respells. */
  lemma IntactExactly(ws: seq<World>, acts: seq<Action>)
    requires IsRun(ws, acts)
    ensures (forall n :: 0 <= n < |ws| ==> Intact(ws[n]))
            <==> forall k {:trigger acts[k]} :: 0 <= k < |acts| ==> !RestartsChain(ws[k], acts[k]) && !Respells(acts[k])
  {
    if k: nat :| k < |acts| && (RestartsChain(ws[k], acts[k]) || Respells(acts[k])) {
      assert Step(ws[k], acts[k], ws[k + 1]);
      if Intact(ws[k]) {
        AppendExactly(ws[k], acts[k].entry, acts[k].skipped);
      }
    } else {
      forall n | 0 <= n < |ws| ensures Intact(ws[n]) {
        IntactUntil(ws, acts, n);
      }
    }
  }

  /** After a restart, until expiry removes the restarting row, verify_chain is false and its first break
      that row, whatever else is appended or verified. */
  lemma {:induction false} RestartIsReported(ws: seq<World>, acts: seq<Action>, m: nat, n: nat)
    requires IsRun(ws, acts) && m < n < |ws| && RestartsChain(ws[m], acts[m])
    requires forall k {:trigger acts[k]} :: m < k < n && acts[k].Expire? ==> Expired(ws[k].table, acts[k].cutoff) == 0
    ensures ws[n].anchor == ws[m].anchor && ws[n].table != []
    ensures ws[n].table[0] == Stored(ws[m].nextSeq + acts[m].skipped, Inserted(acts[m].entry, Genesis))
    ensures FirstBreak(ws[n].table, ws[n].anchor.hash) == Some(ws[n].table[0].seqNo)
    ensures !Intact(ws[n])
    decreases n
  {
    assert Step(ws[n - 1], acts[n - 1], ws[n]);
    if m < n - 1 {
      RestartIsReported(ws, acts, m, n - 1);
    }
    assert RowsOf(ws[n].table)[0] == ws[n].table[0].row;
  }

  // ---- What the verifier alarms on when no id is respelled ----

  /** Then every row's hash recomputes, restarted chain or not. */
  lemma {:induction false} RowsRecompute(ws: seq<World>, acts: seq<Action>, n: nat)
    requires IsRun(ws, acts) && n < |ws|
    requires forall k {:trigger acts[k]} :: 0 <= k < |acts| ==> !Respells(acts[k])
    ensures forall i :: 0 <= i < |ws[n].table| ==> Recomputes(ws[n].table[i].row)
    decreases n
  {
    if n > 0 {
      RowsRecompute(ws, acts, n - 1);
      assert Step(ws[n - 1], acts[n - 1], ws[n]);
    }
  }

  /** Over every run without a respelled id, restarts included: nothing was found broken so far if and only
      if no page so far started before the first row with another hash than that row names. */
  lemma DetachedExactly(ws: seq<World>, acts: seq<Action>, n: nat)
    requires IsRun(ws, acts) && n < |ws|
    requires forall k {:trigger acts[k]} :: 0 <= k < |acts| ==> !Respells(acts[k])
    ensures Quiet(ws[n]) <==> forall k {:trigger acts[k]} :: 0 <= k < n ==> !(acts[k].Page? && Detached(ws[k]))
  {
    QuietExactly(ws, acts, n);
    forall k {:trigger acts[k]} | 0 <= k < n ensures Alarms(ws[k], acts[k]) <==> acts[k].Page? && Detached(ws[k]) {
      QuietExactly(ws, acts, k);
      RowsRecompute(ws, acts, k);
      if acts[k].Page? && ws[k].flight.Some? {
        var m := AfterPlaced(ws[k]);
        var rows := PageRows(ws[k], acts[k].limit);
        assert forall i :: 0 <= i < |rows| ==> rows[i] == ws[k].table[m + i];
      }
    }
  }

  // ---- False alarms of a chain that stays intact ----

  /** A cursor that names a place in the chain as it is: the anchor, or a row with its hash. */
  predicate Names(table: seq<Stored>, anchor: Anchor, c: Cursor) {
    (c.seqNo == anchor.seqNo && c.hash == anchor.hash)
    || exists i :: 0 <= i < |table| && table[i].seqNo == c.seqNo && table[i].row.hash == c.hash
  }

  /** Where a run can stand: on the chain, or behind the anchor with a shorter history than it. */
  predicate Stands(table: seq<Stored>, anchor: Anchor, c: Cursor) {
    if c.seqNo < anchor.seqNo then Depth(c.hash) < Depth(anchor.hash) else Names(table, anchor, c)
  }

  ghost predicate Honest(w: World) {
    && Kept(w) && Intact(w)
    && (w.state.cursor.Some? && w.state.cursor.value.seqNo >= w.anchor.seqNo ==>
          Names(w.table, w.anchor, w.state.cursor.value))
    && (w.flight.Some? ==> Stands(w.table, w.anchor, w.flight.value.cursor))
  }

  /** Every place at or after the checkpoint keeps its name. */
  lemma NamesStay(table: seq<Stored>, anchor: Anchor, nextSeq: int, n: nat, c: Cursor)
    requires Numbered(table, anchor, nextSeq) && 0 < n <= |table|
    requires Names(table, anchor, c) && c.seqNo >= AnchorAt(table, n).seqNo
    ensures Names(table[n..], AnchorAt(table, n), c)
  {
    assert c.seqNo > anchor.seqNo;
    var i :| 0 <= i < |table| && table[i].seqNo == c.seqNo && table[i].row.hash == c.hash;
    if i >= n {
      assert table[n..][i - n] == table[i];
    } else {
      assert i == n - 1;
    }
  }

  /** A place the expiry passes has a shorter history than the new checkpoint. */
  lemma StandsStill(w: World, n: nat, c: Cursor)
    requires Numbered(w.table, w.anchor, w.nextSeq) && Intact(w) && 0 < n <= |w.table| && Stands(w.table, w.anchor, c)
    ensures Stands(w.table[n..], AnchorAt(w.table, n), c)
  {
    var rows := RowsOf(w.table);
    DepthAt(rows, w.anchor.hash, n - 1);
    if c.seqNo >= AnchorAt(w.table, n).seqNo {
      NamesStay(w.table, w.anchor, w.nextSeq, n, c);
    } else if c.seqNo > w.anchor.seqNo {
      var i :| 0 <= i < |w.table| && w.table[i].seqNo == c.seqNo && w.table[i].row.hash == c.hash;
      DepthAt(rows, w.anchor.hash, i);
    }
  }

  lemma ExpireHonest(w: World, cutoff: int)
    requires Honest(w)
    ensures Honest(ExpireFrom(w, cutoff))
  {
    var n := Expired(w.table, cutoff);
    ExpireKept(w, cutoff);
    ExpiryKeepsIntact(w, cutoff);
    if n > 0 {
      var c := w.state.cursor;
      if c.Some? && c.value.seqNo >= AnchorAt(w.table, n).seqNo {
        NamesStay(w.table, w.anchor, w.nextSeq, n, c.value);
      }
      if w.flight.Some? {
        StandsStill(w, n, w.flight.value.cursor);
      }
    }
  }

  lemma AppendHonest(w: World, entry: Entry, skipped: nat)
    requires Honest(w) && !RestartsChain(w, Append(entry, skipped)) && Canonical(entry)
    ensures Honest(AppendTo(w, entry, skipped))
  {
    AppendKept(w, entry, skipped);
    AppendExactly(w, entry, skipped);
    NamesGrows(w.table, Stored(w.nextSeq + skipped, Inserted(entry, LastHash(w.table))), w.anchor);
  }

  lemma NamesGrows(table: seq<Stored>, last: Stored, anchor: Anchor)
    ensures forall c: Cursor :: Names(table, anchor, c) ==> Names(table + [last], anchor, c)
  {
    forall c: Cursor | Names(table, anchor, c) ensures Names(table + [last], anchor, c) {
      if i :| 0 <= i < |table| && table[i].seqNo == c.seqNo && table[i].row.hash == c.hash {
        assert (table + [last])[i] == table[i];
      }
    }
  }

  lemma PageHonest(w: World, limit: nat)
    requires Honest(w) && w.flight.Some? && limit > 0 && w.flight.value.checked < w.flight.value.budget
    ensures Stands(w.table, w.anchor, Paged(w, limit).cursor)
  {
    var k := AfterPlaced(w);
    var rows := PageRows(w, limit);
    if rows != [] {
      assert rows[|rows| - 1] == w.table[k + |rows| - 1];
    }
  }

  lemma StepHonest(w: World, a: Action, w': World)
    requires Honest(w) && Step(w, a, w') && !RestartsChain(w, a) && !Respells(a)
    ensures Honest(w')
  {
    StepExactly(w, a, w');
    match a
    case Append(entry, skipped) => AppendHonest(w, entry, skipped);
    case Expire(cutoff) => ExpireHonest(w, cutoff);
    case Begin(_) =>
    case Page(limit) => PageHonest(w, limit);
    case Finish =>
  }

  /** On an intact chain the only alarming page is one read past an expiry. */
  lemma AlarmIsPastExpiry(w: World, a: Action, w': World)
    requires Honest(w) && Step(w, a, w')
    ensures Alarms(w, a) <==> ReadsPastExpiry(w, a)
  {
    if a.Page? {
      var k := AfterPlaced(w);
      var rows := PageRows(w, a.limit);
      VerifiesPointwise(RowsOf(w.table), w.anchor.hash);
      forall i | 0 <= i < |rows| ensures Recomputes(rows[i].row) {
        assert rows[i] == w.table[k + i] && !BrokenAt(RowsOf(w.table), w.anchor.hash, k + i);
      }
      if w.table != [] {
        assert !BrokenAt(RowsOf(w.table), w.anchor.hash, 0);
      }
    }
  }

  lemma {:induction false} HonestRun(ws: seq<World>, acts: seq<Action>, n: nat)
    requires IsRun(ws, acts) && n < |ws|
    requires forall k {:trigger acts[k]} :: 0 <= k < |acts| ==> !RestartsChain(ws[k], acts[k]) && !Respells(acts[k])
    ensures Honest(ws[n])
    decreases n
  {
    if n > 0 {
      HonestRun(ws, acts, n - 1);
      StepHonest(ws[n - 1], acts[n - 1], ws[n]);
    }
  }

  /** False alarms, exactly: on a chain that stays intact, nothing was found broken so far if and only if no
      run of the verifier read a non-empty page after an expiry had overtaken it. */
  lemma FalseAlarmExactly(ws: seq<World>, acts: seq<Action>, n: nat)
    requires IsRun(ws, acts) && n < |ws|
    requires forall k {:trigger acts[k]} :: 0 <= k < |acts| ==> !RestartsChain(ws[k], acts[k]) && !Respells(acts[k])
    ensures Quiet(ws[n]) <==> forall k {:trigger acts[k]} :: 0 <= k < n ==> !ReadsPastExpiry(ws[k], acts[k])
  {
    QuietExactly(ws, acts, n);
    forall k {:trigger acts[k]} | 0 <= k < n ensures Alarms(ws[k], acts[k]) <==> ReadsPastExpiry(ws[k], acts[k]) {
      HonestRun(ws, acts, k);
      AlarmIsPastExpiry(ws[k], acts[k], ws[k + 1]);
    }
  }

  // ---- All three are reached ----

  predicate Plain(entry: Entry) {
    Accepted(entry) && Canonical(entry)
  }

  /** One honest entry, its expiry, another honest entry: the next run of the verifier reports a break. */
  lemma HonestRunAlarms(first: Entry, second: Entry) returns (ws: seq<World>, acts: seq<Action>)
    requires first.createdAt < second.createdAt && Plain(first) && Plain(second)
    ensures IsRun(ws, acts) && ws[|acts|].state.status == Some(Broken) && ws[|acts|].state.brokenSeq == Some(2)
    ensures |acts| == 6 && RestartsChain(ws[2], acts[2])
    ensures forall k {:trigger acts[k]} :: 0 <= k < 6 ==> !ReadsPastExpiry(ws[k], acts[k])
  {
    var w1 := AppendTo(FRESH, first, 0);
    var w2 := ExpireFrom(w1, second.createdAt);
    var row := Sealed(first, Genesis);
    assert w1.table == [Stored(1, row)] && Expired(w1.table[1..], second.createdAt) == 0;
    assert w2.table == [] && w2.anchor == Anchor(1, row.hash);
    var w3 := AppendTo(w2, second, 0);
    var late := Stored(2, Sealed(second, Genesis));
    assert w3.table == [late];
    var w4 := w3.(flight := Some(Started(w3, 1)));
    assert PageRows(w4, 1) == [late];
    assert Paged(w4, 1).broken == Some(2);
    var w5 := w4.(flight := Some(Paged(w4, 1)));
    var w6 := w5.(flight := None, state := Closed(w5.state, w5.flight.value, false));
    ws := [FRESH, w1, w2, w3, w4, w5, w6];
    acts := [Append(first, 0), Expire(second.createdAt), Append(second, 0), Begin(1), Page(1), Finish];
  }

  /** Three honest entries, two of which expire while a run stands after the first: its next page notes a
      break, and nothing restarted the chain. */
  lemma OvertakenRunAlarms(a: Entry, b: Entry, c: Entry) returns (ws: seq<World>, acts: seq<Action>)
    requires a.createdAt < c.createdAt && b.createdAt < c.createdAt && Plain(a) && Plain(b) && Plain(c)
    ensures IsRun(ws, acts) && |acts| == 7 && !Quiet(ws[7])
    ensures forall k {:trigger acts[k]} :: 0 <= k < 7 ==> !RestartsChain(ws[k], acts[k]) && !Respells(acts[k])
  {
    var ra := Stored(1, Sealed(a, Genesis));
    var rb := Stored(2, Sealed(b, ra.row.hash));
    var rc := Stored(3, Sealed(c, rb.row.hash));
    var idle := FRESH.state;
    var w1, w2 := World([ra], Anchor(0, Genesis), 2, idle, None), World([ra, rb], Anchor(0, Genesis), 3, idle, None);
    var w3 := World([ra, rb, rc], Anchor(0, Genesis), 4, idle, None);
    var w4 := w3.(flight := Some(Started(w3, 3)));
    assert PageRows(w4, 1) == [ra];
    var w5 := w4.(flight := Some(Paged(w4, 1)));
    assert [ra][1..] == [] && FirstBreak([ra], Genesis).None?;
    assert w5.flight.value.cursor == Cursor(1, ra.row.hash) && w5.flight.value.broken.None?;
    assert w5.table[1..] == [rb, rc] && w5.table[1..][1..] == [rc] && Expired([rc], c.createdAt) == 0;
    assert Expired([rb, rc], c.createdAt) == 1 && Expired(w5.table, c.createdAt) == 2;
    var w6 := ExpireFrom(w5, c.createdAt);
    assert w6.table == [rc] && w6.anchor == Anchor(2, rb.row.hash);
    assert PageRows(w6, 1) == [rc];
    var w7 := w6.(flight := Some(Paged(w6, 1)));
    assert ra.row.hash.prev.Genesis? && rb.row.hash.prev.Digest? && !Links(rc.row, ra.row.hash);
    assert w7.flight.value.broken == Some(3);
    ws := [FRESH, w1, w2, w3, w4, w5, w6, w7];
    acts := [Append(a, 0), Append(b, 0), Append(c, 0), Begin(3), Page(1), Expire(c.createdAt), Page(1)];
  }

  /** One entry with an id in another spelling than its column's: the next page notes a break. */
  lemma RespelledIdAlarms(entry: Entry) returns (ws: seq<World>, acts: seq<Action>)
    requires Accepted(entry) && !Canonical(entry)
    ensures IsRun(ws, acts) && |acts| == 3 && !Intact(ws[1]) && !Quiet(ws[3])
  {
    var row := Stored(1, Inserted(entry, Genesis));
    var w1 := World([row], Anchor(0, Genesis), 2, FRESH.state, None);
    var w2 := w1.(flight := Some(Started(w1, 1)));
    assert PageRows(w2, 1) == [row] && !Links(row.row, Genesis);
    var w3 := w2.(flight := Some(Paged(w2, 1)));
    assert RowsOf(w1.table) == [row.row];
    ws := [FRESH, w1, w2, w3];
    acts := [Append(entry, 0), Begin(1), Page(1)];
  }
}
