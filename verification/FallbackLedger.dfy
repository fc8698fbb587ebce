/** The audit ledger as it runs: recording, falling back to SQLite, purging by age, draining. Each method
    is proved to take the steps of FallbackStore that the crash-safety theorems are about. */
module FallbackLedger {
  import opened AuditChain
  import opened FallbackStore
  import opened FallbackSafety

  /** The walk of verify_chain, `_sqlite_verify_chain` and `_fallback_rows_intact`. */
  method WalkChain(rows: seq<Row>, anchor: Hash) returns (intact: bool)
    ensures intact <==> Verifies(rows, anchor)
  {
    var expected, i := anchor, 0;
    while i < |rows|
      invariant i <= |rows|
      invariant expected == Expected(rows, anchor, i)
      invariant Verifies(rows, anchor) <==> Verifies(rows[i..], expected)
    {
      if rows[i].prev != expected || Digest(rows[i].entry, rows[i].prev) != rows[i].hash {
        return false;
      }
      assert rows[i..][1..] == rows[i + 1..];
      expected := rows[i].hash;
      i := i + 1;
    }
    intact := true;
  }

  class Ledger {
    var pg: seq<Row>
    var lite: seq<LiteRow>
    var anchor: Hash
    var drained: nat
    var purged: nat
    var nextId: nat
    const capacity: nat
    ghost var drain: Drain
    ghost var verdict: bool
    ghost var log: seq<LiteRow>
    ghost var fates: seq<Fate>
    ghost var sent: seq<nat>

    ghost function View(): Stores
      reads this
    {
      Stores(pg, lite, anchor, drained, purged, nextId, capacity, drain, verdict, Ready, log, fates, sent)
    }

    ghost function Side(): SqliteSide
      reads this
    {
      SideOf(View())
    }

    constructor (capacity: nat)
      ensures Init(View()) && View().capacity == capacity
    {
      this.capacity := capacity;
      pg, lite, anchor, drained, purged, nextId := [], [], Genesis, 0, 0, 0;
      drain, verdict, log, fates, sent := Idle, true, [], [], [];
    }

    /** record(): Postgres when it answers and takes the row, else the end of the SQLite chain, else (full)
        the row is lost. */
    method RecordEntry(entry: Entry, postgresAnswers: bool) returns (kept: bool)
      modifies this`pg, this`lite, this`nextId, this`log, this`fates
      ensures postgresAnswers && Accepted(entry) ==> View() == Step(old(View()), PgRecord(entry))
      ensures !(postgresAnswers && Accepted(entry)) ==> View() == Step(Step(old(View()), FallBack(entry)), LiteInsert)
      ensures kept <==> (postgresAnswers && Accepted(entry)) || |old(lite)| < capacity
      ensures postgresAnswers && Accepted(entry) ==>
                var head := if old(pg) == [] then Genesis else old(pg)[|old(pg)| - 1].hash;
                var row := pg[|old(pg)|];
                && pg == old(pg) + [row] && row.prev == head && row.hash == Digest(entry, head)
                && row.entry == entry.(tenant := row.entry.tenant, target := row.entry.target)
                && (if entry.tenant.Uuid? then row.entry.tenant == Uuid(entry.tenant.value, entry.tenant.value)
                    else row.entry.tenant == NoId)
                && (if entry.target.Uuid? then row.entry.target == Uuid(entry.target.value, entry.target.value)
                    else row.entry.target == NoId)
      ensures !(postgresAnswers && Accepted(entry)) && kept ==>
                var head := if old(lite) == [] then old(anchor) else old(lite)[|old(lite)| - 1].row.hash;
                lite == old(lite) + [LiteRow(old(nextId), Row(entry, head, Digest(entry, head)))]
    {
      kept := true;
      if postgresAnswers && Accepted(entry) {
        var prev := if pg == [] then Genesis else pg[|pg| - 1].hash;
        pg := pg + [Row(Respelled(entry), prev, Digest(entry, prev))];
      } else {
        var prev := if lite == [] then anchor else lite[|lite| - 1].row.hash;
        if |lite| >= capacity {
          kept := false;
        } else {
          var row := LiteRow(nextId, Row(entry, prev, Digest(entry, prev)));
          lite, nextId := lite + [row], nextId + 1;
          log, fates := log + [row], fates + [Held];
        }
      }
    }

    /** DELETE up to row id `lastId`, and remember `last` as the anchor of what remains. */
    method AdvanceAnchor(lastId: nat, last: Hash, counted: nat, isDrain: bool)
      modifies this`lite, this`anchor, this`drained, this`purged, this`fates
      ensures View() == Advance(old(View()), UpToId(old(lite), lastId), last, counted,
                                if isDrain then Drained else Purged)
    {
      var n := 0;
      while n < |lite| && lite[n].id <= lastId
        invariant n <= |lite|
        invariant UpToId(lite, lastId) == n + UpToId(lite[n..], lastId)
      {
        assert lite[n..][1..] == lite[n + 1..];
        n := n + 1;
      }
      assert lite[n..] == [] || lite[n..][0].id > lastId;
      ghost var next := Advance(View(), n, last, counted, if isDrain then Drained else Purged);
      lite, anchor, fates := lite[n..], last, next.fates;
      if isDrain { drained := drained + counted; } else { purged := purged + counted; }
      assert View() == next;
    }

    /** The rows up to the last one older than `cutoff`. */
    method ExpiredPrefix(cutoff: int) returns (count: nat)
      ensures count <= |lite|
      ensures count > 0 ==> lite[count - 1].row.entry.createdAt < cutoff
      ensures forall i :: count <= i < |lite| ==> lite[i].row.entry.createdAt >= cutoff
    {
      count := |lite|;
      while count > 0 && lite[count - 1].row.entry.createdAt >= cutoff
        invariant count <= |lite|
        invariant forall i :: count <= i < |lite| ==> lite[i].row.entry.createdAt >= cutoff
      {
        count := count - 1;
      }
    }

    /** Purges the prefix that ends with the last row older than `cutoff`: nothing that old stays. */
    method PurgeExpired(cutoff: int) returns (count: nat)
      requires forall n {:trigger lite[n - 1]} :: 0 < n <= |lite| ==> UpToId(lite, lite[n - 1].id) == n
      modifies this`lite, this`anchor, this`drained, this`purged, this`fates
      ensures View() == Step(old(View()), Purge(count)) && count <= |old(lite)|
      ensures count > 0 ==> old(lite)[count - 1].row.entry.createdAt < cutoff
      ensures forall i :: 0 <= i < |lite| ==> lite[i].row.entry.createdAt >= cutoff
    {
      count := ExpiredPrefix(cutoff);
      if count > 0 {
        AdvanceAnchor(lite[count - 1].id, lite[count - 1].row.hash, count, false);
      }
    }

    method IsKnown(row: Row) returns (known: bool)
      ensures known <==> Known(pg, row)
      ensures known <==> exists k :: 0 <= k < |pg| && pg[k].entry.meta.origin.Some?
                                     && pg[k].entry.meta.origin.value.entry == row.hash
                                     && pg[k].entry.category == row.entry.category
                                     && pg[k].entry.createdAt == row.entry.createdAt
    {
      var i := 0;
      while i < |pg|
        invariant i <= |pg|
        invariant forall k :: 0 <= k < i ==> !Recognises(pg[k], row)
      {
        if Recognises(pg[i], row) { return true; }
        i := i + 1;
      }
      known := false;
    }

    /** The append transaction: skip rows already there, relink the others to the moving head. */
    method AppendFallbackRows(rows: seq<LiteRow>, intact: bool)
      requires drain == Batch(rows, intact)
      modifies this`pg, this`sent, this`drain
      ensures View() == Step(old(View()), PgCommit)
      ensures Delivered(old(pg), pg, rows, intact) && StampedFrom(pg, |old(pg)|, intact)
    {
      ghost var before := View();
      RelinkRows(rows, intact, drained + purged);
      drain := Committed(rows);
      CommitDelivers(before);
    }

    /** Its loop; `first` is the log position of the first row. */
    method RelinkRows(rows: seq<LiteRow>, intact: bool, ghost first: nat)
      modifies this`pg, this`sent
      ensures pg == Appended(old(pg), rows, intact)
      ensures sent == old(sent) + NewlySent(old(pg), rows, intact, first)
    {
      var prev := if pg == [] then Genesis else pg[|pg| - 1].hash;
      var i := 0;
      while i < |rows|
        invariant i <= |rows| && prev == Head(pg, Genesis)
        invariant Appended(old(pg), rows, intact) == Appended(pg, rows[i..], intact)
        invariant old(sent) + NewlySent(old(pg), rows, intact, first)
                  == sent + NewlySent(pg, rows[i..], intact, first + i)
      {
        assert rows[i..][1..] == rows[i + 1..] && rows[i..][0] == rows[i];
        OneRow(pg, sent, rows[i..], intact, first + i);
        var known := IsKnown(rows[i].row);
        if !known {
          var entry := Relinked(rows[i].row, intact);
          pg := pg + [Row(entry, prev, Digest(entry, prev))];
          sent := sent + [first + i];
          prev := Digest(entry, prev);
        }
        i := i + 1;
      }
      assert rows[i..] == [] && sent + [] == sent;
    }

    /** Deletes the appended batch, up to its last id, from SQLite. */
    method SqliteRelease(rows: seq<LiteRow>) returns (remaining: nat)
      requires rows != [] && drain == Committed(rows)
      modifies this`lite, this`anchor, this`drained, this`purged, this`fates, this`drain
      ensures View() == Step(old(View()), LiteRelease) && remaining == |lite|
    {
      AdvanceAnchor(rows[|rows| - 1].id, rows[|rows| - 1].row.hash, |rows|, true);
      drain := Idle;
      remaining := |lite|;
    }

    /** Reads the oldest rows and walks them; `still` is the verdict so far with this walk's. */
    method ReadOldest(batch: nat, intact: bool) returns (rows: seq<LiteRow>, still: bool)
      requires intact == verdict && batch > 0 && lite != []
      modifies this`drain, this`verdict
      ensures View() == Step(old(View()), ReadBatch(batch)) && drain == Batch(rows, still) && verdict == still
      ensures rows == lite[..Smaller(batch, |lite|)] && (still <==> intact && Verifies(RowsOf(rows), anchor))
    {
      rows := lite[..if batch < |lite| then batch else |lite|];
      var verified := WalkChain(RowsOf(rows), anchor);
      still := verified && intact;
      drain, verdict := Batch(rows, still), still;
    }

    /** One turn of the drain loop: read a batch, check it, append it, delete it. */
    method DrainBatch(batch: nat, intact: bool) returns (size: nat, still: bool, remaining: nat)
      requires drain.Idle? && intact == verdict && batch > 0 && lite != []
      modifies this
      ensures TakesTurn(old(View()), View(), batch)
      ensures size == Smaller(batch, |old(lite)|) && drained == old(drained) + size
      ensures still == verdict && drain.Idle? && remaining == |lite|
      ensures Delivered(old(pg), pg, old(lite)[..size], still)
    {
      var rows;
      rows, still := ReadOldest(batch, intact);
      size := |rows|;
      AppendFallbackRows(rows, still);
      remaining := SqliteRelease(rows);
    }

    /** drain_fallback when nothing interrupts it: it moves every row that fits in its batches, oldest
        first; its verdict is that of one walk over all it moved, and when that holds, Postgres ends as
        after one append of them all. On stores that an honest run reached, all the run's guarantees hold
        after it. */
    method DrainFallback(batch: nat, maxBatches: nat) returns (moved: nat, intact: bool, remaining: nat)
      requires drain.Idle? && batch > 0 && IdsGrow(lite)
      modifies this
      ensures moved == Moved(|old(lite)|, batch, maxBatches) && drain.Idle? && remaining == |lite|
      ensures OnlyDrained(old(Side()), Side(), moved)
      ensures intact <==> Verifies(RowsOf(old(lite)[..moved]), old(anchor))
      ensures intact ==> pg == Appended(old(pg), old(lite)[..moved], true)
      ensures DeliveredInBatches(old(pg), pg, old(Side()), moved, batch, true)
      ensures old(Inv(View())) ==> Inv(View())
    {
      ghost var s0 := View();
      verdict := true;
      assert View() == Step(s0, StartDrain);
      ghost var trail;
      moved, intact, remaining, trail := DrainLoop(batch, maxBatches);
      TurnsDrain(trail, 0, batch, maxBatches);
      TurnsDeliver(trail, 0, batch, maxBatches);
      DrainKeeps(s0, trail, batch);
    }

    /** The loop, and the stores between its turns. */
    method DrainLoop(batch: nat, maxBatches: nat)
      returns (moved: nat, intact: bool, remaining: nat, ghost trail: seq<Stores>)
      requires drain.Idle? && verdict && batch > 0
      modifies this
      ensures Turns(trail, batch) && 0 < |trail| <= maxBatches + 1 && trail[0] == old(View())
          && trail[|trail| - 1] == View()
      ensures lite == [] || |trail| == maxBatches + 1
      ensures intact == verdict && drained == old(drained) + moved && drain.Idle? && remaining == |lite|
    {
      moved, intact, remaining := 0, true, |lite|;
      trail := [View()];
      var n := 0;
      while n < maxBatches && lite != []
        invariant n <= maxBatches && |trail| == n + 1
        invariant Turns(trail, batch) && trail[0] == old(View()) && trail[n] == View()
        invariant intact == verdict && drained == old(drained) + moved && drain.Idle? && remaining == |lite|
        decreases maxBatches - n
      {
        var size;
        size, intact, remaining := DrainBatch(batch, intact);
        moved, n := moved + size, n + 1;
        OneMoreTurn(trail, View(), batch);
        trail := trail + [View()];
      }
    }
  }

  /** One row of the append loop: skipped when known, else linked to the head and noted as sent. */
  lemma OneRow(pg: seq<Row>, sent: seq<nat>, rows: seq<LiteRow>, intact: bool, first: nat)
    requires rows != []
    ensures var known := Known(pg, rows[0].row);
            var pg' := if known then pg else pg + [Sealed(Relinked(rows[0].row, intact), Head(pg, Genesis))];
            var sent' := if known then sent else sent + [first];
            && Appended(pg, rows, intact) == Appended(pg', rows[1..], intact)
            && sent + NewlySent(pg, rows, intact, first) == sent' + NewlySent(pg', rows[1..], intact, first + 1)
  {
    if !Known(pg, rows[0].row) {
      var longer := pg + [Sealed(Relinked(rows[0].row, intact), Head(pg, Genesis))];
      var more := NewlySent(longer, rows[1..], intact, first + 1);
      assert sent + ([first] + more) == (sent + [first]) + more;
    }
  }

  // ---- Turns of the loop ----

  /** Each store follows from the one before by one turn. */
  ghost predicate Turns(trail: seq<Stores>, batch: nat) {
    forall k :: 0 <= k < |trail| - 1 ==> TurnAt(trail, k, batch)
  }

  ghost predicate TurnAt(trail: seq<Stores>, k: nat, batch: nat)
    requires k < |trail| - 1
  {
    TakesTurn(trail[k], trail[k + 1], batch)
  }

  ghost predicate TakesTurn(s: Stores, t: Stores, batch: nat) {
    s.drain.Idle? && s.lite != [] && t == Step(Step(Step(s, ReadBatch(batch)), PgCommit), LiteRelease)
  }

  lemma OneMoreTurn(trail: seq<Stores>, t: Stores, batch: nat)
    requires trail != [] && Turns(trail, batch) && TakesTurn(trail[|trail| - 1], t, batch)
    ensures Turns(trail + [t], batch)
  {
    forall k | 0 <= k < |trail| ensures TurnAt(trail + [t], k, batch) {
      assert k < |trail| - 1 ==> TurnAt(trail, k, batch);
    }
  }

  /** Turn after turn keeps the invariant of honest runs. */
  lemma {:induction false} TurnsKeep(trail: seq<Stores>, batch: nat, n: nat)
    requires batch > 0 && n < |trail| && Turns(trail, batch) && Inv(trail[0])
    ensures Inv(trail[n])
    decreases n
  {
    if n > 0 {
      TurnsKeep(trail, batch, n - 1);
      OneTurnKeeps(trail, n - 1, batch);
    }
  }

  lemma OneTurnKeeps(trail: seq<Stores>, k: nat, batch: nat)
    requires batch > 0 && k < |trail| - 1 && Turns(trail, batch) && Inv(trail[k])
    ensures Inv(trail[k + 1])
  {
    assert TurnAt(trail, k, batch);
    TurnMoves(trail[k], batch);
  }

  lemma DrainKeeps(s: Stores, trail: seq<Stores>, batch: nat)
    requires batch > 0 && s.drain.Idle? && trail != [] && trail[0] == Step(s, StartDrain) && Turns(trail, batch)
    ensures Inv(s) ==> Inv(trail[|trail| - 1])
  {
    if Inv(s) {
      StepKeeps(s, StartDrain);
      TurnsKeep(trail, batch, |trail| - 1);
    }
  }

  function SideOf(s: Stores): SqliteSide {
    SqliteSide(s.lite, s.anchor, s.drained, s.purged)
  }

  /** From `s` to `t` a drain moved the first `moved` rows: one walk's verdict on all of them, and while
      that holds, one append's result. */
  ghost predicate DrainDone(s: Stores, t: Stores, moved: nat) {
    && OnlyDrained(SideOf(s), SideOf(t), moved)
    && (t.verdict <==> s.verdict && Verifies(RowsOf(s.lite[..moved]), s.anchor))
    && (t.verdict ==> t.pg == Appended(s.pg, s.lite[..moved], true))
  }

  lemma NothingDrained(s: Stores)
    ensures DrainDone(s, s, 0)
  {
    assert s.lite[..0] == [] && s.lite[0..] == s.lite;
  }

  lemma DrainsJoin(s: Stores, t: Stores, u: Stores, m: nat, n: nat)
    requires DrainDone(s, t, m) && DrainDone(t, u, n)
    ensures DrainDone(s, u, m + n)
  {
    DrainedTwice(SideOf(s), SideOf(t), SideOf(u), m, n);
    BatchesJoin(SideOf(s), SideOf(t), m, n);
    AppendedConcat(s.pg, s.lite[..m], t.lite[..n], true);
  }

  /** One turn moves one batch, and appends it with the verdict so far, its own walk included. */
  lemma TurnDone(s: Stores, t: Stores, batch: nat)
    requires batch > 0 && IdsGrow(s.lite) && TakesTurn(s, t, batch)
    ensures DrainDone(s, t, Smaller(batch, |s.lite|)) && IdsGrow(t.lite)
    ensures t.pg == Appended(s.pg, s.lite[..Smaller(batch, |s.lite|)], t.verdict)
    ensures Delivered(s.pg, t.pg, s.lite[..Smaller(batch, |s.lite|)], t.verdict)
  {
    var rows := s.lite[..Smaller(batch, |s.lite|)];
    CommitDelivers(Step(s, ReadBatch(batch)));
    BatchSteps(Step(s, ReadBatch(batch)), rows, Verifies(RowsOf(rows), s.anchor) && s.verdict);
  }

  /** What the two later steps of a batch leave. */
  lemma BatchSteps(s: Stores, rows: seq<LiteRow>, intact: bool)
    requires s.drain == Batch(rows, intact) && rows != [] && |rows| <= |s.lite| && rows == s.lite[..|rows|]
        && IdsGrow(s.lite)
    ensures var t := Step(Step(s, PgCommit), LiteRelease);
            && t.pg == Appended(s.pg, rows, intact) && t.drain.Idle? && t.verdict == s.verdict && IdsGrow(t.lite)
            && OnlyDrained(SideOf(s), SideOf(t), |rows|)
  {
    IdsOfPrefix(s.lite, |rows|);
    assert LastId(rows) == s.lite[|rows| - 1].id;
  }

  lemma OneTurn(trail: seq<Stores>, k: nat, batch: nat)
    requires batch > 0 && k < |trail| - 1 && Turns(trail, batch) && IdsGrow(trail[k].lite)
    ensures trail[k].lite != [] && IdsGrow(trail[k + 1].lite)
    ensures DrainDone(trail[k], trail[k + 1], Smaller(batch, |trail[k].lite|))
    ensures Delivered(trail[k].pg, trail[k + 1].pg, trail[k].lite[..Smaller(batch, |trail[k].lite|)],
                      trail[k + 1].verdict)
  {
    assert TurnAt(trail, k, batch);
    TurnDone(trail[k], trail[k + 1], batch);
  }

  /** The turns from `k` on, with `n` batches allowed, move what fits in them. */
  lemma {:induction false} TurnsDrain(trail: seq<Stores>, k: nat, batch: nat, n: nat)
    requires batch > 0 && k < |trail| <= k + n + 1 && Turns(trail, batch) && IdsGrow(trail[k].lite)
    requires trail[|trail| - 1].lite == [] || |trail| == k + n + 1
    ensures DrainDone(trail[k], trail[|trail| - 1], Moved(|trail[k].lite|, batch, n))
    decreases n
  {
    var s, last := trail[k], trail[|trail| - 1];
    if k == |trail| - 1 {
      NothingDrained(s);
    } else {
      var t := trail[k + 1];
      OneTurn(trail, k, batch);
      TurnsDrain(trail, k + 1, batch, n - 1);
      TurnThenRest(s, t, last, batch, n);
    }
  }

  lemma TurnThenRest(s: Stores, t: Stores, last: Stores, batch: nat, n: nat)
    requires n > 0 && s.lite != [] && DrainDone(s, t, Smaller(batch, |s.lite|))
    requires DrainDone(t, last, Moved(|t.lite|, batch, n - 1))
    ensures DrainDone(s, last, Moved(|s.lite|, batch, n))
  {
    DrainsJoin(s, t, last, Smaller(batch, |s.lite|), Moved(|t.lite|, batch, n - 1));
    assert |t.lite| == |s.lite| - Smaller(batch, |s.lite|);
  }

  // ---- The stamp on every row a drain moves ----

  /** Where the batch that holds row `i` of `total` ends. */
  function BatchEnd(i: nat, batch: nat, total: nat): (end: nat)
    requires i < total && batch > 0
    ensures i < end <= total
    decreases i
  {
    if total <= batch then total
    else if i < batch then batch
    else batch + BatchEnd(i - batch, batch, total - batch)
  }

  /** It is the first multiple of `batch` above `i`, or the last row's end. */
  lemma {:induction false} BatchEndIs(i: nat, batch: nat, total: nat, q: nat)
    requires batch > 0 && q * batch <= i < total && i < (q + 1) * batch
    ensures BatchEnd(i, batch, total) == Smaller((q + 1) * batch, total)
    decreases q
  {
    assert (q + 1) * batch == q * batch + batch;
    if q > 0 {
      assert q * batch == (q - 1) * batch + batch && (q - 1) * batch >= 0;
      if batch < total {
        BatchEndIs(i - batch, batch, total - batch, q - 1);
      }
    }
  }

  /** Nothing was lost from Postgres, every moved row is in it, and every new row is the first copy of a
      moved one, stamped with the verdict on all rows up to the end of that one's batch. */
  ghost predicate DeliveredInBatches(
    before: seq<Row>, after: seq<Row>, side: SqliteSide, moved: nat, batch: nat, verdict: bool)
    requires moved <= |side.lite| && batch > 0
  {
    && before <= after
    && (forall k :: |before| <= k < |after| ==> StampedOneOf(after, k, side, moved, batch, verdict))
    && (forall i :: 0 <= i < moved ==> Known(after, side.lite[i].row))
  }

  ghost predicate StampedOneOf(after: seq<Row>, k: nat, side: SqliteSide, moved: nat, batch: nat, verdict: bool)
    requires k < |after| && moved <= |side.lite| && batch > 0
  {
    exists i :: 0 <= i < moved && StampedCopy(after, k, side, i, batch, verdict)
  }

  ghost predicate StampedCopy(after: seq<Row>, k: nat, side: SqliteSide, i: nat, batch: nat, verdict: bool)
    requires k < |after| && i < |side.lite| && batch > 0
  {
    FirstCopy(after, k, side.lite[i].row, verdict && IntactUpTo(side, BatchEnd(i, batch, |side.lite|)))
  }

  predicate IntactUpTo(side: SqliteSide, n: nat)
    requires n <= |side.lite|
  {
    Verifies(RowsOf(side.lite[..n]), side.anchor)
  }

  /** Row `i` of what a batch left is row `m + i` of what it started from, with the same stamp. */
  lemma StampLater(s: SqliteSide, t: SqliteSide, after: seq<Row>, m: nat, batch: nat, k: nat, i: nat, verdict: bool)
    requires batch > 0 && m == Smaller(batch, |s.lite|) && OnlyDrained(s, t, m) && i < |t.lite| && k < |after|
    requires StampedCopy(after, k, t, i, batch, verdict && IntactUpTo(s, m))
    ensures StampedCopy(after, k, s, m + i, batch, verdict)
  {
    assert t.lite[i] == s.lite[m + i];
    var n := BatchEnd(i, batch, |t.lite|);
    assert BatchEnd(m + i, batch, |s.lite|) == m + n;
    BatchesJoin(s, t, m, n);
  }

  /** What one batch appends carries the verdict up to its end. */
  lemma StampNow(s: SqliteSide, pg: seq<Row>, after: seq<Row>, m: nat, batch: nat, k: nat, verdict: bool)
    requires batch > 0 && m == Smaller(batch, |s.lite|) && k < |pg| && pg <= after
    requires CopiesOneOf(pg, k, s.lite[..m], verdict && IntactUpTo(s, m))
    ensures StampedOneOf(after, k, s, m, batch, verdict)
  {
    var i :| 0 <= i < m && FirstCopy(pg, k, s.lite[..m][i].row, verdict && IntactUpTo(s, m));
    assert after[..k] == pg[..k];
    assert StampedCopy(after, k, s, i, batch, verdict);
  }

  lemma RestStamped(s: SqliteSide, t: SqliteSide, after: seq<Row>, m: nat, batch: nat, k: nat, moved: nat,
      verdict: bool)
    requires batch > 0 && m == Smaller(batch, |s.lite|) && OnlyDrained(s, t, m) && moved <= |t.lite| && k < |after|
    requires StampedOneOf(after, k, t, moved, batch, verdict && IntactUpTo(s, m))
    ensures StampedOneOf(after, k, s, m + moved, batch, verdict)
  {
    var i :| 0 <= i < moved && StampedCopy(after, k, t, i, batch, verdict && IntactUpTo(s, m));
    StampLater(s, t, after, m, batch, k, i, verdict);
  }

  /** One batch, then the rest. */
  lemma BatchThenRest(s: SqliteSide, t: SqliteSide, pg: seq<Row>, pg': seq<Row>, after: seq<Row>, m: nat, batch: nat,
      moved: nat, verdict: bool)
    requires batch > 0 && m == Smaller(batch, |s.lite|) && OnlyDrained(s, t, m) && moved <= |t.lite|
    requires Delivered(pg, pg', s.lite[..m], verdict && IntactUpTo(s, m))
    requires DeliveredInBatches(pg', after, t, moved, batch, verdict && IntactUpTo(s, m))
    ensures DeliveredInBatches(pg, after, s, m + moved, batch, verdict)
  {
    var total := m + moved;
    forall i | 0 <= i < total ensures Known(after, s.lite[i].row) {
      if i < m {
        assert s.lite[..m][i] == s.lite[i];
        KnownStays(pg', after, s.lite[i].row);
      } else {
        assert t.lite[i - m] == s.lite[i];
      }
    }
    forall k | |pg| <= k < |after| ensures StampedOneOf(after, k, s, total, batch, verdict) {
      if k < |pg'| {
        StampNow(s, pg', after, m, batch, k, verdict);
        var i :| 0 <= i < m && StampedCopy(after, k, s, i, batch, verdict);
        assert i < total;
      } else {
        RestStamped(s, t, after, m, batch, k, moved, verdict);
      }
    }
  }

  /** The turns from `k` on stamp every row they move with the verdict up to the end of its batch. */
  lemma {:induction false} TurnsDeliver(trail: seq<Stores>, k: nat, batch: nat, n: nat)
    requires batch > 0 && k < |trail| <= k + n + 1 && Turns(trail, batch) && IdsGrow(trail[k].lite)
    requires trail[|trail| - 1].lite == [] || |trail| == k + n + 1
    ensures DeliveredInBatches(trail[k].pg, trail[|trail| - 1].pg, SideOf(trail[k]), Moved(|trail[k].lite|, batch, n),
                               batch, trail[k].verdict)
    decreases n
  {
    var s, last := trail[k], trail[|trail| - 1];
    if k < |trail| - 1 {
      var t := trail[k + 1];
      OneTurn(trail, k, batch);
      TurnsDeliver(trail, k + 1, batch, n - 1);
      BatchThenRest(SideOf(s), SideOf(t), s.pg, t.pg, last.pg, Smaller(batch, |s.lite|), batch,
                    Moved(|t.lite|, batch, n - 1), s.verdict);
    }
  }

  /** How many of `total` rows `n` batches take. */
  function Moved(total: nat, batch: nat, n: nat): (r: nat)
    ensures r <= total
  {
    if n == 0 || total == 0 then 0
    else if batch < total then batch + Moved(total - batch, batch, n - 1)
    else total
  }

  /** It is the smaller of the row count and the capacity of the batches. */
  lemma {:induction false} MovedIsMin(total: nat, batch: nat, n: nat)
    ensures Moved(total, batch, n) == Smaller(batch * n, total)
    decreases n
  {
    if n > 0 {
      assert batch * n == batch * (n - 1) + batch;
      if batch < total {
        MovedIsMin(total - batch, batch, n - 1);
      } else {
        assert batch * (n - 1) >= 0;
      }
    }
  }

  /** The SQLite side as a drain sees it. */
  datatype SqliteSide = SqliteSide(lite: seq<LiteRow>, anchor: Hash, drained: nat, purged: nat)

  /** `ORDER BY id` */
  ghost predicate IdsGrow(rows: seq<LiteRow>) {
    forall i, j :: 0 <= i < j < |rows| ==> rows[i].id < rows[j].id
  }

  /** The first `n` rows are gone, every one to the drain, and the anchor is the last of them. */
  ghost predicate OnlyDrained(s: SqliteSide, t: SqliteSide, n: nat) {
    && n <= |s.lite| && t.lite == s.lite[n..] && t.drained == s.drained + n && t.purged == s.purged
    && t.anchor == LiteHead(s.lite[..n], s.anchor)
  }

  lemma {:induction false} IdsOfPrefix(rows: seq<LiteRow>, n: nat)
    requires IdsGrow(rows) && 0 < n <= |rows|
    ensures UpToId(rows, rows[n - 1].id) == n
  {
    if n == 1 {
      assert |rows| > 1 ==> rows[1..][0].id > rows[0].id;
    } else {
      assert rows[1..][n - 2] == rows[n - 1];
      IdsOfPrefix(rows[1..], n - 1);
    }
  }

  lemma DrainedTwice(s: SqliteSide, t: SqliteSide, u: SqliteSide, m: nat, n: nat)
    requires OnlyDrained(s, t, m) && OnlyDrained(t, u, n)
    ensures OnlyDrained(s, u, m + n)
  {
    assert s.lite[m..][n..] == s.lite[m + n..];
    assert n > 0 ==> s.lite[m..][n - 1] == s.lite[m + n - 1];
  }

  /** Walking batch after batch, each from the last hash of the one before, is walking them all. */
  lemma BatchesJoin(s: SqliteSide, t: SqliteSide, m: nat, n: nat)
    requires OnlyDrained(s, t, m) && n <= |t.lite|
    ensures s.lite[..m + n] == s.lite[..m] + t.lite[..n]
    ensures Verifies(RowsOf(s.lite[..m + n]), s.anchor)
            <==> Verifies(RowsOf(s.lite[..m]), s.anchor) && Verifies(RowsOf(t.lite[..n]), t.anchor)
  {
    var a, b := RowsOf(s.lite[..m]), RowsOf(t.lite[..n]);
    assert s.lite[..m + n] == s.lite[..m] + t.lite[..n];
    assert RowsOf(s.lite[..m + n]) == a + b;
    VerifiesConcat(a, b, s.anchor);
  }

  lemma {:induction false} AppendedConcat(pg: seq<Row>, a: seq<LiteRow>, b: seq<LiteRow>, intact: bool)
    ensures Appended(pg, a + b, intact) == Appended(Appended(pg, a, intact), b, intact)
    decreases |a|
  {
    if a == [] {
      assert a + b == b;
    } else {
      assert (a + b)[1..] == a[1..] + b;
      var next := if Known(pg, a[0].row) then pg else pg + [Sealed(Relinked(a[0].row, intact), Head(pg, Genesis))];
      AppendedConcat(next, a[1..], b, intact);
    }
  }

  // ---- What an uninterrupted drain achieves ----

  lemma TurnReads(s: Stores, batch: nat)
    requires Inv(s) && s.drain.Idle? && batch > 0 && s.lite != []
    ensures Inv(Step(s, ReadBatch(batch)))
    ensures Step(s, ReadBatch(batch)) == s.(drain := Batch(s.lite[..Smaller(batch, |s.lite|)], true), verdict := true)
    ensures Verifies(RowsOf(s.lite[..Smaller(batch, |s.lite|)]), s.anchor)
  {
    PrefixVerifies(s, Smaller(batch, |s.lite|));
    StepKeeps(s, ReadBatch(batch));
  }

  lemma TurnReleases(s: Stores, rows: seq<LiteRow>)
    requires Inv(s) && s.drain == Committed(rows)
    ensures Inv(Step(s, LiteRelease))
    ensures var t := Step(s, LiteRelease);
            && t.drain.Idle? && 0 < |rows| <= |s.lite| && t.lite == s.lite[|rows|..] && t.log == s.log
            && t.drained == s.drained + |rows| && t.purged == s.purged
  {
    BatchById(s.log, s.nextId, Released(s), s.lite, rows);
    StepKeeps(s, LiteRelease);
  }

  /** One turn of an uninterrupted drain on stores that an honest run reached: its batch verifies, and all
      the run's guarantees hold after it. */
  lemma TurnMoves(s: Stores, batch: nat)
    requires Inv(s) && s.drain.Idle? && batch > 0 && s.lite != []
    ensures var n := Smaller(batch, |s.lite|);
            var t := Step(Step(Step(s, ReadBatch(batch)), PgCommit), LiteRelease);
            && Inv(t) && t.drain.Idle? && t.lite == s.lite[n..] && t.log == s.log && t.drained == s.drained + n
            && Verifies(RowsOf(s.lite[..n]), s.anchor)
  {
    var rows := s.lite[..Smaller(batch, |s.lite|)];
    TurnReads(s, batch);
    var read := Step(s, ReadBatch(batch));
    StepKeeps(read, PgCommit);
    var committed := Step(read, PgCommit);
    assert committed.drain == Committed(rows);
    TurnReleases(committed, rows);
  }
}
