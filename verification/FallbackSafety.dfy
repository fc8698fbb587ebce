/** The drain is exactly-once, in order, and conserves every row, whatever interleaving and crashes. */
module FallbackSafety {
  import opened Options
  import opened AuditChain
  import opened FallbackStore

  // ---- What is in the stores ----

  /** The Postgres rows that came from the fallback store. */
  function DrainedRows(pg: seq<Row>): seq<Row> {
    if pg == [] then []
    else
      var last := pg[|pg| - 1];
      DrainedRows(pg[..|pg| - 1]) + if last.entry.meta.origin.Some? then [last] else []
  }

  function Count(fates: seq<Fate>, fate: Fate): nat {
    if fates == [] then 0
    else Count(fates[..|fates| - 1], fate) + if fates[|fates| - 1] == fate then 1 else 0
  }

  ghost predicate Increasing(ks: seq<nat>) {
    forall i, j :: 0 <= i < j < |ks| ==> ks[i] < ks[j]
  }

  /** Every row ever inserted, as one chain from genesis, numbered as SQLite's AUTOINCREMENT does. */
  ghost predicate LogOk(log: seq<LiteRow>, nextId: nat) {
    && Verifies(RowsOf(log), Genesis)
    && nextId == |log|
    && (forall i :: 0 <= i < |log| ==> log[i].id == i && log[i].row.entry.meta.origin.None?)
  }

  /** The k-th fallback row in Postgres is log row `sent[k]`, relinked, content intact. */
  ghost predicate PgOk(log: seq<LiteRow>, pg: seq<Row>, sent: seq<nat>) {
    && |DrainedRows(pg)| == |sent|
    && Increasing(sent)
    && forall k :: 0 <= k < |sent| ==> sent[k] < |log| && DrainedRows(pg)[k].entry == Relinked(log[sent[k]].row, true)
  }

  /** From `first` on, the appended rows have no gap before them. */
  ghost predicate NoGap(sent: seq<nat>, first: nat) {
    forall i, j :: first <= j <= i && i in sent ==> j in sent
  }

  /** SQLite holds the rest of the log, and the anchor is the hash before it. */
  ghost predicate LiteOk(log: seq<LiteRow>, gone: nat, lite: seq<LiteRow>, anchor: Hash) {
    gone <= |log| && lite == log[gone..] && anchor == LiteHead(log[..gone], Genesis)
  }

  /** The rows before `gone` left, the others are held; a row that left by draining was appended. */
  ghost predicate FatesOk(fates: seq<Fate>, gone: nat, sent: seq<nat>, drained: nat, purged: nat) {
    && (forall i :: 0 <= i < |fates| ==> (fates[i] == Held <==> gone <= i))
    && (forall i :: 0 <= i < |fates| && fates[i] == Drained ==> i in sent)
    && Count(fates, Drained) == drained
    && Count(fates, Purged) == purged
  }

  ghost predicate BatchOk(lite: seq<LiteRow>, rows: seq<LiteRow>) {
    0 < |rows| <= |lite| && rows == lite[..|rows|]
  }

  ghost predicate AllSent(sent: seq<nat>, first: nat, n: nat) {
    forall i :: first <= i < first + n ==> i in sent
  }

  ghost predicate DrainOk(drain: Drain, lite: seq<LiteRow>, gone: nat, sent: seq<nat>) {
    match drain
    case Idle => true
    case Batch(rows, intact) => BatchOk(lite, rows) && intact
    case Committed(rows) => BatchOk(lite, rows) && AllSent(sent, gone, |rows|)
  }

  ghost predicate WriterOk(writer: Writer, head: Hash) {
    writer.Writing? ==> writer.prev == head && writer.entry.meta.origin.None?
  }

  ghost predicate ChainsOk(
    log: seq<LiteRow>, nextId: nat, gone: nat, lite: seq<LiteRow>, anchor: Hash, pg: seq<Row>, sent: seq<nat>)
  {
    && LogOk(log, nextId)
    && LiteOk(log, gone, lite, anchor)
    && PgOk(log, pg, sent)
    && NoGap(sent, gone)
  }

  ghost predicate BooksOk(s: Stores) {
    && |s.fates| == |s.log|
    && FatesOk(s.fates, Released(s), s.sent, s.drained, s.purged)
    && DrainOk(s.drain, s.lite, Released(s), s.sent) && s.verdict
    && WriterOk(s.writer, LiteHead(s.lite, s.anchor))
  }

  ghost predicate Inv(s: Stores) {
    && ChainsOk(s.log, s.nextId, Released(s), s.lite, s.anchor, s.pg, s.sent)
    && BooksOk(s)
  }

  // ---- Small facts ----

  lemma RowsOfConcat(a: seq<LiteRow>, b: seq<LiteRow>)
    ensures RowsOf(a + b) == RowsOf(a) + RowsOf(b)
  {
  }

  lemma LiteHeadIsHead(rows: seq<LiteRow>, anchor: Hash)
    ensures LiteHead(rows, anchor) == Head(RowsOf(rows), anchor)
  {
  }

  /** Any stretch of the log verifies from the hash before it. */
  lemma StretchVerifies(log: seq<LiteRow>, i: nat, j: nat)
    requires Verifies(RowsOf(log), Genesis) && i <= j <= |log|
    ensures Verifies(RowsOf(log[i..j]), LiteHead(log[..i], Genesis))
  {
    var a, b, c := log[..i], log[i..j], log[j..];
    assert log == (a + b) + c;
    RowsOfConcat(a + b, c);
    RowsOfConcat(a, b);
    VerifiesConcat(RowsOf(a + b), RowsOf(c), Genesis);
    VerifiesConcat(RowsOf(a), RowsOf(b), Genesis);
    LiteHeadIsHead(a, Genesis);
  }

  lemma {:induction false} DrainedRowsHold(pg: seq<Row>, row: Row)
    ensures row in DrainedRows(pg) <==> row in pg && row.entry.meta.origin.Some?
  {
    if pg != [] {
      var n := |pg| - 1;
      DrainedRowsHold(pg[..n], row);
      assert pg == pg[..n] + [pg[n]];
    }
  }

  lemma DrainedRowsAppend(pg: seq<Row>, row: Row)
    ensures DrainedRows(pg + [row]) == DrainedRows(pg) + if row.entry.meta.origin.Some? then [row] else []
  {
    assert (pg + [row])[..|pg|] == pg;
  }

  /** The lookup recognises a fallback row exactly when it was already appended. */
  lemma KnownExactly(log: seq<LiteRow>, pg: seq<Row>, sent: seq<nat>, i: nat)
    requires PgOk(log, pg, sent) && Verifies(RowsOf(log), Genesis) && i < |log|
    ensures Known(pg, log[i].row) <==> i in sent
  {
    var drained := DrainedRows(pg);
    if i in sent {
      var k :| 0 <= k < |sent| && sent[k] == i;
      DrainedRowsHold(pg, drained[k]);
      var m :| 0 <= m < |pg| && pg[m] == drained[k];
      assert Recognises(pg[m], log[i].row);
    }
    if Known(pg, log[i].row) {
      var m :| 0 <= m < |pg| && Recognises(pg[m], log[i].row);
      DrainedRowsHold(pg, pg[m]);
      var k :| 0 <= k < |drained| && drained[k] == pg[m];
      assert drained[k].entry == Relinked(log[sent[k]].row, true);
      HashesDistinct(RowsOf(log), Genesis, i, sent[k]);
    }
  }

  // ---- The Postgres commit ----

  /** Appending one row that is not known yet. */
  lemma AppendOne(log: seq<LiteRow>, pg: seq<Row>, sent: seq<nat>, first: nat)
    requires PgOk(log, pg, sent) && NoGap(sent, first) && first < |log| && first !in sent
    ensures PgOk(log, pg + [Sealed(Relinked(log[first].row, true), Head(pg, Genesis))], sent + [first])
    ensures NoGap(sent + [first], first + 1)
  {
    var row := Sealed(Relinked(log[first].row, true), Head(pg, Genesis));
    DrainedRowsAppend(pg, row);
    forall k | 0 <= k < |sent| ensures sent[k] < first {
      assert sent[k] in sent;
    }
    assert NoGap(sent + [first], first + 1);
  }

  /** The batch loop: each row of the stretch ends up appended exactly once, in order. */
  lemma {:induction false} CommitBatch(log: seq<LiteRow>, pg: seq<Row>, sent: seq<nat>, rows: seq<LiteRow>, first: nat)
    requires Verifies(RowsOf(log), Genesis)
    requires PgOk(log, pg, sent) && NoGap(sent, first)
    requires first + |rows| <= |log| && rows == log[first..first + |rows|]
    ensures var sent' := sent + NewlySent(pg, rows, true, first);
            && PgOk(log, Appended(pg, rows, true), sent')
            && NoGap(sent', first)
            && AllSent(sent', first, |rows|)
            && (forall i :: i in NewlySent(pg, rows, true, first) ==> first <= i)
    decreases |rows|
  {
    if rows != [] {
      assert rows[0] == log[first];
      assert rows[1..] == log[first + 1..first + 1 + |rows[1..]|];
      KnownExactly(log, pg, sent, first);
      if first in sent {
        CommitBatch(log, pg, sent, rows[1..], first + 1);
      } else {
        AppendOne(log, pg, sent, first);
        var pg' := pg + [Sealed(Relinked(log[first].row, true), Head(pg, Genesis))];
        CommitBatch(log, pg', sent + [first], rows[1..], first + 1);
        assert sent + NewlySent(pg, rows, true, first) == sent + [first] + NewlySent(pg', rows[1..], true, first + 1);
      }
    } else {
      assert sent + NewlySent(pg, rows, true, first) == sent;
    }
  }

  lemma CommitKeeps(s: Stores)
    requires Inv(s)
    ensures Inv(Step(s, PgCommit))
  {
    if s.drain.Batch? {
      var n := |s.drain.rows|;
      assert s.lite[..n] == s.log[Released(s)..Released(s) + n];
      CommitBatch(s.log, s.pg, s.sent, s.drain.rows, Released(s));
    }
  }

  // ---- Removing a prefix ----

  lemma {:induction false} CountMarked(fates: seq<Fate>, gone: nat, n: nat, fate: Fate, marked: seq<Fate>)
    requires fate != Held && gone + n <= |fates| == |marked|
    requires forall i :: 0 <= i < |fates| ==> marked[i] == if gone <= i < gone + n then fate else fates[i]
    requires forall i :: gone <= i < gone + n ==> fates[i] == Held
    ensures forall f :: f != Held ==> Count(marked, f) == Count(fates, f) + if f == fate then n else 0
    decreases |fates|
  {
    if n == 0 {
      assert marked == fates;
    } else {
      var m := |fates| - 1;
      CountMarked(fates[..m], gone, if gone + n == |fates| then n - 1 else n, fate, marked[..m]);
    }
  }

  lemma AdvanceLite(log: seq<LiteRow>, gone: nat, lite: seq<LiteRow>, anchor: Hash, n: nat)
    requires LiteOk(log, gone, lite, anchor) && 0 < n <= |lite|
    ensures LiteOk(log, gone + n, lite[n..], lite[n - 1].row.hash)
    ensures LiteHead(lite[n..], lite[n - 1].row.hash) == LiteHead(lite, anchor)
  {
    assert log[..gone + n][gone + n - 1] == log[gone + n - 1] == lite[n - 1];
  }

  lemma NoGapLater(sent: seq<nat>, first: nat, later: nat)
    requires NoGap(sent, first) && first <= later
    ensures NoGap(sent, later)
  {
  }

  lemma AdvanceFates(fates: seq<Fate>, gone: nat, sent: seq<nat>, drained: nat, purged: nat, n: nat, fate: Fate,
      marked: seq<Fate>)
    requires FatesOk(fates, gone, sent, drained, purged) && fate != Held && gone + n <= |fates| == |marked|
    requires forall i :: 0 <= i < |fates| ==> marked[i] == if gone <= i < gone + n then fate else fates[i]
    requires fate == Drained ==> AllSent(sent, gone, n)
    ensures FatesOk(marked, gone + n, sent, drained + (if fate == Drained then n else 0),
                    purged + (if fate == Drained then 0 else n))
  {
    CountMarked(fates, gone, n, fate, marked);
  }

  lemma AdvanceChains(
    log: seq<LiteRow>, nextId: nat, gone: nat, lite: seq<LiteRow>, anchor: Hash, pg: seq<Row>, sent: seq<nat>, n: nat)
    requires ChainsOk(log, nextId, gone, lite, anchor, pg, sent) && 0 < n <= |lite|
    ensures ChainsOk(log, nextId, gone + n, lite[n..], lite[n - 1].row.hash, pg, sent)
    ensures LiteHead(lite[n..], lite[n - 1].row.hash) == LiteHead(lite, anchor)
  {
    AdvanceLite(log, gone, lite, anchor, n);
    NoGapLater(sent, gone, gone + n);
  }

  lemma AdvanceBooks(s: Stores, n: nat, fate: Fate)
    requires BooksOk(s) && 0 < n <= |s.lite| && fate != Held && Released(s) + n <= |s.fates|
    requires fate == Drained ==> AllSent(s.sent, Released(s), n)
    requires LiteHead(s.lite[n..], s.lite[n - 1].row.hash) == LiteHead(s.lite, s.anchor)
    ensures BooksOk(Advance(s, n, s.lite[n - 1].row.hash, n, fate).(drain := Idle))
  {
    AdvanceFates(s.fates, Released(s), s.sent, s.drained, s.purged, n, fate,
        Advance(s, n, s.lite[n - 1].row.hash, n, fate).fates);
  }

  lemma AdvanceKeeps(s: Stores, n: nat, fate: Fate)
    requires Inv(s) && 0 < n <= |s.lite| && fate != Held
    requires fate == Drained ==> AllSent(s.sent, Released(s), n)
    ensures Inv(Advance(s, n, s.lite[n - 1].row.hash, n, fate).(drain := Idle))
  {
    var t := Advance(s, n, s.lite[n - 1].row.hash, n, fate).(drain := Idle);
    assert t.log == s.log && t.nextId == s.nextId && t.pg == s.pg && t.sent == s.sent;
    assert t.lite == s.lite[n..] && t.anchor == s.lite[n - 1].row.hash && Released(t) == Released(s) + n;
    AdvanceChains(s.log, s.nextId, Released(s), s.lite, s.anchor, s.pg, s.sent, n);
    assert ChainsOk(t.log, t.nextId, Released(t), t.lite, t.anchor, t.pg, t.sent);
    AdvanceBooks(s, n, fate);
  }

  lemma {:induction false} UpToIdPrefix(rows: seq<LiteRow>, first: nat, n: nat)
    requires 0 < n <= |rows|
    requires forall i :: 0 <= i < |rows| ==> rows[i].id == first + i
    ensures UpToId(rows, first + n - 1) == n
  {
    if n > 1 {
      UpToIdPrefix(rows[1..], first + 1, n - 1);
    } else if |rows| > 1 {
      assert rows[1..][0].id > rows[0].id;
    }
  }

  /** Deleting up to the batch's last id deletes the batch. */
  lemma BatchById(log: seq<LiteRow>, nextId: nat, gone: nat, lite: seq<LiteRow>, rows: seq<LiteRow>)
    requires LogOk(log, nextId) && gone <= |log| && lite == log[gone..] && BatchOk(lite, rows)
    ensures UpToId(lite, LastId(rows)) == |rows|
  {
    forall i | 0 <= i < |lite| ensures lite[i].id == gone + i {
      assert lite[i] == log[gone + i];
    }
    UpToIdPrefix(lite, gone, |rows|);
  }

  lemma ReleaseKeeps(s: Stores)
    requires Inv(s)
    ensures Inv(Step(s, LiteRelease))
  {
    if s.drain.Committed? {
      BatchById(s.log, s.nextId, Released(s), s.lite, s.drain.rows);
      AdvanceKeeps(s, |s.drain.rows|, Drained);
    }
  }

  // ---- Inserting into SQLite ----

  /** Removing a prefix with its anchor never moves the head: the fallback chain's head is the log's. */
  lemma HeadIsLogHead(log: seq<LiteRow>, gone: nat, lite: seq<LiteRow>, anchor: Hash)
    requires LiteOk(log, gone, lite, anchor)
    ensures LiteHead(lite, anchor) == Head(RowsOf(log), Genesis)
  {
    assert log == log[..gone] + lite;
  }

  lemma InsertLog(log: seq<LiteRow>, nextId: nat, entry: Entry)
    requires LogOk(log, nextId) && entry.meta.origin.None?
    ensures LogOk(log + [LiteRow(nextId, Sealed(entry, Head(RowsOf(log), Genesis)))], nextId + 1)
  {
    var row := LiteRow(nextId, Sealed(entry, Head(RowsOf(log), Genesis)));
    AppendKeeps(RowsOf(log), Genesis, entry);
    RowsOfConcat(log, [row]);
    assert RowsOf([row]) == [row.row];
  }

  lemma InsertPg(log: seq<LiteRow>, row: LiteRow, pg: seq<Row>, sent: seq<nat>)
    requires PgOk(log, pg, sent)
    ensures PgOk(log + [row], pg, sent)
  {
  }

  lemma InsertLite(log: seq<LiteRow>, gone: nat, lite: seq<LiteRow>, anchor: Hash, row: LiteRow)
    requires LiteOk(log, gone, lite, anchor)
    ensures LiteOk(log + [row], gone, lite + [row], anchor)
  {
    assert (log + [row])[gone..] == log[gone..] + [row] && (log + [row])[..gone] == log[..gone];
  }

  lemma InsertFates(fates: seq<Fate>, gone: nat, sent: seq<nat>, drained: nat, purged: nat)
    requires FatesOk(fates, gone, sent, drained, purged) && gone <= |fates|
    ensures FatesOk(fates + [Held], gone, sent, drained, purged)
  {
    assert (fates + [Held])[..|fates|] == fates;
  }

  lemma InsertDrain(drain: Drain, lite: seq<LiteRow>, gone: nat, sent: seq<nat>, row: LiteRow)
    requires DrainOk(drain, lite, gone, sent)
    ensures DrainOk(drain, lite + [row], gone, sent)
  {
  }

  /** The row links although a release may have fallen between the head read and the insert. */
  lemma InsertKeeps(s: Stores)
    requires Inv(s)
    ensures Inv(Step(s, LiteInsert))
  {
    if s.writer.Writing? && |s.lite| < s.capacity {
      var row := LiteRow(s.nextId, Sealed(s.writer.entry, s.writer.prev));
      var t := Step(s, LiteInsert);
      HeadIsLogHead(s.log, Released(s), s.lite, s.anchor);
      assert ChainsOk(t.log, t.nextId, Released(t), t.lite, t.anchor, t.pg, t.sent) by {
        InsertLog(s.log, s.nextId, s.writer.entry);
        InsertPg(s.log, row, s.pg, s.sent);
        InsertLite(s.log, Released(s), s.lite, s.anchor, row);
      }
      InsertFates(s.fates, Released(s), s.sent, s.drained, s.purged);
      InsertDrain(s.drain, s.lite, Released(s), s.sent, row);
    }
  }

  // ---- Every step ----

  lemma PgRecordKeeps(s: Stores, entry: Entry)
    requires Inv(s) && entry.meta.origin.None?
    ensures Inv(Step(s, PgRecord(entry)))
  {
    DrainedRowsAppend(s.pg, Inserted(entry, Head(s.pg, Genesis)));
  }

  lemma PrefixVerifies(s: Stores, n: nat)
    requires LogOk(s.log, s.nextId) && LiteOk(s.log, Released(s), s.lite, s.anchor) && n <= |s.lite|
    ensures Verifies(RowsOf(s.lite[..n]), s.anchor)
  {
    StretchVerifies(s.log, Released(s), Released(s) + n);
    assert s.lite[..n] == s.log[Released(s)..Released(s) + n];
  }

  lemma ReadBatchKeeps(s: Stores, limit: nat)
    requires Inv(s)
    ensures Inv(Step(s, ReadBatch(limit)))
  {
    PrefixVerifies(s, if limit < |s.lite| then limit else |s.lite|);
  }

  lemma StepKeeps(s: Stores, a: Action)
    requires Inv(s) && Enabled(s, a)
    ensures Inv(Step(s, a))
  {
    match a
    case PgRecord(entry) => PgRecordKeeps(s, entry);
    case LiteInsert => InsertKeeps(s);
    case ReadBatch(limit) => ReadBatchKeeps(s, limit);
    case PgCommit => CommitKeeps(s);
    case LiteRelease => ReleaseKeeps(s);
    case Purge(count) =>
      if 0 < count <= |s.lite| {
        AdvanceKeeps(s, count, Purged);
      }
    case _ =>
  }

  lemma StepFrom(s: Stores, a: Action, t: Stores)
    requires Inv(s) && Enabled(s, a) && t == Step(s, a)
    ensures Inv(t)
  {
    StepKeeps(s, a);
  }

  lemma InitInv(s: Stores)
    requires Init(s)
    ensures ChainsOk(s.log, s.nextId, Released(s), s.lite, s.anchor, s.pg, s.sent)
    ensures BooksOk(s)
    ensures Inv(s)
  {
    assert LogOk(s.log, s.nextId);
    assert PgOk(s.log, s.pg, s.sent);
  }

  lemma {:induction false} RunKeeps(states: seq<Stores>, acts: seq<Action>, n: nat)
    requires IsRun(states, acts) && Inv(states[0]) && n < |states|
    ensures Inv(states[n])
    decreases n
  {
    if n > 0 {
      RunKeeps(states, acts, n - 1);
      StepFrom(states[n - 1], acts[n - 1], states[n]);
    }
  }

  // ---- Main theorems ----

  /** The Postgres rows that carry fallback row `i`'s hash. */
  ghost function Copies(s: Stores, i: nat): set<nat>
    requires i < |s.log|
  {
    set k | 0 <= k < |s.pg| && s.pg[k].entry.meta.origin.Some?
        && s.pg[k].entry.meta.origin.value.entry == s.log[i].row.hash
  }

  /** Postgres holds at most one copy of any fallback row, for every interleaving and every crash. */
  lemma AtMostOneCopy(s: Stores, i: nat, k: nat, m: nat)
    requires Inv(s) && i < |s.log| && k in Copies(s, i) && m in Copies(s, i)
    ensures k == m
  {
    CopyPosition(s.pg, k);
    CopyPosition(s.pg, m);
    var dk, dm := |DrainedRows(s.pg[..k])|, |DrainedRows(s.pg[..m])|;
    HashesDistinct(RowsOf(s.log), Genesis, s.sent[dk], i);
    HashesDistinct(RowsOf(s.log), Genesis, s.sent[dm], i);
    if k < m { PositionsGrow(s.pg, k, m); }
    if m < k { PositionsGrow(s.pg, m, k); }
  }

  lemma {:induction false} CopyPosition(pg: seq<Row>, k: nat)
    requires k < |pg| && pg[k].entry.meta.origin.Some?
    ensures |DrainedRows(pg[..k])| < |DrainedRows(pg)| && DrainedRows(pg)[|DrainedRows(pg[..k])|] == pg[k]
    decreases |pg|
  {
    var n := |pg| - 1;
    if k < n {
      CopyPosition(pg[..n], k);
      assert pg[..n][..k] == pg[..k];
    }
  }

  lemma {:induction false} PositionsGrow(pg: seq<Row>, k: nat, m: nat)
    requires k < m <= |pg| && pg[k].entry.meta.origin.Some?
    ensures |DrainedRows(pg[..k])| < |DrainedRows(pg[..m])|
    decreases m
  {
    assert pg[..m][..m - 1] == pg[..m - 1];
    if k < m - 1 {
      PositionsGrow(pg, k, m - 1);
    }
  }

  /** A row the drain released is in Postgres, with its full content but for the spelling of its uuids. */
  lemma ReleasedMeansCopied(s: Stores, i: nat)
    requires Inv(s) && i < |s.log| && s.fates[i] == Drained
    ensures exists k :: k in Copies(s, i) && Restored(s.pg[k].entry) == Respelled(s.log[i].row.entry)
                        && s.pg[k].entry.meta.origin.value.intact
    ensures forall k :: k in Copies(s, i) ==>
              (Restored(s.pg[k].entry) == s.log[i].row.entry <==> Canonical(s.log[i].row.entry))
  {
    var d :| 0 <= d < |s.sent| && s.sent[d] == i;
    var row := DrainedRows(s.pg)[d];
    DrainedRowsHold(s.pg, row);
    var k :| 0 <= k < |s.pg| && s.pg[k] == row;
    RestoredRelinked(s.log[i].row, true);
    assert k in Copies(s, i);
    forall m | m in Copies(s, i) ensures m == k {
      AtMostOneCopy(s, i, m, k);
    }
  }

  /** Copies stand in Postgres in the order their rows were inserted into SQLite. */
  lemma CopiesInOrder(s: Stores, i: nat, j: nat, k: nat, m: nat)
    requires Inv(s) && i < |s.log| && j < |s.log| && k in Copies(s, i) && m in Copies(s, j)
    ensures k < m <==> i < j
  {
    CopyPosition(s.pg, k);
    CopyPosition(s.pg, m);
    var dk, dm := |DrainedRows(s.pg[..k])|, |DrainedRows(s.pg[..m])|;
    HashesDistinct(RowsOf(s.log), Genesis, s.sent[dk], i);
    HashesDistinct(RowsOf(s.log), Genesis, s.sent[dm], j);
    if k < m { PositionsGrow(s.pg, k, m); }
    if m < k { PositionsGrow(s.pg, m, k); }
  }

  // ---- When the Postgres chain verifies ----

  /** The drain's own rows always link, whatever ids they carry. */
  lemma {:induction false} AppendedVerifies(pg: seq<Row>, rows: seq<LiteRow>, intact: bool)
    ensures Verifies(Appended(pg, rows, intact), Genesis) <==> Verifies(pg, Genesis)
    decreases |rows|
  {
    if rows != [] {
      if Known(pg, rows[0].row) {
        AppendedVerifies(pg, rows[1..], intact);
      } else {
        var row := Sealed(Relinked(rows[0].row, intact), Head(pg, Genesis));
        VerifiesConcat(pg, [row], Genesis);
        AppendedVerifies(pg + [row], rows[1..], intact);
      }
    }
  }

  lemma StepVerifies(s: Stores, a: Action)
    ensures Verifies(Step(s, a).pg, Genesis)
            <==> Verifies(s.pg, Genesis) && (a.PgRecord? ==> Canonical(a.entry))
  {
    if a.PgRecord? {
      InsertVerifies(s.pg, Genesis, a.entry);
    } else if a.PgCommit? && s.drain.Batch? {
      AppendedVerifies(s.pg, s.drain.rows, s.drain.intact);
    }
  }

  /** Over every run, drains and crashes included, the Postgres chain verifies if and only if every entry
      recorded in it directly spelled its uuids canonically. */
  lemma {:induction false} PgVerifiesExactly(states: seq<Stores>, acts: seq<Action>, n: nat)
    requires IsRun(states, acts) && Init(states[0]) && n < |states|
    ensures Verifies(states[n].pg, Genesis)
            <==> forall k {:trigger acts[k]} :: 0 <= k < n && acts[k].PgRecord? ==> Canonical(acts[k].entry)
    decreases n
  {
    if n > 0 {
      PgVerifiesExactly(states, acts, n - 1);
      StepVerifies(states[n - 1], acts[n - 1]);
    }
  }

  // ---- All of it ----

  /** Crash-safe drain, over every run: the SQLite chain verifies, and the Postgres chain exactly when no
      directly recorded entry was respelled, each fallback row has at most one copy in
      Postgres and exactly one once it was drained, copies keep the order and the content of the rows,
      and drained + purged + held is every row ever inserted. */
  lemma CrashSafeDrain(states: seq<Stores>, acts: seq<Action>, n: nat)
    requires IsRun(states, acts) && Init(states[0]) && n < |states|
    ensures var s := states[n];
            && (Verifies(s.pg, Genesis)
                <==> forall k {:trigger acts[k]} :: 0 <= k < n && acts[k].PgRecord? ==> Canonical(acts[k].entry))
            && Verifies(RowsOf(s.lite), s.anchor)
            && s.drained + s.purged + |s.lite| == |s.log| == |s.fates|
            && Count(s.fates, Drained) == s.drained && Count(s.fates, Purged) == s.purged
            && (forall i, k, m :: 0 <= i < |s.log| && k in Copies(s, i) && m in Copies(s, i) ==> k == m)
            && (forall i :: 0 <= i < |s.log| && s.fates[i] == Drained ==>
                  exists k :: k in Copies(s, i) && Restored(s.pg[k].entry) == Respelled(s.log[i].row.entry))
            && (forall i, j, k, m :: 0 <= i < |s.log| && 0 <= j < |s.log| && k in Copies(s, i) && m in Copies(s, j) ==>
                  (k < m <==> i < j))
  {
    InitInv(states[0]);
    RunKeeps(states, acts, n);
    PgVerifiesExactly(states, acts, n);
    var s := states[n];
    PrefixVerifies(s, |s.lite|);
    assert s.lite[..|s.lite|] == s.lite;
    forall i, k, m | 0 <= i < |s.log| && k in Copies(s, i) && m in Copies(s, i) ensures k == m {
      AtMostOneCopy(s, i, k, m);
    }
    forall i | 0 <= i < |s.log| && s.fates[i] == Drained
      ensures exists k :: k in Copies(s, i) && Restored(s.pg[k].entry) == Respelled(s.log[i].row.entry)
    {
      ReleasedMeansCopied(s, i);
    }
    forall i, j, k, m | 0 <= i < |s.log| && 0 <= j < |s.log| && k in Copies(s, i) && m in Copies(s, j)
      ensures k < m <==> i < j
    {
      CopiesInOrder(s, i, j, k, m);
    }
  }
}
