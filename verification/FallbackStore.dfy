/** The SQLite fallback of the audit ledger and its drain into the Postgres chain, as separate atomic
    steps: a crash may fall between any two. `log`, `fates` and `sent` are history: every row ever
    inserted into SQLite, what became of it, and which of them were appended to Postgres, in that order.
    Assumptions: one process writes the SQLite file, and no purge runs while a drain is under way. */
module FallbackStore {
  import opened Options
  import opened AuditChain

  datatype LiteRow = LiteRow(id: nat, row: Row)

  datatype Fate = Held | Drained | Purged

  /** What the draining task holds in memory, beside `verdict`: whether every batch of this drain so far
      verified. */
  datatype Drain = Idle | Batch(rows: seq<LiteRow>, intact: bool) | Committed(rows: seq<LiteRow>)

  /** What a writer that fell back holds between reading the chain head and inserting its row. */
  datatype Writer = Ready | Writing(entry: Entry, prev: Hash)

  datatype Stores = Stores(
    pg: seq<Row>, lite: seq<LiteRow>, anchor: Hash, drained: nat, purged: nat, nextId: nat, capacity: nat,
    drain: Drain, verdict: bool, writer: Writer, log: seq<LiteRow>, fates: seq<Fate>, sent: seq<nat>)

  function RowsOf(rows: seq<LiteRow>): (r: seq<Row>)
    ensures |r| == |rows| && forall i :: 0 <= i < |r| ==> r[i] == rows[i].row
  {
    seq(|rows|, i requires 0 <= i < |rows| => rows[i].row)
  }

  function LiteHead(rows: seq<LiteRow>, anchor: Hash): Hash {
    if rows == [] then anchor else rows[|rows| - 1].row.hash
  }

  // ---- Appending a fallback row to Postgres ----

  /** `_uuid_or_none` */
  function KeptIdent(id: Ident): Ident {
    if id.Uuid? then ColumnIdent(id) else NoId
  }

  function LooseText(id: Ident): Option<string> {
    if id.Loose? then Some(id.text) else None
  }

  /** The entry a drained row becomes: the original content, with its provenance. */
  function Relinked(row: Row, intact: bool): Entry {
    var e := row.entry;
    e.(tenant := KeptIdent(e.tenant), target := KeptIdent(e.target),
       meta := e.meta.(origin := Some(Provenance(row.hash, intact, LooseText(e.tenant), LooseText(e.target)))))
  }

  /** Reads the original entry back out of a drained one. */
  function Restored(e: Entry): Entry
    requires e.meta.origin.Some?
  {
    var p := e.meta.origin.value;
    e.(tenant := if p.tenant.Some? then Loose(p.tenant.value) else e.tenant,
       target := if p.target.Some? then Loose(p.target.value) else e.target,
       meta := e.meta.(origin := None))
  }

  /** A drained row gives the entry back with its uuids respelled: the entry itself if and only if they
      were spelled canonically. */
  lemma RestoredRelinked(row: Row, intact: bool)
    requires row.entry.meta.origin.None?
    ensures Restored(Relinked(row, intact)) == Respelled(row.entry)
    ensures Restored(Relinked(row, intact)) == row.entry <==> Canonical(row.entry)
  {
  }

  /** The lookup that recognises a row already appended: same category and time, same fallback hash. */
  predicate Recognises(pgRow: Row, row: Row) {
    && pgRow.entry.category == row.entry.category
    && pgRow.entry.createdAt == row.entry.createdAt
    && pgRow.entry.meta.origin.Some?
    && pgRow.entry.meta.origin.value.entry == row.hash
  }

  predicate Known(pg: seq<Row>, row: Row) {
    exists k :: 0 <= k < |pg| && Recognises(pg[k], row)
  }

  /** The loop of `_append_fallback_rows`. */
  function Appended(pg: seq<Row>, rows: seq<LiteRow>, intact: bool): seq<Row>
    decreases |rows|
  {
    if rows == [] then pg
    else if Known(pg, rows[0].row) then Appended(pg, rows[1..], intact)
    else Appended(pg + [Sealed(Relinked(rows[0].row, intact), Head(pg, Genesis))], rows[1..], intact)
  }

  /** Which rows it appends, counted from log position `first`. */
  function NewlySent(pg: seq<Row>, rows: seq<LiteRow>, intact: bool, first: nat): seq<nat>
    decreases |rows|
  {
    if rows == [] then []
    else if Known(pg, rows[0].row) then NewlySent(pg, rows[1..], intact, first + 1)
    else
      [first]
      + NewlySent(pg + [Sealed(Relinked(rows[0].row, intact), Head(pg, Genesis))], rows[1..], intact, first + 1)
  }

  // ---- What an append leaves ----

  /** Postgres row `k` is the first to hold fallback row `row`: its hash, its content with the uuids
      respelled, and the stamp `intact`. */
  ghost predicate FirstCopy(pg: seq<Row>, k: nat, row: Row, intact: bool)
    requires k < |pg|
  {
    && pg[k].entry.meta.origin.Some?
    && pg[k].entry.meta.origin.value.entry == row.hash
    && pg[k].entry.meta.origin.value.intact == intact
    && Restored(pg[k].entry) == Respelled(row.entry).(meta := Meta(row.entry.meta.text, None))
    && !Known(pg[..k], row)
  }

  ghost predicate CopiesOneOf(pg: seq<Row>, k: nat, rows: seq<LiteRow>, intact: bool)
    requires k < |pg|
  {
    exists i :: 0 <= i < |rows| && FirstCopy(pg, k, rows[i].row, intact)
  }

  /** From `before` to `after` nothing was lost, every new row is the first copy of one of `rows`, stamped
      `intact`, and every one of `rows` is there. */
  ghost predicate Delivered(before: seq<Row>, after: seq<Row>, rows: seq<LiteRow>, intact: bool) {
    && before <= after
    && (forall k :: |before| <= k < |after| ==> CopiesOneOf(after, k, rows, intact))
    && (forall i :: 0 <= i < |rows| ==> Known(after, rows[i].row))
  }

  lemma KnownStays(pg: seq<Row>, longer: seq<Row>, row: Row)
    requires pg <= longer && Known(pg, row)
    ensures Known(longer, row)
  {
    var k :| 0 <= k < |pg| && Recognises(pg[k], row);
    assert Recognises(longer[k], row);
  }

  /** Whatever the stores hold, tampered rows included, the append loop delivers its rows. */
  lemma {:induction false} AppendDelivers(pg: seq<Row>, rows: seq<LiteRow>, intact: bool)
    ensures Delivered(pg, Appended(pg, rows, intact), rows, intact)
    decreases |rows|
  {
    if rows != [] {
      var row, rest := rows[0].row, rows[1..];
      var next := if Known(pg, row) then pg else pg + [Sealed(Relinked(row, intact), Head(pg, Genesis))];
      AppendDelivers(next, rest, intact);
      var after := Appended(next, rest, intact);
      assert next != pg ==> Recognises(next[|pg|], row);
      KnownStays(next, after, row);
      forall i | 0 <= i < |rows| ensures Known(after, rows[i].row) {
        assert i > 0 ==> rows[i] == rest[i - 1];
      }
      forall k | |pg| <= k < |after| ensures CopiesOneOf(after, k, rows, intact) {
        if k < |next| {
          assert after[..k] == pg && after[k] == next[k];
          assert FirstCopy(after, k, rows[0].row, intact);
        } else {
          assert CopiesOneOf(after, k, rest, intact);
          var i :| 0 <= i < |rest| && FirstCopy(after, k, rest[i].row, intact);
          assert rows[i + 1] == rest[i];
        }
      }
    }
  }

  // ---- Steps ----

  function Released(s: Stores): nat {
    s.drained + s.purged
  }

  /** `_sqlite_advance_anchor`: delete a prefix of `n` rows, remember `last` as the anchor, and add
      `counted` to the drained or the purged total. */
  function Advance(s: Stores, n: nat, last: Hash, counted: nat, fate: Fate): Stores
    requires n <= |s.lite|
  {
    var gone := Released(s);
    s.(lite := s.lite[n..], anchor := last,
       drained := s.drained + (if fate == Drained then counted else 0),
       purged := s.purged + (if fate == Drained then 0 else counted),
       fates := seq(|s.fates|, i requires 0 <= i < |s.fates| => if gone <= i < gone + n then fate else s.fates[i]))
  }

  /** Rows with id up to `last`: how many the DELETE removes. */
  function UpToId(rows: seq<LiteRow>, last: nat): (n: nat)
    ensures n <= |rows|
  {
    if rows == [] || rows[0].id > last then 0 else 1 + UpToId(rows[1..], last)
  }

  datatype Action =
    | PgRecord(entry: Entry)
    | FallBack(entry: Entry)          // read the SQLite head for a row Postgres refused
    | LiteInsert
    | StartDrain
    | ReadBatch(limit: nat)
    | PgCommit
    | PgAbort
    | LiteRelease
    | Purge(count: nat)               // the prefix up to the last row older than the age limit
    | Crash

  function Step(s: Stores, a: Action): Stores {
    match a
    case PgRecord(entry) => s.(pg := s.pg + [Inserted(entry, Head(s.pg, Genesis))])
    case FallBack(entry) => s.(writer := Writing(entry, LiteHead(s.lite, s.anchor)))
    case LiteInsert =>
      if s.writer.Ready? then s
      else if |s.lite| >= s.capacity then s.(writer := Ready)
      else
        var row := LiteRow(s.nextId, Sealed(s.writer.entry, s.writer.prev));
        s.(lite := s.lite + [row], nextId := s.nextId + 1, writer := Ready,
           log := s.log + [row], fates := s.fates + [Held])
    case StartDrain => s.(verdict := true)
    case ReadBatch(limit) =>
      var rows := s.lite[..if limit < |s.lite| then limit else |s.lite|];
      var intact := Verifies(RowsOf(rows), s.anchor) && s.verdict;
      if rows == [] then s.(drain := Idle) else s.(drain := Batch(rows, intact), verdict := intact)
    case PgCommit =>
      if !s.drain.Batch? then s
      else s.(pg := Appended(s.pg, s.drain.rows, s.drain.intact), drain := Committed(s.drain.rows),
              sent := s.sent + NewlySent(s.pg, s.drain.rows, s.drain.intact, Released(s)))
    case PgAbort => s.(drain := Idle)
    case LiteRelease =>
      if s.drain.Committed? && s.drain.rows != [] then
        var rows := s.drain.rows;
        Advance(s, UpToId(s.lite, LastId(rows)), rows[|rows| - 1].row.hash, |rows|, Drained).(drain := Idle)
      else s
    case Purge(count) =>
      if 0 < count <= |s.lite| then Advance(s, count, s.lite[count - 1].row.hash, count, Purged) else s
    case Crash => s.(drain := Idle, verdict := true, writer := Ready)
  }

  /** Every row after the `n`-th is a drained one stamped `intact`. */
  predicate StampedFrom(pg: seq<Row>, n: nat, intact: bool) {
    forall k :: n <= k < |pg| ==> pg[k].entry.meta.origin.Some? && pg[k].entry.meta.origin.value.intact == intact
  }

  /** The append step delivers the batch with the stamp that was read with it, in any store. */
  lemma CommitDelivers(s: Stores)
    requires s.drain.Batch?
    ensures Delivered(s.pg, Step(s, PgCommit).pg, s.drain.rows, s.drain.intact)
    ensures StampedFrom(Step(s, PgCommit).pg, |s.pg|, s.drain.intact)
  {
    AppendDelivers(s.pg, s.drain.rows, s.drain.intact);
    var after := Step(s, PgCommit).pg;
    forall k | |s.pg| <= k < |after|
      ensures after[k].entry.meta.origin.Some? && after[k].entry.meta.origin.value.intact == s.drain.intact
    {
      assert CopiesOneOf(after, k, s.drain.rows, s.drain.intact);
    }
  }

  function LastId(rows: seq<LiteRow>): nat {
    if rows == [] then 0 else rows[|rows| - 1].id
  }

  /** A recorded entry carries no provenance of its own; the two assumptions are the other guards. */
  ghost predicate Enabled(s: Stores, a: Action) {
    match a
    case PgRecord(entry) => entry.meta.origin.None? && Accepted(entry)
    case FallBack(entry) => entry.meta.origin.None? && s.writer.Ready?
    case StartDrain => s.drain.Idle?
    case ReadBatch(_) => s.drain.Idle?
    case Purge(_) => s.drain.Idle?
    case _ => true
  }

  ghost predicate Init(s: Stores) {
    && s.pg == [] && s.lite == [] && s.anchor == Genesis && s.drained == 0 && s.purged == 0
    && s.nextId == 0 && s.drain.Idle? && s.verdict && s.writer.Ready? && s.log == [] && s.fates == [] && s.sent == []
  }

  ghost predicate IsRun(states: seq<Stores>, acts: seq<Action>) {
    && |states| == |acts| + 1
    && forall k {:trigger acts[k]} :: 0 <= k < |acts| ==>
         Enabled(states[k], acts[k]) && states[k + 1] == Step(states[k], acts[k])
  }
}
