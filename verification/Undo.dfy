/** The assistant's action ledger and its undo (backend/ai_chat_store.py). A record's updated_at is a
    version that every write to it raises. */
module Undo {
  import opened Options

  datatype Value = Null | Text(text: string)

  datatype RecordKind = Client | Listing | Lead | Deal

  datatype RecordKey = RecordKey(tenant: string, kind: RecordKind, id: string)

  datatype Record = Record(columns: map<string, Value>, version: nat)

  /** A row of a timeline table. */
  datatype RowKey = RowKey(tenant: string, table: string, id: string)

  datatype Delete = Delete(table: string, ids: seq<string>)

  datatype UndoKind = FieldRestore | RowDelete | Irreversible

  datatype Status = Applied | Undone | Conflict

  datatype ActionRow = ActionRow(
    user: string, record: RecordKey, before: map<string, Value>, expected: Option<nat>,
    kind: UndoKind, deletes: seq<Delete>, status: Status, expires: int)

  /** `origin` is history: which action, if any, recorded the row as its own insert. */
  datatype World = World(
    records: map<RecordKey, Record>, rows: map<RowKey, string>, origin: map<RowKey, Option<nat>>,
    actions: seq<ActionRow>, clock: int, version: nat)

  const WINDOW := 24 * 60 * 60

  /** `_UNDO_COLUMNS` */
  function UndoColumns(kind: RecordKind): set<string> {
    match kind
    case Client =>
      {"full_name", "email", "phone", "client_type", "stage", "lead_score", "company", "assignee_id", "archived_at"}
    case Listing => {"address", "status", "price"}
    case Lead => {"dossier_status", "contract_execution_date"}
    case Deal => {"notes"}
  }

  /** `_UNDO_DELETABLE_TABLES` */
  const DELETABLE := {"client_notes", "client_tags", "client_activities"}

  datatype Refusal =
    | NotFound | NotUndoable | Expired | CannotReverse | BadTable | Changed | NothingBefore | NotRestorable

  function FieldRefusal(records: map<RecordKey, Record>, a: ActionRow): Option<Refusal> {
    if a.record !in records || a.expected != Some(records[a.record].version) then Some(Changed)
    else if a.before == map[] then Some(NothingBefore)
    else if !(a.before.Keys <= UndoColumns(a.record.kind)) then Some(NotRestorable)
    else None
  }

  ghost predicate AllDeletable(deletes: seq<Delete>) {
    forall i :: 0 <= i < |deletes| && deletes[i].ids != [] ==> deletes[i].table in DELETABLE
  }

  /** Why an undo is refused, in the order the code asks; None when it goes through. */
  ghost function Refused(w: World, tenant: string, user: string, n: nat): Option<Refusal> {
    if n >= |w.actions| || w.actions[n].record.tenant != tenant || w.actions[n].user != user then Some(NotFound)
    else
      var a := w.actions[n];
      if a.status != Applied then Some(NotUndoable)
      else if a.expires <= w.clock then Some(Expired)
      else match a.kind
           case Irreversible => Some(CannotReverse)
           case RowDelete => if AllDeletable(a.deletes) then None else Some(BadTable)
           case FieldRestore => FieldRefusal(w.records, a)
  }

  /** The rows a recorded delete names. */
  ghost function Listed(tenant: string, deletes: seq<Delete>): set<RowKey> {
    set d, id | d in deletes && id in d.ids :: RowKey(tenant, d.table, id)
  }

  function Write(r: Record, changes: map<string, Value>, version: nat): Record {
    Record(r.columns + changes, version)
  }

  ghost function AfterUndo(w: World, n: nat): World
    requires n < |w.actions| && (w.actions[n].kind.FieldRestore? ==> w.actions[n].record in w.records)
  {
    var a := w.actions[n];
    var done := w.(actions := w.actions[n := a.(status := Undone)]);
    match a.kind
    case RowDelete => done.(rows := w.rows - Listed(a.record.tenant, a.deletes))
    case FieldRestore =>
      done.(records := w.records[a.record := Write(w.records[a.record], a.before, w.version + 1)],
            version := w.version + 1)
    case Irreversible => w
  }

  datatype Action =
    | Create(key: RecordKey, columns: map<string, Value>)
    | Edit(key: RecordKey, changes: map<string, Value>)
    | Remove(key: RecordKey)
    | ToolEdit(user: string, key: RecordKey, fields: map<string, Value>, marks: map<string, Value>)
    | ToolAdd(user: string, key: RecordKey, deletes: seq<Delete>, text: string)
    | ToolCreate(user: string, key: RecordKey, columns: map<string, Value>)
    | InsertRow(row: RowKey, text: string)
    | DeleteRow(row: RowKey)
    | TryUndo(tenant: string, user: string, n: nat)
    | Tick(seconds: nat)

  function Created(w: World, key: RecordKey, columns: map<string, Value>): World {
    w.(records := w.records[key := Record(columns, w.version + 1)], version := w.version + 1)
  }

  function Edited(w: World, key: RecordKey, changes: map<string, Value>): World
    requires key in w.records
  {
    w.(records := w.records[key := Write(w.records[key], changes, w.version + 1)], version := w.version + 1)
  }

  /** The columns as they stood, for the fields about to change. */
  function Before(r: Record, fields: map<string, Value>): map<string, Value> {
    map c | c in fields && c in r.columns :: r.columns[c]
  }

  /** A tool's UPDATE: the fields it records, and bookkeeping columns (a deal's updated_by) it does not. */
  function ToolEdited(w: World, user: string, key: RecordKey, fields: map<string, Value>, marks: map<string, Value>)
    : World
    requires key in w.records
  {
    var row := ActionRow(user, key, Before(w.records[key], fields), Some(w.version + 1), FieldRestore, [], Applied,
                         w.clock + WINDOW);
    Edited(w, key, fields + marks).(actions := w.actions + [row])
  }

  ghost function ToolAdded(w: World, user: string, key: RecordKey, deletes: seq<Delete>, text: string): World {
    var added := Listed(key.tenant, deletes);
    w.(rows := w.rows + (map k | k in added :: text),
       origin := w.origin + (map k | k in added :: Some(|w.actions|)),
       actions := w.actions + [ActionRow(user, key, map[], None, RowDelete, deletes, Applied, w.clock + WINDOW)])
  }

  ghost predicate Step(w: World, a: Action, w': World) {
    match a
    case Create(key, columns) => key !in w.records && w' == Created(w, key, columns)
    case Edit(key, changes) =>
      key in w.records && changes.Keys <= w.records[key].columns.Keys && w' == Edited(w, key, changes)
    case Remove(key) => w' == w.(records := w.records - {key})
    case ToolEdit(user, key, fields, marks) =>
      && key in w.records && fields != map[] && fields.Keys <= UndoColumns(key.kind)
      && (fields + marks).Keys <= w.records[key].columns.Keys && fields.Keys !! marks.Keys
      && w' == ToolEdited(w, user, key, fields, marks)
    case ToolAdd(user, key, deletes, text) =>
      && (forall d :: d in deletes ==> d.table in DELETABLE) && Listed(key.tenant, deletes) !! w.origin.Keys
      && w' == ToolAdded(w, user, key, deletes, text)
    case ToolCreate(user, key, columns) =>
      && key !in w.records
      && w' == Created(w, key, columns).(
                 actions := w.actions
                            + [ActionRow(user, key, map[], None, Irreversible, [], Applied, w.clock + WINDOW)])
    case InsertRow(row, text) =>
      row !in w.origin && w' == w.(rows := w.rows[row := text], origin := w.origin[row := None])
    case DeleteRow(row) => w' == w.(rows := w.rows - {row})
    case TryUndo(tenant, user, n) =>
      if Refused(w, tenant, user, n).Some? then w' == w else w' == AfterUndo(w, n)
    case Tick(seconds) => w' == w.(clock := w.clock + seconds)
  }

  const EMPTY := World(map[], map[], map[], [], 0, 0)

  ghost predicate IsRun(ws: seq<World>, acts: seq<Action>) {
    |ws| == |acts| + 1 && ws[0] == EMPTY
    && forall k {:trigger acts[k]} :: 0 <= k < |acts| ==> Step(ws[k], acts[k], ws[k + 1])
  }

  // ---- The invariant ----

  ghost predicate VersionsPast(records: map<RecordKey, Record>, version: nat) {
    forall key | key in records :: records[key].version <= version
  }

  predicate RowShape(a: ActionRow, version: nat) {
    && (a.kind.FieldRestore? ==> a.expected.Some? && a.expected.value <= version && a.before != map[]
                                 && a.before.Keys <= UndoColumns(a.record.kind))
    && (a.status == Undone ==> !a.kind.Irreversible?) && a.status != Conflict
  }

  ghost predicate ActionsOk(actions: seq<ActionRow>, version: nat) {
    && (forall i :: 0 <= i < |actions| ==> RowShape(actions[i], version))
    && (forall i, j :: 0 <= i < j < |actions| && actions[i].kind.FieldRestore? && actions[j].kind.FieldRestore?
                       ==> actions[i].expected != actions[j].expected)
  }

  ghost predicate OwnsListed(origin: map<RowKey, Option<nat>>, a: ActionRow, i: nat) {
    a.kind.RowDelete? ==>
      && (forall d :: d in a.deletes ==> d.table in DELETABLE)
      && (forall k :: k in Listed(a.record.tenant, a.deletes) <==> k in origin && origin[k] == Some(i))
  }

  ghost predicate OriginsOk(rows: map<RowKey, string>, origin: map<RowKey, Option<nat>>, actions: seq<ActionRow>) {
    && rows.Keys <= origin.Keys
    && (forall k | k in origin && origin[k].Some? :: origin[k].value < |actions|)
    && (forall i :: 0 <= i < |actions| ==> OwnsListed(origin, actions[i], i))
  }

  ghost predicate Inv(w: World) {
    VersionsPast(w.records, w.version) && ActionsOk(w.actions, w.version) && OriginsOk(w.rows, w.origin, w.actions)
  }

  lemma AddKeeps(w: World, user: string, key: RecordKey, deletes: seq<Delete>, text: string, w': World)
    requires Inv(w) && Step(w, ToolAdd(user, key, deletes, text), w')
    ensures OriginsOk(w'.rows, w'.origin, w'.actions)
  {
    var added := Listed(key.tenant, deletes);
    forall i | 0 <= i < |w'.actions| ensures OwnsListed(w'.origin, w'.actions[i], i) {
      if i < |w.actions| {
        OthersKeep(w.origin, w.actions[i], i, added, |w.actions|);
      }
    }
  }

  lemma OthersKeep(origin: map<RowKey, Option<nat>>, a: ActionRow, i: nat, added: set<RowKey>, n: nat)
    requires OwnsListed(origin, a, i) && added !! origin.Keys && i != n
    ensures OwnsListed(origin + (map k | k in added :: Some(n)), a, i)
  {
  }

  lemma UndoKeeps(w: World, tenant: string, user: string, n: nat, w': World)
    requires Inv(w) && Step(w, TryUndo(tenant, user, n), w')
    ensures Inv(w')
  {
    if Refused(w, tenant, user, n).None? {
      forall i | 0 <= i < |w'.actions|
        ensures RowShape(w'.actions[i], w'.version) && OwnsListed(w'.origin, w'.actions[i], i)
      {
        assert RowShape(w.actions[i], w.version) && OwnsListed(w.origin, w.actions[i], i);
      }
    }
  }

  /** An action row is appended: the rows before it keep their shape and what they own. */
  lemma AppendKeeps(w: World, a: ActionRow, version: nat)
    requires Inv(w) && version >= w.version && RowShape(a, version) && !a.kind.RowDelete?
    requires a.kind.FieldRestore? ==> a.expected == Some(version) && version > w.version
    ensures ActionsOk(w.actions + [a], version) && OriginsOk(w.rows, w.origin, w.actions + [a])
  {
    var actions := w.actions + [a];
    forall i | 0 <= i < |actions| ensures RowShape(actions[i], version) && OwnsListed(w.origin, actions[i], i) {
      if i < |w.actions| {
        assert RowShape(w.actions[i], w.version) && OwnsListed(w.origin, w.actions[i], i);
      }
    }
    forall i, j | 0 <= i < j < |actions| && actions[i].kind.FieldRestore? && actions[j].kind.FieldRestore?
      ensures actions[i].expected != actions[j].expected
    {
      assert RowShape(w.actions[i], w.version);
    }
  }

  lemma LaterVersion(actions: seq<ActionRow>, version: nat, later: nat)
    requires ActionsOk(actions, version) && version <= later
    ensures ActionsOk(actions, later)
  {
    forall i | 0 <= i < |actions| ensures RowShape(actions[i], later) {
      assert RowShape(actions[i], version);
    }
  }

  lemma RowsKeep(w: World, a: Action, w': World)
    requires Inv(w) && Step(w, a, w') && (a.InsertRow? || a.DeleteRow?)
    ensures Inv(w')
  {
    forall i | 0 <= i < |w'.actions| ensures OwnsListed(w'.origin, w'.actions[i], i) {
      assert OwnsListed(w.origin, w.actions[i], i);
    }
  }

  lemma StepKeeps(w: World, a: Action, w': World)
    requires Inv(w) && Step(w, a, w')
    ensures Inv(w')
  {
    LaterVersion(w.actions, w.version, w.version + 1);
    match a
    case ToolEdit(user, key, fields, marks) =>
      var c :| c in fields;
      assert c in Before(w.records[key], fields);
      AppendKeeps(w, w'.actions[|w.actions|], w'.version);
    case ToolCreate(user, key, columns) => AppendKeeps(w, w'.actions[|w.actions|], w'.version);
    case ToolAdd(user, key, deletes, text) => AddKeeps(w, user, key, deletes, text, w');
    case TryUndo(tenant, user, n) => UndoKeeps(w, tenant, user, n, w');
    case InsertRow(_, _) => RowsKeep(w, a, w');
    case DeleteRow(_) => RowsKeep(w, a, w');
    case _ =>
  }

  lemma {:induction false} RunKeeps(ws: seq<World>, acts: seq<Action>, n: nat)
    requires IsRun(ws, acts) && n < |ws|
    ensures Inv(ws[n])
    decreases n
  {
    if n > 0 {
      RunKeeps(ws, acts, n - 1);
      StepKeeps(ws[n - 1], acts[n - 1], ws[n]);
    }
  }

  // ---- Undo as a guarded inverse ----

  /** Whatever writes a record gives it a version never used before. */
  lemma WritesRaiseVersion(w: World, a: Action, w': World, key: RecordKey)
    requires Inv(w) && Step(w, a, w') && key in w'.records
    ensures w'.version >= w.version
    ensures (key in w.records && w'.records[key] == w.records[key]) || w'.records[key].version > w.version
  {
  }

  /** A record that still carries an old version was not touched in between. */
  lemma {:induction false} SameVersionUntouched(ws: seq<World>, acts: seq<Action>, m: nat, n: nat, key: RecordKey)
    requires IsRun(ws, acts) && m <= n < |ws| && key in ws[n].records && ws[n].records[key].version <= ws[m].version
    ensures forall k :: m <= k <= n ==> key in ws[k].records && ws[k].records[key] == ws[n].records[key]
    decreases n
  {
    if m < n {
      VersionsGrow(ws, acts, m, n - 1);
      RunKeeps(ws, acts, n - 1);
      WritesRaiseVersion(ws[n - 1], acts[n - 1], ws[n], key);
      SameVersionUntouched(ws, acts, m, n - 1, key);
    }
  }

  lemma {:induction false} VersionsGrow(ws: seq<World>, acts: seq<Action>, m: nat, n: nat)
    requires IsRun(ws, acts) && m <= n < |ws|
    ensures ws[m].version <= ws[n].version
    decreases n
  {
    if m < n {
      VersionsGrow(ws, acts, m, n - 1);
      assert Step(ws[n - 1], acts[n - 1], ws[n]);
    }
  }

  /** An action row keeps everything but its status, and its status moves once, from applied to undone. */
  ghost predicate SameAction(a: ActionRow, b: ActionRow) {
    b == a || (a.status == Applied && b == a.(status := Undone))
  }

  lemma {:induction false} ActionsStay(ws: seq<World>, acts: seq<Action>, m: nat, n: nat, i: nat)
    requires IsRun(ws, acts) && m <= n < |ws| && i < |ws[m].actions|
    ensures i < |ws[n].actions| && SameAction(ws[m].actions[i], ws[n].actions[i])
    decreases n
  {
    if m < n {
      ActionsStay(ws, acts, m, n - 1, i);
      assert Step(ws[n - 1], acts[n - 1], ws[n]);
    }
  }

  /** An undo of a tool's field change goes through only if nothing has written the record since, and it
      then puts back exactly the columns as they stood before the tool, bookkeeping columns aside. */
  lemma UndoRestores(ws: seq<World>, acts: seq<Action>, m: nat, n: nat)
    requires IsRun(ws, acts) && m < n < |acts| && acts[m].ToolEdit? && acts[n].TryUndo? && acts[n].n == |ws[m].actions|
    requires Refused(ws[n], acts[n].tenant, acts[n].user, acts[n].n).None?
    ensures var key := acts[m].key;
            && (forall k :: m < k <= n ==> key in ws[k].records && ws[k].records[key] == ws[m + 1].records[key])
            && key in ws[m].records && key in ws[n + 1].records
            && ws[n + 1].records[key].columns == ws[m].records[key].columns + acts[m].marks
            && ws[n + 1].records[key].version == ws[n].version + 1
            && (forall other :: other != key ==>
                  (other in ws[n + 1].records <==> other in ws[n].records)
                  && (other in ws[n].records ==> ws[n + 1].records[other] == ws[n].records[other]))
  {
    var key, i := acts[m].key, acts[n].n;
    assert Step(ws[m], acts[m], ws[m + 1]) && Step(ws[n], acts[n], ws[n + 1]);
    ActionsStay(ws, acts, m + 1, n, i);
    SameVersionUntouched(ws, acts, m + 1, n, key);
    var was, now := ws[m].records[key], ws[n].records[key];
    assert now == Write(was, acts[m].fields + acts[m].marks, ws[m].version + 1);
    assert now.columns + Before(was, acts[m].fields) == was.columns + acts[m].marks;
  }

  /** And it does go through: an applied, unexpired field change whose record is untouched can be undone
      by the user it was made for, in its tenant, and by nobody else. */
  lemma UndoGoesThrough(ws: seq<World>, acts: seq<Action>, n: nat, tenant: string, user: string, i: nat)
    requires IsRun(ws, acts) && n < |ws| && i < |ws[n].actions| && ws[n].actions[i].kind.FieldRestore?
    ensures var a := ws[n].actions[i];
            Refused(ws[n], tenant, user, i).None?
            <==> && a.record.tenant == tenant && a.user == user && a.status == Applied && ws[n].clock < a.expires
                 && a.record in ws[n].records && a.expected == Some(ws[n].records[a.record].version)
  {
    RunKeeps(ws, acts, n);
    assert RowShape(ws[n].actions[i], ws[n].version);
  }

  /** An insert can be undone by the user it was made for, in its tenant, once and until it expires; a
      creation by nobody. */
  lemma InsertGoesThrough(ws: seq<World>, acts: seq<Action>, n: nat, tenant: string, user: string, i: nat)
    requires IsRun(ws, acts) && n < |ws| && i < |ws[n].actions| && !ws[n].actions[i].kind.FieldRestore?
    ensures var a := ws[n].actions[i];
            Refused(ws[n], tenant, user, i).None?
            <==> && a.kind.RowDelete? && a.record.tenant == tenant && a.user == user && a.status == Applied
                 && ws[n].clock < a.expires
  {
    RunKeeps(ws, acts, n);
    assert OwnsListed(ws[n].origin, ws[n].actions[i], i);
  }

  /** The action a tool leaves stays its user's, on its record, and expires a day after it was made. */
  lemma OneDayToUndo(ws: seq<World>, acts: seq<Action>, m: nat, n: nat)
    requires IsRun(ws, acts) && m < n < |ws| && (acts[m].ToolEdit? || acts[m].ToolAdd? || acts[m].ToolCreate?)
    ensures var i := |ws[m].actions|;
            && i < |ws[n].actions| && ws[n].actions[i].expires == ws[m].clock + 86400
            && ws[n].actions[i].user == acts[m].user && ws[n].actions[i].record == acts[m].key
            && (acts[m].ToolEdit? <==> ws[n].actions[i].kind.FieldRestore?)
            && (acts[m].ToolAdd? <==> ws[n].actions[i].kind.RowDelete?)
  {
    assert Step(ws[m], acts[m], ws[m + 1]);
    ActionsStay(ws, acts, m + 1, n, |ws[m].actions|);
  }

  /** At any time at most one field change of a record can be undone. */
  lemma OneUndoable(ws: seq<World>, acts: seq<Action>, n: nat, i: nat, j: nat)
    requires IsRun(ws, acts) && n < |ws| && i < |ws[n].actions| && j < |ws[n].actions|
    requires ws[n].actions[i].kind.FieldRestore? && ws[n].actions[j].kind.FieldRestore?
    requires ws[n].actions[i].record == ws[n].actions[j].record
    requires Refused(ws[n], ws[n].actions[i].record.tenant, ws[n].actions[i].user, i).None?
    requires Refused(ws[n], ws[n].actions[j].record.tenant, ws[n].actions[j].user, j).None?
    ensures i == j
  {
    RunKeeps(ws, acts, n);
  }

  /** An undo is itself a write: no earlier change of the record can be undone after it, ever. */
  lemma UndoEndsTheChain(ws: seq<World>, acts: seq<Action>, m: nat, n: nat, i: nat)
    requires IsRun(ws, acts) && m < n < |ws| && acts[m].TryUndo? && i < |ws[m].actions| && acts[m].n < |ws[m].actions|
    requires Refused(ws[m], acts[m].tenant, acts[m].user, acts[m].n).None?
    requires ws[m].actions[acts[m].n].kind.FieldRestore? && ws[m].actions[i].kind.FieldRestore?
    requires ws[m].actions[i].record == ws[m].actions[acts[m].n].record
    ensures i < |ws[n].actions| && Refused(ws[n], ws[n].actions[i].record.tenant, ws[n].actions[i].user, i).Some?
  {
    var key := ws[m].actions[i].record;
    RunKeeps(ws, acts, m);
    assert RowShape(ws[m].actions[i], ws[m].version);
    ActionsStay(ws, acts, m, n, i);
    assert Step(ws[m], acts[m], ws[m + 1]);
    assert ws[m + 1].records[key].version > ws[m].version;
    if key in ws[n].records && ws[n].records[key].version <= ws[m].version {
      SameVersionUntouched(ws, acts, m, n, key);
    }
  }

  /** Undone is for good: the same action never goes through twice. */
  lemma UndoneOnce(ws: seq<World>, acts: seq<Action>, m: nat, n: nat)
    requires IsRun(ws, acts) && m < n < |acts| && acts[m].TryUndo? && acts[n].TryUndo? && acts[m].n == acts[n].n
    requires Refused(ws[m], acts[m].tenant, acts[m].user, acts[m].n).None?
    ensures Refused(ws[n], acts[n].tenant, acts[n].user, acts[n].n).Some?
  {
    assert Step(ws[m], acts[m], ws[m + 1]);
    ActionsStay(ws, acts, m + 1, n, acts[m].n);
  }

  /** A tool's insert puts in exactly the rows it lists, and an undo that follows takes them out again. */
  lemma InsertThenUndo(ws: seq<World>, acts: seq<Action>, m: nat)
    requires IsRun(ws, acts) && m < |acts| && acts[m].ToolAdd?
    ensures forall k :: k in ws[m + 1].rows <==> k in ws[m].rows || k in Listed(acts[m].key.tenant, acts[m].deletes)
    ensures forall k | k in ws[m].rows :: ws[m + 1].rows[k] == ws[m].rows[k]
    ensures forall k | k in Listed(acts[m].key.tenant, acts[m].deletes) ::
              k !in ws[m].rows && k in ws[m + 1].rows && ws[m + 1].rows[k] == acts[m].text
    ensures m + 1 < |acts| && acts[m + 1] == TryUndo(acts[m].key.tenant, acts[m].user, |ws[m].actions|) ==>
              ws[m + 2].rows == ws[m].rows && ws[m + 2].records == ws[m].records
  {
    assert Step(ws[m], acts[m], ws[m + 1]);
    RunKeeps(ws, acts, m);
    if m + 1 < |acts| && acts[m + 1] == TryUndo(acts[m].key.tenant, acts[m].user, |ws[m].actions|) {
      assert Step(ws[m + 1], acts[m + 1], ws[m + 2]);
      assert Refused(ws[m + 1], acts[m].key.tenant, acts[m].user, |ws[m].actions|).None?;
    }
  }

  /** Undoing an insert removes the rows that action inserted and are still there, and nothing else. */
  lemma RowDeleteRemovesItsOwn(ws: seq<World>, acts: seq<Action>, n: nat)
    requires IsRun(ws, acts) && n < |acts| && acts[n].TryUndo?
    requires Refused(ws[n], acts[n].tenant, acts[n].user, acts[n].n).None? && ws[n].actions[acts[n].n].kind.RowDelete?
    ensures ws[n].rows.Keys <= ws[n].origin.Keys
    ensures forall k :: k in ws[n + 1].rows <==> k in ws[n].rows && ws[n].origin[k] != Some(acts[n].n)
    ensures forall k | k in ws[n + 1].rows :: ws[n + 1].rows[k] == ws[n].rows[k]
    ensures ws[n + 1].records == ws[n].records
  {
    RunKeeps(ws, acts, n);
    assert Step(ws[n], acts[n], ws[n + 1]);
    assert OwnsListed(ws[n].origin, ws[n].actions[acts[n].n], acts[n].n);
  }

  /** The status 'conflict' is written inside the transaction that the refusal rolls back: no action ever
      carries it, so a refused undo can be tried again. */
  lemma ConflictIsNeverKept(ws: seq<World>, acts: seq<Action>, n: nat, i: nat)
    requires IsRun(ws, acts) && n < |ws| && i < |ws[n].actions|
    ensures ws[n].actions[i].status != Conflict
  {
    RunKeeps(ws, acts, n);
    assert RowShape(ws[n].actions[i], ws[n].version);
  }
}
