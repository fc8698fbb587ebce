/** The statements of a tool's field change and of undo_action, as they run (backend/ai_chat_store.py). */
module UndoStore {
  import opened Options
  import opened Undo

  class Store {
    var records: map<RecordKey, Record>
    var rows: map<RowKey, string>
    var actions: seq<ActionRow>
    var clock: int
    var version: nat
    ghost var origin: map<RowKey, Option<nat>>

    constructor ()
      ensures Now() == EMPTY
    {
      records, rows, actions, clock, version, origin := map[], map[], [], 0, 0, map[];
    }

    ghost function Now(): World
      reads this
    {
      World(records, rows, origin, actions, clock, version)
    }

    /** The shared tail of the field-editing tools: read under FOR UPDATE, write, record the action. */
    method UpdateFields(
      user: string, key: RecordKey, fields: map<string, Value>, permitted: set<string>, marks: map<string, Value>)
      returns (ok: bool)
      requires permitted <= UndoColumns(key.kind) && fields.Keys !! marks.Keys
      requires key in records ==> (permitted + marks.Keys) <= records[key].columns.Keys
      modifies this
      ensures ok <==> fields != map[] && fields.Keys <= permitted && key in old(records)
      ensures !ok ==> Now() == old(Now())
      ensures ok ==> Step(old(Now()), ToolEdit(user, key, fields, marks), Now())
      ensures ok ==> key in records && records == old(records)[key := records[key]]
                     && records[key].columns == old(records)[key].columns + (fields + marks)
                     && records[key].version == version == old(version) + 1
    {
      if fields == map[] || !(fields.Keys <= permitted) || key !in records {
        return false;
      }
      var current := records[key];
      var before := map c | c in fields && c in current.columns :: current.columns[c];
      version := version + 1;
      records := records[key := Record(current.columns + (fields + marks), version)];
      assert before == Before(current, fields);
      RecordAction(user, key, before, Some(version), FieldRestore, []);
      assert Now() == ToolEdited(old(Now()), user, key, fields, marks);
      ok := true;
    }

    /** `_record_action` */
    method RecordAction(
      user: string, key: RecordKey, before: map<string, Value>, expected: Option<nat>, kind: UndoKind,
          deletes: seq<Delete>)
      modifies this`actions
      ensures actions == old(actions) + [ActionRow(user, key, before, expected, kind, deletes, Applied, clock + WINDOW)]
    {
      actions := actions + [ActionRow(user, key, before, expected, kind, deletes, Applied, clock + 24 * 60 * 60)];
    }

    /** `_undo_field_restore`: on a concurrent edit it marks the action before it raises. */
    method UndoFieldRestore(n: nat) returns (refusal: Option<Refusal>)
      requires n < |actions| && actions[n].kind.FieldRestore?
      modifies this`records, this`actions, this`version
      ensures refusal == FieldRefusal(old(records), old(actions[n]))
      ensures refusal.None? ==>
                && actions == old(actions) && old(actions[n].record) in old(records)
                && Now() == old(Edited(Now(), actions[n].record, actions[n].before))
    {
      var a := actions[n];
      if a.record !in records || a.expected != Some(records[a.record].version) {
        actions := actions[n := a.(status := Conflict)];
        return Some(Changed);
      }
      if a.before == map[] {
        return Some(NothingBefore);
      }
      if !(a.before.Keys <= UndoColumns(a.record.kind)) {
        return Some(NotRestorable);
      }
      version := version + 1;
      records := records[a.record := Record(records[a.record].columns + a.before, version)];
      return None;
    }

    /** `_undo_row_delete`: table by table, raising at the first table it may not touch. */
    method UndoRowDelete(tenant: string, deletes: seq<Delete>) returns (refusal: Option<Refusal>)
      modifies this`rows
      ensures refusal == if AllDeletable(deletes) then None else Some(BadTable)
      ensures refusal.None? ==> rows == old(rows) - Listed(tenant, deletes)
    {
      var i := 0;
      while i < |deletes|
        invariant i <= |deletes| && AllDeletable(deletes[..i])
        invariant rows == old(rows) - Listed(tenant, deletes[..i])
      {
        var target := deletes[i];
        if target.ids != [] {
          if target.table !in DELETABLE {
            return Some(BadTable);
          }
          rows := map k | k in rows
              && !(k.tenant == tenant && k.table == target.table && k.id in target.ids) :: rows[k];
        }
        ListedNext(tenant, deletes, i);
        i := i + 1;
      }
      assert deletes[..i] == deletes;
      return None;
    }

    /** undo_action: a refusal raised anywhere inside rolls the transaction back. */
    method UndoAction(tenant: string, user: string, n: nat) returns (refusal: Option<Refusal>)
      modifies this
      ensures refusal == old(Refused(Now(), tenant, user, n))
      ensures Step(old(Now()), TryUndo(tenant, user, n), Now())
      ensures refusal.Some? ==> Now() == old(Now())
      ensures refusal == Some(NotFound) <==>
                n >= |old(actions)| || old(actions)[n].record.tenant != tenant || old(actions)[n].user != user
      ensures refusal == Some(NotUndoable) ==> old(actions)[n].status in {Undone, Conflict}
      ensures refusal == Some(Expired) ==> old(actions)[n].status == Applied && old(actions)[n].expires <= clock
      ensures refusal == Some(CannotReverse) ==> old(actions)[n].kind == Irreversible
      ensures refusal == Some(Changed) ==>
                var key := old(actions)[n].record;
                key !in old(records) || old(actions)[n].expected != Some(old(records)[key].version)
      ensures refusal.None? ==>
                && old(actions)[n].status == Applied && clock < old(actions)[n].expires
                && actions == old(actions)[n := old(actions)[n].(status := Undone)]
    {
      if n >= |actions| || actions[n].record.tenant != tenant || actions[n].user != user {
        return Some(NotFound);
      }
      var a := actions[n];
      if a.status != Applied {
        return Some(NotUndoable);
      }
      if a.expires <= clock {
        return Some(Expired);
      }
      if a.kind.Irreversible? {
        return Some(CannotReverse);
      }
      var begun := (records, rows, actions, version);
      if a.kind.RowDelete? {
        refusal := UndoRowDelete(tenant, a.deletes);
      } else {
        refusal := UndoFieldRestore(n);
      }
      if refusal.Some? {
        records, rows, actions, version := begun.0, begun.1, begun.2, begun.3;
      } else {
        actions := actions[n := a.(status := Undone)];
      }
    }
  }

  lemma ListedNext(tenant: string, deletes: seq<Delete>, i: nat)
    requires i < |deletes|
    ensures forall k :: k in Listed(tenant, deletes[..i + 1])
                        <==> k in Listed(tenant, deletes[..i])
                             || (k.tenant == tenant && k.table == deletes[i].table && k.id in deletes[i].ids)
  {
    assert deletes[..i + 1] == deletes[..i] + [deletes[i]];
  }
}
