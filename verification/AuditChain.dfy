/** The hash chain of backend/audit_ledger.py. SHA-256 is a free constructor: equal digests have equal
    blocks, and no digest is the genesis sentinel. BlockEncoding justifies the first half for the text
    that is really hashed. */
module AuditChain {
  import opened Options

  function Smaller(a: nat, b: nat): nat {
    if a < b then a else b
  }

  /** A tenant or target reference: absent, a uuid with the spelling it was given in, or some other text a
      uuid column refuses. */
  datatype Ident = NoId | Uuid(value: string, spelling: string) | Loose(text: string)

  /** metadata._fallback: where a drained row came from, and what its uuid columns could not keep. */
  datatype Provenance = Provenance(entry: Hash, intact: bool, tenant: Option<string>, target: Option<string>)

  /** Canonical JSON metadata, with the provenance key set apart. */
  datatype Meta = Meta(text: string, origin: Option<Provenance>)

  datatype Entry = Entry(
    createdAt: int, category: string, action: string, tenant: Ident, user: string, target: Ident, meta: Meta)

  datatype Hash = Genesis | Digest(entry: Entry, prev: Hash)

  datatype Row = Row(entry: Entry, prev: Hash, hash: Hash)

  function Sealed(entry: Entry, prev: Hash): Row {
    Row(entry, prev, Digest(entry, prev))
  }

  /** What comes back out of a uuid column: the value in its canonical spelling. */
  function ColumnIdent(id: Ident): Ident {
    if id.Uuid? then Uuid(id.value, id.value) else id
  }

  function Respelled(entry: Entry): Entry {
    entry.(tenant := ColumnIdent(entry.tenant), target := ColumnIdent(entry.target))
  }

  /** Both ids are spelled as a uuid column spells them. */
  predicate Canonical(entry: Entry) {
    Respelled(entry) == entry
  }

  /** A uuid column takes both ids. */
  predicate Accepted(entry: Entry) {
    !entry.tenant.Loose? && !entry.target.Loose?
  }

  /** The row record() leaves in Postgres: its hash is taken over the ids as they were given, its columns
      keep the ids as they spell them. */
  function Inserted(entry: Entry, prev: Hash): Row {
    Row(Respelled(entry), prev, Digest(entry, prev))
  }

  /** Does the row's hash recompute from its columns? */
  predicate Recomputes(row: Row) {
    row.hash == Digest(row.entry, row.prev)
  }

  /** `_pg_row_links`: the row names its predecessor and its own hash recomputes. */
  predicate Links(row: Row, expected: Hash) {
    row.prev == expected && row.hash == Digest(row.entry, row.prev)
  }

  /** What verify_chain answers when it starts from `anchor`. */
  predicate Verifies(rows: seq<Row>, anchor: Hash) {
    rows != [] ==> Links(rows[0], anchor) && Verifies(rows[1..], rows[0].hash)
  }

  function Head(rows: seq<Row>, anchor: Hash): Hash {
    if rows == [] then anchor else rows[|rows| - 1].hash
  }

  /** The hash row `i` has to name. */
  function Expected(rows: seq<Row>, anchor: Hash, i: nat): Hash
    requires i <= |rows|
  {
    if i == 0 then anchor else rows[i - 1].hash
  }

  predicate BrokenAt(rows: seq<Row>, anchor: Hash, i: nat)
    requires i < |rows|
  {
    !Links(rows[i], Expected(rows, anchor, i))
  }

  function Depth(h: Hash): nat {
    match h
    case Genesis => 0
    case Digest(_, prev) => 1 + Depth(prev)
  }

  // ---- Walking a chain ----

  /** A chain verifies exactly when none of its links is broken. */
  lemma {:induction false} VerifiesPointwise(rows: seq<Row>, anchor: Hash)
    ensures Verifies(rows, anchor) <==> forall i :: 0 <= i < |rows| ==> !BrokenAt(rows, anchor, i)
  {
    if rows != [] {
      var rest := rows[1..];
      VerifiesPointwise(rest, rows[0].hash);
      forall i | 0 <= i < |rest| ensures BrokenAt(rest, rows[0].hash, i) == BrokenAt(rows, anchor, i + 1) {
      }
      if forall i :: 0 <= i < |rows| ==> !BrokenAt(rows, anchor, i) {
        assert !BrokenAt(rows, anchor, 0);
        forall i | 0 <= i < |rest| ensures !BrokenAt(rest, rows[0].hash, i) {
          assert !BrokenAt(rows, anchor, i + 1);
        }
      }
      if Verifies(rows, anchor) {
        forall i | 0 <= i < |rows| ensures !BrokenAt(rows, anchor, i) {
          if i > 0 {
            assert !BrokenAt(rest, rows[0].hash, i - 1);
          }
        }
      }
    }
  }

  lemma {:induction false} VerifiesConcat(a: seq<Row>, b: seq<Row>, anchor: Hash)
    ensures Verifies(a + b, anchor) <==> Verifies(a, anchor) && Verifies(b, Head(a, anchor))
  {
    if a == [] {
      assert a + b == b;
    } else {
      assert (a + b)[1..] == a[1..] + b;
      VerifiesConcat(a[1..], b, a[0].hash);
    }
  }

  lemma AppendKeeps(rows: seq<Row>, anchor: Hash, entry: Entry)
    requires Verifies(rows, anchor)
    ensures Verifies(rows + [Sealed(entry, Head(rows, anchor))], anchor)
    ensures Head(rows + [Sealed(entry, Head(rows, anchor))], anchor) == Digest(entry, Head(rows, anchor))
  {
    VerifiesConcat(rows, [Sealed(entry, Head(rows, anchor))], anchor);
  }

  /** A recorded row links exactly when its ids were spelled canonically. */
  lemma InsertVerifies(rows: seq<Row>, anchor: Hash, entry: Entry)
    ensures Verifies(rows + [Inserted(entry, Head(rows, anchor))], anchor)
            <==> Verifies(rows, anchor) && Canonical(entry)
  {
    VerifiesConcat(rows, [Inserted(entry, Head(rows, anchor))], anchor);
  }

  // ---- Depth: hashes never repeat along a chain ----

  lemma {:induction false} DepthAt(rows: seq<Row>, anchor: Hash, i: nat)
    requires Verifies(rows, anchor) && i < |rows|
    ensures Depth(rows[i].hash) == Depth(anchor) + i + 1
    decreases i
  {
    VerifiesPointwise(rows, anchor);
    assert !BrokenAt(rows, anchor, i);
    if i > 0 {
      DepthAt(rows, anchor, i - 1);
    }
  }

  lemma HeadDepth(rows: seq<Row>, anchor: Hash)
    requires Verifies(rows, anchor)
    ensures Depth(Head(rows, anchor)) == Depth(anchor) + |rows|
  {
    if rows != [] {
      DepthAt(rows, anchor, |rows| - 1);
    }
  }

  lemma HashesDistinct(rows: seq<Row>, anchor: Hash, i: nat, j: nat)
    requires Verifies(rows, anchor) && i < |rows| && j < |rows| && rows[i].hash == rows[j].hash
    ensures i == j
  {
    DepthAt(rows, anchor, i);
    DepthAt(rows, anchor, j);
  }

  // ---- Tamper evidence ----

  /** Two verifying chains that end in the same hash agree row for row, backwards, as far as the shorter
      one reaches, whatever anchors they start from. */
  lemma {:induction false} SameHeadSameTail(a: seq<Row>, b: seq<Row>, anchor: Hash, anchor': Hash)
    requires Verifies(a, anchor) && Verifies(b, anchor') && Head(a, anchor) == Head(b, anchor') && |a| <= |b|
    ensures a == b[|b| - |a|..]
    ensures anchor == Expected(b, anchor', |b| - |a|)
    decreases |a|
  {
    if a != [] {
      var n, m := |a| - 1, |b| - 1;
      VerifiesPointwise(a, anchor);
      VerifiesPointwise(b, anchor');
      assert !BrokenAt(a, anchor, n) && !BrokenAt(b, anchor', m);
      assert a[n] == b[m];
      assert a == a[..n] + [a[n]] && b == b[..m] + [b[m]];
      VerifiesConcat(a[..n], [a[n]], anchor);
      VerifiesConcat(b[..m], [b[m]], anchor');
      SameHeadSameTail(a[..n], b[..m], anchor, anchor');
    }
  }

  /** Altering, dropping, inserting or reordering rows under the same anchor and the same final hash is
      always caught: only the original rows verify. */
  lemma TamperEvidence(a: seq<Row>, b: seq<Row>, anchor: Hash)
    requires Verifies(a, anchor) && Head(a, anchor) == Head(b, anchor)
    ensures Verifies(b, anchor) <==> a == b
  {
    if Verifies(b, anchor) {
      HeadDepth(a, anchor);
      HeadDepth(b, anchor);
      SameHeadSameTail(a, b, anchor, anchor);
    }
  }
}
