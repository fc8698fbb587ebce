/** The scheduled, bounded verification of the audit chain (backend/audit_ledger.py `_verify_segment_on`)
    against the full walk of verify_chain. */
module ChainVerifier {
  import opened Options
  import opened AuditChain

  /** One row of audit_ledger with its sequence number. */
  datatype Stored = Stored(seqNo: int, row: Row)

  /** The newest expiry checkpoint; (0, Genesis) when there is none. */
  datatype Anchor = Anchor(seqNo: int, hash: Hash)

  datatype Cursor = Cursor(seqNo: int, hash: Hash)

  /** The bookkeeping row of audit_chain_verification. */
  datatype State = State(
    cursor: Option<Cursor>, rowsInPass: nat, lastPassRows: Option<nat>, status: Option<Status>,
    brokenSeq: Option<int>, alertedSeq: Option<int>)

  datatype Status = Intact | Broken | Empty

  datatype Report = Report(checked: nat, status: Status, brokenSeq: Option<int>, passComplete: bool, alert: bool)

  function RowsOf(table: seq<Stored>): (r: seq<Row>)
    ensures |r| == |table| && forall i :: 0 <= i < |r| ==> r[i] == table[i].row
  {
    seq(|table|, i requires 0 <= i < |table| => table[i].row)
  }

  /** `bigserial` under the chain lock: sequence numbers grow. */
  ghost predicate Ordered(table: seq<Stored>) {
    forall i, j :: 0 <= i < j < |table| ==> table[i].seqNo < table[j].seqNo
  }

  // ---- What a segment is, without pages ----

  function StartOf(state: State, anchor: Anchor): Cursor {
    if state.cursor.None? || state.cursor.value.seqNo < anchor.seqNo
    then Cursor(anchor.seqNo, anchor.hash)
    else state.cursor.value
  }

  predicate NewPass(state: State, anchor: Anchor) {
    state.cursor.None? || state.cursor.value.seqNo < anchor.seqNo
  }

  /** The rows after sequence number `after`: a suffix, since the table is in sequence order. */
  function After(table: seq<Stored>, after: int): seq<Stored> {
    if table == [] then []
    else if table[0].seqNo > after then table
    else After(table[1..], after)
  }

  /** The first row of `rows` that does not link, walking on past it. */
  function FirstBreak(rows: seq<Stored>, expected: Hash): Option<int> {
    if rows == [] then None
    else if !Links(rows[0].row, expected) then Some(rows[0].seqNo)
    else FirstBreak(rows[1..], rows[0].row.hash)
  }

  function LastCursor(rows: seq<Stored>, start: Cursor): Cursor {
    if rows == [] then start else Cursor(rows[|rows| - 1].seqNo, rows[|rows| - 1].row.hash)
  }

  /** The rows one run looks at. */
  function SegmentRows(table: seq<Stored>, anchor: Anchor, state: State, maxRows: nat): seq<Stored> {
    var rest := After(table, StartOf(state, anchor).seqNo);
    rest[..Smaller(maxRows, |rest|)]
  }

  function ReportOf(table: seq<Stored>, anchor: Anchor, state: State, maxRows: nat): Report {
    var start := StartOf(state, anchor);
    var rows := SegmentRows(table, anchor, state, maxRows);
    var inPass := |rows| + if NewPass(state, anchor) then 0 else state.rowsInPass;
    var broken := FirstBreak(rows, start.hash);
    Report(|rows|, if broken.Some? then Broken else if inPass == 0 then Empty else Intact, broken,
           |rows| < maxRows, broken.Some? && state.alertedSeq != broken)
  }

  function StateAfter(table: seq<Stored>, anchor: Anchor, state: State, maxRows: nat): State {
    var report := ReportOf(table, anchor, state, maxRows);
    var rows := SegmentRows(table, anchor, state, maxRows);
    var inPass := |rows| + if NewPass(state, anchor) then 0 else state.rowsInPass;
    State(
      if report.passComplete then None else Some(LastCursor(rows, StartOf(state, anchor))),
      if report.passComplete then 0 else inPass,
      if report.passComplete then Some(inPass) else state.lastPassRows,
      Some(report.status),
      if report.brokenSeq.Some? then report.brokenSeq else state.brokenSeq,
      if report.alert then report.brokenSeq else state.alertedSeq)
  }

  // ---- The run as the code does it: page by page, carrying the cursor ----

  lemma {:induction false} AfterTail(table: seq<Stored>, after: int, n: nat)
    requires Ordered(table) && n <= |After(table, after)|
    ensures n > 0 ==> After(table, After(table, after)[n - 1].seqNo) == After(table, after)[n..]
  {
    if table != [] && n > 0 {
      if table[0].seqNo > after {
        SkipPrefix(table, n);
      } else {
        AfterTail(table[1..], after, n);
        var last := After(table, after)[n - 1];
        AfterMember(table[1..], after, n - 1);
        assert table[0].seqNo < last.seqNo;
      }
    }
  }

  lemma {:induction false} AfterMember(table: seq<Stored>, after: int, i: nat)
    requires i < |After(table, after)|
    ensures After(table, after)[i] in table && |After(table, after)| <= |table|
    ensures After(table, after) == table[|table| - |After(table, after)|..]
  {
    if table[0].seqNo <= after {
      AfterMember(table[1..], after, i);
    }
  }

  lemma {:induction false} SkipPrefix(table: seq<Stored>, n: nat)
    requires Ordered(table) && 0 < n <= |table|
    ensures After(table, table[n - 1].seqNo) == table[n..]
  {
    if n > 1 {
      SkipPrefix(table[1..], n - 1);
    } else if |table| > 1 {
      assert table[1..][0].seqNo > table[0].seqNo;
    }
  }

  lemma {:induction false} FirstBreakConcat(a: seq<Stored>, b: seq<Stored>, expected: Hash)
    ensures FirstBreak(a + b, expected)
            == if FirstBreak(a, expected).Some? then FirstBreak(a, expected)
                else FirstBreak(b, LastCursor(a, Cursor(0, expected)).hash)
  {
    if a == [] {
      assert a + b == b;
    } else {
      assert (a + b)[1..] == a[1..] + b;
      FirstBreakConcat(a[1..], b, a[0].row.hash);
    }
  }

  lemma LastCursorConcat(a: seq<Stored>, b: seq<Stored>, start: Cursor)
    ensures LastCursor(a + b, start) == LastCursor(b, LastCursor(a, start))
  {
  }

  /** No row past the anchor was there in this pass, nor is one there now. */
  ghost predicate Unseen(table: seq<Stored>, anchor: Anchor, state: State) {
    if NewPass(state, anchor) then forall i :: 0 <= i < |table| ==> table[i].seqNo <= anchor.seqNo
    else state.rowsInPass == 0 && forall i :: 0 <= i < |table| ==> table[i].seqNo <= state.cursor.value.seqNo
  }

  lemma {:induction false} NothingAfter(table: seq<Stored>, after: int)
    requires Ordered(table)
    ensures After(table, after) == [] <==> forall i :: 0 <= i < |table| ==> table[i].seqNo <= after
  {
    if table != [] {
      NothingAfter(table[1..], after);
      assert forall i :: 0 < i < |table| ==> table[i] == table[1..][i - 1];
    }
  }

  class Verifier {
    var state: State

    constructor ()
      ensures state == State(None, 0, None, None, None, None)
    {
      state := State(None, 0, None, None, None, None);
    }

    /** SELECT ... WHERE seq > $1 ORDER BY seq LIMIT $2 */
    method FetchPage(table: seq<Stored>, after: int, limit: nat) returns (rows: seq<Stored>)
      ensures rows == After(table, after)[..Smaller(limit, |After(table, after)|)]
    {
      var i := 0;
      while i < |table| && table[i].seqNo <= after
        invariant i <= |table| && After(table, after) == After(table[i..], after)
      {
        assert table[i..][1..] == table[i + 1..];
        i := i + 1;
      }
      var rest := table[i..];
      rows := rest[..if limit < |rest| then limit else |rest|];
    }

    /** The paging loop: at most `maxRows` links from `start`, or up to the head. */
    method Scan(table: seq<Stored>, start: Cursor, maxRows: nat, page: nat)
      returns (checked: nat, broken: Option<int>, cursor: Cursor, atHead: bool)
      requires Ordered(table) && maxRows > 0 && page > 0
      ensures var rest := After(table, start.seqNo); var rows := rest[..Smaller(maxRows, |rest|)];
              && checked == |rows| && (atHead <==> |rows| < maxRows)
              && broken == FirstBreak(rows, start.hash) && cursor == LastCursor(rows, start)
    {
      ghost var rest := After(table, start.seqNo);
      assert rest[..0] == [] && rest[0..] == rest;
      cursor, checked, broken, atHead := start, 0, None, false;
      while checked < maxRows && !atHead
        invariant checked <= Smaller(maxRows, |rest|)
        invariant cursor == LastCursor(rest[..checked], start)
        invariant After(table, cursor.seqNo) == rest[checked..]
        invariant broken == FirstBreak(rest[..checked], start.hash)
        invariant atHead ==> checked == |rest| < maxRows
        decreases maxRows - checked, if atHead then 0 else 1
      {
        var limit := if page < maxRows - checked then page else maxRows - checked;
        var rows := FetchPage(table, cursor.seqNo, limit);
        if rows == [] {
          atHead := true;
        } else {
          var pageBreak, last := CheckPage(rows, cursor);
          PageDone(table, rest, start, checked, |rows|);
          broken := if broken.Some? then broken else pageBreak;
          cursor := last;
          checked := checked + |rows|;
        }
      }
    }

    /** One bounded run. Whatever the page size, it checks the same rows and reports the same break. */
    method VerifySegment(table: seq<Stored>, anchor: Anchor, maxRows: nat, page: nat) returns (report: Report)
      requires Ordered(table) && maxRows > 0 && page > 0
      modifies this
      ensures report == ReportOf(table, anchor, old(state), maxRows)
      ensures state == StateAfter(table, anchor, old(state), maxRows)
      ensures var was := old(state);
              var before := if was.cursor.Some? && was.cursor.value.seqNo >= anchor.seqNo then was.rowsInPass else 0;
              if report.passComplete
              then state.cursor.None? && state.rowsInPass == 0 && state.lastPassRows == Some(before + report.checked)
              else state.cursor.Some? && state.rowsInPass == before + report.checked
                   && state.lastPassRows == was.lastPassRows
      ensures report.status == Broken <==> report.brokenSeq.Some?
      ensures report.status == Empty <==> Unseen(table, anchor, old(state)) && report.brokenSeq.None?
    {
      NothingAfter(table, StartOf(state, anchor).seqNo);
      var newPass := state.cursor.None? || state.cursor.value.seqNo < anchor.seqNo;
      var start := if newPass then Cursor(anchor.seqNo, anchor.hash) else state.cursor.value;
      var inPass := if newPass then 0 else state.rowsInPass;
      var checked, broken, cursor, atHead := Scan(table, start, maxRows, page);
      inPass := inPass + checked;
      var status := if broken.Some? then Broken else if inPass == 0 then Empty else Intact;
      var alert := broken.Some? && broken != state.alertedSeq;
      report := Report(checked, status, broken, atHead, alert);
      state := State(
        if atHead then None else Some(cursor),
        if atHead then 0 else inPass,
        if atHead then Some(inPass) else state.lastPassRows,
        Some(status),
        if broken.Some? then broken else state.brokenSeq,
        if alert then broken else state.alertedSeq);
    }

    /** The inner loop: note the first row that does not link, and go on. */
    method CheckPage(rows: seq<Stored>, start: Cursor) returns (broken: Option<int>, cursor: Cursor)
      ensures broken == FirstBreak(rows, start.hash) && cursor == LastCursor(rows, start)
    {
      broken, cursor := None, start;
      var i := 0;
      while i < |rows|
        invariant i <= |rows| && cursor == LastCursor(rows[..i], start)
        invariant FirstBreak(rows, start.hash) == if broken.Some? then broken else FirstBreak(rows[i..], cursor.hash)
      {
        assert rows[i..][1..] == rows[i + 1..];
        if broken.None? && !Links(rows[i].row, cursor.hash) {
          broken := Some(rows[i].seqNo);
        }
        cursor := Cursor(rows[i].seqNo, rows[i].row.hash);
        i := i + 1;
      }
      assert rows[..i] == rows;
    }
  }

  lemma PageDone(table: seq<Stored>, rest: seq<Stored>, start: Cursor, done: nat, n: nat)
    requires Ordered(table) && rest == After(table, start.seqNo) && 0 < n && done + n <= |rest|
    ensures var cursor := LastCursor(rest[..done], start); var rows := rest[done..][..n];
            && rest[..done] + rows == rest[..done + n]
            && LastCursor(rest[..done + n], start) == LastCursor(rows, cursor)
            && After(table, LastCursor(rest[..done + n], start).seqNo) == rest[done + n..]
            && FirstBreak(rest[..done + n], start.hash)
               == if FirstBreak(rest[..done], start.hash).Some? then FirstBreak(rest[..done], start.hash)
                  else FirstBreak(rows, cursor.hash)
  {
    var a, b := rest[..done], rest[done..][..n];
    assert a + b == rest[..done + n];
    FirstBreakConcat(a, b, start.hash);
    LastCursorConcat(a, b, start);
    AfterTail(table, start.seqNo, done + n);
  }
}
