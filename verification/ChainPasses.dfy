/** A complete pass of bounded verification runs against verify_chain. */
module ChainPasses {
  import opened Options
  import opened AuditChain
  import opened ChainVerifier

  /** One pass over a fixed table, with whatever row budgets the runs are given. */
  function Reports(table: seq<Stored>, anchor: Anchor, state: State, sizes: seq<nat>): (r: seq<Report>)
    ensures |r| == |sizes|
    decreases |sizes|
  {
    if sizes == [] then []
    else [ReportOf(table, anchor, state, sizes[0])]
         + Reports(table, anchor, StateAfter(table, anchor, state, sizes[0]), sizes[1..])
  }

  function StateAfterAll(table: seq<Stored>, anchor: Anchor, state: State, sizes: seq<nat>): State
    decreases |sizes|
  {
    if sizes == [] then state
    else StateAfterAll(table, anchor, StateAfter(table, anchor, state, sizes[0]), sizes[1..])
  }

  ghost predicate OnePass(reports: seq<Report>) {
    reports != [] && forall k :: 0 <= k < |reports| ==> (reports[k].passComplete <==> k == |reports| - 1)
  }

  ghost predicate Budgets(sizes: seq<nat>) {
    forall k :: 0 <= k < |sizes| ==> sizes[k] > 0
  }

  function Checked(reports: seq<Report>): nat {
    if reports == [] then 0 else reports[0].checked + Checked(reports[1..])
  }

  /** The first break any of the runs reports. */
  function FirstReported(reports: seq<Report>): Option<int> {
    if reports == [] then None
    else if reports[0].brokenSeq.Some? then reports[0].brokenSeq
    else FirstReported(reports[1..])
  }

  // ---- The full walk ----

  /** The walk finds no break exactly when verify_chain answers true. */
  lemma {:induction false} WalkIsVerifyChain(table: seq<Stored>, expected: Hash)
    ensures FirstBreak(table, expected).None? <==> Verifies(RowsOf(table), expected)
  {
    if table != [] {
      assert RowsOf(table)[1..] == RowsOf(table[1..]);
      WalkIsVerifyChain(table[1..], table[0].row.hash);
    }
  }

  /** The break found is the first: the rows before it verify, and it names a row. */
  lemma {:induction false} BreakIsFirst(table: seq<Stored>, expected: Hash) returns (i: nat)
    requires FirstBreak(table, expected).Some?
    ensures i < |table| && table[i].seqNo == FirstBreak(table, expected).value
    ensures Verifies(RowsOf(table[..i]), expected) && !Verifies(RowsOf(table[..i + 1]), expected)
  {
    var rows := RowsOf(table[..1]);
    if !Links(table[0].row, expected) {
      i := 0;
    } else {
      i := BreakIsFirst(table[1..], table[0].row.hash);
      var a, b := RowsOf(table[..i + 1]), RowsOf(table[..i + 2]);
      i := i + 1;
      assert a[1..] == RowsOf(table[1..][..i - 1]) && b[1..] == RowsOf(table[1..][..i]);
    }
  }

  // ---- The runs of one pass ----

  /** One run of a pass that goes on: its rows, and where the next one starts. */
  lemma RunGoesOn(table: seq<Stored>, anchor: Anchor, state: State, size: nat)
    requires Ordered(table) && size > 0 && !ReportOf(table, anchor, state, size).passComplete
    ensures var start := StartOf(state, anchor); var rest := After(table, start.seqNo);
            var next := StateAfter(table, anchor, state, size);
            && size <= |rest| && SegmentRows(table, anchor, state, size) == rest[..size]
            && !NewPass(next, anchor) && StartOf(next, anchor) == LastCursor(rest[..size], start)
            && After(table, StartOf(next, anchor).seqNo) == rest[size..]
  {
    var start := StartOf(state, anchor);
    AfterTail(table, start.seqNo, size);
    AfterAbove(table, start.seqNo);
  }

  lemma {:induction false} AfterAbove(table: seq<Stored>, after: int)
    requires Ordered(table)
    ensures Ordered(After(table, after))
    ensures forall i :: 0 <= i < |After(table, after)| ==> After(table, after)[i].seqNo > after
  {
    if table != [] && table[0].seqNo <= after {
      AfterAbove(table[1..], after);
    }
  }

  lemma HashOnly(rows: seq<Stored>, a: Cursor, b: Cursor)
    requires a.hash == b.hash
    ensures LastCursor(rows, a).hash == LastCursor(rows, b).hash
  {
  }

  /** The runs left in a pass report the first break of the rows left, and check each of them once. */
  lemma {:induction false} RestOfPass(table: seq<Stored>, anchor: Anchor, state: State, sizes: seq<nat>)
    requires Ordered(table) && Budgets(sizes) && OnePass(Reports(table, anchor, state, sizes))
    ensures var start := StartOf(state, anchor); var rest := After(table, start.seqNo);
            var reports := Reports(table, anchor, state, sizes);
            && FirstReported(reports) == FirstBreak(rest, start.hash) && Checked(reports) == |rest|
    ensures StateAfterAll(table, anchor, state, sizes).cursor.None?
    ensures StateAfterAll(table, anchor, state, sizes).lastPassRows
            == Some(|After(table, StartOf(state, anchor).seqNo)|
                    + if NewPass(state, anchor) then 0 else state.rowsInPass)
    decreases |sizes|
  {
    var reports := Reports(table, anchor, state, sizes);
    var next := StateAfter(table, anchor, state, sizes[0]);
    var start := StartOf(state, anchor);
    var rest := After(table, start.seqNo);
    assert reports[0] == ReportOf(table, anchor, state, sizes[0]);
    assert reports[1..] == Reports(table, anchor, next, sizes[1..]);
    if |sizes| == 1 {
      assert reports[0].passComplete && rest[..|rest|] == rest;
    } else {
      var n := sizes[0];
      RunGoesOn(table, anchor, state, n);
      TailIsPass(reports);
      RestOfPass(table, anchor, next, sizes[1..]);
      HashOnly(rest[..n], start, Cursor(0, start.hash));
      FirstBreakConcat(rest[..n], rest[n..], start.hash);
      assert rest[..n] + rest[n..] == rest;
    }
  }

  lemma TailIsPass(reports: seq<Report>)
    requires OnePass(reports) && |reports| > 1
    ensures OnePass(reports[1..])
  {
    var rest := reports[1..];
    forall k | 0 <= k < |rest| ensures rest[k].passComplete <==> k == |rest| - 1 {
      assert rest[k] == reports[k + 1];
    }
  }

  /** Whatever the budgets, the runs of one complete pass over a fixed table check every row after the
      anchor once and the first break they report is the full walk's: some run reports a break exactly
      when verify_chain is false. */
  lemma PassAgrees(table: seq<Stored>, anchor: Anchor, state: State, sizes: seq<nat>)
    requires Ordered(table) && (forall i :: 0 <= i < |table| ==> table[i].seqNo > anchor.seqNo)
    requires NewPass(state, anchor) && Budgets(sizes) && OnePass(Reports(table, anchor, state, sizes))
    ensures var reports := Reports(table, anchor, state, sizes);
            && ((exists k :: 0 <= k < |reports| && reports[k].brokenSeq.Some?)
                <==> !Verifies(RowsOf(table), anchor.hash))
            && FirstReported(reports) == FirstBreak(table, anchor.hash)
            && Checked(reports) == |table|
    ensures StateAfterAll(table, anchor, state, sizes).lastPassRows == Some(|table|)
  {
    assert After(table, anchor.seqNo) == table;
    RestOfPass(table, anchor, state, sizes);
    WalkIsVerifyChain(table, anchor.hash);
    SomeReported(Reports(table, anchor, state, sizes));
  }

  lemma {:induction false} SomeReported(reports: seq<Report>)
    ensures FirstReported(reports).Some? <==> exists k :: 0 <= k < |reports| && reports[k].brokenSeq.Some?
  {
    if reports != [] {
      SomeReported(reports[1..]);
      if FirstReported(reports).Some? && reports[0].brokenSeq.None? {
        var k :| 0 <= k < |reports[1..]| && reports[1..][k].brokenSeq.Some?;
        assert reports[k + 1].brokenSeq.Some?;
      }
      if k :| 0 <= k < |reports| && reports[k].brokenSeq.Some? {
        if k > 0 {
          assert reports[1..][k - 1].brokenSeq.Some?;
        }
      }
    }
  }

  /** No run reports a smaller break than the first one: it is the smallest sequence number reported. */
  lemma {:induction false} FirstIsSmallest(table: seq<Stored>, anchor: Anchor, state: State, sizes: seq<nat>, k: nat)
    requires Ordered(table) && Budgets(sizes) && OnePass(Reports(table, anchor, state, sizes)) && k < |sizes|
    requires Reports(table, anchor, state, sizes)[k].brokenSeq.Some?
    ensures var reports := Reports(table, anchor, state, sizes);
            && reports[k].brokenSeq.value > StartOf(state, anchor).seqNo
            && FirstReported(reports).Some? && FirstReported(reports).value <= reports[k].brokenSeq.value
    decreases |sizes|
  {
    var reports := Reports(table, anchor, state, sizes);
    var next := StateAfter(table, anchor, state, sizes[0]);
    var start := StartOf(state, anchor);
    var rest := After(table, start.seqNo);
    assert reports[0] == ReportOf(table, anchor, state, sizes[0]);
    assert reports[1..] == Reports(table, anchor, next, sizes[1..]);
    AfterAbove(table, start.seqNo);
    if reports[0].brokenSeq.Some? {
      var i := BreakIsFirst(SegmentRows(table, anchor, state, sizes[0]), start.hash);
      assert SegmentRows(table, anchor, state, sizes[0])[i] == rest[i];
    }
    if k > 0 {
      RunGoesOn(table, anchor, state, sizes[0]);
      TailIsPass(reports);
      assert reports[1..][k - 1] == reports[k];
      assert StartOf(next, anchor).seqNo == rest[sizes[0] - 1].seqNo;
      FirstIsSmallest(table, anchor, next, sizes[1..], k - 1);
    }
  }

  /** A pass ends: with one run more than there are rows left, some run reaches the head. */
  lemma {:induction false} PassEnds(table: seq<Stored>, anchor: Anchor, state: State, sizes: seq<nat>) returns (k: nat)
    requires Ordered(table) && Budgets(sizes) && |sizes| > |After(table, StartOf(state, anchor).seqNo)|
    ensures k <= |After(table, StartOf(state, anchor).seqNo)| && Reports(table, anchor, state, sizes)[k].passComplete
    ensures forall j :: 0 <= j < k ==> !Reports(table, anchor, state, sizes)[j].passComplete
    decreases |sizes|
  {
    var reports := Reports(table, anchor, state, sizes);
    k := 0;
    if !ReportOf(table, anchor, state, sizes[0]).passComplete {
      RunGoesOn(table, anchor, state, sizes[0]);
      var next := StateAfter(table, anchor, state, sizes[0]);
      k := PassEnds(table, anchor, next, sizes[1..]);
      assert reports[1..] == Reports(table, anchor, next, sizes[1..]);
      k := k + 1;
      assert reports[k] == reports[1..][k - 1];
      forall j | 0 <= j < k ensures !reports[j].passComplete {
        if j > 0 {
          assert reports[j] == reports[1..][j - 1];
        }
      }
    }
  }

  // ---- Where the two disagree ----

  /** verify_chain walks the whole table; the segments start after the anchor. Rows at or below the
      anchor's sequence number are invisible to them, and whenever anything lies above, one of the two
      finds a break. */
  lemma LowRowsDisagree(table: seq<Stored>, anchor: Anchor)
    requires Ordered(table) && table != [] && table[0].seqNo <= anchor.seqNo && After(table, anchor.seqNo) != []
    ensures FirstBreak(table, anchor.hash).Some? || FirstBreak(After(table, anchor.seqNo), anchor.hash).Some?
  {
    var high := After(table, anchor.seqNo);
    AfterMember(table, anchor.seqNo, 0);
    AfterAbove(table, anchor.seqNo);
    WalkIsVerifyChain(table, anchor.hash);
    WalkIsVerifyChain(high, anchor.hash);
    DepthIfVerified(RowsOf(table), anchor.hash, |table| - |high|);
    DepthIfVerified(RowsOf(high), anchor.hash, 0);
  }

  lemma DepthIfVerified(rows: seq<Row>, anchor: Hash, i: nat)
    requires i < |rows|
    ensures Verifies(rows, anchor) ==> Depth(rows[i].hash) == Depth(anchor) + i + 1
  {
    if Verifies(rows, anchor) {
      DepthAt(rows, anchor, i);
    }
  }
}
