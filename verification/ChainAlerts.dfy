/** When a broken chain alerts: passes over one table, each with the same row budgets. */
module ChainAlerts {
  import opened Options
  import opened AuditChain
  import opened ChainVerifier
  import opened ChainPasses

  /** The hash the row at `lo` has to name. */
  function HashAt(table: seq<Stored>, anchor: Anchor, lo: nat): Hash
    requires lo <= |table|
  {
    if lo == 0 then anchor.hash else table[lo - 1].row.hash
  }

  function Segment(table: seq<Stored>, lo: nat, size: nat): seq<Stored>
    requires lo <= |table|
  {
    table[lo..lo + Smaller(size, |table| - lo)]
  }

  /** The first break of each segment that the budgets cut the rows from `lo` on into. */
  function Breaks(table: seq<Stored>, anchor: Anchor, lo: nat, sizes: seq<nat>): (r: seq<Option<int>>)
    requires lo <= |table|
    ensures |r| == |sizes|
    decreases |sizes|
  {
    if sizes == [] then []
    else
      var segment := Segment(table, lo, sizes[0]);
      [FirstBreak(segment, HashAt(table, anchor, lo))] + Breaks(table, anchor, lo + |segment|, sizes[1..])
  }

  /** The budgets make one complete pass over `total` rows: only the last one is not used up. */
  predicate OnePassOver(total: nat, sizes: seq<nat>)
    decreases |sizes|
  {
    sizes != []
    && if |sizes| == 1 then total < sizes[0]
       else 0 < sizes[0] <= total && OnePassOver(total - sizes[0], sizes[1..])
  }

  /** The last break among the segments, and `before` when there is none. */
  function LastOf(breaks: seq<Option<int>>, before: Option<int>): Option<int> {
    if breaks == [] then before
    else LastOf(breaks[1..], if breaks[0].Some? then breaks[0] else before)
  }

  /** The state at the start of pass `j`. */
  function AtPass(table: seq<Stored>, anchor: Anchor, state: State, sizes: seq<nat>, j: nat): State {
    if j == 0 then state else StateAfterAll(table, anchor, AtPass(table, anchor, state, sizes, j - 1), sizes)
  }

  // ---- One run, and the runs of one pass ----

  /** The next run starts at row `lo`. */
  ghost predicate StartsAt(table: seq<Stored>, anchor: Anchor, state: State, lo: nat) {
    && lo <= |table|
    && After(table, StartOf(state, anchor).seqNo) == table[lo..]
    && StartOf(state, anchor).hash == HashAt(table, anchor, lo)
  }

  /** One run reports its segment's break, alerts when that is not the one alerted last, and remembers it. */
  lemma RunAt(table: seq<Stored>, anchor: Anchor, state: State, lo: nat, size: nat)
    requires Ordered(table) && StartsAt(table, anchor, state, lo) && size > 0
    ensures var broken := FirstBreak(Segment(table, lo, size), HashAt(table, anchor, lo));
            var report, next := ReportOf(table, anchor, state, size), StateAfter(table, anchor, state, size);
            && report.brokenSeq == broken && (report.alert <==> broken.Some? && broken != state.alertedSeq)
            && next.alertedSeq == LastOf([broken], state.alertedSeq)
            && next.brokenSeq == LastOf([broken], state.brokenSeq)
            && (report.passComplete <==> |table| - lo < size)
            && (report.passComplete ==> next.cursor.None?)
            && (!report.passComplete ==> StartsAt(table, anchor, next, lo + size))
  {
    var rest := After(table, StartOf(state, anchor).seqNo);
    var n := Smaller(size, |rest|);
    assert rest[..n] == Segment(table, lo, size);
    if !ReportOf(table, anchor, state, size).passComplete {
      RunGoesOn(table, anchor, state, size);
      assert table[lo..][size..] == table[lo + size..];
      assert rest[..size][size - 1] == table[lo + size - 1];
    }
  }

  /** The state before run `k`. */
  function StateAt(table: seq<Stored>, anchor: Anchor, state: State, sizes: seq<nat>, k: nat): State
    requires k <= |sizes|
    decreases k
  {
    if k == 0 then state else StateAt(table, anchor, StateAfter(table, anchor, state, sizes[0]), sizes[1..], k - 1)
  }

  lemma {:induction false} LastStateAt(table: seq<Stored>, anchor: Anchor, state: State, sizes: seq<nat>)
    ensures StateAt(table, anchor, state, sizes, |sizes|) == StateAfterAll(table, anchor, state, sizes)
    decreases |sizes|
  {
    if sizes != [] {
      LastStateAt(table, anchor, StateAfter(table, anchor, state, sizes[0]), sizes[1..]);
    }
  }

  /** A run that reports `broken`: it alerts when that is not the break alerted last, and remembers it. */
  ghost predicate Ran(report: Report, broken: Option<int>, s: State, t: State, atHead: bool) {
    && report.brokenSeq == broken && (report.alert <==> broken.Some? && broken != s.alertedSeq)
    && t.alertedSeq == (if broken.Some? then broken else s.alertedSeq)
    && t.brokenSeq == (if broken.Some? then broken else s.brokenSeq)
    && (atHead ==> t.cursor.None?)
  }

  /** Run `k` of a pass reports the break of segment `k`. */
  ghost predicate RanAt(
    reports: seq<Report>, breaks: seq<Option<int>>, table: seq<Stored>, anchor: Anchor, state: State,
    sizes: seq<nat>, k: nat)
    requires k < |sizes| == |reports| == |breaks|
  {
    Ran(reports[k], breaks[k], StateAt(table, anchor, state, sizes, k), StateAt(table, anchor, state, sizes, k + 1),
        k == |sizes| - 1)
  }

  /** The same, counted down run by run. */
  ghost predicate RanOn(
    reports: seq<Report>, breaks: seq<Option<int>>, table: seq<Stored>, anchor: Anchor, state: State,
    sizes: seq<nat>, k: nat)
    requires k < |sizes| == |reports| == |breaks|
    decreases k
  {
    var next := StateAfter(table, anchor, state, sizes[0]);
    if k == 0 then Ran(reports[0], breaks[0], state, next, |sizes| == 1)
    else RanOn(reports[1..], breaks[1..], table, anchor, next, sizes[1..], k - 1)
  }

  lemma {:induction false} OnMeansAt(
    reports: seq<Report>, breaks: seq<Option<int>>, table: seq<Stored>, anchor: Anchor, state: State,
    sizes: seq<nat>, k: nat)
    requires k < |sizes| == |reports| == |breaks| && RanOn(reports, breaks, table, anchor, state, sizes, k)
    ensures RanAt(reports, breaks, table, anchor, state, sizes, k)
    decreases k
  {
    if k > 0 {
      OnMeansAt(reports[1..], breaks[1..], table, anchor, StateAfter(table, anchor, state, sizes[0]), sizes[1..],
                k - 1);
    }
  }

  lemma FirstRun(table: seq<Stored>, anchor: Anchor, state: State, lo: nat, sizes: seq<nat>)
    requires Ordered(table) && StartsAt(table, anchor, state, lo) && OnePassOver(|table| - lo, sizes)
    ensures RanOn(Reports(table, anchor, state, sizes), Breaks(table, anchor, lo, sizes),
                  table, anchor, state, sizes, 0)
  {
    RunAt(table, anchor, state, lo, sizes[0]);
  }

  /** What is left of the pass after its first run. */
  lemma RestOfRuns(table: seq<Stored>, anchor: Anchor, state: State, lo: nat, sizes: seq<nat>) returns (next: State)
    requires Ordered(table) && StartsAt(table, anchor, state, lo) && OnePassOver(|table| - lo, sizes) && |sizes| > 1
    ensures next == StateAfter(table, anchor, state, sizes[0]) && StartsAt(table, anchor, next, lo + sizes[0])
    ensures OnePassOver(|table| - (lo + sizes[0]), sizes[1..])
    ensures Breaks(table, anchor, lo, sizes)[1..] == Breaks(table, anchor, lo + sizes[0], sizes[1..])
    ensures Reports(table, anchor, state, sizes)[1..] == Reports(table, anchor, next, sizes[1..])
  {
    next := StateAfter(table, anchor, state, sizes[0]);
    RunAt(table, anchor, state, lo, sizes[0]);
    LaterReports(table, anchor, state, sizes);
    LaterBreaks(table, anchor, lo, sizes);
  }

  lemma LaterReports(table: seq<Stored>, anchor: Anchor, state: State, sizes: seq<nat>)
    requires sizes != []
    ensures Reports(table, anchor, state, sizes)[1..]
            == Reports(table, anchor, StateAfter(table, anchor, state, sizes[0]), sizes[1..])
  {
  }

  lemma LaterBreaks(table: seq<Stored>, anchor: Anchor, lo: nat, sizes: seq<nat>)
    requires lo <= |table| && sizes != [] && lo + sizes[0] <= |table|
    ensures Breaks(table, anchor, lo, sizes)[1..] == Breaks(table, anchor, lo + sizes[0], sizes[1..])
  {
  }

  lemma {:induction false} RunOn(
    reports: seq<Report>, breaks: seq<Option<int>>, table: seq<Stored>, anchor: Anchor, state: State, lo: nat,
    sizes: seq<nat>, k: nat)
    requires Ordered(table) && StartsAt(table, anchor, state, lo) && OnePassOver(|table| - lo, sizes) && k < |sizes|
    requires reports == Reports(table, anchor, state, sizes) && breaks == Breaks(table, anchor, lo, sizes)
    ensures RanOn(reports, breaks, table, anchor, state, sizes, k)
    decreases |sizes|
  {
    if k == 0 {
      FirstRun(table, anchor, state, lo, sizes);
    } else {
      var next := RestOfRuns(table, anchor, state, lo, sizes);
      RunOn(reports[1..], breaks[1..], table, anchor, next, lo + sizes[0], sizes[1..], k - 1);
    }
  }

  lemma RunK(table: seq<Stored>, anchor: Anchor, state: State, lo: nat, sizes: seq<nat>, k: nat)
    requires Ordered(table) && StartsAt(table, anchor, state, lo) && OnePassOver(|table| - lo, sizes) && k < |sizes|
    ensures RanAt(Reports(table, anchor, state, sizes), Breaks(table, anchor, lo, sizes),
                  table, anchor, state, sizes, k)
  {
    var reports, breaks := Reports(table, anchor, state, sizes), Breaks(table, anchor, lo, sizes);
    RunOn(reports, breaks, table, anchor, state, lo, sizes, k);
    OnMeansAt(reports, breaks, table, anchor, state, sizes, k);
  }

  /** What has been seen so far is the last break so far. */
  lemma {:induction false} RunsRemember(
    table: seq<Stored>, anchor: Anchor, state: State, lo: nat, sizes: seq<nat>, k: nat)
    requires Ordered(table) && StartsAt(table, anchor, state, lo) && OnePassOver(|table| - lo, sizes) && k <= |sizes|
    ensures StateAt(table, anchor, state, sizes, k).alertedSeq
            == LastOf(Breaks(table, anchor, lo, sizes)[..k], state.alertedSeq)
    ensures StateAt(table, anchor, state, sizes, k).brokenSeq
            == LastOf(Breaks(table, anchor, lo, sizes)[..k], state.brokenSeq)
    decreases k
  {
    if k > 0 {
      var breaks := Breaks(table, anchor, lo, sizes);
      RunsRemember(table, anchor, state, lo, sizes, k - 1);
      RunK(table, anchor, state, lo, sizes, k - 1);
      assert breaks[..k] == breaks[..k - 1] + [breaks[k - 1]];
      LastOfOneMore(breaks[..k - 1], breaks[k - 1], state.alertedSeq);
      LastOfOneMore(breaks[..k - 1], breaks[k - 1], state.brokenSeq);
    }
  }

  lemma {:induction false} LastOfOneMore(breaks: seq<Option<int>>, b: Option<int>, before: Option<int>)
    ensures LastOf(breaks + [b], before) == if b.Some? then b else LastOf(breaks, before)
  {
    if breaks == [] {
      assert [b][1..] == [];
    } else {
      assert (breaks + [b])[1..] == breaks[1..] + [b];
      LastOfOneMore(breaks[1..], b, if breaks[0].Some? then breaks[0] else before);
    }
  }

  /** A pass reaches the head, remembers its last break as alerted and keeps it in the bookkeeping row. */
  lemma PassLeaves(table: seq<Stored>, anchor: Anchor, state: State, lo: nat, sizes: seq<nat>)
    requires Ordered(table) && StartsAt(table, anchor, state, lo) && OnePassOver(|table| - lo, sizes)
    ensures var last, breaks := StateAfterAll(table, anchor, state, sizes), Breaks(table, anchor, lo, sizes);
            && last.cursor.None?
            && last.alertedSeq == LastOf(breaks, state.alertedSeq) && last.brokenSeq == LastOf(breaks, state.brokenSeq)
  {
    var breaks := Breaks(table, anchor, lo, sizes);
    RunK(table, anchor, state, lo, sizes, |sizes| - 1);
    RunsRemember(table, anchor, state, lo, sizes, |sizes|);
    LastStateAt(table, anchor, state, sizes);
    assert breaks[..|sizes|] == breaks;
  }

  /** Run `k` of the rest of a pass reports the break of its segment; it alerts when that is not the last
      one before it. */
  lemma RunAlerts(table: seq<Stored>, anchor: Anchor, state: State, lo: nat, sizes: seq<nat>, k: nat)
    requires Ordered(table) && StartsAt(table, anchor, state, lo) && OnePassOver(|table| - lo, sizes) && k < |sizes|
    ensures var breaks := Breaks(table, anchor, lo, sizes);
            var report := Reports(table, anchor, state, sizes)[k];
            && report.brokenSeq == breaks[k]
            && (report.alert <==> breaks[k].Some? && breaks[k] != LastOf(breaks[..k], state.alertedSeq))
  {
    RunK(table, anchor, state, lo, sizes, k);
    RunsRemember(table, anchor, state, lo, sizes, k);
  }

  lemma FreshPassStarts(table: seq<Stored>, anchor: Anchor, state: State)
    requires state.cursor.None? && forall i :: 0 <= i < |table| ==> table[i].seqNo > anchor.seqNo
    ensures StartsAt(table, anchor, state, 0)
  {
    assert table[0..] == table;
  }

  // ---- Breaks of different segments are different ----

  lemma {:induction false} BreakIsInRows(table: seq<Stored>, anchor: Anchor, lo: nat, sizes: seq<nat>, k: nat)
    requires Ordered(table) && lo <= |table| && k < |sizes| && Breaks(table, anchor, lo, sizes)[k].Some?
    ensures lo < |table| && table[lo].seqNo <= Breaks(table, anchor, lo, sizes)[k].value
    decreases |sizes|
  {
    var segment := Segment(table, lo, sizes[0]);
    if k == 0 {
      var i := BreakIsFirst(segment, HashAt(table, anchor, lo));
      assert segment[i] == table[lo + i];
    } else {
      BreakIsInRows(table, anchor, lo + |segment|, sizes[1..], k - 1);
    }
  }

  lemma {:induction false} BreaksDiffer(table: seq<Stored>, anchor: Anchor, lo: nat, sizes: seq<nat>, i: nat, k: nat)
    requires Ordered(table) && lo <= |table| && i < k < |sizes|
    requires Breaks(table, anchor, lo, sizes)[i].Some? && Breaks(table, anchor, lo, sizes)[k].Some?
    ensures Breaks(table, anchor, lo, sizes)[i] != Breaks(table, anchor, lo, sizes)[k]
    decreases |sizes|
  {
    var segment := Segment(table, lo, sizes[0]);
    if i == 0 {
      var j := BreakIsFirst(segment, HashAt(table, anchor, lo));
      assert segment[j] == table[lo + j];
      BreakIsInRows(table, anchor, lo + |segment|, sizes[1..], k - 1);
    } else {
      BreaksDiffer(table, anchor, lo + |segment|, sizes[1..], i - 1, k - 1);
    }
  }

  // ---- The last break ----

  /** It is `before`, when no segment is broken, or one of the breaks. */
  lemma {:induction false} LastIsOne(breaks: seq<Option<int>>, before: Option<int>) returns (i: nat)
    ensures if i < |breaks| then breaks[i].Some? && LastOf(breaks, before) == breaks[i]
            else LastOf(breaks, before) == before && forall k :: 0 <= k < |breaks| ==> breaks[k].None?
    ensures forall k :: i < k < |breaks| ==> breaks[k].None?
  {
    i := 0;
    if breaks != [] {
      var j := LastIsOne(breaks[1..], if breaks[0].Some? then breaks[0] else before);
      if j < |breaks[1..]| {
        i := j + 1;
        assert breaks[i] == breaks[1..][j];
        forall k | i < k < |breaks| ensures breaks[k].None? {
          assert breaks[k] == breaks[1..][k - 1];
        }
      } else {
        forall k | 0 < k < |breaks| ensures breaks[k].None? {
          assert breaks[k] == breaks[1..][k - 1];
        }
        i := if breaks[0].Some? then 0 else |breaks|;
      }
    }
  }

  // ---- When a run alerts ----

  ghost predicate Fixture(table: seq<Stored>, anchor: Anchor, state: State, sizes: seq<nat>) {
    && Ordered(table) && (forall i :: 0 <= i < |table| ==> table[i].seqNo > anchor.seqNo)
    && state.cursor.None? && OnePassOver(|table|, sizes)
  }

  /** Every pass starts afresh and knows the last break of the pass before it. */
  lemma {:induction false} PassKnows(table: seq<Stored>, anchor: Anchor, state: State, sizes: seq<nat>, j: nat)
    requires Fixture(table, anchor, state, sizes)
    ensures Fixture(table, anchor, AtPass(table, anchor, state, sizes, j), sizes)
    ensures j > 0 ==>
              AtPass(table, anchor, state, sizes, j).alertedSeq
              == LastOf(Breaks(table, anchor, 0, sizes), AtPass(table, anchor, state, sizes, j - 1).alertedSeq)
  {
    if j > 0 {
      PassKnows(table, anchor, state, sizes, j - 1);
      var s := AtPass(table, anchor, state, sizes, j - 1);
      FreshPassStarts(table, anchor, s);
      PassLeaves(table, anchor, s, 0, sizes);
    }
  }

  /** The break in the bookkeeping row after a pass is that of the last broken segment. */
  lemma KeptBreakIsLast(table: seq<Stored>, anchor: Anchor, state: State, sizes: seq<nat>, k: nat)
    requires Fixture(table, anchor, state, sizes) && k < |sizes| && Breaks(table, anchor, 0, sizes)[k].Some?
    requires forall i :: k < i < |sizes| ==> Breaks(table, anchor, 0, sizes)[i].None?
    ensures StateAfterAll(table, anchor, state, sizes).brokenSeq == Breaks(table, anchor, 0, sizes)[k]
  {
    FreshPassStarts(table, anchor, state);
    PassLeaves(table, anchor, state, 0, sizes);
    var i := LastIsOne(Breaks(table, anchor, 0, sizes), state.brokenSeq);
  }

  /** The first pass over a newly broken table alerts once for every broken segment. */
  lemma FirstPassAlerts(table: seq<Stored>, anchor: Anchor, state: State, sizes: seq<nat>, k: nat)
    requires Fixture(table, anchor, state, sizes) && state.alertedSeq.None? && k < |sizes|
    ensures Reports(table, anchor, state, sizes)[k].alert <==> Breaks(table, anchor, 0, sizes)[k].Some?
  {
    var breaks := Breaks(table, anchor, 0, sizes);
    FreshPassStarts(table, anchor, state);
    RunAlerts(table, anchor, state, 0, sizes, k);
    var i := LastIsOne(breaks[..k], state.alertedSeq);
    if i < k && breaks[k].Some? {
      BreaksDiffer(table, anchor, 0, sizes, i, k);
    }
  }

  /** From the second pass on, for any table above the anchor and any budgets, a run alerts if and only if
      its segment has a break and some other segment of the pass has one too. */
  lemma RepeatAlertsExactly(table: seq<Stored>, anchor: Anchor, state: State, sizes: seq<nat>, j: nat, k: nat)
    requires Fixture(table, anchor, state, sizes) && j > 0 && k < |sizes|
    ensures var breaks := Breaks(table, anchor, 0, sizes);
            Reports(table, anchor, AtPass(table, anchor, state, sizes, j), sizes)[k].alert
            <==> breaks[k].Some? && exists i :: 0 <= i < |breaks| && i != k && breaks[i].Some?
  {
    var breaks := Breaks(table, anchor, 0, sizes);
    var s, was := AtPass(table, anchor, state, sizes, j), AtPass(table, anchor, state, sizes, j - 1);
    PassKnows(table, anchor, state, sizes, j);
    FreshPassStarts(table, anchor, s);
    RunAlerts(table, anchor, s, 0, sizes, k);
    if breaks[k].Some? {
      var m := LastIsOne(breaks, was.alertedSeq);
      var i := LastIsOne(breaks[..k], s.alertedSeq);
      var last := if i < k then i else m;
      assert LastOf(breaks[..k], s.alertedSeq) == breaks[last] && breaks[last].Some?;
      if last < k {
        BreaksDiffer(table, anchor, 0, sizes, last, k);
      } else if last > k {
        BreaksDiffer(table, anchor, 0, sizes, k, last);
      } else {
        forall o | 0 <= o < |breaks| && o != k ensures breaks[o].None? {
          assert o < k ==> breaks[o] == breaks[..k][o];
        }
      }
    }
  }

  /** So a break that has alerted is silent on every later pass if and only if no other segment is
      broken. */
  lemma AlertsOnceExactly(table: seq<Stored>, anchor: Anchor, state: State, sizes: seq<nat>, k: nat)
    requires Fixture(table, anchor, state, sizes) && k < |sizes| && Breaks(table, anchor, 0, sizes)[k].Some?
    ensures (forall j: nat :: j > 0 ==> !Reports(table, anchor, AtPass(table, anchor, state, sizes, j), sizes)[k].alert)
            <==> forall i :: 0 <= i < |sizes| && i != k ==> Breaks(table, anchor, 0, sizes)[i].None?
  {
    forall j: nat | j > 0
      ensures Reports(table, anchor, AtPass(table, anchor, state, sizes, j), sizes)[k].alert
              <==> exists i :: 0 <= i < |sizes| && i != k && Breaks(table, anchor, 0, sizes)[i].Some?
    {
      RepeatAlertsExactly(table, anchor, state, sizes, j, k);
    }
    assert Reports(table, anchor, AtPass(table, anchor, state, sizes, 1), sizes)[k].alert
      <==> exists i :: 0 <= i < |sizes| && i != k && Breaks(table, anchor, 0, sizes)[i].Some?;
  }

  /** The budgets' own condition is what makes the runs one pass of the verifier. */
  lemma {:induction false} OnePassOverIsOnePass(table: seq<Stored>, anchor: Anchor, state: State, lo: nat,
      sizes: seq<nat>)
    requires Ordered(table) && StartsAt(table, anchor, state, lo) && Budgets(sizes)
    ensures OnePassOver(|table| - lo, sizes) <==> OnePass(Reports(table, anchor, state, sizes))
    decreases |sizes|
  {
    if sizes != [] {
      var reports := Reports(table, anchor, state, sizes);
      RunAt(table, anchor, state, lo, sizes[0]);
      assert reports[0] == ReportOf(table, anchor, state, sizes[0]);
      if |sizes| > 1 && !reports[0].passComplete {
        var next := StateAfter(table, anchor, state, sizes[0]);
        var rest := Reports(table, anchor, next, sizes[1..]);
        assert reports[1..] == rest;
        OnePassOverIsOnePass(table, anchor, next, lo + sizes[0], sizes[1..]);
        if OnePass(rest) {
          forall k | 0 <= k < |reports| ensures reports[k].passComplete <==> k == |reports| - 1 {
            assert k > 0 ==> reports[k] == rest[k - 1];
          }
        }
        if OnePass(reports) {
          TailIsPass(reports);
        }
      }
    }
  }
}
