/**
  Round-robin scheduling with a deque of record indices (RR.py).

  The records are sorted by arrival.  `mark[i]` records that index `i` has
  entered the deque once; a record enters when it has arrived, is not
  completed and is unmarked.  While fewer than `n` records are completed,
  each iteration admits arrivals; with an empty deque the clock advances by
  one unit, otherwise the front index runs for `min(remaining, quantum)`,
  the arrivals up to the end of that slice are admitted, and the record is
  completed or, if burst remains, appended behind them.
 */
module Rr {
  import opened Records
  import opened Sorting
  import opened Metrics
  import opened RawRecords
  import opened ReadyQueue
  import opened RoundRobin

  // ---------------------------------------------------------------------------
  // Admitting arrivals

  /** What the arrival scan admits: arrived, not completed, not marked. */
  predicate Eligible(r: Row, marked: bool, clock: int) {
    r.arrival <= clock && !r.completed && !marked
  }

  /** The indices among the first `n` that the scan appends, in order. */
  function NewIndices(rows: seq<Row>, marks: seq<bool>, clock: int, n: nat): seq<nat>
    requires n <= |rows| == |marks|
  {
    if n == 0 then []
    else NewIndices(rows, marks, clock, n - 1) + (if Eligible(rows[n - 1], marks[n - 1], clock) then [n - 1] else [])
  }

  /** The marks once the first `n` records have been scanned. */
  function Marked(rows: seq<Row>, marks: seq<bool>, clock: int, n: nat): (m: seq<bool>)
    requires n <= |rows| == |marks|
    ensures |m| == |marks|
  {
    seq(|marks|, i requires 0 <= i < |marks| => marks[i] || (i < n && Eligible(rows[i], marks[i], clock)))
  }

  /** The scan admits exactly the eligible indices, each once, in increasing
      order. */
  lemma {:induction false} NewIndicesFacts(rows: seq<Row>, marks: seq<bool>, clock: int, n: nat)
    requires n <= |rows| == |marks|
    ensures var ni := NewIndices(rows, marks, clock, n);
      && (forall j :: 0 <= j < |ni| ==> ni[j] < n && Eligible(rows[ni[j]], marks[ni[j]], clock))
      && (forall a, b :: 0 <= a < b < |ni| ==> ni[a] < ni[b])
      && (forall i :: 0 <= i < n && Eligible(rows[i], marks[i], clock) ==> i in ni)
  {
    if n > 0 {
      NewIndicesFacts(rows, marks, clock, n - 1);
    }
  }

  /** The scan at RR.py:64-67 and 78-81: appends the eligible indices to the
      deque and marks them. */
  method Arrivals(data: array<Row>, mark: array<bool>, clock: int, queue: seq<nat>) returns (q: seq<nat>)
    requires mark.Length == data.Length
    modifies mark
    ensures q == queue + NewIndices(data[..], old(mark[..]), clock, data.Length)
    ensures mark[..] == Marked(data[..], old(mark[..]), clock, data.Length)
  {
    ghost var marks := mark[..];
    q := queue;
    for i := 0 to data.Length
      invariant q == queue + NewIndices(data[..], marks, clock, i)
      invariant mark[..] == Marked(data[..], marks, clock, i)
    {
      if data[i].arrival <= clock && data[i].completed == false && mark[i] == false {
        q := q + [i];
        mark[i] := true;
      }
    }
  }

  // ---------------------------------------------------------------------------
  // The deque invariant

  /** Deque and marks agree with the records.  `held` is the index taken off
      the front while it runs, which is marked and incomplete but not queued. */
  predicate DequeInv(rows: seq<Row>, marks: seq<bool>, clock: int, queue: seq<nat>, held: Option<nat>) {
    && |marks| == |rows|
    && (forall a, b :: 0 <= a < b < |queue| ==> queue[a] != queue[b])
    && (forall j :: 0 <= j < |queue| ==> queue[j] < |rows| && marks[queue[j]] && !rows[queue[j]].completed)
    && (held.Some? ==> held.value < |rows| && marks[held.value] && !rows[held.value].completed && held.value !in queue)
    && (forall i :: 0 <= i < |rows| && marks[i] && !rows[i].completed ==> i in queue || held == Some(i))
    && (forall i :: 0 <= i < |rows| && marks[i] ==> rows[i].arrival <= clock)
    && (forall i :: 0 <= i < |rows| && !marks[i] ==> !rows[i].completed)
  }

  /** A scan keeps the invariant, and afterwards no incomplete record that has
      arrived is left unmarked. */
  lemma ArrivalsKeepInv(rows: seq<Row>, marks: seq<bool>, clock: int, queue: seq<nat>, held: Option<nat>,
                        q: seq<nat>, m: seq<bool>)
    requires DequeInv(rows, marks, clock, queue, held)
    requires q == queue + NewIndices(rows, marks, clock, |rows|) && m == Marked(rows, marks, clock, |rows|)
    ensures DequeInv(rows, m, clock, q, held)
    ensures forall i :: 0 <= i < |rows| && !m[i] ==> clock < rows[i].arrival
  {
    var ni := NewIndices(rows, marks, clock, |rows|);
    NewIndicesFacts(rows, marks, clock, |rows|);
    forall a, b | 0 <= a < b < |q|
      ensures q[a] != q[b]
    {
      if b >= |queue| && a < |queue| {
        assert marks[q[a]] && !marks[q[b]];
      } else if a >= |queue| {
        assert q[a] == ni[a - |queue|] && q[b] == ni[b - |queue|];
      }
    }
    if held.Some? {
      assert held.value !in ni;
    }
  }

  /** Slices ahead of the clock: the delay until each unmarked record arrives. */
  function Delays(rows: seq<Row>, marks: seq<bool>, clock: int): (ds: seq<int>)
    requires |marks| == |rows|
    ensures |ds| == |rows|
  {
    seq(|rows|, i requires 0 <= i < |rows| => if marks[i] || rows[i].arrival <= clock then 0 else rows[i].arrival - clock)
  }

  function Gap(rows: seq<Row>, marks: seq<bool>, clock: int): int
    requires |marks| == |rows|
  {
    Sum(Delays(rows, marks, clock))
  }

  /** An idle unit, taken when the scan left the deque empty although some
      record is incomplete, brings that record's arrival one unit closer. */
  lemma IdleShrinksGap(rows: seq<Row>, marks: seq<bool>, m: seq<bool>, clock: int, i: nat)
    requires |marks| == |rows| && i < |rows| && m == Marked(rows, marks, clock, |rows|)
    requires !m[i] && clock < rows[i].arrival
    ensures 0 <= Gap(rows, m, clock + 1) < Gap(rows, marks, clock)
  {
    var before := Delays(rows, marks, clock);
    var after := Delays(rows, m, clock + 1);
    assert after[i] < before[i];
    SumLe(after, before);
    SumNonNegative(after);
  }

  /** Records completed so far: RR.py's `completed` counter. */
  function CompletedCount(rows: seq<Row>): (c: nat)
    ensures c <= |rows|
  {
    if rows == [] then 0
    else CompletedCount(rows[..|rows| - 1]) + (if rows[|rows| - 1].completed then 1 else 0)
  }

  /** The counter reaches the number of records exactly when all are done. */
  lemma {:induction false} CompletedCountAll(rows: seq<Row>)
    ensures CompletedCount(rows) == |rows| <==> AllCompleted(rows)
  {
    if rows != [] {
      var n := |rows| - 1;
      CompletedCountAll(rows[..n]);
      assert forall i :: 0 <= i < n ==> rows[..n][i] == rows[i];
    }
  }

  lemma {:induction false} NoneCompleted(rows: seq<Row>)
    requires forall i :: 0 <= i < |rows| ==> !rows[i].completed
    ensures CompletedCount(rows) == 0
  {
    if rows != [] {
      NoneCompleted(rows[..|rows| - 1]);
    }
  }

  /** Completing one record raises the count by one. */
  lemma {:induction false} CompletedCountUpdate(rows: seq<Row>, k: nat, r: Row)
    requires k < |rows| && !rows[k].completed && r.completed
    ensures CompletedCount(rows[k := r]) == CompletedCount(rows) + 1
  {
    var n := |rows| - 1;
    var after := rows[k := r];
    if k < n {
      assert after[..n] == rows[..n][k := r];
      CompletedCountUpdate(rows[..n], k, r);
      assert after[n] == rows[n];
    } else {
      assert after[..n] == rows[..n];
      assert CompletedCount(after) == CompletedCount(rows[..n]) + 1;
    }
  }

  /** A record whose completed flag did not change leaves the count alone. */
  lemma {:induction false} CompletedCountSame(rows: seq<Row>, k: nat, r: Row)
    requires k < |rows| && rows[k].completed == r.completed
    ensures CompletedCount(rows[k := r]) == CompletedCount(rows)
  {
    var n := |rows| - 1;
    if k < n {
      assert rows[k := r][..n] == rows[..n][k := r];
      CompletedCountSame(rows[..n], k, r);
    } else {
      assert rows[k := r][..n] == rows[..n];
    }
  }

  // ---------------------------------------------------------------------------
  // One dispatch

  /** The scan between running and settling a record does not see it: it is
      marked.  So scanning the running records or the settled ones admits the
      same indices. */
  lemma {:induction false} ScanIgnoresHeld(rows: seq<Row>, marks: seq<bool>, clock: int, k: nat, r: Row, n: nat)
    requires n <= |rows| == |marks| && k < |rows| && marks[k]
    ensures NewIndices(rows[k := r], marks, clock, n) == NewIndices(rows, marks, clock, n)
    ensures Marked(rows[k := r], marks, clock, n) == Marked(rows, marks, clock, n)
  {
    if n > 0 {
      ScanIgnoresHeld(rows, marks, clock, k, r, n - 1);
    }
  }

  /** Taking the front index off the deque leaves it held. */
  lemma PopKeepsInv(rows: seq<Row>, marks: seq<bool>, clock: int, queue: seq<nat>)
    requires DequeInv(rows, marks, clock, queue, None) && queue != []
    ensures DequeInv(rows, marks, clock, queue[1..], Some(queue[0]))
  {
    var k := queue[0];
    forall i | 0 <= i < |rows| && marks[i] && !rows[i].completed && i != k
      ensures i in queue[1..]
    {
      var j :| 0 <= j < |queue| && queue[j] == i;
      assert j != 0;
      assert queue[1..][j - 1] == i;
    }
    forall j | 0 <= j < |queue| - 1
      ensures queue[1..][j] != k
    {
      assert queue[j + 1] != queue[0];
    }
  }

  /** Settling the held record after its slice, and re-appending it when
      burst remains, gives the invariant with nothing held. */
  lemma SettleKeepsInv(rows: seq<Row>, marks: seq<bool>, clock: int, queue: seq<nat>, k: nat, quantum: int, end: int)
    requires DequeInv(rows, marks, clock, queue, Some(k)) && 0 <= rows[k].remaining
    ensures var after := rows[k := RunSlice(rows[k], Snapshot(rows[k]), quantum, end)];
      DequeInv(after, marks, clock, if after[k].completed then queue else queue + [k], None)
  {
  }

  // ---------------------------------------------------------------------------
  // One dispatch, as a function of the state before it

  /** The end of the front record's slice. */
  function FrontEnd(rows: seq<Row>, clock: int, queue: seq<nat>, quantum: int): int
    requires queue != [] && queue[0] < |rows|
  {
    clock + Slice(rows[queue[0]].remaining, quantum)
  }

  /** The records once the front record has run and been settled. */
  function FrontRows(rows: seq<Row>, clock: int, queue: seq<nat>, quantum: int): (after: seq<Row>)
    requires queue != [] && queue[0] < |rows|
    ensures |after| == |rows|
  {
    var k := queue[0];
    rows[k := RunSlice(rows[k], Snapshot(rows[k]), quantum, FrontEnd(rows, clock, queue, quantum))]
  }

  /** The marks once the arrivals up to the end of the slice are admitted. */
  function FrontMarks(rows: seq<Row>, marks: seq<bool>, clock: int, queue: seq<nat>, quantum: int): (m: seq<bool>)
    requires |marks| == |rows| && queue != [] && queue[0] < |rows|
    ensures |m| == |marks|
  {
    Marked(rows, marks, FrontEnd(rows, clock, queue, quantum), |rows|)
  }

  /** The deque afterwards: the rest of it, then the arrivals up to the end of
      the slice, then the front record again if it still has burst left. */
  function FrontQueue(rows: seq<Row>, marks: seq<bool>, clock: int, queue: seq<nat>, quantum: int): seq<nat>
    requires |marks| == |rows| && queue != [] && queue[0] < |rows|
  {
    var admitted := queue[1..] + NewIndices(rows, marks, FrontEnd(rows, clock, queue, quantum), |rows|);
    if FrontRows(rows, clock, queue, quantum)[queue[0]].completed then admitted else admitted + [queue[0]]
  }

  /** Lines 71-87 of RR.py: pop the front index, run it for
      `min(remaining, quantum)`, admit the arrivals up to the end of the
      slice, then complete the record or append it behind them.  The front
      record is marked, incomplete and has no negative burst left. */
  method RunFront(data: array<Row>, mark: array<bool>, clock: int, queue: seq<nat>, quantum: int, completed: int)
    returns (end: int, q: seq<nat>, seg: Segment, count: int)
    requires mark.Length == data.Length && queue != [] && queue[0] < data.Length
    requires mark[queue[0]] && !data[queue[0]].completed && data[queue[0]].remaining >= 0
    modifies data, mark
    ensures end == FrontEnd(old(data[..]), clock, queue, quantum)
    ensures data[..] == FrontRows(old(data[..]), clock, queue, quantum)
    ensures mark[..] == FrontMarks(old(data[..]), old(mark[..]), clock, queue, quantum)
    ensures q == FrontQueue(old(data[..]), old(mark[..]), clock, queue, quantum)
    ensures count == completed + (if data[queue[0]].completed then 1 else 0)
    ensures seg == Segment(old(data[queue[0]]).pid, clock, end)
  {
    ghost var rows := data[..];
    ghost var marks := mark[..];
    q := queue;
    var idx := q[0];
    q := q[1..];
    var execTime := if data[idx].remaining <= quantum then data[idx].remaining else quantum;
    end := clock + execTime;
    data[idx] := data[idx].(remaining := data[idx].remaining - execTime);
    seg := Segment(data[idx].pid, clock, end);
    ScanIgnoresHeld(rows, marks, end, idx, data[idx], data.Length);
    assert data[..] == rows[idx := data[idx]];
    q := Arrivals(data, mark, end, q);
    count := completed;
    if data[idx].remaining == 0 && !data[idx].completed {
      data[idx] := data[idx].(completed := true, appended := data[idx].appended + [end]);
      count := count + 1;
    } else if data[idx].remaining > 0 {
      q := q + [idx];
    }
    assert data[..] == rows[idx := data[idx]];
  }

  /** One dispatch keeps the invariant on records and trace, counts the
      completion if there was one, and lowers the work left. */
  lemma FrontKeepsRows(rows0: seq<Row>, rows: seq<Row>, clock: int, queue: seq<nat>,
                       trace: seq<Segment>, quantum: int)
    requires RowsInv(rows0, rows, clock, trace, quantum) && quantum >= 1
    requires queue != [] && queue[0] < |rows| && !rows[queue[0]].completed
    requires rows[queue[0]].arrival <= clock
    ensures var after := FrontRows(rows, clock, queue, quantum);
      var end := FrontEnd(rows, clock, queue, quantum);
      && RowsInv(rows0, after, end, trace + [Segment(rows[queue[0]].pid, clock, end)], quantum)
      && CompletedCount(after) == CompletedCount(rows) + (if after[queue[0]].completed then 1 else 0)
      && 0 <= Work(after) < Work(rows)
  {
    var k := queue[0];
    var after := FrontRows(rows, clock, queue, quantum);
    var head := Snapshot(rows[k]);
    var s := Segment(head.pid, clock, clock + Slice(head.remaining, quantum));
    assert s == Segment(rows[k].pid, clock, FrontEnd(rows, clock, queue, quantum));
    assert after == rows[k := RunSlice(rows[k], head, quantum, s.end)];
    DispatchKeepsRows(rows0, rows, clock, trace, quantum, k, head, clock, s, after);
    if after[k].completed {
      CompletedCountUpdate(rows, k, after[k]);
    } else {
      CompletedCountSame(rows, k, after[k]);
    }
  }

  /** One dispatch keeps the deque invariant. */
  lemma FrontKeepsDeque(rows: seq<Row>, marks: seq<bool>, clock: int, queue: seq<nat>, quantum: int)
    requires DequeInv(rows, marks, clock, queue, None) && queue != [] && 0 <= rows[queue[0]].remaining
    requires quantum >= 1
    ensures DequeInv(FrontRows(rows, clock, queue, quantum), FrontMarks(rows, marks, clock, queue, quantum),
                     FrontEnd(rows, clock, queue, quantum), FrontQueue(rows, marks, clock, queue, quantum), None)
  {
    var k := queue[0];
    var end := FrontEnd(rows, clock, queue, quantum);
    PopKeepsInv(rows, marks, clock, queue);
    RowsInvLaterDeque(rows, marks, clock, end, queue[1..], Some(k));
    var q := queue[1..] + NewIndices(rows, marks, end, |rows|);
    var m := Marked(rows, marks, end, |rows|);
    ArrivalsKeepInv(rows, marks, end, queue[1..], Some(k), q, m);
    SettleKeepsInv(rows, m, end, q, k, quantum, end);
  }

  /** Later times keep every part of the row invariant. */
  lemma RowsInvLater(rows0: seq<Row>, rows: seq<Row>, clock: int, clock': int, trace: seq<Segment>, quantum: int)
    requires RowsInv(rows0, rows, clock, trace, quantum) && clock <= clock'
    ensures RowsInv(rows0, rows, clock', trace, quantum)
  {
    forall i | 0 <= i < |rows|
      ensures RowInv(rows0[i], rows[i], clock', trace)
    {
    }
  }

  /** Later times keep the deque invariant. */
  lemma RowsInvLaterDeque(rows: seq<Row>, marks: seq<bool>, clock: int, clock': int, queue: seq<nat>, held: Option<nat>)
    requires DequeInv(rows, marks, clock, queue, held) && clock <= clock'
    ensures DequeInv(rows, marks, clock', queue, held)
  {
  }

  /** A scan that leaves the deque empty while some record is incomplete is
      followed by an idle unit, which keeps every invariant of the loop and
      brings the next arrival closer. */
  lemma IdleKeepsInv(rows0: seq<Row>, rows: seq<Row>, marks: seq<bool>, m: seq<bool>, clock: int,
                     trace: seq<Segment>, quantum: int)
    requires RowsInv(rows0, rows, clock, trace, quantum)
    requires DequeInv(rows, marks, clock, [], None) && !AllCompleted(rows)
    requires NewIndices(rows, marks, clock, |rows|) == [] && m == Marked(rows, marks, clock, |rows|)
    ensures RowsInv(rows0, rows, clock + 1, trace, quantum)
    ensures DequeInv(rows, m, clock + 1, [], None)
    ensures 0 <= Gap(rows, m, clock + 1) < Gap(rows, marks, clock)
  {
    ArrivalsKeepInv(rows, marks, clock, [], None, [], m);
    var i :| 0 <= i < |rows| && !rows[i].completed;
    assert !m[i] by {
      assert i !in [];
    }
    IdleShrinksGap(rows, marks, m, clock, i);
    RowsInvLater(rows0, rows, clock, clock + 1, trace, quantum);
    RowsInvLaterDeque(rows, m, clock, clock + 1, [], None);
  }

  // ---------------------------------------------------------------------------
  // Runs of the loop

  /** The loop's state between iterations: `process_data`, `mark`, the clock
      and the deque. */
  datatype DequeState = DequeState(rows: seq<Row>, marks: seq<bool>, clock: int, queue: seq<nat>)

  /** `mark` as the loop starts: no index has entered the deque yet. */
  function Unmarked(n: nat): (marks: seq<bool>)
    ensures |marks| == n && forall i :: 0 <= i < n ==> !marks[i]
  {
    seq(n, i => false)
  }

  /** One iteration of the `while completed < n` loop from `s`: some record is
      incomplete; the scan appends the eligible indices to the deque and marks
      them; then an empty deque lets one idle unit pass and emits no slice,
      and otherwise the front record runs for its slice, as `FrontRows`,
      `FrontMarks`, `FrontEnd` and `FrontQueue` give it. */
  predicate DequeTurn(s: DequeState, quantum: int, s': DequeState, slice: Option<Segment>) {
    && |s.marks| == |s.rows|
    && !AllCompleted(s.rows)
    && var q := s.queue + NewIndices(s.rows, s.marks, s.clock, |s.rows|);
       var m := Marked(s.rows, s.marks, s.clock, |s.rows|);
       if q == [] then
         s' == DequeState(s.rows, m, s.clock + 1, []) && slice == None
       else
         && q[0] < |s.rows|
         && s' == DequeState(FrontRows(s.rows, s.clock, q, quantum), FrontMarks(s.rows, m, s.clock, q, quantum),
                             FrontEnd(s.rows, s.clock, q, quantum), FrontQueue(s.rows, m, s.clock, q, quantum))
         && slice == Some(Segment(s.rows[q[0]].pid, s.clock, FrontEnd(s.rows, s.clock, q, quantum)))
  }

  /** The Gantt tuples of a run: the slices of its dispatching iterations. */
  function Slices(slices: seq<Option<Segment>>): (gantt: seq<Segment>)
    ensures |gantt| <= |slices|
  {
    if slices == [] then []
    else
      var last := slices[|slices| - 1];
      Slices(slices[..|slices| - 1]) + (if last.Some? then [last.value] else [])
  }

  /** `states` is a run of the loop: iteration `t` is a `DequeTurn` from
      `states[t]` to `states[t + 1]` that emits `slices[t]`. */
  ghost predicate IsDequeRun(states: seq<DequeState>, slices: seq<Option<Segment>>, quantum: int) {
    && |states| == |slices| + 1
    && (slices != [] ==>
          var n := |slices| - 1;
          && IsDequeRun(states[..n + 1], slices[..n], quantum)
          && DequeTurn(states[n], quantum, states[n + 1], slices[n]))
  }

  /** Every iteration of a run is a `DequeTurn`. */
  lemma {:induction false} DequeRunTurn(states: seq<DequeState>, slices: seq<Option<Segment>>, quantum: int, t: nat)
    requires IsDequeRun(states, slices, quantum) && t < |slices|
    ensures DequeTurn(states[t], quantum, states[t + 1], slices[t])
  {
    var n := |slices| - 1;
    if t < n {
      DequeRunTurn(states[..n + 1], slices[..n], quantum, t);
    }
  }

  /** An iteration whose scan leaves the deque empty is an idle `DequeTurn`. */
  lemma IdleTurn(rows: seq<Row>, marks: seq<bool>, clock: int, queue: seq<nat>, quantum: int)
    requires |marks| == |rows| && !AllCompleted(rows)
    requires queue + NewIndices(rows, marks, clock, |rows|) == []
    ensures DequeTurn(DequeState(rows, marks, clock, queue), quantum,
                      DequeState(rows, Marked(rows, marks, clock, |rows|), clock + 1, []), None)
  {
  }

  /** An iteration whose scan leaves the deque `q` not empty, with the marks
      `m`, is a `DequeTurn` that runs the front of `q`. */
  lemma ServeTurn(rows: seq<Row>, marks: seq<bool>, clock: int, queue: seq<nat>, quantum: int,
                  q: seq<nat>, m: seq<bool>)
    requires |marks| == |rows| && !AllCompleted(rows)
    requires q == queue + NewIndices(rows, marks, clock, |rows|) && m == Marked(rows, marks, clock, |rows|)
    requires q != [] && q[0] < |rows|
    ensures DequeTurn(DequeState(rows, marks, clock, queue), quantum,
                      DequeState(FrontRows(rows, clock, q, quantum), FrontMarks(rows, m, clock, q, quantum),
                                 FrontEnd(rows, clock, q, quantum), FrontQueue(rows, m, clock, q, quantum)),
                      Some(Segment(rows[q[0]].pid, clock, FrontEnd(rows, clock, q, quantum))))
  {
  }

  /** Extending a run by one more iteration gives a run. */
  lemma ExtendDequeRun(states: seq<DequeState>, slices: seq<Option<Segment>>, quantum: int,
                       s': DequeState, slice: Option<Segment>)
    requires IsDequeRun(states, slices, quantum)
    requires DequeTurn(states[|slices|], quantum, s', slice)
    ensures IsDequeRun(states + [s'], slices + [slice], quantum)
    ensures Slices(slices + [slice]) == Slices(slices) + (if slice.Some? then [slice.value] else [])
  {
    assert (states + [s'])[..|slices| + 1] == states;
    assert (slices + [slice])[..|slices|] == slices;
  }

  /** Lines 68-70 of RR.py: the scan has left the deque empty, so one idle
      unit passes; this is an idle `DequeTurn` that keeps every invariant and
      brings the next arrival closer. */
  method Wait(clock: int, ghost rows0: seq<Row>, ghost rows: seq<Row>, ghost marks: seq<bool>,
              ghost m: seq<bool>, ghost queue: seq<nat>, ghost gantt: seq<Segment>, quantum: int,
              ghost states: seq<DequeState>, ghost slices: seq<Option<Segment>>)
    returns (clock': int, ghost states': seq<DequeState>, ghost slices': seq<Option<Segment>>)
    requires RowsInv(rows0, rows, clock, gantt, quantum)
    requires DequeInv(rows, marks, clock, queue, None) && !AllCompleted(rows)
    requires queue + NewIndices(rows, marks, clock, |rows|) == [] && m == Marked(rows, marks, clock, |rows|)
    requires IsDequeRun(states, slices, quantum) && states[|slices|] == DequeState(rows, marks, clock, queue)
    ensures clock' == clock + 1
    ensures DequeTurn(DequeState(rows, marks, clock, queue), quantum, DequeState(rows, m, clock', []), None)
    ensures states' == states + [DequeState(rows, m, clock', [])] && slices' == slices + [None]
    ensures IsDequeRun(states', slices', quantum) && Slices(slices') == Slices(slices)
    ensures RowsInv(rows0, rows, clock', gantt, quantum)
    ensures DequeInv(rows, m, clock', [], None)
    ensures 0 <= Gap(rows, m, clock') < Gap(rows, marks, clock)
  {
    IdleKeepsInv(rows0, rows, marks, m, clock, gantt, quantum);
    IdleTurn(rows, marks, clock, queue, quantum);
    clock' := clock + 1;
    ExtendDequeRun(states, slices, quantum, DequeState(rows, m, clock', []), None);
    states', slices' := states + [DequeState(rows, m, clock', [])], slices + [None];
  }

  /** Lines 71-87 of RR.py once the deque is not empty: one dispatch keeps
      both invariants and the count, and lowers the work left. */
  method Serve(data: array<Row>, mark: array<bool>, quantum: int, clock: int, queue: seq<nat>, completed: int,
               gantt: seq<Segment>, ghost rows0: seq<Row>, ghost marks: seq<bool>, ghost waiting: seq<nat>,
               ghost states: seq<DequeState>, ghost slices: seq<Option<Segment>>)
    returns (clock': int, queue': seq<nat>, completed': int, gantt': seq<Segment>,
             ghost states': seq<DequeState>, ghost slices': seq<Option<Segment>>)
    requires mark.Length == data.Length && quantum >= 1
    requires RowsInv(rows0, data[..], clock, gantt, quantum)
    requires DequeInv(data[..], mark[..], clock, queue, None) && queue != []
    requires completed == CompletedCount(data[..]) && !AllCompleted(data[..])
    requires |marks| == data.Length
    requires queue == waiting + NewIndices(data[..], marks, clock, data.Length)
    requires mark[..] == Marked(data[..], marks, clock, data.Length)
    requires IsDequeRun(states, slices, quantum) && gantt == Slices(slices)
    requires states[|slices|] == DequeState(data[..], marks, clock, waiting)
    modifies data, mark
    ensures clock' == FrontEnd(old(data[..]), clock, queue, quantum)
    ensures data[..] == FrontRows(old(data[..]), clock, queue, quantum)
    ensures mark[..] == FrontMarks(old(data[..]), old(mark[..]), clock, queue, quantum)
    ensures queue' == FrontQueue(old(data[..]), old(mark[..]), clock, queue, quantum)
    ensures gantt' == gantt + [Segment(old(data[queue[0]]).pid, clock, clock')]
    ensures states' == states + [DequeState(data[..], mark[..], clock', queue')] && |slices'| == |slices| + 1
    ensures DequeTurn(DequeState(old(data[..]), marks, clock, waiting), quantum,
                      DequeState(data[..], mark[..], clock', queue'), slices'[|slices|])
    ensures slices'[|slices|].Some?
    ensures IsDequeRun(states', slices', quantum) && gantt' == Slices(slices')
    ensures DequeInv(data[..], mark[..], clock', queue', None)
    ensures completed' == CompletedCount(data[..])
    ensures RowsInv(rows0, data[..], clock', gantt', quantum)
    ensures 0 <= Work(data[..]) < Work(old(data[..]))
  {
    FrontKeepsRows(rows0, data[..], clock, queue, gantt, quantum);
    FrontKeepsDeque(data[..], mark[..], clock, queue, quantum);
    ServeTurn(data[..], marks, clock, waiting, quantum, queue, mark[..]);
    var seg;
    clock', queue', seg, completed' := RunFront(data, mark, clock, queue, quantum, completed);
    ExtendDequeRun(states, slices, quantum, DequeState(data[..], mark[..], clock', queue'), Some(seg));
    states', slices' := states + [DequeState(data[..], mark[..], clock', queue')], slices + [Some(seg)];
    gantt' := gantt + [seg];
  }

  /** One iteration of the `while completed < n` loop (RR.py:64-87): admit
      arrivals, then either let an idle unit pass (`idle`) or dispatch the
      front record and append its slice to `gantt`.  The iteration extends
      the run `states`/`slices` by one `DequeTurn`. */
  method Iterate(data: array<Row>, mark: array<bool>, quantum: int, clock: int, queue: seq<nat>, completed: int,
                 gantt: seq<Segment>, ghost rows0: seq<Row>, ghost states: seq<DequeState>, ghost slices: seq<Option<Segment>>)
    returns (idle: bool, clock': int, queue': seq<nat>, completed': int, gantt': seq<Segment>,
             ghost states': seq<DequeState>, ghost slices': seq<Option<Segment>>)
    requires mark.Length == data.Length && quantum >= 1
    requires IsDequeRun(states, slices, quantum) && gantt == Slices(slices)
    requires states[|slices|] == DequeState(data[..], mark[..], clock, queue)
    requires RowsInv(rows0, data[..], clock, gantt, quantum)
    requires DequeInv(data[..], mark[..], clock, queue, None)
    requires completed == CompletedCount(data[..]) < data.Length
    modifies data, mark
    ensures idle <==> queue + NewIndices(old(data[..]), old(mark[..]), clock, data.Length) == []
    ensures states' == states + [DequeState(data[..], mark[..], clock', queue')] && |slices'| == |slices| + 1
    ensures DequeTurn(DequeState(old(data[..]), old(mark[..]), clock, queue), quantum,
                      DequeState(data[..], mark[..], clock', queue'), slices'[|slices|])
    ensures IsDequeRun(states', slices', quantum) && gantt' == Slices(slices')
    ensures RowsInv(rows0, data[..], clock', gantt', quantum)
    ensures DequeInv(data[..], mark[..], clock', queue', None)
    ensures completed' == CompletedCount(data[..])
    ensures idle ==> data[..] == old(data[..]) && 0 <= Gap(data[..], mark[..], clock') < Gap(old(data[..]), old(mark[..]), clock)
    ensures !idle ==> 0 <= Work(data[..]) < Work(old(data[..]))
  {
    ghost var rows := data[..];
    ghost var marks := mark[..];
    CompletedCountAll(rows);
    queue' := Arrivals(data, mark, clock, queue);
    ghost var m := mark[..];
    ArrivalsKeepInv(rows, marks, clock, queue, None, queue', m);
    if queue' == [] {
      clock', states', slices' := Wait(clock, rows0, rows, marks, m, queue, gantt, quantum, states, slices);
      return true, clock', queue', completed, gantt, states', slices';
    }
    idle := false;
    clock', queue', completed', gantt', states', slices' :=
      Serve(data, mark, quantum, clock, queue', completed, gantt, rows0, marks, queue, states, slices);
  }

  /** The `while completed < n` loop of `schedulingProcess` (RR.py:60-87), on
      records sorted by arrival.  Every record is served, and the slices in
      `gantt` are chronological and no longer than a quantum. */
  method RunDeque(data: array<Row>, quantum: int)
    returns (gantt: seq<Segment>, ghost states: seq<DequeState>, ghost slices: seq<Option<Segment>>)
    requires forall i :: 0 <= i < data.Length ==> IsFresh(data[i]) && data[i].burst >= 0
    requires UniquePids(data[..]) && quantum >= 1
    modifies data
    ensures IsDequeRun(states, slices, quantum) && gantt == Slices(slices)
    ensures states[0] == DequeState(old(data[..]), Unmarked(data.Length), 0, [])
    ensures states[|slices|].rows == data[..]
    ensures AllCompleted(data[..])
    ensures forall i :: 0 <= i < data.Length ==> Served(old(data[i]), data[i], gantt)
    ensures Chronological(gantt) && WithinQuantum(gantt, quantum)
  {
    ghost var rows0 := data[..];
    InitialLoopInv(rows0, quantum);
    NoneCompleted(rows0);
    var clock := 0;
    var queue: seq<nat> := [];
    gantt := [];
    var n := data.Length;
    var completed := 0;
    var mark := new bool[n](i => false);
    ghost var init := DequeState(rows0, mark[..], clock, queue);
    assert mark[..] == Unmarked(n);
    states, slices := [init], [];
    while completed < n
      invariant mark.Length == data.Length
      invariant IsDequeRun(states, slices, quantum) && gantt == Slices(slices)
      invariant states[0] == init
      invariant states[|slices|] == DequeState(data[..], mark[..], clock, queue)
      invariant RowsInv(rows0, data[..], clock, gantt, quantum)
      invariant DequeInv(data[..], mark[..], clock, queue, None)
      invariant completed == CompletedCount(data[..])
      decreases Work(data[..]), Gap(data[..], mark[..], clock)
    {
      var idle;
      idle, clock, queue, completed, gantt, states, slices :=
        Iterate(data, mark, quantum, clock, queue, completed, gantt, rows0, states, slices);
    }
    CompletedCountAll(data[..]);
    AllServed(rows0, data[..], clock, gantt, quantum);
  }

  // ---------------------------------------------------------------------------
  // Sort, loop and metrics

  /** `schedulingProcess` without the printing and the plot: sort by arrival,
      run the loop, then append turnaround and waiting times.  `gantt` holds
      the `(pid, start, end)` tuples of the slices. */
  method SchedulingProcess(data: array<Row>, quantum: int)
    returns (gantt: seq<Segment>, avgTurnaround: Average, avgWaiting: Average,
             ghost states: seq<DequeState>, ghost slices: seq<Option<Segment>>)
    requires forall i :: 0 <= i < data.Length ==> IsFresh(data[i]) && data[i].burst >= 0
    requires UniquePids(data[..]) && quantum >= 1
    modifies data
    ensures IsDequeRun(states, slices, quantum) && gantt == Slices(slices)
    ensures states[0] == DequeState(SortBy(old(data[..]), ByArrival), Unmarked(data.Length), 0, [])
    ensures AllCompleted(states[|slices|].rows)
    ensures AllReported(SortBy(old(data[..]), ByArrival), data[..], gantt)
    ensures Chronological(gantt) && WithinQuantum(gantt, quantum)
    ensures avgTurnaround == MeanOf(TotalTurnaround(data[..]), data.Length)
    ensures avgWaiting == MeanOf(TotalWaiting(data[..]), data.Length)
  {
    SortRecords(data, ByArrival);
    ghost var sorted := data[..];
    forall i | 0 <= i < data.Length
      ensures IsFresh(data[i]) && data[i].burst >= 0
    {
      SortBySameRecords(old(data[..]), ByArrival, data[i]);
    }
    SortByUniquePids(old(data[..]), ByArrival);
    gantt, states, slices := RunDeque(data, quantum);
    avgTurnaround, avgWaiting := Measure(data, sorted, gantt);
  }

  /** The typed records the loop works on once the corrected extension has run. */
  function NormalizedRows(records: seq<seq<int>>): (rows: seq<Row>)
    requires forall i :: 0 <= i < |records| ==> |records[i]| == 3 || |records[i]| == 4
    ensures |rows| == |records|
  {
    seq(|records|, i requires 0 <= i < |records| => DecodeRr(NormalizeRrRecord(records[i])))
  }

  /** `processData` without the prompt: brings three- and four-field records
      to the five-field layout, then schedules them with the given quantum. */
  method ProcessData(records: array<seq<int>>, quantum: int)
    returns (data: array<Row>, gantt: seq<Segment>, avgTurnaround: Average, avgWaiting: Average,
             ghost states: seq<DequeState>, ghost slices: seq<Option<Segment>>)
    requires forall i :: 0 <= i < records.Length ==> (|records[i]| == 3 || |records[i]| == 4) && records[i][2] >= 0
    requires forall i, j :: 0 <= i < records.Length && 0 <= j < records.Length && i != j ==> records[i][0] != records[j][0]
    requires quantum >= 1
    modifies records
    ensures forall i :: 0 <= i < records.Length ==> records[i] == NormalizeRrRecord(old(records[i]))
    ensures fresh(data) && data.Length == records.Length
    ensures IsDequeRun(states, slices, quantum) && gantt == Slices(slices)
    ensures states[0] == DequeState(SortBy(NormalizedRows(old(records[..])), ByArrival), Unmarked(data.Length), 0, [])
    ensures AllCompleted(states[|slices|].rows)
    ensures AllReported(SortBy(NormalizedRows(old(records[..])), ByArrival), data[..], gantt)
    ensures Chronological(gantt) && WithinQuantum(gantt, quantum)
    ensures avgTurnaround == MeanOf(TotalTurnaround(data[..]), data.Length)
    ensures avgWaiting == MeanOf(TotalWaiting(data[..]), data.Length)
  {
    ghost var rows := NormalizedRows(records[..]);
    forall i | 0 <= i < records.Length
      ensures RrReady(NormalizeRrRecord(records[i]))
    {
      NormalizedRrRecordIsFresh(records[i]);
    }
    NormalizeRrRecords(records);
    data := new Row[records.Length](i requires 0 <= i < records.Length && |records[i]| == 5 reads records => DecodeRr(records[i]));
    assert data[..] == rows;
    forall i | 0 <= i < data.Length
      ensures IsFresh(data[i]) && data[i].burst >= 0
    {
      NormalizedRrRecordIsFresh(old(records[i]));
    }
    gantt, avgTurnaround, avgWaiting, states, slices := SchedulingProcess(data, quantum);
  }
}
