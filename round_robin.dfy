/**
  Round-robin scheduling (RoundRobin.py).

  The records are sorted by arrival.  Every iteration of the `while 1` loop
  scans them in order: a record that has arrived and is not completed is
  appended to the persistent ready queue as a snapshot unless an entry with
  its id is already queued, and after each such record the entry of the last
  executed process, if queued, is moved to the tail.  Records not yet arrived
  form the normal queue.  The head of the ready queue then runs for one
  quantum, or to completion if its snapshot needs no more, and is popped;
  with an empty ready queue the clock jumps to the arrival of the head of the
  normal queue, which runs the same way.  The loop stops when both queues
  are empty.
 */
module RoundRobin {
  import opened Records
  import opened Sorting
  import opened Metrics
  import opened ReadyQueue

  // ---------------------------------------------------------------------------
  // The arrival scan

  /** What the scan of the first `n` records appends to `queue`: snapshots of
      the arrived, incomplete records whose id is not queued yet. */
  function NewArrivals(rows: seq<Row>, clock: int, queue: seq<Entry>, n: nat): seq<Entry>
    requires n <= |rows|
  {
    if n == 0 then []
    else
      NewArrivals(rows, clock, queue, n - 1) +
      (if Ready(rows[n - 1], clock) && !Present(queue, rows[n - 1].pid) then [Snapshot(rows[n - 1])] else [])
  }

  /** Some record among the first `n` has arrived and is not completed. */
  predicate AnyReady(rows: seq<Row>, clock: int, n: nat)
    requires n <= |rows|
  {
    exists i :: 0 <= i < n && Ready(rows[i], clock)
  }

  /** The normal queue built from the first `n` records: snapshots of the
      incomplete records that have not arrived yet, in record order. */
  function Upcomings(rows: seq<Row>, clock: int, n: nat): seq<Entry>
    requires n <= |rows|
  {
    if n == 0 then []
    else Upcomings(rows, clock, n - 1) + (if Upcoming(rows[n - 1], clock) then [Snapshot(rows[n - 1])] else [])
  }

  /** The queue with the last executed process moved to the tail, if a move
      happened at all. */
  function Requeue(q: seq<Entry>, last: Option<int>, moved: bool): seq<Entry> {
    if moved && last.Some? then MoveToTail(q, last.value) else q
  }

  /** The ready queue once the first `n` records have been scanned. */
  function Scanned(rows: seq<Row>, clock: int, queue: seq<Entry>, last: Option<int>, n: nat): seq<Entry>
    requires n <= |rows|
  {
    Requeue(queue + NewArrivals(rows, clock, queue, n), last, AnyReady(rows, clock, n))
  }

  /** A queue entry is the current snapshot of an arrived, incomplete record. */
  predicate EntryOk(rows: seq<Row>, clock: int, e: Entry) {
    var i := PidIndex(rows, e.pid);
    i < |rows| && e == Snapshot(rows[i]) && Ready(rows[i], clock)
  }

  predicate QueueOk(rows: seq<Row>, clock: int, q: seq<Entry>) {
    Distinct(q) && forall e :: e in q ==> EntryOk(rows, clock, e)
  }

  /** What the scan of the first `n` records appends: entries with fresh ids,
      each the snapshot of a ready record, after which every ready record
      among the first `n` is queued. */
  lemma {:induction false} NewArrivalsFacts(rows: seq<Row>, clock: int, queue: seq<Entry>, n: nat)
    requires UniquePids(rows) && Distinct(queue) && n <= |rows|
    ensures Distinct(queue + NewArrivals(rows, clock, queue, n))
    ensures forall i :: n <= i < |rows| ==> !Present(NewArrivals(rows, clock, queue, n), rows[i].pid)
    ensures forall e :: e in NewArrivals(rows, clock, queue, n) ==> EntryOk(rows, clock, e)
    ensures forall i :: 0 <= i < n && Ready(rows[i], clock) ==> Present(queue + NewArrivals(rows, clock, queue, n), rows[i].pid)
  {
    if n > 0 {
      var m := n - 1;
      NewArrivalsFacts(rows, clock, queue, m);
      var old_ := NewArrivals(rows, clock, queue, m);
      var r := rows[m];
      var z := if Ready(r, clock) && !Present(queue, r.pid) then [Snapshot(r)] else [];
      assert NewArrivals(rows, clock, queue, n) == old_ + z;
      assert queue + NewArrivals(rows, clock, queue, n) == (queue + old_) + z;
      PresentIff(z, r.pid);
      if z != [] {
        PresentConcat(queue, old_, r.pid);
        DistinctAppend(queue + old_, Snapshot(r));
        PidIndexUnique(rows, m);
      }
      forall i | n <= i < |rows|
        ensures !Present(old_ + z, rows[i].pid)
      {
        PresentConcat(old_, z, rows[i].pid);
        PresentIff(z, rows[i].pid);
      }
      forall i | 0 <= i < n && Ready(rows[i], clock)
        ensures Present(queue + old_ + z, rows[i].pid)
      {
        PresentConcat(queue + old_, z, rows[i].pid);
        if i == m {
          PresentConcat(queue, old_, r.pid);
        }
      }
    }
  }

  /** The scan's work for one arrived record `r`: append its snapshot unless
      its id is queued, then move the last executed process to the tail. */
  function Admitted(q: seq<Entry>, r: Row, last: Option<int>): seq<Entry> {
    Requeue(q + (if Present(q, r.pid) then [] else [Snapshot(r)]), last, true)
  }

  /** Scanning one more arrived record: the presence check, the append and
      the move give the scan's result for one more record. */
  lemma ScanStep(rows: seq<Row>, clock: int, queue: seq<Entry>, last: Option<int>, n: nat)
    requires UniquePids(rows) && Distinct(queue) && n < |rows| && Ready(rows[n], clock)
    ensures Scanned(rows, clock, queue, last, n + 1) == Admitted(Scanned(rows, clock, queue, last, n), rows[n], last)
  {
    var r := rows[n];
    var y := queue + NewArrivals(rows, clock, queue, n);
    var cur := Scanned(rows, clock, queue, last, n);
    NewArrivalsFacts(rows, clock, queue, n);
    MoveToTailFacts(y, if last.Some? then last.value else 0);
    PresentConcat(queue, NewArrivals(rows, clock, queue, n), r.pid);
    assert Present(cur, r.pid) <==> Present(queue, r.pid);
    var z := if Present(queue, r.pid) then [] else [Snapshot(r)];
    assert NewArrivals(rows, clock, queue, n + 1) == NewArrivals(rows, clock, queue, n) + z;
    assert queue + NewArrivals(rows, clock, queue, n + 1) == y + z;
    assert AnyReady(rows, clock, n + 1);
    PresentIff(z, r.pid);
    if last.Some? && AnyReady(rows, clock, n) {
      PresentIff(z, last.value);
      MoveThenAppend(y, z, last.value);
    }
  }

  /** Scanning a record that has not arrived, or is completed, leaves the
      ready queue as it is. */
  lemma ScanSkip(rows: seq<Row>, clock: int, queue: seq<Entry>, last: Option<int>, n: nat)
    requires n < |rows| && !Ready(rows[n], clock)
    ensures Scanned(rows, clock, queue, last, n + 1) == Scanned(rows, clock, queue, last, n)
  {
    assert NewArrivals(rows, clock, queue, n + 1) == NewArrivals(rows, clock, queue, n);
    assert AnyReady(rows, clock, n + 1) == AnyReady(rows, clock, n) by {
      if AnyReady(rows, clock, n + 1) {
        var i :| 0 <= i < n + 1 && Ready(rows[i], clock);
        assert i < n;
      }
    }
  }

  /** The scan's work for one arrived record (RoundRobin.py:95-113): append
      its snapshot unless its id is queued, then move the last executed
      process to the tail. */
  method Admit(queue: seq<Entry>, r: Row, last: Option<int>) returns (q: seq<Entry>)
    requires Distinct(queue)
    ensures q == Admitted(queue, r, last)
    ensures Distinct(q)
  {
    q := queue;
    var present := IsPresent(q, r.pid);
    if !present {
      DistinctAppend(q, Snapshot(r));
      q := q + [Snapshot(r)];
    }
    ghost var grown := q;
    assert grown == queue + (if Present(queue, r.pid) then [] else [Snapshot(r)]);
    assert q != [] by {
      if queue == [] {
        assert !Present(queue, r.pid);
      }
    }
    if |q| != 0 && last.Some? {
      MoveToTailDistinct(q, last.value);
      q := MoveLastExecutedToTail(q, last.value);
      assert q == Requeue(grown, last, true);
    }
  }

  /** The arrival scan of one iteration (RoundRobin.py:88-119): returns the
      new ready queue and the normal queue. */
  method Scan(data: array<Row>, clock: int, queue: seq<Entry>, last: Option<int>)
    returns (q: seq<Entry>, normal: seq<Entry>)
    requires UniquePids(data[..]) && Distinct(queue)
    ensures q == Scanned(data[..], clock, queue, last, data.Length)
    ensures normal == Upcomings(data[..], clock, data.Length)
  {
    ghost var rows := data[..];
    q := queue;
    normal := [];
    for i := 0 to data.Length
      invariant q == Scanned(rows, clock, queue, last, i)
      invariant Distinct(q)
      invariant normal == Upcomings(rows, clock, i)
    {
      assert data[i] == rows[i];
      if data[i].arrival <= clock && !data[i].completed {
        ScanStep(rows, clock, queue, last, i);
        q := Admit(q, data[i], last);
      } else {
        ScanSkip(rows, clock, queue, last, i);
        if !data[i].completed {
          normal := normal + [Snapshot(data[i])];
        }
      }
    }
  }

  /** The ready queue after a scan holds current snapshots of ready records
      under distinct ids, and every ready record is queued.  The entries that
      were waiting keep their places at the front, and the last executed
      process, when it is queued again, is at the tail: behind every record
      that arrived while it ran. */
  lemma ScanFacts(rows: seq<Row>, clock: int, queue: seq<Entry>, last: Option<int>)
    requires UniquePids(rows) && QueueOk(rows, clock, queue)
    requires last.Some? ==> !Present(queue, last.value)
    ensures var q := Scanned(rows, clock, queue, last, |rows|);
      && QueueOk(rows, clock, q)
      && (forall i :: 0 <= i < |rows| && Ready(rows[i], clock) ==> Present(q, rows[i].pid))
      && |queue| <= |q| && q[..|queue|] == queue
      && (last.Some? && Present(q, last.value) ==> q[|q| - 1].pid == last.value)
  {
    var fresh_ := NewArrivals(rows, clock, queue, |rows|);
    var y := queue + fresh_;
    NewArrivalsFacts(rows, clock, queue, |rows|);
    assert forall e :: e in y ==> EntryOk(rows, clock, e);
    if last.Some? {
      MoveBehindArrivals(queue, fresh_, last.value);
      if Present(y, last.value) {
        var k := PositionOf(y, last.value);
        assert EntryOk(rows, clock, y[k]);
        assert AnyReady(rows, clock, |rows|);
      }
    }
  }

  /** Moving a process that was not waiting to the tail leaves the waiting
      entries at the front and puts it behind the new arrivals. */
  lemma MoveBehindArrivals(queue: seq<Entry>, fresh_: seq<Entry>, x: int)
    requires Distinct(queue + fresh_) && !Present(queue, x)
    ensures var y := queue + fresh_;
      var q := MoveToTail(y, x);
      && |queue| <= |q| && q[..|queue|] == queue
      && (Present(q, x) ==> q[|q| - 1].pid == x)
      && (forall e :: e in q <==> e in y)
      && Distinct(q)
      && (forall p :: Present(q, p) <==> Present(y, p))
  {
    var y := queue + fresh_;
    var q := MoveToTail(y, x);
    MoveToTailFacts(y, x);
    PresentConcat(queue, fresh_, x);
    if Present(y, x) {
      var k := PositionOf(y, x);
      PresentIff(queue, x);
      assert k >= |queue|;
      assert q == y[..k] + y[k + 1..] + [y[k]];
      assert q[..|queue|] == y[..k][..|queue|];
    }
  }

  /** The normal queue holds current snapshots of pending records, and its
      head is the first pending record in record order. */
  lemma {:induction false} UpcomingsFacts(rows: seq<Row>, clock: int, n: nat)
    requires UniquePids(rows) && n <= |rows|
    ensures forall e :: e in Upcomings(rows, clock, n) ==>
      var i := PidIndex(rows, e.pid); i < n && e == Snapshot(rows[i]) && Upcoming(rows[i], clock)
    ensures Upcomings(rows, clock, n) == [] ==> forall i :: 0 <= i < n ==> !Upcoming(rows[i], clock)
    ensures Upcomings(rows, clock, n) != [] ==>
      var k := PidIndex(rows, Upcomings(rows, clock, n)[0].pid);
      k < n && forall j :: 0 <= j < k ==> !Upcoming(rows[j], clock)
  {
    if n > 0 {
      var m := n - 1;
      UpcomingsFacts(rows, clock, m);
      PidIndexUnique(rows, m);
      var before := Upcomings(rows, clock, m);
      if before != [] {
        assert Upcomings(rows, clock, n)[0] == before[0];
      }
    }
  }

  // ---------------------------------------------------------------------------
  // One dispatch

  /** How long a snapshot with `remaining` burst runs: a whole quantum, or
      what it still needs if that is no more. */
  function Slice(remaining: int, quantum: int): int {
    if remaining > quantum then quantum else remaining
  }

  /** The record after its dispatch ending at `end`, decided on the queued
      snapshot `head` as the source does. */
  function RunSlice(r: Row, head: Entry, quantum: int, end: int): Row {
    if head.remaining > quantum then r.(remaining := r.remaining - quantum)
    else r.(remaining := 0, completed := true, appended := r.appended + [end])
  }

  /** One of the two dispatch branches (RoundRobin.py:127-161 and 169-201):
      the process of `head` runs from `start`, its record is looked up by id
      and updated, and nothing else changes. */
  method Dispatch(data: array<Row>, start: int, head: Entry, quantum: int) returns (k: nat, seg: Segment)
    requires PidIndex(data[..], head.pid) < data.Length
    modifies data
    ensures k == PidIndex(old(data[..]), head.pid)
    ensures seg == Segment(head.pid, start, start + Slice(head.remaining, quantum))
    ensures data[..] == old(data[..])[k := RunSlice(old(data[k]), head, quantum, seg.end)]
  {
    var end := start;
    if head.remaining > quantum {
      end := start + quantum;
    } else {
      end := start + head.remaining;
    }
    k := IndexOfPid(data, head.pid);
    if head.remaining > quantum {
      data[k] := data[k].(remaining := data[k].remaining - quantum);
    } else {
      data[k] := data[k].(remaining := 0, completed := true, appended := data[k].appended + [end]);
    }
    seg := Segment(head.pid, start, end);
  }

  // ---------------------------------------------------------------------------
  // The loop invariant

  /** No dispatch runs longer than a quantum. */
  predicate WithinQuantum(trace: seq<Segment>, quantum: int) {
    forall t :: 0 <= t < |trace| ==> trace[t].end - trace[t].start <= quantum
  }

  /** What the run so far says about one record, whose initial state was `r0`. */
  predicate RowInv(r0: Row, r: Row, clock: int, trace: seq<Segment>) {
    && SameProcess(r0, r)
    && 0 <= r.remaining <= r.burst
    && (r.completed ==>
          r.remaining == 0 && |r.appended| == 1 && r.arrival + r.burst <= r.appended[0] <= clock &&
          LastEnd(trace, r.pid) == Some(r.appended[0]))
    && (!r.completed ==> r.appended == [])
    && (r.remaining < r.burst ==> r.arrival + r.burst - r.remaining <= clock)
    && Busy(trace, r.pid) == r.burst - r.remaining
    && (forall t :: 0 <= t < |trace| && trace[t].pid == r.pid ==> r.arrival <= trace[t].start)
  }

  predicate RowsInv(rows0: seq<Row>, rows: seq<Row>, clock: int, trace: seq<Segment>, quantum: int) {
    && |rows| == |rows0|
    && UniquePids(rows)
    && (forall i :: 0 <= i < |rows| ==> RowInv(rows0[i], rows[i], clock, trace))
    && Chronological(trace)
    && WithinQuantum(trace, quantum)
    && 0 <= clock
    && (trace != [] ==> trace[|trace| - 1].end <= clock)
  }

  /** The process that ran last, which the next scan moves to the tail. */
  function LastExecuted(trace: seq<Segment>): Option<int> {
    if trace == [] then None else Some(trace[|trace| - 1].pid)
  }

  predicate LoopInv(rows0: seq<Row>, rows: seq<Row>, clock: int, queue: seq<Entry>, trace: seq<Segment>, quantum: int) {
    && RowsInv(rows0, rows, clock, trace, quantum)
    && QueueOk(rows, clock, queue)
    && (trace != [] ==> !Present(queue, trace[|trace| - 1].pid))
  }

  /** Remaining burst plus one per incomplete record: every dispatch lowers it. */
  function Weights(rows: seq<Row>): (ws: seq<int>)
    ensures |ws| == |rows|
  {
    seq(|rows|, i requires 0 <= i < |rows| => rows[i].remaining + (if rows[i].completed then 0 else 1))
  }

  function Work(rows: seq<Row>): int {
    Sum(Weights(rows))
  }

  lemma InitialLoopInv(rows: seq<Row>, quantum: int)
    requires forall i :: 0 <= i < |rows| ==> IsFresh(rows[i]) && rows[i].burst >= 0
    requires UniquePids(rows)
    ensures LoopInv(rows, rows, 0, [], [], quantum)
  {
  }

  /** The dispatched record keeps its part of the invariant. */
  lemma RunRowInv(r0: Row, r: Row, clock: int, trace: seq<Segment>, head: Entry, quantum: int, start: int)
    requires RowInv(r0, r, clock, trace) && quantum >= 1
    requires head == Snapshot(r) && !r.completed && clock <= start && r.arrival <= start
    ensures var s := Segment(r.pid, start, start + Slice(head.remaining, quantum));
      RowInv(r0, RunSlice(r, head, quantum, s.end), s.end, trace + [s])
  {
    var s := Segment(r.pid, start, start + Slice(head.remaining, quantum));
    AppendSegment(trace, s, r.pid);
    var trace' := trace + [s];
    forall t | 0 <= t < |trace'| && trace'[t].pid == r.pid
      ensures r.arrival <= trace'[t].start
    {
      if t < |trace| {
        assert trace'[t] == trace[t];
      }
    }
  }

  /** Any other record keeps its part of the invariant. */
  lemma OtherRowInv(r0: Row, r: Row, clock: int, trace: seq<Segment>, s: Segment)
    requires RowInv(r0, r, clock, trace)
    requires s.pid != r.pid && clock <= s.end
    ensures RowInv(r0, r, s.end, trace + [s])
  {
    AppendSegment(trace, s, r.pid);
    var trace' := trace + [s];
    forall t | 0 <= t < |trace'| && trace'[t].pid == r.pid
      ensures r.arrival <= trace'[t].start
    {
      assert t < |trace|;
      assert trace'[t] == trace[t];
    }
  }

  /** Dispatching an arrived, incomplete record from its current snapshot, no
      earlier than the clock, keeps the invariant on records and trace and
      lowers the work left. */
  lemma DispatchKeepsRows(rows0: seq<Row>, rows: seq<Row>, clock: int, trace: seq<Segment>, quantum: int,
                          k: nat, head: Entry, start: int, s: Segment, after: seq<Row>)
    requires RowsInv(rows0, rows, clock, trace, quantum) && quantum >= 1
    requires k < |rows| && head == Snapshot(rows[k]) && !rows[k].completed
    requires clock <= start && rows[k].arrival <= start
    requires s == Segment(head.pid, start, start + Slice(head.remaining, quantum))
    requires after == rows[k := RunSlice(rows[k], head, quantum, s.end)]
    ensures RowsInv(rows0, after, s.end, trace + [s], quantum) && 0 <= Work(after) < Work(rows)
  {
    var trace' := trace + [s];
    forall i | 0 <= i < |after|
      ensures RowInv(rows0[i], after[i], s.end, trace')
    {
      if i == k {
        RunRowInv(rows0[i], rows[i], clock, trace, head, quantum, start);
      } else {
        OtherRowInv(rows0[i], rows[i], clock, trace, s);
      }
    }
    assert Chronological(trace');
    assert WithinQuantum(trace', quantum);
    DispatchLowersWork(rows, k, head, quantum, s.end, after);
  }

  /** A dispatch of an incomplete record lowers the work left: its remaining
      burst does not grow, and if it completes it drops the extra unit. */
  lemma DispatchLowersWork(rows: seq<Row>, k: nat, head: Entry, quantum: int, end: int, after: seq<Row>)
    requires k < |rows| && head == Snapshot(rows[k]) && !rows[k].completed && quantum >= 1
    requires forall i :: 0 <= i < |rows| ==> 0 <= rows[i].remaining
    requires after == rows[k := RunSlice(rows[k], head, quantum, end)]
    ensures 0 <= Work(after) < Work(rows)
  {
    assert Weights(after) == Weights(rows)[k := Weights(after)[k]];
    SumUpdate(Weights(rows), k, Weights(after)[k]);
    SumNonNegative(Weights(after));
  }

  /** Popping the dispatched head leaves a queue that fits the new state. */
  lemma PopKeepsQueue(rows: seq<Row>, after: seq<Row>, clock: int, clock': int, q: seq<Entry>, k: nat)
    requires QueueOk(rows, clock, q) && q != [] && clock <= clock'
    requires k < |rows| == |after| && rows[k].pid == q[0].pid
    requires forall i :: 0 <= i < |rows| ==> after[i].pid == rows[i].pid
    requires forall i :: 0 <= i < |rows| && i != k ==> after[i] == rows[i]
    ensures QueueOk(after, clock', q[1..]) && !Present(q[1..], q[0].pid)
  {
    assert forall pid :: PidIndex(after, pid) == PidIndex(rows, pid) by {
      forall pid
        ensures PidIndex(after, pid) == PidIndex(rows, pid)
      {
        SamePidIndex(rows, after, pid);
      }
    }
    PresentIff(q[1..], q[0].pid);
    forall e | e in q[1..]
      ensures EntryOk(after, clock', e)
    {
      var j :| 0 <= j < |q[1..]| && q[1..][j] == e;
      assert q[j + 1] == e && e in q;
      assert e.pid != q[0].pid;
      var i := PidIndex(rows, e.pid);
      assert EntryOk(rows, clock, e);
      assert i != k;
      assert after[i] == rows[i];
    }
  }

  /** Records with the same ids, position by position, look ids up alike. */
  lemma {:induction false} SamePidIndex(a: seq<Row>, b: seq<Row>, pid: int)
    requires |a| == |b| && forall i :: 0 <= i < |a| ==> a[i].pid == b[i].pid
    ensures PidIndex(a, pid) == PidIndex(b, pid)
  {
    if a != [] && a[0].pid != pid {
      SamePidIndex(a[1..], b[1..], pid);
    }
  }

  predicate NoneReady(rows: seq<Row>, clock: int) {
    forall i :: 0 <= i < |rows| ==> !Ready(rows[i], clock)
  }

  /** What one iteration finds after its scan.  Both queues are empty only
      when every record is completed.  Otherwise, the ready queue's head is
      the current snapshot of an arrived, incomplete record; and with the
      ready queue empty no record is ready and the normal queue's head is the
      first pending record in arrival order. */
  lemma ScanOutcome(rows: seq<Row>, clock: int, queue: seq<Entry>, last: Option<int>)
    requires UniquePids(rows) && QueueOk(rows, clock, queue)
    requires last.Some? ==> !Present(queue, last.value)
    ensures var q := Scanned(rows, clock, queue, last, |rows|);
      var normal := Upcomings(rows, clock, |rows|);
      && QueueOk(rows, clock, q)
      && (q == [] && normal == [] <==> AllCompleted(rows))
      && (q != [] ==>
            var k := PidIndex(rows, q[0].pid);
            k < |rows| && q[0] == Snapshot(rows[k]) && Ready(rows[k], clock))
      && (q == [] && normal != [] ==>
            var k := PidIndex(rows, normal[0].pid);
            && k < |rows| && normal[0] == Snapshot(rows[k]) && Upcoming(rows[k], clock)
            && NoneReady(rows, clock)
            && forall j :: 0 <= j < k ==> !Upcoming(rows[j], clock))
  {
    var q := Scanned(rows, clock, queue, last, |rows|);
    var normal := Upcomings(rows, clock, |rows|);
    ScanFacts(rows, clock, queue, last);
    UpcomingsFacts(rows, clock, |rows|);
    if q != [] {
      assert EntryOk(rows, clock, q[0]);
    }
    if normal != [] {
      assert normal[0] in normal;
    }
    if q == [] {
      forall i | 0 <= i < |rows|
        ensures !Ready(rows[i], clock)
      {
        PresentIff(q, rows[i].pid);
      }
    }
    if q == [] && normal == [] {
      assert AllCompleted(rows) by {
        forall i | 0 <= i < |rows|
          ensures rows[i].completed
        {
          PresentIff(q, rows[i].pid);
        }
      }
    }
  }

  /** The process an iteration dispatches: the ready queue's head, or, with
      nothing ready, the first pending record. */
  function Head(q: seq<Entry>, normal: seq<Entry>): Entry
    requires q != [] || normal != []
  {
    if q != [] then q[0] else normal[0]
  }

  /** When that dispatch starts: at once, or when an idle CPU reaches the
      pending record's arrival. */
  function StartOf(clock: int, q: seq<Entry>, head: Entry): int {
    if q == [] && clock < head.arrival then head.arrival else clock
  }

  /** The choice between the two dispatch branches (RoundRobin.py:126 and
      164-167): the ready queue's head at once, or else the normal queue's
      head once the idle clock has reached its arrival. */
  method PickHead(clock: int, q: seq<Entry>, normal: seq<Entry>) returns (head: Entry, start: int)
    requires q != [] || normal != []
    ensures head == Head(q, normal) && start == StartOf(clock, q, head)
    ensures q != [] ==> head == q[0] && start == clock
    ensures q == [] ==> head == normal[0] && start >= clock && start >= head.arrival
  {
    start := clock;
    if |q| != 0 {
      head := q[0];
    } else {
      head := normal[0];
      if start < head.arrival {
        start := head.arrival;
      }
    }
  }

  /** The dispatched process has a record. */
  lemma HeadHasRecord(rows: seq<Row>, clock: int, queue: seq<Entry>, last: Option<int>)
    requires UniquePids(rows) && QueueOk(rows, clock, queue)
    requires last.Some? ==> !Present(queue, last.value)
    requires var q := Scanned(rows, clock, queue, last, |rows|);
      q != [] || Upcomings(rows, clock, |rows|) != []
    ensures var q := Scanned(rows, clock, queue, last, |rows|);
      PidIndex(rows, Head(q, Upcomings(rows, clock, |rows|)).pid) < |rows|
  {
    ScanOutcome(rows, clock, queue, last);
  }

  /** One dispatch and the pop of the ready queue's head keep the loop
      invariant and lower the work.  `q` is the ready queue after the scan,
      and `head`, the process dispatched from `start`, is its head when it is
      not empty. */
  lemma IterationKeepsInv(rows0: seq<Row>, rows: seq<Row>, clock: int, trace: seq<Segment>, quantum: int,
                          q: seq<Entry>, head: Entry, start: int, k: nat, s: Segment, after: seq<Row>, queue': seq<Entry>)
    requires RowsInv(rows0, rows, clock, trace, quantum) && quantum >= 1
    requires QueueOk(rows, clock, q) && (q != [] ==> head == q[0])
    requires k < |rows| && head == Snapshot(rows[k]) && !rows[k].completed
    requires clock <= start && rows[k].arrival <= start
    requires s == Segment(head.pid, start, start + Slice(head.remaining, quantum))
    requires after == rows[k := RunSlice(rows[k], head, quantum, s.end)]
    requires queue' == if q == [] then [] else q[1..]
    ensures LoopInv(rows0, after, s.end, queue', trace + [s], quantum)
    ensures 0 <= Work(after) < Work(rows)
  {
    DispatchKeepsRows(rows0, rows, clock, trace, quantum, k, head, start, s, after);
    if q != [] {
      PopKeepsQueue(rows, after, clock, s.end, q, k);
    }
  }

  /** The dispatched head is the current snapshot of an incomplete record, and
      its dispatch starts neither before the clock nor before its arrival. */
  lemma HeadIsRunnable(rows: seq<Row>, clock: int, queue: seq<Entry>, last: Option<int>,
                       q: seq<Entry>, normal: seq<Entry>, k: nat)
    requires UniquePids(rows) && QueueOk(rows, clock, queue)
    requires last.Some? ==> !Present(queue, last.value)
    requires q == Scanned(rows, clock, queue, last, |rows|)
    requires normal == Upcomings(rows, clock, |rows|)
    requires q != [] || normal != []
    requires k == PidIndex(rows, Head(q, normal).pid)
    ensures k < |rows| && Head(q, normal) == Snapshot(rows[k]) && !rows[k].completed
    ensures clock <= StartOf(clock, q, Head(q, normal)) && rows[k].arrival <= StartOf(clock, q, Head(q, normal))
    ensures QueueOk(rows, clock, q)
  {
    ScanOutcome(rows, clock, queue, last);
  }

  /** A record once the loop has finished with it: completed at the end of its
      last slice, having received exactly its burst, never before arrival. */
  predicate Served(r0: Row, r: Row, trace: seq<Segment>) {
    && SameProcess(r0, r)
    && r.remaining == 0 && r.completed
    && |r.appended| == 1
    && r.arrival + r.burst <= r.appended[0]
    && LastEnd(trace, r.pid) == Some(r.appended[0])
    && Busy(trace, r.pid) == r.burst
    && (forall t :: 0 <= t < |trace| && trace[t].pid == r.pid ==> r.arrival <= trace[t].start)
  }

  /** Once every record is completed, the loop invariant says each was served. */
  lemma AllServed(rows0: seq<Row>, rows: seq<Row>, clock: int, trace: seq<Segment>, quantum: int)
    requires RowsInv(rows0, rows, clock, trace, quantum) && AllCompleted(rows)
    ensures forall i :: 0 <= i < |rows| ==> Served(rows0[i], rows[i], trace)
  {
    forall i | 0 <= i < |rows|
      ensures Served(rows0[i], rows[i], trace)
    {
      assert RowInv(rows0[i], rows[i], clock, trace);
    }
  }

  /** The exit test of RoundRobin.py:122: after the scan at `clock` both the
      ready queue and the normal queue are empty. */
  predicate Quiet(rows: seq<Row>, clock: int, queue: seq<Entry>, last: Option<int>) {
    Scanned(rows, clock, queue, last, |rows|) == [] && Upcomings(rows, clock, |rows|) == []
  }

  /** One iteration that dispatches.  The scan of `rows` at `clock`, with
      `last` the process that ran last, turns `queue` into `q` and builds the
      normal queue; the head of `q`, or with `q` empty the first pending
      record, runs for `seg`, which turns `rows` into `after`; `queue'` is `q`
      without its head. */
  predicate Turn(rows: seq<Row>, clock: int, queue: seq<Entry>, last: Option<int>, quantum: int,
                 seg: Segment, after: seq<Row>, queue': seq<Entry>) {
    var q := Scanned(rows, clock, queue, last, |rows|);
    var normal := Upcomings(rows, clock, |rows|);
    && (q != [] || normal != [])
    && (var head := Head(q, normal);
        var start := StartOf(clock, q, head);
        var k := PidIndex(rows, head.pid);
        && k < |rows|
        && seg == Segment(head.pid, start, start + Slice(head.remaining, quantum))
        && after == rows[k := RunSlice(rows[k], head, quantum, seg.end)]
        && queue' == (if q == [] then [] else q[1..]))
  }

  /** `trace` is a run of the scheduler: `states[t]` and `queues[t]` are
      `process_data` and the ready queue before dispatch `t`, and every
      dispatch is a `Turn` from them, at the clock the dispatch before it
      left and after the process it dispatched. */
  ghost predicate IsRun(states: seq<seq<Row>>, queues: seq<seq<Entry>>, trace: seq<Segment>, quantum: int) {
    && |states| == |trace| + 1 && |queues| == |trace| + 1
    && forall t :: 0 <= t < |trace| ==>
         Turn(states[t], ClockBefore(trace, t), queues[t], LastExecuted(trace[..t]), quantum,
              trace[t], states[t + 1], queues[t + 1])
  }

  /** Extending a run by one more dispatch gives a run. */
  lemma ExtendRun(states: seq<seq<Row>>, queues: seq<seq<Entry>>, trace: seq<Segment>, quantum: int,
                  rows: seq<Row>, clock: int, queue: seq<Entry>,
                  seg: Segment, after: seq<Row>, queue': seq<Entry>)
    requires IsRun(states, queues, trace, quantum)
    requires states[|trace|] == rows && queues[|trace|] == queue && ClockBefore(trace, |trace|) == clock
    requires Turn(rows, clock, queue, LastExecuted(trace), quantum, seg, after, queue')
    ensures IsRun(states + [after], queues + [queue'], trace + [seg], quantum)
    ensures (states + [after])[0] == states[0] && (queues + [queue'])[0] == queues[0]
    ensures (states + [after])[|trace| + 1] == after && (queues + [queue'])[|trace| + 1] == queue'
    ensures ClockBefore(trace + [seg], |trace| + 1) == seg.end && LastExecuted(trace + [seg]) == Some(seg.pid)
  {
    var states', queues', trace' := states + [after], queues + [queue'], trace + [seg];
    forall t | 0 <= t < |trace'|
      ensures Turn(states'[t], ClockBefore(trace', t), queues'[t], LastExecuted(trace'[..t]), quantum,
                   trace'[t], states'[t + 1], queues'[t + 1])
    {
      assert trace'[..t] == trace[..t];
      if t < |trace| {
        assert ClockBefore(trace', t) == ClockBefore(trace, t);
      } else {
        assert trace[..t] == trace;
      }
    }
  }

  /** The dispatch half of one iteration (RoundRobin.py:123-201), once the
      scan has left `q` and `normal` not both empty: the head runs for one
      slice `seg` and the ready queue's head is popped, which is one `Turn`. */
  method Serve(data: array<Row>, quantum: int, clock: int, queue: seq<Entry>, trace: seq<Segment>,
               q: seq<Entry>, normal: seq<Entry>, ghost rows0: seq<Row>)
    returns (queue': seq<Entry>, seg: Segment)
    requires LoopInv(rows0, data[..], clock, queue, trace, quantum) && quantum >= 1
    requires q == Scanned(data[..], clock, queue, LastExecuted(trace), data.Length)
    requires normal == Upcomings(data[..], clock, data.Length)
    requires q != [] || normal != []
    modifies data
    ensures Turn(old(data[..]), clock, queue, LastExecuted(trace), quantum, seg, data[..], queue')
    ensures LoopInv(rows0, data[..], seg.end, queue', trace + [seg], quantum)
    ensures 0 <= Work(data[..]) < Work(old(data[..]))
  {
    ghost var rows := data[..];
    ghost var last := LastExecuted(trace);
    HeadHasRecord(rows, clock, queue, last);
    var head, start := PickHead(clock, q, normal);
    var k;
    k, seg := Dispatch(data, start, head, quantum);
    HeadIsRunnable(rows, clock, queue, last, q, normal, k);
    if |q| != 0 {
      queue' := q[1..];
    } else {
      queue' := q;
    }
    IterationKeepsInv(rows0, rows, clock, trace, quantum, q, head, start, k, seg, data[..], queue');
  }

  /** One iteration of the `while 1` loop (RoundRobin.py:88-201): the scan,
      then either the exit test of RoundRobin.py:122 (`done`, both queues
      empty) or one dispatch by `Serve`, whose slice is appended to `trace`
      and whose `Turn` extends the run `states`/`queues`. */
  method Iterate(data: array<Row>, quantum: int, clock: int, queue: seq<Entry>, trace: seq<Segment>,
                 ghost rows0: seq<Row>, ghost states: seq<seq<Row>>, ghost queues: seq<seq<Entry>>)
    returns (done: bool, clock': int, queue': seq<Entry>, trace': seq<Segment>,
             ghost states': seq<seq<Row>>, ghost queues': seq<seq<Entry>>)
    requires LoopInv(rows0, data[..], clock, queue, trace, quantum) && quantum >= 1
    requires IsRun(states, queues, trace, quantum) && clock == ClockBefore(trace, |trace|)
    requires states[|trace|] == data[..] && queues[|trace|] == queue
    modifies data
    ensures done <==> Quiet(old(data[..]), clock, queue, LastExecuted(trace))
    ensures done ==> data[..] == old(data[..]) && AllCompleted(data[..]) && trace' == trace
    ensures done ==> clock' == clock && queue' == queue && states' == states && queues' == queues
    ensures !done ==> |trace'| == |trace| + 1 && trace'[..|trace|] == trace
    ensures !done ==> Turn(old(data[..]), clock, queue, LastExecuted(trace), quantum, trace'[|trace|], data[..], queue')
    ensures !done ==> LoopInv(rows0, data[..], clock', queue', trace', quantum)
    ensures !done ==> 0 <= Work(data[..]) < Work(old(data[..]))
    ensures !done ==> IsRun(states', queues', trace', quantum) && clock' == ClockBefore(trace', |trace'|)
    ensures !done ==> states'[0] == states[0] && queues'[0] == queues[0]
    ensures !done ==> states'[|trace'|] == data[..] && queues'[|trace'|] == queue'
  {
    var last := LastExecuted(trace);
    var q, normal := Scan(data, clock, queue, last);
    if |q| == 0 && |normal| == 0 {
      ScanOutcome(data[..], clock, queue, last);
      return true, clock, queue, trace, states, queues;
    }
    done := false;
    ghost var rows := data[..];
    var seg;
    queue', seg := Serve(data, quantum, clock, queue, trace, q, normal, rows0);
    ExtendRun(states, queues, trace, quantum, rows, clock, queue, seg, data[..], queue');
    trace' := trace + [seg];
    clock' := seg.end;
    states', queues' := states + [data[..]], queues + [queue'];
  }

  /** The `while 1` loop of `schedulingProcess` (RoundRobin.py:87-201), on
      records sorted by arrival: a run of the scheduler from the initial
      records and an empty ready queue to the first scan that finds both
      queues empty.  Every record is served, and the dispatches are
      chronological and no longer than a quantum. */
  method RunRoundRobin(data: array<Row>, quantum: int)
    returns (trace: seq<Segment>, ghost states: seq<seq<Row>>, ghost queues: seq<seq<Entry>>)
    requires forall i :: 0 <= i < data.Length ==> IsFresh(data[i]) && data[i].burst >= 0
    requires UniquePids(data[..]) && quantum >= 1
    modifies data
    ensures IsRun(states, queues, trace, quantum)
    ensures states[0] == old(data[..]) && queues[0] == [] && states[|trace|] == data[..]
    ensures Quiet(data[..], ClockBefore(trace, |trace|), queues[|trace|], LastExecuted(trace))
    ensures AllCompleted(data[..])
    ensures forall i :: 0 <= i < data.Length ==> Served(old(data[i]), data[i], trace)
    ensures Chronological(trace) && WithinQuantum(trace, quantum)
  {
    ghost var rows0 := data[..];
    InitialLoopInv(rows0, quantum);
    var clock := 0;
    var queue: seq<Entry> := [];
    trace := [];
    states, queues := [rows0], [[]];
    while true
      invariant LoopInv(rows0, data[..], clock, queue, trace, quantum)
      invariant IsRun(states, queues, trace, quantum) && clock == ClockBefore(trace, |trace|)
      invariant states[0] == rows0 && queues[0] == []
      invariant states[|trace|] == data[..] && queues[|trace|] == queue
      decreases Work(data[..])
    {
      var done;
      done, clock, queue, trace, states, queues := Iterate(data, quantum, clock, queue, trace, rows0, states, queues);
      if done {
        AllServed(rows0, data[..], clock, trace, quantum);
        break;
      }
    }
  }

  // ---------------------------------------------------------------------------
  // Sort, loop and metrics

  /** A record as the scheduler leaves it: served, with its completion,
      turnaround and waiting time appended. */
  predicate Reported(r0: Row, r: Row, trace: seq<Segment>) {
    && SameProcess(r0, r)
    && r.remaining == 0 && r.completed
    && |r.appended| == 3
    && LastEnd(trace, r.pid) == Some(r.appended[0])
    && r.arrival + r.burst <= r.appended[0]
    && r.appended[1] == r.appended[0] - r.arrival
    && r.appended[2] == r.appended[1] - r.burst
    && 0 <= r.appended[2]
    && Busy(trace, r.pid) == r.burst
  }

  predicate AllReported(rows0: seq<Row>, rows: seq<Row>, trace: seq<Segment>) {
    |rows0| == |rows| &&
    forall i :: 0 <= i < |rows| ==> |rows[i].appended| == 3 && Reported(rows0[i], rows[i], trace)
  }

  /** The metric passes turn served records into reported ones. */
  lemma MetricsReported(rows0: seq<Row>, ran: seq<Row>, trace: seq<Segment>)
    requires |rows0| == |ran|
    requires forall i :: 0 <= i < |ran| ==> |ran[i].appended| == 1 && Served(rows0[i], ran[i], trace)
    ensures AllReported(rows0, WithWaiting(WithTurnaround(ran)), trace)
  {
    var measured := WithWaiting(WithTurnaround(ran));
    forall i | 0 <= i < |ran|
      ensures Reported(rows0[i], measured[i], trace)
    {
      var c := ran[i].appended[0];
      assert ran[i].appended == [c];
      assert measured[i].appended == [c, c - ran[i].arrival, c - ran[i].arrival - ran[i].burst];
    }
  }

  /** The two metric passes after the loop: every served record is reported,
      and the averages are the means of the appended values. */
  method Measure(data: array<Row>, ghost rows0: seq<Row>, ghost trace: seq<Segment>)
    returns (avgTurnaround: Average, avgWaiting: Average)
    requires data.Length == |rows0|
    requires forall i :: 0 <= i < data.Length ==> Served(rows0[i], data[i], trace)
    modifies data
    ensures AllReported(rows0, data[..], trace)
    ensures avgTurnaround == MeanOf(TotalTurnaround(data[..]), data.Length)
    ensures avgWaiting == MeanOf(TotalWaiting(data[..]), data.Length)
  {
    ghost var ran := data[..];
    avgTurnaround := CalculateTurnaroundTime(data);
    avgWaiting := CalculateWaitingTime(data);
    MetricsReported(rows0, ran, trace);
    BothPassesTotals(ran);
  }

  /** `RoundRobin.schedulingProcess` without the printing: sort by arrival,
      run the loop, then append turnaround and waiting times.  Returns the
      start times, exit times and process ids of the dispatches. */
  method SchedulingProcess(data: array<Row>, quantum: int)
    returns (startTime: seq<int>, exitTime: seq<int>, executedProcess: seq<int>,
             avgTurnaround: Average, avgWaiting: Average, ghost trace: seq<Segment>,
             ghost states: seq<seq<Row>>, ghost queues: seq<seq<Entry>>)
    requires forall i :: 0 <= i < data.Length ==> IsFresh(data[i]) && data[i].burst >= 0
    requires UniquePids(data[..]) && quantum >= 1
    modifies data
    ensures IsRun(states, queues, trace, quantum)
    ensures states[0] == SortBy(old(data[..]), ByArrival) && queues[0] == []
    ensures Quiet(states[|trace|], ClockBefore(trace, |trace|), queues[|trace|], LastExecuted(trace))
    ensures AllReported(SortBy(old(data[..]), ByArrival), data[..], trace)
    ensures Chronological(trace) && WithinQuantum(trace, quantum)
    ensures startTime == StartsOf(trace) && exitTime == EndsOf(trace) && executedProcess == PidsOf(trace)
    ensures avgTurnaround == MeanOf(TotalTurnaround(data[..]), data.Length)
    ensures avgWaiting == MeanOf(TotalWaiting(data[..]), data.Length)
  {
    SortRecords(data, ByArrival);
    ghost var sorted := data[..];
    forall i | 0 <= i < data.Length
      ensures IsFresh(data[i]) && data[i].burst >= 0
    {
      SortBySameRecords(old(data[..]), ByArrival, data[i]);
    }
    SortByUniquePids(old(data[..]), ByArrival);
    var segs;
    segs, states, queues := RunRoundRobin(data, quantum);
    trace := segs;
    avgTurnaround, avgWaiting := Measure(data, sorted, trace);
    startTime := StartsOf(segs);
    exitTime := EndsOf(segs);
    executedProcess := PidsOf(segs);
  }
}
