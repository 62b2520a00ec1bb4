/**
  First-come-first-served scheduling (FCFS.py).

  The records are sorted by `(arrival, burst)` and run one after the other,
  each to completion: the clock jumps to the arrival time when the CPU would
  otherwise idle, and each record gets its completion time appended.  Only
  `pid`, `arrival`, `burst` and `appended` of a `Row` are used here: an FCFS
  record is `[pid, arrival, burst]` followed by what the scheduler appends.
 */
module Fcfs {
  import opened Records
  import opened Sorting
  import opened Metrics

  function Max(a: int, b: int): int {
    if a < b then b else a
  }

  /** The clock once the first `i` records, in dispatch order, have run. */
  function ClockAfter(rows: seq<Row>, i: nat): int
    requires i <= |rows|
  {
    if i == 0 then 0 else Max(ClockAfter(rows, i - 1), rows[i - 1].arrival) + rows[i - 1].burst
  }

  /** When record `i` starts: the clock, or its arrival if that is later. */
  function StartOf(rows: seq<Row>, i: nat): int
    requires i < |rows|
  {
    Max(ClockAfter(rows, i), rows[i].arrival)
  }

  /** Each record's completion time, in dispatch order. */
  function Completions(rows: seq<Row>): (c: seq<int>)
    ensures |c| == |rows|
  {
    seq(|rows|, i requires 0 <= i < |rows| => ClockAfter(rows, i + 1))
  }

  /** The records with their completion times appended. */
  function WithCompletions(rows: seq<Row>): (r: seq<Row>)
    ensures |r| == |rows|
  {
    var c := Completions(rows);
    seq(|rows|, i requires 0 <= i < |rows| => rows[i].(appended := rows[i].appended + [c[i]]))
  }

  /** A record once it has completed at `done` and both metrics have been
      appended: completion, turnaround and waiting time. */
  function Measured(r: Row, done: int): (m: Row)
    ensures |m.appended| == |r.appended| + 3
  {
    r.(appended := r.appended + [done, done - r.arrival, done - r.arrival - r.burst])
  }

  /** Every record of the dispatch order, finished. */
  function Schedule(rows: seq<Row>): (r: seq<Row>)
    ensures |r| == |rows|
    ensures forall i :: 0 <= i < |r| ==> |r[i].appended| == |rows[i].appended| + 3
  {
    var c := Completions(rows);
    seq(|rows|, i requires 0 <= i < |rows| => Measured(rows[i], c[i]))
  }

  /** No process starts before it arrives, and the CPU idles before a start
      only when it is waiting for that very arrival. */
  lemma StartIsEarliestPossible(rows: seq<Row>, i: nat)
    requires i < |rows|
    ensures StartOf(rows, i) >= rows[i].arrival
    ensures StartOf(rows, i) >= ClockAfter(rows, i)
    ensures StartOf(rows, i) > ClockAfter(rows, i) ==> StartOf(rows, i) == rows[i].arrival
  {
  }

  /** With non-negative bursts the clock never runs backwards. */
  lemma {:induction false} ClockMonotone(rows: seq<Row>, i: nat, j: nat)
    requires forall k :: 0 <= k < |rows| ==> rows[k].burst >= 0
    requires i <= j <= |rows|
    ensures ClockAfter(rows, i) <= ClockAfter(rows, j)
    decreases j - i
  {
    if i < j {
      ClockMonotone(rows, i, j - 1);
    }
  }

  /** Dispatches never overlap: a record starts only after every earlier one
      has completed, and completion times follow dispatch order. */
  lemma NoOverlap(rows: seq<Row>, i: nat, j: nat)
    requires forall k :: 0 <= k < |rows| ==> rows[k].burst >= 0
    requires i < j < |rows|
    ensures ClockAfter(rows, i + 1) <= StartOf(rows, j)
    ensures ClockAfter(rows, i + 1) <= ClockAfter(rows, j + 1)
  {
    ClockMonotone(rows, i + 1, j);
  }

  /** FCFS waiting time is exactly the delay between arrival and start, so it
      is never negative. */
  lemma WaitingIsStartDelay(rows: seq<Row>, i: nat)
    requires i < |rows|
    ensures ClockAfter(rows, i + 1) - rows[i].arrival - rows[i].burst == StartOf(rows, i) - rows[i].arrival >= 0
  {
  }

  /** The `for` loop of `schedulingProcess`: runs the records in array order,
      appending each one's completion time. */
  method RunInOrder(data: array<Row>) returns (clock: int)
    modifies data
    ensures clock == ClockAfter(old(data[..]), data.Length)
    ensures data[..] == WithCompletions(old(data[..]))
  {
    ghost var rows := data[..];
    ghost var c := Completions(rows);
    clock := 0;
    for i := 0 to data.Length
      invariant clock == ClockAfter(rows, i)
      invariant forall j :: 0 <= j < i ==> data[j] == rows[j].(appended := rows[j].appended + [c[j]])
      invariant forall j :: i <= j < data.Length ==> data[j] == rows[j]
    {
      if clock < data[i].arrival {
        clock := data[i].arrival;
      }
      clock := clock + data[i].burst;
      assert clock == c[i];
      data[i] := data[i].(appended := data[i].appended + [clock]);
    }
    assert data[..] == WithCompletions(rows);
  }

  /** The loop and both metric passes of `schedulingProcess`, on records
      already in dispatch order. */
  method RunAndMeasure(data: array<Row>) returns (avgTurnaround: Average, avgWaiting: Average)
    requires forall i :: 0 <= i < data.Length ==> data[i].appended == []
    modifies data
    ensures data[..] == Schedule(old(data[..]))
    ensures avgTurnaround == MeanOf(TotalTurnaround(Schedule(old(data[..]))), data.Length)
    ensures avgWaiting == MeanOf(TotalWaiting(Schedule(old(data[..]))), data.Length)
  {
    ghost var rows := data[..];
    var _ := RunInOrder(data);
    ghost var completed := data[..];
    avgTurnaround := CalculateTurnaroundTime(data);
    ghost var timed := data[..];
    avgWaiting := CalculateWaitingTime(data);
    MetricsComplete(rows);
    SameTurnaround(data[..], completed);
    SameWaiting(data[..], timed);
  }

  /** The completion pass and the two metric passes together produce `Schedule`. */
  lemma MetricsComplete(rows: seq<Row>)
    requires forall i :: 0 <= i < |rows| ==> rows[i].appended == []
    ensures WithWaiting(WithTurnaround(WithCompletions(rows))) == Schedule(rows)
  {
    var c := Completions(rows);
    var completed := WithCompletions(rows);
    var timed := WithTurnaround(completed);
    var measured := WithWaiting(timed);
    forall i | 0 <= i < |rows|
      ensures measured[i] == Schedule(rows)[i]
    {
      assert completed[i].appended == [c[i]];
      assert timed[i].appended == [c[i], c[i] - rows[i].arrival];
    }
  }

  /** `sequence = [row[0] for row in process_data]`. */
  method PidSequence(data: array<Row>) returns (sequence: seq<int>)
    ensures |sequence| == data.Length
    ensures forall i :: 0 <= i < data.Length ==> sequence[i] == data[i].pid
  {
    sequence := [];
    for i := 0 to data.Length
      invariant |sequence| == i
      invariant forall j :: 0 <= j < i ==> sequence[j] == data[j].pid
    {
      sequence := sequence + [data[i].pid];
    }
  }

  /** `FCFS.schedulingProcess` without the printing: sort, run, append the
      turnaround and waiting times, and list the dispatch order. */
  method SchedulingProcess(data: array<Row>) returns (sequence: seq<int>, avgTurnaround: Average, avgWaiting: Average)
    requires forall i :: 0 <= i < data.Length ==> data[i].appended == []
    modifies data
    ensures data[..] == Schedule(SortBy(old(data[..]), ByArrivalThenBurst))
    ensures |sequence| == data.Length
    ensures forall i :: 0 <= i < data.Length ==> sequence[i] == data[i].pid
    ensures avgTurnaround == MeanOf(TotalTurnaround(data[..]), data.Length)
    ensures avgWaiting == MeanOf(TotalWaiting(data[..]), data.Length)
  {
    SortRecords(data, ByArrivalThenBurst);
    forall i | 0 <= i < data.Length
      ensures data[i].appended == []
    {
      SortBySameRecords(old(data[..]), ByArrivalThenBurst, data[i]);
    }
    avgTurnaround, avgWaiting := RunAndMeasure(data);
    sequence := PidSequence(data);
  }
}
