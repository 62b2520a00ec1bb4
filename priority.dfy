/**
  Preemptive priority scheduling on a given list (Priority.py).

  `processData` takes four-field records `[pid, arrival, burst, priority]`,
  extends them to the six-field layout, and runs the same tick loop as
  PriorityScheduling.py, recording one Gantt tuple `(pid, t - 1, t)` per tick.
 */
module Priority {
  import opened Records
  import opened Sorting
  import opened Metrics
  import opened Preemptive
  import opened RawRecords

  /** The typed records the loop works on once the extension has run. */
  function ExtendedRows(records: seq<seq<int>>): (rows: seq<Row>)
    requires forall i :: 0 <= i < |records| ==> |records[i]| == 4
    ensures |rows| == |records|
  {
    seq(|records|, i requires 0 <= i < |records| => DecodePriority(ExtendPriorityRecord(records[i])))
  }

  /** `Priority.processData` without the printing and the plot: extends the
      records, then sorts, ticks and measures.  `gantt` is the list of Gantt
      tuples and `sequenceOfProcess` the process ids in the same order. */
  method ProcessData(records: array<seq<int>>)
    returns (data: array<Row>, sequenceOfProcess: seq<int>, gantt: seq<Segment>,
             avgTurnaround: Average, avgWaiting: Average,
             ghost states: seq<seq<Row>>, ghost picks: seq<nat>)
    requires forall i :: 0 <= i < records.Length ==> |records[i]| == 4 && records[i][2] >= 1
    requires forall i, j :: 0 <= i < records.Length && 0 <= j < records.Length && i != j ==> records[i][0] != records[j][0]
    modifies records
    ensures forall i :: 0 <= i < records.Length ==> records[i] == ExtendPriorityRecord(old(records[i]))
    ensures fresh(data) && data.Length == records.Length
    ensures sequenceOfProcess == PidsOf(gantt)
    ensures IsRun(states, picks, gantt, HighestPriority) && states[0] == SortBy(ExtendedRows(old(records[..])), ByArrival)
    ensures AllCompleted(states[|gantt|])
    ensures AllReported(SortBy(ExtendedRows(old(records[..])), ByArrival), data[..], gantt)
    ensures |gantt| == SumBursts(ExtendedRows(old(records[..])))
    ensures UnitTicks(gantt) && Chronological(gantt)
    ensures avgTurnaround == MeanOf(TotalTurnaround(data[..]), data.Length)
    ensures avgWaiting == MeanOf(TotalWaiting(data[..]), data.Length)
  {
    ghost var rows := ExtendedRows(records[..]);
    ExtendPriorityRecords(records);
    data := new Row[records.Length](i requires 0 <= i < records.Length && |records[i]| >= 6 reads records => DecodePriority(records[i]));
    assert data[..] == rows;
    forall i | 0 <= i < data.Length
      ensures IsFresh(data[i]) && data[i].burst >= 1
    {
      ExtendedPriorityRecordIsFresh(old(records[i]));
    }
    gantt, avgTurnaround, avgWaiting, states, picks := ScheduleAndMeasure(data, HighestPriority);
    sequenceOfProcess := PidsOf(gantt);
  }
}
