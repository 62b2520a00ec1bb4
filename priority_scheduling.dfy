/**
  Preemptive priority scheduling (PriorityScheduling.py).

  A record is `[pid, arrival, remaining, priority, completed, burst]`; every tick
  runs the arrived incomplete record with the highest priority number, the
  earliest in arrival order on a tie.
 */
module PriorityScheduling {
  import opened Records
  import opened Sorting
  import opened Metrics
  import opened Preemptive

  /** `Priority.schedulingProcess` without the printing.  `startTime`, `exitTime`
      and `sequenceOfProcess` are the three lists the loop appends to, one
      entry per tick of `trace`. */
  method SchedulingProcess(data: array<Row>)
    returns (startTime: seq<int>, exitTime: seq<int>, sequenceOfProcess: seq<int>,
             avgTurnaround: Average, avgWaiting: Average,
             ghost trace: seq<Segment>, ghost states: seq<seq<Row>>, ghost picks: seq<nat>)
    requires forall i :: 0 <= i < data.Length ==> IsFresh(data[i]) && data[i].burst >= 1
    requires UniquePids(data[..])
    modifies data
    ensures startTime == StartsOf(trace) && exitTime == EndsOf(trace) && sequenceOfProcess == PidsOf(trace)
    ensures IsRun(states, picks, trace, HighestPriority) && states[0] == SortBy(old(data[..]), ByArrival)
    ensures AllCompleted(states[|trace|])
    ensures AllReported(SortBy(old(data[..]), ByArrival), data[..], trace)
    ensures |sequenceOfProcess| == SumBursts(old(data[..]))
    ensures UnitTicks(trace) && Chronological(trace)
    ensures avgTurnaround == MeanOf(TotalTurnaround(data[..]), data.Length)
    ensures avgWaiting == MeanOf(TotalWaiting(data[..]), data.Length)
  {
    var run;
    run, avgTurnaround, avgWaiting, states, picks := ScheduleAndMeasure(data, HighestPriority);
    trace := run;
    startTime := StartsOf(run);
    exitTime := EndsOf(run);
    sequenceOfProcess := PidsOf(run);
  }
}
