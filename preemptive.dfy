/**
  The preemptive tick loop shared by SJF.py, PriorityScheduling.py and
  Priority.py.

  Every iteration splits the incomplete records into the arrived ones (the
  ready queue) and the others (the normal queue).  If some record has
  arrived, the ready queue is stably sorted by the policy's key and its head
  runs for one tick; otherwise the clock jumps to the arrival of the first
  pending record, which runs for one tick.  The selected record is looked up
  by process id, its remaining burst is decremented, and when that reaches 0
  it is marked completed and the end of the tick is appended to it.  The
  loop stops when no incomplete record is left.

  The three files differ only in the key of the ready-queue sort:
  `ShortestRemaining` sorts on the remaining burst, `HighestPriority` sorts on
  the priority number with `reverse=True`.  Both sorts are stable, and the
  ready queue is built in the order of `process_data`, which is sorted by
  arrival, so the head is the FIRST record in that order that attains the
  best key.
 */
module Preemptive {
  import opened Records
  import opened Sorting
  import opened Metrics

  datatype Policy = ShortestRemaining | HighestPriority

  /** The ready-queue sort key, oriented so that a smaller rank runs first. */
  function Rank(r: Row, p: Policy): int {
    match p
    case ShortestRemaining => r.remaining
    case HighestPriority => -r.priority
  }

  /** Among the first `n` records, `k` is the ready one the stable sort puts at
      the head: no ready record ranks better, and every ready record before it
      ranks strictly worse. */
  predicate IsBestAmong(rows: seq<Row>, clock: int, p: Policy, k: int, n: int)
    requires n <= |rows|
  {
    0 <= k < n && Ready(rows[k], clock) &&
    (forall j :: 0 <= j < n && Ready(rows[j], clock) ==> Rank(rows[k], p) <= Rank(rows[j], p)) &&
    (forall j :: 0 <= j < k && Ready(rows[j], clock) ==> Rank(rows[k], p) < Rank(rows[j], p))
  }

  predicate IsBestReady(rows: seq<Row>, clock: int, p: Policy, k: int) {
    IsBestAmong(rows, clock, p, k, |rows|)
  }

  /** `k` is the head of the normal queue: the first pending record. */
  predicate IsFirstUpcoming(rows: seq<Row>, clock: int, k: int) {
    0 <= k < |rows| && Upcoming(rows[k], clock) &&
    forall j :: 0 <= j < k ==> !Upcoming(rows[j], clock)
  }

  /** `k` is what a stable sort of the pending records by arrival puts at the
      head: the first pending record with the earliest arrival. */
  predicate IsEarliestUpcoming(rows: seq<Row>, clock: int, k: int) {
    0 <= k < |rows| && Upcoming(rows[k], clock) &&
    (forall j :: 0 <= j < |rows| && Upcoming(rows[j], clock) ==> rows[k].arrival <= rows[j].arrival) &&
    (forall j :: 0 <= j < k && Upcoming(rows[j], clock) ==> rows[k].arrival < rows[j].arrival)
  }

  predicate NoneReady(rows: seq<Row>, clock: int) {
    forall j :: 0 <= j < |rows| ==> !Ready(rows[j], clock)
  }

  /** The record the loop runs at `clock`, and when its tick starts. */
  predicate Chosen(rows: seq<Row>, clock: int, p: Policy, k: int, start: int) {
    (IsBestReady(rows, clock, p, k) && start == clock) ||
    (NoneReady(rows, clock) && IsEarliestUpcoming(rows, clock, k) && start == rows[k].arrival)
  }

  /** The selected head is determined: two records cannot both be it. */
  lemma BestReadyUnique(rows: seq<Row>, clock: int, p: Policy, k1: int, k2: int)
    requires IsBestReady(rows, clock, p, k1) && IsBestReady(rows, clock, p, k2)
    ensures k1 == k2
  {
  }

  /** In arrival-sorted records the first pending record is also the head of
      the normal queue once that is stably sorted by arrival, so SJF.py, which
      takes `normal_queue[0]` unsorted, and the priority versions, which sort
      it first, pick the same record. */
  lemma FirstUpcomingIsEarliest(rows: seq<Row>, clock: int, k: int)
    requires Sorted(rows, ByArrival)
    requires IsFirstUpcoming(rows, clock, k)
    ensures IsEarliestUpcoming(rows, clock, k)
  {
    forall j | 0 <= j < |rows| && Upcoming(rows[j], clock)
      ensures rows[k].arrival <= rows[j].arrival
    {
      if k < j {
        assert KeyLe(KeyOf(rows[k], ByArrival), KeyOf(rows[j], ByArrival));
      }
    }
  }

  datatype Choice = RunReady(k: nat) | RunUpcoming(k: nat) | Done

  /** The partition into ready and normal queue, the ready-queue sort and the
      exit test of one iteration: finds the head of the ready queue, or else
      the head of the normal queue, or reports that both are empty. */
  method Select(data: array<Row>, clock: int, p: Policy) returns (c: Choice)
    ensures c.Done? <==> AllCompleted(data[..])
    ensures c.RunReady? ==> IsBestReady(data[..], clock, p, c.k)
    ensures c.RunUpcoming? ==> NoneReady(data[..], clock) && IsFirstUpcoming(data[..], clock, c.k)
  {
    var best: Option<nat> := None;
    var first: Option<nat> := None;
    for i := 0 to data.Length
      invariant best.None? ==> forall j :: 0 <= j < i ==> !Ready(data[j], clock)
      invariant best.Some? ==> IsBestAmong(data[..], clock, p, best.value, i)
      invariant first.None? ==> forall j :: 0 <= j < i ==> !Upcoming(data[j], clock)
      invariant first.Some? ==> first.value < i && IsFirstUpcoming(data[..], clock, first.value)
    {
      if data[i].arrival <= clock && !data[i].completed {
        if best.None? || Rank(data[i], p) < Rank(data[best.value], p) {
          best := Some(i);
        }
      } else if !data[i].completed {
        if first.None? {
          first := Some(i);
        }
      }
    }
    if best.Some? {
      c := RunReady(best.value);
    } else if first.Some? {
      c := RunUpcoming(first.value);
    } else {
      c := Done;
    }
  }

  /** The record after one tick that ends at `end`. */
  function TickRow(r: Row, end: int): Row {
    if r.remaining - 1 == 0 then r.(remaining := 0, completed := true, appended := r.appended + [end])
    else r.(remaining := r.remaining - 1)
  }

  /** One iteration of the `while 1` loop.  Either every record is completed
      and nothing changes, or record `k`, chosen by the policy, runs for the
      one tick `seg`: its remaining burst drops by one, it is marked completed
      with completion time `seg.end` exactly when that reaches 0, and no other
      record changes. */
  method Tick(data: array<Row>, clock: int, p: Policy) returns (finished: bool, k: nat, seg: Segment)
    requires Sorted(data[..], ByArrival)
    requires UniquePids(data[..])
    modifies data
    ensures finished <==> AllCompleted(old(data[..]))
    ensures finished ==> data[..] == old(data[..])
    ensures !finished ==> Step(old(data[..]), clock, p, k, seg, data[..])
  {
    var c := Select(data, clock, p);
    if c.Done? {
      return true, 0, Segment(0, clock, clock);
    }
    finished := false;
    var start := clock;
    if c.RunUpcoming? {
      FirstUpcomingIsEarliest(data[..], clock, c.k);
      if start < data[c.k].arrival {
        start := data[c.k].arrival;
      }
    }
    var pid := data[c.k].pid;
    var end := start + 1;
    k := IndexOfPid(data, pid);
    assert k == c.k;
    data[k] := data[k].(remaining := data[k].remaining - 1);
    if data[k].remaining == 0 {
      data[k] := data[k].(completed := true, appended := data[k].appended + [end]);
    }
    seg := Segment(pid, start, end);
  }

  // ---------------------------------------------------------------------------
  // The loop invariant

  /** Every tick lasts exactly one time unit. */
  predicate UnitTicks(trace: seq<Segment>) {
    forall t :: 0 <= t < |trace| ==> trace[t].end == trace[t].start + 1
  }

  /** What the run so far says about one record, whose initial state was `r0`. */
  predicate RowInv(r0: Row, r: Row, clock: int, trace: seq<Segment>) {
    && SameProcess(r0, r)
    && 0 <= r.remaining <= r.burst
    && (r.completed <==> r.remaining == 0)
    && (r.completed ==>
          |r.appended| == 1 && r.arrival + r.burst <= r.appended[0] <= clock &&
          LastEnd(trace, r.pid) == Some(r.appended[0]))
    && (!r.completed ==> r.appended == [])
    && (r.remaining < r.burst ==> r.arrival + r.burst - r.remaining <= clock)
    && Count(trace, r.pid) == r.burst - r.remaining
    && (forall t :: 0 <= t < |trace| && trace[t].pid == r.pid ==> r.arrival <= trace[t].start)
  }

  predicate TickInv(rows0: seq<Row>, rows: seq<Row>, clock: int, trace: seq<Segment>) {
    && |rows| == |rows0|
    && UniquePids(rows)
    && (forall i :: 0 <= i < |rows| ==> RowInv(rows0[i], rows[i], clock, trace))
    && UnitTicks(trace)
    && Chronological(trace)
    && 0 <= clock
    && (trace != [] ==> trace[|trace| - 1].end == clock)
    && |trace| + SumRemaining(rows) == SumBursts(rows0)
  }

  /** Before the first tick the invariant holds of fresh records. */
  lemma InitialInv(rows: seq<Row>)
    requires forall i :: 0 <= i < |rows| ==> IsFresh(rows[i]) && rows[i].burst >= 1
    requires UniquePids(rows)
    ensures TickInv(rows, rows, 0, [])
  {
    assert Remainings(rows) == Bursts(rows);
  }

  /** A chosen record is incomplete and its tick starts neither before the
      clock nor before its arrival. */
  lemma ChosenIsRunnable(rows: seq<Row>, clock: int, p: Policy, k: int, start: int)
    requires Chosen(rows, clock, p, k, start)
    ensures 0 <= k < |rows| && !rows[k].completed && clock <= start && rows[k].arrival <= start
  {
  }

  /** The ticked record keeps its part of the invariant. */
  lemma TickedRowInv(r0: Row, r: Row, clock: int, trace: seq<Segment>, start: int)
    requires RowInv(r0, r, clock, trace)
    requires !r.completed && clock <= start && r.arrival <= start
    ensures RowInv(r0, TickRow(r, start + 1), start + 1, trace + [Segment(r.pid, start, start + 1)])
  {
    var s := Segment(r.pid, start, start + 1);
    AppendSegment(trace, s, r.pid);
    var trace' := trace + [s];
    forall t | 0 <= t < |trace'| && trace'[t].pid == r.pid
      ensures r.arrival <= trace'[t].start
    {
      if t < |trace| {
        assert trace'[t] == trace[t];
      }
    }
  }

  /** Any other record keeps its part of the invariant. */
  lemma OtherRowInv(r0: Row, r: Row, clock: int, trace: seq<Segment>, s: Segment)
    requires RowInv(r0, r, clock, trace)
    requires s.pid != r.pid && clock <= s.end
    ensures RowInv(r0, r, s.end, trace + [s])
  {
    AppendSegment(trace, s, r.pid);
    var trace' := trace + [s];
    forall t | 0 <= t < |trace'| && trace'[t].pid == r.pid
      ensures r.arrival <= trace'[t].start
    {
      assert t < |trace|;
      assert trace'[t] == trace[t];
    }
  }

  /** One tick of an incomplete record, started no earlier than the clock and
      its arrival, keeps the invariant and consumes one unit of the total
      remaining burst. */
  lemma TickKeepsInv(rows0: seq<Row>, rows: seq<Row>, clock: int, trace: seq<Segment>, k: nat, s: Segment, after: seq<Row>)
    requires TickInv(rows0, rows, clock, trace)
    requires k < |rows| && !rows[k].completed && clock <= s.start && rows[k].arrival <= s.start
    requires s == Segment(rows[k].pid, s.start, s.start + 1)
    requires after == rows[k := TickRow(rows[k], s.end)]
    ensures TickInv(rows0, after, s.end, trace + [s])
    ensures 0 <= SumRemaining(after) == SumRemaining(rows) - 1
  {
    var trace' := trace + [s];
    TickKeepsRows(rows0, rows, clock, trace, k, s, after);
    SumRemainingUpdate(rows, k, after[k]);
    assert UnitTicks(trace');
    assert Chronological(trace');
    SumRemainingNonNegative(after);
  }

  /** Each record keeps its part of the invariant across a tick. */
  lemma TickKeepsRows(rows0: seq<Row>, rows: seq<Row>, clock: int, trace: seq<Segment>, k: nat, s: Segment, after: seq<Row>)
    requires |rows| == |rows0| && forall i :: 0 <= i < |rows| ==> RowInv(rows0[i], rows[i], clock, trace)
    requires UniquePids(rows)
    requires k < |rows| && !rows[k].completed && clock <= s.start && rows[k].arrival <= s.start
    requires s == Segment(rows[k].pid, s.start, s.start + 1)
    requires after == rows[k := TickRow(rows[k], s.end)]
    ensures forall i :: 0 <= i < |after| ==> RowInv(rows0[i], after[i], s.end, trace + [s])
    ensures forall i :: 0 <= i < |after| ==> 0 <= after[i].remaining
  {
    forall i | 0 <= i < |after|
      ensures RowInv(rows0[i], after[i], s.end, trace + [s])
    {
      if i == k {
        TickedRowInv(rows0[i], rows[i], clock, trace, s.start);
      } else {
        OtherRowInv(rows0[i], rows[i], clock, trace, s);
      }
    }
  }

  /** A step of the policy keeps the invariant and the arrival order, and uses
      up one unit of the total remaining burst. */
  lemma StepKeepsInv(rows0: seq<Row>, rows: seq<Row>, clock: int, trace: seq<Segment>, p: Policy, k: nat, seg: Segment, after: seq<Row>)
    requires TickInv(rows0, rows, clock, trace) && Sorted(rows, ByArrival)
    requires Step(rows, clock, p, k, seg, after)
    ensures TickInv(rows0, after, seg.end, trace + [seg]) && Sorted(after, ByArrival)
    ensures 0 <= SumRemaining(after) < SumRemaining(rows)
  {
    ChosenIsRunnable(rows, clock, p, k, seg.start);
    TickKeepsInv(rows0, rows, clock, trace, k, seg, after);
    TickKeepsSorted(rows, k, seg.end);
  }

  /** Arrival times never change, so the records stay sorted by arrival. */
  lemma TickKeepsSorted(rows: seq<Row>, k: nat, end: int)
    requires k < |rows| && Sorted(rows, ByArrival)
    ensures Sorted(rows[k := TickRow(rows[k], end)], ByArrival)
  {
    var rows' := rows[k := TickRow(rows[k], end)];
    forall i | 0 <= i < |rows|
      ensures KeyOf(rows'[i], ByArrival) == KeyOf(rows[i], ByArrival)
    {
    }
  }

  /** Ticks of one time unit in chronological order start at strictly
      increasing times, so no two of them overlap. */
  lemma TicksStrictlyIncreasing(trace: seq<Segment>, a: nat, b: nat)
    requires UnitTicks(trace) && Chronological(trace)
    requires a < b < |trace|
    ensures trace[a].start < trace[b].start
    ensures trace[a].end <= trace[b].start
  {
    ChronologicalNoOverlap(trace, a, b);
  }

  // ---------------------------------------------------------------------------
  // The whole loop

  /** One tick: record `k` of `before`, chosen at `clock`, runs for `seg`,
      which gives `after`. */
  predicate Step(before: seq<Row>, clock: int, p: Policy, k: nat, seg: Segment, after: seq<Row>) {
    && k < |before|
    && Chosen(before, clock, p, k, seg.start)
    && seg == Segment(before[k].pid, seg.start, seg.start + 1)
    && after == before[k := TickRow(before[k], seg.end)]
  }

  /** `trace` is a run of the policy: `states[t]` is `process_data` before
      tick `t`, `picks[t]` the record chosen, and each tick is a `Step`. */
  ghost predicate IsRun(states: seq<seq<Row>>, picks: seq<nat>, trace: seq<Segment>, p: Policy) {
    && |states| == |trace| + 1
    && |picks| == |trace|
    && (trace != [] ==>
          var n := |trace| - 1;
          && IsRun(states[..n + 1], picks[..n], trace[..n], p)
          && Step(states[n], ClockBefore(trace, n), p, picks[n], trace[n], states[n + 1]))
  }

  /** Extending a run by one step gives a run. */
  lemma ExtendRun(states: seq<seq<Row>>, picks: seq<nat>, trace: seq<Segment>, p: Policy, k: nat, seg: Segment, after: seq<Row>)
    requires IsRun(states, picks, trace, p)
    requires Step(states[|trace|], ClockBefore(trace, |trace|), p, k, seg, after)
    ensures IsRun(states + [after], picks + [k], trace + [seg], p)
  {
    var n := |trace|;
    assert (states + [after])[..n + 1] == states;
    assert (picks + [k])[..n] == picks;
    assert (trace + [seg])[..n] == trace;
  }

  /** Every tick of a run is a step of the policy. */
  lemma {:induction false} RunStep(states: seq<seq<Row>>, picks: seq<nat>, trace: seq<Segment>, p: Policy, t: nat)
    requires IsRun(states, picks, trace, p)
    requires t < |trace|
    ensures Step(states[t], ClockBefore(trace, t), p, picks[t], trace[t], states[t + 1])
  {
    var n := |trace| - 1;
    if t < n {
      RunStep(states[..n + 1], picks[..n], trace[..n], p, t);
    }
  }

  /** A record once the loop has finished with it. */
  predicate Finished(r0: Row, r: Row, trace: seq<Segment>) {
    && SameProcess(r0, r)
    && r.remaining == 0 && r.completed
    && |r.appended| == 1
    && r.arrival + r.burst <= r.appended[0]
    && LastEnd(trace, r.pid) == Some(r.appended[0])
    && Count(trace, r.pid) == r.burst
    && (forall t :: 0 <= t < |trace| && trace[t].pid == r.pid ==> r.arrival <= trace[t].start)
  }

  /** When every record is completed the invariant says each one is finished
      and the trace holds exactly the sum of the bursts. */
  lemma DoneIsFinished(rows0: seq<Row>, rows: seq<Row>, clock: int, trace: seq<Segment>)
    requires TickInv(rows0, rows, clock, trace) && AllCompleted(rows)
    ensures forall i :: 0 <= i < |rows| ==> Finished(rows0[i], rows[i], trace)
    ensures |trace| == SumBursts(rows0)
  {
    assert forall i :: 0 <= i < |rows| ==> rows[i].remaining == 0;
    SumZero(Remainings(rows));
  }

  /** The `while 1` loop: ticks until every record is completed.  Records must
      be fresh and sorted by arrival, with unique ids and bursts of at least one
      tick. */
  method RunTicks(data: array<Row>, p: Policy) returns (trace: seq<Segment>, ghost states: seq<seq<Row>>, ghost picks: seq<nat>)
    requires forall i :: 0 <= i < data.Length ==> IsFresh(data[i]) && data[i].burst >= 1
    requires UniquePids(data[..]) && Sorted(data[..], ByArrival)
    modifies data
    ensures IsRun(states, picks, trace, p) && states[0] == old(data[..]) && states[|trace|] == data[..]
    ensures AllCompleted(data[..])
    ensures forall i :: 0 <= i < data.Length ==> Finished(old(data[i]), data[i], trace)
    ensures |trace| == SumBursts(old(data[..]))
    ensures UnitTicks(trace) && Chronological(trace)
  {
    ghost var rows0 := data[..];
    InitialInv(rows0);
    var clock := 0;
    trace := [];
    states := [rows0];
    picks := [];
    while true
      invariant TickInv(rows0, data[..], clock, trace)
      invariant Sorted(data[..], ByArrival)
      invariant IsRun(states, picks, trace, p) && states[0] == rows0 && states[|trace|] == data[..]
      invariant clock == ClockBefore(trace, |trace|)
      decreases SumRemaining(data[..])
    {
      ghost var before := data[..];
      var finished, k, seg := Tick(data, clock, p);
      if finished {
        DoneIsFinished(rows0, before, clock, trace);
        break;
      }
      StepKeepsInv(rows0, before, clock, trace, p, k, seg, data[..]);
      ExtendRun(states, picks, trace, p, k, seg, data[..]);
      states := states + [data[..]];
      picks := picks + [k];
      trace := trace + [seg];
      clock := seg.end;
    }
  }

  // ---------------------------------------------------------------------------
  // Sort, loop and metrics

  /** A record as the scheduler leaves it: completed, with its completion,
      turnaround and waiting time appended. */
  predicate Reported(r0: Row, r: Row, trace: seq<Segment>) {
    && SameProcess(r0, r)
    && r.remaining == 0 && r.completed
    && |r.appended| == 3
    && LastEnd(trace, r.pid) == Some(r.appended[0])
    && r.arrival + r.burst <= r.appended[0]
    && r.appended[1] == r.appended[0] - r.arrival
    && r.appended[2] == r.appended[1] - r.burst
    && 0 <= r.appended[2]
    && Count(trace, r.pid) == r.burst
    && (forall t :: 0 <= t < |trace| && trace[t].pid == r.pid ==> r.arrival <= trace[t].start)
  }

  predicate AllReported(rows0: seq<Row>, rows: seq<Row>, trace: seq<Segment>) {
    |rows0| == |rows| &&
    forall i :: 0 <= i < |rows| ==> |rows[i].appended| == 3 && Reported(rows0[i], rows[i], trace)
  }

  /** The metric passes turn finished records into reported ones. */
  lemma MetricsReported(rows0: seq<Row>, ran: seq<Row>, trace: seq<Segment>)
    requires |rows0| == |ran|
    requires forall i :: 0 <= i < |ran| ==> |ran[i].appended| == 1 && Finished(rows0[i], ran[i], trace)
    ensures AllReported(rows0, WithWaiting(WithTurnaround(ran)), trace)
  {
    var measured := WithWaiting(WithTurnaround(ran));
    forall i | 0 <= i < |ran|
      ensures Reported(rows0[i], measured[i], trace)
    {
      var c := ran[i].appended[0];
      assert ran[i].appended == [c];
      assert measured[i].appended == [c, c - ran[i].arrival, c - ran[i].arrival - ran[i].burst];
    }
  }

  /** `schedulingProcess` up to the printing: sort by arrival, tick until
      every record is completed, then append turnaround and waiting times. */
  method ScheduleAndMeasure(data: array<Row>, p: Policy)
    returns (trace: seq<Segment>, avgTurnaround: Average, avgWaiting: Average,
             ghost states: seq<seq<Row>>, ghost picks: seq<nat>)
    requires forall i :: 0 <= i < data.Length ==> IsFresh(data[i]) && data[i].burst >= 1
    requires UniquePids(data[..])
    modifies data
    ensures IsRun(states, picks, trace, p) && states[0] == SortBy(old(data[..]), ByArrival)
    ensures AllCompleted(states[|trace|])
    ensures AllReported(SortBy(old(data[..]), ByArrival), data[..], trace)
    ensures |trace| == SumBursts(old(data[..]))
    ensures UnitTicks(trace) && Chronological(trace)
    ensures avgTurnaround == MeanOf(TotalTurnaround(data[..]), data.Length)
    ensures avgWaiting == MeanOf(TotalWaiting(data[..]), data.Length)
  {
    PrepareTicks(data);
    ghost var sorted := data[..];
    trace, states, picks := RunTicks(data, p);
    avgTurnaround, avgWaiting := Measure(data, sorted, trace);
  }

  /** The initial `process_data.sort(key=lambda x: x[1])`: the sorted records
      are still fresh, with unique ids and the same total burst. */
  method PrepareTicks(data: array<Row>)
    requires forall i :: 0 <= i < data.Length ==> IsFresh(data[i]) && data[i].burst >= 1
    requires UniquePids(data[..])
    modifies data
    ensures data[..] == SortBy(old(data[..]), ByArrival)
    ensures forall i :: 0 <= i < data.Length ==> IsFresh(data[i]) && data[i].burst >= 1
    ensures UniquePids(data[..]) && Sorted(data[..], ByArrival)
    ensures SumBursts(data[..]) == SumBursts(old(data[..]))
  {
    SortRecords(data, ByArrival);
    forall i | 0 <= i < data.Length
      ensures IsFresh(data[i]) && data[i].burst >= 1
    {
      SortBySameRecords(old(data[..]), ByArrival, data[i]);
    }
    SortByUniquePids(old(data[..]), ByArrival);
    SortBySumBursts(old(data[..]), ByArrival);
  }

  /** The two metric passes after the loop, on finished records. */
  method Measure(data: array<Row>, ghost rows0: seq<Row>, ghost trace: seq<Segment>)
    returns (avgTurnaround: Average, avgWaiting: Average)
    requires data.Length == |rows0|
    requires forall i :: 0 <= i < data.Length ==> Finished(rows0[i], data[i], trace)
    modifies data
    ensures AllReported(rows0, data[..], trace)
    ensures avgTurnaround == MeanOf(TotalTurnaround(data[..]), data.Length)
    ensures avgWaiting == MeanOf(TotalWaiting(data[..]), data.Length)
  {
    ghost var ran := data[..];
    avgTurnaround := CalculateTurnaroundTime(data);
    avgWaiting := CalculateWaitingTime(data);
    MetricsReported(rows0, ran, trace);
    BothPassesTotals(ran);
  }
}
