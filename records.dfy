/**
  Process records and the bookkeeping shared by every scheduler.

  Each scheduler keeps `process_data`, a list of per-process lists that it
  mutates in place.  Here that list is an `array<Row>`: one `Row` per process,
  holding the fields the schedulers read and write, and `appended`, the values
  a scheduler appends to the end of the record (completion time, then
  turnaround time, then waiting time).
 */
module Records {

  datatype Option<T> = None | Some(value: T)

  /** One process record.  `remaining` is the burst still to run, `burst` the
      original burst; `priority` is read only by the priority schedulers. */
  datatype Row = Row(
    pid: int,
    arrival: int,
    remaining: int,
    priority: int,
    completed: bool,
    burst: int,
    appended: seq<int>)

  /** One dispatch: process `pid` held the CPU from `start` to `end`.  The
      schedulers keep these as parallel lists (`start_time`, `exit_time` and the
      sequence of process ids) or as Gantt tuples `(pid, start, end)`. */
  datatype Segment = Segment(pid: int, start: int, end: int)

  /** A record as the schedulers expect it before the run: nothing executed,
      nothing appended. */
  predicate IsFresh(r: Row) {
    r.remaining == r.burst && !r.completed && r.appended == []
  }

  /** The identifying fields of a record, which no scheduler changes. */
  predicate SameProcess(a: Row, b: Row) {
    a.pid == b.pid && a.arrival == b.arrival && a.priority == b.priority && a.burst == b.burst
  }

  /** Arrived by `clock` and not completed. */
  predicate Ready(r: Row, clock: int) {
    r.arrival <= clock && !r.completed
  }

  /** Not completed and not arrived by `clock`. */
  predicate Upcoming(r: Row, clock: int) {
    clock < r.arrival && !r.completed
  }

  /** The condition that ends every scheduler's loop. */
  predicate AllCompleted(rows: seq<Row>) {
    forall i :: 0 <= i < |rows| ==> rows[i].completed
  }

  predicate UniquePids(rows: seq<Row>) {
    forall i, j :: 0 <= i < |rows| && 0 <= j < |rows| && i != j ==> rows[i].pid != rows[j].pid
  }

  // ---------------------------------------------------------------------------
  // Sums over the records

  function Sum(xs: seq<int>): int {
    if xs == [] then 0 else Sum(xs[..|xs| - 1]) + xs[|xs| - 1]
  }

  function Remainings(rows: seq<Row>): (xs: seq<int>)
    ensures |xs| == |rows|
  {
    seq(|rows|, i requires 0 <= i < |rows| => rows[i].remaining)
  }

  function Bursts(rows: seq<Row>): (xs: seq<int>)
    ensures |xs| == |rows|
  {
    seq(|rows|, i requires 0 <= i < |rows| => rows[i].burst)
  }

  function SumRemaining(rows: seq<Row>): int {
    Sum(Remainings(rows))
  }

  function SumBursts(rows: seq<Row>): int {
    Sum(Bursts(rows))
  }

  /** Changing one entry changes the sum by the difference. */
  lemma {:induction false} SumUpdate(xs: seq<int>, k: nat, v: int)
    requires k < |xs|
    ensures Sum(xs[k := v]) == Sum(xs) - xs[k] + v
  {
    var n := |xs| - 1;
    assert xs[k := v][..n] == if k == n then xs[..n] else xs[..n][k := v];
    if k < n {
      SumUpdate(xs[..n], k, v);
    }
  }

  lemma {:induction false} SumNonNegative(xs: seq<int>)
    requires forall i :: 0 <= i < |xs| ==> 0 <= xs[i]
    ensures 0 <= Sum(xs)
  {
    if xs != [] {
      SumNonNegative(xs[..|xs| - 1]);
    }
  }

  /** Replacing record `k` changes the total remaining burst by the difference
      of the two `remaining` fields. */
  lemma SumRemainingUpdate(rows: seq<Row>, k: nat, r: Row)
    requires k < |rows|
    ensures SumRemaining(rows[k := r]) == SumRemaining(rows) - rows[k].remaining + r.remaining
  {
    assert Remainings(rows[k := r]) == Remainings(rows)[k := r.remaining];
    SumUpdate(Remainings(rows), k, r.remaining);
  }

  lemma {:induction false} SumZero(xs: seq<int>)
    requires forall i :: 0 <= i < |xs| ==> xs[i] == 0
    ensures Sum(xs) == 0
  {
    if xs != [] {
      SumZero(xs[..|xs| - 1]);
    }
  }

  /** Sums are monotone, and strictly so when some entry is strictly smaller. */
  lemma {:induction false} SumLe(xs: seq<int>, ys: seq<int>)
    requires |xs| == |ys| && forall i :: 0 <= i < |xs| ==> xs[i] <= ys[i]
    ensures Sum(xs) <= Sum(ys)
    ensures (exists i :: 0 <= i < |xs| && xs[i] < ys[i]) ==> Sum(xs) < Sum(ys)
  {
    if xs != [] {
      var n := |xs| - 1;
      SumLe(xs[..n], ys[..n]);
      if exists i :: 0 <= i < |xs| && xs[i] < ys[i] {
        var i :| 0 <= i < |xs| && xs[i] < ys[i];
        if i < n {
          assert xs[..n][i] < ys[..n][i];
        }
      }
    }
  }

  lemma SumRemainingNonNegative(rows: seq<Row>)
    requires forall i :: 0 <= i < |rows| ==> 0 <= rows[i].remaining
    ensures 0 <= SumRemaining(rows)
  {
    SumNonNegative(Remainings(rows));
  }

  lemma {:induction false} SumConcat(a: seq<int>, b: seq<int>)
    ensures Sum(a + b) == Sum(a) + Sum(b)
  {
    if b != [] {
      var n := |b| - 1;
      assert (a + b)[..|a + b| - 1] == a + b[..n];
      SumConcat(a, b[..n]);
    } else {
      assert a + b == a;
    }
  }

  /** The total burst of a record followed by others. */
  lemma SumBurstsCons(r: Row, rows: seq<Row>)
    ensures SumBursts([r] + rows) == r.burst + SumBursts(rows)
  {
    assert Bursts([r] + rows) == [r.burst] + Bursts(rows);
    SumConcat([r.burst], Bursts(rows));
    assert Sum([r.burst]) == Sum([]) + r.burst;
  }

  /** Records with the same bursts, position by position, have the same total burst. */
  lemma SameBursts(a: seq<Row>, b: seq<Row>)
    requires |a| == |b|
    requires forall i :: 0 <= i < |a| ==> a[i].burst == b[i].burst
    ensures SumBursts(a) == SumBursts(b)
  {
    assert Bursts(a) == Bursts(b);
  }

  // ---------------------------------------------------------------------------
  // What a trace says about one process id

  /** Number of dispatches of `pid` in the trace. */
  function Count(trace: seq<Segment>, pid: int): nat {
    if trace == [] then 0
    else Count(trace[..|trace| - 1], pid) + (if trace[|trace| - 1].pid == pid then 1 else 0)
  }

  /** Total CPU time given to `pid` in the trace. */
  function Busy(trace: seq<Segment>, pid: int): int {
    if trace == [] then 0
    else
      var s := trace[|trace| - 1];
      Busy(trace[..|trace| - 1], pid) + (if s.pid == pid then s.end - s.start else 0)
  }

  /** End of the last dispatch of `pid`, if it was dispatched at all. */
  function LastEnd(trace: seq<Segment>, pid: int): Option<int> {
    if trace == [] then None
    else if trace[|trace| - 1].pid == pid then Some(trace[|trace| - 1].end)
    else LastEnd(trace[..|trace| - 1], pid)
  }

  /** The clock before dispatch `t` of a trace: 0 before the first one, then
      the end of the dispatch before it. */
  function ClockBefore(trace: seq<Segment>, t: nat): int
    requires t <= |trace|
  {
    if t == 0 then 0 else trace[t - 1].end
  }

  /** The process ids of a trace, in dispatch order (the "sequence of process"
      the schedulers print). */
  function PidsOf(trace: seq<Segment>): (pids: seq<int>)
    ensures |pids| == |trace|
    ensures forall j :: 0 <= j < |trace| ==> pids[j] == trace[j].pid
  {
    seq(|trace|, j requires 0 <= j < |trace| => trace[j].pid)
  }

  /** The start times of a trace (the `start_time` list). */
  function StartsOf(trace: seq<Segment>): (starts: seq<int>)
    ensures |starts| == |trace|
    ensures forall j :: 0 <= j < |trace| ==> starts[j] == trace[j].start
  {
    seq(|trace|, j requires 0 <= j < |trace| => trace[j].start)
  }

  /** The end times of a trace (the `exit_time` list). */
  function EndsOf(trace: seq<Segment>): (ends: seq<int>)
    ensures |ends| == |trace|
    ensures forall j :: 0 <= j < |trace| ==> ends[j] == trace[j].end
  {
    seq(|trace|, j requires 0 <= j < |trace| => trace[j].end)
  }

  /** Every dispatch ends no earlier than it starts, and none starts before the
      previous one ended. */
  predicate Chronological(trace: seq<Segment>) {
    (forall j :: 0 <= j < |trace| ==> trace[j].start <= trace[j].end) &&
    (forall j :: 0 < j < |trace| ==> trace[j - 1].end <= trace[j].start)
  }

  /** In a chronological trace no two dispatches overlap: an earlier one ends
      before a later one starts. */
  lemma {:induction false} ChronologicalNoOverlap(trace: seq<Segment>, a: nat, b: nat)
    requires Chronological(trace)
    requires a < b < |trace|
    ensures trace[a].end <= trace[b].start
    decreases b - a
  {
    if a + 1 < b {
      ChronologicalNoOverlap(trace, a + 1, b);
    }
  }

  /** Appending a dispatch adds to the figures of its own process only. */
  lemma AppendSegment(trace: seq<Segment>, s: Segment, pid: int)
    ensures Count(trace + [s], pid) == Count(trace, pid) + (if s.pid == pid then 1 else 0)
    ensures Busy(trace + [s], pid) == Busy(trace, pid) + (if s.pid == pid then s.end - s.start else 0)
    ensures LastEnd(trace + [s], pid) == if s.pid == pid then Some(s.end) else LastEnd(trace, pid)
  {
    assert (trace + [s])[..|trace|] == trace;
  }

  // ---------------------------------------------------------------------------
  // Looking a record up by process id

  /** Index of the first record carrying `pid`, or `|rows|` if there is none. */
  function PidIndex(rows: seq<Row>, pid: int): (k: nat)
    ensures k <= |rows|
    ensures k < |rows| ==> rows[k].pid == pid
    ensures forall j :: 0 <= j < k ==> rows[j].pid != pid
  {
    if rows == [] then 0
    else if rows[0].pid == pid then 0
    else 1 + PidIndex(rows[1..], pid)
  }

  /** With unique ids a record is found at its own index. */
  lemma PidIndexUnique(rows: seq<Row>, i: nat)
    requires UniquePids(rows) && i < |rows|
    ensures PidIndex(rows, rows[i].pid) == i
  {
  }

  /** The schedulers find the record of a selected process with
      `for k in range(len(process_data)): if process_data[k][0] == pid: break`,
      which stops at the first record carrying that id. */
  method IndexOfPid(data: array<Row>, pid: int) returns (k: nat)
    requires exists i :: 0 <= i < data.Length && data[i].pid == pid
    ensures k < data.Length && data[k].pid == pid
    ensures forall j :: 0 <= j < k ==> data[j].pid != pid
  {
    k := 0;
    while data[k].pid != pid
      invariant k < data.Length
      invariant forall j :: 0 <= j < k ==> data[j].pid != pid
      invariant exists i :: k <= i < data.Length && data[i].pid == pid
      decreases data.Length - k
    {
      k := k + 1;
    }
  }
}
