/**
  `calculateTurnaroundTime` and `calculateWaitingTime`, which every scheduler
  runs after its loop.  The first appends `completion - arrival` to each
  record, the second appends `turnaround - original burst`; each returns its
  total divided by the number of records.
 */
module Metrics {
  import opened Records

  /** `total / len(process_data)`: Python raises ZeroDivisionError when the
      list is empty. */
  datatype Average = Mean(value: real) | DivisionByZero

  function MeanOf(total: int, n: nat): (a: Average)
    ensures a.DivisionByZero? <==> n == 0
    ensures a.Mean? ==> a.value * (n as real) == total as real
  {
    if n == 0 then DivisionByZero else Mean(total as real / n as real)
  }

  /** Completion time minus arrival time; the completion time is the first
      value appended to the record. */
  function Turnaround(r: Row): int
    requires |r.appended| >= 1
  {
    r.appended[0] - r.arrival
  }

  /** Turnaround time (the second appended value) minus the original burst. */
  function Waiting(r: Row): int
    requires |r.appended| >= 2
  {
    r.appended[1] - r.burst
  }

  function TotalTurnaround(rows: seq<Row>): int
    requires forall i :: 0 <= i < |rows| ==> |rows[i].appended| >= 1
  {
    if rows == [] then 0 else TotalTurnaround(rows[..|rows| - 1]) + Turnaround(rows[|rows| - 1])
  }

  function TotalWaiting(rows: seq<Row>): int
    requires forall i :: 0 <= i < |rows| ==> |rows[i].appended| >= 2
  {
    if rows == [] then 0 else TotalWaiting(rows[..|rows| - 1]) + Waiting(rows[|rows| - 1])
  }

  /** A process that cannot complete before it has arrived and run its whole
      burst never gets a negative waiting time, and neither does the total. */
  lemma {:induction false} TotalWaitingNonNegative(rows: seq<Row>)
    requires forall i :: 0 <= i < |rows| ==>
      |rows[i].appended| == 2 && rows[i].appended[1] == rows[i].appended[0] - rows[i].arrival &&
      rows[i].arrival + rows[i].burst <= rows[i].appended[0]
    ensures forall i :: 0 <= i < |rows| ==> Waiting(rows[i]) >= 0
    ensures TotalWaiting(rows) >= 0
  {
    if rows != [] {
      TotalWaitingNonNegative(rows[..|rows| - 1]);
    }
  }

  /** Total waiting time is total turnaround time minus total burst. */
  lemma {:induction false} TotalWaitingIsTurnaroundMinusBurst(rows: seq<Row>)
    requires forall i :: 0 <= i < |rows| ==>
      |rows[i].appended| == 2 && rows[i].appended[1] == rows[i].appended[0] - rows[i].arrival
    ensures TotalWaiting(rows) == TotalTurnaround(rows) - SumBursts(rows)
  {
    if rows != [] {
      var n := |rows| - 1;
      TotalWaitingIsTurnaroundMinusBurst(rows[..n]);
      assert Bursts(rows)[..n] == Bursts(rows[..n]);
    }
  }

  /** Appending further values leaves the turnaround total unchanged. */
  lemma {:induction false} SameTurnaround(a: seq<Row>, b: seq<Row>)
    requires |a| == |b|
    requires forall i :: 0 <= i < |a| ==>
      |b[i].appended| >= 1 && a[i].arrival == b[i].arrival &&
      |a[i].appended| >= |b[i].appended| && a[i].appended[..|b[i].appended|] == b[i].appended
    ensures TotalTurnaround(a) == TotalTurnaround(b)
  {
    if a != [] {
      var n := |a| - 1;
      assert a[n].appended[0] == a[n].appended[..|b[n].appended|][0];
      SameTurnaround(a[..n], b[..n]);
    }
  }

  /** Appending further values leaves the waiting total unchanged. */
  lemma {:induction false} SameWaiting(a: seq<Row>, b: seq<Row>)
    requires |a| == |b|
    requires forall i :: 0 <= i < |a| ==>
      |b[i].appended| >= 2 && a[i].burst == b[i].burst &&
      |a[i].appended| >= |b[i].appended| && a[i].appended[..|b[i].appended|] == b[i].appended
    ensures TotalWaiting(a) == TotalWaiting(b)
  {
    if a != [] {
      var n := |a| - 1;
      assert a[n].appended[1] == a[n].appended[..|b[n].appended|][1];
      SameWaiting(a[..n], b[..n]);
    }
  }

  /** The records with their turnaround time appended. */
  function WithTurnaround(rows: seq<Row>): (r: seq<Row>)
    requires forall i :: 0 <= i < |rows| ==> |rows[i].appended| >= 1
    ensures |r| == |rows|
    ensures forall i :: 0 <= i < |rows| ==> |r[i].appended| == |rows[i].appended| + 1
  {
    seq(|rows|, i requires 0 <= i < |rows| => rows[i].(appended := rows[i].appended + [Turnaround(rows[i])]))
  }

  /** The records with their waiting time appended. */
  function WithWaiting(rows: seq<Row>): (r: seq<Row>)
    requires forall i :: 0 <= i < |rows| ==> |rows[i].appended| >= 2
    ensures |r| == |rows|
    ensures forall i :: 0 <= i < |rows| ==> |r[i].appended| == |rows[i].appended| + 1
  {
    seq(|rows|, i requires 0 <= i < |rows| => rows[i].(appended := rows[i].appended + [Waiting(rows[i])]))
  }

  /** After both passes over records carrying only their completion time, the
      totals read back from the records are the totals the passes summed. */
  lemma BothPassesTotals(rows: seq<Row>)
    requires forall i :: 0 <= i < |rows| ==> |rows[i].appended| == 1
    ensures TotalTurnaround(WithWaiting(WithTurnaround(rows))) == TotalTurnaround(rows)
    ensures TotalWaiting(WithWaiting(WithTurnaround(rows))) == TotalWaiting(WithTurnaround(rows))
  {
    var timed := WithTurnaround(rows);
    var measured := WithWaiting(timed);
    assert forall i :: 0 <= i < |rows| ==> measured[i].appended[..1] == rows[i].appended;
    SameTurnaround(measured, rows);
    assert forall i :: 0 <= i < |rows| ==> measured[i].appended[..2] == timed[i].appended;
    SameWaiting(measured, timed);
  }

  /** `calculateTurnaroundTime`: appends each record's turnaround time and
      returns the mean. */
  method CalculateTurnaroundTime(data: array<Row>) returns (avg: Average)
    requires forall i :: 0 <= i < data.Length ==> |data[i].appended| == 1
    modifies data
    ensures data[..] == WithTurnaround(old(data[..]))
    ensures avg == MeanOf(TotalTurnaround(old(data[..])), data.Length)
  {
    ghost var rows := data[..];
    var total := 0;
    var i := 0;
    while i < data.Length
      invariant 0 <= i <= data.Length
      invariant forall j :: 0 <= j < i ==> data[j] == rows[j].(appended := rows[j].appended + [Turnaround(rows[j])])
      invariant forall j :: i <= j < data.Length ==> data[j] == rows[j]
      invariant total == TotalTurnaround(rows[..i])
    {
      var tat := data[i].appended[0] - data[i].arrival;
      total := total + tat;
      data[i] := data[i].(appended := data[i].appended + [tat]);
      assert rows[..i + 1][..i] == rows[..i];
      i := i + 1;
    }
    assert rows[..i] == rows;
    assert data[..] == WithTurnaround(rows);
    avg := MeanOf(total, data.Length);
  }

  /** `calculateWaitingTime`: appends each record's waiting time and returns
      the mean. */
  method CalculateWaitingTime(data: array<Row>) returns (avg: Average)
    requires forall i :: 0 <= i < data.Length ==> |data[i].appended| == 2
    modifies data
    ensures data[..] == WithWaiting(old(data[..]))
    ensures avg == MeanOf(TotalWaiting(old(data[..])), data.Length)
  {
    ghost var rows := data[..];
    var total := 0;
    var i := 0;
    while i < data.Length
      invariant 0 <= i <= data.Length
      invariant forall j :: 0 <= j < i ==> data[j] == rows[j].(appended := rows[j].appended + [Waiting(rows[j])])
      invariant forall j :: i <= j < data.Length ==> data[j] == rows[j]
      invariant total == TotalWaiting(rows[..i])
    {
      var wt := data[i].appended[1] - data[i].burst;
      total := total + wt;
      data[i] := data[i].(appended := data[i].appended + [wt]);
      assert rows[..i + 1][..i] == rows[..i];
      i := i + 1;
    }
    assert rows[..i] == rows;
    assert data[..] == WithWaiting(rows);
    avg := MeanOf(total, data.Length);
  }
}
