/**
  The persistent ready queue of RoundRobin.py.

  An entry is a snapshot `[pid, arrival, remaining, burst]` of a record,
  taken when the arrival scan appends it.  The scan appends a record only if
  no entry carries its id, and after every arrived record it moves the entry
  of the last executed process to the tail with
  `ready_queue.insert(len(ready_queue) - 1, ready_queue.pop(k))`; the length
  is taken before the pop, so the entry lands at the very end.
 */
module ReadyQueue {
  import opened Records

  datatype Entry = Entry(pid: int, arrival: int, remaining: int, burst: int)

  function Snapshot(r: Row): Entry {
    Entry(r.pid, r.arrival, r.remaining, r.burst)
  }

  /** Index of the first entry carrying `pid`, or `|q|` if there is none. */
  function PositionOf(q: seq<Entry>, pid: int): (k: nat)
    ensures k <= |q|
    ensures k < |q| ==> q[k].pid == pid
    ensures forall j :: 0 <= j < k ==> q[j].pid != pid
  {
    if q == [] then 0
    else if q[0].pid == pid then 0
    else 1 + PositionOf(q[1..], pid)
  }

  /** The first entry carrying `pid` is found where it is. */
  lemma {:induction false} PositionOfFirst(q: seq<Entry>, pid: int, k: nat)
    requires k < |q| && q[k].pid == pid
    requires forall j :: 0 <= j < k ==> q[j].pid != pid
    ensures PositionOf(q, pid) == k
  {
    if k > 0 {
      assert q[0].pid != pid;
      PositionOfFirst(q[1..], pid, k - 1);
    }
  }

  predicate Present(q: seq<Entry>, pid: int) {
    PositionOf(q, pid) < |q|
  }

  /** No two entries carry the same id. */
  predicate Distinct(q: seq<Entry>) {
    forall a, b :: 0 <= a < b < |q| ==> q[a].pid != q[b].pid
  }

  lemma PresentIff(q: seq<Entry>, pid: int)
    ensures Present(q, pid) <==> exists k :: 0 <= k < |q| && q[k].pid == pid
  {
  }

  lemma PresentConcat(a: seq<Entry>, b: seq<Entry>, pid: int)
    ensures Present(a + b, pid) <==> Present(a, pid) || Present(b, pid)
  {
    if Present(a + b, pid) {
      var k := PositionOf(a + b, pid);
      if k < |a| {
        assert a[k] == (a + b)[k];
        PresentIff(a, pid);
      } else {
        assert b[k - |a|] == (a + b)[k];
        PresentIff(b, pid);
      }
    }
    if Present(a, pid) {
      var k := PositionOf(a, pid);
      assert (a + b)[k] == a[k];
      PresentIff(a + b, pid);
    }
    if Present(b, pid) {
      var k := PositionOf(b, pid);
      assert (a + b)[|a| + k] == b[k];
      PresentIff(a + b, pid);
    }
  }

  /** The queue with the entry of `pid`, if any, moved to the tail. */
  function MoveToTail(q: seq<Entry>, pid: int): seq<Entry> {
    var k := PositionOf(q, pid);
    if k == |q| then q else q[..k] + q[k + 1..] + [q[k]]
  }

  /** Where entry `i` of the moved queue came from, when entry `k` moved. */
  function Source(n: nat, k: nat, i: nat): nat {
    if i < k then i else if i < n - 1 then i + 1 else k
  }

  lemma MoveToTailIndex(q: seq<Entry>, k: nat)
    requires k < |q|
    ensures var m := q[..k] + q[k + 1..] + [q[k]];
      |m| == |q| && forall i :: 0 <= i < |m| ==> Source(|q|, k, i) < |q| && m[i] == q[Source(|q|, k, i)]
  {
  }

  /** Moving an entry to the tail keeps the entries and their ids, puts that
      entry last and keeps the others in order. */
  lemma MoveToTailFacts(q: seq<Entry>, pid: int)
    requires Distinct(q)
    ensures |MoveToTail(q, pid)| == |q|
    ensures forall e :: e in MoveToTail(q, pid) <==> e in q
    ensures Distinct(MoveToTail(q, pid))
    ensures forall p :: Present(MoveToTail(q, pid), p) <==> Present(q, p)
    ensures Present(q, pid) ==> MoveToTail(q, pid)[|q| - 1].pid == pid
  {
    var k := PositionOf(q, pid);
    var m := MoveToTail(q, pid);
    if k < |q| {
      assert q == q[..k] + [q[k]] + q[k + 1..];
      MoveToTailIndex(q, k);
      forall a, b | 0 <= a < b < |m|
        ensures m[a].pid != m[b].pid
      {
        assert Source(|q|, k, a) != Source(|q|, k, b);
      }
      forall p
        ensures Present(m, p) <==> Present(q, p)
      {
        PresentIff(m, p);
        PresentIff(q, p);
        if Present(q, p) {
          var j := PositionOf(q, p);
          var i := if j < k then j else if j == k then |m| - 1 else j - 1;
          assert Source(|q|, k, i) == j;
        }
      }
    }
  }

  lemma MoveToTailDistinct(q: seq<Entry>, pid: int)
    requires Distinct(q)
    ensures Distinct(MoveToTail(q, pid))
  {
    MoveToTailFacts(q, pid);
  }

  lemma DistinctAppend(q: seq<Entry>, e: Entry)
    requires Distinct(q) && !Present(q, e.pid)
    ensures Distinct(q + [e])
  {
    PresentIff(q, e.pid);
  }

  /** The queue without its entry `k` carries no other entry with that id. */
  lemma RemovedAbsent(y: seq<Entry>, k: nat)
    requires Distinct(y) && k < |y|
    ensures !Present(y[..k] + y[k + 1..], y[k].pid)
  {
    var rest := y[..k] + y[k + 1..];
    forall j | 0 <= j < |rest|
      ensures rest[j].pid != y[k].pid
    {
      if j < k {
        assert rest[j] == y[j];
      } else {
        assert rest[j] == y[j + 1];
      }
    }
    PresentIff(rest, y[k].pid);
  }

  /** An entry that follows only other ids moves from behind them to the
      very end. */
  lemma MoveFromMiddle(rest: seq<Entry>, e: Entry, z: seq<Entry>)
    requires !Present(rest, e.pid)
    ensures MoveToTail(rest + [e] + z, e.pid) == rest + z + [e]
  {
    var q := rest + [e] + z;
    PresentIff(rest, e.pid);
    forall j | 0 <= j < |rest|
      ensures q[j].pid != e.pid
    {
      assert q[j] == rest[j];
    }
    PositionOfFirst(q, e.pid, |rest|);
    assert q[..|rest|] == rest;
    assert q[|rest| + 1..] == z;
  }

  /** Moving the first entry with an id out of `y + z`. */
  lemma MoveFromPrefix(y: seq<Entry>, z: seq<Entry>, k: nat)
    requires k < |y| && k == PositionOf(y, y[k].pid)
    ensures MoveToTail(y + z, y[k].pid) == (y[..k] + y[k + 1..]) + z + [y[k]]
  {
    var q := y + z;
    forall j | 0 <= j < k
      ensures q[j].pid != y[k].pid
    {
      assert q[j] == y[j];
    }
    PositionOfFirst(q, y[k].pid, k);
    assert q[..k] == y[..k];
    assert q[k + 1..] == y[k + 1..] + z;
  }

  /** Moving an entry to the tail and then appending entries with other ids
      and moving it again is the same as appending first and moving once:
      the entry ends up behind everything appended. */
  lemma MoveThenAppend(y: seq<Entry>, z: seq<Entry>, pid: int)
    requires Distinct(y)
    requires Present(y, pid) ==> !Present(z, pid)
    ensures MoveToTail(MoveToTail(y, pid) + z, pid) == MoveToTail(y + z, pid)
  {
    var k := PositionOf(y, pid);
    PresentConcat(y, z, pid);
    if k < |y| {
      var rest := y[..k] + y[k + 1..];
      RemovedAbsent(y, k);
      MoveFromMiddle(rest, y[k], z);
      MoveFromPrefix(y, z, k);
    }
  }

  /** The presence check of the arrival scan: a loop over the whole queue
      that sets `present` on a matching id. */
  method IsPresent(queue: seq<Entry>, pid: int) returns (present: bool)
    ensures present <==> Present(queue, pid)
  {
    PresentIff(queue, pid);
    present := false;
    for k := 0 to |queue|
      invariant present <==> exists j :: 0 <= j < k && queue[j].pid == pid
    {
      if queue[k].pid == pid {
        present := true;
      }
    }
  }

  /** Python's `list.insert(i, x)`: an index at or past the end appends. */
  function ListInsert(q: seq<Entry>, i: nat, x: Entry): (r: seq<Entry>)
    ensures |r| == |q| + 1
    ensures i >= |q| ==> r == q + [x]
    ensures i < |q| ==> r[i] == x && r[..i] == q[..i] && r[i + 1..] == q[i..]
  {
    if i >= |q| then q + [x] else q[..i] + [x] + q[i..]
  }

  /** The move-to-tail loop: for every index `k` of the queue as it was when
      the loop started, an entry carrying `pid` is popped and re-inserted at
      the old length minus one, that is, at the end. */
  method MoveLastExecutedToTail(queue: seq<Entry>, pid: int) returns (q: seq<Entry>)
    requires Distinct(queue)
    ensures q == MoveToTail(queue, pid)
  {
    ghost var pos := PositionOf(queue, pid);
    q := queue;
    var n := |q|;
    for k := 0 to n
      invariant |q| == n
      invariant k <= pos ==> q == queue
      invariant pos < k ==> q == MoveToTail(queue, pid)
    {
      if q[k].pid == pid {
        var at := |q| - 1;
        var item := q[k];
        q := q[..k] + q[k + 1..];
        q := ListInsert(q, at, item);
        if k == pos {
          assert q == MoveToTail(queue, pid);
        } else {
          MoveToTailFacts(queue, pid);
          assert k == n - 1;
          assert q == q[..n - 1] + [item];
        }
      } else if k == pos {
        assert false;
      } else if pos < k {
        assert q == MoveToTail(queue, pid);
      }
    }
  }
}
