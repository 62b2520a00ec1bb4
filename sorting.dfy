/**
  The stable sort every scheduler applies to `process_data` before its loop.

  Python's `list.sort(key=...)` is stable: records with equal keys keep their
  input order.  `SortBy` is an insertion sort with exactly that behaviour; the
  lemmas below show it orders by the key, permutes its input, keeps equal keys
  in input order and keeps process ids unique.
 */
module Sorting {
  import opened Records

  /** FCFS sorts on `(arrival, burst)`; the other schedulers on arrival alone. */
  datatype SortKey = ByArrival | ByArrivalThenBurst

  /** A sort key; `minor` is 0 when only the arrival time counts. */
  datatype Key = Key(major: int, minor: int)

  function KeyOf(r: Row, order: SortKey): Key {
    match order
    case ByArrival => Key(r.arrival, 0)
    case ByArrivalThenBurst => Key(r.arrival, r.burst)
  }

  /** Lexicographic order on keys, as Python compares tuples. */
  predicate KeyLe(a: Key, b: Key) {
    a.major < b.major || (a.major == b.major && a.minor <= b.minor)
  }

  predicate Sorted(rows: seq<Row>, order: SortKey) {
    forall i, j :: 0 <= i < j < |rows| ==> KeyLe(KeyOf(rows[i], order), KeyOf(rows[j], order))
  }

  /** Puts `x` before the first record whose key is not smaller, so `x` goes
      ahead of records with an equal key. */
  function Insert(x: Row, rows: seq<Row>, order: SortKey): (r: seq<Row>)
    ensures multiset(r) == multiset(rows) + multiset{x}
  {
    if rows == [] || KeyLe(KeyOf(x, order), KeyOf(rows[0], order)) then
      [x] + rows
    else
      assert rows == [rows[0]] + rows[1..];
      [rows[0]] + Insert(x, rows[1..], order)
  }

  lemma {:induction false} InsertSorted(x: Row, rows: seq<Row>, order: SortKey)
    requires Sorted(rows, order)
    ensures Sorted(Insert(x, rows, order), order)
  {
    if rows == [] || KeyLe(KeyOf(x, order), KeyOf(rows[0], order)) {
    } else {
      var rest := Insert(x, rows[1..], order);
      InsertSorted(x, rows[1..], order);
      assert rest[0] == x || rest[0] == rows[1];
      forall j | 0 <= j < |rest|
        ensures KeyLe(KeyOf(rows[0], order), KeyOf(rest[j], order))
      {
        if j > 0 {
          assert KeyLe(KeyOf(rest[0], order), KeyOf(rest[j], order));
        }
      }
    }
  }

  /** The records in key order; equal keys keep input order. */
  function SortBy(rows: seq<Row>, order: SortKey): (r: seq<Row>)
    ensures multiset(r) == multiset(rows)
    ensures |r| == |rows|
    ensures Sorted(r, order)
  {
    if rows == [] then []
    else
      assert rows == [rows[0]] + rows[1..];
      InsertSorted(rows[0], SortBy(rows[1..], order), order);
      Insert(rows[0], SortBy(rows[1..], order), order)
  }

  /** The records of `rows` whose key is `k`, in order. */
  function WithKey(rows: seq<Row>, order: SortKey, k: Key): seq<Row> {
    if rows == [] then []
    else (if KeyOf(rows[0], order) == k then [rows[0]] else []) + WithKey(rows[1..], order, k)
  }

  lemma WithKeyCons(y: Row, rows: seq<Row>, order: SortKey, k: Key)
    ensures WithKey([y] + rows, order, k) == (if KeyOf(y, order) == k then [y] else []) + WithKey(rows, order, k)
  {
    assert ([y] + rows)[1..] == rows;
  }

  /** Passing over a record `y` that sorts strictly before `x` does not
      change where `x` stands among the records with key `k`. */
  lemma PassOver(x: Row, y: Row, rows: seq<Row>, rest: seq<Row>, order: SortKey, k: Key)
    requires !KeyLe(KeyOf(x, order), KeyOf(y, order))
    requires WithKey(rest, order, k) == (if KeyOf(x, order) == k then [x] else []) + WithKey(rows, order, k)
    ensures WithKey([y] + rest, order, k) ==
            (if KeyOf(x, order) == k then [x] else []) + WithKey([y] + rows, order, k)
  {
    WithKeyCons(y, rest, order, k);
    WithKeyCons(y, rows, order, k);
    var tail := WithKey(rows, order, k);
    if KeyOf(x, order) == k {
      assert KeyOf(y, order) != k;
      assert WithKey([y] + rest, order, k) == WithKey(rest, order, k) == [x] + tail;
      assert WithKey([y] + rows, order, k) == tail;
    } else {
      assert WithKey(rest, order, k) == tail;
    }
  }

  lemma {:induction false} InsertWithKey(x: Row, rows: seq<Row>, order: SortKey, k: Key)
    ensures WithKey(Insert(x, rows, order), order, k) ==
            (if KeyOf(x, order) == k then [x] else []) + WithKey(rows, order, k)
  {
    if rows == [] || KeyLe(KeyOf(x, order), KeyOf(rows[0], order)) {
      WithKeyCons(x, rows, order, k);
    } else {
      InsertWithKey(x, rows[1..], order, k);
      PassOver(x, rows[0], rows[1..], Insert(x, rows[1..], order), order, k);
      assert rows == [rows[0]] + rows[1..];
    }
  }

  /** Stability: for every key, the records carrying it appear in the sorted
      list in exactly their input order. */
  lemma {:induction false} SortByStable(rows: seq<Row>, order: SortKey, k: Key)
    ensures WithKey(SortBy(rows, order), order, k) == WithKey(rows, order, k)
  {
    if rows != [] {
      SortByStable(rows[1..], order, k);
      InsertWithKey(rows[0], SortBy(rows[1..], order), order, k);
    }
  }

  lemma {:induction false} InsertUniquePids(x: Row, rows: seq<Row>, order: SortKey)
    requires UniquePids(rows)
    requires forall r :: r in rows ==> r.pid != x.pid
    ensures UniquePids(Insert(x, rows, order))
  {
    if rows == [] || KeyLe(KeyOf(x, order), KeyOf(rows[0], order)) {
    } else {
      var rest := Insert(x, rows[1..], order);
      assert rows == [rows[0]] + rows[1..];
      InsertUniquePids(x, rows[1..], order);
      forall j | 0 <= j < |rest|
        ensures rest[j].pid != rows[0].pid
      {
        assert rest[j] in multiset(rows[1..]) + multiset{x};
      }
    }
  }

  /** Sorting keeps process ids unique. */
  lemma {:induction false} SortByUniquePids(rows: seq<Row>, order: SortKey)
    requires UniquePids(rows)
    ensures UniquePids(SortBy(rows, order))
  {
    if rows != [] {
      assert rows == [rows[0]] + rows[1..];
      SortByUniquePids(rows[1..], order);
      var sorted := SortBy(rows[1..], order);
      forall r | r in sorted
        ensures r.pid != rows[0].pid
      {
        assert r in multiset(rows[1..]);
      }
      InsertUniquePids(rows[0], sorted, order);
    }
  }

  lemma {:induction false} InsertSumBursts(x: Row, rows: seq<Row>, order: SortKey)
    ensures SumBursts(Insert(x, rows, order)) == SumBursts(rows) + x.burst
  {
    if rows == [] || KeyLe(KeyOf(x, order), KeyOf(rows[0], order)) {
      SumBurstsCons(x, rows);
    } else {
      assert rows == [rows[0]] + rows[1..];
      InsertSumBursts(x, rows[1..], order);
      SumBurstsCons(rows[0], Insert(x, rows[1..], order));
      SumBurstsCons(rows[0], rows[1..]);
    }
  }

  /** Sorting keeps the total burst. */
  lemma {:induction false} SortBySumBursts(rows: seq<Row>, order: SortKey)
    ensures SumBursts(SortBy(rows, order)) == SumBursts(rows)
  {
    if rows != [] {
      assert rows == [rows[0]] + rows[1..];
      SortBySumBursts(rows[1..], order);
      InsertSumBursts(rows[0], SortBy(rows[1..], order), order);
      SumBurstsCons(rows[0], rows[1..]);
    }
  }

  /** Every record of the sorted list is a record of the input, and back. */
  lemma SortBySameRecords(rows: seq<Row>, order: SortKey, r: Row)
    ensures r in SortBy(rows, order) <==> r in rows
  {
    assert r in SortBy(rows, order) <==> r in multiset(SortBy(rows, order));
  }

  /** `process_data.sort(key=...)`: the array now holds its records in stable key order. */
  method SortRecords(data: array<Row>, order: SortKey)
    modifies data
    ensures data[..] == SortBy(old(data[..]), order)
  {
    var sorted := SortBy(data[..], order);
    forall i | 0 <= i < data.Length {
      data[i] := sorted[i];
    }
  }
}
