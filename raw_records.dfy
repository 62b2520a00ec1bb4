/**
  Process records as the Python lists they start out as, and the extension
  step with which Priority.py and RR.py bring them to the layout their loops
  read.

  Priority.py reads `[pid, arrival, remaining, priority, completed, burst]`
  and RR.py reads `[pid, arrival, remaining, completed, burst]`; a field that
  compares unequal to 0 in the `completed` slot counts as completed, and the
  values a scheduler appends follow the fixed fields.
 */
module RawRecords {
  import opened Records

  // ---------------------------------------------------------------------------
  // Priority.py

  /** A four-field record `[pid, arrival, burst, priority]` gets `completed = 0`
      and a copy of its burst appended; a record of any other length is left
      as it is. */
  function ExtendPriorityRecord(rec: seq<int>): (r: seq<int>)
    ensures |rec| == 4 ==> |r| == 6
    ensures |rec| != 4 ==> r == rec
  {
    if |rec| == 4 then rec + [0, rec[2]] else rec
  }

  /** The typed view of a six-field (or longer) Priority.py record. */
  function DecodePriority(rec: seq<int>): Row
    requires |rec| >= 6
  {
    Row(rec[0], rec[1], rec[2], rec[3], rec[4] != 0, rec[5], rec[6..])
  }

  /** Extending a four-field record yields a fresh record with the given id,
      arrival, burst and priority. */
  lemma ExtendedPriorityRecordIsFresh(rec: seq<int>)
    requires |rec| == 4
    ensures var r := DecodePriority(ExtendPriorityRecord(rec));
      IsFresh(r) && r.pid == rec[0] && r.arrival == rec[1] && r.burst == rec[2] && r.priority == rec[3]
  {
  }

  /** The extension loop of `processData` (Priority.py:38-41). */
  method ExtendPriorityRecords(records: array<seq<int>>)
    modifies records
    ensures forall i :: 0 <= i < records.Length ==> records[i] == ExtendPriorityRecord(old(records[i]))
  {
    for i := 0 to records.Length
      invariant forall j :: 0 <= j < i ==> records[j] == ExtendPriorityRecord(old(records[j]))
      invariant forall j :: i <= j < records.Length ==> records[j] == old(records[j])
    {
      if |records[i]| == 4 {
        records[i] := records[i] + [0, records[i][2]];
      }
    }
  }

  // ---------------------------------------------------------------------------
  // RR.py

  /** The extension at RR.py:39-46 as written: a three-field record
      `[pid, arrival, burst]` and a four-field record alike get `[0, burst]`
      appended. */
  function ExtendRrRecord(rec: seq<int>): (r: seq<int>)
    ensures |rec| == 3 ==> |r| == 5 && r[..3] == rec && r[3] == 0 && r[4] == rec[2]
    ensures |rec| == 4 ==> |r| == 6 && r[..4] == rec && r[4] == 0 && r[5] == rec[2]
    ensures |rec| != 3 && |rec| != 4 ==> r == rec
  {
    if |rec| == 3 then rec + [0, rec[2]]
    else if |rec| == 4 then rec + [0, rec[2]]
    else rec
  }

  /** What RR.py's loop needs of a record: exactly five fields, since
      `pid, arrival, rem_bt, completed_flag, orig_bt = process_data[idx]`
      unpacks it, and 0 in slot 3, which the arrival scan reads as the
      completed flag. */
  predicate RrReady(rec: seq<int>) {
    |rec| == 5 && rec[3] == 0
  }

  /** The typed view of a five-field RR.py record; it has no priority. */
  function DecodeRr(rec: seq<int>): Row
    requires |rec| == 5
  {
    Row(rec[0], rec[1], rec[2], 0, rec[3] != 0, rec[4], [])
  }

  /** Three-field records come out of the extension as RR.py expects. */
  lemma ExtendedRrRecordIsFresh(rec: seq<int>)
    requires |rec| == 3
    ensures RrReady(ExtendRrRecord(rec))
    ensures var r := DecodeRr(ExtendRrRecord(rec));
      IsFresh(r) && r.pid == rec[0] && r.arrival == rec[1] && r.burst == rec[2]
  {
  }

  /** A four-field record comes out with six fields, which the unpacking at
      RR.py:72 rejects, and with its priority in the completed slot. */
  lemma ExtendedRrFourFieldRecordIsBroken(rec: seq<int>)
    requires |rec| == 4
    ensures !RrReady(ExtendRrRecord(rec))
    ensures |ExtendRrRecord(rec)| == 6 && ExtendRrRecord(rec)[3] == rec[3]
  {
  }

  /** The record `[1, 0, 5, 2]` (priority 2) becomes `[1, 0, 5, 2, 0, 5]`:
      slot 3 holds 2, so the arrival scan never admits it and `completed < n`
      stays true for ever. */
  lemma FourFieldRrRecordNeverAdmitted()
    ensures ExtendRrRecord([1, 0, 5, 2]) == [1, 0, 5, 2, 0, 5]
    ensures ExtendRrRecord([1, 0, 5, 2])[3] != 0
  {
  }

  /** The extension RR.py evidently intends: the fixed layout
      `[pid, arrival, remaining, completed, burst]` for both three- and
      four-field records, dropping the priority RR.py does not use. */
  function NormalizeRrRecord(rec: seq<int>): (r: seq<int>)
    ensures |rec| == 3 || |rec| == 4 ==> |r| == 5 && r[..3] == rec[..3] && r[3] == 0 && r[4] == rec[2]
    ensures |rec| != 3 && |rec| != 4 ==> r == rec
  {
    if |rec| == 3 then rec + [0, rec[2]]
    else if |rec| == 4 then rec[..3] + [0, rec[2]]
    else rec
  }

  /** Both record shapes come out of the corrected extension as RR.py expects,
      and three-field records come out exactly as before. */
  lemma NormalizedRrRecordIsFresh(rec: seq<int>)
    requires |rec| == 3 || |rec| == 4
    ensures RrReady(NormalizeRrRecord(rec))
    ensures var r := DecodeRr(NormalizeRrRecord(rec));
      IsFresh(r) && r.pid == rec[0] && r.arrival == rec[1] && r.burst == rec[2]
    ensures |rec| == 3 ==> NormalizeRrRecord(rec) == ExtendRrRecord(rec)
  {
  }

  /** The extension loop of RR.py's `processData`, with the corrected
      extension. */
  method NormalizeRrRecords(records: array<seq<int>>)
    modifies records
    ensures forall i :: 0 <= i < records.Length ==> records[i] == NormalizeRrRecord(old(records[i]))
  {
    for i := 0 to records.Length
      invariant forall j :: 0 <= j < i ==> records[j] == NormalizeRrRecord(old(records[j]))
      invariant forall j :: i <= j < records.Length ==> records[j] == old(records[j])
    {
      if |records[i]| == 3 {
        records[i] := records[i] + [0, records[i][2]];
      } else if |records[i]| == 4 {
        records[i] := records[i][..3] + [0, records[i][2]];
      }
    }
  }
}
