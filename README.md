# CPU scheduling engine

A Dafny model of the discrete-time CPU schedulers of this repository. There are
six near-duplicate Python classes. Each takes a list of process records
`[pid, arrival, burst, ...]`, sorts it and runs a loop on an integer clock. The
loop mutates the records in place and appends each one's completion,
turnaround and waiting time. It also builds an execution sequence.

- `FCFS.py`: non-preemptive first come, first served, over records stably
  sorted by `(arrival, burst)` (module `Fcfs`).
- `SJF.py`, `PriorityScheduling.py`, `Priority.py`: preemptive
  shortest-remaining-time and highest-priority-number scheduling, one tick per
  iteration. All three share the tick engine in module `Preemptive`. A
  `Policy` value names the ready-queue sort key. The thin modules `Sjf`,
  `PriorityScheduling` and `Priority` wrap it. `Priority.py` also extends its
  records and keeps per-tick Gantt tuples.
- `RoundRobin.py`: round robin over a persistent list of snapshot entries,
  with the last executed process moved to the tail on every scan (modules
  `ReadyQueue` and `RoundRobin`).
- `RR.py`: round robin over a deque of record indices with a `mark` array and
  a `completed` counter (module `Rr`). It idles one unit at a time when the
  deque is empty.

Shared pieces: `Records` (the record type `Row`, dispatch segments, sums and
trace bookkeeping), `Sorting` (Python's stable `list.sort` as a stable
insertion sort), `Metrics` (the two metric passes and the averages) and
`RawRecords` (the raw integer lists and the extension steps of `Priority.py`
and `RR.py`).

`process_data` is an `array<Row>` that the methods update in place. The
values a scheduler appends to a record list are kept in `Row.appended`. The
integer `completed` slot becomes a `bool`. Each loop is a `while` loop with
its invariants. It is proved against specification functions (`SortBy`,
`Scanned`, `FrontRows`, …) or against a step relation and the runs it generates (`Preemptive.Step`
and `Preemptive.IsRun`, `RoundRobin.Turn` and `RoundRobin.IsRun`,
`Rr.DequeTurn` and `Rr.IsDequeRun`). What the source promises is then proved about those.

Behaviour taken from the code where a description of the system says
otherwise:

- Ties between equal keys go to the earlier record in the stably sorted
  `process_data`, not to the smaller process id.
- `SJF.py`, `PriorityScheduling.py` and `Priority.py` record one entry per
  tick. Consecutive ticks of one process are not merged.
- `RR.py` advances an idle clock by one unit per iteration (RR.py:68-70). It
  does not jump to the next arrival.
- An empty process list is not rejected up front. The averages divide by
  zero, modelled as `Metrics.Average.DivisionByZero`.

## Model

| member | source | states |
|---|---|---|
| `Records.IndexOfPid` | SJF.py:112-114 | the lookup loop stops at the first record carrying the id: that record has the id and no earlier one does |
| `Records.PidIndexUnique` | SJF.py:112-114 | with unique ids the lookup finds exactly the record that was selected |
| `Records.ChronologicalNoOverlap` | Priority.py:66-76 | in a chronological trace every earlier dispatch ends no later than any later one starts |
| `Sorting.SortBy` | FCFS.py:63 | the sorted list is a permutation of the input (same multiset, same length) and is ordered by the key |
| `Sorting.SortByStable` | FCFS.py:63 | stability: for every key, the records carrying it appear in the output in exactly their input order |
| `Sorting.SortByUniquePids` | SJF.py:75 | sorting keeps process ids unique |
| `Sorting.SortBySumBursts` | SJF.py:75 | sorting keeps the total burst |
| `Sorting.SortBySameRecords` | SJF.py:75 | a record is in the sorted list exactly when it is in the input |
| `Sorting.SortRecords` | FCFS.py:63 | the in-place sort leaves the array holding the stable sort of its old contents |
| `Metrics.MeanOf` | FCFS.py:114 | the average is undefined (division by zero) exactly for an empty list; otherwise average times count is the total |
| `Metrics.TotalWaitingNonNegative` | SJF.py:192-200 | a record that cannot complete before arrival plus burst has a non-negative waiting time, and so does the total |
| `Metrics.TotalWaitingIsTurnaroundMinusBurst` | SJF.py:192-200 | total waiting time is total turnaround time minus total burst |
| `Metrics.BothPassesTotals` | SJF.py:150-151 | after both passes the turnaround and waiting totals read back from the records are the totals the passes summed |
| `Metrics.CalculateTurnaroundTime` | FCFS.py:107-114 | appends completion minus arrival to every record and returns the mean of those values |
| `Metrics.CalculateWaitingTime` | FCFS.py:129-136 | appends turnaround minus original burst to every record and returns the mean of those values |
| `Fcfs.StartIsEarliestPossible` | FCFS.py:69-73 | a process never starts before it arrives or before the clock, and the CPU idles before a start only until that process's arrival |
| `Fcfs.ClockMonotone` | FCFS.py:67-82 | with non-negative bursts the clock never runs backwards |
| `Fcfs.NoOverlap` | FCFS.py:67-82 | a process starts only after every earlier one has completed, and completion times follow dispatch order |
| `Fcfs.WaitingIsStartDelay` | FCFS.py:69-82 | the FCFS waiting time equals start minus arrival, so it is never negative |
| `Fcfs.RunInOrder` | FCFS.py:65-82 | the loop appends to each record the clock after it ran to completion, starting each at the later of clock and arrival |
| `Fcfs.RunAndMeasure` | FCFS.py:65-86 | the loop and both metric passes leave every record with completion, turnaround and waiting time, and return their means |
| `Fcfs.MetricsComplete` | FCFS.py:82-86 | the completion pass followed by the two metric passes gives the finished schedule |
| `Fcfs.PidSequence` | FCFS.py:89 | the sequence is exactly the process ids in dispatch order, one per record |
| `Fcfs.SchedulingProcess` | FCFS.py:63-89 | records end up in stable `(arrival, burst)` order, each finished; the sequence lists them in that order; the averages are the means of the appended values |
| `Preemptive.BestReadyUnique` | SJF.py:101-109 | the head of the stably sorted ready queue is determined: two records cannot both be it |
| `Preemptive.FirstUpcomingIsEarliest` | PriorityScheduling.py:128-132 | in arrival-sorted records the first pending record is also the head of the normal queue sorted by arrival |
| `Preemptive.Select` | SJF.py:84-109 | one partition pass finds the first arrived incomplete record with the best key, else the first pending record, and reports "both queues empty" exactly when every record is completed |
| `Preemptive.Tick` | SJF.py:96-147 | one iteration: nothing changes when all are completed; otherwise the chosen record runs one tick (from the clock, or from its arrival after an idle jump), loses one unit of burst, is completed with the tick's end exactly when that reaches 0, and no other record changes |
| `Preemptive.InitialInv` | SJF.py:69-75 | fresh records with unique ids and positive bursts satisfy the loop invariant at clock 0 |
| `Preemptive.ChosenIsRunnable` | SJF.py:85-90 | the chosen record is incomplete and its tick starts no earlier than the clock and its arrival |
| `Preemptive.TickedRowInv` | SJF.py:117-122 | the ticked record keeps its invariant: remaining burst, completion flag, completion time and tick count stay consistent |
| `Preemptive.OtherRowInv` | SJF.py:117-122 | records that were not ticked keep their invariant |
| `Preemptive.TickKeepsInv` | SJF.py:105-122 | one tick keeps the loop invariant and uses up exactly one unit of the total remaining burst |
| `Preemptive.StepKeepsInv` | SJF.py:100-147 | a step of the policy keeps the invariant and the arrival order and lowers the remaining burst |
| `Preemptive.TickKeepsSorted` | SJF.py:117 | a tick leaves arrival times alone, so the records stay sorted by arrival |
| `Preemptive.TicksStrictlyIncreasing` | Priority.py:66-76 | the one-unit ticks start at strictly increasing times and never overlap |
| `Preemptive.ExtendRun` | SJF.py:78-147 | a run extended by one step of the policy is a run |
| `Preemptive.RunStep` | SJF.py:78-147 | every tick of a run is a step of the policy from the state before it |
| `Preemptive.DoneIsFinished` | SJF.py:96-98 | when every record is completed each one is finished, and the number of ticks is the sum of the bursts |
| `Preemptive.RunTicks` | SJF.py:77-147 | the loop is a run of the policy that ends with every record completed, each ticked exactly its burst and never before arrival, completion at its last tick, with one-unit chronological ticks summing to the total burst |
| `Preemptive.MetricsReported` | SJF.py:150-151 | the metric passes turn finished records into reported ones: turnaround is completion minus arrival, waiting is turnaround minus burst and is non-negative |
| `Preemptive.PrepareTicks` | SJF.py:75 | the initial sort keeps records fresh with unique ids and the same total burst, now sorted by arrival |
| `Preemptive.Measure` | SJF.py:150-151 | the two metric passes report every finished record and return the means of the appended values |
| `Preemptive.ScheduleAndMeasure` | SJF.py:74-151 | sort, tick loop and metrics: a run of the policy from the arrival-sorted records to all completed, every record reported, as many ticks as the total burst |
| `Sjf.SchedulingProcess` | SJF.py:69-151 | the start, exit and process lists are one entry per tick of a shortest-remaining-time run, whose length is the total burst; every record is reported |
| `PriorityScheduling.SchedulingProcess` | PriorityScheduling.py:71-155 | the start, exit and process lists are one entry per tick of a highest-priority run, whose length is the total burst; every record is reported |
| `Priority.ProcessData` | Priority.py:37-99 | the records are extended, then a highest-priority run produces one Gantt tuple `(pid, t-1, t)` per tick, the process sequence matches it, and every record is reported |
| `RawRecords.ExtendPriorityRecord` | Priority.py:38-41 | a four-field record gets two more fields; a record of any other length is left as it is |
| `RawRecords.ExtendedPriorityRecordIsFresh` | Priority.py:38-41 | an extended four-field record is fresh (not completed, full burst remaining) with its id, arrival, burst and priority |
| `RawRecords.ExtendPriorityRecords` | Priority.py:38-41 | the extension loop applies the extension to every record |
| `RawRecords.ExtendRrRecord` | RR.py:39-46 | as written: a three-field record becomes five fields with completed slot 0 and remaining burst equal to its burst; a four-field record becomes six fields `[pid, arrival, burst, priority, 0, burst]`, with its priority still in slot 3, where the completed flag is read; other lengths are left as they are |
| `RawRecords.ExtendedRrRecordIsFresh` | RR.py:39-42 | a three-field record comes out in the five-field layout the loop reads, fresh, with its id, arrival and burst |
| `RawRecords.ExtendedRrFourFieldRecordIsBroken` | RR.py:43-46 | a four-field record comes out with six fields and its priority in the completed slot, which the loop cannot use |
| `RawRecords.FourFieldRrRecordNeverAdmitted` | RR.py:43-46 | the record `[1, 0, 5, 2]` comes out with a non-zero completed slot, so the arrival scan never admits it |
| `RawRecords.NormalizeRrRecord` | RR.py:39-46 | the corrected extension brings three- and four-field records alike to five fields: id, arrival and burst kept, completed slot 0, remaining burst equal to the burst; records of other lengths are left as they are |
| `RawRecords.NormalizedRrRecordIsFresh` | RR.py:39-46 | with the corrected extension both three- and four-field records come out in the five-field layout, fresh, and three-field records come out as before |
| `RawRecords.NormalizeRrRecords` | RR.py:39-46 | the corrected extension loop applies the extension to every record |
| `ReadyQueue.MoveToTailFacts` | RoundRobin.py:109-113 | moving the last executed entry to the tail keeps the same entries and ids, keeps ids distinct and puts that entry last |
| `ReadyQueue.MoveThenAppend` | RoundRobin.py:109-113 | moving the entry, then appending others and moving it again, equals appending first and moving once: it ends up behind every new arrival |
| `ReadyQueue.IsPresent` | RoundRobin.py:95-101 | the presence check is true exactly when some queued entry carries the id |
| `ReadyQueue.ListInsert` | RoundRobin.py:113 | Python's `list.insert`: the new entry sits at the index, entries before it stay in place and the rest shift one place right; an index at or past the end appends |
| `ReadyQueue.MoveLastExecutedToTail` | RoundRobin.py:110-113 | the `pop(k)`/`insert(len - 1, …)` loop moves the entry carrying the id to the very end and leaves the rest in order |
| `RoundRobin.NewArrivalsFacts` | RoundRobin.py:92-107 | the scan appends only current snapshots of arrived incomplete records, never an id already queued, and afterwards every arrived incomplete record is queued |
| `RoundRobin.ScanStep` | RoundRobin.py:92-113 | scanning one more arrived record is the presence check, the append and the move to the tail |
| `RoundRobin.ScanSkip` | RoundRobin.py:92-119 | a record that has not arrived, or is completed, leaves the ready queue alone |
| `RoundRobin.Admit` | RoundRobin.py:95-113 | the work for one arrived record gives the scan's next queue and keeps ids distinct |
| `RoundRobin.Scan` | RoundRobin.py:88-119 | the scan returns the ready queue the scan specification gives and the normal queue of pending records in record order |
| `RoundRobin.ScanFacts` | RoundRobin.py:92-113 | after a scan the queue holds current snapshots under distinct ids, every ready record is queued, waiting entries keep their places at the front, and the last executed process, if queued, is at the tail |
| `RoundRobin.MoveBehindArrivals` | RoundRobin.py:109-113 | moving a process that was not waiting puts it behind the new arrivals and keeps the waiting entries in front |
| `RoundRobin.UpcomingsFacts` | RoundRobin.py:115-119 | the normal queue holds current snapshots of pending records, and its head is the first pending record |
| `RoundRobin.Dispatch` | RoundRobin.py:126-161 | the head's record, found by id, loses a quantum when its snapshot needs more, and is otherwise completed at the end of its slice; nothing else changes |
| `RoundRobin.DispatchKeepsRows` | RoundRobin.py:126-161 | one dispatch keeps the record and trace invariant and lowers the work left |
| `RoundRobin.DispatchLowersWork` | RoundRobin.py:141-161 | a dispatch never raises remaining burst and strictly lowers remaining burst plus incomplete count |
| `RoundRobin.PopKeepsQueue` | RoundRobin.py:142-161 | popping the dispatched head leaves a queue of current snapshots that no longer holds its id |
| `RoundRobin.ScanOutcome` | RoundRobin.py:121-167 | both queues are empty exactly when all records are completed; otherwise the ready head is a current arrived snapshot, or the normal head is the first pending record and nothing is ready |
| `RoundRobin.PickHead` | RoundRobin.py:126-167 | the ready head runs at once; with an empty ready queue the normal head runs from the later of clock and its arrival |
| `RoundRobin.HeadHasRecord` | RoundRobin.py:136-138 | the dispatched process has a record to look up |
| `RoundRobin.IterationKeepsInv` | RoundRobin.py:126-201 | one dispatch and the pop keep the loop invariant and lower the work left |
| `RoundRobin.HeadIsRunnable` | RoundRobin.py:126-167 | the dispatched entry is the current snapshot of an incomplete record and starts no earlier than the clock and its arrival |
| `RoundRobin.AllServed` | RoundRobin.py:121-123 | once all are completed every record has received exactly its burst, never before arrival, completed at the end of its last slice |
| `RoundRobin.Serve` | RoundRobin.py:123-201 | the dispatch after a scan that left a queue non-empty is one `Turn`: the ready head (else the normal head, from the later of clock and its arrival) runs `min(remaining, quantum)` on its record, the ready queue loses its head; the loop invariant holds and the work left drops |
| `RoundRobin.ExtendRun` | RoundRobin.py:87-201 | a run followed by one more `Turn` from its last state, clock and last executed process is a run one dispatch longer |
| `RoundRobin.Iterate` | RoundRobin.py:88-201 | the loop exits exactly when the scan leaves both queues empty (`Quiet`), changing nothing; otherwise the iteration is the `Turn` from the current records, clock, ready queue and last executed process, its slice is appended, and the run grows by that `Turn` |
| `RoundRobin.RunRoundRobin` | RoundRobin.py:87-201 | the loop is a run of `Turn`s from the initial records and an empty ready queue to the first scan that finds both queues empty; every record is served, with chronological dispatches of at most one quantum |
| `RoundRobin.Measure` | RoundRobin.py:204-205 | the two metric passes report every served record and return the means of the appended values |
| `RoundRobin.MetricsReported` | RoundRobin.py:204-205 | the metric passes turn served records into reported ones with correct, non-negative waiting times |
| `RoundRobin.SchedulingProcess` | RoundRobin.py:77-205 | the loop is a run of `Turn`s from the arrival-sorted records to a quiet scan; every record is reported; the start, exit and executed lists are the run's dispatches in order |
| `Rr.NewIndicesFacts` | RR.py:64-67 | the scan admits exactly the eligible indices (arrived, incomplete, unmarked), each once, in increasing order |
| `Rr.Arrivals` | RR.py:64-67 | the scan appends the eligible indices to the deque and marks exactly them |
| `Rr.ArrivalsKeepInv` | RR.py:62-67 | a scan keeps the deque invariant, and afterwards every unmarked record is still to arrive |
| `Rr.IdleShrinksGap` | RR.py:68-70 | an idle unit brings a pending arrival one unit closer |
| `Rr.CompletedCountAll` | RR.py:63 | the counter equals the number of records exactly when every record is completed |
| `Rr.NoneCompleted` | RR.py:61 | the counter starts at 0 on records none of which is completed |
| `Rr.CompletedCountUpdate` | RR.py:82-85 | completing one record raises the counter by exactly one |
| `Rr.CompletedCountSame` | RR.py:86-87 | a dispatch that does not complete its record leaves the counter alone |
| `Rr.ScanIgnoresHeld` | RR.py:78-81 | the scan after a slice does not see the running record, which is marked |
| `Rr.PopKeepsInv` | RR.py:71 | `popleft` leaves the front index held, marked and incomplete, and no longer queued |
| `Rr.SettleKeepsInv` | RR.py:82-87 | settling the held record (completing it or appending it again) restores the deque invariant |
| `Rr.RunFront` | RR.py:71-87 | one dispatch: the front record runs for `min(remaining, quantum)`, arrivals up to the end are admitted, then it completes or goes behind them; the counter counts the completion |
| `Rr.FrontKeepsRows` | RR.py:71-87 | one dispatch keeps the record and trace invariant, counts a completion exactly when it happens, and lowers the work left |
| `Rr.FrontKeepsDeque` | RR.py:71-87 | one dispatch keeps the deque invariant |
| `Rr.RowsInvLater` | RR.py:68-70 | letting time pass keeps the record invariant |
| `Rr.IdleKeepsInv` | RR.py:68-70 | an idle unit keeps every invariant and lowers the distance to the next arrival |
| `Rr.DequeRunTurn` | RR.py:63-87 | every iteration of a run is one `DequeTurn` from the state before it |
| `Rr.IdleTurn` | RR.py:68-70 | a scan that leaves the deque empty makes the iteration an idle unit: marks updated, clock one later, no slice |
| `Rr.ServeTurn` | RR.py:71-87 | a scan that leaves the deque non-empty makes the iteration the front dispatch of `Rr.RunFront`, with its slice |
| `Rr.ExtendDequeRun` | RR.py:63-87 | a run followed by one more `DequeTurn` is a run, and its Gantt chart gains the turn's slice, if any |
| `Rr.Wait` | RR.py:68-70 | an idle unit advances the clock by one, is the idle `DequeTurn`, extends the run without a Gantt entry, and keeps every invariant |
| `Rr.Serve` | RR.py:71-87 | a dispatch from a non-empty deque: the front record runs until `FrontEnd`, records, marks and deque become `FrontRows`, `FrontMarks` and `FrontQueue`, the Gantt chart gains the slice `(pid, clock, end)`; that is the serving `DequeTurn`, the run grows by it, invariants and counter are kept and the work left drops |
| `Rr.Iterate` | RR.py:63-87 | an iteration idles exactly when the deque is empty after the scan; either way it is the `DequeTurn` from the current records, marks, clock and deque, the run grows by it and the Gantt chart is the run's slices; every invariant and the counter are kept |
| `Rr.RunDeque` | RR.py:56-87 | the loop is a run of `DequeTurn`s from the initial records, no marks, clock 0 and an empty deque, ending with every record completed; the Gantt chart is the run's slices; every record is served, with chronological slices of at most one quantum |
| `Rr.SchedulingProcess` | RR.py:51-91 | the loop is a run of `DequeTurn`s from the arrival-sorted records; the Gantt chart is its slices; every record is reported with correct, non-negative waiting times |
| `Rr.ProcessData` | RR.py:33-49 | the corrected extension brings three- and four-field records to the five-field layout; the loop is a run of `DequeTurn`s from their arrival-sorted decoding; every record is reported |

## Left out

- Console input (`input()` in every `processData` and the quantum prompt at
  RR.py:47) is left out. The quantum and the records are parameters.
- `printData` (tabulate output and its display sort by id) is left out.
  `plot_gantt` (matplotlib) is left out. `main.py` (menu) and `test.py` (CSV
  reading and stdin redirection) are left out too.
- Float averages are left out: an average is the exact `real` quotient of
  the integer total by the count, and Python's float rounding and formatting
  are not modelled.
- Python's Timsort is modelled by a stable insertion sort. Any two stable
  sorts on the same key give the same list, so only the cost differs.
- Inputs the code does not handle are excluded by preconditions: duplicate
  process ids where a record is looked up by id (`SJF.py`,
  `PriorityScheduling.py`, `Priority.py`, `RoundRobin.py`: the lookup takes
  the first match), bursts below 1 in the tick
  schedulers (a zero burst goes to -1 and never completes), negative bursts
  in both round-robin versions, and a quantum below 1.
- Priority.ProcessData: takes four-field records only. A record of another
  length, which the extension leaves as it is, is not run through the loop.
- Priority.ProcessData: the scheduler runs on a new `data` array decoded from
  the extended records. The caller's record list receives the extension only;
  it is not sorted, and the completion, turnaround and waiting values are not
  appended to it, as they are in place at Priority.py:48-99.
- Rr.ProcessData: runs the corrected extension (see Findings). The as-written
  extension is modelled by `RawRecords.ExtendRrRecord` and its lemmas only.
- Rr.ProcessData: the scheduler runs on a new `data` array decoded from the
  extended records. The caller's record list receives the extension only;
  it is not sorted, and the completion, turnaround and waiting values are not
  appended to it, as they are in place at RR.py:49-89.
- Rr.RunDeque, Rr.SchedulingProcess, Rr.ProcessData: require unique process
  ids although `RR.py` reaches records by index and never looks one up by id.
  The served, busy and last-end facts about each process are stated per id
  over the Gantt chart, and with a repeated id they would merge two records.

## Findings

| source | as written | input that shows it | evidently intended | confidence | as-written member | corrected member |
|---|---|---|---|---|---|---|
| RR.py:43-46 | a four-field record `[pid, arrival, burst, priority]` gets `[0, burst]` appended, so slot 3, read as the completed flag at RR.py:65, holds the priority | `[1, 0, 5, 2]` becomes `[1, 0, 5, 2, 0, 5]`: the arrival scan never admits it and `completed < n` never becomes false; with priority 0 the six fields fail the five-name unpacking at RR.py:72 | bring the record to `[pid, arrival, burst, 0, burst]`, dropping the priority RR.py does not use | high, not executed | `RawRecords.ExtendedRrFourFieldRecordIsBroken` | `RawRecords.NormalizedRrRecordIsFresh` |
