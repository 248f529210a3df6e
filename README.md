# CPU scheduling simulator: a verified model

This project models the computational core of a small non-preemptive CPU
scheduling simulator written in Python, and proves properties of the model:

- the process record (`models/process.py`): a mutable object whose pid,
  arrival time and burst time are fixed at creation and whose four derived
  fields (start, completion, turnaround and waiting time) are written by the
  schedulers;
- First-Come-First-Served (`algorithms/fcfs.py`): a new list sorted by
  `(arrival_time, pid)`, then one loop that moves a clock across idle gaps and
  fills in each record;
- non-preemptive Shortest-Job-First (`algorithms/sjf.py`): an in-place sort by
  the same key, then exactly `n` iterations, each dispatching the arrived
  pending record with the strictly smallest burst (ties go to the lower
  index), or, when none has arrived, moving the clock to the earliest pending
  arrival;
- the metrics reducer (`utils/calculator.py`): average waiting and turnaround
  time, CPU utilisation, throughput and total execution time.

Layout:

- `wrappers.dfy`: `Option`.
- `ordering.dfy`: Python string order on pids, the `(arrival_time, pid)` key,
  and `SortBy`, the stable insertion sort that specifies both `sorted` and
  `list.sort`.
- `process.dfy`: the `Process` class and its value read-outs (`Job`,
  `Timing`, `Record`, the `to_dict` map).
- `fcfs.dfy`: `FcfsScheduling` and `RunInOrder` are methods over the records.
  They are proved against `FcfsTimeline`, the pure timeline, and
  `FcfsScheduling` against `FcfsSchedule`, the schedule of the records' inputs.
- `sjf.dfy`: `SjfNonPreemptive` and its loop (`ScheduleSorted`, `Iterate`,
  `SelectShortest`, `RunAt`) are proved against `SjfRun`, a pure state
  machine with one `SjfStep` per outer iteration, and `SjfNonPreemptive`
  against `SjfSchedule`, the schedule of the records' inputs. The scheduling
  properties are proved about `SjfRun`.
- `calculator.dfy`: `CalculateMetrics` over record read-outs, with exact
  `real` division.
- `sample.dfy`: the sample batch the CSV helper writes
  (`utils/csv_handler.py:113-117`). The pure schedules are worked through step
  by step. Then `FcfsSampleRun` and `SjfSampleRun` build the five records,
  run the scheduler methods on them and measure the returned list, as
  `main.py:52-55` and `main.py:71-74` do. SJF's metrics are therefore taken
  over its result in dispatch order.

Three behaviours of the code are easy to misread, and the model follows the
code in each:

- `calculate_metrics` of an empty list returns the empty dictionary, not a
  record of zeros. It is modelled as `None`.
- `total_execution_time` is the largest completion time, not the span from
  the first start to the last completion.
- In SJF, the idle branch uses up one of the `n` iterations. A batch whose
  first arrival is after time 0 therefore leaves at least one record
  unscheduled (`SjfLateStartDropsJobs`). With a single such record, that
  record is never scheduled (`SjfLateArrivalDropped`).

## Model

| member | source | states |
|---|---|---|
| Processes.Process.constructor | models/process.py:3-10 | the pid, arrival time and burst time are stored as given, and the four derived fields are 0 |
| Processes.Process.Run | algorithms/fcfs.py:10-13 | the derived fields become the dispatch timing for the given start: completion = start + burst, turnaround = completion − arrival, waiting = turnaround − burst |
| Processes.Dispatch | algorithms/sjf.py:25-28 | the timing of a dispatch at `at`: start `at`, completion `at` + burst, turnaround completion − arrival, waiting `at` − arrival = turnaround − burst |
| Processes.Process.ToDict | models/process.py:15-24 | exactly the seven keys PID, ArrivalTime, BurstTime, StartTime, CompletionTime, TurnaroundTime and WaitingTime, each mapped to its field; it only reads the record |
| Processes.ToDictRoundTrip | models/process.py:15-24 | the record can be read back from its `to_dict` map, so the map loses no field |
| Processes.FromDict | models/process.py:15-24 | a map is read back only when it has exactly the seven `to_dict` keys |
| Processes.JobsOf | algorithms/fcfs.py:2 | the fixed inputs of each record, position by position |
| Processes.TimesOf | algorithms/sjf.py:25-28 | the four derived fields of each record, position by position |
| Processes.Records | utils/calculator.py:8-14 | the record read-out pairs each job with its timing, position by position |
| Processes.Snapshots | utils/calculator.py:8-14 | reading out a list of records gives each record's inputs paired with its derived fields, in list order |
| Processes.SortJobs | algorithms/fcfs.py:2 | sorting records by `(arrival_time, pid)` and then reading their inputs gives the inputs sorted by the same key |
| Processes.InsertJobs | algorithms/fcfs.py:2 | inserting a record and then reading the inputs is inserting its input into the inputs |
| Ordering.StrLessIrreflexive | algorithms/fcfs.py:2 | no pid is smaller than itself under Python string order |
| Ordering.StrLessTransitive | algorithms/fcfs.py:2 | Python string order on pids is transitive |
| Ordering.StrLessTrichotomy | algorithms/fcfs.py:2 | any two pids are equal or ordered one way or the other |
| Ordering.KeyLessIrreflexive | algorithms/fcfs.py:2 | no `(arrival_time, pid)` key is smaller than itself |
| Ordering.KeyLessTransitive | algorithms/fcfs.py:2 | `<` on `(arrival_time, pid)` is transitive |
| Ordering.KeyLeTotalOrder | algorithms/fcfs.py:2 | `<=` on `(arrival_time, pid)` is total, transitive and antisymmetric |
| Ordering.SortByCorrect | algorithms/sjf.py:2 | the sort is a permutation of its input, non-decreasing in `(arrival_time, pid)`, and records with equal keys keep their input order |
| Ordering.SortBySorted | algorithms/sjf.py:2 | sorting a list already in `(arrival_time, pid)` order leaves it as it is |
| Ordering.SortByDistinct | algorithms/fcfs.py:2 | sorting a list without repeated records gives a list without repeated records |
| Ordering.DistinctPermutation | algorithms/fcfs.py:2 | a permutation of a list without repetitions has none |
| Fcfs.FcfsTimeline | algorithms/fcfs.py:4-15 | the first record starts at the later of its arrival and the clock, and each later record at the later of its arrival and the previous completion, with the dispatch arithmetic |
| Fcfs.FcfsTimelineUnique | algorithms/fcfs.py:4-15 | any timing that follows the FCFS start rule is the timeline, so the rule determines the schedule |
| Fcfs.FcfsScheduling | algorithms/fcfs.py:1-17 | the returned list is the stable `(arrival_time, pid)` sort of the input (a new list; the caller's sequence is a value and is unchanged), and each returned record holds its timeline timing; these timings are `FcfsSchedule` of the input records' jobs |
| Fcfs.FcfsScheduleOfRecords | algorithms/fcfs.py:1-17 | the FCFS schedule of the records' inputs is the timeline of the sorted records' inputs |
| Fcfs.RunInOrder | algorithms/fcfs.py:4-15 | after the loop, each record in the sorted list holds the timing the FCFS timeline from clock 0 gives it |
| Fcfs.TimelineStep | algorithms/fcfs.py:7-15 | one loop iteration: the record at `i` gets its timeline timing and the clock moves to its completion |
| Fcfs.FcfsStartRule | algorithms/fcfs.py:7-13 | each record starts no earlier than it arrives and than the previous record completes; waiting ≥ 0; completion = start + burst; waiting = turnaround − burst |
| Fcfs.FcfsMonotone | algorithms/fcfs.py:6-15 | with non-negative bursts, starts and completions never decrease along the output, and runs do not overlap |
| Fcfs.FcfsBusySpan | algorithms/fcfs.py:6-15 | from the first start to the last completion there is room for at least the total burst |
| Fcfs.FcfsEmpty | algorithms/fcfs.py:2-17 | an empty input gives an empty schedule |
| Sjf.Shortest | algorithms/sjf.py:13-18 | the scan's choice is -1 exactly when no pending record has arrived; otherwise it is an arrived pending record with the smallest burst, the lowest index on ties |
| Sjf.EarliestPending | algorithms/sjf.py:20-21 | `min` of the pending arrival times: none exactly when nothing is pending; otherwise a pending arrival that no pending arrival is below |
| Sjf.CountDone | algorithms/sjf.py:5 | the number of set flags is at most the number of flags |
| Sjf.CountDoneMark | algorithms/sjf.py:31 | setting an unset flag raises the count by one |
| Sjf.CountDoneFull | algorithms/sjf.py:5 | the count equals the length exactly when every flag is set |
| Sjf.CountDoneNone | algorithms/sjf.py:5 | the initial all-False flags count zero |
| Sjf.PendingExists | algorithms/sjf.py:19-21 | while fewer records are dispatched than there are, some record is pending, so the idle `min` has something to take |
| Sjf.SjfStep | algorithms/sjf.py:10-32 | one iteration keeps the flags consistent with the dispatched list, and dispatches one record or counts one idle iteration |
| Sjf.SjfRun | algorithms/sjf.py:9 | after `m` iterations the bookkeeping is consistent, and dispatched plus idle iterations equal `m` |
| Sjf.SjfIdleIteration | algorithms/sjf.py:19-22 | with no arrived pending record, nothing is dispatched and no flag or start changes; the clock moves strictly forward to the smallest pending arrival |
| Sjf.SjfDispatchIteration | algorithms/sjf.py:13-32 | with an arrived pending record, the preferred one is appended and flagged, and it starts at the current time; the clock moves on by its burst |
| Sjf.DispatchStep | algorithms/sjf.py:24-32 | the state after dispatching the scan's choice `k`, field by field |
| Sjf.IdleInvariant | algorithms/sjf.py:19-22 | an idle iteration keeps the arrival, no-overlap and shortest-first facts |
| Sjf.DispatchArrivalGuard | algorithms/sjf.py:14-15 | a dispatching iteration keeps "every dispatched record started no earlier than it arrived" |
| Sjf.DispatchNoOverlap | algorithms/sjf.py:25-30 | a dispatching iteration keeps "each dispatched record starts no earlier than the previous one completes" |
| Sjf.DispatchShortestFirst | algorithms/sjf.py:13-18 | a dispatching iteration keeps "each dispatched record was preferred when it was chosen" |
| Sjf.StepInvariant | algorithms/sjf.py:9-32 | every iteration keeps the scheduling invariant |
| Sjf.SjfRunInvariant | algorithms/sjf.py:9-32 | the scheduling invariant holds after any number of iterations |
| Sjf.SjfResultShape | algorithms/sjf.py:9-32 | the result holds distinct records, one per non-idle iteration (n minus the idle count), and holds every record exactly when no iteration was idle |
| Sjf.SjfTimingRules | algorithms/sjf.py:14-30 | every dispatched record starts no earlier than it arrives, and no earlier than the previously dispatched record completes |
| Sjf.SjfShortestJobFirst | algorithms/sjf.py:13-18 | each dispatched record had, among the pending records arrived by its start, the smallest burst, and the lowest index among equal bursts |
| Sjf.SjfClockMonotone | algorithms/sjf.py:19-30 | with non-negative bursts, `current_time` never decreases, and an idle iteration moves it strictly forward |
| Sjf.SjfIdleGrows | algorithms/sjf.py:19-22 | an iteration never lowers the idle count |
| Sjf.StepIdle | algorithms/sjf.py:9-32 | one iteration either dispatches one record, keeping the idle count, or counts one idle iteration, dispatching nothing |
| Sjf.SjfIdleStays | algorithms/sjf.py:19-22 | once the first iteration has been idle, the idle count stays positive |
| Sjf.SjfLateStartDropsJobs | algorithms/sjf.py:9-22 | when every record arrives after time 0, the first iteration is idle, so the result holds fewer records than the input |
| Sjf.SjfLateArrivalDropped | algorithms/sjf.py:19-22 | a single record that arrives after time 0 is never scheduled: its only iteration is spent moving the clock to its arrival |
| Sjf.SortInPlace | algorithms/sjf.py:2 | the caller's list is overwritten with its stable `(arrival_time, pid)` sort, which holds only input records and none twice if the input had none twice |
| Sjf.SortKeepsRecords | algorithms/sjf.py:2 | the sorted list holds only input records, and none twice if the input had none twice |
| Sjf.SjfNonPreemptive | algorithms/sjf.py:1-34 | the caller's list ends up sorted; the result lists the records dispatched by the `n` iterations, in order; dispatched records hold their dispatch timing, and the others keep their previous fields; the state these come from is `SjfSchedule` of the input records' jobs |
| Sjf.SjfScheduleOfRecords | algorithms/sjf.py:1-9 | the SJF schedule of the records' inputs is the `n`-iteration run over the sorted records' inputs |
| Sjf.SjfResultDistinct | algorithms/sjf.py:31-32 | the result of a run over distinct records holds no record twice |
| Sjf.ScheduleSorted | algorithms/sjf.py:4-34 | the `n`-iteration loop over the sorted list leaves the result and every record's fields as `SjfRun` after `n` steps describes |
| Sjf.IterationStep | algorithms/sjf.py:9-32 | what one loop iteration does to the flags, clock, result and records is one `SjfStep` |
| Sjf.Iterate | algorithms/sjf.py:10-32 | when idle, only the clock moves, to the earliest pending arrival; otherwise the chosen record's flag is set, its fields are written, it is appended, and the clock moves by its burst |
| Sjf.RunAt | algorithms/sjf.py:24-28 | the chosen record gets its dispatch timing and no other record changes |
| Sjf.SelectShortest | algorithms/sjf.py:10-18 | the scan returns the index `Shortest` specifies |
| Sjf.Pick | algorithms/sjf.py:32 | the result holds the records at the dispatched positions, in dispatch order |
| Sjf.PickAppend | algorithms/sjf.py:32 | appending a dispatched position appends its record to the result |
| Sjf.Written | algorithms/sjf.py:24-28 | there is one timing per record |
| Sjf.WrittenStep | algorithms/sjf.py:24-28 | dispatching record `k` changes the fields of `k` alone |
| Calculator.Average | utils/calculator.py:22-23 | the average times `n` is the total |
| Calculator.Utilisation | utils/calculator.py:17 | with a positive span, utilisation × span = 100 × total burst; otherwise it is 0 |
| Calculator.Throughput | utils/calculator.py:19 | with a positive span, throughput × span = the number of records; otherwise it is 0 |
| Calculator.CalculateMetrics | utils/calculator.py:1-27 | none exactly for an empty list; average × n equals the sum for waiting and turnaround; total execution time is the largest completion; with span = that − smallest start, utilisation × span = 100 × total burst and throughput × span = n when span > 0, and both are 0 otherwise |
| Calculator.MaxOf | utils/calculator.py:13 | `max`: no record exceeds it and some record attains it |
| Calculator.MinOf | utils/calculator.py:14 | `min`: no record is below it and some record attains it |
| Calculator.SumAppend | utils/calculator.py:8-10 | the sum over two lists joined is the sum of their sums |
| Calculator.SumRemove | utils/calculator.py:8-10 | taking one record out of the list takes its value out of the sum |
| Calculator.MultisetRemove | utils/calculator.py:8-10 | taking one record out of the list takes one copy out of its multiset |
| Calculator.SumPermutation | utils/calculator.py:8-10 | a sum does not depend on the order of the records |
| Calculator.MaxPermutation | utils/calculator.py:13 | a maximum does not depend on the order of the records |
| Calculator.MinPermutation | utils/calculator.py:14 | a minimum does not depend on the order of the records |
| Calculator.MetricsOrderIndependent | utils/calculator.py:1-27 | the metrics depend only on which records there are, not on their order |
| Calculator.WaitingConservation | utils/calculator.py:8-10 | when each record's waiting is turnaround − burst, Σwaiting = Σturnaround − Σburst |
| Sample.SampleSorted | utils/csv_handler.py:113-117 | the sample batch is already in `(arrival_time, pid)` order |
| Sample.SampleFollowsFcfs | algorithms/fcfs.py:4-15 | the sample's FCFS timings follow the FCFS start rule |
| Sample.SampleFcfsTimeline | algorithms/fcfs.py:4-15 | the FCFS timeline of the sample has completions 6, 14, 21, 24 and 28 |
| Sample.SampleFcfs | algorithms/fcfs.py:1-17 | FCFS on the sample gives completions 6, 14, 21, 24 and 28 and waiting times 0, 5, 12, 18 and 19 |
| Sample.SjfSampleIteration | algorithms/sjf.py:9-32 | an iteration that picks `k` in the sample takes one sample state to the next |
| Sample.SampleSjf | algorithms/sjf.py:1-34 | SJF on the sample dispatches P1, P4, P5, P3, P2 with no idle iteration, finishing at time 28 |
| Sample.SampleSjfTimes | algorithms/sjf.py:25-28 | on the sample, SJF dispatches every record and completes P1 to P5 at 6, 28, 20, 9 and 13, with waiting times 0, 19, 11, 3 and 4 |
| Sample.SampleRecords | utils/calculator.py:8-14 | the records the metrics read for both sample runs |
| Sample.MetricsOfFive | utils/calculator.py:1-27 | five records with total burst 28, last completion 28 and first start 0 give utilisation 100 and throughput 5/28 |
| Sample.FcfsSampleTotals | utils/calculator.py:8-14 | the FCFS sample has Σwaiting 54, Σturnaround 82, Σburst 28, last completion 28 and first start 0 |
| Sample.SjfSampleTotals | utils/calculator.py:8-14 | the SJF sample's records in dispatch order have Σwaiting 37, Σturnaround 65, Σburst 28, last completion 28 and first start 0 |
| Sample.SampleFcfsMetrics | utils/calculator.py:1-27 | FCFS on the sample averages 10.8 waiting and 16.4 turnaround, with 100% utilisation, throughput 5/28 and total time 28 |
| Sample.SampleSjfMetrics | utils/calculator.py:1-27 | SJF on the sample, measured over its result in dispatch order, averages 7.4 waiting and 13.0 turnaround, with 100% utilisation, throughput 5/28 and total time 28 |
| Sample.Pids | algorithms/sjf.py:32 | the pids of a list of records, position by position |
| Sample.SamplePids | utils/csv_handler.py:113-117 | records with the sample's inputs carry the pids P1 to P5, in order |
| Sample.SortedSample | algorithms/sjf.py:2 | sorting the sample records leaves them in place, since they are already in `(arrival_time, pid)` order |
| Sample.FcfsSampleOutcome | main.py:54-55 | from what `FcfsScheduling` promises about the sample records: the returned list is P1 to P5 and its metrics are those of `SampleFcfsMetrics` |
| Sample.SjfSampleWritten | algorithms/sjf.py:24-28 | from what `SjfNonPreemptive` promises about the sample records: each record holds its SJF sample timing |
| Sample.SjfSampleDispatchOrder | algorithms/sjf.py:9-32 | from what `SjfNonPreemptive` promises about the sample records: the result holds the sorted records at positions 0, 3, 4, 2 and 1 |
| Sample.SjfResultRecords | utils/calculator.py:8-14 | the read-out of the SJF result is the sample's records in dispatch order |
| Sample.SjfSampleOutcome | main.py:73-74 | from what `SjfNonPreemptive` promises about the sample records: the result is P1, P4, P5, P3, P2 and its metrics are those of `SampleSjfMetrics` |
| Sample.FcfsSampleRun | main.py:52-55 | five fresh records with the sample's inputs, scheduled by `FcfsScheduling` and measured: the order is P1 to P5, average waiting 10.8, average turnaround 16.4, utilisation 100, throughput 5/28, total time 28 |
| Sample.SjfSampleRun | main.py:71-74 | five fresh records with the sample's inputs, scheduled in place by `SjfNonPreemptive` and measured over the result: the order is P1, P4, P5, P3, P2, average waiting 7.4, average turnaround 13.0, utilisation 100, throughput 5/28, total time 28 |

## Left out

- Python float arithmetic: the divisions in `calculate_metrics` are exact `real` divisions, so float rounding is not modelled.
- `calculate_metrics` reads the records' fields; the model takes their values as a list of `Record`s, which holds the same numbers.
- Deep copies: the caller copies the batch before each run (`main.py`, not part of this model). Instead, each scheduler requires its list to hold no record twice (`Distinct`).
- Sjf.SortInPlace: models Python's `list.sort` by its result, the stable sort `SortBy` written back into the array. It is not a step-by-step sort.
- Sjf.Iterate: requires some record to be pending. Python's `min` would raise on an empty generator, but the loop only runs while fewer records are dispatched than there are, so that never happens (`PendingExists`).
- Sjf.SelectShortest: `min_burst = float('inf')` is represented by testing `shortestIdx == -1`. The minimum burst is infinite exactly while no record has been chosen.
- `Process.__repr__`: a debugging string with no bearing on scheduling.
- Reading and writing CSV files, timestamps and console output (`utils/csv_handler.py`): this is I/O. Only the sample batch's values are used.
- Console tables and the Gantt chart (`ui/display.py`): user interface only.
- Menu orchestration and input prompts (`main.py`): user interaction.
- The stress test (`utils/stress_test.py`): it relies on a random generator and wall-clock timings.
