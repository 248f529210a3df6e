/** The sample batch the CSV helper writes (utils/csv_handler.py:113-117),
    run through both schedulers and the metrics reducer. */
module Sample {
  import opened Wrappers
  import opened Ordering
  import opened Processes
  import opened Fcfs
  import opened Sjf
  import opened Calculator

  /** P1 to P5 with their arrival and burst times. */
  function SampleJobs(): seq<Job>
  {
    [Job("P1", 0, 6), Job("P2", 1, 8), Job("P3", 2, 7), Job("P4", 3, 3), Job("P5", 5, 4)]
  }

  /** The sample is already in (arrival_time, pid) order. */
  lemma SampleSorted()
    ensures SortBy(SampleJobs(), JobKey) == SampleJobs()
  {
    var js := SampleJobs();
    assert StrLess("P4", "P5") && StrLess("P3", "P4") && StrLess("P2", "P3") && StrLess("P1", "P2");
    assert SortBy(js[4..], JobKey) == js[4..];
    assert SortBy(js[3..], JobKey) == js[3..];
    assert SortBy(js[2..], JobKey) == js[2..];
    assert SortBy(js[1..], JobKey) == js[1..];
  }

  function FcfsSampleTimes(): seq<Timing>
  {
    [Timing(0, 6, 6, 0),
     Timing(6, 14, 13, 5),
     Timing(14, 21, 19, 12),
     Timing(21, 24, 21, 18),
     Timing(24, 28, 23, 19)]
  }

  /** FCFS on the sample: completions 6, 14, 21, 24 and 28, total waiting 54. */
  lemma SampleFcfs()
    ensures FcfsSchedule(SampleJobs()) == FcfsSampleTimes()
  {
    SampleSorted();
    SampleFcfsTimeline();
  }

  /** The sample timings follow the FCFS rule, step by step. */
  lemma SampleFollowsFcfs()
    ensures FollowsFcfs(SampleJobs(), 0, FcfsSampleTimes())
  {
    forall k | 0 < k < 5
      ensures FcfsSampleTimes()[k]
              == Dispatch(SampleJobs()[k], Max(SampleJobs()[k].arrival, FcfsSampleTimes()[k - 1].completion))
    {
      if k == 1 {} else if k == 2 {} else if k == 3 {} else {}
    }
  }

  lemma SampleFcfsTimeline()
    ensures FcfsTimeline(SampleJobs(), 0) == FcfsSampleTimes()
  {
    SampleFollowsFcfs();
    FcfsTimelineUnique(SampleJobs(), 0, FcfsSampleTimes());
  }

  /** The SJF state after `m` iterations on the sample. */
  function SjfSampleState(m: nat): SjfState
    requires m <= 5
  {
    [SjfState(0, [false, false, false, false, false], [0, 0, 0, 0, 0], [], 0),
     SjfState(6, [true, false, false, false, false], [0, 0, 0, 0, 0], [0], 0),
     SjfState(9, [true, false, false, true, false], [0, 0, 0, 6, 0], [0, 3], 0),
     SjfState(13, [true, false, false, true, true], [0, 0, 0, 6, 9], [0, 3, 4], 0),
     SjfState(20, [true, false, true, true, true], [0, 0, 13, 6, 9], [0, 3, 4, 2], 0),
     SjfState(28, [true, true, true, true, true], [0, 20, 13, 6, 9], [0, 3, 4, 2, 1], 0)][m]
  }

  lemma SjfSampleSelect0()
    ensures Shortest(SampleJobs(), SjfSampleState(0).completed, SjfSampleState(0).time, 5) == 0
  {
    var s := SjfSampleState(0);
  }

  lemma SjfSampleSelect1()
    ensures Shortest(SampleJobs(), SjfSampleState(1).completed, SjfSampleState(1).time, 5) == 3
  {
    var s := SjfSampleState(1);
  }

  lemma SjfSampleSelect2()
    ensures Shortest(SampleJobs(), SjfSampleState(2).completed, SjfSampleState(2).time, 5) == 4
  {
    var s := SjfSampleState(2);
  }

  lemma SjfSampleSelect3()
    ensures Shortest(SampleJobs(), SjfSampleState(3).completed, SjfSampleState(3).time, 5) == 2
  {
    var s := SjfSampleState(3);
  }

  lemma SjfSampleSelect4()
    ensures Shortest(SampleJobs(), SjfSampleState(4).completed, SjfSampleState(4).time, 5) == 1
  {
    var s := SjfSampleState(4);
  }

  lemma SjfSampleUpdate0()
    ensures var s := SjfSampleState(0);
            SjfSampleState(1)
            == s.(time := s.time + SampleJobs()[0].burst, completed := s.completed[0 := true],
                  start := s.start[0 := s.time], order := s.order + [0])
  {
  }

  lemma SjfSampleUpdate1()
    ensures var s := SjfSampleState(1);
            SjfSampleState(2)
            == s.(time := s.time + SampleJobs()[3].burst, completed := s.completed[3 := true],
                  start := s.start[3 := s.time], order := s.order + [3])
  {
  }

  lemma SjfSampleUpdate2()
    ensures var s := SjfSampleState(2);
            SjfSampleState(3)
            == s.(time := s.time + SampleJobs()[4].burst, completed := s.completed[4 := true],
                  start := s.start[4 := s.time], order := s.order + [4])
  {
  }

  lemma SjfSampleUpdate3()
    ensures var s := SjfSampleState(3);
            SjfSampleState(4)
            == s.(time := s.time + SampleJobs()[2].burst, completed := s.completed[2 := true],
                  start := s.start[2 := s.time], order := s.order + [2])
  {
  }

  lemma SjfSampleUpdate4()
    ensures var s := SjfSampleState(4);
            SjfSampleState(5)
            == s.(time := s.time + SampleJobs()[1].burst, completed := s.completed[1 := true],
                  start := s.start[1 := s.time], order := s.order + [1])
  {
  }

  /** Iteration `m + 1` on the sample dispatches the job at `k`. */
  lemma SjfSampleIteration(m: nat, k: nat)
    requires m < 5 && k < 5 && SjfRun(SampleJobs(), m) == SjfSampleState(m)
    requires Shortest(SampleJobs(), SjfSampleState(m).completed, SjfSampleState(m).time, 5) == k
    requires var s := SjfSampleState(m);
             SjfSampleState(m + 1)
             == s.(time := s.time + SampleJobs()[k].burst, completed := s.completed[k := true],
                   start := s.start[k := s.time], order := s.order + [k])
    ensures SjfRun(SampleJobs(), m + 1) == SjfSampleState(m + 1)
  {
    DispatchStep(SampleJobs(), SjfSampleState(m), k);
  }

  lemma SjfSampleRun0()
    ensures SjfRun(SampleJobs(), 0) == SjfSampleState(0)
  {
    assert Initial(5) == SjfSampleState(0);
  }

  lemma SjfSampleRun1()
    ensures SjfRun(SampleJobs(), 1) == SjfSampleState(1)
  {
    SjfSampleRun0();
    SjfSampleSelect0();
    SjfSampleUpdate0();
    var m, k := 0, 0;
    SjfSampleIteration(m, k);
  }

  lemma SjfSampleRun2()
    ensures SjfRun(SampleJobs(), 2) == SjfSampleState(2)
  {
    SjfSampleRun1();
    SjfSampleSelect1();
    SjfSampleUpdate1();
    var m, k := 1, 3;
    SjfSampleIteration(m, k);
  }

  lemma SjfSampleRun3()
    ensures SjfRun(SampleJobs(), 3) == SjfSampleState(3)
  {
    SjfSampleRun2();
    SjfSampleSelect2();
    SjfSampleUpdate2();
    var m, k := 2, 4;
    SjfSampleIteration(m, k);
  }

  lemma SjfSampleRun4()
    ensures SjfRun(SampleJobs(), 4) == SjfSampleState(4)
  {
    SjfSampleRun3();
    SjfSampleSelect3();
    SjfSampleUpdate3();
    var m, k := 3, 2;
    SjfSampleIteration(m, k);
  }

  lemma SjfSampleRun5()
    ensures SjfRun(SampleJobs(), 5) == SjfSampleState(5)
  {
    SjfSampleRun4();
    SjfSampleSelect4();
    SjfSampleUpdate4();
    var m, k := 4, 1;
    SjfSampleIteration(m, k);
  }

  /** SJF on the sample: order P1, P4, P5, P3, P2, starting at 0, 20, 13, 6
      and 9, with no idle iteration and the clock at 28 at the end. */
  lemma SampleSjf()
    ensures SjfSchedule(SampleJobs()) == (SjfSampleState(5), SampleJobs())
  {
    SampleSorted();
    SjfSampleRun5();
  }

  function SjfSampleTimes(): seq<Timing>
  {
    [Timing(0, 6, 6, 0),
     Timing(20, 28, 27, 19),
     Timing(13, 20, 18, 11),
     Timing(6, 9, 6, 3),
     Timing(9, 13, 8, 4)]
  }

  /** The timings SJF writes into the sample records: each dispatched record
      is timed from its start. */
  lemma SampleSjfTimes()
    ensures var s := SjfSampleState(5);
            forall i :: 0 <= i < 5 ==> s.completed[i] && SjfSampleTimes()[i] == Dispatch(SampleJobs()[i], s.start[i])
  {
  }

  /** The records of the FCFS run of the sample. */
  function FcfsSampleRecords(): seq<Record>
  {
    [Record("P1", 0, 6, 0, 6, 6, 0),
     Record("P2", 1, 8, 6, 14, 13, 5),
     Record("P3", 2, 7, 14, 21, 19, 12),
     Record("P4", 3, 3, 21, 24, 21, 18),
     Record("P5", 5, 4, 24, 28, 23, 19)]
  }

  /** The records of the SJF run of the sample. */
  function SjfSampleRecords(): seq<Record>
  {
    [Record("P1", 0, 6, 0, 6, 6, 0),
     Record("P2", 1, 8, 20, 28, 27, 19),
     Record("P3", 2, 7, 13, 20, 18, 11),
     Record("P4", 3, 3, 6, 9, 6, 3),
     Record("P5", 5, 4, 9, 13, 8, 4)]
  }

  lemma SampleRecords()
    ensures Records(SampleJobs(), FcfsSampleTimes()) == FcfsSampleRecords()
    ensures Records(SampleJobs(), SjfSampleTimes()) == SjfSampleRecords()
  {
  }

  /** The metrics of a run of five jobs with 28 units of burst that keeps the
      CPU busy from 0 to 28, given its total waiting and turnaround times. */
  lemma MetricsOfFive(rs: seq<Record>, waiting: int, turnaround: int)
    requires |rs| == 5 && Sum(rs, Burst) == 28
    requires Sum(rs, Waiting) == waiting && Sum(rs, Turnaround) == turnaround
    requires MaxOf(rs, CompletionOf) == 28 && MinOf(rs, Start) == 0
    ensures CalculateMetrics(rs).Some?
    ensures var m := CalculateMetrics(rs).value;
            m.avgWaitingTime * 5.0 == waiting as real && m.avgTurnaroundTime * 5.0 == turnaround as real
            && m.cpuUtilization == 100.0 && m.throughput * 28.0 == 5.0 && m.totalExecutionTime == 28
  {
    var m := CalculateMetrics(rs).value;
    assert m.cpuUtilization * 28.0 == 2800.0;
  }

  lemma FcfsSampleTotals()
    ensures var rs := FcfsSampleRecords();
            Sum(rs, Waiting) == 54 && Sum(rs, Turnaround) == 82 && Sum(rs, Burst) == 28
            && MaxOf(rs, CompletionOf) == 28 && MinOf(rs, Start) == 0
  {
    FcfsSampleWaiting();
    FcfsSampleTurnaround();
    FcfsSampleBurst();
    FcfsSampleBounds();
  }

  lemma FcfsSampleWaiting()
    ensures Sum(FcfsSampleRecords(), Waiting) == 54
  {
  }

  lemma FcfsSampleTurnaround()
    ensures Sum(FcfsSampleRecords(), Turnaround) == 82
  {
  }

  lemma FcfsSampleBurst()
    ensures Sum(FcfsSampleRecords(), Burst) == 28
  {
  }

  lemma FcfsSampleBounds()
    ensures MaxOf(FcfsSampleRecords(), CompletionOf) == 28 && MinOf(FcfsSampleRecords(), Start) == 0
  {
  }

  /** The metrics of the FCFS run of the sample: average waiting 10.8, average
      turnaround 16.4, utilisation 100, throughput 5/28, last completion 28. */
  lemma SampleFcfsMetrics()
    ensures CalculateMetrics(Records(SampleJobs(), FcfsSchedule(SampleJobs())))
         == Some(Metrics(10.8, 16.4, 100.0, 5.0 / 28.0, 28))
  {
    SampleFcfs();
    SampleRecords();
    FcfsSampleTotals();
    MetricsOfFive(FcfsSampleRecords(), 54, 82);
  }

  /** The metrics of the SJF run of the sample: average waiting 7.4, average
      turnaround 13.0, utilisation 100, throughput 5/28, last completion 28. */
  lemma SampleSjfMetrics()
    ensures CalculateMetrics(SjfDispatchRecords()) == Some(Metrics(7.4, 13.0, 100.0, 5.0 / 28.0, 28))
  {
    SjfSampleTotals();
    MetricsOfFive(SjfDispatchRecords(), 37, 65);
  }

  /** The pids of a list of records, in list order. */
  function Pids(ps: seq<Process>): (ids: seq<string>)
    ensures |ids| == |ps| && forall i :: 0 <= i < |ps| ==> ids[i] == ps[i].pid
  {
    seq(|ps|, i requires 0 <= i < |ps| => ps[i].pid)
  }

  /** Records with the sample's inputs carry the sample's pids. */
  lemma SamplePids(ps: seq<Process>)
    requires JobsOf(ps) == SampleJobs()
    ensures Pids(ps) == ["P1", "P2", "P3", "P4", "P5"]
  {
    assert forall i :: 0 <= i < 5 ==> ps[i].pid == SampleJobs()[i].pid;
  }

  /** Records taken at positions 0, 3, 4, 2, 1 of the sample records carry
      the pids in that order. */
  lemma DispatchPids(sorted: seq<Process>, result: seq<Process>)
    requires |sorted| == |result| == 5 && Pids(sorted) == ["P1", "P2", "P3", "P4", "P5"]
    requires result[0] == sorted[0] && result[1] == sorted[3] && result[2] == sorted[4]
    requires result[3] == sorted[2] && result[4] == sorted[1]
    ensures Pids(result) == ["P1", "P4", "P5", "P3", "P2"]
  {
    assert forall i :: 0 <= i < 5 ==> Pids(sorted)[i] == sorted[i].pid;
  }

  /** The FCFS run of the sample, from the records `FcfsScheduling` leaves. */
  lemma FcfsSampleOutcome(processes: seq<Process>, sortedProcesses: seq<Process>)
    requires JobsOf(processes) == SampleJobs()
    requires sortedProcesses == SortBy(processes, KeyOf)
    requires TimesOf(sortedProcesses) == FcfsSchedule(JobsOf(processes))
    ensures Pids(sortedProcesses) == ["P1", "P2", "P3", "P4", "P5"]
    ensures CalculateMetrics(Snapshots(sortedProcesses)) == Some(Metrics(10.8, 16.4, 100.0, 5.0 / 28.0, 28))
  {
    SortedSample(processes, sortedProcesses);
    SamplePids(sortedProcesses);
    SampleFcfs();
    SampleRecords();
    FcfsSampleTotals();
    MetricsOfFive(FcfsSampleRecords(), 54, 82);
  }

  /** The SJF run of the sample, from the records and result `SjfNonPreemptive`
      leaves. The metrics are taken over the result, in dispatch order. */
  lemma SjfSampleOutcome(sorted: seq<Process>, before: seq<Timing>, result: seq<Process>)
    requires JobsOf(sorted) == SampleJobs() && |before| == 5
    requires var s := SjfRun(JobsOf(sorted), |sorted|);
             result == Pick(sorted, s.order)
             && TimesOf(sorted) == Written(JobsOf(sorted), s.completed, s.start, before)
    ensures Pids(result) == ["P1", "P4", "P5", "P3", "P2"]
    ensures CalculateMetrics(Snapshots(result)) == Some(Metrics(7.4, 13.0, 100.0, 5.0 / 28.0, 28))
  {
    SjfSampleWritten(sorted, before);
    SjfSampleDispatchOrder(sorted, result);
    SamplePids(sorted);
    DispatchPids(sorted, result);
    SjfResultRecords(sorted, result);
    SampleSjfMetrics();
  }

  /** On the sample, SJF writes the sample timings into every record. */
  lemma SjfSampleWritten(sorted: seq<Process>, before: seq<Timing>)
    requires JobsOf(sorted) == SampleJobs() && |before| == 5
    requires var s := SjfRun(JobsOf(sorted), |sorted|);
             TimesOf(sorted) == Written(JobsOf(sorted), s.completed, s.start, before)
    ensures Snapshots(sorted) == SjfSampleRecords()
  {
    var s := SjfRun(JobsOf(sorted), |sorted|);
    SjfSampleRunOf(JobsOf(sorted), |sorted|);
    WrittenSample(JobsOf(sorted), s.completed, s.start, before);
    SampleRecords();
  }

  /** The sample's SJF starts, written into the records, give the sample's
      SJF timings whatever the records held before. */
  lemma WrittenSample(jobs: seq<Job>, completed: seq<bool>, start: seq<int>, before: seq<Timing>)
    requires jobs == SampleJobs() && |before| == 5
    requires completed == [true, true, true, true, true] && start == [0, 20, 13, 6, 9]
    ensures Written(jobs, completed, start, before) == SjfSampleTimes()
  {
  }

  /** On the sample, SJF's result lists the records at positions 0, 3, 4, 2, 1. */
  lemma SjfSampleDispatchOrder(sorted: seq<Process>, result: seq<Process>)
    requires JobsOf(sorted) == SampleJobs()
    requires result == Pick(sorted, SjfRun(JobsOf(sorted), |sorted|).order)
    ensures |sorted| == |result| == 5
    ensures result[0] == sorted[0] && result[1] == sorted[3] && result[2] == sorted[4]
    ensures result[3] == sorted[2] && result[4] == sorted[1]
  {
    SjfSampleRunOf(JobsOf(sorted), |sorted|);
    PickFive(sorted, SjfRun(JobsOf(sorted), |sorted|).order, result);
  }

  /** Picking positions 0, 3, 4, 2, 1 out of five records. */
  lemma PickFive(sorted: seq<Process>, order: seq<nat>, result: seq<Process>)
    requires |sorted| == 5 && order == [0, 3, 4, 2, 1] && result == Pick(sorted, order)
    ensures |result| == 5
    ensures result[0] == sorted[0] && result[1] == sorted[3] && result[2] == sorted[4]
    ensures result[3] == sorted[2] && result[4] == sorted[1]
  {
  }

  /** The state after the sample's five SJF iterations, with the jobs and the
      count passed as variables. */
  lemma SjfSampleRunOf(jobs: seq<Job>, n: nat)
    requires jobs == SampleJobs() && n == 5
    ensures SjfRun(jobs, n).order == [0, 3, 4, 2, 1]
    ensures SjfRun(jobs, n).start == [0, 20, 13, 6, 9]
    ensures SjfRun(jobs, n).completed == [true, true, true, true, true]
  {
    SjfSampleRun5();
  }

  /** The records of the SJF run of the sample in dispatch order: P1, P4, P5,
      P3, P2. */
  function SjfDispatchRecords(): seq<Record>
  {
    [Record("P1", 0, 6, 0, 6, 6, 0),
     Record("P4", 3, 3, 6, 9, 6, 3),
     Record("P5", 5, 4, 9, 13, 8, 4),
     Record("P3", 2, 7, 13, 20, 18, 11),
     Record("P2", 1, 8, 20, 28, 27, 19)]
  }

  /** Read out in dispatch order, the sample's SJF records are the list above. */
  lemma SjfResultRecords(sorted: seq<Process>, result: seq<Process>)
    requires |sorted| == |result| == 5 && Snapshots(sorted) == SjfSampleRecords()
    requires result[0] == sorted[0] && result[1] == sorted[3] && result[2] == sorted[4]
    requires result[3] == sorted[2] && result[4] == sorted[1]
    ensures Snapshots(result) == SjfDispatchRecords()
  {
    var rs := Snapshots(sorted);
    assert rs[0] == sorted[0].Snapshot() && rs[1] == sorted[1].Snapshot() && rs[2] == sorted[2].Snapshot();
    assert rs[3] == sorted[3].Snapshot() && rs[4] == sorted[4].Snapshot();
  }

  /** Totals over the SJF records of the sample, in dispatch order. */
  lemma SjfSampleTotals()
    ensures var rs := SjfDispatchRecords();
            Sum(rs, Waiting) == 37 && Sum(rs, Turnaround) == 65 && Sum(rs, Burst) == 28
            && MaxOf(rs, CompletionOf) == 28 && MinOf(rs, Start) == 0
  {
    SjfSampleWaiting();
    SjfSampleTurnaround();
    SjfSampleBurst();
    SjfSampleBounds();
  }

  lemma SjfSampleWaiting()
    ensures Sum(SjfDispatchRecords(), Waiting) == 37
  {
  }

  lemma SjfSampleTurnaround()
    ensures Sum(SjfDispatchRecords(), Turnaround) == 65
  {
  }

  lemma SjfSampleBurst()
    ensures Sum(SjfDispatchRecords(), Burst) == 28
  {
  }

  lemma SjfSampleBounds()
    ensures MaxOf(SjfDispatchRecords(), CompletionOf) == 28 && MinOf(SjfDispatchRecords(), Start) == 0
  {
  }

  /** The sample batch as the program builds it, scheduled by FCFS and
      measured: the records come back in pid order with the metrics below. */
  method FcfsSampleRun() returns (order: seq<string>, metrics: Option<Metrics>)
    ensures order == ["P1", "P2", "P3", "P4", "P5"]
    ensures metrics == Some(Metrics(10.8, 16.4, 100.0, 5.0 / 28.0, 28))
  {
    var p1 := new Process("P1", 0, 6);
    var p2 := new Process("P2", 1, 8);
    var p3 := new Process("P3", 2, 7);
    var p4 := new Process("P4", 3, 3);
    var p5 := new Process("P5", 5, 4);
    var processes := [p1, p2, p3, p4, p5];
    assert JobsOf(processes) == SampleJobs();
    var sortedProcesses := FcfsScheduling(processes);
    FcfsSampleOutcome(processes, sortedProcesses);
    order := Pids(sortedProcesses);
    metrics := CalculateMetrics(Snapshots(sortedProcesses));
  }

  /** The sample batch as the program builds it, scheduled by SJF and
      measured over the result: P1, P4, P5, P3, P2, with the metrics below. */
  method SjfSampleRun() returns (order: seq<string>, metrics: Option<Metrics>)
    ensures order == ["P1", "P4", "P5", "P3", "P2"]
    ensures metrics == Some(Metrics(7.4, 13.0, 100.0, 5.0 / 28.0, 28))
  {
    var p1 := new Process("P1", 0, 6);
    var p2 := new Process("P2", 1, 8);
    var p3 := new Process("P3", 2, 7);
    var p4 := new Process("P4", 3, 3);
    var p5 := new Process("P5", 5, 4);
    var processes := new Process[5] [p1, p2, p3, p4, p5];
    ghost var unsorted := processes[..];
    assert JobsOf(unsorted) == SampleJobs();
    label before:
    var result := SjfNonPreemptive(processes);
    SortedSample(unsorted, processes[..]);
    SjfSampleOutcome(unsorted, old@before(TimesOf(unsorted)), result);
    order := Pids(result);
    metrics := CalculateMetrics(Snapshots(result));
  }

  /** Sorting the sample records gives records with the sample's inputs. */
  lemma SortedSample(unsorted: seq<Process>, sorted: seq<Process>)
    requires JobsOf(unsorted) == SampleJobs() && sorted == SortBy(unsorted, KeyOf)
    ensures sorted == unsorted
  {
    forall i, j | 0 <= i < j < |unsorted|
      ensures KeyLe(KeyOf(unsorted[i]), KeyOf(unsorted[j]))
    {
      assert unsorted[i].Input() == SampleJobs()[i] && unsorted[j].Input() == SampleJobs()[j];
    }
    SortBySorted(unsorted, KeyOf);
  }
}
