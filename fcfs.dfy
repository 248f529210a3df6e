/** First-Come-First-Served scheduling (algorithms/fcfs.py). */
module Fcfs {
  import opened Ordering
  import opened Processes

  function Max(a: int, b: int): int
  {
    if a < b then b else a
  }

  /** The timings FCFS gives `jobs` when it runs them in this order with the
      clock at `clock`: each job starts at the later of its arrival and the
      completion of the job before it (the clock, for the first one). */
  function FcfsTimeline(jobs: seq<Job>, clock: int): (r: seq<Timing>)
    ensures |r| == |jobs|
    ensures |jobs| > 0 ==> r[0] == Dispatch(jobs[0], Max(jobs[0].arrival, clock))
    ensures forall k :: 0 < k < |jobs| ==>
              r[k] == Dispatch(jobs[k], Max(jobs[k].arrival, r[k - 1].completion))
  {
    if jobs == [] then []
    else
      var start := if clock < jobs[0].arrival then jobs[0].arrival else clock;
      var t := Dispatch(jobs[0], start);
      [t] + FcfsTimeline(jobs[1..], t.completion)
  }

  /** The schedule `fcfs_scheduling` gives a list of jobs: the jobs in
      (arrival_time, pid) order, timed from clock 0. */
  function FcfsSchedule(jobs: seq<Job>): seq<Timing>
  {
    FcfsTimeline(SortBy(jobs, JobKey), 0)
  }

  /** Runs `processes` in (arrival_time, pid) order, jumping the clock over idle
      gaps, and writes the four derived fields of each record. The caller's list
      is a value and stays as it was; the returned list is a new one. */
  method FcfsScheduling(processes: seq<Process>) returns (sortedProcesses: seq<Process>)
    requires Distinct(processes)
    modifies set p | p in processes
    ensures sortedProcesses == SortBy(processes, KeyOf)
    ensures forall i :: 0 <= i < |sortedProcesses| ==>
              sortedProcesses[i].Times() == FcfsTimeline(JobsOf(sortedProcesses), 0)[i]
    ensures TimesOf(sortedProcesses) == FcfsSchedule(JobsOf(processes))
  {
    sortedProcesses := SortBy(processes, KeyOf);
    FcfsScheduleOfRecords(processes);
    assert Distinct(sortedProcesses) && forall p :: p in sortedProcesses ==> p in processes by {
      SortByCorrect(processes, KeyOf);
      SortByDistinct(processes, KeyOf);
      forall p | p in sortedProcesses ensures p in processes {
        assert p in multiset(sortedProcesses);
      }
    }
    RunInOrder(sortedProcesses);
  }

  /** The schedule of the records' inputs is the timeline of the records in
      sorted order. */
  lemma FcfsScheduleOfRecords(processes: seq<Process>)
    ensures FcfsSchedule(JobsOf(processes)) == FcfsTimeline(JobsOf(SortBy(processes, KeyOf)), 0)
  {
    SortJobs(processes);
  }

  /** The loop of `fcfs_scheduling` over the sorted list: each record starts at
      the later of its arrival and the clock, and the clock moves to its
      completion. */
  method RunInOrder(sortedProcesses: seq<Process>)
    requires Distinct(sortedProcesses)
    modifies set p | p in sortedProcesses
    ensures forall i :: 0 <= i < |sortedProcesses| ==>
              sortedProcesses[i].Times() == FcfsTimeline(JobsOf(sortedProcesses), 0)[i]
  {
    ghost var jobs := JobsOf(sortedProcesses);
    ghost var timeline := FcfsTimeline(jobs, 0);

    var currentTime := 0;
    for i := 0 to |sortedProcesses|
      invariant forall k :: 0 <= k < i ==> sortedProcesses[k].Times() == timeline[k]
      invariant FcfsTimeline(jobs[i..], currentTime) == timeline[i..]
    {
      var process := sortedProcesses[i];
      TimelineStep(jobs, timeline, i, currentTime);
      if currentTime < process.arrivalTime {
        currentTime := process.arrivalTime;
      }
      process.Run(currentTime);
      currentTime := process.completionTime;
    }
  }

  /** One step of the loop in `FcfsScheduling`: the record at position `i`
      gets the timing the schedule gives it, and the clock moves to its completion. */
  lemma TimelineStep(jobs: seq<Job>, timeline: seq<Timing>, i: nat, clock: int)
    requires i < |jobs| && |timeline| == |jobs|
    requires FcfsTimeline(jobs[i..], clock) == timeline[i..]
    ensures var t := Dispatch(jobs[i], Max(jobs[i].arrival, clock));
            timeline[i] == t && FcfsTimeline(jobs[i + 1..], t.completion) == timeline[i + 1..]
  {
    assert jobs[i..][1..] == jobs[i + 1..];
    assert timeline[i..][1..] == timeline[i + 1..];
  }

  /** `ts` times `jobs`, run in this order from `clock`, by the FCFS rule: the
      first job starts at the later of its arrival and the clock, each later
      one at the later of its arrival and the completion before it. */
  predicate FollowsFcfs(jobs: seq<Job>, clock: int, ts: seq<Timing>)
  {
    |ts| == |jobs|
    && (|jobs| > 0 ==> ts[0] == Dispatch(jobs[0], Max(jobs[0].arrival, clock)))
    && forall k :: 0 < k < |jobs| ==> ts[k] == Dispatch(jobs[k], Max(jobs[k].arrival, ts[k - 1].completion))
  }

  /** The timeline is the only timing that follows the FCFS rule. */
  lemma {:induction false} FcfsTimelineUnique(jobs: seq<Job>, clock: int, ts: seq<Timing>)
    requires FollowsFcfs(jobs, clock, ts)
    ensures FcfsTimeline(jobs, clock) == ts
  {
    if jobs != [] {
      assert forall k :: 0 < k < |jobs| - 1 ==> jobs[1..][k] == jobs[k + 1] && ts[1..][k] == ts[k + 1];
      FcfsTimelineUnique(jobs[1..], ts[0].completion, ts[1..]);
      assert ts == [ts[0]] + ts[1..];
    }
  }

  /** The FCFS rules in one place: each job waits a non-negative time, starts
      no earlier than it arrives nor than the job before it completes, and the
      run of an empty list is empty. */
  lemma FcfsStartRule(jobs: seq<Job>, clock: int, k: nat)
    requires k < |jobs|
    ensures var r := FcfsTimeline(jobs, clock);
            r[k].start >= jobs[k].arrival && r[k].waiting >= 0
            && (k > 0 ==> r[k].start >= r[k - 1].completion)
            && r[k].completion == r[k].start + jobs[k].burst
            && r[k].waiting == r[k].turnaround - jobs[k].burst
  {
    var r := FcfsTimeline(jobs, clock);
    if k == 0 {
      assert r[0] == Dispatch(jobs[0], Max(jobs[0].arrival, clock));
    } else {
      assert r[k] == Dispatch(jobs[k], Max(jobs[k].arrival, r[k - 1].completion));
    }
  }

  /** With non-negative bursts the runs follow each other without overlap:
      starts and completions never decrease along the schedule. */
  lemma {:induction false} FcfsMonotone(jobs: seq<Job>, clock: int, i: nat, j: nat)
    requires forall k :: 0 <= k < |jobs| ==> jobs[k].burst >= 0
    requires i <= j < |jobs|
    ensures var r := FcfsTimeline(jobs, clock);
            r[i].start <= r[j].start && r[i].completion <= r[j].completion
            && (i < j ==> r[i].completion <= r[j].start)
  {
    var r := FcfsTimeline(jobs, clock);
    if i < j {
      FcfsMonotone(jobs, clock, i, j - 1);
      assert r[j] == Dispatch(jobs[j], Max(jobs[j].arrival, r[j - 1].completion));
      FcfsStartRule(jobs, clock, j - 1);
    }
  }

  /** The CPU is busy for at least the total burst between the first start and
      the last completion. */
  lemma {:induction false} FcfsBusySpan(jobs: seq<Job>, clock: int)
    requires forall k :: 0 <= k < |jobs| ==> jobs[k].burst >= 0
    requires |jobs| > 0
    ensures var r := FcfsTimeline(jobs, clock);
            r[|jobs| - 1].completion - r[0].start >= TotalBurst(jobs)
  {
    var r := FcfsTimeline(jobs, clock);
    if |jobs| > 1 {
      var rest := FcfsTimeline(jobs[1..], r[0].completion);
      assert r[1..] == rest;
      FcfsBusySpan(jobs[1..], r[0].completion);
      assert rest[0].start >= r[0].completion;
    }
  }

  function TotalBurst(jobs: seq<Job>): int
  {
    if jobs == [] then 0 else jobs[0].burst + TotalBurst(jobs[1..])
  }

  /** FCFS on an empty list returns an empty list. */
  lemma FcfsEmpty()
    ensures FcfsSchedule([]) == []
  {
  }
}
