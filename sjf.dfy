/** Non-preemptive Shortest-Job-First scheduling (algorithms/sjf.py).

    The specification is a state machine over the sorted jobs: one `SjfStep`
    per iteration of the outer `for _ in range(n)` loop. An iteration either
    dispatches the arrived pending job with the smallest burst or, when no
    pending job has arrived, moves the clock to the earliest pending arrival
    and dispatches nothing; that idle iteration still counts as one of the
    `n`, so jobs can be left unscheduled. */
module Sjf {
  import opened Wrappers
  import opened Ordering
  import opened Processes

  /** The scheduler's variables after some iterations: `current_time`, the
      `completed` flags, the start time given to each dispatched job, the
      indices appended to `result` in order, and the number of idle iterations. */
  datatype SjfState = SjfState(time: int, completed: seq<bool>, start: seq<int>,
                               order: seq<nat>, idle: nat)

  function Initial(n: nat): SjfState
  {
    SjfState(0, seq(n, _ => false), seq(n, _ => 0), [], 0)
  }

  /** Job `i` is pending and has arrived by `time`. */
  predicate Candidate(jobs: seq<Job>, completed: seq<bool>, time: int, i: int)
    requires |completed| == |jobs|
  {
    0 <= i < |jobs| && !completed[i] && jobs[i].arrival <= time
  }

  /** Job `k` is preferred to job `i`: a strictly smaller burst, or the same
      burst and an earlier position in the sorted list. */
  predicate Prefer(jobs: seq<Job>, k: nat, i: nat)
    requires k < |jobs| && i < |jobs|
  {
    jobs[k].burst < jobs[i].burst || (jobs[k].burst == jobs[i].burst && k <= i)
  }

  /** The index the selection scan has chosen after looking at the first
      `upto` jobs (-1: none yet). It replaces its choice only on a strictly
      smaller burst. */
  function Shortest(jobs: seq<Job>, completed: seq<bool>, time: int, upto: nat): (k: int)
    requires |completed| == |jobs| && upto <= |jobs|
    ensures -1 <= k < upto
    ensures k == -1 <==> forall i :: 0 <= i < upto ==> !Candidate(jobs, completed, time, i)
    ensures k != -1 ==> Candidate(jobs, completed, time, k)
    ensures k != -1 ==> forall i :: 0 <= i < upto && Candidate(jobs, completed, time, i) ==> Prefer(jobs, k, i)
  {
    if upto == 0 then -1
    else
      var k := Shortest(jobs, completed, time, upto - 1);
      var i := upto - 1;
      if Candidate(jobs, completed, time, i) && (k == -1 || jobs[i].burst < jobs[k].burst) then i else k
  }

  /** `min(p.arrival_time for i, p in enumerate(processes) if not completed[i])`
      over the first `upto` jobs; None where Python's `min` would raise on an
      empty generator. */
  function EarliestPending(jobs: seq<Job>, completed: seq<bool>, upto: nat): (m: Option<int>)
    requires |completed| == |jobs| && upto <= |jobs|
    ensures m.None? <==> forall i :: 0 <= i < upto ==> completed[i]
    ensures m.Some? ==> exists i :: 0 <= i < upto && !completed[i] && jobs[i].arrival == m.value
    ensures m.Some? ==> forall i :: 0 <= i < upto && !completed[i] ==> m.value <= jobs[i].arrival
  {
    if upto == 0 then None
    else
      var m := EarliestPending(jobs, completed, upto - 1);
      var i := upto - 1;
      if !completed[i] && (m.None? || jobs[i].arrival < m.value) then Some(jobs[i].arrival) else m
  }

  /** The number of completed flags that are set. */
  function CountDone(c: seq<bool>): (k: nat)
    ensures k <= |c|
  {
    if c == [] then 0 else (if c[0] then 1 else 0) + CountDone(c[1..])
  }

  lemma {:induction false} CountDoneMark(c: seq<bool>, k: nat)
    requires k < |c| && !c[k]
    ensures CountDone(c[k := true]) == CountDone(c) + 1
  {
    if k == 0 {
      assert c[k := true][1..] == c[1..];
    } else {
      CountDoneMark(c[1..], k - 1);
      assert c[k := true][1..] == c[1..][k - 1 := true];
    }
  }

  /** All flags are set exactly when the count reaches the length. */
  lemma {:induction false} CountDoneFull(c: seq<bool>)
    ensures CountDone(c) == |c| <==> forall i :: 0 <= i < |c| ==> c[i]
  {
    if c != [] {
      CountDoneFull(c[1..]);
      assert forall i :: 0 < i < |c| ==> c[1..][i - 1] == c[i];
    }
  }

  lemma {:induction false} CountDoneNone(n: nat)
    ensures CountDone(seq(n, _ => false)) == 0
  {
    if n > 0 {
      CountDoneNone(n - 1);
      assert seq(n, _ => false)[1..] == seq(n - 1, _ => false);
    }
  }

  /** The bookkeeping the loop keeps: the flags mark exactly the dispatched
      jobs, each dispatched once. */
  ghost predicate Consistent(jobs: seq<Job>, s: SjfState)
  {
    |s.completed| == |jobs| && |s.start| == |jobs|
    && CountDone(s.completed) == |s.order|
    && Distinct(s.order)
    && (forall j :: 0 <= j < |s.order| ==> s.order[j] < |jobs| && s.completed[s.order[j]])
    && (forall i :: 0 <= i < |jobs| && s.completed[i] ==> i in s.order)
  }

  /** While fewer jobs are dispatched than there are, some job is pending, so
      the `min` of the idle branch never sees an empty generator. */
  lemma PendingExists(jobs: seq<Job>, s: SjfState)
    requires Consistent(jobs, s) && |s.order| < |jobs|
    ensures EarliestPending(jobs, s.completed, |jobs|).Some?
  {
    CountDoneFull(s.completed);
  }

  /** One iteration of the outer loop. */
  function SjfStep(jobs: seq<Job>, s: SjfState): (r: SjfState)
    requires Consistent(jobs, s) && |s.order| < |jobs|
    ensures Consistent(jobs, r)
    ensures |r.order| + r.idle == |s.order| + s.idle + 1
  {
    var k := Shortest(jobs, s.completed, s.time, |jobs|);
    if k == -1 then
      PendingExists(jobs, s);
      s.(time := EarliestPending(jobs, s.completed, |jobs|).value, idle := s.idle + 1)
    else
      CountDoneMark(s.completed, k);
      assert k !in s.order;
      s.(time := s.time + jobs[k].burst,
         completed := s.completed[k := true],
         start := s.start[k := s.time],
         order := s.order + [k])
  }

  /** The state after the first `m` iterations. */
  function SjfRun(jobs: seq<Job>, m: nat): (s: SjfState)
    requires m <= |jobs|
    ensures Consistent(jobs, s) && |s.order| + s.idle == m
  {
    if m == 0 then
      CountDoneNone(|jobs|);
      Initial(|jobs|)
    else
      SjfStep(jobs, SjfRun(jobs, m - 1))
  }

  /** What `sjf_non_preemptive` computes for a list of jobs: the jobs in
      (arrival_time, pid) order and the state after all `n` iterations. */
  function SjfSchedule(jobs: seq<Job>): (SjfState, seq<Job>)
  {
    var sorted := SortBy(jobs, JobKey);
    SortByCorrect(jobs, JobKey);
    assert |sorted| == |multiset(sorted)| == |jobs|;
    (SjfRun(sorted, |sorted|), sorted)
  }

  function Completion(jobs: seq<Job>, s: SjfState, i: nat): int
    requires i < |jobs| && |s.start| == |jobs|
  {
    s.start[i] + jobs[i].burst
  }

  /** The `j`-th dispatched job was, when chosen, preferred to every job that
      was still pending and had arrived by its start. */
  ghost predicate ShortestAt(jobs: seq<Job>, s: SjfState, j: nat)
    requires Consistent(jobs, s) && j < |s.order|
  {
    forall i :: 0 <= i < |jobs| && i !in s.order[..j] && jobs[i].arrival <= s.start[s.order[j]] ==>
      Prefer(jobs, s.order[j], i)
  }

  /** Every dispatched job started no earlier than it arrived. */
  ghost predicate ArrivalGuard(jobs: seq<Job>, s: SjfState)
    requires Consistent(jobs, s)
  {
    forall j :: 0 <= j < |s.order| ==> jobs[s.order[j]].arrival <= s.start[s.order[j]]
  }

  /** Every dispatched job started no earlier than the one before it completed,
      and the clock is no earlier than the completion of the last one. */
  ghost predicate NoOverlap(jobs: seq<Job>, s: SjfState)
    requires Consistent(jobs, s)
  {
    (forall j :: 0 < j < |s.order| ==> Completion(jobs, s, s.order[j - 1]) <= s.start[s.order[j]])
    && (|s.order| > 0 ==> Completion(jobs, s, s.order[|s.order| - 1]) <= s.time)
  }

  /** Every dispatched job was the preferred one when it was chosen. */
  ghost predicate ShortestFirst(jobs: seq<Job>, s: SjfState)
    requires Consistent(jobs, s)
  {
    forall j :: 0 <= j < |s.order| ==> ShortestAt(jobs, s, j)
  }

  /** The scheduling facts every iteration keeps. */
  ghost predicate Invariant(jobs: seq<Job>, s: SjfState)
    requires Consistent(jobs, s)
  {
    ArrivalGuard(jobs, s) && NoOverlap(jobs, s) && ShortestFirst(jobs, s)
  }

  /** An iteration that finds no arrived pending job moves the clock forward to
      the earliest pending arrival and dispatches nothing. */
  lemma SjfIdleIteration(jobs: seq<Job>, s: SjfState)
    requires Consistent(jobs, s) && |s.order| < |jobs|
    requires forall i :: 0 <= i < |jobs| ==> !Candidate(jobs, s.completed, s.time, i)
    ensures var r := SjfStep(jobs, s);
            r.order == s.order && r.completed == s.completed && r.start == s.start
            && r.idle == s.idle + 1 && r.time > s.time
            && (exists i :: 0 <= i < |jobs| && !s.completed[i] && jobs[i].arrival == r.time)
            && (forall i :: 0 <= i < |jobs| && !s.completed[i] ==> r.time <= jobs[i].arrival)
  {
    PendingExists(jobs, s);
    var m := EarliestPending(jobs, s.completed, |jobs|);
    var i :| 0 <= i < |jobs| && !s.completed[i] && jobs[i].arrival == m.value;
    assert !Candidate(jobs, s.completed, s.time, i);
  }

  /** An iteration that finds an arrived pending job dispatches the preferred
      one at the current time and moves the clock to its completion. */
  lemma SjfDispatchIteration(jobs: seq<Job>, s: SjfState, c: nat)
    requires Consistent(jobs, s) && |s.order| < |jobs|
    requires c < |jobs| && Candidate(jobs, s.completed, s.time, c)
    ensures var r := SjfStep(jobs, s);
            |r.order| == |s.order| + 1 && r.order[..|s.order|] == s.order && r.idle == s.idle
            && var k := r.order[|s.order|];
               Candidate(jobs, s.completed, s.time, k)
               && (forall i :: 0 <= i < |jobs| && Candidate(jobs, s.completed, s.time, i) ==> Prefer(jobs, k, i))
               && r.start[k] == s.time && r.time == s.time + jobs[k].burst
               && r.completed == s.completed[k := true]
  {
    var r := SjfStep(jobs, s);
    assert r.order[..|s.order|] == s.order;
  }

  lemma IdleInvariant(jobs: seq<Job>, s: SjfState)
    requires Consistent(jobs, s) && Invariant(jobs, s) && |s.order| < |jobs|
    requires Shortest(jobs, s.completed, s.time, |jobs|) == -1
    ensures Invariant(jobs, SjfStep(jobs, s))
  {
    var r := SjfStep(jobs, s);
    SjfIdleIteration(jobs, s);
    assert r.order == s.order && r.start == s.start && r.time > s.time;
    assert ArrivalGuard(jobs, r);
    assert NoOverlap(jobs, r);
    forall j | 0 <= j < |r.order| ensures ShortestAt(jobs, r, j) {
      assert ShortestAt(jobs, s, j);
    }
  }

  lemma DispatchArrivalGuard(jobs: seq<Job>, s: SjfState, k: nat)
    requires Consistent(jobs, s) && ArrivalGuard(jobs, s) && |s.order| < |jobs|
    requires k < |jobs| && k == Shortest(jobs, s.completed, s.time, |jobs|)
    ensures ArrivalGuard(jobs, SjfStep(jobs, s))
  {
    var r := SjfStep(jobs, s);
    DispatchStep(jobs, s, k);
    forall j | 0 <= j < |r.order| ensures jobs[r.order[j]].arrival <= r.start[r.order[j]] {
      if j < |s.order| {
        assert s.order[j] != k;
        assert jobs[s.order[j]].arrival <= s.start[s.order[j]];
      }
    }
  }

  lemma DispatchNoOverlap(jobs: seq<Job>, s: SjfState, k: nat)
    requires Consistent(jobs, s) && NoOverlap(jobs, s) && |s.order| < |jobs|
    requires k < |jobs| && k == Shortest(jobs, s.completed, s.time, |jobs|)
    ensures NoOverlap(jobs, SjfStep(jobs, s))
  {
    var r := SjfStep(jobs, s);
    var n := |s.order|;
    DispatchStep(jobs, s, k);
    forall j | 0 < j < |r.order| ensures Completion(jobs, r, r.order[j - 1]) <= r.start[r.order[j]] {
      assert s.order[j - 1] != k;
      if j < n {
        assert s.order[j] != k;
        assert Completion(jobs, s, s.order[j - 1]) <= s.start[s.order[j]];
      }
    }
  }

  lemma DispatchShortestFirst(jobs: seq<Job>, s: SjfState, k: nat)
    requires Consistent(jobs, s) && ShortestFirst(jobs, s) && |s.order| < |jobs|
    requires k < |jobs| && k == Shortest(jobs, s.completed, s.time, |jobs|)
    ensures ShortestFirst(jobs, SjfStep(jobs, s))
  {
    var r := SjfStep(jobs, s);
    var n := |s.order|;
    DispatchStep(jobs, s, k);
    forall j | 0 <= j < |r.order| ensures ShortestAt(jobs, r, j) {
      if j < n {
        assert r.order[..j] == s.order[..j];
        assert s.order[j] != k;
        assert ShortestAt(jobs, s, j);
      } else {
        assert r.order[..j] == s.order;
        forall i | 0 <= i < |jobs| && i !in r.order[..j] && jobs[i].arrival <= r.start[r.order[j]]
          ensures Prefer(jobs, r.order[j], i)
        {
          assert Candidate(jobs, s.completed, s.time, i);
        }
      }
    }
  }

  lemma StepInvariant(jobs: seq<Job>, s: SjfState)
    requires Consistent(jobs, s) && Invariant(jobs, s) && |s.order| < |jobs|
    ensures Invariant(jobs, SjfStep(jobs, s))
  {
    var k := Shortest(jobs, s.completed, s.time, |jobs|);
    if k == -1 {
      IdleInvariant(jobs, s);
    } else {
      DispatchArrivalGuard(jobs, s, k);
      DispatchNoOverlap(jobs, s, k);
      DispatchShortestFirst(jobs, s, k);
    }
  }

  lemma {:induction false} SjfRunInvariant(jobs: seq<Job>, m: nat)
    requires m <= |jobs|
    ensures Invariant(jobs, SjfRun(jobs, m))
  {
    if m > 0 {
      SjfRunInvariant(jobs, m - 1);
      StepInvariant(jobs, SjfRun(jobs, m - 1));
    }
  }

  /** After the `n` iterations, `result` lists distinct jobs, one per
      non-idle iteration, and it holds every job exactly when no iteration
      was idle. */
  lemma SjfResultShape(jobs: seq<Job>)
    ensures var s := SjfRun(jobs, |jobs|);
            Distinct(s.order) && (forall j :: 0 <= j < |s.order| ==> s.order[j] < |jobs|)
            && |s.order| == |jobs| - s.idle
            && ((forall i :: 0 <= i < |jobs| ==> i in s.order) <==> s.idle == 0)
  {
    var s := SjfRun(jobs, |jobs|);
    CountDoneFull(s.completed);
    if s.idle > 0 {
      var i :| 0 <= i < |jobs| && !s.completed[i];
      assert i !in s.order;
    }
  }

  /** The result lists no record twice. */
  lemma SjfResultDistinct(ps: seq<Process>)
    requires Distinct(ps)
    ensures var s := SjfRun(JobsOf(ps), |ps|);
            Distinct(Pick(ps, s.order))
  {
    var s := SjfRun(JobsOf(ps), |ps|);
    var r := Pick(ps, s.order);
    forall i, j | 0 <= i < j < |r| ensures r[i] != r[j] {
      assert s.order[i] != s.order[j];
    }
  }

  /** An iteration never takes back an idle count. */
  lemma {:induction false} SjfIdleGrows(jobs: seq<Job>, m: nat)
    requires m < |jobs|
    ensures SjfRun(jobs, m).idle <= SjfRun(jobs, m + 1).idle
  {
    var s := SjfRun(jobs, m);
    RunStep(jobs, m, s, SjfRun(jobs, m + 1));
    StepIdle(jobs, s);
  }

  /** The state after iteration `m + 1` is one `SjfStep` after the first `m`. */
  lemma RunStep(jobs: seq<Job>, m: nat, s: SjfState, r: SjfState)
    requires m < |jobs| && s == SjfRun(jobs, m) && r == SjfRun(jobs, m + 1)
    ensures Consistent(jobs, s) && |s.order| < |jobs| && r == SjfStep(jobs, s)
  {
  }

  /** One iteration either dispatches a job or adds one to the idle count. */
  lemma StepIdle(jobs: seq<Job>, s: SjfState)
    requires Consistent(jobs, s) && |s.order| < |jobs|
    ensures var r := SjfStep(jobs, s);
            (r.idle == s.idle && |r.order| == |s.order| + 1) || (r.idle == s.idle + 1 && r.order == s.order)
  {
  }

  /** Once an iteration has been idle, the idle count stays positive. */
  lemma {:induction false} SjfIdleStays(jobs: seq<Job>, m: nat)
    requires 1 <= m <= |jobs| && SjfRun(jobs, 1).idle > 0
    ensures SjfRun(jobs, m).idle > 0
  {
    if m > 1 {
      SjfIdleStays(jobs, m - 1);
      SjfIdleGrows(jobs, m - 1);
    }
  }

  /** When every job arrives after time 0, the first iteration is idle, so at
      least one job is never scheduled. */
  lemma SjfLateStartDropsJobs(jobs: seq<Job>)
    requires |jobs| > 0
    requires forall i :: 0 <= i < |jobs| ==> jobs[i].arrival > 0
    ensures |SjfRun(jobs, |jobs|).order| < |jobs|
  {
    var s := SjfRun(jobs, 0);
    assert s.time == 0;
    assert forall i :: 0 <= i < |jobs| ==> !Candidate(jobs, s.completed, s.time, i);
    SjfIdleIteration(jobs, s);
    SjfIdleStays(jobs, |jobs|);
    SjfResultShape(jobs);
  }

  /** Every dispatched job starts no earlier than it arrives, finishes its
      burst after its start, and starts no earlier than the previously
      dispatched job completes. */
  lemma SjfTimingRules(jobs: seq<Job>)
    ensures var s := SjfRun(jobs, |jobs|);
            (forall j :: 0 <= j < |s.order| ==> jobs[s.order[j]].arrival <= s.start[s.order[j]])
            && (forall j :: 0 < j < |s.order| ==>
                  s.start[s.order[j - 1]] + jobs[s.order[j - 1]].burst <= s.start[s.order[j]])
  {
    SjfRunInvariant(jobs, |jobs|);
  }

  /** The `j`-th dispatched job had, among the jobs still pending and arrived
      at its start, the smallest burst, and the earliest sorted position among
      those with that burst. */
  lemma SjfShortestJobFirst(jobs: seq<Job>, j: nat, i: nat)
    requires var s := SjfRun(jobs, |jobs|); j < |s.order| && i < |jobs|
    requires var s := SjfRun(jobs, |jobs|); i !in s.order[..j] && jobs[i].arrival <= s.start[s.order[j]]
    ensures var s := SjfRun(jobs, |jobs|);
            jobs[s.order[j]].burst < jobs[i].burst
            || (jobs[s.order[j]].burst == jobs[i].burst && s.order[j] <= i)
  {
    SjfRunInvariant(jobs, |jobs|);
    var s := SjfRun(jobs, |jobs|);
    assert ShortestFirst(jobs, s);
    assert ShortestAt(jobs, s, j);
  }

  /** With non-negative bursts the clock never goes back; an idle iteration
      moves it strictly forward. */
  lemma SjfClockMonotone(jobs: seq<Job>, m: nat)
    requires forall k :: 0 <= k < |jobs| ==> jobs[k].burst >= 0
    requires m < |jobs|
    ensures SjfRun(jobs, m).time <= SjfRun(jobs, m + 1).time
    ensures SjfRun(jobs, m + 1).idle > SjfRun(jobs, m).idle ==> SjfRun(jobs, m).time < SjfRun(jobs, m + 1).time
  {
    var s := SjfRun(jobs, m);
    if Shortest(jobs, s.completed, s.time, |jobs|) == -1 {
      SjfIdleIteration(jobs, s);
    }
  }

  /** A single job that arrives after time 0 is never scheduled: the only
      iteration is spent moving the clock to its arrival. */
  lemma SjfLateArrivalDropped(pid: string, arrival: int, burst: int)
    requires arrival > 0
    ensures SjfSchedule([Job(pid, arrival, burst)]).0.order == []
    ensures SjfSchedule([Job(pid, arrival, burst)]).0.time == arrival
  {
    var jobs := [Job(pid, arrival, burst)];
    assert SortBy(jobs, JobKey) == Insert(jobs[0], SortBy([], JobKey), JobKey) == jobs;
    var s := SjfRun(jobs, 0);
    assert s == Initial(1);
    assert !Candidate(jobs, s.completed, s.time, 0);
    assert Shortest(jobs, s.completed, s.time, 1) == -1;
    assert SjfRun(jobs, 1) == SjfStep(jobs, s);
  }

  /** Writes `SortBy(old(a[..]), KeyOf)` back into `a`: the effect of Python's
      in-place stable `list.sort` with that key. */
  method SortInPlace(a: array<Process>)
    modifies a
    ensures a[..] == SortBy(old(a[..]), KeyOf)
    ensures Distinct(old(a[..])) ==> Distinct(a[..])
    ensures forall p :: p in a[..] ==> p in old(a[..])
  {
    var sorted := SortBy(a[..], KeyOf);
    SortKeepsRecords(a[..], sorted);
    assert |sorted| == a.Length by {
      SortByCorrect(a[..], KeyOf);
      assert |sorted| == |multiset(sorted)|;
    }
    for i := 0 to a.Length
      invariant forall k :: 0 <= k < i ==> a[k] == sorted[k]
    {
      a[i] := sorted[i];
    }
    assert a[..] == sorted;
  }

  /** The records at the given positions, in that order. */
  function Pick(ps: seq<Process>, order: seq<nat>): (r: seq<Process>)
    requires forall j :: 0 <= j < |order| ==> order[j] < |ps|
    ensures |r| == |order| && forall j :: 0 <= j < |order| ==> r[j] == ps[order[j]]
  {
    seq(|order|, j requires 0 <= j < |order| => ps[order[j]])
  }

  /** Sorts the caller's list in place by (arrival_time, pid), then schedules
      it with `ScheduleSorted`. */
  method SjfNonPreemptive(processes: array<Process>) returns (result: seq<Process>)
    requires Distinct(processes[..])
    modifies processes, set p | p in processes[..]
    ensures processes[..] == SortBy(old(processes[..]), KeyOf)
    ensures var sorted := processes[..];
            var jobs := JobsOf(sorted);
            var s := SjfRun(jobs, |sorted|);
            result == Pick(sorted, s.order)
            && TimesOf(sorted) == Written(jobs, s.completed, s.start, old(TimesOf(sorted)))
    ensures SjfSchedule(JobsOf(old(processes[..])))
         == (SjfRun(JobsOf(processes[..]), processes.Length), JobsOf(processes[..]))
  {
    ghost var unsorted := processes[..];
    SortInPlace(processes);
    ghost var sorted := processes[..];
    assert SjfSchedule(JobsOf(unsorted)) == (SjfRun(JobsOf(sorted), processes.Length), JobsOf(sorted)) by {
      SjfScheduleOfRecords(unsorted);
    }
    assert TimesOf(sorted) == old(TimesOf(sorted));
    result := ScheduleSorted(processes[..]);
  }

  /** The schedule of the records' inputs is the run over the records in
      sorted order. */
  lemma SjfScheduleOfRecords(unsorted: seq<Process>)
    ensures var sorted := SortBy(unsorted, KeyOf);
            |sorted| == |unsorted|
            && SjfSchedule(JobsOf(unsorted)) == (SjfRun(JobsOf(sorted), |sorted|), JobsOf(sorted))
  {
    var sorted := SortBy(unsorted, KeyOf);
    SortByCorrect(unsorted, KeyOf);
    assert |sorted| == |multiset(sorted)| == |unsorted|;
    SortJobs(unsorted);
  }

  /** Sorting neither adds nor duplicates a record. */
  lemma SortKeepsRecords(unsorted: seq<Process>, sorted: seq<Process>)
    requires sorted == SortBy(unsorted, KeyOf)
    ensures Distinct(unsorted) ==> Distinct(sorted)
    ensures forall p :: p in sorted ==> p in unsorted
  {
    SortByCorrect(unsorted, KeyOf);
    if Distinct(unsorted) {
      SortByDistinct(unsorted, KeyOf);
    }
    forall p | p in sorted ensures p in unsorted {
      assert p in multiset(sorted);
    }
  }

  /** The derived fields once the jobs flagged in `completed` have been
      dispatched at the times in `start`: the timing of its dispatch for every
      dispatched record, the fields it had before the run for the others. */
  function Written(jobs: seq<Job>, completed: seq<bool>, start: seq<int>, before: seq<Timing>): (ts: seq<Timing>)
    requires |completed| == |jobs| && |start| == |jobs| && |before| == |jobs|
    ensures |ts| == |jobs|
  {
    seq(|jobs|, i requires 0 <= i < |jobs| =>
      if completed[i] then Dispatch(jobs[i], start[i]) else before[i])
  }

  /** Runs `n` iterations of shortest-job selection over the sorted list,
      writing the derived fields of each dispatched record and appending it to
      the result. An iteration that finds no arrived pending record moves the
      clock to the earliest pending arrival instead. Records never dispatched
      keep the derived fields they had. */
  method ScheduleSorted(processes: seq<Process>) returns (result: seq<Process>)
    requires Distinct(processes)
    modifies set p | p in processes
    ensures var jobs := JobsOf(processes);
            var s := SjfRun(jobs, |processes|);
            result == Pick(processes, s.order)
            && TimesOf(processes) == Written(jobs, s.completed, s.start, old(TimesOf(processes)))
  {
    ghost var jobs := JobsOf(processes);
    ghost var initial := TimesOf(processes);
    var n := |processes|;
    var completed := seq(n, _ => false);
    var currentTime := 0;
    result := [];
    ghost var s := SjfRun(jobs, 0);
    assert completed == s.completed;
    assert initial == Written(jobs, s.completed, s.start, initial);

    for iteration := 0 to n
      invariant s == SjfRun(jobs, iteration)
      invariant completed == s.completed && currentTime == s.time
      invariant result == Pick(processes, s.order)
      invariant TimesOf(processes) == Written(jobs, s.completed, s.start, initial)
    {
      PendingExists(jobs, s);
      ghost var before := TimesOf(processes);
      completed, currentTime, result := Iterate(processes, completed, currentTime, result);
      IterationStep(processes, s, initial, before, TimesOf(processes), completed, currentTime, result);
      s := SjfStep(jobs, s);
    }
  }

  /** What `Iterate` does to the list, the flags, the clock and the result is
      one `SjfStep` of the state the loop keeps. */
  lemma IterationStep(ps: seq<Process>, s: SjfState, initial: seq<Timing>, before: seq<Timing>, after: seq<Timing>,
                      completed: seq<bool>, time: int, result: seq<Process>)
    requires Consistent(JobsOf(ps), s) && |s.order| < |ps| && |initial| == |ps|
    requires before == Written(JobsOf(ps), s.completed, s.start, initial)
    requires var jobs := JobsOf(ps);
             var k := Shortest(jobs, s.completed, s.time, |jobs|);
             if k == -1 then
               completed == s.completed && result == Pick(ps, s.order)
               && EarliestPending(jobs, s.completed, |jobs|).Some?
               && time == EarliestPending(jobs, s.completed, |jobs|).value && after == before
             else
               completed == s.completed[k := true] && result == Pick(ps, s.order) + [ps[k]]
               && time == s.time + jobs[k].burst && after == before[k := Dispatch(jobs[k], s.time)]
    ensures var jobs := JobsOf(ps);
            var r := SjfStep(jobs, s);
            completed == r.completed && time == r.time && result == Pick(ps, r.order)
            && after == Written(jobs, r.completed, r.start, initial)
  {
    var jobs := JobsOf(ps);
    var k := Shortest(jobs, s.completed, s.time, |jobs|);
    if k == -1 {
      SjfIdleIteration(jobs, s);
    } else {
      DispatchStep(jobs, s, k);
      PickAppend(ps, s.order, k);
      WrittenStep(jobs, s, initial, k);
    }
  }

  /** One iteration of the outer loop: select the shortest arrived pending
      record; if there is none, move the clock to the earliest pending arrival
      and let the iteration go by; otherwise run that record from the current
      time, mark it completed and append it to the result. Some record is
      pending whenever the loop runs, so the `min` has something to take. */
  method Iterate(processes: seq<Process>, completed: seq<bool>, currentTime: int, result: seq<Process>)
    returns (completed': seq<bool>, currentTime': int, result': seq<Process>)
    requires Distinct(processes) && |completed| == |processes|
    requires EarliestPending(JobsOf(processes), completed, |processes|).Some?
    modifies set p | p in processes
    ensures var jobs := JobsOf(processes);
            var k := Shortest(jobs, completed, currentTime, |jobs|);
            if k == -1 then
              completed' == completed && result' == result
              && currentTime' == EarliestPending(jobs, completed, |jobs|).value
              && TimesOf(processes) == old(TimesOf(processes))
            else
              completed' == completed[k := true] && result' == result + [processes[k]]
              && currentTime' == currentTime + jobs[k].burst
              && TimesOf(processes) == old(TimesOf(processes))[k := Dispatch(jobs[k], currentTime)]
  {
    completed', currentTime', result' := completed, currentTime, result;
    var shortestIdx := SelectShortest(processes, completed, currentTime);
    if shortestIdx == -1 {
      currentTime' := EarliestPending(JobsOf(processes), completed, |processes|).value;
      return;
    }

    var process := processes[shortestIdx];
    RunAt(processes, shortestIdx, currentTime);

    currentTime' := process.completionTime;
    completed' := completed[shortestIdx := true];
    result' := result + [process];
  }

  /** `process.Run(at)` on the record at position `k` of a list without
      repetitions: that record gets the timing of a dispatch at `at`, and no
      other record changes. */
  method RunAt(processes: seq<Process>, k: nat, at: int)
    requires k < |processes| && Distinct(processes)
    modifies processes[k]
    ensures processes[k].Times() == Dispatch(processes[k].Input(), at)
    ensures TimesOf(processes) == old(TimesOf(processes))[k := Dispatch(processes[k].Input(), at)]
  {
    ghost var before := TimesOf(processes);
    processes[k].Run(at);
    forall i | 0 <= i < |processes| && i != k
      ensures processes[i].Times() == before[i]
    {
      assert processes[i] != processes[k];
    }
  }

  /** Dispatching job `k` changes the written fields of `k` alone. */
  lemma WrittenStep(jobs: seq<Job>, s: SjfState, before: seq<Timing>, k: nat)
    requires Consistent(jobs, s) && |s.order| < |jobs| && |before| == |jobs|
    requires k < |jobs| && k == Shortest(jobs, s.completed, s.time, |jobs|)
    ensures Written(jobs, SjfStep(jobs, s).completed, SjfStep(jobs, s).start, before)
         == Written(jobs, s.completed, s.start, before)[k := Dispatch(jobs[k], s.time)]
  {
    DispatchStep(jobs, s, k);
  }

  /** The selection scan of one iteration: the index of the pending record
      with arrival_time <= currentTime and the strictly smallest burst seen
      first, or -1 when no pending record has arrived. */
  method SelectShortest(processes: seq<Process>, completed: seq<bool>, currentTime: int)
    returns (shortestIdx: int)
    requires |completed| == |processes|
    ensures shortestIdx == Shortest(JobsOf(processes), completed, currentTime, |processes|)
  {
    ghost var jobs := JobsOf(processes);
    // minBurst stands for min_burst, which is infinity exactly while shortestIdx is -1
    var minBurst := 0;
    shortestIdx := -1;
    for i := 0 to |processes|
      invariant shortestIdx == Shortest(jobs, completed, currentTime, i)
      invariant shortestIdx != -1 ==> minBurst == jobs[shortestIdx].burst
    {
      var process := processes[i];
      if !completed[i] && process.arrivalTime <= currentTime && (shortestIdx == -1 || process.burstTime < minBurst) {
        minBurst := process.burstTime;
        shortestIdx := i;
      }
    }
  }

  lemma PickAppend(ps: seq<Process>, order: seq<nat>, k: nat)
    requires forall j :: 0 <= j < |order| ==> order[j] < |ps|
    requires k < |ps|
    ensures Pick(ps, order + [k]) == Pick(ps, order) + [ps[k]]
  {
  }

  /** The dispatching iteration, in the terms the loop of `SjfNonPreemptive` uses. */
  lemma DispatchStep(jobs: seq<Job>, s: SjfState, k: nat)
    requires Consistent(jobs, s) && |s.order| < |jobs|
    requires k < |jobs| && k == Shortest(jobs, s.completed, s.time, |jobs|)
    ensures var r := SjfStep(jobs, s);
            r.order == s.order + [k] && r.completed == s.completed[k := true]
            && r.start == s.start[k := s.time] && r.time == s.time + jobs[k].burst
            && !s.completed[k]
  {
  }
}
