/** The process record that flows through both schedulers and the metrics
    calculator (models/process.py). */
module Processes {
  import opened Wrappers
  import opened Ordering

  /** The three fields a record is created with. */
  datatype Job = Job(pid: string, arrival: int, burst: int)

  /** The four fields a scheduling run fills in. */
  datatype Timing = Timing(start: int, completion: int, turnaround: int, waiting: int)

  /** A read-out of all seven fields of a record at one moment. */
  datatype Record = Record(pid: string, arrival: int, burst: int,
                           start: int, completion: int, turnaround: int, waiting: int)

  /** A value of the dictionary `to_dict` returns: the pid or a time. */
  datatype Field = Text(text: string) | Number(number: int)

  /** The keys of the dictionary `to_dict` returns. */
  const DictKeys: set<string> :=
    {"PID", "ArrivalTime", "BurstTime", "StartTime", "CompletionTime", "TurnaroundTime", "WaitingTime"}

  /** The timing both schedulers write into a record they dispatch at time
      `at`: completion is start plus burst, turnaround is completion minus
      arrival, and waiting is turnaround minus burst. */
  function Dispatch(j: Job, at: int): (t: Timing)
    ensures t.start == at && t.completion == at + j.burst
    ensures t.turnaround == t.completion - j.arrival
    ensures t.waiting == at - j.arrival && t.waiting == t.turnaround - j.burst
  {
    var completion := at + j.burst;
    var turnaround := completion - j.arrival;
    Timing(at, completion, turnaround, turnaround - j.burst)
  }

  function RecordOf(j: Job, t: Timing): Record
  {
    Record(j.pid, j.arrival, j.burst, t.start, t.completion, t.turnaround, t.waiting)
  }

  /** A process. The pid, arrival time and burst time never change after
      construction; the schedulers overwrite the four derived fields. */
  class Process {
    const pid: string
    const arrivalTime: int
    const burstTime: int
    var startTime: int
    var completionTime: int
    var turnaroundTime: int
    var waitingTime: int

    /** A fresh record holds the given inputs and zero in every derived field. */
    constructor (pid: string, arrivalTime: int, burstTime: int)
      ensures this.pid == pid && this.arrivalTime == arrivalTime && this.burstTime == burstTime
      ensures Times() == Timing(0, 0, 0, 0)
    {
      this.pid := pid;
      this.arrivalTime := arrivalTime;
      this.burstTime := burstTime;
      startTime := 0;
      completionTime := 0;
      turnaroundTime := 0;
      waitingTime := 0;
    }

    /** Fills in the derived fields for a run that starts at `at`, as both
        schedulers do: completion, then turnaround from completion, then
        waiting from turnaround. */
    method Run(at: int)
      modifies this
      ensures Times() == Dispatch(Input(), at)
    {
      startTime := at;
      completionTime := at + burstTime;
      turnaroundTime := completionTime - arrivalTime;
      waitingTime := turnaroundTime - burstTime;
    }

    function Input(): Job
    {
      Job(pid, arrivalTime, burstTime)
    }

    function Times(): Timing
      reads this
    {
      Timing(startTime, completionTime, turnaroundTime, waitingTime)
    }

    function Snapshot(): Record
      reads this
    {
      RecordOf(Input(), Times())
    }

    /** The seven-key dictionary read-out of the record; it only reads. */
    function ToDict(): (d: map<string, Field>)
      reads this
      ensures d.Keys == DictKeys
      ensures d["PID"] == Text(pid)
      ensures d["ArrivalTime"] == Number(arrivalTime) && d["BurstTime"] == Number(burstTime)
      ensures d["StartTime"] == Number(startTime) && d["CompletionTime"] == Number(completionTime)
      ensures d["TurnaroundTime"] == Number(turnaroundTime) && d["WaitingTime"] == Number(waitingTime)
    {
      map["PID" := Text(pid),
          "ArrivalTime" := Number(arrivalTime),
          "BurstTime" := Number(burstTime),
          "StartTime" := Number(startTime),
          "CompletionTime" := Number(completionTime),
          "TurnaroundTime" := Number(turnaroundTime),
          "WaitingTime" := Number(waitingTime)]
    }
  }

  /** The sort key `(p.arrival_time, p.pid)`. */
  function KeyOf(p: Process): Key
  {
    Key(p.arrivalTime, p.pid)
  }

  /** The same key, read from a job. */
  function JobKey(j: Job): Key
  {
    Key(j.arrival, j.pid)
  }

  function JobsOf(ps: seq<Process>): (js: seq<Job>)
    ensures |js| == |ps|
    ensures forall i :: 0 <= i < |ps| ==> js[i] == ps[i].Input()
  {
    seq(|ps|, i requires 0 <= i < |ps| => ps[i].Input())
  }

  /** Sorting records by `(arrival_time, pid)` and reading their inputs gives
      the inputs sorted by the same key. */
  lemma {:induction false} SortJobs(ps: seq<Process>)
    ensures JobsOf(SortBy(ps, KeyOf)) == SortBy(JobsOf(ps), JobKey)
  {
    if ps != [] {
      SortJobs(ps[1..]);
      InsertJobs(ps[0], SortBy(ps[1..], KeyOf));
      assert JobsOf(ps)[1..] == JobsOf(ps[1..]);
    }
  }

  lemma {:induction false} InsertJobs(p: Process, s: seq<Process>)
    ensures JobsOf(Insert(p, s, KeyOf)) == Insert(p.Input(), JobsOf(s), JobKey)
  {
    if s != [] && !KeyLe(KeyOf(p), KeyOf(s[0])) {
      InsertJobs(p, s[1..]);
      assert JobsOf(s)[1..] == JobsOf(s[1..]);
      assert JobsOf([s[0]] + Insert(p, s[1..], KeyOf)) == [s[0].Input()] + JobsOf(Insert(p, s[1..], KeyOf));
    } else if s != [] {
      assert JobsOf([p] + s) == [p.Input()] + JobsOf(s);
    }
  }

  /** The records of a run: each job with the timing it was given. */
  function Records(jobs: seq<Job>, ts: seq<Timing>): (rs: seq<Record>)
    requires |ts| == |jobs|
    ensures |rs| == |jobs|
    ensures forall i :: 0 <= i < |jobs| ==> rs[i] == RecordOf(jobs[i], ts[i])
  {
    seq(|jobs|, i requires 0 <= i < |jobs| => RecordOf(jobs[i], ts[i]))
  }

  /** The read-out of every record in a list, in list order: what the metrics
      reducer sees of it. */
  function Snapshots(ps: seq<Process>): (rs: seq<Record>)
    reads ps
    ensures rs == Records(JobsOf(ps), TimesOf(ps))
  {
    if ps == [] then [] else [ps[0].Snapshot()] + Snapshots(ps[1..])
  }

  /** The four derived fields of each record, in list order. */
  function TimesOf(ps: seq<Process>): (ts: seq<Timing>)
    reads ps
    ensures |ts| == |ps|
    ensures forall i :: 0 <= i < |ps| ==> ts[i] == ps[i].Times()
  {
    if ps == [] then [] else [ps[0].Times()] + TimesOf(ps[1..])
  }

  /** Reads a record back from a dictionary shaped like the one `to_dict`
      returns; any other dictionary gives None. */
  function FromDict(d: map<string, Field>): (r: Option<Record>)
    ensures r.Some? ==> d.Keys == DictKeys
  {
    if d.Keys == DictKeys
       && d["PID"].Text? && d["ArrivalTime"].Number? && d["BurstTime"].Number?
       && d["StartTime"].Number? && d["CompletionTime"].Number?
       && d["TurnaroundTime"].Number? && d["WaitingTime"].Number?
    then Some(Record(d["PID"].text, d["ArrivalTime"].number, d["BurstTime"].number,
                     d["StartTime"].number, d["CompletionTime"].number,
                     d["TurnaroundTime"].number, d["WaitingTime"].number))
    else None
  }

  /** `to_dict` loses nothing: the record can be read back from it. */
  lemma ToDictRoundTrip(p: Process)
    ensures FromDict(p.ToDict()) == Some(p.Snapshot())
  {
  }
}
