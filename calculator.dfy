/** The metrics reducer (utils/calculator.py): sums, a maximum and a minimum
    over the records of one scheduling run, and the averages, CPU utilisation
    and throughput derived from them. The divisions are exact, over `real`. */
module Calculator {
  import opened Wrappers
  import opened Processes

  /** The five entries of the dictionary `calculate_metrics` returns. */
  datatype Metrics = Metrics(avgWaitingTime: real, avgTurnaroundTime: real,
                             cpuUtilization: real, throughput: real,
                             totalExecutionTime: int)

  function Waiting(r: Record): int { r.waiting }
  function Turnaround(r: Record): int { r.turnaround }
  function Burst(r: Record): int { r.burst }
  function Start(r: Record): int { r.start }
  function CompletionOf(r: Record): int { r.completion }

  /** `sum(f(p) for p in rs)`. */
  function Sum(rs: seq<Record>, f: Record -> int): int
  {
    if rs == [] then 0 else f(rs[0]) + Sum(rs[1..], f)
  }

  /** `max(f(p) for p in rs)`: a value some record has and none exceeds. */
  function MaxOf(rs: seq<Record>, f: Record -> int): (m: int)
    requires |rs| > 0
    ensures forall i :: 0 <= i < |rs| ==> f(rs[i]) <= m
    ensures exists i :: 0 <= i < |rs| && f(rs[i]) == m
  {
    if |rs| == 1 then f(rs[0])
    else
      var rest := MaxOf(rs[1..], f);
      assert forall i :: 1 <= i < |rs| ==> rs[i] == rs[1..][i - 1];
      if f(rs[0]) < rest then rest else f(rs[0])
  }

  /** `min(f(p) for p in rs)`: a value some record has and none goes below. */
  function MinOf(rs: seq<Record>, f: Record -> int): (m: int)
    requires |rs| > 0
    ensures forall i :: 0 <= i < |rs| ==> m <= f(rs[i])
    ensures exists i :: 0 <= i < |rs| && f(rs[i]) == m
  {
    if |rs| == 1 then f(rs[0])
    else
      var rest := MinOf(rs[1..], f);
      assert forall i :: 1 <= i < |rs| ==> rs[i] == rs[1..][i - 1];
      if rest < f(rs[0]) then rest else f(rs[0])
  }

  /** `q` is `a / b`, stated without the division: `q` times `b` is `a`. */
  predicate Quotient(q: real, a: real, b: real)
  {
    q * b == a
  }

  /** `total / n`: the average that, taken `n` times, gives the total. */
  function Average(total: int, n: int): (a: real)
    requires n > 0
    ensures Quotient(a, total as real, n as real)
  {
    total as real / n as real
  }

  /** `(total_burst / total_time * 100) if total_time > 0 else 0`: the share
      of the span the CPU was busy, as a percentage. */
  function Utilisation(totalBurst: int, totalTime: int): (u: real)
    ensures totalTime > 0 ==> Quotient(u, 100.0 * (totalBurst as real), totalTime as real)
    ensures totalTime <= 0 ==> u == 0.0
  {
    if totalTime > 0 then totalBurst as real / totalTime as real * 100.0 else 0.0
  }

  /** `n / total_time if total_time > 0 else 0`: records finished per time unit. */
  function Throughput(n: int, totalTime: int): (t: real)
    ensures totalTime > 0 ==> Quotient(t, n as real, totalTime as real)
    ensures totalTime <= 0 ==> t == 0.0
  {
    if totalTime > 0 then n as real / totalTime as real else 0.0
  }

  /** `calculate_metrics`: nothing (the empty dictionary) for an empty list;
      otherwise the average waiting and turnaround times, the utilisation and
      throughput over the span from the first start to the last completion
      (both 0 when that span is not positive), and the last completion. */
  function CalculateMetrics(rs: seq<Record>): (m: Option<Metrics>)
    ensures m.None? <==> rs == []
    ensures m.Some? ==>
              Quotient(m.value.avgWaitingTime, Sum(rs, Waiting) as real, |rs| as real)
              && Quotient(m.value.avgTurnaroundTime, Sum(rs, Turnaround) as real, |rs| as real)
    ensures m.Some? ==>
              (forall i :: 0 <= i < |rs| ==> rs[i].completion <= m.value.totalExecutionTime)
              && (exists i :: 0 <= i < |rs| && rs[i].completion == m.value.totalExecutionTime)
    ensures m.Some? ==>
              var span := m.value.totalExecutionTime - MinOf(rs, Start);
              if span > 0 then
                Quotient(m.value.cpuUtilization, 100.0 * (Sum(rs, Burst) as real), span as real)
                && Quotient(m.value.throughput, |rs| as real, span as real)
              else
                m.value.cpuUtilization == 0.0 && m.value.throughput == 0.0
  {
    var n := |rs|;
    if n == 0 then None
    else
      var totalWaiting := Sum(rs, Waiting);
      var totalTurnaround := Sum(rs, Turnaround);
      var totalBurst := Sum(rs, Burst);
      var completionTime := MaxOf(rs, CompletionOf);
      var firstStart := MinOf(rs, Start);
      var totalTime := completionTime - firstStart;
      Some(Metrics(Average(totalWaiting, n), Average(totalTurnaround, n),
                   Utilisation(totalBurst, totalTime), Throughput(n, totalTime), completionTime))
  }

  lemma {:induction false} SumAppend(rs: seq<Record>, ts: seq<Record>, f: Record -> int)
    ensures Sum(rs + ts, f) == Sum(rs, f) + Sum(ts, f)
  {
    if rs == [] {
      assert rs + ts == ts;
    } else {
      SumAppend(rs[1..], ts, f);
      assert (rs + ts)[1..] == rs[1..] + ts;
    }
  }

  /** Taking the record at `j` out of the list takes its value out of the sum. */
  lemma SumRemove(ts: seq<Record>, j: nat, f: Record -> int)
    requires j < |ts|
    ensures Sum(ts, f) == f(ts[j]) + Sum(ts[..j] + ts[j + 1..], f)
  {
    assert ts == ts[..j] + ([ts[j]] + ts[j + 1..]);
    SumAppend(ts[..j], [ts[j]] + ts[j + 1..], f);
    SumAppend(ts[..j], ts[j + 1..], f);
    assert ([ts[j]] + ts[j + 1..])[1..] == ts[j + 1..];
  }

  lemma MultisetRemove(ts: seq<Record>, j: nat)
    requires j < |ts|
    ensures multiset(ts[..j] + ts[j + 1..]) == multiset(ts) - multiset{ts[j]}
  {
    assert ts == ts[..j] + [ts[j]] + ts[j + 1..];
  }

  /** A sum does not depend on the order of the records. */
  lemma {:induction false} SumPermutation(rs: seq<Record>, ts: seq<Record>, f: Record -> int)
    requires multiset(rs) == multiset(ts)
    ensures Sum(rs, f) == Sum(ts, f)
  {
    if rs == [] {
      assert |ts| == |multiset(ts)| == 0;
    } else {
      assert rs[0] in multiset(ts);
      var j :| 0 <= j < |ts| && ts[j] == rs[0];
      MultisetRemove(ts, j);
      assert rs == [rs[0]] + rs[1..];
      assert multiset(rs[1..]) == multiset(rs) - multiset{rs[0]};
      SumPermutation(rs[1..], ts[..j] + ts[j + 1..], f);
      SumRemove(ts, j, f);
    }
  }

  /** A maximum does not depend on the order of the records. */
  lemma MaxPermutation(rs: seq<Record>, ts: seq<Record>, f: Record -> int)
    requires |rs| > 0 && multiset(rs) == multiset(ts)
    ensures |ts| > 0 && MaxOf(rs, f) == MaxOf(ts, f)
  {
    assert rs[0] in multiset(ts);
    var a := MaxOf(rs, f);
    var b := MaxOf(ts, f);
    var i :| 0 <= i < |rs| && f(rs[i]) == a;
    var j :| 0 <= j < |ts| && f(ts[j]) == b;
    assert rs[i] in multiset(ts);
    assert ts[j] in multiset(rs);
  }

  /** A minimum does not depend on the order of the records. */
  lemma MinPermutation(rs: seq<Record>, ts: seq<Record>, f: Record -> int)
    requires |rs| > 0 && multiset(rs) == multiset(ts)
    ensures |ts| > 0 && MinOf(rs, f) == MinOf(ts, f)
  {
    assert rs[0] in multiset(ts);
    var a := MinOf(rs, f);
    var b := MinOf(ts, f);
    var i :| 0 <= i < |rs| && f(rs[i]) == a;
    var j :| 0 <= j < |ts| && f(ts[j]) == b;
    assert rs[i] in multiset(ts);
    assert ts[j] in multiset(rs);
  }

  /** The metrics depend only on which records there are, not on their order. */
  lemma MetricsOrderIndependent(rs: seq<Record>, ts: seq<Record>)
    requires multiset(rs) == multiset(ts)
    ensures CalculateMetrics(rs) == CalculateMetrics(ts)
  {
    assert |rs| == |multiset(rs)| == |ts|;
    if rs != [] {
      SumPermutation(rs, ts, Waiting);
      SumPermutation(rs, ts, Turnaround);
      SumPermutation(rs, ts, Burst);
      MaxPermutation(rs, ts, CompletionOf);
      MinPermutation(rs, ts, Start);
    }
  }

  /** When every record's waiting time is its turnaround minus its burst, the
      totals obey the same relation. */
  lemma {:induction false} WaitingConservation(rs: seq<Record>)
    requires forall i :: 0 <= i < |rs| ==> rs[i].waiting == rs[i].turnaround - rs[i].burst
    ensures Sum(rs, Waiting) == Sum(rs, Turnaround) - Sum(rs, Burst)
  {
    if rs != [] {
      assert forall i :: 0 <= i < |rs[1..]| ==> rs[1..][i] == rs[i + 1];
      WaitingConservation(rs[1..]);
    }
  }
}
