/** The counters of one scenario (scripts/loadgen.py:141-156) and what its summary reports of them. */
module Samples {
  import opened Wrappers
  import opened Percentiles

  /** How one attempt ends: an answer, or the transport error that `_one` catches. */
  datatype Outcome = Answered(status: int, elapsed: real, size: nat) | TransportError

  predicate IsOk(status: int)
  {
    status == 200 || status == 204
  }

  /** The contents of a `Sample`. */
  datatype Tally = Tally(latencies: seq<real>, statuses: map<int, nat>, bytes: nat, transportErrors: nat)

  const EMPTY: Tally := Tally([], map[], 0, 0)

  function At(statuses: map<int, nat>, status: int): nat
  {
    if status in statuses then statuses[status] else 0
  }

  /** What `_one` leaves in the sample after one attempt. */
  function Record(t: Tally, o: Outcome): Tally
  {
    match o
    case TransportError => t.(transportErrors := t.transportErrors + 1)
    case Answered(status, elapsed, size) =>
      Tally(t.latencies + [elapsed], t.statuses[status := At(t.statuses, status) + 1], t.bytes + size, t.transportErrors)
  }

  /** The sum of the counts of all statuses that are (not) fine. */
  ghost function SumWhere(statuses: map<int, nat>, which: int -> bool): nat
  {
    if statuses.Keys == {} then 0
    else
      var s := Pick(statuses.Keys);
      (if which(s) then statuses[s] else 0) + SumWhere(statuses - {s}, which)
  }

  ghost function Pick<T>(keys: set<T>): (k: T)
    requires keys != {}
    ensures k in keys
  {
    var k :| k in keys;
    k
  }

  lemma {:induction false} SumWithout(statuses: map<int, nat>, which: int -> bool, k: int)
    requires k in statuses
    ensures SumWhere(statuses, which) == (if which(k) then statuses[k] else 0) + SumWhere(statuses - {k}, which)
    decreases |statuses|
  {
    var s := Pick(statuses.Keys);
    if s != k {
      assert (statuses - {s}) - {k} == (statuses - {k}) - {s};
      SumWithout(statuses - {s}, which, k);
      SumWithout(statuses - {k}, which, s);
    }
  }

  lemma SumAfterCount(statuses: map<int, nat>, which: int -> bool, k: int)
    ensures SumWhere(statuses[k := At(statuses, k) + 1], which) == SumWhere(statuses, which) + if which(k) then 1 else 0
  {
    var more := statuses[k := At(statuses, k) + 1];
    SumWithout(more, which, k);
    if k in statuses {
      SumWithout(statuses, which, k);
      assert more - {k} == statuses - {k};
    } else {
      assert more - {k} == statuses;
    }
  }

  class Sample {
    var latencies: seq<real>
    var statuses: map<int, nat>
    var bytesReceived: nat
    var transportErrors: nat

    function Contents(): Tally
      reads this
    {
      Tally(latencies, statuses, bytesReceived, transportErrors)
    }

    constructor ()
      ensures Contents() == EMPTY
    {
      latencies, statuses, bytesReceived, transportErrors := [], map[], 0, 0;
    }

    method RecordAnswer(status: int, elapsed: real, size: nat)
      modifies this
      ensures Contents() == Record(old(Contents()), Answered(status, elapsed, size))
    {
      latencies := latencies + [elapsed];
      statuses := statuses[status := At(statuses, status) + 1];
      bytesReceived := bytesReceived + size;
    }

    /** `_one` once the request has ended: an exception only counts, an answer is recorded. */
    method One(outcome: Outcome)
      modifies this
      ensures Contents() == Record(old(Contents()), outcome)
    {
      match outcome
      case TransportError =>
        transportErrors := transportErrors + 1;
      case Answered(status, elapsed, size) =>
        RecordAnswer(status, elapsed, size);
    }

    /** `Sample.errors`: the answers with a bad status and the transport errors. */
    method Errors() returns (errors: nat)
      ensures errors == SumWhere(statuses, s => !IsOk(s)) + transportErrors
    {
      var bad, rest := 0, statuses;
      ghost var which := (s: int) => !IsOk(s);
      while |rest| != 0
        invariant bad + SumWhere(rest, which) == SumWhere(statuses, which)
        decreases |rest|
      {
        assert |rest.Keys| != 0;
        var s :| s in rest.Keys;
        SumWithout(rest, which, s);
        if !IsOk(s) {
          bad := bad + rest[s];
        }
        rest := rest - {s};
      }
      errors := bad + transportErrors;
    }
  }

  /** What `_summarize` derives from a sample, leaving throughput and mean aside. */
  datatype Summary = Summary(requests: nat, errors: nat, statusCounts: map<int, nat>, transportErrors: nat, bytes: nat,
                             p50: Option<real>, p95: Option<real>, p99: Option<real>, max: Option<real>)

  ghost function Summarize(t: Tally): Summary
  {
    Summary(|t.latencies|, SumWhere(t.statuses, s => !IsOk(s)) + t.transportErrors, t.statuses, t.transportErrors,
            t.bytes, Percentile(t.latencies, 0.50), Percentile(t.latencies, 0.95), Percentile(t.latencies, 0.99),
            if t.latencies == [] then None else Some(Max(t.latencies)))
  }

  /** A complaint of the error gate about scenario `k` of phase `p`. */
  datatype Complaint = HadErrors(p: nat, k: nat) | NothingCompleted(p: nat, k: nat)

  /** The complaint is about one of the given phases and is justified. */
  predicate Justified(phases: seq<seq<Summary>>, c: Complaint)
  {
    && c.p < |phases| && c.k < |phases[c.p]|
    && match c
       case HadErrors(p, k) => phases[p][k].errors != 0
       case NothingCompleted(p, k) => phases[p][k].requests == 0
  }

  /** Comes before the scenario `k` of phase `p` in the order of the two loops. */
  predicate Before(c: Complaint, p: nat, k: nat)
  {
    c.p < p || (c.p == p && c.k < k)
  }

  predicate Distinct(cs: seq<Complaint>)
  {
    forall i, j :: 0 <= i < j < |cs| ==> cs[i] != cs[j]
  }

  lemma DistinctNext(cs: seq<Complaint>, c: Complaint)
    requires Distinct(cs) && c !in cs
    ensures Distinct(cs + [c])
  {
  }

  /** `_error_gate`: every justified complaint, once; both kinds where both apply. */
  method ErrorGate(phases: seq<seq<Summary>>) returns (failures: seq<Complaint>)
    ensures forall c :: c in failures <==> Justified(phases, c)
    ensures Distinct(failures)
    ensures failures == [] <==>
            forall p, k :: 0 <= p < |phases| && 0 <= k < |phases[p]| ==> Clean(phases[p][k])
  {
    failures := [];
    for p := 0 to |phases|
      invariant forall c :: c in failures <==> Justified(phases, c) && Before(c, p, 0)
      invariant Distinct(failures)
    {
      for k := 0 to |phases[p]|
        invariant forall c :: c in failures <==> Justified(phases, c) && Before(c, p, k)
        invariant Distinct(failures)
      {
        if phases[p][k].errors != 0 {
          DistinctNext(failures, HadErrors(p, k));
          failures := failures + [HadErrors(p, k)];
        }
        if phases[p][k].requests == 0 {
          DistinctNext(failures, NothingCompleted(p, k));
          failures := failures + [NothingCompleted(p, k)];
        }
      }
    }
    EmptyMeansClean(phases, failures);
  }

  lemma EmptyMeansClean(phases: seq<seq<Summary>>, failures: seq<Complaint>)
    requires forall c :: c in failures <==> Justified(phases, c)
    ensures failures == [] <==>
            forall p, k :: 0 <= p < |phases| && 0 <= k < |phases[p]| ==> Clean(phases[p][k])
  {
    if failures != [] {
      var c := failures[0];
      assert Justified(phases, c) && !Clean(phases[c.p][c.k]);
    }
    forall p, k | 0 <= p < |phases| && 0 <= k < |phases[p]| && !Clean(phases[p][k])
      ensures failures != []
    {
      assert Justified(phases, HadErrors(p, k)) || Justified(phases, NothingCompleted(p, k));
    }
  }

  predicate Clean(s: Summary)
  {
    s.errors == 0 && s.requests != 0
  }
}

/**
 One phase (scripts/loadgen.py:260-299) as a state machine: `repeats` attempts per scenario, all
 created at once, each waiting for the semaphore, then in flight, then done. The steps may be taken
 in any order the semaphore allows.
 */
module Phase {
  import opened Wrappers
  import opened Percentiles
  import opened Samples
  import opened Counting

  datatype Task = Pending | InFlight | Done(outcome: Outcome)

  /** Row `k` holds the attempts of scenario `k`; `samples[k]` is that scenario's sample. */
  datatype State = State(tasks: seq<seq<Task>>, samples: seq<Tally>)

  datatype Config = Config(scenarios: nat, concurrency: nat, repeats: nat)

  datatype Event = Start(k: nat, r: nat) | Finish(k: nat, r: nat, outcome: Outcome)

  function Init(c: Config): State
  {
    State(seq(c.scenarios, _ => seq(c.repeats, _ => Pending)), seq(c.scenarios, _ => EMPTY))
  }

  function CountRow(row: seq<Task>, which: Task -> bool): nat
  {
    if row == [] then 0 else CountRow(row[1..], which) + if which(row[0]) then 1 else 0
  }

  function CountAll(rows: seq<seq<Task>>, which: Task -> bool): nat
  {
    if rows == [] then 0 else CountAll(rows[1..], which) + CountRow(rows[0], which)
  }

  const IS_PENDING: Task -> bool := (t: Task) => t.Pending?
  const IS_IN_FLIGHT: Task -> bool := (t: Task) => t.InFlight?
  const IS_ANSWERED: Task -> bool := (t: Task) => t.Done? && t.outcome.Answered?
  const IS_TRANSPORT: Task -> bool := (t: Task) => t.Done? && t.outcome.TransportError?

  function HasStatus(status: int): Task -> bool
  {
    (t: Task) => t.Done? && t.outcome.Answered? && t.outcome.status == status
  }

  /** The latencies of the answered attempts of a row, as a bag. */
  function Latencies(row: seq<Task>): multiset<real>
  {
    if row == [] then multiset{}
    else Latencies(row[1..]) + if IS_ANSWERED(row[0]) then multiset{row[0].outcome.elapsed} else multiset{}
  }

  function Bytes(row: seq<Task>): nat
  {
    if row == [] then 0 else Bytes(row[1..]) + if IS_ANSWERED(row[0]) then row[0].outcome.size else 0
  }

  predicate Enabled(c: Config, s: State, e: Event)
  {
    && e.k < |s.tasks| && e.r < |s.tasks[e.k]| && e.k < |s.samples|
    && match e
       case Start(k, r) => s.tasks[k][r].Pending? && CountAll(s.tasks, IS_IN_FLIGHT) < c.concurrency
       case Finish(k, r, _) => s.tasks[k][r].InFlight?
  }

  function Step(c: Config, s: State, e: Event): State
    requires Enabled(c, s, e)
  {
    match e
    case Start(k, r) => s.(tasks := s.tasks[k := s.tasks[k][r := InFlight]])
    case Finish(k, r, o) =>
      State(s.tasks[k := s.tasks[k][r := Done(o)]], s.samples[k := Record(s.samples[k], o)])
  }

  /** The state these events lead to, in this order; None when one of them is not enabled. */
  function Run(c: Config, events: seq<Event>): Option<State>
  {
    if events == [] then Some(Init(c))
    else
      var last := |events| - 1;
      match Run(c, events[..last])
      case None => None
      case Some(before) => if Enabled(c, before, events[last]) then Some(Step(c, before, events[last])) else None
  }

  predicate Reaches(c: Config, events: seq<Event>, s: State)
  {
    Run(c, events) == Some(s)
  }

  predicate Complete(s: State)
  {
    forall k, r :: 0 <= k < |s.tasks| && 0 <= r < |s.tasks[k]| ==> s.tasks[k][r].Done?
  }

  /** The sample of a row says exactly what the row's finished attempts say. */
  ghost predicate Agrees(row: seq<Task>, t: Tally)
  {
    && |t.latencies| == CountRow(row, IS_ANSWERED)
    && multiset(t.latencies) == Latencies(row)
    && (forall status :: At(t.statuses, status) == CountRow(row, HasStatus(status)))
    && (forall status :: status in t.statuses ==> t.statuses[status] > 0)
    && SumWhere(t.statuses, _ => true) == |t.latencies|
    && t.transportErrors == CountRow(row, IS_TRANSPORT)
    && t.bytes == Bytes(row)
  }

  ghost predicate Inv(c: Config, s: State)
  {
    && |s.tasks| == |s.samples| == c.scenarios
    && (forall k :: 0 <= k < c.scenarios ==> |s.tasks[k]| == c.repeats)
    && CountAll(s.tasks, IS_IN_FLIGHT) <= c.concurrency
    && forall k :: 0 <= k < c.scenarios ==> Agrees(s.tasks[k], s.samples[k])
  }

  // ---- counting under one changed task

  lemma {:induction false} CountRowUpdate(row: seq<Task>, r: nat, t: Task, which: Task -> bool)
    requires r < |row|
    ensures CountRow(row[r := t], which) + (if which(row[r]) then 1 else 0)
         == CountRow(row, which) + if which(t) then 1 else 0
  {
    if r == 0 {
      assert row[0 := t][1..] == row[1..];
    } else {
      assert row[r := t][1..] == row[1..][r - 1 := t];
      CountRowUpdate(row[1..], r - 1, t, which);
    }
  }

  lemma {:induction false} CountAllUpdate(rows: seq<seq<Task>>, k: nat, row: seq<Task>, which: Task -> bool)
    requires k < |rows|
    ensures CountAll(rows[k := row], which) + CountRow(rows[k], which) == CountAll(rows, which) + CountRow(row, which)
  {
    if k == 0 {
      assert rows[0 := row][1..] == rows[1..];
    } else {
      assert rows[k := row][1..] == rows[1..][k - 1 := row];
      CountAllUpdate(rows[1..], k - 1, row, which);
    }
  }

  /** Finishing an attempt that was not done adds its own latency and bytes. */
  lemma {:induction false} FinishUpdates(row: seq<Task>, r: nat, t: Task)
    requires r < |row| && !row[r].Done?
    ensures Latencies(row[r := t]) == Latencies(row) + if IS_ANSWERED(t) then multiset{t.outcome.elapsed} else multiset{}
    ensures Bytes(row[r := t]) == Bytes(row) + if IS_ANSWERED(t) then t.outcome.size else 0
  {
    if r == 0 {
      assert row[0 := t][1..] == row[1..];
    } else {
      assert row[r := t][1..] == row[1..][r - 1 := t];
      FinishUpdates(row[1..], r - 1, t);
    }
  }

  lemma RowStarted(row: seq<Task>, r: nat, t: Tally)
    requires r < |row| && row[r].Pending? && Agrees(row, t)
    ensures Agrees(row[r := InFlight], t)
  {
    CountRowUpdate(row, r, InFlight, IS_ANSWERED);
    CountRowUpdate(row, r, InFlight, IS_TRANSPORT);
    FinishUpdates(row, r, InFlight);
    forall status
      ensures CountRow(row[r := InFlight], HasStatus(status)) == CountRow(row, HasStatus(status))
    {
      CountRowUpdate(row, r, InFlight, HasStatus(status));
    }
  }

  lemma RowFinished(row: seq<Task>, r: nat, o: Outcome, t: Tally)
    requires r < |row| && row[r].InFlight? && Agrees(row, t)
    ensures Agrees(row[r := Done(o)], Record(t, o))
  {
    hide CountRow, Latencies, Bytes, SumWhere;
    CountRowUpdate(row, r, Done(o), IS_ANSWERED);
    CountRowUpdate(row, r, Done(o), IS_TRANSPORT);
    FinishUpdates(row, r, Done(o));
    StatusUpdates(row, r, o);
    if o.Answered? {
      SumAfterCount(t.statuses, _ => true, o.status);
      StatusCounted(row, row[r := Done(o)], o, t);
      PositiveCounts(t, o);
    }
  }

  lemma PositiveCounts(t: Tally, o: Outcome)
    requires forall status :: status in t.statuses ==> t.statuses[status] > 0
    ensures forall status :: status in Record(t, o).statuses ==> Record(t, o).statuses[status] > 0
  {
  }

  lemma StatusUpdates(row: seq<Task>, r: nat, o: Outcome)
    requires r < |row| && row[r].InFlight?
    ensures forall status :: CountRow(row[r := Done(o)], HasStatus(status))
                          == CountRow(row, HasStatus(status)) + if o.Answered? && o.status == status then 1 else 0
  {
    forall status
      ensures CountRow(row[r := Done(o)], HasStatus(status))
           == CountRow(row, HasStatus(status)) + if o.Answered? && o.status == status then 1 else 0
    {
      CountRowUpdate(row, r, Done(o), HasStatus(status));
    }
  }

  lemma StatusCounted(row: seq<Task>, after: seq<Task>, o: Outcome, t: Tally)
    requires o.Answered?
    requires forall status :: At(t.statuses, status) == CountRow(row, HasStatus(status))
    requires forall status :: CountRow(after, HasStatus(status))
                           == CountRow(row, HasStatus(status)) + if o.status == status then 1 else 0
    ensures forall status :: At(Record(t, o).statuses, status) == CountRow(after, HasStatus(status))
  {
    hide CountRow;
    forall status
      ensures At(Record(t, o).statuses, status) == CountRow(after, HasStatus(status))
    {
      assert At(t.statuses, status) == CountRow(row, HasStatus(status));
    }
  }

  // ---- every reachable state

  lemma InitHolds(c: Config)
    ensures Inv(c, Init(c))
  {
    var s := Init(c);
    forall k | 0 <= k < c.scenarios
      ensures Agrees(s.tasks[k], s.samples[k])
    {
      NothingCounted(s.tasks[k]);
    }
    NoneInFlight(s.tasks);
  }

  lemma {:induction false} NothingCounted(row: seq<Task>)
    requires forall r :: 0 <= r < |row| ==> row[r].Pending?
    ensures CountRow(row, IS_ANSWERED) == CountRow(row, IS_TRANSPORT) == CountRow(row, IS_IN_FLIGHT) == Bytes(row) == 0
    ensures Latencies(row) == multiset{}
    ensures forall status :: CountRow(row, HasStatus(status)) == 0
  {
    if row != [] {
      NothingCounted(row[1..]);
    }
  }

  lemma {:induction false} NoneInFlight(rows: seq<seq<Task>>)
    requires forall k, r :: 0 <= k < |rows| && 0 <= r < |rows[k]| ==> rows[k][r].Pending?
    ensures CountAll(rows, IS_IN_FLIGHT) == 0
  {
    if rows != [] {
      NoneInFlight(rows[1..]);
      NothingCounted(rows[0]);
    }
  }

  lemma InFlightAfter(c: Config, s: State, e: Event)
    requires Enabled(c, s, e)
    ensures CountAll(Step(c, s, e).tasks, IS_IN_FLIGHT)
         == CountAll(s.tasks, IS_IN_FLIGHT) + if e.Start? then 1 else -1
  {
    var t := if e.Start? then InFlight else Done(e.outcome);
    CountRowUpdate(s.tasks[e.k], e.r, t, IS_IN_FLIGHT);
    CountAllUpdate(s.tasks, e.k, s.tasks[e.k][e.r := t], IS_IN_FLIGHT);
  }

  /** Every step the semaphore allows keeps every counter right. */
  lemma StepKeepsInv(c: Config, s: State, e: Event)
    requires Inv(c, s) && Enabled(c, s, e)
    ensures Inv(c, Step(c, s, e))
  {
    hide Agrees, CountAll;
    InFlightAfter(c, s, e);
    RowAfter(c, s, e);
  }

  /** Only the attempt's own row and sample change, and they still agree. */
  lemma RowAfter(c: Config, s: State, e: Event)
    requires Enabled(c, s, e) && Agrees(s.tasks[e.k], s.samples[e.k])
    ensures var after := Step(c, s, e);
            && |after.tasks| == |s.tasks| && |after.samples| == |s.samples|
            && |after.tasks[e.k]| == |s.tasks[e.k]| && Agrees(after.tasks[e.k], after.samples[e.k])
            && (forall k :: 0 <= k < |s.tasks| && k != e.k ==> after.tasks[k] == s.tasks[k])
            && (forall k :: 0 <= k < |s.samples| && k != e.k ==> after.samples[k] == s.samples[k])
  {
    hide Agrees, CountAll, Record;
    match e
    case Start(k, r) => RowStarted(s.tasks[k], r, s.samples[k]);
    case Finish(k, r, o) => RowFinished(s.tasks[k], r, o, s.samples[k]);
  }

  lemma {:induction false} ReachableInv(c: Config, events: seq<Event>, s: State)
    requires Reaches(c, events, s)
    ensures Inv(c, s)
    decreases |events|
  {
    if events == [] {
      InitHolds(c);
    } else {
      var last := |events| - 1;
      var before := Run(c, events[..last]).value;
      ReachableInv(c, events[..last], before);
      StepKeepsInv(c, before, events[last]);
    }
  }

  lemma {:induction false} RowPartition(row: seq<Task>)
    ensures CountRow(row, IS_PENDING) + CountRow(row, IS_IN_FLIGHT) + CountRow(row, IS_ANSWERED)
            + CountRow(row, IS_TRANSPORT) == |row|
  {
    if row != [] {
      RowPartition(row[1..]);
    }
  }

  /**
   Under every interleaving and at every moment: no more attempts are in flight than the semaphore
   admits, no attempt of a scenario is lost or counted twice, and the status counts add up to the
   number of recorded latencies.
   */
  lemma CountersConserved(c: Config, events: seq<Event>, s: State, k: nat)
    requires Reaches(c, events, s) && k < c.scenarios
    ensures |s.tasks| == |s.samples| == c.scenarios
    ensures CountAll(s.tasks, IS_IN_FLIGHT) <= c.concurrency
    ensures |s.samples[k].latencies| + s.samples[k].transportErrors
            + CountRow(s.tasks[k], IS_IN_FLIGHT) + CountRow(s.tasks[k], IS_PENDING) == c.repeats
    ensures SumWhere(s.samples[k].statuses, _ => true) == |s.samples[k].latencies|
  {
    ReachableInv(c, events, s);
    RowPartition(s.tasks[k]);
    assert Agrees(s.tasks[k], s.samples[k]);
  }

  // ---- completion

  lemma {:induction false} SumSplits(statuses: map<int, nat>)
    ensures SumWhere(statuses, _ => true) == SumWhere(statuses, s => IsOk(s)) + SumWhere(statuses, s => !IsOk(s))
    decreases |statuses|
  {
    if statuses.Keys != {} {
      var s := Pick(statuses.Keys);
      SumWithout(statuses, _ => true, s);
      SumWithout(statuses, s => IsOk(s), s);
      SumWithout(statuses, s => !IsOk(s), s);
      SumSplits(statuses - {s});
    }
  }

  lemma {:induction false} NoBadSum(statuses: map<int, nat>)
    ensures SumWhere(statuses, s => !IsOk(s)) == 0 <==> forall s :: s in statuses && !IsOk(s) ==> statuses[s] == 0
    decreases |statuses|
  {
    if statuses.Keys != {} {
      var k := Pick(statuses.Keys);
      SumWithout(statuses, s => !IsOk(s), k);
      NoBadSum(statuses - {k});
    }
  }

  lemma {:induction false} CountZero(row: seq<Task>, which: Task -> bool)
    ensures CountRow(row, which) == 0 <==> forall r :: 0 <= r < |row| ==> !which(row[r])
  {
    if row != [] {
      CountZero(row[1..], which);
    }
  }

  /** An attempt that counts as success: it was answered with 200 or 204. */
  predicate Succeeded(t: Task)
  {
    t.Done? && t.outcome.Answered? && (t.outcome.status == 200 || t.outcome.status == 204)
  }

  lemma NoErrorsExactly(row: seq<Task>, t: Tally)
    requires Agrees(row, t) && forall r :: 0 <= r < |row| ==> row[r].Done?
    ensures Summarize(t).errors == 0 <==> forall r :: 0 <= r < |row| ==> Succeeded(row[r])
    ensures Summarize(t).requests + t.transportErrors == |row|
  {
    NoBadSum(t.statuses);
    CountZero(row, IS_TRANSPORT);
    CountZero(row, IS_PENDING);
    CountZero(row, IS_IN_FLIGHT);
    RowPartition(row);
    forall status
      ensures status in t.statuses <==> exists r :: 0 <= r < |row| && HasStatus(status)(row[r])
    {
      CountZero(row, HasStatus(status));
      assert At(t.statuses, status) == CountRow(row, HasStatus(status));
    }
    forall r | 0 <= r < |row| && row[r].outcome.Answered?
      ensures row[r].outcome.status in t.statuses
    {
      assert HasStatus(row[r].outcome.status)(row[r]);
    }
    hide CountRow, SumWhere;
  }

  /**
   The verdict of the error gate on a completed phase depends on the outcomes alone: it passes exactly
   when there was at least one repeat and every single attempt was answered with 200 or 204.
   */
  lemma GateVerdict(c: Config, events: seq<Event>, s: State)
    requires Reaches(c, events, s) && Complete(s) && c.scenarios > 0
    ensures |s.tasks| == |s.samples| == c.scenarios
    ensures (forall k :: 0 <= k < c.scenarios ==> Clean(Summarize(s.samples[k]))) <==>
            && c.repeats >= 1
            && forall k, r :: 0 <= k < |s.tasks| && 0 <= r < |s.tasks[k]| ==> Succeeded(s.tasks[k][r])
  {
    ReachableInv(c, events, s);
    forall k | 0 <= k < c.scenarios
      ensures Clean(Summarize(s.samples[k])) <==>
              c.repeats >= 1 && forall r :: 0 <= r < |s.tasks[k]| ==> Succeeded(s.tasks[k][r])
    {
      NoErrorsExactly(s.tasks[k], s.samples[k]);
      CountZero(s.tasks[k], IS_TRANSPORT);
    }
    hide Summarize, Agrees;
    assert |s.tasks[0]| == c.repeats;
  }

  lemma MaxOfPermutation(a: seq<real>, b: seq<real>)
    requires multiset(a) == multiset(b)
    ensures a == [] <==> b == []
    ensures a != [] ==> Max(a) == Max(b)
  {
    assert |multiset(a)| == |a| && |multiset(b)| == |b|;
    assert forall v :: v in a <==> v in multiset(a);
    assert forall v :: v in b <==> v in multiset(b);
    if a != [] {
      MaxExactly(a, Max(a));
      MaxExactly(b, Max(a));
    }
  }

  /** `v` is the nearest-rank value of the sample at `q`. */
  predicate IsNearestRank(values: seq<real>, q: real, v: real)
  {
    v in values && |Positions(values, AtMost(v))| >= Ceil(q * |values| as real) > |Positions(values, Below(v))|
  }

  /**
   What a summary says of the attempts it sums up, in every reachable state: requests, errors, status
   counts and bytes are those of the attempts that have ended; without an answer there is no latency,
   and otherwise the four latencies are recorded ones, of the three ranks and the greatest, in order.
   */
  lemma SummaryExactly(c: Config, events: seq<Event>, s: State, k: nat)
    requires Reaches(c, events, s) && k < c.scenarios
    ensures k < |s.tasks| && k < |s.samples|
    ensures var row, t, sum := s.tasks[k], s.samples[k], Summarize(s.samples[k]);
            && multiset(t.latencies) == Latencies(row)
            && sum.requests == |t.latencies| == |Positions(row, IS_ANSWERED)|
            && sum.transportErrors == |Positions(row, IS_TRANSPORT)|
            && (forall status :: At(sum.statusCounts, status) == |Positions(row, HasStatus(status))|)
            && sum.errors == |Positions(row, IS_FAILED)|
            && sum.bytes == Bytes(row)
            && (t.latencies == [] ==> sum.p50.None? && sum.p95.None? && sum.p99.None? && sum.max.None?)
            && (t.latencies != [] ==>
                  && sum.p50.Some? && sum.p95.Some? && sum.p99.Some? && sum.max.Some?
                  && IsNearestRank(t.latencies, 0.50, sum.p50.value)
                  && IsNearestRank(t.latencies, 0.95, sum.p95.value)
                  && IsNearestRank(t.latencies, 0.99, sum.p99.value)
                  && sum.max.value in t.latencies && (forall v :: v in t.latencies ==> v <= sum.max.value)
                  && sum.p50.value <= sum.p95.value <= sum.p99.value <= sum.max.value)
  {
    ReachableInv(c, events, s);
    var row, t := s.tasks[k], s.samples[k];
    assert Agrees(row, t);
    CountsOfRow(row, t);
    if t.latencies != [] {
      LatenciesInOrder(t.latencies);
    }
    hide CountRow, Percentile, Max, Positions, Ceil, Latencies, Bytes, SumWhere, IsNearestRank, Run, Inv;
  }

  lemma LatenciesInOrder(values: seq<real>)
    requires values != []
    ensures Percentile(values, 0.50).Some? && Percentile(values, 0.95).Some? && Percentile(values, 0.99).Some?
    ensures IsNearestRank(values, 0.50, Percentile(values, 0.50).value)
    ensures IsNearestRank(values, 0.95, Percentile(values, 0.95).value)
    ensures IsNearestRank(values, 0.99, Percentile(values, 0.99).value)
    ensures Max(values) in values && forall v :: v in values ==> v <= Max(values)
    ensures Percentile(values, 0.50).value <= Percentile(values, 0.95).value
            <= Percentile(values, 0.99).value <= Max(values)
  {
    hide IsNearestRank, Percentile;
    AtItsRank(values, 0.50);
    AtItsRank(values, 0.95);
    AtItsRank(values, 0.99);
    MaxExactly(values, Max(values));
    PercentileMonotone(values, 0.50, 0.95);
    PercentileMonotone(values, 0.95, 0.99);
  }

  lemma AtItsRank(values: seq<real>, q: real)
    requires values != [] && 0.0 < q <= 1.0
    ensures Percentile(values, q).Some? && IsNearestRank(values, q, Percentile(values, q).value)
    ensures Percentile(values, q).value in values
  {
    NearestRank(values, q, Percentile(values, q).value);
    hide Sorted, Positions, Ceil;
  }

  const IS_FAILED: Task -> bool := (t: Task) => t.Done? && !Succeeded(t)

  lemma {:induction false} CountIsCardinality(row: seq<Task>, which: Task -> bool)
    ensures CountRow(row, which) == |Positions(row, which)|
  {
    if row == [] {
      NoneInEmpty(which);
    } else {
      CountIsCardinality(row[1..], which);
      PositionsCons(row[0], row[1..], which);
      assert row == [row[0]] + row[1..];
    }
  }

  lemma CountsOfRow(row: seq<Task>, t: Tally)
    requires Agrees(row, t)
    ensures |t.latencies| == |Positions(row, IS_ANSWERED)| && t.transportErrors == |Positions(row, IS_TRANSPORT)|
    ensures forall status :: At(t.statuses, status) == |Positions(row, HasStatus(status))|
    ensures SumWhere(t.statuses, s => !IsOk(s)) + t.transportErrors == |Positions(row, IS_FAILED)|
  {
    CountIsCardinality(row, IS_ANSWERED);
    CountIsCardinality(row, IS_TRANSPORT);
    forall status
      ensures At(t.statuses, status) == |Positions(row, HasStatus(status))|
    {
      CountIsCardinality(row, HasStatus(status));
    }
    CountIsCardinality(row, IS_FAILED);
    FailuresSummed(row, t.statuses);
  }

  /** Taking one status out of the counts takes those attempts out of the failures. */
  lemma {:induction false} FailuresSummed(row: seq<Task>, statuses: map<int, nat>)
    requires forall status :: At(statuses, status) == CountRow(row, HasStatus(status))
    ensures SumWhere(statuses, s => !IsOk(s)) + CountRow(row, IS_TRANSPORT) == CountRow(row, IS_FAILED)
    decreases |row|
  {
    if row == [] {
      forall s | s in statuses
        ensures statuses[s] == 0
      {
        assert At(statuses, s) == CountRow(row, HasStatus(s));
      }
      NoBadSum(statuses);
    } else {
      var first, rest := row[0], row[1..];
      if first.Done? && first.outcome.Answered? {
        var s := first.outcome.status;
        assert At(statuses, s) == CountRow(row, HasStatus(s)) >= 1;
        var less := statuses[s := statuses[s] - 1];
        forall status
          ensures At(less, status) == CountRow(rest, HasStatus(status))
        {
          assert At(statuses, status) == CountRow(row, HasStatus(status));
        }
        FailuresSummed(rest, less);
        SumAfterCount(less, s => !IsOk(s), s);
        assert less[s := At(less, s) + 1] == statuses;
      } else {
        forall status
          ensures At(statuses, status) == CountRow(rest, HasStatus(status))
        {
          assert At(statuses, status) == CountRow(row, HasStatus(status));
        }
        FailuresSummed(rest, statuses);
      }
    }
  }

  lemma TalliesEqual(row: seq<Task>, t: Tally, u: Tally)
    requires Agrees(row, t) && Agrees(row, u)
    ensures Summarize(t) == Summarize(u)
  {
    PercentileOfPermutation(t.latencies, u.latencies, 0.50);
    PercentileOfPermutation(t.latencies, u.latencies, 0.95);
    PercentileOfPermutation(t.latencies, u.latencies, 0.99);
    MaxOfPermutation(t.latencies, u.latencies);
    hide CountRow, Latencies, Bytes, SumWhere, Percentile;
    forall status
      ensures status in t.statuses <==> status in u.statuses
      ensures status in t.statuses ==> t.statuses[status] == u.statuses[status]
    {
      assert At(t.statuses, status) == CountRow(row, HasStatus(status)) == At(u.statuses, status);
    }
    assert t.statuses == u.statuses;
  }

  /** Two schedules with the same outcome of every attempt report the same summaries. */
  lemma ScheduleDoesNotMatter(c: Config, events1: seq<Event>, s1: State, events2: seq<Event>, s2: State, k: nat)
    requires Reaches(c, events1, s1) && Reaches(c, events2, s2) && s1.tasks == s2.tasks && k < c.scenarios
    ensures k < |s1.samples| == |s2.samples|
    ensures Summarize(s1.samples[k]) == Summarize(s2.samples[k])
  {
    ReachableInv(c, events1, s1);
    ReachableInv(c, events2, s2);
    TalliesEqual(s1.tasks[k], s1.samples[k], s2.samples[k]);
  }

  // ---- progress

  lemma {:induction false} InFlightWitness(rows: seq<seq<Task>>) returns (k: nat, r: nat)
    requires CountAll(rows, IS_IN_FLIGHT) > 0
    ensures k < |rows| && r < |rows[k]| && rows[k][r].InFlight?
  {
    if CountRow(rows[0], IS_IN_FLIGHT) > 0 {
      CountZero(rows[0], IS_IN_FLIGHT);
      k := 0;
      r :| 0 <= r < |rows[0]| && rows[0][r].InFlight?;
    } else {
      k, r := InFlightWitness(rows[1..]);
      k := k + 1;
    }
  }

  /** Any pending attempt may start as long as the semaphore has room, and any one in flight may end in any way. */
  lemma AnyOrder(c: Config, events: seq<Event>, s: State, k: nat, r: nat, o: Outcome)
    requires Reaches(c, events, s) && k < c.scenarios && r < c.repeats
    ensures k < |s.tasks| && r < |s.tasks[k]|
    ensures s.tasks[k][r].Pending? && CountAll(s.tasks, IS_IN_FLIGHT) < c.concurrency ==>
              exists after :: Reaches(c, events + [Start(k, r)], after) && after.tasks[k][r] == InFlight
    ensures s.tasks[k][r].InFlight? ==>
              exists after :: Reaches(c, events + [Finish(k, r, o)], after) && after.tasks[k][r] == Done(o)
  {
    ReachableInv(c, events, s);
    hide CountAll, Agrees;
    if s.tasks[k][r].Pending? && CountAll(s.tasks, IS_IN_FLIGHT) < c.concurrency {
      var e := Start(k, r);
      assert (events + [e])[..|events|] == events;
      assert Reaches(c, events + [e], Step(c, s, e));
    }
    if s.tasks[k][r].InFlight? {
      var e := Finish(k, r, o);
      assert (events + [e])[..|events|] == events;
      assert Reaches(c, events + [e], Step(c, s, e));
    }
  }

  /** With room for at least one request the phase never gets stuck before it is complete. */
  lemma NeverStuck(c: Config, events: seq<Event>, s: State)
    requires Reaches(c, events, s) && c.concurrency >= 1
    ensures Complete(s) || exists e :: Enabled(c, s, e)
  {
    ReachableInv(c, events, s);
    if !Complete(s) {
      if CountAll(s.tasks, IS_IN_FLIGHT) > 0 {
        var k, r := InFlightWitness(s.tasks);
        assert Enabled(c, s, Finish(k, r, TransportError));
      } else {
        var k, r :| 0 <= k < |s.tasks| && 0 <= r < |s.tasks[k]| && !s.tasks[k][r].Done?;
        NoInFlightAnywhere(s.tasks, k, r);
        assert Enabled(c, s, Start(k, r));
      }
    }
  }

  lemma {:induction false} NoInFlightAnywhere(rows: seq<seq<Task>>, k: nat, r: nat)
    requires CountAll(rows, IS_IN_FLIGHT) == 0 && k < |rows| && r < |rows[k]|
    ensures !rows[k][r].InFlight?
  {
    if k == 0 {
      CountZero(rows[0], IS_IN_FLIGHT);
    } else {
      NoInFlightAnywhere(rows[1..], k - 1, r);
    }
  }

  /** A semaphore without room starts nothing: the phase with work in it never completes. */
  lemma NoRoomNoProgress(c: Config, events: seq<Event>, s: State)
    requires Reaches(c, events, s) && c.concurrency == 0 && c.scenarios > 0 && c.repeats > 0
    ensures events == [] && s == Init(c) && !Complete(s)
  {
    if events != [] {
      var last := |events| - 1;
      var before := Run(c, events[..last]).value;
      NoRoomNoProgress(c, events[..last], before);
    } else {
      assert s.tasks[0][0].Pending?;
    }
  }

  /** Steps still to take: two for a pending attempt, one for one in flight. */
  function Remaining(rows: seq<seq<Task>>): nat
  {
    2 * CountAll(rows, IS_PENDING) + CountAll(rows, IS_IN_FLIGHT)
  }

  /** Every step uses up one, so no schedule is longer than twice the number of attempts. */
  lemma {:induction false} SchedulesEnd(c: Config, events: seq<Event>, s: State)
    requires Reaches(c, events, s)
    ensures |events| + Remaining(s.tasks) == Remaining(Init(c).tasks)
    decreases |events|
  {
    if events != [] {
      var last := |events| - 1;
      var before := Run(c, events[..last]).value;
      SchedulesEnd(c, events[..last], before);
      InFlightAfter(c, before, events[last]);
      PendingAfter(c, before, events[last]);
    }
  }

  lemma PendingAfter(c: Config, s: State, e: Event)
    requires Enabled(c, s, e)
    ensures CountAll(Step(c, s, e).tasks, IS_PENDING) == CountAll(s.tasks, IS_PENDING) - if e.Start? then 1 else 0
  {
    var t := if e.Start? then InFlight else Done(e.outcome);
    CountRowUpdate(s.tasks[e.k], e.r, t, IS_PENDING);
    CountAllUpdate(s.tasks, e.k, s.tasks[e.k][e.r := t], IS_PENDING);
  }
}
