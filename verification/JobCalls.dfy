/** Jobs over runs of whole client calls, none overlapping another. */
module JobCalls {
  import opened Common
  import opened CacheManager
  import opened Telemetry
  import opened Engine
  import opened Invariants
  import opened JobRuns
  import opened WatchTable

  // ---------------------------------------------------------------------
  // Runs of whole calls

  datatype Call =
    | Plain(step: Step)
    | StartJob(j: JobId, groupId: nat, freq: nat, gauges: Gauges, time: nat, granted: set<FieldKey>)
    | StopJob(j: JobId, gauges: Gauges, time: nat, now: nat)
    | RemoveJob(j: JobId, time: nat, now: nat)
    | RemoveJobs(ids: seq<JobId>, times: nat -> nat, nows: nat -> nat)

  /** A plain call is one step that leaves the job table alone; the clock never reads zero. */
  ghost predicate Legal(c: Call) {
    match c
    case Plain(s) => s.GroupChange? || s.Watch? || s.Unwatch? || s.Update? || s.Notify?
    case StopJob(_, _, time, _) => time != 0
    case _ => true
  }

  ghost function Called(e: Engine, c: Call): Engine {
    match c
    case Plain(s) => Next(e, s)
    case StartJob(j, groupId, freq, gauges, time, granted) => JobStarted(e, groupId, j, freq, gauges, time, granted)
    case StopJob(j, gauges, time, now) => JobStopped(e, j, gauges, time, now)
    case RemoveJob(j, time, now) => JobRemoved(e, j, time, now)
    case RemoveJobs(ids, times, nows) => AllRemoved(e, ids, times, nows)
  }

  ghost predicate CallAt(states: seq<Engine>, calls: seq<Call>, i: nat)
    requires i < |calls| && |states| == |calls| + 1
  {
    Legal(calls[i]) && states[i + 1] == Called(states[i], calls[i])
  }

  /** A sequence of whole calls from start-up, none overlapping another. */
  ghost predicate AnyCalls(qs: Queries, states: seq<Engine>, calls: seq<Call>) {
    && |states| == |calls| + 1
    && states[0] == Initial(qs)
    && forall i :: 0 <= i < |calls| ==> CallAt(states, calls, i)
  }

  /** The call is a start of the job that is not refused. */
  ghost predicate Starts(e: Engine, c: Call, j: JobId) {
    && c.StartJob? && c.j == j && j !in e.jobs
    && var g := GroupKey(c.groupId, GroupSettings.JOB_FIELD_GROUP);
       Named(e.groups, g) && KeysOf(e.groups, g) != []
  }

  /** The call is a stop of the job that succeeds. */
  ghost predicate StopsJob(e: Engine, c: Call, j: JobId) {
    c.StopJob? && c.j == j && JobStopStatus(e, j, c.now) == Ok
  }

  /** The call starts the job anew or drops its record. */
  ghost predicate Renews(e: Engine, c: Call, j: JobId) {
    Starts(e, c, j) || (c.RemoveJob? && c.j == j) || c.RemoveJobs?
  }

  // ---------------------------------------------------------------------
  // A job in the job table has a running record

  ghost predicate Running(c: Cache, j: JobId) {
    j in c.jobs ==> c.jobs[j].endTime == 0
  }

  ghost predicate JobsRun(e: Engine) {
    forall j :: j in e.jobs ==> Running(e.cache, j)
  }

  lemma {:induction false} HandleKeepsEnd(e: Engine, ds: seq<Delivery>, j: JobId)
    ensures Running(HandleAll(e, ds).cache, j) <==> Running(e.cache, j)
  {
    if ds != [] {
      HandleKeepsEnd(e, ds[..|ds| - 1], j);
    }
  }

  lemma PlainKeepsJobs(e: Engine, s: Step, j: JobId)
    requires Legal(Plain(s))
    ensures Next(e, s).jobs == e.jobs && (Running(Next(e, s).cache, j) <==> Running(e.cache, j))
  {
    match s
    case Update(now, ds, cleanAt, evictAt) =>
      HandleOnlyStamps(e, ds);
      HandleKeepsEnd(e, ds, j);
    case Notify(events) =>
      HandleOnlyStamps(e, Events(events));
      HandleKeepsEnd(e, Events(events), j);
    case _ =>
  }

  /** A stop touches no other job, in the table or in the cache. */
  lemma StopKeepsOthers(e: Engine, j: JobId, gauges: Gauges, time: nat, now: nat)
    ensures
      var n := JobStopped(e, j, gauges, time, now);
      && (n.jobs == e.jobs || n.jobs == e.jobs - {j})
      && (forall i :: i in n.cache.jobs <==> i in e.cache.jobs)
      && (forall i :: i in n.cache.jobs && (i != j || n.jobs == e.jobs) ==> n.cache.jobs[i] == e.cache.jobs[i])
      && (n.jobs != e.jobs ==> j !in n.jobs)
  {
  }

  lemma StopKeepsRunning(e: Engine, j: JobId, gauges: Gauges, time: nat, now: nat)
    requires JobsRun(e)
    ensures JobsRun(JobStopped(e, j, gauges, time, now))
  {
    StopKeepsOthers(e, j, gauges, time, now);
    var n := JobStopped(e, j, gauges, time, now);
    forall i | i in n.jobs ensures Running(n.cache, i) {
      assert Running(e.cache, i);
    }
  }

  lemma {:induction false} StopsKeepRunning(e: Engine, ids: seq<JobId>, times: nat -> nat, nows: nat -> nat)
    requires JobsRun(e)
    ensures JobsRun(StoppedAll(e, ids, times, nows))
  {
    if ids != [] {
      var n := |ids| - 1;
      StopsKeepRunning(e, ids[..n], times, nows);
      StopKeepsRunning(StoppedAll(e, ids[..n], times, nows), ids[n], map[], times(n), nows(n));
    }
  }

  lemma StartKeepsRunning(e: Engine, j: JobId, groupId: nat, freq: nat, gauges: Gauges, time: nat,
                          granted: set<FieldKey>)
    requires JobsRun(e)
    ensures JobsRun(JobStarted(e, groupId, j, freq, gauges, time, granted))
  {
    var n := JobStarted(e, groupId, j, freq, gauges, time, granted);
    forall i | i in n.jobs ensures Running(n.cache, i) {
      assert i in e.jobs ==> Running(e.cache, i);
    }
  }

  lemma CallKeepsRunning(e: Engine, c: Call)
    requires JobsRun(e) && Legal(c)
    ensures JobsRun(Called(e, c))
  {
    match c
    case Plain(s) =>
      forall j | j in Next(e, s).jobs ensures Running(Next(e, s).cache, j) {
        PlainKeepsJobs(e, s, j);
      }
    case StartJob(j, groupId, freq, gauges, time, granted) =>
      StartKeepsRunning(e, j, groupId, freq, gauges, time, granted);
    case StopJob(j, gauges, time, now) => StopKeepsRunning(e, j, gauges, time, now);
    case RemoveJob(j, time, now) =>
      StopKeepsRunning(e, j, map[], time, now);
      assert forall i :: Running(JobStopped(e, j, map[], time, now).cache, i) ==> Running(Called(e, c).cache, i);
    case RemoveJobs(ids, times, nows) =>
  }

  /** Over every run of whole calls, a job in the job table has a running record, if it has one: a
      stop that gets as far as the record always finds it running. */
  lemma {:induction false} JobsAlwaysRun(qs: Queries, states: seq<Engine>, calls: seq<Call>, n: nat)
    requires AnyCalls(qs, states, calls) && n < |states|
    ensures JobsRun(states[n])
  {
    if n > 0 {
      JobsAlwaysRun(qs, states, calls, n - 1);
      assert CallAt(states, calls, n - 1);
      CallKeepsRunning(states[n - 1], calls[n - 1]);
    }
  }

  // ---------------------------------------------------------------------
  // One stop per start

  lemma {:induction false} StopsKeepOut(e: Engine, ids: seq<JobId>, times: nat -> nat, nows: nat -> nat, j: JobId)
    requires j !in e.jobs
    ensures j !in StoppedAll(e, ids, times, nows).jobs
  {
    if ids != [] {
      var n := |ids| - 1;
      StopsKeepOut(e, ids[..n], times, nows, j);
      StopKeepsOthers(StoppedAll(e, ids[..n], times, nows), ids[n], map[], times(n), nows(n));
    }
  }

  /** Only a start brings a job into the job table. */
  lemma OutUnlessStarted(e: Engine, c: Call, j: JobId)
    requires Legal(c) && j !in e.jobs && !Starts(e, c, j)
    ensures j !in Called(e, c).jobs
  {
    match c
    case Plain(s) => PlainKeepsJobs(e, s, j);
    case StartJob(i, groupId, freq, gauges, time, granted) =>
    case StopJob(i, gauges, time, now) => StopKeepsOthers(e, i, gauges, time, now);
    case RemoveJob(i, time, now) => StopKeepsOthers(e, i, map[], time, now);
    case RemoveJobs(ids, times, nows) => StopsKeepOut(e, ids, times, nows, j);
  }

  lemma {:induction false} StaysOut(qs: Queries, states: seq<Engine>, calls: seq<Call>, lo: nat, hi: nat, j: JobId)
    requires AnyCalls(qs, states, calls) && lo <= hi < |states| && j !in states[lo].jobs
    requires forall t :: lo <= t < hi ==> !Starts(states[t], calls[t], j)
    ensures j !in states[hi].jobs
  {
    if hi > lo {
      StaysOut(qs, states, calls, lo, hi - 1, j);
      assert CallAt(states, calls, hi - 1);
      OutUnlessStarted(states[hi - 1], calls[hi - 1], j);
    }
  }

  /** Over every run of whole calls, two successful stops of a job have a start of it between them. */
  lemma OneStopPerStart(qs: Queries, states: seq<Engine>, calls: seq<Call>, a: nat, b: nat, j: JobId)
    requires AnyCalls(qs, states, calls) && a < b < |calls|
    requires StopsJob(states[a], calls[a], j) && StopsJob(states[b], calls[b], j)
    ensures exists t :: a < t < b && Starts(states[t], calls[t], j)
  {
    if forall t :: a < t < b ==> !Starts(states[t], calls[t], j) {
      assert CallAt(states, calls, a);
      StaysOut(qs, states, calls, a + 1, b, j);
      assert false;
    }
  }

  // ---------------------------------------------------------------------
  // ECC counters over whole calls

  lemma CallKeepsEcc(e: Engine, c: Call, j: JobId, g: nat)
    requires Legal(c) && !Renews(e, c, j) && !StopsJob(e, c, j)
    ensures EccOf(Called(e, c).cache, j, g) == EccOf(e.cache, j, g)
  {
    match c
    case Plain(s) => StepKeepsEcc(e, s, j, g);
    case StartJob(i, groupId, freq, gauges, time, granted) =>
    case StopJob(i, gauges, time, now) =>
      if i != j {
        StopKeepsOthers(e, i, gauges, time, now);
      }
    case RemoveJob(i, time, now) => StopKeepsOthers(e, i, map[], time, now);
    case RemoveJobs(ids, times, nows) =>
  }

  lemma StartCallTakesEcc(e: Engine, c: Call, j: JobId, g: nat)
    requires Starts(e, c, j) && g in e.groups.gpus[c.groupId]
    ensures EccOf(Called(e, c).cache, j, g) == Some(EccAtStart(c.gauges, g))
  {
  }

  lemma StopCallTakesEcc(e: Engine, c: Call, j: JobId, g: nat, start: Gauges)
    requires Legal(c) && StopsJob(e, c, j) && EccOf(e.cache, j, g) == Some(EccAtStart(start, g))
    ensures EccOf(Called(e, c).cache, j, g) == Some(EccAtStop(start, c.gauges, g))
  {
  }

  /** The call at `i` starts the job on a group with the GPU, and until `m` it is neither started
      anew nor removed. */
  ghost predicate LivesFrom(states: seq<Engine>, calls: seq<Call>, i: nat, m: nat, j: JobId, g: nat)
    requires |states| == |calls| + 1
  {
    && i < m < |states|
    && Starts(states[i], calls[i], j) && g in states[i].groups.gpus[calls[i].groupId]
    && (forall t :: i < t < m ==> !Renews(states[t], calls[t], j))
  }

  lemma {:induction false} EccUntilStopped(qs: Queries, states: seq<Engine>, calls: seq<Call>, i: nat, m: nat,
                                           j: JobId, g: nat)
    requires AnyCalls(qs, states, calls) && LivesFrom(states, calls, i, m, j, g)
    requires forall t :: i < t < m ==> !StopsJob(states[t], calls[t], j)
    ensures EccOf(states[m].cache, j, g) == Some(EccAtStart(calls[i].gauges, g))
  {
    assert CallAt(states, calls, m - 1);
    if m == i + 1 {
      StartCallTakesEcc(states[i], calls[i], j, g);
    } else {
      EccUntilStopped(qs, states, calls, i, m - 1, j, g);
      CallKeepsEcc(states[m - 1], calls[m - 1], j, g);
    }
  }

  /** No other stop is assumed away: whole calls allow only one. */
  lemma OnlyStop(qs: Queries, states: seq<Engine>, calls: seq<Call>, i: nat, stop: nat, m: nat, j: JobId, g: nat)
    requires AnyCalls(qs, states, calls) && LivesFrom(states, calls, i, m, j, g)
    requires i < stop < m && StopsJob(states[stop], calls[stop], j)
    ensures forall t :: i < t < m && t != stop ==> !StopsJob(states[t], calls[t], j)
  {
    forall t | i < t < m && t != stop ensures !StopsJob(states[t], calls[t], j) {
      if StopsJob(states[t], calls[t], j) {
        if t < stop {
          OneStopPerStart(qs, states, calls, t, stop, j);
        } else {
          OneStopPerStart(qs, states, calls, stop, t, j);
        }
        assert false;
      }
    }
  }

  lemma {:induction false} EccOnceStopped(qs: Queries, states: seq<Engine>, calls: seq<Call>, i: nat, stop: nat,
                                          m: nat, j: JobId, g: nat)
    requires AnyCalls(qs, states, calls) && LivesFrom(states, calls, i, m, j, g)
    requires i < stop < m && StopsJob(states[stop], calls[stop], j)
    ensures EccOf(states[m].cache, j, g) == Some(EccAtStop(calls[i].gauges, calls[stop].gauges, g))
  {
    OnlyStop(qs, states, calls, i, stop, m, j, g);
    assert CallAt(states, calls, m - 1);
    if m == stop + 1 {
      EccUntilStopped(qs, states, calls, i, stop, j, g);
      StopCallTakesEcc(states[stop], calls[stop], j, g, calls[i].gauges);
    } else {
      EccOnceStopped(qs, states, calls, i, stop, m - 1, j, g);
      CallKeepsEcc(states[m - 1], calls[m - 1], j, g);
    }
  }

  /** End to end, for clients whose calls do not overlap: while no stop of it has succeeded, a job
      reports the gauge now minus the gauge at its start. */
  lemma RunningCallReport(qs: Queries, states: seq<Engine>, calls: seq<Call>, i: nat, m: nat, j: JobId, g: nat,
                          gauges: Gauges)
    requires AnyCalls(qs, states, calls) && LivesFrom(states, calls, i, m, j, g)
    requires forall t :: i < t < m ==> !StopsJob(states[t], calls[t], j)
    requires Counters64(calls[i].gauges, g) && Counters64(gauges, g)
    ensures j in states[m].cache.jobs && g in states[m].cache.jobs[j].gpus
    ensures CanReport(states[m].cache, j, gauges) ==>
              ShowsRunning(GpuReport(states[m].cache.jobs[j], gauges, g), calls[i].gauges, gauges, g)
  {
    EccUntilStopped(qs, states, calls, i, m, j, g);
    if CanReport(states[m].cache, j, gauges) {
      RunningReport(states[m].cache, j, g, calls[i].gauges, gauges);
    }
  }

  /** Once a stop has succeeded it reports the gauge at that stop minus the gauge at its start,
      however many calls follow, further stops among them, until it is started anew or removed. */
  lemma StoppedCallReport(qs: Queries, states: seq<Engine>, calls: seq<Call>, i: nat, stop: nat, m: nat, j: JobId,
                          g: nat, gauges: Gauges)
    requires AnyCalls(qs, states, calls) && LivesFrom(states, calls, i, m, j, g)
    requires i < stop < m && StopsJob(states[stop], calls[stop], j)
    requires Counters64(calls[i].gauges, g) && Counters64(calls[stop].gauges, g)
    ensures j in states[m].cache.jobs && g in states[m].cache.jobs[j].gpus
    ensures CanReport(states[m].cache, j, gauges) ==>
              ShowsStopped(GpuReport(states[m].cache.jobs[j], gauges, g), calls[i].gauges, calls[stop].gauges, g)
  {
    EccOnceStopped(qs, states, calls, i, stop, m, j, g);
    if CanReport(states[m].cache, j, gauges) {
      StoppedReport(states[m].cache, j, g, calls[i].gauges, calls[stop].gauges, gauges);
    }
  }

  // ---------------------------------------------------------------------
  // Every record has a GPU

  ghost predicate HasGpu(c: Cache, j: JobId) {
    GpusOf(c, j) != Some({})
  }

  ghost predicate RecordsHaveGpus(e: Engine) {
    forall j :: HasGpu(e.cache, j)
  }

  lemma StopKeepsGpus(e: Engine, j: JobId, gauges: Gauges, time: nat, now: nat, i: JobId)
    ensures GpusOf(JobStopped(e, j, gauges, time, now).cache, i) == GpusOf(e.cache, i)
  {
    StopKeepsOthers(e, j, gauges, time, now);
    if i == j && j in e.cache.jobs {
      assert StopRecord(e.cache.jobs[j], gauges, time).gpus.Keys == e.cache.jobs[j].gpus.Keys;
    }
  }

  /** A start that is not refused has a GPU to record. */
  lemma StartHasGpu(e: Engine, groupId: nat, j: JobId, freq: nat, gauges: Gauges, time: nat, granted: set<FieldKey>,
                    i: JobId)
    requires HasGpu(e.cache, i)
    ensures HasGpu(JobStarted(e, groupId, j, freq, gauges, time, granted).cache, i)
  {
    var g := GroupKey(groupId, GroupSettings.JOB_FIELD_GROUP);
    if j !in e.jobs && Named(e.groups, g) && KeysOf(e.groups, g) != [] {
      var gpus, fields := e.groups.gpus[groupId], e.groups.fields[g.fieldGroup];
      assert gpus != [];
      assert gpus[0] in StartRecord(gpus, fields, gauges, time).gpus;
    }
  }

  lemma CallKeepsGpus(e: Engine, c: Call)
    requires RecordsHaveGpus(e) && Legal(c)
    ensures RecordsHaveGpus(Called(e, c))
  {
    forall i ensures HasGpu(Called(e, c).cache, i) {
      assert HasGpu(e.cache, i);
      match c
      case Plain(s) => StepKeepsGpus(e, s, i);
      case StartJob(j, groupId, freq, gauges, time, granted) =>
        StartHasGpu(e, groupId, j, freq, gauges, time, granted, i);
      case StopJob(j, gauges, time, now) => StopKeepsGpus(e, j, gauges, time, now, i);
      case RemoveJob(j, time, now) => StopKeepsGpus(e, j, map[], time, now, i);
      case RemoveJobs(ids, times, nows) =>
    }
  }

  /** Over every run of whole calls each cached record has a GPU. */
  lemma {:induction false} RecordsAlwaysHaveGpus(qs: Queries, states: seq<Engine>, calls: seq<Call>, n: nat)
    requires AnyCalls(qs, states, calls) && n < |states|
    ensures RecordsHaveGpus(states[n])
  {
    if n > 0 {
      RecordsAlwaysHaveGpus(qs, states, calls, n - 1);
      assert CallAt(states, calls, n - 1);
      CallKeepsGpus(states[n - 1], calls[n - 1]);
    }
  }

  /** So over every run of whole calls a report is made exactly when every GPU can be reported, and
      divides by zero exactly when the first that cannot has a zero memory adjuster. */
  lemma ReportOverCalls(qs: Queries, states: seq<Engine>, calls: seq<Call>, n: nat, j: JobId, gauges: Gauges, now: nat)
    requires AnyCalls(qs, states, calls) && n < |states| && j in states[n].cache.jobs
    ensures
      var rec := states[n].cache.jobs[j];
      && rec.gpus != map[]
      && (OutcomeOf(rec, gauges, now).Report? <==> forall g :: g in rec.gpus ==> GpuReportable(rec, gauges, g))
      && (OutcomeOf(rec, gauges, now).DivisionByZero? <==> exists g :: TrapsFirst(rec, gauges, g))
  {
    RecordsAlwaysHaveGpus(qs, states, calls, n);
    assert HasGpu(states[n].cache, j);
    var rec := states[n].cache.jobs[j];
    assert rec.gpus.Keys != {};
    ReportMadeIff(rec, gauges, now);
    ReportTrapsIff(rec, gauges, now);
  }
}
