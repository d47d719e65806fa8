/** The sample and job cache (`RdcCacheManagerImpl`): its state, its operations as functions on
    that state, and the object whose methods carry them out. */
module CacheManager {
  import opened Common
  import opened SampleCache
  import opened JobStats

  type JobId = string

  /** `GpuSummaryStats`, without the energy accounting. */
  datatype GpuStats = GpuStats(eccCorrect: nat, eccUncorrect: nat, fields: map<nat, FieldStats>)

  /** `RdcJobStatsCacheEntry`. */
  datatype JobRecord = JobRecord(startTime: nat, endTime: nat, gpus: map<nat, GpuStats>)

  datatype Cache = Cache(samples: map<FieldKey, seq<Sample>>, jobs: map<JobId, JobRecord>)

  function Lookup(m: map<FieldKey, seq<Sample>>, k: FieldKey): seq<Sample> {
    if k in m then m[k] else []
  }

  function SamplesOf(c: Cache, k: FieldKey): seq<Sample> {
    Lookup(c.samples, k)
  }

  /** `rdc_update_cache`. */
  function Store(c: Cache, k: FieldKey, r: Reading): Cache {
    c.(samples := c.samples[k := Lookup(c.samples, k) + [Sample(r.ts, r.value)]])
  }

  /** `evict_cache`. */
  function EvictKey(c: Cache, k: FieldKey, maxKeep: nat, age: real, now: nat): Cache {
    if k in c.samples then c.(samples := c.samples[k := Evict(c.samples[k], maxKeep, age, now)]) else c
  }

  /** The running record a job keeps for a key. */
  function RecordOf(c: Cache, j: JobId, k: FieldKey): Option<FieldStats> {
    if j in c.jobs && k.gpu in c.jobs[j].gpus && k.field in c.jobs[j].gpus[k.gpu].fields
    then Some(c.jobs[j].gpus[k.gpu].fields[k.field]) else None
  }

  /** `rdc_update_job_stats`. */
  function ObserveJob(c: Cache, j: JobId, gpu: nat, r: Reading): Cache {
    match RecordOf(c, j, FieldKey(gpu, r.field))
    case None => c
    case Some(f) =>
      var rec := c.jobs[j];
      var g := rec.gpus[gpu];
      c.(jobs := c.jobs[j := rec.(gpus := rec.gpus[gpu := g.(fields := g.fields[r.field := Observe(f, r)])])])
  }

  function GaugeOr(gauges: Gauges, k: FieldKey, default: nat): nat {
    if k in gauges then gauges[k] else default
  }

  function StartGpu(g: nat, fields: seq<nat>, gauges: Gauges): GpuStats {
    GpuStats(GaugeOr(gauges, FieldKey(g, ECC_CORRECT_TOTAL), 0),
             GaugeOr(gauges, FieldKey(g, ECC_UNCORRECT_TOTAL), 0),
             map f | f in fields :: EMPTY_STATS)
  }

  /** The record `rdc_job_start_stats` builds. */
  function StartRecord(gpus: seq<nat>, fields: seq<nat>, gauges: Gauges, time: nat): JobRecord {
    JobRecord(time, 0, map g | g in gpus :: StartGpu(g, fields, gauges))
  }

  function Difference(gauges: Gauges, k: FieldKey, init: nat): nat {
    if k in gauges then Sub64(gauges[k], init) else init
  }

  function StopGpu(g: nat, s: GpuStats, gauges: Gauges): GpuStats {
    s.(eccCorrect := Difference(gauges, FieldKey(g, ECC_CORRECT_TOTAL), s.eccCorrect),
       eccUncorrect := Difference(gauges, FieldKey(g, ECC_UNCORRECT_TOTAL), s.eccUncorrect))
  }

  /** `rdc_job_stop_stats` replaces each initial counter by the difference, when a gauge is given. */
  function StopRecord(rec: JobRecord, gauges: Gauges, time: nat): JobRecord {
    rec.(endTime := time, gpus := map g | g in rec.gpus :: StopGpu(g, rec.gpus[g], gauges))
  }

  // ---------------------------------------------------------------------
  // Reports

  /** The eight metrics of a job report. */
  const METRICS: set<nat> :=
    {POWER_USAGE, GPU_MEMORY_USAGE, GPU_CLOCK, GPU_UTIL, GPU_TEMP, MEM_CLOCK, PCIE_TX, PCIE_RX}

  /** What each metric is divided by; the memory adjuster is narrowed to 32 bits. */
  function Adjuster(field: nat, memory: nat): nat {
    if field == POWER_USAGE || field == GPU_CLOCK || field == MEM_CLOCK then 1000000
    else if field == GPU_MEMORY_USAGE then (memory / 100) % TWO32
    else if field == GPU_TEMP then 1000
    else if field == PCIE_TX || field == PCIE_RX then 1024 * 1024
    else 1
  }

  /** The division in `set_summary` does not trap. */
  predicate Divides(s: GpuStats, memory: nat) {
    GPU_MEMORY_USAGE in s.fields && s.fields[GPU_MEMORY_USAGE].count > 0 ==> Adjuster(GPU_MEMORY_USAGE, memory) > 0
  }

  /** The ECC count reported for a GPU: the stored difference once stopped, otherwise the
      gauge minus the initial counter, or nothing without a gauge. */
  function EccReport(stopped: bool, gauges: Gauges, k: FieldKey, init: nat): nat {
    if stopped then init else if k in gauges then Sub64(gauges[k], init) else 0
  }

  datatype GpuUsage = GpuUsage(correct: nat, uncorrect: nat, memory: nat, metrics: map<nat, Summary>)

  datatype JobInfo = JobInfo(numGpus: nat, startTime: nat, endTime: nat, summary: GpuUsage, gpus: map<nat, GpuUsage>)

  function OwnMetrics(s: GpuStats, memory: nat): map<nat, Summary>
    requires Divides(s, memory)
  {
    map f | f in s.fields && f in METRICS :: GpuSummary(s.fields[f], Adjuster(f, memory))
  }

  function AddMetrics(acc: map<nat, Summary>, s: GpuStats, memory: nat): map<nat, Summary>
    requires Divides(s, memory)
  {
    map f | f in acc ::
      if f in s.fields && f in METRICS then Accumulate(acc[f], s.fields[f], Adjuster(f, memory)) else acc[f]
  }

  /** The metrics once the fields outside `left` have been summarized. */
  ghost function OwnSome(s: GpuStats, memory: nat, left: set<nat>): map<nat, Summary>
    requires Divides(s, memory)
  {
    map f | f in s.fields && f in METRICS && f !in left :: GpuSummary(s.fields[f], Adjuster(f, memory))
  }

  ghost function AddSome(acc: map<nat, Summary>, s: GpuStats, memory: nat, left: set<nat>): map<nat, Summary>
    requires Divides(s, memory)
  {
    map f | f in acc ::
      if f in s.fields && f in METRICS && f !in left
      then Accumulate(acc[f], s.fields[f], Adjuster(f, memory)) else acc[f]
  }

  lemma OwnOneMore(s: GpuStats, memory: nat, left: set<nat>, f: nat)
    requires Divides(s, memory) && f in left && f in s.fields
    ensures
      var own := OwnSome(s, memory, left);
      OwnSome(s, memory, left - {f}) ==
        if f in METRICS then own[f := GpuSummary(s.fields[f], Adjuster(f, memory))] else own
  {
  }

  lemma AddOneMore(acc: map<nat, Summary>, s: GpuStats, memory: nat, left: set<nat>, f: nat)
    requires Divides(s, memory) && acc.Keys == METRICS && f in left && f in s.fields
    ensures
      var job := AddSome(acc, s, memory, left);
      && job.Keys == METRICS
      && AddSome(acc, s, memory, left - {f}) ==
        if f in METRICS then job[f := Accumulate(job[f], s.fields[f], Adjuster(f, memory))] else job
  {
    var job, more := AddSome(acc, s, memory, left), AddSome(acc, s, memory, left - {f});
    assert job.Keys == acc.Keys == more.Keys;
  }

  lemma SummarizeNone(acc: map<nat, Summary>, s: GpuStats, memory: nat)
    requires Divides(s, memory)
    ensures OwnSome(s, memory, s.fields.Keys) == map[] && AddSome(acc, s, memory, s.fields.Keys) == acc
    ensures OwnSome(s, memory, {}) == OwnMetrics(s, memory) && AddSome(acc, s, memory, {}) == AddMetrics(acc, s, memory)
  {
  }

  function PeakMemory(s: GpuStats): nat {
    if GPU_MEMORY_USAGE in s.fields then ToU64(s.fields[GPU_MEMORY_USAGE].max) else 0
  }

  /** What the report says of one GPU. */
  function UsageOf(g: nat, s: GpuStats, stopped: bool, gauges: Gauges, memory: nat): GpuUsage
    requires Divides(s, memory)
  {
    GpuUsage(EccReport(stopped, gauges, FieldKey(g, ECC_CORRECT_TOTAL), s.eccCorrect),
             EccReport(stopped, gauges, FieldKey(g, ECC_UNCORRECT_TOTAL), s.eccUncorrect),
             PeakMemory(s), OwnMetrics(s, memory))
  }

  /** The GPU can be reported: its total memory is known, and is not divided by when it is zero. */
  predicate GpuReportable(rec: JobRecord, gauges: Gauges, g: nat) {
    && g in rec.gpus && FieldKey(g, GPU_MEMORY_TOTAL) in gauges
    && Divides(rec.gpus[g], gauges[FieldKey(g, GPU_MEMORY_TOTAL)])
  }

  ghost predicate Reportable(rec: JobRecord, gauges: Gauges, order: seq<nat>) {
    forall g :: g in order ==> GpuReportable(rec, gauges, g)
  }

  function GpuReport(rec: JobRecord, gauges: Gauges, g: nat): GpuUsage
    requires GpuReportable(rec, gauges, g)
  {
    UsageOf(g, rec.gpus[g], rec.endTime != 0, gauges, gauges[FieldKey(g, GPU_MEMORY_TOTAL)])
  }

  const NO_USAGE: GpuUsage := GpuUsage(0, 0, 0, map f | f in METRICS :: NO_SUMMARY)

  function AddUsage(t: GpuUsage, u: GpuUsage, s: GpuStats, memory: nat): GpuUsage
    requires Divides(s, memory)
  {
    GpuUsage(t.correct + u.correct, t.uncorrect + u.uncorrect, Max(t.memory, u.memory),
             AddMetrics(t.metrics, s, memory))
  }

  /** The job summary accumulated over the GPUs visited so far. */
  ghost function TotalsOver(rec: JobRecord, gauges: Gauges, order: seq<nat>): (t: GpuUsage)
    requires Reportable(rec, gauges, order)
    ensures t.metrics.Keys == METRICS
  {
    if order == [] then NO_USAGE
    else
      var g := order[|order| - 1];
      assert g in order;
      AddUsage(TotalsOver(rec, gauges, order[..|order| - 1]), GpuReport(rec, gauges, g),
               rec.gpus[g], gauges[FieldKey(g, GPU_MEMORY_TOTAL)])
  }

  /** The per-GPU reports written so far. */
  ghost function ReportsOver(rec: JobRecord, gauges: Gauges, order: seq<nat>): map<nat, GpuUsage>
    requires Reportable(rec, gauges, order)
  {
    if order == [] then map[]
    else
      var g := order[|order| - 1];
      assert g in order;
      ReportsOver(rec, gauges, order[..|order| - 1])[g := GpuReport(rec, gauges, g)]
  }

  lemma {:induction false} ReportsOverContents(rec: JobRecord, gauges: Gauges, order: seq<nat>)
    requires Reportable(rec, gauges, order)
    ensures ReportsOver(rec, gauges, order) == map g | g in order :: GpuReport(rec, gauges, g)
  {
    if order != [] {
      var init, last := order[..|order| - 1], order[|order| - 1];
      assert order == init + [last];
      ReportsOverContents(rec, gauges, init);
    }
  }

  /** What the outer loop has computed over the GPUs visited so far. */
  ghost predicate ReportedSoFar(rec: JobRecord, gauges: Gauges, order: seq<nat>, total: GpuUsage,
                                gpus: map<nat, GpuUsage>) {
    && Reportable(rec, gauges, order)
    && total == TotalsOver(rec, gauges, order) && gpus == ReportsOver(rec, gauges, order)
  }

  lemma NoneReported(rec: JobRecord, gauges: Gauges)
    ensures ReportedSoFar(rec, gauges, [], NO_USAGE, map[])
  {
  }

  lemma ReportOneMore(rec: JobRecord, gauges: Gauges, order: seq<nat>, total: GpuUsage, gpus: map<nat, GpuUsage>,
                      g: nat, u: GpuUsage, more: GpuUsage)
    requires ReportedSoFar(rec, gauges, order, total, gpus) && GpuReportable(rec, gauges, g)
    requires u == GpuReport(rec, gauges, g)
    requires more == AddUsage(total, u, rec.gpus[g], gauges[FieldKey(g, GPU_MEMORY_TOTAL)])
    ensures ReportedSoFar(rec, gauges, order + [g], more, gpus[g := u])
  {
    var o := order + [g];
    assert o[..|o| - 1] == order && o[|o| - 1] == g;
  }

  /** `set_average_summary` on every metric. */
  function Averaged(t: GpuUsage, n: nat): GpuUsage
    requires n > 0
  {
    t.(metrics := map f | f in t.metrics :: t.metrics[f].(average := Div(t.metrics[f].average, n)))
  }

  lemma {:induction false} LeastExists(s: set<nat>)
    requires s != {}
    ensures exists m :: m in s && forall x :: x in s ==> m <= x
  {
    var a :| a in s;
    if s != {a} {
      var rest := s - {a};
      LeastExists(rest);
      var m :| m in rest && forall x :: x in rest ==> m <= x;
      assert forall x :: x in s ==> x == a || x in rest;
      var l := Min(a, m);
      assert l in s && forall x :: x in s ==> l <= x;
    }
  }

  function Least(s: set<nat>): (m: nat)
    requires s != {}
    ensures m in s && forall x :: x in s ==> m <= x
  {
    LeastExists(s);
    var m :| m in s && forall x :: x in s ==> m <= x;
    m
  }

  /** The iteration order of a `std::map` keyed by unsigned integers. */
  function Ascending(s: set<nat>): (order: seq<nat>)
    ensures forall x :: x in order <==> x in s
    ensures |order| == |s|
  {
    if s == {} then [] else
      var rest := s - {Least(s)};
      [Least(s)] + Ascending(rest)
  }

  ghost function JobReport(rec: JobRecord, gauges: Gauges, now: nat): JobInfo
    requires Reportable(rec, gauges, Ascending(rec.gpus.Keys)) && rec.gpus != map[]
  {
    JobInfo(|rec.gpus|, rec.startTime, if rec.endTime == 0 then now else rec.endTime,
            Averaged(TotalsOver(rec, gauges, Ascending(rec.gpus.Keys)), |rec.gpus|),
            map g | g in rec.gpus :: GpuReport(rec, gauges, g))
  }

  lemma ReportIs(rec: JobRecord, gauges: Gauges, now: nat, total: GpuUsage, gpus: map<nat, GpuUsage>)
    requires ReportedSoFar(rec, gauges, Ascending(rec.gpus.Keys), total, gpus) && rec.gpus != map[]
    ensures JobReport(rec, gauges, now) ==
      JobInfo(|rec.gpus|, rec.startTime, if rec.endTime != 0 then rec.endTime else now,
              Averaged(total, |rec.gpus|), gpus)
  {
    ReportsOverContents(rec, gauges, Ascending(rec.gpus.Keys));
  }

  /** How a request for a report ends; a division by zero ends the process. */
  datatype Outcome = Report(info: JobInfo) | Refusal(st: Status) | DivisionByZero

  /** The first GPU visited that cannot be reported decides. */
  function Fault(rec: JobRecord, gauges: Gauges, order: seq<nat>): Option<Outcome> {
    if order == [] then None
    else
      var g := order[0];
      if FieldKey(g, GPU_MEMORY_TOTAL) !in gauges then Some(Refusal(BadParameter))
      else if !GpuReportable(rec, gauges, g) then Some(DivisionByZero)
      else Fault(rec, gauges, order[1..])
  }

  lemma {:induction false} NoFaultIff(rec: JobRecord, gauges: Gauges, order: seq<nat>)
    ensures Fault(rec, gauges, order) == None <==> Reportable(rec, gauges, order)
  {
    if order != [] {
      NoFaultIff(rec, gauges, order[1..]);
      assert order == [order[0]] + order[1..];
      assert order[0] in order;
    }
  }

  /** The GPU's total memory is unknown and every GPU before it can be reported. */
  ghost predicate MissesFirst(rec: JobRecord, gauges: Gauges, gpus: set<nat>, g: nat) {
    && g in gpus && FieldKey(g, GPU_MEMORY_TOTAL) !in gauges
    && forall h :: h in gpus && h < g ==> GpuReportable(rec, gauges, h)
  }

  ghost predicate Misses(rec: JobRecord, gauges: Gauges, gpus: set<nat>) {
    exists g :: MissesFirst(rec, gauges, gpus, g)
  }

  lemma MissesOneMore(rec: JobRecord, gauges: Gauges, gpus: set<nat>, least: nat)
    requires least in gpus && forall h :: h in gpus ==> least <= h
    ensures Misses(rec, gauges, gpus) <==>
      FieldKey(least, GPU_MEMORY_TOTAL) !in gauges ||
      (GpuReportable(rec, gauges, least) && Misses(rec, gauges, gpus - {least}))
  {
    var rest := gpus - {least};
    assert forall h :: h in gpus && h != least ==> h in rest;
    if FieldKey(least, GPU_MEMORY_TOTAL) !in gauges {
      assert MissesFirst(rec, gauges, gpus, least);
    } else {
      forall g | MissesFirst(rec, gauges, gpus, g)
        ensures GpuReportable(rec, gauges, least) && MissesFirst(rec, gauges, rest, g)
      {
        assert least < g;
      }
      forall g | GpuReportable(rec, gauges, least) && MissesFirst(rec, gauges, rest, g)
        ensures MissesFirst(rec, gauges, gpus, g)
      {
      }
    }
  }

  lemma {:induction false} FirstFault(rec: JobRecord, gauges: Gauges, gpus: set<nat>)
    ensures Fault(rec, gauges, Ascending(gpus)) == Some(Refusal(BadParameter)) <==> Misses(rec, gauges, gpus)
    decreases gpus
  {
    if gpus != {} {
      var least, rest := Least(gpus), gpus - {Least(gpus)};
      FirstFault(rec, gauges, rest);
      MissesOneMore(rec, gauges, gpus, least);
      assert Ascending(gpus) == [least] + Ascending(rest);
      assert ([least] + Ascending(rest))[1..] == Ascending(rest);
    }
  }

  lemma {:induction false} FaultKinds(rec: JobRecord, gauges: Gauges, order: seq<nat>)
    ensures
      var fault := Fault(rec, gauges, order);
      fault.None? || fault == Some(Refusal(BadParameter)) || fault == Some(DivisionByZero)
  {
    if order != [] {
      FaultKinds(rec, gauges, order[1..]);
    }
  }

  /** The GPUs are visited in order, then the averages are taken over them all. */
  ghost function OutcomeOf(rec: JobRecord, gauges: Gauges, now: nat): Outcome {
    var order := Ascending(rec.gpus.Keys);
    var fault := Fault(rec, gauges, order);
    if fault.Some? then fault.value
    else if rec.gpus == map[] then DivisionByZero
    else (NoFaultIff(rec, gauges, order); Report(JobReport(rec, gauges, now)))
  }

  /** A report is made exactly when the job has a GPU and every one of them can be reported; it is
      refused, or ends the process, according to the first GPU that cannot. */
  lemma ReportMadeIff(rec: JobRecord, gauges: Gauges, now: nat)
    ensures OutcomeOf(rec, gauges, now).Report? <==>
            rec.gpus != map[] && forall g :: g in rec.gpus ==> GpuReportable(rec, gauges, g)
    ensures OutcomeOf(rec, gauges, now).Refusal? <==>
            Misses(rec, gauges, rec.gpus.Keys)
  {
    var order := Ascending(rec.gpus.Keys);
    NoFaultIff(rec, gauges, order);
    FirstFault(rec, gauges, rec.gpus.Keys);
    FaultKinds(rec, gauges, order);
    assert forall g :: g in rec.gpus <==> g in order;
  }

  /** A report shows the record's start time, and its end time or, while it runs, now. */
  lemma OutcomeTimes(rec: JobRecord, gauges: Gauges, now: nat)
    ensures
      var out := OutcomeOf(rec, gauges, now);
      out.Report? ==>
        out.info.startTime == rec.startTime && out.info.endTime == if rec.endTime == 0 then now else rec.endTime
  {
    FaultKinds(rec, gauges, Ascending(rec.gpus.Keys));
  }

  /** The GPU's total memory is known, dividing by it traps, and every GPU before it can be reported. */
  ghost predicate TrapsFirst(rec: JobRecord, gauges: Gauges, g: nat) {
    && g in rec.gpus && FieldKey(g, GPU_MEMORY_TOTAL) in gauges
    && !Divides(rec.gpus[g], gauges[FieldKey(g, GPU_MEMORY_TOTAL)])
    && forall h :: h in rec.gpus && h < g ==> GpuReportable(rec, gauges, h)
  }

  /** A report of a job with GPUs divides by zero exactly when the first GPU that cannot be reported
      has memory samples and a total memory the adjuster of which is zero. */
  lemma ReportTrapsIff(rec: JobRecord, gauges: Gauges, now: nat)
    requires rec.gpus != map[]
    ensures OutcomeOf(rec, gauges, now).DivisionByZero? <==> exists g :: TrapsFirst(rec, gauges, g)
  {
    ReportMadeIff(rec, gauges, now);
    var faulty := set g | g in rec.gpus && !GpuReportable(rec, gauges, g);
    if faulty == {} {
      assert forall g :: g in rec.gpus ==> g !in faulty;
    } else {
      var g := Least(faulty);
      assert forall h :: h in rec.gpus && h < g ==> h !in faulty;
      assert FieldKey(g, GPU_MEMORY_TOTAL) !in gauges ==> MissesFirst(rec, gauges, rec.gpus.Keys, g);
      assert FieldKey(g, GPU_MEMORY_TOTAL) in gauges ==> TrapsFirst(rec, gauges, g);
      forall h | MissesFirst(rec, gauges, rec.gpus.Keys, h) || TrapsFirst(rec, gauges, h) ensures h == g {
        assert h in faulty && g in faulty;
      }
    }
  }

  /** The adjuster is zero exactly for total memories less than 100 bytes above a multiple of 400 GiB:
      it is narrowed to 32 bits. */
  lemma ZeroAdjusterIff(memory: nat)
    ensures Adjuster(GPU_MEMORY_USAGE, memory) == 0 <==> memory % (100 * TWO32) < 100
  {
    var q, r := memory / (100 * TWO32), memory % (100 * TWO32);
    assert memory / 100 == q * TWO32 + r / 100;
    assert (q * TWO32 + r / 100) % TWO32 == r / 100;
  }

  /** A GPU of 400 GiB with one memory sample is enough. */
  lemma ReportDividesByZero(j: JobId, start: Gauges, time: nat, value: int, ts: nat, now: nat)
    ensures
      var c := Cache(map[], map[j := StartRecord([0], [GPU_MEMORY_USAGE], start, time)]);
      var sampled := ObserveJob(c, j, 0, Reading(GPU_MEMORY_USAGE, Ok, ts, value));
      && j in sampled.jobs
      && OutcomeOf(sampled.jobs[j], map[FieldKey(0, GPU_MEMORY_TOTAL) := 100 * TWO32], now).DivisionByZero?
  {
    var c := Cache(map[], map[j := StartRecord([0], [GPU_MEMORY_USAGE], start, time)]);
    var rec := ObserveJob(c, j, 0, Reading(GPU_MEMORY_USAGE, Ok, ts, value)).jobs[j];
    assert rec.gpus.Keys == {0} && 0 in rec.gpus;
    ZeroAdjusterIff(100 * TWO32);
    assert TrapsFirst(rec, map[FieldKey(0, GPU_MEMORY_TOTAL) := 100 * TWO32], 0);
    ReportTrapsIff(rec, map[FieldKey(0, GPU_MEMORY_TOTAL) := 100 * TWO32], now);
  }

  // ---------------------------------------------------------------------
  // What a report says about the samples and the counters

  /** The sum of `f` over some GPUs. */
  ghost function SumOver(order: seq<nat>, f: nat -> nat): nat {
    if order == [] then 0 else SumOver(order[..|order| - 1], f) + f(order[|order| - 1])
  }

  /** The correctable count reported for each GPU of a record. */
  ghost function Corrects(rec: JobRecord, gauges: Gauges): nat -> nat {
    g => if g in rec.gpus
         then EccReport(rec.endTime != 0, gauges, FieldKey(g, ECC_CORRECT_TOTAL), rec.gpus[g].eccCorrect) else 0
  }

  /** The uncorrectable count reported for each GPU of a record. */
  ghost function Uncorrects(rec: JobRecord, gauges: Gauges): nat -> nat {
    g => if g in rec.gpus
         then EccReport(rec.endTime != 0, gauges, FieldKey(g, ECC_UNCORRECT_TOTAL), rec.gpus[g].eccUncorrect) else 0
  }

  lemma EccOneMore(rec: JobRecord, gauges: Gauges, order: seq<nat>)
    requires Reportable(rec, gauges, order) && order != []
    ensures
      var init, g := order[..|order| - 1], order[|order| - 1];
      && TotalsOver(rec, gauges, order).correct == TotalsOver(rec, gauges, init).correct + Corrects(rec, gauges)(g)
      && TotalsOver(rec, gauges, order).uncorrect ==
        TotalsOver(rec, gauges, init).uncorrect + Uncorrects(rec, gauges)(g)
  {
    assert order[|order| - 1] in order;
  }

  /** The job's ECC totals are the sums of the per-GPU counts. */
  lemma {:induction false} EccTotalsAreSums(rec: JobRecord, gauges: Gauges, order: seq<nat>)
    requires Reportable(rec, gauges, order)
    ensures TotalsOver(rec, gauges, order).correct == SumOver(order, Corrects(rec, gauges))
    ensures TotalsOver(rec, gauges, order).uncorrect == SumOver(order, Uncorrects(rec, gauges))
  {
    if order != [] {
      EccTotalsAreSums(rec, gauges, order[..|order| - 1]);
      EccOneMore(rec, gauges, order);
    }
  }

  ghost function SamplesFor(gauges: Gauges, f: nat, g: nat, rs: seq<Reading>): GpuSamples
    requires FieldKey(g, GPU_MEMORY_TOTAL) in gauges
  {
    GpuSamples(rs, Adjuster(f, gauges[FieldKey(g, GPU_MEMORY_TOTAL)]))
  }

  /** The samples behind a metric of a record: every GPU's statistics are a fold of them. */
  ghost predicate Backed(rec: JobRecord, gauges: Gauges, f: nat, order: seq<nat>, samples: map<nat, seq<Reading>>) {
    && Reportable(rec, gauges, order)
    && f in METRICS
    && forall g :: g in order ==>
        && g in rec.gpus && g in samples && f in rec.gpus[g].fields
        && rec.gpus[g].fields[f] == Fold(samples[g])
        && Summable(SamplesFor(gauges, f, g, samples[g]))
  }

  ghost function AllSamples(rec: JobRecord, gauges: Gauges, f: nat, order: seq<nat>, samples: map<nat,
                            seq<Reading>>): (gs: seq<GpuSamples>)
    requires Backed(rec, gauges, f, order, samples)
    ensures |gs| == |order|
    ensures forall g :: g in gs ==> Summable(g)
    ensures forall i :: 0 <= i < |gs| ==> gs[i].readings == samples[order[i]]
  {
    if order == [] then []
    else
      var g := order[|order| - 1];
      assert g in order;
      AllSamples(rec, gauges, f, order[..|order| - 1], samples) + [SamplesFor(gauges, f, g, samples[g])]
  }

  lemma {:induction false} TotalsAccumulate(rec: JobRecord, gauges: Gauges, f: nat, order: seq<nat>,
                                            samples: map<nat, seq<Reading>>)
    requires Backed(rec, gauges, f, order, samples)
    ensures TotalsOver(rec, gauges, order).metrics[f] == AccumulateAll(AllSamples(rec, gauges, f, order, samples))
  {
    if order != [] {
      var init, g := order[..|order| - 1], order[|order| - 1];
      assert g in order && forall h :: h in init ==> h in order;
      TotalsAccumulate(rec, gauges, f, init, samples);
      var gs := AllSamples(rec, gauges, f, order, samples);
      assert gs[..|gs| - 1] == AllSamples(rec, gauges, f, init, samples);
    }
  }

  lemma AccumulatedReportBounds(rec: JobRecord, gauges: Gauges, f: nat, order: seq<nat>, samples: map<nat,
                                seq<Reading>>)
    requires order != [] && Backed(rec, gauges, f, order, samples)
    ensures
      var s := TotalsOver(rec, gauges, order).metrics[f];
      && Div(s.average, |order|) <= s.max
      && ((forall g :: g in order ==> samples[g] != []) ==> s.min <= Div(s.average, |order|))
  {
    var gs := AllSamples(rec, gauges, f, order, samples);
    TotalsAccumulate(rec, gauges, f, order, samples);
    JobSummaryBounds(gs);
    if forall g :: g in order ==> samples[g] != [] {
      forall g | g in gs ensures g.readings != [] {
        var i :| 0 <= i < |gs| && gs[i] == g;
        assert order[i] in order;
      }
    }
  }

  /** In a job report over nonnegative samples the average of a metric never exceeds its
      maximum, and is at least its minimum when every GPU of the job has samples. */
  lemma ReportBounds(rec: JobRecord, gauges: Gauges, now: nat, f: nat, samples: map<nat, seq<Reading>>)
    requires rec.gpus != map[] && Backed(rec, gauges, f, Ascending(rec.gpus.Keys), samples)
    ensures
      var s := JobReport(rec, gauges, now).summary.metrics[f];
      && s.average <= s.max
      && ((forall g :: g in rec.gpus ==> samples[g] != []) ==> s.min <= s.average)
  {
    var order := Ascending(rec.gpus.Keys);
    assert rec.gpus.Keys != {};
    var t := TotalsOver(rec, gauges, order);
    AccumulatedReportBounds(rec, gauges, f, order, samples);
    assert Averaged(t, |order|).metrics[f] == t.metrics[f].(average := Div(t.metrics[f].average, |order|));
  }

  /** One GPU of the record: reportable, with the metric a fold of samples that can be summed. */
  ghost predicate GpuBacked(rec: JobRecord, gauges: Gauges, f: nat, samples: map<nat, seq<Reading>>, g: nat) {
    && GpuReportable(rec, gauges, g) && g in samples && f in rec.gpus[g].fields
    && rec.gpus[g].fields[f] == Fold(samples[g])
    && Summable(SamplesFor(gauges, f, g, samples[g]))
  }

  ghost predicate AllSampled(gpus: set<nat>, samples: map<nat, seq<Reading>>) {
    forall g :: g in gpus ==> g in samples && samples[g] != []
  }

  /** The metric of a summary lies within its bounds, from below if every GPU has samples. */
  ghost predicate MetricBounded(metrics: map<nat, Summary>, f: nat, sampled: bool) {
    f in metrics && metrics[f].average <= metrics[f].max && (sampled ==> metrics[f].min <= metrics[f].average)
  }

  lemma OutcomeIsReport(rec: JobRecord, gauges: Gauges, now: nat)
    requires rec.gpus != map[] && Reportable(rec, gauges, Ascending(rec.gpus.Keys))
    ensures OutcomeOf(rec, gauges, now) == Report(JobReport(rec, gauges, now))
  {
    NoFaultIff(rec, gauges, Ascending(rec.gpus.Keys));
  }

  lemma GpusBacked(rec: JobRecord, gauges: Gauges, f: nat, samples: map<nat, seq<Reading>>, order: seq<nat>)
    requires f in METRICS && forall g :: g in order ==> GpuBacked(rec, gauges, f, samples, g)
    ensures Backed(rec, gauges, f, order, samples)
  {
  }

  /** The same of a report as it is made. */
  lemma OutcomeBounds(rec: JobRecord, gauges: Gauges, now: nat, f: nat, samples: map<nat, seq<Reading>>)
    requires rec.gpus != map[] && f in METRICS && forall g :: g in rec.gpus ==> GpuBacked(rec, gauges, f, samples, g)
    ensures
      var out := OutcomeOf(rec, gauges, now);
      out.Report? && MetricBounded(out.info.summary.metrics, f, AllSampled(rec.gpus.Keys, samples))
  {
    GpusBacked(rec, gauges, f, samples, Ascending(rec.gpus.Keys));
    OutcomeIsReport(rec, gauges, now);
    ReportBounds(rec, gauges, now, f, samples);
  }

  // ---------------------------------------------------------------------
  // What a report says exactly

  /** The unit a metric is reported in, given the GPU's total memory. */
  ghost predicate HasUnit(f: nat, memory: nat, u: nat) {
    || ((f == POWER_USAGE || f == GPU_CLOCK || f == MEM_CLOCK) && u == 1000000)
    || (f == GPU_TEMP && u == 1000)
    || ((f == PCIE_TX || f == PCIE_RX) && u == 1048576)
    || (f == GPU_UTIL && u == 1)
    || (f == GPU_MEMORY_USAGE && u == (memory / 100) % 4294967296)
  }

  lemma AdjusterIsUnit(f: nat, memory: nat, u: nat)
    requires HasUnit(f, memory, u)
    ensures f in METRICS && Adjuster(f, memory) == u
  {
  }

  /** What the report of a GPU says of a metric with these samples. */
  ghost predicate GpuShows(u: GpuUsage, f: nat, unit: nat, rs: seq<Reading>) {
    && f in u.metrics
    && (rs == [] ==> u.metrics[f] == Summary(0, 0xFFFF_FFFF_FFFF_FFFF, 0))
    && (rs != [] ==> Summarizes(u.metrics[f], rs, unit))
  }

  lemma GpuReportExact(rec: JobRecord, gauges: Gauges, f: nat, samples: map<nat, seq<Reading>>, g: nat, unit: nat)
    requires GpuBacked(rec, gauges, f, samples, g) && HasUnit(f, gauges[FieldKey(g, GPU_MEMORY_TOTAL)], unit)
    ensures GpuShows(GpuReport(rec, gauges, g), f, unit, samples[g])
    ensures samples[g] != [] ==> GpuReport(rec, gauges, g).metrics[f].min < TWO64
  {
    AdjusterIsUnit(f, gauges[FieldKey(g, GPU_MEMORY_TOTAL)], unit);
    if samples[g] != [] {
      GpuSummaryExact(samples[g], unit);
      GpuSummaryBounds(samples[g], unit);
    }
  }

  /** `own` are the reports of a metric for the GPUs that have samples of it. */
  ghost predicate OwnReports(rec: JobRecord, gauges: Gauges, f: nat, samples: map<nat, seq<Reading>>,
                             own: map<nat, Summary>, g: nat) {
    && GpuBacked(rec, gauges, f, samples, g) && f in METRICS
    && (g in own <==> samples[g] != [])
    && (g in own ==> own[g] == GpuReport(rec, gauges, g).metrics[f] && own[g].min < TWO64)
  }

  lemma TotalsNext(rec: JobRecord, gauges: Gauges, f: nat, samples: map<nat, seq<Reading>>, own: map<nat, Summary>,
                   order: seq<nat>, g: nat)
    requires Reportable(rec, gauges, order + [g]) && OwnReports(rec, gauges, f, samples, own, g)
    requires Reportable(rec, gauges, order)
    ensures
      var s := TotalsOver(rec, gauges, order).metrics[f];
      TotalsOver(rec, gauges, order + [g]).metrics[f] ==
        if g in own then Summary(Max(s.max, own[g].max), Min(s.min, own[g].min), s.average + own[g].average) else s
  {
    var o := order + [g];
    assert o[..|o| - 1] == order && o[|o| - 1] == g;
    FoldCount(samples[g]);
  }

  lemma TotalsOneMore(rec: JobRecord, gauges: Gauges, f: nat, samples: map<nat, seq<Reading>>, own: map<nat, Summary>,
                      order: seq<nat>, g: nat)
    requires Reportable(rec, gauges, order + [g]) && OwnReports(rec, gauges, f, samples, own, g)
    requires Reportable(rec, gauges, order) && Combines(TotalsOver(rec, gauges, order).metrics[f], order, own)
    ensures Combines(TotalsOver(rec, gauges, order + [g]).metrics[f], order + [g], own)
  {
    TotalsNext(rec, gauges, f, samples, own, order, g);
    if g in own {
      CombineSampled(TotalsOver(rec, gauges, order).metrics[f], order, own, g);
    } else {
      CombineSilent(TotalsOver(rec, gauges, order).metrics[f], order, own, g);
    }
  }

  lemma {:induction false} TotalsCombine(rec: JobRecord, gauges: Gauges, f: nat, samples: map<nat, seq<Reading>>,
                                         own: map<nat, Summary>, order: seq<nat>)
    requires Reportable(rec, gauges, order) && f in METRICS
    requires forall g :: g in order ==> OwnReports(rec, gauges, f, samples, own, g)
    ensures Combines(TotalsOver(rec, gauges, order).metrics[f], order, own)
  {
    if order != [] {
      var init, g := order[..|order| - 1], order[|order| - 1];
      assert order == init + [g];
      TotalsCombine(rec, gauges, f, samples, own, init);
      TotalsOneMore(rec, gauges, f, samples, own, init, g);
    }
  }

  /** The job's summary, from the sum of the averages. */
  ghost predicate JobShows(s: Summary, total: Summary, n: nat) {
    s.max == total.max && s.min == total.min && Quotient(s.average, total.average, n)
  }

  ghost function OwnOf(info: JobInfo, f: nat, samples: map<nat, seq<Reading>>): map<nat, Summary> {
    map g | g in info.gpus && g in samples && samples[g] != [] && f in info.gpus[g].metrics :: info.gpus[g].metrics[f]
  }

  /** A whole report says exactly this of a metric: what `GpuShows` says of every GPU; and of the job the
      greatest maximum and the least minimum of the GPUs with samples, and the sum of their averages
      over the number of all GPUs, rounded down. */
  ghost predicate ReportShows(info: JobInfo, gpus: set<nat>, f: nat, units: map<nat, nat>,
                              samples: map<nat, seq<Reading>>) {
    && info.gpus.Keys == gpus && gpus <= units.Keys && gpus <= samples.Keys && info.numGpus == |gpus|
    && (forall g :: g in gpus ==> GpuShows(info.gpus[g], f, units[g], samples[g]))
    && f in info.summary.metrics
    && exists total ::
        JobShows(info.summary.metrics[f], total, |gpus|) && Combines(total, Ascending(gpus), OwnOf(info, f, samples))
  }

  /** The GPU is backed by its samples, and `units` has its unit. */
  ghost predicate BackedInUnit(rec: JobRecord, gauges: Gauges, f: nat, units: map<nat, nat>,
                               samples: map<nat, seq<Reading>>, g: nat) {
    && GpuBacked(rec, gauges, f, samples, g)
    && g in units && HasUnit(f, gauges[FieldKey(g, GPU_MEMORY_TOTAL)], units[g])
  }

  /** The report has the report of each GPU. */
  ghost predicate HasReports(info: JobInfo, rec: JobRecord, gauges: Gauges) {
    && info.gpus.Keys == rec.gpus.Keys
    && forall g :: g in rec.gpus ==> GpuReportable(rec, gauges, g) && info.gpus[g] == GpuReport(rec, gauges, g)
  }

  lemma JobHasReports(rec: JobRecord, gauges: Gauges, now: nat)
    requires rec.gpus != map[] && Reportable(rec, gauges, Ascending(rec.gpus.Keys))
    ensures HasReports(JobReport(rec, gauges, now), rec, gauges)
  {
  }

  lemma OwnIsReport(info: JobInfo, rec: JobRecord, gauges: Gauges, f: nat, units: map<nat, nat>,
                    samples: map<nat, seq<Reading>>, g: nat)
    requires HasReports(info, rec, gauges) && g in rec.gpus && BackedInUnit(rec, gauges, f, units, samples, g)
    ensures GpuShows(info.gpus[g], f, units[g], samples[g])
    ensures OwnReports(rec, gauges, f, samples, OwnOf(info, f, samples), g)
  {
    AdjusterIsUnit(f, gauges[FieldKey(g, GPU_MEMORY_TOTAL)], units[g]);
    GpuReportExact(rec, gauges, f, samples, g, units[g]);
  }

  /** The sum over the GPUs, before it is divided by their number. */
  lemma TotalCombines(info: JobInfo, rec: JobRecord, gauges: Gauges, f: nat, units: map<nat, nat>,
                      samples: map<nat, seq<Reading>>, order: seq<nat>)
    requires HasReports(info, rec, gauges) && f in METRICS && Reportable(rec, gauges, order)
    requires forall g :: g in order ==> g in rec.gpus && BackedInUnit(rec, gauges, f, units, samples, g)
    ensures Combines(TotalsOver(rec, gauges, order).metrics[f], order, OwnOf(info, f, samples))
  {
    forall g | g in order ensures OwnReports(rec, gauges, f, samples, OwnOf(info, f, samples), g) {
      OwnIsReport(info, rec, gauges, f, units, samples, g);
    }
    TotalsCombine(rec, gauges, f, samples, OwnOf(info, f, samples), order);
  }

  lemma JobIsAveraged(rec: JobRecord, gauges: Gauges, now: nat, f: nat)
    requires rec.gpus != map[] && Reportable(rec, gauges, Ascending(rec.gpus.Keys)) && f in METRICS
    ensures
      var info, total := JobReport(rec, gauges, now), TotalsOver(rec, gauges, Ascending(rec.gpus.Keys)).metrics[f];
      f in info.summary.metrics && JobShows(info.summary.metrics[f], total, |rec.gpus|) && info.numGpus == |rec.gpus|
  {
    DivIsQuotient(TotalsOver(rec, gauges, Ascending(rec.gpus.Keys)).metrics[f].average, |rec.gpus|);
  }

  lemma ShowsAll(info: JobInfo, rec: JobRecord, gauges: Gauges, f: nat, units: map<nat, nat>,
                 samples: map<nat, seq<Reading>>, total: Summary)
    requires HasReports(info, rec, gauges) && info.numGpus == |rec.gpus|
    requires forall g :: g in rec.gpus ==> BackedInUnit(rec, gauges, f, units, samples, g)
    requires f in info.summary.metrics && JobShows(info.summary.metrics[f], total, |rec.gpus|)
    requires Combines(total, Ascending(rec.gpus.Keys), OwnOf(info, f, samples))
    ensures ReportShows(info, rec.gpus.Keys, f, units, samples)
  {
    forall g | g in rec.gpus ensures GpuShows(info.gpus[g], f, units[g], samples[g]) {
      OwnIsReport(info, rec, gauges, f, units, samples, g);
    }
  }

  lemma ReportIsExact(rec: JobRecord, gauges: Gauges, now: nat, f: nat, units: map<nat, nat>,
                      samples: map<nat, seq<Reading>>)
    requires rec.gpus != map[] && Reportable(rec, gauges, Ascending(rec.gpus.Keys)) && f in METRICS
    requires forall g :: g in rec.gpus ==> BackedInUnit(rec, gauges, f, units, samples, g)
    ensures ReportShows(JobReport(rec, gauges, now), rec.gpus.Keys, f, units, samples)
  {
    var info, order := JobReport(rec, gauges, now), Ascending(rec.gpus.Keys);
    JobHasReports(rec, gauges, now);
    JobIsAveraged(rec, gauges, now, f);
    TotalCombines(info, rec, gauges, f, units, samples, order);
    ShowsAll(info, rec, gauges, f, units, samples, TotalsOver(rec, gauges, order).metrics[f]);
  }

  /** So the report as it is made, for every metric in its own unit. */
  lemma OutcomeIsExact(rec: JobRecord, gauges: Gauges, now: nat, f: nat, units: map<nat, nat>,
                       samples: map<nat, seq<Reading>>)
    requires rec.gpus != map[] && forall g :: g in rec.gpus ==> BackedInUnit(rec, gauges, f, units, samples, g)
    ensures
      var out := OutcomeOf(rec, gauges, now);
      out.Report? && ReportShows(out.info, rec.gpus.Keys, f, units, samples)
  {
    OutcomeIsReport(rec, gauges, now);
    assert rec.gpus.Keys != {};
    var g :| g in rec.gpus;
    AdjusterIsUnit(f, gauges[FieldKey(g, GPU_MEMORY_TOTAL)], units[g]);
    ReportIsExact(rec, gauges, now, f, units, samples);
  }

  lemma {:induction false} TotalMemory(rec: JobRecord, gauges: Gauges, order: seq<nat>)
    requires Reportable(rec, gauges, order)
    ensures forall g :: g in order ==> GpuReport(rec, gauges, g).memory <= TotalsOver(rec, gauges, order).memory
    ensures TotalsOver(rec, gauges, order).memory == 0 ||
            exists g :: g in order && GpuReport(rec, gauges, g).memory == TotalsOver(rec, gauges, order).memory
  {
    if order != [] {
      var init, last := order[..|order| - 1], order[|order| - 1];
      assert order == init + [last] && last in order;
      TotalMemory(rec, gauges, init);
    }
  }

  /** The memory shown for a GPU with these memory samples. */
  ghost predicate IsPeak(memory: nat, rs: seq<Reading>) {
    (rs == [] ==> memory == 0) && (rs != [] ==> IsMax(rs, memory))
  }

  lemma GpuMemoryIsPeak(rec: JobRecord, gauges: Gauges, samples: map<nat, seq<Reading>>, g: nat)
    requires GpuBacked(rec, gauges, GPU_MEMORY_USAGE, samples, g)
    ensures IsPeak(GpuReport(rec, gauges, g).memory, samples[g])
  {
    if samples[g] != [] {
      FoldCounts(samples[g]);
      MaxBelowSum(samples[g], Fold(samples[g]).max);
      SmallU64(Fold(samples[g]).max);
    }
  }

  /** The memory a report shows for a GPU is its greatest memory sample, and for the job the greatest
      over its GPUs. */
  ghost predicate MemoryShows(info: JobInfo, gpus: set<nat>, samples: map<nat, seq<Reading>>) {
    && info.gpus.Keys == gpus && gpus <= samples.Keys
    && (forall g :: g in gpus ==> IsPeak(info.gpus[g].memory, samples[g]) && info.gpus[g].memory <= info.summary.memory)
    && (info.summary.memory == 0 || exists g :: g in gpus && info.gpus[g].memory == info.summary.memory)
  }

  lemma MemoryOf(info: JobInfo, rec: JobRecord, gauges: Gauges, samples: map<nat, seq<Reading>>, order: seq<nat>)
    requires HasReports(info, rec, gauges) && Reportable(rec, gauges, order)
    requires forall g :: g in order <==> g in rec.gpus
    requires info.summary.memory == TotalsOver(rec, gauges, order).memory
    requires forall g :: g in rec.gpus ==> GpuBacked(rec, gauges, GPU_MEMORY_USAGE, samples, g)
    ensures MemoryShows(info, rec.gpus.Keys, samples)
  {
    TotalMemory(rec, gauges, order);
    forall g | g in rec.gpus ensures IsPeak(info.gpus[g].memory, samples[g]) {
      GpuMemoryIsPeak(rec, gauges, samples, g);
    }
  }

  lemma OutcomeMemory(rec: JobRecord, gauges: Gauges, now: nat, samples: map<nat, seq<Reading>>)
    requires rec.gpus != map[]
    requires forall g :: g in rec.gpus ==> GpuBacked(rec, gauges, GPU_MEMORY_USAGE, samples, g)
    ensures
      var out := OutcomeOf(rec, gauges, now);
      out.Report? && MemoryShows(out.info, rec.gpus.Keys, samples)
  {
    OutcomeIsReport(rec, gauges, now);
    JobHasReports(rec, gauges, now);
    MemoryOf(JobReport(rec, gauges, now), rec, gauges, samples, Ascending(rec.gpus.Keys));
  }

  lemma ObserveKeepsGpus(c: Cache, i: JobId, gpu: nat, r: Reading, j: JobId)
    ensures
      var n := ObserveJob(c, i, gpu, r);
      && (j in n.jobs <==> j in c.jobs)
      && (j in c.jobs ==> n.jobs[j].gpus.Keys == c.jobs[j].gpus.Keys)
      && (j in c.jobs ==> n.jobs[j].startTime == c.jobs[j].startTime && n.jobs[j].endTime == c.jobs[j].endTime)
  {
    if RecordOf(c, i, FieldKey(gpu, r.field)).Some? {
      var rec := c.jobs[i];
      var g := rec.gpus[gpu].(fields := rec.gpus[gpu].fields[r.field := Observe(rec.gpus[gpu].fields[r.field], r)]);
      assert rec.gpus[gpu := g].Keys == rec.gpus.Keys;
    }
  }

  /** The difference a report shows is the true one for a gauge that did not go down. */
  lemma MonotoneGauge(a: nat, b: nat)
    requires a <= b < TWO64
    ensures Sub64(b, a) == b - a
  {
  }

  // ---------------------------------------------------------------------
  // The object

  /** What is cached for a key is a suffix of what was accepted for it. */
  ghost predicate Suffixes(samples: map<FieldKey, seq<Sample>>, accepted: map<FieldKey, seq<Sample>>) {
    forall k :: k in samples ==> k in accepted && IsSuffix(samples[k], accepted[k])
  }

  lemma SuffixAppend(xs: seq<Sample>, ys: seq<Sample>, s: Sample)
    requires IsSuffix(xs, ys)
    ensures IsSuffix(xs + [s], ys + [s])
  {
    assert (ys + [s])[|ys| - |xs|..] == ys[|ys| - |xs|..] + [s];
  }

  lemma StoreKeepsSuffixes(samples: map<FieldKey, seq<Sample>>, accepted: map<FieldKey, seq<Sample>>, k: FieldKey,
                           s: Sample)
    requires Suffixes(samples, accepted)
    ensures Suffixes(samples[k := Lookup(samples, k) + [s]], accepted[k := Lookup(accepted, k) + [s]])
  {
    SuffixAppend(Lookup(samples, k), Lookup(accepted, k), s);
  }

  lemma SuffixTransitive(xs: seq<Sample>, ys: seq<Sample>, zs: seq<Sample>)
    requires IsSuffix(xs, ys) && IsSuffix(ys, zs)
    ensures IsSuffix(xs, zs)
  {
  }

  lemma ShortenKeepsSuffixes(samples: map<FieldKey, seq<Sample>>, accepted: map<FieldKey, seq<Sample>>, k: FieldKey,
                             ys: seq<Sample>)
    requires Suffixes(samples, accepted) && k in samples && IsSuffix(ys, samples[k])
    ensures Suffixes(samples[k := ys], accepted)
  {
    SuffixTransitive(ys, samples[k], accepted[k]);
  }

  class Manager {
    var samples: map<FieldKey, seq<Sample>>
    var jobs: map<JobId, JobRecord>
    /** Every sample ever accepted for a key. */
    ghost var accepted: map<FieldKey, seq<Sample>>

    ghost function State(): Cache
      reads this
    {
      Cache(samples, jobs)
    }

    ghost predicate Valid()
      reads this
    {
      Suffixes(samples, accepted)
    }

    constructor ()
      ensures Valid() && State() == Cache(map[], map[]) && accepted == map[]
    {
      samples, jobs, accepted := map[], map[], map[];
    }

    method UpdateCache(gpu: nat, r: Reading)
      requires Valid()
      modifies this
      ensures Valid() && State() == Store(old(State()), FieldKey(gpu, r.field), r)
      ensures
        var k := FieldKey(gpu, r.field);
        accepted == old(accepted)[k := Lookup(old(accepted), k) + [Sample(r.ts, r.value)]]
    {
      var k, s := FieldKey(gpu, r.field), Sample(r.ts, r.value);
      StoreKeepsSuffixes(samples, accepted, k, s);
      accepted := accepted[k := Lookup(accepted, k) + [s]];
      if k !in samples {
        samples := samples[k := [s]];
      } else {
        samples := samples[k := samples[k] + [s]];
      }
      assert samples[k] == Lookup(old(samples), k) + [s];
    }

    method EvictCache(gpu: nat, field: nat, maxKeep: nat, age: real, now: nat) returns (st: Status)
      requires Valid()
      modifies this
      ensures Valid() && accepted == old(accepted)
      ensures State() == EvictKey(old(State()), FieldKey(gpu, field), maxKeep, age, now)
      ensures st == if SamplesOf(old(State()), FieldKey(gpu, field)) == [] then NotFound else Ok
    {
      var k := FieldKey(gpu, field);
      if k !in samples || samples[k] == [] {
        assert k in samples ==> samples[k := samples[k]] == samples;
        return NotFound;
      }
      var ys := EvictVector(samples[k], maxKeep, age, now);
      EvictSuffix(samples[k], maxKeep, age, now);
      ShortenKeepsSuffixes(samples, accepted, k, ys);
      samples := samples[k := ys];
      st := Ok;
    }

    /** The latest value is the last one accepted, or nothing. */
    method GetLatest(gpu: nat, field: nat) returns (r: Option<Sample>)
      requires Valid()
      ensures r == None <==> SamplesOf(State(), FieldKey(gpu, field)) == []
      ensures r.Some? ==>
        var h := Lookup(accepted, FieldKey(gpu, field));
        h != [] && r.value == h[|h| - 1]
    {
      var k := FieldKey(gpu, field);
      if k !in samples || samples[k] == [] {
        return None;
      }
      r := Some(samples[k][|samples[k]| - 1]);
    }

    method GetValueSince(gpu: nat, field: nat, since: nat) returns (r: Option<Sample>, next: nat)
      ensures
        var xs := SamplesOf(State(), FieldKey(gpu, field));
        var i := First(xs, since);
        if i == |xs| then r == None && next == since else r == Some(xs[i]) && next == NextCursor(xs, i)
    {
      var k := FieldKey(gpu, field);
      if k !in samples || samples[k] == [] {
        return None, since;
      }
      var i;
      i, next := ReadSince(samples[k], since);
      r := if i < |samples[k]| then Some(samples[k][i]) else None;
    }

    method UpdateJobStats(gpu: nat, j: JobId, r: Reading) returns (st: Status)
      modifies this`jobs
      ensures State() == ObserveJob(old(State()), j, gpu, r)
      ensures st == if RecordOf(old(State()), j, FieldKey(gpu, r.field)).Some? then Ok else NotFound
    {
      if j !in jobs || gpu !in jobs[j].gpus || r.field !in jobs[j].gpus[gpu].fields {
        return NotFound;
      }
      var g := jobs[j].gpus[gpu];
      var f := Observe(g.fields[r.field], r);
      jobs := jobs[j := jobs[j].(gpus := jobs[j].gpus[gpu := g.(fields := g.fields[r.field := f])])];
      st := Ok;
    }

    /** The inner loop of `rdc_job_start_stats`: the empty records of one GPU. */
    method EmptySummaries(fields: seq<nat>) returns (summaries: map<nat, FieldStats>)
      ensures summaries == map f | f in fields :: EMPTY_STATS
    {
      summaries := map[];
      for n := 0 to |fields|
        invariant summaries == map f | f in fields[..n] :: EMPTY_STATS
      {
        summaries := summaries[fields[n] := EMPTY_STATS];
      }
      assert fields[..|fields|] == fields;
    }

    method JobStart(j: JobId, gpus: seq<nat>, fields: seq<nat>, gauges: Gauges, time: nat)
      modifies this`jobs
      ensures jobs == old(jobs)[j := StartRecord(gpus, fields, gauges, time)]
    {
      var table: map<nat, GpuStats> := map[];
      for i := 0 to |gpus|
        invariant jobs == old(jobs)
        invariant forall g :: g in table <==> g in gpus[..i]
        invariant forall g :: g in table ==> table[g] == StartGpu(g, fields, gauges)
      {
        var summaries := EmptySummaries(fields);
        var correct := GaugeOr(gauges, FieldKey(gpus[i], ECC_CORRECT_TOTAL), 0);
        var uncorrect := GaugeOr(gauges, FieldKey(gpus[i], ECC_UNCORRECT_TOTAL), 0);
        if gpus[i] !in table {
          table := table[gpus[i] := GpuStats(correct, uncorrect, summaries)];
        }
        assert gpus[..i + 1] == gpus[..i] + [gpus[i]];
      }
      assert gpus[..|gpus|] == gpus;
      assert table == map g | g in gpus :: StartGpu(g, fields, gauges);
      var rec := JobRecord(time, 0, table);
      assert rec == StartRecord(gpus, fields, gauges, time);
      jobs := jobs[j := rec];
    }

    method JobStop(j: JobId, gauges: Gauges, time: nat) returns (st: Status)
      modifies this`jobs
      ensures st == if j in old(jobs) then Ok else NotFound
      ensures jobs == if j in old(jobs) then old(jobs)[j := StopRecord(old(jobs)[j], gauges, time)] else old(jobs)
    {
      if j !in jobs {
        return NotFound;
      }
      var rec := jobs[j];
      var table, left := rec.gpus, rec.gpus.Keys;
      while left != {}
        invariant left <= rec.gpus.Keys && table.Keys == rec.gpus.Keys
        invariant forall g :: g in rec.gpus ==>
          table[g] == if g in left then rec.gpus[g] else StopGpu(g, rec.gpus[g], gauges)
        decreases left
      {
        var g :| g in left;
        table := table[g := StopGpu(g, table[g], gauges)];
        left := left - {g};
      }
      assert table == StopRecord(rec, gauges, time).gpus;
      jobs := jobs[j := JobRecord(rec.startTime, time, table)];
      st := Ok;
    }

    method JobRemove(j: JobId)
      modifies this`jobs
      ensures jobs == old(jobs) - {j}
    {
      jobs := jobs - {j};
    }

    method JobRemoveAll()
      modifies this`jobs
      ensures jobs == map[]
    {
      jobs := map[];
    }

    /** The inner loop of `rdc_job_get_stats`: one GPU's metrics and their share of the job's. */
    method SummarizeGpu(s: GpuStats, memory: nat, acc: map<nat, Summary>)
      returns (own: map<nat, Summary>, job: map<nat, Summary>)
      requires Divides(s, memory) && acc.Keys == METRICS
      ensures own == OwnMetrics(s, memory) && job == AddMetrics(acc, s, memory)
    {
      SummarizeNone(acc, s, memory);
      own, job := map[], acc;
      var left := s.fields.Keys;
      while left != {}
        invariant left <= s.fields.Keys
        invariant own == OwnSome(s, memory, left)
        invariant job == AddSome(acc, s, memory, left)
        decreases left
      {
        var f :| f in left;
        OwnOneMore(s, memory, left, f);
        AddOneMore(acc, s, memory, left, f);
        if f in METRICS {
          own := own[f := GpuSummary(s.fields[f], Adjuster(f, memory))];
          job := job[f := Accumulate(job[f], s.fields[f], Adjuster(f, memory))];
        }
        left := left - {f};
      }
    }

    /** One turn of the outer loop of `rdc_job_get_stats`. */
    method ReportGpu(g: nat, s: GpuStats, stopped: bool, gauges: Gauges, memory: nat, total: GpuUsage)
      returns (u: GpuUsage, more: GpuUsage)
      requires Divides(s, memory) && total.metrics.Keys == METRICS
      ensures u == UsageOf(g, s, stopped, gauges, memory) && more == AddUsage(total, u, s, memory)
    {
      var own, job := SummarizeGpu(s, memory, total.metrics);
      u := GpuUsage(EccReport(stopped, gauges, FieldKey(g, ECC_CORRECT_TOTAL), s.eccCorrect),
                    EccReport(stopped, gauges, FieldKey(g, ECC_UNCORRECT_TOTAL), s.eccUncorrect),
                    PeakMemory(s), own);
      more := GpuUsage(total.correct + u.correct, total.uncorrect + u.uncorrect, Max(total.memory, u.memory), job);
    }

    /** One turn of that loop. */
    method ReportNext(rec: JobRecord, gauges: Gauges, ghost done: seq<nat>, g: nat, total: GpuUsage,
                      gpus: map<nat, GpuUsage>)
      returns (more: GpuUsage, reports: map<nat, GpuUsage>)
      requires ReportedSoFar(rec, gauges, done, total, gpus) && GpuReportable(rec, gauges, g)
      ensures ReportedSoFar(rec, gauges, done + [g], more, reports)
    {
      var u;
      u, more := ReportGpu(g, rec.gpus[g], rec.endTime != 0, gauges, gauges[FieldKey(g, GPU_MEMORY_TOTAL)], total);
      ReportOneMore(rec, gauges, done, total, gpus, g, u, more);
      reports := gpus[g := u];
    }

    /** The outer loop of `rdc_job_get_stats`: stops at the first GPU that cannot be reported. */
    method ReportGpus(rec: JobRecord, gauges: Gauges, order: seq<nat>)
      returns (fault: Option<Outcome>, total: GpuUsage, gpus: map<nat, GpuUsage>)
      requires forall g :: g in order ==> g in rec.gpus
      ensures fault == Fault(rec, gauges, order)
      ensures fault.None? ==> ReportedSoFar(rec, gauges, order, total, gpus)
    {
      fault, total, gpus := None, NO_USAGE, map[];
      ghost var done := [];
      var left := order;
      NoneReported(rec, gauges);
      while left != []
        invariant done + left == order
        invariant ReportedSoFar(rec, gauges, done, total, gpus)
        invariant Fault(rec, gauges, order) == Fault(rec, gauges, left)
        decreases |left|
      {
        var g := left[0];
        assert g in order;
        if FieldKey(g, GPU_MEMORY_TOTAL) !in gauges {
          return Some(Refusal(BadParameter)), total, gpus;
        }
        if !Divides(rec.gpus[g], gauges[FieldKey(g, GPU_MEMORY_TOTAL)]) {
          return Some(DivisionByZero), total, gpus;
        }
        total, gpus := ReportNext(rec, gauges, done, g, total, gpus);
        done, left := done + [g], left[1..];
      }
      assert done == order;
    }

    /** The report of a job, or why there is none. */
    method JobGetStats(j: JobId, gauges: Gauges, now: nat) returns (out: Outcome)
      ensures out == if j !in jobs then Refusal(NotFound) else OutcomeOf(jobs[j], gauges, now)
    {
      if j !in jobs {
        return Refusal(NotFound);
      }
      var rec := jobs[j];
      var order := Ascending(rec.gpus.Keys);
      var fault, total, gpus := ReportGpus(rec, gauges, order);
      if fault.Some? {
        return fault.value;
      }
      if |rec.gpus| == 0 {
        return DivisionByZero;
      }
      ReportIs(rec, gauges, now, total, gpus);
      out := Report(JobInfo(|rec.gpus|, rec.startTime, if rec.endTime != 0 then rec.endTime else now,
                            Averaged(total, |rec.gpus|), gpus));
    }
  }
}
