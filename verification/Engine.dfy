/** The metrics engine as a state machine on values: the watch table (`RdcWatchTableImpl`), the
    groups, the cache and the open event counters, with one step function per critical section. */
module Engine {
  import opened Common
  import GroupSettings
  import opened SampleCache
  import opened CacheManager
  import opened Telemetry

  /** `FieldSettings`. */
  datatype Settings = Settings(updateFreq: nat, maxKeepSamples: nat, maxKeepAge: real, isWatching: bool,
                               lastUpdateTime: nat)

  /** `JobWatchTableEntry`. */
  datatype JobEntry = JobEntry(groupId: nat, fields: seq<FieldKey>)

  type Groups = GroupSettings.Groups
  type Watches = map<GroupKey, Settings>
  type Fields = map<FieldKey, Settings>
  type Jobs = map<JobId, JobEntry>

  /** `clock` is the latest reading taken under the watch mutex; it is not a field of the source. */
  datatype Engine = Engine(queries: Queries, groups: Groups, watches: Watches, fields: Fields, jobs: Jobs,
                           cache: Cache, handles: set<FieldKey>, lastCleanup: nat, clock: nat)

  ghost function Initial(qs: Queries): Engine {
    Engine(qs, GroupSettings.INITIAL, map[], map[], map[], Cache(map[], map[]), {}, 0, 0)
  }

  // ---------------------------------------------------------------------
  // What a watch covers

  predicate Named(gs: Groups, g: GroupKey) {
    g.gpuGroup in gs.gpus && g.fieldGroup in gs.fields
  }

  predicate Covers(gs: Groups, g: GroupKey, k: FieldKey) {
    Named(gs, g) && k.gpu in gs.gpus[g.gpuGroup] && k.field in gs.fields[g.fieldGroup]
  }

  function Row(gpu: nat, fields: seq<nat>): seq<FieldKey> {
    seq(|fields|, j requires 0 <= j < |fields| => FieldKey(gpu, fields[j]))
  }

  /** GPUs times fields, in the order of `get_fields_from_group`. */
  function Cross(gpus: seq<nat>, fields: seq<nat>): seq<FieldKey> {
    if gpus == [] then [] else Cross(gpus[..|gpus| - 1], fields) + Row(gpus[|gpus| - 1], fields)
  }

  function KeysOf(gs: Groups, g: GroupKey): seq<FieldKey>
    requires Named(gs, g)
  {
    Cross(gs.gpus[g.gpuGroup], gs.fields[g.fieldGroup])
  }

  lemma {:induction false} CrossContents(gpus: seq<nat>, fields: seq<nat>)
    ensures forall k :: k in Cross(gpus, fields) <==> k.gpu in gpus && k.field in fields
  {
    if gpus != [] {
      var init, last := gpus[..|gpus| - 1], gpus[|gpus| - 1];
      assert gpus == init + [last];
      CrossContents(init, fields);
      forall k: FieldKey ensures k in Row(last, fields) <==> k.gpu == last && k.field in fields {
        if k.gpu == last && k.field in fields {
          var j :| 0 <= j < |fields| && fields[j] == k.field;
          assert Row(last, fields)[j] == k;
        }
      }
    }
  }

  predicate Active(ws: Watches, g: GroupKey) {
    g in ws && ws[g].isWatching
  }

  predicate Watching(fs: Fields, k: FieldKey) {
    k in fs && fs[k].isWatching
  }

  /** An active watch covers the key. */
  ghost predicate Asks(ws: Watches, gs: Groups, g: GroupKey, k: FieldKey) {
    Active(ws, g) && Covers(gs, g, k)
  }

  ghost predicate Wanted(ws: Watches, gs: Groups, k: FieldKey) {
    exists g :: Asks(ws, gs, g, k)
  }

  /** `m` is the minimum update frequency over the active watches that cover the key. */
  ghost predicate LeastFreq(ws: Watches, gs: Groups, k: FieldKey, m: nat) {
    && (exists g :: Asks(ws, gs, g, k) && ws[g].updateFreq == m)
    && (forall g :: Asks(ws, gs, g, k) ==> m <= ws[g].updateFreq)
  }

  lemma {:induction false} LeastFreqExists(ws: Watches, gs: Groups, k: FieldKey, g: GroupKey)
    requires Asks(ws, gs, g, k)
    ensures exists m :: LeastFreq(ws, gs, k, m)
    decreases ws[g].updateFreq
  {
    if h :| Asks(ws, gs, h, k) && ws[h].updateFreq < ws[g].updateFreq {
      LeastFreqExists(ws, gs, k, h);
    } else {
      assert LeastFreq(ws, gs, k, ws[g].updateFreq);
    }
  }

  ghost function MinFreq(ws: Watches, gs: Groups, k: FieldKey): (m: nat)
    requires Wanted(ws, gs, k)
    ensures LeastFreq(ws, gs, k, m)
  {
    var g :| Asks(ws, gs, g, k);
    LeastFreqExists(ws, gs, k, g);
    var m :| LeastFreq(ws, gs, k, m);
    m
  }

  // ---------------------------------------------------------------------
  // Watch and unwatch

  function NewWatch(freq: nat, age: real, samples: nat): Settings {
    Settings(freq, samples, age, true, 0)
  }

  /** The settings of a field after a watch that covers it. */
  function MergeOne(fs: Fields, k: FieldKey, f: Settings): Settings {
    if k !in fs then f
    else
      var o := fs[k];
      Settings(if o.isWatching then Min(o.updateFreq, f.updateFreq) else f.updateFreq,
               Max(o.maxKeepSamples, f.maxKeepSamples), MaxReal(o.maxKeepAge, f.maxKeepAge), true, o.lastUpdateTime)
  }

  function Merged(fs: Fields, keys: set<FieldKey>, f: Settings): Fields {
    map k | k in fs.Keys + keys :: if k in keys then MergeOne(fs, k, f) else fs[k]
  }

  /** The supported fields a watch covers. */
  function Supported(qs: Queries, gs: Groups, g: GroupKey): set<FieldKey>
    requires Named(gs, g)
  {
    set k | k in KeysOf(gs, g) && Supports(qs, k.field)
  }

  function CountersFor(qs: Queries, fs: Fields, granted: set<FieldKey>): set<FieldKey> {
    set k | k in fs && fs[k].isWatching && Counted(qs, k) && k in granted
  }

  function WatchStatus(e: Engine, g: GroupKey): Status {
    if Active(e.watches, g) then Conflict else if !Named(e.groups, g) then NotFound else Ok
  }

  /** `rdc_field_watch`; `granted` are the counters the SMI calls would give. */
  function WatchStep(e: Engine, g: GroupKey, f: Settings, granted: set<FieldKey>): Engine {
    if Active(e.watches, g) then e
    else if !Named(e.groups, g) then e.(watches := e.watches - {g})
    else
      var fs := Merged(e.fields, Supported(e.queries, e.groups, g), f);
      e.(watches := e.watches[g := f], fields := fs, handles := e.handles + CountersFor(e.queries, fs, granted))
  }

  ghost predicate KeyGranted(e: Engine, s: Settings, k: FieldKey, freq: nat, age: real, samples: nat) {
    && s.isWatching && s.updateFreq <= freq && s.maxKeepAge >= age && s.maxKeepSamples >= samples
    && (s.updateFreq == freq || (Watching(e.fields, k) && s.updateFreq == e.fields[k].updateFreq))
    && (s.maxKeepAge == age || (k in e.fields && s.maxKeepAge == e.fields[k].maxKeepAge))
    && (s.maxKeepSamples == samples || (k in e.fields && s.maxKeepSamples == e.fields[k].maxKeepSamples))
    && (k in e.fields ==> s.updateFreq <= e.fields[k].updateFreq || !e.fields[k].isWatching)
    && (k in e.fields ==> s.maxKeepAge >= e.fields[k].maxKeepAge && s.maxKeepSamples >= e.fields[k].maxKeepSamples)
    && (k in e.fields ==> s.lastUpdateTime == e.fields[k].lastUpdateTime)
  }

  /** What a watch that succeeds gives the client, in terms of what was asked: an active entry with
      exactly these settings, and every supported key it covers marked, at least as often and kept at
      least as long, by the old settings of the key or the new ones. */
  ghost predicate Granted(e: Engine, n: Engine, g: GroupKey, freq: nat, age: real, samples: nat) {
    && g in n.watches && n.watches[g].isWatching
    && n.watches[g].updateFreq == freq && n.watches[g].maxKeepAge == age && n.watches[g].maxKeepSamples == samples
    && (forall h :: h != g ==> (h in n.watches <==> h in e.watches))
    && (forall h :: h != g && h in e.watches ==> n.watches[h] == e.watches[h])
    && (forall k :: Covers(e.groups, g, k) && Supports(e.queries, k.field) ==>
          k in n.fields && KeyGranted(e, n.fields[k], k, freq, age, samples))
    && (forall k :: !(Covers(e.groups, g, k) && Supports(e.queries, k.field)) ==>
          (k in n.fields <==> k in e.fields) && (k in e.fields ==> n.fields[k] == e.fields[k]))
  }

  /** The unwatch can read every group it needs. */
  ghost predicate Readable(ws: Watches, gs: Groups, g: GroupKey) {
    Named(gs, g) && forall w :: Active(ws, w) ==> Named(gs, w)
  }

  ghost function UnwatchOne(ws: Watches, gs: Groups, fs: Fields, k: FieldKey): Settings
    requires k in fs
  {
    if Wanted(ws, gs, k) then fs[k].(updateFreq := MinFreq(ws, gs, k)) else fs[k].(isWatching := false)
  }

  /** The fields after an unwatch of `g`, whose entry in `ws` is already inactive. */
  ghost function Unwatched(ws: Watches, gs: Groups, fs: Fields, g: GroupKey): Fields {
    map k | k in fs :: if Covers(gs, g, k) && !IsNotification(k.field) then UnwatchOne(ws, gs, fs, k) else fs[k]
  }

  /** The fields whose counters an unwatch closes. */
  ghost predicate Closes(ws: Watches, gs: Groups, fs: Fields, g: GroupKey, k: FieldKey) {
    Covers(gs, g, k) && !IsNotification(k.field) && (k !in fs || !Wanted(ws, gs, k))
  }

  function Deactivated(ws: Watches, g: GroupKey, now: nat): Watches
    requires g in ws
  {
    ws[g := ws[g].(isWatching := false, lastUpdateTime := now)]
  }

  ghost function UnwatchStatus(e: Engine, g: GroupKey, now: nat): Status {
    if g !in e.watches || !Readable(Deactivated(e.watches, g, now), e.groups, g) then NotFound else Ok
  }

  /** `rdc_field_unwatch` with `update_field_in_table_when_unwatch`. */
  ghost function UnwatchStep(e: Engine, g: GroupKey, now: nat): Engine {
    if g !in e.watches then e
    else
      var ws := Deactivated(e.watches, g, now);
      if !Readable(ws, e.groups, g) then e.(watches := ws)
      else
        e.(watches := ws, fields := Unwatched(ws, e.groups, e.fields, g),
           handles := set k | k in e.handles && !(Counted(e.queries, k) && Closes(ws, e.groups, e.fields, g, k)))
  }

  // ---------------------------------------------------------------------
  // Updates

  predicate IsDue(s: Settings, now: nat) {
    s.isWatching && s.lastUpdateTime + s.updateFreq / 1000 <= now
  }

  /** The fields `rdc_field_update_all` asks telemetry for. */
  function Due(fs: Fields, now: nat): set<FieldKey> {
    set k | k in fs && IsDue(fs[k], now)
  }

  /** `std::map` order on job ids. */
  predicate Before(a: JobId, b: JobId) {
    b != [] && (a == [] || a[0] < b[0] || (a[0] == b[0] && Before(a[1..], b[1..])))
  }

  ghost predicate LeastJob(jobs: Jobs, k: FieldKey, j: JobId) {
    && j in jobs && k in jobs[j].fields
    && forall i :: i in jobs && k in jobs[i].fields && i != j ==> Before(j, i)
  }

  /** `is_job_watch_field`: the least job id that lists the key. */
  ghost function RouteJob(jobs: Jobs, k: FieldKey): Option<JobId> {
    if j :| LeastJob(jobs, k, j) then Some(j) else None
  }

  /** A value handed to the callback, and the clock reading the callback stamps it with. */
  datatype Delivery = Delivery(value: FieldValue, at: nat)

  ghost function Recorded(c: Cache, jobs: Jobs, v: FieldValue): Cache {
    var stored := Store(c, v.Key(), v.reading);
    match RouteJob(jobs, v.Key())
    case None => stored
    case Some(j) => ObserveJob(stored, j, v.gpu, v.reading)
  }

  lemma RecordedSamples(c: Cache, jobs: Jobs, v: FieldValue)
    ensures Recorded(c, jobs, v).samples ==
      c.samples[v.Key() := Lookup(c.samples, v.Key()) + [Sample(v.reading.ts, v.reading.value)]]
  {
  }

  function Stamped(fs: Fields, k: FieldKey, at: nat): Fields {
    if k in fs then fs[k := fs[k].(lastUpdateTime := at)] else fs
  }

  /** One value in `handle_fields`. */
  ghost function HandleOne(e: Engine, d: Delivery): Engine {
    e.(fields := Stamped(e.fields, d.value.Key(), d.at),
       cache := if d.value.reading.status == Ok then Recorded(e.cache, e.jobs, d.value) else e.cache,
       clock := d.at)
  }

  ghost function HandleAll(e: Engine, ds: seq<Delivery>): Engine {
    if ds == [] then e else HandleOne(HandleAll(e, ds[..|ds| - 1]), ds[|ds| - 1])
  }

  predicate Expired(s: Settings, at: nat) {
    !s.isWatching && s.lastUpdateTime as real + s.maxKeepAge * 1000.0 < at as real
  }

  function EvictAll(samples: map<FieldKey, seq<Sample>>, fs: Fields, evictAt: FieldKey -> nat)
    : map<FieldKey, seq<Sample>> {
    map k | k in samples ::
      if k in fs then Evict(samples[k], fs[k].maxKeepSamples, fs[k].maxKeepAge, evictAt(k)) else samples[k]
  }

  /** `clean_up`; `evict_cache` reads the clock again for each field. */
  function CleanStep(e: Engine, at: nat, evictAt: FieldKey -> nat): Engine {
    e.(cache := e.cache.(samples := EvictAll(e.cache.samples, e.fields, evictAt)),
       fields := map k | k in e.fields && !Expired(e.fields[k], at) :: e.fields[k],
       watches := map g | g in e.watches && !Expired(e.watches[g], at) :: e.watches[g])
  }

  /** The once-per-second test, on unsigned time. */
  predicate CleanupDue(now: nat, last: nat) {
    now < last || now - last > 1000
  }

  /** `rdc_field_update_all`. */
  ghost function UpdateStep(e: Engine, now: nat, ds: seq<Delivery>, cleanAt: nat, evictAt: FieldKey -> nat): Engine {
    var h := HandleAll(e, ds);
    if CleanupDue(now, e.lastCleanup) then CleanStep(h, cleanAt, evictAt).(lastCleanup := now, clock := cleanAt)
    else h.(clock := cleanAt)
  }

  /** `rdc_notif_update_cache`: events stamp their field with their own timestamp. */
  ghost function NotifyStep(e: Engine, events: seq<FieldValue>): Engine {
    var ds := seq(|events|, i requires 0 <= i < |events| => Delivery(events[i], events[i].reading.ts));
    HandleAll(e, ds).(clock := e.clock)
  }

  // ---------------------------------------------------------------------
  // Steps and runs

  datatype Step =
    | GroupChange(op: GroupSettings.GroupOp)
    | Watch(g: GroupKey, freq: nat, age: real, samples: nat, granted: set<FieldKey>)
    | Unwatch(g: GroupKey, now: nat)
    | Update(now: nat, ds: seq<Delivery>, cleanAt: nat, evictAt: FieldKey -> nat)
    | Notify(events: seq<FieldValue>)
    | JobInsert(j: JobId, entry: JobEntry)
    | JobErase(j: JobId)
    | CacheStart(j: JobId, gpus: seq<nat>, fields: seq<nat>, gauges: Gauges, time: nat)
    | CacheStop(j: JobId, gauges: Gauges, time: nat)
    | CacheRemove(j: JobId)
    | CacheRemoveAll

  function WithJobs(e: Engine, jobs: map<JobId, JobRecord>): Engine {
    e.(cache := e.cache.(jobs := jobs))
  }

  ghost function Next(e: Engine, s: Step): Engine {
    match s
    case GroupChange(op) => e.(groups := GroupSettings.Apply(e.groups, op))
    case Watch(g, freq, age, samples, granted) => WatchStep(e, g, NewWatch(freq, age, samples), granted)
    case Unwatch(g, now) => UnwatchStep(e, g, now)
    case Update(now, ds, cleanAt, evictAt) => UpdateStep(e, now, ds, cleanAt, evictAt)
    case Notify(events) => NotifyStep(e, events)
    case JobInsert(j, entry) => e.(jobs := if j in e.jobs then e.jobs else e.jobs[j := entry])
    case JobErase(j) => e.(jobs := e.jobs - {j})
    case CacheStart(j, gpus, fields, gauges, time) =>
      WithJobs(e, e.cache.jobs[j := StartRecord(gpus, fields, gauges, time)])
    case CacheStop(j, gauges, time) =>
      if j in e.cache.jobs then WithJobs(e, e.cache.jobs[j := StopRecord(e.cache.jobs[j], gauges, time)]) else e
    case CacheRemove(j) => WithJobs(e, e.cache.jobs - {j})
    case CacheRemoveAll => WithJobs(e, map[])
  }

  /** No active watch names the group the operation changes or destroys. */
  ghost predicate Stable(ws: Watches, op: GroupSettings.GroupOp) {
    && (op.DestroyGpus? || op.AddGpu? ==> forall g :: Active(ws, g) ==> g.gpuGroup != op.id)
    && (op.DestroyFields? ==> forall g :: Active(ws, g) ==> g.fieldGroup != op.id)
  }

  ghost predicate KeyDelivered(ds: seq<Delivery>, k: FieldKey) {
    exists i :: 0 <= i < |ds| && ds[i].value.Key() == k
  }

  /** Telemetry answers exactly the fields asked for: what `Telemetry.Module.ValueGet` guarantees. */
  ghost predicate Answers(fs: Fields, now: nat, ds: seq<Delivery>) {
    forall k :: k in Due(fs, now) <==> KeyDelivered(ds, k)
  }

  /** The clock does not go back under the mutex, nor between the fetch and the stamp. */
  ghost predicate Timely(clock: nat, now: nat, ds: seq<Delivery>, cleanAt: nat, evictAt: FieldKey -> nat) {
    && (forall i :: 0 <= i < |ds| ==>
          clock <= ds[i].at <= cleanAt && now <= ds[i].at && ds[i].value.reading.ts <= ds[i].at)
    && (forall i, j :: 0 <= i < j < |ds| ==> ds[i].at <= ds[j].at)
    && clock <= cleanAt
    && (forall k :: cleanAt <= evictAt(k))
  }

  /** What the environment is assumed to respect. */
  ghost predicate Enabled(e: Engine, s: Step) {
    match s
    case GroupChange(op) => GroupSettings.NoWrap(e.groups, op) && Stable(e.watches, op)
    case Update(now, ds, cleanAt, evictAt) => Answers(e.fields, now, ds) && Timely(e.clock, now, ds, cleanAt, evictAt)
    case Notify(events) => forall v :: v in events ==> IsNotification(v.reading.field)
    case _ => true
  }

  /** The i-th step leads from the i-th state to the next. */
  ghost predicate StepAt(states: seq<Engine>, steps: seq<Step>, i: nat)
    requires i < |steps| && |states| == |steps| + 1
  {
    states[i + 1] == Next(states[i], steps[i])
  }

  /** A sequence of steps from start-up, with nothing assumed of the environment. */
  ghost predicate AnySteps(qs: Queries, states: seq<Engine>, steps: seq<Step>) {
    && |states| == |steps| + 1
    && states[0] == Initial(qs)
    && forall i :: 0 <= i < |steps| ==> StepAt(states, steps, i)
  }

  /** A sequence of steps from start-up in which the environment respects its part. */
  ghost predicate IsRun(qs: Queries, states: seq<Engine>, steps: seq<Step>) {
    && AnySteps(qs, states, steps)
    && forall i :: 0 <= i < |steps| ==> Enabled(states[i], steps[i])
  }
}
