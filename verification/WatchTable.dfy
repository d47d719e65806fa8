/** The watch table object (`RdcWatchTableImpl`): its methods carry out the engine's steps. */
module WatchTable {
  import opened Common
  import opened SampleCache
  import opened CacheManager
  import opened Batches
  import opened Telemetry
  import opened Engine
  import opened Invariants
  import opened JobRuns

  function SetOf(ks: seq<FieldKey>): set<FieldKey> {
    set k | k in ks
  }

  lemma SetOfOneMore(ks: seq<FieldKey>, i: nat)
    requires i < |ks|
    ensures SetOf(ks[..i + 1]) == SetOf(ks[..i]) + {ks[i]}
  {
    assert ks[..i + 1] == ks[..i] + [ks[i]];
  }

  /** Merging the same settings into a field twice changes nothing. */
  lemma MergeOneMore(fs: Fields, done: set<FieldKey>, k: FieldKey, f: Settings)
    requires f.isWatching
    ensures
      var m := Merged(fs, done, f);
      Merged(fs, done + {k}, f) == m[k := MergeOne(m, k, f)]
  {
  }

  // ---------------------------------------------------------------------
  // The frequencies an unwatch recomputes

  /** One watch's frequency folded into the table of minima. */
  function AddFreq(freqs: map<FieldKey, nat>, k: FieldKey, freq: nat): map<FieldKey, nat> {
    freqs[k := if k in freqs then Min(freqs[k], freq) else freq]
  }

  /** The minima over the active watches of `ws`. */
  ghost predicate IsFreqTable(freqs: map<FieldKey, nat>, ws: Watches, gs: Groups) {
    && (forall k :: k in freqs <==> Wanted(ws, gs, k))
    && (forall k :: k in freqs ==> LeastFreq(ws, gs, k, freqs[k]))
  }

  lemma SkipInactive(freqs: map<FieldKey, nat>, ws: Watches, gs: Groups, g: GroupKey, s: Settings)
    requires g !in ws && !s.isWatching && IsFreqTable(freqs, ws, gs)
    ensures IsFreqTable(freqs, ws[g := s], gs)
  {
    var ws' := ws[g := s];
    forall k ensures (k in freqs <==> Wanted(ws', gs, k)) && (k in freqs ==> LeastFreq(ws', gs, k, freqs[k])) {
      assert forall h :: Asks(ws', gs, h, k) <==> Asks(ws, gs, h, k);
      if k in freqs {
        var h :| Asks(ws, gs, h, k) && ws[h].updateFreq == freqs[k];
        assert Asks(ws', gs, h, k);
      }
    }
  }

  ghost predicate AddsFreqs(freqs: map<FieldKey, nat>, more: map<FieldKey, nat>, ks: set<FieldKey>, freq: nat) {
    && more.Keys == freqs.Keys + ks
    && forall k :: k in more ==>
        more[k] == if k !in ks then freqs[k] else if k in freqs then Min(freqs[k], freq) else freq
  }

  lemma AddActiveKey(freqs: map<FieldKey, nat>, more: map<FieldKey, nat>, ws: Watches, gs: Groups, g: GroupKey,
                     s: Settings, k: FieldKey)
    requires g !in ws && s.isWatching && Named(gs, g) && IsFreqTable(freqs, ws, gs)
    requires AddsFreqs(freqs, more, SetOf(KeysOf(gs, g)), s.updateFreq)
    ensures k in more <==> Wanted(ws[g := s], gs, k)
    ensures k in more ==> LeastFreq(ws[g := s], gs, k, more[k])
  {
    var ws' := ws[g := s];
    CrossContents(gs.gpus[g.gpuGroup], gs.fields[g.fieldGroup]);
    assert forall h :: h != g ==> (Asks(ws', gs, h, k) <==> Asks(ws, gs, h, k));
    assert Asks(ws', gs, g, k) <==> Covers(gs, g, k);
    if k in freqs {
      var h :| Asks(ws, gs, h, k) && ws[h].updateFreq == freqs[k];
      assert Asks(ws', gs, h, k);
    }
  }

  lemma AddActive(freqs: map<FieldKey, nat>, more: map<FieldKey, nat>, ws: Watches, gs: Groups, g: GroupKey,
                  s: Settings)
    requires g !in ws && s.isWatching && Named(gs, g) && IsFreqTable(freqs, ws, gs)
    requires AddsFreqs(freqs, more, SetOf(KeysOf(gs, g)), s.updateFreq)
    ensures IsFreqTable(more, ws[g := s], gs)
  {
    forall k
      ensures k in more <==> Wanted(ws[g := s], gs, k)
      ensures k in more ==> LeastFreq(ws[g := s], gs, k, more[k])
    {
      AddActiveKey(freqs, more, ws, gs, g, s, k);
    }
  }

  /** A field after the first impacted fields `done` have been visited. */
  ghost function Cleared(fs: Fields, done: set<FieldKey>, freqs: map<FieldKey, nat>, k: FieldKey): Settings
    requires k in fs
  {
    if k !in done || IsNotification(k.field) then fs[k]
    else if k in freqs then fs[k].(updateFreq := freqs[k])
    else fs[k].(isWatching := false)
  }

  lemma LeastFreqUnique(ws: Watches, gs: Groups, k: FieldKey, a: nat, b: nat)
    requires LeastFreq(ws, gs, k, a) && LeastFreq(ws, gs, k, b)
    ensures a == b
  {
  }

  /** The loop with its table of minima does what the unwatch is defined to do. */
  lemma ClearedIsUnwatched(ws: Watches, gs: Groups, fs: Fields, fs': Fields, g: GroupKey, freqs: map<FieldKey, nat>)
    requires Named(gs, g) && IsFreqTable(freqs, ws, gs) && fs'.Keys == fs.Keys
    requires forall k :: k in fs ==> fs'[k] == Cleared(fs, SetOf(KeysOf(gs, g)), freqs, k)
    ensures fs' == Unwatched(ws, gs, fs, g)
    ensures forall k :: k in KeysOf(gs, g) <==> Covers(gs, g, k)
  {
    CrossContents(gs.gpus[g.gpuGroup], gs.fields[g.fieldGroup]);
    forall k | k in fs ensures fs'[k] == Unwatched(ws, gs, fs, g)[k] {
      if k in freqs {
        LeastFreqUnique(ws, gs, k, freqs[k], MinFreq(ws, gs, k));
      }
    }
  }

  /** The part of a watch table already visited. */
  ghost function Part(ws: Watches, done: set<GroupKey>): Watches {
    map g | g in ws && g in done :: ws[g]
  }

  lemma PartOneMore(ws: Watches, done: set<GroupKey>, g: GroupKey)
    requires g in ws
    ensures Part(ws, done + {g}) == Part(ws, done)[g := ws[g]]
  {
  }

  // ---------------------------------------------------------------------
  // Deliveries

  function Zip(vs: seq<FieldValue>, times: nat -> nat, from: nat): (ds: seq<Delivery>)
    ensures |ds| == |vs|
  {
    seq(|vs|, i requires 0 <= i < |vs| => Delivery(vs[i], times(from + i)))
  }

  lemma ZipConcat(a: seq<FieldValue>, b: seq<FieldValue>, times: nat -> nat)
    ensures Zip(a + b, times, 0) == Zip(a, times, 0) + Zip(b, times, |a|)
  {
  }

  lemma {:induction false} HandleConcat(e: Engine, a: seq<Delivery>, b: seq<Delivery>)
    ensures HandleAll(e, a + b) == HandleAll(HandleAll(e, a), b)
  {
    if b == [] {
      assert a + b == a;
    } else {
      HandleConcat(e, a, b[..|b| - 1]);
      assert (a + b)[..|a + b| - 1] == a + b[..|b| - 1];
    }
  }

  lemma FlattenOneMore(batches: seq<seq<FieldValue>>, i: nat)
    requires i < |batches|
    ensures Flatten(batches[..i + 1]) == Flatten(batches[..i]) + batches[i]
  {
    assert batches[..i + 1][..i] == batches[..i];
  }

  lemma HandleSnoc(e: Engine, ds: seq<Delivery>, d: Delivery)
    ensures HandleAll(e, ds + [d]) == HandleOne(HandleAll(e, ds), d)
  {
    var more := ds + [d];
    assert more[..|more| - 1] == ds && more[|more| - 1] == d;
  }

  /** When every asked key comes back once, the deliveries answer exactly what was due. */
  lemma DeliveriesAnswer(fs: Fields, now: nat, asked: seq<FieldKey>, vs: seq<FieldValue>, times: nat -> nat)
    requires SetOf(asked) == Due(fs, now) && multiset(Keys(vs)) == multiset(asked)
    ensures Answers(fs, now, Zip(vs, times, 0))
  {
    var ds := Zip(vs, times, 0);
    forall k ensures k in Due(fs, now) <==> KeyDelivered(ds, k) {
      assert k in Due(fs, now) <==> k in asked;
      assert k in asked <==> k in multiset(asked);
      assert k in Keys(vs) <==> k in multiset(Keys(vs));
      if k in Keys(vs) {
        var i :| 0 <= i < |vs| && Keys(vs)[i] == k;
        assert ds[i].value.Key() == k;
      }
      if KeyDelivered(ds, k) {
        var i :| 0 <= i < |ds| && ds[i].value.Key() == k;
        assert Keys(vs)[i] == k;
      }
    }
  }

  ghost predicate KeyFetched(qs: Queries, libs: nat -> Library, now: nat, due: bool, before: Cache, after: Cache,
                             k: FieldKey) {
    if due then
      exists r: Reading :: r.field == k.field && ReadFrom(qs, libs, now, FieldValue(k.gpu, r)) &&
        SamplesOf(after, k) == SamplesOf(before, k) + (if r.status == Ok then [Sample(r.ts, r.value)] else [])
    else
      SamplesOf(after, k) == SamplesOf(before, k)
  }

  /** A due key gets one reading of the library that serves it, and keeps it if it is good; no other
      key gets any. */
  ghost predicate Fetched(qs: Queries, libs: nat -> Library, now: nat, due: set<FieldKey>, before: Cache,
                          after: Cache) {
    forall k :: KeyFetched(qs, libs, now, k in due, before, after, k)
  }

  lemma DistinctPermutation(a: seq<FieldKey>, b: seq<FieldKey>)
    requires Distinct(a) && multiset(a) == multiset(b)
    ensures Distinct(b)
  {
    forall i, j | 0 <= i < j < |b| ensures b[i] != b[j] {
      DistinctCount(a, b[j]);
      assert b == b[..j] + b[j..] && b[i] == b[..j][i] && b[j] == b[j..][0];
      assert multiset(b)[b[j]] == multiset(b[..j])[b[j]] + multiset(b[j..])[b[j]];
      assert b[i] in multiset(b[..j]) && b[j] in multiset(b[j..]);
    }
  }

  lemma ZipOnce(vs: seq<FieldValue>, times: nat -> nat)
    requires Distinct(Keys(vs))
    ensures
      var ds := Zip(vs, times, 0);
      forall i, j :: 0 <= i < j < |ds| ==> ds[i].value.Key() != ds[j].value.Key()
  {
    forall i, j | 0 <= i < j < |vs| ensures vs[i].Key() != vs[j].Key() {
      assert Keys(vs)[i] == vs[i].Key() && Keys(vs)[j] == vs[j].Key();
    }
  }

  lemma KeyIsFetched(before: Cache, after: Cache, now: nat, qs: Queries, libs: nat -> Library, ds: seq<Delivery>,
                     due: bool, k: FieldKey)
    requires due <==> KeyDelivered(ds, k)
    requires forall d :: d in ds ==> ReadFrom(qs, libs, now, d.value)
    requires SamplesOf(after, k) == SamplesOf(before, k) + AsSamples(OkReadings(ds, k))
    requires !due ==> OkReadings(ds, k) == []
    requires forall d :: d in ds && d.value.Key() == k ==>
      OkReadings(ds, k) == if d.value.reading.status == Ok then [d.value.reading] else []
    ensures KeyFetched(qs, libs, now, due, before, after, k)
  {
    if due {
      var i :| 0 <= i < |ds| && ds[i].value.Key() == k;
      var r := ds[i].value.reading;
      assert ds[i] in ds && ds[i].value == FieldValue(k.gpu, r);
      assert AsSamples(OkReadings(ds, k)) == if r.status == Ok then [Sample(r.ts, r.value)] else [];
    } else {
      assert AsSamples(OkReadings(ds, k)) == [];
    }
  }

  /** Handling the values of a request in which each due key is read once stores them as `Fetched` says. */
  lemma HandleFetched(e: Engine, now: nat, qs: Queries, libs: nat -> Library, ds: seq<Delivery>, due: set<FieldKey>)
    requires forall k :: k in due <==> KeyDelivered(ds, k)
    requires forall i, j :: 0 <= i < j < |ds| ==> ds[i].value.Key() != ds[j].value.Key()
    requires forall d :: d in ds ==> ReadFrom(qs, libs, now, d.value)
    ensures Fetched(qs, libs, now, due, e.cache, HandleAll(e, ds).cache)
  {
    var after := HandleAll(e, ds).cache;
    forall k ensures KeyFetched(qs, libs, now, k in due, e.cache, after, k) {
      HandleAppends(e, ds, k);
      OkOnce(ds, k);
      KeyIsFetched(e.cache, after, now, qs, libs, ds, k in due, k);
    }
  }

  lemma RequestFetched(e: Engine, now: nat, qs: Queries, asked: seq<FieldKey>, libs: nat -> Library, failed: bool,
                       parts: seq<LibAnswer>, vs: seq<FieldValue>, times: nat -> nat)
    requires Distinct(asked) && SetOf(asked) == Due(e.fields, now) && multiset(Keys(vs)) == multiset(asked)
    requires (forall m :: |libs(m).slots| == BATCH) && AllFill(qs, asked, libs)
    requires FromLibraries(qs, asked, libs, now, failed, parts, vs)
    ensures
      var ds := Zip(vs, times, 0);
      Answers(e.fields, now, ds) && Fetched(qs, libs, now, Due(e.fields, now), e.cache, HandleAll(e, ds).cache)
  {
    var ds := Zip(vs, times, 0);
    DeliveriesAnswer(e.fields, now, asked, vs, times);
    DistinctPermutation(asked, Keys(vs));
    ZipOnce(vs, times);
    forall d | d in ds ensures ReadFrom(qs, libs, now, d.value) {
      ValuesAreRead(qs, asked, libs, now, failed, parts, vs, d.value);
    }
    HandleFetched(e, now, qs, libs, ds, Due(e.fields, now));
  }

  /** The cache once the fields outside `left` have been evicted. */
  ghost function EvictSome(c: Cache, fs: Fields, evictAt: FieldKey -> nat, left: set<FieldKey>): Cache {
    c.(samples := map k | k in c.samples ::
      if k in fs && k !in left
      then Evict(c.samples[k], fs[k].maxKeepSamples, fs[k].maxKeepAge, evictAt(k)) else c.samples[k])
  }

  lemma EvictOneMore(c: Cache, fs: Fields, evictAt: FieldKey -> nat, left: set<FieldKey>, k: FieldKey)
    requires k in left && k in fs
    ensures EvictSome(c, fs, evictAt, left - {k}) ==
      EvictKey(EvictSome(c, fs, evictAt, left), k, fs[k].maxKeepSamples, fs[k].maxKeepAge, evictAt(k))
  {
    var done, before := EvictSome(c, fs, evictAt, left - {k}), EvictSome(c, fs, evictAt, left);
    assert done.samples.Keys == before.samples.Keys == c.samples.Keys;
    if k in c.samples {
      var kept := Evict(before.samples[k], fs[k].maxKeepSamples, fs[k].maxKeepAge, evictAt(k));
      assert done.samples == before.samples[k := kept];
    } else {
      assert done.samples == before.samples;
    }
  }

  /** The fields once the expired ones outside `left` have been erased. */
  ghost function KeptFields(fs: Fields, at: nat, left: set<FieldKey>): Fields {
    map k | k in fs && (k in left || !Expired(fs[k], at)) :: fs[k]
  }

  lemma KeepOneLess(fs: Fields, at: nat, left: set<FieldKey>, k: FieldKey)
    requires k in left && k in fs
    ensures KeptFields(fs, at, left - {k}) ==
      if Expired(fs[k], at) then KeptFields(fs, at, left) - {k} else KeptFields(fs, at, left)
  {
  }

  /** What the loop of `clean_up` over the fields has done after visiting `order`. */
  datatype Cleaning = Cleaning(cache: Cache, fields: Fields)

  ghost function CleanOne(s: Cleaning, f: Settings, k: FieldKey, at: nat, evictAt: nat): Cleaning {
    Cleaning(EvictKey(s.cache, k, f.maxKeepSamples, f.maxKeepAge, evictAt),
             if Expired(f, at) then s.fields - {k} else s.fields)
  }

  ghost function CleanEach(c: Cache, fs: Fields, at: nat, evictAt: FieldKey -> nat, order: seq<FieldKey>): Cleaning
    requires forall k :: k in order ==> k in fs
  {
    if order == [] then Cleaning(c, fs)
    else
      var k := order[|order| - 1];
      assert k in order;
      CleanOne(CleanEach(c, fs, at, evictAt, order[..|order| - 1]), fs[k], k, at, evictAt(k))
  }

  lemma {:induction false} CleanEachIs(c: Cache, fs: Fields, at: nat, evictAt: FieldKey -> nat, order: seq<FieldKey>)
    requires Distinct(order) && forall k :: k in order ==> k in fs
    ensures
      var left := fs.Keys - SetOf(order);
      CleanEach(c, fs, at, evictAt, order) == Cleaning(EvictSome(c, fs, evictAt, left), KeptFields(fs, at, left))
  {
    if order == [] {
      assert EvictSome(c, fs, evictAt, fs.Keys) == c && KeptFields(fs, at, fs.Keys) == fs;
      assert fs.Keys - SetOf([]) == fs.Keys;
    } else {
      var init, k := order[..|order| - 1], order[|order| - 1];
      var left := fs.Keys - SetOf(init);
      assert order == init + [k] && k in order;
      CleanEachIs(c, fs, at, evictAt, init);
      EvictOneMore(c, fs, evictAt, left, k);
      KeepOneLess(fs, at, left, k);
      assert fs.Keys - SetOf(order) == left - {k};
    }
  }

  /** A field not visited yet is still there, with its settings. */
  lemma {:induction false} CleanEachKeeps(c: Cache, fs: Fields, at: nat, evictAt: FieldKey -> nat,
                                          order: seq<FieldKey>, k: FieldKey)
    requires k in fs && k !in order && forall h :: h in order ==> h in fs
    ensures
      var s := CleanEach(c, fs, at, evictAt, order);
      k in s.fields && s.fields[k] == fs[k]
  {
    if order != [] {
      CleanEachKeeps(c, fs, at, evictAt, order[..|order| - 1], k);
    }
  }

  /** Once every field is visited, the expired ones are gone and every kept sample is fresh. */
  lemma CleanAll(c: Cache, fs: Fields, at: nat, evictAt: FieldKey -> nat, order: seq<FieldKey>)
    requires Distinct(order) && forall k :: k in order <==> k in fs
    ensures
      var s := CleanEach(c, fs, at, evictAt, order);
      && s.cache == c.(samples := EvictAll(c.samples, fs, evictAt))
      && s.fields == map k | k in fs && !Expired(fs[k], at) :: fs[k]
  {
    CleanEachIs(c, fs, at, evictAt, order);
    assert fs.Keys - SetOf(order) == {};
    assert EvictSome(c, fs, evictAt, {}).samples == EvictAll(c.samples, fs, evictAt);
  }

  lemma CleanOneMore(c: Cache, fs: Fields, at: nat, evictAt: FieldKey -> nat, order: seq<FieldKey>, k: FieldKey)
    requires k in fs && k !in order && forall h :: h in order ==> h in fs
    ensures CleanEach(c, fs, at, evictAt, order + [k]) ==
      CleanOne(CleanEach(c, fs, at, evictAt, order), fs[k], k, at, evictAt(k))
  {
    var o := order + [k];
    assert o[..|o| - 1] == order && o[|o| - 1] == k;
  }

  // ---------------------------------------------------------------------
  // Jobs

  function JobStartStatus(e: Engine, groupId: nat, j: JobId): Status {
    var g := GroupKey(groupId, GroupSettings.JOB_FIELD_GROUP);
    if j in e.jobs then AlreadyExist
    else if !Named(e.groups, g) || KeysOf(e.groups, g) == [] then NotFound
    else WatchStatus(e, g)
  }

  /** A job start: into the job table, a new record in the cache, then the watch. */
  ghost function JobStarted(e: Engine, groupId: nat, j: JobId, freq: nat, gauges: Gauges, time: nat,
                            granted: set<FieldKey>): Engine {
    var g := GroupKey(groupId, GroupSettings.JOB_FIELD_GROUP);
    if j in e.jobs || !Named(e.groups, g) || KeysOf(e.groups, g) == [] then e
    else
      var started := WithJobs(e.(jobs := e.jobs[j := JobEntry(groupId, KeysOf(e.groups, g))]),
        e.cache.jobs[j := StartRecord(e.groups.gpus[groupId], e.groups.fields[g.fieldGroup], gauges, time)]);
      WatchStep(started, g, NewWatch(freq, 0.0, 0), granted)
  }

  ghost function JobStopStatus(e: Engine, j: JobId, now: nat): Status {
    if j !in e.jobs then NotFound
    else
      var st := UnwatchStatus(e, GroupKey(e.jobs[j].groupId, GroupSettings.JOB_FIELD_GROUP), now);
      if st != Ok then st else if j in e.cache.jobs then Ok else NotFound
  }

  /** A job stop: the unwatch and, if that succeeds, out of the job table and its record stopped. */
  ghost function JobStopped(e: Engine, j: JobId, gauges: Gauges, time: nat, now: nat): Engine {
    if j !in e.jobs then e
    else
      var g := GroupKey(e.jobs[j].groupId, GroupSettings.JOB_FIELD_GROUP);
      var unwatched := UnwatchStep(e, g, now);
      if UnwatchStatus(e, g, now) != Ok then unwatched
      else
        var erased := unwatched.(jobs := unwatched.jobs - {j});
        if j !in e.cache.jobs then erased
        else WithJobs(erased, e.cache.jobs[j := StopRecord(e.cache.jobs[j], gauges, time)])
  }

  /** A job start is a sequence of engine steps: into the job table, cache start, watch. */
  lemma JobStartedIsSteps(e: Engine, groupId: nat, j: JobId, freq: nat, gauges: Gauges, time: nat,
                          granted: set<FieldKey>)
    ensures
      var n := JobStarted(e, groupId, j, freq, gauges, time, granted);
      var g := GroupKey(groupId, GroupSettings.JOB_FIELD_GROUP);
      if j in e.jobs || !Named(e.groups, g) || KeysOf(e.groups, g) == [] then n == e
      else
        var inserted := Next(e, JobInsert(j, JobEntry(groupId, KeysOf(e.groups, g))));
        var gpus, fields := e.groups.gpus[groupId], e.groups.fields[g.fieldGroup];
        var started := Next(inserted, CacheStart(j, gpus, fields, gauges, time));
        n == Next(started, Watch(g, freq, 0.0, 0, granted))
  {
  }

  /** A record without samples, for these GPUs and fields, of a job that started at `time`. */
  ghost predicate IsFresh(rec: JobRecord, gpus: seq<nat>, fields: seq<nat>, time: nat) {
    && rec.startTime == time && rec.endTime == 0
    && (forall g :: g in rec.gpus <==> g in gpus)
    && (forall g, f :: g in rec.gpus ==> (f in rec.gpus[g].fields <==> f in fields))
    && (forall g, f :: g in rec.gpus && f in rec.gpus[g].fields ==> rec.gpus[g].fields[f].count == 0)
  }

  lemma GrantedSame(e: Engine, e': Engine, n: Engine, g: GroupKey, freq: nat)
    requires Granted(e, n, g, freq, 0.0, 0)
    requires e.queries == e'.queries && e.groups == e'.groups && e.watches == e'.watches && e.fields == e'.fields
    ensures Granted(e', n, g, freq, 0.0, 0)
  {
  }

  /** What a job start that succeeds gives: the watch on the job field group, which keeps no samples of
      its own, an entry that lists the keys of the group, and a fresh record. */
  ghost predicate Began(e: Engine, n: Engine, groupId: nat, j: JobId, freq: nat, time: nat) {
    var g := GroupKey(groupId, 0);
    && Granted(e, n, g, freq, 0.0, 0)
    && j in n.jobs && n.jobs[j].groupId == groupId && j in n.cache.jobs
    && (forall k :: k in n.jobs[j].fields <==> Covers(e.groups, g, k))
    && Named(e.groups, g) && IsFresh(n.cache.jobs[j], e.groups.gpus[groupId], e.groups.fields[0], time)
  }

  lemma StartGrants(e: Engine, groupId: nat, j: JobId, freq: nat, gauges: Gauges, time: nat, granted: set<FieldKey>)
    requires JobStartStatus(e, groupId, j) == Ok
    ensures Began(e, JobStarted(e, groupId, j, freq, gauges, time, granted), groupId, j, freq, time)
  {
    var g := GroupKey(groupId, GroupSettings.JOB_FIELD_GROUP);
    CrossContents(e.groups.gpus[groupId], e.groups.fields[g.fieldGroup]);
    var started := WithJobs(e.(jobs := e.jobs[j := JobEntry(groupId, KeysOf(e.groups, g))]),
      e.cache.jobs[j := StartRecord(e.groups.gpus[groupId], e.groups.fields[g.fieldGroup], gauges, time)]);
    WatchGrants(started, g, freq, 0.0, 0, granted);
    GrantedSame(started, e, WatchStep(started, g, NewWatch(freq, 0.0, 0), granted), g, freq);
  }

  /** A job stop is a sequence of engine steps: unwatch, out of the job table, cache stop. */
  lemma JobStoppedIsSteps(e: Engine, j: JobId, gauges: Gauges, time: nat, now: nat)
    requires JobStopStatus(e, j, now) == Ok
    ensures
      var unwatched := Next(e, Unwatch(GroupKey(e.jobs[j].groupId, GroupSettings.JOB_FIELD_GROUP), now));
      JobStopped(e, j, gauges, time, now) == Next(Next(unwatched, JobErase(j)), CacheStop(j, gauges, time))
  {
  }

  /** A job removal: a stop without gauges, whether or not it succeeds, then the record goes. */
  ghost function JobRemoved(e: Engine, j: JobId, time: nat, now: nat): Engine {
    var stopped := JobStopped(e, j, map[], time, now);
    WithJobs(stopped, stopped.cache.jobs - {j})
  }

  /** The jobs stopped one after the other, each at its own time. */
  ghost function StoppedAll(e: Engine, ids: seq<JobId>, times: nat -> nat, nows: nat -> nat): Engine {
    if ids == [] then e
    else
      var n := |ids| - 1;
      JobStopped(StoppedAll(e, ids[..n], times, nows), ids[n], map[], times(n), nows(n))
  }

  /** The removal of every job: all are stopped without gauges, then every record goes. */
  ghost function AllRemoved(e: Engine, ids: seq<JobId>, times: nat -> nat, nows: nat -> nat): Engine {
    WithJobs(StoppedAll(e, ids, times, nows), map[])
  }

  // ---------------------------------------------------------------------
  // The object

  class Table {
    const groups: GroupSettings.GroupTable
    const cache: Manager
    const telemetry: Module
    var watches: Watches
    var fields: Fields
    var jobs: Jobs
    var lastCleanup: nat
    ghost var clock: nat

    ghost predicate Valid()
      reads this, cache, telemetry
    {
      cache.Valid() && telemetry.Valid()
    }

    ghost function State(): Engine
      reads this, groups, cache, telemetry.counters
    {
      Engine(telemetry.queries, groups.State(), watches, fields, jobs, cache.State(),
             telemetry.counters.handles.Keys, lastCleanup, clock)
    }

    constructor (groups: GroupSettings.GroupTable, cache: Manager, telemetry: Module)
      requires cache.Valid() && telemetry.Valid()
      ensures Valid() && this.groups == groups && this.cache == cache && this.telemetry == telemetry
      ensures
        && groups.State() == GroupSettings.INITIAL
        && cache.State() == Cache(map[], map[])
        && telemetry.counters.handles == map[]
        ==> State() == Initial(telemetry.queries)
    {
      this.groups, this.cache, this.telemetry := groups, cache, telemetry;
      watches, fields, jobs, lastCleanup, clock := map[], map[], map[], 0, 0;
    }

    /** `get_fields_from_group`. */
    method GetFieldsFromGroup(g: GroupKey) returns (r: Option<seq<FieldKey>>)
      ensures r == if Named(groups.State(), g) then Some(KeysOf(groups.State(), g)) else None
    {
      var gpus := groups.GpuGroupInfo(g.gpuGroup);
      if gpus.None? {
        return None;
      }
      var ids := groups.FieldGroupInfo(g.fieldGroup);
      if ids.None? {
        return None;
      }
      var keys := [];
      for i := 0 to |gpus.value|
        invariant keys == Cross(gpus.value[..i], ids.value)
      {
        var gpu := gpus.value[i];
        ghost var before := keys;
        for j := 0 to |ids.value|
          invariant keys == before + Row(gpu, ids.value)[..j]
        {
          keys := keys + [FieldKey(gpu, ids.value[j])];
        }
        assert Row(gpu, ids.value)[..|ids.value|] == Row(gpu, ids.value);
        assert gpus.value[..i + 1][..i] == gpus.value[..i];
      }
      assert gpus.value[..|gpus.value|] == gpus.value;
      r := Some(keys);
    }

    /** The filter on supported fields in `rdc_field_watch`. */
    method SkipUnsupported(keys: seq<FieldKey>) returns (kept: seq<FieldKey>)
      ensures SetOf(kept) == set k | k in keys && Supports(telemetry.queries, k.field)
    {
      var ids := telemetry.FieldsQuery();
      kept := [];
      for i := 0 to |keys|
        invariant forall k :: k in kept <==> k in keys[..i] && Supports(telemetry.queries, k.field)
      {
        if keys[i].field in ids {
          kept := kept + [keys[i]];
        }
      }
      assert keys[..|keys|] == keys;
    }

    method MergeWatch(keys: seq<FieldKey>, f: Settings)
      requires f.isWatching
      modifies this`fields
      ensures fields == Merged(old(fields), SetOf(keys), f)
    {
      assert Merged(fields, {}, f) == fields;
      for i := 0 to |keys|
        invariant fields == Merged(old(fields), SetOf(keys[..i]), f)
      {
        var k := keys[i];
        SetOfOneMore(keys, i);
        MergeOneMore(old(fields), SetOf(keys[..i]), k, f);
        if k !in fields {
          fields := fields[k := f];
        } else {
          var s := fields[k];
          s := s.(maxKeepAge := MaxReal(s.maxKeepAge, f.maxKeepAge),
                  maxKeepSamples := Max(s.maxKeepSamples, f.maxKeepSamples));
          if s.isWatching {
            s := s.(updateFreq := Min(s.updateFreq, f.updateFreq));
          } else {
            s := s.(isWatching := true, updateFreq := f.updateFreq);
          }
          fields := fields[k := s];
        }
      }
      assert keys[..|keys|] == keys;
    }

    method WatchingFields() returns (ks: seq<FieldKey>)
      ensures forall k :: k in ks <==> Watching(fields, k)
    {
      ks := [];
      var left := fields.Keys;
      while left != {}
        invariant left <= fields.Keys
        invariant forall k :: k in ks <==> k in fields && k !in left && fields[k].isWatching
        decreases left
      {
        var k :| k in left;
        if fields[k].isWatching {
          ks := ks + [k];
        }
        left := left - {k};
      }
    }

    /** The notification of the telemetry module that ends `rdc_field_watch`. */
    method NotifyWatch(offer: map<FieldKey, nat>)
      requires telemetry.Valid()
      modifies telemetry, telemetry.counters
      ensures telemetry.Valid()
      ensures telemetry.counters.handles.Keys ==
        old(telemetry.counters.handles.Keys) + CountersFor(telemetry.queries, fields, offer.Keys)
    {
      var all := WatchingFields();
      var grant := (k: FieldKey) => if k in offer then Some(offer[k]) else None;
      telemetry.FieldsWatch(all, grant);
      assert (set k | k in all && Counted(telemetry.queries, k) && grant(k).Some?)
        == CountersFor(telemetry.queries, fields, offer.Keys);
    }

    /** The index and the table after a watch that found its groups. */
    method AddWatch(g: GroupKey, keys: seq<FieldKey>, f: Settings)
      requires f.isWatching && Named(groups.State(), g) && keys == KeysOf(groups.State(), g)
      modifies this`watches, this`fields
      ensures fields == Merged(old(fields), Supported(telemetry.queries, groups.State(), g), f)
      ensures watches == old(watches)[g := f]
    {
      var kept := SkipUnsupported(keys);
      MergeWatch(kept, f);
      watches := watches[g := f];
    }

    /** `rdc_field_watch`; `offer` is what the SMI calls would give for each counter. */
    method FieldWatch(g: GroupKey, freq: nat, age: real, samples: nat, offer: map<FieldKey, nat>) returns (st: Status)
      requires Valid()
      modifies this`watches, this`fields, telemetry, telemetry.counters
      ensures Valid()
      ensures st == WatchStatus(old(State()), g)
      ensures State() == WatchStep(old(State()), g, NewWatch(freq, age, samples), offer.Keys)
      ensures st == Ok ==> Granted(old(State()), State(), g, freq, age, samples)
    {
      ghost var e := State();
      if g in watches {
        if watches[g].isWatching {
          return Conflict;
        }
        watches := watches - {g};
      }
      assert watches == old(watches) - {g};
      var f := NewWatch(freq, age, samples);
      var keys := GetFieldsFromGroup(g);
      if keys.None? {
        return NotFound;
      }
      AddWatch(g, keys.value, f);
      assert watches == old(watches)[g := f];
      NotifyWatch(offer);
      st := Ok;
      WatchGrants(e, g, freq, age, samples, offer.Keys);
    }

    /** The inner loop of the frequency computation. */
    method AddFreqs(freqs: map<FieldKey, nat>, keys: seq<FieldKey>, freq: nat) returns (more: map<FieldKey, nat>)
      ensures AddsFreqs(freqs, more, SetOf(keys), freq)
    {
      more := freqs;
      for i := 0 to |keys|
        invariant AddsFreqs(freqs, more, SetOf(keys[..i]), freq)
      {
        SetOfOneMore(keys, i);
        more := AddFreq(more, keys[i], freq);
      }
      assert keys[..|keys|] == keys;
    }

    /** The minima over the active watches, or nothing when one of their groups is gone. */
    method UpdateFrequencies() returns (freqs: Option<map<FieldKey, nat>>)
      ensures freqs.Some? <==> forall w :: Active(watches, w) ==> Named(groups.State(), w)
      ensures freqs.Some? ==> IsFreqTable(freqs.value, watches, groups.State())
    {
      var table: map<FieldKey, nat> := map[];
      ghost var gs := groups.State();
      var left := watches.Keys;
      assert IsFreqTable(table, Part(watches, {}), gs);
      while left != {}
        invariant left <= watches.Keys
        invariant IsFreqTable(table, Part(watches, watches.Keys - left), gs)
        invariant forall w :: w in watches && w !in left && watches[w].isWatching ==> Named(gs, w)
        decreases left
      {
        var w :| w in left;
        ghost var done := watches.Keys - left;
        PartOneMore(watches, done, w);
        if !watches[w].isWatching {
          SkipInactive(table, Part(watches, done), gs, w, watches[w]);
        } else {
          var keys := GetFieldsFromGroup(w);
          if keys.None? {
            assert Active(watches, w) && !Named(gs, w);
            return None;
          }
          var more := AddFreqs(table, keys.value, watches[w].updateFreq);
          AddActive(table, more, Part(watches, done), gs, w, watches[w]);
          table := more;
        }
        left := left - {w};
        assert watches.Keys - left == done + {w};
      }
      assert watches.Keys - left == watches.Keys;
      assert Part(watches, watches.Keys) == watches;
      freqs := Some(table);
    }

    /** The loop over the impacted fields in `update_field_in_table_when_unwatch`. */
    method ClearFields(keys: seq<FieldKey>, freqs: map<FieldKey, nat>) returns (closed: seq<FieldKey>)
      modifies this`fields
      ensures fields.Keys == old(fields).Keys
      ensures forall k :: k in fields ==> fields[k] == Cleared(old(fields), SetOf(keys), freqs, k)
      ensures forall k :: k in closed <==> k in keys && !IsNotification(k.field) && (k !in old(fields) || k !in freqs)
    {
      closed := [];
      for i := 0 to |keys|
        invariant fields.Keys == old(fields).Keys
        invariant forall k :: k in fields ==> fields[k] == Cleared(old(fields), SetOf(keys[..i]), freqs, k)
        invariant forall k :: k in closed <==>
          k in keys[..i] && !IsNotification(k.field) && (k !in old(fields) || k !in freqs)
      {
        SetOfOneMore(keys, i);
        var k := keys[i];
        if IsNotification(k.field) {
          continue;
        }
        if k !in fields {
          closed := closed + [k];
          continue;
        }
        if k !in freqs {
          fields := fields[k := fields[k].(isWatching := false)];
          closed := closed + [k];
        } else {
          fields := fields[k := fields[k].(updateFreq := freqs[k])];
        }
      }
      assert keys[..|keys|] == keys;
    }

    /** `update_field_in_table_when_unwatch`; the SMI calls that close counters may fail. */
    method UpdateFieldsWhenUnwatch(g: GroupKey, stops: FieldKey -> bool, destroys: FieldKey -> bool)
      returns (st: Status)
      requires telemetry.Valid() && !Active(watches, g)
      modifies this`fields, telemetry, telemetry.counters
      ensures telemetry.Valid()
      ensures st == if Readable(watches, groups.State(), g) then Ok else NotFound
      ensures st != Ok ==>
        fields == old(fields) && telemetry.counters.handles.Keys == old(telemetry.counters.handles.Keys)
      ensures st == Ok ==>
        && fields == Unwatched(watches, groups.State(), old(fields), g)
        && telemetry.counters.handles.Keys == set k | k in old(telemetry.counters.handles.Keys)
             && !(Counted(telemetry.queries, k) && Closes(watches, groups.State(), old(fields), g, k))
    {
      var keys := GetFieldsFromGroup(g);
      if keys.None? {
        return NotFound;
      }
      var freqs := UpdateFrequencies();
      if freqs.None? {
        return NotFound;
      }
      var closed := ClearFields(keys.value, freqs.value);
      ClearedIsUnwatched(watches, groups.State(), old(fields), fields, g, freqs.value);
      ghost var closing := set k | k in closed && Counted(telemetry.queries, k);
      assert forall k :: k in closed <==> Closes(watches, groups.State(), old(fields), g, k);
      telemetry.FieldsUnwatch(closed, stops, destroys);
      assert telemetry.counters.handles.Keys == old(telemetry.counters.handles.Keys) - closing;
      st := Ok;
    }

    /** `rdc_field_unwatch`. */
    method FieldUnwatch(g: GroupKey, now: nat, stops: FieldKey -> bool, destroys: FieldKey -> bool) returns (st: Status)
      requires Valid()
      modifies this`watches, this`fields, telemetry, telemetry.counters
      ensures Valid()
      ensures st == UnwatchStatus(old(State()), g, now)
      ensures State() == UnwatchStep(old(State()), g, now)
      ensures g in old(watches) ==> g in watches && !watches[g].isWatching && watches[g].lastUpdateTime == now
    {
      if g !in watches {
        return NotFound;
      }
      watches := watches[g := watches[g].(isWatching := false, lastUpdateTime := now)];
      st := UpdateFieldsWhenUnwatch(g, stops, destroys);
    }

    /** `is_job_watch_field`: a search in the order of the job ids. */
    method IsJobWatchField(k: FieldKey) returns (job: Option<JobId>)
      ensures job == RouteJob(jobs, k)
      ensures match job
        case None => forall j :: j in jobs ==> k !in jobs[j].fields
        case Some(j) => FirstJob(jobs, k, j)
    {
      RouteJobExists(jobs, k);
      RouteJobIsLeast(jobs, k);
      var left := jobs.Keys;
      while left != {}
        invariant left <= jobs.Keys
        invariant forall j :: j in jobs && j !in left ==> k !in jobs[j].fields
        decreases left
      {
        ghost var least := LeastOf(left);
        var j :| j in left && forall i :: i in left && i != j ==> Before(j, i);
        if k in jobs[j].fields {
          assert LeastJob(jobs, k, j);
          return Some(j);
        }
        left := left - {j};
      }
      job := None;
    }

    /** One value in `handle_fields` or `rdc_notif_update_cache`, stamped with `at`. */
    method HandleValue(v: FieldValue, at: nat)
      requires Valid()
      modifies this`fields, this`clock, cache
      ensures Valid()
      ensures State() == HandleOne(old(State()), Delivery(v, at))
    {
      var k := v.Key();
      if k in fields {
        fields := fields[k := fields[k].(lastUpdateTime := at)];
      }
      clock := at;
      if v.reading.status != Ok {
        return;
      }
      cache.UpdateCache(v.gpu, v.reading);
      var job := IsJobWatchField(k);
      if job.Some? {
        var st := cache.UpdateJobStats(v.gpu, job.value, v.reading);
      }
    }

    /** One turn of the loop of `handle_fields`. */
    method HandleNext(ghost e: Engine, ghost done: seq<Delivery>, v: FieldValue, at: nat)
      requires Valid() && State() == HandleAll(e, done)
      modifies this`fields, this`clock, cache
      ensures Valid() && State() == HandleAll(e, done + [Delivery(v, at)])
    {
      HandleSnoc(e, done, Delivery(v, at));
      HandleValue(v, at);
    }

    /** `handle_fields` on one batch; `times(from + i)` is the clock when value `i` is stamped. */
    method HandleFields(values: seq<FieldValue>, times: nat -> nat, from: nat)
      requires Valid()
      modifies this`fields, this`clock, cache
      ensures Valid()
      ensures State() == HandleAll(old(State()), Zip(values, times, from))
    {
      ghost var e, done: seq<Delivery> := State(), [];
      for i := 0 to |values|
        invariant Valid() && State() == HandleAll(e, done)
        invariant |done| == i && forall n :: 0 <= n < i ==> done[n] == Delivery(values[n], times(from + n))
      {
        HandleNext(e, done, values[i], times(from + i));
        done := done + [Delivery(values[i], times(from + i))];
      }
      assert done == Zip(values, times, from);
    }

    /** The selection loop of `rdc_field_update_all`. */
    method SelectDue(now: nat) returns (asked: seq<FieldKey>)
      ensures Distinct(asked) && SetOf(asked) == Due(fields, now)
    {
      asked := [];
      var left := fields.Keys;
      while left != {}
        invariant left <= fields.Keys
        invariant Distinct(asked)
        invariant forall k :: k in asked <==> k in fields && k !in left && IsDue(fields[k], now)
        decreases left
      {
        var k :| k in left;
        if IsDue(fields[k], now) {
          asked := asked + [k];
        }
        left := left - {k};
      }
    }

    /** The batches of one telemetry request, handed to `handle_fields` in turn. */
    method HandleBatches(batches: seq<seq<FieldValue>>, times: nat -> nat) returns (ghost ds: seq<Delivery>)
      requires Valid()
      modifies this`fields, this`clock, cache
      ensures Valid()
      ensures ds == Zip(Flatten(batches), times, 0)
      ensures State() == HandleAll(old(State()), ds)
    {
      ds := [];
      var count := 0;
      for i := 0 to |batches|
        invariant Valid()
        invariant count == |Flatten(batches[..i])| && ds == Zip(Flatten(batches[..i]), times, 0)
        invariant State() == HandleAll(old(State()), ds)
      {
        FlattenOneMore(batches, i);
        ZipConcat(Flatten(batches[..i]), batches[i], times);
        HandleConcat(old(State()), ds, Zip(batches[i], times, count));
        HandleFields(batches[i], times, count);
        ds := ds + Zip(batches[i], times, count);
        count := count + |batches[i]|;
      }
      assert batches[..|batches|] == batches;
    }

    /** The fetch of `rdc_field_update_all`: nothing is asked when no field is due. */
    method FetchDue(asked: seq<FieldKey>, now: nat, libs: nat -> Library, times: nat -> nat)
      returns (ghost ds: seq<Delivery>)
      requires Valid() && Distinct(asked) && SetOf(asked) == Due(fields, now)
      requires forall m :: |libs(m).slots| == BATCH
      modifies this`fields, this`clock, cache, telemetry
      ensures Valid()
      ensures AllFill(telemetry.queries, asked, libs) ==> Answers(old(fields), now, ds)
      ensures AllFill(telemetry.queries, asked, libs) ==>
        Fetched(telemetry.queries, libs, now, Due(old(fields), now), old(cache.State()), cache.State())
      ensures forall i :: 0 <= i < |ds| ==> ds[i].at == times(i)
      ensures State() == HandleAll(old(State()), ds)
    {
      ds := [];
      if |asked| != 0 {
        ghost var order, parts;
        var batches;
        batches, order, parts := telemetry.ValueGet(asked, libs, now);
        ds := HandleBatches(batches, times);
        if AllFill(telemetry.queries, asked, libs) {
          RequestFetched(old(State()), now, telemetry.queries, asked, libs, telemetry.bulkFailed, parts,
                         Flatten(batches), times);
        }
      }
    }

    /** The second loop of `clean_up`. */
    method CleanWatches(at: nat)
      modifies this`watches
      ensures watches == map g | g in old(watches) && !Expired(old(watches)[g], at) :: old(watches)[g]
    {
      var left := watches.Keys;
      while left != {}
        invariant left <= old(watches).Keys
        invariant watches ==
          map g | g in old(watches) && (g in left || !Expired(old(watches)[g], at)) :: old(watches)[g]
        decreases left
      {
        var g :| g in left;
        if Expired(watches[g], at) {
          watches := watches - {g};
        }
        left := left - {g};
      }
    }

    /** One field of that loop. */
    method CleanField(k: FieldKey, at: nat, evictAt: nat)
      requires Valid() && k in fields
      modifies this`fields, cache
      ensures Valid()
      ensures Cleaning(cache.State(), fields) ==
        CleanOne(Cleaning(old(cache.State()), old(fields)), old(fields)[k], k, at, evictAt)
    {
      var s := fields[k];
      var st := cache.EvictCache(k.gpu, k.field, s.maxKeepSamples, s.maxKeepAge, evictAt);
      if Expired(s, at) {
        fields := fields - {k};
      }
    }

    /** The first loop of `clean_up`: evict, then erase what has expired. */
    method CleanFields(at: nat, evictAt: FieldKey -> nat)
      requires Valid()
      modifies this`fields, cache
      ensures Valid()
      ensures cache.State() == old(cache.State()).(samples := EvictAll(old(cache.samples), old(fields), evictAt))
      ensures fields == map k | k in old(fields) && !Expired(old(fields)[k], at) :: old(fields)[k]
    {
      var left := fields.Keys;
      ghost var c, fs, order: seq<FieldKey> := cache.State(), fields, [];
      while left != {}
        invariant Valid() && left <= fs.Keys && Distinct(order)
        invariant forall k :: k in order <==> k in fs && k !in left
        invariant Cleaning(cache.State(), fields) == CleanEach(c, fs, at, evictAt, order)
        decreases left
      {
        var k :| k in left;
        CleanEachKeeps(c, fs, at, evictAt, order, k);
        CleanOneMore(c, fs, at, evictAt, order, k);
        CleanField(k, at, evictAt(k));
        left, order := left - {k}, order + [k];
      }
      CleanAll(c, fs, at, evictAt, order);
    }

    /** `clean_up`. */
    method CleanUp(at: nat, evictAt: FieldKey -> nat)
      requires Valid()
      modifies this`watches, this`fields, cache
      ensures Valid()
      ensures State() == CleanStep(old(State()), at, evictAt)
    {
      CleanFields(at, evictAt);
      CleanWatches(at);
    }

    /** `rdc_field_update_all`: one engine update. When the one-by-one fetches fill their slots, the
        deliveries answer exactly the fields that were due, and each good reading of the library that
        serves such a field is stored once, before the once-per-second clean-up. */
    method FieldUpdateAll(now: nat, libs: nat -> Library, times: nat -> nat, cleanAt: nat, evictAt: FieldKey -> nat)
      returns (asked: seq<FieldKey>, ghost ds: seq<Delivery>, ghost fetched: Cache)
      requires Valid() && forall m :: |libs(m).slots| == BATCH
      modifies this`watches, this`fields, this`lastCleanup, this`clock, cache, telemetry
      ensures Valid()
      ensures Distinct(asked) && SetOf(asked) == Due(old(fields), now)
      ensures AllFill(telemetry.queries, asked, libs) ==> Answers(old(fields), now, ds)
      ensures AllFill(telemetry.queries, asked, libs) ==>
        Fetched(telemetry.queries, libs, now, Due(old(fields), now), old(cache.State()), fetched)
      ensures cache.State() == if now < old(lastCleanup) || now - old(lastCleanup) > 1000
        then fetched.(samples := EvictAll(fetched.samples, HandleAll(old(State()), ds).fields, evictAt)) else fetched
      ensures forall i :: 0 <= i < |ds| ==> ds[i].at == times(i)
      ensures State() == UpdateStep(old(State()), now, ds, cleanAt, evictAt)
    {
      asked := SelectDue(now);
      ds := FetchDue(asked, now, libs, times);
      fetched := cache.State();
      if CleanupDue(now, lastCleanup) {
        CleanUp(cleanAt, evictAt);
        lastCleanup := now;
      }
      clock := cleanAt;
    }

    /** `rdc_notif_update_cache`. */
    method NotifUpdateCache(events: seq<FieldValue>) returns (st: Status)
      requires Valid()
      modifies this`fields, this`clock, cache
      ensures Valid()
      ensures st == if events == [] then BadParameter else Ok
      ensures State() == NotifyStep(old(State()), events)
    {
      if events == [] {
        return BadParameter;
      }
      ghost var before := clock;
      var stamps := (i: nat) => if i < |events| then events[i].reading.ts else 0;
      HandleFields(events, stamps, 0);
      assert Zip(events, stamps, 0) ==
        seq(|events|, i requires 0 <= i < |events| => Delivery(events[i], events[i].reading.ts));
      clock := before;
      st := Ok;
    }

    /** `rdc_job_start_stats`, its critical sections in sequence. The job stays in the job table and
        the cache when the final watch is refused. */
    method JobStartStats(groupId: nat, j: JobId, freq: nat, gauges: Gauges, time: nat, offer: map<FieldKey, nat>)
      returns (st: Status)
      requires Valid()
      modifies this`watches, this`fields, this`jobs, cache, telemetry, telemetry.counters
      ensures Valid()
      ensures st == JobStartStatus(old(State()), groupId, j)
      ensures State() == JobStarted(old(State()), groupId, j, freq, gauges, time, offer.Keys)
      ensures st == Ok ==> Began(old(State()), State(), groupId, j, freq, time)
    {
      if JobStartStatus(State(), groupId, j) == Ok {
        StartGrants(State(), groupId, j, freq, gauges, time, offer.Keys);
      }
      if j in jobs {
        return AlreadyExist;
      }
      var g := GroupKey(groupId, GroupSettings.JOB_FIELD_GROUP);
      var keys := GetFieldsFromGroup(g);
      if keys.None? {
        return NotFound;
      }
      if |keys.value| == 0 {
        return NotFound;
      }
      jobs := jobs[j := JobEntry(groupId, keys.value)];
      var gpus := groups.GpuGroupInfo(groupId);
      var ids := groups.FieldGroupInfo(GroupSettings.JOB_FIELD_GROUP);
      cache.JobStart(j, gpus.value, ids.value, gauges, time);
      st := FieldWatch(g, freq, 0.0, 0, offer);
    }

    /** `rdc_job_stop_stats`, run without another call in between: refused unless the job is in the
        job table, which a successful stop takes it out of. */
    method JobStopStats(j: JobId, gauges: Gauges, time: nat, now: nat, stops: FieldKey -> bool,
                        destroys: FieldKey -> bool) returns (st: Status)
      requires Valid()
      modifies this`watches, this`fields, this`jobs, cache, telemetry, telemetry.counters
      ensures Valid()
      ensures st == JobStopStatus(old(State()), j, now)
      ensures State() == JobStopped(old(State()), j, gauges, time, now)
      ensures st == Ok ==> j !in jobs && forall i :: i != j && i in old(jobs) ==> i in jobs && jobs[i] == old(jobs)[i]
      ensures st == Ok ==>
        && j in old(cache.jobs) && j in cache.jobs
        && cache.jobs[j].endTime == time && cache.jobs[j].startTime == old(cache.jobs)[j].startTime
    {
      if j !in jobs {
        return NotFound;
      }
      st := FieldUnwatch(GroupKey(jobs[j].groupId, GroupSettings.JOB_FIELD_GROUP), now, stops, destroys);
      if st != Ok {
        return;
      }
      jobs := jobs - {j};
      st := cache.JobStop(j, gauges, time);
    }

    /** `rdc_job_remove`: a stop without gauges, then the record goes. */
    method JobRemove(j: JobId, time: nat, now: nat, stops: FieldKey -> bool, destroys: FieldKey -> bool)
      requires Valid()
      modifies this`watches, this`fields, this`jobs, cache, telemetry, telemetry.counters
      ensures Valid()
      ensures State() == JobRemoved(old(State()), j, time, now)
    {
      var st := JobStopStats(j, map[], time, now, stops, destroys);
      cache.JobRemove(j);
    }

    /** The ids in the job table, each once. */
    method JobIds() returns (ids: seq<JobId>)
      ensures Distinct(ids)
      ensures forall j :: j in ids <==> j in jobs
    {
      ids := [];
      var left := jobs.Keys;
      while left != {}
        invariant left <= jobs.Keys && Distinct(ids)
        invariant forall j :: j in ids <==> j in jobs && j !in left
        decreases |left|
      {
        var j :| j in left;
        left := left - {j};
        ids := ids + [j];
      }
    }

    /** `rdc_job_remove_all`. */
    method JobRemoveAll(times: nat -> nat, nows: nat -> nat, stops: FieldKey -> bool, destroys: FieldKey -> bool)
      returns (ids: seq<JobId>)
      requires Valid()
      modifies this`watches, this`fields, this`jobs, cache, telemetry, telemetry.counters
      ensures Valid()
      ensures Distinct(ids) && forall j :: j in ids <==> j in old(jobs)
      ensures State() == AllRemoved(old(State()), ids, times, nows)
    {
      ids := JobIds();
      ghost var e := State();
      for i := 0 to |ids|
        invariant Valid() && State() == StoppedAll(e, ids[..i], times, nows)
      {
        var st := JobStopStats(ids[i], map[], times(i), nows(i), stops, destroys);
        assert ids[..i + 1][..i] == ids[..i];
      }
      assert ids[..|ids|] == ids;
      cache.JobRemoveAll();
    }
  }
}
