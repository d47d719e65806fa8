/** How long samples, counters and stamps live, over every run of the engine. */
module Lifetimes {
  import opened Common
  import opened SampleCache
  import opened CacheManager
  import opened Telemetry
  import opened Engine
  import opened Invariants

  // ---------------------------------------------------------------------
  // An expired field leaves nothing behind

  ghost predicate NoYounger(xs: seq<Sample>, t: nat) {
    forall i :: 0 <= i < |xs| ==> xs[i].ts <= t
  }

  /** Outside notifications, cached samples belong to a field still in the index, and none is
      younger than that field's last update. */
  ghost predicate KeyLasting(fs: Fields, samples: map<FieldKey, seq<Sample>>, clock: nat, k: FieldKey) {
    IsNotification(k.field) ||
    (&& (k in fs ==> fs[k].lastUpdateTime <= clock)
     && (Lookup(samples, k) != [] ==> k in fs)
     && (k in fs ==> NoYounger(Lookup(samples, k), fs[k].lastUpdateTime)))
  }

  ghost predicate Lasting(e: Engine) {
    forall k :: KeyLasting(e.fields, e.cache.samples, e.clock, k)
  }

  /** A value that reaches the callback no later than it is stamped, for a field in the index. */
  lemma HandleKeepsLasting(e: Engine, d: Delivery)
    requires Lasting(e)
    requires IsNotification(d.value.reading.field) || (d.value.Key() in e.fields && d.value.reading.ts <= d.at)
    requires e.clock <= d.at
    ensures Lasting(HandleOne(e, d))
  {
    var n := HandleOne(e, d);
    RecordedSamples(e.cache, e.jobs, d.value);
    forall k ensures KeyLasting(n.fields, n.cache.samples, n.clock, k) {
      assert KeyLasting(e.fields, e.cache.samples, e.clock, k);
    }
  }

  lemma {:induction false} HandleAllKeepsLasting(e: Engine, ds: seq<Delivery>)
    requires Lasting(e)
    requires forall i :: 0 <= i < |ds| ==> ds[i].value.Key() in e.fields && ds[i].value.reading.ts <= ds[i].at
    requires forall i :: 0 <= i < |ds| ==> e.clock <= ds[i].at
    requires forall i, j :: 0 <= i < j < |ds| ==> ds[i].at <= ds[j].at
    ensures Lasting(HandleAll(e, ds))
    ensures HandleAll(e, ds).clock == if ds == [] then e.clock else ds[|ds| - 1].at
  {
    if ds != [] {
      var init := ds[..|ds| - 1];
      HandleAllKeepsLasting(e, init);
      HandleOnlyStamps(e, init);
      HandleKeepsLasting(HandleAll(e, init), ds[|ds| - 1]);
    }
  }

  lemma EvictedNoYounger(xs: seq<Sample>, t: nat, maxKeep: nat, age: real, now: nat)
    requires NoYounger(xs, t)
    ensures NoYounger(Evict(xs, maxKeep, age, now), t)
  {
    EvictSuffix(xs, maxKeep, age, now);
  }

  /** Whenever clean-up erases a field, its sample vector has just been emptied. */
  lemma CleanKeepsLasting(e: Engine, at: nat, evictAt: FieldKey -> nat)
    requires Lasting(e) && forall k :: at <= evictAt(k)
    ensures Lasting(CleanStep(e, at, evictAt))
    ensures forall k :: k in e.fields && k !in CleanStep(e, at, evictAt).fields && !IsNotification(k.field) ==>
      SamplesOf(CleanStep(e, at, evictAt).cache, k) == []
  {
    var n := CleanStep(e, at, evictAt);
    forall k ensures KeyLasting(n.fields, n.cache.samples, n.clock, k)
      && (k in e.fields && k !in n.fields && !IsNotification(k.field) ==> Lookup(n.cache.samples, k) == [])
    {
      assert KeyLasting(e.fields, e.cache.samples, e.clock, k);
      if !IsNotification(k.field) && k in e.fields && k in e.cache.samples {
        var s, xs := e.fields[k], e.cache.samples[k];
        EvictedNoYounger(xs, s.lastUpdateTime, s.maxKeepSamples, s.maxKeepAge, evictAt(k));
        if Expired(s, at) {
          EvictEmpties(xs, s.maxKeepSamples, s.maxKeepAge, evictAt(k));
        }
      }
    }
  }

  lemma LaterClock(e: Engine, n: Engine)
    requires Lasting(e) && n.fields == e.fields && n.cache.samples == e.cache.samples && e.clock <= n.clock
    ensures Lasting(n)
  {
    forall k ensures KeyLasting(n.fields, n.cache.samples, n.clock, k) {
      assert KeyLasting(e.fields, e.cache.samples, e.clock, k);
    }
  }

  lemma UpdateKeepsLasting(e: Engine, now: nat, ds: seq<Delivery>, cleanAt: nat, evictAt: FieldKey -> nat)
    requires Lasting(e) && Answers(e.fields, now, ds) && Timely(e.clock, now, ds, cleanAt, evictAt)
    ensures Lasting(UpdateStep(e, now, ds, cleanAt, evictAt))
  {
    forall i | 0 <= i < |ds| ensures ds[i].value.Key() in e.fields {
      assert KeyDelivered(ds, ds[i].value.Key());
      assert ds[i].value.Key() in Due(e.fields, now);
    }
    HandleAllKeepsLasting(e, ds);
    var h := HandleAll(e, ds);
    if CleanupDue(now, e.lastCleanup) {
      CleanKeepsLasting(h, cleanAt, evictAt);
      LaterClock(CleanStep(h, cleanAt, evictAt), UpdateStep(e, now, ds, cleanAt, evictAt));
    } else {
      LaterClock(h, UpdateStep(e, now, ds, cleanAt, evictAt));
    }
  }

  lemma {:induction false} NotifyLeavesOthers(e: Engine, ds: seq<Delivery>, k: FieldKey)
    requires forall i :: 0 <= i < |ds| ==> ds[i].value.Key() != k
    ensures
      var n := HandleAll(e, ds);
      && (k in n.fields <==> k in e.fields) && (k in e.fields ==> n.fields[k] == e.fields[k])
      && Lookup(n.cache.samples, k) == Lookup(e.cache.samples, k)
  {
    if ds != [] {
      var init := ds[..|ds| - 1];
      NotifyLeavesOthers(e, init, k);
      RecordedSamples(HandleAll(e, init).cache, HandleAll(e, init).jobs, ds[|ds| - 1].value);
    }
  }

  lemma NotifyKeepsLasting(e: Engine, events: seq<FieldValue>)
    requires Lasting(e) && forall v :: v in events ==> IsNotification(v.reading.field)
    ensures Lasting(NotifyStep(e, events))
  {
    var n := NotifyStep(e, events);
    assert n == HandleAll(e, Events(events)).(clock := e.clock);
    forall k ensures KeyLasting(n.fields, n.cache.samples, n.clock, k) {
      assert KeyLasting(e.fields, e.cache.samples, e.clock, k);
      if !IsNotification(k.field) {
        forall i | 0 <= i < |events| ensures events[i].Key() != k {
          assert events[i] in events;
        }
        NotifyLeavesOthers(e, Events(events), k);
      }
    }
  }

  lemma WatchKeepsLasting(e: Engine, g: GroupKey, f: Settings, granted: set<FieldKey>)
    requires Lasting(e) && f.lastUpdateTime == 0
    ensures Lasting(WatchStep(e, g, f, granted))
  {
    var n := WatchStep(e, g, f, granted);
    forall k ensures KeyLasting(n.fields, n.cache.samples, n.clock, k) {
      assert KeyLasting(e.fields, e.cache.samples, e.clock, k);
    }
  }

  lemma UnwatchKeepsLasting(e: Engine, g: GroupKey, now: nat)
    requires Lasting(e)
    ensures Lasting(UnwatchStep(e, g, now))
  {
    var n := UnwatchStep(e, g, now);
    forall k ensures KeyLasting(n.fields, n.cache.samples, n.clock, k) {
      assert KeyLasting(e.fields, e.cache.samples, e.clock, k);
    }
  }

  lemma StepKeepsLasting(e: Engine, s: Step)
    requires Lasting(e) && Enabled(e, s)
    ensures Lasting(Next(e, s))
  {
    match s
    case Watch(g, freq, age, samples, granted) => WatchKeepsLasting(e, g, NewWatch(freq, age, samples), granted);
    case Unwatch(g, now) => UnwatchKeepsLasting(e, g, now);
    case Update(now, ds, cleanAt, evictAt) => UpdateKeepsLasting(e, now, ds, cleanAt, evictAt);
    case Notify(events) => NotifyKeepsLasting(e, events);
    case _ => LaterClock(e, Next(e, s));
  }

  /** In every run, keys with cached telemetry samples are a subset of the field index. */
  lemma {:induction false} NothingLeftBehind(qs: Queries, states: seq<Engine>, steps: seq<Step>, n: nat)
    requires IsRun(qs, states, steps) && n < |states|
    ensures Lasting(states[n])
    ensures forall k: FieldKey :: !IsNotification(k.field) && SamplesOf(states[n].cache, k) != [] ==>
      k in states[n].fields
  {
    if n > 0 {
      NothingLeftBehind(qs, states, steps, n - 1);
      assert StepAt(states, steps, n - 1) && Enabled(states[n - 1], steps[n - 1]);
      StepKeepsLasting(states[n - 1], steps[n - 1]);
    }
    forall k: FieldKey | !IsNotification(k.field) && SamplesOf(states[n].cache, k) != [] ensures k in states[n].fields {
      assert KeyLasting(states[n].fields, states[n].cache.samples, states[n].clock, k);
    }
  }

  // ---------------------------------------------------------------------
  // The rate limit, end to end

  lemma {:induction false} StampIsADelivery(e: Engine, ds: seq<Delivery>, k: FieldKey)
    requires k in e.fields
    ensures
      var n := HandleAll(e, ds);
      k in n.fields &&
      if KeyDelivered(ds, k)
      then exists i :: 0 <= i < |ds| && n.fields[k].lastUpdateTime == ds[i].at
      else n.fields[k] == e.fields[k]
  {
    if ds != [] {
      var init, last := ds[..|ds| - 1], ds[|ds| - 1];
      StampIsADelivery(e, init, k);
      if last.value.Key() != k {
        if KeyDelivered(init, k) {
          var i :| 0 <= i < |init| && init[i].value.Key() == k;
          assert ds[i].value.Key() == k;
          var n :| 0 <= n < |init| && HandleAll(e, init).fields[k].lastUpdateTime == init[n].at;
          assert ds[n].at == init[n].at;
        } else {
          assert forall i :: 0 <= i < |init| ==> ds[i] == init[i];
        }
      }
    }
  }

  /** A field asked for by an update and still in the index after it was stamped no earlier than
      the update began. */
  lemma SelectedIsStamped(e: Engine, s: Step, k: FieldKey)
    requires s.Update? && Enabled(e, s) && k in Due(e.fields, s.now) && k in Next(e, s).fields
    ensures s.now <= Next(e, s).fields[k].lastUpdateTime
  {
    StampIsADelivery(e, s.ds, k);
    assert KeyDelivered(s.ds, k);
  }

  lemma NotifyLeavesStamp(e: Engine, events: seq<FieldValue>, k: FieldKey)
    requires k in e.fields && !IsNotification(k.field) && forall v :: v in events ==> IsNotification(v.reading.field)
    ensures k in NotifyStep(e, events).fields && NotifyStep(e, events).fields[k] == e.fields[k]
  {
    forall i | 0 <= i < |events| ensures events[i].Key() != k {
      assert events[i] in events;
    }
    NotifyLeavesOthers(e, Events(events), k);
  }

  lemma WatchLeavesStamp(e: Engine, g: GroupKey, f: Settings, granted: set<FieldKey>, k: FieldKey)
    requires k in e.fields
    ensures
      var n := WatchStep(e, g, f, granted);
      k in n.fields && n.fields[k].lastUpdateTime == e.fields[k].lastUpdateTime
  {
  }

  /** While a field stays in the index, no step takes its stamp back. */
  lemma StampNeverGoesBack(e: Engine, s: Step, k: FieldKey)
    requires Lasting(e) && Enabled(e, s) && !IsNotification(k.field)
    requires k in e.fields && k in Next(e, s).fields
    ensures e.fields[k].lastUpdateTime <= Next(e, s).fields[k].lastUpdateTime
  {
    assert KeyLasting(e.fields, e.cache.samples, e.clock, k);
    match s
    case Update(now, ds, cleanAt, evictAt) => StampIsADelivery(e, ds, k);
    case Notify(events) => NotifyLeavesStamp(e, events, k);
    case Watch(g, freq, age, samples, granted) => WatchLeavesStamp(e, g, NewWatch(freq, age, samples), granted, k);
    case _ =>
  }

  ghost predicate Selected(states: seq<Engine>, steps: seq<Step>, i: nat, k: FieldKey)
    requires |states| == |steps| + 1
  {
    i < |steps| && steps[i].Update? && k in Due(states[i].fields, steps[i].now)
  }

  ghost predicate StaysIndexed(states: seq<Engine>, i: nat, j: nat, k: FieldKey) {
    i <= j < |states| && forall m :: i <= m <= j ==> k in states[m].fields
  }

  lemma {:induction false} StampSinceSelection(qs: Queries, states: seq<Engine>, steps: seq<Step>, i: nat, j: nat,
                                               k: FieldKey)
    requires IsRun(qs, states, steps) && !IsNotification(k.field)
    requires Selected(states, steps, i, k) && i < j && StaysIndexed(states, i, j, k)
    ensures steps[i].now <= states[j].fields[k].lastUpdateTime
  {
    assert StepAt(states, steps, j - 1) && Enabled(states[j - 1], steps[j - 1]) && k in states[j].fields;
    if j == i + 1 {
      SelectedIsStamped(states[i], steps[i], k);
    } else {
      StampSinceSelection(qs, states, steps, i, j - 1, k);
      NothingLeftBehind(qs, states, steps, j - 1);
      StampNeverGoesBack(states[j - 1], steps[j - 1], k);
    }
  }

  /** Rate limit: while a key stays in the index, any two selections of it are at least the later
      one's update frequency apart, whatever watches, unwatches and clean-ups come between. */
  lemma RateLimit(qs: Queries, states: seq<Engine>, steps: seq<Step>, i: nat, j: nat, k: FieldKey)
    requires IsRun(qs, states, steps) && !IsNotification(k.field)
    requires Selected(states, steps, i, k) && Selected(states, steps, j, k) && i < j && StaysIndexed(states, i, j, k)
    ensures steps[i].now + states[j].fields[k].updateFreq / 1000 <= steps[j].now
  {
    StampSinceSelection(qs, states, steps, i, j, k);
  }

  lemma UpdateKeepsMarks(e: Engine, ds: seq<Delivery>, at: nat, evictAt: FieldKey -> nat)
    ensures forall k :: Watching(HandleAll(e, ds).fields, k) <==> Watching(e.fields, k)
    ensures forall k :: Watching(CleanStep(HandleAll(e, ds), at, evictAt).fields, k) <==> Watching(e.fields, k)
    ensures HandleAll(e, ds).handles == e.handles && HandleAll(e, ds).queries == e.queries
  {
    HandleOnlyStamps(e, ds);
  }

  /** The other side of the limit: after an update that began at `now`, no supported key covered by
      an active watch is older than that watch's update frequency. */
  lemma NoFieldIsOverdue(qs: Queries, states: seq<Engine>, steps: seq<Step>, i: nat, g: GroupKey, k: FieldKey)
    requires IsRun(qs, states, steps) && i < |steps| && steps[i].Update?
    requires Asks(states[i].watches, states[i].groups, g, k) && Supports(qs, k.field) && !IsNotification(k.field)
    ensures
      k in states[i + 1].fields &&
      var last := states[i + 1].fields[k].lastUpdateTime;
      steps[i].now <= last || steps[i].now < last + states[i].watches[g].updateFreq / 1000
  {
    var e, s := states[i], steps[i];
    IndexAlwaysAgrees(qs, states, steps, i);
    NothingLeftBehind(qs, states, steps, i);
    assert StepAt(states, steps, i) && Enabled(e, s);
    assert FieldAgrees(e, k) && Wanted(e.watches, e.groups, k);
    UpdateKeepsMarks(e, s.ds, s.cleanAt, s.evictAt);
    assert Watching(states[i + 1].fields, k);
    if k in Due(e.fields, s.now) {
      SelectedIsStamped(e, s, k);
    } else {
      StampNeverGoesBack(e, s, k);
      DivMono(e.fields[k].updateFreq, e.watches[g].updateFreq, 1000);
    }
  }

  /** What any active watch asked to keep survives clean-up: the samples its own limits would keep
      are still cached after it. */
  lemma WatchedSamplesSurvive(qs: Queries, states: seq<Engine>, steps: seq<Step>, n: nat, g: GroupKey, k: FieldKey,
                              at: nat, evictAt: FieldKey -> nat)
    requires IsRun(qs, states, steps) && n < |states|
    requires
      var e := states[n];
      && Asks(e.watches, e.groups, g, k) && Supports(qs, k.field)
      && FitsInt(|SamplesOf(e.cache, k)|, e.watches[g].maxKeepSamples)
      && (k in e.fields ==> FitsInt(|SamplesOf(e.cache, k)|, e.fields[k].maxKeepSamples))
    ensures
      var e := states[n];
      IsSuffix(Evict(SamplesOf(e.cache, k), e.watches[g].maxKeepSamples, e.watches[g].maxKeepAge, evictAt(k)),
               SamplesOf(CleanStep(e, at, evictAt).cache, k))
  {
    var e := states[n];
    IndexAlwaysAgrees(qs, states, steps, n);
    assert FieldAgrees(e, k);
    var w, f, xs := e.watches[g], e.fields[k], SamplesOf(e.cache, k);
    EvictMonotone(xs, w.maxKeepSamples, f.maxKeepSamples, w.maxKeepAge, f.maxKeepAge, evictAt(k));
    if k !in e.cache.samples {
      assert Evict(xs, w.maxKeepSamples, w.maxKeepAge, evictAt(k)) == [];
    }
  }

  // ---------------------------------------------------------------------
  // What the client asked for, until the unwatch

  /** The entry of a watch, with the settings the client gave. */
  ghost predicate HasAsked(e: Engine, g: GroupKey, freq: nat, age: real, samples: nat) {
    && Active(e.watches, g)
    && e.watches[g].updateFreq == freq && e.watches[g].maxKeepAge == age && e.watches[g].maxKeepSamples == samples
  }

  lemma StepKeepsEntry(e: Engine, s: Step, g: GroupKey)
    requires Active(e.watches, g) && !(s.Unwatch? && s.g == g)
    ensures g in Next(e, s).watches && Next(e, s).watches[g] == e.watches[g]
  {
    match s
    case Update(now, ds, cleanAt, evictAt) => HandleOnlyStamps(e, ds);
    case Notify(events) => HandleOnlyStamps(e, Events(events));
    case _ =>
  }

  lemma StepKeepsCover(e: Engine, s: Step, g: GroupKey, k: FieldKey)
    requires WatchesNamed(e) && Enabled(e, s) && Active(e.watches, g)
    ensures Covers(Next(e, s).groups, g, k) <==> Covers(e.groups, g, k)
  {
    match s
    case GroupChange(op) => GroupOpKeepsCovers(e, op, g, k);
    case Update(now, ds, cleanAt, evictAt) => HandleOnlyStamps(e, ds);
    case Notify(events) => HandleOnlyStamps(e, Events(events));
    case _ =>
  }

  /** The step at `i` is a watch that succeeds, covers the key, and is not unwatched before `n`. */
  ghost predicate WatchedSince(states: seq<Engine>, steps: seq<Step>, i: nat, n: nat, k: FieldKey)
    requires |states| == |steps| + 1
  {
    && i < n < |states|
    && steps[i].Watch? && WatchStatus(states[i], steps[i].g) == Ok && Covers(states[i].groups, steps[i].g, k)
    && forall t :: i < t < n ==> !(steps[t].Unwatch? && steps[t].g == steps[i].g)
  }

  /** Until its unwatch a watch stays as the client asked for it, and covers the same keys. */
  lemma {:induction false} AskedUntilUnwatch(qs: Queries, states: seq<Engine>, steps: seq<Step>, i: nat, n: nat,
                                             k: FieldKey)
    requires IsRun(qs, states, steps) && WatchedSince(states, steps, i, n, k)
    ensures HasAsked(states[n], steps[i].g, steps[i].freq, steps[i].age, steps[i].samples)
    ensures Covers(states[n].groups, steps[i].g, k)
  {
    assert StepAt(states, steps, n - 1) && Enabled(states[n - 1], steps[n - 1]);
    if n == i + 1 {
      WatchGrants(states[i], steps[i].g, steps[i].freq, steps[i].age, steps[i].samples, steps[i].granted);
    } else {
      AskedUntilUnwatch(qs, states, steps, i, n - 1, k);
      IndexAlwaysAgrees(qs, states, steps, n - 1);
      StepKeepsEntry(states[n - 1], steps[n - 1], steps[i].g);
      StepKeepsCover(states[n - 1], steps[n - 1], steps[i].g, k);
    }
  }

  /** The index serves what was asked: marked, at least as often, kept at least as long. */
  lemma AskedIsServed(qs: Queries, states: seq<Engine>, steps: seq<Step>, i: nat, n: nat, k: FieldKey)
    requires IsRun(qs, states, steps) && WatchedSince(states, steps, i, n, k) && Supports(qs, k.field)
    ensures
      var fs := states[n].fields;
      && k in fs && fs[k].isWatching
      && (IsNotification(k.field) || fs[k].updateFreq <= steps[i].freq)
      && fs[k].maxKeepAge >= steps[i].age && fs[k].maxKeepSamples >= steps[i].samples
  {
    AskedUntilUnwatch(qs, states, steps, i, n, k);
    IndexAlwaysAgrees(qs, states, steps, n);
    var e := states[n];
    assert FieldAgrees(e, k);
    assert Asks(e.watches, e.groups, steps[i].g, k) && Wanted(e.watches, e.groups, k);
  }

  lemma UpdateEvictsByIndex(e: Engine, s: Step, k: FieldKey)
    requires s.Update? && k in e.fields
    ensures
      var xs, n := SamplesOf(HandleAll(e, s.ds).cache, k), Next(e, s);
      var f := e.fields[k];
      SamplesOf(n.cache, k) ==
        if CleanupDue(s.now, e.lastCleanup) then Evict(xs, f.maxKeepSamples, f.maxKeepAge, s.evictAt(k)) else xs
  {
    HandleOnlyStamps(e, s.ds);
  }

  /** In terms of what the client asked: until the unwatch, a sample of a covered, supported key that is
      among the last `samples` and at most `age` seconds old survives every update's clean-up, and so
      does every later one. */
  lemma AskedSamplesSurvive(qs: Queries, states: seq<Engine>, steps: seq<Step>, i: nat, n: nat, k: FieldKey, x: nat)
    requires IsRun(qs, states, steps) && n < |steps| && steps[n].Update?
    requires WatchedSince(states, steps, i, n, k) && Supports(qs, k.field)
    requires
      var xs := SamplesOf(HandleAll(states[n], steps[n].ds).cache, k);
      && x < |xs| && |xs| - x <= steps[i].samples
      && xs[x].ts as real + steps[i].age * 1000.0 >= steps[n].evictAt(k) as real
      && (k in states[n].fields ==> FitsInt(|xs|, states[n].fields[k].maxKeepSamples))
    ensures
      var xs := SamplesOf(HandleAll(states[n], steps[n].ds).cache, k);
      IsSuffix(xs[x..], SamplesOf(states[n + 1].cache, k))
  {
    var e, s := states[n], steps[n];
    var xs := SamplesOf(HandleAll(e, s.ds).cache, k);
    AskedIsServed(qs, states, steps, i, n, k);
    assert StepAt(states, steps, n);
    UpdateEvictsByIndex(e, s, k);
    var f := e.fields[k];
    assert f.maxKeepAge * 1000.0 >= steps[i].age * 1000.0;
    EvictKeepsFresh(xs, f.maxKeepSamples, f.maxKeepAge, s.evictAt(k), x);
  }

  // ---------------------------------------------------------------------
  // Clean-up at most once a second

  /** The update cleans up: more than a second after the last clean-up, or the clock went back. */
  ghost predicate Cleans(e: Engine, s: Step) {
    s.Update? && (s.now > e.lastCleanup + 1000 || s.now < e.lastCleanup)
  }

  /** A step that does not clean up erases no field and no watch, and evicts no sample; one that does
      remembers when. */
  lemma CleanupThrottled(e: Engine, s: Step)
    ensures Next(e, s).lastCleanup == if Cleans(e, s) then s.now else e.lastCleanup
    ensures s.Update? && !Cleans(e, s) ==> Next(e, s) == HandleAll(e, s.ds).(clock := s.cleanAt)
  {
    match s
    case Update(now, ds, cleanAt, evictAt) => HandleOnlyStamps(e, ds);
    case Notify(events) => HandleOnlyStamps(e, Events(events));
    case _ =>
  }

  /** The clock the updates read does not go back. */
  ghost predicate UpdatesAdvance(steps: seq<Step>) {
    forall i, j :: 0 <= i < j < |steps| && steps[i].Update? && steps[j].Update? ==> steps[i].now <= steps[j].now
  }

  lemma {:induction false} LastCleanup(qs: Queries, states: seq<Engine>, steps: seq<Step>, i: nat, n: nat)
    requires AnySteps(qs, states, steps) && UpdatesAdvance(steps)
    requires i < n < |states| && Cleans(states[i], steps[i])
    ensures states[n].lastCleanup >= steps[i].now
    ensures exists t :: i <= t < n && steps[t].Update? && steps[t].now == states[n].lastCleanup
  {
    assert StepAt(states, steps, n - 1);
    CleanupThrottled(states[n - 1], steps[n - 1]);
    if n == i + 1 {
      assert steps[i].now == states[n].lastCleanup;
    } else {
      LastCleanup(qs, states, steps, i, n - 1);
    }
  }

  /** Over any sequence of steps in which the clock does not go back, two clean-ups are more than a
      second apart. */
  lemma CleanupsAreSpaced(qs: Queries, states: seq<Engine>, steps: seq<Step>, i: nat, j: nat)
    requires AnySteps(qs, states, steps) && UpdatesAdvance(steps)
    requires i < j < |steps| && Cleans(states[i], steps[i]) && Cleans(states[j], steps[j])
    ensures steps[j].now > steps[i].now + 1000
  {
    LastCleanup(qs, states, steps, i, j);
  }

  /** A field no watch wants any more does go: the first update more than a second after the last
      clean-up, once the field's retention has passed, erases it and its samples. */
  lemma UnwatchedFieldExpires(qs: Queries, states: seq<Engine>, steps: seq<Step>, i: nat, k: FieldKey)
    requires IsRun(qs, states, steps) && i < |steps| && steps[i].Update?
    requires steps[i].now > states[i].lastCleanup + 1000
    requires k in states[i].fields && !IsNotification(k.field) && !Wanted(states[i].watches, states[i].groups, k)
    requires var s := states[i].fields[k];
             s.lastUpdateTime as real + s.maxKeepAge * 1000.0 < steps[i].cleanAt as real
    ensures k !in states[i + 1].fields && SamplesOf(states[i + 1].cache, k) == []
  {
    var e, s := states[i], steps[i];
    IndexAlwaysAgrees(qs, states, steps, i);
    assert FieldAgrees(e, k);
    assert k !in Due(e.fields, s.now);
    assert StepAt(states, steps, i) && Enabled(e, s);
    StampIsADelivery(e, s.ds, k);
    assert k !in states[i + 1].fields;
    NothingLeftBehind(qs, states, steps, i + 1);
  }

  // ---------------------------------------------------------------------
  // Unwatched entries of the watch table

  /** The step is a clean-up that comes more than `age` seconds after `since`. */
  ghost predicate CleansAfter(e: Engine, s: Step, since: nat, age: real) {
    Cleans(e, s) && since as real + age * 1000.0 < s.cleanAt as real
  }

  lemma StepKeepsInactive(e: Engine, s: Step, g: GroupKey)
    requires !Active(e.watches, g) && !(s.Watch? && s.g == g) && !(s.Unwatch? && s.g == g)
    ensures g !in e.watches ==> g !in Next(e, s).watches
    ensures g in e.watches ==>
      (g in Next(e, s).watches <==> !CleansAfter(e, s, e.watches[g].lastUpdateTime, e.watches[g].maxKeepAge))
    ensures g in Next(e, s).watches ==> g in e.watches && Next(e, s).watches[g] == e.watches[g]
  {
    match s
    case Update(now, ds, cleanAt, evictAt) => HandleOnlyStamps(e, ds);
    case Notify(events) => HandleOnlyStamps(e, Events(events));
    case _ =>
  }

  /** The step at `i` unwatches an entry, which is not watched or unwatched again before `n`. */
  ghost predicate UnwatchedSince(states: seq<Engine>, steps: seq<Step>, i: nat, n: nat)
    requires |states| == |steps| + 1
  {
    && i < n < |states| && steps[i].Unwatch? && steps[i].g in states[i].watches
    && forall t :: i < t < n ==> !(steps[t].Watch? && steps[t].g == steps[i].g) &&
                                 !(steps[t].Unwatch? && steps[t].g == steps[i].g)
  }

  /** An unwatched entry stays, inactive, as the unwatch left it, and goes with exactly the first
      clean-up that comes more than its retention after the unwatch. */
  lemma {:induction false} UnwatchedEntryExpiresIff(qs: Queries, states: seq<Engine>, steps: seq<Step>, i: nat, n: nat)
    requires AnySteps(qs, states, steps) && UnwatchedSince(states, steps, i, n)
    ensures
      var g, t, was := steps[i].g, steps[i].now, states[i].watches[steps[i].g];
      && (g in states[n].watches ==>
            && !states[n].watches[g].isWatching && states[n].watches[g].lastUpdateTime == t
            && states[n].watches[g].maxKeepAge == was.maxKeepAge)
      && (g in states[n].watches <==>
            forall m :: i < m < n ==> !CleansAfter(states[m], steps[m], t, was.maxKeepAge))
  {
    assert StepAt(states, steps, n - 1);
    if n == i + 1 {
    } else {
      UnwatchedEntryExpiresIff(qs, states, steps, i, n - 1);
      StepKeepsInactive(states[n - 1], steps[n - 1], steps[i].g);
    }
  }

  // ---------------------------------------------------------------------
  // Event counters

  /** Open counters belong to counter events marked watching. */
  ghost predicate CountersWatched(e: Engine) {
    forall k :: k in e.handles ==> Counted(e.queries, k) && Watching(e.fields, k)
  }

  /** Every counter event marked watching has its counter open. */
  ghost predicate CountersOpen(e: Engine) {
    forall k :: Counted(e.queries, k) && Watching(e.fields, k) ==> k in e.handles
  }

  /** The SMI calls of the step, if it is a watch, succeed. */
  ghost predicate Grants(e: Engine, s: Step) {
    s.Watch? ==> forall k :: Counted(e.queries, k) && Watching(Next(e, s).fields, k) ==> k in s.granted
  }

  lemma SameMarks(e: Engine, n: Engine)
    requires n.queries == e.queries && n.handles == e.handles
    requires forall k :: Watching(n.fields, k) <==> Watching(e.fields, k)
    ensures CountersWatched(e) <==> CountersWatched(n)
    ensures CountersOpen(e) <==> CountersOpen(n)
  {
  }

  lemma WatchKeepsCounters(e: Engine, g: GroupKey, f: Settings, granted: set<FieldKey>)
    requires CountersWatched(e) && f.isWatching
    ensures CountersWatched(WatchStep(e, g, f, granted))
  {
    var n := WatchStep(e, g, f, granted);
    if !Active(e.watches, g) && Named(e.groups, g) {
      SupportedKeys(e.queries, e.groups, g);
    } else {
      SameMarks(e, n);
    }
  }

  lemma UnwatchKeepsCounters(e: Engine, g: GroupKey, now: nat)
    ensures CountersWatched(e) ==> CountersWatched(UnwatchStep(e, g, now))
    ensures CountersOpen(e) ==> CountersOpen(UnwatchStep(e, g, now))
  {
  }

  lemma StepKeepsMarks(e: Engine, s: Step)
    requires !s.Watch? && !s.Unwatch?
    ensures forall k :: Watching(Next(e, s).fields, k) <==> Watching(e.fields, k)
    ensures Next(e, s).handles == e.handles && Next(e, s).queries == e.queries
  {
    match s
    case Update(now, ds, cleanAt, evictAt) => UpdateKeepsMarks(e, ds, cleanAt, evictAt);
    case Notify(events) => UpdateKeepsMarks(e, Events(events), 0, _ => 0);
    case _ =>
  }

  /** No step but an unwatch ever clears a mark, and an unwatch exactly the marks `Clears` says: a field
      whose group was destroyed stays marked until such an unwatch of another watch that covers it. */
  lemma StepClearsMarkIff(e: Engine, s: Step, k: FieldKey)
    requires Watching(e.fields, k)
    ensures !Watching(Next(e, s).fields, k) <==> s.Unwatch? && Clears(e, s.g, k)
  {
    match s
    case Watch(g, freq, age, samples, granted) =>
    case Unwatch(g, now) => UnwatchClearsMarkIff(e, g, now, k);
    case _ => StepKeepsMarks(e, s);
  }

  /** Whatever the step, also one the environment should not take, and also when it fails, the open
      counters stay within the keys marked watching; when the SMI calls succeed they stay all of them. */
  lemma StepKeepsCounters(e: Engine, s: Step)
    requires CountersWatched(e)
    ensures CountersWatched(Next(e, s))
    ensures CountersOpen(e) && Grants(e, s) ==> CountersOpen(Next(e, s))
  {
    match s
    case Watch(g, freq, age, samples, granted) => WatchKeepsCounters(e, g, NewWatch(freq, age, samples), granted);
    case Unwatch(g, now) => UnwatchKeepsCounters(e, g, now);
    case _ =>
      StepKeepsMarks(e, s);
      SameMarks(e, Next(e, s));
  }

  /** Open event counters are always a subset of the keys marked watching. */
  lemma {:induction false} CountersFollowMarks(qs: Queries, states: seq<Engine>, steps: seq<Step>, n: nat)
    requires AnySteps(qs, states, steps) && n < |states|
    ensures CountersWatched(states[n])
  {
    if n > 0 {
      CountersFollowMarks(qs, states, steps, n - 1);
      assert StepAt(states, steps, n - 1);
      StepKeepsCounters(states[n - 1], steps[n - 1]);
    }
  }

  /** If the SMI calls of every watch succeeded, they are all of the counter events among them. */
  lemma {:induction false} GrantedCountersAreOpen(qs: Queries, states: seq<Engine>, steps: seq<Step>, n: nat)
    requires AnySteps(qs, states, steps) && n < |states|
    requires forall i :: 0 <= i < n ==> Grants(states[i], steps[i])
    ensures CountersOpen(states[n])
  {
    if n > 0 {
      GrantedCountersAreOpen(qs, states, steps, n - 1);
      CountersFollowMarks(qs, states, steps, n - 1);
      assert StepAt(states, steps, n - 1);
      StepKeepsCounters(states[n - 1], steps[n - 1]);
    }
  }
}
