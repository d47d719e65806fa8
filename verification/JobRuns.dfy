/** What a job's records hold, over every run of the engine. */
module JobRuns {
  import opened Common
  import opened SampleCache
  import opened JobStats
  import opened CacheManager
  import opened Telemetry
  import opened Engine
  import opened Invariants

  // ---------------------------------------------------------------------
  // Routing

  lemma {:induction false} BeforeTotal(a: JobId, b: JobId)
    ensures a == b || Before(a, b) || Before(b, a)
    ensures !(Before(a, b) && Before(b, a)) && !Before(a, a)
  {
    if a != [] && b != [] {
      BeforeTotal(a[1..], b[1..]);
      BeforeTotal(a[1..], a[1..]);
      if a[0] == b[0] && a[1..] == b[1..] {
        assert a == [a[0]] + a[1..] && b == [b[0]] + b[1..];
      }
    } else if a != [] {
      BeforeTotal(a[1..], a[1..]);
    }
  }

  lemma {:induction false} BeforeTransitive(a: JobId, b: JobId, c: JobId)
    requires Before(a, b) && Before(b, c)
    ensures Before(a, c)
  {
    if a != [] && a[0] == b[0] == c[0] {
      BeforeTransitive(a[1..], b[1..], c[1..]);
    }
  }

  /** The strings first differ at `i`, where `a` has the smaller character. */
  ghost predicate SmallerAt(a: JobId, b: JobId, i: nat) {
    i < |a| && i < |b| && a[..i] == b[..i] && a[i] < b[i]
  }

  ghost predicate Smaller(a: JobId, b: JobId) {
    exists i: nat :: SmallerAt(a, b, i)
  }

  /** The lexicographic order of strings, by position: a proper prefix comes first, and otherwise the
      string with the smaller character where they first differ. */
  ghost predicate Lexical(a: JobId, b: JobId) {
    (|a| < |b| && a == b[..|a|]) || Smaller(a, b)
  }

  lemma SmallerLater(x: char, a: JobId, b: JobId, i: nat)
    ensures SmallerAt([x] + a, [x] + b, i + 1) <==> SmallerAt(a, b, i)
    ensures !SmallerAt([x] + a, [x] + b, 0)
  {
    if i < |a| && i < |b| {
      assert ([x] + a)[..i + 1] == [x] + a[..i] && ([x] + b)[..i + 1] == [x] + b[..i];
      assert ([x] + a)[..i + 1][1..] == a[..i] && ([x] + b)[..i + 1][1..] == b[..i];
    }
  }

  lemma SmallerTails(x: char, a: JobId, b: JobId)
    ensures Smaller([x] + a, [x] + b) <==> Smaller(a, b)
  {
    SmallerLater(x, a, b, 0);
    if i: nat :| SmallerAt([x] + a, [x] + b, i) {
      SmallerLater(x, a, b, i - 1);
    }
    if i: nat :| SmallerAt(a, b, i) {
      SmallerLater(x, a, b, i);
    }
  }

  lemma SameHead(x: char, a: JobId, b: JobId)
    ensures Lexical([x] + a, [x] + b) <==> Lexical(a, b)
  {
    SmallerTails(x, a, b);
    if |a| < |b| {
      assert ([x] + b)[..|a| + 1] == [x] + b[..|a|];
      assert ([x] + a)[1..] == a && ([x] + b[..|a|])[1..] == b[..|a|];
    }
  }

  lemma SmallerLaterHead(a: JobId, b: JobId, i: nat)
    requires SmallerAt(a, b, i) && i > 0
    ensures a[0] == b[0]
  {
    assert a[..i][0] == a[0] && b[..i][0] == b[0];
  }

  lemma OtherHead(a: JobId, b: JobId)
    requires a != [] && b != [] && a[0] != b[0]
    ensures Lexical(a, b) <==> a[0] < b[0]
  {
    assert a[..0] == b[..0];
    assert a[0] < b[0] ==> SmallerAt(a, b, 0);
    forall i: nat | SmallerAt(a, b, i) ensures i == 0 {
      if i > 0 {
        SmallerLaterHead(a, b, i);
      }
    }
    assert |a| < |b| ==> b[..|a|][0] == b[0];
  }

  /** The order of the job table is the lexicographic one. */
  lemma {:induction false} BeforeIsLexical(a: JobId, b: JobId)
    ensures Before(a, b) <==> Lexical(a, b)
  {
    if a != [] && b != [] {
      if a[0] == b[0] {
        BeforeIsLexical(a[1..], b[1..]);
        assert a == [a[0]] + a[1..] && b == [a[0]] + b[1..];
        SameHead(a[0], a[1..], b[1..]);
      } else {
        OtherHead(a, b);
      }
    }
  }

  lemma {:induction false} LeastOf(ids: set<JobId>) returns (j: JobId)
    requires ids != {}
    ensures j in ids && forall i :: i in ids && i != j ==> Before(j, i)
  {
    var a :| a in ids;
    var rest := ids - {a};
    assert forall i :: i in ids ==> i == a || i in rest;
    if rest == {} {
      return a;
    }
    var m := LeastOf(rest);
    BeforeTotal(a, m);
    if Before(m, a) {
      return m;
    }
    forall i | i in rest ensures Before(a, i) {
      if i != m {
        BeforeTransitive(a, m, i);
      }
    }
    j := a;
  }

  /** The job lists the key, and every other job that does comes after it in lexicographic order. */
  ghost predicate FirstJob(jobs: Jobs, k: FieldKey, j: JobId) {
    && j in jobs && k in jobs[j].fields
    && forall i :: i in jobs && k in jobs[i].fields && i != j ==> Lexical(j, i)
  }

  lemma LeastIsFirst(jobs: Jobs, k: FieldKey, j: JobId)
    ensures LeastJob(jobs, k, j) <==> FirstJob(jobs, k, j)
  {
    forall i ensures Before(j, i) <==> Lexical(j, i) {
      BeforeIsLexical(j, i);
    }
  }

  lemma RouteJobExists(jobs: Jobs, k: FieldKey)
    ensures forall j :: RouteJob(jobs, k) == Some(j) <==> LeastJob(jobs, k, j)
    ensures RouteJob(jobs, k).None? <==> forall j :: j in jobs ==> k !in jobs[j].fields
  {
    var covering := set j | j in jobs && k in jobs[j].fields;
    if covering != {} {
      var j := LeastOf(covering);
      assert LeastJob(jobs, k, j);
      forall i | LeastJob(jobs, k, i) ensures i == j {
        BeforeTotal(i, j);
      }
    } else {
      forall j | j in jobs ensures k !in jobs[j].fields {
        assert j !in covering;
      }
    }
  }

  /** A key is routed to the lexicographically first job id that lists it, and to none only if no job
      lists it. */
  lemma RouteJobIsLeast(jobs: Jobs, k: FieldKey)
    ensures forall j :: RouteJob(jobs, k) == Some(j) <==> FirstJob(jobs, k, j)
    ensures RouteJob(jobs, k).None? <==> forall j :: j in jobs ==> k !in jobs[j].fields
  {
    RouteJobExists(jobs, k);
    forall j ensures LeastJob(jobs, k, j) <==> FirstJob(jobs, k, j) {
      LeastIsFirst(jobs, k, j);
    }
  }

  /** A good sample reaches the record of the job its key is routed to, and no other record. */
  lemma RecordedReaches(c: Cache, jobs: Jobs, v: FieldValue, j: JobId, k: FieldKey)
    ensures RecordOf(Recorded(c, jobs, v), j, k) ==
      match RecordOf(c, j, k)
      case None => None
      case Some(f) => if v.Key() == k && RouteJob(jobs, k) == Some(j) then Some(Observe(f, v.reading)) else Some(f)
  {
  }

  // ---------------------------------------------------------------------
  // A record is the fold of the samples delivered to it

  /** The good readings of a key among some deliveries. */
  ghost function OkReadings(ds: seq<Delivery>, k: FieldKey): seq<Reading> {
    if ds == [] then []
    else
      var v := ds[|ds| - 1].value;
      OkReadings(ds[..|ds| - 1], k) + (if v.Key() == k && v.reading.status == Ok then [v.reading] else [])
  }

  ghost function AsSamples(rs: seq<Reading>): seq<Sample> {
    seq(|rs|, i requires 0 <= i < |rs| => Sample(rs[i].ts, rs[i].value))
  }

  /** Handling deliveries appends to each key's samples its good readings, in order, and nothing else. */
  lemma {:induction false} HandleAppends(e: Engine, ds: seq<Delivery>, k: FieldKey)
    ensures SamplesOf(HandleAll(e, ds).cache, k) == SamplesOf(e.cache, k) + AsSamples(OkReadings(ds, k))
  {
    if ds == [] {
    } else {
      var init, v := ds[..|ds| - 1], ds[|ds| - 1].value;
      HandleAppends(e, init, k);
      var h := HandleAll(e, init);
      RecordedSamples(h.cache, h.jobs, v);
    }
  }

  /** A key delivered once contributes its one reading if it is good, and a key not delivered none. */
  lemma {:induction false} OkOnce(ds: seq<Delivery>, k: FieldKey)
    requires forall i, j :: 0 <= i < j < |ds| ==> ds[i].value.Key() != ds[j].value.Key()
    ensures !KeyDelivered(ds, k) ==> OkReadings(ds, k) == []
    ensures forall d :: d in ds && d.value.Key() == k ==>
      OkReadings(ds, k) == if d.value.reading.status == Ok then [d.value.reading] else []
  {
    if ds == [] {
    } else {
      var init, d := ds[..|ds| - 1], ds[|ds| - 1];
      OkOnce(init, k);
      if d.value.Key() == k {
        assert !KeyDelivered(init, k);
      }
    }
  }

  lemma FoldSnoc(rs: seq<Reading>, r: Reading)
    ensures Fold(rs + [r]) == Observe(Fold(rs), r)
  {
    assert (rs + [r])[..|rs|] == rs;
  }

  lemma {:induction false} HandleFolds(e: Engine, ds: seq<Delivery>, j: JobId, k: FieldKey, log: seq<Reading>)
    requires RecordOf(e.cache, j, k) == Some(Fold(log))
    ensures RecordOf(HandleAll(e, ds).cache, j, k) ==
      Some(Fold(log + if RouteJob(e.jobs, k) == Some(j) then OkReadings(ds, k) else []))
  {
    if ds == [] {
      assert log + [] == log;
    } else {
      var init, v := ds[..|ds| - 1], ds[|ds| - 1].value;
      HandleFolds(e, init, j, k, log);
      HandleOnlyStamps(e, init);
      var h := HandleAll(e, init);
      RecordedReaches(h.cache, h.jobs, v, j, k);
      if v.Key() == k && v.reading.status == Ok && RouteJob(e.jobs, k) == Some(j) {
        FoldSnoc(log + OkReadings(init, k), v.reading);
        assert log + OkReadings(ds, k) == log + OkReadings(init, k) + [v.reading];
      } else if RouteJob(e.jobs, k) == Some(j) {
        assert OkReadings(ds, k) == OkReadings(init, k);
      }
    }
  }

  /** The deliveries of a step. */
  ghost function DeliveriesOf(s: Step): seq<Delivery> {
    match s
    case Update(now, ds, cleanAt, evictAt) => ds
    case Notify(events) => Events(events)
    case _ => []
  }

  /** The good readings a step routes to a job. */
  ghost function Routed(e: Engine, s: Step, j: JobId, k: FieldKey): seq<Reading> {
    if RouteJob(e.jobs, k) == Some(j) then OkReadings(DeliveriesOf(s), k) else []
  }

  /** The step starts a new record for the job, or drops it. */
  predicate Resets(s: Step, j: JobId) {
    s.CacheRemoveAll? || (s.CacheStart? && s.j == j) || (s.CacheRemove? && s.j == j)
  }

  lemma OtherStepKeepsRecord(e: Engine, s: Step, j: JobId, k: FieldKey)
    requires !Resets(s, j) && !s.Update? && !s.Notify?
    ensures RecordOf(Next(e, s).cache, j, k) == RecordOf(e.cache, j, k) && Routed(e, s, j, k) == []
  {
  }

  lemma StepFolds(e: Engine, s: Step, j: JobId, k: FieldKey, log: seq<Reading>)
    requires !Resets(s, j) && RecordOf(e.cache, j, k) == Some(Fold(log))
    ensures RecordOf(Next(e, s).cache, j, k) == Some(Fold(log + Routed(e, s, j, k)))
  {
    assert log + [] == log;
    match s
    case Update(now, ds, cleanAt, evictAt) => HandleFolds(e, ds, j, k, log);
    case Notify(events) => HandleFolds(e, Events(events), j, k, log);
    case _ => OtherStepKeepsRecord(e, s, j, k);
  }

  lemma StartIsEmptyFold(e: Engine, s: Step, k: FieldKey)
    requires s.CacheStart? && k.gpu in s.gpus && k.field in s.fields
    ensures RecordOf(Next(e, s).cache, s.j, k) == Some(Fold([]))
  {
  }

  /** The readings steps `lo` to `hi` route to a job. */
  ghost function RoutedBetween(states: seq<Engine>, steps: seq<Step>, lo: nat, hi: nat, j: JobId,
                               k: FieldKey): seq<Reading>
    requires hi <= |steps| <= |states|
  {
    if hi <= lo then []
    else RoutedBetween(states, steps, lo, hi - 1, j, k) + Routed(states[hi - 1], steps[hi - 1], j, k)
  }

  /** A record started at step `i` and not reset since. */
  ghost predicate StartedAt(steps: seq<Step>, i: nat, m: nat, j: JobId) {
    && i < m <= |steps|
    && steps[i].CacheStart? && steps[i].j == j
    && forall t :: i < t < m ==> !Resets(steps[t], j)
  }

  lemma FoldFirst(qs: Queries, states: seq<Engine>, steps: seq<Step>, i: nat, k: FieldKey)
    requires AnySteps(qs, states, steps) && i < |steps|
    requires steps[i].CacheStart? && k.gpu in steps[i].gpus && k.field in steps[i].fields
    ensures RecordOf(states[i + 1].cache, steps[i].j, k) == Some(Fold([]))
  {
    assert StepAt(states, steps, i);
    StartIsEmptyFold(states[i], steps[i], k);
  }

  lemma FoldOneMore(qs: Queries, states: seq<Engine>, steps: seq<Step>, m: nat, j: JobId, k: FieldKey,
                    log: seq<Reading>)
    requires AnySteps(qs, states, steps) && m < |steps| && !Resets(steps[m], j)
    requires RecordOf(states[m].cache, j, k) == Some(Fold(log))
    ensures RecordOf(states[m + 1].cache, j, k) == Some(Fold(log + Routed(states[m], steps[m], j, k)))
  {
    assert StepAt(states, steps, m);
    StepFolds(states[m], steps[m], j, k, log);
  }

  /** From its cache start on, a job's record of a key equals the fold of exactly the good
      samples routed to it, whatever else the engine does. */
  lemma {:induction false} RecordIsFold(qs: Queries, states: seq<Engine>, steps: seq<Step>, i: nat, m: nat, j: JobId,
                                        k: FieldKey)
    requires AnySteps(qs, states, steps) && StartedAt(steps, i, m, j)
    requires k.gpu in steps[i].gpus && k.field in steps[i].fields
    ensures RecordOf(states[m].cache, j, k) == Some(Fold(RoutedBetween(states, steps, i + 1, m, j, k)))
  {
    if m == i + 1 {
      FoldFirst(qs, states, steps, i, k);
    } else {
      RecordIsFold(qs, states, steps, i, m - 1, j, k);
      FoldOneMore(qs, states, steps, m - 1, j, k, RoutedBetween(states, steps, i + 1, m - 1, j, k));
    }
  }

  /** Every good reading delivered for a key in steps `lo` to `hi`. */
  ghost function DeliveredBetween(steps: seq<Step>, lo: nat, hi: nat, k: FieldKey): seq<Reading>
    requires hi <= |steps|
  {
    if hi <= lo then [] else DeliveredBetween(steps, lo, hi - 1, k) + OkReadings(DeliveriesOf(steps[hi - 1]), k)
  }

  /** The job is the only one listing the key. */
  ghost predicate SoleJob(jobs: Jobs, j: JobId, k: FieldKey) {
    j in jobs && forall i :: i in jobs ==> (k in jobs[i].fields <==> i == j)
  }

  lemma SoleJobIsRouted(e: Engine, s: Step, j: JobId, k: FieldKey)
    requires SoleJob(e.jobs, j, k)
    ensures Routed(e, s, j, k) == OkReadings(DeliveriesOf(s), k)
  {
    RouteJobExists(e.jobs, k);
    assert LeastJob(e.jobs, k, j);
  }

  lemma AbsentJobIsNotRouted(e: Engine, s: Step, j: JobId, k: FieldKey)
    requires j !in e.jobs
    ensures Routed(e, s, j, k) == []
  {
    RouteJobIsLeast(e.jobs, k);
  }

  lemma {:induction false} RoutedWhileSole(states: seq<Engine>, steps: seq<Step>, lo: nat, hi: nat, j: JobId,
                                           k: FieldKey)
    requires lo <= hi <= |steps| <= |states|
    requires forall t :: lo <= t < hi ==> SoleJob(states[t].jobs, j, k)
    ensures RoutedBetween(states, steps, lo, hi, j, k) == DeliveredBetween(steps, lo, hi, k)
  {
    if hi > lo {
      RoutedWhileSole(states, steps, lo, hi - 1, j, k);
      SoleJobIsRouted(states[hi - 1], steps[hi - 1], j, k);
    }
  }

  lemma {:induction false} NoneRoutedOnceGone(states: seq<Engine>, steps: seq<Step>, lo: nat, gone: nat, hi: nat,
                                              j: JobId, k: FieldKey)
    requires lo <= gone <= hi <= |steps| <= |states|
    requires forall t :: gone <= t < hi ==> j !in states[t].jobs
    ensures RoutedBetween(states, steps, lo, hi, j, k) == RoutedBetween(states, steps, lo, gone, j, k)
  {
    if hi > gone {
      NoneRoutedOnceGone(states, steps, lo, gone, hi - 1, j, k);
      AbsentJobIsNotRouted(states[hi - 1], steps[hi - 1], j, k);
    }
  }

  lemma RoutedIsDelivered(states: seq<Engine>, steps: seq<Step>, lo: nat, gone: nat, hi: nat, j: JobId, k: FieldKey)
    requires lo <= gone <= hi <= |steps| <= |states|
    requires forall t :: lo <= t < gone ==> SoleJob(states[t].jobs, j, k)
    requires forall t :: gone <= t < hi ==> j !in states[t].jobs
    ensures RoutedBetween(states, steps, lo, hi, j, k) == DeliveredBetween(steps, lo, gone, k)
  {
    NoneRoutedOnceGone(states, steps, lo, gone, hi, j, k);
    RoutedWhileSole(states, steps, lo, gone, j, k);
  }

  /** For jobs over disjoint keys: the record equals the fold of every good sample delivered for
      the key from the job's cache start to its removal from the job table, and nothing after. */
  lemma SoleRecordIsFold(qs: Queries, states: seq<Engine>, steps: seq<Step>, i: nat, gone: nat, m: nat, j: JobId,
                         k: FieldKey)
    requires AnySteps(qs, states, steps) && StartedAt(steps, i, m, j) && i < gone <= m
    requires k.gpu in steps[i].gpus && k.field in steps[i].fields
    requires forall t :: i < t < gone ==> SoleJob(states[t].jobs, j, k)
    requires forall t :: gone <= t < m ==> j !in states[t].jobs
    ensures RecordOf(states[m].cache, j, k) == Some(Fold(DeliveredBetween(steps, i + 1, gone, k)))
  {
    RoutedIsDelivered(states, steps, i + 1, gone, m, j, k);
    RecordIsFold(qs, states, steps, i, m, j, k);
  }

  // ---------------------------------------------------------------------
  // ECC counters

  /** The counters a job keeps for a GPU, and whether it was stopped. */
  datatype Ecc = Ecc(stopped: bool, correct: nat, uncorrect: nat)

  ghost function EccOf(c: Cache, j: JobId, g: nat): Option<Ecc> {
    if j in c.jobs && g in c.jobs[j].gpus
    then Some(Ecc(c.jobs[j].endTime != 0, c.jobs[j].gpus[g].eccCorrect, c.jobs[j].gpus[g].eccUncorrect)) else None
  }

  lemma {:induction false} HandleKeepsEcc(e: Engine, ds: seq<Delivery>, j: JobId, g: nat)
    ensures EccOf(HandleAll(e, ds).cache, j, g) == EccOf(e.cache, j, g)
  {
    if ds != [] {
      HandleKeepsEcc(e, ds[..|ds| - 1], j, g);
    }
  }

  predicate Stops(s: Step, j: JobId) {
    s.CacheStop? && s.j == j
  }

  lemma StepKeepsEcc(e: Engine, s: Step, j: JobId, g: nat)
    requires !Resets(s, j) && !Stops(s, j)
    ensures EccOf(Next(e, s).cache, j, g) == EccOf(e.cache, j, g)
  {
    match s
    case Update(now, ds, cleanAt, evictAt) => HandleKeepsEcc(e, ds, j, g);
    case Notify(events) => HandleKeepsEcc(e, Events(events), j, g);
    case _ =>
  }

  /** The counters taken when a job's record is started. */
  ghost function EccAtStart(start: Gauges, g: nat): Ecc {
    Ecc(false, GaugeOr(start, FieldKey(g, ECC_CORRECT_TOTAL), 0), GaugeOr(start, FieldKey(g, ECC_UNCORRECT_TOTAL), 0))
  }

  /** The differences left by its stop. */
  ghost function EccAtStop(start: Gauges, stop: Gauges, g: nat): Ecc {
    Ecc(true, Difference(stop, FieldKey(g, ECC_CORRECT_TOTAL), EccAtStart(start, g).correct),
        Difference(stop, FieldKey(g, ECC_UNCORRECT_TOTAL), EccAtStart(start, g).uncorrect))
  }

  lemma StartTakesEcc(qs: Queries, states: seq<Engine>, steps: seq<Step>, i: nat, g: nat)
    requires AnySteps(qs, states, steps) && i < |steps| && steps[i].CacheStart? && g in steps[i].gpus
    ensures EccOf(states[i + 1].cache, steps[i].j, g) == Some(EccAtStart(steps[i].gauges, g))
  {
    assert StepAt(states, steps, i);
  }

  lemma StepKeepsEccAt(qs: Queries, states: seq<Engine>, steps: seq<Step>, m: nat, j: JobId, g: nat)
    requires AnySteps(qs, states, steps) && m < |steps| && !Resets(steps[m], j) && !Stops(steps[m], j)
    ensures EccOf(states[m + 1].cache, j, g) == EccOf(states[m].cache, j, g)
  {
    assert StepAt(states, steps, m);
    StepKeepsEcc(states[m], steps[m], j, g);
  }

  /** While it runs, a job keeps the counters it started with, so that a report shows the gauge's
      current value minus them, whatever is delivered meanwhile. */
  lemma {:induction false} EccWhileRunning(qs: Queries, states: seq<Engine>, steps: seq<Step>, i: nat, m: nat,
                                           j: JobId, g: nat)
    requires AnySteps(qs, states, steps) && StartedAt(steps, i, m, j) && g in steps[i].gpus
    requires forall t :: i < t < m ==> !Stops(steps[t], j)
    ensures EccOf(states[m].cache, j, g) == Some(EccAtStart(steps[i].gauges, g))
  {
    if m == i + 1 {
      StartTakesEcc(qs, states, steps, i, g);
    } else {
      EccWhileRunning(qs, states, steps, i, m - 1, j, g);
      StepKeepsEccAt(qs, states, steps, m - 1, j, g);
    }
  }

  lemma StopTakesEcc(qs: Queries, states: seq<Engine>, steps: seq<Step>, i: nat, stop: nat, g: nat)
    requires AnySteps(qs, states, steps) && i < stop < |steps|
    requires steps[i].CacheStart? && steps[stop].CacheStop? && steps[stop].time != 0
    requires EccOf(states[stop].cache, steps[stop].j, g) == Some(EccAtStart(steps[i].gauges, g))
    ensures EccOf(states[stop + 1].cache, steps[stop].j, g) == Some(EccAtStop(steps[i].gauges, steps[stop].gauges, g))
  {
    assert StepAt(states, steps, stop);
  }

  /** After its one stop, a job keeps the differences between stop and start, unchanged by any
      later step until it is restarted or removed. */
  lemma {:induction false} EccAfterStop(qs: Queries, states: seq<Engine>, steps: seq<Step>, i: nat, stop: nat,
                                        m: nat, j: JobId, g: nat)
    requires AnySteps(qs, states, steps) && StartedAt(steps, i, m, j) && g in steps[i].gpus
    requires i < stop < m && Stops(steps[stop], j) && steps[stop].time != 0
    requires forall t :: i < t < m && t != stop ==> !Stops(steps[t], j)
    ensures EccOf(states[m].cache, j, g) == Some(EccAtStop(steps[i].gauges, steps[stop].gauges, g))
  {
    if m == stop + 1 {
      EccWhileRunning(qs, states, steps, i, stop, j, g);
      StopTakesEcc(qs, states, steps, i, stop, g);
    } else {
      EccAfterStop(qs, states, steps, i, stop, m - 1, j, g);
      StepKeepsEccAt(qs, states, steps, m - 1, j, g);
    }
  }

  /** The counters after one more stop. */
  ghost function EccStopped(ecc: Ecc, stop: Step, g: nat): Ecc
    requires stop.CacheStop?
  {
    Ecc(stop.time != 0, Difference(stop.gauges, FieldKey(g, ECC_CORRECT_TOTAL), ecc.correct),
        Difference(stop.gauges, FieldKey(g, ECC_UNCORRECT_TOTAL), ecc.uncorrect))
  }

  /** The counters a job starts with at `i`, and every stop of it before `m` applied in turn. */
  ghost function EccFold(steps: seq<Step>, i: nat, m: nat, j: JobId, g: nat): Ecc
    requires i < m <= |steps| && steps[i].CacheStart?
  {
    if m == i + 1 then EccAtStart(steps[i].gauges, g)
    else
      var before := EccFold(steps, i, m - 1, j, g);
      if Stops(steps[m - 1], j) then EccStopped(before, steps[m - 1], g) else before
  }

  lemma StopFoldsEcc(e: Engine, s: Step, j: JobId, g: nat, ecc: Ecc)
    requires Stops(s, j) && EccOf(e.cache, j, g) == Some(ecc)
    ensures EccOf(Next(e, s).cache, j, g) == Some(EccStopped(ecc, s, g))
  {
  }

  /** Over any sequence of steps, with any number of stops among them, a job's counters are its start
      counters and exactly its stops, in order; no delivery, watch or clean-up touches them. */
  lemma {:induction false} EccIsFold(qs: Queries, states: seq<Engine>, steps: seq<Step>, i: nat, m: nat, j: JobId,
                                     g: nat)
    requires AnySteps(qs, states, steps) && StartedAt(steps, i, m, j) && g in steps[i].gpus
    ensures EccOf(states[m].cache, j, g) == Some(EccFold(steps, i, m, j, g))
  {
    if m == i + 1 {
      StartTakesEcc(qs, states, steps, i, g);
    } else {
      EccIsFold(qs, states, steps, i, m - 1, j, g);
      if Stops(steps[m - 1], j) {
        assert StepAt(states, steps, m - 1);
        StopFoldsEcc(states[m - 1], steps[m - 1], j, g, EccFold(steps, i, m - 1, j, g));
      } else {
        StepKeepsEccAt(qs, states, steps, m - 1, j, g);
      }
    }
  }

  /** The ECC gauges of a GPU, where they are read, are 64-bit counters. */
  ghost predicate Counters64(gauges: Gauges, g: nat) {
    forall f :: (f == ECC_CORRECT_TOTAL || f == ECC_UNCORRECT_TOTAL) && FieldKey(g, f) in gauges ==>
      gauges[FieldKey(g, f)] < TWO64
  }

  /** What a gauge read when the job was started, 0 if it was not read. */
  ghost function ReadAt(start: Gauges, k: FieldKey): nat {
    if k in start then start[k] else 0
  }

  /** `d` is the later gauge minus the earlier one, modulo 2^64 if it went down; without the later
      gauge it is `missing`. */
  ghost predicate CountsSince(d: nat, start: Gauges, later: Gauges, k: FieldKey, missing: nat) {
    if k !in later then d == missing
    else if ReadAt(start, k) <= later[k] then d == later[k] - ReadAt(start, k)
    else d == later[k] + 0x1_0000_0000_0000_0000 - ReadAt(start, k)
  }

  /** The report of a running job for a GPU: the gauges now minus those at the start, and 0 where a
      gauge is not read now. */
  ghost predicate ShowsRunning(u: GpuUsage, start: Gauges, now: Gauges, g: nat) {
    && CountsSince(u.correct, start, now, FieldKey(g, ECC_CORRECT_TOTAL), 0)
    && CountsSince(u.uncorrect, start, now, FieldKey(g, ECC_UNCORRECT_TOTAL), 0)
  }

  /** The report of a stopped job for a GPU: the gauges at the stop minus those at the start. Where a
      gauge was not read at the stop, it shows what the gauge read at the start. */
  ghost predicate ShowsStopped(u: GpuUsage, start: Gauges, stop: Gauges, g: nat) {
    var c, n := FieldKey(g, ECC_CORRECT_TOTAL), FieldKey(g, ECC_UNCORRECT_TOTAL);
    && CountsSince(u.correct, start, stop, c, ReadAt(start, c))
    && CountsSince(u.uncorrect, start, stop, n, ReadAt(start, n))
  }

  /** The only multiple of 2^64 below 2^64 is zero. */
  lemma SmallMultiple(x: int)
    requires -TWO64 < x < TWO64 && x % TWO64 == 0
    ensures x == 0
  {
  }

  lemma RemainderUnique(a: int, d: nat)
    requires d < TWO64
    ensures a % TWO64 == d <==> (a - d) % TWO64 == 0
  {
    var q, r := a / TWO64, a % TWO64;
    assert a == TWO64 * q + r;
    assert (a - d) % TWO64 == (r - d) % TWO64;
    if (a - d) % TWO64 == 0 {
      SmallMultiple(r - d);
    }
  }

  lemma Subtracts(start: Gauges, later: Gauges, g: nat, f: nat)
    requires Counters64(start, g) && Counters64(later, g) && FieldKey(g, f) in later
    requires f == ECC_CORRECT_TOTAL || f == ECC_UNCORRECT_TOTAL
    ensures
      var k := FieldKey(g, f);
      CountsSince(Sub64(later[k], ReadAt(start, k)), start, later, k, 0)
  {
    var a, b := ReadAt(start, FieldKey(g, f)), later[FieldKey(g, f)];
    if a > b {
      RemainderUnique(b - a, b + TWO64 - a);
    }
  }

  ghost predicate CanReport(c: Cache, j: JobId, gauges: Gauges) {
    j in c.jobs && forall g :: g in c.jobs[j].gpus ==> GpuReportable(c.jobs[j], gauges, g)
  }

  /** A job that kept its start counters reports what `ShowsRunning` says. */
  lemma RunningReport(c: Cache, j: JobId, g: nat, start: Gauges, gauges: Gauges)
    requires EccOf(c, j, g) == Some(EccAtStart(start, g)) && CanReport(c, j, gauges)
    requires Counters64(start, g) && Counters64(gauges, g)
    ensures ShowsRunning(GpuReport(c.jobs[j], gauges, g), start, gauges, g)
  {
    if FieldKey(g, ECC_CORRECT_TOTAL) in gauges {
      Subtracts(start, gauges, g, ECC_CORRECT_TOTAL);
    }
    if FieldKey(g, ECC_UNCORRECT_TOTAL) in gauges {
      Subtracts(start, gauges, g, ECC_UNCORRECT_TOTAL);
    }
  }

  /** A job stopped from its start counters reports what `ShowsStopped` says, whatever the gauges read
      now and even when they are not read. */
  lemma StoppedReport(c: Cache, j: JobId, g: nat, start: Gauges, stop: Gauges, gauges: Gauges)
    requires EccOf(c, j, g) == Some(EccAtStop(start, stop, g)) && CanReport(c, j, gauges)
    requires Counters64(start, g) && Counters64(stop, g)
    ensures ShowsStopped(GpuReport(c.jobs[j], gauges, g), start, stop, g)
  {
    if FieldKey(g, ECC_CORRECT_TOTAL) in stop {
      Subtracts(start, stop, g, ECC_CORRECT_TOTAL);
    }
    if FieldKey(g, ECC_UNCORRECT_TOTAL) in stop {
      Subtracts(start, stop, g, ECC_UNCORRECT_TOTAL);
    }
  }

  /** End to end: the report of a running job shows, for every GPU, the gauge now minus the gauge at
      its start, however many steps later it is asked for, and 0 for a gauge that is not read now. */
  lemma RunningJobReport(qs: Queries, states: seq<Engine>, steps: seq<Step>, i: nat, m: nat, j: JobId, g: nat,
                         gauges: Gauges)
    requires AnySteps(qs, states, steps) && StartedAt(steps, i, m, j) && g in steps[i].gpus
    requires forall t :: i < t < m ==> !Stops(steps[t], j)
    requires Counters64(steps[i].gauges, g) && Counters64(gauges, g)
    ensures j in states[m].cache.jobs && g in states[m].cache.jobs[j].gpus
    ensures CanReport(states[m].cache, j, gauges) ==>
              ShowsRunning(GpuReport(states[m].cache.jobs[j], gauges, g), steps[i].gauges, gauges, g)
  {
    EccWhileRunning(qs, states, steps, i, m, j, g);
    if CanReport(states[m].cache, j, gauges) {
      RunningReport(states[m].cache, j, g, steps[i].gauges, gauges);
    }
  }

  /** End to end: the report of a job stopped once shows, for every GPU, the gauge at its stop minus
      the gauge at its start, however many steps later it is asked for. A stop without the gauge leaves
      the start counter in the report, as if it were the difference. */
  lemma StoppedJobReport(qs: Queries, states: seq<Engine>, steps: seq<Step>, i: nat, stop: nat, m: nat, j: JobId,
                         g: nat, gauges: Gauges)
    requires AnySteps(qs, states, steps) && StartedAt(steps, i, m, j) && g in steps[i].gpus
    requires i < stop < m && Stops(steps[stop], j) && steps[stop].time != 0
    requires forall t :: i < t < m && t != stop ==> !Stops(steps[t], j)
    requires Counters64(steps[i].gauges, g) && Counters64(steps[stop].gauges, g)
    ensures j in states[m].cache.jobs && g in states[m].cache.jobs[j].gpus
    ensures CanReport(states[m].cache, j, gauges) ==>
              ShowsStopped(GpuReport(states[m].cache.jobs[j], gauges, g), steps[i].gauges, steps[stop].gauges, g)
  {
    EccAfterStop(qs, states, steps, i, stop, m, j, g);
    if CanReport(states[m].cache, j, gauges) {
      StoppedReport(states[m].cache, j, g, steps[i].gauges, steps[stop].gauges, gauges);
    }
  }

  lemma DifferenceIsItself(b: nat, d: nat)
    requires d < TWO64
    ensures Sub64(b, d) == d <==> (b - 2 * d) % TWO64 == 0
  {
    RemainderUnique(b - d, d);
    assert (b - d) - d == b - 2 * d;
  }

  /** A second stop of a record leaves a GPU's counter as the first stop left it exactly when it
      brings no gauge for it, or one that is twice the difference already stored. */
  lemma SecondStopKeepsEccIff(rec: JobRecord, gauges: Gauges, time: nat, g: nat)
    requires g in rec.gpus && rec.gpus[g].eccCorrect < TWO64 && rec.gpus[g].eccUncorrect < TWO64
    ensures
      var c, u := FieldKey(g, ECC_CORRECT_TOTAL), FieldKey(g, ECC_UNCORRECT_TOTAL);
      var twice := StopRecord(rec, gauges, time).gpus[g];
      && (twice.eccCorrect == rec.gpus[g].eccCorrect <==>
          c !in gauges || (gauges[c] - 2 * rec.gpus[g].eccCorrect) % TWO64 == 0)
      && (twice.eccUncorrect == rec.gpus[g].eccUncorrect <==>
          u !in gauges || (gauges[u] - 2 * rec.gpus[g].eccUncorrect) % TWO64 == 0)
  {
    var c, u := FieldKey(g, ECC_CORRECT_TOTAL), FieldKey(g, ECC_UNCORRECT_TOTAL);
    if c in gauges {
      DifferenceIsItself(gauges[c], rec.gpus[g].eccCorrect);
    }
    if u in gauges {
      DifferenceIsItself(gauges[u], rec.gpus[g].eccUncorrect);
    }
  }

  /** One stop per start is needed: a second stop subtracts the difference instead of the start. */
  lemma SecondStopBreaksEcc()
    ensures
      var k := FieldKey(0, ECC_CORRECT_TOTAL);
      var rec := StartRecord([0], [], map[k := 10], 1);
      var once := StopRecord(rec, map[k := 12], 2);
      var twice := StopRecord(once, map[k := 12], 3);
      once.gpus[0].eccCorrect == 2 && twice.gpus[0].eccCorrect == 10
  {
    var k := FieldKey(0, ECC_CORRECT_TOTAL);
    var rec := StartRecord([0], [], map[k := 10], 1);
    assert rec.gpus[0].eccCorrect == 10;
    MonotoneGauge(10, 12);
    MonotoneGauge(2, 12);
  }

  // ---------------------------------------------------------------------
  // Report bounds over whole runs

  /** The GPUs a job's record is about. */
  ghost function GpusOf(c: Cache, j: JobId): Option<set<nat>> {
    if j in c.jobs then Some(c.jobs[j].gpus.Keys) else None
  }

  lemma HandleOneKeepsGpus(e: Engine, d: Delivery, j: JobId)
    ensures GpusOf(HandleOne(e, d).cache, j) == GpusOf(e.cache, j)
  {
    var v := d.value;
    match RouteJob(e.jobs, v.Key())
    case None =>
    case Some(i) => ObserveKeepsGpus(Store(e.cache, v.Key(), v.reading), i, v.gpu, v.reading, j);
  }

  lemma {:induction false} HandleKeepsGpus(e: Engine, ds: seq<Delivery>, j: JobId)
    ensures GpusOf(HandleAll(e, ds).cache, j) == GpusOf(e.cache, j)
  {
    if ds != [] {
      HandleKeepsGpus(e, ds[..|ds| - 1], j);
      HandleOneKeepsGpus(HandleAll(e, ds[..|ds| - 1]), ds[|ds| - 1], j);
    }
  }

  lemma StepKeepsGpus(e: Engine, s: Step, j: JobId)
    requires !Resets(s, j)
    ensures GpusOf(Next(e, s).cache, j) == GpusOf(e.cache, j)
  {
    match s
    case Update(now, ds, cleanAt, evictAt) => HandleKeepsGpus(e, ds, j);
    case Notify(events) => HandleKeepsGpus(e, Events(events), j);
    case CacheStop(i, gauges, time) =>
      if i in e.cache.jobs {
        assert StopRecord(e.cache.jobs[i], gauges, time).gpus.Keys == e.cache.jobs[i].gpus.Keys;
      }
    case _ =>
  }

  lemma {:induction false} GpusSinceStart(qs: Queries, states: seq<Engine>, steps: seq<Step>, i: nat, m: nat, j: JobId)
    requires AnySteps(qs, states, steps) && StartedAt(steps, i, m, j)
    ensures GpusOf(states[m].cache, j) == Some(set g | g in steps[i].gpus)
  {
    assert StepAt(states, steps, m - 1);
    if m == i + 1 {
      var gpus := StartRecord(steps[i].gpus, steps[i].fields, steps[i].gauges, steps[i].time).gpus;
      assert gpus.Keys == set g | g in steps[i].gpus;
    } else {
      GpusSinceStart(qs, states, steps, i, m - 1, j);
      StepKeepsGpus(states[m - 1], steps[m - 1], j);
    }
  }

  /** The good readings of a metric routed to the job since its start, GPU by GPU. */
  ghost function SamplesSince(states: seq<Engine>, steps: seq<Step>, i: nat, m: nat, j: JobId, f: nat)
    : map<nat, seq<Reading>>
    requires i < m <= |steps| <= |states| && steps[i].CacheStart?
  {
    map g | g in steps[i].gpus :: RoutedBetween(states, steps, i + 1, m, j, FieldKey(g, f))
  }

  lemma AdjusterPositive(rec: JobRecord, gauges: Gauges, g: nat, f: nat)
    requires GpuReportable(rec, gauges, g) && f in METRICS && f in rec.gpus[g].fields && rec.gpus[g].fields[f].count > 0
    ensures Adjuster(f, gauges[FieldKey(g, GPU_MEMORY_TOTAL)]) > 0
  {
  }

  lemma RunIsBacked(qs: Queries, states: seq<Engine>, steps: seq<Step>, i: nat, m: nat, j: JobId, f: nat,
                    gauges: Gauges, g: nat)
    requires AnySteps(qs, states, steps) && StartedAt(steps, i, m, j) && CanReport(states[m].cache, j, gauges)
    requires f in METRICS && f in steps[i].fields && g in steps[i].gpus
    requires
      var rs := SamplesSince(states, steps, i, m, j, f)[g];
      NonNegative(rs) && Sum(rs) < TWO64
    ensures GpuBacked(states[m].cache.jobs[j], gauges, f, SamplesSince(states, steps, i, m, j, f), g)
  {
    var rec, rs := states[m].cache.jobs[j], SamplesSince(states, steps, i, m, j, f)[g];
    RecordIsFold(qs, states, steps, i, m, j, FieldKey(g, f));
    if rs != [] {
      FoldCounts(rs);
      AdjusterPositive(rec, gauges, g, f);
    }
  }

  /** End to end: over any sequence of steps since its start, if the good readings of a metric routed
      to the job are nonnegative and add up to less than 2^64 on each GPU, the job's report has its
      average at most the maximum, and at least the minimum once every GPU has a reading. */
  lemma RunReportBounds(qs: Queries, states: seq<Engine>, steps: seq<Step>, i: nat, m: nat, j: JobId, f: nat,
                        gauges: Gauges, now: nat)
    requires AnySteps(qs, states, steps) && StartedAt(steps, i, m, j) && steps[i].gpus != []
    requires CanReport(states[m].cache, j, gauges) && f in METRICS && f in steps[i].fields
    requires
      var samples := SamplesSince(states, steps, i, m, j, f);
      forall g :: g in samples ==> NonNegative(samples[g]) && Sum(samples[g]) < TWO64
    ensures
      var out, samples := OutcomeOf(states[m].cache.jobs[j], gauges, now), SamplesSince(states, steps, i, m, j, f);
      && out.Report?
      && MetricBounded(out.info.summary.metrics, f, AllSampled(samples.Keys, samples))
  {
    var rec, samples := states[m].cache.jobs[j], SamplesSince(states, steps, i, m, j, f);
    GpusSinceStart(qs, states, steps, i, m, j);
    assert rec.gpus.Keys == samples.Keys && steps[i].gpus[0] in rec.gpus;
    forall g | g in rec.gpus ensures GpuBacked(rec, gauges, f, samples, g) {
      RunIsBacked(qs, states, steps, i, m, j, f, gauges, g);
    }
    OutcomeBounds(rec, gauges, now, f, samples);
  }

  /** End to end, and exactly: over any sequence of steps since its start, the job's report says of each
      metric, in its unit, what `ReportShows` says of the good readings routed to the job. */
  lemma RunReportExact(qs: Queries, states: seq<Engine>, steps: seq<Step>, i: nat, m: nat, j: JobId, f: nat,
                       units: map<nat, nat>, gauges: Gauges, now: nat)
    requires AnySteps(qs, states, steps) && StartedAt(steps, i, m, j) && steps[i].gpus != []
    requires CanReport(states[m].cache, j, gauges) && f in steps[i].fields
    requires forall g :: g in steps[i].gpus ==>
      && g in units && FieldKey(g, GPU_MEMORY_TOTAL) in gauges
      && HasUnit(f, gauges[FieldKey(g, GPU_MEMORY_TOTAL)], units[g])
    requires
      var samples := SamplesSince(states, steps, i, m, j, f);
      forall g :: g in samples ==> NonNegative(samples[g]) && Sum(samples[g]) < TWO64
    ensures
      var out, samples := OutcomeOf(states[m].cache.jobs[j], gauges, now), SamplesSince(states, steps, i, m, j, f);
      out.Report? && ReportShows(out.info, samples.Keys, f, units, samples)
  {
    var rec, samples := states[m].cache.jobs[j], SamplesSince(states, steps, i, m, j, f);
    GpusSinceStart(qs, states, steps, i, m, j);
    assert rec.gpus.Keys == samples.Keys && steps[i].gpus[0] in rec.gpus;
    forall g | g in rec.gpus ensures BackedInUnit(rec, gauges, f, units, samples, g) {
      AdjusterIsUnit(f, gauges[FieldKey(g, GPU_MEMORY_TOTAL)], units[g]);
      RunIsBacked(qs, states, steps, i, m, j, f, gauges, g);
    }
    OutcomeIsExact(rec, gauges, now, f, units, samples);
  }

  // ---------------------------------------------------------------------
  // Start and end time

  ghost predicate HasTimes(c: Cache, j: JobId, start: nat, end: nat) {
    j in c.jobs && c.jobs[j].startTime == start && c.jobs[j].endTime == end
  }

  lemma {:induction false} HandleKeepsTimes(e: Engine, ds: seq<Delivery>, j: JobId, start: nat, end: nat)
    requires HasTimes(e.cache, j, start, end)
    ensures HasTimes(HandleAll(e, ds).cache, j, start, end)
  {
    if ds != [] {
      var h, d := HandleAll(e, ds[..|ds| - 1]), ds[|ds| - 1];
      HandleKeepsTimes(e, ds[..|ds| - 1], j, start, end);
      match RouteJob(h.jobs, d.value.Key())
      case None =>
      case Some(i) =>
        ObserveKeepsGpus(Store(h.cache, d.value.Key(), d.value.reading), i, d.value.gpu, d.value.reading, j);
    }
  }

  lemma StepTimes(e: Engine, s: Step, j: JobId, start: nat, end: nat)
    requires !Resets(s, j) && HasTimes(e.cache, j, start, end)
    ensures HasTimes(Next(e, s).cache, j, start, if Stops(s, j) then s.time else end)
  {
    match s
    case Update(now, ds, cleanAt, evictAt) => HandleKeepsTimes(e, ds, j, start, end);
    case Notify(events) => HandleKeepsTimes(e, Events(events), j, start, end);
    case _ =>
  }

  /** When the job was last stopped since step `i`, or 0. */
  ghost function LastStop(steps: seq<Step>, i: nat, m: nat, j: JobId): nat
    requires i < m <= |steps|
  {
    if m == i + 1 then 0 else if Stops(steps[m - 1], j) then steps[m - 1].time else LastStop(steps, i, m - 1, j)
  }

  lemma {:induction false} TimesSinceStart(qs: Queries, states: seq<Engine>, steps: seq<Step>, i: nat, m: nat, j: JobId)
    requires AnySteps(qs, states, steps) && StartedAt(steps, i, m, j)
    ensures HasTimes(states[m].cache, j, steps[i].time, LastStop(steps, i, m, j))
  {
    assert StepAt(states, steps, m - 1);
    if m > i + 1 {
      TimesSinceStart(qs, states, steps, i, m - 1, j);
      StepTimes(states[m - 1], steps[m - 1], j, steps[i].time, LastStop(steps, i, m - 1, j));
    }
  }

  /** Over any sequence of steps a report shows the time the job was started with, and as its end the
      time of its last stop, or now while there was none. */
  lemma ReportTimes(qs: Queries, states: seq<Engine>, steps: seq<Step>, i: nat, m: nat, j: JobId, gauges: Gauges,
                    now: nat)
    requires AnySteps(qs, states, steps) && StartedAt(steps, i, m, j)
    ensures j in states[m].cache.jobs
    ensures
      var out, stop := OutcomeOf(states[m].cache.jobs[j], gauges, now), LastStop(steps, i, m, j);
      out.Report? ==> out.info.startTime == steps[i].time && out.info.endTime == if stop == 0 then now else stop
  {
    TimesSinceStart(qs, states, steps, i, m, j);
    OutcomeTimes(states[m].cache.jobs[j], gauges, now);
  }
}
