/** A start and a stop of one job id whose critical sections interleave. `rdc_job_start_stats` takes
    the watch mutex to look the id up, again to insert it and again to watch, and the cache mutex to
    install the record; it lets go in between, as the stop does. */
module ConcurrentStarts {
  import opened Common
  import opened CacheManager
  import opened Engine
  import opened Invariants
  import opened WatchTable
  import opened Schedules
  import opened ConcurrentStops

  /** What the start brings. */
  datatype NewJob = NewJob(groupId: nat, freq: nat, gauges: Gauges, time: nat, granted: set<FieldKey>)

  /** Where a start stands. */
  datatype StartPhase =
    | Waiting
    | Checked(keys: seq<FieldKey>)
    | Listed
    | Recorded
    | Watched(st: Status)
    | TurnedAway(st: Status)

  ghost function NewRecord(gs: Groups, n: NewJob): JobRecord
    requires Named(gs, JobKey(n.groupId))
  {
    StartRecord(gs.gpus[n.groupId], gs.fields[GroupSettings.JOB_FIELD_GROUP], n.gauges, n.time)
  }

  /** What the next critical section of a start does to the engine. */
  ghost function StartEffect(e: Engine, j: JobId, n: NewJob, p: StartPhase): Engine {
    var g := JobKey(n.groupId);
    match p
    case Checked(keys) => Next(e, JobInsert(j, JobEntry(n.groupId, keys)))
    case Listed =>
      if !Named(e.groups, g) then e
      else Next(e, CacheStart(j, e.groups.gpus[n.groupId], e.groups.fields[g.fieldGroup], n.gauges, n.time))
    case Recorded => Next(e, Watch(g, n.freq, 0.0, 0, n.granted))
    case _ => e
  }

  /** Where that section leaves the start. */
  ghost function PhaseOfStart(e: Engine, j: JobId, n: NewJob, p: StartPhase): StartPhase {
    var g := JobKey(n.groupId);
    match p
    case Waiting =>
      if j in e.jobs then TurnedAway(AlreadyExist)
      else if !Named(e.groups, g) || KeysOf(e.groups, g) == [] then TurnedAway(NotFound)
      else Checked(KeysOf(e.groups, g))
    case Checked(_) => Listed
    case Listed => if Named(e.groups, g) then Recorded else TurnedAway(NotFound)
    case Recorded => Watched(WatchStatus(e, g))
    case _ => p
  }

  /** The engine, the stop and the start. */
  datatype Overlap = Overlap(e: Engine, stop: Phase, start: StartPhase)

  /** The next critical section of the stop (`true`) or of the start. */
  ghost function Move(o: Overlap, j: JobId, c: Caller, n: NewJob, who: bool): Overlap {
    if who then Overlap(StopEffect(o.e, j, c, o.stop), StopPhase(o.e, j, c, o.stop), o.start)
    else Overlap(StartEffect(o.e, j, n, o.start), o.stop, PhaseOfStart(o.e, j, n, o.start))
  }

  /** The two calls after their sections have run in the order `s` says. */
  ghost function Overlapped(e: Engine, j: JobId, c: Caller, n: NewJob, s: seq<bool>): Overlap {
    if s == [] then Overlap(e, Ready, Waiting)
    else Move(Overlapped(e, j, c, n, s[..|s| - 1]), j, c, n, s[|s| - 1])
  }

  /** Run alone, the sections of a start are the whole call. */
  lemma StartAlone(e: Engine, j: JobId, c: Caller, n: NewJob)
    ensures
      var checked := Move(Overlap(e, Ready, Waiting), j, c, n, false);
      var recorded := Move(Move(checked, j, c, n, false), j, c, n, false);
      Move(recorded, j, c, n, false).e == JobStarted(e, n.groupId, j, n.freq, n.gauges, n.time, n.granted)
  {
    JobStartedIsSteps(e, n.groupId, j, n.freq, n.gauges, n.time, n.granted);
  }

  // ---------------------------------------------------------------------
  // What the order of the sections says

  /** How many sections of each call have run, and four facts about their order: the erase came before
      the check, the insert before the lookup, the watch before the unwatch, and the cache start
      before the cache stop. */
  datatype Order = Order(stop: nat, start: nat, late: bool, found: bool, watched: bool, kept: bool)

  ghost function OrderOf(s: seq<bool>): Order {
    Order(Moves(s, true), Moves(s, false), Precedes(s, true, 3, 1),
          Precedes(s, false, 2, 1), Precedes(s, false, 4, 2), Precedes(s, false, 3, 4))
  }

  ghost function After(r: Order, who: bool): Order {
    var stop, start := r.stop + if who then 1 else 0, r.start + if who then 0 else 1;
    Order(stop, start, r.late || (stop >= 3 && start < 1), r.found || (start >= 2 && stop < 1),
          r.watched || (start >= 4 && stop < 2), r.kept || (start >= 3 && stop < 4))
  }

  ghost predicate Sound(r: Order) {
    && (r.late ==> r.stop >= 3) && (r.stop >= 3 && r.start < 1 ==> r.late)
    && (r.found ==> r.start >= 2) && (r.start >= 2 && r.stop < 1 ==> r.found)
    && (r.watched ==> r.start >= 4) && (r.start >= 4 && r.stop < 2 ==> r.watched)
    && (r.kept ==> r.start >= 3) && (r.start >= 3 && r.stop < 4 ==> r.kept)
  }

  lemma OrderIsSound(s: seq<bool>)
    ensures Sound(OrderOf(s))
  {
    PrecedesFacts(s, true, 3, 1);
    PrecedesFacts(s, false, 2, 1);
    PrecedesFacts(s, false, 4, 2);
    PrecedesFacts(s, false, 3, 4);
  }

  lemma OrderOneMore(s: seq<bool>, who: bool)
    ensures OrderOf(s + [who]) == After(OrderOf(s), who)
  {
    OneMoreMove(s, who);
    PrecedesOneMore(s, who, true, 3, 1);
    PrecedesOneMore(s, who, false, 2, 1);
    PrecedesOneMore(s, who, false, 4, 2);
    PrecedesOneMore(s, who, false, 3, 4);
  }

  // ---------------------------------------------------------------------
  // What the sections do to the job

  ghost function JobOf(e: Engine, j: JobId): Option<JobEntry> {
    if j in e.jobs then Some(e.jobs[j]) else None
  }

  ghost function CachedJob(e: Engine, j: JobId): Option<JobRecord> {
    if j in e.cache.jobs then Some(e.cache.jobs[j]) else None
  }

  lemma StopTouches(e: Engine, j: JobId, c: Caller, p: Phase)
    ensures
      var m := StopEffect(e, j, c, p);
      && m.groups == e.groups
      && JobOf(m, j) == (if p.Cleared? then None else JobOf(e, j))
      && CachedJob(m, j) ==
         (if p.Erased? && j in e.cache.jobs then Some(StopRecord(e.cache.jobs[j], c.gauges, c.time))
          else CachedJob(e, j))
  {
  }

  lemma StartTouches(e: Engine, j: JobId, n: NewJob, p: StartPhase)
    ensures
      var m := StartEffect(e, j, n, p);
      && m.groups == e.groups
      && JobOf(m, j) == (if p.Checked? && j !in e.jobs then Some(JobEntry(n.groupId, p.keys)) else JobOf(e, j))
      && CachedJob(m, j) ==
         (if p.Listed? && Named(e.groups, JobKey(n.groupId)) then Some(NewRecord(e.groups, n)) else CachedJob(e, j))
  {
  }

  /** The start names an existing group with GPUs. */
  ghost predicate CanStart(gs: Groups, n: NewJob) {
    Named(gs, JobKey(n.groupId)) && KeysOf(gs, JobKey(n.groupId)) != []
  }

  ghost function NewEntry(gs: Groups, n: NewJob): JobEntry
    requires CanStart(gs, n)
  {
    JobEntry(n.groupId, KeysOf(gs, JobKey(n.groupId)))
  }

  /** A start that got past its check, by the number of its sections. */
  ghost predicate StartStands(gs: Groups, n: NewJob, p: StartPhase, moves: nat)
    requires CanStart(gs, n)
  {
    if moves == 0 then p == Waiting
    else if moves == 1 then p == Checked(KeysOf(gs, JobKey(n.groupId)))
    else if moves == 2 then p == Listed
    else if moves == 3 then p == Recorded
    else p.Watched?
  }

  // ---------------------------------------------------------------------
  // A running job is stopped and started anew

  ghost function RestartedEntry(e: Engine, j: JobId, n: NewJob, r: Order): Option<JobEntry>
    requires CanStart(e.groups, n)
  {
    if r.stop < 3 then JobOf(e, j) else if r.late && r.start >= 2 then Some(NewEntry(e.groups, n)) else None
  }

  ghost function RestartedRecord(e: Engine, j: JobId, c: Caller, n: NewJob, r: Order): JobRecord
    requires CanStart(e.groups, n) && j in e.cache.jobs
  {
    var before, anew := e.cache.jobs[j], NewRecord(e.groups, n);
    if r.late && r.start >= 3 then if r.kept && r.stop >= 4 then StopRecord(anew, c.gauges, c.time) else anew
    else if r.stop >= 4 then StopRecord(before, c.gauges, c.time) else before
  }

  /** The stop always goes through; the start is turned away unless it comes late. */
  ghost predicate Restarting(o: Overlap, e: Engine, j: JobId, c: Caller, n: NewJob, groupId: nat, r: Order)
    requires CanStart(e.groups, n) && j in e.cache.jobs
  {
    && o.stop == PhaseAfter(r.stop, false, groupId)
    && (if r.start > 0 && !r.late then o.start == TurnedAway(AlreadyExist)
        else StartStands(e.groups, n, o.start, r.start))
    && o.e.groups == e.groups
    && (r.stop < 2 ==> o.e == e)
    && JobOf(o.e, j) == RestartedEntry(e, j, n, r)
    && CachedJob(o.e, j) == Some(RestartedRecord(e, j, c, n, r))
  }

  lemma RestartStop(o: Overlap, e: Engine, j: JobId, c: Caller, n: NewJob, groupId: nat, r: Order)
    requires CanStop(e, j, groupId) && CanStart(e.groups, n) && Sound(r) && Restarting(o, e, j, c, n, groupId, r)
    ensures Restarting(Move(o, j, c, n, true), e, j, c, n, groupId, After(r, true))
  {
    StopTouches(o.e, j, c, o.stop);
  }

  lemma RestartStart(o: Overlap, e: Engine, j: JobId, c: Caller, n: NewJob, groupId: nat, r: Order)
    requires CanStop(e, j, groupId) && CanStart(e.groups, n) && Sound(r) && Restarting(o, e, j, c, n, groupId, r)
    ensures Restarting(Move(o, j, c, n, false), e, j, c, n, groupId, After(r, false))
  {
    StartTouches(o.e, j, n, o.start);
  }

  lemma RestartOneMore(e: Engine, j: JobId, c: Caller, n: NewJob, groupId: nat, s: seq<bool>)
    requires CanStop(e, j, groupId) && CanStart(e.groups, n) && s != []
    requires Restarting(Overlapped(e, j, c, n, s[..|s| - 1]), e, j, c, n, groupId, OrderOf(s[..|s| - 1]))
    ensures Restarting(Overlapped(e, j, c, n, s), e, j, c, n, groupId, OrderOf(s))
  {
    var init, who := s[..|s| - 1], s[|s| - 1];
    var o := Overlapped(e, j, c, n, init);
    assert s == init + [who];
    OrderIsSound(init);
    OrderOneMore(init, who);
    if who {
      RestartStop(o, e, j, c, n, groupId, OrderOf(init));
    } else {
      RestartStart(o, e, j, c, n, groupId, OrderOf(init));
    }
  }

  lemma {:induction false} AlwaysRestarting(e: Engine, j: JobId, c: Caller, n: NewJob, groupId: nat, s: seq<bool>)
    requires CanStop(e, j, groupId) && CanStart(e.groups, n)
    ensures Restarting(Overlapped(e, j, c, n, s), e, j, c, n, groupId, OrderOf(s))
  {
    if s != [] {
      AlwaysRestarting(e, j, c, n, groupId, s[..|s| - 1]);
      RestartOneMore(e, j, c, n, groupId, s);
    }
  }

  /** The old stop reaches the new record: its erase comes before the start's check, and the start's
      cache section before its own. */
  ghost predicate StopsNewRecord(s: seq<bool>) {
    Precedes(s, true, 3, 1) && Precedes(s, false, 3, 4)
  }

  /** The exact order for a stop of a running job that races a start of the same id. The stop goes
      through. The start gets past its check if and only if the stop's erase comes first, and then
      the old stop stops the new record if and only if the new record is installed before the stop's
      cache section; otherwise the stop stops the record it was meant for. */
  lemma RecordAfterRestart(e: Engine, j: JobId, c: Caller, n: NewJob, groupId: nat, s: seq<bool>)
    requires CanStop(e, j, groupId) && CanStart(e.groups, n) && Complete(s)
    ensures
      var o := Overlapped(e, j, c, n, s);
      && o.stop == Stopped && j in o.e.cache.jobs
      && (o.start == TurnedAway(AlreadyExist) <==> !Precedes(s, true, 3, 1))
      && JobOf(o.e, j) == (if Precedes(s, true, 3, 1) then Some(NewEntry(e.groups, n)) else None)
      && o.e.cache.jobs[j] ==
         (if !Precedes(s, true, 3, 1) then StopRecord(e.cache.jobs[j], c.gauges, c.time)
          else if Precedes(s, false, 3, 4) then StopRecord(NewRecord(e.groups, n), c.gauges, c.time)
          else NewRecord(e.groups, n))
  {
    AlwaysRestarting(e, j, c, n, groupId, s);
  }

  /** So a job in the table is left with a stopped record exactly then. */
  lemma RestartLeavesStoppedIff(e: Engine, j: JobId, c: Caller, n: NewJob, groupId: nat, s: seq<bool>)
    requires CanStop(e, j, groupId) && CanStart(e.groups, n) && Complete(s) && c.time != 0
    ensures
      var m := Overlapped(e, j, c, n, s).e;
      j in m.cache.jobs && (j in m.jobs && m.cache.jobs[j].endTime != 0 <==> StopsNewRecord(s))
  {
    RecordAfterRestart(e, j, c, n, groupId, s);
  }

  // ---------------------------------------------------------------------
  // The watch of the new job

  ghost predicate AllNamed(e: Engine) {
    forall g :: Active(e.watches, g) ==> Named(e.groups, g)
  }

  lemma StopWatches(e: Engine, j: JobId, c: Caller, p: Phase)
    requires AllNamed(e)
    ensures
      var m := StopEffect(e, j, c, p);
      && AllNamed(m)
      && (forall g :: g in m.watches <==> g in e.watches)
      && (forall g :: Active(m.watches, g) ==> Active(e.watches, g))
      && (p.Found? ==> !Active(m.watches, JobKey(p.groupId)))
  {
    StopTouches(e, j, c, p);
  }

  lemma StartWatches(e: Engine, j: JobId, n: NewJob, p: StartPhase)
    requires AllNamed(e) && Named(e.groups, JobKey(n.groupId))
    ensures
      var m := StartEffect(e, j, n, p);
      && AllNamed(m)
      && (!p.Recorded? ==> m.watches == e.watches)
      && (forall g :: g in m.watches <==> g in e.watches || (p.Recorded? && g == JobKey(n.groupId)))
  {
    StartTouches(e, j, n, p);
  }

  /** After the stop's unwatch its entry is inactive until a start of the same group watches it. */
  ghost predicate WatchStands(o: Overlap, n: NewJob, groupId: nat, r: Order) {
    && AllNamed(o.e)
    && (if r.late && r.start >= 4
        then JobKey(n.groupId) in o.e.watches && (n.groupId == groupId ==> o.start == Watched(Ok))
        else n.groupId == groupId && r.stop >= 2 ==> !Active(o.e.watches, JobKey(groupId)))
  }

  lemma WatchOneMore(o: Overlap, e: Engine, j: JobId, c: Caller, n: NewJob, groupId: nat, r: Order, who: bool)
    requires CanStop(e, j, groupId) && CanStart(e.groups, n) && Sound(r)
    requires Restarting(o, e, j, c, n, groupId, r) && WatchStands(o, n, groupId, r)
    ensures WatchStands(Move(o, j, c, n, who), n, groupId, After(r, who))
  {
    if who {
      StopWatches(o.e, j, c, o.stop);
    } else {
      StartWatches(o.e, j, n, o.start);
    }
  }

  lemma {:induction false} WatchAlwaysStands(e: Engine, j: JobId, c: Caller, n: NewJob, groupId: nat, s: seq<bool>)
    requires CanStop(e, j, groupId) && CanStart(e.groups, n) && AllNamed(e)
    ensures WatchStands(Overlapped(e, j, c, n, s), n, groupId, OrderOf(s))
  {
    if s != [] {
      var init, who := s[..|s| - 1], s[|s| - 1];
      WatchAlwaysStands(e, j, c, n, groupId, init);
      AlwaysRestarting(e, j, c, n, groupId, init);
      OrderIsSound(init);
      OrderOneMore(init, who);
      assert s == init + [who];
      WatchOneMore(Overlapped(e, j, c, n, init), e, j, c, n, groupId, OrderOf(init), who);
    }
  }

  /** The run that breaks one stop per start without two stops overlapping: in every order in which
      the old stop reaches the new record, the start on the same group answers Ok, a later whole stop
      answers Ok too, and the new record is stopped twice. */
  lemma RestartedJobIsStoppedTwice(e: Engine, j: JobId, c: Caller, n: NewJob, groupId: nat, s: seq<bool>,
                                   gauges: Gauges, time: nat, now: nat)
    requires CanStop(e, j, groupId) && CanStart(e.groups, n) && AllNamed(e) && n.groupId == groupId
    requires Complete(s) && StopsNewRecord(s)
    ensures
      var o := Overlapped(e, j, c, n, s);
      var m := JobStopped(o.e, j, gauges, time, now);
      && o.stop == Stopped && o.start == Watched(Ok)
      && JobStopStatus(o.e, j, now) == Ok && j in m.cache.jobs
      && m.cache.jobs[j] == StopRecord(StopRecord(NewRecord(e.groups, n), c.gauges, c.time), gauges, time)
  {
    var o := Overlapped(e, j, c, n, s);
    RecordAfterRestart(e, j, c, n, groupId, s);
    AlwaysRestarting(e, j, c, n, groupId, s);
    WatchAlwaysStands(e, j, c, n, groupId, s);
    UnwatchSucceedsIff(o.e, JobKey(groupId), now);
    assert o.e.jobs[j].groupId == groupId;
  }

  /** There is such an order: the whole start between the stop's erase and its cache section. */
  lemma StartFitsInBetween()
    ensures
      var s := [true] + [true] + [true] + [false] + [false] + [false] + [false] + [true];
      Complete(s) && StopsNewRecord(s)
  {
    var s1 := [] + [true];
    var s2 := s1 + [true];
    var s3 := s2 + [true];
    var s4 := s3 + [false];
    var s5 := s4 + [false];
    var s6 := s5 + [false];
    var s7 := s6 + [false];
    assert s1 == [true];
    OrderOneMore([], true);
    OrderOneMore(s1, true);
    OrderOneMore(s2, true);
    OrderOneMore(s3, false);
    OrderOneMore(s4, false);
    OrderOneMore(s5, false);
    OrderOneMore(s6, false);
    OrderOneMore(s7, true);
  }

  // ---------------------------------------------------------------------
  // A job is stopped while it is being started

  /** The watch table has an entry for the stop to unwatch: a left-over one, or the start's own. */
  ghost predicate HasEntry(e: Engine, n: NewJob, watched: bool) {
    JobKey(n.groupId) in e.watches || watched
  }

  /** The stop gets past its lookup and its unwatch. */
  ghost predicate GetsThrough(e: Engine, n: NewJob, r: Order) {
    r.found && HasEntry(e, n, r.watched)
  }

  ghost function StopOfNew(e: Engine, n: NewJob, r: Order): Phase {
    if r.stop == 0 then Ready else if !r.found then Refused
    else if r.stop == 1 then Found(n.groupId) else if !HasEntry(e, n, r.watched) then Refused
    else PhaseAfter(r.stop, false, n.groupId)
  }

  ghost function StartedEntry(e: Engine, n: NewJob, r: Order): Option<JobEntry>
    requires CanStart(e.groups, n)
  {
    if r.start >= 2 && !(GetsThrough(e, n, r) && r.stop >= 3) then Some(NewEntry(e.groups, n)) else None
  }

  ghost function StartedRecord(e: Engine, c: Caller, n: NewJob, r: Order): JobRecord
    requires CanStart(e.groups, n)
  {
    if GetsThrough(e, n, r) && r.kept && r.stop >= 4 then StopRecord(NewRecord(e.groups, n), c.gauges, c.time)
    else NewRecord(e.groups, n)
  }

  ghost predicate Starting(o: Overlap, e: Engine, j: JobId, c: Caller, n: NewJob, r: Order)
    requires CanStart(e.groups, n)
  {
    && o.stop == StopOfNew(e, n, r)
    && StartStands(e.groups, n, o.start, r.start)
    && o.e.groups == e.groups && AllNamed(o.e)
    && (JobKey(n.groupId) in o.e.watches <==> HasEntry(e, n, r.start >= 4))
    && JobOf(o.e, j) == StartedEntry(e, n, r)
    && (r.start >= 3 ==> CachedJob(o.e, j) == Some(StartedRecord(e, c, n, r)))
  }

  lemma StartingStop(o: Overlap, e: Engine, j: JobId, c: Caller, n: NewJob, r: Order)
    requires CanStart(e.groups, n) && Sound(r) && Starting(o, e, j, c, n, r)
    ensures Starting(Move(o, j, c, n, true), e, j, c, n, After(r, true))
  {
    StopTouches(o.e, j, c, o.stop);
    StopWatches(o.e, j, c, o.stop);
    if o.stop.Found? {
      UnwatchSucceedsIff(o.e, JobKey(n.groupId), c.now);
    }
  }

  lemma StartingStart(o: Overlap, e: Engine, j: JobId, c: Caller, n: NewJob, r: Order)
    requires CanStart(e.groups, n) && Sound(r) && Starting(o, e, j, c, n, r)
    ensures Starting(Move(o, j, c, n, false), e, j, c, n, After(r, false))
  {
    StartTouches(o.e, j, n, o.start);
    StartWatches(o.e, j, n, o.start);
  }

  lemma StartingOneMore(e: Engine, j: JobId, c: Caller, n: NewJob, s: seq<bool>)
    requires CanStart(e.groups, n) && s != []
    requires Starting(Overlapped(e, j, c, n, s[..|s| - 1]), e, j, c, n, OrderOf(s[..|s| - 1]))
    ensures Starting(Overlapped(e, j, c, n, s), e, j, c, n, OrderOf(s))
  {
    var init, who := s[..|s| - 1], s[|s| - 1];
    var o := Overlapped(e, j, c, n, init);
    assert s == init + [who];
    OrderIsSound(init);
    OrderOneMore(init, who);
    if who {
      StartingStop(o, e, j, c, n, OrderOf(init));
    } else {
      StartingStart(o, e, j, c, n, OrderOf(init));
    }
  }

  lemma {:induction false} AlwaysStarting(e: Engine, j: JobId, c: Caller, n: NewJob, s: seq<bool>)
    requires CanStart(e.groups, n) && AllNamed(e) && j !in e.jobs
    ensures Starting(Overlapped(e, j, c, n, s), e, j, c, n, OrderOf(s))
  {
    if s != [] {
      AlwaysStarting(e, j, c, n, s[..|s| - 1]);
      StartingOneMore(e, j, c, n, s);
    }
  }

  /** The exact order for a stop of a job that is being started. The start goes through. The stop goes
      through if and only if its lookup comes after the insert and its unwatch finds an entry, left
      over or put there by the start; and then it stops the new record if and only if that is
      installed before its own cache section. */
  lemma RecordAfterStart(e: Engine, j: JobId, c: Caller, n: NewJob, s: seq<bool>)
    requires CanStart(e.groups, n) && AllNamed(e) && j !in e.jobs && Complete(s)
    ensures
      var o, through := Overlapped(e, j, c, n, s), Precedes(s, false, 2, 1) && HasEntry(e, n, Precedes(s, false, 4, 2));
      && o.start.Watched? && o.stop == (if through then Stopped else Refused)
      && JobOf(o.e, j) == (if through then None else Some(NewEntry(e.groups, n)))
      && j in o.e.cache.jobs
      && o.e.cache.jobs[j] ==
         (if through && Precedes(s, false, 3, 4) then StopRecord(NewRecord(e.groups, n), c.gauges, c.time)
          else NewRecord(e.groups, n))
  {
    AlwaysStarting(e, j, c, n, s);
  }

  /** So the job is left running, out of the table and beyond any later stop, exactly when the whole
      rest of the stop fits between the insert and the cache start, over a left-over entry. */
  lemma StartLeavesOrphanIff(e: Engine, j: JobId, c: Caller, n: NewJob, s: seq<bool>)
    requires CanStart(e.groups, n) && AllNamed(e) && j !in e.jobs && Complete(s) && c.time != 0
    ensures
      var m := Overlapped(e, j, c, n, s).e;
      && j in m.cache.jobs
      && (j !in m.jobs && m.cache.jobs[j].endTime == 0 <==>
          JobKey(n.groupId) in e.watches && Precedes(s, false, 2, 1) && Precedes(s, true, 4, 3))
  {
    RecordAfterStart(e, j, c, n, s);
    OneOrder(s, true, 4, 3);
    if Precedes(s, true, 4, 3) {
      OrderWidens(s, true, 4, 3, 2, 4);
      OneOrder(s, true, 2, 4);
    }
  }
}
