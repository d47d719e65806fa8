/** Two stops of one job whose critical sections interleave. `rdc_job_stop_stats` takes the watch
    mutex three times (lookup, unwatch, erase) and the cache mutex once, and lets go in between. */
module ConcurrentStops {
  import opened Common
  import opened CacheManager
  import opened Engine
  import opened Schedules
  import opened WatchTable

  /** Where a stop stands; a refused one has returned NOT_FOUND. */
  datatype Phase = Ready | Found(groupId: nat) | Cleared | Erased | Stopped | Refused

  /** What each of the two callers brings. */
  datatype Caller = Caller(gauges: Gauges, time: nat, now: nat)

  datatype Callers = Callers(first: Caller, second: Caller) {
    function Of(who: bool): Caller {
      if who then first else second
    }
  }

  /** The engine, the two stops, and who stopped the record so far, in order. */
  datatype Race = Race(e: Engine, first: Phase, second: Phase, done: seq<bool>) {
    function Of(who: bool): Phase {
      if who then first else second
    }

    function With(who: bool, p: Phase): Race {
      if who then this.(first := p) else this.(second := p)
    }
  }

  ghost function JobKey(groupId: nat): GroupKey {
    GroupKey(groupId, GroupSettings.JOB_FIELD_GROUP)
  }

  /** What the next critical section of a stop does to the engine. */
  ghost function StopEffect(e: Engine, j: JobId, c: Caller, p: Phase): Engine {
    match p
    case Found(groupId) => Next(e, Unwatch(JobKey(groupId), c.now))
    case Cleared => Next(e, JobErase(j))
    case Erased => Next(e, CacheStop(j, c.gauges, c.time))
    case _ => e
  }

  /** Where that section leaves the stop. */
  ghost function StopPhase(e: Engine, j: JobId, c: Caller, p: Phase): Phase {
    match p
    case Ready => if j in e.jobs then Found(e.jobs[j].groupId) else Refused
    case Found(groupId) => if UnwatchStatus(e, JobKey(groupId), c.now) == Ok then Cleared else Refused
    case Cleared => Erased
    case Erased => Stopped
    case _ => p
  }

  /** The next critical section of one of the two stops. */
  ghost function Advance(r: Race, j: JobId, cs: Callers, who: bool): Race {
    var c, p := cs.Of(who), r.Of(who);
    r.With(who, StopPhase(r.e, j, c, p))
     .(e := StopEffect(r.e, j, c, p), done := if p.Erased? then r.done + [who] else r.done)
  }

  /** Run alone, the sections of a stop are the whole call. */
  lemma StopAlone(e: Engine, j: JobId, cs: Callers, who: bool)
    ensures
      var c, found := cs.Of(who), Advance(Race(e, Ready, Ready, []), j, cs, who);
      var erased := Advance(Advance(found, j, cs, who), j, cs, who);
      var r := Advance(erased, j, cs, who);
      && r.e == JobStopped(e, j, c.gauges, c.time, c.now)
      && r.Of(who) == (if j in e.jobs && UnwatchStatus(e, JobKey(e.jobs[j].groupId), c.now) == Ok
                       then Stopped else Refused)
      && r.done == (if r.Of(who).Stopped? then [who] else [])
  {
    var r0 := Race(e, Ready, Ready, []);
    var r1 := Advance(r0, j, cs, who);
    if j !in e.jobs {
      assert r1.Of(who) == Refused && r1.e == e;
      var r2 := Advance(r1, j, cs, who);
      assert r2.Of(who) == Refused && r2.e == e;
    } else {
      assert r1.Of(who) == Found(e.jobs[j].groupId) && r1.e == e;
      var r2 := Advance(r1, j, cs, who);
      var r3 := Advance(r2, j, cs, who);
      assert r3.Of(who) == if r2.Of(who) == Cleared then Erased else Refused;
    }
  }

  /** The race after the sections have run in the order `s` says. */
  ghost function Raced(e: Engine, j: JobId, cs: Callers, s: seq<bool>): Race {
    if s == [] then Race(e, Ready, Ready, []) else Advance(Raced(e, j, cs, s[..|s| - 1]), j, cs, s[|s| - 1])
  }

  /** The other stop's erase comes before this one's lookup. */
  ghost predicate TooLate(s: seq<bool>, who: bool) {
    Precedes(s, !who, 3, 1)
  }

  /** What the order of the sections alone says of a stop. */
  ghost function PhaseAfter(moves: nat, late: bool, groupId: nat): Phase {
    if moves == 0 then Ready else if late then Refused
    else if moves == 1 then Found(groupId) else if moves == 2 then Cleared
    else if moves == 3 then Erased else Stopped
  }

  ghost predicate PastErase(p: Phase) {
    p.Erased? || p.Stopped?
  }

  /** The record after the stops in `done`. */
  ghost function StoppedBy(rec: JobRecord, cs: Callers, done: seq<bool>): JobRecord {
    if done == [] then rec
    else
      var c := cs.Of(done[|done| - 1]);
      StopRecord(StoppedBy(rec, cs, done[..|done| - 1]), c.gauges, c.time)
  }

  ghost predicate Unwatchable(e: Engine, groupId: nat) {
    JobKey(groupId) in e.watches && forall now :: UnwatchStatus(e, JobKey(groupId), now) == Ok
  }

  /** The job runs, and its unwatch can read the groups it needs. */
  ghost predicate CanStop(e: Engine, j: JobId, groupId: nat) {
    j in e.jobs && e.jobs[j].groupId == groupId && j in e.cache.jobs && Unwatchable(e, groupId)
  }

  /** An unwatch can be repeated: the entry stays in the watch table, inactive. */
  lemma UnwatchTwice(e: Engine, groupId: nat, now: nat)
    requires Unwatchable(e, groupId)
    ensures Unwatchable(Next(e, Unwatch(JobKey(groupId), now)), groupId)
  {
    var n := Next(e, Unwatch(JobKey(groupId), now));
    forall later ensures UnwatchStatus(n, JobKey(groupId), later) == Ok {
      assert UnwatchStatus(e, JobKey(groupId), later) == Ok;
      var ws, ws' := Deactivated(e.watches, JobKey(groupId), later), Deactivated(n.watches, JobKey(groupId), later);
      assert forall w :: Active(ws', w) ==> Active(ws, w);
    }
  }

  /** The job is in the table until one of the stops erases it, and its record was stopped by those
      stops that got to the end. */
  ghost predicate Consistent(r: Race, e: Engine, j: JobId, cs: Callers, groupId: nat)
    requires j in e.cache.jobs
  {
    && (j in r.e.jobs <==> !PastErase(r.first) && !PastErase(r.second))
    && (j in r.e.jobs ==> r.e.jobs[j].groupId == groupId)
    && Unwatchable(r.e, groupId)
    && j in r.e.cache.jobs && r.e.cache.jobs[j] == StoppedBy(e.cache.jobs[j], cs, r.done)
    && (true in r.done <==> r.first.Stopped?)
    && (false in r.done <==> r.second.Stopped?)
    && Distinct(r.done)
  }

  /** The race is where the order of its sections says. */
  ghost predicate OnTrack(r: Race, e: Engine, j: JobId, cs: Callers, groupId: nat, s: seq<bool>)
    requires j in e.cache.jobs
  {
    && r.first == PhaseAfter(Moves(s, true), TooLate(s, true), groupId)
    && r.second == PhaseAfter(Moves(s, false), TooLate(s, false), groupId)
    && Consistent(r, e, j, cs, groupId)
    && (|r.done| >= 2 ==> Precedes(s, r.done[0], 4, 4))
  }

  lemma LateFacts(s: seq<bool>, who: bool)
    ensures TooLate(s, who) ==> Moves(s, !who) >= 3
    ensures Moves(s, who) == 0 && Moves(s, !who) >= 3 ==> TooLate(s, who)
  {
    PrecedesFacts(s, !who, 3, 1);
  }

  /** One more section of a stop: its own count goes up, and it is late if it was before. */
  lemma OneMoreSection(s: seq<bool>, who: bool)
    ensures
      var s' := s + [who];
      && Moves(s', who) == Moves(s, who) + 1 && Moves(s', !who) == Moves(s, !who)
      && (TooLate(s', who) <==> TooLate(s, who))
      && (TooLate(s', !who) <==> TooLate(s, !who) || (Moves(s, !who) == 0 && Moves(s, who) >= 2))
  {
    OneMoreMove(s, who);
    PrecedesOneMore(s, who, !who, 3, 1);
    PrecedesOneMore(s, who, who, 3, 1);
  }

  lemma OthersTurn(s: seq<bool>, who: bool, groupId: nat)
    ensures
      var s' := s + [who];
      PhaseAfter(Moves(s', !who), TooLate(s', !who), groupId) == PhaseAfter(Moves(s, !who), TooLate(s, !who), groupId)
  {
    OneMoreSection(s, who);
  }

  /** The lookup finds the job exactly when the other stop has not erased it. */
  lemma LookupPhase(r: Race, e: Engine, j: JobId, cs: Callers, groupId: nat, s: seq<bool>, who: bool)
    requires j in e.cache.jobs && OnTrack(r, e, j, cs, groupId, s) && r.Of(who).Ready?
    ensures Advance(r, j, cs, who).Of(who) == PhaseAfter(Moves(s + [who], who), TooLate(s + [who], who), groupId)
  {
    OneMoreSection(s, who);
    LateFacts(s, who);
    LateFacts(s, !who);
    assert r.Of(!who) == PhaseAfter(Moves(s, !who), TooLate(s, !who), groupId);
    assert r.Of(who) == PhaseAfter(Moves(s, who), TooLate(s, who), groupId);
  }

  lemma LaterPhase(r: Race, e: Engine, j: JobId, cs: Callers, groupId: nat, s: seq<bool>, who: bool)
    requires j in e.cache.jobs && OnTrack(r, e, j, cs, groupId, s) && !r.Of(who).Ready?
    ensures Advance(r, j, cs, who).Of(who) == PhaseAfter(Moves(s + [who], who), TooLate(s + [who], who), groupId)
  {
    OneMoreSection(s, who);
    assert r.Of(who) == PhaseAfter(Moves(s, who), TooLate(s, who), groupId);
  }

  lemma SectionPhase(r: Race, e: Engine, j: JobId, cs: Callers, groupId: nat, s: seq<bool>, who: bool)
    requires j in e.cache.jobs && OnTrack(r, e, j, cs, groupId, s)
    ensures Advance(r, j, cs, who).Of(who) == PhaseAfter(Moves(s + [who], who), TooLate(s + [who], who), groupId)
    ensures Advance(r, j, cs, who).Of(!who) == PhaseAfter(Moves(s + [who], !who), TooLate(s + [who], !who), groupId)
  {
    OthersTurn(s, who, groupId);
    assert Advance(r, j, cs, who).Of(!who) == r.Of(!who);
    if r.Of(who).Ready? {
      LookupPhase(r, e, j, cs, groupId, s, who);
    } else {
      LaterPhase(r, e, j, cs, groupId, s, who);
    }
  }

  lemma UnwatchSection(r: Race, e: Engine, j: JobId, cs: Callers, groupId: nat, who: bool)
    requires j in e.cache.jobs && Consistent(r, e, j, cs, groupId) && r.Of(who) == Found(groupId)
    ensures Consistent(Advance(r, j, cs, who), e, j, cs, groupId)
  {
    UnwatchTwice(r.e, groupId, cs.Of(who).now);
    var n := Advance(r, j, cs, who);
    assert n.e.jobs == r.e.jobs && n.e.cache == r.e.cache;
    assert n.Of(!who) == r.Of(!who) && n.Of(who) == Cleared;
  }

  lemma SameWatches(e: Engine, n: Engine, groupId: nat)
    requires Unwatchable(e, groupId) && n.watches == e.watches && n.groups == e.groups
    ensures Unwatchable(n, groupId)
  {
    forall now ensures UnwatchStatus(n, JobKey(groupId), now) == Ok {
      assert UnwatchStatus(e, JobKey(groupId), now) == Ok;
    }
  }

  lemma StoppedByOneMore(rec: JobRecord, cs: Callers, done: seq<bool>, who: bool)
    ensures StoppedBy(rec, cs, done + [who]) == StopRecord(StoppedBy(rec, cs, done), cs.Of(who).gauges, cs.Of(who).time)
  {
    var more := done + [who];
    assert more[..|more| - 1] == done && more[|more| - 1] == who;
  }

  lemma StopSection(r: Race, e: Engine, j: JobId, cs: Callers, groupId: nat, who: bool)
    requires j in e.cache.jobs && Consistent(r, e, j, cs, groupId) && r.Of(who) == Erased
    ensures Consistent(Advance(r, j, cs, who), e, j, cs, groupId)
  {
    var n := Advance(r, j, cs, who);
    StoppedByOneMore(e.cache.jobs[j], cs, r.done, who);
    SameWatches(r.e, n.e, groupId);
  }

  lemma EraseSection(r: Race, e: Engine, j: JobId, cs: Callers, groupId: nat, who: bool)
    requires j in e.cache.jobs && Consistent(r, e, j, cs, groupId) && r.Of(who) == Cleared
    ensures Consistent(Advance(r, j, cs, who), e, j, cs, groupId)
  {
    SameWatches(r.e, Advance(r, j, cs, who).e, groupId);
  }

  lemma IdleSection(r: Race, e: Engine, j: JobId, cs: Callers, groupId: nat, who: bool)
    requires j in e.cache.jobs && Consistent(r, e, j, cs, groupId)
    requires r.Of(who).Ready? || r.Of(who).Stopped? || r.Of(who).Refused?
    ensures Consistent(Advance(r, j, cs, who), e, j, cs, groupId)
  {
    var n := Advance(r, j, cs, who);
    assert n.e == r.e && n.done == r.done && n.Of(!who) == r.Of(!who);
  }

  lemma SectionKeepsConsistent(r: Race, e: Engine, j: JobId, cs: Callers, groupId: nat, who: bool)
    requires j in e.cache.jobs && Consistent(r, e, j, cs, groupId)
    requires r.Of(who).Found? ==> r.Of(who).groupId == groupId
    ensures Consistent(Advance(r, j, cs, who), e, j, cs, groupId)
  {
    match r.Of(who)
    case Found(_) => UnwatchSection(r, e, j, cs, groupId, who);
    case Cleared => EraseSection(r, e, j, cs, groupId, who);
    case Erased => StopSection(r, e, j, cs, groupId, who);
    case _ => IdleSection(r, e, j, cs, groupId, who);
  }

  lemma SecondToRecord(s: seq<bool>, who: bool, groupId: nat)
    requires PhaseAfter(Moves(s, who), TooLate(s, who), groupId) == Erased
    requires PhaseAfter(Moves(s, !who), TooLate(s, !who), groupId) == Stopped
    ensures Precedes(s + [who], !who, 4, 4)
  {
    PrecedesFacts(s, !who, 4, 4);
    PrecedesOneMore(s, who, !who, 4, 4);
  }

  /** The stop that reaches the record second does so after the other one. */
  lemma SectionKeepsOrder(r: Race, e: Engine, j: JobId, cs: Callers, groupId: nat, s: seq<bool>, who: bool)
    requires j in e.cache.jobs && OnTrack(r, e, j, cs, groupId, s)
    ensures
      var done := Advance(r, j, cs, who).done;
      |done| >= 2 ==> Precedes(s + [who], done[0], 4, 4)
  {
    if |r.done| >= 2 {
      PrecedesOneMore(s, who, r.done[0], 4, 4);
    } else if |r.done| == 1 && r.Of(who).Erased? {
      assert r.done[0] in r.done && who !in r.done;
      SecondToRecord(s, who, groupId);
    }
  }

  lemma SectionKeepsTrack(r: Race, n: Race, e: Engine, j: JobId, cs: Callers, groupId: nat, s: seq<bool>, s': seq<bool>,
                          who: bool)
    requires j in e.cache.jobs && OnTrack(r, e, j, cs, groupId, s) && s' == s + [who] && n == Advance(r, j, cs, who)
    ensures OnTrack(n, e, j, cs, groupId, s')
  {
    SectionPhase(r, e, j, cs, groupId, s, who);
    assert r.Of(who) == PhaseAfter(Moves(s, who), TooLate(s, who), groupId);
    SectionKeepsConsistent(r, e, j, cs, groupId, who);
    SectionKeepsOrder(r, e, j, cs, groupId, s, who);
  }

  lemma StartOnTrack(e: Engine, j: JobId, cs: Callers, groupId: nat)
    requires CanStop(e, j, groupId)
    ensures OnTrack(Race(e, Ready, Ready, []), e, j, cs, groupId, [])
  {
  }

  lemma {:induction false} AlwaysOnTrack(e: Engine, j: JobId, cs: Callers, groupId: nat, s: seq<bool>)
    requires CanStop(e, j, groupId)
    ensures OnTrack(Raced(e, j, cs, s), e, j, cs, groupId, s)
  {
    if s == [] {
      StartOnTrack(e, j, cs, groupId);
    } else {
      var init, who := s[..|s| - 1], s[|s| - 1];
      AlwaysOnTrack(e, j, cs, groupId, init);
      SectionKeepsTrack(Raced(e, j, cs, init), Raced(e, j, cs, s), e, j, cs, groupId, init, s, who);
    }
  }

  /** The exact condition on the order of the critical sections. Of two stops of a running job, a
      stop is refused if and only if the other one's erase comes before its lookup; otherwise it goes
      through to the record. */
  lemma StopIsRefusedIff(e: Engine, j: JobId, cs: Callers, groupId: nat, s: seq<bool>, who: bool)
    requires CanStop(e, j, groupId) && Complete(s)
    ensures Raced(e, j, cs, s).Of(who) == if TooLate(s, who) then Refused else Stopped
  {
    AlwaysOnTrack(e, j, cs, groupId, s);
  }

  lemma NotBothLate(s: seq<bool>)
    ensures !(TooLate(s, true) && TooLate(s, false))
  {
    OneOrder(s, true, 3, 1);
    if TooLate(s, false) {
      OrderWidens(s, true, 3, 1, 1, 3);
      OneOrder(s, true, 1, 3);
    }
  }

  lemma ThreeRepeat(done: seq<bool>)
    requires |done| >= 3
    ensures !Distinct(done)
  {
    assert done[0] == done[1] || done[1] == done[2] || done[0] == done[2];
  }

  /** A list of booleans without repetition is one of five. */
  lemma DoneOnce(done: seq<bool>)
    requires Distinct(done)
    ensures done == [] || done == [true] || done == [false] || done == [true, false] || done == [false, true]
  {
    if |done| >= 3 {
      ThreeRepeat(done);
    } else if |done| == 2 {
      assert done[0] != done[1] && done == [done[0], done[1]];
    } else if |done| == 1 {
      assert done[0] ==> done == [true];
      assert !done[0] ==> done == [false];
    }
  }

  /** The order in which the stops reach the record: one of them if the other is late, else both, the
      one whose last section comes first. */
  ghost function StopOrder(s: seq<bool>): seq<bool> {
    if TooLate(s, true) then [false] else if TooLate(s, false) then [true]
    else if Precedes(s, true, 4, 4) then [true, false] else [false, true]
  }

  /** So the record is stopped once if one of the lookups comes after the other's erase, and twice if
      neither does, in the order of the last sections. */
  lemma RecordAfterRace(e: Engine, j: JobId, cs: Callers, groupId: nat, s: seq<bool>)
    requires CanStop(e, j, groupId) && Complete(s)
    ensures
      var jobs := Raced(e, j, cs, s).e.cache.jobs;
      j in jobs && jobs[j] == StoppedBy(e.cache.jobs[j], cs, StopOrder(s))
  {
    AlwaysOnTrack(e, j, cs, groupId, s);
    NotBothLate(s);
    OneOrder(s, true, 4, 4);
    var r := Raced(e, j, cs, s);
    DoneOnce(r.done);
    assert r.done == StopOrder(s);
  }

  /** The two stops in turn, section by section. */
  ghost function InTurn(): seq<bool> {
    [] + [true] + [false] + [true] + [false] + [true] + [false] + [true] + [false]
  }

  lemma InTurnOverlaps()
    ensures Complete(InTurn()) && StopOrder(InTurn()) == [true, false]
    ensures !TooLate(InTurn(), true) && !TooLate(InTurn(), false)
  {
    var s1 := [] + [true];
    var s2 := s1 + [false];
    var s3 := s2 + [true];
    var s4 := s3 + [false];
    var s5 := s4 + [true];
    var s6 := s5 + [false];
    var s7 := s6 + [true];
    OneMoreSection([], true);
    OneMoreSection(s1, false);
    OneMoreSection(s2, true);
    OneMoreSection(s3, false);
    OneMoreSection(s4, true);
    OneMoreSection(s5, false);
    OneMoreSection(s6, true);
    PrecedesFacts(s7, true, 4, 4);
    OneMoreSection(s7, false);
    PrecedesOneMore(s7, false, true, 4, 4);
  }

  /** The interleaved double stop: two stops of a running job that take turns both succeed, and the
      record is stopped twice, the second time from the differences the first stop left. */
  lemma OverlappingStopsBothSucceed(e: Engine, j: JobId, cs: Callers, groupId: nat)
    requires CanStop(e, j, groupId)
    ensures
      var r := Raced(e, j, cs, InTurn());
      && r.first == Stopped && r.second == Stopped && j in r.e.cache.jobs
      && r.e.cache.jobs[j] ==
         StopRecord(StopRecord(e.cache.jobs[j], cs.first.gauges, cs.first.time), cs.second.gauges, cs.second.time)
  {
    InTurnOverlaps();
    StopIsRefusedIff(e, j, cs, groupId, InTurn(), true);
    StopIsRefusedIff(e, j, cs, groupId, InTurn(), false);
    RecordAfterRace(e, j, cs, groupId, InTurn());
    assert [true, false][..1] == [true] && [true][..0] == [];
    assert StoppedBy(e.cache.jobs[j], cs, [true]) == StopRecord(e.cache.jobs[j], cs.first.gauges, cs.first.time);
  }
}
