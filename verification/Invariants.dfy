/** What every step of the engine keeps. */
module Invariants {
  import opened Common
  import opened Telemetry
  import opened Engine

  // ---------------------------------------------------------------------
  // The field index agrees with the settings deduced from the watch table

  /** A field key is marked watching exactly when some active watch covers it and telemetry
      supports it, and its frequency is then the minimum over those watches. An unwatch leaves
      notification fields alone, so for them only one direction holds. */
  ghost predicate KeyAgrees(qs: Queries, gs: Groups, ws: Watches, fs: Fields, k: FieldKey) {
    && (k in fs ==> Supports(qs, k.field))
    && (Supports(qs, k.field) && Wanted(ws, gs, k) ==> Watching(fs, k))
    && (Watching(fs, k) && !IsNotification(k.field) ==> LeastFreq(ws, gs, k, fs[k].updateFreq))
  }

  /** Every active watch that covers the key gets at least the retention it asked for. */
  ghost predicate Retained(qs: Queries, gs: Groups, ws: Watches, fs: Fields, k: FieldKey) {
    forall g :: Asks(ws, gs, g, k) && Supports(qs, k.field) ==>
      k in fs && ws[g].maxKeepAge <= fs[k].maxKeepAge && ws[g].maxKeepSamples <= fs[k].maxKeepSamples
  }

  ghost predicate Agrees(qs: Queries, gs: Groups, ws: Watches, fs: Fields, k: FieldKey) {
    KeyAgrees(qs, gs, ws, fs, k) && Retained(qs, gs, ws, fs, k)
  }

  ghost predicate FieldAgrees(e: Engine, k: FieldKey) {
    Agrees(e.queries, e.groups, e.watches, e.fields, k)
  }

  ghost predicate IndexAgrees(e: Engine) {
    forall k :: FieldAgrees(e, k)
  }

  /** The groups active watches name exist, and the ids in the watch table were all issued. */
  ghost predicate WatchesNamed(e: Engine) {
    && GroupSettings.WithinLimits(e.groups)
    && GroupSettings.IdsIssued(e.groups)
    && (forall g :: Active(e.watches, g) ==> Named(e.groups, g))
    && (forall g :: g in e.watches ==> g.gpuGroup < e.groups.nextGpu && g.fieldGroup < e.groups.nextField)
  }

  lemma SupportedKeys(qs: Queries, gs: Groups, g: GroupKey)
    requires Named(gs, g)
    ensures forall k :: k in Supported(qs, gs, g) <==> Covers(gs, g, k) && Supports(qs, k.field)
  {
    CrossContents(gs.gpus[g.gpuGroup], gs.fields[g.fieldGroup]);
  }

  /** The active watches of `ws'` are those of `ws` and `g`. */
  lemma WatchKeyAgrees(qs: Queries, gs: Groups, ws: Watches, fs: Fields, g: GroupKey, f: Settings, k: FieldKey)
    requires !Active(ws, g) && Named(gs, g) && f.isWatching
    requires KeyAgrees(qs, gs, ws, fs, k) && Retained(qs, gs, ws, fs, k)
    ensures
      var ws', fs' := ws[g := f], Merged(fs, Supported(qs, gs, g), f);
      KeyAgrees(qs, gs, ws', fs', k) && Retained(qs, gs, ws', fs', k)
  {
    var ws', fs' := ws[g := f], Merged(fs, Supported(qs, gs, g), f);
    SupportedKeys(qs, gs, g);
    assert forall h :: h != g ==> (Asks(ws', gs, h, k) <==> Asks(ws, gs, h, k));
    assert Asks(ws', gs, g, k) <==> Covers(gs, g, k);
    if Watching(fs', k) && !IsNotification(k.field) {
      if Watching(fs, k) {
        var h :| Asks(ws, gs, h, k) && ws[h].updateFreq == fs[k].updateFreq;
        assert Asks(ws', gs, h, k);
      } else {
        assert Supports(qs, k.field) ==> !Wanted(ws, gs, k);
      }
    }
  }

  /** A watch that succeeds grants what it was asked for. */
  lemma WatchGrants(e: Engine, g: GroupKey, freq: nat, age: real, samples: nat, granted: set<FieldKey>)
    requires WatchStatus(e, g) == Ok
    ensures Granted(e, WatchStep(e, g, NewWatch(freq, age, samples), granted), g, freq, age, samples)
  {
    SupportedKeys(e.queries, e.groups, g);
  }

  /** The index keeps agreeing while the active watches, what they cover and their settings stay. */
  lemma SameAskers(qs: Queries, gs: Groups, gs': Groups, ws: Watches, ws': Watches, fs: Fields, k: FieldKey)
    requires forall g :: Asks(ws', gs', g, k) <==> Asks(ws, gs, g, k)
    requires forall g :: Asks(ws, gs, g, k) ==> g in ws' && ws'[g] == ws[g]
    ensures KeyAgrees(qs, gs, ws, fs, k) <==> KeyAgrees(qs, gs', ws', fs, k)
    ensures Retained(qs, gs, ws, fs, k) <==> Retained(qs, gs', ws', fs, k)
  {
    assert Wanted(ws, gs, k) <==> Wanted(ws', gs', k);
  }

  lemma WatchKeepsIndex(e: Engine, g: GroupKey, f: Settings, granted: set<FieldKey>)
    requires IndexAgrees(e) && f.isWatching
    ensures IndexAgrees(WatchStep(e, g, f, granted))
  {
    var n := WatchStep(e, g, f, granted);
    forall k ensures FieldAgrees(n, k) {
      assert FieldAgrees(e, k);
      if !Active(e.watches, g) && Named(e.groups, g) {
        WatchKeyAgrees(e.queries, e.groups, e.watches, e.fields, g, f, k);
      } else {
        SameAskers(e.queries, e.groups, e.groups, e.watches, n.watches, e.fields, k);
      }
    }
  }

  /** An unwatch clears the mark only of keys no active watch covers any more, and otherwise
      recomputes the minimum. */
  lemma UnwatchKeyAgrees(qs: Queries, gs: Groups, ws: Watches, fs: Fields, g: GroupKey, now: nat, k: FieldKey)
    requires g in ws && KeyAgrees(qs, gs, ws, fs, k) && Retained(qs, gs, ws, fs, k)
    ensures
      var ws' := Deactivated(ws, g, now);
      var fs' := Unwatched(ws', gs, fs, g);
      KeyAgrees(qs, gs, ws', fs', k) && Retained(qs, gs, ws', fs', k)
  {
    var ws' := Deactivated(ws, g, now);
    var fs' := Unwatched(ws', gs, fs, g);
    assert forall h :: Asks(ws', gs, h, k) <==> h != g && Asks(ws, gs, h, k);
    if Wanted(ws', gs, k) {
      assert Wanted(ws, gs, k);
    }
    if !Covers(gs, g, k) {
      SameAskers(qs, gs, gs, ws, ws', fs, k);
    }
  }

  lemma UnwatchKeepsIndex(e: Engine, g: GroupKey, now: nat)
    requires IndexAgrees(e) && WatchesNamed(e)
    ensures IndexAgrees(UnwatchStep(e, g, now))
  {
    var n := UnwatchStep(e, g, now);
    forall k ensures FieldAgrees(n, k) {
      assert FieldAgrees(e, k);
      if g in e.watches {
        if Readable(n.watches, e.groups, g) {
          UnwatchKeyAgrees(e.queries, e.groups, e.watches, e.fields, g, now, k);
        } else {
          SameAskers(e.queries, e.groups, e.groups, e.watches, n.watches, e.fields, k);
        }
      }
    }
  }

  /** The index only differs in when its fields were last updated. */
  ghost predicate OnlyStamped(fs: Fields, fs': Fields) {
    fs.Keys == fs'.Keys && forall k :: k in fs ==> fs'[k] == fs[k].(lastUpdateTime := fs'[k].lastUpdateTime)
  }

  lemma {:induction false} HandleOnlyStamps(e: Engine, ds: seq<Delivery>)
    ensures
      var n := HandleAll(e, ds);
      && OnlyStamped(e.fields, n.fields)
      && n == e.(fields := n.fields, cache := n.cache, clock := n.clock)
  {
    if ds != [] {
      HandleOnlyStamps(e, ds[..|ds| - 1]);
    }
  }

  lemma StampKeepsIndex(e: Engine, n: Engine)
    requires IndexAgrees(e) && OnlyStamped(e.fields, n.fields)
    requires n.queries == e.queries && n.groups == e.groups && n.watches == e.watches
    ensures IndexAgrees(n)
  {
    forall k ensures FieldAgrees(n, k) {
      assert FieldAgrees(e, k);
    }
  }

  lemma CleanKeepsIndex(e: Engine, at: nat, evictAt: FieldKey -> nat)
    requires IndexAgrees(e)
    ensures IndexAgrees(CleanStep(e, at, evictAt))
  {
    var n := CleanStep(e, at, evictAt);
    forall k ensures FieldAgrees(n, k) {
      assert FieldAgrees(e, k);
      SameAskers(e.queries, e.groups, e.groups, e.watches, n.watches, e.fields, k);
      assert Watching(n.fields, k) <==> Watching(e.fields, k);
    }
  }

  /** Short of a wrap, creating a group never changes what an entry of the watch table covers,
      active or left over; nor does any stable operation, for an active one. */
  lemma GroupOpKeepsCovers(e: Engine, op: GroupSettings.GroupOp, g: GroupKey, k: FieldKey)
    requires WatchesNamed(e) && GroupSettings.NoWrap(e.groups, op) && g in e.watches
    requires op.CreateGpus? || op.CreateFields? || (Active(e.watches, g) && Stable(e.watches, op))
    ensures Covers(GroupSettings.Apply(e.groups, op), g, k) <==> Covers(e.groups, g, k)
    ensures Named(GroupSettings.Apply(e.groups, op), g) <==> Named(e.groups, g)
  {
  }

  lemma GroupOpKeepsIndex(e: Engine, op: GroupSettings.GroupOp)
    requires IndexAgrees(e) && WatchesNamed(e) && GroupSettings.NoWrap(e.groups, op) && Stable(e.watches, op)
    ensures IndexAgrees(e.(groups := GroupSettings.Apply(e.groups, op)))
  {
    var gs := GroupSettings.Apply(e.groups, op);
    forall k ensures FieldAgrees(e.(groups := gs), k) {
      assert FieldAgrees(e, k);
      forall g ensures Asks(e.watches, gs, g, k) <==> Asks(e.watches, e.groups, g, k) {
        if Active(e.watches, g) {
          GroupOpKeepsCovers(e, op, g, k);
        }
      }
      SameAskers(e.queries, e.groups, gs, e.watches, e.watches, e.fields, k);
    }
  }

  lemma GroupOpKeepsNames(e: Engine, op: GroupSettings.GroupOp)
    requires WatchesNamed(e) && GroupSettings.NoWrap(e.groups, op) && Stable(e.watches, op)
    ensures WatchesNamed(e.(groups := GroupSettings.Apply(e.groups, op)))
  {
    GroupSettings.ApplyWithinLimits(e.groups, op);
    GroupSettings.ApplyIdsIssued(e.groups, op);
    forall g | Active(e.watches, g) ensures Named(GroupSettings.Apply(e.groups, op), g) {
      GroupOpKeepsCovers(e, op, g, FieldKey(0, 0));
    }
  }

  lemma SameIndex(e: Engine, n: Engine)
    requires IndexAgrees(e)
    requires n.queries == e.queries && n.groups == e.groups && n.watches == e.watches && n.fields == e.fields
    ensures IndexAgrees(n)
  {
    forall k ensures FieldAgrees(n, k) {
      assert FieldAgrees(e, k);
    }
  }

  lemma UpdateKeepsIndex(e: Engine, now: nat, ds: seq<Delivery>, cleanAt: nat, evictAt: FieldKey -> nat)
    requires IndexAgrees(e) && WatchesNamed(e)
    ensures
      var n := UpdateStep(e, now, ds, cleanAt, evictAt);
      IndexAgrees(n) && WatchesNamed(n)
  {
    var h := HandleAll(e, ds);
    HandleOnlyStamps(e, ds);
    StampKeepsIndex(e, h);
    if CleanupDue(now, e.lastCleanup) {
      CleanKeepsIndex(h, cleanAt, evictAt);
      SameIndex(CleanStep(h, cleanAt, evictAt), UpdateStep(e, now, ds, cleanAt, evictAt));
    } else {
      SameIndex(h, UpdateStep(e, now, ds, cleanAt, evictAt));
    }
  }

  /** The deliveries a notification step amounts to. */
  ghost function Events(events: seq<FieldValue>): seq<Delivery> {
    seq(|events|, i requires 0 <= i < |events| => Delivery(events[i], events[i].reading.ts))
  }

  lemma NotifyKeepsIndex(e: Engine, events: seq<FieldValue>)
    requires IndexAgrees(e) && WatchesNamed(e)
    ensures IndexAgrees(NotifyStep(e, events)) && WatchesNamed(NotifyStep(e, events))
  {
    HandleOnlyStamps(e, Events(events));
    assert NotifyStep(e, events) == HandleAll(e, Events(events)).(clock := e.clock);
    StampKeepsIndex(e, NotifyStep(e, events));
  }

  lemma WatchKeepsNames(e: Engine, g: GroupKey, f: Settings, granted: set<FieldKey>)
    requires WatchesNamed(e)
    ensures WatchesNamed(WatchStep(e, g, f, granted))
  {
  }

  lemma UnwatchKeepsNames(e: Engine, g: GroupKey, now: nat)
    requires WatchesNamed(e)
    ensures WatchesNamed(UnwatchStep(e, g, now))
  {
    var n := UnwatchStep(e, g, now);
    assert forall h :: Active(n.watches, h) ==> Active(e.watches, h);
  }

  /** Every step keeps the index in agreement and the active watches' groups in existence. */
  lemma StepKeepsIndex(e: Engine, s: Step)
    requires IndexAgrees(e) && WatchesNamed(e) && Enabled(e, s)
    ensures IndexAgrees(Next(e, s)) && WatchesNamed(Next(e, s))
  {
    match s
    case GroupChange(op) =>
      GroupOpKeepsIndex(e, op);
      GroupOpKeepsNames(e, op);
    case Watch(g, freq, age, samples, granted) =>
      WatchKeepsIndex(e, g, NewWatch(freq, age, samples), granted);
      WatchKeepsNames(e, g, NewWatch(freq, age, samples), granted);
    case Unwatch(g, now) =>
      UnwatchKeepsIndex(e, g, now);
      UnwatchKeepsNames(e, g, now);
    case Update(now, ds, cleanAt, evictAt) => UpdateKeepsIndex(e, now, ds, cleanAt, evictAt);
    case Notify(events) => NotifyKeepsIndex(e, events);
    case _ => SameIndex(e, Next(e, s));
  }

  lemma InitialIndex(qs: Queries)
    ensures IndexAgrees(Initial(qs)) && WatchesNamed(Initial(qs))
  {
    GroupSettings.InitialWithinLimits();
  }

  lemma QueriesConstant(e: Engine, s: Step)
    ensures Next(e, s).queries == e.queries
  {
    match s
    case Update(now, ds, cleanAt, evictAt) => HandleOnlyStamps(e, ds);
    case Notify(events) => HandleOnlyStamps(e, Events(events));
    case _ =>
  }

  /** In every run that does not change or destroy a group while an active watch names it, the
      field index agrees with the settings deduced from the watch table, retention included. */
  lemma {:induction false} IndexAlwaysAgrees(qs: Queries, states: seq<Engine>, steps: seq<Step>, n: nat)
    requires IsRun(qs, states, steps) && n < |states|
    ensures IndexAgrees(states[n]) && WatchesNamed(states[n]) && states[n].queries == qs
  {
    if n == 0 {
      InitialIndex(qs);
    } else {
      IndexAlwaysAgrees(qs, states, steps, n - 1);
      assert StepAt(states, steps, n - 1) && Enabled(states[n - 1], steps[n - 1]);
      StepKeepsIndex(states[n - 1], steps[n - 1]);
      QueriesConstant(states[n - 1], steps[n - 1]);
    }
  }

  // ---------------------------------------------------------------------
  // The hypothesis on groups is needed

  /** Some active watch asks for the key, at least as often as `freq`. */
  ghost predicate AskedWithin(ws: Watches, gs: Groups, k: FieldKey, freq: nat) {
    exists h :: Asks(ws, gs, h, k) && ws[h].updateFreq <= freq
  }

  /** Every watch that asks for the key through `gs` is matched by one that asks at least as often
      through `gs'`. */
  ghost predicate Matched(ws: Watches, gs: Groups, gs': Groups, k: FieldKey) {
    forall g {:trigger AskedWithin(ws, gs', k, ws[g].updateFreq)} ::
      Asks(ws, gs, g, k) ==> AskedWithin(ws, gs', k, ws[g].updateFreq)
  }

  /** The index gives the key as often, and keeps it as long, as the watch asks. */
  ghost predicate Serves(fs: Fields, k: FieldKey, w: Settings) {
    && Watching(fs, k)
    && (IsNotification(k.field) || fs[k].updateFreq <= w.updateFreq)
    && w.maxKeepAge <= fs[k].maxKeepAge && w.maxKeepSamples <= fs[k].maxKeepSamples
  }

  /** Every watch that asks for the key through `gs'` but did not through `gs` is served. */
  ghost predicate NewlyServed(ws: Watches, gs: Groups, gs': Groups, fs: Fields, k: FieldKey) {
    forall g :: Asks(ws, gs', g, k) && !Asks(ws, gs, g, k) ==> Serves(fs, k, ws[g])
  }

  lemma AgreeingAskersServed(qs: Queries, gs: Groups, gs': Groups, ws: Watches, fs: Fields, k: FieldKey)
    requires Agrees(qs, gs, ws, fs, k) && Agrees(qs, gs', ws, fs, k) && Supports(qs, k.field)
    ensures !IsNotification(k.field) ==> Matched(ws, gs, gs', k)
    ensures NewlyServed(ws, gs, gs', fs, k)
  {
    if !IsNotification(k.field) {
      forall g | Asks(ws, gs, g, k) ensures AskedWithin(ws, gs', k, ws[g].updateFreq) {
        assert Wanted(ws, gs, k) && Watching(fs, k);
        var h :| Asks(ws, gs', h, k) && ws[h].updateFreq == fs[k].updateFreq;
      }
    }
    forall g | Asks(ws, gs', g, k) ensures Serves(fs, k, ws[g]) {
      assert Wanted(ws, gs', k);
    }
  }

  lemma ServedAskersAgree(qs: Queries, gs: Groups, gs': Groups, ws: Watches, fs: Fields, k: FieldKey)
    requires Agrees(qs, gs, ws, fs, k) && Supports(qs, k.field)
    requires !IsNotification(k.field) ==> Matched(ws, gs, gs', k)
    requires NewlyServed(ws, gs, gs', fs, k)
    ensures Agrees(qs, gs', ws, fs, k)
  {
    forall g | Asks(ws, gs', g, k) ensures Serves(fs, k, ws[g]) {
      if Asks(ws, gs, g, k) {
        assert Wanted(ws, gs, k);
      }
    }
    if Watching(fs, k) && !IsNotification(k.field) {
      var g :| Asks(ws, gs, g, k) && ws[g].updateFreq == fs[k].updateFreq;
      assert AskedWithin(ws, gs', k, ws[g].updateFreq);
      var h :| Asks(ws, gs', h, k) && ws[h].updateFreq <= ws[g].updateFreq;
      assert Serves(fs, k, ws[h]);
    }
  }

  /** Whatever happens to the groups, an agreeing key still agrees exactly when every watch that asked
      for it is matched by one that still does, and the index already serves those that newly do. */
  lemma RegroupKeepsAgreementIff(qs: Queries, gs: Groups, gs': Groups, ws: Watches, fs: Fields, k: FieldKey)
    requires Agrees(qs, gs, ws, fs, k)
    ensures
      Agrees(qs, gs', ws, fs, k) <==>
      (Supports(qs, k.field) ==>
        (!IsNotification(k.field) ==> Matched(ws, gs, gs', k)) && NewlyServed(ws, gs, gs', fs, k))
  {
    if Supports(qs, k.field) {
      if Agrees(qs, gs', ws, fs, k) {
        AgreeingAskersServed(qs, gs, gs', ws, fs, k);
      } else if (!IsNotification(k.field) ==> Matched(ws, gs, gs', k)) && NewlyServed(ws, gs, gs', fs, k) {
        ServedAskersAgree(qs, gs, gs', ws, fs, k);
      }
    }
  }

  /** Destroying a GPU group in an agreeing state keeps the agreement exactly when every supported
      telemetry key an active watch covers through that group is also covered, at least as often, by
      an active watch on another group. Retention and notification keys never suffer. */
  lemma DestroyKeepsAgreementIff(qs: Queries, gs: Groups, ws: Watches, fs: Fields, id: nat, k: FieldKey)
    requires Agrees(qs, gs, ws, fs, k)
    ensures
      Agrees(qs, GroupSettings.Apply(gs, GroupSettings.DestroyGpus(id)), ws, fs, k) <==>
      (Supports(qs, k.field) && !IsNotification(k.field) ==>
        forall g :: Asks(ws, gs, g, k) && g.gpuGroup == id ==>
          exists h :: Asks(ws, gs, h, k) && h.gpuGroup != id && ws[h].updateFreq <= ws[g].updateFreq)
  {
    var gs' := GroupSettings.Apply(gs, GroupSettings.DestroyGpus(id));
    assert forall g :: Asks(ws, gs', g, k) <==> Asks(ws, gs, g, k) && g.gpuGroup != id;
    RegroupKeepsAgreementIff(qs, gs, gs', ws, fs, k);
  }

  /** The same for a field group; the job field group is never destroyed. */
  lemma DestroyFieldsKeepsAgreementIff(qs: Queries, gs: Groups, ws: Watches, fs: Fields, id: nat, k: FieldKey)
    requires Agrees(qs, gs, ws, fs, k)
    ensures
      Agrees(qs, GroupSettings.Apply(gs, GroupSettings.DestroyFields(id)), ws, fs, k) <==>
      (Supports(qs, k.field) && !IsNotification(k.field) && id != GroupSettings.JOB_FIELD_GROUP ==>
        forall g :: Asks(ws, gs, g, k) && g.fieldGroup == id ==>
          exists h :: Asks(ws, gs, h, k) && h.fieldGroup != id && ws[h].updateFreq <= ws[g].updateFreq)
  {
    if id != GroupSettings.JOB_FIELD_GROUP {
      var gs' := GroupSettings.Apply(gs, GroupSettings.DestroyFields(id));
      assert forall g :: Asks(ws, gs', g, k) <==> Asks(ws, gs, g, k) && g.fieldGroup != id;
      RegroupKeepsAgreementIff(qs, gs, gs', ws, fs, k);
    }
  }

  /** The watch comes to cover the key because the GPU joins its group. */
  ghost predicate Joins(gs: Groups, ws: Watches, id: nat, gpu: nat, g: GroupKey, k: FieldKey) {
    && GroupSettings.Apply(gs, GroupSettings.AddGpu(id, gpu)) != gs
    && Active(ws, g) && g.gpuGroup == id && k.gpu == gpu
    && g.fieldGroup in gs.fields && k.field in gs.fields[g.fieldGroup]
  }

  lemma AddGpuAskers(gs: Groups, ws: Watches, id: nat, gpu: nat, g: GroupKey, k: FieldKey)
    ensures
      Asks(ws, GroupSettings.Apply(gs, GroupSettings.AddGpu(id, gpu)), g, k) <==>
      Asks(ws, gs, g, k) || Joins(gs, ws, id, gpu, g, k)
  {
    var gs' := GroupSettings.Apply(gs, GroupSettings.AddGpu(id, gpu));
    if gs' != gs {
      assert gs'.gpus[id] == gs.gpus[id] + [gpu];
    }
  }

  /** Adding a GPU to a group in an agreeing state keeps the agreement exactly when the index already
      serves every watch that comes to cover a supported key: marked, at least as often, and kept at
      least as long. */
  lemma AddGpuKeepsAgreementIff(qs: Queries, gs: Groups, ws: Watches, fs: Fields, id: nat, gpu: nat, k: FieldKey)
    requires Agrees(qs, gs, ws, fs, k)
    ensures
      Agrees(qs, GroupSettings.Apply(gs, GroupSettings.AddGpu(id, gpu)), ws, fs, k) <==>
      (Supports(qs, k.field) ==> forall g :: Joins(gs, ws, id, gpu, g, k) ==> Serves(fs, k, ws[g]))
  {
    var gs' := GroupSettings.Apply(gs, GroupSettings.AddGpu(id, gpu));
    forall g ensures Asks(ws, gs', g, k) <==> Asks(ws, gs, g, k) || Joins(gs, ws, id, gpu, g, k) {
      AddGpuAskers(gs, ws, id, gpu, g, k);
    }
    forall g | Joins(gs, ws, id, gpu, g, k) ensures !Asks(ws, gs, g, k) {
      assert gpu !in gs.gpus[id];
    }
    assert Matched(ws, gs, gs', k);
    RegroupKeepsAgreementIff(qs, gs, gs', ws, fs, k);
  }

  // ---------------------------------------------------------------------
  // When an unwatch clears a mark

  /** Every active watch but `g` has its groups. */
  ghost predicate OthersNamed(e: Engine, g: GroupKey) {
    forall w :: w != g && Active(e.watches, w) ==> Named(e.groups, w)
  }

  /** An unwatch succeeds exactly when its entry and both its groups exist and no other active watch
      has lost a group. */
  lemma UnwatchSucceedsIff(e: Engine, g: GroupKey, now: nat)
    ensures UnwatchStatus(e, g, now) == Ok <==> g in e.watches && Named(e.groups, g) && OthersNamed(e, g)
  {
    if g in e.watches {
      var ws := Deactivated(e.watches, g, now);
      assert forall w :: Active(ws, w) <==> w != g && Active(e.watches, w);
    }
  }

  /** One active watch whose group is gone makes the unwatch of every other watch fail, and leaves
      the fields of that one marked as they were; its own unwatch fails too. */
  lemma LostGroupBlocksUnwatch(e: Engine, lost: GroupKey, g: GroupKey, now: nat)
    requires Active(e.watches, lost) && !Named(e.groups, lost)
    ensures
      var n := UnwatchStep(e, g, now);
      UnwatchStatus(e, g, now) == NotFound && n.fields == e.fields && !Active(n.watches, g)
  {
    UnwatchSucceedsIff(e, g, now);
  }

  /** The unwatch of `g` is what clears the mark of the key: it covers the key, no other active watch
      does, and every other active watch has its groups. */
  ghost predicate Clears(e: Engine, g: GroupKey, k: FieldKey) {
    && g in e.watches && Covers(e.groups, g, k) && !IsNotification(k.field)
    && (forall h :: Asks(e.watches, e.groups, h, k) ==> h == g)
    && OthersNamed(e, g)
  }

  lemma UnwatchClearsMarkIff(e: Engine, g: GroupKey, now: nat, k: FieldKey)
    requires Watching(e.fields, k)
    ensures !Watching(UnwatchStep(e, g, now).fields, k) <==> Clears(e, g, k)
  {
    UnwatchSucceedsIff(e, g, now);
    if g in e.watches {
      var ws := Deactivated(e.watches, g, now);
      assert forall h :: Asks(ws, e.groups, h, k) <==> h != g && Asks(e.watches, e.groups, h, k);
      assert Wanted(ws, e.groups, k) <==> exists h :: h != g && Asks(e.watches, e.groups, h, k);
    }
  }

  /** One GPU in group 1 and one field in field group 1, made in three operations. */
  ghost function SmallGroups(): Groups {
    var g1 := GroupSettings.Apply(GroupSettings.INITIAL, GroupSettings.CreateGpus);
    var g2 := GroupSettings.Apply(g1, GroupSettings.AddGpu(1, 7));
    GroupSettings.Apply(g2, GroupSettings.CreateFields([GPU_CLOCK]))
  }

  lemma SmallGroupsContents()
    ensures SmallGroups().gpus == map[1 := [7]]
    ensures 1 in SmallGroups().fields && SmallGroups().fields[1] == [GPU_CLOCK]
  {
    var g1 := GroupSettings.Apply(GroupSettings.INITIAL, GroupSettings.CreateGpus);
    assert g1.gpus == map[1 := []];
    var g2 := GroupSettings.Apply(g1, GroupSettings.AddGpu(1, 7));
    assert g2.gpus == map[1 := [] + [7]] && [] + [7] == [7];
    assert g2.fields == GroupSettings.INITIAL.fields && |GroupSettings.INITIAL.fields| == 1;
  }

  /** An engine in which those groups are watched. */
  ghost function SmallWatched(): Engine {
    Next(Initial([Some([GPU_CLOCK])]).(groups := SmallGroups()), Watch(GroupKey(1, 1), 1000, 0.0, 0, {}))
  }

  lemma SmallWatchedContents()
    ensures
      var e := SmallWatched();
      && e.groups == SmallGroups() && Active(e.watches, GroupKey(1, 1))
      && Supports(e.queries, GPU_CLOCK)
      && (forall k :: Watching(e.fields, k) <==> k == FieldKey(7, GPU_CLOCK))
  {
    var e := Initial([Some([GPU_CLOCK])]).(groups := SmallGroups());
    SmallGroupsContents();
    assert Supports(e.queries, GPU_CLOCK) by {
      assert Lists(e.queries[0], GPU_CLOCK);
    }
    SupportedKeys(e.queries, e.groups, GroupKey(1, 1));
  }

  lemma LastGroupDestroyed(e: Engine, id: nat, k: FieldKey)
    requires e.groups.gpus.Keys == {id} && Watching(e.fields, k) && !IsNotification(k.field)
    ensures !IndexAgrees(Next(e, GroupChange(GroupSettings.DestroyGpus(id))))
  {
    var gs := GroupSettings.Apply(e.groups, GroupSettings.DestroyGpus(id));
    assert gs.gpus.Keys == {};
    assert !FieldAgrees(e.(groups := gs), k);
  }

  /** A watch on those groups, then the destruction of its group, breaks the agreement. */
  lemma DestroyBreaksAgreement()
    ensures
      var destroyed := Next(SmallWatched(), GroupChange(GroupSettings.DestroyGpus(1)));
      Watching(destroyed.fields, FieldKey(7, GPU_CLOCK)) && !IndexAgrees(destroyed)
  {
    SmallWatchedContents();
    SmallGroupsContents();
    LastGroupDestroyed(SmallWatched(), 1, FieldKey(7, GPU_CLOCK));
  }

  /** So does the addition of a GPU: the watch covers it, and its field is not marked. */
  lemma AddGpuBreaksAgreement()
    ensures
      var added := Next(SmallWatched(), GroupChange(GroupSettings.AddGpu(1, 8)));
      && Asks(added.watches, added.groups, GroupKey(1, 1), FieldKey(8, GPU_CLOCK))
      && !Watching(added.fields, FieldKey(8, GPU_CLOCK)) && !IndexAgrees(added)
  {
    SmallWatchedContents();
    SmallGroupsContents();
    var e := SmallWatched();
    AddGpuAskers(e.groups, e.watches, 1, 8, GroupKey(1, 1), FieldKey(8, GPU_CLOCK));
    var added := Next(e, GroupChange(GroupSettings.AddGpu(1, 8)));
    assert added.groups != e.groups by {
      assert |added.groups.gpus[1]| == 2;
    }
    assert Wanted(added.watches, added.groups, FieldKey(8, GPU_CLOCK));
    assert !FieldAgrees(added, FieldKey(8, GPU_CLOCK));
  }

  /** GPU 7 in group 1, GPU 8 in group 2, and one field in field group 1. */
  ghost function TwoGroups(): Groups {
    var g := GroupSettings.Apply(SmallGroups(), GroupSettings.CreateGpus);
    GroupSettings.Apply(g, GroupSettings.AddGpu(2, 8))
  }

  lemma TwoGroupsContents()
    ensures TwoGroups().gpus == map[1 := [7], 2 := [8]]
    ensures 1 in TwoGroups().fields && TwoGroups().fields[1] == [GPU_CLOCK]
  {
    SmallGroupsContents();
    assert SmallGroups().nextGpu == 2;
    var g := GroupSettings.Apply(SmallGroups(), GroupSettings.CreateGpus);
    assert g.gpus == map[1 := [7], 2 := []];
    assert [] + [8] == [8];
  }

  /** Both groups watched equally often, the first for 100 samples and a minute, the second for 10
      samples and a second. */
  ghost function TwoWatched(): Engine {
    var e := Initial([Some([GPU_CLOCK])]).(groups := TwoGroups());
    Next(Next(e, Watch(GroupKey(1, 1), 1000, 60.0, 100, {})), Watch(GroupKey(2, 1), 1000, 1.0, 10, {}))
  }

  lemma TwoWatchedAgrees()
    ensures IndexAgrees(TwoWatched())
  {
    var e := Initial([Some([GPU_CLOCK])]).(groups := TwoGroups());
    assert IndexAgrees(e);
    WatchKeepsIndex(e, GroupKey(1, 1), NewWatch(1000, 60.0, 100), {});
    WatchKeepsIndex(Next(e, Watch(GroupKey(1, 1), 1000, 60.0, 100, {})), GroupKey(2, 1), NewWatch(1000, 1.0, 10), {});
  }

  /** What a first watch does to a key not in the index. */
  lemma FirstWatch(e: Engine, g: GroupKey, freq: nat, age: real, samples: nat, k: FieldKey)
    requires !Active(e.watches, g) && Named(e.groups, g) && k !in e.fields
    ensures
      var n, f := Next(e, Watch(g, freq, age, samples, {})), NewWatch(freq, age, samples);
      && n.groups == e.groups && n.queries == e.queries && n.watches == e.watches[g := f]
      && (k in n.fields <==> Covers(e.groups, g, k) && Supports(e.queries, k.field))
      && (k in n.fields ==> n.fields[k] == f)
  {
    SupportedKeys(e.queries, e.groups, g);
  }

  lemma WatchBoth(e: Engine, g: GroupKey, h: GroupKey, k: FieldKey)
    requires e.watches == map[] && k !in e.fields && g != h && Named(e.groups, g) && Named(e.groups, h)
    requires !Covers(e.groups, g, k) && Covers(e.groups, h, k) && Supports(e.queries, k.field)
    ensures
      var n := Next(Next(e, Watch(g, 1000, 60.0, 100, {})), Watch(h, 1000, 1.0, 10, {}));
      && n.groups == e.groups && n.queries == e.queries
      && g in n.watches && n.watches[g] == NewWatch(1000, 60.0, 100)
      && (forall w :: w in n.watches ==> n.watches[w].updateFreq == 1000)
      && k in n.fields && n.fields[k] == NewWatch(1000, 1.0, 10)
  {
    FirstWatch(e, g, 1000, 60.0, 100, k);
    FirstWatch(Next(e, Watch(g, 1000, 60.0, 100, {})), h, 1000, 1.0, 10, k);
  }

  lemma TwoWatchedContents()
    ensures
      var e, k := TwoWatched(), FieldKey(8, GPU_CLOCK);
      && e.groups == TwoGroups() && Supports(e.queries, GPU_CLOCK)
      && GroupKey(1, 1) in e.watches && e.watches[GroupKey(1, 1)] == NewWatch(1000, 60.0, 100)
      && (forall g :: g in e.watches ==> e.watches[g].updateFreq == 1000)
      && k in e.fields && e.fields[k] == NewWatch(1000, 1.0, 10)
  {
    var e := Initial([Some([GPU_CLOCK])]).(groups := TwoGroups());
    TwoGroupsContents();
    assert Supports(e.queries, GPU_CLOCK) by {
      assert Lists(e.queries[0], GPU_CLOCK);
    }
    WatchBoth(e, GroupKey(1, 1), GroupKey(2, 1), FieldKey(8, GPU_CLOCK));
  }

  /** A GPU joins a watch whose frequency the index meets and whose retention it does not. */
  lemma JoinLosesRetention(qs: Queries, gs: Groups, ws: Watches, fs: Fields, id: nat, gpu: nat, g: GroupKey,
                           k: FieldKey)
    requires Agrees(qs, gs, ws, fs, k) && Supports(qs, k.field) && Watching(fs, k) && Joins(gs, ws, id, gpu, g, k)
    requires forall h :: Active(ws, h) ==> fs[k].updateFreq <= ws[h].updateFreq
    requires fs[k].maxKeepSamples < ws[g].maxKeepSamples
    ensures
      var gs' := GroupSettings.Apply(gs, GroupSettings.AddGpu(id, gpu));
      KeyAgrees(qs, gs', ws, fs, k) && !Retained(qs, gs', ws, fs, k)
  {
    var gs' := GroupSettings.Apply(gs, GroupSettings.AddGpu(id, gpu));
    forall h ensures Asks(ws, gs', h, k) <==> Asks(ws, gs, h, k) || Joins(gs, ws, id, gpu, h, k) {
      AddGpuAskers(gs, ws, id, gpu, h, k);
    }
  }

  /** Marks and frequencies alone are not enough: the GPU that joins the first group is marked and as
      frequent as the watch asks, but kept for less than it asks. */
  lemma AddGpuLosesRetention()
    ensures
      var e, k := TwoWatched(), FieldKey(8, GPU_CLOCK);
      var added := Next(e, GroupChange(GroupSettings.AddGpu(1, 8)));
      && IndexAgrees(e)
      && KeyAgrees(added.queries, added.groups, added.watches, added.fields, k)
      && !Retained(added.queries, added.groups, added.watches, added.fields, k)
  {
    var e, g, k := TwoWatched(), GroupKey(1, 1), FieldKey(8, GPU_CLOCK);
    TwoWatchedAgrees();
    TwoWatchedContents();
    TwoGroupsContents();
    assert FieldAgrees(e, k);
    assert Joins(e.groups, e.watches, 1, 8, g, k) by {
      assert GroupSettings.Apply(e.groups, GroupSettings.AddGpu(1, 8)).gpus[1] == [7] + [8];
      assert |[7] + [8]| == 2;
    }
    JoinLosesRetention(e.queries, e.groups, e.watches, e.fields, 1, 8, g, k);
  }
}
