/** The sample vector of one key: append, evict, read by cursor (`RdcCacheManagerImpl`). */
module SampleCache {
  import opened Common

  /** `RdcCacheEntry`. */
  datatype Sample = Sample(ts: nat, value: int)

  /** Conversion of an unsigned difference to a 32-bit `int`. */
  function ToInt32(x: int): int {
    var m := x % TWO32;
    if m < TWO31 then m else m - TWO32
  }

  /** How many samples `evict_cache` erases from the front for `max_keep_samples`;
      an erase past the end, undefined in C++, is clamped to the size. */
  function RemoveCount(size: nat, maxKeep: nat): nat {
    var n := ToInt32(size - maxKeep);
    if n <= 0 then 0 else Min(n, size)
  }

  predicate Fresh(s: Sample, age: real, now: nat) {
    s.ts as real + age * 1000.0 >= now as real
  }

  /** Drops from the front up to the first sample that has not expired. */
  function DropExpired(xs: seq<Sample>, age: real, now: nat): seq<Sample> {
    if xs == [] || Fresh(xs[0], age, now) then xs else DropExpired(xs[1..], age, now)
  }

  function Evict(xs: seq<Sample>, maxKeep: nat, age: real, now: nat): seq<Sample> {
    DropExpired(xs[RemoveCount(|xs|, maxKeep)..], age, now)
  }

  ghost predicate Sorted(xs: seq<Sample>) {
    forall i, j :: 0 <= i < j < |xs| ==> xs[i].ts <= xs[j].ts
  }

  ghost predicate Strict(xs: seq<Sample>) {
    forall i, j :: 0 <= i < j < |xs| ==> xs[i].ts < xs[j].ts
  }

  ghost predicate IsSuffix(xs: seq<Sample>, ys: seq<Sample>) {
    |xs| <= |ys| && xs == ys[|ys| - |xs|..]
  }

  /** All unexpired samples, in order. */
  ghost function Unexpired(xs: seq<Sample>, age: real, now: nat): seq<Sample> {
    if xs == [] then []
    else (if xs[0].ts as real + age * 1000.0 >= now as real then [xs[0]] else []) + Unexpired(xs[1..], age, now)
  }

  /** The last `n` samples. */
  ghost function Last(xs: seq<Sample>, n: nat): seq<Sample> {
    if |xs| <= n then xs else xs[|xs| - n..]
  }

  /** The difference of size and limit fits an `int`. */
  predicate FitsInt(size: nat, maxKeep: nat) {
    maxKeep < TWO32 && -TWO31 <= size - maxKeep < TWO31
  }

  /** The truncation to `int` erases the right number exactly when the difference fits an `int`;
      for a larger limit it asks to erase more samples than there are. */
  lemma RemoveCountExactIff(size: nat, maxKeep: nat)
    requires 0 < size && maxKeep < TWO32
    ensures RemoveCount(size, maxKeep) == Max(0, size - maxKeep) <==> FitsInt(size, maxKeep)
    ensures size - maxKeep < -TWO31 ==> ToInt32(size - maxKeep) > size
  {
    var d := size - maxKeep;
    if d < 0 {
      assert d % TWO32 == d + TWO32;
    } else if d < TWO32 {
      assert d % TWO32 == d;
    } else {
      assert ToInt32(d) < TWO31;
    }
  }

  lemma {:induction false} DropExpiredSuffix(xs: seq<Sample>, age: real, now: nat)
    ensures IsSuffix(DropExpired(xs, age, now), xs)
  {
    if xs != [] && !Fresh(xs[0], age, now) {
      DropExpiredSuffix(xs[1..], age, now);
    }
  }

  /** Eviction only shortens the vector from the front. */
  lemma EvictSuffix(xs: seq<Sample>, maxKeep: nat, age: real, now: nat)
    ensures IsSuffix(Evict(xs, maxKeep, age, now), xs)
  {
    DropExpiredSuffix(xs[RemoveCount(|xs|, maxKeep)..], age, now);
  }

  lemma {:induction false} AllFreshKept(xs: seq<Sample>, age: real, now: nat)
    requires forall i :: 0 <= i < |xs| ==> Fresh(xs[i], age, now)
    ensures Unexpired(xs, age, now) == xs
  {
    if xs != [] {
      AllFreshKept(xs[1..], age, now);
    }
  }

  lemma {:induction false} DropExpiredFilters(xs: seq<Sample>, age: real, now: nat)
    requires Sorted(xs)
    ensures DropExpired(xs, age, now) == Unexpired(xs, age, now)
  {
    if xs != [] {
      if Fresh(xs[0], age, now) {
        AllFreshKept(xs, age, now);
      } else {
        DropExpiredFilters(xs[1..], age, now);
      }
    }
  }

  lemma EvictFits(xs: seq<Sample>, maxKeep: nat, age: real, now: nat)
    requires FitsInt(|xs|, maxKeep)
    ensures Evict(xs, maxKeep, age, now) == DropExpired(Last(xs, maxKeep), age, now)
  {
    if xs != [] {
      RemoveCountExactIff(|xs|, maxKeep);
    }
    assert xs[RemoveCount(|xs|, maxKeep)..] == Last(xs, maxKeep);
  }

  /** With sorted timestamps eviction keeps exactly the unexpired samples among the last `maxKeep`. */
  lemma EvictKeepsUnexpired(xs: seq<Sample>, maxKeep: nat, age: real, now: nat)
    requires Sorted(xs) && FitsInt(|xs|, maxKeep)
    ensures Evict(xs, maxKeep, age, now) == Unexpired(Last(xs, maxKeep), age, now)
  {
    EvictFits(xs, maxKeep, age, now);
    DropExpiredFilters(Last(xs, maxKeep), age, now);
  }

  lemma {:induction false} DropKeepsFresh(xs: seq<Sample>, age: real, now: nat, i: nat)
    requires i < |xs| && xs[i].ts as real + age * 1000.0 >= now as real
    ensures IsSuffix(xs[i..], DropExpired(xs, age, now))
  {
    if i > 0 && !Fresh(xs[0], age, now) {
      DropKeepsFresh(xs[1..], age, now, i - 1);
      assert xs[i..] == xs[1..][i - 1..];
    }
  }

  /** Sorted or not, a sample among the last `maxKeep` that is at most `age` seconds old survives, and
      so does everything after it. */
  lemma EvictKeepsFresh(xs: seq<Sample>, maxKeep: nat, age: real, now: nat, i: nat)
    requires FitsInt(|xs|, maxKeep) && i < |xs| && |xs| - i <= maxKeep
    requires xs[i].ts as real + age * 1000.0 >= now as real
    ensures IsSuffix(xs[i..], Evict(xs, maxKeep, age, now))
  {
    EvictFits(xs, maxKeep, age, now);
    var kept := Last(xs, maxKeep);
    var j := i - (|xs| - |kept|);
    assert kept[j] == xs[i] && kept[j..] == xs[i..];
    DropKeepsFresh(kept, age, now, j);
  }

  /** A longer age keeps at least as much. */
  lemma {:induction false} DropLessForLongerAge(xs: seq<Sample>, age: real, longer: real, now: nat)
    requires age <= longer
    ensures IsSuffix(DropExpired(xs, age, now), DropExpired(xs, longer, now))
  {
    if xs != [] && !Fresh(xs[0], age, now) {
      DropLessForLongerAge(xs[1..], age, longer, now);
      DropExpiredSuffix(xs[1..], age, now);
    }
  }

  /** Expiry in a longer vector keeps at least as much. */
  lemma {:induction false} DropLessForLongerVector(xs: seq<Sample>, ys: seq<Sample>, age: real, now: nat)
    requires IsSuffix(xs, ys)
    ensures IsSuffix(DropExpired(xs, age, now), DropExpired(ys, age, now))
    decreases |ys|
  {
    if |xs| < |ys| {
      if Fresh(ys[0], age, now) {
        DropExpiredSuffix(xs, age, now);
      } else {
        DropLessForLongerVector(xs, ys[1..], age, now);
      }
    } else {
      assert xs == ys;
    }
  }

  /** Larger limits keep everything smaller ones keep. */
  lemma EvictMonotone(xs: seq<Sample>, maxKeep: nat, more: nat, age: real, longer: real, now: nat)
    requires maxKeep <= more && age <= longer && FitsInt(|xs|, maxKeep) && FitsInt(|xs|, more)
    ensures IsSuffix(Evict(xs, maxKeep, age, now), Evict(xs, more, longer, now))
  {
    EvictFits(xs, maxKeep, age, now);
    EvictFits(xs, more, longer, now);
    DropLessForLongerVector(Last(xs, maxKeep), Last(xs, more), age, now);
    DropLessForLongerAge(Last(xs, more), age, longer, now);
  }

  lemma {:induction false} DropExpiredEmpties(xs: seq<Sample>, age: real, now: nat)
    requires forall i :: 0 <= i < |xs| ==> !Fresh(xs[i], age, now)
    ensures DropExpired(xs, age, now) == []
  {
    if xs != [] {
      DropExpiredEmpties(xs[1..], age, now);
    }
  }

  /** A vector of expired samples is emptied, sorted or not. */
  lemma EvictEmpties(xs: seq<Sample>, maxKeep: nat, age: real, now: nat)
    requires forall i :: 0 <= i < |xs| ==> !Fresh(xs[i], age, now)
    ensures Evict(xs, maxKeep, age, now) == []
  {
    DropExpiredEmpties(xs[RemoveCount(|xs|, maxKeep)..], age, now);
  }

  /** The eviction loop of `evict_cache` on one vector. */
  method EvictVector(xs: seq<Sample>, maxKeep: nat, age: real, now: nat) returns (ys: seq<Sample>)
    ensures ys == Evict(xs, maxKeep, age, now)
  {
    ys := xs;
    var itemRemove := ToInt32(|ys| - maxKeep);
    if itemRemove > 0 {
      ys := ys[Min(itemRemove, |ys|)..];
    }
    while ys != [] && !Fresh(ys[0], age, now)
      invariant DropExpired(ys, age, now) == Evict(xs, maxKeep, age, now)
      decreases |ys|
    {
      ys := ys[1..];
    }
  }

  // ---------------------------------------------------------------------
  // Reading by cursor

  /** The position of the first sample at or after `since`, or the length. */
  function First(xs: seq<Sample>, since: nat): (i: nat)
    ensures i <= |xs|
    ensures forall j :: 0 <= j < i ==> xs[j].ts < since
    ensures i < |xs| ==> xs[i].ts >= since
  {
    if xs == [] || xs[0].ts >= since then 0 else 1 + First(xs[1..], since)
  }

  /** Where the cursor goes after the sample at `i` was returned. */
  function NextCursor(xs: seq<Sample>, i: nat): nat
    requires i < |xs|
  {
    if i + 1 < |xs| then xs[i + 1].ts else xs[i].ts + 1
  }

  /** The linear search of `rdc_field_get_value_since`: the position found, or the length,
      and the cursor handed back. */
  method ReadSince(xs: seq<Sample>, since: nat) returns (i: nat, next: nat)
    ensures i == First(xs, since)
    ensures next == if i < |xs| then NextCursor(xs, i) else since
  {
    i := 0;
    while i < |xs|
      invariant i <= First(xs, since)
    {
      if xs[i].ts >= since {
        return i, NextCursor(xs, i);
      }
      i := i + 1;
    }
    next := since;
  }

  /** In a sorted vector the cursor moves past the sample it returned exactly when the following
      sample does not carry the same timestamp; otherwise the same sample is returned for ever. */
  lemma CursorAdvancesIff(xs: seq<Sample>, since: nat)
    requires Sorted(xs) && First(xs, since) < |xs|
    ensures
      var i := First(xs, since);
      var next := NextCursor(xs, i);
      && ((i + 1 < |xs| ==> xs[i].ts < xs[i + 1].ts) <==> First(xs, next) == i + 1)
      && (First(xs, next) != i + 1 ==> First(xs, next) == i && NextCursor(xs, i) == next)
  {
    var i := First(xs, since);
    var next := NextCursor(xs, i);
    if i < First(xs, next) {
      assert xs[i].ts < next;
    } else {
      assert xs[First(xs, next)].ts >= next >= since;
    }
  }

  /** The samples at or after `since`. */
  ghost function AtOrAfter(xs: seq<Sample>, since: nat): seq<Sample> {
    if xs == [] then [] else (if xs[0].ts >= since then [xs[0]] else []) + AtOrAfter(xs[1..], since)
  }

  lemma {:induction false} AtOrAfterIsTail(xs: seq<Sample>, since: nat)
    requires Sorted(xs)
    ensures AtOrAfter(xs, since) == xs[First(xs, since)..]
  {
    if xs != [] {
      AtOrAfterIsTail(xs[1..], since);
      if xs[0].ts >= since && |xs| > 1 {
        assert xs[1].ts >= since;
      }
    }
  }

  /** In a vector of strictly increasing timestamps each read moves to the next sample. */
  lemma StrictReadAdvances(xs: seq<Sample>, since: nat)
    requires Strict(xs) && First(xs, since) < |xs|
    ensures First(xs, NextCursor(xs, First(xs, since))) == First(xs, since) + 1
    ensures since < NextCursor(xs, First(xs, since))
  {
    assert Sorted(xs);
    CursorAdvancesIff(xs, since);
  }

  lemma DrainedAll(xs: seq<Sample>, since: nat, cursor: nat)
    requires Strict(xs) && First(xs, cursor) == |xs|
    ensures xs[First(xs, since)..|xs|] == AtOrAfter(xs, since) && AtOrAfter(xs, cursor) == []
  {
    assert Sorted(xs);
    AtOrAfterIsTail(xs, since);
    AtOrAfterIsTail(xs, cursor);
  }

  /** A client draining a vector: one read after another until nothing is left. */
  method Drain(xs: seq<Sample>, since: nat) returns (out: seq<Sample>, cursor: nat)
    requires Strict(xs)
    ensures out == AtOrAfter(xs, since)
    ensures cursor >= since && AtOrAfter(xs, cursor) == []
  {
    out, cursor := [], since;
    ghost var first, at := First(xs, since), First(xs, since);
    while true
      invariant since <= cursor && first <= at <= |xs| && at == First(xs, cursor)
      invariant out == xs[first..at]
      decreases |xs| - at
    {
      var i, next := ReadSince(xs, cursor);
      if i == |xs| {
        break;
      }
      StrictReadAdvances(xs, cursor);
      assert xs[first..at] + [xs[at]] == xs[first..at + 1];
      out, cursor, at := out + [xs[i]], next, at + 1;
    }
    DrainedAll(xs, since, cursor);
  }

  // ---------------------------------------------------------------------
  // A reader interleaved with appends and evictions of the same key

  /** The key's accepted history, how much of it has been evicted, and one reader of it. */
  datatype Reader = Reader(history: seq<Sample>, evicted: nat, start: nat, cursor: nat, delivered: seq<Sample>) {
    predicate WellFormed() {
      evicted <= |history|
    }

    function Cached(): seq<Sample>
      requires WellFormed()
    {
      history[evicted..]
    }
  }

  datatype ReaderStep = Append(s: Sample) | EvictStep(maxKeep: nat, age: real, now: nat) | Read

  /** One step of the key or of its reader. */
  function ReaderNext(a: Reader, step: ReaderStep): (b: Reader)
    requires a.WellFormed()
    ensures b.WellFormed()
  {
    match step
    case Append(s) => a.(history := a.history + [s])
    case EvictStep(maxKeep, age, now) =>
      EvictSuffix(a.Cached(), maxKeep, age, now);
      a.(evicted := |a.history| - |Evict(a.Cached(), maxKeep, age, now)|)
    case Read =>
      var i := First(a.Cached(), a.cursor);
      if i == |a.Cached()| then a
      else a.(cursor := NextCursor(a.Cached(), i), delivered := a.delivered + [a.Cached()[i]])
  }

  /** Appended timestamps are strictly increasing. */
  ghost predicate AppendsIncrease(a: Reader, step: ReaderStep) {
    step.Append? && a.history != [] ==> a.history[|a.history| - 1].ts < step.s.ts
  }

  /** The deliveries are history, in strictly increasing order, between start and cursor. */
  ghost predicate InOrder(a: Reader) {
    && Strict(a.delivered)
    && forall d :: d in a.delivered ==> d in a.history && a.start <= d.ts < a.cursor
  }

  /** Every still-cached sample between start and cursor has been delivered. */
  ghost predicate Complete(a: Reader) {
    forall i :: a.evicted <= i < |a.history| && a.start <= a.history[i].ts < a.cursor ==> a.history[i] in a.delivered
  }

  ghost predicate ReaderInv(a: Reader) {
    && a.WellFormed()
    && Strict(a.history)
    && a.start <= a.cursor
    && (a.cursor == a.start || (a.history != [] && a.cursor <= a.history[|a.history| - 1].ts + 1))
    && InOrder(a)
    && Complete(a)
  }

  lemma ReadInOrder(a: Reader, s: Sample, next: nat)
    requires InOrder(a) && a.start <= a.cursor <= s.ts < next && s in a.history
    ensures InOrder(a.(cursor := next, delivered := a.delivered + [s]))
  {
    forall d | d in a.delivered + [s] ensures d in a.history && a.start <= d.ts < next {
      assert d in a.delivered || d == s;
    }
    forall i | 0 <= i < |a.delivered| ensures a.delivered[i].ts < s.ts {
      assert a.delivered[i] in a.delivered;
    }
  }

  lemma ReadComplete(a: Reader, at: nat, next: nat)
    requires Strict(a.history) && Complete(a)
    requires a.evicted <= at < |a.history|
    requires forall i :: a.evicted <= i < at ==> a.history[i].ts < a.cursor
    requires next == NextCursor(a.history, at)
    ensures Complete(a.(cursor := next, delivered := a.delivered + [a.history[at]]))
  {
    var more := a.delivered + [a.history[at]];
    forall i | a.evicted <= i < |a.history| && a.start <= a.history[i].ts < next ensures a.history[i] in more {
      if i == at {
        assert more[|a.delivered|] == a.history[at];
      }
    }
  }

  /** The reader after the sample at `at` of the history was delivered. */
  ghost function DeliveredAt(a: Reader, at: nat): Reader
    requires at < |a.history|
  {
    a.(cursor := NextCursor(a.history, at), delivered := a.delivered + [a.history[at]])
  }

  lemma ReadIsDelivery(a: Reader, at: nat)
    requires a.WellFormed() && at == a.evicted + First(a.Cached(), a.cursor)
    ensures forall i :: a.evicted <= i < at ==> a.history[i].ts < a.cursor
    ensures at < |a.history| ==> a.history[at].ts >= a.cursor
    ensures ReaderNext(a, Read) == if at < |a.history| then DeliveredAt(a, at) else a
  {
    forall i | a.evicted <= i < at ensures a.history[i].ts < a.cursor {
      assert a.history[i] == a.Cached()[i - a.evicted];
    }
  }

  lemma DeliveryKeepsInv(a: Reader, at: nat)
    requires ReaderInv(a) && a.evicted <= at < |a.history| && a.history[at].ts >= a.cursor
    requires forall i :: a.evicted <= i < at ==> a.history[i].ts < a.cursor
    ensures ReaderInv(DeliveredAt(a, at))
  {
    var next := NextCursor(a.history, at);
    assert a.history[at].ts < next <= a.history[|a.history| - 1].ts + 1;
    ReadInOrder(a, a.history[at], next);
    ReadComplete(a, at, next);
  }

  lemma ReadKeepsInv(a: Reader, b: Reader)
    requires ReaderInv(a) && b == ReaderNext(a, Read)
    ensures ReaderInv(b)
  {
    var at := a.evicted + First(a.Cached(), a.cursor);
    ReadIsDelivery(a, at);
    if at < |a.history| {
      DeliveryKeepsInv(a, at);
      assert b == DeliveredAt(a, at);
    }
  }

  lemma EvictKeepsInv(a: Reader, evicted: nat)
    requires ReaderInv(a) && a.evicted <= evicted <= |a.history|
    ensures ReaderInv(a.(evicted := evicted))
  {
  }

  lemma AppendKeepsInv(a: Reader, s: Sample)
    requires ReaderInv(a) && AppendsIncrease(a, Append(s))
    ensures ReaderInv(ReaderNext(a, Append(s)))
  {
    var b := ReaderNext(a, Append(s));
    forall d | d in b.delivered ensures d in b.history {
      assert d in a.history;
    }
  }

  lemma ReaderStepKeepsInv(a: Reader, step: ReaderStep)
    requires ReaderInv(a) && AppendsIncrease(a, step)
    ensures ReaderInv(ReaderNext(a, step))
  {
    match step
    case Append(s) => AppendKeepsInv(a, s);
    case EvictStep(maxKeep, age, now) =>
      EvictSuffix(a.Cached(), maxKeep, age, now);
      EvictKeepsInv(a, ReaderNext(a, step).evicted);
    case Read => ReadKeepsInv(a, ReaderNext(a, step));
  }

  /** A run of the key and its reader. */
  ghost predicate ReaderRun(states: seq<Reader>, steps: seq<ReaderStep>) {
    && |states| == |steps| + 1
    && states[0].history == [] && states[0].evicted == 0
    && states[0].cursor == states[0].start && states[0].delivered == []
    && forall i :: 0 <= i < |steps| ==>
        && states[i].WellFormed() && AppendsIncrease(states[i], steps[i])
        && states[i + 1] == ReaderNext(states[i], steps[i])
  }

  /** Whatever the interleaving, the reader delivers in strictly increasing order, so never
      twice, and has delivered every still-cached sample between its start and its cursor. */
  lemma {:induction false} ReaderDeliversInOrder(states: seq<Reader>, steps: seq<ReaderStep>, n: nat)
    requires ReaderRun(states, steps) && n < |states|
    ensures ReaderInv(states[n])
  {
    if n > 0 {
      ReaderDeliversInOrder(states, steps, n - 1);
      ReaderStepKeepsInv(states[n - 1], steps[n - 1]);
    }
  }

  /** `i` is the oldest still-cached sample at or after the cursor. */
  ghost predicate OldestFrom(a: Reader, i: nat)
    requires a.WellFormed()
  {
    && a.evicted <= i < |a.history| && a.history[i].ts >= a.cursor
    && forall j :: a.evicted <= j < i ==> a.history[j].ts < a.cursor
  }

  lemma OldestIsFirst(a: Reader, i: nat)
    requires a.WellFormed() && OldestFrom(a, i)
    ensures First(a.Cached(), a.cursor) == i - a.evicted
  {
    ReadIsDelivery(a, a.evicted + First(a.Cached(), a.cursor));
  }

  lemma ReadDelivers(a: Reader, i: nat)
    requires ReaderInv(a) && OldestFrom(a, i)
    ensures
      var b := ReaderNext(a, Read);
      && b.delivered == a.delivered + [a.history[i]]
      && a.history[i].ts < b.cursor && (i + 1 < |a.history| ==> b.cursor <= a.history[i + 1].ts)
      && b.history == a.history && b.evicted == a.evicted && b.start == a.start
  {
    OldestIsFirst(a, i);
    ReadIsDelivery(a, i);
  }

  /** A read that finds no still-cached sample at or after the cursor changes nothing. */
  lemma ReadFindsNothing(a: Reader)
    requires a.WellFormed() && forall j :: a.evicted <= j < |a.history| ==> a.history[j].ts < a.cursor
    ensures ReaderNext(a, Read) == a
  {
    ReadIsDelivery(a, a.evicted + First(a.Cached(), a.cursor));
  }

  /** The reader makes progress: a read delivers the oldest still-cached sample at or after the cursor,
      if there is one, and moves the cursor past it but not past the next. */
  lemma ReadProgresses(states: seq<Reader>, steps: seq<ReaderStep>, n: nat, i: nat)
    requires ReaderRun(states, steps) && n < |steps| && steps[n].Read? && OldestFrom(states[n], i)
    ensures
      var a, b := states[n], states[n + 1];
      && b.delivered == a.delivered + [a.history[i]]
      && a.history[i].ts < b.cursor && (i + 1 < |a.history| ==> b.cursor <= a.history[i + 1].ts)
      && b.history == a.history && b.evicted == a.evicted && b.start == a.start
  {
    ReaderDeliversInOrder(states, steps, n);
    ReadDelivers(states[n], i);
  }

  /** What the other steps do to the key: an append is the newest sample of the history, and an
      eviction leaves the history alone and keeps what `Evict` keeps. */
  lemma KeyStepsAreHistory(a: Reader, step: ReaderStep)
    requires a.WellFormed() && !step.Read?
    ensures
      var b := ReaderNext(a, step);
      && b.history == (if step.Append? then a.history + [step.s] else a.history)
      && b.Cached() ==
         (if step.Append? then a.Cached() + [step.s] else Evict(a.Cached(), step.maxKeep, step.age, step.now))
      && b.cursor == a.cursor && b.delivered == a.delivered && b.start == a.start
  {
    if step.EvictStep? {
      EvictSuffix(a.Cached(), step.maxKeep, step.age, step.now);
    }
  }
}
