/** Delivery of fetched values through a callback, 16 at a time
    (`RdcSmiLib` and the rocprofiler telemetry library), and the bulk fetch that precedes it. */
module Batches {
  import opened Common

  const BATCH := 16

  /** A callback answers each batch knowing all the batches it was given, the last one included. */
  type Callback = seq<seq<FieldValue>> -> Status

  ghost function Flatten(batches: seq<seq<FieldValue>>): seq<FieldValue> {
    if batches == [] then [] else Flatten(batches[..|batches| - 1]) + batches[|batches| - 1]
  }

  function Keys(vs: seq<FieldValue>): (ks: seq<FieldKey>)
    ensures |ks| == |vs|
    ensures forall i :: 0 <= i < |vs| ==> ks[i] == vs[i].Key()
  {
    seq(|vs|, i requires 0 <= i < |vs| => vs[i].Key())
  }

  /** One library call: what the bulk fetch returned, what each one-by-one fetch wrote to its
      slot (nothing when it fails before filling it), and the slots' initial contents. */
  datatype Fetches = Fetches(bulk: seq<FieldValue>, fetched: nat -> Option<Reading>, slots: seq<Reading>)

  ghost predicate WellFormed(f: Fetches) {
    |f.slots| == BATCH
  }

  /** What the slot of the i-th one-by-one fetch held before it. */
  ghost function Prior(f: Fetches, i: nat): Reading
    requires WellFormed(f)
    decreases i, 0
  {
    if i < BATCH then f.slots[i] else Content(f, i - BATCH)
  }

  /** What the slot of the i-th one-by-one fetch holds after it. */
  ghost function Content(f: Fetches, i: nat): Reading
    requires WellFormed(f)
    decreases i, 1
  {
    match f.fetched(i)
    case Some(r) => r
    case None => Prior(f, i)
  }

  ghost function Delivered(f: Fetches, rest: seq<FieldKey>): (vs: seq<FieldValue>)
    requires WellFormed(f)
    ensures |vs| == |rest|
  {
    seq(|rest|, i requires 0 <= i < |rest| => FieldValue(rest[i].gpu, Content(f, i)))
  }

  /** The requests the bulk results do not answer, in order. */
  function Rest(fields: seq<FieldKey>, bulk: seq<FieldValue>): seq<FieldKey> {
    if fields == [] then []
    else
      var k := fields[|fields| - 1];
      Rest(fields[..|fields| - 1], bulk) + (if k in Keys(bulk) then [] else [k])
  }

  /** The inner search of the one-by-one loop, for every request. */
  method Remaining(fields: seq<FieldKey>, bulk: seq<FieldValue>) returns (rest: seq<FieldKey>)
    ensures rest == Rest(fields, bulk)
  {
    rest := [];
    for i := 0 to |fields|
      invariant rest == Rest(fields[..i], bulk)
    {
      var isFetched := false;
      for j := 0 to |bulk|
        invariant isFetched <==> fields[i] in Keys(bulk)[..j]
      {
        if bulk[j].Key() == fields[i] {
          isFetched := true;
        }
      }
      assert Keys(bulk)[..|bulk|] == Keys(bulk);
      if !isFetched {
        rest := rest + [fields[i]];
      }
      assert fields[..i + 1][..i] == fields[..i];
    }
    assert fields[..|fields|] == fields;
  }

  /** Every answer from batch `from` on, up to batch `to`, was Ok. */
  ghost predicate Accepted(cb: Callback, batches: seq<seq<FieldValue>>, from: nat, to: nat) {
    to <= |batches| && forall n :: from < n <= to ==> cb(batches[..n]) == Ok
  }

  /** The batches after `from` are nonempty and hold at most 16 values. */
  ghost predicate Small(batches: seq<seq<FieldValue>>, from: nat) {
    forall n :: from <= n < |batches| ==> 0 < |batches[n]| <= 16
  }

  /** `batches` extends `before` with the first `n` of `all`. */
  ghost predicate Sends(all: seq<FieldValue>, before: seq<seq<FieldValue>>, batches: seq<seq<FieldValue>>, n: nat) {
    && n <= |all|
    && |before| <= |batches| && batches[..|before|] == before
    && Small(batches, |before|)
    && Flatten(batches) == Flatten(before) + all[..n]
  }

  lemma SendOne(all: seq<FieldValue>, cb: Callback, before: seq<seq<FieldValue>>, batches: seq<seq<FieldValue>>,
                n: nat, m: nat)
    requires Sends(all, before, batches, n) && n < m <= |all| && m - n <= BATCH
    requires Accepted(cb, batches, |before|, |batches|)
    ensures
      var more := batches + [all[n..m]];
      Sends(all, before, more, m) && Accepted(cb, more, |before|, |batches|)
  {
    var more := batches + [all[n..m]];
    assert more[..|batches|] == batches;
    assert all[..n] + all[n..m] == all[..m];
    assert more[..|before|] == before;
    forall i | |before| < i <= |batches| ensures cb(more[..i]) == Ok {
      assert more[..i] == batches[..i];
    }
  }

  lemma AcceptedAll(cb: Callback, batches: seq<seq<FieldValue>>, from: nat)
    requires batches != [] && Accepted(cb, batches, from, |batches| - 1) && cb(batches) == Ok
    ensures Accepted(cb, batches, from, |batches|)
  {
    assert batches[..|batches|] == batches;
  }

  /** The array holds the values of a batch under way, and below them what earlier batches left. */
  ghost predicate Filled(f: Fetches, rest: seq<FieldKey>, values: seq<FieldValue>, base: nat, count: nat)
    requires WellFormed(f)
  {
    && |values| == BATCH && count <= BATCH && base + count <= |rest|
    && (forall n :: 0 <= n < count ==> values[n] == Delivered(f, rest)[base + n])
    && (forall n :: count <= n < BATCH ==> values[n].reading == Prior(f, base + n))
  }

  /** The array after one fetch: the request's GPU, and the reading if the fetch wrote one. */
  function Slot(values: seq<FieldValue>, count: nat, k: FieldKey, fetched: Option<Reading>): seq<FieldValue>
    requires count < |values|
  {
    values[count := FieldValue(k.gpu, if fetched.Some? then fetched.value else values[count].reading)]
  }

  lemma FillOne(f: Fetches, rest: seq<FieldKey>, values: seq<FieldValue>, base: nat, count: nat)
    requires WellFormed(f) && Filled(f, rest, values, base, count) && count < BATCH && base + count < |rest|
    ensures Filled(f, rest, Slot(values, count, rest[base + count], f.fetched(base + count)), base, count + 1)
  {
  }

  method FillSlot(values: array<FieldValue>, count: nat, k: FieldKey, fetched: Option<Reading>)
    requires count < values.Length
    modifies values
    ensures values[..] == Slot(old(values[..]), count, k, fetched)
  {
    values[count] := FieldValue(k.gpu, values[count].reading);
    if fetched.Some? {
      values[count] := FieldValue(k.gpu, fetched.value);
    }
  }

  lemma FillAnew(f: Fetches, rest: seq<FieldKey>, values: seq<FieldValue>, base: nat)
    requires WellFormed(f) && Filled(f, rest, values, base, BATCH)
    ensures Filled(f, rest, values, base + BATCH, 0)
  {
    forall n | 0 <= n < BATCH ensures values[n].reading == Prior(f, base + BATCH + n) {
      assert values[n] == Delivered(f, rest)[base + n];
    }
  }

  lemma FilledBatch(f: Fetches, rest: seq<FieldKey>, values: seq<FieldValue>, base: nat, count: nat)
    requires WellFormed(f) && Filled(f, rest, values, base, count)
    ensures values[..count] == Delivered(f, rest)[base..base + count]
  {
  }

  /** The batching loop over a reused array of 16 slots; it stops at the first refused batch. */
  method DeliverInBatches(f: Fetches, rest: seq<FieldKey>, cb: Callback, before: seq<seq<FieldValue>>)
    returns (batches: seq<seq<FieldValue>>, st: Status, ghost sent: nat)
    requires WellFormed(f)
    ensures Sends(Delivered(f, rest), before, batches, sent)
    ensures st == Ok ==> sent == |rest| && Accepted(cb, batches, |before|, |batches|)
    ensures st != Ok ==>
      |before| < |batches| && st == cb(batches) && Accepted(cb, batches, |before|, |batches| - 1)
  {
    var values := new FieldValue[BATCH](n requires 0 <= n < BATCH => FieldValue(0, f.slots[n]));
    var bulkCount := 0;
    ghost var all := Delivered(f, rest);
    sent := 0;
    batches := before;
    for i := 0 to |rest|
      invariant i == sent + bulkCount
      invariant Filled(f, rest, values[..], sent, bulkCount)
      invariant Sends(all, before, batches, sent)
      invariant Accepted(cb, batches, |before|, |batches|)
    {
      if bulkCount >= BATCH {
        FilledBatch(f, rest, values[..], sent, bulkCount);
        FillAnew(f, rest, values[..], sent);
        SendOne(all, cb, before, batches, sent, sent + bulkCount);
        batches := batches + [values[..][..bulkCount]];
        sent := sent + BATCH;
        st := cb(batches);
        if st != Ok {
          return;
        }
        AcceptedAll(cb, batches, |before|);
        bulkCount := 0;
      }
      FillOne(f, rest, values[..], sent, bulkCount);
      FillSlot(values, bulkCount, rest[i], f.fetched(i));
      bulkCount := bulkCount + 1;
    }
    st := Ok;
    if bulkCount != 0 {
      FilledBatch(f, rest, values[..], sent, bulkCount);
      SendOne(all, cb, before, batches, sent, |rest|);
      batches := batches + [values[..][..bulkCount]];
      sent := |rest|;
      st := cb(batches);
      if st == Ok {
        AcceptedAll(cb, batches, |before|);
      }
    }
  }

  /** What a library owes its callback: the bulk results, then the rest one by one. */
  ghost function Expected(f: Fetches, fields: seq<FieldKey>): seq<FieldValue>
    requires WellFormed(f)
  {
    f.bulk + Delivered(f, Rest(fields, f.bulk))
  }

  /** The batches from the first one-by-one batch on. */
  function FirstSmall(f: Fetches): nat {
    if f.bulk == [] then 0 else 1
  }

  /** `RdcSmiLib::rdc_telemetry_fields_value_get`, against any callback: what was handed over is a
      prefix of what is owed, all of it when no batch is refused, in batches of at most 16 after
      the bulk one; a refusal stops the delivery and is returned. */
  method SmiValueGet(f: Fetches, fields: seq<FieldKey>, cb: Callback)
    returns (batches: seq<seq<FieldValue>>, st: Status)
    requires WellFormed(f)
    ensures Flatten(batches) <= Expected(f, fields)
    ensures st == Ok ==> Flatten(batches) == Expected(f, fields) && Accepted(cb, batches, 0, |batches|)
    ensures st != Ok ==> batches != [] && st == cb(batches) && Accepted(cb, batches, 0, |batches| - 1)
    ensures Small(batches, FirstSmall(f))
  {
    var before := [];
    if |f.bulk| > 0 {
      before := [f.bulk];
      assert before[..0] == [] && before[..1] == before;
      st := cb(before);
      if st != Ok {
        return before, st;
      }
    }
    assert Flatten(before) == f.bulk;
    var rest := Remaining(fields, f.bulk);
    ghost var sent;
    batches, st, sent := DeliverInBatches(f, rest, cb, before);
    ghost var all := Delivered(f, rest);
    assert f.bulk + all == (f.bulk + all[..sent]) + all[sent..];
    assert sent == |rest| ==> all[..sent] == all;
    assert |before| == 1 ==> batches[..1] == before;
  }

  ghost function Readings(lookup: nat -> (Status, int), now: nat, fields: seq<FieldKey>): seq<FieldValue> {
    seq(|fields|, i requires 0 <= i < |fields| =>
      FieldValue(fields[i].gpu, Reading(fields[i].field, lookup(i).0, now, lookup(i).1)))
  }

  lemma ReadingsKeys(lookup: nat -> (Status, int), now: nat, fields: seq<FieldKey>)
    ensures Keys(Readings(lookup, now, fields)) == fields
  {
    forall i | 0 <= i < |fields| ensures Keys(Readings(lookup, now, fields))[i] == fields[i] {
      assert Readings(lookup, now, fields)[i].Key() == fields[i];
    }
  }

  /** The rocprofiler library: the same loop without a bulk fetch; each lookup always fills its
      slot, with the requested field. Without requests the initial status is returned. */
  method RocpValueGet(lookup: nat -> (Status, int), now: nat, slots: seq<Reading>, fields: seq<FieldKey>, cb: Callback)
    returns (batches: seq<seq<FieldValue>>, st: Status)
    requires |slots| == BATCH
    ensures Flatten(batches) <= Readings(lookup, now, fields)
    ensures st == Ok ==> Flatten(batches) == Readings(lookup, now, fields) && Accepted(cb, batches, 0, |batches|)
    ensures fields == [] ==> batches == [] && st == OtherError
    ensures st != Ok && fields != [] ==> batches != [] && st == cb(batches) && Accepted(cb, batches, 0, |batches| - 1)
    ensures Small(batches, 0)
  {
    var fetched := (i: nat) =>
      if i < |fields| then Some(Reading(fields[i].field, lookup(i).0, now, lookup(i).1)) else None;
    var f := Fetches([], fetched, slots);
    ghost var sent;
    batches, st, sent := DeliverInBatches(f, fields, cb, []);
    assert Delivered(f, fields) == Readings(lookup, now, fields);
    assert sent == |fields| ==> Delivered(f, fields)[..sent] == Delivered(f, fields);
    if fields == [] {
      st := OtherError;
    }
  }

  // ---------------------------------------------------------------------
  // Exactly once

  /** Every one-by-one fetch writes its slot, under the field it was asked for. */
  ghost predicate Fills(f: Fetches, rest: seq<FieldKey>) {
    forall i :: 0 <= i < |rest| ==> f.fetched(i).Some? && f.fetched(i).value.field == rest[i].field
  }

  /** The bulk results answer requests, none twice. */
  ghost predicate AnswersOnce(bulk: seq<FieldValue>, fields: seq<FieldKey>) {
    Distinct(Keys(bulk)) && forall k :: k in Keys(bulk) ==> k in fields
  }

  lemma {:induction false} DistinctCount(ks: seq<FieldKey>, k: FieldKey)
    requires Distinct(ks)
    ensures multiset(ks)[k] == if k in ks then 1 else 0
  {
    if ks != [] {
      var init, last := ks[..|ks| - 1], ks[|ks| - 1];
      DistinctCount(init, k);
      assert ks == init + [last];
    }
  }

  lemma {:induction false} RestCount(fields: seq<FieldKey>, bulk: seq<FieldValue>, k: FieldKey)
    ensures multiset(Rest(fields, bulk))[k] == if k in Keys(bulk) then 0 else multiset(fields)[k]
  {
    if fields != [] {
      var init, last := fields[..|fields| - 1], fields[|fields| - 1];
      RestCount(init, bulk, k);
      assert fields == init + [last];
    }
  }

  /** Whatever subset the bulk call answered, its answers and the rest are the requests, each once. */
  lemma BulkAndRest(fields: seq<FieldKey>, bulk: seq<FieldValue>)
    requires Distinct(fields) && AnswersOnce(bulk, fields)
    ensures multiset(Keys(bulk) + Rest(fields, bulk)) == multiset(fields)
  {
    forall k ensures multiset(Keys(bulk) + Rest(fields, bulk))[k] == multiset(fields)[k] {
      RestCount(fields, bulk, k);
      DistinctCount(fields, k);
      DistinctCount(Keys(bulk), k);
    }
  }

  /** Exactly-once delivery: what is owed for a request list of distinct keys holds each requested
      key exactly once and nothing else. */
  lemma ExactlyOnce(f: Fetches, fields: seq<FieldKey>)
    requires WellFormed(f) && Distinct(fields) && AnswersOnce(f.bulk, fields) && Fills(f, Rest(fields, f.bulk))
    ensures multiset(Keys(Expected(f, fields))) == multiset(fields)
  {
    var rest := Rest(fields, f.bulk);
    assert Keys(Delivered(f, rest)) == rest;
    assert Keys(Expected(f, fields)) == Keys(f.bulk) + rest;
    BulkAndRest(fields, f.bulk);
  }

  // ---------------------------------------------------------------------
  // When a fetch does not write its slot

  /** The last request at or before the i-th, in the same slot, whose fetch wrote it. */
  ghost function Writer(f: Fetches, i: nat): (w: Option<nat>)
    ensures w.Some? ==> w.value <= i && f.fetched(w.value).Some?
  {
    if f.fetched(i).Some? then Some(i) else if i < BATCH then None else Writer(f, i - BATCH)
  }

  lemma SameSlot(i: nat, n: nat)
    requires i >= BATCH && n <= i && n % BATCH == i % BATCH
    ensures n == i || n <= i - BATCH
    ensures (i - BATCH) % BATCH == i % BATCH
  {
  }

  /** `Writer` is what it says: the greatest index of the slot, up to `i`, whose fetch wrote. */
  lemma {:induction false} WriterIsLast(f: Fetches, i: nat)
    ensures match Writer(f, i)
      case None => forall n :: 0 <= n <= i && n % BATCH == i % BATCH ==> f.fetched(n).None?
      case Some(w) =>
        && w <= i && w % BATCH == i % BATCH && f.fetched(w).Some?
        && forall n :: w < n <= i && n % BATCH == i % BATCH ==> f.fetched(n).None?
  {
    if f.fetched(i).None? && i >= BATCH {
      WriterIsLast(f, i - BATCH);
      forall n: nat | n <= i && n % BATCH == i % BATCH ensures n == i || n <= i - BATCH {
        SameSlot(i, n);
      }
      SameSlot(i, i);
    }
  }

  /** A slot holds what its last writer left, or else what the array was born with. */
  lemma {:induction false} SlotHoldsLastWrite(f: Fetches, i: nat)
    requires WellFormed(f)
    ensures Content(f, i) == match Writer(f, i)
      case None => f.slots[i % BATCH]
      case Some(w) => f.fetched(w).value
  {
    if f.fetched(i).None? && i >= BATCH {
      SlotHoldsLastWrite(f, i - BATCH);
      SameSlot(i, i);
      WriterIsLast(f, i - BATCH);
    }
  }

  /** A fetch that writes its slot writes the field it was asked for. */
  ghost predicate WritesOwnField(f: Fetches, rest: seq<FieldKey>) {
    forall i :: 0 <= i < |rest| && f.fetched(i).Some? ==> f.fetched(i).value.field == rest[i].field
  }

  /** The field the slot of the i-th request is delivered under. */
  ghost function FieldInSlot(f: Fetches, rest: seq<FieldKey>, i: nat): nat
    requires WellFormed(f) && i < |rest|
  {
    match Writer(f, i)
    case None => f.slots[i % BATCH].field
    case Some(w) => rest[w].field
  }

  /** The general law of the reused array: a request is delivered under its own key exactly when
      the last request that wrote its slot asked for the same field. */
  lemma OwnKeyIff(f: Fetches, rest: seq<FieldKey>, i: nat)
    requires WellFormed(f) && WritesOwnField(f, rest) && i < |rest|
    ensures Keys(Delivered(f, rest))[i] == FieldKey(rest[i].gpu, FieldInSlot(f, rest, i))
    ensures Keys(Delivered(f, rest))[i] == rest[i] <==> FieldInSlot(f, rest, i) == rest[i].field
  {
    SlotHoldsLastWrite(f, i);
    WriterIsLast(f, i);
  }

  /** So every request is delivered under its own key exactly when this holds of every slot. */
  lemma AllOwnKeysIff(f: Fetches, rest: seq<FieldKey>)
    requires WellFormed(f) && WritesOwnField(f, rest)
    ensures Keys(Delivered(f, rest)) == rest <==>
            forall i :: 0 <= i < |rest| ==> FieldInSlot(f, rest, i) == rest[i].field
  {
    forall i | 0 <= i < |rest|
      ensures Keys(Delivered(f, rest))[i] == rest[i] <==> FieldInSlot(f, rest, i) == rest[i].field
    {
      OwnKeyIff(f, rest, i);
    }
  }

  /** `Fills` is needed: after 16 good fetches, one that fails before writing its slot is reported
      under the field of 16 requests earlier, and its own key is never delivered. */
  lemma StaleSlot(slots: seq<Reading>)
    requires |slots| == BATCH
    ensures
      var fields := seq(17, i requires 0 <= i < 17 => FieldKey(0, i));
      var f := Fetches([], (i: nat) => if i < 16 then Some(Reading(i, Ok, 0, 0)) else None, slots);
      && Distinct(fields)
      && Keys(Delivered(f, fields))[16] == FieldKey(0, 0)
      && FieldKey(0, 16) !in Keys(Delivered(f, fields))
  {
    var fields := seq(17, i requires 0 <= i < 17 => FieldKey(0, i));
    var f := Fetches([], (i: nat) => if i < 16 then Some(Reading(i, Ok, 0, 0)) else None, slots);
    forall i | 0 <= i < 17 ensures Keys(Delivered(f, fields))[i] == FieldKey(0, if i < 16 then i else 0) {
      OwnKeyIff(f, fields, i);
    }
  }
}
