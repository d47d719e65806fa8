/** The telemetry module (`RdcTelemetryModule`): which library serves a field, the dispatch of a
    request to the libraries, and the event counters the SMI library keeps open. */
module Telemetry {
  import opened Common
  import opened Batches
  import BulkFetch

  /** What each library's field query answered at start-up: nothing when it failed. */
  type Queries = seq<Option<seq<nat>>>

  /** The SMI library is inserted first. */
  const SMI := 0

  predicate Lists(q: Option<seq<nat>>, field: nat) {
    q.Some? && field in q.value
  }

  /** The first library, from position `i` on, whose successful query listed the field. */
  function RouteFrom(qs: Queries, field: nat, i: nat): Option<nat>
    requires i <= |qs|
    decreases |qs| - i
  {
    if i == |qs| then None else if Lists(qs[i], field) then Some(i) else RouteFrom(qs, field, i + 1)
  }

  function Route(qs: Queries, field: nat): Option<nat> {
    RouteFrom(qs, field, 0)
  }

  /** `rdc_telemetry_fields_query`: a field is supported when some query listed it. */
  predicate Supports(qs: Queries, field: nat) {
    exists i :: 0 <= i < |qs| && Lists(qs[i], field)
  }

  lemma {:induction false} RouteFromFirst(qs: Queries, field: nat, i: nat)
    requires i <= |qs|
    ensures match RouteFrom(qs, field, i)
      case None => forall n :: i <= n < |qs| ==> !Lists(qs[n], field)
      case Some(m) => i <= m < |qs| && Lists(qs[m], field) && forall n :: i <= n < m ==> !Lists(qs[n], field)
    decreases |qs| - i
  {
    if i < |qs| && !Lists(qs[i], field) {
      RouteFromFirst(qs, field, i + 1);
    }
  }

  /** A field is served by the first library that listed it; a library whose query failed serves
      none; a field is served exactly when it is supported. */
  lemma RouteFirst(qs: Queries, field: nat)
    ensures Route(qs, field).Some? <==> Supports(qs, field)
    ensures forall m :: Route(qs, field) == Some(m) <==>
      0 <= m < |qs| && Lists(qs[m], field) && forall n :: 0 <= n < m ==> !Lists(qs[n], field)
  {
    RouteFromFirst(qs, field, 0);
  }

  /** The requests served by `m`, or by no library, in order. */
  function Served(qs: Queries, fields: seq<FieldKey>, m: Option<nat>): seq<FieldKey> {
    if fields == [] then []
    else
      var k := fields[|fields| - 1];
      Served(qs, fields[..|fields| - 1], m) + (if Route(qs, k.field) == m then [k] else [])
  }

  lemma {:induction false} ServedCount(qs: Queries, fields: seq<FieldKey>, m: Option<nat>, k: FieldKey)
    ensures multiset(Served(qs, fields, m))[k] == if Route(qs, k.field) == m then multiset(fields)[k] else 0
  {
    if fields != [] {
      var init, last := fields[..|fields| - 1], fields[|fields| - 1];
      assert fields == init + [last];
      ServedCount(qs, init, m, k);
    }
  }

  lemma {:induction false} ServedDistinct(qs: Queries, fields: seq<FieldKey>, m: Option<nat>)
    ensures forall k :: k in Served(qs, fields, m) <==> k in fields && Route(qs, k.field) == m
    ensures Distinct(fields) ==> Distinct(Served(qs, fields, m))
  {
    if fields != [] {
      var init, last := fields[..|fields| - 1], fields[|fields| - 1];
      assert fields == init + [last];
      ServedDistinct(qs, init, m);
    }
  }

  /** `first`, then the first `m` parts. */
  ghost function Joined(first: seq<FieldKey>, part: nat -> seq<FieldKey>, m: nat): seq<FieldKey> {
    if m == 0 then first else Joined(first, part, m - 1) + part(m - 1)
  }

  /** What the first `m` libraries are handed, after the requests no library serves. */
  ghost function HandedOut(qs: Queries, fields: seq<FieldKey>, m: nat): seq<FieldKey> {
    Joined(Served(qs, fields, None), (i: nat) => Served(qs, fields, Some(i)), m)
  }

  lemma CountConcat(a: seq<FieldKey>, b: seq<FieldKey>, k: FieldKey)
    ensures multiset(a + b)[k] == multiset(a)[k] + multiset(b)[k]
  {
  }

  /** How many of `n` requests routed to `r` are among those handed to the first `m` libraries. */
  function Share(r: Option<nat>, m: nat, n: nat): nat {
    if r.None? || r.value < m then n else 0
  }

  lemma {:induction false} JoinedCount(first: seq<FieldKey>, part: nat -> seq<FieldKey>, m: nat, k: FieldKey,
                                       r: Option<nat>, n: nat)
    requires multiset(first)[k] == if r == None then n else 0
    requires forall i: nat :: multiset(part(i))[k] == if r == Some(i) then n else 0
    ensures multiset(Joined(first, part, m))[k] == Share(r, m, n)
  {
    if m > 0 {
      JoinedCount(first, part, m - 1, k, r, n);
      CountConcat(Joined(first, part, m - 1), part(m - 1), k);
    }
  }

  lemma HandedOutCount(qs: Queries, fields: seq<FieldKey>, m: nat, k: FieldKey)
    ensures multiset(HandedOut(qs, fields, m))[k] == Share(Route(qs, k.field), m, multiset(fields)[k])
  {
    var part := (i: nat) => Served(qs, fields, Some(i));
    forall i: nat ensures multiset(part(i))[k] == if Route(qs, k.field) == Some(i) then multiset(fields)[k] else 0 {
      ServedCount(qs, fields, Some(i), k);
    }
    ServedCount(qs, fields, None, k);
    JoinedCount(Served(qs, fields, None), part, m, k, Route(qs, k.field), multiset(fields)[k]);
  }

  /** Dispatch conserves requests, repeated ones included: what the libraries and the unsupported
      list are handed is as a multiset what was requested, and a library whose query failed is
      handed nothing. */
  lemma DispatchConserves(qs: Queries, fields: seq<FieldKey>)
    ensures multiset(HandedOut(qs, fields, |qs|)) == multiset(fields)
    ensures forall m :: 0 <= m < |qs| && qs[m].None? ==> Served(qs, fields, Some(m)) == []
  {
    forall k: FieldKey ensures multiset(HandedOut(qs, fields, |qs|))[k] == multiset(fields)[k] {
      HandedOutCount(qs, fields, |qs|, k);
      RouteFirst(qs, k.field);
    }
    forall m | 0 <= m < |qs| && qs[m].None? ensures Served(qs, fields, Some(m)) == [] {
      ServedDistinct(qs, fields, Some(m));
      if Served(qs, fields, Some(m)) != [] {
        var k := Served(qs, fields, Some(m))[0];
        RouteFirst(qs, k.field);
      }
    }
  }

  /** The answer given for a request no library serves. */
  function Unsupported(k: FieldKey): FieldValue {
    FieldValue(k.gpu, Reading(k.field, NotSupported, 0, 0))
  }

  // ---------------------------------------------------------------------
  // What the libraries are given

  /** A loaded library and what its hardware answers in one call: the SMI library with its bulk and
      one-by-one fetches (which may write nothing), or the rocprofiler library; `slots` is what the
      library's array of 16 holds before it is used. */
  datatype Library =
    | SmiLibrary(bulkEnabled: bool, metrics: nat -> Option<BulkFetch.GpuMetrics>,
                 fetch: (nat, FieldKey) -> Option<Reading>, slots: seq<Reading>)
    | RocpLibrary(lookup: (nat, FieldKey) -> (Status, int), slots: seq<Reading>)

  /** Every one-by-one fetch of the requests writes its slot, under the field it was asked for. A
      rocprofiler lookup always does. */
  ghost predicate FillsSlots(lib: Library, mine: seq<FieldKey>) {
    lib.SmiLibrary? ==>
      forall i: nat, k :: k in mine ==> lib.fetch(i, k).Some? && lib.fetch(i, k).value.field == k.field
  }

  ghost predicate AllFill(qs: Queries, fields: seq<FieldKey>, libs: nat -> Library) {
    forall m :: FillsSlots(libs(m), Served(qs, fields, Some(m)))
  }

  /** The one-by-one fetches of an SMI call, after the bulk results. */
  function SmiFetches(lib: Library, rest: seq<FieldKey>, bulk: seq<FieldValue>): Fetches
    requires lib.SmiLibrary?
  {
    var fetch := lib.fetch;
    Fetches(bulk, (i: nat) => if i < |rest| then fetch(i, rest[i]) else None, lib.slots)
  }

  /** The one-by-one values: for each request its GPU, and the reading fetched for it if there is one. */
  ghost predicate FetchedEach(lib: Library, rest: seq<FieldKey>, vs: seq<FieldValue>)
    requires lib.SmiLibrary?
  {
    && |vs| == |rest|
    && forall i :: 0 <= i < |vs| ==>
        && vs[i].gpu == rest[i].gpu
        && (lib.fetch(i, rest[i]).Some? ==> vs[i].reading == lib.fetch(i, rest[i]).value)
  }

  /** The bulk call is made if it is enabled and was never refused, and then answers what
      `BulkAnswers` says. */
  ghost predicate FromBulk(lib: Library, mine: seq<FieldKey>, now: nat, failed: bool, bulk: seq<FieldValue>)
    requires lib.SmiLibrary?
  {
    && (bulk != [] ==> lib.bulkEnabled)
    && (bulk != [] || (lib.bulkEnabled && !failed) ==> BulkFetch.BulkAnswers(mine, lib.metrics, now, bulk))
  }

  /** The values of an SMI call are the bulk results and then one for each request they do not answer. */
  ghost predicate FromSmi(lib: Library, mine: seq<FieldKey>, now: nat, failed: bool, bulk: seq<FieldValue>,
                          vs: seq<FieldValue>)
    requires lib.SmiLibrary? && |lib.slots| == BATCH
  {
    && FromBulk(lib, mine, now, failed, bulk)
    && |bulk| <= |vs| && vs[..|bulk|] == bulk
    && FetchedEach(lib, Rest(mine, bulk), vs[|bulk|..])
    && vs == Expected(SmiFetches(lib, Rest(mine, bulk), bulk), mine)
  }

  function LookupAt(lib: Library, mine: seq<FieldKey>): nat -> (Status, int)
    requires lib.RocpLibrary?
  {
    var lookup := lib.lookup;
    (i: nat) => if i < |mine| then lookup(i, mine[i]) else (OtherError, 0)
  }

  /** The values of a rocprofiler call: for each request, in order, its lookup under its own key. */
  ghost predicate FromRocp(lib: Library, mine: seq<FieldKey>, now: nat, vs: seq<FieldValue>)
    requires lib.RocpLibrary?
  {
    && |vs| == |mine|
    && forall i :: 0 <= i < |vs| ==>
        && vs[i].gpu == mine[i].gpu && vs[i].reading.field == mine[i].field && vs[i].reading.ts == now
        && vs[i].reading.status == lib.lookup(i, mine[i]).0 && vs[i].reading.value == lib.lookup(i, mine[i]).1
  }

  /** Where the values of a library call come from. */
  ghost predicate FromLibrary(lib: Library, mine: seq<FieldKey>, now: nat, failed: bool, bulk: seq<FieldValue>,
                              vs: seq<FieldValue>)
    requires |lib.slots| == BATCH
  {
    if lib.SmiLibrary? then FromSmi(lib, mine, now, failed, bulk, vs) else FromRocp(lib, mine, now, vs)
  }

  lemma ExpectedIsFetched(lib: Library, mine: seq<FieldKey>, bulk: seq<FieldValue>)
    requires lib.SmiLibrary? && |lib.slots| == BATCH
    ensures
      var rest, vs := Rest(mine, bulk), Expected(SmiFetches(lib, Rest(mine, bulk), bulk), mine);
      |bulk| <= |vs| && vs[..|bulk|] == bulk && FetchedEach(lib, rest, vs[|bulk|..])
  {
    var rest := Rest(mine, bulk);
    var f := SmiFetches(lib, rest, bulk);
    var vs := Expected(f, mine);
    assert vs[|bulk|..] == Delivered(f, rest);
    forall i | 0 <= i < |rest| && lib.fetch(i, rest[i]).Some?
      ensures Delivered(f, rest)[i].reading == lib.fetch(i, rest[i]).value
    {
      assert f.fetched(i) == lib.fetch(i, rest[i]);
    }
  }

  // ---------------------------------------------------------------------
  // What the libraries answer together

  /** What one library was asked for and gave. */
  datatype LibAnswer = LibAnswer(lib: nat, bulk: seq<FieldValue>, values: seq<FieldValue>)

  ghost function ValuesOf(parts: seq<LibAnswer>): seq<FieldValue> {
    if parts == [] then [] else ValuesOf(parts[..|parts| - 1]) + parts[|parts| - 1].values
  }

  /** Each part is the answer of a library to the requests it serves. */
  ghost predicate FromParts(qs: Queries, fields: seq<FieldKey>, libs: nat -> Library, now: nat, failed: bool,
                            parts: seq<LibAnswer>)
    requires forall m :: |libs(m).slots| == BATCH
  {
    forall p :: p in parts ==>
      FromLibrary(libs(p.lib), Served(qs, fields, Some(p.lib)), now, failed, p.bulk, p.values)
  }

  ghost function LibsOf(parts: seq<LibAnswer>): set<nat> {
    set p | p in parts :: p.lib
  }

  /** What the libraries in `done` have given so far. */
  ghost predicate Gathered(qs: Queries, fields: seq<FieldKey>, libs: nat -> Library, now: nat, failed: bool,
                           parts: seq<LibAnswer>, done: set<nat>, vs: seq<FieldValue>)
    requires forall m :: |libs(m).slots| == BATCH
  {
    FromParts(qs, fields, libs, now, failed, parts) && LibsOf(parts) == done && vs == ValuesOf(parts)
  }

  lemma OneLess(all: set<nat>, left: set<nat>, m: nat)
    requires m in left && left <= all
    ensures (all - left) + {m} == all - (left - {m})
  {
  }

  lemma GatherNone(qs: Queries, fields: seq<FieldKey>, libs: nat -> Library, now: nat, failed: bool)
    requires forall m :: |libs(m).slots| == BATCH
    ensures Gathered(qs, fields, libs, now, failed, [], {}, [])
  {
  }

  lemma GatherOneMore(qs: Queries, fields: seq<FieldKey>, libs: nat -> Library, now: nat, failed: bool, later: bool,
                      parts: seq<LibAnswer>, done: set<nat>, vs: seq<FieldValue>, p: LibAnswer)
    requires (forall m :: |libs(m).slots| == BATCH) && (failed ==> later)
    requires Gathered(qs, fields, libs, now, failed, parts, done, vs)
    requires FromLibrary(libs(p.lib), Served(qs, fields, Some(p.lib)), now, later, p.bulk, p.values)
    ensures Gathered(qs, fields, libs, now, later, parts + [p], done + {p.lib}, vs + p.values)
  {
    var more := parts + [p];
    assert more[..|more| - 1] == parts && more[|more| - 1] == p;
    forall q | q in more
      ensures FromLibrary(libs(q.lib), Served(qs, fields, Some(q.lib)), now, later, q.bulk, q.values)
    {
      assert q in parts || q == p;
    }
    assert forall m :: m in LibsOf(more) <==> m in LibsOf(parts) || m == p.lib by {
      forall m | m in LibsOf(parts) || m == p.lib ensures m in LibsOf(more) {
        if m in LibsOf(parts) {
          var q :| q in parts && q.lib == m;
          assert q in more;
        } else {
          assert p in more;
        }
      }
    }
  }

  /** The answers for the requests no library serves, in order. */
  ghost predicate AnswersUnserved(vs: seq<FieldValue>, unserved: seq<FieldKey>) {
    && |vs| == |unserved|
    && forall i :: 0 <= i < |vs| ==>
        vs[i].gpu == unserved[i].gpu && vs[i].reading.field == unserved[i].field && vs[i].reading.status == NotSupported
  }

  /** The values of a whole request: library by library what each gave, every library that serves a
      request among them, and then NOT_SUPPORTED for exactly the requests none serves. */
  ghost predicate FromLibraries(qs: Queries, fields: seq<FieldKey>, libs: nat -> Library, now: nat, failed: bool,
                                parts: seq<LibAnswer>, vs: seq<FieldValue>)
    requires forall m :: |libs(m).slots| == BATCH
  {
    && FromParts(qs, fields, libs, now, failed, parts)
    && (forall m :: Served(qs, fields, Some(m)) != [] ==> m in LibsOf(parts))
    && |ValuesOf(parts)| <= |vs| && vs[..|ValuesOf(parts)|] == ValuesOf(parts)
    && AnswersUnserved(vs[|ValuesOf(parts)|..], Served(qs, fields, None))
  }

  /** The values answer the requests in this order, as far as the GPU goes. */
  ghost predicate SameGpus(vs: seq<FieldValue>, order: seq<FieldKey>) {
    |vs| == |order| && forall i :: 0 <= i < |vs| ==> vs[i].gpu == order[i].gpu
  }

  lemma KeysConcat(a: seq<FieldValue>, b: seq<FieldValue>)
    ensures Keys(a + b) == Keys(a) + Keys(b)
  {
  }

  lemma {:induction false} FlattenConcat(a: seq<seq<FieldValue>>, b: seq<seq<FieldValue>>)
    ensures Flatten(a + b) == Flatten(a) + Flatten(b)
  {
    if b == [] {
      assert a + b == a;
    } else {
      FlattenConcat(a, b[..|b| - 1]);
      assert (a + b)[..|a + b| - 1] == a + b[..|b| - 1];
    }
  }

  lemma {:induction false} RestContents(fields: seq<FieldKey>, bulk: seq<FieldValue>)
    ensures forall k :: k in Rest(fields, bulk) ==> k in fields
  {
    if fields != [] {
      RestContents(fields[..|fields| - 1], bulk);
    }
  }

  /** The order of an SMI call: the bulk results, then the rest. */
  lemma SmiOrder(f: Fetches, mine: seq<FieldKey>)
    requires WellFormed(f)
    ensures
      var order := Keys(f.bulk) + Rest(mine, f.bulk);
      && SameGpus(Expected(f, mine), order)
      && (Distinct(mine) && AnswersOnce(f.bulk, mine) ==> multiset(order) == multiset(mine))
      && (Fills(f, Rest(mine, f.bulk)) ==> Keys(Expected(f, mine)) == order)
  {
    var rest := Rest(mine, f.bulk);
    KeysConcat(f.bulk, Delivered(f, rest));
    if Fills(f, rest) {
      assert Keys(Delivered(f, rest)) == rest;
    }
    if Distinct(mine) && AnswersOnce(f.bulk, mine) {
      BulkAndRest(mine, f.bulk);
    }
  }

  lemma SmiAnswers(lib: Library, mine: seq<FieldKey>, now: nat, failed: bool, bulk: seq<FieldValue>)
    requires lib.SmiLibrary? && |lib.slots| == BATCH && FromBulk(lib, mine, now, failed, bulk)
    requires Distinct(mine) ==> AnswersOnce(bulk, mine)
    ensures
      var rest := Rest(mine, bulk);
      var vs, order := Expected(SmiFetches(lib, rest, bulk), mine), Keys(bulk) + rest;
      && FromSmi(lib, mine, now, failed, bulk, vs)
      && SameGpus(vs, order)
      && (Distinct(mine) ==> multiset(order) == multiset(mine))
      && (FillsSlots(lib, mine) ==> Keys(vs) == order)
  {
    var f := SmiFetches(lib, Rest(mine, bulk), bulk);
    SmiOrder(f, mine);
    RestContents(mine, bulk);
    ExpectedIsFetched(lib, mine, bulk);
    if FillsSlots(lib, mine) {
      assert Fills(f, Rest(mine, bulk));
    }
  }

  /** The requests of the libraries done so far are in `order`, each as often as requested. */
  ghost predicate Dispatched(qs: Queries, fields: seq<FieldKey>, done: set<nat>, order: seq<FieldKey>) {
    forall k :: multiset(order)[k] ==
      match Route(qs, k.field)
      case None => 0
      case Some(m) => if m in done then multiset(fields)[k] else 0
  }

  lemma DispatchOne(qs: Queries, fields: seq<FieldKey>, done: set<nat>, order: seq<FieldKey>, m: nat,
                    more: seq<FieldKey>)
    requires m !in done && Dispatched(qs, fields, done, order)
    requires multiset(more) == multiset(Served(qs, fields, Some(m)))
    ensures Dispatched(qs, fields, done + {m}, order + more)
  {
    forall k: FieldKey
      ensures multiset(more)[k] == if Route(qs, k.field) == Some(m) then multiset(fields)[k] else 0
    {
      ServedCount(qs, fields, Some(m), k);
    }
  }

  lemma DispatchRest(qs: Queries, fields: seq<FieldKey>, done: set<nat>, order: seq<FieldKey>)
    requires Dispatched(qs, fields, done, order)
    requires forall m :: m !in done ==> Served(qs, fields, Some(m)) == []
    ensures multiset(order + Served(qs, fields, None)) == multiset(fields)
  {
    forall k: FieldKey ensures multiset(order + Served(qs, fields, None))[k] == multiset(fields)[k] {
      ServedCount(qs, fields, None, k);
      CountConcat(order, Served(qs, fields, None), k);
      match Route(qs, k.field)
      case None =>
      case Some(m) => ServedCount(qs, fields, Some(m), k);
    }
  }

  /** The values so far answer the requests of the libraries done so far. */
  ghost predicate Answering(qs: Queries, fields: seq<FieldKey>, good: bool, done: set<nat>, vs: seq<FieldValue>,
                            order: seq<FieldKey>) {
    && SameGpus(vs, order)
    && (Distinct(fields) ==> Dispatched(qs, fields, done, order))
    && (good ==> Keys(vs) == order)
  }

  lemma AnswerOne(qs: Queries, fields: seq<FieldKey>, good: bool, done: set<nat>, vs: seq<FieldValue>,
                  order: seq<FieldKey>, m: nat, vs': seq<FieldValue>, more: seq<FieldKey>)
    requires m !in done && Answering(qs, fields, good, done, vs, order)
    requires SameGpus(vs', more) && (good ==> Keys(vs') == more)
    requires Distinct(fields) ==> multiset(more) == multiset(Served(qs, fields, Some(m)))
    ensures Answering(qs, fields, good, done + {m}, vs + vs', order + more)
  {
    KeysConcat(vs, vs');
    if Distinct(fields) {
      DispatchOne(qs, fields, done, order, m, more);
    }
  }

  /** The unsupported requests come last. */
  lemma AnswerRest(qs: Queries, fields: seq<FieldKey>, good: bool, done: set<nat>, vs: seq<FieldValue>,
                   order: seq<FieldKey>, unsupported: seq<FieldValue>)
    requires Answering(qs, fields, good, done, vs, order) && Keys(unsupported) == Served(qs, fields, None)
    requires forall m :: m !in done ==> Served(qs, fields, Some(m)) == []
    ensures
      var all := order + Served(qs, fields, None);
      && SameGpus(vs + unsupported, all)
      && (Distinct(fields) ==> multiset(all) == multiset(fields))
      && (good ==> Keys(vs + unsupported) == all)
  {
    KeysConcat(vs, unsupported);
    forall i | 0 <= i < |unsupported| ensures unsupported[i].gpu == Served(qs, fields, None)[i].gpu {
      assert Keys(unsupported)[i] == unsupported[i].Key();
    }
    if Distinct(fields) {
      DispatchRest(qs, fields, done, order);
    }
  }

  // ---------------------------------------------------------------------
  // Event counters

  /** The key's counter belongs to the SMI library. */
  predicate Counted(qs: Queries, k: FieldKey) {
    IsCounterEvent(k.field) && Route(qs, k.field) == Some(SMI)
  }

  /** The handle table of the metric fetcher (`smi_data_`). */
  class EventCounters {
    var handles: map<FieldKey, nat>

    constructor ()
      ensures handles == map[]
    {
      handles := map[];
    }

    /** `acquire_smi_handle`; `granted` is the counter the SMI calls give, if they succeed. */
    method Acquire(k: FieldKey, granted: Option<nat>) returns (st: Status)
      modifies this
      ensures handles ==
        if IsCounterEvent(k.field) && k !in old(handles) && granted.Some?
        then old(handles)[k := granted.value] else old(handles)
      ensures st ==
        if !IsCounterEvent(k.field) then Ok
        else if k in old(handles) then AlreadyExist
        else if granted.Some? then Ok else OtherError
    {
      if !IsCounterEvent(k.field) {
        return Ok;
      }
      if k in handles {
        return AlreadyExist;
      }
      if granted.None? {
        return OtherError;
      }
      handles := handles[k := granted.value];
      st := Ok;
    }

    /** `delete_smi_handle`: the entry goes whether or not the SMI calls succeed. */
    method Delete(k: FieldKey, stopped: bool, destroyed: bool) returns (st: Status)
      modifies this
      ensures handles == if IsCounterEvent(k.field) then old(handles) - {k} else old(handles)
      ensures st ==
        if !IsCounterEvent(k.field) || k !in old(handles) then NotSupported
        else if stopped && destroyed then Ok else OtherError
    {
      if !IsCounterEvent(k.field) {
        return NotSupported;
      }
      if k !in handles {
        assert handles - {k} == handles;
        return NotSupported;
      }
      if !stopped {
        handles := handles - {k};
        return OtherError;
      }
      handles := handles - {k};
      st := if destroyed then Ok else OtherError;
    }

    /** `RdcSmiLib::rdc_telemetry_fields_watch`. */
    method AcquireAll(fields: seq<FieldKey>, grant: FieldKey -> Option<nat>)
      modifies this
      ensures handles.Keys == old(handles.Keys) + set k | k in fields && IsCounterEvent(k.field) && grant(k).Some?
      ensures forall k :: k in old(handles) ==> handles[k] == old(handles)[k]
    {
      for i := 0 to |fields|
        invariant forall k :: k in handles <==>
          k in old(handles) || (k in fields[..i] && IsCounterEvent(k.field) && grant(k).Some?)
        invariant forall k :: k in old(handles) ==> handles[k] == old(handles)[k]
      {
        var st := Acquire(fields[i], grant(fields[i]));
      }
      assert fields[..|fields|] == fields;
    }

    /** `RdcSmiLib::rdc_telemetry_fields_unwatch`. */
    method DeleteAll(fields: seq<FieldKey>, stops: FieldKey -> bool, destroys: FieldKey -> bool)
      modifies this
      ensures handles.Keys == old(handles.Keys) - set k | k in fields && IsCounterEvent(k.field)
    {
      for i := 0 to |fields|
        invariant forall k :: k in handles <==>
          k in old(handles) && !(k in fields[..i] && IsCounterEvent(k.field))
      {
        var st := Delete(fields[i], stops(fields[i]), destroys(fields[i]));
      }
      assert fields[..|fields|] == fields;
    }
  }

  // ---------------------------------------------------------------------
  // The object

  lemma RouteExtend(qs: Queries, i: nat, field: nat)
    requires i < |qs|
    ensures Route(qs[..i + 1], field) ==
      if Route(qs[..i], field).Some? then Route(qs[..i], field)
      else if Lists(qs[i], field) then Some(i) else None
  {
    RouteFromFirst(qs[..i + 1], field, 0);
    RouteFromFirst(qs[..i], field, 0);
    assert forall n :: 0 <= n < i ==> qs[..i + 1][n] == qs[..i][n] == qs[n];
    assert qs[..i + 1][i] == qs[i];
  }

  function ListOf(inModule: map<nat, seq<FieldKey>>, m: nat): seq<FieldKey> {
    if m in inModule then inModule[m] else []
  }

  /** The requests are split by the library that serves them, in order, the unserved ones answered. */
  ghost predicate Partitioned(qs: Queries, fields: seq<FieldKey>, inModule: map<nat, seq<FieldKey>>,
                              unsupported: seq<FieldValue>) {
    && (forall m :: Served(qs, fields, Some(m)) == ListOf(inModule, m))
    && Keys(unsupported) == Served(qs, fields, None)
    && (forall v :: v in unsupported ==> v.reading.status == NotSupported)
  }

  lemma ServedOneMore(qs: Queries, fields: seq<FieldKey>, k: FieldKey, m: Option<nat>)
    ensures Served(qs, fields + [k], m) == Served(qs, fields, m) + (if Route(qs, k.field) == m then [k] else [])
  {
    var more := fields + [k];
    assert more[..|more| - 1] == fields;
  }

  // ---------------------------------------------------------------------
  // Every value comes from the library that serves its key

  /** A reading the library can give for a key: the bulk metrics' value, or what a fetch or lookup of
      that very key returned. */
  ghost predicate ReadBy(lib: Library, k: FieldKey, now: nat, r: Reading) {
    match lib
    case SmiLibrary(enabled, metrics, fetch, slots) =>
      || (exists i: nat :: fetch(i, k) == Some(r))
      || (enabled && metrics(k.gpu).Some? && BulkFetch.BulkIs(k.field, metrics(k.gpu).value, r.value)
          && r == Reading(k.field, Ok, now, r.value))
    case RocpLibrary(lookup, slots) =>
      exists i: nat :: lookup(i, k) == (r.status, r.value) && r.field == k.field && r.ts == now
  }

  ghost predicate ReadFrom(qs: Queries, libs: nat -> Library, now: nat, v: FieldValue) {
    match Route(qs, v.reading.field)
    case None => v.reading.status == NotSupported
    case Some(m) => ReadBy(libs(m), v.Key(), now, v.reading)
  }

  lemma BulkIsRead(lib: Library, mine: seq<FieldKey>, now: nat, failed: bool, bulk: seq<FieldValue>, v: FieldValue)
    requires lib.SmiLibrary? && FromBulk(lib, mine, now, failed, bulk) && v in bulk
    ensures v.Key() in mine && ReadBy(lib, v.Key(), now, v.reading)
  {
  }

  lemma FetchedIsRead(lib: Library, rest: seq<FieldKey>, vs: seq<FieldValue>, now: nat, v: FieldValue)
    requires lib.SmiLibrary? && FetchedEach(lib, rest, vs) && FillsSlots(lib, rest) && v in vs
    ensures v.Key() in rest && ReadBy(lib, v.Key(), now, v.reading)
  {
    var i: nat :| i < |vs| && vs[i] == v;
    assert rest[i] in rest;
    assert lib.fetch(i, rest[i]) == Some(v.reading);
  }

  lemma SmiIsRead(lib: Library, mine: seq<FieldKey>, now: nat, failed: bool, bulk: seq<FieldValue>,
                  vs: seq<FieldValue>, v: FieldValue)
    requires lib.SmiLibrary? && FromBulk(lib, mine, now, failed, bulk) && FillsSlots(lib, mine)
    requires |bulk| <= |vs| && vs[..|bulk|] == bulk && FetchedEach(lib, Rest(mine, bulk), vs[|bulk|..]) && v in vs
    ensures v.Key() in mine && ReadBy(lib, v.Key(), now, v.reading)
  {
    if v in bulk {
      BulkIsRead(lib, mine, now, failed, bulk, v);
    } else {
      assert vs == bulk + vs[|bulk|..];
      RestContents(mine, bulk);
      FetchedIsRead(lib, Rest(mine, bulk), vs[|bulk|..], now, v);
    }
  }

  lemma LibraryIsRead(lib: Library, mine: seq<FieldKey>, now: nat, failed: bool, bulk: seq<FieldValue>,
                      vs: seq<FieldValue>, v: FieldValue)
    requires |lib.slots| == BATCH && FromLibrary(lib, mine, now, failed, bulk, vs) && FillsSlots(lib, mine) && v in vs
    ensures v.Key() in mine && ReadBy(lib, v.Key(), now, v.reading)
  {
    if lib.SmiLibrary? {
      SmiIsRead(lib, mine, now, failed, bulk, vs, v);
    } else {
      var i: nat :| i < |vs| && vs[i] == v;
      assert lib.lookup(i, v.Key()) == (v.reading.status, v.reading.value);
    }
  }

  lemma {:induction false} InSomePart(parts: seq<LibAnswer>, v: FieldValue) returns (p: LibAnswer)
    requires v in ValuesOf(parts)
    ensures p in parts && v in p.values
  {
    p := parts[|parts| - 1];
    if v !in p.values {
      p := InSomePart(parts[..|parts| - 1], v);
    }
  }

  lemma {:induction false} ServedIn(qs: Queries, fields: seq<FieldKey>, m: Option<nat>, k: FieldKey)
    ensures k in Served(qs, fields, m) <==> k in fields && Route(qs, k.field) == m
  {
    ServedCount(qs, fields, m, k);
    assert k in fields <==> k in multiset(fields);
    assert k in Served(qs, fields, m) <==> k in multiset(Served(qs, fields, m));
  }

  /** When every one-by-one fetch fills its slot, each value of a request was read, under its own key,
      by the library that serves that key; only keys no library serves are NOT_SUPPORTED here. */
  lemma ValuesAreRead(qs: Queries, fields: seq<FieldKey>, libs: nat -> Library, now: nat, failed: bool,
                      parts: seq<LibAnswer>, vs: seq<FieldValue>, v: FieldValue)
    requires forall m :: |libs(m).slots| == BATCH
    requires FromLibraries(qs, fields, libs, now, failed, parts, vs) && AllFill(qs, fields, libs) && v in vs
    ensures v.Key() in fields && ReadFrom(qs, libs, now, v)
  {
    var n := |ValuesOf(parts)|;
    var i :| 0 <= i < |vs| && vs[i] == v;
    if i < n {
      assert vs[..n][i] == v;
      var p := InSomePart(parts, v);
      LibraryIsRead(libs(p.lib), Served(qs, fields, Some(p.lib)), now, failed, p.bulk, p.values, v);
      ServedIn(qs, fields, Some(p.lib), v.Key());
    } else {
      assert vs[n..][i - n] == v;
      ServedIn(qs, fields, None, v.Key());
    }
  }

  lemma UnservedAnswers(qs: Queries, fields: seq<FieldKey>, inModule: map<nat, seq<FieldKey>>,
                        unsupported: seq<FieldValue>)
    requires Partitioned(qs, fields, inModule, unsupported)
    ensures AnswersUnserved(unsupported, Served(qs, fields, None))
    ensures forall m :: Served(qs, fields, Some(m)) != [] ==> m in inModule
  {
    forall i | 0 <= i < |unsupported|
      ensures unsupported[i].Key() == Served(qs, fields, None)[i] && unsupported[i].reading.status == NotSupported
    {
      assert Keys(unsupported)[i] == unsupported[i].Key() && unsupported[i] in unsupported;
    }
  }

  lemma PartitionServed(qs: Queries, fields: seq<FieldKey>, inModule: map<nat, seq<FieldKey>>,
                        unsupported: seq<FieldValue>, k: FieldKey, lib: nat)
    requires Partitioned(qs, fields, inModule, unsupported) && Route(qs, k.field) == Some(lib)
    ensures Partitioned(qs, fields + [k], inModule[lib := ListOf(inModule, lib) + [k]], unsupported)
  {
    var more := inModule[lib := ListOf(inModule, lib) + [k]];
    forall m ensures Served(qs, fields + [k], Some(m)) == ListOf(more, m) {
      ServedOneMore(qs, fields, k, Some(m));
    }
    ServedOneMore(qs, fields, k, None);
  }

  lemma PartitionUnserved(qs: Queries, fields: seq<FieldKey>, inModule: map<nat, seq<FieldKey>>,
                          unsupported: seq<FieldValue>, k: FieldKey)
    requires Partitioned(qs, fields, inModule, unsupported) && Route(qs, k.field) == None
    ensures Partitioned(qs, fields + [k], inModule, unsupported + [Unsupported(k)])
  {
    forall m ensures Served(qs, fields + [k], Some(m)) == ListOf(inModule, m) {
      ServedOneMore(qs, fields, k, Some(m));
    }
    ServedOneMore(qs, fields, k, None);
    KeysConcat(unsupported, [Unsupported(k)]);
  }

  class Module {
    const queries: Queries
    /** `fields_id_module_`; looking a field up inserts an empty entry for it. */
    var fieldModule: map<nat, Option<nat>>
    const counters: EventCounters
    /** The bulk call was refused once; it is then never made again. */
    var bulkFailed: bool

    ghost predicate Valid()
      reads this
    {
      && (forall f :: f in fieldModule ==> fieldModule[f] == Route(queries, f))
      && (forall f :: Route(queries, f).Some? ==> f in fieldModule)
    }

    constructor (qs: Queries)
      ensures Valid() && queries == qs && fresh(counters) && counters.handles == map[]
    {
      queries, bulkFailed := qs, false;
      var c := new EventCounters();
      counters := c;
      var table: map<nat, Option<nat>> := map[];
      for i := 0 to |qs|
        invariant c.handles == map[]
        invariant forall f :: f in table <==> Route(qs[..i], f).Some?
        invariant forall f :: f in table ==> table[f] == Route(qs[..i], f)
      {
        if qs[i].Some? {
          var ids := qs[i].value;
          for n := 0 to |ids|
            invariant c.handles == map[]
            invariant forall f :: f in table <==> Route(qs[..i], f).Some? || f in ids[..n]
            invariant forall f :: f in table ==>
              table[f] == if Route(qs[..i], f).Some? then Route(qs[..i], f) else Some(i)
          {
            if ids[n] !in table {
              table := table[ids[n] := Some(i)];
            }
          }
          assert ids[..|ids|] == ids;
        }
        forall f { RouteExtend(qs, i, f); }
      }
      assert qs[..|qs|] == qs;
      fieldModule := table;
    }

    /** `rdc_telemetry_fields_query`: the concatenated answers of the successful queries. */
    method FieldsQuery() returns (ids: seq<nat>)
      ensures forall f :: f in ids <==> Supports(queries, f)
    {
      ids := [];
      for i := 0 to |queries|
        invariant forall f :: f in ids <==> exists n :: 0 <= n < i && Lists(queries[n], f)
      {
        if queries[i].Some? {
          ids := ids + queries[i].value;
        }
      }
    }

    /** `fields_id_module_[field]`. */
    method LookUp(field: nat) returns (m: Option<nat>)
      requires Valid()
      modifies this
      ensures Valid() && m == Route(queries, field)
    {
      if field !in fieldModule {
        fieldModule := fieldModule[field := None];
      }
      m := fieldModule[field];
    }

    /** `get_fields_for_module`: every request goes to the library that serves it, in order, or
        to the unsupported list. */
    method GetFieldsForModule(fields: seq<FieldKey>)
      returns (inModule: map<nat, seq<FieldKey>>, unsupported: seq<FieldValue>)
      requires Valid()
      modifies this
      ensures Valid()
      ensures Partitioned(queries, fields, inModule, unsupported)
    {
      inModule, unsupported := map[], [];
      for i := 0 to |fields|
        invariant Valid()
        invariant Partitioned(queries, fields[..i], inModule, unsupported)
      {
        var k := fields[i];
        var lib := LookUp(k.field);
        assert fields[..i + 1] == fields[..i] + [k];
        match lib
        case Some(m) =>
          PartitionServed(queries, fields[..i], inModule, unsupported, k, m);
          inModule := inModule[m := ListOf(inModule, m) + [k]];
        case None =>
          PartitionUnserved(queries, fields[..i], inModule, unsupported, k);
          unsupported := unsupported + [Unsupported(k)];
      }
      assert fields[..|fields|] == fields;
    }

    /** The bulk fetch of the SMI library, which is made only if it is enabled. */
    method BulkGet(lib: Library, mine: seq<FieldKey>, now: nat) returns (bulk: seq<FieldValue>)
      requires lib.SmiLibrary?
      modifies this`bulkFailed
      ensures FromBulk(lib, mine, now, bulkFailed, bulk)
      ensures bulkFailed == (old(bulkFailed) ||
        (lib.bulkEnabled && exists k :: k in mine && BulkFetch.IsBulk(k.field) && lib.metrics(k.gpu).None?))
      ensures Distinct(mine) ==> AnswersOnce(bulk, mine)
    {
      bulk := [];
      if lib.bulkEnabled {
        bulk, bulkFailed := BulkFetch.Fetch(mine, lib.metrics, now, bulkFailed);
      }
    }

    /** One call of the SMI library, the bulk fetch first, with a callback that accepts everything:
        the bulk results in one batch, the rest at most 16 at a time. */
    method SmiGet(lib: Library, mine: seq<FieldKey>, now: nat)
      returns (batches: seq<seq<FieldValue>>, ghost bulk: seq<FieldValue>, ghost order: seq<FieldKey>)
      requires lib.SmiLibrary? && |lib.slots| == BATCH
      modifies this`bulkFailed
      ensures Small(batches, 1)
      ensures FromSmi(lib, mine, now, bulkFailed, bulk, Flatten(batches))
      ensures bulkFailed == (old(bulkFailed) ||
        (lib.bulkEnabled && exists k :: k in mine && BulkFetch.IsBulk(k.field) && lib.metrics(k.gpu).None?))
      ensures SameGpus(Flatten(batches), order)
      ensures Distinct(mine) ==> multiset(order) == multiset(mine)
      ensures FillsSlots(lib, mine) ==> Keys(Flatten(batches)) == order
    {
      var results := BulkGet(lib, mine, now);
      var rest := Remaining(mine, results);
      var st;
      batches, st := SmiValueGet(SmiFetches(lib, rest, results), mine, _ => Ok);
      bulk, order := results, Keys(results) + rest;
      SmiAnswers(lib, mine, now, bulkFailed, bulk);
    }

    /** One call of a library on the requests it serves. */
    method LibraryGet(lib: Library, mine: seq<FieldKey>, now: nat)
      returns (batches: seq<seq<FieldValue>>, ghost bulk: seq<FieldValue>, ghost order: seq<FieldKey>)
      requires |lib.slots| == BATCH
      modifies this`bulkFailed
      ensures old(bulkFailed) ==> bulkFailed
      ensures Small(batches, 1)
      ensures FromLibrary(lib, mine, now, bulkFailed, bulk, Flatten(batches))
      ensures SameGpus(Flatten(batches), order)
      ensures Distinct(mine) ==> multiset(order) == multiset(mine)
      ensures FillsSlots(lib, mine) ==> Keys(Flatten(batches)) == order
    {
      if lib.SmiLibrary? {
        batches, bulk, order := SmiGet(lib, mine, now);
      } else {
        var st;
        batches, st := RocpValueGet(LookupAt(lib, mine), now, lib.slots, mine, _ => Ok);
        bulk, order := [], mine;
        ReadingsKeys(LookupAt(lib, mine), now, mine);
      }
    }

    /** One turn of the loop over the libraries. */
    method NextLibrary(fields: seq<FieldKey>, libs: nat -> Library, m: nat, mine: seq<FieldKey>, now: nat,
                       ghost good: bool, ghost done: set<nat>, batches: seq<seq<FieldValue>>,
                       ghost order: seq<FieldKey>, ghost parts: seq<LibAnswer>)
      returns (more: seq<seq<FieldValue>>, ghost longer: seq<FieldKey>, ghost grown: seq<LibAnswer>)
      requires (forall n :: |libs(n).slots| == BATCH) && mine == Served(queries, fields, Some(m)) && m !in done
      requires good ==> FillsSlots(libs(m), mine)
      requires Answering(queries, fields, good, done, Flatten(batches), order)
      requires Gathered(queries, fields, libs, now, bulkFailed, parts, done, Flatten(batches))
      modifies this`bulkFailed
      ensures Answering(queries, fields, good, done + {m}, Flatten(more), longer)
      ensures Gathered(queries, fields, libs, now, bulkFailed, grown, done + {m}, Flatten(more))
    {
      ServedDistinct(queries, fields, Some(m));
      ghost var bulk, asked, failed := [], [], bulkFailed;
      var vs;
      vs, bulk, asked := LibraryGet(libs(m), mine, now);
      FlattenConcat(batches, vs);
      AnswerOne(queries, fields, good, done, Flatten(batches), order, m, Flatten(vs), asked);
      ghost var p := LibAnswer(m, bulk, Flatten(vs));
      GatherOneMore(queries, fields, libs, now, failed, bulkFailed, parts, done, Flatten(batches), p);
      more, longer, grown := batches + vs, order + asked, parts + [p];
    }

    /** The loop over the libraries, in any order. */
    method AllLibraries(fields: seq<FieldKey>, inModule: map<nat, seq<FieldKey>>, libs: nat -> Library, now: nat)
      returns (batches: seq<seq<FieldValue>>, ghost order: seq<FieldKey>, ghost parts: seq<LibAnswer>)
      requires Valid() && forall m :: |libs(m).slots| == BATCH
      requires forall m :: m in inModule ==> inModule[m] == Served(queries, fields, Some(m))
      modifies this`bulkFailed
      ensures Valid()
      ensures Answering(queries, fields, AllFill(queries, fields, libs), inModule.Keys, Flatten(batches), order)
      ensures Gathered(queries, fields, libs, now, bulkFailed, parts, inModule.Keys, Flatten(batches))
    {
      batches, order, parts := [], [], [];
      var left := inModule.Keys;
      ghost var done, good := {}, AllFill(queries, fields, libs);
      GatherNone(queries, fields, libs, now, bulkFailed);
      while left != {}
        invariant left <= inModule.Keys && done == inModule.Keys - left
        invariant Answering(queries, fields, good, done, Flatten(batches), order)
        invariant Gathered(queries, fields, libs, now, bulkFailed, parts, done, Flatten(batches))
        decreases left
      {
        var m :| m in left;
        batches, order, parts := NextLibrary(fields, libs, m, inModule[m], now, good, done, batches, order, parts);
        OneLess(inModule.Keys, left, m);
        left, done := left - {m}, done + {m};
      }
      assert done == inModule.Keys;
    }

    /** `rdc_telemetry_fields_value_get` with a callback that accepts everything, as the watch
        table's does: the libraries in any order, then the unsupported requests. Every request is
        answered exactly once, in some order, with the right GPU, by the library that serves it; and
        under its own field when every one-by-one fetch fills its slot. */
    method ValueGet(fields: seq<FieldKey>, libs: nat -> Library, now: nat)
      returns (batches: seq<seq<FieldValue>>, ghost order: seq<FieldKey>, ghost parts: seq<LibAnswer>)
      requires Valid() && forall m :: |libs(m).slots| == BATCH
      modifies this
      ensures Valid()
      ensures FromLibraries(queries, fields, libs, now, bulkFailed, parts, Flatten(batches))
      ensures SameGpus(Flatten(batches), order)
      ensures Distinct(fields) ==> multiset(order) == multiset(fields)
      ensures AllFill(queries, fields, libs) ==> Keys(Flatten(batches)) == order
    {
      var inModule, unsupported := GetFieldsForModule(fields);
      batches, order, parts := AllLibraries(fields, inModule, libs, now);
      FlattenConcat(batches, [unsupported]);
      assert Flatten([unsupported]) == unsupported;
      AnswerRest(queries, fields, AllFill(queries, fields, libs), inModule.Keys, Flatten(batches), order, unsupported);
      UnservedAnswers(queries, fields, inModule, unsupported);
      batches, order := batches + [unsupported], order + Served(queries, fields, None);
      assert Flatten(batches)[|ValuesOf(parts)|..] == unsupported;
    }

    /** `rdc_telemetry_fields_watch`: counters are opened for the counter events among `fields`
        that the SMI calls grant and that have none yet. */
    method FieldsWatch(fields: seq<FieldKey>, grant: FieldKey -> Option<nat>)
      requires Valid()
      modifies this, counters
      ensures Valid()
      ensures counters.handles.Keys == old(counters.handles.Keys) +
        set k | k in fields && Counted(queries, k) && grant(k).Some?
      ensures forall k :: k in old(counters.handles) ==> counters.handles[k] == old(counters.handles[k])
    {
      var inModule, unsupported := GetFieldsForModule(fields);
      ServedDistinct(queries, fields, Some(SMI));
      counters.AcquireAll(ListOf(inModule, SMI), grant);
    }

    /** `rdc_telemetry_fields_unwatch`: the counters of `fields` are closed, whatever the SMI
        calls answer. */
    method FieldsUnwatch(fields: seq<FieldKey>, stops: FieldKey -> bool, destroys: FieldKey -> bool)
      requires Valid()
      modifies this, counters
      ensures Valid()
      ensures counters.handles.Keys == old(counters.handles.Keys) - set k | k in fields && Counted(queries, k)
    {
      var inModule, unsupported := GetFieldsForModule(fields);
      ServedDistinct(queries, fields, Some(SMI));
      counters.DeleteAll(ListOf(inModule, SMI), stops, destroys);
    }
  }
}
