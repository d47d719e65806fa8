/** The bulk fetch of the SMI metric fetcher (`bulk_fetch_smi_fields`). */
module BulkFetch {
  import opened Common
  import opened Batches

  const BULK_FIELDS: set<nat> := {GPU_CLOCK, MEMORY_TEMP, GPU_TEMP, POWER_USAGE, GPU_UTIL}

  /** The parts of `amdsmi_gpu_metrics_t` the fetch reads. */
  datatype GpuMetrics = GpuMetrics(gfxClock: nat, memoryTemp: nat, edgeTemp: nat,
                                   averagePower: nat, currentPower: nat, gfxActivity: nat)

  /** The value of a bulk field; no value when the power reads zero even after its fallback. */
  function BulkValue(field: nat, m: GpuMetrics): Option<int> {
    if field == GPU_CLOCK then Some(m.gfxClock * 1000000)
    else if field == MEMORY_TEMP then Some(m.memoryTemp * 1000)
    else if field == GPU_TEMP then Some(m.edgeTemp * 1000)
    else if field == POWER_USAGE then
      var p := if m.averagePower == 65535 then m.currentPower else m.averagePower;
      if p == 0 then None else Some(p * 1000000)
    else if field == GPU_UTIL then Some(m.gfxActivity)
    else None
  }

  /** What the bulk fetch says of a field, in terms of the GPU's metrics: the clock and the power in
      millionths, the temperatures in thousandths, the activity as it is; the power is the average or,
      where that is not measured, the current one, and zero is no answer. */
  ghost predicate BulkIs(field: nat, m: GpuMetrics, v: int) {
    || (field == GPU_CLOCK && v == m.gfxClock * 1000000)
    || (field == MEMORY_TEMP && v == m.memoryTemp * 1000)
    || (field == GPU_TEMP && v == m.edgeTemp * 1000)
    || (field == POWER_USAGE && m.averagePower != 65535 && v == m.averagePower * 1000000 && v != 0)
    || (field == POWER_USAGE && m.averagePower == 65535 && v == m.currentPower * 1000000 && v != 0)
    || (field == GPU_UTIL && v == m.gfxActivity)
  }

  lemma BulkValueIs(field: nat, m: GpuMetrics)
    ensures forall v :: BulkValue(field, m) == Some(v) <==> BulkIs(field, m, v)
    ensures BulkValue(field, m) == None <==> forall v :: !BulkIs(field, m, v)
  {
    if BulkValue(field, m).Some? {
      assert BulkIs(field, m, BulkValue(field, m).value);
    }
  }

  /** The bulk fields requested for one GPU, in order. */
  function FieldsOf(fields: seq<FieldKey>, g: nat): seq<nat> {
    if fields == [] then []
    else
      var k := fields[|fields| - 1];
      FieldsOf(fields[..|fields| - 1], g) + (if k.gpu == g && k.field in BULK_FIELDS then [k.field] else [])
  }

  lemma {:induction false} FieldsOfContents(fields: seq<FieldKey>, g: nat)
    ensures forall f :: f in FieldsOf(fields, g) <==> f in BULK_FIELDS && FieldKey(g, f) in fields
    ensures Distinct(fields) ==> Distinct(FieldsOf(fields, g))
  {
    if fields != [] {
      var init, last := fields[..|fields| - 1], fields[|fields| - 1];
      assert fields == init + [last];
      FieldsOfContents(init, g);
    }
  }

  /** The values one GPU's metrics give for a list of fields. */
  function GpuValues(g: nat, list: seq<nat>, m: GpuMetrics, now: nat): seq<FieldValue> {
    if list == [] then []
    else
      var f := list[|list| - 1];
      GpuValues(g, list[..|list| - 1], m, now) +
      (match BulkValue(f, m) case None => [] case Some(v) => [FieldValue(g, Reading(f, Ok, now, v))])
  }

  lemma {:induction false} GpuValuesKeys(g: nat, list: seq<nat>, m: GpuMetrics, now: nat)
    ensures forall k :: k in Keys(GpuValues(g, list, m, now)) <==>
      k.gpu == g && k.field in list && BulkValue(k.field, m).Some?
    ensures Distinct(list) ==> Distinct(Keys(GpuValues(g, list, m, now)))
    ensures forall v :: v in GpuValues(g, list, m, now) ==>
      && BulkValue(v.reading.field, m).Some?
      && v == FieldValue(g, Reading(v.reading.field, Ok, now, BulkValue(v.reading.field, m).value))
  {
    if list != [] {
      var init, f := list[..|list| - 1], list[|list| - 1];
      assert list == init + [f];
      GpuValuesKeys(g, init, m, now);
      var vs, more := GpuValues(g, init, m, now), GpuValues(g, list, m, now);
      if BulkValue(f, m).Some? {
        assert Keys(more) == Keys(vs) + [FieldKey(g, f)];
      } else {
        assert more == vs;
      }
    }
  }

  method FetchGpu(g: nat, list: seq<nat>, m: GpuMetrics, now: nat) returns (vs: seq<FieldValue>)
    ensures vs == GpuValues(g, list, m, now)
  {
    vs := [];
    for j := 0 to |list|
      invariant vs == GpuValues(g, list[..j], m, now)
    {
      assert list[..j + 1][..j] == list[..j];
      var v := BulkValue(list[j], m);
      if v.Some? {
        vs := vs + [FieldValue(g, Reading(list[j], Ok, now, v.value))];
      }
    }
    assert list[..|list|] == list;
  }

  /** The table holds the bulk fields of each GPU that has any. */
  ghost predicate Organized(fields: seq<FieldKey>, perGpu: map<nat, seq<nat>>) {
    && (forall g :: g in perGpu ==> perGpu[g] == FieldsOf(fields, g) && perGpu[g] != [])
    && (forall g :: g !in perGpu ==> FieldsOf(fields, g) == [])
  }

  lemma OrganizeOneMore(fields: seq<FieldKey>, more: seq<FieldKey>, perGpu: map<nat, seq<nat>>, k: FieldKey)
    requires Organized(fields, perGpu) && more == fields + [k]
    ensures
      var list := (if k.gpu in perGpu then perGpu[k.gpu] else []) + [k.field];
      Organized(more, if k.field in BULK_FIELDS then perGpu[k.gpu := list] else perGpu)
  {
    assert more[..|more| - 1] == fields && more[|more| - 1] == k;
  }

  /** The requested bulk fields, GPU by GPU. */
  method OrganizePerGpu(fields: seq<FieldKey>) returns (perGpu: map<nat, seq<nat>>)
    ensures forall g :: FieldsOf(fields, g) == if g in perGpu then perGpu[g] else []
    ensures forall g :: g in perGpu ==> perGpu[g] != []
  {
    perGpu := map[];
    for i := 0 to |fields|
      invariant Organized(fields[..i], perGpu)
    {
      var k := fields[i];
      OrganizeOneMore(fields[..i], fields[..i + 1], perGpu, k);
      if k.field in BULK_FIELDS {
        perGpu := perGpu[k.gpu := (if k.gpu in perGpu then perGpu[k.gpu] else []) + [k.field]];
      }
    }
    assert fields[..|fields|] == fields;
  }

  /** The key is requested and is one of the bulk fields. */
  ghost predicate Wants(fields: seq<FieldKey>, k: FieldKey) {
    k in fields && k.field in BULK_FIELDS
  }

  /** The value is a good reading of the GPU's metrics. */
  ghost predicate Carries(metrics: nat -> Option<GpuMetrics>, now: nat, v: FieldValue) {
    && metrics(v.gpu).Some?
    && v.reading.status == Ok
    && v.reading.ts == now
    && BulkValue(v.reading.field, metrics(v.gpu).value) == Some(v.reading.value)
  }

  /** The results hold what the metrics answered for the GPUs done so far. */
  ghost predicate Answered(fields: seq<FieldKey>, metrics: nat -> Option<GpuMetrics>, now: nat, done: set<nat>,
                           results: seq<FieldValue>) {
    && (forall g :: g in done ==> metrics(g).Some?)
    && (forall k :: k in Keys(results) <==>
          Wants(fields, k) && k.gpu in done && BulkValue(k.field, metrics(k.gpu).value).Some?)
    && (forall v :: v in results ==> v.gpu in done && Carries(metrics, now, v))
    && (Distinct(fields) ==> Distinct(Keys(results)))
  }

  lemma DistinctConcat(a: seq<FieldKey>, b: seq<FieldKey>)
    requires Distinct(a) && Distinct(b) && forall k :: k in a ==> k !in b
    ensures Distinct(a + b)
  {
    forall i, j | 0 <= i < |a| && 0 <= j < |b| ensures a[i] != b[j] {
      assert a[i] in a && b[j] in b;
    }
  }

  lemma AnswerGpu(fields: seq<FieldKey>, metrics: nat -> Option<GpuMetrics>, now: nat, done: set<nat>,
                  results: seq<FieldValue>, g: nat)
    requires Answered(fields, metrics, now, done, results) && g !in done && metrics(g).Some?
    ensures Answered(fields, metrics, now, done + {g}, results + GpuValues(g, FieldsOf(fields, g), metrics(g).value,
      now))
  {
    var vs := GpuValues(g, FieldsOf(fields, g), metrics(g).value, now);
    FieldsOfContents(fields, g);
    GpuValuesKeys(g, FieldsOf(fields, g), metrics(g).value, now);
    assert Keys(results + vs) == Keys(results) + Keys(vs);
    assert forall v :: v in vs ==> Carries(metrics, now, v);
    if Distinct(fields) {
      DistinctConcat(Keys(results), Keys(vs));
    }
  }

  /** A GPU is organized exactly when one of its bulk fields is requested. */
  lemma OrganizedWants(fields: seq<FieldKey>, perGpu: map<nat, seq<nat>>)
    requires Organized(fields, perGpu)
    ensures forall k :: Wants(fields, k) ==> k.gpu in perGpu
    ensures forall g :: g in perGpu ==> Wants(fields, FieldKey(g, perGpu[g][0]))
  {
    forall k | Wants(fields, k) ensures k.gpu in perGpu {
      FieldsOfContents(fields, k.gpu);
    }
    forall g | g in perGpu ensures Wants(fields, FieldKey(g, perGpu[g][0])) {
      FieldsOfContents(fields, g);
      assert perGpu[g][0] in FieldsOf(fields, g);
    }
  }

  /** The loop over the GPUs: it gives up at the first one whose metrics cannot be read. */
  method FetchPerGpu(fields: seq<FieldKey>, perGpu: map<nat, seq<nat>>, metrics: nat -> Option<GpuMetrics>, now: nat)
    returns (results: seq<FieldValue>, failed: bool)
    requires Organized(fields, perGpu)
    ensures failed ==> results == [] && exists g :: g in perGpu && metrics(g).None?
    ensures !failed ==> Answered(fields, metrics, now, perGpu.Keys, results)
  {
    results, failed := [], false;
    var left := perGpu.Keys;
    while left != {}
      invariant left <= perGpu.Keys
      invariant Answered(fields, metrics, now, perGpu.Keys - left, results)
      decreases left
    {
      var g :| g in left;
      if metrics(g).None? {
        return [], true;
      }
      var vs := FetchGpu(g, perGpu[g], metrics(g).value, now);
      AnswerGpu(fields, metrics, now, perGpu.Keys - left, results, g);
      assert perGpu.Keys - (left - {g}) == (perGpu.Keys - left) + {g};
      results, left := results + vs, left - {g};
    }
    assert perGpu.Keys - left == perGpu.Keys;
  }

  /** The fetch, in terms of `BulkValue`; a refusal before is passed in `failedBefore`. */
  method FetchWanted(fields: seq<FieldKey>, metrics: nat -> Option<GpuMetrics>, now: nat, failedBefore: bool)
    returns (results: seq<FieldValue>, failed: bool)
    ensures failed <==> failedBefore || exists k :: Wants(fields, k) && metrics(k.gpu).None?
    ensures failed ==> results == []
    ensures !failed ==> forall k :: k in Keys(results) <==>
      Wants(fields, k) && BulkValue(k.field, metrics(k.gpu).value).Some?
    ensures !failed ==> forall v :: v in results ==> Carries(metrics, now, v)
    ensures Distinct(fields) ==> AnswersOnce(results, fields)
  {
    if failedBefore {
      return [], true;
    }
    var perGpu := OrganizePerGpu(fields);
    OrganizedWants(fields, perGpu);
    results, failed := FetchPerGpu(fields, perGpu, metrics, now);
  }

  /** One of the five fields the bulk call can answer. */
  ghost predicate IsBulk(field: nat) {
    field == GPU_CLOCK || field == MEMORY_TEMP || field == GPU_TEMP || field == POWER_USAGE || field == GPU_UTIL
  }

  /** The results of a bulk fetch, in terms of the GPUs' metrics: for exactly the requested bulk fields
      that have a value, that value. */
  ghost predicate BulkAnswers(fields: seq<FieldKey>, metrics: nat -> Option<GpuMetrics>, now: nat,
                              results: seq<FieldValue>) {
    && (forall k :: k in fields && IsBulk(k.field) ==> metrics(k.gpu).Some?)
    && (forall v :: v in results ==>
          && v.Key() in fields && metrics(v.gpu).Some? && v.reading.status == Ok && v.reading.ts == now
          && BulkIs(v.reading.field, metrics(v.gpu).value, v.reading.value))
    && (forall k, v :: k in fields && metrics(k.gpu).Some? && BulkIs(k.field, metrics(k.gpu).value, v) ==>
          k in Keys(results))
  }

  /** `bulk_fetch_smi_fields`, stated in terms of the metrics: it answers requests, none twice, and all
      bulk fields that have a value, or nothing at all once a GPU refuses; a refusal is remembered. */
  method Fetch(fields: seq<FieldKey>, metrics: nat -> Option<GpuMetrics>, now: nat, failedBefore: bool)
    returns (results: seq<FieldValue>, failed: bool)
    ensures failed <==> failedBefore || exists k :: k in fields && IsBulk(k.field) && metrics(k.gpu).None?
    ensures failed ==> results == []
    ensures !failed ==> BulkAnswers(fields, metrics, now, results)
    ensures Distinct(fields) ==> AnswersOnce(results, fields)
  {
    results, failed := FetchWanted(fields, metrics, now, failedBefore);
    assert forall k :: Wants(fields, k) <==> k in fields && IsBulk(k.field);
    if !failed {
      forall v | v in results
        ensures v.Key() in fields && BulkIs(v.reading.field, metrics(v.gpu).value, v.reading.value)
      {
        var i :| 0 <= i < |results| && results[i] == v;
        assert Keys(results)[i] == v.Key();
        BulkValueIs(v.reading.field, metrics(v.gpu).value);
      }
      forall k, v | k in fields && metrics(k.gpu).Some? && BulkIs(k.field, metrics(k.gpu).value, v)
        ensures k in Keys(results)
      {
        BulkValueIs(k.field, metrics(k.gpu).value);
      }
    }
  }
}
