/** Vocabulary shared by every component: statuses, keys and readings. */
module Common {

  datatype Option<+T> = None | Some(value: T)

  /** The `rdc_status_t` values the modelled code distinguishes. */
  datatype Status = Ok | NotFound | Conflict | AlreadyExist | BadParameter | MaxLimit | NotSupported | OtherError

  /** `RdcFieldKey`: one field of one GPU. */
  datatype FieldKey = FieldKey(gpu: nat, field: nat)

  /** `RdcFieldGroupKey`: a GPU group together with a field group. */
  datatype GroupKey = GroupKey(gpuGroup: nat, fieldGroup: nat)

  /** `rdc_field_value`, with the payload reduced to its integer member. */
  datatype Reading = Reading(field: nat, status: Status, ts: nat, value: int)

  /** `rdc_gpu_field_value_t`. */
  datatype FieldValue = FieldValue(gpu: nat, reading: Reading) {
    function Key(): FieldKey {
      FieldKey(gpu, reading.field)
    }
  }

  /** `rdc_gpu_gauges_t`. */
  type Gauges = map<FieldKey, nat>

  const GPU_CLOCK := 100
  const MEM_CLOCK := 101
  const MEMORY_TEMP := 200
  const GPU_TEMP := 201
  const POWER_USAGE := 300
  const PCIE_TX := 400
  const PCIE_RX := 401
  const GPU_UTIL := 500
  const GPU_MEMORY_USAGE := 501
  const GPU_MEMORY_TOTAL := 502
  const ECC_CORRECT_TOTAL := 600
  const ECC_UNCORRECT_TOTAL := 601

  const TWO31 := 0x8000_0000
  const TWO32 := 0x1_0000_0000
  const TWO63 := 0x8000_0000_0000_0000
  const TWO64 := 0x1_0000_0000_0000_0000

  /** `is_notification_event`: the five RDC_EVNT_NOTIF fields. */
  predicate IsNotification(field: nat) {
    2000 <= field <= 2004
  }

  /** The fields for which the fetcher opens an event counter. */
  predicate IsCounterEvent(field: nat) {
    1000 <= field <= 1007 || 1500 <= field <= 1505
  }

  function Min(a: int, b: int): int {
    if a <= b then a else b
  }

  function Max(a: int, b: int): int {
    if a <= b then b else a
  }

  function MaxReal(a: real, b: real): real {
    if a < b then b else a
  }

  ghost predicate Distinct<T>(s: seq<T>) {
    forall i, j :: 0 <= i < j < |s| ==> s[i] != s[j]
  }

  lemma MulMono(d: nat, a: nat, b: nat)
    requires a <= b
    ensures d * a <= d * b && a * d <= b * d
  {
  }

  lemma DivMono(a: nat, b: nat, d: nat)
    requires a <= b && d > 0
    ensures a / d <= b / d <= b
  {
    var q := b / d;
    assert d * q <= b < d * q + d;
    MulMono(q, 1, d);
    if a / d > q {
      MulMono(d, q + 1, a / d);
    }
  }

  /** Subtraction of two uint64 values. */
  function Sub64(a: nat, b: nat): nat {
    (a - b) % TWO64
  }
}
