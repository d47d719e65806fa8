/** GPU groups and field groups (`RdcGroupSettingsImpl`). */
module GroupSettings {
  import opened Common

  const MAX_GROUPS := 64
  const MAX_ENTITIES := 64
  const MAX_FIELDS_PER_GROUP := 128
  const JOB_FIELD_GROUP := 0

  const JOB_FIELDS: seq<nat> :=
    [GPU_MEMORY_USAGE, POWER_USAGE, GPU_CLOCK, GPU_UTIL, PCIE_TX, PCIE_RX, MEM_CLOCK, GPU_TEMP]

  /** The two tables and their 32-bit id counters. */
  datatype Groups = Groups(gpus: map<nat, seq<nat>>, fields: map<nat, seq<nat>>, nextGpu: nat, nextField: nat)

  datatype GroupOp =
    | CreateGpus
    | DestroyGpus(id: nat)
    | AddGpu(id: nat, gpu: nat)
    | CreateFields(list: seq<nat>)
    | DestroyFields(id: nat)

  /** `std::map::emplace` leaves an existing entry alone. */
  function Emplace(m: map<nat, seq<nat>>, id: nat, list: seq<nat>): map<nat, seq<nat>> {
    if id in m then m else m[id := list]
  }

  /** The effect of one group operation on the tables. */
  function Apply(g: Groups, op: GroupOp): Groups {
    match op
    case CreateGpus =>
      if |g.gpus| >= MAX_GROUPS then g
      else g.(gpus := Emplace(g.gpus, g.nextGpu, []), nextGpu := (g.nextGpu + 1) % TWO32)
    case DestroyGpus(id) => g.(gpus := g.gpus - {id})
    case AddGpu(id, gpu) =>
      if id !in g.gpus || gpu in g.gpus[id] || |g.gpus[id]| >= MAX_ENTITIES then g
      else g.(gpus := g.gpus[id := g.gpus[id] + [gpu]])
    case CreateFields(list) =>
      if |list| > MAX_FIELDS_PER_GROUP || |g.fields| >= MAX_GROUPS then g
      else g.(fields := Emplace(g.fields, g.nextField, list), nextField := (g.nextField + 1) % TWO32)
    case DestroyFields(id) =>
      if id == JOB_FIELD_GROUP then g else g.(fields := g.fields - {id})
  }

  const INITIAL: Groups := Groups(map[], map[JOB_FIELD_GROUP := JOB_FIELDS], 1, 1)

  /** The eight fields a job's statistics are made of. */
  ghost predicate HasJobFields(list: seq<nat>) {
    list == [GPU_MEMORY_USAGE, POWER_USAGE, GPU_CLOCK, GPU_UTIL, PCIE_TX, PCIE_RX, MEM_CLOCK, GPU_TEMP]
  }

  /** What every run of group operations keeps, wrapped counters included. */
  ghost predicate WithinLimits(g: Groups) {
    && |g.gpus| <= 64 && |g.fields| <= 64
    && (forall id :: id in g.gpus ==> |g.gpus[id]| <= 64 && Distinct(g.gpus[id]))
    && (forall id :: id in g.fields ==> |g.fields[id]| <= 128)
    && 0 in g.fields && HasJobFields(g.fields[0])
  }

  /** Every id in use was issued below the counter: true until the counter wraps. */
  ghost predicate IdsIssued(g: Groups) {
    && 0 < g.nextField
    && (forall id :: id in g.gpus ==> id < g.nextGpu)
    && (forall id :: id in g.fields ==> id < g.nextField)
  }

  /** The operation does not take a counter past its last 32-bit value. */
  predicate NoWrap(g: Groups, op: GroupOp) {
    && (op.CreateGpus? ==> g.nextGpu + 1 < TWO32)
    && (op.CreateFields? ==> g.nextField + 1 < TWO32)
  }

  lemma InitialWithinLimits()
    ensures WithinLimits(INITIAL) && IdsIssued(INITIAL)
  {
    assert |INITIAL.fields| == 1;
  }

  lemma {:induction false} SubsetSize(a: set<nat>, b: set<nat>)
    requires a <= b
    ensures |a| <= |b|
  {
    if a != {} {
      var x :| x in a;
      SubsetSize(a - {x}, b - {x});
    }
  }

  lemma RemoveShrinks(m: map<nat, seq<nat>>, id: nat)
    ensures |m - {id}| <= |m|
  {
    assert (m - {id}).Keys <= m.Keys;
    SubsetSize((m - {id}).Keys, m.Keys);
  }

  lemma CreateGpusWithinLimits(g: Groups)
    requires WithinLimits(g)
    ensures WithinLimits(Apply(g, CreateGpus))
  {
    var h := Apply(g, CreateGpus);
    assert forall id :: id in h.gpus ==> id in g.gpus || h.gpus[id] == [];
  }

  lemma AddGpuWithinLimits(g: Groups, id: nat, gpu: nat)
    requires WithinLimits(g)
    ensures WithinLimits(Apply(g, AddGpu(id, gpu)))
  {
    var h := Apply(g, AddGpu(id, gpu));
    if h != g {
      assert h.gpus.Keys == g.gpus.Keys;
      assert Distinct(g.gpus[id] + [gpu]);
    }
  }

  lemma CreateFieldsWithinLimits(g: Groups, list: seq<nat>)
    requires WithinLimits(g)
    ensures WithinLimits(Apply(g, CreateFields(list)))
  {
  }

  lemma DestroyWithinLimits(g: Groups, id: nat)
    requires WithinLimits(g)
    ensures WithinLimits(Apply(g, DestroyGpus(id))) && WithinLimits(Apply(g, DestroyFields(id)))
  {
    RemoveShrinks(g.gpus, id);
    RemoveShrinks(g.fields, id);
  }

  /** One operation keeps the limits, whether or not a counter wraps. */
  lemma ApplyWithinLimits(g: Groups, op: GroupOp)
    requires WithinLimits(g)
    ensures WithinLimits(Apply(g, op))
  {
    match op
    case CreateGpus => CreateGpusWithinLimits(g);
    case DestroyGpus(id) => DestroyWithinLimits(g, id);
    case AddGpu(id, gpu) => AddGpuWithinLimits(g, id, gpu);
    case CreateFields(list) => CreateFieldsWithinLimits(g, list);
    case DestroyFields(id) => DestroyWithinLimits(g, id);
  }

  /** Short of a wrap, an id that is absent and was already issued stays absent. */
  lemma ApplyIdsIssued(g: Groups, op: GroupOp)
    requires IdsIssued(g) && NoWrap(g, op)
    ensures
      var h := Apply(g, op);
      && IdsIssued(h) && g.nextGpu <= h.nextGpu && g.nextField <= h.nextField
      && (forall id :: id in h.gpus && id < g.nextGpu ==> id in g.gpus)
      && (forall id :: id in h.fields && id < g.nextField ==> id in g.fields)
  {
    match op
    case CreateGpus =>
    case DestroyGpus(id) =>
    case AddGpu(id, gpu) =>
    case CreateFields(list) =>
    case DestroyFields(id) =>
  }

  /** Runs of group operations. */
  function ApplyAll(g: Groups, ops: seq<GroupOp>): Groups {
    if ops == [] then g else Apply(ApplyAll(g, ops[..|ops| - 1]), ops[|ops| - 1])
  }

  /** No operation of the run takes a counter past its last value. */
  predicate NeverWraps(g: Groups, ops: seq<GroupOp>) {
    ops == [] || (NeverWraps(g, ops[..|ops| - 1]) && NoWrap(ApplyAll(g, ops[..|ops| - 1]), ops[|ops| - 1]))
  }

  /** Every run from start-up keeps the limits and the job field group. */
  lemma {:induction false} RunWithinLimits(ops: seq<GroupOp>)
    ensures WithinLimits(ApplyAll(INITIAL, ops))
  {
    if ops == [] {
      InitialWithinLimits();
    } else {
      RunWithinLimits(ops[..|ops| - 1]);
      ApplyWithinLimits(ApplyAll(INITIAL, ops[..|ops| - 1]), ops[|ops| - 1]);
    }
  }

  /** Ids are never reused: an id gone from a table never comes back in a run that does not wrap. */
  lemma {:induction false} IdsNeverReused(g: Groups, ops: seq<GroupOp>)
    requires IdsIssued(g) && NeverWraps(g, ops)
    ensures
      var h := ApplyAll(g, ops);
      && IdsIssued(h) && g.nextGpu <= h.nextGpu && g.nextField <= h.nextField
      && (forall id :: id < g.nextGpu && id !in g.gpus ==> id !in h.gpus)
      && (forall id :: id < g.nextField && id !in g.fields ==> id !in h.fields)
  {
    if ops != [] {
      IdsNeverReused(g, ops[..|ops| - 1]);
      ApplyIdsIssued(ApplyAll(g, ops[..|ops| - 1]), ops[|ops| - 1]);
    }
  }

  /** What a table holds under an id issued before is what it held, or more GPUs at the end. */
  ghost predicate Grows(g: Groups, h: Groups) {
    && (forall id :: id in h.gpus && id < g.nextGpu ==> id in g.gpus && g.gpus[id] <= h.gpus[id])
    && (forall id :: id in h.fields && id < g.nextField ==> id in g.fields && g.fields[id] == h.fields[id])
  }

  lemma ApplyGrows(g: Groups, op: GroupOp)
    requires IdsIssued(g) && NoWrap(g, op)
    ensures Grows(g, Apply(g, op))
  {
  }

  /** A GPU added to a group stays in it as long as the group exists, in its place; a field group
      never changes. */
  lemma {:induction false} GroupsOnlyGrow(g: Groups, ops: seq<GroupOp>)
    requires IdsIssued(g) && NeverWraps(g, ops)
    ensures Grows(g, ApplyAll(g, ops))
  {
    if ops != [] {
      var init := ops[..|ops| - 1];
      GroupsOnlyGrow(g, init);
      IdsNeverReused(g, init);
      ApplyGrows(ApplyAll(g, init), ops[|ops| - 1]);
    }
  }

  lemma ApplyKeepsMembers(g: Groups, op: GroupOp, id: nat)
    requires id in g.gpus && op != DestroyGpus(id)
    ensures id in Apply(g, op).gpus
    ensures forall gpu :: gpu in Apply(g, op).gpus[id] ==> gpu in g.gpus[id] || op == AddGpu(id, gpu)
    ensures forall gpu :: gpu in g.gpus[id] ==> gpu in Apply(g, op).gpus[id]
    ensures |g.gpus[id]| < 64 ==> forall gpu :: op == AddGpu(id, gpu) ==> gpu in Apply(g, op).gpus[id]
    ensures |g.gpus[id]| <= |Apply(g, op).gpus[id]|
  {
    match op
    case CreateGpus =>
    case DestroyGpus(i) =>
    case AddGpu(i, gpu) =>
    case CreateFields(list) =>
    case DestroyFields(i) =>
  }

  /** A new group that is not destroyed holds only GPUs added to it, and all of them until it has 64;
      other groups' operations, and ids that wrap, do not matter. */
  lemma {:induction false} MembersAreAdded(g: Groups, ops: seq<GroupOp>, id: nat)
    requires id in g.gpus && g.gpus[id] == [] && DestroyGpus(id) !in ops
    ensures
      var h := ApplyAll(g, ops);
      && id in h.gpus
      && (forall gpu :: gpu in h.gpus[id] ==> AddGpu(id, gpu) in ops)
      && (|h.gpus[id]| < 64 ==> forall gpu :: AddGpu(id, gpu) in ops ==> gpu in h.gpus[id])
  {
    if ops == [] {
    } else {
      var init, op := ops[..|ops| - 1], ops[|ops| - 1];
      assert forall x :: x in ops <==> x in init || x == op by {
        assert ops == init + [op];
      }
      MembersAreAdded(g, init, id);
      ApplyKeepsMembers(ApplyAll(g, init), op, id);
    }
  }

  /** A create that is not refused puts what was asked for under the id it hands out exactly when
      the counter stands at a free id (or at a group with the same content). */
  lemma IssuedIdHoldsRequestIff(g: Groups, list: seq<nat>)
    ensures |g.gpus| < MAX_GROUPS ==>
              var h := Apply(g, CreateGpus);
              && g.nextGpu in h.gpus
              && (h.gpus[g.nextGpu] == [] <==> g.nextGpu !in g.gpus || g.gpus[g.nextGpu] == [])
    ensures |g.fields| < MAX_GROUPS && |list| <= MAX_FIELDS_PER_GROUP ==>
              var h := Apply(g, CreateFields(list));
              && g.nextField in h.fields
              && (h.fields[g.nextField] == list <==> g.nextField !in g.fields || g.fields[g.nextField] == list)
  {
  }

  /** In a run from start-up that does not wrap, both counters always stand at a free id. */
  lemma IssuedIdsAreFree(ops: seq<GroupOp>)
    requires NeverWraps(INITIAL, ops)
    ensures
      var g := ApplyAll(INITIAL, ops);
      g.nextGpu !in g.gpus && g.nextField !in g.fields
  {
    InitialWithinLimits();
    IdsNeverReused(INITIAL, ops);
  }

  // ---------------------------------------------------------------------
  // The hypothesis that counters do not wrap is needed

  ghost predicate AppliedAt(states: seq<Groups>, ops: seq<GroupOp>, i: nat)
    requires i < |ops| && |states| == |ops| + 1
  {
    states[i + 1] == Apply(states[i], ops[i])
  }

  /** The operations lead through these states. */
  ghost predicate Through(states: seq<Groups>, ops: seq<GroupOp>) {
    |states| == |ops| + 1 && forall i :: 0 <= i < |ops| ==> AppliedAt(states, ops, i)
  }

  ghost predicate Reaches(g: Groups, h: Groups) {
    exists states, ops :: Through(states, ops) && states[0] == g && states[|ops|] == h
  }

  lemma JoinRuns(s: seq<Groups>, a: seq<GroupOp>, t: seq<Groups>, b: seq<GroupOp>)
    requires Through(s, a) && Through(t, b) && s[|a|] == t[0]
    ensures Through(s + t[1..], a + b)
  {
    var u, ops := s + t[1..], a + b;
    forall i | 0 <= i < |ops| ensures AppliedAt(u, ops, i) {
      if i < |a| {
        assert AppliedAt(s, a, i);
      } else {
        assert AppliedAt(t, b, i - |a|);
      }
    }
  }

  lemma ReachesOn(g: Groups, h: Groups, k: Groups)
    requires Reaches(g, h) && Reaches(h, k)
    ensures Reaches(g, k)
  {
    var s, a :| Through(s, a) && s[0] == g && s[|a|] == h;
    var t, b :| Through(t, b) && t[0] == h && t[|b|] == k;
    JoinRuns(s, a, t, b);
    assert (s + t[1..])[|a + b|] == k;
  }

  lemma ReachesNext(g: Groups, op: GroupOp)
    ensures Reaches(g, Apply(g, op))
  {
    var states, ops := [g, Apply(g, op)], [op];
    assert AppliedAt(states, ops, 0);
    assert Through(states, ops);
  }

  /** No group but the job field group, and both counters at `next`. */
  ghost predicate Idle(g: Groups, next: nat) {
    && g.gpus == map[] && g.nextGpu == next && g.nextField == next
    && g.fields.Keys == {JOB_FIELD_GROUP} && g.fields[JOB_FIELD_GROUP] == JOB_FIELDS
  }

  /** A GPU group created and destroyed again. */
  lemma GpuCycle(g: Groups, n: nat)
    requires g.gpus == map[] && g.nextGpu == n && n + 1 < TWO32
    ensures Reaches(g, g.(nextGpu := n + 1))
  {
    var h := Apply(g, CreateGpus);
    assert h == g.(gpus := map[n := []], nextGpu := n + 1);
    assert Apply(h, DestroyGpus(n)) == g.(nextGpu := n + 1) by {
      assert h.gpus - {n} == map[];
    }
    ReachesNext(g, CreateGpus);
    ReachesNext(h, DestroyGpus(n));
    ReachesOn(g, h, g.(nextGpu := n + 1));
  }

  /** A field group created and destroyed again. */
  lemma FieldCycle(g: Groups, n: nat)
    requires g.fields.Keys == {JOB_FIELD_GROUP} && g.nextField == n && 0 < n && n + 1 < TWO32
    ensures Reaches(g, g.(nextField := n + 1))
  {
    assert |g.fields| == |g.fields.Keys| == 1;
    var h := Apply(g, CreateFields([]));
    assert h == g.(fields := g.fields[n := []], nextField := n + 1);
    assert Apply(h, DestroyFields(n)) == g.(nextField := n + 1) by {
      assert h.fields - {n} == g.fields;
    }
    ReachesNext(g, CreateFields([]));
    ReachesNext(h, DestroyFields(n));
    ReachesOn(g, h, g.(nextField := n + 1));
  }

  lemma BothCycle(g: Groups, n: nat) returns (h: Groups)
    requires Idle(g, n) && 0 < n && n + 1 < TWO32
    ensures Reaches(g, h) && Idle(h, n + 1)
  {
    var m := g.(nextGpu := n + 1);
    h := m.(nextField := n + 1);
    GpuCycle(g, n);
    FieldCycle(m, n);
    ReachesOn(g, m, h);
  }

  lemma StartsIdle()
    ensures Reaches(INITIAL, INITIAL) && Idle(INITIAL, 1)
  {
    assert Through([INITIAL], []);
  }

  /** A run from start-up can issue and destroy the first `n` ids of both kinds. */
  lemma {:induction false} CyclesReach(n: nat) returns (h: Groups)
    requires n + 1 < TWO32
    ensures Reaches(INITIAL, h) && Idle(h, n + 1)
  {
    if n == 0 {
      StartsIdle();
      h := INITIAL;
    } else {
      var g := CyclesReach(n - 1);
      h := BothCycle(g, n);
      ReachesOn(INITIAL, g, h);
    }
  }

  lemma LastIdsWrap(g: Groups)
    requires Idle(g, TWO32 - 1)
    ensures 1 in Apply(Apply(Apply(g, CreateGpus), CreateGpus), CreateGpus).gpus
  {
    var a := Apply(g, CreateGpus);
    assert a.gpus == map[TWO32 - 1 := []] && a.nextGpu == 0;
    var b := Apply(a, CreateGpus);
    assert b.gpus == map[TWO32 - 1 := [], 0 := []] && b.nextGpu == 1;
  }

  /** A run from start-up that issues and destroys every id but the last, and then creates three more
      groups, gives id 1, issued and destroyed long before, to another group. */
  lemma WrapReusesAnId() returns (before: Groups)
    ensures Reaches(INITIAL, before) && 1 < before.nextGpu && 1 !in before.gpus
    ensures 1 in Apply(Apply(Apply(before, CreateGpus), CreateGpus), CreateGpus).gpus
  {
    before := CyclesReach(TWO32 - 2);
    LastIdsWrap(before);
  }

  lemma LastFieldIdWraps(g: Groups, list: seq<nat>)
    requires Idle(g, TWO32 - 1) && |list| <= MAX_FIELDS_PER_GROUP
    ensures
      var h := Apply(g, CreateFields([]));
      && h.nextField == JOB_FIELD_GROUP && JOB_FIELD_GROUP in h.fields && h.fields[JOB_FIELD_GROUP] == JOB_FIELDS
      && Apply(h, CreateFields(list)) == h.(nextField := 1)
  {
    assert |g.fields| == |g.fields.Keys| == 1;
    var h := Apply(g, CreateFields([]));
    assert h == g.(fields := g.fields[TWO32 - 1 := []], nextField := 0);
    assert |h.fields| == 2;
  }

  /** In a run from start-up that issues every field group id, the next create is answered Ok with id
      0, whatever the client asked for: the job field group stays, and the client's list is dropped. */
  lemma WrapHandsOutJobGroup(list: seq<nat>) returns (before: Groups)
    requires |list| <= MAX_FIELDS_PER_GROUP
    ensures Reaches(INITIAL, before) && before.nextField == JOB_FIELD_GROUP
    ensures JOB_FIELD_GROUP in before.fields && before.fields[JOB_FIELD_GROUP] == JOB_FIELDS
    ensures Apply(before, CreateFields(list)) == before.(nextField := 1)
  {
    var g := CyclesReach(TWO32 - 2);
    LastFieldIdWraps(g, list);
    before := Apply(g, CreateFields([]));
    ReachesNext(g, CreateFields([]));
    ReachesOn(INITIAL, g, before);
  }

  /** The object clients share; each method is one critical section. */
  class GroupTable {
    var gpuGroups: map<nat, seq<nat>>
    var fieldGroups: map<nat, seq<nat>>
    var curGroupId: nat
    var curFieldGroupId: nat

    ghost function State(): Groups
      reads this
    {
      Groups(gpuGroups, fieldGroups, curGroupId, curFieldGroupId)
    }

    constructor ()
      ensures State() == INITIAL
    {
      gpuGroups, curGroupId := map[], 1;
      fieldGroups, curFieldGroupId := map[], 0;
      new;
      var st, id := CreateFieldGroup(JOB_FIELDS);
    }

    method CreateGpuGroup() returns (st: Status, id: nat)
      modifies this
      ensures State() == Apply(old(State()), CreateGpus)
      ensures st == if old(|gpuGroups|) >= 64 then MaxLimit else Ok
      ensures st == Ok ==> id == old(curGroupId) && id in gpuGroups
      ensures st == Ok && id !in old(gpuGroups) ==> gpuGroups == old(gpuGroups)[id := []]
      ensures st == Ok && id in old(gpuGroups) ==> gpuGroups == old(gpuGroups)
      ensures st != Ok ==> State() == old(State())
    {
      id := curGroupId;
      if |gpuGroups| >= MAX_GROUPS {
        return MaxLimit, id;
      }
      if curGroupId !in gpuGroups {
        gpuGroups := gpuGroups[curGroupId := []];
      }
      curGroupId := (curGroupId + 1) % TWO32;
      st := Ok;
    }

    method DestroyGpuGroup(id: nat) returns (st: Status)
      modifies this
      ensures State() == Apply(old(State()), DestroyGpus(id))
      ensures st == if id in old(gpuGroups) then Ok else NotFound
      ensures id !in gpuGroups && forall i :: i != id && i in old(gpuGroups) ==>
        i in gpuGroups && gpuGroups[i] == old(gpuGroups)[i]
    {
      st := if id in gpuGroups then Ok else NotFound;
      gpuGroups := gpuGroups - {id};
    }

    method AddGpuToGroup(id: nat, gpu: nat) returns (st: Status)
      modifies this
      ensures State() == Apply(old(State()), AddGpu(id, gpu))
      ensures st ==
        if id !in old(gpuGroups) then NotFound
        else if gpu in old(gpuGroups)[id] then BadParameter
        else if |old(gpuGroups)[id]| >= 64 then MaxLimit
        else Ok
      ensures st == Ok ==> gpuGroups == old(gpuGroups)[id := old(gpuGroups)[id] + [gpu]]
      ensures st != Ok ==> State() == old(State())
    {
      if id !in gpuGroups {
        return NotFound;
      }
      var list := gpuGroups[id];
      for i := 0 to |list|
        invariant gpu !in list[..i]
      {
        if list[i] == gpu {
          return BadParameter;
        }
      }
      assert list[..|list|] == list;
      if |list| >= MAX_ENTITIES {
        return MaxLimit;
      }
      gpuGroups := gpuGroups[id := list + [gpu]];
      st := Ok;
    }

    method CreateFieldGroup(list: seq<nat>) returns (st: Status, id: nat)
      modifies this
      ensures State() == Apply(old(State()), CreateFields(list))
      ensures st ==
        if |list| > 128 || old(|fieldGroups|) >= 64 then MaxLimit else Ok
      ensures st == Ok ==> id == old(curFieldGroupId) && id in fieldGroups
      ensures st == Ok && id !in old(fieldGroups) ==> fieldGroups == old(fieldGroups)[id := list]
      ensures st == Ok && id in old(fieldGroups) ==> fieldGroups == old(fieldGroups)
      ensures st != Ok ==> State() == old(State())
    {
      id := curFieldGroupId;
      if |list| > MAX_FIELDS_PER_GROUP || |fieldGroups| >= MAX_GROUPS {
        return MaxLimit, id;
      }
      if curFieldGroupId !in fieldGroups {
        fieldGroups := fieldGroups[curFieldGroupId := list];
      }
      curFieldGroupId := (curFieldGroupId + 1) % TWO32;
      st := Ok;
    }

    method DestroyFieldGroup(id: nat) returns (st: Status)
      modifies this
      ensures State() == Apply(old(State()), DestroyFields(id))
      ensures st ==
        if id == 0 then BadParameter else if id in old(fieldGroups) then Ok else NotFound
      ensures st == Ok ==> id !in fieldGroups && forall i :: i != id && i in old(fieldGroups) ==>
        i in fieldGroups && fieldGroups[i] == old(fieldGroups)[i]
      ensures st != Ok ==> State() == old(State())
    {
      if id == JOB_FIELD_GROUP {
        return BadParameter;
      }
      st := if id in fieldGroups then Ok else NotFound;
      fieldGroups := fieldGroups - {id};
    }

    method GpuGroupInfo(id: nat) returns (info: Option<seq<nat>>)
      ensures info == if id in gpuGroups then Some(gpuGroups[id]) else None
    {
      info := if id in gpuGroups then Some(gpuGroups[id]) else None;
    }

    method FieldGroupInfo(id: nat) returns (info: Option<seq<nat>>)
      ensures info == if id in fieldGroups then Some(fieldGroups[id]) else None
    {
      info := if id in fieldGroups then Some(fieldGroups[id]) else None;
    }
  }
}
