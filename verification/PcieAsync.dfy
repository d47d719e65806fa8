/** The asynchronous PCIe throughput fetch (`RdcMetricFetcherImpl`): callers queue tasks, one
    worker runs them, and a cache with a lifetime of 30 seconds stands between. */
module PcieAsync {
  import opened Common

  /** `cache_ttl`, in milliseconds. */
  const TTL := 30 * 1000

  /** `MetricValue`. */
  datatype Metric = Metric(lastTime: nat, status: Status, value: int)

  type Metrics = map<FieldKey, Metric>

  function Tx(gpu: nat): FieldKey {
    FieldKey(gpu, PCIE_TX)
  }

  function Rx(gpu: nat): FieldKey {
    FieldKey(gpu, PCIE_RX)
  }

  /** The cache entry has not expired. */
  predicate Young(ms: Metrics, k: FieldKey, now: nat) {
    k in ms && now < ms[k].lastTime + TTL
  }

  ghost function ValueOr(ms: Metrics, k: FieldKey): int {
    if k in ms then ms[k].value else 0
  }

  /** An entry after a read: stamp and status always, the value only on success. */
  function Refreshed(ms: Metrics, k: FieldKey, stamp: nat, status: Status, value: int): Metric {
    Metric(stamp, status, if status == Ok then value else if k in ms then ms[k].value else 0)
  }

  /** The last critical section of `get_pcie_throughput`. */
  function Published(ms: Metrics, gpu: nat, stamp: nat, status: Status, sent: int, received: int): Metrics {
    ms[Tx(gpu) := Refreshed(ms, Tx(gpu), stamp, status, sent)]
      [Rx(gpu) := Refreshed(ms, Rx(gpu), stamp, status, received)]
  }

  // ---------------------------------------------------------------------
  // The interleaving of callers and worker

  /** One hardware read: when it started, when it was stamped and what it gave. */
  datatype Read = Read(gpu: nat, start: nat, stamp: nat, status: Status, sent: int, received: int)

  /** Where the worker is in the task it runs. */
  datatype Worker =
    | Idle
    | Checking(key: FieldKey)
    | Fetching(key: FieldKey, start: nat)
    | Publishing(key: FieldKey, read: Read)

  /** `log` is the history of published hardware reads. */
  datatype Fetcher = Fetcher(metrics: Metrics, queue: seq<FieldKey>, worker: Worker, log: seq<Read>, clock: nat)

  /** `at` is the clock reading a step takes. */
  datatype Step =
    | Request(key: FieldKey, at: nat)
    | Pop
    | Check(at: nat, start: nat)
    | Finish(at: nat, status: Status, sent: int, received: int)
    | Publish

  predicate CanTake(f: Fetcher, s: Step) {
    match s
    case Request(k, at) => f.clock <= at && (k.field == PCIE_TX || k.field == PCIE_RX)
    case Pop => f.worker.Idle? && f.queue != []
    case Check(at, start) => f.worker.Checking? && f.clock <= at <= start
    case Finish(at, status, sent, received) => f.worker.Fetching? && f.clock <= at
    case Publish => f.worker.Publishing?
  }

  function Take(f: Fetcher, s: Step): Fetcher
    requires CanTake(f, s)
  {
    match s
    case Request(k, at) => f.(queue := if Young(f.metrics, k, at) then f.queue else f.queue + [k], clock := at)
    case Pop => f.(queue := f.queue[1..], worker := Checking(f.queue[0]))
    case Check(at, start) =>
      f.(worker := if Young(f.metrics, f.worker.key, at) then Idle else Fetching(f.worker.key, start), clock := start)
    case Finish(at, status, sent, received) =>
      f.(worker := Publishing(f.worker.key, Read(f.worker.key.gpu, f.worker.start, at, status, sent, received)),
         clock := at)
    case Publish =>
      var r := f.worker.read;
      f.(metrics := Published(f.metrics, r.gpu, r.stamp, r.status, r.sent, r.received), worker := Idle,
         log := f.log + [r])
  }

  /** The last read of a GPU. */
  function Latest(log: seq<Read>, gpu: nat): Option<Read> {
    if log == [] then None
    else if log[|log| - 1].gpu == gpu then Some(log[|log| - 1])
    else Latest(log[..|log| - 1], gpu)
  }

  /** Reads of one GPU: each starts at least the lifetime after the previous one was stamped. */
  ghost predicate Spaced(log: seq<Read>) {
    && (forall i :: 0 <= i < |log| ==> log[i].start <= log[i].stamp)
    && (forall i, j :: 0 <= i < j < |log| && log[i].gpu == log[j].gpu ==> log[i].stamp + 30000 <= log[j].start)
  }

  /** The two entries of a GPU exist together and carry its last read. */
  ghost predicate Mirrors(ms: Metrics, log: seq<Read>, gpu: nat) {
    match Latest(log, gpu)
    case None => Tx(gpu) !in ms && Rx(gpu) !in ms
    case Some(r) =>
      && Tx(gpu) in ms && Rx(gpu) in ms
      && ms[Tx(gpu)].lastTime == ms[Rx(gpu)].lastTime == r.stamp
      && ms[Tx(gpu)].status == ms[Rx(gpu)].status == r.status
      && (r.status == Ok ==> ms[Tx(gpu)].value == r.sent && ms[Rx(gpu)].value == r.received)
  }

  /** A read under way respects the spacing. */
  ghost predicate MayFollow(log: seq<Read>, gpu: nat, start: nat) {
    forall i :: 0 <= i < |log| && log[i].gpu == gpu ==> log[i].stamp + TTL <= start
  }

  ghost predicate Throughput(k: FieldKey) {
    k.field == PCIE_TX || k.field == PCIE_RX
  }

  ghost predicate WorkerSound(f: Fetcher) {
    match f.worker
    case Idle => true
    case Checking(k) => Throughput(k)
    case Fetching(k, start) => start <= f.clock && MayFollow(f.log, k.gpu, start)
    case Publishing(k, r) => r.start <= r.stamp && MayFollow(f.log, r.gpu, r.start)
  }

  ghost predicate Sound(f: Fetcher) {
    && Spaced(f.log)
    && (forall gpu :: Mirrors(f.metrics, f.log, gpu))
    && (forall i :: 0 <= i < |f.queue| ==> Throughput(f.queue[i]))
    && WorkerSound(f)
  }

  lemma {:induction false} LatestDominates(log: seq<Read>, gpu: nat, i: nat)
    requires Spaced(log) && i < |log| && log[i].gpu == gpu
    ensures Latest(log, gpu).Some? && log[i].stamp <= Latest(log, gpu).value.stamp
  {
    var last := |log| - 1;
    if log[last].gpu == gpu {
      assert i < last ==> log[i].stamp + TTL <= log[last].start;
    } else {
      LatestDominates(log[..last], gpu, i);
    }
  }

  /** An entry the worker finds expired or missing allows a new read. */
  lemma ExpiredMayFollow(ms: Metrics, log: seq<Read>, k: FieldKey, at: nat)
    requires Spaced(log) && Mirrors(ms, log, k.gpu) && Throughput(k) && !Young(ms, k, at)
    ensures MayFollow(log, k.gpu, at)
  {
    assert k == Tx(k.gpu) || k == Rx(k.gpu);
    forall i | 0 <= i < |log| && log[i].gpu == k.gpu ensures log[i].stamp + TTL <= at {
      LatestDominates(log, k.gpu, i);
    }
  }

  lemma PublishKeepsSound(f: Fetcher)
    requires Sound(f) && f.worker.Publishing?
    ensures Sound(Take(f, Publish))
  {
    var n, r := Take(f, Publish), f.worker.read;
    forall gpu ensures Mirrors(n.metrics, n.log, gpu) {
      assert Mirrors(f.metrics, f.log, gpu);
      assert n.log[..|f.log|] == f.log;
      assert Latest(n.log, gpu) == if gpu == r.gpu then Some(r) else Latest(f.log, gpu);
    }
  }

  lemma StepKeepsSound(f: Fetcher, s: Step)
    requires Sound(f) && CanTake(f, s)
    ensures Sound(Take(f, s))
  {
    match s
    case Check(at, start) =>
      var k := f.worker.key;
      if !Young(f.metrics, k, at) {
        assert Mirrors(f.metrics, f.log, k.gpu);
        ExpiredMayFollow(f.metrics, f.log, k, at);
      }
    case Publish => PublishKeepsSound(f);
    case _ =>
  }

  const START: Fetcher := Fetcher(map[], [], Idle, [], 0)

  ghost predicate IsRun(states: seq<Fetcher>, steps: seq<Step>) {
    && |states| == |steps| + 1 && states[0] == START
    && forall i :: 0 <= i < |steps| ==> CanTake(states[i], steps[i]) && states[i + 1] == Take(states[i], steps[i])
  }

  /** For any number of queued tasks in any interleaving with the single worker: the TX and RX
      entries of a GPU exist together with equal times, and hardware reads of a GPU are spaced. */
  lemma {:induction false} AlwaysSound(states: seq<Fetcher>, steps: seq<Step>, n: nat)
    requires IsRun(states, steps) && n < |states|
    ensures Sound(states[n])
  {
    if n > 0 {
      AlwaysSound(states, steps, n - 1);
      StepKeepsSound(states[n - 1], steps[n - 1]);
    } else {
      assert forall gpu :: Mirrors(map[], [], gpu);
    }
  }

  /** What a read says of a throughput field. */
  function ReadValue(r: Read, k: FieldKey): int {
    if k.field == PCIE_TX then r.sent else r.received
  }

  /** A value served from the cache is that of the GPU's last hardware read, stamped less than the
      lifetime ago; a request that is not served queues one task. */
  lemma ServedIsYoung(states: seq<Fetcher>, steps: seq<Step>, n: nat)
    requires IsRun(states, steps) && n < |steps| && steps[n].Request?
    ensures
      var f, k, at := states[n], steps[n].key, steps[n].at;
      if Young(f.metrics, k, at)
      then
        && Latest(f.log, k.gpu).Some?
        && at < Latest(f.log, k.gpu).value.stamp + 30000
        && f.metrics[k].status == Latest(f.log, k.gpu).value.status
        && (f.metrics[k].status == Ok ==> f.metrics[k].value == ReadValue(Latest(f.log, k.gpu).value, k))
        && states[n + 1].queue == f.queue
      else states[n + 1].queue == f.queue + [k]
  {
    AlwaysSound(states, steps, n);
    var f, k := states[n], steps[n].key;
    assert CanTake(f, steps[n]);
    assert Mirrors(f.metrics, f.log, k.gpu);
    assert k == Tx(k.gpu) || k == Rx(k.gpu);
  }

  // ---------------------------------------------------------------------
  // A read is served until it expires

  /** The step finishes a hardware read of the GPU. */
  ghost predicate Finishes(f: Fetcher, s: Step, gpu: nat) {
    s.Finish? && f.worker.Fetching? && f.worker.key.gpu == gpu
  }

  ghost predicate TakenAt(states: seq<Fetcher>, steps: seq<Step>, i: nat)
    requires i < |steps| && |states| == |steps| + 1
  {
    CanTake(states[i], steps[i]) && states[i + 1] == Take(states[i], steps[i])
  }

  lemma {:induction false} ReadWaits(states: seq<Fetcher>, steps: seq<Step>, i: nat, n: nat, gpu: nat)
    requires IsRun(states, steps) && i < n <= |steps| && Finishes(states[i], steps[i], gpu)
    requires forall t :: i < t < n ==> !steps[t].Publish?
    ensures
      var w, s := states[n].worker, steps[i];
      w.Publishing? && w.read.gpu == gpu && w.read.stamp == s.at && w.read.status == s.status
      && w.read.sent == s.sent && w.read.received == s.received
    ensures states[n].metrics == states[i].metrics
  {
    assert TakenAt(states, steps, n - 1);
    if n > i + 1 {
      ReadWaits(states, steps, i, n - 1, gpu);
    }
  }

  /** The step at `i` finishes a read of the GPU, the one at `p` publishes it, and until `n` no other
      read of the GPU finishes. */
  ghost predicate ReadSince(states: seq<Fetcher>, steps: seq<Step>, i: nat, p: nat, n: nat, gpu: nat)
    requires |states| == |steps| + 1
  {
    && i < p < n < |states| && Finishes(states[i], steps[i], gpu)
    && steps[p].Publish? && (forall t :: i < t < p ==> !steps[t].Publish?)
    && (forall t :: p < t < n ==> !Finishes(states[t], steps[t], gpu))
  }

  /** The entry a read leaves: its stamp and status, and the value read if it succeeded, otherwise the
      value of before, if any. */
  ghost predicate Holds(ms: Metrics, k: FieldKey, before: Metrics, s: Step, value: int)
    requires s.Finish?
  {
    && k in ms && ms[k].lastTime == s.at && ms[k].status == s.status
    && (s.status == Ok ==> ms[k].value == value)
    && (s.status != Ok && k in before ==> ms[k].value == before[k].value)
  }

  lemma {:induction false} EntryStays(states: seq<Fetcher>, steps: seq<Step>, i: nat, p: nat, n: nat, gpu: nat)
    requires IsRun(states, steps) && ReadSince(states, steps, i, p, n, gpu)
    ensures Holds(states[n].metrics, FieldKey(gpu, PCIE_TX), states[p].metrics, steps[i], steps[i].sent)
    ensures Holds(states[n].metrics, FieldKey(gpu, PCIE_RX), states[p].metrics, steps[i], steps[i].received)
    ensures !(states[n].worker.Publishing? && states[n].worker.read.gpu == gpu)
  {
    assert TakenAt(states, steps, n - 1);
    if n == p + 1 {
      ReadWaits(states, steps, i, p, gpu);
    } else {
      EntryStays(states, steps, i, p, n - 1, gpu);
    }
  }

  /** Over any run, and without the log: once a read of a GPU that finished at `at` is published, and
      until another one finishes, a request for the GPU before `at` + 30000 is served what that read
      gave, sent for TX and received for RX, and queues no task; a later one queues one. */
  lemma PublishedIsServed(states: seq<Fetcher>, steps: seq<Step>, i: nat, p: nat, n: nat, gpu: nat)
    requires IsRun(states, steps) && ReadSince(states, steps, i, p, n, gpu)
    requires n < |steps| && steps[n].Request? && steps[n].key.gpu == gpu
    ensures
      var f, k, s := states[n], steps[n].key, steps[i];
      && Holds(f.metrics, k, states[p].metrics, s, if k.field == PCIE_TX then s.sent else s.received)
      && states[n + 1].queue == (if steps[n].at < s.at + 30000 then f.queue else f.queue + [k])
      && states[n + 1].metrics == f.metrics
  {
    EntryStays(states, steps, i, p, n, gpu);
    assert TakenAt(states, steps, n);
  }

  /** The worker goes on to a hardware read exactly when it finds the entry missing or at least 30000
      old; it reads the GPU of the task it took, the oldest one. */
  lemma CheckReadsIff(states: seq<Fetcher>, steps: seq<Step>, n: nat)
    requires IsRun(states, steps) && n < |steps| && steps[n].Check?
    ensures
      var f, k := states[n], states[n].worker.key;
      && f.worker.Checking?
      && (states[n + 1].worker.Fetching? <==> k !in f.metrics || f.metrics[k].lastTime + 30000 <= steps[n].at)
      && (states[n + 1].worker.Fetching? ==> states[n + 1].worker.key == k)
      && (!states[n + 1].worker.Fetching? ==> states[n + 1].worker == Idle)
      && states[n + 1].metrics == f.metrics
  {
    assert TakenAt(states, steps, n);
  }

  /** The tasks are taken in the order they were queued. */
  lemma PopTakesOldest(states: seq<Fetcher>, steps: seq<Step>, n: nat)
    requires IsRun(states, steps) && n < |steps| && steps[n].Pop?
    ensures states[n].queue != []
    ensures states[n + 1].worker == Checking(states[n].queue[0])
    ensures states[n].queue == [states[n].queue[0]] + states[n + 1].queue
  {
    assert TakenAt(states, steps, n);
  }

  // ---------------------------------------------------------------------
  // The object: one method per critical section

  class Fetch {
    var metrics: Metrics
    var tasks: seq<FieldKey>
    /** Where the worker stands, what it has published, and the latest clock reading. */
    ghost var worker: Worker
    ghost var log: seq<Read>
    ghost var clock: nat

    ghost function State(): Fetcher
      reads this
    {
      Fetcher(metrics, tasks, worker, log, clock)
    }

    constructor ()
      ensures State() == START
    {
      metrics, tasks := map[], [];
      worker, log, clock := Idle, [], 0;
    }

    /** `async_get_pcie_throughput`: the cached value while it is young, otherwise a queued task. */
    method AsyncGet(k: FieldKey, now: nat) returns (started: bool, served: Option<Metric>)
      requires CanTake(State(), Request(k, now))
      modifies this`tasks, this`clock
      ensures State() == Take(old(State()), Request(k, now))
      ensures started <==> k !in metrics || metrics[k].lastTime + 30000 <= now
      ensures served == if started then None else Some(metrics[k])
      ensures tasks == if started then old(tasks) + [k] else old(tasks)
    {
      clock := now;
      if k in metrics {
        if now < metrics[k].lastTime + TTL {
          return false, Some(metrics[k]);
        }
      }
      tasks := tasks + [k];
      return true, None;
    }

    /** The worker, done with its task, takes the oldest one; it waits while there is none. */
    method NextTask() returns (k: Option<FieldKey>)
      requires worker == Idle
      modifies this`tasks, this`worker
      ensures old(tasks) == [] ==> k == None && State() == old(State())
      ensures old(tasks) != [] ==> k == Some(old(tasks)[0]) && State() == Take(old(State()), Pop)
    {
      if tasks == [] {
        return None;
      }
      k := Some(tasks[0]);
      tasks := tasks[1..];
      worker := Checking(k.value);
    }

    /** The first critical section of `get_pcie_throughput`: whether the hardware is to be read. */
    method CheckTask(k: FieldKey, at: nat, ghost start: nat) returns (fetch: bool)
      requires worker == Checking(k) && CanTake(State(), Check(at, start))
      modifies this`worker, this`clock
      ensures State() == Take(old(State()), Check(at, start))
      ensures fetch <==> k !in metrics || metrics[k].lastTime + 30000 <= at
    {
      clock := start;
      if k in metrics {
        if at < metrics[k].lastTime + TTL {
          worker := Idle;
          return false;
        }
      }
      worker := Fetching(k, start);
      fetch := true;
    }

    method EnsureEntry(k: FieldKey)
      modifies this`metrics
      ensures metrics == if k in old(metrics) then old(metrics) else old(metrics)[k := Metric(0, Ok, 0)]
    {
      if k !in metrics {
        metrics := metrics[k := Metric(0, Ok, 0)];
      }
    }

    method StampEntry(k: FieldKey, stamp: nat, status: Status)
      requires k in metrics
      modifies this`metrics
      ensures metrics == old(metrics)[k := old(metrics)[k].(lastTime := stamp, status := status)]
    {
      metrics := metrics[k := metrics[k].(lastTime := stamp, status := status)];
    }

    /** Both entries of the GPU are created when missing, and stamped. */
    method StampBoth(gpu: nat, stamp: nat, status: Status)
      modifies this`metrics
      ensures metrics == old(metrics)[Tx(gpu) := Metric(stamp, status, ValueOr(old(metrics), Tx(gpu)))]
                                     [Rx(gpu) := Metric(stamp, status, ValueOr(old(metrics), Rx(gpu)))]
    {
      EnsureEntry(Tx(gpu));
      EnsureEntry(Rx(gpu));
      StampEntry(Tx(gpu), stamp, status);
      StampEntry(Rx(gpu), stamp, status);
    }

    /** Their values are stored only on success. */
    method StoreRead(gpu: nat, stamp: nat, status: Status, sent: int, received: int)
      modifies this`metrics
      ensures metrics == Published(old(metrics), gpu, stamp, status, sent, received)
    {
      StampBoth(gpu, stamp, status);
      if status == NotSupported {
        return;
      }
      if status == Ok {
        metrics := metrics[Rx(gpu) := metrics[Rx(gpu)].(value := received)];
        metrics := metrics[Tx(gpu) := metrics[Tx(gpu)].(value := sent)];
      }
    }

    /** The last critical section of `get_pcie_throughput`. */
    method PublishRead(gpu: nat, stamp: nat, status: Status, sent: int, received: int)
      requires worker.Publishing? && worker.read.gpu == gpu && worker.read.stamp == stamp
      requires worker.read.status == status && worker.read.sent == sent && worker.read.received == received
      modifies this`metrics, this`worker, this`log
      ensures State() == Take(old(State()), Publish)
    {
      StoreRead(gpu, stamp, status, sent, received);
      log, worker := log + [worker.read], Idle;
    }

    /** A task of the worker (`get_pcie_throughput`), with what the hardware answers if it is asked,
        run without another call in between: a check, and then, unless the entry is young, a read and
        its publication. */
    method GetThroughput(k: FieldKey, at: nat, start: nat, stamp: nat, status: Status, sent: int, received: int)
      returns (fetched: bool)
      requires worker == Checking(k) && clock <= at <= start <= stamp
      modifies this`metrics, this`worker, this`log, this`clock
      ensures fetched <==> k !in old(metrics) || old(metrics)[k].lastTime + 30000 <= at
      ensures
        var checked := Take(old(State()), Check(at, start));
        State() == if fetched then Take(Take(checked, Finish(stamp, status, sent, received)), Publish) else checked
    {
      fetched := CheckTask(k, at, start);
      if fetched {
        worker, clock := Publishing(k, Read(k.gpu, start, stamp, status, sent, received)), stamp;
        PublishRead(k.gpu, stamp, status, sent, received);
      }
    }
  }
}
