/** The rolling averages of the rocprofiler module (`RdcRocpBase`). */
module RollingAverage {
  import opened Common

  /** `rdc_average_t`: at most `K` raw values, and where the next one goes. */
  datatype Average = Average(buffer: seq<real>, index: nat)

  const EMPTY := Average([], 0)

  /** The buffer part of `get_average`, for any length `K`. */
  function Push(a: Average, K: nat, x: real): Average
    requires 0 < K && a.index < K && (K <= |a.buffer| ==> a.index < |a.buffer|)
  {
    Average(if |a.buffer| < K then a.buffer + [x] else a.buffer[a.index := x], (a.index + 1) % K)
  }

  function Sum(xs: seq<real>): real {
    if xs == [] then 0.0 else Sum(xs[..|xs| - 1]) + xs[|xs| - 1]
  }

  function Mean(xs: seq<real>): real
    requires xs != []
  {
    Sum(xs) / |xs| as real
  }

  /** The last `K` of the values pushed. */
  ghost function Window(pushed: seq<real>, K: nat): seq<real> {
    if |pushed| <= K then pushed else pushed[|pushed| - K..]
  }

  /** The buffer read from its oldest value on. */
  ghost function Unrolled(a: Average, K: nat): seq<real>
    requires a.index <= |a.buffer|
  {
    if |a.buffer| < K then a.buffer else a.buffer[a.index..] + a.buffer[..a.index]
  }

  /** After `pushed` since the last reset: the buffer, read from its oldest value on, is the
      sliding window, and the index counts the pushes modulo `K`. */
  ghost predicate Slides(a: Average, K: nat, pushed: seq<real>) {
    && 0 < K
    && |a.buffer| == Min(|pushed|, K)
    && a.index == |pushed| % K
    && a.index <= |a.buffer|
    && Unrolled(a, K) == Window(pushed, K)
  }

  lemma ModUnique(n: nat, K: nat, q: nat, r: nat)
    requires n == q * K + r && r < K
    ensures n % K == r
  {
    var q' := n / K;
    assert q' * K <= n < q' * K + K;
    assert (q + 1) * K == q * K + K && (q' + 1) * K == q' * K + K;
    if q' < q {
      MulMono(K, q' + 1, q);
    } else if q < q' {
      MulMono(K, q + 1, q');
    }
  }

  lemma NextIndex(n: nat, K: nat)
    requires 0 < K
    ensures n % K < K && (n < K ==> n % K == n)
    ensures (n % K + 1) % K == (n + 1) % K == if n % K + 1 == K then 0 else n % K + 1
  {
    var q, r := n / K, n % K;
    assert n == q * K + r;
    if r + 1 == K {
      assert (q + 1) * K == q * K + K;
      ModUnique(n + 1, K, q + 1, 0);
      ModUnique(r + 1, K, 1, 0);
    } else {
      ModUnique(n + 1, K, q, r + 1);
      ModUnique(r + 1, K, 0, r + 1);
    }
    if n < K {
      ModUnique(n, K, 0, n);
    }
  }

  /** While the buffer fills up it is the list of pushed values. */
  lemma PushFilling(a: Average, K: nat, pushed: seq<real>, x: real)
    requires Slides(a, K, pushed) && |pushed| < K
    ensures Slides(Push(a, K, x), K, pushed + [x])
  {
    NextIndex(|pushed|, K);
    var b := Push(a, K, x);
    assert b.buffer == pushed + [x];
    if |b.buffer| == K {
      assert b.index == 0;
      assert b.buffer[0..] + b.buffer[..0] == b.buffer;
    }
  }

  /** Once it is full, the value overwritten is the oldest one. */
  lemma PushFull(a: Average, K: nat, pushed: seq<real>, x: real)
    requires Slides(a, K, pushed) && K <= |pushed|
    ensures a.buffer[a.index] == pushed[|pushed| - K]
    ensures Slides(Push(a, K, x), K, pushed + [x])
  {
    NextIndex(|pushed|, K);
    var b, i := Push(a, K, x), a.index;
    var w := Window(pushed, K);
    assert w == a.buffer[i..] + a.buffer[..i];
    assert w[0] == a.buffer[i];
    assert Window(pushed + [x], K) == w[1..] + [x];
    assert w[1..] == a.buffer[i + 1..] + a.buffer[..i];
    if i + 1 == K {
      assert b.buffer[0..] + b.buffer[..0] == b.buffer == a.buffer[..i] + [x];
    } else {
      assert b.buffer[i + 1..] == a.buffer[i + 1..];
      assert b.buffer[..i + 1] == a.buffer[..i] + [x];
    }
  }

  lemma PushSlides(a: Average, K: nat, pushed: seq<real>, x: real)
    requires Slides(a, K, pushed)
    ensures K <= |a.buffer| ==> a.index < |a.buffer|
    ensures Slides(Push(a, K, x), K, pushed + [x])
  {
    NextIndex(|pushed|, K);
    if |pushed| < K {
      PushFilling(a, K, pushed, x);
    } else {
      PushFull(a, K, pushed, x);
    }
  }

  lemma {:induction false} SumConcat(a: seq<real>, b: seq<real>)
    ensures Sum(a + b) == Sum(a) + Sum(b)
  {
    if b == [] {
      assert a + b == a;
    } else {
      SumConcat(a, b[..|b| - 1]);
      assert (a + b)[..|a + b| - 1] == a + b[..|b| - 1];
    }
  }

  /** The buffer is the window up to a rotation: same values, same mean. */
  lemma SameValues(a: Average, K: nat, pushed: seq<real>)
    requires Slides(a, K, pushed)
    ensures multiset(a.buffer) == multiset(Window(pushed, K))
    ensures Sum(a.buffer) == Sum(Window(pushed, K)) && |a.buffer| == |Window(pushed, K)|
  {
    if |a.buffer| >= K {
      assert a.buffer == a.buffer[..a.index] + a.buffer[a.index..];
      SumConcat(a.buffer[..a.index], a.buffer[a.index..]);
      SumConcat(a.buffer[a.index..], a.buffer[..a.index]);
    }
  }

  // ---------------------------------------------------------------------
  // Any sequence of pushes and resets

  datatype Op = PushOp(x: real) | Reset

  /** What was pushed since the last reset. */
  ghost function PushedSince(ops: seq<Op>): seq<real> {
    if ops == [] then []
    else match ops[|ops| - 1]
      case Reset => []
      case PushOp(x) => PushedSince(ops[..|ops| - 1]) + [x]
  }

  ghost function Run(ops: seq<Op>, K: nat): (a: Average)
    requires 0 < K
    ensures Slides(a, K, PushedSince(ops))
  {
    if ops == [] then EMPTY
    else
      var before := Run(ops[..|ops| - 1], K);
      match ops[|ops| - 1]
      case Reset => EMPTY
      case PushOp(x) =>
        PushSlides(before, K, PushedSince(ops[..|ops| - 1]), x);
        Push(before, K, x)
  }

  /** After any sequence of pushes and resets the buffer holds the last min(n, K) values since the
      reset, `index` is n mod K, and once the buffer is full it points at the oldest of them. */
  lemma BufferIsWindow(ops: seq<Op>, K: nat)
    requires 0 < K
    ensures
      var a, pushed := Run(ops, K), PushedSince(ops);
      && multiset(a.buffer) == multiset(Window(pushed, K))
      && |a.buffer| == Min(|pushed|, K)
      && a.index == |pushed| % K
      && (K <= |pushed| ==> a.index < |a.buffer| && a.buffer[a.index] == pushed[|pushed| - K])
  {
    var a, pushed := Run(ops, K), PushedSince(ops);
    SameValues(a, K, pushed);
    NextIndex(|pushed|, K);
    if K <= |pushed| {
      PushFull(a, K, pushed, 0.0);
    }
  }

  // ---------------------------------------------------------------------
  // The object

  /** `buffer_length_k`. */
  const BUFFER_LENGTH := 5

  ghost predicate AllSlide(average: map<FieldKey, Average>, pushed: map<FieldKey, seq<real>>) {
    pushed.Keys == average.Keys && forall k :: k in average ==> Slides(average[k], BUFFER_LENGTH, pushed[k])
  }

  lemma PushOneKey(average: map<FieldKey, Average>, pushed: map<FieldKey, seq<real>>, k: FieldKey, raw: real)
    requires AllSlide(average, pushed) && k in average
    ensures average[k].index < BUFFER_LENGTH
    ensures BUFFER_LENGTH <= |average[k].buffer| ==> average[k].index < |average[k].buffer|
    ensures
      var a, p := Push(average[k], BUFFER_LENGTH, raw), pushed[k] + [raw];
      && AllSlide(average[k := a], pushed[k := p])
      && a.buffer != [] && Mean(a.buffer) == Mean(Window(p, BUFFER_LENGTH))
  {
    NextIndex(|pushed[k]|, BUFFER_LENGTH);
    PushSlides(average[k], BUFFER_LENGTH, pushed[k], raw);
    SameValues(Push(average[k], BUFFER_LENGTH, raw), BUFFER_LENGTH, pushed[k] + [raw]);
  }

  ghost function Restarted(pushed: map<FieldKey, seq<real>>, fields: seq<FieldKey>): map<FieldKey, seq<real>> {
    map k | k in pushed :: if k in fields then [] else pushed[k]
  }

  lemma RestartOneMore(pushed: map<FieldKey, seq<real>>, fields: seq<FieldKey>, i: nat)
    requires i < |fields|
    ensures
      var before := Restarted(pushed, fields[..i]);
      Restarted(pushed, fields[..i + 1]) == if fields[i] in pushed then before[fields[i] := []] else before
  {
    assert fields[..i + 1] == fields[..i] + [fields[i]];
  }

  class Averages {
    var average: map<FieldKey, Average>
    /** What was pushed for each key since its last reset. */
    ghost var pushed: map<FieldKey, seq<real>>

    ghost predicate Valid()
      reads this
    {
      AllSlide(average, pushed)
    }

    constructor (keys: set<FieldKey>)
      ensures Valid() && average.Keys == keys && forall k :: k in keys ==> pushed[k] == []
    {
      average := map k | k in keys :: EMPTY;
      pushed := map k | k in keys :: [];
    }

    method PushValue(a: Average, raw: real) returns (b: Average)
      requires a.index < BUFFER_LENGTH && (BUFFER_LENGTH <= |a.buffer| ==> a.index < |a.buffer|)
      ensures b == Push(a, BUFFER_LENGTH, raw)
    {
      b := a;
      if |b.buffer| < BUFFER_LENGTH {
        b := b.(buffer := b.buffer + [raw]);
      } else {
        b := b.(buffer := b.buffer[b.index := raw]);
      }
      b := b.(index := b.index + 1);
      b := b.(index := b.index % BUFFER_LENGTH);
    }

    /** `get_average`: the mean of the sliding window that ends with this value; a key without a
        buffer gives no number. */
    method GetAverage(k: FieldKey, raw: real) returns (avg: Option<real>)
      requires Valid()
      modifies this
      ensures Valid()
      ensures k !in old(average) ==> avg == None && average == old(average) && pushed == old(pushed)
      ensures k in old(average) ==>
        && average.Keys == old(average).Keys
        && pushed == old(pushed)[k := old(pushed)[k] + [raw]]
        && avg == Some(Mean(Window(pushed[k], 5)))
        && forall h :: h in average && h != k ==> average[h] == old(average)[h]
    {
      if k !in average {
        return None;
      }
      PushOneKey(average, pushed, k, raw);
      var a := PushValue(average[k], raw);
      pushed := pushed[k := pushed[k] + [raw]];
      average := average[k := a];
      avg := Some(Sum(a.buffer) / |a.buffer| as real);
    }

    /** `reset_average`. */
    method ResetAverage(k: FieldKey)
      requires Valid()
      modifies this
      ensures Valid()
      ensures average == if k in old(average) then old(average)[k := EMPTY] else old(average)
      ensures pushed == if k in old(average) then old(pushed)[k := []] else old(pushed)
    {
      if k !in average {
        return;
      }
      average := average[k := EMPTY];
      pushed := pushed[k := []];
    }

    /** `rdc_telemetry_fields_unwatch` of the rocprofiler library: unwatched fields start afresh. */
    method FieldsUnwatch(fields: seq<FieldKey>)
      requires Valid()
      modifies this
      ensures Valid()
      ensures pushed == map k | k in old(pushed) :: if k in fields then [] else old(pushed)[k]
    {
      for i := 0 to |fields|
        invariant Valid()
        invariant pushed == Restarted(old(pushed), fields[..i])
      {
        RestartOneMore(old(pushed), fields, i);
        ResetAverage(fields[i]);
      }
      assert fields[..|fields|] == fields;
    }
  }
}
