/**
 * Batching of logs before they are published (ee/osquerypublisher/client.go). The source fills one
 * batch at a time and starts the next when a log no longer fits (next-fit); logs too big for any
 * batch go alone. Shown here: nothing is lost, the order of the logs that fit is kept, no batch is
 * empty or too big, and no other way of batching needs half as many.
 */
module LogBatching {
  import opened Bytes

  const MaxRequestSizeBytes := 1024 * 1024

  /** The marshalled length of a log, or none when marshalling it fails. */
  type Measure<!T> = T -> Option<nat>

  predicate Fits<T>(size: Measure<T>, log: T) {
    size(log).Some? && size(log).value <= MaxRequestSizeBytes
  }

  function Weight<T>(size: Measure<T>, log: T): nat {
    if size(log).Some? then size(log).value else 0
  }

  function Total<T>(size: Measure<T>, logs: seq<T>): nat {
    if logs == [] then 0 else Weight(size, logs[0]) + Total(size, logs[1..])
  }

  /** A log put in its place: the batch that is complete with it, if any, and the batch being filled from then on. */
  datatype Placed<T> = Placed(done: Option<seq<T>>, current: seq<T>, weight: nat)

  function Place<T>(size: Measure<T>, log: T, current: seq<T>, weight: nat): Placed<T> {
    if size(log).None? then Placed(None, current, weight)
    else
      var n := size(log).value;
      if n > MaxRequestSizeBytes then Placed(Some([log]), current, weight)
      else if weight + n > MaxRequestSizeBytes then Placed(Some(current), [log], n)
      else Placed(None, current + [log], weight + n)
  }

  /** The batches still to come when `current`, of total weight `weight`, is being filled. */
  function Batches<T>(size: Measure<T>, logs: seq<T>, current: seq<T>, weight: nat): seq<seq<T>> {
    if logs == [] then
      if current == [] then [] else [current]
    else
      var p := Place(size, logs[0], current, weight);
      var more := Batches(size, logs[1..], p.current, p.weight);
      if p.done.None? then more else [p.done.value] + more
  }

  lemma Regroup<T>(batches: seq<seq<T>>, batch: seq<T>, more: seq<seq<T>>)
    ensures (batches + [batch]) + more == batches + ([batch] + more)
  {
  }

  method BatchRequest<T>(size: Measure<T>, logs: seq<T>) returns (batches: seq<seq<T>>)
    ensures batches == Batches(size, logs, [], 0)
  {
    batches := [];
    var current: seq<T>, weight: nat := [], 0;
    for i := 0 to |logs|
      invariant batches + Batches(size, logs[i..], current, weight) == Batches(size, logs, [], 0)
    {
      assert logs[i..][1..] == logs[i + 1..];
      var log := logs[i];
      if size(log).None? {
        continue;
      }
      var n := size(log).value;
      if n > MaxRequestSizeBytes {
        Regroup(batches, [log], Batches(size, logs[i + 1..], current, weight));
        batches := batches + [[log]];
        continue;
      }
      if weight + n > MaxRequestSizeBytes {
        Regroup(batches, current, Batches(size, logs[i + 1..], [log], n));
        batches := batches + [current];
        current := [];
        weight := 0;
        assert current + [log] == [log];
      }
      current := current + [log];
      weight := weight + n;
    }
    if |current| > 0 {
      batches := batches + [current];
    }
  }

  // ----- what goes in and what comes out

  function Concat<T>(batches: seq<seq<T>>): seq<T> {
    if batches == [] then [] else batches[0] + Concat(batches[1..])
  }

  /** The logs that can be marshalled. */
  function Marshalled<T>(size: Measure<T>, logs: seq<T>): seq<T> {
    if logs == [] then []
    else if size(logs[0]).Some? then [logs[0]] + Marshalled(size, logs[1..])
    else Marshalled(size, logs[1..])
  }

  /** The logs that fit into a batch. */
  function Fitting<T>(size: Measure<T>, logs: seq<T>): seq<T> {
    if logs == [] then []
    else if Fits(size, logs[0]) then [logs[0]] + Fitting(size, logs[1..])
    else Fitting(size, logs[1..])
  }

  /** The batches that do not consist of a log too big for any batch. */
  function Regular<T>(size: Measure<T>, batches: seq<seq<T>>): seq<seq<T>> {
    if batches == [] then []
    else if batches[0] != [] && !Fits(size, batches[0][0]) then Regular(size, batches[1..])
    else [batches[0]] + Regular(size, batches[1..])
  }

  /** What the loop keeps true of the batch being filled. */
  ghost predicate Filling<T>(size: Measure<T>, current: seq<T>, weight: nat) {
    && weight == Total(size, current) <= MaxRequestSizeBytes
    && (forall i :: 0 <= i < |current| ==> Fits(size, current[i]))
    && (current == [] ==> weight == 0)
  }

  lemma {:induction false} TotalAppend<T>(size: Measure<T>, a: seq<T>, b: seq<T>)
    ensures Total(size, a + b) == Total(size, a) + Total(size, b)
  {
    if a == [] {
      assert a + b == b;
    } else {
      assert (a + b)[1..] == a[1..] + b;
      TotalAppend(size, a[1..], b);
    }
  }

  lemma FillingNext<T>(size: Measure<T>, current: seq<T>, weight: nat, log: T)
    requires Filling(size, current, weight) && Fits(size, log)
    ensures Filling(size, [log], size(log).value)
    ensures weight + size(log).value <= MaxRequestSizeBytes ==> Filling(size, current + [log], weight + size(log).value)
    ensures weight + size(log).value > MaxRequestSizeBytes ==> current != []
  {
    assert Total(size, [log]) == Weight(size, log) + Total(size, [log][1..]);
    TotalAppend(size, current, [log]);
  }

  /** Placing a log keeps what there is, and adds it if it can be marshalled. */
  lemma PlaceConserves<T>(size: Measure<T>, log: T, current: seq<T>, weight: nat)
    ensures var p := Place(size, log, current, weight);
      multiset(if p.done.None? then [] else p.done.value) + multiset(p.current)
      == multiset(current) + multiset(if size(log).None? then [] else [log])
  {
  }

  lemma ConcatContents<T>(done: Option<seq<T>>, more: seq<seq<T>>)
    ensures multiset(Concat(if done.None? then more else [done.value] + more))
         == multiset(if done.None? then [] else done.value) + multiset(Concat(more))
  {
    if done.Some? {
      ConcatCons(done.value, more);
    }
  }

  lemma MarshalledContents<T>(size: Measure<T>, logs: seq<T>)
    requires logs != []
    ensures multiset(Marshalled(size, logs))
         == multiset(if size(logs[0]).None? then [] else [logs[0]]) + multiset(Marshalled(size, logs[1..]))
  {
  }

  /** Nothing is lost and nothing invented: the batches hold exactly the logs that could be marshalled. */
  lemma {:induction false} Conserved<T>(size: Measure<T>, logs: seq<T>, current: seq<T>, weight: nat)
    ensures multiset(Concat(Batches(size, logs, current, weight))) == multiset(current) + multiset(Marshalled(size, logs))
    decreases |logs|
  {
    if logs == [] {
      ConcatCons(current, []);
    } else {
      var p := Place(size, logs[0], current, weight);
      PlaceConserves(size, logs[0], current, weight);
      Conserved(size, logs[1..], p.current, p.weight);
      ConcatContents(p.done, Batches(size, logs[1..], p.current, p.weight));
      MarshalledContents(size, logs);
    }
  }

  lemma ConcatCons<T>(batch: seq<T>, batches: seq<seq<T>>)
    ensures Concat([batch] + batches) == batch + Concat(batches)
  {
    assert ([batch] + batches)[1..] == batches;
  }

  lemma RegularCons<T>(size: Measure<T>, batch: seq<T>, batches: seq<seq<T>>)
    ensures Regular(size, [batch] + batches)
         == if batch != [] && !Fits(size, batch[0]) then Regular(size, batches) else [batch] + Regular(size, batches)
  {
    assert ([batch] + batches)[1..] == batches;
  }

  /** Leaving out the logs that fit nowhere, batching them is batching the rest. */
  lemma {:induction false} RegularIsNextFit<T>(size: Measure<T>, logs: seq<T>, current: seq<T>, weight: nat)
    requires Filling(size, current, weight)
    ensures Regular(size, Batches(size, logs, current, weight)) == Batches(size, Fitting(size, logs), current, weight)
    decreases |logs|
  {
    if logs == [] {
      if current != [] {
        RegularCons(size, current, []);
        assert [current] + [] == [current];
      }
    } else if !Fits(size, logs[0]) {
      if size(logs[0]).Some? {
        RegularCons(size, [logs[0]], Batches(size, logs[1..], current, weight));
      }
      RegularIsNextFit(size, logs[1..], current, weight);
    } else {
      var n, rest, fit := size(logs[0]).value, logs[1..], Fitting(size, logs[1..]);
      FillingNext(size, current, weight, logs[0]);
      assert Fitting(size, logs)[1..] == fit;
      if weight + n > MaxRequestSizeBytes {
        RegularCons(size, current, Batches(size, rest, [logs[0]], n));
        RegularIsNextFit(size, rest, [logs[0]], n);
      } else {
        RegularIsNextFit(size, rest, current + [logs[0]], weight + n);
      }
    }
  }

  ghost predicate AllFit<T>(size: Measure<T>, logs: seq<T>) {
    forall i :: 0 <= i < |logs| ==> Fits(size, logs[i])
  }

  lemma {:induction false} FittingFits<T>(size: Measure<T>, logs: seq<T>)
    ensures AllFit(size, Fitting(size, logs))
    decreases |logs|
  {
    if logs != [] {
      FittingFits(size, logs[1..]);
    }
  }

  /** The order of the logs that fit is kept across the batches. */
  lemma {:induction false} InOrder<T>(size: Measure<T>, logs: seq<T>, current: seq<T>, weight: nat)
    requires AllFit(size, logs)
    ensures Concat(Batches(size, logs, current, weight)) == current + logs
    decreases |logs|
  {
    if logs == [] {
      assert Concat([current]) == current + Concat([current][1..]);
    } else {
      var n := size(logs[0]).value;
      if weight + n > MaxRequestSizeBytes {
        ConcatCons(current, Batches(size, logs[1..], [logs[0]], n));
        InOrder(size, logs[1..], [logs[0]], n);
      } else {
        InOrder(size, logs[1..], current + [logs[0]], weight + n);
        assert current + [logs[0]] + logs[1..] == current + logs;
      }
    }
  }

  /** No batch is empty, and each is within the limit or a single log that is not. */
  ghost predicate WithinLimit<T>(size: Measure<T>, batches: seq<seq<T>>) {
    forall i :: 0 <= i < |batches| ==>
      && batches[i] != []
      && (Total(size, batches[i]) <= MaxRequestSizeBytes || (|batches[i]| == 1 && !Fits(size, batches[i][0])))
  }

  lemma {:induction false} Limited<T>(size: Measure<T>, logs: seq<T>, current: seq<T>, weight: nat)
    requires Filling(size, current, weight)
    ensures WithinLimit(size, Batches(size, logs, current, weight))
    decreases |logs|
  {
    if logs == [] {
    } else if !Fits(size, logs[0]) {
      Limited(size, logs[1..], current, weight);
    } else {
      var n := size(logs[0]).value;
      FillingNext(size, current, weight, logs[0]);
      if weight + n > MaxRequestSizeBytes {
        Limited(size, logs[1..], [logs[0]], n);
      } else {
        Limited(size, logs[1..], current + [logs[0]], weight + n);
      }
    }
  }

  // ----- how many batches

  /** Each batch but the first begins with a log that no longer fitted into the batch before it. */
  ghost predicate NeighboursOverflow<T>(size: Measure<T>, batches: seq<seq<T>>) {
    forall i :: 0 <= i < |batches| - 1 ==> Overflow(size, batches[i], batches[i + 1])
  }

  ghost predicate Overflow<T>(size: Measure<T>, batch: seq<T>, next: seq<T>) {
    next != [] && Total(size, batch) + Weight(size, next[0]) > MaxRequestSizeBytes
  }

  /** The next batch to be completed begins with what is in it already. */
  lemma {:induction false} FirstBatch<T>(size: Measure<T>, logs: seq<T>, current: seq<T>, weight: nat)
    requires AllFit(size, logs) && current != []
    ensures var b := Batches(size, logs, current, weight); b != [] && current <= b[0]
    decreases |logs|
  {
    if logs != [] && weight + size(logs[0]).value <= MaxRequestSizeBytes {
      FirstBatch(size, logs[1..], current + [logs[0]], weight + size(logs[0]).value);
    }
  }

  lemma {:induction false} FittingOverflow<T>(size: Measure<T>, logs: seq<T>, current: seq<T>, weight: nat)
    requires AllFit(size, logs) && Filling(size, current, weight)
    ensures NeighboursOverflow(size, Batches(size, logs, current, weight))
    decreases |logs|
  {
    if logs != [] {
      var n := size(logs[0]).value;
      FillingNext(size, current, weight, logs[0]);
      if weight + n > MaxRequestSizeBytes {
        var rest := Batches(size, logs[1..], [logs[0]], n);
        FittingOverflow(size, logs[1..], [logs[0]], n);
        FirstBatch(size, logs[1..], [logs[0]], n);
        OverflowCons(size, current, rest);
      } else {
        FittingOverflow(size, logs[1..], current + [logs[0]], weight + n);
      }
    }
  }

  lemma OverflowCons<T>(size: Measure<T>, batch: seq<T>, rest: seq<seq<T>>)
    requires NeighboursOverflow(size, rest) && (rest != [] ==> Overflow(size, batch, rest[0]))
    ensures NeighboursOverflow(size, [batch] + rest)
  {
    var b := [batch] + rest;
    forall i | 0 <= i < |b| - 1 ensures Overflow(size, b[i], b[i + 1]) {
      if i > 0 {
        assert Overflow(size, rest[i - 1], rest[i]);
      }
    }
  }

  /** Of any two neighbouring regular batches, the second begins with a log that no longer fitted into the first. */
  lemma PairsOverflow<T>(size: Measure<T>, logs: seq<T>)
    ensures NeighboursOverflow(size, Regular(size, Batches(size, logs, [], 0)))
  {
    FittingFits(size, logs);
    RegularIsNextFit(size, logs, [], 0);
    FittingOverflow(size, Fitting(size, logs), [], 0);
  }

  /** So batches weigh, on average, more than half the limit. */
  lemma {:induction false} OverflowIsHeavy<T>(size: Measure<T>, b: seq<seq<T>>)
    requires NeighboursOverflow(size, b)
    ensures Total(size, Concat(b)) >= |b| / 2 * (MaxRequestSizeBytes + 1)
    decreases |b|
  {
    if |b| >= 2 {
      var rest := b[2..];
      assert Overflow(size, b[0], b[1]);
      forall i | 0 <= i < |rest| - 1 ensures Overflow(size, rest[i], rest[i + 1]) {
        assert Overflow(size, b[i + 2], b[i + 3]);
      }
      OverflowIsHeavy(size, rest);
      assert b[1..][1..] == rest;
      assert Concat(b[1..]) == b[1] + Concat(rest);
      TotalAppend(size, b[0], Concat(b[1..]));
      TotalAppend(size, b[1], Concat(rest));
      assert |b| / 2 == |rest| / 2 + 1;
    }
  }

  lemma {:induction false} TotalRemove<T>(size: Measure<T>, s: seq<T>, i: nat)
    requires i < |s|
    ensures Total(size, s) == Weight(size, s[i]) + Total(size, s[..i] + s[i + 1..])
  {
    TotalAppend(size, s[..i], s[i + 1..]);
    TotalAppend(size, s[..i], s[i..]);
    assert s == s[..i] + s[i..];
    assert s[i..][1..] == s[i + 1..];
  }

  lemma WithoutFirst<T>(a: seq<T>, b: seq<T>, i: nat)
    requires a != [] && i < |b| && b[i] == a[0]
    requires multiset(a) == multiset(b)
    ensures multiset(a[1..]) == multiset(b[..i] + b[i + 1..])
  {
    assert a == [a[0]] + a[1..];
    assert b == b[..i] + ([b[i]] + b[i + 1..]);
    var x, ma, mb := a[0], multiset(a[1..]), multiset(b[..i] + b[i + 1..]);
    assert multiset(a) == multiset{x} + ma;
    assert multiset(b) == multiset{x} + mb;
    forall y
      ensures ma[y] == mb[y]
    {
      assert multiset(a)[y] == multiset{x}[y] + ma[y];
      assert multiset(b)[y] == multiset{x}[y] + mb[y];
    }
  }

  /** The total weight depends on which logs there are, not on their order. */
  lemma {:induction false} TotalOfMultiset<T>(size: Measure<T>, a: seq<T>, b: seq<T>)
    requires multiset(a) == multiset(b)
    ensures Total(size, a) == Total(size, b)
    decreases |a|
  {
    if a == [] {
      assert |multiset(b)| == 0;
    } else {
      assert a[0] in multiset(b);
      var i :| 0 <= i < |b| && b[i] == a[0];
      var b' := b[..i] + b[i + 1..];
      WithoutFirst(a, b, i);
      TotalOfMultiset(size, a[1..], b');
      TotalRemove(size, b, i);
    }
  }

  lemma {:induction false} TotalOfBins<T>(size: Measure<T>, bins: seq<seq<T>>)
    requires forall i :: 0 <= i < |bins| ==> Total(size, bins[i]) <= MaxRequestSizeBytes
    ensures Total(size, Concat(bins)) <= |bins| * MaxRequestSizeBytes
    decreases |bins|
  {
    if bins != [] {
      TotalAppend(size, bins[0], Concat(bins[1..]));
      TotalOfBins(size, bins[1..]);
    }
  }

  /**
   * Any way of putting the logs that fit into bins within the limit, in any order, takes more than
   * half as many bins as there are regular batches.
   */
  lemma FewerThanTwiceAnyBatching<T>(size: Measure<T>, logs: seq<T>, bins: seq<seq<T>>)
    requires Fitting(size, logs) != []
    requires multiset(Concat(bins)) == multiset(Fitting(size, logs))
    requires forall i :: 0 <= i < |bins| ==> Total(size, bins[i]) <= MaxRequestSizeBytes
    ensures |Regular(size, Batches(size, logs, [], 0))| < 2 * |bins|
  {
    var fit := Fitting(size, logs);
    var b := Batches(size, fit, [], 0);
    FittingFits(size, logs);
    RegularIsNextFit(size, logs, [], 0);
    InOrder(size, fit, [], 0);
    FittingOverflow(size, fit, [], 0);
    OverflowIsHeavy(size, b);
    TotalOfMultiset(size, Concat(bins), fit);
    TotalOfBins(size, bins);
    assert [] + fit == fit;
    assert fit[0] in multiset(Concat(bins));
    HalfBound(|b|, |bins|, Total(size, fit));
  }

  lemma HalfBound(b: nat, k: nat, total: nat)
    requires k > 0
    requires b / 2 * (MaxRequestSizeBytes + 1) <= total <= k * MaxRequestSizeBytes
    ensures b < 2 * k
  {}

  /** What batching promises, for every input. */
  lemma BatchingPromises<T>(size: Measure<T>, logs: seq<T>)
    ensures var b := Batches(size, logs, [], 0);
      && multiset(Concat(b)) == multiset(Marshalled(size, logs))
      && Concat(Regular(size, b)) == Fitting(size, logs)
      && WithinLimit(size, b)
  {
    Conserved(size, logs, [], 0);
    FittingFits(size, logs);
    RegularIsNextFit(size, logs, [], 0);
    InOrder(size, Fitting(size, logs), [], 0);
    assert [] + Fitting(size, logs) == Fitting(size, logs);
    Limited(size, logs, [], 0);
  }
}
