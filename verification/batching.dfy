/** Splitting a feature stream into work batches bounded by count and serialized bytes. */
module Batching {

  ghost function Flatten<T>(batches: seq<seq<T>>): seq<T> {
    if batches == [] then [] else batches[0] + Flatten(batches[1..])
  }

  function Bytes<T>(batch: seq<T>, size: T -> nat): nat {
    if batch == [] then 0 else Bytes(batch[..|batch| - 1], size) + size(batch[|batch| - 1])
  }

  /** The rule every emitted batch obeys: a lone feature, or within both budgets. */
  ghost predicate Allowed<T>(batch: seq<T>, size: T -> nat, maxFeatures: nat, maxBytes: nat) {
    |batch| == 1 || (0 < |batch| <= maxFeatures && Bytes(batch, size) <= maxBytes)
  }

  ghost predicate Partitions<T>(batches: seq<seq<T>>, features: seq<T>, size: T -> nat, maxFeatures: nat, maxBytes: nat) {
    && Flatten(batches) == features
    && forall b | b in batches :: Allowed(b, size, maxFeatures, maxBytes)
  }

  /** No batch could also have taken the first feature of its successor. */
  ghost predicate Saturated<T>(batches: seq<seq<T>>, size: T -> nat, maxFeatures: nat, maxBytes: nat) {
    forall k | 0 <= k < |batches| - 1 ::
      batches[k + 1] != [] ==> !Allowed(batches[k] + [batches[k + 1][0]], size, maxFeatures, maxBytes)
  }

  lemma {:induction false} FlattenAppend<T>(batches: seq<seq<T>>, last: seq<T>)
    ensures Flatten(batches + [last]) == Flatten(batches) + last
  {
    if batches == [] {
      assert [last][1..] == [];
    } else {
      FlattenAppend(batches[1..], last);
      assert (batches + [last])[1..] == batches[1..] + [last];
      assert batches[0] + (Flatten(batches[1..]) + last) == (batches[0] + Flatten(batches[1..])) + last;
    }
  }

  lemma {:induction false} BytesAppend<T>(a: seq<T>, b: seq<T>, size: T -> nat)
    ensures Bytes(a + b, size) == Bytes(a, size) + Bytes(b, size)
  {
    if b == [] {
      assert a + b == a;
    } else {
      var front := b[..|b| - 1];
      assert (a + b)[..|a + b| - 1] == a + front;
      BytesAppend(a, front, size);
    }
  }

  /** A nonempty contiguous slice of an allowed batch is allowed. */
  lemma AllowedSlice<T>(batch: seq<T>, lo: nat, hi: nat, size: T -> nat, maxFeatures: nat, maxBytes: nat)
    requires lo < hi <= |batch| && Allowed(batch, size, maxFeatures, maxBytes)
    ensures Allowed(batch[lo..hi], size, maxFeatures, maxBytes)
  {
    assert batch == batch[..lo] + batch[lo..hi] + batch[hi..];
    BytesAppend(batch[..lo] + batch[lo..hi], batch[hi..], size);
    BytesAppend(batch[..lo], batch[lo..hi], size);
  }

  /** A saturated batch list over a suffix of a stream is never longer than any
      allowed partition of the whole stream. */
  lemma {:induction false} StaysAhead<T>(greedy: seq<seq<T>>, other: seq<seq<T>>, suffix: seq<T>, whole: seq<T>,
                                         size: T -> nat, maxFeatures: nat, maxBytes: nat)
    requires Partitions(greedy, suffix, size, maxFeatures, maxBytes)
    requires Saturated(greedy, size, maxFeatures, maxBytes)
    requires Partitions(other, whole, size, maxFeatures, maxBytes)
    requires |suffix| <= |whole| && suffix == whole[|whole| - |suffix|..]
    ensures |greedy| <= |other|
    decreases |other|
  {
    if greedy != [] {
      assert greedy[0] in greedy && other != [];
      assert forall b | b in other[1..] :: b in other;
      var rest := Flatten(other[1..]);
      assert whole[|other[0]|..] == rest;
      if |suffix| <= |rest| {
        assert suffix == rest[|rest| - |suffix|..];
        StaysAhead(greedy, other[1..], suffix, rest, size, maxFeatures, maxBytes);
      } else {
        var tail := Flatten(greedy[1..]);
        HeadReaches(greedy, other[0], |whole| - |suffix|, suffix, size, maxFeatures, maxBytes);
        assert tail == suffix[|greedy[0]|..] == rest[|rest| - |tail|..];
        DropHead(greedy, suffix, size, maxFeatures, maxBytes);
        StaysAhead(greedy[1..], other[1..], tail, rest, size, maxFeatures, maxBytes);
      }
    }
  }

  lemma DropHead<T>(greedy: seq<seq<T>>, suffix: seq<T>, size: T -> nat, maxFeatures: nat, maxBytes: nat)
    requires greedy != [] && Partitions(greedy, suffix, size, maxFeatures, maxBytes)
    requires Saturated(greedy, size, maxFeatures, maxBytes)
    ensures Partitions(greedy[1..], Flatten(greedy[1..]), size, maxFeatures, maxBytes)
    ensures Saturated(greedy[1..], size, maxFeatures, maxBytes)
  {
    assert forall b | b in greedy[1..] :: b in greedy;
    forall k | 0 <= k < |greedy[1..]| - 1 && greedy[1..][k + 1] != []
      ensures !Allowed(greedy[1..][k] + [greedy[1..][k + 1][0]], size, maxFeatures, maxBytes)
    {
      assert greedy[1..][k] == greedy[k + 1] && greedy[1..][k + 1] == greedy[k + 1 + 1];
    }
  }

  /** The first saturated batch swallows whatever is left of an allowed batch it starts inside. */
  lemma HeadReaches<T>(greedy: seq<seq<T>>, first: seq<T>, cut: nat, suffix: seq<T>,
                       size: T -> nat, maxFeatures: nat, maxBytes: nat)
    requires greedy != [] && Partitions(greedy, suffix, size, maxFeatures, maxBytes)
    requires Saturated(greedy, size, maxFeatures, maxBytes)
    requires Allowed(first, size, maxFeatures, maxBytes)
    requires cut < |first| && |first| - cut <= |suffix| && suffix[..|first| - cut] == first[cut..]
    ensures |greedy[0]| >= |first| - cut
  {
    var head := greedy[0];
    assert head in greedy;
    if |head| < |first| - cut {
      assert suffix == head + Flatten(greedy[1..]);
      assert |greedy| > 1;
      var next := greedy[1];
      assert next in greedy && next != [];
      assert Flatten(greedy[1..]) == next + Flatten(greedy[2..]) by { assert greedy[1..][1..] == greedy[2..]; }
      assert suffix[|head|] == next[0];
      assert head == suffix[..|head|];
      assert head + [next[0]] == first[cut..cut + |head| + 1];
      AllowedSlice(first, cut, cut + |head| + 1, size, maxFeatures, maxBytes);
    }
  }

  /** The batches emitted so far and the one being filled. */
  datatype Progress<T> = Progress(batches: seq<seq<T>>, batch: seq<T>, batchBytes: nat)
  {
    function All(): seq<seq<T>> { if batch == [] then batches else batches + [batch] }
  }

  function Take<T>(p: Progress<T>, feature: T, size: T -> nat, maxFeatures: nat, maxBytes: nat): Progress<T> {
    var full := p.batch != [] && (|p.batch| >= maxFeatures || p.batchBytes + size(feature) > maxBytes);
    var batches := if full then p.batches + [p.batch] else p.batches;
    var batch := if full then [feature] else p.batch + [feature];
    var batchBytes := if full then size(feature) else p.batchBytes + size(feature);
    if |batch| >= maxFeatures || batchBytes >= maxBytes then Progress(batches + [batch], [], 0)
    else Progress(batches, batch, batchBytes)
  }

  function TakeAll<T>(features: seq<T>, size: T -> nat, maxFeatures: nat, maxBytes: nat): Progress<T> {
    if features == [] then Progress([], [], 0)
    else
      Take(TakeAll(features[..|features| - 1], size, maxFeatures, maxBytes), features[|features| - 1], size, maxFeatures, maxBytes)
  }

  /** Emits the batches the import worker processes one checkpoint at a time. */
  method BoundedImportBatches<T>(features: seq<T>, size: T -> nat, maxFeatures: nat, maxBytes: nat)
    returns (batches: seq<seq<T>>)
    requires forall f | f in features :: size(f) > 0
    ensures Partitions(batches, features, size, maxFeatures, maxBytes)
    ensures forall other :: Partitions(other, features, size, maxFeatures, maxBytes) ==> |batches| <= |other|
  {
    batches := [];
    var batch: seq<T> := [];
    var batchBytes: nat := 0;
    for i := 0 to |features|
      invariant Progress(batches, batch, batchBytes) == TakeAll(features[..i], size, maxFeatures, maxBytes)
    {
      var feature := features[i];
      assert features[..i + 1][..i] == features[..i];
      if batch != [] && (|batch| >= maxFeatures || batchBytes + size(feature) > maxBytes) {
        batches := batches + [batch];
        batch, batchBytes := [], 0;
      }
      assert [] + [feature] == [feature];
      batch := batch + [feature];
      batchBytes := batchBytes + size(feature);
      if |batch| >= maxFeatures || batchBytes >= maxBytes {
        batches := batches + [batch];
        batch, batchBytes := [], 0;
      }
    }
    assert features[..|features|] == features;
    if batch != [] {
      batches := batches + [batch];
    }
    TakenWell(features, size, maxFeatures, maxBytes);
    Optimal(batches, features, size, maxFeatures, maxBytes);
  }

  /** What holds between two features of the stream. */
  ghost predicate Sound<T>(p: Progress<T>, taken: seq<T>, size: T -> nat, maxFeatures: nat, maxBytes: nat) {
    && Flatten(p.batches) + p.batch == taken
    && p.batchBytes == Bytes(p.batch, size)
    && Between(p.batches, p.batch, size, maxFeatures, maxBytes)
  }

  lemma TakeSound<T>(p: Progress<T>, taken: seq<T>, feature: T, size: T -> nat, maxFeatures: nat, maxBytes: nat)
    requires Sound(p, taken, size, maxFeatures, maxBytes) && size(feature) > 0
    ensures Sound(Take(p, feature, size, maxFeatures, maxBytes), taken + [feature], size, maxFeatures, maxBytes)
  {
    BytesAppend(p.batch, [feature], size);
    var full := p.batch != [] && (|p.batch| >= maxFeatures || p.batchBytes + size(feature) > maxBytes);
    if full {
      Overflow(p.batches, p.batch, feature, size, maxFeatures, maxBytes);
      FlattenAppend(p.batches, p.batch);
      Emit(p.batches + [p.batch], [feature], taken + [feature], size, maxFeatures, maxBytes);
    } else {
      Append(p.batches, p.batch, feature, size, maxFeatures, maxBytes);
      assert Flatten(p.batches) + (p.batch + [feature]) == taken + [feature];
      Emit(p.batches, p.batch + [feature], taken + [feature], size, maxFeatures, maxBytes);
    }
  }

  /** A filled batch is emitted once it reaches a budget. */
  lemma Emit<T>(batches: seq<seq<T>>, batch: seq<T>, taken: seq<T>, size: T -> nat, maxFeatures: nat, maxBytes: nat)
    requires Filling(batches, batch, size, maxFeatures, maxBytes) && Flatten(batches) + batch == taken
    ensures var p := if Closed(batch, size, maxFeatures, maxBytes) then Progress(batches + [batch], [], 0)
                     else Progress(batches, batch, Bytes(batch, size));
            Sound(p, taken, size, maxFeatures, maxBytes)
  {
    if Closed(batch, size, maxFeatures, maxBytes) {
      FlattenAppend(batches, batch);
      CloseBatch(batches, batch, size, maxFeatures, maxBytes);
    }
  }

  lemma {:induction false} TakenSound<T>(features: seq<T>, size: T -> nat, maxFeatures: nat, maxBytes: nat)
    requires forall f | f in features :: size(f) > 0
    ensures Sound(TakeAll(features, size, maxFeatures, maxBytes), features, size, maxFeatures, maxBytes)
  {
    if features != [] {
      var front, last := features[..|features| - 1], features[|features| - 1];
      TakenSound(front, size, maxFeatures, maxBytes);
      assert last in features && front + [last] == features;
      TakeSound(TakeAll(front, size, maxFeatures, maxBytes), front, last, size, maxFeatures, maxBytes);
    }
  }

  lemma TakenWell<T>(features: seq<T>, size: T -> nat, maxFeatures: nat, maxBytes: nat)
    requires forall f | f in features :: size(f) > 0
    ensures var batches := TakeAll(features, size, maxFeatures, maxBytes).All();
            Partitions(batches, features, size, maxFeatures, maxBytes) && Saturated(batches, size, maxFeatures, maxBytes)
  {
    TakenSound(features, size, maxFeatures, maxBytes);
    var p := TakeAll(features, size, maxFeatures, maxBytes);
    if p.batch != [] {
      FlattenAppend(p.batches, p.batch);
      LastBatch(p.batches, p.batch, size, maxFeatures, maxBytes);
    }
  }

  lemma Optimal<T>(batches: seq<seq<T>>, features: seq<T>, size: T -> nat, maxFeatures: nat, maxBytes: nat)
    requires Partitions(batches, features, size, maxFeatures, maxBytes)
    requires Saturated(batches, size, maxFeatures, maxBytes)
    ensures forall other :: Partitions(other, features, size, maxFeatures, maxBytes) ==> |batches| <= |other|
  {
    forall other | Partitions(other, features, size, maxFeatures, maxBytes)
      ensures |batches| <= |other|
    {
      StaysAhead(batches, other, features, features, size, maxFeatures, maxBytes);
    }
  }

  lemma CloseBatch<T>(batches: seq<seq<T>>, batch: seq<T>, size: T -> nat, maxFeatures: nat, maxBytes: nat)
    requires Filling(batches, batch, size, maxFeatures, maxBytes) && Closed(batch, size, maxFeatures, maxBytes)
    ensures Between(batches + [batch], [], size, maxFeatures, maxBytes)
  {
  }

  lemma LastBatch<T>(batches: seq<seq<T>>, batch: seq<T>, size: T -> nat, maxFeatures: nat, maxBytes: nat)
    requires Filling(batches, batch, size, maxFeatures, maxBytes)
    ensures forall b | b in batches + [batch] :: Allowed(b, size, maxFeatures, maxBytes)
    ensures Saturated(batches + [batch], size, maxFeatures, maxBytes)
  {
  }

  /** A saturated batch list whose last batch is still being filled. */
  ghost predicate Filling<T>(batches: seq<seq<T>>, batch: seq<T>, size: T -> nat, maxFeatures: nat, maxBytes: nat) {
    && batch != [] && Allowed(batch, size, maxFeatures, maxBytes)
    && (forall b | b in batches :: Allowed(b, size, maxFeatures, maxBytes))
    && Saturated(batches + [batch], size, maxFeatures, maxBytes)
  }

  /** The batching state between two features. */
  ghost predicate Between<T>(batches: seq<seq<T>>, batch: seq<T>, size: T -> nat, maxFeatures: nat, maxBytes: nat) {
    if batch == [] then
      && (forall b | b in batches :: Allowed(b, size, maxFeatures, maxBytes))
      && Saturated(batches, size, maxFeatures, maxBytes)
      && (batches != [] ==> Closed(batches[|batches| - 1], size, maxFeatures, maxBytes))
    else
      Filling(batches, batch, size, maxFeatures, maxBytes) && !Closed(batch, size, maxFeatures, maxBytes)
  }

  lemma Overflow<T>(batches: seq<seq<T>>, batch: seq<T>, feature: T, size: T -> nat, maxFeatures: nat, maxBytes: nat)
    requires Filling(batches, batch, size, maxFeatures, maxBytes)
    requires |batch| >= maxFeatures || Bytes(batch, size) + size(feature) > maxBytes
    ensures Filling(batches + [batch], [feature], size, maxFeatures, maxBytes)
  {
    BytesAppend(batch, [feature], size);
    StartBatch(batches + [batch], feature, size, maxFeatures, maxBytes);
  }

  lemma Append<T>(batches: seq<seq<T>>, batch: seq<T>, feature: T, size: T -> nat, maxFeatures: nat, maxBytes: nat)
    requires Between(batches, batch, size, maxFeatures, maxBytes) && size(feature) > 0
    requires batch != [] ==> |batch| < maxFeatures && Bytes(batch, size) + size(feature) <= maxBytes
    ensures Filling(batches, batch + [feature], size, maxFeatures, maxBytes)
  {
    if batch == [] {
      if batches != [] { ClosedRefuses(batches[|batches| - 1], feature, size, maxFeatures, maxBytes); }
      StartBatch(batches, feature, size, maxFeatures, maxBytes);
      assert batch + [feature] == [feature];
    } else {
      BytesAppend(batch, [feature], size);
      GrowBatch(batches, batch, feature, size, maxFeatures, maxBytes);
    }
  }

  /** A batch that reached one of its budgets. */
  ghost predicate Closed<T>(batch: seq<T>, size: T -> nat, maxFeatures: nat, maxBytes: nat) {
    batch != [] && (|batch| >= maxFeatures || Bytes(batch, size) >= maxBytes)
  }

  lemma ClosedRefuses<T>(batch: seq<T>, feature: T, size: T -> nat, maxFeatures: nat, maxBytes: nat)
    requires Closed(batch, size, maxFeatures, maxBytes) && size(feature) > 0
    ensures !Allowed(batch + [feature], size, maxFeatures, maxBytes)
  {
    assert (batch + [feature])[..|batch|] == batch;
  }

  lemma StartBatch<T>(batches: seq<seq<T>>, feature: T, size: T -> nat, maxFeatures: nat, maxBytes: nat)
    requires Saturated(batches, size, maxFeatures, maxBytes)
    requires batches != [] ==> !Allowed(batches[|batches| - 1] + [feature], size, maxFeatures, maxBytes)
    ensures Saturated(batches + [[feature]], size, maxFeatures, maxBytes)
  {
  }

  lemma GrowBatch<T>(batches: seq<seq<T>>, batch: seq<T>, feature: T, size: T -> nat, maxFeatures: nat, maxBytes: nat)
    requires batch != [] && Saturated(batches + [batch], size, maxFeatures, maxBytes)
    ensures Saturated(batches + [batch + [feature]], size, maxFeatures, maxBytes)
  {
    var grown, was := batches + [batch + [feature]], batches + [batch];
    forall k | 0 <= k < |grown| - 1 && grown[k + 1] != []
      ensures !Allowed(grown[k] + [grown[k + 1][0]], size, maxFeatures, maxBytes)
    {
      assert was[k + 1] != [] && was[k + 1][0] == grown[k + 1][0] && was[k] == grown[k];
    }
  }
}
