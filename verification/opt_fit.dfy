/** ggml_opt_fit: over all epochs every optimiser step applies one whole window of training batches, every shard is read
    once per epoch, and no shard moves between training and validation. */
module OptFit {
  import opened OptSchedule

  /** What one epoch reads. */
  datatype EpochReads = EpochReads(train: seq<Batch>, val: seq<Batch>)

  /** The windows of all epochs, in order. */
  function AllWindows(epochs: seq<EpochReads>, period: nat, windows: nat): seq<seq<Batch>>
    requires forall e :: 0 <= e < |epochs| ==> Times(windows, period) <= |epochs[e].train|
  {
    if epochs == [] then []
    else AllWindows(epochs[..|epochs| - 1], period, windows) + Windows(epochs[|epochs| - 1].train, period, windows)
  }

  /** Every shard once, the training shards among them. */
  ghost predicate ReadsOnce(r: EpochReads, shards: nat, trainShards: multiset<nat>) {
    && multiset(Flatten(r.train)) == trainShards
    && multiset(Flatten(r.train)) + multiset(Flatten(r.val)) == multiset(Identity(shards))
  }

  /** The epoch reads consecutive batches of this permutation, the training batches first. */
  ghost predicate ReadsInOrder(r: EpochReads, perm: seq<nat>, s: Sizes) {
    && s.split <= s.nbatches && Times(s.nbatches, s.perBatch) <= |perm| && Times(s.split, s.perBatch) <= |perm|
    && r.train == Batches(perm, s.perBatch, 0, s.split) && r.val == Batches(perm, s.perBatch, s.split, s.nbatches)
  }

  /** The permutation that epoch e reads: the first n shards have been shuffled once more for every epoch, or never. */
  function EpochOrder(shuffle: Shuffler, reshuffle: bool, perm: seq<nat>, k: nat, n: nat, e: nat): seq<nat> {
    if !reshuffle then perm
    else Mixed(shuffle, k + e + 1, if e == 0 then perm else EpochOrder(shuffle, reshuffle, perm, k, n, e - 1), n)
  }

  /** The epochs so far have read the orders that the shuffles so far produced; `now` is the permutation at the end. */
  ghost predicate Trajectory(shuffle: Shuffler, each: bool, perm: seq<nat>, k: nat, s: Sizes, epochs: seq<EpochReads>,
                             now: seq<nat>, shuffles: nat) {
    var n := Times(s.split, s.perBatch);
    && shuffles == k + (if each then |epochs| else 0)
    && now == (if each && |epochs| > 0 then EpochOrder(shuffle, each, perm, k, n, |epochs| - 1) else perm)
    && forall e :: 0 <= e < |epochs| ==> ReadsInOrder(epochs[e], EpochOrder(shuffle, each, perm, k, n, e), s)
  }

  lemma TrajectoryStart(shuffle: Shuffler, each: bool, perm: seq<nat>, k: nat, s: Sizes)
    ensures Trajectory(shuffle, each, perm, k, s, [], perm, k)
  {
  }

  lemma TrajectoryStep(shuffle: Shuffler, each: bool, perm: seq<nat>, k: nat, s: Sizes, epochs: seq<EpochReads>,
                       was: seq<nat>, shuffles: nat, r: EpochReads, now: seq<nat>)
    requires Trajectory(shuffle, each, perm, k, s, epochs, was, shuffles) && ReadsInOrder(r, now, s)
    requires now == if each then Mixed(shuffle, shuffles + 1, was, Times(s.split, s.perBatch)) else was
    ensures Trajectory(shuffle, each, perm, k, s, epochs + [r], now, shuffles + if each then 1 else 0)
  {
    hide Mixed;
    hide ReadsInOrder;
    hide Times;
  }

  datatype Sizes = Sizes(period: nat, logical: nat, trainWindows: nat, split: nat, nbatches: nat, perBatch: nat)

  /** The sizes that the fit derives from its arguments. */
  ghost predicate Derived(s: Sizes, ndata: nat, shard: nat, physical: nat) {
    && s.period >= 1 && s.trainWindows <= s.logical && shard > 0
    && s.split == Times(s.trainWindows, s.period) && s.nbatches == Times(s.logical, s.period)
    && s.split <= s.nbatches && s.nbatches - s.split == Times(s.logical - s.trainWindows, s.period)
    && physical == Times(s.perBatch, shard)
    && ndata == Times(s.nbatches, physical)
    && ndata / shard == Times(s.nbatches, s.perBatch)
    && Times(s.split, physical) <= ndata
    && Times(s.split, physical) % shard == 0 && Times(s.split, physical) / shard == Times(s.split, s.perBatch)
  }

  lemma Quotient(a: nat, d: nat)
    requires d > 0 && a % d == 0
    ensures a == Times(a / d, d)
  {
    assert a == d * (a / d) + a % d;
  }

  lemma ProductQuotient(q: nat, d: nat)
    requires d > 0
    ensures Times(q, d) / d == q && Times(q, d) % d == 0
  {
    var q' := Times(q, d) / d;
    assert Times(q, d) == d * q' + Times(q, d) % d;
    if q' < q {
      TimesMonotone(q' + 1, q, d);
      TimesStep(q', d);
    } else if q < q' {
      TimesMonotone(q + 1, q', d);
      TimesStep(q, d);
    }
    assert d * q' == Times(q', d);
  }

  lemma Associates(a: nat, b: nat, c: nat)
    ensures Times(Times(a, b), c) == Times(a, Times(b, c))
  {
  }

  lemma TimesPositive(q: nat, d: nat)
    requires Times(q, d) > 0
    ensures q >= 1
  {
  }

  lemma SplitRest(a: nat, b: nat, c: nat)
    requires a <= b
    ensures Times(b, c) - Times(a, c) == Times(b - a, c)
  {
  }

  method DeriveSizes(ndata: nat, shard: nat, physical: nat, nbatchLogical: nat, valSplit: real) returns (s: Sizes)
    requires shard > 0 && physical > 0 && nbatchLogical > 0
    requires ndata % nbatchLogical == 0 && nbatchLogical % physical == 0 && physical % shard == 0
             && 0.0 <= valSplit < 1.0
    ensures Derived(s, ndata, shard, physical) && s.period == nbatchLogical / physical
            && s.logical == ndata / nbatchLogical
    ensures s.trainWindows as real <= (1.0 - valSplit) * s.logical as real < s.trainWindows as real + 1.0
  {
    var period, logical := nbatchLogical / physical, ndata / nbatchLogical;
    var v := (1.0 - valSplit) * logical as real;
    TrainShare(1.0 - valSplit, logical);
    var trainWindows := v.Floor;
    var split := trainWindows * period;
    var nbatches, perBatch := ndata / physical, physical / shard;
    s := Sizes(period, logical, trainWindows, split, nbatches, perBatch);
    SizesFit(s, ndata, shard, physical, nbatchLogical);
  }

  lemma TrainShare(share: real, logical: nat)
    requires 0.0 < share <= 1.0
    ensures 0 <= (share * logical as real).Floor <= logical
  {
    assert 0.0 <= share * logical as real <= logical as real;
  }

  lemma SizesFit(s: Sizes, ndata: nat, shard: nat, physical: nat, nbatchLogical: nat)
    requires shard > 0 && physical > 0 && nbatchLogical > 0
    requires ndata % nbatchLogical == 0 && nbatchLogical % physical == 0 && physical % shard == 0
    requires s.period == nbatchLogical / physical && s.logical == ndata / nbatchLogical && s.trainWindows <= s.logical
    requires s.split == s.trainWindows * s.period && s.nbatches == ndata / physical && s.perBatch == physical / shard
    ensures Derived(s, ndata, shard, physical)
  {
    Quotient(ndata, nbatchLogical);
    Quotient(nbatchLogical, physical);
    Quotient(physical, shard);
    TimesPositive(s.period, physical);
    assert s.split == Times(s.trainWindows, s.period);
    hide Times;
    Associates(s.logical, s.period, physical);
    ProductQuotient(Times(s.logical, s.period), physical);
    TimesMonotone(s.trainWindows, s.logical, s.period);
    SplitRest(s.trainWindows, s.logical, s.period);
    Associates(s.nbatches, s.perBatch, shard);
    ProductQuotient(Times(s.nbatches, s.perBatch), shard);
    TimesMonotone(s.split, s.nbatches, physical);
    Associates(s.split, s.perBatch, shard);
    ProductQuotient(Times(s.split, s.perBatch), shard);
  }

  lemma EpochReadsOnce(perm: seq<nat>, s: Sizes, r: EpochReads, shards: nat)
    requires multiset(perm) == multiset(Identity(shards)) && |perm| == Times(s.nbatches, s.perBatch)
             && s.split <= s.nbatches
    requires Times(s.split, s.perBatch) <= |perm|
    requires r.train == Batches(perm, s.perBatch, 0, s.split) && r.val == Batches(perm, s.perBatch, s.split, s.nbatches)
    ensures ReadsOnce(r, shards, multiset(perm[..Times(s.split, s.perBatch)]))
  {
    hide Times;
    TimesStep(0, s.perBatch);
    BatchesRead(perm, s.perBatch, 0, s.split);
    BatchesRead(perm, s.perBatch, s.split, s.nbatches);
    var t := Times(s.split, s.perBatch);
    assert perm[0..t] == perm[..t] && perm[t..|perm|] == perm[t..];
    assert perm == perm[..t] + perm[t..];
  }

  lemma AllWindowsStep(epochs: seq<EpochReads>, r: EpochReads, period: nat, windows: nat)
    requires forall e :: 0 <= e < |epochs| ==> Times(windows, period) <= |epochs[e].train|
    requires Times(windows, period) <= |r.train|
    ensures AllWindows(epochs + [r], period, windows) == AllWindows(epochs, period, windows) + Windows(r.train, period,
              windows)
  {
    assert (epochs + [r])[..|epochs|] == epochs;
  }

  lemma NoWindows(period: nat, windows: nat)
    ensures AllWindows([], period, windows) == []
  {
  }

  /** Both numbers of batches are whole windows. */
  lemma WholeSizes(s: Sizes, ndata: nat, shard: nat, physical: nat)
    requires Derived(s, ndata, shard, physical)
    ensures s.split / s.period == s.trainWindows && s.split % s.period == 0 && s.nbatches % s.period == 0
  {
    hide Times;
    WholeAndRest(s.trainWindows, 0, s.split, s.period);
    WholeAndRest(s.logical, 0, s.nbatches, s.period);
  }

  /** Shuffles the training shards when that makes sense, then runs the epoch. */
  method OneEpoch(c: Context, ds: Dataset, s: Sizes, physical: nat, reshuffle: bool, shuffle: Shuffler)
    returns (r: EpochReads)
    requires ds.Valid() && c.Ready() && c.period == s.period && Rearranges(shuffle)
             && Derived(s, ds.ndata, ds.ndataShard, physical)
    requires Times(s.split, s.perBatch) <= |ds.permutation| == Times(s.nbatches, s.perBatch)
    modifies c, ds
    ensures ds.Valid() && c.Ready() && |ds.permutation| == |old(ds.permutation)|
    ensures multiset(ds.permutation[..Times(s.split, s.perBatch)])
            == multiset(old(ds.permutation)[..Times(s.split, s.perBatch)])
    ensures |r.train| == s.split && |r.val| == s.nbatches - s.split && Times(s.trainWindows, s.period) <= |r.train|
    ensures c.steps == old(c.steps) + Windows(r.train, s.period, s.trainWindows)
    ensures ReadsOnce(r, ds.ndata / ds.ndataShard, multiset(old(ds.permutation)[..Times(s.split, s.perBatch)]))
    ensures ReadsInOrder(r, ds.permutation, s)
    ensures ds.shuffles == old(ds.shuffles) + if reshuffle then 1 else 0
    ensures ds.permutation == if reshuffle then Mixed(shuffle, ds.shuffles, old(ds.permutation),
                                                Times(s.split, s.perBatch))
                              else old(ds.permutation)
  {
    hide Times;
    hide ReadsOnce;
    hide Mixed;
    if reshuffle {
      ds.Shuffle(shuffle, Times(s.split, physical));
    }
    WholeSizes(s, ds.ndata, ds.ndataShard, physical);
    var train, val := Epoch(c, ds, s.perBatch, s.split, s.nbatches);
    r := EpochReads(train, val);
    EpochReadsOnce(ds.permutation, s, r, ds.ndata / ds.ndataShard);
  }

  method Fit(ds: Dataset, physical: nat, nbatchLogical: nat, valSplit: real, nepoch: nat, shuffle: Shuffler)
    returns (c: Context, epochs: seq<EpochReads>, s: Sizes, ghost trainShards: multiset<nat>)
    requires ds.Valid() && Rearranges(shuffle) && physical > 0 && nbatchLogical > 0
    requires ds.ndata % nbatchLogical == 0 && nbatchLogical % physical == 0 && physical % ds.ndataShard == 0
             && 0.0 <= valSplit < 1.0
    modifies ds
    ensures ds.Valid() && fresh(c) && c.Ready() && c.period == nbatchLogical / physical && |epochs| == nepoch
    ensures Derived(s, ds.ndata, ds.ndataShard, physical) && s.period == c.period
            && s.logical == ds.ndata / nbatchLogical
    ensures forall e :: 0 <= e < nepoch ==> |epochs[e].train| == s.split && |epochs[e].val| == s.nbatches - s.split
    ensures forall e :: 0 <= e < nepoch ==> Times(s.trainWindows, s.period) <= |epochs[e].train|
    ensures c.steps == AllWindows(epochs, s.period, s.trainWindows) && c.iter == 1 + |c.steps|
    ensures forall e :: 0 <= e < nepoch ==> ReadsOnce(epochs[e], ds.ndata / ds.ndataShard, trainShards)
    ensures var all, each := nbatchLogical < ds.ndata, nbatchLogical < s.split * physical;
            var perm := if all then Mixed(shuffle, old(ds.shuffles) + 1, old(ds.permutation), |old(ds.permutation)|)
                        else old(ds.permutation);
            var k := old(ds.shuffles) + if all then 1 else 0;
            Trajectory(shuffle, each, perm, k, s, epochs, ds.permutation, ds.shuffles)
  {
    hide Times;
    hide ReadsOnce;
    hide AllWindows;
    hide Windows;
    hide Rearranges;
    hide Mixed;
    hide ReadsInOrder;
    hide Trajectory;
    s := DeriveSizes(ds.ndata, ds.ndataShard, physical, nbatchLogical, valSplit);
    var idataSplit := s.split * physical;
    assert idataSplit == Times(s.split, physical) by { TimesIs(s.split, physical); }
    c := new Context(s.period);
    if nbatchLogical < ds.ndata {
      ds.Shuffle(shuffle, -1);
    }
    ghost var perm, k, each := ds.permutation, ds.shuffles, nbatchLogical < idataSplit;
    epochs := [];
    TrajectoryStart(shuffle, each, perm, k, s);
    NoWindows(s.period, s.trainWindows);
    TrainPart(s, ds.permutation);
    trainShards := multiset(ds.permutation[..Times(s.split, s.perBatch)]);
    var epoch := 1;
    while epoch <= nepoch
      invariant 1 <= epoch <= nepoch + 1 && |epochs| == epoch - 1
      invariant ds.Valid() && c.Ready() && fresh(c) && c.period == s.period
      invariant Times(s.split, s.perBatch) <= |ds.permutation| == Times(s.nbatches, s.perBatch)
      invariant multiset(ds.permutation[..Times(s.split, s.perBatch)]) == trainShards
      invariant forall e :: 0 <= e < |epochs| ==>
                |epochs[e].train| == s.split && |epochs[e].val| == s.nbatches - s.split
      invariant c.steps == AllWindows(epochs, s.period, s.trainWindows)
      invariant forall e :: 0 <= e < |epochs| ==> ReadsOnce(epochs[e], ds.ndata / ds.ndataShard, trainShards)
      invariant Trajectory(shuffle, each, perm, k, s, epochs, ds.permutation, ds.shuffles)
    {
      ghost var was, shuffles := ds.permutation, ds.shuffles;
      var r := OneEpoch(c, ds, s, physical, nbatchLogical < idataSplit, shuffle);
      TrajectoryStep(shuffle, each, perm, k, s, epochs, was, shuffles, r, ds.permutation);
      AllWindowsStep(epochs, r, s.period, s.trainWindows);
      epochs := epochs + [r];
      epoch := epoch + 1;
    }
  }

  lemma TimesIs(a: nat, b: nat)
    ensures Times(a, b) == a * b
  {
  }

  lemma TrainPart(s: Sizes, perm: seq<nat>)
    requires s.split <= s.nbatches && |perm| == Times(s.nbatches, s.perBatch)
    ensures Times(s.split, s.perBatch) <= |perm|
  {
    TimesMonotone(s.split, s.nbatches, s.perBatch);
  }

  /** Why the split has to be a whole number of windows: when an epoch has fewer training batches than a window and the
      validation batches fill the window up, ggml_opt_epoch never takes a step, however often it is called, and the
      gradients of all epochs pile up in the accumulators. */
  method MisalignedEpochs(ds: Dataset, period: nat, perBatch: nat, split: nat, nbatches: nat, nepoch: nat)
    returns (c: Context)
    requires 0 < split < period && split <= nbatches && nbatches % period == 0
             && Times(nbatches, perBatch) <= |ds.permutation|
    ensures fresh(c) && c.period == period && c.steps == [] && |c.Pending()| == Times(nepoch, split)
  {
    hide Times;
    c := new Context(period);
    TimesStep(0, period);
    WholeAndRest(0, split, split, period);
    TimesStep(0, split);
    var epoch := 0;
    while epoch < nepoch
      invariant epoch <= nepoch && fresh(c) && c.Valid() && !c.evalReady && c.period == period && c.optI == 0
      invariant c.steps == [] && |c.Pending()| == Times(epoch, split)
    {
      TimesStep(epoch, split);
      var train, val := Epoch(c, ds, perBatch, split, nbatches);
      epoch := epoch + 1;
    }
  }
}
