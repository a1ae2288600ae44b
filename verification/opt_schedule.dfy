/** The training loop of CGGML/ggml-opt.cpp: accumulation windows, optimiser steps and the train/validation
    partition. */
module OptSchedule {
  import opened Arithmetic

  // ---------------------------------------------------------------- dataset

  /** The shards of one physical batch, in the order they are copied. */
  type Batch = seq<nat>

  /** Any way of rearranging: the k-th shuffle of these entries. */
  type Shuffler = (nat, seq<nat>) -> seq<nat>

  ghost predicate Rearranges(shuffle: Shuffler) {
    forall k: nat, s: seq<nat> :: multiset(shuffle(k, s)) == multiset(s)
  }

  function Identity(n: nat): (r: seq<nat>)
    ensures |r| == n && forall i :: 0 <= i < n ==> r[i] == i
  {
    seq(n, i => i)
  }

  lemma SameLength(s: seq<nat>, t: seq<nat>)
    requires multiset(s) == multiset(t)
    ensures |s| == |t|
  {
    assert |multiset(s)| == |s| && |multiset(t)| == |t|;
  }

  function Times(a: nat, b: nat): nat {
    a * b
  }

  lemma TimesStep(a: nat, b: nat)
    ensures Times(0, b) == 0 && Times(a + 1, b) == Times(a, b) + b
  {
  }

  lemma {:induction false} TimesMonotone(a: nat, c: nat, b: nat)
    requires a <= c
    ensures Times(a, b) <= Times(c, b)
  {
    assert (c - a) * b >= 0;
  }

  /** Batch i of a permutation, some shards at a time. */
  function BatchOf(perm: seq<nat>, perBatch: nat, i: nat): Batch
    requires Times(i, perBatch) + perBatch <= |perm|
  {
    perm[Times(i, perBatch)..Times(i, perBatch) + perBatch]
  }

  lemma BatchFits(i: nat, n: nat, perBatch: nat)
    requires i < n
    ensures Times(i, perBatch) + perBatch <= Times(n, perBatch)
  {
    TimesMonotone(i + 1, n, perBatch);
    TimesStep(i, perBatch);
  }

  /** Batches lo..hi. */
  function Batches(perm: seq<nat>, perBatch: nat, lo: nat, hi: nat): (r: seq<Batch>)
    requires lo <= hi && Times(hi, perBatch) <= |perm|
    ensures |r| == hi - lo
    decreases hi
  {
    if lo == hi then []
    else
      BatchFits(hi - 1, hi, perBatch);
      Batches(perm, perBatch, lo, hi - 1) + [BatchOf(perm, perBatch, hi - 1)]
  }

  function Flatten(batches: seq<Batch>): seq<nat> {
    if batches == [] then [] else Flatten(batches[..|batches| - 1]) + batches[|batches| - 1]
  }

  /** Consecutive batches read consecutive entries of the permutation. */
  lemma {:induction false} BatchesRead(perm: seq<nat>, perBatch: nat, lo: nat, hi: nat)
    requires lo <= hi && Times(hi, perBatch) <= |perm|
    ensures Times(lo, perBatch) <= Times(hi, perBatch) && Flatten(Batches(perm, perBatch, lo, hi))
            == perm[Times(lo, perBatch)..Times(hi, perBatch)]
    decreases hi
  {
    hide Times;
    hide Flatten;
    TimesMonotone(lo, hi, perBatch);
    if lo == hi {
      NothingToFlatten();
    } else {
      var last := hi - 1;
      BatchFits(last, hi, perBatch);
      BatchesRead(perm, perBatch, lo, last);
      TimesStep(last, perBatch);
      FlattenLast(Batches(perm, perBatch, lo, last), BatchOf(perm, perBatch, last));
      SliceJoin(perm, Times(lo, perBatch), Times(last, perBatch), Times(hi, perBatch));
    }
  }

  lemma NothingToFlatten()
    ensures Flatten([]) == []
  {
  }

  lemma SliceJoin(s: seq<nat>, lo: nat, mid: nat, hi: nat)
    requires lo <= mid <= hi <= |s|
    ensures s[lo..mid] + s[mid..hi] == s[lo..hi]
  {
  }

  lemma FlattenLast(batches: seq<Batch>, b: Batch)
    ensures Flatten(batches + [b]) == Flatten(batches) + b
  {
    assert (batches + [b])[..|batches|] == batches;
  }

  /** The k-th shuffle applied to the first n shards. */
  function Mixed(shuffle: Shuffler, k: nat, perm: seq<nat>, n: nat): seq<nat> {
    if n <= |perm| then shuffle(k, perm[..n]) + perm[n..] else perm
  }

  class Dataset {
    const ndata: nat
    const ndataShard: nat
    var permutation: seq<nat>
    var shuffles: nat

    ghost predicate Valid()
      reads this
    {
      ndataShard > 0 && ndata > 0 && multiset(permutation) == multiset(Identity(ndata / ndataShard))
        && |permutation| == ndata / ndataShard
    }

    constructor (ndata: nat, ndataShard: nat)
      requires ndata > 0 && ndataShard > 0
      ensures Valid() && this.ndata == ndata && this.ndataShard == ndataShard
              && permutation == Identity(ndata / ndataShard)
    {
      this.ndata, this.ndataShard, shuffles := ndata, ndataShard, 0;
      permutation := Identity(ndata / ndataShard);
    }

    /** Shuffles all shards, or the shards of the first idata points. */
    method Shuffle(shuffle: Shuffler, idata: int)
      requires Valid() && Rearranges(shuffle) && idata <= ndata && (idata >= 0 ==> idata % ndataShard == 0)
      modifies this
      ensures Valid() && shuffles == old(shuffles) + 1
      ensures permutation == Mixed(shuffle, shuffles, old(permutation), if idata < 0 then |old(permutation)|
              else idata / ndataShard)
      ensures idata >= 0 ==>
        && 0 <= idata / ndataShard <= |permutation|
        && multiset(permutation[..idata / ndataShard]) == multiset(old(permutation)[..idata / ndataShard])
        && permutation[idata / ndataShard..] == old(permutation)[idata / ndataShard..]
    {
      var old_ := permutation;
      shuffles := shuffles + 1;
      if idata < 0 {
        permutation := shuffle(shuffles, permutation);
        SameLength(permutation, old_);
        assert old_[..|old_|] == old_ && permutation == shuffle(shuffles, old_) + old_[|old_|..];
        return;
      }
      var max := idata / ndataShard;
      ShardBound(idata, ndata, ndataShard);
      var head := shuffle(shuffles, old_[..max]);
      SameLength(head, old_[..max]);
      permutation := head + old_[max..];
      assert old_ == old_[..max] + old_[max..];
    }

    /** The shards of batch ibatch. */
    method GetBatch(perBatch: nat, ibatch: nat) returns (b: Batch)
      requires Times(ibatch, perBatch) + perBatch <= |permutation|
      ensures b == BatchOf(permutation, perBatch, ibatch)
    {
      b := [];
      var k := 0;
      while k < perBatch
        invariant k <= perBatch && b == permutation[Times(ibatch, perBatch)..Times(ibatch, perBatch) + k]
      {
        b := b + [permutation[Times(ibatch, perBatch) + k]];
        k := k + 1;
      }
    }
  }

  lemma ShardBound(idata: nat, ndata: nat, shard: nat)
    requires idata <= ndata && shard > 0
    ensures 0 <= idata / shard <= ndata / shard
  {
    var a, b := idata / shard, ndata / shard;
    assert idata == shard * a + idata % shard && ndata == shard * b + ndata % shard;
    if a > b { TimesMonotone(b + 1, a, shard); TimesStep(b, shard); }
  }

  // ---------------------------------------------------------------- optimiser context

  datatype BuildType = Forward | Grad | Opt

  /** Window k of a list of batches. */
  function Window(b: seq<Batch>, period: nat, k: nat): seq<Batch>
    requires Times(k, period) + period <= |b|
  {
    b[Times(k, period)..Times(k, period) + period]
  }

  /** The first k windows. */
  function Windows(b: seq<Batch>, period: nat, k: nat): (r: seq<seq<Batch>>)
    requires Times(k, period) <= |b|
    ensures |r| == k
  {
    if k == 0 then []
    else
      TimesStep(k - 1, period);
      Windows(b, period, k - 1) + [Window(b, period, k - 1)]
  }

  /** opt_i, iter, build_type and eval_ready; what the gradient accumulators hold, as the batches added since they were
      zeroed; and the batches whose gradients each optimiser step has applied. */
  class Context {
    const period: nat
    var optI: nat
    var iter: nat
    var buildType: BuildType
    var evalReady: bool
    var acc: seq<Batch>
    var steps: seq<seq<Batch>>

    ghost predicate Valid()
      reads this
    {
      period >= 1 && optI < period && iter == 1 + |steps|
    }

    /** The batches whose gradients the next training batch is added to. A period of one keeps none, and right after an
        optimiser step the accumulators are zeroed before they are used. */
    ghost function Pending(): seq<Batch>
      reads this
    {
      if period > 1 && (optI > 0 || buildType != Opt) then acc else []
    }

    /** At the start of a window with nothing pending. */
    ghost predicate Ready()
      reads this
    {
      Valid() && optI == 0 && !evalReady && Pending() == []
    }

    constructor (period: nat)
      requires period >= 1
      ensures Ready() && this.period == period && steps == [] && acc == [] && buildType == Opt
    {
      this.period, optI, iter, buildType, evalReady, acc, steps := period, 0, 1, Opt, false, [], [];
    }

    /** Chooses the graph to run; zeroes the accumulators at the start of a window that follows an optimiser step. */
    method Alloc(backward: bool)
      requires Valid() && !evalReady
      modifies this
      ensures Valid() && evalReady && optI == old(optI) && iter == old(iter) && steps == old(steps)
      ensures acc == if old(buildType) == Opt && period > 1 && optI == 0 then [] else old(acc)
      ensures buildType == if !backward then Forward else if optI + 1 == period then Opt else Grad
    {
      if buildType == Opt && period > 1 && optI == 0 { acc := []; }
      if backward {
        var next := (optI + 1) % period;
        NextInPeriod(optI, period);
        buildType := if next == 0 then Opt else Grad;
      } else {
        buildType := Forward;
      }
      evalReady := true;
    }

    /** Runs the graph: gradients are added to the accumulators, which a period of one does without; the optimiser graph
        then steps. */
    method Eval(batch: Batch)
      requires Valid() && evalReady
      modifies this
      ensures Valid() && !evalReady && buildType == old(buildType)
      ensures optI == if old(optI) + 1 == period then 0 else old(optI) + 1
      ensures acc == if old(buildType) == Forward || period == 1 then old(acc) else old(acc) + [batch]
      ensures steps == if old(buildType) != Opt then old(steps)
              else old(steps) + [if period == 1 then [batch] else old(acc) + [batch]]
    {
      NextInPeriod(optI, period);
      if buildType != Forward && period > 1 { acc := acc + [batch]; }
      if buildType == Opt {
        steps := steps + [if period == 1 then [batch] else acc];
        iter := iter + 1;
      }
      optI := (optI + 1) % period;
      evalReady := false;
    }
  }

  lemma NextInPeriod(i: nat, period: nat)
    requires i < period
    ensures (i + 1) % period == if i + 1 == period then 0 else i + 1
  {
  }

  /** Windows of an epoch that starts with batches still pending: the first step applies those as well. */
  function Carry(base: seq<Batch>, windows: seq<seq<Batch>>): seq<seq<Batch>> {
    if windows == [] then [] else [base + windows[0]] + windows[1..]
  }

  /** What is still pending of those after k windows. */
  function Open(base: seq<Batch>, k: nat): seq<Batch> {
    if k == 0 then base else []
  }

  /** Inside a training run that found `base` pending: k whole windows have been stepped, the open window is pending. */
  ghost predicate Training(c: Context, before: seq<seq<Batch>>, base: seq<Batch>, b: seq<Batch>, k: nat)
    reads c
  {
    && c.Valid() && !c.evalReady && Times(k, c.period) + c.optI == |b|
    && c.steps == before + Carry(base, Windows(b, c.period, k))
    && c.Pending() == Open(base, k) + b[Times(k, c.period)..]
  }

  lemma MoreBatches(b: seq<Batch>, b': seq<Batch>, period: nat, k: nat)
    requires b <= b' && Times(k, period) <= |b|
    ensures Windows(b', period, k) == Windows(b, period, k)
  {
    hide Times;
    if k > 0 {
      var j := k - 1;
      TimesStep(j, period);
      assert Times(j, period) + period == Times(k, period);
      MoreBatches(b, b', period, j);
      SlicePrefix(b, b', Times(j, period), Times(j, period) + period);
    }
  }

  lemma SlicePrefix(b: seq<Batch>, b': seq<Batch>, lo: nat, hi: nat)
    requires b <= b' && lo <= hi <= |b|
    ensures b[lo..hi] == b'[lo..hi]
  {
    assert b == b'[..|b|];
  }

  lemma OneMoreWindow(b: seq<Batch>, period: nat, k: nat)
    requires Times(k, period) + period <= |b|
    ensures var next := k + 1; Times(next, period) == Times(k, period) + period
                               && Windows(b, period, next) == Windows(b, period, k) + [Window(b, period, k)]
  {
    TimesStep(k, period);
    hide Times;
  }

  lemma OneMoreCarry(base: seq<Batch>, windows: seq<seq<Batch>>, w: seq<Batch>)
    ensures Carry(base, windows + [w]) == Carry(base, windows) + [Open(base, |windows|) + w]
  {
    var all := windows + [w];
    if windows == [] {
      assert all[1..] == [];
      assert Carry(base, all) == [base + w];
    } else {
      assert all[0] == windows[0] && all[1..] == windows[1..] + [w];
      assert [] + w == w;
    }
  }

  lemma NothingCarried(windows: seq<seq<Batch>>)
    ensures Carry([], windows) == windows
  {
    if windows != [] {
      assert [] + windows[0] == windows[0];
      assert windows == [windows[0]] + windows[1..];
    }
  }

  /** One training batch joins what is pending; the last batch of a window makes a step of it. */
  method TrainBatch(c: Context, batch: Batch)
    requires c.Valid() && !c.evalReady
    modifies c
    ensures c.Valid() && !c.evalReady && c.optI == if old(c.optI) + 1 == c.period then 0 else old(c.optI) + 1
    ensures c.steps == if old(c.optI) + 1 == c.period then old(c.steps) + [old(c.Pending()) + [batch]] else old(c.steps)
    ensures c.Pending() == if old(c.optI) + 1 == c.period then [] else old(c.Pending()) + [batch]
  {
    ghost var pending: seq<Batch> := c.Pending();
    assert pending == [] ==> pending + [batch] == [batch];
    c.Alloc(true);
    assert c.period > 1 ==> c.acc == pending;
    c.Eval(batch);
  }

  method Train(c: Context, batch: Batch, ghost before: seq<seq<Batch>>, ghost base: seq<Batch>, ghost b: seq<Batch>,
               ghost k: nat) returns (ghost k': nat)
    requires Training(c, before, base, b, k)
    modifies c
    ensures Training(c, before, base, b + [batch], k')
  {
    hide Times;
    ghost var b', lo, ws := b + [batch], Times(k, c.period), Windows(b, c.period, k);
    MoreBatches(b, b', c.period, k);
    assert b'[lo..] == b[lo..] + [batch];
    k' := k;
    if c.optI + 1 == c.period {
      k' := k + 1;
      OneMoreWindow(b', c.period, k);
      assert Window(b', c.period, k) == b'[lo..];
      OneMoreCarry(base, ws, b'[lo..]);
      assert Open(base, k) + b[lo..] + [batch] == Open(base, k) + b'[lo..];
    } else {
      assert Open(base, k) + b[lo..] + [batch] == Open(base, k) + b'[lo..];
    }
    TrainBatch(c, batch);
  }

  /** One validation batch moves opt_i on and takes no step. */
  method Validate(c: Context, batch: Batch)
    requires c.Valid() && !c.evalReady
    modifies c
    ensures c.Valid() && !c.evalReady && c.steps == old(c.steps) && c.Pending() == old(c.Pending())
    ensures c.optI == if old(c.optI) + 1 == c.period then 0 else old(c.optI) + 1
  {
    c.Alloc(false);
    c.Eval(batch);
  }

  function Join(windows: seq<seq<Batch>>): seq<Batch> {
    if windows == [] then [] else Join(windows[..|windows| - 1]) + windows[|windows| - 1]
  }

  /** The windows are consecutive, each of exactly one period, and leave no batch out. */
  lemma {:induction false} WindowsTile(b: seq<Batch>, period: nat, k: nat)
    requires Times(k, period) <= |b|
    ensures Join(Windows(b, period, k)) == b[..Times(k, period)]
    ensures forall i :: 0 <= i < k ==> |Windows(b, period, k)[i]| == period
  {
    hide Times;
    if k == 0 {
      TimesStep(0, period);
    } else {
      var j := k - 1;
      TimesStep(j, period);
      WindowsTile(b, period, j);
      var w := Windows(b, period, k);
      assert w[..|w| - 1] == Windows(b, period, j);
    }
  }

  /** The windows apply every batch exactly when the batches are a whole number of windows. */
  lemma AllAppliedExactly(b: seq<Batch>, period: nat)
    requires period > 0
    ensures Times(|b| / period, period) <= |b| && (Times(|b| / period, period) == |b| <==> |b| % period == 0)
    ensures Join(Windows(b, period, |b| / period)) == b <==> |b| % period == 0
  {
    WholePart(|b|, period);
    WindowsTile(b, period, |b| / period);
  }

  lemma WholePart(n: nat, period: nat)
    requires period > 0
    ensures n == Times(n / period, period) + n % period && 0 <= n % period < period
  {
    assert n == period * (n / period) + n % period;
  }

  /** Quotient and remainder are the only way to split a number into whole periods and a rest. */
  lemma WholeAndRest(k: nat, r: nat, n: nat, period: nat)
    requires Times(k, period) + r == n && r < period
    ensures k == n / period && r == n % period
  {
    QuotientUnique(n, period, k);
    WholePart(n, period);
  }

  lemma RestMoves(n: nat, period: nat)
    requires period > 0
    ensures (n + 1) % period == if n % period + 1 == period then 0 else n % period + 1
  {
    WholePart(n, period);
    TimesStep(n / period, period);
    if n % period + 1 == period {
      WholeAndRest(n / period + 1, 0, n + 1, period);
    } else {
      WholeAndRest(n / period, n % period + 1, n + 1, period);
    }
  }

  /** The training batches of an epoch. */
  method TrainPart(c: Context, ds: Dataset, perBatch: nat, split: nat, nbatches: nat) returns (train: seq<Batch>)
    requires c.Valid() && !c.evalReady && c.optI == 0 && split <= nbatches
             && Times(nbatches, perBatch) <= |ds.permutation|
    modifies c
    ensures Times(split, perBatch) <= |ds.permutation| && train == Batches(ds.permutation, perBatch, 0, split)
    ensures Training(c, old(c.steps), old(c.Pending()), train, split / c.period) && c.optI == split % c.period
  {
    hide Times;
    ghost var before, base, k := c.steps, c.Pending(), 0;
    train := [];
    var ibatch := 0;
    TimesStep(0, c.period);
    TimesStep(0, perBatch);
    TimesMonotone(split, nbatches, perBatch);
    assert base == Open(base, 0) + train[0..];
    while ibatch < split
      invariant ibatch <= split && Times(ibatch, perBatch) <= |ds.permutation|
      invariant train == Batches(ds.permutation, perBatch, 0, ibatch)
      invariant Training(c, before, base, train, k)
    {
      BatchFits(ibatch, nbatches, perBatch);
      TimesStep(ibatch, perBatch);
      var b := ds.GetBatch(perBatch, ibatch);
      k := Train(c, b, before, base, train, k);
      train := train + [b];
      ibatch := ibatch + 1;
    }
    WholeAndRest(k, c.optI, split, c.period);
  }

  /** The validation batches of an epoch. */
  method ValidationPart(c: Context, ds: Dataset, perBatch: nat, split: nat, nbatches: nat) returns (val: seq<Batch>)
    requires c.Valid() && !c.evalReady && c.optI == split % c.period
    requires split <= nbatches && Times(nbatches, perBatch) <= |ds.permutation|
    modifies c
    ensures c.Valid() && !c.evalReady && c.optI == nbatches % c.period && c.steps == old(c.steps)
            && c.Pending() == old(c.Pending())
    ensures Times(split, perBatch) <= |ds.permutation| && val == Batches(ds.permutation, perBatch, split, nbatches)
  {
    hide Times;
    val := [];
    var ibatch := split;
    TimesMonotone(split, nbatches, perBatch);
    while ibatch < nbatches
      invariant split <= ibatch <= nbatches && Times(ibatch, perBatch) <= |ds.permutation|
      invariant val == Batches(ds.permutation, perBatch, split, ibatch)
      invariant c.Valid() && !c.evalReady && c.steps == old(c.steps) && c.Pending() == old(c.Pending())
      invariant c.optI == ibatch % c.period
    {
      BatchFits(ibatch, nbatches, perBatch);
      TimesStep(ibatch, perBatch);
      RestMoves(ibatch, c.period);
      var b := ds.GetBatch(perBatch, ibatch);
      Validate(c, b);
      val := val + [b];
      ibatch := ibatch + 1;
    }
  }

  /** One epoch from the start of a window, whatever the two numbers of batches: every whole window of training batches
      is one step, the first together with what was pending before, and the training batches left over stay pending. */
  method Epoch(c: Context, ds: Dataset, perBatch: nat, split: nat, nbatches: nat)
    returns (train: seq<Batch>, val: seq<Batch>)
    requires c.Valid() && !c.evalReady && c.optI == 0 && split <= nbatches
             && Times(nbatches, perBatch) <= |ds.permutation|
    modifies c
    ensures c.Valid() && !c.evalReady && c.optI == nbatches % c.period && Times(split, perBatch) <= |ds.permutation|
    ensures train == Batches(ds.permutation, perBatch, 0, split)
            && val == Batches(ds.permutation, perBatch, split, nbatches)
    ensures Times(split / c.period, c.period) <= split
    ensures c.steps == old(c.steps) + Carry(old(c.Pending()), Windows(train, c.period, split / c.period))
    ensures c.Pending() == Open(old(c.Pending()), split / c.period) + train[Times(split / c.period, c.period)..]
    ensures old(c.Ready()) ==> c.steps == old(c.steps) + Windows(train, c.period, split / c.period)
    ensures old(c.Ready()) ==> (c.Ready() <==> split % c.period == 0 && nbatches % c.period == 0)
    ensures old(c.Ready()) ==> (Join(c.steps[|old(c.steps)|..]) == train <==> split % c.period == 0)
  {
    hide Times;
    train := TrainPart(c, ds, perBatch, split, nbatches);
    val := ValidationPart(c, ds, perBatch, split, nbatches);
    AllAppliedExactly(train, c.period);
    ghost var windows := Windows(train, c.period, split / c.period);
    NothingCarried(windows);
    assert (old(c.steps) + windows)[|old(c.steps)|..] == windows;
  }
}
