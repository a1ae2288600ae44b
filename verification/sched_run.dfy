/** Running a graph node by node, and running it split by split with copied inputs
    (ggml_backend_sched_compute_splits). */
module SchedRun {
  import opened Wrappers
  import opened TensorGraph
  import opened SchedModel
  import opened SchedSplit

  /** An arbitrary meaning for the operations: what a node computes from its sources, what a view sees of the tensor it
      views, and what the memory holds at first. */
  datatype Meaning<!V> = Meaning(compute: (nat, seq<V>) -> V, project: (nat, V) -> V, initial: nat -> V)

  /** Memory has one cell for every tensor; the cells of views are not used. */
  function Read<V>(m: Meaning<V>, g: Graph, mem: seq<V>, t: nat): V
    requires g.IdsOk() && t < |mem| && |g.tensors| <= |mem|
  {
    if t < |g.tensors| && g.IsView(t) then m.project(t, mem[g.tensors[t].viewSrc.value]) else mem[t]
  }

  function ReadAll<V>(m: Meaning<V>, g: Graph, mem: seq<V>, row: seq<nat>): (r: seq<V>)
    requires g.IdsOk() && |g.tensors| <= |mem| && forall j :: 0 <= j < |row| ==> row[j] < |mem|
    ensures |r| == |row| && forall j :: 0 <= j < |r| ==> r[j] == Read(m, g, mem, row[j])
  {
    if row == [] then [] else ReadAll(m, g, mem, row[..|row| - 1]) + [Read(m, g, mem, row[|row| - 1])]
  }

  /** Node k executes with the sources in `row`; view operations do nothing. */
  function RunNode<V>(m: Meaning<V>, g: Graph, mem: seq<V>, row: seq<nat>, k: nat): (r: seq<V>)
    requires g.IdsOk() && |g.tensors| <= |mem| && k < |g.nodes| && forall j :: 0 <= j < |row| ==> row[j] < |mem|
    ensures |r| == |mem|
  {
    if Real(g, k) then mem[g.nodes[k] := m.compute(g.nodes[k], ReadAll(m, g, mem, row))] else mem
  }

  /** The original graph after its first k nodes. */
  function InOrder<V>(m: Meaning<V>, g: Graph, mem: seq<V>, k: nat): (r: seq<V>)
    requires g.IdsOk() && |g.tensors| == |mem| && k <= |g.nodes|
    ensures |r| == |mem|
  {
    if k == 0 then mem else RunNode(m, g, InOrder(m, g, mem, k - 1), g.Src(k - 1), k - 1)
  }

  /** Redirected rows and copies stay inside a memory with a cell for each copy. */
  ghost predicate Fits<V>(g: Graph, c: Cut, mem: seq<V>) {
    && g.IdsOk() && |g.tensors| + |c.copies| == |mem| && |c.rows| == |g.tensors|
    && (forall k, j :: 0 <= k < |g.nodes| && 0 <= j < |c.rows[g.nodes[k]]| ==> c.rows[g.nodes[k]][j] < |mem|)
    && (forall s, p :: 0 <= s < |c.splits| && 0 <= p < |c.splits[s].inputs| ==>
          c.splits[s].inputs[p] < |g.tensors| && (c.splits[s].inputs[p], c.splits[s].backend) in c.copies)
    && (forall x :: x in c.copies ==> |g.tensors| <= c.copies[x] < |mem|)
    && (forall s :: 0 <= s < |c.splits| ==> c.splits[s].start <= c.splits[s].end <= |g.nodes|)
  }

  /** The first p inputs of split s have been copied. */
  function CopyInputs<V>(m: Meaning<V>, g: Graph, c: Cut, mem: seq<V>, s: nat, p: nat): (r: seq<V>)
    requires Fits(g, c, mem) && s < |c.splits| && p <= |c.splits[s].inputs|
    ensures |r| == |mem|
  {
    if p == 0 then mem
    else
      var before := CopyInputs(m, g, c, mem, s, p - 1);
      var input := c.splits[s].inputs[p - 1];
      before[c.copies[(input, c.splits[s].backend)] := Read(m, g, before, input)]
  }

  /** Nodes lo..hi-1 with redirected sources. */
  function RunRange<V>(m: Meaning<V>, g: Graph, c: Cut, mem: seq<V>, lo: nat, hi: nat): (r: seq<V>)
    requires Fits(g, c, mem) && lo <= hi <= |g.nodes|
    ensures |r| == |mem|
  {
    if lo == hi then mem
    else RunNode(m, g, RunRange(m, g, c, mem, lo, hi - 1), c.rows[g.nodes[hi - 1]], hi - 1)
  }

  function RunSplit<V>(m: Meaning<V>, g: Graph, c: Cut, mem: seq<V>, s: nat): (r: seq<V>)
    requires Fits(g, c, mem) && s < |c.splits|
    ensures |r| == |mem|
  {
    RunRange(m, g, c, CopyInputs(m, g, c, mem, s, |c.splits[s].inputs|), c.splits[s].start, c.splits[s].end)
  }

  /** After the first s splits. */
  function RunSplits<V>(m: Meaning<V>, g: Graph, c: Cut, mem: seq<V>, s: nat): (r: seq<V>)
    requires Fits(g, c, mem) && s <= |c.splits|
    ensures |r| == |mem|
  {
    if s == 0 then mem else RunSplit(m, g, c, RunSplits(m, g, c, mem, s - 1), s - 1)
  }

  method CopyAll<V>(m: Meaning<V>, g: Graph, c: Cut, mem: array<V>, s: nat)
    requires Fits(g, c, mem[..]) && s < |c.splits|
    modifies mem
    ensures mem[..] == CopyInputs(m, g, c, old(mem[..]), s, |c.splits[s].inputs|)
  {
    var p := 0;
    while p < |c.splits[s].inputs|
      invariant p <= |c.splits[s].inputs|
      invariant mem[..] == CopyInputs(m, g, c, old(mem[..]), s, p)
    {
      var input := c.splits[s].inputs[p];
      mem[c.copies[(input, c.splits[s].backend)]] := Read(m, g, mem[..], input);
      p := p + 1;
    }
  }

  method ComputeRange<V>(m: Meaning<V>, g: Graph, c: Cut, mem: array<V>, lo: nat, hi: nat)
    requires Fits(g, c, mem[..]) && lo <= hi <= |g.nodes|
    modifies mem
    ensures mem[..] == RunRange(m, g, c, old(mem[..]), lo, hi)
  {
    var k := lo;
    while k < hi
      invariant lo <= k <= hi
      invariant mem[..] == RunRange(m, g, c, old(mem[..]), lo, k)
    {
      if Real(g, k) { mem[g.nodes[k]] := m.compute(g.nodes[k], ReadAll(m, g, mem[..], c.rows[g.nodes[k]])); }
      k := k + 1;
    }
  }

  /** The loop of compute_splits with blocking copies. */
  method ComputeSplits<V>(m: Meaning<V>, g: Graph, c: Cut, mem: array<V>)
    requires Fits(g, c, mem[..])
    modifies mem
    ensures mem[..] == RunSplits(m, g, c, old(mem[..]), |c.splits|)
  {
    var s := 0;
    while s < |c.splits|
      invariant s <= |c.splits| && mem[..] == RunSplits(m, g, c, old(mem[..]), s)
    {
      CopyAll(m, g, c, mem, s);
      ComputeRange(m, g, c, mem, c.splits[s].start, c.splits[s].end);
      s := s + 1;
    }
  }

  // ---------------------------------------------------------------- the two runs agree

  /** When a split starts, whatever its inputs show has been computed. */
  ghost predicate InputsReady(g: Graph, splits: seq<Split>)
    requires g.IdsOk()
  {
    forall s, t, i :: 0 <= s < |splits| && t in splits[s].inputs && t < |g.tensors| && splits[s].start <= i < |g.nodes|
                      && Real(g, i) ==>
      g.nodes[i] != Root(g, t)
  }

  ghost predicate SameTensors<V>(g: Graph, mem: seq<V>, mem': seq<V>) {
    |g.tensors| == |mem| <= |mem'| && forall t :: 0 <= t < |mem| ==> mem'[t] == mem[t]
  }

  /** The copies made for splits 0..s-1 and for the first p inputs of split s show what the original tensors show. */
  ghost predicate CopiesAgree<V>(m: Meaning<V>, g: Graph, c: Cut, mem: seq<V>, mem': seq<V>, s: nat, p: nat)
    requires Fits(g, c, mem') && |mem| == |g.tensors|
  {
    forall r, q :: 0 <= r < |c.splits| && 0 <= q < |c.splits[r].inputs| && (r < s || (r == s && q < p)) ==>
      mem'[c.copies[(c.splits[r].inputs[q], c.splits[r].backend)]] == Read(m, g, mem, c.splits[r].inputs[q])
  }

  lemma CutFits<V>(sc: Sched, g: Graph, a: seq<int>, c: Cut, mem: seq<V>)
    requires g.IdsOk() && |a| == |g.tensors| && CutOk(sc, g, a, c, |g.nodes|) && |mem| == |g.tensors| + |c.copies|
    ensures Fits(g, c, mem)
  {
    hide NeedsCopy;
    hide InputsOk;
    hide FilledInTime;
    hide FilledOnce;
    hide OnBackend;
    hide RowsOk;
    RowsLength(sc, g, a, c);
    forall k, j | 0 <= k < |g.nodes| && 0 <= j < |c.rows[g.nodes[k]]| ensures c.rows[g.nodes[k]][j] < |mem| {
      RowFits(sc, g, a, c, k, j);
    }
    forall s, p | 0 <= s < |c.splits| && 0 <= p < |c.splits[s].inputs|
      ensures c.splits[s].inputs[p] < |g.tensors| && (c.splits[s].inputs[p], c.splits[s].backend) in c.copies
    {
      InputFits(sc, g, a, c, s, p);
    }
  }

  lemma RowsLength(sc: Sched, g: Graph, a: seq<int>, c: Cut)
    requires g.IdsOk() && |a| == |g.tensors| && RowsOk(sc, g, a, c, |g.nodes|)
    ensures |c.rows| == |g.tensors|
  {
  }

  lemma InputFits(sc: Sched, g: Graph, a: seq<int>, c: Cut, s: nat, p: nat)
    requires g.IdsOk() && |a| == |g.tensors| && s < |c.splits| && InputsOk(sc, g, a, c.copies, c.splits[s])
             && p < |c.splits[s].inputs|
    ensures c.splits[s].inputs[p] < |g.tensors| && (c.splits[s].inputs[p], c.splits[s].backend) in c.copies
  {
  }

  lemma RowFits(sc: Sched, g: Graph, a: seq<int>, c: Cut, k: nat, j: nat)
    requires g.IdsOk() && |a| == |g.tensors| && RowsOk(sc, g, a, c, |g.nodes|) && Numbered(c.copies, |g.tensors|)
    requires k < |g.nodes| && j < |c.rows[g.nodes[k]]|
    ensures c.rows[g.nodes[k]][j] < |g.tensors| + |c.copies|
  {
    hide NeedsCopy;
    if Real(g, k) {
      assert Redirected(sc, g, a, c.copies, c.rows[g.nodes[k]], k);
    } else {
      RowOfView(sc, g, a, c, k);
    }
  }

  lemma RowOfView(sc: Sched, g: Graph, a: seq<int>, c: Cut, k: nat)
    requires g.IdsOk() && |a| == |g.tensors| && RowsOk(sc, g, a, c, |g.nodes|) && k < |g.nodes| && !Real(g, k)
    ensures c.rows[g.nodes[k]] == g.Src(k)
  {
    assert !RealBefore(g, g.nodes[k], |g.nodes|);
  }

  lemma ReadIgnores<V>(m: Meaning<V>, g: Graph, mem: seq<V>, t: nat, x: nat, v: V)
    requires g.IdsOk() && |g.tensors| <= |mem| && t < |mem| && x < |mem|
    requires x != if t < |g.tensors| then Root(g, t) else t
    ensures Read(m, g, mem[x := v], t) == Read(m, g, mem, t)
  {
  }

  lemma ReadSame<V>(m: Meaning<V>, g: Graph, mem: seq<V>, mem': seq<V>, t: nat)
    requires g.IdsOk() && SameTensors(g, mem, mem') && t < |g.tensors|
    ensures Read(m, g, mem', t) == Read(m, g, mem, t)
  {
  }

  /** Copying one more input. */
  lemma CopyOne<V>(m: Meaning<V>, g: Graph, c: Cut, mem: seq<V>, mem': seq<V>, s: nat, p: nat)
    requires Fits(g, c, mem') && SameTensors(g, mem, mem') && s < |c.splits| && p < |c.splits[s].inputs|
    requires CopiesAgree(m, g, c, mem, mem', s, p)
    requires Numbered(c.copies, |g.tensors|) && FilledOnce(c.splits)
    requires forall q, r :: 0 <= q < r < |c.splits[s].inputs| ==> c.splits[s].inputs[q] != c.splits[s].inputs[r]
    ensures var input := c.splits[s].inputs[p];
            var mem2 := mem'[c.copies[(input, c.splits[s].backend)] := Read(m, g, mem', input)];
            SameTensors(g, mem, mem2) && Fits(g, c, mem2) && CopiesAgree(m, g, c, mem, mem2, s, p + 1)
  {
    var input := c.splits[s].inputs[p];
    var x := c.copies[(input, c.splits[s].backend)];
    var mem2 := mem'[x := Read(m, g, mem', input)];
    ReadSame(m, g, mem, mem', input);
    forall r, q | 0 <= r < |c.splits| && 0 <= q < |c.splits[r].inputs| && (r < s || (r == s && q < p + 1))
      ensures mem2[c.copies[(c.splits[r].inputs[q], c.splits[r].backend)]] == Read(m, g, mem, c.splits[r].inputs[q])
    {
      if !(r == s && q == p) {
        var other := c.splits[r].inputs[q];
        assert (other, c.splits[r].backend) != (input, c.splits[s].backend) by {
          if r == s { assert c.splits[s].inputs[q] != c.splits[s].inputs[p]; }
          if r < s && c.splits[r].backend == c.splits[s].backend { assert other in c.splits[r].inputs
              && input in c.splits[s].inputs; }
        }
      }
    }
  }

  lemma {:induction false} CopyAllAgree<V>(m: Meaning<V>, g: Graph, c: Cut, mem: seq<V>, mem': seq<V>, s: nat, p: nat)
    requires Fits(g, c, mem') && SameTensors(g, mem, mem') && s < |c.splits| && p <= |c.splits[s].inputs|
    requires CopiesAgree(m, g, c, mem, mem', s, 0)
    requires Numbered(c.copies, |g.tensors|) && FilledOnce(c.splits)
    requires forall q, r :: 0 <= q < r < |c.splits[s].inputs| ==> c.splits[s].inputs[q] != c.splits[s].inputs[r]
    ensures var mem2 := CopyInputs(m, g, c, mem', s, p);
            SameTensors(g, mem, mem2) && Fits(g, c, mem2) && CopiesAgree(m, g, c, mem, mem2, s, p)
  {
    hide Fits;
    hide CopiesAgree;
    if p > 0 {
      CopyAllAgree(m, g, c, mem, mem', s, p - 1);
      CopyOne(m, g, c, mem, CopyInputs(m, g, c, mem', s, p - 1), s, p - 1);
    }
  }

  /** A redirected row reads the same values as the original row. */
  lemma {:induction false} RowsAgree<V>(m: Meaning<V>, g: Graph, mem: seq<V>, mem': seq<V>, row: seq<nat>,
                                        row': seq<nat>)
    requires g.IdsOk() && |g.tensors| == |mem| <= |mem'| && |row| == |row'|
    requires forall j :: 0 <= j < |row| ==>
             row[j] < |mem| && row'[j] < |mem'| && Read(m, g, mem', row'[j]) == Read(m, g, mem, row[j])
    ensures ReadAll(m, g, mem', row') == ReadAll(m, g, mem, row)
  {
  }

  lemma {:induction false} StartsMonotone(splits: seq<Split>, n: nat, r: nat, s: nat)
    requires Tiles(splits, n) && r < s < |splits|
    ensures splits[r].end <= splits[s].start
    decreases s
  {
    if r < s - 1 { StartsMonotone(splits, n, r, s - 1); }
  }

  /** The pieces of a well-formed cut that the runs depend on, without the scheduler that made it. */
  ghost predicate RunsOk(g: Graph, c: Cut)
    requires g.IdsOk()
  {
    && Tiles(c.splits, |g.nodes|) && Numbered(c.copies, |g.tensors|) && FilledOnce(c.splits)
    && (forall s, p, q :: 0 <= s < |c.splits| && 0 <= p < q < |c.splits[s].inputs| ==>
        c.splits[s].inputs[p] != c.splits[s].inputs[q])
    && |c.rows| == |g.tensors|
    && (forall s, k :: 0 <= s < |c.splits| && c.splits[s].start <= k < c.splits[s].end && k < |g.nodes| ==>
          Real(g, k) ==> RowOk(g, c, s, k))
  }

  /** Every source of node k in split s is the original one, or its copy, filled by this or an earlier split of the same
      backend. */
  ghost predicate RowOk(g: Graph, c: Cut, s: int, k: int)
    requires g.IdsOk() && 0 <= s < |c.splits| && 0 <= k < |g.nodes| && |c.rows| == |g.tensors|
  {
    var row, b := c.rows[g.nodes[k]], c.splits[s].backend;
    && |row| == |g.Src(k)|
    && forall j :: 0 <= j < |row| ==> row[j] == g.Src(k)[j] || CopiedBy(g, c, s, g.Src(k)[j], row[j])
  }

  ghost predicate CopiedBy(g: Graph, c: Cut, s: int, t: nat, x: nat)
    requires 0 <= s < |c.splits|
  {
    && (t, c.splits[s].backend) in c.copies && x == c.copies[(t, c.splits[s].backend)]
    && exists r :: r <= s && Fills(c.splits, r, t, c.splits[s].backend)
  }

  lemma CutRowOk(sc: Sched, g: Graph, a: seq<int>, c: Cut, s: nat, k: nat)
    requires g.IdsOk() && |a| == |g.tensors| && CutOk(sc, g, a, c, |g.nodes|)
    requires s < |c.splits| && c.splits[s].start <= k < c.splits[s].end && k < |g.nodes| && Real(g, k)
    ensures RowOk(g, c, s, k)
  {
    hide NeedsCopy;
    hide Numbered;
    hide InputsOk;
    hide FilledOnce;
    assert Redirected(sc, g, a, c.copies, c.rows[g.nodes[k]], k);
    assert FilledInTime(sc, g, a, c.splits, k);
    forall j | 0 <= j < |g.Src(k)| && NeedsCopy(sc, g, a, g.Src(k)[j], a[g.nodes[k]])
      ensures CopiedBy(g, c, s, g.Src(k)[j], c.rows[g.nodes[k]][j])
    {
      var t := g.Src(k)[j];
      assert t in g.Src(k);
      var r :| Fills(c.splits, r, t, a[g.nodes[k]]) && c.splits[r].start <= k;
      if s < r { StartsMonotone(c.splits, |g.nodes|, s, r); }
    }
  }

  /** The cut of pass 5 is one that can be run. */
  lemma CutRuns(sc: Sched, g: Graph, a: seq<int>, c: Cut)
    requires g.IdsOk() && |a| == |g.tensors| && CutOk(sc, g, a, c, |g.nodes|)
    ensures RunsOk(g, c)
  {
    hide NeedsCopy;
    hide Redirected;
    forall s, k | 0 <= s < |c.splits| && c.splits[s].start <= k < c.splits[s].end && k < |g.nodes| && Real(g, k)
      ensures RowOk(g, c, s, k)
    {
      CutRowOk(sc, g, a, c, s, k);
    }
    forall s | 0 <= s < |c.splits| ensures InputsOk(sc, g, a, c.copies, c.splits[s]) {}
  }

  /** Node k of split s reads the same values in both runs. */
  lemma NodeAgrees<V>(m: Meaning<V>, g: Graph, c: Cut, mem: seq<V>, mem': seq<V>, s: nat, k: nat)
    requires g.IdsOk() && RunsOk(g, c) && Fits(g, c, mem') && SameTensors(g, mem, mem')
    requires s < |c.splits| && c.splits[s].start <= k < c.splits[s].end && k < |g.nodes| && Real(g, k)
    requires CopiesAgree(m, g, c, mem, mem', s + 1, 0)
    ensures ReadAll(m, g, mem', c.rows[g.nodes[k]]) == ReadAll(m, g, mem, g.Src(k))
  {
    hide Numbered;
    hide Tiles;
    hide FilledOnce;
    var row := c.rows[g.nodes[k]];
    assert RowOk(g, c, s, k);
    forall j | 0 <= j < |row| ensures Read(m, g, mem', row[j]) == Read(m, g, mem, g.Src(k)[j]) {
      var t := g.Src(k)[j];
      if row[j] == t {
        ReadSame(m, g, mem, mem', t);
      } else {
        assert CopiedBy(g, c, s, t, row[j]);
        var r :| r <= s && Fills(c.splits, r, t, c.splits[s].backend);
        var q :| 0 <= q < |c.splits[r].inputs| && c.splits[r].inputs[q] == t;
        assert mem'[c.copies[(c.splits[r].inputs[q], c.splits[r].backend)]] == Read(m, g, mem, c.splits[r].inputs[q]);
      }
    }
    RowsAgree(m, g, mem, mem', g.Src(k), row);
  }

  /** Writing a node of split s disturbs no copy made so far. */
  lemma WriteKeepsCopies<V>(m: Meaning<V>, g: Graph, c: Cut, mem: seq<V>, mem': seq<V>, s: nat, k: nat, v: V)
    requires g.IdsOk() && RunsOk(g, c) && Fits(g, c, mem') && SameTensors(g, mem, mem') && InputsReady(g, c.splits)
    requires s < |c.splits| && c.splits[s].start <= k < c.splits[s].end && k < |g.nodes| && Real(g, k)
    requires CopiesAgree(m, g, c, mem, mem', s + 1, 0)
    ensures SameTensors(g, mem[g.nodes[k] := v], mem'[g.nodes[k] := v])
    ensures Fits(g, c, mem'[g.nodes[k] := v]) && CopiesAgree(m, g, c, mem[g.nodes[k] := v], mem'[g.nodes[k] := v],
              s + 1, 0)
  {
    hide Numbered;
    hide FilledOnce;
    hide RowOk;
    var x := g.nodes[k];
    forall r, q | 0 <= r < s + 1 && 0 <= q < |c.splits[r].inputs|
      ensures mem'[x := v][c.copies[(c.splits[r].inputs[q], c.splits[r].backend)]]
              == Read(m, g, mem[x := v], c.splits[r].inputs[q])
    {
      if r < s { StartsMonotone(c.splits, |g.nodes|, r, s); }
      assert c.splits[r].inputs[q] in c.splits[r].inputs;
      ReadIgnores(m, g, mem, c.splits[r].inputs[q], x, v);
    }
  }

  lemma {:induction false} RangeAgrees<V>(m: Meaning<V>, g: Graph, c: Cut, init: seq<V>, mem': seq<V>, s: nat, hi: nat)
    requires g.IdsOk() && RunsOk(g, c) && Fits(g, c, mem') && |init| == |g.tensors| && InputsReady(g, c.splits)
    requires s < |c.splits| && c.splits[s].start <= hi <= c.splits[s].end
    requires SameTensors(g, InOrder(m, g, init, c.splits[s].start), mem')
    requires CopiesAgree(m, g, c, InOrder(m, g, init, c.splits[s].start), mem', s + 1, 0)
    ensures var mem2 := RunRange(m, g, c, mem', c.splits[s].start, hi);
            && SameTensors(g, InOrder(m, g, init, hi), mem2) && Fits(g, c, mem2)
            && CopiesAgree(m, g, c, InOrder(m, g, init, hi), mem2, s + 1, 0)
  {
    hide CopiesAgree;
    hide InputsReady;
    hide RunsOk;
    if hi > c.splits[s].start {
      RangeAgrees(m, g, c, init, mem', s, hi - 1);
      var k := hi - 1;
      var mem, mem2 := InOrder(m, g, init, k), RunRange(m, g, c, mem', c.splits[s].start, k);
      if Real(g, k) {
        NodeAgrees(m, g, c, mem, mem2, s, k);
        WriteKeepsCopies(m, g, c, mem, mem2, s, k, m.compute(g.nodes[k], ReadAll(m, g, mem, g.Src(k))));
      }
    }
  }

  lemma {:induction false} SplitsAgree<V>(m: Meaning<V>, g: Graph, c: Cut, init: seq<V>, init': seq<V>, s: nat)
    requires g.IdsOk() && RunsOk(g, c) && Fits(g, c, init') && SameTensors(g, init, init') && InputsReady(g, c.splits)
    requires s <= |c.splits|
    ensures var n := if s == 0 then 0 else c.splits[s - 1].end;
            var mem, mem' := InOrder(m, g, init, n), RunSplits(m, g, c, init', s);
            SameTensors(g, mem, mem') && Fits(g, c, mem') && CopiesAgree(m, g, c, mem, mem', s, 0)
  {
    hide RowOk;
    if s > 0 {
      var before := RunSplits(m, g, c, init', s - 1);
      SplitsAgree(m, g, c, init, init', s - 1);
      var mem := InOrder(m, g, init, c.splits[s - 1].start);
      CopyAllAgree(m, g, c, mem, before, s - 1, |c.splits[s - 1].inputs|);
      RangeAgrees(m, g, c, init, CopyInputs(m, g, c, before, s - 1, |c.splits[s - 1].inputs|), s - 1,
        c.splits[s - 1].end);
    }
  }

  /** Split execution preserves meaning: whatever the operations compute, running the splits in order, each after
      copying its inputs and with redirected sources, gives every tensor the value the original graph gives it. */
  lemma SplitsPreserveMeaning<V>(m: Meaning<V>, sc: Sched, g: Graph, a: seq<int>, c: Cut, init: seq<V>, init': seq<V>,
                                 t: nat)
    requires g.IdsOk() && |a| == |g.tensors| && CutOk(sc, g, a, c, |g.nodes|) && InputsReady(g, c.splits)
    requires SameTensors(g, init, init') && |init'| == |g.tensors| + |c.copies| && t < |g.tensors|
    ensures Fits(g, c, init')
    ensures Read(m, g, RunSplits(m, g, c, init', |c.splits|), t) == Read(m, g, InOrder(m, g, init, |g.nodes|), t)
  {
    hide CutOk;
    CutFits(sc, g, a, c, init');
    CutRuns(sc, g, a, c);
    SplitsAgree(m, g, c, init, init', |c.splits|);
    ReadSame(m, g, InOrder(m, g, init, |g.nodes|), RunSplits(m, g, c, init', |c.splits|), t);
  }
}
