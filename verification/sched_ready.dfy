/** Exactly when split execution preserves meaning. */
module SchedReady {
  import opened Wrappers
  import opened TensorGraph
  import opened SchedModel
  import opened SchedSplit
  import opened SchedRun

  /** The view operations are exactly the nodes that view another tensor (no in-place operations). */
  ghost predicate PureNodes(g: Graph)
    requires g.IdsOk()
  {
    forall k :: 0 <= k < |g.nodes| ==> (Real(g, k) <==> !g.IsView(g.nodes[k]))
  }

  /** Nodes that view a node are assigned to the backend of that node. */
  ghost predicate ViewsFollow(g: Graph, a: seq<int>)
    requires g.IdsOk() && |a| == |g.tensors|
  {
    forall k :: 0 <= k < |g.nodes| && g.IsView(g.nodes[k]) && Root(g, g.nodes[k]) in g.nodes ==>
      a[g.nodes[k]] == a[Root(g, g.nodes[k])]
  }

  /** What node k reads, or what that views, is computed before node k. */
  lemma RootsComeFirst(g: Graph, k: nat, t: nat, i: nat)
    requires Topological(g) && k < |g.nodes| && t in g.Src(k) && i < |g.nodes| && t < |g.tensors|
             && g.nodes[i] == Root(g, t)
    ensures i < k
  {
    var j :| 0 <= j < |g.Src(k)| && g.Src(k)[j] == t;
    assert Readable(g, t, k);
  }

  /** An input computed inside its own split can only be a view on another backend than the node it views. */
  lemma LateInputIsStrayView(sc: Sched, g: Graph, a: seq<int>, c: Cut, s: nat, t: nat, i: nat)
    requires Topological(g) && PureNodes(g) && |a| == |g.tensors| && CutOk(sc, g, a, c, |g.nodes|)
    requires s < |c.splits| && t in c.splits[s].inputs && t < |g.tensors|
    requires c.splits[s].start <= i < |g.nodes| && Real(g, i) && g.nodes[i] == Root(g, t)
    ensures g.IsView(t) && t in g.nodes && a[t] != a[Root(g, t)] && i < c.splits[s].end
  {
    hide NeedsCopy;
    hide Numbered;
    hide RowsOk;
    hide FilledOnce;
    hide FilledInTime;
    assert InputsOk(sc, g, a, c.copies, c.splits[s]);
    var p :| 0 <= p < |c.splits[s].inputs| && c.splits[s].inputs[p] == t;
    NeedsAnother(sc, g, a, t, c.splits[s].backend);
    var k :| c.splits[s].start <= k < c.splits[s].end && k < |g.nodes| && Real(g, k) && t in g.Src(k);
    RootsComeFirst(g, k, t, i);
    ReadViewIsNode(g, k, t);
    assert a[g.nodes[i]] == c.splits[s].backend;
  }

  /** A view that a node reads is a node itself. */
  lemma ReadViewIsNode(g: Graph, k: nat, t: nat)
    requires Topological(g) && k < |g.nodes| && t in g.Src(k) && t < |g.tensors|
    ensures g.IsView(t) ==> t in g.nodes
  {
    var j :| 0 <= j < |g.Src(k)| && g.Src(k)[j] == t;
    assert Readable(g, t, k);
  }

  lemma NeedsAnother(sc: Sched, g: Graph, a: seq<int>, t: nat, b: int)
    requires g.IdsOk() && t < |g.tensors| == |a| && NeedsCopy(sc, g, a, t, b)
    ensures a[t] != b
  {
  }

  /** If views follow their nodes, every input is ready when its split starts. */
  lemma FollowingViewsAreReady(sc: Sched, g: Graph, a: seq<int>, c: Cut)
    requires Topological(g) && PureNodes(g) && |a| == |g.tensors| && CutOk(sc, g, a, c, |g.nodes|) && ViewsFollow(g, a)
    ensures InputsReady(g, c.splits)
  {
    hide CutOk;
    forall s, t, i | 0 <= s < |c.splits| && t in c.splits[s].inputs && t < |g.tensors|
      && c.splits[s].start <= i < |g.nodes| && Real(g, i)
      ensures g.nodes[i] != Root(g, t)
    {
      if g.nodes[i] == Root(g, t) { LateInputIsStrayView(sc, g, a, c, s, t, i); }
    }
  }

  // ---------------------------------------------------------------- the free meaning

  /** Values that record how they were computed. */
  datatype Term = Init(t: nat) | App(n: nat, args: seq<Term>) | Shown(t: nat, of: Term)

  function Free(): Meaning<Term> {
    Meaning((n, args) => App(n, args), (t, x) => Shown(t, x), t => Init(t))
  }

  function Initial<V>(m: Meaning<V>, n: nat): seq<V> {
    seq(n, (t: nat) => m.initial(t))
  }

  lemma FitsByLength<V, W>(g: Graph, c: Cut, a: seq<V>, b: seq<W>)
    requires Fits(g, c, a) && |a| == |b|
    ensures Fits(g, c, b)
    ensures forall s, p :: 0 <= s < |c.splits| && 0 <= p < |c.splits[s].inputs| ==>
              c.splits[s].inputs[p] < |g.tensors| && (c.splits[s].inputs[p], c.splits[s].backend) in c.copies
    ensures forall x :: x in c.copies ==> |g.tensors| <= c.copies[x] < |a|
    ensures forall s :: 0 <= s < |c.splits| ==> c.splits[s].start <= c.splits[s].end <= |g.nodes|
    ensures forall k, j :: 0 <= k < |g.nodes| && |c.rows| == |g.tensors| && g.nodes[k] < |g.tensors| ==>
              0 <= j < |c.rows[g.nodes[k]]| ==> c.rows[g.nodes[k]][j] < |a|
  {
  }

  /** No tensor is listed twice among the nodes. */
  ghost predicate DistinctNodes(g: Graph) {
    g.IdsOk() && forall i, j :: 0 <= i < j < |g.nodes| ==> g.nodes[i] != g.nodes[j]
  }

  /** Cells written by none of the steps keep their value. */
  lemma {:induction false} RangeLeaves<V>(m: Meaning<V>, g: Graph, c: Cut, mem: seq<V>, lo: nat, hi: nat, x: nat)
    requires Fits(g, c, mem) && lo <= hi <= |g.nodes| && x < |mem|
    requires forall i :: lo <= i < hi ==> !Real(g, i) || g.nodes[i] != x
    ensures RunRange(m, g, c, mem, lo, hi)[x] == mem[x]
    decreases hi
  {
    if lo < hi { RangeLeaves(m, g, c, mem, lo, hi - 1, x); }
  }

  lemma {:induction false} CopiesLeave<V>(m: Meaning<V>, g: Graph, c: Cut, mem: seq<V>, s: nat, p: nat, x: nat)
    requires Fits(g, c, mem) && s < |c.splits| && p <= |c.splits[s].inputs| && x < |mem|
    requires forall q :: 0 <= q < p ==> c.copies[(c.splits[s].inputs[q], c.splits[s].backend)] != x
    ensures CopyInputs(m, g, c, mem, s, p)[x] == mem[x]
    decreases p
  {
    if p > 0 { CopiesLeave(m, g, c, mem, s, p - 1, x); }
  }

  lemma SplitLeaves<V>(m: Meaning<V>, g: Graph, c: Cut, mem: seq<V>, s: nat, x: nat)
    requires Fits(g, c, mem) && s < |c.splits| && x < |g.tensors|
    requires forall i :: c.splits[s].start <= i < c.splits[s].end ==> !Real(g, i) || g.nodes[i] != x
    ensures RunSplit(m, g, c, mem, s)[x] == mem[x]
  {
    hide Fits;
    FitsByLength(g, c, mem, mem);
    var filled := CopyInputs(m, g, c, mem, s, |c.splits[s].inputs|);
    FitsByLength(g, c, mem, filled);
    CopiesLeave(m, g, c, mem, s, |c.splits[s].inputs|, x);
    RangeLeaves(m, g, c, filled, c.splits[s].start, c.splits[s].end, x);
  }

  /** What the splits from s on do not compute stays. */
  lemma {:induction false} SplitsLeave<V>(m: Meaning<V>, g: Graph, c: Cut, mem: seq<V>, s: nat, n: nat, x: nat)
    requires Fits(g, c, mem) && s <= n <= |c.splits| && x < |g.tensors|
    requires forall r, i :: s <= r < n && c.splits[r].start <= i < c.splits[r].end && i < |g.nodes| ==>
             !Real(g, i) || g.nodes[i] != x
    ensures RunSplits(m, g, c, mem, n)[x] == RunSplits(m, g, c, mem, s)[x]
    decreases n
  {
    if s < n {
      hide Fits;
      hide RunSplit;
      FitsByLength(g, c, mem, mem);
      SplitsLeave(m, g, c, mem, s, n - 1, x);
      var before := RunSplits(m, g, c, mem, n - 1);
      FitsByLength(g, c, mem, before);
      SplitLeaves(m, g, c, before, n - 1, x);
    }
  }

  /** A copy shows what its input showed when the split started. */
  lemma {:induction false} CopyShowsStart<V>(m: Meaning<V>, g: Graph, c: Cut, mem: seq<V>, s: nat, p: nat, q: nat)
    requires g.IdsOk() && RunsOk(g, c) && Fits(g, c, mem) && s < |c.splits| && q < p <= |c.splits[s].inputs|
    ensures CopyInputs(m, g, c, mem, s, p)[c.copies[(c.splits[s].inputs[q], c.splits[s].backend)]]
            == Read(m, g, mem, c.splits[s].inputs[q])
    decreases p
  {
    hide RowOk;
    hide Tiles;
    hide FilledOnce;
    var t := c.splits[s].inputs[q];
    if q < p - 1 {
      CopyShowsStart(m, g, c, mem, s, p - 1, q);
      assert c.splits[s].inputs[q] != c.splits[s].inputs[p - 1];
    } else {
      CopiesLeave(m, g, c, mem, s, p - 1, Root(g, t));
    }
  }

  lemma {:induction false} InOrderLeaves<V>(m: Meaning<V>, g: Graph, mem: seq<V>, lo: nat, hi: nat, x: nat)
    requires g.IdsOk() && |g.tensors| == |mem| && lo <= hi <= |g.nodes| && x < |mem|
    requires forall i :: lo <= i < hi ==> g.nodes[i] != x
    ensures InOrder(m, g, mem, hi)[x] == InOrder(m, g, mem, lo)[x]
    decreases hi
  {
    if lo < hi { InOrderLeaves(m, g, mem, lo, hi - 1, x); }
  }

  /** Running node k records its sources. */
  lemma FreeNode(g: Graph, mem: seq<Term>, k: nat)
    requires g.IdsOk() && |g.tensors| == |mem| && k < |g.nodes| && Real(g, k)
    ensures RunNode(Free(), g, mem, g.Src(k), k)[g.nodes[k]] == App(g.nodes[k], ReadAll(Free(), g, mem, g.Src(k)))
  {
  }

  /** The original run: node k's value records its sources. */
  lemma InOrderValue(g: Graph, mem: seq<Term>, k: nat, n: nat)
    requires DistinctNodes(g) && |g.tensors| == |mem| && k < n <= |g.nodes| && Real(g, k)
    ensures InOrder(Free(), g, mem, n)[g.nodes[k]]
            == App(g.nodes[k], ReadAll(Free(), g, InOrder(Free(), g, mem, k), g.Src(k)))
  {
    hide Free;
    hide ReadAll;
    InOrderLeaves(Free(), g, mem, k + 1, n, g.nodes[k]);
    FreeNode(g, InOrder(Free(), g, mem, k), k);
  }

  /** The memory in which node k of split s executes. */
  function MemAt<V>(m: Meaning<V>, g: Graph, c: Cut, mem: seq<V>, s: nat, k: nat): (r: seq<V>)
    requires Fits(g, c, mem) && s < |c.splits| && c.splits[s].start <= k <= c.splits[s].end
    ensures |r| == |mem|
  {
    RunRange(m, g, c, CopyInputs(m, g, c, RunSplits(m, g, c, mem, s), s, |c.splits[s].inputs|), c.splits[s].start, k)
  }

  /** What node k of split s has written stays until the end. */
  lemma WrittenStays<V>(m: Meaning<V>, g: Graph, c: Cut, mem: seq<V>, s: nat, k: nat)
    requires DistinctNodes(g) && RunsOk(g, c) && Fits(g, c, mem) && s < |c.splits|
    requires c.splits[s].start <= k < c.splits[s].end
    ensures RunSplits(m, g, c, mem, |c.splits|)[g.nodes[k]] == MemAt(m, g, c, mem, s, k + 1)[g.nodes[k]]
  {
    hide RunsOk;
    hide Fits;
    var before := RunSplits(m, g, c, mem, s);
    FitsByLength(g, c, mem, before);
    var filled := CopyInputs(m, g, c, before, s, |c.splits[s].inputs|);
    FitsByLength(g, c, mem, filled);
    var here := RunRange(m, g, c, filled, c.splits[s].start, k + 1);
    FitsByLength(g, c, mem, here);
    RangeSplits(m, g, c, filled, c.splits[s].start, k + 1, c.splits[s].end);
    RangeLeaves(m, g, c, here, k + 1, c.splits[s].end, g.nodes[k]);
    forall r, i | s + 1 <= r < |c.splits| && c.splits[r].start <= i < c.splits[r].end ensures g.nodes[i] != g.nodes[k] {
      SplitsInOrder(g, c, s, r);
    }
    SplitsLeave(m, g, c, mem, s + 1, |c.splits|, g.nodes[k]);
  }

  /** The run by splits: likewise for the redirected sources of node k in split s. */
  lemma SplitValue(g: Graph, c: Cut, mem: seq<Term>, s: nat, k: nat)
    requires DistinctNodes(g) && RunsOk(g, c) && Fits(g, c, mem) && s < |c.splits|
    requires c.splits[s].start <= k < c.splits[s].end && Real(g, k)
    ensures RunSplits(Free(), g, c, mem, |c.splits|)[g.nodes[k]]
              == App(g.nodes[k], ReadAll(Free(), g, MemAt(Free(), g, c, mem, s, k), c.rows[g.nodes[k]]))
  {
    hide RunsOk;
    FitsByLength(g, c, mem, MemAt(Free(), g, c, mem, s, k));
    WrittenStays(Free(), g, c, mem, s, k);
  }

  lemma SplitsInOrder(g: Graph, c: Cut, r: nat, s: nat)
    requires g.IdsOk() && RunsOk(g, c) && r < s < |c.splits|
    ensures c.splits[r].end <= c.splits[s].start
  {
    StartsMonotone(c.splits, |g.nodes|, r, s);
  }

  lemma {:induction false} RangeSplits<V>(m: Meaning<V>, g: Graph, c: Cut, mem: seq<V>, lo: nat, mid: nat, hi: nat)
    requires Fits(g, c, mem) && lo <= mid <= hi <= |g.nodes|
    ensures RunRange(m, g, c, mem, lo, hi) == RunRange(m, g, c, RunRange(m, g, c, mem, lo, mid), mid, hi)
    decreases hi
  {
    if mid < hi { RangeSplits(m, g, c, mem, lo, mid, hi - 1); }
  }

  /** The copy of a late input shows the viewed node as it was before it was computed. */
  lemma LateCopyIsStale(g: Graph, c: Cut, mem: seq<Term>, s: nat, q: nat, i: nat, k: nat)
    requires Topological(g) && RunsOk(g, c) && Fits(g, c, mem) && s < |c.splits| && q < |c.splits[s].inputs|
    requires c.splits[s].start <= i < k < c.splits[s].end && Real(g, i) && g.IsView(c.splits[s].inputs[q])
             && g.nodes[i] == Root(g, c.splits[s].inputs[q])
    requires mem[g.nodes[i]] == Init(g.nodes[i])
    ensures var t := c.splits[s].inputs[q];
            MemAt(Free(), g, c, mem, s, k)[c.copies[(t, c.splits[s].backend)]] == Shown(t, Init(g.nodes[i]))
  {
    hide RowOk;
    hide FilledOnce;
    hide Readable;
    var before := RunSplits(Free(), g, c, mem, s);
    var filled := CopyInputs(Free(), g, c, before, s, |c.splits[s].inputs|);
    forall r, n | 0 <= r < s && c.splits[r].start <= n < c.splits[r].end ensures g.nodes[n] != g.nodes[i] {
      StartsMonotone(c.splits, |g.nodes|, r, s);
    }
    SplitsLeave(Free(), g, c, mem, 0, s, g.nodes[i]);
    CopyShowsStart(Free(), g, c, before, s, |c.splits[s].inputs|, q);
    RangeLeaves(Free(), g, c, filled, c.splits[s].start, k, c.copies[(c.splits[s].inputs[q], c.splits[s].backend)]);
  }

  /** A late input makes some node read the wrong value. */
  lemma LateInputChangesMeaning(sc: Sched, g: Graph, a: seq<int>, c: Cut, s: nat, t: nat, i: nat)
    requires Topological(g) && PureNodes(g) && |a| == |g.tensors| && CutOk(sc, g, a, c, |g.nodes|)
    requires s < |c.splits| && t in c.splits[s].inputs && t < |g.tensors|
    requires c.splits[s].start <= i < |g.nodes| && Real(g, i) && g.nodes[i] == Root(g, t)
    ensures Fits(g, c, Initial(Free(), |g.tensors| + |c.copies|))
    ensures exists x: nat :: x < |g.tensors| &&
              RunSplits(Free(), g, c, Initial(Free(), |g.tensors| + |c.copies|), |c.splits|)[x] != InOrder(Free(), g,
                Initial(Free(), |g.tensors|), |g.nodes|)[x]
  {
    hide CutOk;
    hide RunsOk;
    hide Fits;
    hide Readable;
    var mem', mem := Initial(Free(), |g.tensors| + |c.copies|), Initial(Free(), |g.tensors|);
    CutFits(sc, g, a, c, mem');
    CutRuns(sc, g, a, c);
    LateInputIsStrayView(sc, g, a, c, s, t, i);
    var k, j := UserOf(sc, g, a, c, s, t);
    RootsComeFirst(g, k, t, i);
    var q :| 0 <= q < |c.splits[s].inputs| && c.splits[s].inputs[q] == t;
    ArgumentsDiffer(g, c, mem', mem, s, q, i, k, j);
    SplitValue(g, c, mem', s, k);
    InOrderValue(g, mem, k, |g.nodes|);
  }

  lemma ArgumentsDiffer(g: Graph, c: Cut, mem': seq<Term>, mem: seq<Term>, s: nat, q: nat, i: nat, k: nat, j: nat)
    requires Topological(g) && RunsOk(g, c) && Fits(g, c, mem') && |mem| == |g.tensors| && s < |c.splits|
             && q < |c.splits[s].inputs|
    requires c.splits[s].start <= i < k < c.splits[s].end && Real(g, i) && g.IsView(c.splits[s].inputs[q])
             && g.nodes[i] == Root(g, c.splits[s].inputs[q])
    requires mem'[g.nodes[i]] == Init(g.nodes[i])
    requires j < |g.Src(k)| && g.Src(k)[j] == c.splits[s].inputs[q]
    requires |c.rows[g.nodes[k]]| == |g.Src(k)| && c.rows[g.nodes[k]][j]
             == c.copies[(c.splits[s].inputs[q], c.splits[s].backend)]
    ensures ReadAll(Free(), g, MemAt(Free(), g, c, mem', s, k), c.rows[g.nodes[k]])
              != ReadAll(Free(), g, InOrder(Free(), g, mem, k), g.Src(k))
  {
    hide RunsOk;
    hide Readable;
    var t := c.splits[s].inputs[q];
    LateCopyIsStale(g, c, mem', s, q, i, k);
    InOrderValue(g, mem, i, k);
    FitsByLength(g, c, mem', MemAt(Free(), g, c, mem', s, k));
    var got := ReadAll(Free(), g, MemAt(Free(), g, c, mem', s, k), c.rows[g.nodes[k]]);
    var want := ReadAll(Free(), g, InOrder(Free(), g, mem, k), g.Src(k));
    assert got[j] == Shown(t, Init(g.nodes[i]));
    assert want[j] == Read(Free(), g, InOrder(Free(), g, mem, k), t);
  }

  /** A node of split s that reads input t, and the slot in which its copy is. */
  lemma UserOf(sc: Sched, g: Graph, a: seq<int>, c: Cut, s: nat, t: nat) returns (k: nat, j: nat)
    requires g.IdsOk() && |a| == |g.tensors| && CutOk(sc, g, a, c, |g.nodes|)
    requires s < |c.splits| && t in c.splits[s].inputs && t < |g.tensors|
    ensures c.splits[s].start <= k < c.splits[s].end && k < |g.nodes| && Real(g, k) && j < |g.Src(k)|
            && g.Src(k)[j] == t
    ensures (t, c.splits[s].backend) in c.copies && |c.rows| == |g.tensors| && |c.rows[g.nodes[k]]| == |g.Src(k)|
    ensures c.rows[g.nodes[k]][j] == c.copies[(t, c.splits[s].backend)]
  {
    hide NeedsCopy;
    hide Numbered;
    hide FilledOnce;
    hide FilledInTime;
    assert InputsOk(sc, g, a, c.copies, c.splits[s]);
    var p :| 0 <= p < |c.splits[s].inputs| && c.splits[s].inputs[p] == t;
    var u :| c.splits[s].start <= u < c.splits[s].end && u < |g.nodes| && Real(g, u) && t in g.Src(u);
    var w :| 0 <= w < |g.Src(u)| && g.Src(u)[w] == t;
    k, j := u, w;
    assert Redirected(sc, g, a, c.copies, c.rows[g.nodes[k]], k);
  }

  /** Running by splits computes, for every tensor, the very term the original graph computes. */
  ghost predicate SameTerms(g: Graph, c: Cut)
    requires g.IdsOk() && Fits(g, c, Initial(Free(), |g.tensors| + |c.copies|))
  {
    forall x: nat :: x < |g.tensors| ==>
      RunSplits(Free(), g, c, Initial(Free(), |g.tensors| + |c.copies|), |c.splits|)[x]
        == InOrder(Free(), g, Initial(Free(), |g.tensors|), |g.nodes|)[x]
  }

  lemma ReadyGivesSameTerms(sc: Sched, g: Graph, a: seq<int>, c: Cut)
    requires g.IdsOk() && |a| == |g.tensors| && CutOk(sc, g, a, c, |g.nodes|) && InputsReady(g, c.splits)
    requires Fits(g, c, Initial(Free(), |g.tensors| + |c.copies|))
    ensures SameTerms(g, c)
  {
    hide CutOk;
    hide RunsOk;
    hide InputsReady;
    hide Fits;
    hide RunSplits;
    hide InOrder;
    hide CopiesAgree;
    hide Free;
    var mem', mem := Initial(Free(), |g.tensors| + |c.copies|), Initial(Free(), |g.tensors|);
    CutRuns(sc, g, a, c);
    SplitsAgree(Free(), g, c, mem, mem', |c.splits|);
    LastSplitEnds(g, c);
  }

  lemma LastSplitEnds(g: Graph, c: Cut)
    requires g.IdsOk() && RunsOk(g, c)
    ensures |c.splits| > 0 && c.splits[|c.splits| - 1].end == |g.nodes|
  {
    hide RowOk;
    hide Numbered;
    hide FilledOnce;
  }

  lemma SameTermsNeedReady(sc: Sched, g: Graph, a: seq<int>, c: Cut)
    requires Topological(g) && PureNodes(g) && |a| == |g.tensors| && CutOk(sc, g, a, c, |g.nodes|)
    requires Fits(g, c, Initial(Free(), |g.tensors| + |c.copies|)) && SameTerms(g, c)
    ensures InputsReady(g, c.splits)
  {
    hide CutOk;
    hide Readable;
    hide Fits;
    hide RunSplits;
    hide InOrder;
    hide Free;
    hide PureNodes;
    forall s, t, i | 0 <= s < |c.splits| && t in c.splits[s].inputs && t < |g.tensors|
      && c.splits[s].start <= i < |g.nodes| && Real(g, i)
      ensures g.nodes[i] != Root(g, t)
    {
      if g.nodes[i] == Root(g, t) { LateInputChangesMeaning(sc, g, a, c, s, t, i); }
    }
  }

  /** The exact condition: the splits compute what the graph computes if and only if no split has an input that shows a
      node computed after the split has started. */
  lemma MeaningExactlyWhenReady(sc: Sched, g: Graph, a: seq<int>, c: Cut)
    requires Topological(g) && PureNodes(g) && |a| == |g.tensors| && CutOk(sc, g, a, c, |g.nodes|)
    ensures Fits(g, c, Initial(Free(), |g.tensors| + |c.copies|))
    ensures InputsReady(g, c.splits) <==> SameTerms(g, c)
  {
    hide CutOk;
    hide SameTerms;
    hide InputsReady;
    hide PureNodes;
    CutFits(sc, g, a, c, Initial(Free(), |g.tensors| + |c.copies|));
    if InputsReady(g, c.splits) { ReadyGivesSameTerms(sc, g, a, c); }
    if SameTerms(g, c) { SameTermsNeedReady(sc, g, a, c); }
  }
}
