/** Scheduler and planner together: the splits, run in the memory planned for the graph copy, compute what the original
    graph means. */
module PlanSplits {
  import opened Wrappers
  import opened TensorGraph
  import opened Planner
  import opened PlannerOwners
  import opened PlanRun
  import SchedModel
  import opened SchedSplit
  import opened SchedRun
  import opened SchedReady
  import opened SchedGraphCopy

  type Meaning = PlanRun.Meaning

  // ---------------------------------------------------------------- what the nodes of the graph copy do

  ghost predicate IsCopyId(c: Cut, x: nat) {
    exists key :: key in c.copies && c.copies[key] == x
  }

  /** The tensor that copy x is a copy of. */
  ghost function SourceOf(c: Cut, x: nat): (t: nat)
    requires IsCopyId(c, x)
  {
    var key :| key in c.copies && c.copies[key] == x;
    key.0
  }

  lemma SourceOfCopy(c: Cut, base: nat, t: nat, b: int)
    requires Numbered(c.copies, base) && (t, b) in c.copies
    ensures IsCopyId(c, c.copies[(t, b)]) && SourceOf(c, c.copies[(t, b)]) == t
  {
  }

  /** Original nodes compute from their redirected sources, copies are filled from the tensor they copy, dependencies do
      nothing. */
  ghost function SplitActions(g: Graph, c: Cut): nat -> Action {
    (x: nat) =>
      if x < |g.tensors| then (if g.tensors[x].viewSrc.None? && !g.tensors[x].input && x < |c.rows| then
                              Compute(c.rows[x]) else Skip)
      else if x < |g.tensors| + |c.copies| && IsCopyId(c, x) then Compute([SourceOf(c, x)])
      else Skip
  }

  function Blank(n: nat): (v: Bytes)
    ensures |v| == n
  {
    seq(n, _ => 0)
  }

  /** A copy takes over the bytes it is given; everything else means what it means in the original graph. */
  function SplitMeaning(m: Meaning, g: Graph, nb: nat -> nat): Meaning {
    SchedRun.Meaning(
      (x: nat, vs: seq<Bytes>) =>
        if x < |g.tensors| then m.compute(x, vs) else if |vs| == 1 && |vs[0]| == nb(x) then vs[0] else Blank(nb(x)),
      m.project,
      (x: nat) => if x < |g.tensors| then m.initial(x) else Blank(nb(x)))
  }

  /** nb gives the number of bytes of everything the graph computes, and of the copies. */
  ghost predicate SizedMeaning(m: Meaning, g: Graph, c: Cut, nb: nat -> nat) {
    && (forall t: nat :: |m.initial(t)| == nb(t))
    && (forall t: nat, vs: seq<Bytes> :: |m.compute(t, vs)| == nb(t))
    && (forall t: nat, v: Bytes :: |m.project(t, v)| == nb(t))
    && (forall x :: x in c.copies ==> nb(c.copies[x]) == nb(x.0))
  }

  // ---------------------------------------------------------------- values of the graph copy, list by list

  /** One node of the graph copy. */
  ghost function Act(m: Meaning, h: Graph, act: nat -> Action, vals: seq<Bytes>, x: nat): (r: seq<Bytes>)
    requires h.IdsOk() && |vals| == |h.tensors|
    ensures |r| == |vals|
  {
    match act(x)
    case Skip => vals
    case Compute(args) =>
      if x < |vals| && forall j :: 0 <= j < |args| ==>
        args[j] < |vals| then vals[x := m.compute(x, ReadAll(m, h, vals, args))] else vals
  }

  ghost function Fold(m: Meaning, h: Graph, act: nat -> Action, nodes: seq<nat>): (r: seq<Bytes>)
    requires h.IdsOk()
    ensures |r| == |h.tensors|
  {
    if nodes == [] then seq(|h.tensors|, (t: nat) => m.initial(t))
    else Act(m, h, act, Fold(m, h, act, nodes[..|nodes| - 1]), nodes[|nodes| - 1])
  }

  lemma {:induction false} ValuesAreFold(m: Meaning, h: Graph, act: nat -> Action, k: nat)
    requires ReadsExist(h, act) && k <= |h.nodes|
    ensures Values(m, h, act, k) == Fold(m, h, act, h.nodes[..k])
  {
    if k > 0 {
      ValuesAreFold(m, h, act, k - 1);
      assert h.nodes[..k][..k - 1] == h.nodes[..k - 1];
    }
  }

  // ---------------------------------------------------------------- the graph copy runs the splits

  /** The cells of tensors and copies agree, and tensors have their sizes. */
  ghost predicate SameCells(g: Graph, c: Cut, nb: nat -> nat, mem: seq<Bytes>, vals: seq<Bytes>) {
    && |mem| == |g.tensors| + |c.copies| <= |vals|
    && (forall x :: 0 <= x < |mem| ==> vals[x] == mem[x])
    && (forall t :: 0 <= t < |g.tensors| ==> |mem[t]| == nb(t))
  }

  /** h has the tensors of g with other sources, then the copies. */
  ghost predicate Extended(g: Graph, c: Cut, h: Graph) {
    && g.IdsOk() && h.IdsOk() && |g.tensors| + |c.copies| <= |h.tensors|
    && (forall t :: 0 <= t < |g.tensors| ==> h.tensors[t].viewSrc == g.tensors[t].viewSrc)
    && (forall t :: |g.tensors| <= t < |g.tensors| + |c.copies| ==> h.tensors[t].viewSrc.None?)
  }

  lemma SameRead(m: Meaning, g: Graph, c: Cut, nb: nat -> nat, h: Graph, mem: seq<Bytes>, vals: seq<Bytes>, y: nat)
    requires Extended(g, c, h) && SameCells(g, c, nb, mem, vals) && |vals| == |h.tensors| && y < |mem|
    ensures Read(SplitMeaning(m, g, nb), h, vals, y) == Read(m, g, mem, y)
  {
  }

  lemma {:induction false} SameReadAll(m: Meaning, g: Graph, c: Cut, nb: nat -> nat, h: Graph, mem: seq<Bytes>,
                                       vals: seq<Bytes>, row: seq<nat>)
    requires Extended(g, c, h) && SameCells(g, c, nb, mem, vals) && |vals| == |h.tensors|
    requires forall j :: 0 <= j < |row| ==> row[j] < |mem|
    ensures ReadAll(SplitMeaning(m, g, nb), h, vals, row) == ReadAll(m, g, mem, row)
  {
    if row != [] {
      SameReadAll(m, g, c, nb, h, mem, vals, row[..|row| - 1]);
      SameRead(m, g, c, nb, h, mem, vals, row[|row| - 1]);
    }
  }

  /** Filling the copy of t. */
  lemma CopyStep(m: Meaning, g: Graph, c: Cut, nb: nat -> nat, h: Graph, mem: seq<Bytes>, vals: seq<Bytes>, t: nat,
                 b: int)
    requires Extended(g, c, h) && SameCells(g, c, nb, mem, vals) && |vals| == |h.tensors| && SizedMeaning(m, g, c, nb)
    requires t < |g.tensors| && (t, b) in c.copies && Numbered(c.copies, |g.tensors|)
    ensures var x := c.copies[(t, b)];
            x < |mem| && SameCells(g, c, nb, mem[x := Read(m, g, mem, t)],
              Act(SplitMeaning(m, g, nb), h, SplitActions(g, c), vals, x))
  {
    var x := c.copies[(t, b)];
    SourceOfCopy(c, |g.tensors|, t, b);
    SameRead(m, g, c, nb, h, mem, vals, t);
    var m' := SplitMeaning(m, g, nb);
    assert ReadAll(m', h, vals, [t]) == [Read(m', h, vals, t)];
  }

  /** Running original node i. */
  lemma NodeStep(m: Meaning, g: Graph, c: Cut, nb: nat -> nat, h: Graph, mem: seq<Bytes>, vals: seq<Bytes>, i: nat)
    requires Extended(g, c, h) && SameCells(g, c, nb, mem, vals) && |vals| == |h.tensors| && SizedMeaning(m, g, c, nb)
    requires Fits(g, c, mem) && i < |g.nodes| && PureNodes(g)
    requires !g.tensors[g.nodes[i]].input
    ensures SameCells(g, c, nb, RunNode(m, g, mem, c.rows[g.nodes[i]], i),
            Act(SplitMeaning(m, g, nb), h, SplitActions(g, c), vals, g.nodes[i]))
  {
    SameReadAll(m, g, c, nb, h, mem, vals, c.rows[g.nodes[i]]);
  }

  lemma FoldAppend(m: Meaning, h: Graph, act: nat -> Action, nodes: seq<nat>, x: nat)
    requires h.IdsOk()
    ensures Fold(m, h, act, nodes + [x]) == Act(m, h, act, Fold(m, h, act, nodes), x)
  {
    assert (nodes + [x])[..|nodes|] == nodes;
  }

  /** What does not change while the splits run. */
  ghost predicate Setting(m: Meaning, g: Graph, a: seq<int>, c: Cut, nb: nat -> nat, h: Graph) {
    && Extended(g, c, h) && SizedMeaning(m, g, c, nb) && InputsKnown(g, a, c) && Numbered(c.copies, |g.tensors|)
    && PureNodes(g) && forall i :: 0 <= i < |g.nodes| ==> !g.tensors[g.nodes[i]].input
  }

  ghost predicate Simulates(m: Meaning, g: Graph, a: seq<int>, c: Cut, nb: nat -> nat, h: Graph, mem: seq<Bytes>,
                            k: Copying)
  {
    && Setting(m, g, a, c, nb, h) && |k.tensors| >= |g.tensors| + |c.copies|
    && SameCells(g, c, nb, mem, Fold(SplitMeaning(m, g, nb), h, SplitActions(g, c), k.nodes))
  }

  lemma InputFold(m: Meaning, g: Graph, a: seq<int>, c: Cut, nb: nat -> nat, h: Graph, mem: seq<Bytes>, k: Copying,
                  s: nat, p: nat)
    requires Simulates(m, g, a, c, nb, h, mem, k) && InputsKnown(g, a, c) && |mem| == |g.tensors| + |c.copies|
    requires s < |c.splits| && p < |c.splits[s].inputs|
    ensures var t, x := c.splits[s].inputs[p], c.copies[(c.splits[s].inputs[p], c.splits[s].backend)];
            x < |mem| && Simulates(m, g, a, c, nb, h, mem[x := Read(m, g, mem, t)], AddInput(g, a, c, k, s, p))
  {
    hide SizedMeaning;
    hide SameCells;
    hide Numbered;
    hide PureNodes;
    var t, b := c.splits[s].inputs[p], c.splits[s].backend;
    var m', act := SplitMeaning(m, g, nb), SplitActions(g, c);
    DependencySkips(g, c, |k.tensors|);
    FoldAppend(m', h, act, k.nodes, |k.tensors|);
    FoldAppend(m', h, act, k.nodes + [|k.tensors|], c.copies[(t, b)]);
    CopyStep(m, g, c, nb, h, mem, Fold(m', h, act, k.nodes), t, b);
  }

  lemma DependencySkips(g: Graph, c: Cut, x: nat)
    requires x >= |g.tensors| + |c.copies|
    ensures SplitActions(g, c)(x) == Skip
  {
  }

  lemma {:induction false} InputsFold(m: Meaning, g: Graph, a: seq<int>, c: Cut, nb: nat -> nat, h: Graph,
                                      mem: seq<Bytes>, k: Copying, s: nat, p: nat)
    requires Simulates(m, g, a, c, nb, h, mem, k) && InputsKnown(g, a, c) && Fits(g, c, mem)
    requires s < |c.splits| && p <= |c.splits[s].inputs|
    ensures Simulates(m, g, a, c, nb, h, CopyInputs(m, g, c, mem, s, p), AddInputs(g, a, c, k, s, p))
  {
    hide Simulates;
    if p > 0 {
      InputsFold(m, g, a, c, nb, h, mem, k, s, p - 1);
      InputFold(m, g, a, c, nb, h, CopyInputs(m, g, c, mem, s, p - 1), AddInputs(g, a, c, k, s, p - 1), s, p - 1);
    }
  }

  lemma NodeFold(m: Meaning, g: Graph, a: seq<int>, c: Cut, nb: nat -> nat, h: Graph, mem: seq<Bytes>, k: Copying,
                 i: nat)
    requires Simulates(m, g, a, c, nb, h, mem, k) && Fits(g, c, mem) && |a| == |g.tensors| && i < |g.nodes|
    ensures Simulates(m, g, a, c, nb, h, RunNode(m, g, mem, c.rows[g.nodes[i]], i),
            Put(k, [], g.nodes[i], a[g.nodes[i]]))
  {
    hide SizedMeaning;
    hide SameCells;
    hide Numbered;
    hide InputsKnown;
    hide Fits;
    var m', act := SplitMeaning(m, g, nb), SplitActions(g, c);
    FoldAppend(m', h, act, k.nodes, g.nodes[i]);
    NodeStep(m, g, c, nb, h, mem, Fold(m', h, act, k.nodes), i);
  }

  lemma {:induction false} NodesFold(m: Meaning, g: Graph, a: seq<int>, c: Cut, nb: nat -> nat, h: Graph,
                                     mem: seq<Bytes>, k: Copying, lo: nat, hi: nat)
    requires Simulates(m, g, a, c, nb, h, mem, k) && Fits(g, c, mem) && |a| == |g.tensors| && lo <= hi <= |g.nodes|
    ensures Simulates(m, g, a, c, nb, h, RunRange(m, g, c, mem, lo, hi), AddNodes(g, a, k, lo, hi))
    decreases hi
  {
    hide Simulates;
    if lo < hi {
      NodesFold(m, g, a, c, nb, h, mem, k, lo, hi - 1);
      var here := RunRange(m, g, c, mem, lo, hi - 1);
      FitsByLength(g, c, mem, here);
      NodeFold(m, g, a, c, nb, h, here, AddNodes(g, a, k, lo, hi - 1), hi - 1);
    }
  }

  /** Node by node, the graph copy computes what the splits compute. */
  lemma {:induction false} SplitsFold(m: Meaning, g: Graph, a: seq<int>, c: Cut, nb: nat -> nat, h: Graph,
                                      mem: seq<Bytes>, s: nat)
    requires InputsKnown(g, a, c) && Fits(g, c, mem) && s <= |c.splits|
    requires Simulates(m, g, a, c, nb, h, mem, CopyUpTo(g, a, c, 0))
    ensures Simulates(m, g, a, c, nb, h, RunSplits(m, g, c, mem, s), CopyUpTo(g, a, c, s))
  {
    hide Simulates;
    if s > 0 {
      SplitsFold(m, g, a, c, nb, h, mem, s - 1);
      var before := RunSplits(m, g, c, mem, s - 1);
      FitsByLength(g, c, mem, before);
      var k0 := CopyUpTo(g, a, c, s - 1);
      var n := |c.splits[s - 1].inputs|;
      InputsFold(m, g, a, c, nb, h, before, k0, s - 1, n);
      var filled := CopyInputs(m, g, c, before, s - 1, n);
      FitsByLength(g, c, mem, filled);
      NodesFold(m, g, a, c, nb, h, filled, AddInputs(g, a, c, k0, s - 1, n), c.splits[s - 1].start,
        c.splits[s - 1].end);
    }
  }

  // ---------------------------------------------------------------- the graph copy is fit for the planner

  /** Every input copy stands right behind a dependency on the tensor it copies. */
  ghost predicate Paired(g: Graph, c: Cut, k: Copying) {
    forall i :: 0 <= i < |k.nodes| && |g.tensors| <= k.nodes[i] < |g.tensors| + |c.copies| ==> PairedAt(g, c, k, i)
  }

  ghost predicate PairedAt(g: Graph, c: Cut, k: Copying, i: int)
    requires 0 <= i < |k.nodes|
  {
    && i > 0 && |g.tensors| + |c.copies| <= k.nodes[i - 1] < |k.tensors|
    && IsCopyId(c, k.nodes[i]) && k.tensors[k.nodes[i - 1]].src == [SourceOf(c, k.nodes[i])]
  }

  lemma PairedStays(g: Graph, c: Cut, k: Copying, more: seq<Tensor>, x: nat, b: int)
    requires Paired(g, c, k)
    requires |g.tensors| <= x < |g.tensors| + |c.copies| ==> PairedAt(g, c, Put(k, more, x, b), |k.nodes|)
    ensures Paired(g, c, Put(k, more, x, b))
  {
    var next := Put(k, more, x, b);
    forall i | 0 <= i < |next.nodes| && |g.tensors| <= next.nodes[i] < |g.tensors| + |c.copies|
      ensures PairedAt(g, c, next, i)
    {
      if i < |k.nodes| { assert PairedAt(g, c, k, i); }
    }
  }

  lemma {:induction false} InputsPaired(g: Graph, a: seq<int>, c: Cut, k: Copying, s: nat, p: nat)
    requires InputsKnown(g, a, c) && Numbered(c.copies, |g.tensors|) && s < |c.splits| && p <= |c.splits[s].inputs|
    requires Paired(g, c, k) && AfterSplit(g, c) <= k.tensors
    ensures Paired(g, c, AddInputs(g, a, c, k, s, p)) && AfterSplit(g, c) <= AddInputs(g, a, c, k, s, p).tensors
  {
    hide Paired;
    if p > 0 {
      InputsPaired(g, a, c, k, s, p - 1);
      InputPaired(g, a, c, AddInputs(g, a, c, k, s, p - 1), s, p - 1);
    }
  }

  lemma InputPaired(g: Graph, a: seq<int>, c: Cut, k: Copying, s: nat, p: nat)
    requires InputsKnown(g, a, c) && Numbered(c.copies, |g.tensors|) && s < |c.splits| && p < |c.splits[s].inputs|
    requires Paired(g, c, k) && AfterSplit(g, c) <= k.tensors
    ensures Paired(g, c, AddInput(g, a, c, k, s, p)) && AfterSplit(g, c) <= AddInput(g, a, c, k, s, p).tensors
  {
    hide Paired;
    var t, b := c.splits[s].inputs[p], c.splits[s].backend;
    SourceOfCopy(c, |g.tensors|, t, b);
    PairedStays(g, c, k, [Dependency(g, t)], |k.tensors|, a[t]);
    PairedStays(g, c, Put(k, [Dependency(g, t)], |k.tensors|, a[t]), [], c.copies[(t, b)], b);
  }

  lemma {:induction false} NodesPaired(g: Graph, a: seq<int>, c: Cut, k: Copying, lo: nat, hi: nat)
    requires g.IdsOk() && |a| == |g.tensors| && |c.rows| == |g.tensors| && lo <= hi <= |g.nodes|
    requires Paired(g, c, k) && AfterSplit(g, c) <= k.tensors
    ensures Paired(g, c, AddNodes(g, a, k, lo, hi)) && AfterSplit(g, c) <= AddNodes(g, a, k, lo, hi).tensors
    decreases hi
  {
    hide Paired;
    if lo < hi {
      NodesPaired(g, a, c, k, lo, hi - 1);
      PairedStays(g, c, AddNodes(g, a, k, lo, hi - 1), [], g.nodes[hi - 1], a[g.nodes[hi - 1]]);
    }
  }

  lemma {:induction false} SplitsPaired(g: Graph, a: seq<int>, c: Cut, s: nat)
    requires InputsKnown(g, a, c) && Numbered(c.copies, |g.tensors|) && s <= |c.splits|
    ensures Paired(g, c, CopyUpTo(g, a, c, s)) && AfterSplit(g, c) <= CopyUpTo(g, a, c, s).tensors
  {
    if s > 0 {
      hide Paired;
      SplitsPaired(g, a, c, s - 1);
      var k := CopyUpTo(g, a, c, s - 1);
      var n := |c.splits[s - 1].inputs|;
      InputsPaired(g, a, c, k, s - 1, n);
      NodesPaired(g, a, c, AddInputs(g, a, c, k, s - 1, n), c.splits[s - 1].start, c.splits[s - 1].end);
    }
  }

  /** The graph copy h, its construction and its actions fit together. */
  ghost predicate Ready(g: Graph, c: Cut, h: Graph) {
    && g.IdsOk() && h.IdsOk() && |c.rows| == |g.tensors|
    && AfterSplit(g, c) <= h.tensors && Paired(g, c, Copying(h.tensors, h.nodes, []))
    && (forall key :: key in c.copies ==> key.0 < |g.tensors|)
    && (forall t :: |g.tensors| + |c.copies| <= t < |h.tensors| ==> h.tensors[t].viewSrc.Some?)
  }

  lemma ReadyReadsExist(g: Graph, c: Cut, h: Graph)
    requires Ready(g, c, h)
    ensures ReadsExist(h, SplitActions(g, c))
  {
    var act := SplitActions(g, c);
    forall t, j | 0 <= t < |h.tensors| && act(t).Compute? && 0 <= j < |act(t).args| ensures act(t).args[j] < |h.tensors|
    {
      if t < |g.tensors| {
        assert h.tensors[t] == AfterSplit(g, c)[t];
      } else {
        var key :| key in c.copies && c.copies[key] == t;
        assert SourceOf(c, t) < |g.tensors|;
      }
    }
  }

  lemma ReadyReadsKept(g: Graph, c: Cut, h: Graph, k: nat, t: nat)
    requires Ready(g, c, h) && k < |h.nodes| && SplitActions(g, c)(h.nodes[k]).Compute?
             && t in SplitActions(g, c)(h.nodes[k]).args
    ensures ReadsKept(h, SplitActions(g, c), k, t)
  {
    var act, x := SplitActions(g, c), h.nodes[k];
    if x < |g.tensors| {
      assert h.tensors[x] == AfterSplit(g, c)[x];
      assert t in h.Src(k) && Quiet(h, act, k, k);
    } else {
      assert PairedAt(g, c, Copying(h.tensors, h.nodes, []), k);
      assert t in h.Src(k - 1) && Quiet(h, act, k - 1, k);
    }
  }

  lemma ReadyActions(g: Graph, c: Cut, h: Graph)
    requires Ready(g, c, h)
    ensures ActionsOk(h, SplitActions(g, c))
  {
    var act := SplitActions(g, c);
    ReadyReadsExist(g, c, h);
    forall k, t | 0 <= k < |h.nodes| && act(h.nodes[k]).Compute? && t in act(h.nodes[k]).args
      ensures ReadsKept(h, act, k, t)
    {
      ReadyReadsKept(g, c, h, k, t);
    }
    forall k | 0 <= k < |h.nodes|
      ensures InPools(h, h.nodes[k]) ==> (act(h.nodes[k]).Skip? <==> h.tensors[h.nodes[k]].input)
      ensures h.IsView(h.nodes[k]) ==> act(h.nodes[k]).Skip?
    {
      ReadyNode(g, c, h, k);
    }
  }

  lemma ReadyNode(g: Graph, c: Cut, h: Graph, k: nat)
    requires Ready(g, c, h) && k < |h.nodes|
    ensures var act := SplitActions(g, c);
            && (InPools(h, h.nodes[k]) ==> (act(h.nodes[k]).Skip? <==> h.tensors[h.nodes[k]].input))
            && (h.IsView(h.nodes[k]) ==> act(h.nodes[k]).Skip?)
  {
    var x := h.nodes[k];
    if x < |g.tensors| + |c.copies| {
      assert h.tensors[x] == AfterSplit(g, c)[x];
      if x >= |g.tensors| { assert PairedAt(g, c, Copying(h.tensors, h.nodes, []), k); }
    }
  }

  lemma GraphCopyReady(sc: SchedModel.Sched, g: Graph, a: seq<int>, c: Cut)
    requires Copyable(sc, g, a, c)
    ensures InputsKnown(g, a, c) && Ordered(GraphCopy(g, a, c)) && Ready(g, c, GraphCopy(g, a, c))
            && Extended(g, c, GraphCopy(g, a, c))
    ensures Numbered(c.copies, |g.tensors|) && Fits(g, c, Initial(Free(), |g.tensors| + |c.copies|))
  {
    hide Ordered;
    hide Topological;
    hide CutOk;
    hide CopyUpTo;
    hide Paired;
    hide Numbered;
    GraphCopyIsOrdered(sc, g, a, c);
    CutFacts(sc, g, a, c);
    var h := GraphCopy(g, a, c);
    SplitsPaired(g, a, c, |c.splits|);
    PairedIgnoresBids(g, c, CopyUpTo(g, a, c, |c.splits|));
    forall t | |g.tensors| + |c.copies| <= t < |h.tensors| ensures h.tensors[t].viewSrc.Some? {
      SplitsAddViews(g, a, c, |c.splits|, t);
    }
    ReadyFromParts(g, c, h);
  }

  lemma PairedIgnoresBids(g: Graph, c: Cut, k: Copying)
    requires Paired(g, c, k)
    ensures Paired(g, c, Copying(k.tensors, k.nodes, []))
  {
    forall i | 0 <= i < |k.nodes| && |g.tensors| <= k.nodes[i] < |g.tensors| + |c.copies|
      ensures PairedAt(g, c, Copying(k.tensors, k.nodes, []), i)
    {
      assert PairedAt(g, c, k, i);
    }
  }

  lemma ReadyFromParts(g: Graph, c: Cut, h: Graph)
    requires g.IdsOk() && h.IdsOk() && |c.rows| == |g.tensors| && AfterSplit(g, c) <= h.tensors
    requires Paired(g, c, Copying(h.tensors, h.nodes, [])) && forall key :: key in c.copies ==> key.0 < |g.tensors|
    requires forall t :: |g.tensors| + |c.copies| <= t < |h.tensors| ==> h.tensors[t].viewSrc.Some?
    ensures Ready(g, c, h) && Extended(g, c, h)
  {
    hide Paired;
    forall t | 0 <= t < |g.tensors| + |c.copies| ensures h.tensors[t] == AfterSplit(g, c)[t] {}
  }

  lemma {:induction false} SplitsAddViews(g: Graph, a: seq<int>, c: Cut, s: nat, t: nat)
    requires InputsKnown(g, a, c) && s <= |c.splits| && |g.tensors| + |c.copies| <= t < |CopyUpTo(g, a, c, s).tensors|
    ensures CopyUpTo(g, a, c, s).tensors[t].viewSrc.Some?
  {
    if s > 0 {
      var k := CopyUpTo(g, a, c, s - 1);
      NodesAddNone(g, a, AddInputs(g, a, c, k, s - 1, |c.splits[s - 1].inputs|), c.splits[s - 1].start,
        c.splits[s - 1].end);
      InputsAddViews(g, a, c, k, s - 1, |c.splits[s - 1].inputs|, t);
      if t < |k.tensors| { SplitsAddViews(g, a, c, s - 1, t); }
    }
  }

  lemma {:induction false} InputsAddViews(g: Graph, a: seq<int>, c: Cut, k: Copying, s: nat, p: nat, t: nat)
    requires InputsKnown(g, a, c) && s < |c.splits| && p <= |c.splits[s].inputs|
             && t < |AddInputs(g, a, c, k, s, p).tensors|
    ensures |AddInputs(g, a, c, k, s, p).tensors| >= |k.tensors|
    ensures if t < |k.tensors| then AddInputs(g, a, c, k, s, p).tensors[t] == k.tensors[t]
            else AddInputs(g, a, c, k, s, p).tensors[t].viewSrc.Some?
  {
    if p > 0 && t < |AddInputs(g, a, c, k, s, p - 1).tensors| { InputsAddViews(g, a, c, k, s, p - 1, t); }
    if p > 0 && t >= |AddInputs(g, a, c, k, s, p - 1).tensors| && t > 0 {
      InputsGrow(g, a, c, k, s, p - 1);
    }
    InputsGrow(g, a, c, k, s, p);
  }

  lemma {:induction false} InputsGrow(g: Graph, a: seq<int>, c: Cut, k: Copying, s: nat, p: nat)
    requires InputsKnown(g, a, c) && s < |c.splits| && p <= |c.splits[s].inputs|
    ensures |AddInputs(g, a, c, k, s, p).tensors| >= |k.tensors|
  {
    if p > 0 { InputsGrow(g, a, c, k, s, p - 1); }
  }

  lemma {:induction false} NodesAddNone(g: Graph, a: seq<int>, k: Copying, lo: nat, hi: nat)
    requires g.IdsOk() && |a| == |g.tensors| && lo <= hi <= |g.nodes|
    ensures AddNodes(g, a, k, lo, hi).tensors == k.tensors
    decreases hi
  {
    if lo < hi { NodesAddNone(g, a, k, lo, hi - 1); }
  }

  lemma CutFacts(sc: SchedModel.Sched, g: Graph, a: seq<int>, c: Cut)
    requires Copyable(sc, g, a, c)
    ensures Numbered(c.copies, |g.tensors|) && Fits(g, c, Initial(Free(), |g.tensors| + |c.copies|))
    ensures forall key :: key in c.copies ==> key.0 < |g.tensors|
  {
    hide NeedsCopy;
    hide RowsOk;
    hide FilledInTime;
    hide FilledOnce;
    hide OnBackend;
    hide Readable;
    hide PureNodes;
    hide InputsReady;
    hide UsedIn;
    CutFits(sc, g, a, c, Initial(Free(), |g.tensors| + |c.copies|));
    forall key | key in c.copies ensures key.0 < |g.tensors| {
      var s :| Fills(c.splits, s, key.0, key.1);
      assert InputsOk(sc, g, a, c.copies, c.splits[s]);
    }
  }

  // ---------------------------------------------------------------- the result

  /** A value written by node k of an ordered graph is its final value. */
  lemma {:induction false} ValuesStay(m: Meaning, h: Graph, act: nat -> Action, k: nat, n: nat)
    requires ReadsExist(h, act) && k < n <= |h.nodes| && forall i, j :: 0 <= i < j < |h.nodes| ==>
             h.nodes[i] != h.nodes[j]
    ensures Values(m, h, act, n)[h.nodes[k]] == Values(m, h, act, k + 1)[h.nodes[k]]
    decreases n
  {
    if k + 1 < n { ValuesStay(m, h, act, k, n - 1); }
  }

  /** The graph copy means what the original graph means. */
  lemma GraphCopyMeansOriginal(m: Meaning, sc: SchedModel.Sched, g: Graph, a: seq<int>, c: Cut, nb: nat -> nat, t: nat)
    requires Copyable(sc, g, a, c) && SizedMeaning(m, g, c, nb) && t < |g.tensors|
    requires forall i :: 0 <= i < |g.nodes| ==> g.nodes[i] < |g.tensors| && !g.tensors[g.nodes[i]].input
    ensures InputsKnown(g, a, c)
    ensures var h := GraphCopy(g, a, c);
            && ReadsExist(h, SplitActions(g, c)) && t < |h.tensors|
            && Values(SplitMeaning(m, g, nb), h, SplitActions(g, c), |h.nodes|)[t]
              == InOrder(m, g, Initial(m, |g.tensors|), |g.nodes|)[t]
  {
    hide Ready;
    hide CopyUpTo;
    hide Setting;
    hide Fits;
    hide InputsKnown;
    MakeSetting(m, sc, g, a, c, nb);
    hide Copyable;
    var h := GraphCopy(g, a, c);
    var m', act := SplitMeaning(m, g, nb), SplitActions(g, c);
    ReadyReadsExist(g, c, h);
    ValuesAreFold(m', h, act, |h.nodes|);
    assert h.nodes[..|h.nodes|] == h.nodes;
    var mem := Initial(m', |g.tensors| + |c.copies|);
    FitsByLength(g, c, Initial(Free(), |g.tensors| + |c.copies|), mem);
    SplitsRunGraphCopy(m, g, a, c, nb, h, mem);
    SameStart(m, g, c, nb, mem);
    OriginalMeaning(m, sc, g, a, c, mem, t);
  }

  lemma SameStart(m: Meaning, g: Graph, c: Cut, nb: nat -> nat, mem: seq<Bytes>)
    requires mem == Initial(SplitMeaning(m, g, nb), |g.tensors| + |c.copies|)
    ensures SameTensors(g, Initial(m, |g.tensors|), mem)
  {
  }

  lemma SplitsRunGraphCopy(m: Meaning, g: Graph, a: seq<int>, c: Cut, nb: nat -> nat, h: Graph, mem: seq<Bytes>)
    requires InputsKnown(g, a, c) && h == GraphCopy(g, a, c) && h.IdsOk() && Setting(m, g, a, c, nb, h)
             && Fits(g, c, mem)
    requires mem == Initial(SplitMeaning(m, g, nb), |g.tensors| + |c.copies|)
    ensures SameCells(g, c, nb, RunSplits(m, g, c, mem, |c.splits|),
            Fold(SplitMeaning(m, g, nb), h, SplitActions(g, c), h.nodes))
  {
    hide Fits;
    hide CopyUpTo;
    hide InputsKnown;
    hide Setting;
    hide SameCells;
    StartSimulates(m, g, a, c, nb, h, mem);
    SplitsFold(m, g, a, c, nb, h, mem, |c.splits|);
  }

  lemma MakeSetting(m: Meaning, sc: SchedModel.Sched, g: Graph, a: seq<int>, c: Cut, nb: nat -> nat)
    requires Copyable(sc, g, a, c) && SizedMeaning(m, g, c, nb)
    requires forall i :: 0 <= i < |g.nodes| ==> g.nodes[i] < |g.tensors| && !g.tensors[g.nodes[i]].input
    ensures InputsKnown(g, a, c) && Ordered(GraphCopy(g, a, c)) && Ready(g, c, GraphCopy(g, a, c))
    ensures Setting(m, g, a, c, nb, GraphCopy(g, a, c)) && Fits(g, c, Initial(Free(), |g.tensors| + |c.copies|))
  {
    hide Ready;
    hide Fits;
    hide Ordered;
    hide CopyUpTo;
    hide Numbered;
    hide PureNodes;
    hide InputsKnown;
    hide Extended;
    hide SizedMeaning;
    GraphCopyReady(sc, g, a, c);
    CopyablePure(sc, g, a, c);
  }

  lemma StartSimulates(m: Meaning, g: Graph, a: seq<int>, c: Cut, nb: nat -> nat, h: Graph, mem: seq<Bytes>)
    requires Setting(m, g, a, c, nb, h) && InputsKnown(g, a, c)
             && mem == Initial(SplitMeaning(m, g, nb), |g.tensors| + |c.copies|)
    ensures Simulates(m, g, a, c, nb, h, mem, CopyUpTo(g, a, c, 0))
  {
    hide Numbered;
    hide PureNodes;
    hide InputsKnown;
  }

  lemma CopyablePure(sc: SchedModel.Sched, g: Graph, a: seq<int>, c: Cut)
    requires Copyable(sc, g, a, c)
    ensures PureNodes(g)
  {
  }

  lemma OriginalMeaning(m: Meaning, sc: SchedModel.Sched, g: Graph, a: seq<int>, c: Cut, mem: seq<Bytes>, t: nat)
    requires Copyable(sc, g, a, c) && g.IdsOk() && t < |g.tensors| && |mem| == |g.tensors| + |c.copies|
    requires SameTensors(g, Initial(m, |g.tensors|), mem) && Fits(g, c, mem)
    ensures RunSplits(m, g, c, mem, |c.splits|)[t] == InOrder(m, g, Initial(m, |g.tensors|), |g.nodes|)[t]
  {
    hide CutOk;
    hide RowOk;
    hide Numbered;
    hide FilledOnce;
    hide Readable;
    CutRuns(sc, g, a, c);
    SplitsAgree(m, g, c, Initial(m, |g.tensors|), mem, |c.splits|);
  }

  /** Scheduler and planner together. Whatever the operations compute, when the splits run in the memory planned for the
      graph copy, the range of every original node holds right after its step the value the original graph gives it, and
      the range of every output still holds it at the end. */
  lemma ScheduledAndPlannedRunIsCorrect(m: Meaning, sc: SchedModel.Sched, g: Graph, a: seq<int>, c: Cut, nb: nat -> nat,
                                        h: Graph, cfg: Config, maxSizes: seq<nat>, nodeBufs: seq<nat>,
                                          leafBufs: seq<nat>,
                                        hv: seq<HashNode>, st: Store, k: nat, t: nat)
    requires Copyable(sc, g, a, c) && SizedMeaning(m, g, c, nb)
    requires forall i :: 0 <= i < |g.nodes| ==> g.nodes[i] < |g.tensors| && !g.tensors[g.nodes[i]].input
    requires InputsKnown(g, a, c) && h == GraphCopy(g, a, c) && h.IdsOk() && ReadsExist(h, SplitActions(g, c))
    requires CfgOk(cfg) && |maxSizes| == |cfg.bufts| && Plan(h, cfg, maxSizes, nodeBufs, leafBufs).Some?
    requires hv == Plan(h, cfg, maxSizes, nodeBufs, leafBufs).value.hv && BuffersOk(cfg, hv) && |hv| == |h.tensors|
    requires forall x: nat :: InPools(h, x) ==> nb(x) <= cfg.size(cfg.bufts[hv[x].bufferId], x)
    requires Loaded(SplitMeaning(m, g, nb), h, cfg, hv, nb, st)
    requires t < |g.tensors|
    ensures k < |h.nodes| && h.nodes[k] == t && SplitActions(g, c)(t).Compute? ==>
              Contents(h, cfg, hv, nb, Run(SplitMeaning(m, g, nb), h, SplitActions(g, c), cfg, hv, nb, st, k + 1), t)
                == InOrder(m, g, Initial(m, |g.tensors|), |g.nodes|)[t]
    ensures InPools(h, t) && h.tensors[t].output ==>
              Contents(h, cfg, hv, nb, Run(SplitMeaning(m, g, nb), h, SplitActions(g, c), cfg, hv, nb, st, |h.nodes|),
                t)
                == InOrder(m, g, Initial(m, |g.tensors|), |g.nodes|)[t]
  {
    hide Plan;
    hide Readable;
    hide Loaded;
    hide ActionsOk;
    hide CopyUpTo;
    hide InputsKnown;
    hide Ready;
    var m', act := SplitMeaning(m, g, nb), SplitActions(g, c);
    GraphCopyReady(sc, g, a, c);
    ReadyActions(g, c, h);
    GraphCopyMeansOriginal(m, sc, g, a, c, nb, t);
    hide Copyable;
    SplitMeaningSized(m, g, c, nb, h, cfg, hv);
    PlannedRunIsCorrect(m', h, act, cfg, maxSizes, nodeBufs, leafBufs, hv, nb, st, k, t);
    if k < |h.nodes| && h.nodes[k] == t && act(t).Compute? { ValuesStay(m', h, act, k, |h.nodes|); }
  }

  lemma SplitMeaningSized(m: Meaning, g: Graph, c: Cut, nb: nat -> nat, h: Graph, cfg: Config, hv: seq<HashNode>)
    requires SizedMeaning(m, g, c, nb) && BuffersOk(cfg, hv) && |hv| == |h.tensors|
    requires forall x: nat :: InPools(h, x) ==> nb(x) <= cfg.size(cfg.bufts[hv[x].bufferId], x)
    ensures Sized(SplitMeaning(m, g, nb), h, cfg, hv, nb)
  {
  }
}
