/** The graph the scheduler hands to the planner: the splits in order, with dependency nodes and input copies in front
    of each. */
module SchedGraphCopy {
  import opened Wrappers
  import opened TensorGraph
  import opened SchedModel
  import opened SchedSplit
  import opened SchedRun
  import opened SchedReady

  /** The tensors that exist so far, the node list so far and the backend of each node. */
  datatype Copying = Copying(tensors: seq<Tensor>, nodes: seq<nat>, bids: seq<int>)

  /** An input copy: ggml_dup_tensor_layout gives a plain tensor without an operation. */
  const InputCopy := Tensor(NONE, false, false, [], None, false)

  /** A dependency on an input: a view of it that reads it, without an operation. */
  function Dependency(g: Graph, input: nat): Tensor
    requires g.IdsOk() && input < |g.tensors|
  {
    Tensor(NONE, false, false, [input], Some(Root(g, input)), false)
  }

  /** The tensors after pass 5: sources redirected, one new tensor for each copy. */
  function AfterSplit(g: Graph, c: Cut): (r: seq<Tensor>)
    requires |c.rows| == |g.tensors|
    ensures |r| == |g.tensors| + |c.copies|
  {
    seq(|g.tensors|, t requires 0 <= t < |g.tensors| => g.tensors[t].(src := c.rows[t]))
      + seq(|c.copies|, _ => InputCopy)
  }

  predicate InputsKnown(g: Graph, a: seq<int>, c: Cut) {
    && g.IdsOk() && |a| == |g.tensors| == |c.rows|
    && (forall s, p :: 0 <= s < |c.splits| && 0 <= p < |c.splits[s].inputs| ==>
          c.splits[s].inputs[p] < |g.tensors| && (c.splits[s].inputs[p], c.splits[s].backend) in c.copies)
    && (forall s :: 0 <= s < |c.splits| ==> c.splits[s].start <= c.splits[s].end <= |g.nodes|)
  }

  /** One more node, which may be a new tensor. */
  function Put(k: Copying, more: seq<Tensor>, x: nat, b: int): Copying {
    Copying(k.tensors + more, k.nodes + [x], k.bids + [b])
  }

  function AddInput(g: Graph, a: seq<int>, c: Cut, k: Copying, s: nat, p: nat): Copying
    requires InputsKnown(g, a, c) && s < |c.splits| && p < |c.splits[s].inputs|
  {
    var input, b := c.splits[s].inputs[p], c.splits[s].backend;
    Put(Put(k, [Dependency(g, input)], |k.tensors|, a[input]), [], c.copies[(input, b)], b)
  }

  function AddInputs(g: Graph, a: seq<int>, c: Cut, k: Copying, s: nat, p: nat): Copying
    requires InputsKnown(g, a, c) && s < |c.splits| && p <= |c.splits[s].inputs|
  {
    if p == 0 then k else AddInput(g, a, c, AddInputs(g, a, c, k, s, p - 1), s, p - 1)
  }

  function AddNodes(g: Graph, a: seq<int>, k: Copying, lo: nat, hi: nat): Copying
    requires g.IdsOk() && |a| == |g.tensors| && lo <= hi <= |g.nodes|
  {
    if lo == hi then k
    else
      var before := AddNodes(g, a, k, lo, hi - 1);
      Put(before, [], g.nodes[hi - 1], a[g.nodes[hi - 1]])
  }

  /** The graph copy after the first s splits. */
  function CopyUpTo(g: Graph, a: seq<int>, c: Cut, s: nat): Copying
    requires InputsKnown(g, a, c) && s <= |c.splits|
  {
    if s == 0 then Copying(AfterSplit(g, c), [], [])
    else
      var k := AddInputs(g, a, c, CopyUpTo(g, a, c, s - 1), s - 1, |c.splits[s - 1].inputs|);
      AddNodes(g, a, k, c.splits[s - 1].start, c.splits[s - 1].end)
  }

  function GraphCopy(g: Graph, a: seq<int>, c: Cut): Graph
    requires InputsKnown(g, a, c)
  {
    var k := CopyUpTo(g, a, c, |c.splits|);
    Graph(k.tensors, k.nodes, g.leafs)
  }

  method CopyInputNodes(g: Graph, a: seq<int>, c: Cut, k: Copying, s: nat) returns (r: Copying)
    requires InputsKnown(g, a, c) && s < |c.splits|
    ensures r == AddInputs(g, a, c, k, s, |c.splits[s].inputs|)
  {
    hide InputsKnown;
    InputsAreKnown(g, a, c);
    var split := c.splits[s];
    r := k;
    var p := 0;
    while p < |split.inputs|
      invariant p <= |split.inputs| && r == AddInputs(g, a, c, k, s, p)
    {
      var input := split.inputs[p];
      r := Put(r, [Dependency(g, input)], |r.tensors|, a[input]);
      r := Put(r, [], c.copies[(input, split.backend)], split.backend);
      p := p + 1;
    }
  }

  lemma InputsAreKnown(g: Graph, a: seq<int>, c: Cut)
    requires InputsKnown(g, a, c)
    ensures g.IdsOk() && |a| == |g.tensors| == |c.rows|
    ensures forall s, p :: 0 <= s < |c.splits| && 0 <= p < |c.splits[s].inputs| ==>
              c.splits[s].inputs[p] < |g.tensors| && (c.splits[s].inputs[p], c.splits[s].backend) in c.copies
  {
  }

  method CopyNodes(g: Graph, a: seq<int>, k: Copying, lo: nat, hi: nat) returns (r: Copying)
    requires g.IdsOk() && |a| == |g.tensors| && lo <= hi <= |g.nodes|
    ensures r == AddNodes(g, a, k, lo, hi)
  {
    r := k;
    var i := lo;
    while i < hi
      invariant lo <= i <= hi && r == AddNodes(g, a, k, lo, i)
    {
      r := Put(r, [], g.nodes[i], a[g.nodes[i]]);
      i := i + 1;
    }
  }

  /** The loops at the end of ggml_backend_sched_split_graph, with one copy and no graph optimization. */
  method BuildGraphCopy(g: Graph, a: seq<int>, c: Cut) returns (h: Graph, bids: seq<int>)
    requires InputsKnown(g, a, c)
    ensures h == GraphCopy(g, a, c) && bids == CopyUpTo(g, a, c, |c.splits|).bids
  {
    var k := Copying(AfterSplit(g, c), [], []);
    var s := 0;
    while s < |c.splits|
      invariant s <= |c.splits| && k == CopyUpTo(g, a, c, s)
    {
      k := CopyInputNodes(g, a, c, k, s);
      k := CopyNodes(g, a, k, c.splits[s].start, c.splits[s].end);
      s := s + 1;
    }
    h, bids := Graph(k.tensors, k.nodes, g.leafs), k.bids;
  }

  // ---------------------------------------------------------------- the copy is ordered

  /** A source that is available once the nodes in `done` have run. */
  ghost predicate Available(g: Graph, tensors: seq<Tensor>, done: seq<nat>, t: nat) {
    && t < |g.tensors| <= |tensors|
    && if tensors[t].viewSrc.Some? then RootDone(g, done, tensors[t].viewSrc.value) && t in g.nodes
                                        && tensors[t].op != NONE
       else t in g.leafs || t in done
  }

  ghost predicate RootDone(g: Graph, done: seq<nat>, r: nat) {
    r < |g.tensors| && (r in done || r !in g.nodes)
  }

  /** Everything node k of a node list needs. */
  ghost predicate NodeOk(g: Graph, tensors: seq<Tensor>, nodes: seq<nat>, k: int)
    requires 0 <= k < |nodes|
  {
    var x := nodes[k];
    && x < |tensors| && x !in g.leafs && x !in nodes[..k]
    && (x < |g.tensors| ==> x in g.nodes)
    && (forall j :: 0 <= j < |tensors[x].src| ==>
          tensors[x].src[j] != x && (Available(g, tensors, nodes[..k], tensors[x].src[j])
              || IsCopy(g, tensors, nodes[..k], tensors[x].src[j])))
    && (tensors[x].viewSrc.Some? ==> RootDone(g, nodes[..k], tensors[x].viewSrc.value))
  }

  ghost predicate IsCopy(g: Graph, tensors: seq<Tensor>, done: seq<nat>, t: nat) {
    |g.tensors| <= t < |tensors| && tensors[t].viewSrc.None? && t in done
  }

  ghost predicate AllOk(g: Graph, k: Copying) {
    forall i :: 0 <= i < |k.nodes| ==> NodeOk(g, k.tensors, k.nodes, i)
  }

  /** Where the construction is: splits before s are done, p inputs of split s, and the original nodes before i. */
  ghost predicate At(g: Graph, c: Cut, k: Copying, s: nat, p: nat, i: nat)
    requires |c.rows| == |g.tensors| && i <= |g.nodes| && g.IdsOk()
  {
    && AfterSplit(g, c) <= k.tensors && AllOk(g, k)
    && (forall t :: |g.tensors| + |c.copies| <= t < |k.tensors| ==> IsDependency(g, k.tensors[t]))
    && (forall t :: 0 <= t < |g.tensors| ==> (t in k.nodes <==> t in g.nodes[..i]))
    && (forall r, q :: 0 <= r < |c.splits| && 0 <= q < |c.splits[r].inputs| && (r < s || (r == s && q < p)) ==>
        CopyIn(c, k.nodes, r, q))
    && (forall x :: x in k.nodes && |g.tensors| <= x < |g.tensors| + |c.copies| ==> CopyOfDone(c, x, s, p))
  }

  ghost predicate IsDependency(g: Graph, t: Tensor)
    requires g.IdsOk()
  {
    exists u: nat :: u < |g.tensors| && t == Dependency(g, u)
  }

  ghost predicate CopyIn(c: Cut, nodes: seq<nat>, r: int, q: int)
    requires 0 <= r < |c.splits| && 0 <= q < |c.splits[r].inputs|
  {
    (c.splits[r].inputs[q], c.splits[r].backend) in c.copies
      && c.copies[(c.splits[r].inputs[q], c.splits[r].backend)] in nodes
  }

  ghost predicate CopyOfDone(c: Cut, x: nat, s: nat, p: nat) {
    exists r, q :: 0 <= r < |c.splits| && 0 <= q < |c.splits[r].inputs| && (r < s || (r == s && q < p))
      && (c.splits[r].inputs[q], c.splits[r].backend) in c.copies
        && c.copies[(c.splits[r].inputs[q], c.splits[r].backend)] == x
  }

  lemma NodeOkStays(g: Graph, tensors: seq<Tensor>, nodes: seq<nat>, more: seq<Tensor>, x: nat, k: int)
    requires 0 <= k < |nodes| && NodeOk(g, tensors, nodes, k) && |g.tensors| <= |tensors|
    ensures NodeOk(g, tensors + more, nodes + [x], k)
  {
    assert (nodes + [x])[..k] == nodes[..k];
  }

  ghost predicate LastOk(g: Graph, k: Copying) {
    |k.nodes| > 0 && NodeOk(g, k.tensors, k.nodes, |k.nodes| - 1)
  }

  lemma Append(g: Graph, k: Copying, more: seq<Tensor>, x: nat, b: int)
    requires AllOk(g, k) && |g.tensors| <= |k.tensors| && LastOk(g, Put(k, more, x, b))
    ensures AllOk(g, Put(k, more, x, b))
  {
    hide NodeOk;
    forall i | 0 <= i < |k.nodes| + 1 ensures NodeOk(g, k.tensors + more, k.nodes + [x], i) {
      if i < |k.nodes| {
        assert NodeOk(g, k.tensors, k.nodes, i);
        NodeOkStays(g, k.tensors, k.nodes, more, x, i);
      }
    }
  }

  lemma NodesAreTensors(g: Graph, k: Copying, x: nat)
    requires AllOk(g, k) && x in k.nodes
    ensures x < |k.tensors|
  {
    var i :| 0 <= i < |k.nodes| && k.nodes[i] == x;
    assert NodeOk(g, k.tensors, k.nodes, i);
  }

  // ---- why the next node is all right

  /** When split s starts, its inputs can be read. */
  lemma InputIsAvailable(sc: Sched, g: Graph, a: seq<int>, c: Cut, tensors: seq<Tensor>, done: seq<nat>, s: nat, t: nat)
    requires Topological(g) && PureNodes(g) && |a| == |g.tensors| && CutOk(sc, g, a, c, |g.nodes|)
             && InputsReady(g, c.splits)
    requires s < |c.splits| && t in c.splits[s].inputs && t < |g.tensors| <= |tensors|
    requires tensors[t].viewSrc == g.tensors[t].viewSrc && tensors[t].op == g.tensors[t].op
    requires c.splits[s].start <= |g.nodes| && forall u :: 0 <= u < |g.tensors| ==>
             (u in done <==> u in g.nodes[..c.splits[s].start])
    ensures Available(g, tensors, done, t) && RootDone(g, done, Root(g, t))
  {
    hide CutOk;
    hide Earlier;
    var k, j := UserOf(sc, g, a, c, s, t);
    assert Readable(g, t, k);
    RootIsDone(g, c, done, s, t);
    if !g.IsView(t) {
      assert Earlier(g, t, k);
      EarlierIsNode(g, t, k);
    }
  }

  lemma EarlierIsNode(g: Graph, t: nat, k: nat)
    requires Earlier(g, t, k)
    ensures t in g.leafs || t in g.nodes
  {
  }

  lemma RootIsDone(g: Graph, c: Cut, done: seq<nat>, s: nat, t: nat)
    requires Topological(g) && PureNodes(g) && InputsReady(g, c.splits)
    requires s < |c.splits| && t in c.splits[s].inputs && t < |g.tensors|
    requires c.splits[s].start <= |g.nodes| && forall u :: 0 <= u < |g.tensors| ==>
             (u in done <==> u in g.nodes[..c.splits[s].start])
    ensures RootDone(g, done, Root(g, t))
  {
    var r := Root(g, t);
    if r in g.nodes {
      var i :| 0 <= i < |g.nodes| && g.nodes[i] == r;
      assert !g.IsView(r);
      assert Real(g, i);
      assert g.nodes[..c.splits[s].start][i] == r;
    }
  }

  lemma BaseTensor(g: Graph, c: Cut, k: Copying, s: nat, p: nat, i: nat, t: nat)
    requires g.IdsOk() && |c.rows| == |g.tensors| && i <= |g.nodes| && At(g, c, k, s, p, i)
    ensures |g.tensors| + |c.copies| <= |k.tensors|
    ensures t < |g.tensors| ==> k.tensors[t] == g.tensors[t].(src := c.rows[t])
    ensures |g.tensors| <= t < |g.tensors| + |c.copies| ==> k.tensors[t] == InputCopy
  {
    if t < |g.tensors| + |c.copies| { assert k.tensors[t] == AfterSplit(g, c)[t]; }
  }

  lemma DoneNodes(g: Graph, c: Cut, k: Copying, s: nat, p: nat, i: nat)
    requires g.IdsOk() && |c.rows| == |g.tensors| && i <= |g.nodes| && At(g, c, k, s, p, i)
    ensures AllOk(g, k) && forall t :: 0 <= t < |g.tensors| ==> (t in k.nodes <==> t in g.nodes[..i])
  {
  }

  /** Everything the construction relies on. */
  ghost predicate Copyable(sc: Sched, g: Graph, a: seq<int>, c: Cut) {
    && Topological(g) && PureNodes(g) && |a| == |g.tensors|
    && CutOk(sc, g, a, c, |g.nodes|) && InputsReady(g, c.splits) && InputsKnown(g, a, c)
  }

  /** Input p of split s. */
  ghost predicate IsInput(g: Graph, c: Cut, s: nat, p: nat, t: nat) {
    && s < |c.splits| && p < |c.splits[s].inputs| && c.splits[s].inputs[p] == t && t < |g.tensors|
    && (t, c.splits[s].backend) in c.copies && c.splits[s].start <= c.splits[s].end <= |g.nodes|
      && |c.rows| == |g.tensors|
  }

  lemma CopyableInput(sc: Sched, g: Graph, a: seq<int>, c: Cut, tensors: seq<Tensor>, done: seq<nat>, s: nat, p: nat,
                      t: nat)
    requires Copyable(sc, g, a, c) && IsInput(g, c, s, p, t) && |g.tensors| <= |tensors|
    requires tensors[t].viewSrc == g.tensors[t].viewSrc && tensors[t].op == g.tensors[t].op
    requires forall u :: 0 <= u < |g.tensors| ==> (u in done <==> u in g.nodes[..c.splits[s].start])
    ensures g.IdsOk() && Available(g, tensors, done, t) && RootDone(g, done, Root(g, t))
  {
    hide CutOk;
    hide Available;
    hide PureNodes;
    hide InputsReady;
    hide Readable;
    InputIsAvailable(sc, g, a, c, tensors, done, s, t);
  }

  /** The dependency in front of split s. */
  lemma DependencyOk(sc: Sched, g: Graph, a: seq<int>, c: Cut, k: Copying, s: nat, p: nat, t: nat, b: int)
    requires Copyable(sc, g, a, c) && g.IdsOk() && IsInput(g, c, s, p, t) && At(g, c, k, s, p, c.splits[s].start)
    ensures LastOk(g, Put(k, [Dependency(g, t)], |k.tensors|, b))
  {
    hide Copyable;
    hide At;
    hide Available;
    BaseTensor(g, c, k, s, p, c.splits[s].start, t);
    DoneNodes(g, c, k, s, p, c.splits[s].start);
    var next := Put(k, [Dependency(g, t)], |k.tensors|, b);
    CopyableInput(sc, g, a, c, next.tensors, k.nodes, s, p, t);
    if |k.tensors| in k.nodes { NodesAreTensors(g, k, |k.tensors|); }
    assert next.nodes[..|k.nodes|] == k.nodes;
  }

  /** A copy is put in front of one split only. */
  lemma CopyIsNew(sc: Sched, g: Graph, a: seq<int>, c: Cut, s: nat, p: nat, t: nat)
    requires Copyable(sc, g, a, c) && IsInput(g, c, s, p, t)
    ensures !CopyOfDone(c, c.copies[(t, c.splits[s].backend)], s, p)
    ensures |g.tensors| <= c.copies[(t, c.splits[s].backend)] < |g.tensors| + |c.copies|
  {
    hide NeedsCopy;
    hide RowsOk;
    hide OnBackend;
    hide FilledInTime;
    hide Tiles;
    hide InputsReady;
    hide PureNodes;
    hide Readable;
    assert InputsOk(sc, g, a, c.copies, c.splits[s]);
    var x := (t, c.splits[s].backend);
    forall r, q | 0 <= r < |c.splits| && 0 <= q < |c.splits[r].inputs| && (r < s || (r == s && q < p))
      ensures (c.splits[r].inputs[q], c.splits[r].backend) != x
    {
      if r < s { assert c.splits[r].inputs[q] in c.splits[r].inputs && t in c.splits[s].inputs; }
    }
  }

  lemma CopyNodeOk(sc: Sched, g: Graph, a: seq<int>, c: Cut, k: Copying, s: nat, p: nat, t: nat, b: int)
    requires g.IdsOk() && Copyable(sc, g, a, c) && IsInput(g, c, s, p, t) && At(g, c, k, s, p, c.splits[s].start)
    ensures LastOk(g, Put(k, [], c.copies[(t, c.splits[s].backend)], b))
  {
    var x := c.copies[(t, c.splits[s].backend)];
    CopyIsNew(sc, g, a, c, s, p, t);
    BaseTensor(g, c, k, s, p, c.splits[s].start, x);
    var next := Put(k, [], x, b);
    CopyNotPresent(g, c, k, s, p, c.splits[s].start, x);
    LeafsAreOld(sc, g, a, c, x);
    assert next.nodes[..|k.nodes|] == k.nodes;
  }

  lemma CopyNotPresent(g: Graph, c: Cut, k: Copying, s: nat, p: nat, i: nat, x: nat)
    requires g.IdsOk() && |c.rows| == |g.tensors| && i <= |g.nodes| && At(g, c, k, s, p, i)
    requires |g.tensors| <= x < |g.tensors| + |c.copies| && !CopyOfDone(c, x, s, p)
    ensures x !in k.nodes
  {
  }

  lemma LeafsAreOld(sc: Sched, g: Graph, a: seq<int>, c: Cut, x: nat)
    requires Copyable(sc, g, a, c) && |g.tensors| <= x
    ensures x !in g.leafs && g.IdsOk()
  {
  }

  // ---- the original nodes

  /** An original source of node i can be read once the nodes before i have run. */
  lemma SourceIsAvailable(g: Graph, tensors: seq<Tensor>, done: seq<nat>, i: nat, t: nat)
    requires Topological(g) && i < |g.nodes| && t in g.Src(i) && t < |g.tensors| <= |tensors|
    requires tensors[t].viewSrc == g.tensors[t].viewSrc && tensors[t].op == g.tensors[t].op
    requires forall u :: 0 <= u < |g.tensors| ==> (u in done <==> u in g.nodes[..i])
    ensures Available(g, tensors, done, t) && t != g.nodes[i]
  {
    var j :| 0 <= j < |g.Src(i)| && g.Src(i)[j] == t;
    assert Readable(g, t, i) && Earlier(g, t, i);
    if g.IsView(t) && Root(g, t) in g.nodes {
      var n :| 0 <= n < |g.nodes| && g.nodes[n] == Root(g, t);
      assert g.nodes[..i][n] == Root(g, t);
    }
    if !g.IsView(t) && t !in g.leafs {
      var n :| 0 <= n < i && n < |g.nodes| && g.nodes[n] == t;
      assert g.nodes[..i][n] == t;
    }
  }

  lemma ViewedIsDone(g: Graph, done: seq<nat>, i: nat)
    requires Topological(g) && i < |g.nodes| && g.IsView(g.nodes[i])
    requires forall u :: 0 <= u < |g.tensors| ==> (u in done <==> u in g.nodes[..i])
    ensures RootDone(g, done, Root(g, g.nodes[i]))
  {
    var r := Root(g, g.nodes[i]);
    if r in g.nodes {
      var n :| 0 <= n < |g.nodes| && g.nodes[n] == r;
      assert g.nodes[..i][n] == r;
    }
  }

  /** Every entry of node i's row is an original source or a copy that is in place. */
  ghost predicate RowReady(g: Graph, c: Cut, nodes: seq<nat>, i: nat)
    requires g.IdsOk() && i < |g.nodes| && |c.rows| == |g.tensors|
  {
    forall j :: 0 <= j < |c.rows[g.nodes[i]]| ==>
      var y := c.rows[g.nodes[i]][j];
      (y < |g.tensors| && y in g.Src(i)) || (|g.tensors| <= y < |g.tensors| + |c.copies| && y in nodes)
  }

  lemma RowIsReady(sc: Sched, g: Graph, a: seq<int>, c: Cut, nodes: seq<nat>, s: nat, i: nat)
    requires Copyable(sc, g, a, c) && g.IdsOk() && |c.rows| == |g.tensors|
    requires s < |c.splits| && c.splits[s].start <= i < c.splits[s].end && i < |g.nodes|
    requires forall r, q :: 0 <= r < |c.splits| && 0 <= q < |c.splits[r].inputs| && r <= s ==> CopyIn(c, nodes, r, q)
    ensures RowReady(g, c, nodes, i)
  {
    hide CutOk;
    hide InputsReady;
    hide PureNodes;
    hide Readable;
    hide Numbered;
    if Real(g, i) {
      CutRuns(sc, g, a, c);
      CutNumbers(sc, g, a, c);
      assert RowOk(g, c, s, i);
      forall j | 0 <= j < |c.rows[g.nodes[i]]|
        ensures var y := c.rows[g.nodes[i]][j];
                (y < |g.tensors| && y in g.Src(i)) || (|g.tensors| <= y < |g.tensors| + |c.copies| && y in nodes)
      {
        if c.rows[g.nodes[i]][j] != g.Src(i)[j] {
          var t, b := g.Src(i)[j], c.splits[s].backend;
          var r :| r <= s && Fills(c.splits, r, t, b);
          var q :| 0 <= q < |c.splits[r].inputs| && c.splits[r].inputs[q] == t;
          assert CopyIn(c, nodes, r, q);
        }
      }
    } else {
      CutRows(sc, g, a, c);
      RowOfView(sc, g, a, c, i);
    }
  }

  lemma CutNumbers(sc: Sched, g: Graph, a: seq<int>, c: Cut)
    requires g.IdsOk() && |a| == |g.tensors| && CutOk(sc, g, a, c, |g.nodes|)
    ensures forall x :: x in c.copies ==> |g.tensors| <= c.copies[x] < |g.tensors| + |c.copies|
  {
  }

  lemma CutRows(sc: Sched, g: Graph, a: seq<int>, c: Cut)
    requires g.IdsOk() && |a| == |g.tensors| && CutOk(sc, g, a, c, |g.nodes|)
    ensures RowsOk(sc, g, a, c, |g.nodes|)
  {
  }

  lemma CopyableGraph(sc: Sched, g: Graph, a: seq<int>, c: Cut)
    requires Copyable(sc, g, a, c)
    ensures Topological(g) && |a| == |g.tensors| == |c.rows| && InputsKnown(g, a, c) && Tiles(c.splits, |g.nodes|)
  {
  }

  lemma NodeIsNew(g: Graph, done: seq<nat>, i: nat)
    requires Topological(g) && i < |g.nodes|
    requires forall u :: 0 <= u < |g.tensors| ==> (u in done <==> u in g.nodes[..i])
    ensures g.nodes[i] !in done && g.nodes[i] !in g.leafs && g.nodes[i] in g.nodes
  {
  }

  lemma OriginalNodeOk(sc: Sched, g: Graph, a: seq<int>, c: Cut, k: Copying, s: nat, i: nat, b: int)
    requires Copyable(sc, g, a, c) && g.IdsOk() && |c.rows| == |g.tensors| && i < |g.nodes|
    requires s < |c.splits| && c.splits[s].start <= i < c.splits[s].end && At(g, c, k, s, |c.splits[s].inputs|, i)
    ensures LastOk(g, Put(k, [], g.nodes[i], b))
  {
    hide Copyable;
    hide Available;
    hide Topological;
    hide AllOk;
    var n := g.nodes[i];
    var next := Put(k, [], n, b);
    CopyableGraph(sc, g, a, c);
    DoneNodes(g, c, k, s, |c.splits[s].inputs|, i);
    BaseTensor(g, c, k, s, |c.splits[s].inputs|, i, n);
    NodeIsNew(g, k.nodes, i);
    if g.IsView(n) { ViewedIsDone(g, k.nodes, i); }
    RowIsReady(sc, g, a, c, k.nodes, s, i);
    assert next.nodes[..|k.nodes|] == k.nodes && next.tensors == k.tensors;
    forall j | 0 <= j < |k.tensors[n].src|
      ensures k.tensors[n].src[j] != n && (Available(g, k.tensors, k.nodes, k.tensors[n].src[j])
                || IsCopy(g, k.tensors, k.nodes, k.tensors[n].src[j]))
    {
      var y := c.rows[n][j];
      BaseTensor(g, c, k, s, |c.splits[s].inputs|, i, y);
      if y < |g.tensors| && y in g.Src(i) { SourceIsAvailable(g, k.tensors, k.nodes, i, y); }
    }
  }

  // ---- the construction

  lemma AtDependency(g: Graph, c: Cut, k: Copying, s: nat, p: nat, i: nat, t: nat, b: int)
    requires g.IdsOk() && |c.rows| == |g.tensors| && i <= |g.nodes| && At(g, c, k, s, p, i)
    requires t < |g.tensors| && LastOk(g, Put(k, [Dependency(g, t)], |k.tensors|, b))
    ensures At(g, c, Put(k, [Dependency(g, t)], |k.tensors|, b), s, p, i)
  {
    hide LastOk;
    hide NodeOk;
    hide CopyOfDone;
    BaseTensor(g, c, k, s, p, i, 0);
    Append(g, k, [Dependency(g, t)], |k.tensors|, b);
    CopiesStayIn(g, c, k, s, p, i, |k.tensors|);
  }

  lemma CopiesStayIn(g: Graph, c: Cut, k: Copying, s: nat, p: nat, i: nat, x: nat)
    requires g.IdsOk() && |c.rows| == |g.tensors| && i <= |g.nodes| && At(g, c, k, s, p, i)
    ensures forall r, q :: 0 <= r < |c.splits| && 0 <= q < |c.splits[r].inputs| && (r < s || (r == s && q < p)) ==>
            CopyIn(c, k.nodes + [x], r, q)
  {
    hide AllOk;
    hide CopyOfDone;
    forall r, q | 0 <= r < |c.splits| && 0 <= q < |c.splits[r].inputs| && (r < s || (r == s && q < p))
      ensures CopyIn(c, k.nodes + [x], r, q)
    {
      assert CopyIn(c, k.nodes, r, q);
    }
  }

  lemma AtCopy(sc: Sched, g: Graph, a: seq<int>, c: Cut, k: Copying, s: nat, p: nat, t: nat, b: int)
    requires g.IdsOk() && Copyable(sc, g, a, c) && IsInput(g, c, s, p, t) && At(g, c, k, s, p, c.splits[s].start)
    requires LastOk(g, Put(k, [], c.copies[(t, c.splits[s].backend)], b))
    ensures At(g, c, Put(k, [], c.copies[(t, c.splits[s].backend)], b), s, p + 1, c.splits[s].start)
  {
    hide LastOk;
    hide NodeOk;
    hide AllOk;
    hide Copyable;
    var x := c.copies[(t, c.splits[s].backend)];
    var next := Put(k, [], x, b);
    CopyIsNew(sc, g, a, c, s, p, t);
    BaseTensor(g, c, k, s, p, c.splits[s].start, x);
    Append(g, k, [], x, b);
    forall r, q | 0 <= r < |c.splits| && 0 <= q < |c.splits[r].inputs| && (r < s || (r == s && q < p + 1))
      ensures CopyIn(c, next.nodes, r, q)
    {
      if !(r == s && q == p) { assert CopyIn(c, k.nodes, r, q); }
    }
    forall y | y in next.nodes && |g.tensors| <= y < |g.tensors| + |c.copies| ensures CopyOfDone(c, y, s, p + 1) {
      if y != x { assert CopyOfDone(c, y, s, p); }
    }
  }

  lemma AtNode(sc: Sched, g: Graph, a: seq<int>, c: Cut, k: Copying, s: nat, p: nat, i: nat, b: int)
    requires g.IdsOk() && |c.rows| == |g.tensors| && i < |g.nodes| && At(g, c, k, s, p, i)
    requires LastOk(g, Put(k, [], g.nodes[i], b))
    ensures At(g, c, Put(k, [], g.nodes[i], b), s, p, i + 1)
  {
    hide LastOk;
    hide NodeOk;
    hide AllOk;
    hide CopyOfDone;
    BaseTensor(g, c, k, s, p, i, 0);
    Append(g, k, [], g.nodes[i], b);
    CopiesStayIn(g, c, k, s, p, i, g.nodes[i]);
    assert g.nodes[..i + 1] == g.nodes[..i] + [g.nodes[i]];
  }

  lemma {:induction false} InputsPut(sc: Sched, g: Graph, a: seq<int>, c: Cut, k: Copying, s: nat, p: nat)
    requires Copyable(sc, g, a, c) && InputsKnown(g, a, c) && s < |c.splits| && p <= |c.splits[s].inputs|
    requires At(g, c, k, s, 0, c.splits[s].start)
    ensures At(g, c, AddInputs(g, a, c, k, s, p), s, p, c.splits[s].start)
  {
    hide At;
    hide Copyable;
    hide LastOk;
    if p > 0 {
      InputsPut(sc, g, a, c, k, s, p - 1);
      var k0 := AddInputs(g, a, c, k, s, p - 1);
      var t, b := c.splits[s].inputs[p - 1], c.splits[s].backend;
      DependencyOk(sc, g, a, c, k0, s, p - 1, t, a[t]);
      AtDependency(g, c, k0, s, p - 1, c.splits[s].start, t, a[t]);
      var k1 := Put(k0, [Dependency(g, t)], |k0.tensors|, a[t]);
      CopyNodeOk(sc, g, a, c, k1, s, p - 1, t, b);
      AtCopy(sc, g, a, c, k1, s, p - 1, t, b);
    }
  }

  lemma {:induction false} NodesPut(sc: Sched, g: Graph, a: seq<int>, c: Cut, k: Copying, s: nat, hi: nat)
    requires Copyable(sc, g, a, c) && InputsKnown(g, a, c) && s < |c.splits|
             && c.splits[s].start <= hi <= c.splits[s].end
    requires At(g, c, k, s, |c.splits[s].inputs|, c.splits[s].start)
    ensures At(g, c, AddNodes(g, a, k, c.splits[s].start, hi), s, |c.splits[s].inputs|, hi)
    decreases hi
  {
    hide At;
    hide Copyable;
    hide LastOk;
    if c.splits[s].start < hi {
      NodesPut(sc, g, a, c, k, s, hi - 1);
      var k0 := AddNodes(g, a, k, c.splits[s].start, hi - 1);
      OriginalNodeOk(sc, g, a, c, k0, s, hi - 1, a[g.nodes[hi - 1]]);
      AtNode(sc, g, a, c, k0, s, |c.splits[s].inputs|, hi - 1, a[g.nodes[hi - 1]]);
    }
  }

  lemma NextSplit(g: Graph, c: Cut, k: Copying, s: nat, i: nat)
    requires g.IdsOk() && |c.rows| == |g.tensors| && i <= |g.nodes| && s < |c.splits|
             && At(g, c, k, s, |c.splits[s].inputs|, i)
    ensures At(g, c, k, s + 1, 0, i)
  {
    hide AllOk;
    forall x | x in k.nodes && |g.tensors| <= x < |g.tensors| + |c.copies| ensures CopyOfDone(c, x, s + 1, 0) {
      assert CopyOfDone(c, x, s, |c.splits[s].inputs|);
    }
  }

  lemma {:induction false} SplitsPut(sc: Sched, g: Graph, a: seq<int>, c: Cut, s: nat)
    requires Copyable(sc, g, a, c) && InputsKnown(g, a, c) && s <= |c.splits|
    ensures At(g, c, CopyUpTo(g, a, c, s), s, 0, if s == 0 then 0 else c.splits[s - 1].end)
  {
    hide Copyable;
    if s > 0 {
      hide At;
      CopyableGraph(sc, g, a, c);
      SplitsPut(sc, g, a, c, s - 1);
      var k := CopyUpTo(g, a, c, s - 1);
      InputsPut(sc, g, a, c, k, s - 1, |c.splits[s - 1].inputs|);
      var k1 := AddInputs(g, a, c, k, s - 1, |c.splits[s - 1].inputs|);
      NodesPut(sc, g, a, c, k1, s - 1, c.splits[s - 1].end);
      NextSplit(g, c, CopyUpTo(g, a, c, s), s - 1, c.splits[s - 1].end);
    }
  }

  // ---- the result

  lemma CopyIdsOk(sc: Sched, g: Graph, a: seq<int>, c: Cut, k: Copying, s: nat)
    requires Copyable(sc, g, a, c) && g.IdsOk() && |c.rows| == |g.tensors| && At(g, c, k, s, 0, |g.nodes|)
    ensures Graph(k.tensors, k.nodes, g.leafs).IdsOk()
  {
    hide CopyIn;
    hide CopyOfDone;
    hide Available;
    hide PureNodes;
    hide InputsReady;
    hide CutOk;
    hide Readable;
    CutRows(sc, g, a, c);
    forall t, j | 0 <= t < |k.tensors| && 0 <= j < |k.tensors[t].src| ensures k.tensors[t].src[j] < |k.tensors| {
      BaseTensor(g, c, k, s, 0, |g.nodes|, t);
      if t < |g.tensors| {
        CutFits(sc, g, a, c, seq(|g.tensors| + |c.copies|, _ => 0));
        RowBelongs(sc, g, a, c, t);
      }
    }
    forall t | 0 <= t < |k.tensors| && k.tensors[t].viewSrc.Some? ensures k.tensors[t].viewSrc.value < |k.tensors| {
      BaseTensor(g, c, k, s, 0, |g.nodes|, t);
    }
    forall i | 0 <= i < |k.nodes| ensures k.nodes[i] < |k.tensors| { NodesAreTensors(g, k, k.nodes[i]); }
    BaseTensor(g, c, k, s, 0, |g.nodes|, 0);
  }

  /** The row of a tensor is the row of a node, or the original sources. */
  lemma RowBelongs(sc: Sched, g: Graph, a: seq<int>, c: Cut, t: nat)
    requires g.IdsOk() && |a| == |g.tensors| && RowsOk(sc, g, a, c, |g.nodes|) && t < |g.tensors|
    ensures c.rows[t] == g.tensors[t].src || exists k :: 0 <= k < |g.nodes| && g.nodes[k] == t
  {
  }

  /** What a finished construction says about the graph copy h. */
  ghost predicate Finished(g: Graph, h: Graph)
  {
    && g.IdsOk() && h.IdsOk() && |g.tensors| <= |h.tensors| && h.leafs == g.leafs
    && (forall i :: 0 <= i < |h.nodes| ==> NodeOk(g, h.tensors, h.nodes, i))
    && (forall t :: 0 <= t < |g.tensors| ==>
        (t in h.nodes <==> t in g.nodes) && SameButSources(g.tensors[t], h.tensors[t]))
    && (forall t :: |g.tensors| <= t < |h.tensors| ==> h.tensors[t] == InputCopy || IsDependency(g, h.tensors[t]))
  }

  predicate SameButSources(x: Tensor, y: Tensor) {
    y == x.(src := y.src)
  }

  lemma DistinctPrefix(g: Graph, h: Graph, i: int, j: int)
    requires Finished(g, h) && 0 <= i < j < |h.nodes|
    ensures h.nodes[i] != h.nodes[j]
  {
    assert NodeOk(g, h.tensors, h.nodes, j);
    assert h.nodes[..j][i] == h.nodes[i];
  }

  /** A root that is done before node k is no node from k on. */
  lemma RootDoneMeans(g: Graph, h: Graph, k: nat, r: nat, i: nat)
    requires Finished(g, h) && k <= i < |h.nodes| && RootDone(g, h.nodes[..k], r)
    ensures h.nodes[i] != r
  {
    if r in h.nodes[..k] {
      var n :| 0 <= n < k && h.nodes[..k][n] == r;
      DistinctPrefix(g, h, n, i);
    }
  }

  lemma SourceReadable(g: Graph, h: Graph, k: nat, t: nat)
    requires Finished(g, h) && k < |h.nodes| && t in h.Src(k) && t < |h.tensors|
    ensures Readable(h, t, k) && t != h.nodes[k]
  {
    hide IsDependency;
    assert NodeOk(g, h.tensors, h.nodes, k);
    var j :| 0 <= j < |h.Src(k)| && h.Src(k)[j] == t;
    var done := h.nodes[..k];
    if h.tensors[t].viewSrc.Some? {
      assert Available(g, h.tensors, done, t);
      forall i | k <= i < |h.nodes|
        ensures h.nodes[i] != h.tensors[t].viewSrc.value { RootDoneMeans(g, h, k, h.tensors[t].viewSrc.value, i); }
    } else if t in done {
      var n :| 0 <= n < k && done[n] == t;
      assert h.nodes[n] == t;
    }
  }

  lemma ViewsOfFinished(g: Graph, h: Graph, t: nat)
    requires Topological(g) && Finished(g, h) && t < |h.tensors| && h.IsView(t)
    ensures !h.IsView(h.tensors[t].viewSrc.value)
  {
    hide NodeOk;
    hide Readable;
    hide Earlier;
    if t < |g.tensors| {
      assert SameButSources(g.tensors[t], h.tensors[t]);
      var r := g.tensors[t].viewSrc.value;
      assert SameButSources(g.tensors[r], h.tensors[r]);
    } else {
      assert IsDependency(g, h.tensors[t]);
      var u: nat :| u < |g.tensors| && h.tensors[t] == Dependency(g, u);
      var r := Root(g, u);
      assert SameButSources(g.tensors[r], h.tensors[r]);
    }
  }

  lemma ViewAfterRoot(g: Graph, h: Graph, k: nat, i: nat)
    requires Finished(g, h) && k < |h.nodes| && i < |h.nodes| && h.tensors[h.nodes[k]].viewSrc == Some(h.nodes[i])
    ensures i < k
  {
    assert NodeOk(g, h.tensors, h.nodes, k);
    if k <= i { RootDoneMeans(g, h, k, h.nodes[i], i); }
  }

  lemma FinishedIsOrdered(g: Graph, h: Graph)
    requires Topological(g) && Finished(g, h)
    ensures Ordered(h)
  {
    hide NodeOk;
    hide Readable;
    hide IsDependency;
    forall i, j | 0 <= i < j < |h.nodes| ensures h.nodes[i] != h.nodes[j] { DistinctPrefix(g, h, i, j); }
    forall k | 0 <= k < |h.nodes| ensures h.nodes[k] !in h.leafs { NotLeaf(g, h, k); }
    forall k, j | 0 <= k < |h.nodes| && 0 <= j < |h.Src(k)|
      ensures Readable(h, h.Src(k)[j], k) && h.Src(k)[j] != h.nodes[k]
    {
      SourceReadable(g, h, k, h.Src(k)[j]);
    }
    forall t | 0 <= t < |h.tensors| && h.IsView(t)
      ensures !h.IsView(h.tensors[t].viewSrc.value) { ViewsOfFinished(g, h, t); }
    forall k, i | 0 <= k < |h.nodes| && 0 <= i < |h.nodes| && h.tensors[h.nodes[k]].viewSrc == Some(h.nodes[i])
      ensures i < k { ViewAfterRoot(g, h, k, i); }
    forall k | 0 <= k < |h.leafs|
      ensures h.tensors[h.leafs[k]].op == NONE { assert SameButSources(g.tensors[h.leafs[k]], h.tensors[h.leafs[k]]); }
    forall t | 0 <= t < |h.tensors| && h.tensors[t].input
      ensures !CanInplace(h.tensors[t].op) { InputsStayInputs(g, h, t); }
  }

  lemma NotLeaf(g: Graph, h: Graph, k: nat)
    requires Finished(g, h) && k < |h.nodes|
    ensures h.nodes[k] !in h.leafs
  {
    assert NodeOk(g, h.tensors, h.nodes, k);
  }

  lemma InputsStayInputs(g: Graph, h: Graph, t: nat)
    requires Topological(g) && Finished(g, h) && t < |h.tensors| && h.tensors[t].input
    ensures !CanInplace(h.tensors[t].op)
  {
    hide NodeOk;
    hide Readable;
    if t < |g.tensors| {
      assert SameButSources(g.tensors[t], h.tensors[t]);
    }
  }

  /** The graph copy of a finished cut meets everything the planner requires of its callers. */
  lemma GraphCopyIsOrdered(sc: Sched, g: Graph, a: seq<int>, c: Cut)
    requires Copyable(sc, g, a, c)
    ensures InputsKnown(g, a, c) && Finished(g, GraphCopy(g, a, c)) && Ordered(GraphCopy(g, a, c))
  {
    hide *;
    CopyIsFinished(sc, g, a, c);
    CopyableGraph(sc, g, a, c);
    FinishedIsOrdered(g, GraphCopy(g, a, c));
  }

  lemma CopyIsFinished(sc: Sched, g: Graph, a: seq<int>, c: Cut)
    requires Copyable(sc, g, a, c)
    ensures InputsKnown(g, a, c) && Finished(g, GraphCopy(g, a, c))
  {
    hide NodeOk;
    hide Readable;
    hide IsDependency;
    hide CopyIn;
    hide CopyOfDone;
    CopyableGraph(sc, g, a, c);
    hide Copyable;
    var n := |c.splits|;
    var h := GraphCopy(g, a, c);
    SplitsPut(sc, g, a, c, n);
    var k := CopyUpTo(g, a, c, n);
    CopyIdsOk(sc, g, a, c, k, n);
    BaseTensor(g, c, k, n, 0, |g.nodes|, 0);
    assert g.nodes[..|g.nodes|] == g.nodes;
    forall t | 0 <= t < |g.tensors|
      ensures SameButSources(g.tensors[t], h.tensors[t]) { BaseTensor(g, c, k, n, 0, |g.nodes|, t); }
    forall t | |g.tensors| <= t < |h.tensors|
      ensures h.tensors[t] == InputCopy || IsDependency(g, h.tensors[t]) { BaseTensor(g, c, k, n, 0, |g.nodes|, t); }
  }
}
