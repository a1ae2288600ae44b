/** From the user's pins to the run: when the splits of a scheduled graph compute what the graph means. */
module SchedWhole {
  import opened Wrappers
  import opened TensorGraph
  import opened SchedModel
  import opened SchedAssign
  import opened SchedFinish
  import SchedUpgrade
  import opened SchedSplit
  import opened SchedCut
  import opened SchedRun
  import opened SchedReady
  import opened SchedGraphCopy

  /** Nothing places a node that views another node: the user did not pin it, it is no graph input, what it views has no
      buffer yet, and none of its sources is in a weight buffer. All of this is known before the scheduler is called. */
  ghost predicate ViewsUnplaced(sc: Sched, g: Graph, pins: seq<int>)
    requires g.IdsOk() && |pins| == |g.tensors|
  {
    forall k :: 0 <= k < |g.nodes| && g.IsView(g.nodes[k]) && Root(g, g.nodes[k]) in g.nodes ==>
      Unplaced(sc, g, pins, g.nodes[k])
  }

  ghost predicate Unplaced(sc: Sched, g: Graph, pins: seq<int>, t: nat)
    requires g.IdsOk() && |pins| == |g.tensors| && t < |pins|
  {
    && pins[t] == UNASSIGNED && !g.tensors[t].input && sc.buffer(t).None? && sc.buffer(Root(g, t)).None?
    && forall j :: 0 <= j < |g.tensors[t].src| ==> !IsWeight(sc, g.tensors[t].src[j])
  }

  lemma {:induction false} NoWeightsNoGuess(sc: Sched, g: Graph, t: nat, i: nat)
    requires g.IdsOk() && t < |g.tensors| && i <= |g.tensors[t].src|
    requires forall j :: 0 <= j < |g.tensors[t].src| ==> !IsWeight(sc, g.tensors[t].src[j])
    ensures FromWeights(sc, g, t, i) == UNASSIGNED
    decreases |g.tensors[t].src| - i
  {
    if i < |g.tensors[t].src| { NoWeightsNoGuess(sc, g, t, i + 1); }
  }

  /** Pass 1 makes no guess for an unplaced view. */
  lemma UnplacedStaysUnassigned(sc: Sched, g: Graph, pins: seq<int>, first: seq<int>, t: nat)
    requires Topological(g) && |pins| == |g.tensors| == |first| && t in g.nodes && t < |pins| && g.IsView(t)
    requires Guessed(sc, g, pins, first) && Unplaced(sc, g, pins, t)
    ensures first[t] == UNASSIGNED
  {
    NoWeightsNoGuess(sc, g, t, 0);
  }

  lemma UnplacedViewsFollow(sc: Sched, g: Graph, pins: seq<int>, first: seq<int>, final: seq<int>)
    requires Topological(g) && PureNodes(g) && Assignment(sc, g, pins) && |first| == |pins| == |final|
    requires Guessed(sc, g, pins, first) && WellAssigned(sc, g, pins, first, final) && ViewsUnplaced(sc, g, pins)
    ensures ViewsFollow(g, final)
  {
    hide Guessed;
    hide Unplaced;
    hide Readable;
    forall k | 0 <= k < |g.nodes| && g.IsView(g.nodes[k]) && Root(g, g.nodes[k]) in g.nodes
      ensures final[g.nodes[k]] == final[Root(g, g.nodes[k])]
    {
      UnplacedStaysUnassigned(sc, g, pins, first, g.nodes[k]);
    }
  }

  /** What a caller of the scheduler can rely on: if nothing places the views, the cut is one whose inputs are ready. */
  lemma UnplacedViewsAreReady(sc: Sched, g: Graph, pins: seq<int>, first: seq<int>, final: seq<int>, c: Cut)
    requires Topological(g) && PureNodes(g) && Assignment(sc, g, pins) && |first| == |pins| == |final|
    requires Guessed(sc, g, pins, first) && WellAssigned(sc, g, pins, first, final) && ViewsUnplaced(sc, g, pins)
    requires CutOk(sc, g, final, c, |g.nodes|)
    ensures InputsReady(g, c.splits) && Copyable(sc, g, final, c)
  {
    hide CutOk;
    hide Guessed;
    hide WellAssigned;
    hide PureNodes;
    hide Readable;
    UnplacedViewsFollow(sc, g, pins, first, final);
    FollowingViewsAreReady(sc, g, final, c);
    var mem := Initial(Free(), |g.tensors| + |c.copies|);
    CutFits(sc, g, final, c, mem);
    FitsByLength(g, c, mem, mem);
    CutHasRows(sc, g, final, c);
  }

  lemma CutHasRows(sc: Sched, g: Graph, a: seq<int>, c: Cut)
    requires g.IdsOk() && |a| == |g.tensors| && CutOk(sc, g, a, c, |g.nodes|)
    ensures |c.rows| == |g.tensors|
  {
    RowsLength(sc, g, a, c);
  }

  /** The three calls of the scheduler in sequence: assign, cut, run. Where nothing places the views, every tensor ends
      up with the value of the original graph, whatever the operations compute. */
  lemma ScheduledRunIsCorrect<V>(m: Meaning<V>, sc: Sched, g: Graph, pins: seq<int>, first: seq<int>, final: seq<int>,
                                 c: Cut,
                                 init: seq<V>, init': seq<V>, t: nat)
    requires Topological(g) && PureNodes(g) && Assignment(sc, g, pins) && |first| == |pins| == |final|
    requires Guessed(sc, g, pins, first) && WellAssigned(sc, g, pins, first, final) && ViewsUnplaced(sc, g, pins)
    requires CutOk(sc, g, final, c, |g.nodes|)
    requires SameTensors(g, init, init') && |init'| == |g.tensors| + |c.copies| && t < |g.tensors|
    ensures Fits(g, c, init')
    ensures Read(m, g, RunSplits(m, g, c, init', |c.splits|), t) == Read(m, g, InOrder(m, g, init, |g.nodes|), t)
  {
    hide CutOk;
    hide Guessed;
    hide WellAssigned;
    hide ViewsUnplaced;
    hide Copyable;
    hide PureNodes;
    hide Readable;
    UnplacedViewsAreReady(sc, g, pins, first, final, c);
    SplitsPreserveMeaning(m, sc, g, final, c, init, init', t);
  }

  /** ggml_backend_sched_split_graph up to the graph copy. Where nothing places the views, the cut that comes out can be
      copied, planned and run. */
  method Schedule(sc: Sched, g: Graph, bid: array<int>, stale: int, rows: array<seq<nat>>)
    returns (ok: bool, c: Cut, ghost first: seq<int>)
    requires Topological(g) && PureNodes(g) && bid.Length == |g.tensors| == rows.Length && Assignment(sc, g, bid[..])
    requires forall t :: 0 <= t < rows.Length ==> rows[t] == g.tensors[t].src
    modifies bid, rows
    ensures ok ==> |first| == |g.tensors| && Guessed(sc, g, old(bid[..]), first)
    ensures ok ==> WellAssigned(sc, g, old(bid[..]), first, bid[..])
    ensures ok ==> CutOk(sc, g, bid[..], c, |g.nodes|) && Boundaries(sc, g, bid[..], c.splits)
    ensures ok && ViewsUnplaced(sc, g, old(bid[..])) ==> Copyable(sc, g, bid[..], c)
  {
    hide CutOk;
    hide Boundaries;
    hide Guessed;
    hide WellAssigned;
    hide SchedUpgrade.Upgraded;
    hide CompleteTo;
    hide Pass2;
    hide ViewsUnplaced;
    hide Copyable;
    hide PureNodes;
    hide Readable;
    ghost var pins := bid[..];
    c := Cut([], map[], []);
    ghost var third;
    ok, first, third := AssignBackends(sc, g, bid);
    if !ok { return; }
    var splits: seq<Split>, copies: Copies;
    ok, splits, copies := SplitGraph(sc, g, bid[..], stale, rows);
    if !ok { return; }
    c := Cut(splits, copies, rows[..]);
    if ViewsUnplaced(sc, g, pins) { UnplacedViewsAreReady(sc, g, pins, first, bid[..], c); }
  }

  // ---------------------------------------------------------------- a pinned view

  /** Node 2 reads a view of node 0; the view is node 1. */
  const PINNED_VIEW := Graph([Tensor(OTHER(0), false, false, [], None, false),
    Tensor(VIEW, false, false, [0], Some(0), false),
                              Tensor(OTHER(1), false, false, [1], None, false)], [0, 1, 2], [])

  /** Two backends that run everything, each with a buffer type of its own that the other cannot use. */
  const TWO_BACKENDS := Sched([0, 1], (_, _) => true, (b, buft) => b == buft, (_, _) => false, false, _ => None)

  /** The view is pinned to backend 1, the other nodes to backend 0. */
  const VIEW_ELSEWHERE: seq<int> := [0, 1, 0]

  /** One split on backend 0, which starts by copying the view. */
  function OneSplit(): Cut {
    Cut([Split(0, 0, 3, [1])], map[(1, 0) := 3], [[], [0], [3]])
  }

  ghost predicate ViewPinned(g: Graph, sc: Sched, a: seq<int>) {
    && |g.tensors| == 3 && g.nodes == [0, 1, 2] && g.leafs == []
    && g.tensors[0] == Tensor(OTHER(0), false, false, [], None, false)
    && g.tensors[1] == Tensor(VIEW, false, false, [0], Some(0), false)
    && g.tensors[2] == Tensor(OTHER(1), false, false, [1], None, false)
    && sc.bufts == [0, 1] && (forall b: nat, t: nat :: sc.supportsOp(b, t))
    && (forall b: nat, u: nat :: sc.supportsBuft(b, u) <==> b == u) && (forall t: nat :: sc.buffer(t) == None)
    && a == [0, 1, 0]
  }

  lemma PinnedSources(g: Graph, sc: Sched, a: seq<int>)
    requires ViewPinned(g, sc, a)
    ensures g.IdsOk() && g.Src(0) == [] && g.Src(1) == [0] && g.Src(2) == [1]
    ensures PureNodes(g) && Assignment(sc, g, a)
  {
    assert g.IdsOk();
    assert g.Src(0) == [] && g.Src(1) == [0] && g.Src(2) == [1];
  }

  lemma PinnedReadable(g: Graph, sc: Sched, a: seq<int>)
    requires ViewPinned(g, sc, a) && g.IdsOk()
    ensures Readable(g, 0, 1) && Earlier(g, 0, 1) && Readable(g, 1, 2) && Earlier(g, 1, 2)
  {
    assert g.NodeBefore(0, 1) by { assert g.nodes[0] == 0; }
    assert g.NodeBefore(1, 2) by { assert g.nodes[1] == 1; }
    assert CountedView(g, 1) by { assert g.nodes[1] == 1; }
  }

  lemma PinnedGraph(g: Graph, sc: Sched, a: seq<int>)
    requires ViewPinned(g, sc, a) && g.IdsOk() && g.Src(0) == [] && g.Src(1) == [0] && g.Src(2) == [1]
    ensures Topological(g)
  {
    hide Readable;
    hide Earlier;
    PinnedReadable(g, sc, a);
    forall k, j | 0 <= k < |g.nodes| && 0 <= j < |g.Src(k)|
      ensures Readable(g, g.Src(k)[j], k) && Earlier(g, g.Src(k)[j], k) && g.Src(k)[j] != g.nodes[k]
    {
      assert k == 0 || k == 1 || k == 2;
    }
  }

  lemma PinsStay(g: Graph, sc: Sched, a: seq<int>)
    requires ViewPinned(g, sc, a) && g.IdsOk() && Assignment(sc, g, a)
    ensures Guessed(sc, g, a, a) && WellAssigned(sc, g, a, a, a)
  {
  }

  lemma PinnedNeeds(g: Graph, sc: Sched, a: seq<int>)
    requires ViewPinned(g, sc, a) && g.IdsOk()
    ensures NeedsCopy(sc, g, a, 1, 0) && !NeedsCopy(sc, g, a, 0, 0)
  {
  }

  lemma PinnedRows(g: Graph, sc: Sched, a: seq<int>)
    requires ViewPinned(g, sc, a) && g.IdsOk() && g.Src(0) == [] && g.Src(1) == [0] && g.Src(2) == [1]
    ensures RowsOk(sc, g, a, OneSplit(), |g.nodes|)
  {
    PinnedNeeds(g, sc, a);
    hide NeedsCopy;
    assert RealBefore(g, 0, 3) by { assert g.nodes[0] == 0 && Real(g, 0); }
    assert RealBefore(g, 2, 3) by { assert g.nodes[2] == 2 && Real(g, 2); }
  }

  lemma PinnedInputs(g: Graph, sc: Sched, a: seq<int>)
    requires ViewPinned(g, sc, a) && g.IdsOk() && g.Src(0) == [] && g.Src(1) == [0] && g.Src(2) == [1]
    ensures InputsOk(sc, g, a, OneSplit().copies, OneSplit().splits[0])
    ensures Fills(OneSplit().splits, 0, 1, 0) && FilledSomewhere(OneSplit().splits, 1, 0)
    ensures FilledInTime(sc, g, a, OneSplit().splits, 0) && FilledInTime(sc, g, a, OneSplit().splits, 2)
  {
    var c := OneSplit();
    PinnedNeeds(g, sc, a);
    hide NeedsCopy;
    assert c.splits[0].inputs[0] == 1;
    assert Fills(c.splits, 0, 1, 0);
    assert UsedIn(g, c.splits[0], 1) by { assert g.Src(2)[0] == 1 && 1 in g.Src(2) && Real(g, 2); }
  }

  lemma PinnedCut(g: Graph, sc: Sched, a: seq<int>)
    requires ViewPinned(g, sc, a) && g.IdsOk() && g.Src(0) == [] && g.Src(1) == [0] && g.Src(2) == [1]
    ensures CutOk(sc, g, a, OneSplit(), |g.nodes|)
  {
    PinnedRows(g, sc, a);
    PinnedInputs(g, sc, a);
    hide RowsOk;
    hide InputsOk;
    hide FilledInTime;
    hide FilledSomewhere;
  }

  lemma PinnedBoundaries(g: Graph, sc: Sched, a: seq<int>)
    requires ViewPinned(g, sc, a) && g.IdsOk()
    ensures Boundaries(sc, g, a, OneSplit().splits)
  {
    assert forall t :: 0 <= t ==> !IsWeight(sc, t);
  }

  lemma PinnedNotReady(g: Graph, sc: Sched, a: seq<int>)
    requires ViewPinned(g, sc, a) && g.IdsOk()
    ensures !InputsReady(g, OneSplit().splits)
  {
    var c := OneSplit();
    assert 1 in c.splits[0].inputs;
    assert Real(g, 0) && g.nodes[0] == Root(g, 1);
  }

  /** The condition on the views is needed: with the view pinned to another backend, assignment and cut are as the
      passes promise, but the view is copied before the node it views has run, and the splits compute something else. */
  lemma PinnedViewBreaksTheRun()
    ensures var g, sc, pins, c := PINNED_VIEW, TWO_BACKENDS, VIEW_ELSEWHERE, OneSplit();
            && Topological(g) && PureNodes(g) && Assignment(sc, g, pins) && |pins| == |g.tensors|
            && Guessed(sc, g, pins, pins) && WellAssigned(sc, g, pins, pins, pins)
            && CutOk(sc, g, pins, c, |g.nodes|) && Boundaries(sc, g, pins, c.splits)
            && !InputsReady(g, c.splits)
            && Fits(g, c, Initial(Free(), |g.tensors| + |c.copies|)) && !SameTerms(g, c)
  {
    hide Topological;
    hide PureNodes;
    hide Guessed;
    hide WellAssigned;
    hide CutOk;
    hide InputsReady;
    hide SameTerms;
    hide Fits;
    var g, sc, pins := PINNED_VIEW, TWO_BACKENDS, VIEW_ELSEWHERE;
    assert ViewPinned(g, sc, pins);
    PinnedSources(g, sc, pins);
    PinnedGraph(g, sc, pins);
    PinsStay(g, sc, pins);
    PinnedCut(g, sc, pins);
    PinnedBoundaries(g, sc, pins);
    hide Boundaries;
    PinnedNotReady(g, sc, pins);
    MeaningExactlyWhenReady(sc, g, pins, OneSplit());
  }
}
