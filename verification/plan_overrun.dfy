/** The gap in the reuse check on a concrete graph: an unread leaf that grew reaches over a node (see PlanReuse). */
module PlanOverrun {
  import opened Wrappers
  import opened Alignment
  import opened FreeList
  import opened TensorAlloc
  import opened TensorGraph
  import opened Planner
  import PlannerMemory
  import opened PlannerOwners
  import opened PlanSafety
  import opened PlanReuse

  /** Leaf 0 is an output that nobody reads; node 2 reads leaf 1. */
  const THREE_TENSORS := Graph([Tensor(NONE, false, true, [], None, false), Tensor(NONE, false, false, [], None, false),
                               Tensor(OTHER(0), false, false, [1], None, false)], [2], [0, 1])

  /** One buffer, alignment 1, sixteen bytes for every tensor. */
  const SIXTEENS := Config([0], [1], (_, _) => 16, (_, _) => false, _ => false)

  /** The same with forty bytes for leaf 0. */
  const LEAF_GREW := SIXTEENS.(size := (_, t) => if t == 0 then 40 else 16)

  function ThreeSlots(): Tables {
    var x, y, z := At(0, Address(0, 0), 16), At(0, Address(0, 16), 16), At(0, Address(0, 32), 16);
    Tables([x, y], [z], [[y]])
  }

  /** The allocator after the first n bytes of its only chunk were handed out in order. */
  function RowOf(n: nat): Talloc
    requires n < 1000
  {
    Talloc(1, 1000, if n == 0 then [] else [Chunk([Block(n, 1000 - n)], n, 1000)])
  }

  lemma EmptyRow()
    ensures RowOf(0) == Talloc(1, 1000, [])
  {
  }

  lemma NextInRow(n: nat)
    requires n <= 900
    ensures Alloc(RowOf(n), 16) == Some((RowOf(n + 16), Address(0, n)))
  {
    var t := RowOf(n);
    assert AlignUp(16, 1) == 16;
    if n == 0 {
      assert WithNewChunk(t, 16) == Talloc(1, 1000, [Chunk([Block(0, 1000)], 0, 1000)]);
      assert FindPlace(t, 16) == Some(Place(WithNewChunk(t, 16), 0, 0));
      assert Carve([Block(0, 1000)], 0, 16) == [Block(16, 984)];
      assert TakeFrom(WithNewChunk(t, 16), 0, 0, 16) == RowOf(16);
    } else {
      assert FitSearch(t.chunks, 16, 0).chunk == -1;
      assert BestIn(t.chunks[0].blocks, 16, 0) == -1;
      assert TailSearch(t.chunks, 16, 0) == TailChoice(-1, INT64_MIN);
      assert TailSearch(t.chunks, 16, 1).chunk == 0;
      assert FindPlace(t, 16) == Some(Place(t, 0, 0));
      assert Carve(t.chunks[0].blocks, 0, 16) == [Block(n + 16, 1000 - (n + 16))];
      assert TakeFrom(t, 0, 0, 16) == RowOf(n + 16);
    }
  }

  /** A hash value of a tensor at its place in the row. */
  function InRow(t: nat, children: int, owned: bool): HashNode {
    HashNode(children, 0, 0, Address(0, 16 * t), owned)
  }

  /** The state in which the first n / 16 requests were served in order. */
  ghost predicate RowState(s: State, n: nat) {
    && |s.hv| == 3 && n <= 900 && s.pools == [RowOf(n)]
    && forall u :: 0 <= u < 3 ==> s.hv[u].bufferId == 0 && s.hv[u].addr.chunk == 0 && (s.hv[u].owned ==> n > 0)
  }

  lemma RowShape(s: State, n: nat)
    requires RowState(s, n)
    ensures Shape(THREE_TENSORS, SIXTEENS, s) && PoolOf(SIXTEENS, 0) == 0
  {
    assert forall buf, t :: 0 <= buf < 1 && 0 <= t ==> Request(SIXTEENS, buf, t) == 16;
  }

  /** An unowned tensor gets the next bytes of the row. */
  lemma AllocatedInRow(s: State, n: nat, t: nat)
    requires RowState(s, n) && n <= 800 && t < 3 && !s.hv[t].owned
    ensures Shape(THREE_TENSORS, SIXTEENS, s)
    ensures AllocateNode(THREE_TENSORS, SIXTEENS, s, t, 0) ==
            Some(State(s.hv[t := s.hv[t].(owned := true, bufferId := 0, addr := Address(0, n))], [RowOf(n + 16)]))
  {
    hide Alloc;
    RowShape(s, n);
    NextInRow(n);
    assert s.pools[0 := RowOf(n + 16)] == [RowOf(n + 16)];
    assert AllocFresh(THREE_TENSORS, SIXTEENS, s, t, 0) ==
           Some(State(s.hv[t := s.hv[t].(owned := true, bufferId := 0, addr := Address(0, n))], [RowOf(n + 16)]));
  }

  function AfterLeafs(): State {
    State([InRow(0, 0, true), InRow(1, 0, true), FreshNode], [RowOf(32)])
  }

  function AfterCounting(): State {
    State([InRow(0, 0, true), InRow(1, 1, true), FreshNode], [RowOf(32)])
  }

  lemma LeafsInRow(s: State)
    requires RowState(s, 0) && s.hv == [FreshNode, FreshNode, FreshNode]
    ensures Shape(THREE_TENSORS, SIXTEENS, s)
    ensures AllocLeafs(THREE_TENSORS, SIXTEENS, [0, 0], s, 0) == Some(AfterLeafs())
  {
    hide AllocateNode;
    hide Shape;
    hide CfgOk;
    hide RowOf;
    var g, cfg := THREE_TENSORS, SIXTEENS;
    RowShape(s, 0);
    AllocatedInRow(s, 0, 0);
    var s1 := State([InRow(0, 0, true), FreshNode, FreshNode], [RowOf(16)]);
    assert s.hv[0 := InRow(0, 0, true)] == s1.hv;
    AllocatedInRow(s1, 16, 1);
    assert s1.hv[1 := InRow(1, 0, true)] == AfterLeafs().hv;
    RowShape(AfterLeafs(), 32);
    assert AllocLeafs(g, cfg, [0, 0], AfterLeafs(), 2) == Some(AfterLeafs());
    assert AllocLeafs(g, cfg, [0, 0], s1, 1) == Some(AfterLeafs());
  }

  lemma CountedInRow()
    ensures CfgOk(SIXTEENS) && Counted(THREE_TENSORS, SIXTEENS, [1000], [0], [0, 0]) == Some(AfterCounting())
  {
    hide AllocateNode;
    hide Shape;
    hide RowOf;
    var g, cfg, s, c := THREE_TENSORS, SIXTEENS, AfterLeafs(), AfterCounting();
    var s0 := InitState(g, cfg, [1000]);
    assert s0.hv == [FreshNode, FreshNode, FreshNode];
    EmptyRow();
    assert s0.pools == [RowOf(0)];
    LeafsInRow(s0);
    RowShape(s, 32);
    RowShape(c, 32);
    assert g.Src(0) == [1];
    assert AddChildren(s.hv, 1, 1) == c.hv;
    assert CountSources(g, cfg, 0, c, 0, 1) == Some(c);
    assert CountSources(g, cfg, 0, s, 0, 0) == Some(c);
    assert CountNode(g, cfg, 0, s, 0) == Some(c);
    assert CountAll(g, cfg, [0], c, 1) == Some(c);
  }

  lemma OwnedStays(s: State, t: nat)
    requires RowState(s, 32) && t < 3 && s.hv[t].owned
    ensures Shape(THREE_TENSORS, SIXTEENS, s) && AllocateNode(THREE_TENSORS, SIXTEENS, s, t, 0) == Some(s)
  {
    RowShape(s, 32);
  }

  lemma ParentsInRow(s: State)
    requires RowState(s, 32) && s.hv[1].owned
    ensures Shape(THREE_TENSORS, SIXTEENS, s) && AllocParents(THREE_TENSORS, SIXTEENS, 0, s, 0, 0) == Some(s)
  {
    hide AllocateNode;
    hide Shape;
    hide RowOf;
    var g := THREE_TENSORS;
    OwnedStays(s, 1);
    assert g.Src(0) == [1];
    assert AllocParents(g, SIXTEENS, 0, s, 0, 1) == Some(s);
  }

  /** Node 2 is placed after the leafs. */
  lemma StepInRow()
    ensures var g, cfg, s := THREE_TENSORS, SIXTEENS, AfterCounting();
            Shape(g, cfg, s) &&
            Prepare(g, cfg, 0, s, 0)
              == Some(State([InRow(0, 0, true), InRow(1, 1, true), InRow(2, 0, true)], [RowOf(48)]))
  {
    hide AllocateNode;
    hide AllocParents;
    hide Shape;
    hide RowOf;
    var s := AfterCounting();
    ParentsInRow(s);
    AllocatedInRow(s, 32, 2);
    assert s.hv[2 := InRow(2, 0, true)] == [InRow(0, 0, true), InRow(1, 1, true), InRow(2, 0, true)];
  }

  /** Leaf 1 is freed once node 2 has read it. */
  lemma FreedInRow(m: State)
    requires m == State([InRow(0, 0, true), InRow(1, 1, true), InRow(2, 0, true)], [RowOf(48)])
    ensures Shape(THREE_TENSORS, SIXTEENS, m)
    ensures var r := UpdateParents(THREE_TENSORS, SIXTEENS, m, 0, 0);
            r.Some? && r.value.hv == [InRow(0, 0, true), InRow(1, 0, false), InRow(2, 0, true)]
  {
    hide Release;
    hide CfgOk;
    hide Shape;
    var g, cfg := THREE_TENSORS, SIXTEENS;
    RowShape(m, 48);
    FreesInRow();
    var s1 := m.(hv := AddChildren(m.hv, 1, -1));
    RowShape(s1, 48);
    assert FreeNode(g, cfg, s1, 1).Some?;
    assert UpdateParent(g, cfg, m, 1) == FreeNode(g, cfg, s1, 1);
    assert g.Src(0) == [1];
    var r := UpdateParent(g, cfg, m, 1).value;
    assert UpdateParents(g, cfg, r, 0, 1) == Some(r);
    assert r.hv == [InRow(0, 0, true), InRow(1, 0, false), InRow(2, 0, true)];
  }

  lemma FreesInRow()
    ensures FreeBytes(RowOf(48), Address(0, 16), 16).Some?
  {
    assert AlignUp(16, 1) == 16;
    assert |RowOf(48).chunks[0].blocks| == 1;
  }

  lemma PlannedInRow()
    ensures CfgOk(SIXTEENS)
    ensures var r := Plan(THREE_TENSORS, SIXTEENS, [1000], [0], [0, 0]);
            r.Some? && r.value.hv == [InRow(0, 0, true), InRow(1, 0, false), InRow(2, 0, true)]
  {
    hide Prepare;
    hide UpdateParents;
    hide Counted;
    hide Shape;
    hide CfgOk;
    var g, cfg, s := THREE_TENSORS, SIXTEENS, AfterCounting();
    CountedInRow();
    StepInRow();
    FreedInRow(Prepare(g, cfg, 0, s, 0).value);
    assert Before(g, cfg, [0], s, 0) == Some(s);
  }

  /** What the lemmas below use of the graph. */
  ghost predicate LikeThree(g: Graph) {
    && |g.tensors| == 3 && g.nodes == [2] && g.leafs == [0, 1]
    && g.tensors[0] == Tensor(NONE, false, true, [], None, false)
    && g.tensors[1] == Tensor(NONE, false, false, [], None, false)
    && g.tensors[2] == Tensor(OTHER(0), false, false, [1], None, false)
  }

  lemma LikeThreeIsOrdered(g: Graph)
    requires LikeThree(g)
    ensures Ordered(g) && g.Src(0) == [1]
  {
    assert g.IdsOk();
    assert g.Src(0) == [1];
    assert Readable(g, 1, 0) by { assert 1 == g.leafs[1] && 1 in g.leafs; }
    hide Readable;
  }

  lemma LikeThreeHasUnreadLeaf(g: Graph)
    requires LikeThree(g) && g.IdsOk()
    ensures !LeafsAreRead(g)
  {
    assert g.Src(0) == [1];
    assert Storable(g, g.leafs[0]) && !Checked(g, g.leafs[0]);
  }

  lemma LikeThreeLive(g: Graph)
    requires LikeThree(g) && g.IdsOk()
    ensures LiveAt(g, 0, 0) && LiveAt(g, 2, 0) && 0 !in g.Src(0)
  {
    assert 0 == g.leafs[0] && 0 in g.leafs;
    assert g.NodeBefore(2, 1) by { assert g.nodes[0] == 2; }
    assert g.Src(0) == [1];
  }

  lemma LikeThreePasses(g: Graph, hv: seq<HashNode>)
    requires LikeThree(g) && g.IdsOk() && hv == [InRow(0, 0, true), InRow(1, 0, false), InRow(2, 0, true)]
    ensures Recorded(g, SIXTEENS, hv, ThreeSlots()) && Passes(g, SIXTEENS, hv, ThreeSlots(), LEAF_GREW)
  {
    assert g.Src(0) == [1];
    assert forall t :: 0 <= t < 3 ==> RecordOf(g, SIXTEENS, hv, t) == At(0, Address(0, 16 * t), 16);
    assert StillFits(g, LEAF_GREW, 2, At(0, Address(0, 32), 16))
           && StillFits(g, LEAF_GREW, 1, At(0, Address(0, 16), 16));
  }

  /** The recorded plan passes the check for the later sizes, yet t and u, both live at step j, overlap. */
  ghost predicate Overrun(g: Graph, cfg: Config, later: Config, hv: seq<HashNode>, tb: Tables, j: nat, t: nat, u: nat) {
    && CfgOk(cfg) && g.IdsOk() && |hv| == |g.tensors| && (forall v :: 0 <= v < |hv| ==> hv[v].bufferId < |cfg.bufts|)
    && Recorded(g, cfg, hv, tb) && Passes(g, cfg, hv, tb, later)
    && j < |g.nodes| && t < |hv| && u < |hv| && t != u && LiveAt(g, t, j) && LiveAt(g, u, j)
    && !RunsInPlaceOn(g, cfg, hv, j, t) && !RunsInPlaceOn(g, cfg, hv, j, u)
    && !PlannerMemory.Apart(NewRange(cfg, later, hv, t), NewRange(cfg, later, hv, u))
  }

  lemma LikeThreeOverruns(g: Graph, hv: seq<HashNode>)
    requires LikeThree(g) && Ordered(g) && hv == [InRow(0, 0, true), InRow(1, 0, false), InRow(2, 0, true)]
    ensures Overrun(g, SIXTEENS, LEAF_GREW, hv, ThreeSlots(), 0, 0, 2)
  {
    hide LiveAt;
    hide Recorded;
    hide Passes;
    RowShape(State(hv, [RowOf(48)]), 48);
    LikeThreeLive(g);
    LikeThreePasses(g, hv);
    assert g.Src(0) == [1];
  }

  /** What an unread leaf can do: the plan of this graph passes the check for the grown leaf, and then the leaf, which
      is an output, reaches over the node that is computed while it is live. */
  lemma UnreadLeafIsOverrun()
    ensures CfgOk(SIXTEENS) && Ordered(THREE_TENSORS) && !LeafsAreRead(THREE_TENSORS)
    ensures var r := Plan(THREE_TENSORS, SIXTEENS, [1000], [0], [0, 0]);
            r.Some? && Overrun(THREE_TENSORS, SIXTEENS, LEAF_GREW, r.value.hv, ThreeSlots(), 0, 0, 2)
  {
    hide Plan;
    hide Ordered;
    hide LeafsAreRead;
    hide Overrun;
    PlannedInRow();
    var g := THREE_TENSORS;
    assert LikeThree(g);
    LikeThreeIsOrdered(g);
    LikeThreeHasUnreadLeaf(g);
    LikeThreeOverruns(g, [InRow(0, 0, true), InRow(1, 0, false), InRow(2, 0, true)]);
  }
}
