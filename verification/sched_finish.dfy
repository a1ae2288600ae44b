/** Pass 4, and what the four passes together guarantee. */
module SchedFinish {
  import opened Wrappers
  import opened TensorGraph
  import opened SchedModel
  import opened SchedAssign
  import opened SchedUpgrade

  /** The lowest of the backends i, i+1, ... that runs t, or UNASSIGNED. */
  function LowestRunning(sc: Sched, t: nat, i: nat): (b: int)
    requires i <= |sc.bufts|
    ensures b == UNASSIGNED || (i <= b < |sc.bufts| && sc.supportsOp(b, t))
    ensures b == UNASSIGNED ==> forall k: nat :: i <= k < |sc.bufts| ==> !sc.supportsOp(k, t)
    decreases |sc.bufts| - i
  {
    if i == |sc.bufts| then UNASSIGNED else if sc.supportsOp(i, t) then i else LowestRunning(sc, t, i + 1)
  }

  /** The node's backend when its sources are looked at: its own, or that of the tensor it views. */
  function NodeBackend(g: Graph, a: seq<int>, t: nat): int
    requires g.IdsOk() && t < |g.tensors| == |a|
  {
    if a[t] == UNASSIGNED && g.IsView(t) then a[Root(g, t)] else a[t]
  }

  /** What pass 4 does at node i. */
  ghost predicate Completed(sc: Sched, g: Graph, before: seq<int>, after: seq<int>, i: nat)
    requires g.IdsOk() && |before| == |g.tensors| && i < |g.nodes|
  {
    var t := g.nodes[i];
    && |after| == |before|
    && (forall u :: 0 <= u < |before| && before[u] != UNASSIGNED ==> after[u] == before[u])
    && (forall u :: 0 <= u < |before| && after[u] != before[u] && u != t ==>
          u in g.Src(i) && after[u] == if g.IsView(u) then after[Root(g, u)] else NodeBackend(g, before, t))
    && (NodeBackend(g, before, t) != UNASSIGNED ==>
          after[t] == NodeBackend(g, before, t) && forall u :: u in g.Src(i) && u < |g.tensors| && !g.IsView(u) ==>
            after[u] != UNASSIGNED)
    && (NodeBackend(g, before, t) == UNASSIGNED ==> after[t] == LowestRunning(sc, t, 0))
  }

  method CompleteSources(sc: Sched, g: Graph, bid: array<int>, i: nat)
    requires g.IdsOk() && bid.Length == |g.tensors| && Assignment(sc, g, bid[..]) && i < |g.nodes|
             && g.nodes[i] !in g.Src(i)
    modifies bid
    ensures Assignment(sc, g, bid[..])
    ensures forall u :: 0 <= u < |g.tensors| && old(bid[..])[u] != UNASSIGNED ==> bid[..][u] == old(bid[..])[u]
    ensures forall u :: 0 <= u < |g.tensors| && bid[..][u] != old(bid[..])[u] ==>
              u in g.Src(i) && bid[..][u] == if g.IsView(u) then bid[..][Root(g, u)] else old(bid[..])[g.nodes[i]]
    ensures old(bid[..])[g.nodes[i]] != UNASSIGNED ==>
              forall u :: u in g.Src(i) && u < |g.tensors| && !g.IsView(u) ==> bid[..][u] != UNASSIGNED
  {
    var t := g.nodes[i];
    var j := 0;
    while j < |g.Src(i)|
      invariant j <= |g.Src(i)| && Assignment(sc, g, bid[..])
      invariant forall u :: 0 <= u < |g.tensors| && old(bid[..])[u] != UNASSIGNED ==> bid[..][u] == old(bid[..])[u]
      invariant forall u :: 0 <= u < |g.tensors| && bid[..][u] != old(bid[..])[u] ==>
                  u in g.Src(i)[..j] && bid[..][u] == if g.IsView(u) then bid[..][Root(g, u)] else old(bid[..])[t]
      invariant old(bid[..])[t] != UNASSIGNED ==>
                  forall u :: u in g.Src(i)[..j] && u < |g.tensors| && !g.IsView(u) ==> bid[..][u] != UNASSIGNED
    {
      var src := g.Src(i)[j];
      assert g.Src(i)[..j + 1] == g.Src(i)[..j] + [src];
      assert src in g.Src(i);
      if bid[src] == UNASSIGNED {
        if g.IsView(src) {
          bid[src] := bid[g.tensors[src].viewSrc.value];
        } else {
          bid[src] := bid[t];
        }
      }
      j := j + 1;
    }
    assert g.Src(i)[..j] == g.Src(i);
  }

  /** One round of pass 4; false is the failed assertion that the node has a backend. */
  method CompleteNode(sc: Sched, g: Graph, bid: array<int>, i: nat) returns (ok: bool)
    requires g.IdsOk() && bid.Length == |g.tensors| && Assignment(sc, g, bid[..]) && i < |g.nodes|
             && g.nodes[i] !in g.Src(i)
    requires g.IsView(g.nodes[i]) ==> !g.IsView(Root(g, g.nodes[i]))
    modifies bid
    ensures Assignment(sc, g, bid[..]) && Completed(sc, g, old(bid[..]), bid[..], i)
    ensures ok <==> bid[..][g.nodes[i]] != UNASSIGNED
  {
    var t := g.nodes[i];
    if g.IsView(t) && bid[t] == UNASSIGNED { bid[t] := bid[g.tensors[t].viewSrc.value]; }
    CompleteSources(sc, g, bid, i);
    var b := 0;
    while b < |sc.bufts| && bid[t] == UNASSIGNED
      invariant b <= |sc.bufts|
      invariant Assignment(sc, g, bid[..])
      invariant bid[t] == NodeBackend(g, old(bid[..]), t)
                || (NodeBackend(g, old(bid[..]), t) == UNASSIGNED && bid[t] == LowestRunning(sc, t, 0))
      invariant bid[t] == UNASSIGNED ==> LowestRunning(sc, t, 0) == LowestRunning(sc, t, b)
      invariant forall u :: 0 <= u < |g.tensors| && u != t && old(bid[..])[u] != UNASSIGNED ==>
                bid[..][u] == old(bid[..])[u]
      invariant forall u :: 0 <= u < |g.tensors| && u != t && bid[..][u] != old(bid[..])[u] ==>
                  u in g.Src(i) && bid[..][u] == if g.IsView(u) then bid[..][Root(g, u)]
                    else NodeBackend(g, old(bid[..]), t)
      invariant NodeBackend(g, old(bid[..]), t) != UNASSIGNED ==>
                  forall u :: u in g.Src(i) && u < |g.tensors| && !g.IsView(u) ==> bid[..][u] != UNASSIGNED
    {
      if sc.supportsOp(b, t) { bid[t] := b; }
      b := b + 1;
    }
    ok := bid[t] != UNASSIGNED;
  }

  /** What pass 3 leaves unassigned runs nowhere. */
  ghost predicate NoneLeft(sc: Sched, g: Graph, a: seq<int>)
    requires g.IdsOk() && |a| == |g.tensors|
  {
    forall i :: 0 <= i < |g.nodes| && Real(g, i) && a[g.nodes[i]] == UNASSIGNED ==>
      LowestRunning(sc, g.nodes[i], 0) == UNASSIGNED
  }

  /** A node pass 4 had to place: it follows the tensor it views, or goes to the lowest backend that runs it. */
  ghost predicate PlacedLate(sc: Sched, g: Graph, before: seq<int>, after: seq<int>, t: nat)
    requires g.IdsOk() && t < |g.tensors| == |before| == |after|
  {
    if g.IsView(t) && (before[Root(g, t)] != UNASSIGNED || Root(g, t) in g.nodes) then after[t] == after[Root(g, t)]
    else (g.IsView(t) && after[t] == after[Root(g, t)]) || after[t] == LowestRunning(sc, t, 0)
  }

  /** A leaf pass 4 had to place goes where a node reading it is, or where the tensor it views is. */
  ghost predicate PlacedForReader(g: Graph, after: seq<int>, u: nat, n: nat)
    requires g.IdsOk() && u < |g.tensors| == |after| && n <= |g.nodes|
  {
    if g.IsView(u) then after[u] == after[Root(g, u)]
    else exists k :: 0 <= k < n && u in g.Src(k) && after[u] == after[g.nodes[k]]
  }

  /** Pass 4 up to node n. */
  ghost predicate CompleteTo(sc: Sched, g: Graph, before: seq<int>, after: seq<int>, n: nat)
    requires g.IdsOk() && |before| == |g.tensors| == |after| && n <= |g.nodes|
  {
    && (forall u :: 0 <= u < |before| && before[u] != UNASSIGNED ==> after[u] == before[u])
    && (forall i :: n <= i < |g.nodes| ==> after[g.nodes[i]] == before[g.nodes[i]])
    && (forall i :: 0 <= i < n ==> after[g.nodes[i]] != UNASSIGNED)
    && (forall i :: 0 <= i < n && before[g.nodes[i]] == UNASSIGNED ==> PlacedLate(sc, g, before, after, g.nodes[i]))
    && (forall i, u :: 0 <= i < n && Real(g, i) && u in g.Src(i) && u < |g.tensors| ==> after[u] != UNASSIGNED)
    && (forall u :: 0 <= u < |before| && u !in g.nodes && after[u] != before[u] ==> PlacedForReader(g, after, u, n))
  }

  /** A node's sources are not nodes still to come. */
  lemma SourcesAreDone(g: Graph, i: nat, u: nat)
    requires Topological(g) && i < |g.nodes| && u in g.Src(i)
    ensures forall k :: i <= k < |g.nodes| ==> g.nodes[k] != u
    ensures u < |g.tensors| && (g.IsView(u) ==> g.NodeBefore(u, i))
  {
    var j :| 0 <= j < |g.Src(i)| && g.Src(i)[j] == u;
    assert Earlier(g, u, i) && Readable(g, u, i);
  }

  lemma ViewRootComesFirst(g: Graph, i: nat)
    requires Topological(g) && i < |g.nodes| && g.IsView(g.nodes[i]) && Root(g, g.nodes[i]) in g.nodes
    ensures g.NodeBefore(Root(g, g.nodes[i]), i)
  {
    var k :| 0 <= k < |g.nodes| && g.nodes[k] == Root(g, g.nodes[i]);
  }

  lemma PlacedLateStays(sc: Sched, g: Graph, before: seq<int>, a: seq<int>, c: seq<int>, t: nat)
    requires Topological(g) && |before| == |g.tensors| == |a| == |c| && t < |a|
    requires forall u :: 0 <= u < |a| && a[u] != UNASSIGNED ==> c[u] == a[u]
    requires a[t] != UNASSIGNED && PlacedLate(sc, g, before, a, t)
    ensures PlacedLate(sc, g, before, c, t)
  {
  }

  lemma LateNode(sc: Sched, g: Graph, before: seq<int>, a: seq<int>, c: seq<int>, i: nat)
    requires Topological(g) && |before| == |g.tensors| == |a| == |c| && i < |g.nodes|
    requires CompleteTo(sc, g, before, a, i) && Completed(sc, g, a, c, i) && c[g.nodes[i]] != UNASSIGNED
    requires before[g.nodes[i]] == UNASSIGNED
    ensures PlacedLate(sc, g, before, c, g.nodes[i])
  {
    var t := g.nodes[i];
    if g.IsView(t) && Root(g, t) in g.nodes { ViewRootComesFirst(g, i); }
  }

  lemma RealSources(sc: Sched, g: Graph, before: seq<int>, a: seq<int>, c: seq<int>, i: nat, u: nat)
    requires Topological(g) && |before| == |g.tensors| == |a| == |c| && i < |g.nodes| && NoneLeft(sc, g, before)
    requires CompleteTo(sc, g, before, a, i) && Completed(sc, g, a, c, i) && c[g.nodes[i]] != UNASSIGNED
    requires Real(g, i) && u in g.Src(i) && u < |g.tensors|
    ensures c[u] != UNASSIGNED
  {
    SourcesAreDone(g, i, u);
    if g.IsView(u) {
      var k :| 0 <= k < i && k < |g.nodes| && g.nodes[k] == u;
      assert a[g.nodes[k]] != UNASSIGNED;
    }
  }

  lemma ReadersStay(sc: Sched, g: Graph, before: seq<int>, a: seq<int>, c: seq<int>, i: nat, u: nat)
    requires Topological(g) && |before| == |g.tensors| == |a| == |c| && i < |g.nodes|
    requires CompleteTo(sc, g, before, a, i) && Completed(sc, g, a, c, i) && c[g.nodes[i]] != UNASSIGNED
    requires u < |a| && u !in g.nodes && c[u] != before[u]
    ensures PlacedForReader(g, c, u, i + 1)
  {
    if a[u] != before[u] {
      assert PlacedForReader(g, a, u, i);
      if !g.IsView(u) {
        var k :| 0 <= k < i && u in g.Src(k) && a[u] == a[g.nodes[k]];
        assert a[g.nodes[k]] != UNASSIGNED;
      }
    } else if !g.IsView(u) {
      assert c[u] == NodeBackend(g, a, g.nodes[i]);
    }
  }

  /** Round i leaves alone what pass 3 decided, and the nodes still to come. */
  lemma CompletedKeeps(sc: Sched, g: Graph, before: seq<int>, a: seq<int>, c: seq<int>, i: nat)
    requires Topological(g) && |before| == |g.tensors| == |a| == |c| && i < |g.nodes|
    requires CompleteTo(sc, g, before, a, i) && Completed(sc, g, a, c, i)
    ensures g.IdsOk() && forall u :: 0 <= u < |before| && before[u] != UNASSIGNED ==> c[u] == before[u]
    ensures forall u :: 0 <= u < |a| && a[u] != UNASSIGNED ==> c[u] == a[u]
    ensures forall k :: i + 1 <= k < |g.nodes| ==> c[g.nodes[k]] == before[g.nodes[k]]
  {
    hide PlacedLate;
    hide PlacedForReader;
    hide Readable;
    forall k | i + 1 <= k < |g.nodes| ensures c[g.nodes[k]] == before[g.nodes[k]] {
      if g.nodes[k] in g.Src(i) { SourcesAreDone(g, i, g.nodes[k]); }
    }
  }

  lemma CompletedLate(sc: Sched, g: Graph, before: seq<int>, a: seq<int>, c: seq<int>, i: nat, k: nat)
    requires Topological(g) && |before| == |g.tensors| == |a| == |c| && k <= i < |g.nodes|
    requires CompleteTo(sc, g, before, a, i) && Completed(sc, g, a, c, i) && c[g.nodes[i]] != UNASSIGNED
    requires before[g.nodes[k]] == UNASSIGNED
    ensures PlacedLate(sc, g, before, c, g.nodes[k])
  {
    hide PlacedLate;
    hide PlacedForReader;
    hide Readable;
    CompletedKeeps(sc, g, before, a, c, i);
    if k == i { LateNode(sc, g, before, a, c, i); } else { PlacedLateStays(sc, g, before, a, c, g.nodes[k]); }
  }

  lemma CompletedSources(sc: Sched, g: Graph, before: seq<int>, a: seq<int>, c: seq<int>, i: nat, k: nat, u: nat)
    requires Topological(g) && |before| == |g.tensors| == |a| == |c| && k <= i < |g.nodes| && NoneLeft(sc, g, before)
    requires CompleteTo(sc, g, before, a, i) && Completed(sc, g, a, c, i) && c[g.nodes[i]] != UNASSIGNED
    requires Real(g, k) && u in g.Src(k) && u < |g.tensors|
    ensures c[u] != UNASSIGNED
  {
    hide PlacedLate;
    hide PlacedForReader;
    hide Readable;
    CompletedKeeps(sc, g, before, a, c, i);
    if k == i { RealSources(sc, g, before, a, c, i, u); }
  }

  lemma CompleteStep(sc: Sched, g: Graph, before: seq<int>, a: seq<int>, c: seq<int>, i: nat)
    requires Topological(g) && |before| == |g.tensors| == |a| == |c| && i < |g.nodes| && NoneLeft(sc, g, before)
    requires CompleteTo(sc, g, before, a, i) && Completed(sc, g, a, c, i) && c[g.nodes[i]] != UNASSIGNED
    ensures CompleteTo(sc, g, before, c, i + 1)
  {
    hide Completed;
    hide PlacedLate;
    hide PlacedForReader;
    hide Readable;
    hide Earlier;
    hide NoneLeft;
    CompletedKeeps(sc, g, before, a, c, i);
    forall k | 0 <= k < i + 1 && before[g.nodes[k]] == UNASSIGNED ensures PlacedLate(sc, g, before, c, g.nodes[k]) {
      CompletedLate(sc, g, before, a, c, i, k);
    }
    forall k, u | 0 <= k < i + 1 && Real(g, k) && u in g.Src(k) && u < |g.tensors| ensures c[u] != UNASSIGNED {
      CompletedSources(sc, g, before, a, c, i, k, u);
    }
    forall u | 0 <= u < |before| && u !in g.nodes && c[u] != before[u] ensures PlacedForReader(g, c, u, i + 1) {
      ReadersStay(sc, g, before, a, c, i, u);
    }
  }

  /** Pass 4; false is a failed assertion that some node has a backend. */
  method Complete(sc: Sched, g: Graph, bid: array<int>) returns (ok: bool)
    requires Topological(g) && bid.Length == |g.tensors| && Assignment(sc, g, bid[..]) && NoneLeft(sc, g, bid[..])
    modifies bid
    ensures Assignment(sc, g, bid[..])
    ensures ok ==> CompleteTo(sc, g, old(bid[..]), bid[..], |g.nodes|)
    ensures !ok ==> exists t :: t in g.nodes && LowestRunning(sc, t, 0) == UNASSIGNED
  {
    ghost var before := bid[..];
    var i := 0;
    while i < |g.nodes|
      invariant i <= |g.nodes| && Assignment(sc, g, bid[..]) && CompleteTo(sc, g, before, bid[..], i)
    {
      hide CompleteTo;
      hide Completed;
      ghost var a := bid[..];
      NotOwnSource(g, i);
      ok := CompleteNode(sc, g, bid, i);
      if !ok {
        FailureMeans(sc, g, a, bid[..], i);
        return;
      }
      CompleteStep(sc, g, before, a, bid[..], i);
      i := i + 1;
    }
    ok := true;
  }

  lemma NotOwnSource(g: Graph, i: nat)
    requires Topological(g) && i < |g.nodes|
    ensures g.nodes[i] !in g.Src(i) && g.IdsOk() && (g.IsView(g.nodes[i]) ==> !g.IsView(Root(g, g.nodes[i])))
  {
    forall j | 0 <= j < |g.Src(i)| ensures g.Src(i)[j] != g.nodes[i] { assert Readable(g, g.Src(i)[j], i); }
  }

  lemma FailureMeans(sc: Sched, g: Graph, a: seq<int>, c: seq<int>, i: nat)
    requires g.IdsOk() && |a| == |g.tensors| == |c| && i < |g.nodes| && Completed(sc, g, a, c, i)
             && c[g.nodes[i]] == UNASSIGNED
    ensures LowestRunning(sc, g.nodes[i], 0) == UNASSIGNED
  {
  }

  // ---------------------------------------------------------------- the four passes together

  lemma TopologicalSourcesFirst(g: Graph)
    requires Topological(g)
    ensures SourcesFirst(g)
  {
    forall i, k | 0 <= k <= i < |g.nodes| ensures !Touches(g, k, g.nodes[i]) {
      forall j | 0 <= j < |g.Src(k)| ensures g.Src(k)[j] != g.nodes[i] && Root(g, g.Src(k)[j]) != g.nodes[i] {
        assert Earlier(g, g.Src(k)[j], k) && Readable(g, g.Src(k)[j], k);
      }
    }
  }

  lemma UpgradeLeavesNone(sc: Sched, g: Graph, a: seq<int>, c: seq<int>)
    requires Distinct(g) && Assignment(sc, g, a) && Assignment(sc, g, c) && Upgraded(sc, g, a, c, |g.nodes|)
    ensures NoneLeft(sc, g, c)
  {
    forall i | 0 <= i < |g.nodes| && Real(g, i) && c[g.nodes[i]] == UNASSIGNED
      ensures LowestRunning(sc, g.nodes[i], 0) == UNASSIGNED
    {
      assert Decided(sc, g, a, c, i);
    }
  }

  /** Some backend runs node i, the user did not pin it, and it is neither a view operation nor an unallocated graph
      input. */
  ghost predicate FreeToMove(sc: Sched, g: Graph, pins: seq<int>, i: int)
    requires g.IdsOk() && |pins| == |g.tensors| && 0 <= i < |g.nodes|
  {
    var t := g.nodes[i];
    Real(g, i) && LowestRunning(sc, t, 0) != UNASSIGNED && pins[t] == UNASSIGNED
      && !(g.tensors[t].input && sc.buffer(Root(g, t)).None?)
  }

  /** Tensor t stays where it is or moves to a faster backend of the same buffer type that runs it. */
  ghost predicate MovesDown(sc: Sched, g: Graph, was: int, now: int, t: nat)
    requires g.IdsOk() && was < |sc.bufts|
  {
    0 <= now <= was && sc.bufts[now] == sc.bufts[was] && (now != was ==> sc.supportsOp(now, t) && RealNode(g, t))
  }

  /** What a caller gets: `pins` are the user's choices, `first` what pass 1 makes of them, `final` the result. */
  ghost predicate WellAssigned(sc: Sched, g: Graph, pins: seq<int>, first: seq<int>, final: seq<int>)
    requires g.IdsOk() && Assignment(sc, g, pins) && |first| == |pins| == |final|
  {
    && Assignment(sc, g, first) && Assignment(sc, g, final)
    // every node and everything a node reads has a backend
    && (forall i :: 0 <= i < |g.nodes| ==> final[g.nodes[i]] != UNASSIGNED)
    && (forall i, u :: 0 <= i < |g.nodes| && Real(g, i) && u in g.Src(i) && u < |g.tensors| ==> final[u] != UNASSIGNED)
    // every node that is free to move runs where it is
    && (forall i :: 0 <= i < |g.nodes| && FreeToMove(sc, g, pins, i) ==> sc.supportsOp(final[g.nodes[i]], g.nodes[i]))
    // what the user pinned, and what pass 1 placed, moves only to a faster backend with the same buffer type that runs
    // the operation
    && (forall t :: 0 <= t < |pins| && pins[t] != UNASSIGNED ==> MovesDown(sc, g, pins[t], final[t], t))
    && (forall t :: 0 <= t < |pins| && first[t] != UNASSIGNED ==> MovesDown(sc, g, first[t], final[t], t))
    // a view operation that nobody placed follows the node it views
    && (forall i :: 0 <= i < |g.nodes| && !Real(g, i) && first[g.nodes[i]] == UNASSIGNED && g.IsView(g.nodes[i])
                    && Root(g, g.nodes[i]) in g.nodes ==>
          final[g.nodes[i]] == final[Root(g, g.nodes[i])])
  }

  /** A node that can run somewhere and is free to move ends on a backend that runs it. */
  lemma FreeNodeRuns(sc: Sched, g: Graph, pins: seq<int>, a1: seq<int>, a2: seq<int>, a3: seq<int>, a4: seq<int>,
                     i: nat)
    requires Topological(g) && Assignment(sc, g, pins) && |a1| == |g.tensors| == |a2| == |a3| == |a4|
    requires Assignment(sc, g, a1) && Assignment(sc, g, a2)
    requires Guessed(sc, g, pins, a1) && Expanded(sc, g, false, a1, a2)
    requires Upgraded(sc, g, a2, a3, |g.nodes|) && CompleteTo(sc, g, a3, a4, |g.nodes|)
    requires i < |g.nodes| && FreeToMove(sc, g, pins, i)
    ensures a4[g.nodes[i]] >= 0 && sc.supportsOp(a4[g.nodes[i]], g.nodes[i])
  {
    var t := g.nodes[i];
    assert InGraph(g, t);
    FromCurIsSupported(sc, g, t);
    assert Decided(sc, g, a2, a3, i);
  }

  lemma PlacedMovesDown(sc: Sched, g: Graph, a1: seq<int>, a2: seq<int>, a3: seq<int>, a4: seq<int>, t: nat)
    requires Topological(g) && |a1| == |g.tensors| == |a2| == |a3| == |a4|
    requires Assignment(sc, g, a1) && Assignment(sc, g, a2) && Expanded(sc, g, false, a1, a2)
    requires Upgraded(sc, g, a2, a3, |g.nodes|) && CompleteTo(sc, g, a3, a4, |g.nodes|)
    requires t < |a1| && a1[t] != UNASSIGNED
    ensures MovesDown(sc, g, a1[t], a4[t], t)
  {
    assert a2[t] == a1[t];
    assert g.nodes[..|g.nodes|] == g.nodes;
    if t in g.nodes {
      var i :| 0 <= i < |g.nodes| && g.nodes[i] == t;
      assert Decided(sc, g, a2, a3, i);
    }
  }

  lemma ViewFollows(sc: Sched, g: Graph, a1: seq<int>, a2: seq<int>, a3: seq<int>, a4: seq<int>, i: nat)
    requires Topological(g) && |a1| == |g.tensors| == |a2| == |a3| == |a4|
    requires Assignment(sc, g, a1) && Assignment(sc, g, a2) && Expanded(sc, g, false, a1, a2)
    requires Upgraded(sc, g, a2, a3, |g.nodes|) && CompleteTo(sc, g, a3, a4, |g.nodes|)
    requires i < |g.nodes| && !Real(g, i) && a1[g.nodes[i]] == UNASSIGNED && g.IsView(g.nodes[i])
             && Root(g, g.nodes[i]) in g.nodes
    ensures a4[g.nodes[i]] == a4[Root(g, g.nodes[i])]
  {
    var t := g.nodes[i];
    assert !RealNode(g, t);
    assert Decided(sc, g, a2, a3, i);
    assert PlacedLate(sc, g, a3, a4, t);
  }

  lemma PassesCompose(sc: Sched, g: Graph, pins: seq<int>, a1: seq<int>, a3: seq<int>, a4: seq<int>)
    requires Topological(g) && Assignment(sc, g, pins) && |a1| == |g.tensors| == |a3| == |a4|
    requires Assignment(sc, g, a1) && Assignment(sc, g, a4) && Guessed(sc, g, pins, a1)
    requires |Pass2(sc, g, a1)| == |a1| && Assignment(sc, g, Pass2(sc, g, a1))
    requires Upgraded(sc, g, Pass2(sc, g, a1), a3, |g.nodes|) && CompleteTo(sc, g, a3, a4, |g.nodes|)
    ensures WellAssigned(sc, g, pins, a1, a4)
  {
    hide Pass2;
    hide Upgraded;
    hide Guessed;
    hide Expanded;
    hide PlacedLate;
    hide Readable;
    hide Earlier;
    var a2 := Pass2(sc, g, a1);
    TopologicalSourcesFirst(g);
    Pass2Meaning(sc, g, a1);
    forall i | 0 <= i < |g.nodes| && FreeToMove(sc, g, pins, i) ensures sc.supportsOp(a4[g.nodes[i]], g.nodes[i]) {
      FreeNodeRuns(sc, g, pins, a1, a2, a3, a4, i);
    }
    forall t | 0 <= t < |pins| && a1[t] != UNASSIGNED ensures MovesDown(sc, g, a1[t], a4[t], t) {
      PlacedMovesDown(sc, g, a1, a2, a3, a4, t);
    }
    forall t | 0 <= t < |pins| && pins[t] != UNASSIGNED ensures a1[t] == pins[t] { PinsAreGuesses(sc, g, pins, a1, t); }
    forall i | 0 <= i < |g.nodes| && !Real(g, i) && a1[g.nodes[i]] == UNASSIGNED && g.IsView(g.nodes[i])
      && Root(g, g.nodes[i]) in g.nodes
      ensures a4[g.nodes[i]] == a4[Root(g, g.nodes[i])]
    {
      ViewFollows(sc, g, a1, a2, a3, a4, i);
    }
  }

  lemma PinsAreGuesses(sc: Sched, g: Graph, pins: seq<int>, a1: seq<int>, t: nat)
    requires g.IdsOk() && |pins| == |g.tensors| == |a1| && Guessed(sc, g, pins, a1) && t < |pins|
             && pins[t] != UNASSIGNED
    ensures a1[t] == pins[t]
  {
  }

  lemma GuessesAreBackends(sc: Sched, g: Graph, pins: seq<int>, a1: seq<int>)
    requires Topological(g) && Assignment(sc, g, pins) && |a1| == |pins| && Guessed(sc, g, pins, a1)
    ensures Assignment(sc, g, a1)
  {
    forall t | 0 <= t < |a1| ensures UNASSIGNED <= a1[t] < |sc.bufts| {
      if pins[t] == UNASSIGNED && InGraph(g, t) { FromCurIsSupported(sc, g, t); }
    }
  }

  /** Passes 1 to 4; `first` and `third` are the assignments after passes 1 and 3. Failure is an abort: a pre-allocated
      tensor that cannot run where it is, or a node no backend runs. */
  method AssignBackends(sc: Sched, g: Graph, bid: array<int>)
    returns (ok: bool, ghost first: seq<int>, ghost third: seq<int>)
    requires Topological(g) && bid.Length == |g.tensors| && Assignment(sc, g, bid[..])
    modifies bid
    ensures ok ==> |first| == |g.tensors| && Guessed(sc, g, old(bid[..]), first)
                   && WellAssigned(sc, g, old(bid[..]), first, bid[..])
    ensures ok ==> Assignment(sc, g, third) && Assignment(sc, g, Pass2(sc, g, first))
                   && Upgraded(sc, g, Pass2(sc, g, first), third, |g.nodes|)
                     && CompleteTo(sc, g, third, bid[..], |g.nodes|)
    ensures !ok ==> exists t: nat :: InGraph(g, t) && t < |g.tensors|
                                     && (FromCur(sc, g, t).None? || LowestRunning(sc, t, 0) == UNASSIGNED)
  {
    hide Pass2;
    hide Upgraded;
    hide CompleteTo;
    hide WellAssigned;
    ghost var pins := bid[..];
    first, third := pins, pins;
    ok := GuessList(sc, g, g.leafs, bid);
    if !ok { return; }
    ok := GuessList(sc, g, g.nodes, bid);
    if !ok { return; }
    first := bid[..];
    GuessesAreBackends(sc, g, pins, first);
    TopologicalSourcesFirst(g);
    FourSweeps(sc, g, bid);
    ghost var a2 := bid[..];
    Upgrade(sc, g, bid);
    third := bid[..];
    UpgradeLeavesNone(sc, g, a2, third);
    ok := Complete(sc, g, bid);
    if ok { PassesCompose(sc, g, pins, first, third, bid[..]); }
  }

  /** Pass 2. */
  method FourSweeps(sc: Sched, g: Graph, bid: array<int>)
    requires Distinct(g) && bid.Length == |g.tensors| && Assignment(sc, g, bid[..])
    modifies bid
    ensures bid[..] == Pass2(sc, g, old(bid[..])) && Assignment(sc, g, bid[..])
  {
    hide Expanded;
    SweepDownMeaning(sc, g, true, bid[..], 0, UNASSIGNED);
    ExpandDown(sc, g, true, bid);
    SweepUpMeaning(sc, g, true, bid[..], |g.nodes|, UNASSIGNED);
    ExpandUp(sc, g, true, bid);
    SweepDownMeaning(sc, g, false, bid[..], 0, UNASSIGNED);
    ExpandDown(sc, g, false, bid);
    SweepUpMeaning(sc, g, false, bid[..], |g.nodes|, UNASSIGNED);
    ExpandUp(sc, g, false, bid);
  }
}
