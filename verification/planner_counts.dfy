/** Reading order of a graph: who reads what from which step on, and what the planner's counters must say. */
module PlannerCounts {
  import opened Wrappers
  import opened TensorGraph
  import opened Planner

  /** Source edges to t from nodes k, k+1, ... */
  function UsesFrom(g: Graph, t: nat, k: nat): nat
    requires g.IdsOk() && k <= |g.nodes|
    decreases |g.nodes| - k
  {
    if k == |g.nodes| then 0 else Occurrences(g.Src(k), t) + UsesFrom(g, t, k + 1)
  }

  /** Source edges to t not yet read when sources 0..j-1 of node k have been processed. */
  function Rem(g: Graph, t: nat, k: nat, j: nat): nat
    requires g.IdsOk() && k < |g.nodes| && j <= |g.Src(k)|
  {
    OccurrencesFrom(g.Src(k), t, j) + UsesFrom(g, t, k + 1)
  }

  ghost function ViewsOf(g: Graph, t: nat): set<nat>
    requires g.IdsOk()
  {
    set v | v in g.nodes && v < |g.tensors| && g.tensors[v].viewSrc == Some(t) && g.tensors[v].op != NONE
  }

  /** Counted views of t that still have readers, or never had any. */
  ghost function Active(g: Graph, hv: seq<HashNode>, t: nat): set<nat>
    requires g.IdsOk() && |hv| == |g.tensors|
  {
    set v | v in ViewsOf(g, t) && (hv[v].nChildren > 0 || UsesFrom(g, v, 0) == 0)
  }

  ghost predicate ViewCountsOk(g: Graph, hv: seq<HashNode>)
    requires g.IdsOk() && |hv| == |g.tensors|
  {
    forall t :: 0 <= t < |hv| ==> hv[t].nViews == |Active(g, hv, t)|
  }

  ghost predicate CountsAt(g: Graph, hv: seq<HashNode>, k: nat, j: nat)
    requires g.IdsOk() && |hv| == |g.tensors| && k < |g.nodes| && j <= |g.Src(k)|
  {
    forall t :: 0 <= t < |hv| ==> hv[t].nChildren == Rem(g, t, k, j)
  }

  ghost predicate CountsBefore(g: Graph, hv: seq<HashNode>, k: nat)
    requires g.IdsOk() && |hv| == |g.tensors| && k <= |g.nodes|
  {
    forall t :: 0 <= t < |hv| ==> hv[t].nChildren == UsesFrom(g, t, k)
  }

  // ---------------------------------------------------------------- reads

  /** Node i reads the storage of t, directly or through a view. */
  ghost predicate Reads(g: Graph, i: int, t: nat)
    requires g.IdsOk() && 0 <= i < |g.nodes|
  {
    exists j :: 0 <= j < |g.Src(i)| && (g.Src(i)[j] == t || g.tensors[g.Src(i)[j]].viewSrc == Some(t))
  }

  ghost predicate ReadFrom(g: Graph, t: nat, k: int)
    requires g.IdsOk()
  {
    exists i :: 0 <= k <= i < |g.nodes| && Reads(g, i, t)
  }

  /** Somebody still has to read t at position (k, j), directly or through a counted view. */
  ghost predicate Pending(g: Graph, t: nat, k: nat, j: nat)
    requires g.IdsOk() && k < |g.nodes| && j <= |g.Src(k)|
  {
    Rem(g, t, k, j) > 0 || exists v :: v in ViewsOf(g, t) && Rem(g, v, k, j) > 0
  }

  ghost predicate PendingBefore(g: Graph, t: nat, k: nat)
    requires g.IdsOk() && k <= |g.nodes|
  {
    UsesFrom(g, t, k) > 0 || exists v :: v in ViewsOf(g, t) && UsesFrom(g, v, k) > 0
  }

  /** The planner never lets go of t: an output, a tensor nobody reads at all, or the root of a view nobody reads. */
  ghost predicate HeldForever(g: Graph, t: nat)
    requires g.IdsOk() && t < |g.tensors|
  {
    g.tensors[t].output || !PendingBefore(g, t, 0) || exists v :: v in ViewsOf(g, t) && UsesFrom(g, v, 0) == 0
  }

  lemma {:induction false} UsesPositive(g: Graph, t: nat, k: nat, i: nat, j: nat)
    requires g.IdsOk() && k <= i < |g.nodes| && j < |g.Src(i)| && g.Src(i)[j] == t
    ensures UsesFrom(g, t, k) > 0
    decreases |g.nodes| - k
  {
    if k == i { OccurrencesZero(g.Src(i), t, 0); } else { UsesPositive(g, t, k + 1, i, j); }
  }

  /** Whatever will be read is pending. */
  lemma ReadsArePending(g: Graph, t: nat, k: nat)
    requires Ordered(g) && k <= |g.nodes| && ReadFrom(g, t, k)
    ensures PendingBefore(g, t, k)
  {
    var i :| k <= i < |g.nodes| && Reads(g, i, t);
    var j :| 0 <= j < |g.Src(i)| && (g.Src(i)[j] == t || g.tensors[g.Src(i)[j]].viewSrc == Some(t));
    var s := g.Src(i)[j];
    UsesPositive(g, s, k, i, j);
    if s != t {
      assert CountedView(g, s);
      assert s in ViewsOf(g, t);
    }
  }

  lemma ViewsHaveNoViews(g: Graph, hv: seq<HashNode>, t: nat)
    requires Ordered(g) && |hv| == |g.tensors| && t < |hv| && g.IsView(t)
    ensures ViewsOf(g, t) == {} && Active(g, hv, t) == {}
  {
  }

  /** With exact counters, a tensor whose counters are both zero has no pending reader and no unread view. */
  lemma ZeroCountersMeanDone(g: Graph, hv: seq<HashNode>, t: nat, k: nat, j: nat)
    requires g.IdsOk() && |hv| == |g.tensors| && t < |hv| && k < |g.nodes| && j <= |g.Src(k)|
    requires CountsAt(g, hv, k, j) && ViewCountsOk(g, hv)
    requires hv[t].nChildren == 0 && hv[t].nViews == 0
    ensures !Pending(g, t, k, j)
    ensures forall v :: v in ViewsOf(g, t) ==> UsesFrom(g, v, 0) > 0
  {
    assert |Active(g, hv, t)| == 0;
    forall v | v in ViewsOf(g, t) ensures Rem(g, v, k, j) == 0 && UsesFrom(g, v, 0) > 0 {
      assert v !in Active(g, hv, t);
    }
  }

  /** Conversely, no pending reader and no unread view make both counters zero. */
  lemma DoneMeansZeroCounters(g: Graph, hv: seq<HashNode>, t: nat, k: nat, j: nat)
    requires g.IdsOk() && |hv| == |g.tensors| && t < |hv| && k < |g.nodes| && j <= |g.Src(k)|
    requires CountsAt(g, hv, k, j) && ViewCountsOk(g, hv)
    requires !Pending(g, t, k, j) && forall v :: v in ViewsOf(g, t) ==> UsesFrom(g, v, 0) > 0
    ensures hv[t].nChildren == 0 && hv[t].nViews == 0
  {
    assert Active(g, hv, t) == {};
  }

  /** The last reader: one source edge left and no view in use means nothing reads t after step k, and t is not kept. */
  lemma LastReader(g: Graph, hv: seq<HashNode>, t: nat, k: nat, j: nat)
    requires Ordered(g) && |hv| == |g.tensors| && t < |hv| && k < |g.nodes| && j < |g.Src(k)| && g.Src(k)[j] == t
    requires CountsBefore(g, hv, k) && ViewCountsOk(g, hv)
    requires hv[t].nChildren == 1 && hv[t].nViews == 0
    ensures !ReadFrom(g, t, k + 1) && !PendingBefore(g, t, k + 1)
    ensures HeldForever(g, t) ==> g.tensors[t].output
  {
    OccurrencesZero(g.Src(k), t, 0);
    UsesPositive(g, t, 0, k, j);
    assert |Active(g, hv, t)| == 0;
    forall v | v in ViewsOf(g, t) ensures UsesFrom(g, v, k + 1) == 0 && UsesFrom(g, v, 0) > 0 {
      assert v !in Active(g, hv, t);
    }
    if ReadFrom(g, t, k + 1) { ReadsArePending(g, t, k + 1); }
  }

  // ---------------------------------------------------------------- counting down

  lemma CountDown(g: Graph, hv: seq<HashNode>, k: nat, j: nat)
    requires g.IdsOk() && |hv| == |g.tensors| && k < |g.nodes| && j < |g.Src(k)| && CountsAt(g, hv, k, j)
    ensures CountsAt(g, AddChildren(hv, g.Src(k)[j], -1), k, j + 1)
    ensures hv[g.Src(k)[j]].nChildren >= 1
  {
  }

  /** Dropping a child of p shrinks an active set only when p is a view that loses its last reader. */
  lemma ActiveAfterCountDown(g: Graph, hv: seq<HashNode>, p: nat, t: nat)
    requires g.IdsOk() && |hv| == |g.tensors| && p < |hv| && t < |hv| && UsesFrom(g, p, 0) > 0
    ensures Active(g, AddChildren(hv, p, -1), t) ==
            if p in ViewsOf(g, t) && hv[p].nChildren == 1 then Active(g, hv, t) - {p} else Active(g, hv, t)
  {
  }

  lemma ViewCountsAfterCountDown(g: Graph, hv: seq<HashNode>, p: nat)
    requires g.IdsOk() && |hv| == |g.tensors| && p < |hv| && ViewCountsOk(g, hv) && UsesFrom(g, p, 0) > 0
    requires g.IsView(p) ==> hv[p].nChildren != 1
    ensures ViewCountsOk(g, AddChildren(hv, p, -1))
  {
    forall t | 0 <= t < |hv| ensures AddChildren(hv, p, -1)[t].nViews == |Active(g, AddChildren(hv, p, -1), t)| {
      ActiveAfterCountDown(g, hv, p, t);
    }
  }

  /** When a counted view loses its last reader, the root's view counter goes down with it. */
  lemma ViewCountsAfterRetire(g: Graph, hv: seq<HashNode>, p: nat, root: nat)
    requires g.IdsOk() && |hv| == |g.tensors| && p < |hv| && root < |hv| && ViewCountsOk(g, hv) && UsesFrom(g, p, 0) > 0
    requires p in ViewsOf(g, root) && hv[p].nChildren == 1
    ensures ViewCountsOk(g, AddViews(AddChildren(hv, p, -1), root, -1))
  {
    var hv1 := AddChildren(hv, p, -1);
    var hv2 := AddViews(hv1, root, -1);
    forall t | 0 <= t < |hv| ensures hv2[t].nViews == |Active(g, hv2, t)| {
      assert Active(g, hv2, t) == Active(g, hv1, t);
      ActiveAfterCountDown(g, hv, p, t);
    }
  }
}
