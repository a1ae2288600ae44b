/** Pass 3: upgrades to faster backends with the same buffer type, and a backend for what pass 2 left over. */
module SchedUpgrade {
  import opened Wrappers
  import opened TensorGraph
  import opened SchedModel
  import opened SchedAssign

  /** t is a source of node k, or the tensor that a source of node k views. */
  ghost predicate Touches(g: Graph, k: int, t: nat)
    requires g.IdsOk() && 0 <= k < |g.nodes|
  {
    exists j :: 0 <= j < |g.Src(k)| && (g.Src(k)[j] == t || Root(g, g.Src(k)[j]) == t)
  }

  /** Nodes come after everything they read. */
  ghost predicate SourcesFirst(g: Graph) {
    && Distinct(g)
    && forall i, k :: 0 <= k <= i < |g.nodes| ==> !Touches(g, k, g.nodes[i])
  }

  // ---------------------------------------------------------------- the choice for an unassigned node

  /** Source counted by pass 3: it has a location, and backend b can use it there. */
  predicate Usable(sc: Sched, g: Graph, a: seq<int>, src: nat, b: nat)
    requires g.IdsOk() && src < |g.tensors| == |a|
  {
    (a[src] != UNASSIGNED || (g.IsView(src) && a[Root(g, src)] != UNASSIGNED)) && BufferSupported(sc, g, a, src, b)
  }

  function CountUsable(sc: Sched, g: Graph, a: seq<int>, t: nat, b: nat, j: nat): nat
    requires g.IdsOk() && t < |g.tensors| == |a| && j <= |g.tensors[t].src|
  {
    if j == 0 then 0
    else CountUsable(sc, g, a, t, b, j - 1) + if Usable(sc, g, a, g.tensors[t].src[j - 1], b) then 1 else 0
  }

  function Score(sc: Sched, g: Graph, a: seq<int>, t: nat, b: nat): nat
    requires g.IdsOk() && t < |g.tensors| == |a|
  {
    CountUsable(sc, g, a, t, b, |g.tensors[t].src|)
  }

  /** `b` runs t and no other backend below n that runs t can use more of its sources; ties go to the lower id. */
  ghost predicate IsBest(sc: Sched, g: Graph, a: seq<int>, t: nat, n: nat, b: int)
    requires g.IdsOk() && t < |g.tensors| == |a|
  {
    if b == UNASSIGNED then
      forall c: nat :: c < n ==> !sc.supportsOp(c, t)
    else
      && 0 <= b < n && sc.supportsOp(b, t)
      && forall c: nat :: c < n && sc.supportsOp(c, t) && c != b ==>
        Score(sc, g, a, t, c) < Score(sc, g, a, t, b) || (Score(sc, g, a, t, c) == Score(sc, g, a, t, b) && b < c)
  }

  method PickBest(sc: Sched, g: Graph, bid: array<int>, t: nat) returns (best: int)
    requires g.IdsOk() && t < |g.tensors| == bid.Length
    ensures IsBest(sc, g, bid[..], t, |sc.bufts|, best)
  {
    var nBest := -1;
    best := UNASSIGNED;
    var b := 0;
    while b < |sc.bufts|
      invariant b <= |sc.bufts| && IsBest(sc, g, bid[..], t, b, best)
      invariant nBest == if best == UNASSIGNED then -1 else Score(sc, g, bid[..], t, best)
    {
      if sc.supportsOp(b, t) {
        var n, j := 0, 0;
        while j < |g.tensors[t].src|
          invariant j <= |g.tensors[t].src| && n == CountUsable(sc, g, bid[..], t, b, j)
        {
          if Usable(sc, g, bid[..], g.tensors[t].src[j], b) { n := n + 1; }
          j := j + 1;
        }
        if n > nBest {
          nBest := n;
          best := b;
        }
      }
      b := b + 1;
    }
  }

  // ---------------------------------------------------------------- the upgrade of an assigned node

  /** Backend b keeps t in the same buffer type, runs it, and can use all of its sources. */
  predicate CanTake(sc: Sched, g: Graph, a: seq<int>, t: nat, from: nat, b: nat)
    requires g.IdsOk() && t < |g.tensors| == |a| && from < |sc.bufts| && b < |sc.bufts|
  {
    && sc.bufts[b] == sc.bufts[from] && sc.supportsOp(b, t)
    && forall j :: 0 <= j < |g.tensors[t].src| ==> BufferSupported(sc, g, a, g.tensors[t].src[j], b)
  }

  /** `b` is the lowest backend below `from` that can take t, or `from` if there is none. */
  ghost predicate IsUpgrade(sc: Sched, g: Graph, a: seq<int>, t: nat, from: nat, b: int)
    requires g.IdsOk() && t < |g.tensors| == |a| && from < |sc.bufts|
  {
    && 0 <= b <= from && (b < from ==> CanTake(sc, g, a, t, from, b))
    && forall c: nat :: c < b ==> !CanTake(sc, g, a, t, from, c)
  }

  method PickUpgrade(sc: Sched, g: Graph, bid: array<int>, t: nat) returns (b: int)
    requires g.IdsOk() && t < |g.tensors| == bid.Length && 0 <= bid[t] < |sc.bufts|
    ensures IsUpgrade(sc, g, bid[..], t, bid[t], b)
  {
    b := 0;
    while b < bid[t]
      invariant 0 <= b <= bid[t] && forall c: nat :: c < b ==> !CanTake(sc, g, bid[..], t, bid[t], c)
    {
      if sc.bufts[b] == sc.bufts[bid[t]] && sc.supportsOp(b, t) {
        var supported, j := true, 0;
        while j < |g.tensors[t].src| && supported
          invariant j <= |g.tensors[t].src|
          invariant supported <==> forall k :: 0 <= k < j ==> BufferSupported(sc, g, bid[..], g.tensors[t].src[k], b)
        {
          supported := BufferSupported(sc, g, bid[..], g.tensors[t].src[j], b);
          j := j + 1;
        }
        if supported { return; }
      }
      b := b + 1;
    }
  }

  // ---------------------------------------------------------------- the pass

  /** What pass 3 decides for node i, told from the assignment it starts with and the one it ends with. */
  ghost predicate Decided(sc: Sched, g: Graph, before: seq<int>, after: seq<int>, i: int)
    requires g.IdsOk() && |before| == |g.tensors| == |after| && 0 <= i < |g.nodes|
    requires forall t :: 0 <= t < |before| ==> UNASSIGNED <= before[t] < |sc.bufts|
  {
    var t := g.nodes[i];
    if !Real(g, i) then after[t] == before[t]
    else if before[t] == UNASSIGNED then IsBest(sc, g, after, t, |sc.bufts|, after[t])
    else IsUpgrade(sc, g, after, t, before[t], after[t])
  }

  ghost predicate Upgraded(sc: Sched, g: Graph, before: seq<int>, after: seq<int>, n: nat)
    requires g.IdsOk() && |before| == |g.tensors| == |after| && n <= |g.nodes|
    requires forall t :: 0 <= t < |before| ==> UNASSIGNED <= before[t] < |sc.bufts|
  {
    && (forall i :: 0 <= i < n ==> Decided(sc, g, before, after, i))
    && (forall t :: 0 <= t < |before| && t !in g.nodes[..n] ==> after[t] == before[t])
  }

  /** Two assignments agree on everything node t reads. */
  ghost predicate SameAtSources(g: Graph, a: seq<int>, c: seq<int>, t: nat)
    requires g.IdsOk() && t < |g.tensors| == |a| == |c|
  {
    forall s :: s in g.tensors[t].src ==> s < |g.tensors| && a[s] == c[s] && a[Root(g, s)] == c[Root(g, s)]
  }

  lemma UntouchedSources(g: Graph, a: seq<int>, c: seq<int>, k: nat, i: nat)
    requires SourcesFirst(g) && |a| == |g.tensors| == |c| && k <= i < |g.nodes|
    requires forall t :: 0 <= t < |a| && t != g.nodes[i] ==> a[t] == c[t]
    ensures SameAtSources(g, a, c, g.nodes[k])
  {
    assert !Touches(g, k, g.nodes[i]);
    forall s | s in g.tensors[g.nodes[k]].src ensures s != g.nodes[i] && Root(g, s) != g.nodes[i] {
      var j :| 0 <= j < |g.Src(k)| && g.Src(k)[j] == s;
    }
  }

  lemma {:induction false} CountFrame(sc: Sched, g: Graph, a: seq<int>, c: seq<int>, t: nat, b: nat, j: nat)
    requires g.IdsOk() && t < |g.tensors| == |a| == |c| && j <= |g.tensors[t].src|
    requires SameAtSources(g, a, c, t)
    ensures CountUsable(sc, g, a, t, b, j) == CountUsable(sc, g, c, t, b, j)
  {
    if j > 0 { CountFrame(sc, g, a, c, t, b, j - 1); }
  }

  lemma ChoicesFrame(sc: Sched, g: Graph, a: seq<int>, c: seq<int>, t: nat, from: int, b: int)
    requires g.IdsOk() && t < |g.tensors| == |a| == |c| && SameAtSources(g, a, c, t)
    ensures IsBest(sc, g, a, t, |sc.bufts|, b) ==> IsBest(sc, g, c, t, |sc.bufts|, b)
    ensures 0 <= from < |sc.bufts| && IsUpgrade(sc, g, a, t, from, b) ==> IsUpgrade(sc, g, c, t, from, b)
  {
    forall d: nat ensures Score(sc, g, a, t, d) == Score(sc, g, c, t, d) {
      CountFrame(sc, g, a, c, t, d, |g.tensors[t].src|);
    }
    if 0 <= from < |sc.bufts| {
      forall d: nat | d < |sc.bufts| ensures CanTake(sc, g, a, t, from, d) == CanTake(sc, g, c, t, from, d) {
        forall j | 0 <= j < |g.tensors[t].src|
          ensures BufferSupported(sc, g, a, g.tensors[t].src[j], d) == BufferSupported(sc, g, c, g.tensors[t].src[j], d)
        {
          assert g.tensors[t].src[j] in g.tensors[t].src;
        }
      }
    }
  }

  /** Reassigning node i does not disturb what was decided for an earlier node. */
  lemma DecidedFrame(sc: Sched, g: Graph, before: seq<int>, a: seq<int>, c: seq<int>, k: nat, i: nat)
    requires SourcesFirst(g) && |before| == |g.tensors| == |a| == |c| && k < i < |g.nodes|
    requires forall t :: 0 <= t < |before| ==> UNASSIGNED <= before[t] < |sc.bufts|
    requires forall t :: 0 <= t < |a| && t != g.nodes[i] ==> a[t] == c[t]
    requires Decided(sc, g, before, a, k)
    ensures Decided(sc, g, before, c, k)
  {
    hide IsBest;
    hide IsUpgrade;
    var t := g.nodes[k];
    UntouchedSources(g, a, c, k, i);
    ChoicesFrame(sc, g, a, c, t, before[t], a[t]);
  }

  /** A choice made from the assignment before node i is written holds of the assignment with the choice in it. */
  lemma ChoiceSettles(sc: Sched, g: Graph, before: seq<int>, a: seq<int>, i: nat, b: int)
    requires SourcesFirst(g) && |before| == |g.tensors| == |a| && i < |g.nodes|
    requires forall t :: 0 <= t < |before| ==> UNASSIGNED <= before[t] < |sc.bufts|
    requires Real(g, i)
    requires if before[g.nodes[i]] == UNASSIGNED then IsBest(sc, g, a, g.nodes[i], |sc.bufts|, b)
             else IsUpgrade(sc, g, a, g.nodes[i], before[g.nodes[i]], b)
    ensures Decided(sc, g, before, a[g.nodes[i] := b], i)
  {
    hide IsBest;
    hide IsUpgrade;
    var t := g.nodes[i];
    var c := a[t := b];
    UntouchedSources(g, a, c, i, i);
    ChoicesFrame(sc, g, a, c, t, before[t], b);
  }

  lemma UpgradedStep(sc: Sched, g: Graph, before: seq<int>, a: seq<int>, c: seq<int>, i: nat)
    requires SourcesFirst(g) && |before| == |g.tensors| == |a| == |c| && i < |g.nodes|
    requires forall t :: 0 <= t < |before| ==> UNASSIGNED <= before[t] < |sc.bufts|
    requires Upgraded(sc, g, before, a, i) && Decided(sc, g, before, c, i)
    requires forall t :: 0 <= t < |a| && t != g.nodes[i] ==> a[t] == c[t]
    ensures Upgraded(sc, g, before, c, i + 1)
  {
    forall k | 0 <= k < i ensures Decided(sc, g, before, c, k) { DecidedFrame(sc, g, before, a, c, k, i); }
    assert g.nodes[..i + 1] == g.nodes[..i] + [g.nodes[i]];
  }

  /** Pass 3. */
  method Upgrade(sc: Sched, g: Graph, bid: array<int>)
    requires SourcesFirst(g) && bid.Length == |g.tensors| && Assignment(sc, g, bid[..])
    modifies bid
    ensures Assignment(sc, g, bid[..]) && Upgraded(sc, g, old(bid[..]), bid[..], |g.nodes|)
  {
    ghost var before := bid[..];
    var i := 0;
    while i < |g.nodes|
      invariant i <= |g.nodes| && Assignment(sc, g, bid[..]) && Upgraded(sc, g, before, bid[..], i)
    {
      hide IsBest;
      hide IsUpgrade;
      var t := g.nodes[i];
      ghost var a := bid[..];
      if !IsViewOp(g.tensors[t].op) {
        var b;
        if bid[t] == UNASSIGNED { b := PickBest(sc, g, bid, t); } else { b := PickUpgrade(sc, g, bid, t); }
        ChoiceSettles(sc, g, before, a, i, b);
        bid[t] := b;
        assert bid[..] == a[t := b];
      }
      UpgradedStep(sc, g, before, a, bid[..], i);
      i := i + 1;
    }
  }
}
