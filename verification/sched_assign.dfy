/** Passes 1 to 4 of ggml_backend_sched_split_graph: which backend every tensor is assigned to. */
module SchedAssign {
  import opened Wrappers
  import opened TensorGraph
  import opened SchedModel

  /** Graph facts used here: nodes are distinct and not leafs. */
  ghost predicate Distinct(g: Graph) {
    && g.IdsOk()
    && (forall i, j :: 0 <= i < j < |g.nodes| ==> g.nodes[i] != g.nodes[j])
    && (forall k :: 0 <= k < |g.nodes| ==> g.nodes[k] !in g.leafs)
  }

  // ---------------------------------------------------------------- pass 1

  ghost predicate InGraph(g: Graph, t: nat) {
    t in g.leafs || t in g.nodes
  }

  /** Pass 1 guesses a backend for everything the user did not pin. */
  ghost predicate Guessed(sc: Sched, g: Graph, before: seq<int>, after: seq<int>)
    requires g.IdsOk() && |before| == |g.tensors| == |after|
  {
    forall t :: 0 <= t < |before| ==>
      if before[t] != UNASSIGNED || !InGraph(g, t) then after[t] == before[t]
      else FromCur(sc, g, t) == Some(after[t])
  }

  method GuessList(sc: Sched, g: Graph, list: seq<nat>, bid: array<int>) returns (ok: bool)
    requires g.IdsOk() && bid.Length == |g.tensors| && (forall k :: 0 <= k < |list| ==> list[k] < |g.tensors|)
    modifies bid
    ensures ok ==> forall t :: 0 <= t < |g.tensors| ==>
              if old(bid[..])[t] != UNASSIGNED || t !in list then bid[..][t] == old(bid[..])[t]
                else FromCur(sc, g, t) == Some(bid[..][t])
    ensures !ok ==> exists t :: t in list && FromCur(sc, g, t).None?
  {
    var i := 0;
    while i < |list|
      invariant i <= |list|
      invariant forall t :: 0 <= t < |g.tensors| ==>
                  if old(bid[..])[t] != UNASSIGNED || t !in list[..i] then bid[..][t] == old(bid[..])[t]
                    else FromCur(sc, g, t) == Some(bid[..][t])
    {
      var t := list[i];
      if bid[t] == UNASSIGNED {
        var b := FromCur(sc, g, t);
        if b.None? { return false; }
        bid[t] := b.value;
      }
      i := i + 1;
    }
    ok := true;
  }

  // ---------------------------------------------------------------- pass 2

  /** Node i is not a view operation and has a backend. */
  predicate Placed(g: Graph, a: seq<int>, i: int)
    requires g.IdsOk() && |a| == |g.tensors| && 0 <= i < |g.nodes|
  {
    Real(g, i) && a[g.nodes[i]] != UNASSIGNED
  }

  /** The backend of the nearest placed node before position i, or UNASSIGNED. */
  function Above(g: Graph, a: seq<int>, i: nat): int
    requires g.IdsOk() && |a| == |g.tensors| && i <= |g.nodes|
  {
    if i == 0 then UNASSIGNED else if Placed(g, a, i - 1) then a[g.nodes[i - 1]] else Above(g, a, i - 1)
  }

  /** The backend of the nearest placed node at position i or later, or UNASSIGNED. */
  function Below(g: Graph, a: seq<int>, i: nat): int
    requires g.IdsOk() && |a| == |g.tensors| && i <= |g.nodes|
    decreases |g.nodes| - i
  {
    if i == |g.nodes| then UNASSIGNED else if Placed(g, a, i) then a[g.nodes[i]] else Below(g, a, i + 1)
  }

  /** A sweep for the faster backends does not hand the last backend on. */
  function HandOn(sc: Sched, skipLast: bool, b: int): int {
    if skipLast && b == |sc.bufts| - 1 then UNASSIGNED else b
  }

  /** The sweep leaves backend `from` where it cannot run the node. */
  predicate Joins(sc: Sched, skipLast: bool, from: int, t: nat) {
    var b := HandOn(sc, skipLast, from);
    b >= 0 && sc.supportsOp(b, t)
  }

  /** The loop "expand down" from position i on, with the current backend `cur`. */
  function SweepDown(sc: Sched, g: Graph, skipLast: bool, a: seq<int>, i: nat, cur: int): (r: seq<int>)
    requires g.IdsOk() && |a| == |g.tensors| && i <= |g.nodes| && cur >= UNASSIGNED
    requires forall t :: 0 <= t < |a| ==> a[t] >= UNASSIGNED
    ensures |r| == |a| && forall t :: 0 <= t < |r| ==> r[t] >= UNASSIGNED
    decreases |g.nodes| - i
  {
    if i == |g.nodes| then a
    else
      var t := g.nodes[i];
      if !Real(g, i) then SweepDown(sc, g, skipLast, a, i + 1, cur)
      else if a[t] != UNASSIGNED then SweepDown(sc, g, skipLast, a, i + 1, HandOn(sc, skipLast, a[t]))
      else if cur != UNASSIGNED && sc.supportsOp(cur, t) then SweepDown(sc, g, skipLast, a[t := cur], i + 1, cur)
      else SweepDown(sc, g, skipLast, a, i + 1, cur)
  }

  /** The loop "expand up": positions i-1, i-2, ..., 0. */
  function SweepUp(sc: Sched, g: Graph, skipLast: bool, a: seq<int>, i: nat, cur: int): (r: seq<int>)
    requires g.IdsOk() && |a| == |g.tensors| && i <= |g.nodes| && cur >= UNASSIGNED
    requires forall t :: 0 <= t < |a| ==> a[t] >= UNASSIGNED
    ensures |r| == |a| && forall t :: 0 <= t < |r| ==> r[t] >= UNASSIGNED
    decreases i
  {
    if i == 0 then a
    else
      var t := g.nodes[i - 1];
      if !Real(g, i - 1) then SweepUp(sc, g, skipLast, a, i - 1, cur)
      else if a[t] != UNASSIGNED then SweepUp(sc, g, skipLast, a, i - 1, HandOn(sc, skipLast, a[t]))
      else if cur != UNASSIGNED && sc.supportsOp(cur, t) then SweepUp(sc, g, skipLast, a[t := cur], i - 1, cur)
      else SweepUp(sc, g, skipLast, a, i - 1, cur)
  }

  /** The four sweeps of pass 2. */
  function Pass2(sc: Sched, g: Graph, a: seq<int>): (r: seq<int>)
    requires g.IdsOk() && |a| == |g.tensors| && forall t :: 0 <= t < |a| ==> a[t] >= UNASSIGNED
    ensures |r| == |a|
  {
    var a1 := SweepDown(sc, g, true, a, 0, UNASSIGNED);
    var a2 := SweepUp(sc, g, true, a1, |g.nodes|, UNASSIGNED);
    var a3 := SweepDown(sc, g, false, a2, 0, UNASSIGNED);
    SweepUp(sc, g, false, a3, |g.nodes|, UNASSIGNED)
  }

  method ExpandDown(sc: Sched, g: Graph, skipLast: bool, bid: array<int>)
    requires g.IdsOk() && bid.Length == |g.tensors| && Assignment(sc, g, bid[..])
    modifies bid
    ensures bid[..] == SweepDown(sc, g, skipLast, old(bid[..]), 0, UNASSIGNED)
  {
    var cur, i := UNASSIGNED, 0;
    while i < |g.nodes|
      invariant i <= |g.nodes| && cur >= UNASSIGNED
      invariant forall t :: 0 <= t < |g.tensors| ==> bid[..][t] >= UNASSIGNED
      invariant SweepDown(sc, g, skipLast, old(bid[..]), 0, UNASSIGNED) == SweepDown(sc, g, skipLast, bid[..], i, cur)
    {
      var t := g.nodes[i];
      if !IsViewOp(g.tensors[t].op) {
        if bid[t] != UNASSIGNED {
          cur := if skipLast && bid[t] == |sc.bufts| - 1 then UNASSIGNED else bid[t];
        } else if cur != UNASSIGNED && sc.supportsOp(cur, t) {
          ghost var a := bid[..];
          bid[t] := cur;
          assert bid[..] == a[t := cur];
        }
      }
      i := i + 1;
    }
  }

  method ExpandUp(sc: Sched, g: Graph, skipLast: bool, bid: array<int>)
    requires g.IdsOk() && bid.Length == |g.tensors| && Assignment(sc, g, bid[..])
    modifies bid
    ensures bid[..] == SweepUp(sc, g, skipLast, old(bid[..]), |g.nodes|, UNASSIGNED)
  {
    var cur, i := UNASSIGNED, |g.nodes|;
    while i > 0
      invariant 0 <= i <= |g.nodes| && cur >= UNASSIGNED
      invariant forall t :: 0 <= t < |g.tensors| ==> bid[..][t] >= UNASSIGNED
      invariant SweepUp(sc, g, skipLast, old(bid[..]), |g.nodes|, UNASSIGNED)
                == SweepUp(sc, g, skipLast, bid[..], i, cur)
    {
      i := i - 1;
      var t := g.nodes[i];
      if !IsViewOp(g.tensors[t].op) {
        if bid[t] != UNASSIGNED {
          cur := if skipLast && bid[t] == |sc.bufts| - 1 then UNASSIGNED else bid[t];
        } else if cur != UNASSIGNED && sc.supportsOp(cur, t) {
          ghost var a := bid[..];
          bid[t] := cur;
          assert bid[..] == a[t := cur];
        }
      }
    }
  }

  // ---------------------------------------------------------------- what pass 2 achieves

  /** Whoever is left cannot run where the nearest placed node above runs. */
  ghost predicate BlockedAbove(sc: Sched, g: Graph, skipLast: bool, a: seq<int>, n: nat)
    requires g.IdsOk() && |a| == |g.tensors| && n <= |g.nodes|
  {
    forall i :: 0 <= i < n && Real(g, i) && a[g.nodes[i]] == UNASSIGNED ==>
      !Joins(sc, skipLast, Above(g, a, i), g.nodes[i])
  }

  /** Whoever is left at position n or later cannot run where the nearest placed node below runs. */
  ghost predicate BlockedBelow(sc: Sched, g: Graph, skipLast: bool, a: seq<int>, n: nat)
    requires g.IdsOk() && |a| == |g.tensors| && n <= |g.nodes|
  {
    forall i :: n <= i < |g.nodes| && Real(g, i) && a[g.nodes[i]] == UNASSIGNED ==>
      !Joins(sc, skipLast, Below(g, a, i + 1), g.nodes[i])
  }

  /** Only nodes that were unassigned and are not view operations got a backend, and one that runs them. */
  ghost predicate Expanded(sc: Sched, g: Graph, skipLast: bool, before: seq<int>, after: seq<int>)
    requires g.IdsOk() && |before| == |g.tensors|
  {
    && |after| == |before|
    && forall t :: 0 <= t < |before| && after[t] != before[t] ==>
      before[t] == UNASSIGNED && 0 <= after[t] < |sc.bufts| && sc.supportsOp(after[t], t) && RealNode(g, t)
      && (skipLast ==> after[t] != |sc.bufts| - 1)
  }

  lemma {:induction false} AboveFrame(g: Graph, a: seq<int>, b: seq<int>, i: nat)
    requires g.IdsOk() && |a| == |g.tensors| == |b| && i <= |g.nodes|
    requires forall k :: 0 <= k < i ==> a[g.nodes[k]] == b[g.nodes[k]]
    ensures Above(g, a, i) == Above(g, b, i)
  {
    if i > 0 { AboveFrame(g, a, b, i - 1); }
  }

  lemma {:induction false} BelowFrame(g: Graph, a: seq<int>, b: seq<int>, i: nat)
    requires g.IdsOk() && |a| == |g.tensors| == |b| && i <= |g.nodes|
    requires forall k :: i <= k < |g.nodes| ==> a[g.nodes[k]] == b[g.nodes[k]]
    ensures Below(g, a, i) == Below(g, b, i)
    decreases |g.nodes| - i
  {
    if i < |g.nodes| { BelowFrame(g, a, b, i + 1); }
  }

  lemma ExpandedCompose(sc: Sched, g: Graph, skipA: bool, skipB: bool, a: seq<int>, b: seq<int>, c: seq<int>)
    requires g.IdsOk() && |a| == |g.tensors| && Expanded(sc, g, skipA, a, b) && Expanded(sc, g, skipB, b, c)
    ensures Expanded(sc, g, skipA && skipB, a, c)
  {
  }

  /** Placing node i on the backend handed on from above. */
  lemma PlaceDown(sc: Sched, g: Graph, skipLast: bool, a: seq<int>, i: nat)
    requires Distinct(g) && Assignment(sc, g, a) && i < |g.nodes| && Real(g, i) && a[g.nodes[i]] == UNASSIGNED
    requires BlockedAbove(sc, g, skipLast, a, i) && Joins(sc, skipLast, Above(g, a, i), g.nodes[i])
             && Above(g, a, i) < |sc.bufts|
    ensures var cur := HandOn(sc, skipLast, Above(g, a, i));
            var b := a[g.nodes[i] := cur];
            && Assignment(sc, g, b) && Expanded(sc, g, skipLast, a, b)
            && BlockedAbove(sc, g, skipLast, b, i + 1) && HandOn(sc, skipLast, Above(g, b, i + 1)) == cur
  {
    var b := a[g.nodes[i] := HandOn(sc, skipLast, Above(g, a, i))];
    forall k | 0 <= k <= i ensures Above(g, a, k) == Above(g, b, k) { AboveFrame(g, a, b, k); }
  }

  lemma {:induction false} AboveIsBackend(sc: Sched, g: Graph, a: seq<int>, i: nat)
    requires g.IdsOk() && Assignment(sc, g, a) && i <= |g.nodes|
    ensures UNASSIGNED <= Above(g, a, i) < |sc.bufts|
  {
    if i > 0 { AboveIsBackend(sc, g, a, i - 1); }
  }

  lemma {:induction false} BelowIsBackend(sc: Sched, g: Graph, a: seq<int>, i: nat)
    requires g.IdsOk() && Assignment(sc, g, a) && i <= |g.nodes|
    ensures UNASSIGNED <= Below(g, a, i) < |sc.bufts|
    decreases |g.nodes| - i
  {
    if i < |g.nodes| { BelowIsBackend(sc, g, a, i + 1); }
  }

  lemma {:induction false} SweepDownMeaning(sc: Sched, g: Graph, skipLast: bool, a: seq<int>, i: nat, cur: int)
    requires Distinct(g) && Assignment(sc, g, a) && i <= |g.nodes| && cur == HandOn(sc, skipLast, Above(g, a, i))
             && cur >= UNASSIGNED
    requires BlockedAbove(sc, g, skipLast, a, i)
    ensures var r := SweepDown(sc, g, skipLast, a, i, cur);
            Assignment(sc, g, r) && Expanded(sc, g, skipLast, a, r) && BlockedAbove(sc, g, skipLast, r, |g.nodes|)
    decreases |g.nodes| - i
  {
    if i < |g.nodes| {
      var t := g.nodes[i];
      AboveIsBackend(sc, g, a, i);
      if Real(g, i) && a[t] == UNASSIGNED && cur != UNASSIGNED && sc.supportsOp(cur, t) {
        hide BlockedAbove;
        PlaceDown(sc, g, skipLast, a, i);
        SweepDownMeaning(sc, g, skipLast, a[t := cur], i + 1, cur);
        ExpandedCompose(sc, g, skipLast, skipLast, a, a[t := cur], SweepDown(sc, g, skipLast, a, i, cur));
      } else {
        SweepDownMeaning(sc, g, skipLast, a, i + 1, HandOn(sc, skipLast, Above(g, a, i + 1)));
      }
    }
  }

  /** Placing node i on the backend handed on from below. */
  lemma PlaceUp(sc: Sched, g: Graph, skipLast: bool, a: seq<int>, i: nat)
    requires Distinct(g) && Assignment(sc, g, a) && i < |g.nodes| && Real(g, i) && a[g.nodes[i]] == UNASSIGNED
    requires BlockedBelow(sc, g, skipLast, a, i + 1) && Joins(sc, skipLast, Below(g, a, i + 1), g.nodes[i])
             && Below(g, a, i + 1) < |sc.bufts|
    ensures var cur := HandOn(sc, skipLast, Below(g, a, i + 1));
            var b := a[g.nodes[i] := cur];
            && Assignment(sc, g, b) && Expanded(sc, g, skipLast, a, b)
            && BlockedBelow(sc, g, skipLast, b, i) && HandOn(sc, skipLast, Below(g, b, i)) == cur
  {
    var b := a[g.nodes[i] := HandOn(sc, skipLast, Below(g, a, i + 1))];
    forall k | i < k <= |g.nodes| ensures Below(g, a, k) == Below(g, b, k) { BelowFrame(g, a, b, k); }
  }

  /** A position that the sweep up leaves alone. */
  lemma LeaveUp(sc: Sched, g: Graph, skipLast: bool, a: seq<int>, i: nat, cur: int)
    requires Distinct(g) && Assignment(sc, g, a) && i < |g.nodes| && cur == HandOn(sc, skipLast, Below(g, a, i + 1))
             && cur >= UNASSIGNED
    requires BlockedBelow(sc, g, skipLast, a, i + 1)
    requires !(Real(g, i) && a[g.nodes[i]] == UNASSIGNED && cur != UNASSIGNED && sc.supportsOp(cur, g.nodes[i]))
    ensures HandOn(sc, skipLast, Below(g, a, i)) >= UNASSIGNED && BlockedBelow(sc, g, skipLast, a, i)
    ensures SweepUp(sc, g, skipLast, a, i + 1, cur) == SweepUp(sc, g, skipLast, a, i,
              HandOn(sc, skipLast, Below(g, a, i)))
  {
    BelowIsBackend(sc, g, a, i);
  }

  /** A position that the sweep up fills. */
  lemma FillUp(sc: Sched, g: Graph, skipLast: bool, a: seq<int>, i: nat, cur: int)
    requires g.IdsOk() && Assignment(sc, g, a) && i < |g.nodes| && cur >= UNASSIGNED
    requires Real(g, i) && a[g.nodes[i]] == UNASSIGNED && cur != UNASSIGNED && sc.supportsOp(cur, g.nodes[i])
    ensures SweepUp(sc, g, skipLast, a, i + 1, cur) == SweepUp(sc, g, skipLast, a[g.nodes[i] := cur], i, cur)
  {
  }

  lemma {:induction false} SweepUpMeaning(sc: Sched, g: Graph, skipLast: bool, a: seq<int>, i: nat, cur: int)
    requires Distinct(g) && Assignment(sc, g, a) && i <= |g.nodes| && cur == HandOn(sc, skipLast, Below(g, a, i))
             && cur >= UNASSIGNED
    requires BlockedBelow(sc, g, skipLast, a, i)
    ensures var r := SweepUp(sc, g, skipLast, a, i, cur);
            Assignment(sc, g, r) && Expanded(sc, g, skipLast, a, r) && BlockedBelow(sc, g, skipLast, r, 0)
    decreases i
  {
    hide BlockedBelow;
    hide Below;
    if i > 0 {
      hide SweepUp;
      hide Expanded;
      var j := i - 1;
      var t := g.nodes[j];
      BelowIsBackend(sc, g, a, i);
      if Real(g, j) && a[t] == UNASSIGNED && cur != UNASSIGNED && sc.supportsOp(cur, t) {
        FillUp(sc, g, skipLast, a, j, cur);
        PlaceUp(sc, g, skipLast, a, j);
        SweepUpMeaning(sc, g, skipLast, a[t := cur], j, cur);
        ExpandedCompose(sc, g, skipLast, skipLast, a, a[t := cur], SweepUp(sc, g, skipLast, a, i, cur));
      } else {
        LeaveUp(sc, g, skipLast, a, j, cur);
        SweepUpMeaning(sc, g, skipLast, a, j, HandOn(sc, skipLast, Below(g, a, j)));
      }
    }
  }

  /** Placing position i changes what position k sees above it only if nothing between them is placed,
      and then both see the same below. */
  lemma {:induction false} PlacedAbove(g: Graph, a: seq<int>, i: nat, v: int, k: nat)
    requires Distinct(g) && |a| == |g.tensors| && i < k <= |g.nodes| && Real(g, i) && v != UNASSIGNED
    ensures var b := a[g.nodes[i] := v];
            Above(g, b, k) == Above(g, a, k) || (Above(g, b, k) == v && Below(g, a, i + 1) == Below(g, a, k))
    decreases k
  {
    if k > i + 1 { PlacedAbove(g, a, i, v, k - 1); }
  }

  /** Placing node i from below does not unblock anybody seen from above. */
  lemma PlaceUpKeepsBlocked(sc: Sched, g: Graph, a: seq<int>, i: nat, cur: int)
    requires Distinct(g) && Assignment(sc, g, a) && i < |g.nodes| && Real(g, i) && a[g.nodes[i]] == UNASSIGNED
    requires cur == Below(g, a, i + 1) && cur != UNASSIGNED
    requires BlockedBelow(sc, g, false, a, i + 1) && BlockedAbove(sc, g, false, a, |g.nodes|)
    ensures BlockedAbove(sc, g, false, a[g.nodes[i] := cur], |g.nodes|)
  {
    var b := a[g.nodes[i] := cur];
    forall k | 0 <= k < |g.nodes| && Real(g, k) && b[g.nodes[k]] == UNASSIGNED
      ensures !Joins(sc, false, Above(g, b, k), g.nodes[k])
    {
      if k < i {
        AboveFrame(g, a, b, k);
      } else {
        PlacedAbove(g, a, i, cur, k);
      }
    }
  }

  /** The sweep up does not undo what the sweep down achieved. */
  lemma {:induction false} SweepUpKeepsBlocked(sc: Sched, g: Graph, a: seq<int>, i: nat, cur: int)
    requires Distinct(g) && Assignment(sc, g, a) && i <= |g.nodes| && cur == Below(g, a, i) && cur >= UNASSIGNED
    requires BlockedBelow(sc, g, false, a, i) && BlockedAbove(sc, g, false, a, |g.nodes|)
    ensures BlockedAbove(sc, g, false, SweepUp(sc, g, false, a, i, cur), |g.nodes|)
    decreases i
  {
    hide BlockedAbove;
    hide BlockedBelow;
    hide Below;
    if i > 0 {
      hide SweepUp;
      var j := i - 1;
      var t := g.nodes[j];
      BelowIsBackend(sc, g, a, i);
      if Real(g, j) && a[t] == UNASSIGNED && cur != UNASSIGNED && sc.supportsOp(cur, t) {
        FillUp(sc, g, false, a, j, cur);
        PlaceUp(sc, g, false, a, j);
        PlaceUpKeepsBlocked(sc, g, a, j, cur);
        SweepUpKeepsBlocked(sc, g, a[t := cur], j, cur);
      } else {
        LeaveUp(sc, g, false, a, j, cur);
        SweepUpKeepsBlocked(sc, g, a, j, Below(g, a, j));
      }
    }
  }

  /** Pass 2: pins stay, new assignments run their operation, and whatever is still unassigned cannot run on the backend
      of the nearest placed node on either side. */
  lemma Pass2Meaning(sc: Sched, g: Graph, a: seq<int>)
    requires Distinct(g) && Assignment(sc, g, a)
    ensures var r := Pass2(sc, g, a);
            && Assignment(sc, g, r) && Expanded(sc, g, false, a, r)
            && BlockedAbove(sc, g, false, r, |g.nodes|) && BlockedBelow(sc, g, false, r, 0)
  {
    var a1 := SweepDown(sc, g, true, a, 0, UNASSIGNED);
    SweepDownMeaning(sc, g, true, a, 0, UNASSIGNED);
    var a2 := SweepUp(sc, g, true, a1, |g.nodes|, UNASSIGNED);
    SweepUpMeaning(sc, g, true, a1, |g.nodes|, UNASSIGNED);
    var a3 := SweepDown(sc, g, false, a2, 0, UNASSIGNED);
    SweepDownMeaning(sc, g, false, a2, 0, UNASSIGNED);
    SweepUpMeaning(sc, g, false, a3, |g.nodes|, UNASSIGNED);
    SweepUpKeepsBlocked(sc, g, a3, |g.nodes|, UNASSIGNED);
    ExpandedCompose(sc, g, true, true, a, a1, a2);
    ExpandedCompose(sc, g, true, false, a, a2, a3);
    ExpandedCompose(sc, g, false, false, a, a3, Pass2(sc, g, a));
  }

  /** The last backend is the fallback: a node goes there in pass 2 only if, once the sweeps for the faster backends are
      over, it cannot run on the faster backend of its nearest placed neighbour below. */
  lemma LastBackendIsFallback(sc: Sched, g: Graph, a: seq<int>, i: nat)
    requires Distinct(g) && Assignment(sc, g, a) && i < |g.nodes| && Real(g, i) && a[g.nodes[i]] == UNASSIGNED
    requires Pass2(sc, g, a)[g.nodes[i]] == |sc.bufts| - 1
    ensures var fast := SweepUp(sc, g, true, SweepDown(sc, g, true, a, 0, UNASSIGNED), |g.nodes|, UNASSIGNED);
            fast[g.nodes[i]] == UNASSIGNED && !Joins(sc, true, Below(g, fast, i + 1), g.nodes[i])
  {
    var a1 := SweepDown(sc, g, true, a, 0, UNASSIGNED);
    SweepDownMeaning(sc, g, true, a, 0, UNASSIGNED);
    var a2 := SweepUp(sc, g, true, a1, |g.nodes|, UNASSIGNED);
    SweepUpMeaning(sc, g, true, a1, |g.nodes|, UNASSIGNED);
    var a3 := SweepDown(sc, g, false, a2, 0, UNASSIGNED);
    SweepDownMeaning(sc, g, false, a2, 0, UNASSIGNED);
    SweepUpMeaning(sc, g, false, a3, |g.nodes|, UNASSIGNED);
  }
}
