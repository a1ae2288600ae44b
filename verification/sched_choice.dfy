/** What pass 3 chooses, told by where the sources are and what the backends can do, and what of it lasts. */
module SchedChoice {
  import opened Wrappers
  import opened TensorGraph
  import opened SchedModel
  import opened SchedAssign
  import opened SchedUpgrade
  import opened SchedFinish
  import opened SchedSplit

  /** The data of u is in a buffer of this type, or will be: in that of the tensor u stands for, else in one of the
      backend assigned to u, else in one of the backend assigned to the tensor it views. */
  ghost predicate LiesIn(sc: Sched, g: Graph, a: seq<int>, u: nat, buft: nat)
    requires g.IdsOk() && u < |g.tensors| && Assignment(sc, g, a)
  {
    var r := Root(g, u);
    if sc.buffer(r).Some? then sc.buffer(r).value.buft == buft
    else if a[u] >= 0 then sc.bufts[a[u]] == buft
    else a[r] >= 0 && sc.bufts[a[r]] == buft
  }

  ghost predicate CanRead(sc: Sched, g: Graph, a: seq<int>, u: nat, b: nat)
    requires g.IdsOk() && u < |g.tensors| && Assignment(sc, g, a)
  {
    exists buft: nat :: LiesIn(sc, g, a, u, buft) && sc.supportsBuft(b, buft)
  }

  /** A backend can use a tensor exactly when it supports the type of the buffer the tensor lies in. */
  lemma SupportedExactly(sc: Sched, g: Graph, a: seq<int>, u: nat, b: nat)
    requires g.IdsOk() && u < |g.tensors| && Assignment(sc, g, a)
    ensures BufferSupported(sc, g, a, u, b) <==> CanRead(sc, g, a, u, b)
  {
    var r := Root(g, u);
    var owner := if a[u] == UNASSIGNED then a[r] else a[u];
    if sc.buffer(r).Some? {
      assert LiesIn(sc, g, a, u, sc.buffer(r).value.buft);
    } else if owner >= 0 {
      assert LiesIn(sc, g, a, u, sc.bufts[owner]);
    }
  }

  /** A node on a backend reads a copy of every tensor of another backend that it cannot use where it is, and of no
      other. */
  lemma CopiedExactly(sc: Sched, g: Graph, a: seq<int>, u: nat, b: nat)
    requires g.IdsOk() && u < |g.tensors| && Assignment(sc, g, a)
    ensures NeedsCopy(sc, g, a, u, b) <==> a[u] != b && !CanRead(sc, g, a, u, b)
  {
    SupportedExactly(sc, g, a, u, b);
  }

  // ---------------------------------------------------------------- a node that pass 2 left over

  ghost predicate HasPlace(g: Graph, a: seq<int>, u: nat)
    requires g.IdsOk() && u < |g.tensors| == |a|
  {
    a[u] >= 0 || a[Root(g, u)] >= 0
  }

  /** The source slots of t that have a place from which b can read. */
  ghost function ReadableSlots(sc: Sched, g: Graph, a: seq<int>, t: nat, b: nat, n: nat): set<nat>
    requires g.IdsOk() && t < |g.tensors| && Assignment(sc, g, a) && n <= |g.tensors[t].src|
  {
    set j: nat | j < n && HasPlace(g, a, g.tensors[t].src[j]) && CanRead(sc, g, a, g.tensors[t].src[j], b)
  }

  lemma UsableExactly(sc: Sched, g: Graph, a: seq<int>, u: nat, b: nat)
    requires g.IdsOk() && u < |g.tensors| && Assignment(sc, g, a)
    ensures Usable(sc, g, a, u, b) <==> HasPlace(g, a, u) && CanRead(sc, g, a, u, b)
  {
    SupportedExactly(sc, g, a, u, b);
  }

  lemma {:induction false} CountIsCardinality(sc: Sched, g: Graph, a: seq<int>, t: nat, b: nat, n: nat)
    requires g.IdsOk() && t < |g.tensors| && Assignment(sc, g, a) && n <= |g.tensors[t].src|
    ensures CountUsable(sc, g, a, t, b, n) == |ReadableSlots(sc, g, a, t, b, n)|
  {
    if n > 0 {
      CountIsCardinality(sc, g, a, t, b, n - 1);
      UsableExactly(sc, g, a, g.tensors[t].src[n - 1], b);
      hide Usable;
      hide HasPlace;
      hide CanRead;
      var before, now := ReadableSlots(sc, g, a, t, b, n - 1), ReadableSlots(sc, g, a, t, b, n);
      assert now == if Usable(sc, g, a, g.tensors[t].src[n - 1], b) then before + {n - 1} else before;
    }
  }

  ghost function ReadableCount(sc: Sched, g: Graph, a: seq<int>, t: nat, b: nat): nat
    requires g.IdsOk() && t < |g.tensors| && Assignment(sc, g, a)
  {
    |ReadableSlots(sc, g, a, t, b, |g.tensors[t].src|)|
  }

  /** b runs t; every other backend that runs t can read fewer of its sources, or as many and is slower. */
  ghost predicate ReadsMost(sc: Sched, g: Graph, a: seq<int>, t: nat, b: int)
    requires g.IdsOk() && t < |g.tensors| && Assignment(sc, g, a)
  {
    && 0 <= b < |sc.bufts| && sc.supportsOp(b, t)
    && forall c: nat :: c < |sc.bufts| && sc.supportsOp(c, t) && c != b ==>
      ReadableCount(sc, g, a, t, c) < ReadableCount(sc, g, a, t, b)
        || (ReadableCount(sc, g, a, t, c) == ReadableCount(sc, g, a, t, b) && b < c)
  }

  lemma BestReadsMost(sc: Sched, g: Graph, a: seq<int>, t: nat, b: int)
    requires g.IdsOk() && t < |g.tensors| && Assignment(sc, g, a) && IsBest(sc, g, a, t, |sc.bufts|, b)
    ensures if b == UNASSIGNED then forall c: nat :: c < |sc.bufts| ==>
            !sc.supportsOp(c, t) else ReadsMost(sc, g, a, t, b)
  {
    hide ReadableSlots;
    hide CountUsable;
    forall c: nat ensures Score(sc, g, a, t, c) == ReadableCount(sc, g, a, t, c) {
      CountIsCardinality(sc, g, a, t, c, |g.tensors[t].src|);
    }
  }

  // ---------------------------------------------------------------- a node that has a backend

  /** c has the buffer type of `from`, runs t and can read all of its sources. */
  ghost predicate Fits(sc: Sched, g: Graph, a: seq<int>, t: nat, from: nat, c: nat)
    requires g.IdsOk() && t < |g.tensors| && Assignment(sc, g, a) && from < |sc.bufts| && c < |sc.bufts|
  {
    && sc.bufts[c] == sc.bufts[from] && sc.supportsOp(c, t)
    && forall j :: 0 <= j < |g.tensors[t].src| ==> CanRead(sc, g, a, g.tensors[t].src[j], c)
  }

  /** b is the fastest backend below `from` that fits, or `from` when none does. */
  ghost predicate FastestFit(sc: Sched, g: Graph, a: seq<int>, t: nat, from: nat, b: int)
    requires g.IdsOk() && t < |g.tensors| && Assignment(sc, g, a) && from < |sc.bufts|
  {
    && 0 <= b <= from && (b < from ==> Fits(sc, g, a, t, from, b))
    && forall c: nat :: c < b ==> !Fits(sc, g, a, t, from, c)
  }

  lemma UpgradeIsFastestFit(sc: Sched, g: Graph, a: seq<int>, t: nat, from: nat, b: int)
    requires g.IdsOk() && t < |g.tensors| && Assignment(sc, g, a) && from < |sc.bufts|
             && IsUpgrade(sc, g, a, t, from, b)
    ensures FastestFit(sc, g, a, t, from, b)
  {
    hide CanRead;
    forall c: nat | c < |sc.bufts| ensures CanTake(sc, g, a, t, from, c) <==> Fits(sc, g, a, t, from, c) {
      forall j | 0 <= j < |g.tensors[t].src|
        ensures BufferSupported(sc, g, a, g.tensors[t].src[j], c) <==> CanRead(sc, g, a, g.tensors[t].src[j], c)
      {
        SupportedExactly(sc, g, a, g.tensors[t].src[j], c);
      }
    }
  }

  // ---------------------------------------------------------------- what lasts

  /** Node i is no view operation, and this is where pass 2 left it. */
  ghost predicate NodeAfterPass2(sc: Sched, g: Graph, first: seq<int>, i: int, where: int)
    requires g.IdsOk() && Assignment(sc, g, first)
  {
    0 <= i < |g.nodes| && Real(g, i) && Pass2(sc, g, first)[g.nodes[i]] == where
  }

  /** A node that pass 2 left over ends on the backend that can read most of its sources where pass 3 sees them, the
      fastest of those that run it. */
  lemma LeftoverReadsMost(sc: Sched, g: Graph, first: seq<int>, third: seq<int>, final: seq<int>, i: nat, c: nat)
    requires Topological(g) && Assignment(sc, g, first) && Assignment(sc, g, third) && |final| == |g.tensors|
    requires Assignment(sc, g, Pass2(sc, g, first))
    requires Upgraded(sc, g, Pass2(sc, g, first), third, |g.nodes|) && CompleteTo(sc, g, third, final, |g.nodes|)
    requires NodeAfterPass2(sc, g, first, i, UNASSIGNED) && c < |sc.bufts| && sc.supportsOp(c, g.nodes[i])
    ensures ReadsMost(sc, g, third, g.nodes[i], final[g.nodes[i]])
  {
    hide Pass2;
    hide IsBest;
    hide IsUpgrade;
    hide ReadsMost;
    hide PlacedLate;
    hide PlacedForReader;
    hide Readable;
    hide Earlier;
    var t := g.nodes[i];
    assert Decided(sc, g, Pass2(sc, g, first), third, i);
    BestReadsMost(sc, g, third, t, third[t]);
  }

  /** A node that pass 2 placed ends on the fastest backend of the same buffer type that runs it and can read all of its
      sources where pass 3 sees them, or stays where it was. */
  lemma PlacedFitsFastest(sc: Sched, g: Graph, first: seq<int>, third: seq<int>, final: seq<int>, i: nat, from: nat)
    requires Topological(g) && Assignment(sc, g, first) && Assignment(sc, g, third) && |final| == |g.tensors|
    requires Assignment(sc, g, Pass2(sc, g, first))
    requires Upgraded(sc, g, Pass2(sc, g, first), third, |g.nodes|) && CompleteTo(sc, g, third, final, |g.nodes|)
    requires NodeAfterPass2(sc, g, first, i, from) && from < |sc.bufts|
    ensures FastestFit(sc, g, third, g.nodes[i], from, final[g.nodes[i]])
  {
    hide Pass2;
    hide IsBest;
    hide IsUpgrade;
    hide FastestFit;
    hide PlacedLate;
    hide PlacedForReader;
    hide Readable;
    hide Earlier;
    var t := g.nodes[i];
    assert Decided(sc, g, Pass2(sc, g, first), third, i);
    UpgradeIsFastestFit(sc, g, third, t, from, third[t]);
    assert third[t] != UNASSIGNED by { StaysPlaced(sc, g, third, t, from, third[t]); }
  }

  lemma StaysPlaced(sc: Sched, g: Graph, a: seq<int>, t: nat, from: nat, b: int)
    requires g.IdsOk() && t < |g.tensors| == |a| && from < |sc.bufts| && IsUpgrade(sc, g, a, t, from, b)
    ensures b >= 0
  {
  }
}
