/** The loop of pass 5, and when it starts a new split. */
module SchedCut {
  import opened Wrappers
  import opened TensorGraph
  import opened SchedModel
  import opened SchedSplit

  predicate IsWeight(sc: Sched, t: nat) {
    sc.buffer(t).Some? && sc.buffer(t).value.weights
  }

  /** Source t asks for a new split although the backend stays the same: it is a weight that has to be copied,
      or it has to be copied and no input slot is left. */
  predicate Pushes(sc: Sched, g: Graph, a: seq<int>, t: nat, b: int, nInputs: nat, copies: Copies)
    requires g.IdsOk() && t < |g.tensors| == |a|
  {
    NeedsCopy(sc, g, a, t, b) && (IsWeight(sc, t) || (nInputs == MAX_INPUTS && (t, b) !in copies))
  }

  method NeedNewSplit(sc: Sched, g: Graph, a: seq<int>, i: nat, b: int, nInputs: nat, copies: Copies) returns (r: bool)
    requires g.IdsOk() && |a| == |g.tensors| && i < |g.nodes|
    ensures r <==> exists j :: 0 <= j < |g.Src(i)| && Pushes(sc, g, a, g.Src(i)[j], b, nInputs, copies)
  {
    var j := 0;
    while j < |g.Src(i)|
      invariant j <= |g.Src(i)| && forall k :: 0 <= k < j ==> !Pushes(sc, g, a, g.Src(i)[k], b, nInputs, copies)
    {
      var src := g.Src(i)[j];
      if IsWeight(sc, src) && NeedsCopy(sc, g, a, src, b) { return true; }
      if nInputs == MAX_INPUTS && NeedsCopy(sc, g, a, src, b) && (src, b) !in copies { return true; }
      j := j + 1;
    }
    r := false;
  }

  /** Why split s was started: the backend changes, or its first node reads a tensor that could not join the split
      before. */
  ghost predicate Justified(sc: Sched, g: Graph, a: seq<int>, splits: seq<Split>, s: int)
    requires g.IdsOk() && |a| == |g.tensors| && 0 < s < |splits|
  {
    var prev, cur := splits[s - 1], splits[s];
    && cur.start < cur.end && cur.start < |g.nodes| && Real(g, cur.start)
    && (prev.backend != cur.backend
        || (prev.inputs != []
            && exists t :: t in g.Src(cur.start) && t < |g.tensors| && NeedsCopy(sc, g, a, t, cur.backend)
                 && ((sc.buffer(t).Some? && sc.buffer(t).value.weights)
                     || (|prev.inputs| == MAX_INPUTS && t in cur.inputs))))
  }

  /** Node k reads a weight that has to be copied. */
  ghost predicate ReadsFarWeight(sc: Sched, g: Graph, a: seq<int>, k: int)
    requires g.IdsOk() && |a| == |g.tensors| && 0 <= k < |g.nodes|
  {
    Real(g, k) && exists t :: t in g.Src(k) && t < |g.tensors| && sc.buffer(t).Some? && sc.buffer(t).value.weights
                              && NeedsCopy(sc, g, a, t, a[g.nodes[k]])
  }

  /** No node of split s before k reads an input of the split. */
  ghost predicate NoInputsBefore(g: Graph, s: Split, k: int)
    requires g.IdsOk()
  {
    forall i, u :: s.start <= i < k && i < |g.nodes| && Real(g, i) && u in g.Src(i) ==> u !in s.inputs
  }

  /** A far weight is read at the start of the copying part of its split, so that the memory of earlier weights can be
      reused. */
  ghost predicate WeightsFirst(sc: Sched, g: Graph, a: seq<int>, splits: seq<Split>)
    requires g.IdsOk() && |a| == |g.tensors|
  {
    forall s, k :: 0 <= s < |splits| && splits[s].start <= k < splits[s].end && k < |g.nodes|
                   && ReadsFarWeight(sc, g, a, k) ==>
      NoInputsBefore(g, splits[s], k)
  }

  ghost predicate Boundaries(sc: Sched, g: Graph, a: seq<int>, splits: seq<Split>)
    requires g.IdsOk() && |a| == |g.tensors|
  {
    && (forall s :: 0 < s < |splits| ==> Justified(sc, g, a, splits, s))
    && WeightsFirst(sc, g, a, splits)
  }

  // ---------------------------------------------------------------- steps

  /** What earlier nodes of a backend read through a copy has its copy already. */
  lemma HasCopy(sc: Sched, g: Graph, a: seq<int>, c: Cut, i: nat, k: nat, u: nat)
    requires g.IdsOk() && |a| == |g.tensors| && k < i <= |g.nodes| && CutOk(sc, g, a, c, i)
    requires Real(g, k) && u in g.Src(k) && u < |g.tensors| && NeedsCopy(sc, g, a, u, a[g.nodes[k]])
    ensures (u, a[g.nodes[k]]) in c.copies
  {
    hide Numbered;
    hide RowsOk;
    hide NeedsCopy;
    hide UsedIn;
    assert FilledInTime(sc, g, a, c.splits, k);
    var s :| Fills(c.splits, s, u, a[g.nodes[k]]) && c.splits[s].start <= k;
    assert InputsOk(sc, g, a, c.copies, c.splits[s]);
  }

  lemma NewInputIsNew(sc: Sched, g: Graph, a: seq<int>, before: Copies, inputs: seq<nat>, after: Copies, more: seq<nat>,
                      i: int, u: nat)
    requires g.IdsOk() && |a| == |g.tensors| && 0 <= i < |g.nodes| && Extends(sc, g, a, before, inputs, after, more, i)
    ensures u in more[|inputs|..] ==>
            u < |g.tensors| && NeedsCopy(sc, g, a, u, a[g.nodes[i]]) && (u, a[g.nodes[i]]) !in before
  {
  }

  lemma NotNewlyNeeded(sc: Sched, g: Graph, a: seq<int>, c: Cut, i: nat, after: Copies, more: seq<nat>, k: nat, u: nat)
    requires g.IdsOk() && |a| == |g.tensors| && k < i < |g.nodes| && CutOk(sc, g, a, c, i)
    requires a[g.nodes[k]] == a[g.nodes[i]] && Real(g, k) && u in g.Src(k)
    requires Extends(sc, g, a, c.copies, Last(c).inputs, after, more, i)
    ensures u !in more[|Last(c).inputs|..]
  {
    hide CutOk;
    hide NeedsCopy;
    CutTiles(sc, g, a, c, i);
    if u < |g.tensors| && NeedsCopy(sc, g, a, u, a[g.nodes[k]]) { HasCopy(sc, g, a, c, i, k, u); }
    NewInputIsNew(sc, g, a, c.copies, Last(c).inputs, after, more, i, u);
  }

  /** Growing the last split by node i keeps far weights first, if the split was empty or node i reads no far weight. */
  lemma GrowWeightsFirst(sc: Sched, g: Graph, a: seq<int>, c: Cut, i: nat, after: Copies, more: seq<nat>)
    requires g.IdsOk() && |a| == |g.tensors| && i < |g.nodes| && CutOk(sc, g, a, c, i)
             && WeightsFirst(sc, g, a, c.splits)
    requires Real(g, i) && Last(c).backend == a[g.nodes[i]]
             && Extends(sc, g, a, c.copies, Last(c).inputs, after, more, i)
    requires Last(c).inputs == [] || !ReadsFarWeight(sc, g, a, i)
    ensures WeightsFirst(sc, g, a, WithLast(c, Last(c).(end := i + 1, inputs := more)))
  {
    hide Numbered;
    hide RowsOk;
    hide NeedsCopy;
    hide InputsOk;
    hide FilledInTime;
    hide FilledOnce;
    hide ReadsFarWeight;
    var grown := WithLast(c, Last(c).(end := i + 1, inputs := more));
    forall s, k | 0 <= s < |grown| && grown[s].start <= k < grown[s].end && k < |g.nodes| && ReadsFarWeight(sc, g, a, k)
      ensures NoInputsBefore(g, grown[s], k)
    {
      if s < |grown| - 1 {
        assert NoInputsBefore(g, c.splits[s], k);
      } else {
        GrowLast(sc, g, a, c, i, after, more, k);
      }
    }
  }

  lemma GrowLast(sc: Sched, g: Graph, a: seq<int>, c: Cut, i: nat, after: Copies, more: seq<nat>, k: nat)
    requires g.IdsOk() && |a| == |g.tensors| && i < |g.nodes| && CutOk(sc, g, a, c, i)
             && WeightsFirst(sc, g, a, c.splits)
    requires Real(g, i) && Last(c).backend == a[g.nodes[i]]
             && Extends(sc, g, a, c.copies, Last(c).inputs, after, more, i)
    requires Last(c).inputs == [] || !ReadsFarWeight(sc, g, a, i)
    requires Last(c).start <= k <= i && ReadsFarWeight(sc, g, a, k)
    ensures NoInputsBefore(g, Last(c).(end := i + 1, inputs := more), k)
  {
    hide Numbered;
    hide RowsOk;
    hide NeedsCopy;
    hide InputsOk;
    hide FilledInTime;
    hide FilledOnce;
    hide ReadsFarWeight;
    var last := Last(c);
    forall m, u | last.start <= m < k && m < |g.nodes| && Real(g, m) && u in g.Src(m) ensures u !in more {
      assert c.splits[|c.splits| - 1].start <= m < c.splits[|c.splits| - 1].end;
      NotNewlyNeeded(sc, g, a, c, i, after, more, m, u);
      InputsStay(last.inputs, more, u);
      if k < i { assert NoInputsBefore(g, last, k); }
    }
  }

  /** A split just started for node i is justified once node i is in it. */
  lemma NewSplitJustified(sc: Sched, g: Graph, a: seq<int>, c: Cut, i: nat, after: Copies, more: seq<nat>,
                          row: seq<nat>)
    requires g.IdsOk() && |a| == |g.tensors| && i < |g.nodes| && Real(g, i) && |c.splits| > 0
    requires Extends(sc, g, a, c.copies, [], after, more, i) && Redirected(sc, g, a, after, row, i)
    requires Last(c).backend != a[g.nodes[i]]
      || (Last(c).inputs != [] && exists j :: 0 <= j < |g.Src(i)|
                                              && Pushes(sc, g, a, g.Src(i)[j], a[g.nodes[i]], |Last(c).inputs|,
                                                c.copies))
    ensures Justified(sc, g, a, c.splits + [Split(a[g.nodes[i]], i, i + 1, more)], |c.splits|)
  {
    hide Numbered;
    hide NeedsCopy;
    if Last(c).backend == a[g.nodes[i]] {
      var j :| 0 <= j < |g.Src(i)| && Pushes(sc, g, a, g.Src(i)[j], a[g.nodes[i]], |Last(c).inputs|, c.copies);
      var t := g.Src(i)[j];
      assert t in g.Src(i);
      if !IsWeight(sc, t) {
        assert (t, a[g.nodes[i]]) in after;
        assert more[0..] == more;
      }
    }
  }

  /** Growing the last split keeps every split justified. */
  lemma GrowJustified(sc: Sched, g: Graph, a: seq<int>, c: Cut, i: nat, more: seq<nat>, s: int)
    requires g.IdsOk() && |a| == |g.tensors| && i < |g.nodes| && 0 < s < |c.splits| && Last(c).end <= i
    requires |Last(c).inputs| <= |more| && more[..|Last(c).inputs|] == Last(c).inputs
    requires Justified(sc, g, a, c.splits, s)
    ensures Justified(sc, g, a, WithLast(c, Last(c).(end := i + 1, inputs := more)), s)
  {
    hide NeedsCopy;
    forall t ensures t in Last(c).inputs ==> t in more { InputsStay(Last(c).inputs, more, t); }
  }

  // ---------------------------------------------------------------- the loop

  /** The last split, closed at node n. */
  function Closed(splits: seq<Split>, n: nat): seq<Split>
    requires |splits| > 0
  {
    splits[|splits| - 1 := splits[|splits| - 1].(end := n)]
  }

  ghost predicate LoopOk(sc: Sched, g: Graph, a: seq<int>, splits: seq<Split>, copies: Copies, rows: seq<seq<nat>>,
                         i: nat)
    requires g.IdsOk() && |a| == |g.tensors|
  {
    && i <= |g.nodes| && |splits| > 0
    && CutOk(sc, g, a, Cut(Closed(splits, i), copies, rows), i)
    && Boundaries(sc, g, a, Closed(splits, i))
  }

  lemma InitialCut(sc: Sched, g: Graph, a: seq<int>, b: int, i: nat, rows: seq<seq<nat>>)
    requires g.IdsOk() && |a| == |g.tensors| == |rows| && i <= |g.nodes|
    requires forall t :: 0 <= t < |rows| ==> rows[t] == g.tensors[t].src
    requires forall k :: 0 <= k < i ==> !Real(g, k)
    ensures LoopOk(sc, g, a, [Split(b, 0, 0, [])], map[], rows, i)
  {
    assert Closed([Split(b, 0, 0, [])], i) == [Split(b, 0, i, [])];
  }

  lemma FinalCut(sc: Sched, g: Graph, a: seq<int>, splits: seq<Split>, copies: Copies, rows: seq<seq<nat>>)
    requires g.IdsOk() && |a| == |g.tensors| && LoopOk(sc, g, a, splits, copies, rows, |g.nodes|)
    ensures |splits| > 0 && CutOk(sc, g, a, Cut(Closed(splits, |g.nodes|), copies, rows), |g.nodes|)
    ensures Boundaries(sc, g, a, Closed(splits, |g.nodes|))
  {
  }

  /** Node i joins the split it finds. */
  lemma JoinLast(sc: Sched, g: Graph, a: seq<int>, splits: seq<Split>, copies: Copies, rows: seq<seq<nat>>, i: nat,
                 more: seq<nat>, after: Copies, rows': seq<seq<nat>>)
    requires g.IdsOk() && |a| == |g.tensors| == |rows| == |rows'| && i < |g.nodes|
             && LoopOk(sc, g, a, splits, copies, rows, i)
    requires forall k :: 0 <= k < i ==> g.nodes[k] != g.nodes[i]
    requires Real(g, i) && splits[|splits| - 1].backend == a[g.nodes[i]]
    requires Extends(sc, g, a, copies, splits[|splits| - 1].inputs, after, more, i)
             && Redirected(sc, g, a, after, rows'[g.nodes[i]], i)
    requires forall t :: 0 <= t < |rows| && t != g.nodes[i] ==> rows'[t] == rows[t]
    requires splits[|splits| - 1].inputs == [] || !ReadsFarWeight(sc, g, a, i)
    ensures LoopOk(sc, g, a, splits[|splits| - 1 := splits[|splits| - 1].(inputs := more)], after, rows', i + 1)
  {
    hide CutOk;
    hide Extends;
    hide Redirected;
    hide WeightsFirst;
    hide Justified;
    hide ReadsFarWeight;
    var c := Cut(Closed(splits, i), copies, rows);
    var next := splits[|splits| - 1 := splits[|splits| - 1].(inputs := more)];
    assert Closed(next, i + 1) == WithLast(c, Last(c).(end := i + 1, inputs := more));
    AddNode(sc, g, a, c, i, after, more, rows');
    GrowWeightsFirst(sc, g, a, c, i, after, more);
    MoreInputs(sc, g, a, copies, splits[|splits| - 1].inputs, after, more, i);
    var grown := Closed(next, i + 1);
    forall s | 0 < s < |c.splits| ensures Justified(sc, g, a, grown, s) {
      GrowJustified(sc, g, a, c, i, more, s);
    }
  }

  lemma MoreInputs(sc: Sched, g: Graph, a: seq<int>, before: Copies, inputs: seq<nat>, after: Copies, more: seq<nat>,
                   i: int)
    requires g.IdsOk() && |a| == |g.tensors| && 0 <= i < |g.nodes| && Extends(sc, g, a, before, inputs, after, more, i)
    ensures |inputs| <= |more| && more[..|inputs|] == inputs
  {
  }

  /** Node i starts a split of its own. */
  lemma JoinNew(sc: Sched, g: Graph, a: seq<int>, splits: seq<Split>, copies: Copies, rows: seq<seq<nat>>, i: nat,
                more: seq<nat>, after: Copies, rows': seq<seq<nat>>)
    requires g.IdsOk() && |a| == |g.tensors| == |rows| == |rows'| && i < |g.nodes|
             && LoopOk(sc, g, a, splits, copies, rows, i)
    requires forall k :: 0 <= k < i ==> g.nodes[k] != g.nodes[i]
    requires Real(g, i)
    requires Extends(sc, g, a, copies, [], after, more, i) && Redirected(sc, g, a, after, rows'[g.nodes[i]], i)
    requires forall t :: 0 <= t < |rows| && t != g.nodes[i] ==> rows'[t] == rows[t]
    requires splits[|splits| - 1].backend != a[g.nodes[i]]
      || (splits[|splits| - 1].inputs != []
          && exists j :: 0 <= j < |g.Src(i)| && Pushes(sc, g, a, g.Src(i)[j], a[g.nodes[i]],
                         |splits[|splits| - 1].inputs|, copies))
    ensures LoopOk(sc, g, a, Closed(splits, i) + [Split(a[g.nodes[i]], i, i, more)], after, rows', i + 1)
  {
    hide CutOk;
    hide Extends;
    hide Redirected;
    hide WeightsFirst;
    hide Justified;
    hide ReadsFarWeight;
    hide Pushes;
    var b := a[g.nodes[i]];
    var c := Cut(Closed(splits, i), copies, rows);
    var begun := c.(splits := c.splits + [Split(b, i, i, [])]);
    var next := c.splits + [Split(b, i, i, more)];
    OpenSplit(sc, g, a, c, i, b);
    EmptySplitKeepsWeightsFirst(sc, g, a, c.splits, b, i);
    assert Closed(next, i + 1) == WithLast(begun, Last(begun).(end := i + 1, inputs := more));
    AddNode(sc, g, a, begun, i, after, more, rows');
    GrowWeightsFirst(sc, g, a, begun, i, after, more);
    NewSplitJustified(sc, g, a, c, i, after, more, rows'[g.nodes[i]]);
    assert Closed(next, i + 1) == c.splits + [Split(b, i, i + 1, more)];
    var grown := Closed(next, i + 1);
    forall s | 0 < s < |c.splits| ensures Justified(sc, g, a, grown, s) { LaterSplits(sc, g, a, c.splits, grown, s); }
  }

  lemma LaterSplits(sc: Sched, g: Graph, a: seq<int>, x: seq<Split>, y: seq<Split>, s: int)
    requires g.IdsOk() && |a| == |g.tensors| && 0 < s < |x| <= |y| && y[..|x|] == x && Justified(sc, g, a, x, s)
    ensures Justified(sc, g, a, y, s)
  {
    assert y[s] == y[..|x|][s] && y[s - 1] == y[..|x|][s - 1];
  }

  lemma EmptySplitKeepsWeightsFirst(sc: Sched, g: Graph, a: seq<int>, splits: seq<Split>, b: int, i: nat)
    requires g.IdsOk() && |a| == |g.tensors| && WeightsFirst(sc, g, a, splits)
    ensures WeightsFirst(sc, g, a, splits + [Split(b, i, i, [])])
  {
    hide ReadsFarWeight;
    var grown := splits + [Split(b, i, i, [])];
    forall s, k | 0 <= s < |grown| && grown[s].start <= k < grown[s].end && k < |g.nodes| && ReadsFarWeight(sc, g, a, k)
      ensures NoInputsBefore(g, grown[s], k)
    {
      assert s < |splits|;
    }
  }

  lemma JoinSkipped(sc: Sched, g: Graph, a: seq<int>, splits: seq<Split>, copies: Copies, rows: seq<seq<nat>>, i: nat)
    requires g.IdsOk() && |a| == |g.tensors| && i < |g.nodes| && LoopOk(sc, g, a, splits, copies, rows, i)
             && !Real(g, i)
    requires forall k :: 0 <= k < i ==> g.nodes[k] != g.nodes[i]
    ensures LoopOk(sc, g, a, splits, copies, rows, i + 1)
  {
    hide CutOk;
    hide Justified;
    var c := Cut(Closed(splits, i), copies, rows);
    SkipNode(sc, g, a, c, i);
    assert Closed(splits, i + 1) == WithLast(c, Last(c).(end := i + 1));
    var grown := Closed(splits, i + 1);
    forall s | 0 < s < |c.splits| ensures Justified(sc, g, a, grown, s) {
      CutTiles(sc, g, a, c, i);
      assert Last(c).(end := i + 1) == Last(c).(end := i + 1, inputs := Last(c).inputs);
      GrowJustified(sc, g, a, c, i, Last(c).inputs, s);
    }
  }

  lemma CutTiles(sc: Sched, g: Graph, a: seq<int>, c: Cut, n: nat)
    requires g.IdsOk() && |a| == |g.tensors| && n <= |g.nodes| && CutOk(sc, g, a, c, n)
    ensures Tiles(c.splits, n) && Numbered(c.copies, |g.tensors|) && |Last(c).inputs| <= MAX_INPUTS
            && |c.rows| == |g.tensors|
  {
    assert InputsOk(sc, g, a, c.copies, Last(c));
  }

  /** Pass 5. `stale` is whatever backend the first split names when the graph has nothing but view operations.
      Failure is the failed assertion that a split has room for its inputs. */
  method SplitGraph(sc: Sched, g: Graph, a: seq<int>, stale: int, rows: array<seq<nat>>)
    returns (ok: bool, splits: seq<Split>, copies: Copies)
    requires g.IdsOk() && |a| == |g.tensors| == rows.Length
    requires forall i, j :: 0 <= i < j < |g.nodes| ==> g.nodes[i] != g.nodes[j]
    requires forall t :: 0 <= t < rows.Length ==> rows[t] == g.tensors[t].src
    modifies rows
    ensures ok ==> CutOk(sc, g, a, Cut(splits, copies, rows[..]), |g.nodes|) && Boundaries(sc, g, a, splits)
    ensures !ok ==> |splits| > 0 && |splits[|splits| - 1].inputs| == MAX_INPUTS
  {
    hide LoopOk;
    hide CutOk;
    hide Boundaries;
    var i, first := 0, stale;
    while i < |g.nodes| && !Real(g, i)
      invariant i <= |g.nodes| && forall k :: 0 <= k < i ==> !Real(g, k)
    {
      i := i + 1;
    }
    if i < |g.nodes| { first := a[g.nodes[i]]; }
    splits, copies := [Split(first, 0, 0, [])], map[];
    InitialCut(sc, g, a, first, i, rows[..]);
    while i < |g.nodes|
      invariant i <= |g.nodes| && LoopOk(sc, g, a, splits, copies, rows[..], i)
      invariant forall k :: i <= k < |g.nodes| ==> rows[..][g.nodes[k]] == g.tensors[g.nodes[k]].src
    {
      if Real(g, i) {
        ok, splits, copies := SplitNode(sc, g, a, i, splits, copies, rows);
        if !ok { return; }
      } else {
        JoinSkipped(sc, g, a, splits, copies, rows[..], i);
      }
      i := i + 1;
    }
    FinalCut(sc, g, a, splits, copies, rows[..]);
    splits := Closed(splits, i);
    ok := true;
  }

  /** One round of pass 5. */
  method SplitNode(sc: Sched, g: Graph, a: seq<int>, i: nat, splits0: seq<Split>, copies0: Copies,
                   rows: array<seq<nat>>)
    returns (ok: bool, splits: seq<Split>, copies: Copies)
    requires g.IdsOk() && |a| == |g.tensors| == rows.Length && i < |g.nodes| && Real(g, i)
    requires LoopOk(sc, g, a, splits0, copies0, rows[..], i) && rows[g.nodes[i]] == g.Src(i)
    requires forall k :: 0 <= k < i ==> g.nodes[k] != g.nodes[i]
    modifies rows
    ensures ok ==> LoopOk(sc, g, a, splits, copies, rows[..], i + 1)
    ensures !ok ==> |splits| > 0 && |splits[|splits| - 1].inputs| == MAX_INPUTS
    ensures forall t :: 0 <= t < rows.Length && t != g.nodes[i] ==> rows[..][t] == old(rows[..])[t]
  {
    hide LoopOk;
    hide Extends;
    hide Redirected;
    LoopFacts(sc, g, a, splits0, copies0, rows[..], i);
    ghost var before := rows[..];
    splits, copies := splits0, copies0;
    var cur, b := splits[|splits| - 1], a[g.nodes[i]];
    var start := false;
    if b == cur.backend && |cur.inputs| > 0 { start := NeedNewSplit(sc, g, a, i, b, |cur.inputs|, copies); }
    if b != cur.backend || start {
      splits := Closed(splits, i) + [Split(b, i, i, [])];
      start := true;
    }
    var more;
    var last := |splits| - 1;
    ok, more, copies := RedirectSources(sc, g, a, i, splits[last].inputs, copies, rows);
    splits := splits[last := splits[last].(inputs := more)];
    if ok {
      if start {
        assert splits == Closed(splits0, i) + [Split(b, i, i, more)];
        JoinNew(sc, g, a, splits0, copies0, before, i, more, copies, rows[..]);
      } else {
        NoFarWeight(sc, g, a, i, |cur.inputs|, copies0);
        JoinLast(sc, g, a, splits0, copies0, before, i, more, copies, rows[..]);
      }
    }
  }

  lemma LoopFacts(sc: Sched, g: Graph, a: seq<int>, splits: seq<Split>, copies: Copies, rows: seq<seq<nat>>, i: nat)
    requires g.IdsOk() && |a| == |g.tensors| && LoopOk(sc, g, a, splits, copies, rows, i)
    ensures |splits| > 0 && |splits[|splits| - 1].inputs| <= MAX_INPUTS && Numbered(copies, |g.tensors|)
  {
    CutTiles(sc, g, a, Cut(Closed(splits, i), copies, rows), i);
  }

  lemma NoFarWeight(sc: Sched, g: Graph, a: seq<int>, i: nat, nInputs: nat, copies: Copies)
    requires g.IdsOk() && |a| == |g.tensors| && i < |g.nodes|
    ensures ReadsFarWeight(sc, g, a, i) ==>
            exists j :: 0 <= j < |g.Src(i)| && Pushes(sc, g, a, g.Src(i)[j], a[g.nodes[i]], nInputs, copies)
  {
    if ReadsFarWeight(sc, g, a, i) {
      var t :| t in g.Src(i) && t < |g.tensors| && IsWeight(sc, t) && NeedsCopy(sc, g, a, t, a[g.nodes[i]]);
      var j :| 0 <= j < |g.Src(i)| && g.Src(i)[j] == t;
      assert Pushes(sc, g, a, g.Src(i)[j], a[g.nodes[i]], nInputs, copies);
    }
  }
}
