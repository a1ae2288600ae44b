/** Pass 5 of ggml_backend_sched_split_graph: cutting the graph into splits and redirecting sources to copies. */
module SchedSplit {
  import opened Wrappers
  import opened TensorGraph
  import opened SchedModel

  /** GGML_SCHED_MAX_SPLIT_INPUTS */
  const MAX_INPUTS := 30

  /** struct ggml_backend_sched_split: nodes start..end-1 run on `backend` after `inputs` have been copied there. */
  datatype Split = Split(backend: int, start: nat, end: nat, inputs: seq<nat>)

  /** The tensor that holds the copy of a tensor for a backend. */
  type Copies = map<(nat, int), nat>

  /** The splits, the copies, and the sources of every tensor after redirection. */
  datatype Cut = Cut(splits: seq<Split>, copies: Copies, rows: seq<seq<nat>>)

  /** A node on backend b needs a copy of t: t lives on another backend, in a buffer type that b cannot use. */
  predicate NeedsCopy(sc: Sched, g: Graph, a: seq<int>, t: nat, b: int)
    requires g.IdsOk() && t < |g.tensors| == |a|
  {
    a[t] != b && !(b >= 0 && BufferSupported(sc, g, a, t, b))
  }

  // ---------------------------------------------------------------- what a cut is

  ghost predicate Tiles(splits: seq<Split>, n: nat) {
    && |splits| > 0 && splits[0].start == 0 && splits[|splits| - 1].end == n
    && (forall s :: 0 <= s < |splits| ==> splits[s].start <= splits[s].end <= n)
    && (forall s :: 0 <= s < |splits| - 1 ==> splits[s].end == splits[s + 1].start)
  }

  /** Every node runs in a split on its own backend. */
  ghost predicate OnBackend(g: Graph, a: seq<int>, splits: seq<Split>)
    requires g.IdsOk() && |a| == |g.tensors|
  {
    forall s, k :: 0 <= s < |splits| && splits[s].start <= k < splits[s].end && k < |g.nodes| && Real(g, k) ==>
      a[g.nodes[k]] == splits[s].backend
  }

  /** New tensors are numbered from `base` on, one for each copy. */
  ghost predicate Numbered(copies: Copies, base: nat) {
    && (forall x :: x in copies ==> base <= copies[x] < base + |copies|)
    && (forall x, y :: x in copies && y in copies && copies[x] == copies[y] ==> x == y)
  }

  /** Sources that need a copy are redirected to it, the others stay. */
  ghost predicate Redirected(sc: Sched, g: Graph, a: seq<int>, copies: Copies, row: seq<nat>, i: int)
    requires g.IdsOk() && |a| == |g.tensors| && 0 <= i < |g.nodes|
  {
    && |row| == |g.Src(i)|
    && forall j :: 0 <= j < |row| ==>
      var t, b := g.Src(i)[j], a[g.nodes[i]];
      if NeedsCopy(sc, g, a, t, b) then (t, b) in copies && row[j] == copies[(t, b)] else row[j] == t
  }

  ghost predicate RowsOk(sc: Sched, g: Graph, a: seq<int>, c: Cut, n: nat)
    requires g.IdsOk() && |a| == |g.tensors| && n <= |g.nodes|
  {
    && |c.rows| == |g.tensors|
    && (forall k :: 0 <= k < n && Real(g, k) ==> Redirected(sc, g, a, c.copies, c.rows[g.nodes[k]], k))
    && (forall t :: 0 <= t < |g.tensors| && !RealBefore(g, t, n) ==> c.rows[t] == g.tensors[t].src)
  }

  ghost predicate RealBefore(g: Graph, t: nat, n: nat)
    requires g.IdsOk() && n <= |g.nodes|
  {
    exists k :: 0 <= k < n && g.nodes[k] == t && Real(g, k)
  }

  lemma RealBeforeNext(g: Graph, t: nat, n: nat)
    requires g.IdsOk() && n < |g.nodes|
    ensures RealBefore(g, t, n + 1) <==> RealBefore(g, t, n) || (t == g.nodes[n] && Real(g, n))
  {
    if RealBefore(g, t, n) {
      var k :| 0 <= k < n && g.nodes[k] == t && Real(g, k);
      assert 0 <= k < n + 1 && g.nodes[k] == t && Real(g, k);
    }
  }

  /** Some node of split s reads t. */
  ghost predicate UsedIn(g: Graph, s: Split, t: nat)
    requires g.IdsOk()
  {
    exists k :: s.start <= k < s.end && k < |g.nodes| && Real(g, k) && t in g.Src(k)
  }

  /** The inputs of a split are tensors its nodes need copies of, each listed once. */
  ghost predicate InputsOk(sc: Sched, g: Graph, a: seq<int>, copies: Copies, s: Split)
    requires g.IdsOk() && |a| == |g.tensors|
  {
    && |s.inputs| <= MAX_INPUTS
    && (forall p :: 0 <= p < |s.inputs| ==>
          s.inputs[p] < |g.tensors| && NeedsCopy(sc, g, a, s.inputs[p], s.backend) && (s.inputs[p], s.backend) in copies
            && UsedIn(g, s, s.inputs[p]))
    && (forall p, q :: 0 <= p < q < |s.inputs| ==> s.inputs[p] != s.inputs[q])
  }

  /** A copy is filled by one split only. */
  ghost predicate FilledOnce(splits: seq<Split>) {
    forall r, s, t :: 0 <= r < s < |splits| && splits[r].backend == splits[s].backend && t in splits[r].inputs ==>
      t !in splits[s].inputs
  }

  /** Split s fills the copy of t for backend b. */
  ghost predicate Fills(splits: seq<Split>, s: int, t: nat, b: int) {
    0 <= s < |splits| && splits[s].backend == b && t in splits[s].inputs
  }

  ghost predicate FilledSomewhere(splits: seq<Split>, t: nat, b: int) {
    exists s :: Fills(splits, s, t, b)
  }

  /** The copies node k reads are filled by its own split or an earlier one. */
  ghost predicate FilledInTime(sc: Sched, g: Graph, a: seq<int>, splits: seq<Split>, k: int)
    requires g.IdsOk() && |a| == |g.tensors| && 0 <= k < |g.nodes|
  {
    forall t :: t in g.Src(k) && t < |g.tensors| && NeedsCopy(sc, g, a, t, a[g.nodes[k]]) ==>
      exists s :: Fills(splits, s, t, a[g.nodes[k]]) && splits[s].start <= k
  }

  ghost predicate CutOk(sc: Sched, g: Graph, a: seq<int>, c: Cut, n: nat)
    requires g.IdsOk() && |a| == |g.tensors| && n <= |g.nodes|
  {
    && Tiles(c.splits, n) && OnBackend(g, a, c.splits)
    && Numbered(c.copies, |g.tensors|) && RowsOk(sc, g, a, c, n)
    && (forall s :: 0 <= s < |c.splits| ==> InputsOk(sc, g, a, c.copies, c.splits[s]))
    && FilledOnce(c.splits)
    && (forall x :: x in c.copies ==> FilledSomewhere(c.splits, x.0, x.1))
    && (forall k :: 0 <= k < n && Real(g, k) ==> FilledInTime(sc, g, a, c.splits, k))
  }

  // ---------------------------------------------------------------- one node

  /** What redirecting the sources of node i adds. */
  ghost predicate Extends(sc: Sched, g: Graph, a: seq<int>, before: Copies, inputs: seq<nat>, after: Copies,
                          more: seq<nat>, i: int)
    requires g.IdsOk() && |a| == |g.tensors| && 0 <= i < |g.nodes|
  {
    var b := a[g.nodes[i]];
    && |inputs| <= |more| <= MAX_INPUTS && more[..|inputs|] == inputs
    && Numbered(after, |g.tensors|)
    && (forall x :: x in before ==> x in after && after[x] == before[x])
    && (forall x :: x in after && x !in before ==> x.1 == b && x.0 in more[|inputs|..])
    && (forall p :: |inputs| <= p < |more| ==>
          more[p] in g.Src(i) && more[p] < |g.tensors| && NeedsCopy(sc, g, a, more[p], b) && (more[p], b) in after
            && (more[p], b) !in before)
    && (forall p, q :: |inputs| <= p < q < |more| ==> more[p] != more[q])
  }

  lemma NumberedAdd(copies: Copies, base: nat, x: (nat, int))
    requires Numbered(copies, base) && x !in copies
    ensures Numbered(copies[x := base + |copies|], base)
  {
  }

  /** Adding one more copy. */
  lemma ExtendsStep(sc: Sched, g: Graph, a: seq<int>, before: Copies, inputs: seq<nat>, copies: Copies, more: seq<nat>,
                    i: int, t: nat)
    requires g.IdsOk() && |a| == |g.tensors| && 0 <= i < |g.nodes|
    requires Extends(sc, g, a, before, inputs, copies, more, i) && |more| < MAX_INPUTS
    requires t in g.Src(i) && t < |g.tensors| && NeedsCopy(sc, g, a, t, a[g.nodes[i]]) && (t, a[g.nodes[i]]) !in copies
    ensures Extends(sc, g, a, before, inputs, copies[(t, a[g.nodes[i]]) := |g.tensors| + |copies|], more + [t], i)
  {
    hide NeedsCopy;
    hide Numbered;
    var b := a[g.nodes[i]];
    NumberedAdd(copies, |g.tensors|, (t, b));
    assert (more + [t])[..|inputs|] == inputs;
    assert (more + [t])[|inputs|..] == more[|inputs|..] + [t];
  }

  /** The copy loop of pass 5 for node i in a split with the given inputs; failure is the failed assertion on the number
      of inputs. */
  method RedirectSources(sc: Sched, g: Graph, a: seq<int>, i: nat, inputs: seq<nat>, copies: Copies,
                         rows: array<seq<nat>>)
    returns (ok: bool, more: seq<nat>, after: Copies)
    requires g.IdsOk() && |a| == |g.tensors| == rows.Length && i < |g.nodes|
    requires |inputs| <= MAX_INPUTS && Numbered(copies, |g.tensors|) && rows[g.nodes[i]] == g.Src(i)
    modifies rows
    ensures forall t :: 0 <= t < rows.Length && t != g.nodes[i] ==> rows[..][t] == old(rows[..])[t]
    ensures Extends(sc, g, a, copies, inputs, after, more, i)
    ensures ok ==> Redirected(sc, g, a, after, rows[..][g.nodes[i]], i)
    ensures !ok ==>
            |more| == MAX_INPUTS && exists t: nat ::
              t in g.Src(i) && t < |g.tensors| && NeedsCopy(sc, g, a, t, a[g.nodes[i]]) && (t, a[g.nodes[i]]) !in after
  {
    var n, b := g.nodes[i], a[g.nodes[i]];
    more, after := inputs, copies;
    var j := 0;
    while j < |g.Src(i)|
      invariant j <= |g.Src(i)| == |rows[n]|
      invariant forall t :: 0 <= t < rows.Length && t != n ==> rows[..][t] == old(rows[..])[t]
      invariant Extends(sc, g, a, copies, inputs, after, more, i)
      invariant forall k :: j <= k < |g.Src(i)| ==> rows[n][k] == g.Src(i)[k]
      invariant forall k :: 0 <= k < j ==>
        if NeedsCopy(sc, g, a, g.Src(i)[k], b) then (g.Src(i)[k], b) in after && rows[n][k] == after[(g.Src(i)[k], b)]
          else rows[n][k] == g.Src(i)[k]
    {
      hide Numbered;
      var src := g.Src(i)[j];
      assert src in g.Src(i);
      if NeedsCopy(sc, g, a, src, b) {
        if (src, b) !in after {
          if |more| == MAX_INPUTS { return false, more, after; }
          ExtendsStep(sc, g, a, copies, inputs, after, more, i, src);
          after, more := after[(src, b) := |g.tensors| + |after|], more + [src];
        }
        rows[n] := rows[n][j := after[(src, b)]];
      }
      j := j + 1;
    }
    ok := true;
  }

  // ---------------------------------------------------------------- the steps keep the cut well formed

  function Last(c: Cut): Split
    requires |c.splits| > 0
  {
    c.splits[|c.splits| - 1]
  }

  function WithLast(c: Cut, s: Split): seq<Split>
    requires |c.splits| > 0
  {
    c.splits[|c.splits| - 1 := s]
  }

  lemma OpenInTime(sc: Sched, g: Graph, a: seq<int>, splits: seq<Split>, more: Split, k: int)
    requires g.IdsOk() && |a| == |g.tensors| && 0 <= k < |g.nodes| && FilledInTime(sc, g, a, splits, k)
    ensures FilledInTime(sc, g, a, splits + [more], k)
  {
    hide NeedsCopy;
    var grown, b := splits + [more], a[g.nodes[k]];
    forall t | t in g.Src(k) && t < |g.tensors| && NeedsCopy(sc, g, a, t, b)
      ensures exists s :: Fills(grown, s, t, b) && grown[s].start <= k
    {
      var s :| Fills(splits, s, t, b) && splits[s].start <= k;
      assert Fills(grown, s, t, b);
    }
  }

  lemma OpenInputs(sc: Sched, g: Graph, a: seq<int>, c: Cut, b: int, i: nat, s: int)
    requires g.IdsOk() && |a| == |g.tensors| && 0 <= s <= |c.splits|
    requires s < |c.splits| ==> InputsOk(sc, g, a, c.copies, c.splits[s])
    ensures InputsOk(sc, g, a, c.copies, (c.splits + [Split(b, i, i, [])])[s])
  {
  }

  lemma OpenSplit(sc: Sched, g: Graph, a: seq<int>, c: Cut, i: nat, b: int)
    requires g.IdsOk() && |a| == |g.tensors| && i <= |g.nodes| && CutOk(sc, g, a, c, i)
    ensures CutOk(sc, g, a, c.(splits := c.splits + [Split(b, i, i, [])]), i)
  {
    hide Numbered;
    hide RowsOk;
    hide NeedsCopy;
    hide InputsOk;
    hide FilledInTime;
    var grown := c.splits + [Split(b, i, i, [])];
    RowsIgnoreSplits(sc, g, a, c.splits, grown, c.copies, c.rows, i);
    forall x | x in c.copies ensures FilledSomewhere(grown, x.0, x.1) {
      var s :| Fills(c.splits, s, x.0, x.1);
      assert Fills(grown, s, x.0, x.1);
    }
    forall k | 0 <= k < i && Real(g, k) ensures FilledInTime(sc, g, a, grown, k) {
      OpenInTime(sc, g, a, c.splits, Split(b, i, i, []), k);
    }
    forall s | 0 <= s < |grown| ensures InputsOk(sc, g, a, c.copies, grown[s]) { OpenInputs(sc, g, a, c, b, i, s); }
  }

  /** Growing the last split by node i, with more inputs. */
  lemma GrowTiles(g: Graph, a: seq<int>, c: Cut, i: nat, more: seq<nat>)
    requires g.IdsOk() && |a| == |g.tensors| && i < |g.nodes| && Tiles(c.splits, i) && OnBackend(g, a, c.splits)
    requires Real(g, i) ==> Last(c).backend == a[g.nodes[i]]
    ensures var grown := WithLast(c, Last(c).(end := i + 1, inputs := more));
            Tiles(grown, i + 1) && OnBackend(g, a, grown)
  {
    var grown := WithLast(c, Last(c).(end := i + 1, inputs := more));
    forall s, k | 0 <= s < |grown| && grown[s].start <= k < grown[s].end && k < |g.nodes| && Real(g, k)
      ensures a[g.nodes[k]] == grown[s].backend
    {
      if s == |grown| - 1 && k < i { assert c.splits[s].start <= k < c.splits[s].end; }
    }
  }

  lemma GrowRows(sc: Sched, g: Graph, a: seq<int>, c: Cut, i: nat, after: Copies, rows: seq<seq<nat>>)
    requires g.IdsOk() && |a| == |g.tensors| && i < |g.nodes| && RowsOk(sc, g, a, c, i)
    requires forall k :: 0 <= k < i ==> g.nodes[k] != g.nodes[i]
    requires forall x :: x in c.copies ==> x in after && after[x] == c.copies[x]
    requires |rows| == |c.rows| && forall t :: 0 <= t < |rows| && t != g.nodes[i] ==> rows[t] == c.rows[t]
    requires if Real(g, i) then Redirected(sc, g, a, after, rows[g.nodes[i]], i) else rows == c.rows
    ensures RowsOk(sc, g, a, Cut(c.splits, after, rows), i + 1)
  {
    hide NeedsCopy;
    forall t | 0 <= t < |g.tensors| && !RealBefore(g, t, i + 1) ensures rows[t] == g.tensors[t].src {
      RealBeforeNext(g, t, i);
    }
    forall k | 0 <= k < i + 1 && Real(g, k) ensures Redirected(sc, g, a, after, rows[g.nodes[k]], k) {
      if k < i { assert Redirected(sc, g, a, c.copies, c.rows[g.nodes[k]], k); }
    }
  }

  lemma GrowInputs(sc: Sched, g: Graph, a: seq<int>, c: Cut, i: nat, after: Copies, more: seq<nat>, s: int)
    requires g.IdsOk() && |a| == |g.tensors| && i < |g.nodes| && |c.splits| > 0 && 0 <= s < |c.splits|
    requires Last(c).start <= Last(c).end <= i && (Real(g, i) ==> Last(c).backend == a[g.nodes[i]])
    requires InputsOk(sc, g, a, c.copies, c.splits[s])
    requires if Real(g, i) then Extends(sc, g, a, c.copies, Last(c).inputs, after, more, i)
             else after == c.copies && more == Last(c).inputs
    ensures InputsOk(sc, g, a, after, WithLast(c, Last(c).(end := i + 1, inputs := more))[s])
  {
    hide NeedsCopy;
    hide Numbered;
    var was, grown := c.splits[s], WithLast(c, Last(c).(end := i + 1, inputs := more))[s];
    if s == |c.splits| - 1 {
      forall p | 0 <= p < |grown.inputs|
        ensures grown.inputs[p] < |g.tensors| && NeedsCopy(sc, g, a, grown.inputs[p], grown.backend)
                && (grown.inputs[p], grown.backend) in after && UsedIn(g, grown, grown.inputs[p])
      {
        if p < |was.inputs| {
          assert grown.inputs[p] == grown.inputs[..|was.inputs|][p] == was.inputs[p];
          assert UsedIn(g, was, was.inputs[p]);
        } else {
          assert UsedIn(g, grown, grown.inputs[p]);
        }
      }
      forall p, q | 0 <= p < q < |grown.inputs| ensures grown.inputs[p] != grown.inputs[q] {
        if p < |was.inputs| { assert grown.inputs[p] == grown.inputs[..|was.inputs|][p] == was.inputs[p]; }
        if q < |was.inputs| { assert grown.inputs[q] == grown.inputs[..|was.inputs|][q] == was.inputs[q]; }
      }
    }
  }

  lemma InputsStay(inputs: seq<nat>, more: seq<nat>, t: nat)
    requires |inputs| <= |more| && more[..|inputs|] == inputs
    ensures t in inputs ==> t in more
    ensures t in more && t !in inputs ==> t in more[|inputs|..]
    ensures t in more[|inputs|..] ==> t in more
  {
    assert more == more[..|inputs|] + more[|inputs|..];
  }

  /** A new input is filled nowhere else. */
  lemma GrowFilledOnce(sc: Sched, g: Graph, a: seq<int>, c: Cut, i: nat, after: Copies, more: seq<nat>)
    requires g.IdsOk() && |a| == |g.tensors| && i < |g.nodes| && |c.splits| > 0 && FilledOnce(c.splits)
    requires forall s :: 0 <= s < |c.splits| ==> InputsOk(sc, g, a, c.copies, c.splits[s])
    requires Last(c).backend == a[g.nodes[i]] && Extends(sc, g, a, c.copies, Last(c).inputs, after, more, i)
    ensures FilledOnce(WithLast(c, Last(c).(end := i + 1, inputs := more)))
  {
    hide NeedsCopy;
    hide Numbered;
    var grown := WithLast(c, Last(c).(end := i + 1, inputs := more));
    forall r, s, t | 0 <= r < s < |grown| && grown[r].backend == grown[s].backend && t in grown[r].inputs
      ensures t !in grown[s].inputs
    {
      assert t in c.splits[r].inputs;
      if s == |grown| - 1 {
        InputsStay(Last(c).inputs, more, t);
        assert InputsOk(sc, g, a, c.copies, c.splits[r]);
        var p :| 0 <= p < |c.splits[r].inputs| && c.splits[r].inputs[p] == t;
        assert (t, grown[r].backend) in c.copies;
      }
    }
  }

  lemma GrowFills(sc: Sched, g: Graph, a: seq<int>, c: Cut, i: nat, after: Copies, more: seq<nat>, s: int, t: nat,
                  b: int)
    requires g.IdsOk() && |a| == |g.tensors| && i < |g.nodes| && |c.splits| > 0
    requires |Last(c).inputs| <= |more| && more[..|Last(c).inputs|] == Last(c).inputs
    requires Fills(c.splits, s, t, b)
    ensures Fills(WithLast(c, Last(c).(end := i + 1, inputs := more)), s, t, b)
  {
    if s == |c.splits| - 1 { InputsStay(Last(c).inputs, more, t); }
  }

  lemma GrowCopies(sc: Sched, g: Graph, a: seq<int>, c: Cut, i: nat, after: Copies, more: seq<nat>, x: (nat, int))
    requires g.IdsOk() && |a| == |g.tensors| && i < |g.nodes| && |c.splits| > 0
    requires Last(c).backend == a[g.nodes[i]] && Extends(sc, g, a, c.copies, Last(c).inputs, after, more, i)
    requires forall y :: y in c.copies ==> FilledSomewhere(c.splits, y.0, y.1)
    requires x in after
    ensures FilledSomewhere(WithLast(c, Last(c).(end := i + 1, inputs := more)), x.0, x.1)
  {
    hide NeedsCopy;
    hide Numbered;
    var grown := WithLast(c, Last(c).(end := i + 1, inputs := more));
    if x in c.copies {
      var s :| Fills(c.splits, s, x.0, x.1);
      GrowFills(sc, g, a, c, i, after, more, s, x.0, x.1);
    } else {
      InputsStay(Last(c).inputs, more, x.0);
      assert Fills(grown, |grown| - 1, x.0, x.1);
    }
  }

  lemma GrowInTime(sc: Sched, g: Graph, a: seq<int>, c: Cut, i: nat, after: Copies, more: seq<nat>, k: int)
    requires g.IdsOk() && |a| == |g.tensors| && 0 <= k < i < |g.nodes| && |c.splits| > 0
    requires |Last(c).inputs| <= |more| && more[..|Last(c).inputs|] == Last(c).inputs
    requires FilledInTime(sc, g, a, c.splits, k)
    ensures FilledInTime(sc, g, a, WithLast(c, Last(c).(end := i + 1, inputs := more)), k)
  {
    hide NeedsCopy;
    var grown, b := WithLast(c, Last(c).(end := i + 1, inputs := more)), a[g.nodes[k]];
    forall t | t in g.Src(k) && t < |g.tensors| && NeedsCopy(sc, g, a, t, b)
      ensures exists s :: Fills(grown, s, t, b) && grown[s].start <= k
    {
      var s :| Fills(c.splits, s, t, b) && c.splits[s].start <= k;
      GrowFills(sc, g, a, c, i, after, more, s, t, b);
    }
  }

  /** Whatever node i reads through a copy has its copy filled by a split that has started. */
  lemma InTimeAt(sc: Sched, g: Graph, a: seq<int>, grown: seq<Split>, after: Copies, row: seq<nat>, i: nat)
    requires g.IdsOk() && |a| == |g.tensors| && i < |g.nodes| && Tiles(grown, i + 1)
    requires grown[|grown| - 1].start <= i
    requires Redirected(sc, g, a, after, row, i)
    requires forall x :: x in after ==> FilledSomewhere(grown, x.0, x.1)
    ensures FilledInTime(sc, g, a, grown, i)
  {
    hide NeedsCopy;
    var b := a[g.nodes[i]];
    forall t | t in g.Src(i) && t < |g.tensors| && NeedsCopy(sc, g, a, t, b)
      ensures exists s :: Fills(grown, s, t, b) && grown[s].start <= i
    {
      var j :| 0 <= j < |g.Src(i)| && g.Src(i)[j] == t;
      assert (t, b) in after;
      var s :| Fills(grown, s, (t, b).0, (t, b).1);
      StartsBy(grown, i + 1, s);
    }
  }

  lemma {:induction false} StartsBy(splits: seq<Split>, n: nat, s: int)
    requires Tiles(splits, n) && 0 <= s < |splits| && splits[|splits| - 1].start < n
    ensures splits[s].start < n
    decreases |splits| - s
  {
    if s < |splits| - 1 { StartsBy(splits, n, s + 1); }
  }

  /** Node i joins the last split. */
  lemma AddNode(sc: Sched, g: Graph, a: seq<int>, c: Cut, i: nat, after: Copies, more: seq<nat>, rows: seq<seq<nat>>)
    requires g.IdsOk() && |a| == |g.tensors| && i < |g.nodes| && CutOk(sc, g, a, c, i)
    requires forall k :: 0 <= k < i ==> g.nodes[k] != g.nodes[i]
    requires Real(g, i) && Last(c).backend == a[g.nodes[i]]
             && Extends(sc, g, a, c.copies, Last(c).inputs, after, more, i)
    requires |rows| == |c.rows| == |g.tensors| && forall t :: 0 <= t < |rows| && t != g.nodes[i] ==>
             rows[t] == c.rows[t]
    requires Redirected(sc, g, a, after, rows[g.nodes[i]], i)
    ensures CutOk(sc, g, a, Cut(WithLast(c, Last(c).(end := i + 1, inputs := more)), after, rows), i + 1)
  {
    hide NeedsCopy;
    hide Numbered;
    hide InputsOk;
    hide FilledInTime;
    hide Redirected;
    hide RowsOk;
    hide OnBackend;
    hide FilledOnce;
    var grown := WithLast(c, Last(c).(end := i + 1, inputs := more));
    GrowTiles(g, a, c, i, more);
    GrowRows(sc, g, a, c, i, after, rows);
    RowsIgnoreSplits(sc, g, a, c.splits, grown, after, rows, i + 1);
    GrowFilledOnce(sc, g, a, c, i, after, more);
    forall s | 0 <= s < |grown|
      ensures InputsOk(sc, g, a, after, grown[s]) { GrowInputs(sc, g, a, c, i, after, more, s); }
    forall x | x in after ensures FilledSomewhere(grown, x.0, x.1) { GrowCopies(sc, g, a, c, i, after, more, x); }
    InTimeAt(sc, g, a, grown, after, rows[g.nodes[i]], i);
    forall k | 0 <= k < i + 1 && Real(g, k) ensures FilledInTime(sc, g, a, grown, k) {
      if k < i { GrowInTime(sc, g, a, c, i, after, more, k); }
    }
  }

  lemma RowsIgnoreSplits(sc: Sched, g: Graph, a: seq<int>, x: seq<Split>, y: seq<Split>, copies: Copies,
                         rows: seq<seq<nat>>, n: nat)
    requires g.IdsOk() && |a| == |g.tensors| && n <= |g.nodes|
    ensures RowsOk(sc, g, a, Cut(x, copies, rows), n) == RowsOk(sc, g, a, Cut(y, copies, rows), n)
  {
  }

  /** A view operation is passed over. */
  lemma SkipNode(sc: Sched, g: Graph, a: seq<int>, c: Cut, i: nat)
    requires g.IdsOk() && |a| == |g.tensors| && i < |g.nodes| && CutOk(sc, g, a, c, i) && !Real(g, i)
    requires forall k :: 0 <= k < i ==> g.nodes[k] != g.nodes[i]
    ensures CutOk(sc, g, a, c.(splits := WithLast(c, Last(c).(end := i + 1))), i + 1)
  {
    hide NeedsCopy;
    hide Numbered;
    hide InputsOk;
    hide FilledInTime;
    hide Redirected;
    hide RowsOk;
    hide OnBackend;
    var more := Last(c).inputs;
    var grown := WithLast(c, Last(c).(end := i + 1));
    assert Last(c).(end := i + 1) == Last(c).(end := i + 1, inputs := more);
    GrowTiles(g, a, c, i, more);
    GrowRows(sc, g, a, c, i, c.copies, c.rows);
    RowsIgnoreSplits(sc, g, a, c.splits, grown, c.copies, c.rows, i + 1);
    forall s | 0 <= s < |grown|
      ensures InputsOk(sc, g, a, c.copies, grown[s]) { GrowInputs(sc, g, a, c, i, c.copies, more, s); }
    forall x | x in c.copies ensures FilledSomewhere(grown, x.0, x.1) {
      var s :| Fills(c.splits, s, x.0, x.1);
      GrowFills(sc, g, a, c, i, c.copies, more, s, x.0, x.1);
    }
    forall k | 0 <= k < i + 1 && Real(g, k) ensures FilledInTime(sc, g, a, grown, k) {
      GrowInTime(sc, g, a, c, i, c.copies, more, k);
    }
  }
}
