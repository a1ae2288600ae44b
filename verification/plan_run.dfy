/** Running a graph in the memory a plan lays out gives the values the graph means. */
module PlanRun {
  import opened Wrappers
  import opened Alignment
  import opened TensorAlloc
  import opened TensorGraph
  import opened Planner
  import opened PlannerMemory
  import opened PlannerCounts
  import opened PlannerOwners
  import opened PlannerSafety
  import opened PlanSafety
  import SchedModel
  import SchedRun

  type Byte = bv8
  type Bytes = seq<Byte>
  type Meaning = SchedRun.Meaning<Bytes>

  /** What a node does when its turn comes: nothing, or compute its value from what it reads. */
  datatype Action = Skip | Compute(args: seq<nat>)

  // ---------------------------------------------------------------- the meaning of a graph

  ghost predicate ReadsExist(g: Graph, act: nat -> Action) {
    g.IdsOk() && forall t, j :: 0 <= t < |g.tensors| && act(t).Compute? && 0 <= j < |act(t).args| ==>
      act(t).args[j] < |g.tensors|
  }

  /** The values of all tensors after the first k nodes, each value in a place of its own. */
  ghost function Values(m: Meaning, g: Graph, act: nat -> Action, k: nat): (r: seq<Bytes>)
    requires ReadsExist(g, act) && k <= |g.nodes|
    ensures |r| == |g.tensors|
  {
    if k == 0 then seq(|g.tensors|, (t: nat) => m.initial(t))
    else
      var before := Values(m, g, act, k - 1);
      var x := g.nodes[k - 1];
      match act(x)
      case Skip => before
      case Compute(args) => before[x := m.compute(x, SchedRun.ReadAll(m, g, before, args))]
  }

  // ---------------------------------------------------------------- the same in planned memory

  /** Pool memory by pool, chunk and offset; tensors the planner does not place keep their own storage. */
  datatype Store = Store(pool: (nat, nat, int) -> Byte, own: seq<Bytes>)

  ghost predicate InPools(g: Graph, t: int) {
    Storable(g, t) && (t in g.leafs || t in g.nodes)
  }

  function Load(st: Store, r: Range, n: nat): (v: Bytes)
    ensures |v| == n
  {
    seq(n, i requires 0 <= i < n => st.pool(r.pool, r.addr.chunk, r.addr.offset + i))
  }

  function Save(st: Store, r: Range, v: Bytes): Store {
    st.(pool := (p: nat, c: nat, x: int) =>
      if p == r.pool && c == r.addr.chunk && r.addr.offset <= x < r.addr.offset + |v| then v[x - r.addr.offset]
        else st.pool(p, c, x))
  }

  lemma LoadSaved(st: Store, r: Range, v: Bytes)
    ensures Load(Save(st, r, v), r, |v|) == v
  {
  }

  lemma LoadOther(st: Store, r: Range, v: Bytes, q: Range, n: nat)
    requires Apart(q, r) && |v| <= r.size && n <= q.size
    ensures Load(Save(st, r, v), q, n) == Load(st, q, n)
  {
  }

  ghost function Contents(g: Graph, cfg: Config, hv: seq<HashNode>, nb: nat -> nat, st: Store, t: nat): Bytes
    requires BuffersOk(cfg, hv) && t < |hv| == |st.own|
  {
    if InPools(g, t) then Load(st, RangeOf(cfg, hv, t), nb(t)) else st.own[t]
  }

  /** What a reader of t sees; a view shows its part of the tensor it views. */
  ghost function See(m: Meaning, g: Graph, cfg: Config, hv: seq<HashNode>, nb: nat -> nat, st: Store, t: nat): Bytes
    requires BuffersOk(cfg, hv) && g.IdsOk() && t < |hv| == |st.own| == |g.tensors|
  {
    if g.IsView(t) then m.project(t, Contents(g, cfg, hv, nb, st, g.tensors[t].viewSrc.value))
      else Contents(g, cfg, hv, nb, st, t)
  }

  ghost function SeeAll(m: Meaning, g: Graph, cfg: Config, hv: seq<HashNode>, nb: nat -> nat, st: Store,
                        args: seq<nat>): (r: seq<Bytes>)
    requires BuffersOk(cfg, hv) && g.IdsOk() && |hv| == |st.own| == |g.tensors|
    requires forall j :: 0 <= j < |args| ==> args[j] < |g.tensors|
    ensures |r| == |args| && forall j :: 0 <= j < |args| ==> r[j] == See(m, g, cfg, hv, nb, st, args[j])
  {
    if args == [] then [] else SeeAll(m, g, cfg, hv, nb, st,
                               args[..|args| - 1]) + [See(m, g, cfg, hv, nb, st, args[|args| - 1])]
  }

  ghost function Write(g: Graph, cfg: Config, hv: seq<HashNode>, st: Store, t: nat, v: Bytes): (r: Store)
    requires BuffersOk(cfg, hv) && t < |hv| == |st.own|
    ensures |r.own| == |st.own|
  {
    if InPools(g, t) then Save(st, RangeOf(cfg, hv, t), v) else st.(own := st.own[t := v])
  }

  /** The memory after the first k nodes. */
  ghost function Run(m: Meaning, g: Graph, act: nat -> Action, cfg: Config, hv: seq<HashNode>, nb: nat -> nat,
                     st: Store, k: nat): (r: Store)
    requires ReadsExist(g, act) && BuffersOk(cfg, hv) && |hv| == |st.own| == |g.tensors| && k <= |g.nodes|
    ensures |r.own| == |st.own|
  {
    if k == 0 then st
    else
      var before := Run(m, g, act, cfg, hv, nb, st, k - 1);
      var x := g.nodes[k - 1];
      match act(x)
      case Skip => before
      case Compute(args) => Write(g, cfg, hv, before, x, m.compute(x, SeeAll(m, g, cfg, hv, nb, before, args)))
  }

  // ---------------------------------------------------------------- assumptions

  /** nb gives the number of bytes of every tensor; what the buffer types allocate has room for it. */
  ghost predicate Sized(m: Meaning, g: Graph, cfg: Config, hv: seq<HashNode>, nb: nat -> nat)
    requires BuffersOk(cfg, hv) && |hv| == |g.tensors|
  {
    forall t: nat :: InPools(g, t) ==>
      nb(t) <= cfg.size(cfg.bufts[hv[t].bufferId], t) && |m.initial(t)| == nb(t) && forall vs: seq<Bytes> ::
        |m.compute(t, vs)| == nb(t)
  }

  /** The nodes from d up to, but not including, k do nothing. */
  ghost predicate Quiet(g: Graph, act: nat -> Action, d: int, k: int)
    requires 0 <= d <= k <= |g.nodes|
  {
    forall i :: d <= i < k ==> act(g.nodes[i]).Skip?
  }

  /** What node k reads is a source of node k, or of a node from which on nothing has been computed. */
  ghost predicate ReadsKept(g: Graph, act: nat -> Action, k: int, t: nat)
    requires g.IdsOk() && 0 <= k < |g.nodes|
  {
    exists d :: 0 <= d <= k && t in g.Src(d) && Quiet(g, act, d, k)
  }

  ghost predicate ActionsOk(g: Graph, act: nat -> Action) {
    && ReadsExist(g, act)
    && (forall k, t :: 0 <= k < |g.nodes| && act(g.nodes[k]).Compute? && t in act(g.nodes[k]).args ==>
        ReadsKept(g, act, k, t))
    && (forall k :: 0 <= k < |g.nodes| && InPools(g, g.nodes[k]) ==>
          (act(g.nodes[k]).Skip? <==> g.tensors[g.nodes[k]].input))
    && (forall k :: 0 <= k < |g.nodes| && g.IsView(g.nodes[k]) ==> act(g.nodes[k]).Skip?)
  }

  // ---------------------------------------------------------------- the invariant

  /** The contents of t must be right before step k. */
  ghost predicate Due(g: Graph, act: nat -> Action, t: nat, k: nat)
    requires g.IdsOk() && k <= |g.nodes|
  {
    Known(g, t, k) && (g.tensors[t].output || exists d :: 0 <= d <= k && Quiet(g, act, d, k) && ReadFrom(g, t, d))
  }

  ghost predicate Agrees(m: Meaning, g: Graph, act: nat -> Action, cfg: Config, hv: seq<HashNode>, nb: nat -> nat,
                         st: Store, k: nat)
    requires ReadsExist(g, act) && BuffersOk(cfg, hv) && |hv| == |g.tensors| && k <= |g.nodes|
  {
    && |st.own| == |g.tensors|
    && (forall t: nat :: t < |g.tensors| && (InPools(g, t) ==> Due(g, act, t, k)) ==>
        Contents(g, cfg, hv, nb, st, t) == Values(m, g, act, k)[t])
  }

  /** The tensor behind something node k reads is due before node k. */
  lemma ReadIsDue(g: Graph, act: nat -> Action, k: nat, t: nat)
    requires Ordered(g) && ActionsOk(g, act) && k < |g.nodes| && act(g.nodes[k]).Compute? && t in act(g.nodes[k]).args
    ensures t < |g.tensors|
    ensures var r := if g.IsView(t) then g.tensors[t].viewSrc.value else t;
            InPools(g, r) ==> Due(g, act, r, k)
  {
    var j0 :| 0 <= j0 < |act(g.nodes[k]).args| && act(g.nodes[k]).args[j0] == t;
    var r := if g.IsView(t) then g.tensors[t].viewSrc.value else t;
    assert ReadsKept(g, act, k, t);
    var d :| 0 <= d <= k && t in g.Src(d) && Quiet(g, act, d, k);
    var j :| 0 <= j < |g.Src(d)| && g.Src(d)[j] == t;
    assert Readable(g, t, d);
    assert Reads(g, d, r);
    if InPools(g, r) { SourceRootIsKnown(g, d, t, r, k); }
  }

  lemma SourceRootIsKnown(g: Graph, d: nat, t: nat, r: nat, k: nat)
    requires Ordered(g) && d <= k < |g.nodes| && t < |g.tensors| && Readable(g, t, d)
    requires r == (if g.IsView(t) then g.tensors[t].viewSrc.value else t) && InPools(g, r)
    ensures Known(g, r, k)
  {
    if g.IsView(t) && r in g.nodes {
      var i :| 0 <= i < |g.nodes| && g.nodes[i] == r;
      assert i < d;
      assert g.NodeBefore(r, k);
    } else if !g.IsView(t) && t !in g.leafs {
      var i :| 0 <= i < d && i < |g.nodes| && g.nodes[i] == t;
      assert g.NodeBefore(r, k);
    }
  }

  /** Node k reads the right values. */
  lemma {:induction false} SeesRight(m: Meaning, g: Graph, act: nat -> Action, cfg: Config, hv: seq<HashNode>,
                                     nb: nat -> nat, st: Store, k: nat, args: seq<nat>)
    requires Ordered(g) && ActionsOk(g, act) && BuffersOk(cfg, hv) && |hv| == |g.tensors| && k < |g.nodes|
             && act(g.nodes[k]).Compute?
    requires Agrees(m, g, act, cfg, hv, nb, st, k)
    requires forall t :: t in args ==> t in act(g.nodes[k]).args
    requires forall j :: 0 <= j < |args| ==> args[j] < |g.tensors|
    ensures SeeAll(m, g, cfg, hv, nb, st, args) == SchedRun.ReadAll(m, g, Values(m, g, act, k), args)
  {
    hide Due;
    hide Ordered;
    hide ActionsOk;
    if args != [] {
      var n := |args| - 1;
      SeesRight(m, g, act, cfg, hv, nb, st, k, args[..n]);
      SeesOne(m, g, act, cfg, hv, nb, st, k, args[n]);
    }
  }

  lemma SeesOne(m: Meaning, g: Graph, act: nat -> Action, cfg: Config, hv: seq<HashNode>, nb: nat -> nat, st: Store,
                k: nat, t: nat)
    requires Ordered(g) && ActionsOk(g, act) && BuffersOk(cfg, hv) && |hv| == |g.tensors| && k < |g.nodes|
             && act(g.nodes[k]).Compute?
    requires Agrees(m, g, act, cfg, hv, nb, st, k) && t in act(g.nodes[k]).args && t < |g.tensors|
    ensures See(m, g, cfg, hv, nb, st, t) == SchedRun.Read(m, g, Values(m, g, act, k), t)
  {
    hide Due;
    ReadIsDue(g, act, k, t);
  }

  /** What is due after a node that does nothing was due before it. */
  lemma DueAfterSkip(g: Graph, act: nat -> Action, t: nat, k: nat)
    requires Ordered(g) && ActionsOk(g, act) && k < |g.nodes| && act(g.nodes[k]).Skip? && InPools(g, t)
             && Due(g, act, t, k + 1)
    ensures Due(g, act, t, k)
  {
    KnownNext(g, t, k);
    if !g.tensors[t].output {
      var d :| 0 <= d <= k + 1 && Quiet(g, act, d, k + 1) && ReadFrom(g, t, d);
      if d <= k {
        assert Quiet(g, act, d, k);
      } else {
        var i :| 0 <= d <= i < |g.nodes| && Reads(g, i, t);
        assert ReadFrom(g, t, k) && Quiet(g, act, k, k);
      }
    }
  }

  /** What is due after node k has computed, other than node k itself, was due before and is live while node k runs. */
  lemma DueAfterCompute(g: Graph, act: nat -> Action, t: nat, k: nat)
    requires Ordered(g) && ActionsOk(g, act) && k < |g.nodes| && act(g.nodes[k]).Compute? && InPools(g, t)
             && Due(g, act, t, k + 1) && t != g.nodes[k]
    ensures Due(g, act, t, k) && LiveAt(g, t, k) && (g.tensors[t].output || ReadFrom(g, t, k + 1))
  {
    KnownNext(g, t, k);
    if !g.tensors[t].output {
      var d :| 0 <= d <= k + 1 && Quiet(g, act, d, k + 1) && ReadFrom(g, t, d);
      assert d == k + 1;
      var i :| 0 <= k + 1 <= i < |g.nodes| && Reads(g, i, t);
      assert ReadFrom(g, t, k) && Quiet(g, act, k, k);
    }
  }

  /** Plan safety as the run needs it: saving node k does not touch what is due afterwards. */
  lemma SavedApart(g: Graph, act: nat -> Action, cfg: Config, maxSizes: seq<nat>, nodeBufs: seq<nat>,
                   leafBufs: seq<nat>, t: nat, k: nat)
    requires CfgOk(cfg) && Ordered(g) && |maxSizes| == |cfg.bufts| && Plan(g, cfg, maxSizes, nodeBufs, leafBufs).Some?
    requires ActionsOk(g, act) && k < |g.nodes| && act(g.nodes[k]).Compute? && InPools(g, g.nodes[k])
    requires InPools(g, t) && Due(g, act, t, k + 1) && t != g.nodes[k]
    ensures var hv := Plan(g, cfg, maxSizes, nodeBufs, leafBufs).value.hv;
            Apart(RangeOf(cfg, hv, t), RangeOf(cfg, hv, g.nodes[k]))
  {
    hide Plan;
    hide Ordered;
    hide ActionsOk;
    DueAfterCompute(g, act, t, k);
    KnownNextHere(g, k);
    PlanIsSafe(g, cfg, maxSizes, nodeBufs, leafBufs, k, t, g.nodes[k]);
  }

  lemma KnownNextHere(g: Graph, k: nat)
    requires k < |g.nodes|
    ensures Known(g, g.nodes[k], k + 1)
  {
    KnownNext(g, g.nodes[k], k);
  }

  lemma SizeFits(cfg: Config, hv: seq<HashNode>, t: nat)
    requires BuffersOk(cfg, hv) && t < |hv|
    ensures cfg.size(cfg.bufts[hv[t].bufferId], t) <= RangeOf(cfg, hv, t).size
  {
  }

  lemma SkipStep(m: Meaning, g: Graph, act: nat -> Action, cfg: Config, hv: seq<HashNode>, nb: nat -> nat, st: Store,
                 k: nat)
    requires Ordered(g) && ActionsOk(g, act) && BuffersOk(cfg, hv) && |hv| == |g.tensors| && k < |g.nodes|
             && act(g.nodes[k]).Skip?
    requires Agrees(m, g, act, cfg, hv, nb, st, k)
    ensures Agrees(m, g, act, cfg, hv, nb, st, k + 1)
  {
    hide Due;
    hide Ordered;
    forall t: nat | t < |g.tensors| && (InPools(g, t) ==> Due(g, act, t, k + 1))
      ensures Contents(g, cfg, hv, nb, st, t) == Values(m, g, act, k + 1)[t]
    {
      if InPools(g, t) { DueAfterSkip(g, act, t, k); }
    }
  }

  /** Node k has computed and saved its value. */
  lemma ComputeStep(m: Meaning, g: Graph, act: nat -> Action, cfg: Config, hv: seq<HashNode>, nb: nat -> nat, st: Store,
                    k: nat)
    requires Ordered(g) && ActionsOk(g, act) && BuffersOk(cfg, hv) && |hv| == |g.tensors| && k < |g.nodes|
             && act(g.nodes[k]).Compute?
    requires Agrees(m, g, act, cfg, hv, nb, st, k) && Sized(m, g, cfg, hv, nb)
    requires InPools(g, g.nodes[k]) ==>
               forall t: nat :: InPools(g, t) && Due(g, act, t, k + 1) && t != g.nodes[k] ==>
                 Apart(RangeOf(cfg, hv, t), RangeOf(cfg, hv, g.nodes[k]))
    ensures var v := m.compute(g.nodes[k], SeeAll(m, g, cfg, hv, nb, st, act(g.nodes[k]).args));
            var st' := Write(g, cfg, hv, st, g.nodes[k], v);
            Agrees(m, g, act, cfg, hv, nb, st', k + 1) && Contents(g, cfg, hv, nb, st', g.nodes[k])
              == Values(m, g, act, k + 1)[g.nodes[k]]
  {
    hide Due;
    hide Ordered;
    hide Save;
    var x := g.nodes[k];
    SeesRight(m, g, act, cfg, hv, nb, st, k, act(x).args);
    var v := m.compute(x, SeeAll(m, g, cfg, hv, nb, st, act(x).args));
    var st' := Write(g, cfg, hv, st, x, v);
    SizeFits(cfg, hv, x);
    if InPools(g, x) { LoadSaved(st, RangeOf(cfg, hv, x), v); }
    forall t: nat | t < |g.tensors| && t != x && (InPools(g, t) ==> Due(g, act, t, k + 1))
      ensures Contents(g, cfg, hv, nb, st', t) == Values(m, g, act, k + 1)[t]
    {
      if InPools(g, t) {
        DueAfterCompute(g, act, t, k);
        SizeFits(cfg, hv, t);
        if InPools(g, x) { LoadOther(st, RangeOf(cfg, hv, x), v, RangeOf(cfg, hv, t), nb(t)); }
        LoadIgnoresOwn(st, x, v, RangeOf(cfg, hv, t), nb(t));
      } else {
        SaveKeepsOwn(st, RangeOf(cfg, hv, x), v);
      }
    }
  }

  lemma LoadIgnoresOwn(st: Store, x: nat, v: Bytes, r: Range, n: nat)
    requires x < |st.own|
    ensures Load(st.(own := st.own[x := v]), r, n) == Load(st, r, n)
  {
  }

  lemma SaveKeepsOwn(st: Store, r: Range, v: Bytes)
    ensures Save(st, r, v).own == st.own
  {
  }

  /** A memory in which leafs, graph inputs and everything outside the pools hold their initial values. */
  ghost predicate Loaded(m: Meaning, g: Graph, cfg: Config, hv: seq<HashNode>, nb: nat -> nat, st: Store)
    requires BuffersOk(cfg, hv) && |hv| == |g.tensors|
  {
    && |st.own| == |g.tensors|
    && (forall t: nat :: t < |g.tensors| && (InPools(g, t) ==> Known(g, t, 0)) ==>
        Contents(g, cfg, hv, nb, st, t) == m.initial(t))
  }

  /** Saving node k leaves everything that is due afterwards alone. */
  ghost predicate SafeAt(g: Graph, act: nat -> Action, cfg: Config, hv: seq<HashNode>, k: nat)
    requires g.IdsOk() && BuffersOk(cfg, hv) && |hv| == |g.tensors| && k < |g.nodes|
  {
    InPools(g, g.nodes[k]) ==>
      forall t: nat :: InPools(g, t) && Due(g, act, t, k + 1) && t != g.nodes[k] ==>
        Apart(RangeOf(cfg, hv, t), RangeOf(cfg, hv, g.nodes[k]))
  }

  ghost predicate Safe(g: Graph, act: nat -> Action, cfg: Config, hv: seq<HashNode>) {
    && g.IdsOk() && BuffersOk(cfg, hv) && |hv| == |g.tensors|
    && forall k :: 0 <= k < |g.nodes| && act(g.nodes[k]).Compute? ==> SafeAt(g, act, cfg, hv, k)
  }

  lemma RunStep(m: Meaning, g: Graph, act: nat -> Action, cfg: Config, hv: seq<HashNode>, nb: nat -> nat, st: Store,
                k: nat)
    requires Ordered(g) && ActionsOk(g, act) && Safe(g, act, cfg, hv) && Sized(m, g, cfg, hv, nb)
             && |st.own| == |g.tensors| && k < |g.nodes|
    requires Agrees(m, g, act, cfg, hv, nb, Run(m, g, act, cfg, hv, nb, st, k), k)
    ensures Agrees(m, g, act, cfg, hv, nb, Run(m, g, act, cfg, hv, nb, st, k + 1), k + 1)
    ensures act(g.nodes[k]).Compute? ==> Contents(g, cfg, hv, nb, Run(m, g, act, cfg, hv, nb, st, k + 1), g.nodes[k])
                                         == Values(m, g, act, k + 1)[g.nodes[k]]
  {
    hide Ordered;
    hide Sized;
    hide Write;
    hide Agrees;
    hide Due;
    var before := Run(m, g, act, cfg, hv, nb, st, k);
    if act(g.nodes[k]).Skip? {
      SkipStep(m, g, act, cfg, hv, nb, before, k);
    } else {
      assert SafeAt(g, act, cfg, hv, k);
      ComputeStep(m, g, act, cfg, hv, nb, before, k);
    }
  }

  lemma LoadedAgrees(m: Meaning, g: Graph, act: nat -> Action, cfg: Config, hv: seq<HashNode>, nb: nat -> nat,
                     st: Store)
    requires Ordered(g) && ActionsOk(g, act) && Safe(g, act, cfg, hv) && Loaded(m, g, cfg, hv, nb, st)
    ensures |st.own| == |g.tensors| && Agrees(m, g, act, cfg, hv, nb, Run(m, g, act, cfg, hv, nb, st, 0), 0)
  {
    hide Ordered;
    hide SafeAt;
  }

  lemma {:induction false} RunAgrees(m: Meaning, g: Graph, act: nat -> Action, cfg: Config, hv: seq<HashNode>,
                                     nb: nat -> nat, st: Store, k: nat)
    requires Ordered(g) && ActionsOk(g, act) && Safe(g, act, cfg, hv) && Sized(m, g, cfg, hv, nb)
             && Loaded(m, g, cfg, hv, nb, st) && k <= |g.nodes|
    ensures Agrees(m, g, act, cfg, hv, nb, Run(m, g, act, cfg, hv, nb, st, k), k)
  {
    hide ActionsOk;
    hide Safe;
    hide Ordered;
    hide Sized;
    hide Agrees;
    hide Loaded;
    LoadedAgrees(m, g, act, cfg, hv, nb, st);
    if k > 0 {
      RunAgrees(m, g, act, cfg, hv, nb, st, k - 1);
      RunStep(m, g, act, cfg, hv, nb, st, k - 1);
    }
  }

  lemma PlanMakesSafe(g: Graph, act: nat -> Action, cfg: Config, maxSizes: seq<nat>, nodeBufs: seq<nat>,
                      leafBufs: seq<nat>)
    requires CfgOk(cfg) && Ordered(g) && |maxSizes| == |cfg.bufts| && Plan(g, cfg, maxSizes, nodeBufs, leafBufs).Some?
    requires ActionsOk(g, act)
    ensures Safe(g, act, cfg, Plan(g, cfg, maxSizes, nodeBufs, leafBufs).value.hv)
  {
    hide Ordered;
    hide ActionsOk;
    hide Due;
    PlanBuffers(g, cfg, maxSizes, nodeBufs, leafBufs);
    hide Plan;
    var hv := Plan(g, cfg, maxSizes, nodeBufs, leafBufs).value.hv;
    forall k | 0 <= k < |g.nodes| && act(g.nodes[k]).Compute? ensures SafeAt(g, act, cfg, hv, k) {
      if InPools(g, g.nodes[k]) {
        forall t: nat | InPools(g, t) && Due(g, act, t, k + 1) && t != g.nodes[k]
          ensures Apart(RangeOf(cfg, hv, t), RangeOf(cfg, hv, g.nodes[k]))
        {
          SavedApart(g, act, cfg, maxSizes, nodeBufs, leafBufs, t, k);
        }
      }
    }
  }

  lemma PlanBuffers(g: Graph, cfg: Config, maxSizes: seq<nat>, nodeBufs: seq<nat>, leafBufs: seq<nat>)
    requires CfgOk(cfg) && Ordered(g) && |maxSizes| == |cfg.bufts| && Plan(g, cfg, maxSizes, nodeBufs, leafBufs).Some?
    ensures var hv := Plan(g, cfg, maxSizes, nodeBufs, leafBufs).value.hv;
            g.IdsOk() && BuffersOk(cfg, hv) && |hv| == |g.tensors|
  {
    hide Readable;
  }

  lemma OutputIsDue(g: Graph, act: nat -> Action, t: nat)
    requires g.IdsOk() && InPools(g, t) && g.tensors[t].output
    ensures Due(g, act, t, |g.nodes|)
  {
    if t in g.nodes {
      var i :| 0 <= i < |g.nodes| && g.nodes[i] == t;
      assert g.NodeBefore(t, |g.nodes|);
    }
  }

  /** Running in planned memory is correct: right after its step every node's range holds the value the graph means,
      although ranges are reused and nodes run in place; and at the end every output still does. */
  lemma PlannedRunIsCorrect(m: Meaning, g: Graph, act: nat -> Action, cfg: Config, maxSizes: seq<nat>,
                            nodeBufs: seq<nat>, leafBufs: seq<nat>,
                            hv: seq<HashNode>, nb: nat -> nat, st: Store, k: nat, t: nat)
    requires CfgOk(cfg) && Ordered(g) && |maxSizes| == |cfg.bufts| && Plan(g, cfg, maxSizes, nodeBufs, leafBufs).Some?
    requires hv == Plan(g, cfg, maxSizes, nodeBufs, leafBufs).value.hv && BuffersOk(cfg, hv) && |hv| == |g.tensors|
    requires ActionsOk(g, act) && Sized(m, g, cfg, hv, nb) && Loaded(m, g, cfg, hv, nb, st)
    ensures k < |g.nodes| && act(g.nodes[k]).Compute? ==>
              Contents(g, cfg, hv, nb, Run(m, g, act, cfg, hv, nb, st, k + 1), g.nodes[k])
                == Values(m, g, act, k + 1)[g.nodes[k]]
    ensures InPools(g, t) && g.tensors[t].output ==>
              Contents(g, cfg, hv, nb, Run(m, g, act, cfg, hv, nb, st, |g.nodes|), t) == Values(m, g, act, |g.nodes|)[t]
  {
    PlanMakesSafe(g, act, cfg, maxSizes, nodeBufs, leafBufs);
    hide Plan;
    hide Ordered;
    hide Sized;
    hide Loaded;
    hide Safe;
    if k < |g.nodes| && act(g.nodes[k]).Compute? {
      RunAgrees(m, g, act, cfg, hv, nb, st, k);
      RunStep(m, g, act, cfg, hv, nb, st, k);
    }
    RunAgrees(m, g, act, cfg, hv, nb, st, |g.nodes|);
    if InPools(g, t) && g.tensors[t].output { OutputIsDue(g, act, t); }
  }

  // ---------------------------------------------------------------- ordinary graphs

  /** Every node that is neither a view nor a graph input computes its value from its sources. */
  function PlainActions(g: Graph): nat -> Action {
    (t: nat) =>
      if t < |g.tensors| && g.tensors[t].viewSrc.None? && !g.tensors[t].input then Compute(g.tensors[t].src) else Skip
  }

  lemma PlainActionsOk(g: Graph)
    requires Ordered(g)
    ensures ActionsOk(g, PlainActions(g))
  {
    var act := PlainActions(g);
    forall k, t | 0 <= k < |g.nodes| && act(g.nodes[k]).Compute? && t in act(g.nodes[k]).args
      ensures ReadsKept(g, act, k, t)
    {
      assert t in g.Src(k) && Quiet(g, act, k, k);
    }
  }

  /** The nodes that compute are exactly those that view nothing, and no node is a graph input. */
  ghost predicate Ordinary(g: Graph) {
    g.IdsOk() && forall k :: 0 <= k < |g.nodes| ==>
      (SchedModel.Real(g, k) <==> !g.IsView(g.nodes[k])) && !g.tensors[g.nodes[k]].input
  }

  /** With these actions the values are those of running the nodes in order. */
  lemma {:induction false} PlainValues(m: Meaning, g: Graph, k: nat)
    requires Ordinary(g) && k <= |g.nodes| && ReadsExist(g, PlainActions(g))
    ensures Values(m, g, PlainActions(g), k) == SchedRun.InOrder(m, g, seq(|g.tensors|, (t: nat) => m.initial(t)), k)
  {
    if k > 0 { PlainValues(m, g, k - 1); }
  }

  /** An ordinary graph run in planned memory computes what running its nodes in order means: every node right after its
      step, every output at the end. */
  lemma OrdinaryRunIsCorrect(m: Meaning, g: Graph, cfg: Config, maxSizes: seq<nat>, nodeBufs: seq<nat>,
                             leafBufs: seq<nat>,
                             hv: seq<HashNode>, nb: nat -> nat, st: Store, k: nat, t: nat)
    requires CfgOk(cfg) && Ordered(g) && Ordinary(g) && |maxSizes| == |cfg.bufts|
    requires Plan(g, cfg, maxSizes, nodeBufs, leafBufs).Some?
    requires hv == Plan(g, cfg, maxSizes, nodeBufs, leafBufs).value.hv && BuffersOk(cfg, hv) && |hv| == |g.tensors|
    requires Sized(m, g, cfg, hv, nb) && Loaded(m, g, cfg, hv, nb, st)
    ensures ReadsExist(g, PlainActions(g))
    ensures var initial := seq(|g.tensors|, (t: nat) => m.initial(t));
            && (k < |g.nodes| && !g.IsView(g.nodes[k]) ==>
                  Contents(g, cfg, hv, nb, Run(m, g, PlainActions(g), cfg, hv, nb, st, k + 1), g.nodes[k])
                    == SchedRun.InOrder(m, g, initial, k + 1)[g.nodes[k]])
            && (InPools(g, t) && g.tensors[t].output ==>
                  Contents(g, cfg, hv, nb, Run(m, g, PlainActions(g), cfg, hv, nb, st, |g.nodes|), t)
                    == SchedRun.InOrder(m, g, initial, |g.nodes|)[t])
  {
    hide Plan;
    hide Sized;
    hide Loaded;
    hide Contents;
    PlainActionsOk(g);
    if k < |g.nodes| { PlainValues(m, g, k + 1); }
    PlainValues(m, g, |g.nodes|);
    PlannedRunIsCorrect(m, g, PlainActions(g), cfg, maxSizes, nodeBufs, leafBufs, hv, nb, st, k, t);
  }

  /** Leafs and graph inputs never share bytes, so a memory holding all their initial values exists. */
  lemma InitialTensorsApart(g: Graph, cfg: Config, maxSizes: seq<nat>, nodeBufs: seq<nat>, leafBufs: seq<nat>, t: nat,
                            u: nat)
    requires CfgOk(cfg) && Ordered(g) && |maxSizes| == |cfg.bufts| && Plan(g, cfg, maxSizes, nodeBufs, leafBufs).Some?
    requires Storable(g, t) && Storable(g, u) && t != u && Known(g, t, 0) && Known(g, u, 0)
    ensures var hv := Plan(g, cfg, maxSizes, nodeBufs, leafBufs).value.hv;
            Apart(RangeOf(cfg, hv, t), RangeOf(cfg, hv, u))
  {
    hide Step;
    hide Counted;
    hide MemInv;
    hide LoopInv;
    StartOfLoop(g, cfg, maxSizes, nodeBufs, leafBufs);
    var s0 := Counted(g, cfg, maxSizes, nodeBufs, leafBufs).value;
    PlacesAreFinal(g, cfg, nodeBufs, s0, 0, |g.nodes|);
    BothApart(g, cfg, s0, t, u);
    var hv := Plan(g, cfg, maxSizes, nodeBufs, leafBufs).value.hv;
    SameRange(cfg, s0.hv, hv, t);
    SameRange(cfg, s0.hv, hv, u);
  }

  lemma BothApart(g: Graph, cfg: Config, s: State, t: nat, u: nat)
    requires LoopInv(g, cfg, s, 0) && Storable(g, t) && Storable(g, u) && t != u && Known(g, t, 0) && Known(g, u, 0)
    ensures Apart(RangeOf(cfg, s.hv, t), RangeOf(cfg, s.hv, u))
  {
    EverythingIsNeededAtFirst(g, t);
    EverythingIsNeededAtFirst(g, u);
    OwnersApart(g, cfg, s, t, u);
  }
}
