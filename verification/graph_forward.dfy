/** The visiting code itself, and what any sequence of expands guarantees. */
module GraphForward {
  import opened Wrappers
  import opened TensorGraph
  import opened GraphBuild

  /** A cgraph under construction over the tensors `ts`; the compute flags belong to the tensors, not to the graph. */
  class CGraph {
    const ts: seq<Source>
    const size: nat
    const rightToLeft: bool
    var nodes: seq<nat>
    var leafs: seq<nat>
    var used: set<nat>
    var uses: map<nat, nat>
    var flagged: set<nat>

    /** An empty graph over tensors that carry whatever flags they have. */
    constructor (ts: seq<Source>, size: nat, rightToLeft: bool, flags: set<nat>)
      ensures this.ts == ts && this.size == size && this.rightToLeft == rightToLeft
      ensures State() == Building([], [], {}, map[], flags)
    {
      this.ts, this.size, this.rightToLeft := ts, size, rightToLeft;
      nodes, leafs, used, uses, flagged := [], [], {}, map[], flags;
    }

    function State(): Building
      reads this
    {
      Building(nodes, leafs, used, uses, flagged)
    }

    /** ggml_visit_parents_graph; false is the failed assertion that a list has room. */
    method Visit(t: nat, compute: bool, ghost busy: set<nat>) returns (ok: bool)
      requires Acyclic(ts) && t < |ts| && (forall p :: p in busy ==> p > t)
      requires Inv(ts, State(), busy) && FlagsClosed(ts, flagged, busy)
      modifies this
      ensures ok ==> Visited(ts, old(State()), State(), t, compute, busy)
      ensures ok && old(|nodes| <= size && |leafs| <= size) ==> |nodes| <= size && |leafs| <= size
      ensures !ok ==> |nodes| >= size || |leafs| >= size
      decreases t, 1
    {
      if t in used {
        ok := Revisit(t, compute, busy);
      } else {
        ok := FirstTime(t, compute, busy);
      }
    }

    method Revisit(t: nat, compute: bool, ghost busy: set<nat>) returns (ok: bool)
      requires Acyclic(ts) && t < |ts| && t in used && (forall p :: p in busy ==> p > t)
      requires Inv(ts, State(), busy) && FlagsClosed(ts, flagged, busy)
      modifies this
      ensures ok ==> Visited(ts, old(State()), State(), t, compute, busy)
      ensures ok && old(|nodes| <= size && |leafs| <= size) ==> |nodes| <= size && |leafs| <= size
      ensures !ok ==> |nodes| >= size || |leafs| >= size
      decreases t, 0
    {
      hide Inv;
      hide FlagsClosed;
      hide Revisited;
      hide Visited;
      ghost var s := State();
      if !compute {
        IdleVisit(ts, s, t, busy);
        return true;
      }
      if !ts[t].op.NONE? { flagged := flagged + {t}; }
      RevisitStart(ts, s, t, busy);
      var i := 0;
      while i < |ts[t].src|
        invariant i <= |ts[t].src| && Revisited(ts, s, State(), t, i, busy)
      {
        RevisitedFacts(ts, s, State(), t, i, busy);
        ghost var si := State();
        var src := ts[t].src[i];
        if src !in flagged {
          ok := Visit(src, true, busy + {t});
          if !ok { return; }
          RevisitStep(ts, s, si, State(), t, i, busy);
        } else {
          RevisitSkip(ts, s, si, t, i, busy);
        }
        i := i + 1;
      }
      RevisitedFacts(ts, s, State(), t, i, busy);
      SecondVisit(ts, s, State(), t, busy);
      ok := true;
    }

    /** t goes to the leafs or the nodes, if there is room. */
    method List(t: nat) returns (ok: bool)
      requires t < |ts|
      modifies this
      ensures ok ==> State() == Placed(ts, old(State()), t)
      ensures ok && old(|nodes| <= size && |leafs| <= size) ==> |nodes| <= size && |leafs| <= size
      ensures !ok ==> |nodes| >= size || |leafs| >= size
    {
      if ts[t].op.NONE? && !ts[t].param {
        if |leafs| >= size { return false; }
        leafs := leafs + [t];
      } else {
        if |nodes| >= size { return false; }
        nodes := nodes + [t];
      }
      ok := true;
    }

    method FirstTime(t: nat, compute: bool, ghost busy: set<nat>) returns (ok: bool)
      requires Acyclic(ts) && t < |ts| && t !in used && (forall p :: p in busy ==> p > t)
      requires Inv(ts, State(), busy) && FlagsClosed(ts, flagged, busy)
      modifies this
      ensures ok ==> Visited(ts, old(State()), State(), t, compute, busy)
      ensures ok && old(|nodes| <= size && |leafs| <= size) ==> |nodes| <= size && |leafs| <= size
      ensures !ok ==> |nodes| >= size || |leafs| >= size
      decreases t, 0
    {
      hide Inv;
      hide FlagsClosed;
      hide SourcesDone;
      hide Visited;
      hide Reach;
      hide ReachFrom;
      hide Acyclic;
      hide Placed;
      ghost var s := State();
      if !ts[t].op.NONE? && compute { flagged := flagged + {t}; }
      used := used + {t};
      uses := uses[t := 0];
      ghost var row := Row(ts[t].src, rightToLeft);
      RowReaches(ts, t, rightToLeft);
      MarkedIsFine(ts, s, t, compute, busy, row);
      ghost var m := State();
      assert m == Marked(ts, s, t, compute);
      var n, i := |ts[t].src|, 0;
      while i < n
        invariant i <= n && SourcesDone(ts, m, State(), t, row, i, compute, busy + {t})
        invariant old(|nodes| <= size && |leafs| <= size) ==> |nodes| <= size && |leafs| <= size
      {
        DoneFacts(ts, m, State(), t, row, i, compute, busy + {t});
        ghost var si := State();
        var src := ts[t].src[if rightToLeft then n - 1 - i else i];
        assert src == row[i];
        ok := Visit(src, compute, busy + {t});
        if !ok { return; }
        SourceStep(ts, m, si, State(), t, row, i, compute, busy + {t});
        uses := uses[src := uses[src] + 1];
        i := i + 1;
      }
      ghost var sn := State();
      ok := List(t);
      if !ok { return; }
      FirstVisit(ts, s, sn, t, rightToLeft, compute, busy);
      ok := true;
    }

    /** ggml_build_forward_impl with expand; false is a failed assertion: a list without room, or a last new node other
        than t. */
    method Expand(t: nat, compute: bool) returns (ok: bool)
      requires Acyclic(ts) && t < |ts| && Inv(ts, State(), {}) && FlagsClosed(ts, flagged, {}) && |nodes| <= size
               && |leafs| <= size
      modifies this
      ensures ok ==> Visited(ts, old(State()), State(), t, compute, {}) && |nodes| <= size && |leafs| <= size
      ensures !ok ==> |nodes| >= size || |leafs| >= size || (IsLeaf(ts[t]) && ts[t].src != [])
    {
      hide Inv;
      hide FlagsClosed;
      ghost var s := State();
      var nOld := |nodes|;
      ok := Visit(t, compute, {});
      if !ok { return; }
      VisitedFacts(ts, s, State(), t, compute);
      if |nodes| > nOld && nodes[|nodes| - 1] != t { return false; }
    }
  }

  /** What the assertion of ggml_build_forward_impl rests on. */
  lemma VisitedFacts(ts: seq<Source>, s: Building, s': Building, t: nat, compute: bool)
    requires Acyclic(ts) && t < |ts| && Visited(ts, s, s', t, compute, {})
    ensures |s'.nodes| > |s.nodes| && s'.nodes[|s'.nodes| - 1] != t ==> IsLeaf(ts[t]) && ts[t].src != []
  {
    if |s'.nodes| > |s.nodes| && IsLeaf(ts[t]) && ts[t].src == [] {
      assert Reach(ts, t) == {t};
      var x := s'.nodes[|s'.nodes| - 1];
      assert s'.nodes[|s.nodes|..][|s'.nodes| - 1 - |s.nodes|] == x;
      LeafVisitAddsNoNode(ts, s, s', t, compute);
    }
  }

  lemma LeafVisitAddsNoNode(ts: seq<Source>, s: Building, s': Building, t: nat, compute: bool)
    requires Acyclic(ts) && t < |ts| && Visited(ts, s, s', t, compute, {}) && IsLeaf(ts[t]) && Reach(ts, t) == {t}
    ensures |s'.nodes| == |s.nodes|
  {
    if |s'.nodes| > |s.nodes| {
      var k := |s.nodes|;
      assert Listed(s', s'.nodes[k]);
      if Listed(s, s'.nodes[k]) {
        NotListedTwice(ts, s, s', k);
      }
    }
  }

  lemma NotListedTwice(ts: seq<Source>, s: Building, s': Building, k: nat)
    requires Inv(ts, s', {}) && s.nodes <= s'.nodes && s.leafs <= s'.leafs && |s.nodes| <= k < |s'.nodes|
    ensures !Listed(s, s'.nodes[k])
  {
    forall i | 0 <= i < |s.nodes| ensures s.nodes[i] != s'.nodes[k] { assert s'.nodes[i] == s.nodes[i]; }
    forall i | 0 <= i < |s.leafs| ensures s.leafs[i] != s'.nodes[k] { assert s'.leafs[i] == s.leafs[i]; }
  }

  lemma RevisitedFacts(ts: seq<Source>, s: Building, si: Building, t: nat, i: nat, busy: set<nat>)
    requires Acyclic(ts) && t < |ts| && i <= |ts[t].src| && Revisited(ts, s, si, t, i, busy)
    ensures si.nodes == s.nodes && si.leafs == s.leafs && FlagsClosed(ts, si.flagged, busy + {t})
    ensures Inv(ts, s, busy) ==> Inv(ts, si, busy + {t})
  {
  }

  lemma DoneFacts(ts: seq<Source>, s: Building, si: Building, t: nat, row: seq<nat>, i: nat, compute: bool,
                  busy: set<nat>)
    requires Acyclic(ts) && RowOk(ts, t, row) && i <= |row| && SourcesDone(ts, s, si, t, row, i, compute, busy)
    ensures Inv(ts, si, busy) && FlagsClosed(ts, si.flagged, busy)
  {
  }

  // ---------------------------------------------------------------- any sequence of expands

  datatype Request = Request(t: nat, compute: bool)

  /** The states an initially empty graph goes through while requests are expanded. */
  ghost predicate Run(ts: seq<Source>, flags: set<nat>, requests: seq<Request>, states: seq<Building>)
    requires Acyclic(ts)
  {
    && |states| == |requests| + 1 && states[0] == Building([], [], {}, map[], flags)
    && forall i :: 0 <= i < |requests| ==>
      requests[i].t < |ts| && Visited(ts, states[i], states[i + 1], requests[i].t, requests[i].compute, {})
  }

  ghost function ReachedBy(ts: seq<Source>, requests: seq<Request>): set<nat>
    requires Acyclic(ts) && forall i :: 0 <= i < |requests| ==> requests[i].t < |ts|
  {
    if requests == [] then {} else ReachedBy(ts, requests[..|requests| - 1]) + Reach(ts, requests[|requests| - 1].t)
  }

  /** All edges to u from what is listed. */
  ghost function AllEdges(ts: seq<Source>, s: Building, u: nat): nat
    requires Ids(ts, s.nodes) && Ids(ts, s.leafs)
  {
    Edges(ts, s.nodes, u) + Edges(ts, s.leafs, u)
  }

  /** A computing request reaches u, and u has an operation. */
  ghost predicate FlaggedBy(ts: seq<Source>, requests: seq<Request>, u: nat)
    requires Acyclic(ts) && forall i :: 0 <= i < |requests| ==> requests[i].t < |ts|
  {
    u < |ts| && !ts[u].op.NONE? && exists i :: 0 <= i < |requests| && requests[i].compute
                                               && u in Reach(ts, requests[i].t)
  }

  /** What a finished graph looks like. */
  ghost predicate Built(ts: seq<Source>, flags: set<nat>, requests: seq<Request>, s: Building)
    requires Acyclic(ts) && forall i :: 0 <= i < |requests| ==> requests[i].t < |ts|
  {
    // every reachable tensor is listed exactly once, sources before users
    && s.used == ReachedBy(ts, requests) && Inv(ts, s, {})
    // use counts are the source edges from visited tensors
    && Ids(ts, s.nodes) && Ids(ts, s.leafs) && (forall u :: u in s.used ==>
        u in s.uses && s.uses[u] == AllEdges(ts, s, u))
    // flags are closed, and new ones come from computing requests
    && FlagsClosed(ts, s.flagged, {}) && flags <= s.flagged
    && (forall u :: u in s.flagged && u !in flags ==> FlaggedBy(ts, requests, u))
    && (forall i :: 0 <= i < |requests| && requests[i].compute && !ts[requests[i].t].op.NONE? ==>
        requests[i].t in s.flagged)
  }

  lemma {:induction false} RunBuilds(ts: seq<Source>, flags: set<nat>, requests: seq<Request>, states: seq<Building>)
    requires Acyclic(ts) && Run(ts, flags, requests, states) && FlagsClosed(ts, flags, {})
    ensures Built(ts, flags, requests, states[|requests|])
  {
    if requests == [] {
    } else {
      var n := |requests| - 1;
      RunBuilds(ts, flags, requests[..n], states[..n + 1]);
      BuiltStep(ts, flags, requests, states[n], states[n + 1]);
    }
  }

  lemma BuiltStep(ts: seq<Source>, flags: set<nat>, requests: seq<Request>, s: Building, s': Building)
    requires Acyclic(ts) && |requests| > 0 && forall i :: 0 <= i < |requests| ==> requests[i].t < |ts|
    requires var n := |requests| - 1;
             Built(ts, flags, requests[..n], s) && Visited(ts, s, s', requests[n].t, requests[n].compute, {})
    ensures Built(ts, flags, requests, s')
  {
    hide FlagsClosed;
    hide Inv;
    hide NewEdges;
    hide Reach;
    var n := |requests| - 1;
    InvIds(ts, s');
    forall u | u in s'.used ensures u in s'.uses && s'.uses[u] == AllEdges(ts, s', u) {
      EdgesStep(ts, s, s', u, Reach(ts, requests[n].t));
    }
    forall u | u in s'.flagged && u !in flags
      ensures FlaggedBy(ts, requests, u) { FlaggedStep(ts, flags, requests, s, s', u); }
    forall i | 0 <= i < |requests| && requests[i].compute && !ts[requests[i].t].op.NONE?
      ensures requests[i].t in s'.flagged
    {
      if i < n { assert requests[..n][i] == requests[i]; }
    }
  }

  lemma FlaggedStep(ts: seq<Source>, flags: set<nat>, requests: seq<Request>, s: Building, s': Building, u: nat)
    requires Acyclic(ts) && |requests| > 0 && forall i :: 0 <= i < |requests| ==> requests[i].t < |ts|
    requires var n := |requests| - 1;
             && (u in s.flagged && u !in flags ==> FlaggedBy(ts, requests[..n], u))
             && FlagsGrown(ts, s, s', Reach(ts, requests[n].t), requests[n].compute)
    requires u in s'.flagged && u !in flags
    ensures FlaggedBy(ts, requests, u)
  {
    hide Reach;
    var n := |requests| - 1;
    if u in s.flagged {
      var i :| 0 <= i < n && requests[..n][i].compute && u in Reach(ts, requests[..n][i].t);
      assert requests[i] == requests[..n][i];
    } else {
      assert requests[n].compute && u in Reach(ts, requests[n].t);
    }
  }

  lemma InvIds(ts: seq<Source>, s: Building)
    requires Inv(ts, s, {})
    ensures Ids(ts, s.nodes) && Ids(ts, s.leafs)
  {
  }

  lemma EdgesStep(ts: seq<Source>, s: Building, s': Building, u: nat, reached: set<nat>)
    requires Ids(ts, s.nodes) && Ids(ts, s.leafs) && Ids(ts, s'.nodes) && Ids(ts, s'.leafs)
    requires Inv(ts, s, {}) && Counted(ts, s, s', reached, []) && u in s'.used
    requires u in s.used ==> u in s.uses && s.uses[u] == AllEdges(ts, s, u)
    ensures u in s'.uses && s'.uses[u] == AllEdges(ts, s', u)
  {
    hide Inv;
    assert s'.nodes == s.nodes + s'.nodes[|s.nodes|..] && s'.leafs == s.leafs + s'.leafs[|s.leafs|..];
    EdgesAppend(ts, s.nodes, s'.nodes[|s.nodes|..], u);
    EdgesAppend(ts, s.leafs, s'.leafs[|s.leafs|..], u);
    if u !in s.used { NothingToUnused(ts, s, u); }
  }

  lemma NothingToUnused(ts: seq<Source>, s: Building, u: nat)
    requires Inv(ts, s, {}) && u !in s.used && Ids(ts, s.nodes) && Ids(ts, s.leafs)
    ensures AllEdges(ts, s, u) == 0
  {
    var empty := Building([], [], {}, map[], {});
    NoEdgesToUnused(ts, empty, s, {}, u);
    assert s.nodes[0..] == s.nodes && s.leafs[0..] == s.leafs;
  }

  lemma OnlyItself(ts: seq<Source>, v: nat, u: nat)
    requires Acyclic(ts) && v < |ts|
    ensures ts[v].src == [] && u in Reach(ts, v) ==> u == v
  {
    if ts[v].src == [] { assert ReachFrom(ts, ts[v].src, v) == {}; }
  }

  /** If tensors without an operation have no sources, a computing request flags everything it reaches that has an
      operation. */
  lemma {:induction false} ComputeReachesAll(ts: seq<Source>, flagged: set<nat>, t: nat, u: nat)
    requires Acyclic(ts) && FlagsClosed(ts, flagged, {})
             && (forall v :: 0 <= v < |ts| && ts[v].op.NONE? ==> ts[v].src == [])
    requires t < |ts| && t in flagged && u in Reach(ts, t) && !ts[t].op.NONE? && u < |ts| && !ts[u].op.NONE?
    ensures u in flagged
    decreases t
  {
    if u != t {
      ReachFromMember(ts, ts[t].src, t, u);
      var j :| 0 <= j < |ts[t].src| && u in Reach(ts, ts[t].src[j]);
      var v := ts[t].src[j];
      assert FlagsClosedAt(ts, flagged, t) && v in ts[t].src;
      OnlyItself(ts, v, u);
      if !ts[v].op.NONE? { ComputeReachesAll(ts, flagged, v, u); }
    }
  }

  // ---------------------------------------------------------------- what the scheduler and the planner get

  function SourcesOf(tensors: seq<Tensor>, params: set<nat>): (r: seq<Source>)
    ensures |r| == |tensors|
  {
    seq(|tensors|, t requires 0 <= t < |tensors| => Source(tensors[t].op, t in params, tensors[t].src))
  }

  /** How views are made: the first source is the viewed tensor or another view of it, and views carry a view
      operation. */
  ghost predicate ViewsMadeByOps(tensors: seq<Tensor>) {
    forall t :: 0 <= t < |tensors| && tensors[t].viewSrc.Some? ==>
      && tensors[t].op != NONE && tensors[t].src != [] && tensors[t].viewSrc.value < t
      && tensors[tensors[t].viewSrc.value].viewSrc.None?
      && (tensors[t].src[0] == tensors[t].viewSrc.value
          || (tensors[t].src[0] < t && tensors[tensors[t].src[0]].viewSrc == tensors[t].viewSrc))
  }

  /** The root of a view is reached from the view. */
  lemma {:induction false} RootReached(tensors: seq<Tensor>, params: set<nat>, t: nat)
    requires Acyclic(SourcesOf(tensors, params)) && ViewsMadeByOps(tensors) && t < |tensors| && tensors[t].viewSrc.Some?
    ensures tensors[t].viewSrc.value in Reach(SourcesOf(tensors, params), t)
    decreases t
  {
    var ts := SourcesOf(tensors, params);
    var x := tensors[t].src[0];
    if x != tensors[t].viewSrc.value { RootReached(tensors, params, x); }
    assert ts[t].src[0] == x;
    ReachFromMember(ts, ts[t].src, t, tensors[t].viewSrc.value);
    SelfReached(ts, x);
  }

  /** Position of a listed source relative to its reader. */
  lemma SourceEarlier(g: Graph, s: Building, params: set<nat>, k: nat, u: nat)
    requires g.IdsOk() && Inv(SourcesOf(g.tensors, params), s, {}) && g.nodes == s.nodes && g.leafs == s.leafs
    requires k < |g.nodes| && u in g.Src(k)
    ensures Earlier(g, u, k)
  {
    var ts := SourcesOf(g.tensors, params);
    assert u in ts[s.nodes[k]].src;
    assert u in s.leafs || u in s.nodes[..k];
    if u in s.nodes[..k] {
      var i :| 0 <= i < k && s.nodes[..k][i] == u;
      assert g.nodes[i] == u;
    }
  }

  /** Whatever node k is computed from, other than itself, is a leaf or an earlier node. */
  lemma {:induction false} ReachedEarlier(g: Graph, s: Building, params: set<nat>, k: nat, u: nat)
    requires g.IdsOk() && Acyclic(SourcesOf(g.tensors, params)) && Inv(SourcesOf(g.tensors, params), s, {})
             && g.nodes == s.nodes && g.leafs == s.leafs
    requires k < |g.nodes| && u in Reach(SourcesOf(g.tensors, params), g.nodes[k]) && u in g.nodes && u != g.nodes[k]
    requires forall t :: 0 <= t < |g.tensors| && t in g.leafs ==> g.tensors[t].src == []
    ensures g.NodeBefore(u, k)
    decreases g.nodes[k]
  {
    var ts := SourcesOf(g.tensors, params);
    var n := g.nodes[k];
    ReachFromMember(ts, ts[n].src, n, u);
    var j :| 0 <= j < |ts[n].src| && u in Reach(ts, ts[n].src[j]);
    var v := ts[n].src[j];
    SourceEarlier(g, s, params, k, v);
    if v in g.leafs {
      OnlyItself(ts, v, u);
      LeafsAreNotNodes(ts, s, u);
    } else {
      var i :| 0 <= i < k && i < |g.nodes| && g.nodes[i] == v;
      if u != v {
        ReachedEarlier(g, s, params, i, u);
        var h :| 0 <= h < i && h < |g.nodes| && g.nodes[h] == u;
        assert 0 <= h < k;
      }
    }
  }

  lemma LeafsAreNotNodes(ts: seq<Source>, s: Building, u: nat)
    requires Inv(ts, s, {})
    ensures !(u in s.leafs && u in s.nodes)
  {
  }

  /** Every built graph whose views are made by view operations is one that the scheduler and the planner accept. */
  lemma BuiltIsTopological(g: Graph, s: Building, params: set<nat>)
    requires g.IdsOk() && Acyclic(SourcesOf(g.tensors, params)) && ViewsMadeByOps(g.tensors)
    requires Inv(SourcesOf(g.tensors, params), s, {}) && g.nodes == s.nodes && g.leafs == s.leafs
    requires forall t :: 0 <= t < |g.tensors| && t in g.leafs ==> g.tensors[t].src == []
    requires forall t :: 0 <= t < |g.tensors| && g.tensors[t].input ==> !CanInplace(g.tensors[t].op)
    ensures Topological(g)
  {
    var ts := SourcesOf(g.tensors, params);
    hide Reach;
    forall k, j | 0 <= k < |g.nodes| && 0 <= j < |g.Src(k)|
      ensures Earlier(g, g.Src(k)[j], k) && Readable(g, g.Src(k)[j], k) && g.Src(k)[j] != g.nodes[k]
    {
      SourceEarlier(g, s, params, k, g.Src(k)[j]);
      BuiltReadable(g, s, params, k, g.Src(k)[j]);
    }
    forall k | 0 <= k < |g.nodes| ensures g.nodes[k] !in g.leafs { LeafsAreNotNodes(ts, s, g.nodes[k]); }
    forall k, i | 0 <= k < |g.nodes| && 0 <= i < |g.nodes| && g.tensors[g.nodes[k]].viewSrc == Some(g.nodes[i])
      ensures i < k
    {
      RootBeforeView(g, s, params, k, i);
    }
    forall k | 0 <= k < |g.leafs| ensures g.tensors[g.leafs[k]].op == NONE { assert IsLeaf(ts[s.leafs[k]]); }
  }

  lemma RootBeforeView(g: Graph, s: Building, params: set<nat>, k: nat, i: nat)
    requires g.IdsOk() && Acyclic(SourcesOf(g.tensors, params)) && ViewsMadeByOps(g.tensors)
    requires Inv(SourcesOf(g.tensors, params), s, {}) && g.nodes == s.nodes && g.leafs == s.leafs
    requires forall t :: 0 <= t < |g.tensors| && t in g.leafs ==> g.tensors[t].src == []
    requires k < |g.nodes| && i < |g.nodes| && g.tensors[g.nodes[k]].viewSrc == Some(g.nodes[i])
    ensures i < k
  {
    RootReached(g.tensors, params, g.nodes[k]);
    ReachedEarlier(g, s, params, k, g.nodes[i]);
    var h :| 0 <= h < k && h < |g.nodes| && g.nodes[h] == g.nodes[i];
  }

  lemma BuiltReadable(g: Graph, s: Building, params: set<nat>, k: nat, u: nat)
    requires g.IdsOk() && Acyclic(SourcesOf(g.tensors, params)) && ViewsMadeByOps(g.tensors)
    requires Inv(SourcesOf(g.tensors, params), s, {}) && g.nodes == s.nodes && g.leafs == s.leafs
    requires forall t :: 0 <= t < |g.tensors| && t in g.leafs ==> g.tensors[t].src == []
    requires k < |g.nodes| && u in g.Src(k) && Earlier(g, u, k)
    ensures Readable(g, u, k) && u != g.nodes[k]
  {
    var ts := SourcesOf(g.tensors, params);
    assert u < g.nodes[k] by {
      var j :| 0 <= j < |g.Src(k)| && g.Src(k)[j] == u;
      assert ts[g.nodes[k]].src[j] == u;
    }
    if g.IsView(u) {
      assert u !in g.leafs;
      var i :| 0 <= i < k && i < |g.nodes| && g.nodes[i] == u;
      forall n | k <= n < |g.nodes| ensures g.nodes[n] != g.tensors[u].viewSrc.value {
        if g.nodes[n] == g.tensors[u].viewSrc.value { RootBeforeView(g, s, params, i, n); }
      }
    }
  }
}
