/** The fusion check ggml_can_fuse_subgraph_ext: when may a group of nodes be replaced by one kernel? */
module GraphFuse {
  import opened Wrappers
  import opened TensorGraph
  import opened GraphBuild
  import opened GraphForward

  /** `slots` is the node array, of which the first |s.nodes| entries are in use; `s` is the finished graph. */
  ghost predicate Fusable(tensors: seq<Tensor>, params: set<nat>, s: Building, slots: seq<nat>, idxs: seq<nat>,
                          ops: seq<Op>)
  {
    && |ops| == |idxs| && s.nodes <= slots
    && (forall k :: 0 <= k < |slots| ==> slots[k] < |tensors|)
    && (forall j :: 0 <= j < |idxs| ==> idxs[j] < |slots|)
    && (forall t :: 0 <= t < |tensors| && tensors[t].viewSrc.Some? ==> tensors[t].viewSrc.value < t)
    && Inv(SourcesOf(tensors, params), s, {}) && Ids(SourcesOf(tensors, params), s.nodes)
      && Ids(SourcesOf(tensors, params), s.leafs)
    && (forall u :: u in s.used ==> u in s.uses && s.uses[u] == AllEdges(SourcesOf(tensors, params), s, u))
  }

  /** ggml_node_list_find_tensor: the search stops at an index that is no node. */
  predicate Finds(s: Building, list: seq<nat>, i: nat, t: nat)
    requires i <= |list|
    decreases |list| - i
  {
    i < |list| && list[i] < |s.nodes| && (s.nodes[list[i]] == t || Finds(s, list, i + 1, t))
  }

  method FindTensor(s: Building, list: seq<nat>, t: nat) returns (found: bool)
    ensures found == Finds(s, list, 0, t)
  {
    var i := 0;
    while i < |list|
      invariant i <= |list| && Finds(s, list, 0, t) == Finds(s, list, i, t)
    {
      if list[i] >= |s.nodes| { return false; }
      if s.nodes[list[i]] == t { return true; }
      i := i + 1;
    }
    found := false;
  }

  /** Source edges to t from the members i, i+1, ... */
  function MemberEdges(tensors: seq<Tensor>, slots: seq<nat>, idxs: seq<nat>, i: nat, t: nat): nat
    requires (forall k :: 0 <= k < |slots| ==> slots[k] < |tensors|)
             && (forall j :: 0 <= j < |idxs| ==> idxs[j] < |slots|) && i <= |idxs|
    decreases |idxs| - i
  {
    if i == |idxs| then 0 else Occurrences(tensors[slots[idxs[i]]].src, t) + MemberEdges(tensors, slots, idxs, i + 1, t)
  }

  method CountMemberEdges(tensors: seq<Tensor>, slots: seq<nat>, idxs: seq<nat>, i: nat, t: nat) returns (n: nat)
    requires (forall k :: 0 <= k < |slots| ==> slots[k] < |tensors|)
             && (forall j :: 0 <= j < |idxs| ==> idxs[j] < |slots|) && i <= |idxs|
    ensures n == MemberEdges(tensors, slots, idxs, i, t)
  {
    n := 0;
    var j := i;
    while j < |idxs|
      invariant i <= j <= |idxs| && n + MemberEdges(tensors, slots, idxs, j, t)
                == MemberEdges(tensors, slots, idxs, i, t)
    {
      var src := tensors[slots[idxs[j]]].src;
      ghost var before := n;
      var k := 0;
      while k < |src|
        invariant k <= |src| && n + OccurrencesFrom(src, t, k) == before + Occurrences(src, t)
      {
        if src[k] == t { n := n + 1; }
        k := k + 1;
      }
      j := j + 1;
    }
  }

  /** Every tensor that `v` stands for, following view sources, is a member. */
  predicate ViewsInside(tensors: seq<Tensor>, s: Building, idxs: seq<nat>, v: Option<nat>)
    requires forall t :: 0 <= t < |tensors| && tensors[t].viewSrc.Some? ==> tensors[t].viewSrc.value < t
    requires v.Some? ==> v.value < |tensors|
    decreases if v.Some? then v.value + 1 else 0
  {
    v.Some? ==> Finds(s, idxs, 0, v.value) && ViewsInside(tensors, s, idxs, tensors[v.value].viewSrc)
  }

  /** The conditions the check puts on member i. */
  predicate MemberOk(tensors: seq<Tensor>, s: Building, slots: seq<nat>, idxs: seq<nat>, ops: seq<Op>,
                     outputs: seq<nat>, i: nat)
    requires |ops| == |idxs| && s.nodes <= slots && i < |idxs|
    requires (forall k :: 0 <= k < |slots| ==> slots[k] < |tensors|)
             && (forall j :: 0 <= j < |idxs| ==> idxs[j] < |slots|)
    requires forall t :: 0 <= t < |tensors| && tensors[t].viewSrc.Some? ==> tensors[t].viewSrc.value < t
  {
    var t := slots[idxs[i]];
    && idxs[i] < |s.nodes| && tensors[t].op == ops[i] && t in s.flagged
    && (Finds(s, outputs, 0, t)
        || (!tensors[t].output && MemberEdges(tensors, slots, idxs, i + 1, t)
          == (if t in s.used && t in s.uses then s.uses[t] else 0)
            && ViewsInside(tensors, s, idxs, tensors[t].viewSrc)))
  }

  method CanFuse(tensors: seq<Tensor>, ghost params: set<nat>, s: Building, slots: seq<nat>, idxs: seq<nat>,
                 ops: seq<Op>, outputs: seq<nat>) returns (r: bool)
    requires Fusable(tensors, params, s, slots, idxs, ops)
    ensures r <==> forall i :: 0 <= i < |idxs| ==> MemberOk(tensors, s, slots, idxs, ops, outputs, i)
  {
    hide Inv;
    var i := 0;
    while i < |idxs|
      invariant i <= |idxs| && forall k :: 0 <= k < i ==> MemberOk(tensors, s, slots, idxs, ops, outputs, k)
    {
      var fine := CheckMember(tensors, params, s, slots, idxs, ops, outputs, i);
      if !fine { return false; }
      i := i + 1;
    }
    r := true;
  }

  method CheckMember(tensors: seq<Tensor>, ghost params: set<nat>, s: Building, slots: seq<nat>, idxs: seq<nat>,
                     ops: seq<Op>, outputs: seq<nat>, i: nat)
    returns (r: bool)
    requires Fusable(tensors, params, s, slots, idxs, ops) && i < |idxs|
    ensures r == MemberOk(tensors, s, slots, idxs, ops, outputs, i)
  {
    hide Inv;
    if idxs[i] >= |s.nodes| { return false; }
    var t := s.nodes[idxs[i]];
    if tensors[t].op != ops[i] { return false; }
    if t !in s.flagged { return false; }
    var isOutput := FindTensor(s, outputs, t);
    if isOutput { return true; }
    if tensors[t].output { return false; }
    var n := CountMemberEdges(tensors, slots, idxs, i + 1, t);
    if n != (if t in s.used && t in s.uses then s.uses[t] else 0) { return false; }
    var v: Option<nat> := tensors[t].viewSrc;
    while v.Some?
      invariant v.Some? ==> v.value < |tensors|
      invariant ViewsInside(tensors, s, idxs, tensors[t].viewSrc) == ViewsInside(tensors, s, idxs, v)
      decreases if v.Some? then v.value + 1 else 0
    {
      var inside := FindTensor(s, idxs, v.value);
      if !inside { return false; }
      v := tensors[v.value].viewSrc;
    }
    r := true;
  }

  // ---------------------------------------------------------------- what the searches find

  /** t stands in the list, and no index before it, nor its own, is without a node. */
  ghost predicate Names(s: Building, list: seq<nat>, t: nat) {
    exists j :: 0 <= j < |list| && ListedAt(s, list, j, t)
  }

  ghost predicate ListedAt(s: Building, list: seq<nat>, j: int, t: nat)
    requires 0 <= j < |list|
  {
    list[j] < |s.nodes| && s.nodes[list[j]] == t && forall k :: 0 <= k < j ==> list[k] < |s.nodes|
  }

  lemma {:induction false} FindsFrom(s: Building, list: seq<nat>, i: nat, t: nat)
    requires i <= |list| && forall k :: 0 <= k < i ==> list[k] < |s.nodes|
    ensures Finds(s, list, i, t) <==> exists j :: i <= j < |list| && ListedAt(s, list, j, t)
    decreases |list| - i
  {
    if i < |list| && list[i] < |s.nodes| {
      if s.nodes[list[i]] == t { assert ListedAt(s, list, i, t); } else { FindsFrom(s, list, i + 1, t); }
    }
  }

  /** The search answers whether the tensor is one of the listed nodes. */
  lemma FindsNames(s: Building, list: seq<nat>, t: nat)
    ensures Finds(s, list, 0, t) <==> Names(s, list, t)
  {
    FindsFrom(s, list, 0, t);
  }

  /** The tensor n links up the chain of view sources. */
  ghost function Viewed(tensors: seq<Tensor>, v: Option<nat>, n: nat): Option<nat>
    requires forall t :: 0 <= t < |tensors| && tensors[t].viewSrc.Some? ==> tensors[t].viewSrc.value < t
    requires v.Some? ==> v.value < |tensors|
    decreases n
  {
    if n == 0 || v.None? then v else Viewed(tensors, tensors[v.value].viewSrc, n - 1)
  }

  /** Every tensor on the chain of view sources that starts at v is a member. */
  ghost predicate OnlyMembersViewed(tensors: seq<Tensor>, s: Building, idxs: seq<nat>, v: Option<nat>)
    requires forall t :: 0 <= t < |tensors| && tensors[t].viewSrc.Some? ==> tensors[t].viewSrc.value < t
    requires v.Some? ==> v.value < |tensors|
  {
    forall n: nat :: Viewed(tensors, v, n).Some? ==> Names(s, idxs, Viewed(tensors, v, n).value)
  }

  lemma ChainStep(tensors: seq<Tensor>, s: Building, idxs: seq<nat>, v: nat)
    requires forall t :: 0 <= t < |tensors| && tensors[t].viewSrc.Some? ==> tensors[t].viewSrc.value < t
    requires v < |tensors|
    ensures OnlyMembersViewed(tensors, s, idxs, Some(v)) <==>
            Names(s, idxs, v) && OnlyMembersViewed(tensors, s, idxs, tensors[v].viewSrc)
  {
    hide Names;
    var up := tensors[v].viewSrc;
    assert Viewed(tensors, Some(v), 0) == Some(v);
    forall n: nat ensures Viewed(tensors, Some(v), n + 1) == Viewed(tensors, up, n) {}
    if Names(s, idxs, v) && OnlyMembersViewed(tensors, s, idxs, up) {
      forall n: nat | Viewed(tensors, Some(v), n).Some? ensures Names(s, idxs, Viewed(tensors, Some(v), n).value) {
        if n > 0 { assert Viewed(tensors, Some(v), n) == Viewed(tensors, up, n - 1); }
      }
    }
    if OnlyMembersViewed(tensors, s, idxs, Some(v)) {
      forall n: nat | Viewed(tensors, up, n).Some? ensures Names(s, idxs, Viewed(tensors, up, n).value) {
        assert Viewed(tensors, Some(v), n + 1) == Viewed(tensors, up, n);
      }
    }
  }

  /** The walk up the chain succeeds exactly when every tensor on it is a member. */
  lemma {:induction false} ViewsInsideExactly(tensors: seq<Tensor>, s: Building, idxs: seq<nat>, v: Option<nat>)
    requires forall t :: 0 <= t < |tensors| && tensors[t].viewSrc.Some? ==> tensors[t].viewSrc.value < t
    requires v.Some? ==> v.value < |tensors|
    ensures ViewsInside(tensors, s, idxs, v) <==> OnlyMembersViewed(tensors, s, idxs, v)
    decreases if v.Some? then v.value + 1 else 0
  {
    if v.Some? {
      FindsNames(s, idxs, v.value);
      ViewsInsideExactly(tensors, s, idxs, tensors[v.value].viewSrc);
      ChainStep(tensors, s, idxs, v.value);
      hide OnlyMembersViewed;
      hide Finds;
      hide Names;
    }
  }

  // ---------------------------------------------------------------- what a positive answer means

  /** Source edges to u from the nodes at positions below n, except the positions in `skip`. */
  ghost function EdgesExcept(ts: seq<Source>, nodes: seq<nat>, skip: set<nat>, n: nat, u: nat): nat
    requires Ids(ts, nodes) && n <= |nodes|
  {
    if n == 0 then 0 else EdgesExcept(ts, nodes, skip, n - 1, u) + if n - 1 in skip then 0
      else Occurrences(ts[nodes[n - 1]].src, u)
  }

  lemma {:induction false} EdgesAreExceptNone(ts: seq<Source>, nodes: seq<nat>, n: nat, u: nat)
    requires Ids(ts, nodes) && n <= |nodes|
    ensures EdgesExcept(ts, nodes, {}, n, u) == Edges(ts, nodes[..n], u)
  {
    if n > 0 {
      EdgesAreExceptNone(ts, nodes, n - 1, u);
      assert nodes[..n][..n - 1] == nodes[..n - 1];
    }
  }

  lemma {:induction false} SkipOneMore(ts: seq<Source>, nodes: seq<nat>, skip: set<nat>, n: nat, k: nat, u: nat)
    requires Ids(ts, nodes) && n <= |nodes| && k < |nodes| && k !in skip
    ensures EdgesExcept(ts, nodes, skip, n, u) == EdgesExcept(ts, nodes, skip + {k}, n, u) +
            if k < n then Occurrences(ts[nodes[k]].src, u) else 0
  {
    if n > 0 { SkipOneMore(ts, nodes, skip, n - 1, k, u); }
  }

  lemma {:induction false} ExceptZero(ts: seq<Source>, nodes: seq<nat>, skip: set<nat>, n: nat, u: nat)
    requires Ids(ts, nodes) && n <= |nodes|
    ensures EdgesExcept(ts, nodes, skip, n, u) == 0 <==> forall k :: 0 <= k < n && k !in skip ==> u !in ts[nodes[k]].src
  {
    if n > 0 {
      ExceptZero(ts, nodes, skip, n - 1, u);
      OccurrencesZero(ts[nodes[n - 1]].src, u, 0);
    }
  }

  lemma {:induction false} EdgesZero(ts: seq<Source>, list: seq<nat>, u: nat)
    requires Ids(ts, list)
    ensures Edges(ts, list, u) == 0 <==> forall k :: 0 <= k < |list| ==> u !in ts[list[k]].src
  {
    if list != [] {
      EdgesZero(ts, list[..|list| - 1], u);
      OccurrencesZero(ts[list[|list| - 1]].src, u, 0);
    }
  }

  /** Positions of the members from i on. */
  ghost function MemberSet(idxs: seq<nat>, i: nat): set<nat>
    requires i <= |idxs|
  {
    set j | i <= j < |idxs| :: idxs[j]
  }

  /** The edges counted among the members, and the rest. */
  lemma {:induction false} SplitEdges(tensors: seq<Tensor>, params: set<nat>, s: Building, slots: seq<nat>,
                                      idxs: seq<nat>, i: nat, u: nat)
    requires Ids(SourcesOf(tensors, params), s.nodes) && s.nodes <= slots && i <= |idxs|
    requires (forall k :: 0 <= k < |slots| ==> slots[k] < |tensors|)
             && (forall j :: 0 <= j < |idxs| ==> idxs[j] < |s.nodes|)
    requires forall j, k :: 0 <= j < k < |idxs| ==> idxs[j] != idxs[k]
    ensures Edges(SourcesOf(tensors, params), s.nodes, u)
              == MemberEdges(tensors, slots, idxs, i, u)
                + EdgesExcept(SourcesOf(tensors, params), s.nodes, MemberSet(idxs, i), |s.nodes|, u)
    decreases |idxs| - i
  {
    var ts, n := SourcesOf(tensors, params), |s.nodes|;
    if i == |idxs| {
      EdgesAreExceptNone(ts, s.nodes, n, u);
      assert s.nodes[..n] == s.nodes && MemberSet(idxs, i) == {};
    } else {
      SplitEdges(tensors, params, s, slots, idxs, i + 1, u);
      assert MemberSet(idxs, i) == MemberSet(idxs, i + 1) + {idxs[i]};
      SkipOneMore(ts, s.nodes, MemberSet(idxs, i + 1), n, idxs[i], u);
      assert slots[idxs[i]] == s.nodes[idxs[i]];
    }
  }

  ghost predicate IsMemberFrom(idxs: seq<nat>, i: int, k: nat)
    requires 0 <= i
  {
    exists j :: i <= j < |idxs| && idxs[j] == k
  }

  /** Only members after i read t. */
  ghost predicate OnlyLaterMembersRead(tensors: seq<Tensor>, s: Building, idxs: seq<nat>, i: nat, t: nat)
    requires (forall k :: 0 <= k < |s.nodes| ==> s.nodes[k] < |tensors|)
             && (forall k :: 0 <= k < |s.leafs| ==> s.leafs[k] < |tensors|) && i < |idxs|
  {
    && (forall k :: 0 <= k < |s.nodes| && t in tensors[s.nodes[k]].src ==> IsMemberFrom(idxs, i + 1, k))
    && (forall k :: 0 <= k < |s.leafs| ==> t !in tensors[s.leafs[k]].src)
  }

  /** What member i of a fusable group must satisfy. */
  ghost predicate MayVanish(tensors: seq<Tensor>, s: Building, idxs: seq<nat>, outputs: seq<nat>, i: nat)
    requires (forall k :: 0 <= k < |s.nodes| ==> s.nodes[k] < |tensors|)
             && (forall k :: 0 <= k < |s.leafs| ==> s.leafs[k] < |tensors|)
    requires i < |idxs| && idxs[i] < |s.nodes|
    requires forall t :: 0 <= t < |tensors| && tensors[t].viewSrc.Some? ==> tensors[t].viewSrc.value < t
  {
    var t := s.nodes[idxs[i]];
    Names(s, outputs, t)
    || (!tensors[t].output && OnlyLaterMembersRead(tensors, s, idxs, i, t)
      && OnlyMembersViewed(tensors, s, idxs, tensors[t].viewSrc))
  }

  /** Member i is a computed node with the expected operation, and may vanish unless it is a declared output. */
  ghost predicate Acceptable(tensors: seq<Tensor>, s: Building, idxs: seq<nat>, ops: seq<Op>, outputs: seq<nat>, i: nat)
    requires (forall k :: 0 <= k < |s.nodes| ==> s.nodes[k] < |tensors|)
             && (forall k :: 0 <= k < |s.leafs| ==> s.leafs[k] < |tensors|)
    requires i < |idxs| == |ops|
    requires forall t :: 0 <= t < |tensors| && tensors[t].viewSrc.Some? ==> tensors[t].viewSrc.value < t
  {
    idxs[i] < |s.nodes| && tensors[s.nodes[idxs[i]]].op == ops[i] && s.nodes[idxs[i]] in s.flagged
      && MayVanish(tensors, s, idxs, outputs, i)
  }

  /** The comparison of counts decides exactly whether anybody else reads the member. */
  lemma CountsDecide(tensors: seq<Tensor>, params: set<nat>, s: Building, slots: seq<nat>, idxs: seq<nat>, ops: seq<Op>,
                     i: nat)
    requires Fusable(tensors, params, s, slots, idxs, ops) && i < |idxs|
    requires (forall j :: 0 <= j < |idxs| ==> idxs[j] < |s.nodes|)
             && (forall j, k :: 0 <= j < k < |idxs| ==> idxs[j] != idxs[k])
    ensures (forall k :: 0 <= k < |s.nodes| ==> s.nodes[k] < |tensors|)
            && (forall k :: 0 <= k < |s.leafs| ==> s.leafs[k] < |tensors|)
    ensures var t := s.nodes[idxs[i]];
            && t in s.used && t in s.uses
            && (MemberEdges(tensors, slots, idxs, i + 1, t) == s.uses[t] <==>
                OnlyLaterMembersRead(tensors, s, idxs, i, t))
  {
    var ts, t, n := SourcesOf(tensors, params), s.nodes[idxs[i]], |s.nodes|;
    SplitEdges(tensors, params, s, slots, idxs, i + 1, t);
    NodesAreUsed(ts, s, idxs[i]);
    hide Inv;
    OthersZero(tensors, params, s, idxs, i, t);
  }

  lemma NodesAreUsed(ts: seq<Source>, s: Building, k: nat)
    requires Inv(ts, s, {}) && k < |s.nodes|
    ensures s.nodes[k] in s.used
  {
  }

  lemma OthersZero(tensors: seq<Tensor>, params: set<nat>, s: Building, idxs: seq<nat>, i: nat, t: nat)
    requires Ids(SourcesOf(tensors, params), s.nodes) && Ids(SourcesOf(tensors, params), s.leafs) && i < |idxs|
    ensures var ts := SourcesOf(tensors, params);
            EdgesExcept(ts, s.nodes, MemberSet(idxs, i + 1), |s.nodes|, t) + Edges(ts, s.leafs, t) == 0 <==>
              OnlyLaterMembersRead(tensors, s, idxs, i, t)
  {
    var ts := SourcesOf(tensors, params);
    ExceptZero(ts, s.nodes, MemberSet(idxs, i + 1), |s.nodes|, t);
    EdgesZero(ts, s.leafs, t);
    var m := i + 1;
    forall k | 0 <= k < |s.nodes| ensures IsMemberFrom(idxs, m, k) <==> k in MemberSet(idxs, m) {}
  }

  /** The fusion check is exact: on a finished graph and distinct indices it accepts a group if and only if all members
      are computed nodes with the expected operations, and every member other than the declared outputs is no graph
      output, is read by later members only, and views members only. */
  lemma FusionCheckIsExact(tensors: seq<Tensor>, params: set<nat>, s: Building, slots: seq<nat>, idxs: seq<nat>,
                           ops: seq<Op>, outputs: seq<nat>)
    requires Fusable(tensors, params, s, slots, idxs, ops)
             && (forall j, k :: 0 <= j < k < |idxs| ==> idxs[j] != idxs[k])
    ensures (forall k :: 0 <= k < |s.nodes| ==> s.nodes[k] < |tensors|)
            && (forall k :: 0 <= k < |s.leafs| ==> s.leafs[k] < |tensors|)
    ensures (forall i :: 0 <= i < |idxs| ==> MemberOk(tensors, s, slots, idxs, ops, outputs, i))
       <==> (forall i :: 0 <= i < |idxs| ==> Acceptable(tensors, s, idxs, ops, outputs, i))
  {
    hide Inv;
    ListsAreTensors(tensors, params, s);
    if forall j :: 0 <= j < |idxs| ==> idxs[j] < |s.nodes| {
      forall i | 0 <= i < |idxs|
        ensures MemberOk(tensors, s, slots, idxs, ops, outputs, i) <==> Acceptable(tensors, s, idxs, ops, outputs, i)
      {
        hide Names;
        hide Finds;
        hide ViewsInside;
        hide OnlyMembersViewed;
        hide OnlyLaterMembersRead;
        CountsDecide(tensors, params, s, slots, idxs, ops, i);
        assert slots[idxs[i]] == s.nodes[idxs[i]];
        FindsNames(s, outputs, s.nodes[idxs[i]]);
        ViewsInsideExactly(tensors, s, idxs, tensors[s.nodes[idxs[i]]].viewSrc);
      }
    } else {
      var j :| 0 <= j < |idxs| && idxs[j] >= |s.nodes|;
      assert !MemberOk(tensors, s, slots, idxs, ops, outputs, j) && !Acceptable(tensors, s, idxs, ops, outputs, j);
    }
  }

  lemma ListsAreTensors(tensors: seq<Tensor>, params: set<nat>, s: Building)
    requires Ids(SourcesOf(tensors, params), s.nodes) && Ids(SourcesOf(tensors, params), s.leafs)
    ensures (forall k :: 0 <= k < |s.nodes| ==> s.nodes[k] < |tensors|)
            && (forall k :: 0 <= k < |s.leafs| ==> s.leafs[k] < |tensors|)
  {
  }
}
