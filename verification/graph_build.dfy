/** What building a forward graph is about (ggml_visit_parents_graph and ggml_build_forward_impl in CGGML/ggml.c). */
module GraphBuild {
  import opened Wrappers
  import opened TensorGraph

  /** A tensor as the visit sees it; sources were created before the tensor, so their numbers are smaller. */
  datatype Source = Source(op: Op, param: bool, src: seq<nat>)

  ghost predicate Acyclic(ts: seq<Source>) {
    forall t, j :: 0 <= t < |ts| && 0 <= j < |ts[t].src| ==> ts[t].src[j] < t
  }

  /** A tensor that goes to the leafs: no operation and no parameter. */
  predicate IsLeaf(x: Source) {
    x.op.NONE? && !x.param
  }

  /** Everything t is computed from, t included. */
  ghost function Reach(ts: seq<Source>, t: nat): set<nat>
    requires Acyclic(ts) && t < |ts|
    decreases t, |ts[t].src| + 1
  {
    {t} + ReachFrom(ts, ts[t].src, t)
  }

  ghost function ReachFrom(ts: seq<Source>, row: seq<nat>, bound: nat): set<nat>
    requires Acyclic(ts) && bound <= |ts| && forall j :: 0 <= j < |row| ==> row[j] < bound
    decreases bound, |row|
  {
    if row == [] then {} else ReachFrom(ts, row[..|row| - 1], bound) + Reach(ts, row[|row| - 1])
  }

  ghost predicate Ids(ts: seq<Source>, list: seq<nat>) {
    forall k :: 0 <= k < |list| ==> list[k] < |ts|
  }

  /** Source edges to t from the tensors of a list. */
  function Edges(ts: seq<Source>, list: seq<nat>, t: nat): nat
    requires Ids(ts, list)
  {
    if list == [] then 0 else Edges(ts, list[..|list| - 1], t) + Occurrences(ts[list[|list| - 1]].src, t)
  }

  /** The sources in the order in which they are visited. */
  function Row(src: seq<nat>, rightToLeft: bool): (r: seq<nat>)
    ensures |r| == |src| && forall i :: 0 <= i < |r| ==> r[i] == if rightToLeft then src[|src| - 1 - i] else src[i]
  {
    if rightToLeft then seq(|src|, i requires 0 <= i < |src| => src[|src| - 1 - i]) else src
  }

  // ---------------------------------------------------------------- the state of a graph under construction

  /** The lists of a cgraph, its visited set with the use counts, and the tensors that carry the compute flag. */
  datatype Building = Building(nodes: seq<nat>, leafs: seq<nat>, used: set<nat>, uses: map<nat, nat>, flagged: set<nat>)

  ghost predicate Listed(s: Building, t: nat) {
    t in s.nodes || t in s.leafs
  }

  /** The lists are well formed, and hold every visited tensor except those still in progress: a leaf is a tensor
      without an operation that is no parameter. */
  ghost predicate Inv(ts: seq<Source>, s: Building, busy: set<nat>) {
    && (forall t :: t in s.used ==> t < |ts| && t in s.uses && (t in busy || Listed(s, t)))
    && (forall k :: 0 <= k < |s.nodes| ==>
          s.nodes[k] in s.used && s.nodes[k] < |ts| && (!ts[s.nodes[k]].op.NONE? || ts[s.nodes[k]].param))
    && (forall k :: 0 <= k < |s.leafs| ==>
          s.leafs[k] in s.used && s.leafs[k] < |ts| && ts[s.leafs[k]].op.NONE? && !ts[s.leafs[k]].param)
    && (forall i, j :: 0 <= i < j < |s.nodes| ==> s.nodes[i] != s.nodes[j])
    && (forall i, j :: 0 <= i < j < |s.leafs| ==> s.leafs[i] != s.leafs[j])
    && (forall k, u :: 0 <= k < |s.nodes| && u in ts[s.nodes[k]].src ==> u in s.leafs || u in s.nodes[..k])
    && (forall k, u :: 0 <= k < |s.leafs| && u in ts[s.leafs[k]].src ==> u in s.nodes || u in s.leafs)
  }

  /** A flagged tensor has flagged sources, except those without an operation. */
  ghost predicate FlagsClosedAt(ts: seq<Source>, flagged: set<nat>, t: nat) {
    t in flagged && t < |ts| ==> forall u :: u in ts[t].src && u < |ts| && !ts[u].op.NONE? ==> u in flagged
  }

  ghost predicate FlagsClosed(ts: seq<Source>, flagged: set<nat>, busy: set<nat>) {
    forall t: nat :: t !in busy ==> FlagsClosedAt(ts, flagged, t)
  }

  /** Lists grow at the end, by exactly the newly visited tensors. */
  ghost predicate Grown(ts: seq<Source>, s: Building, s': Building, reached: set<nat>) {
    && s.nodes <= s'.nodes && s.leafs <= s'.leafs && s'.used == s.used + reached
    && Ids(ts, s'.nodes[|s.nodes|..]) && Ids(ts, s'.leafs[|s.leafs|..])
    && (forall u :: Listed(s', u) && !Listed(s, u) ==> u in reached)
  }

  ghost function NewEdges(ts: seq<Source>, s: Building, s': Building, u: nat): nat
    requires s.nodes <= s'.nodes && s.leafs <= s'.leafs && Ids(ts, s'.nodes[|s.nodes|..])
             && Ids(ts, s'.leafs[|s.leafs|..])
  {
    Edges(ts, s'.nodes[|s.nodes|..], u) + Edges(ts, s'.leafs[|s.leafs|..], u)
  }

  function UsesOf(s: Building, u: nat): nat {
    if u in s.used && u in s.uses then s.uses[u] else 0
  }

  /** Uses grow by the edges of the newly listed tensors and of the sources in `row`. */
  ghost predicate Counted(ts: seq<Source>, s: Building, s': Building, reached: set<nat>, row: seq<nat>) {
    && Grown(ts, s, s', reached)
    && forall u :: u in s'.used ==>
      u in s'.uses && s'.uses[u] == UsesOf(s, u) + NewEdges(ts, s, s', u) + Occurrences(row, u)
  }

  /** New flags are on tensors with an operation among those reached, and only if the visit computes. */
  ghost predicate FlagsGrown(ts: seq<Source>, s: Building, s': Building, reached: set<nat>, compute: bool) {
    s.flagged <= s'.flagged
    && forall u :: u in s'.flagged && u !in s.flagged ==> compute && u in reached && u < |ts| && !ts[u].op.NONE?
  }

  /** What visiting t does. */
  ghost predicate Visited(ts: seq<Source>, s: Building, s': Building, t: nat, compute: bool, busy: set<nat>)
    requires Acyclic(ts) && t < |ts|
  {
    && Inv(ts, s', busy) && FlagsClosed(ts, s'.flagged, busy)
    && Counted(ts, s, s', Reach(ts, t), []) && FlagsGrown(ts, s, s', Reach(ts, t), compute)
    && (compute && !ts[t].op.NONE? ==> t in s'.flagged)
    && (t in s.used ==> s'.nodes == s.nodes && s'.leafs == s.leafs)
    && (t !in s.used ==> if IsLeaf(ts[t]) then |s'.leafs| > 0 && s'.leafs[|s'.leafs| - 1] == t
      else |s'.nodes| > 0 && s'.nodes[|s'.nodes| - 1] == t)
  }

  // ---------------------------------------------------------------- reach

  lemma {:induction false} ReachFromMember(ts: seq<Source>, row: seq<nat>, bound: nat, u: nat)
    requires Acyclic(ts) && bound <= |ts| && forall j :: 0 <= j < |row| ==> row[j] < bound
    ensures u in ReachFrom(ts, row, bound) <==> exists j :: 0 <= j < |row| && u in Reach(ts, row[j])
    decreases |row|
  {
    if row != [] {
      ReachFromMember(ts, row[..|row| - 1], bound, u);
      if u in ReachFrom(ts, row[..|row| - 1], bound) {
        var j :| 0 <= j < |row| - 1 && u in Reach(ts, row[..|row| - 1][j]);
        assert u in Reach(ts, row[j]);
      }
      if j :| 0 <= j < |row| && u in Reach(ts, row[j]) {
        if j < |row| - 1 { assert row[..|row| - 1][j] == row[j]; }
      }
    }
  }

  lemma RowMembers(ts: seq<Source>, t: nat, rightToLeft: bool)
    requires t < |ts|
    ensures forall u :: u in ts[t].src <==> u in Row(ts[t].src, rightToLeft)
  {
    var src, row := ts[t].src, Row(ts[t].src, rightToLeft);
    forall u | u in src ensures u in row {
      var j :| 0 <= j < |src| && src[j] == u;
      assert row[if rightToLeft then |src| - 1 - j else j] == u;
    }
  }

  lemma ReachFromSubset(ts: seq<Source>, a: seq<nat>, b: seq<nat>, bound: nat, u: nat)
    requires Acyclic(ts) && bound <= |ts| && (forall j :: 0 <= j < |a| ==> a[j] < bound)
             && (forall j :: 0 <= j < |b| ==> b[j] < bound)
    requires forall x :: x in a ==> x in b
    ensures u in ReachFrom(ts, a, bound) ==> u in ReachFrom(ts, b, bound)
  {
    hide Reach;
    hide ReachFrom;
    ReachFromMember(ts, a, bound, u);
    ReachFromMember(ts, b, bound, u);
    if u in ReachFrom(ts, a, bound) {
      var j :| 0 <= j < |a| && u in Reach(ts, a[j]);
      assert a[j] in b;
    }
  }

  /** The order in which sources are visited does not change what is reached. */
  lemma RowReaches(ts: seq<Source>, t: nat, rightToLeft: bool)
    requires Acyclic(ts) && t < |ts|
    ensures forall j :: 0 <= j < |ts[t].src| ==> Row(ts[t].src, rightToLeft)[j] < t
    ensures Reach(ts, t) == {t} + ReachFrom(ts, Row(ts[t].src, rightToLeft), t)
  {
    hide ReachFrom;
    var src, row := ts[t].src, Row(ts[t].src, rightToLeft);
    RowMembers(ts, t, rightToLeft);
    forall u ensures u in ReachFrom(ts, src, t) <==> u in ReachFrom(ts, row, t) {
      ReachFromSubset(ts, src, row, t, u);
      ReachFromSubset(ts, row, src, t, u);
    }
    assert ReachFrom(ts, ts[t].src, t) == ReachFrom(ts, row, t);
  }

  lemma {:induction false} ReachBelow(ts: seq<Source>, t: nat, u: nat)
    requires Acyclic(ts) && t < |ts| && u in Reach(ts, t)
    ensures u <= t
    decreases t
  {
    if u != t {
      ReachFromMember(ts, ts[t].src, t, u);
      var j :| 0 <= j < |ts[t].src| && u in Reach(ts, ts[t].src[j]);
      ReachBelow(ts, ts[t].src[j], u);
    }
  }

  /** Whatever a listed tensor is computed from is listed. */
  lemma {:induction false} ReachOfListed(ts: seq<Source>, s: Building, busy: set<nat>, t: nat, u: nat)
    requires Acyclic(ts) && Inv(ts, s, busy) && t < |ts| && Listed(s, t) && u in Reach(ts, t)
    ensures Listed(s, u) && u in s.used
    decreases t
  {
    if u != t {
      ReachFromMember(ts, ts[t].src, t, u);
      var j :| 0 <= j < |ts[t].src| && u in Reach(ts, ts[t].src[j]);
      SourceOfListed(ts, s, busy, t, ts[t].src[j]);
      ReachOfListed(ts, s, busy, ts[t].src[j], u);
    }
  }

  lemma SourceOfListed(ts: seq<Source>, s: Building, busy: set<nat>, t: nat, u: nat)
    requires Inv(ts, s, busy) && t < |ts| && Listed(s, t) && u in ts[t].src
    ensures Listed(s, u) && u in s.used
  {
    if t in s.nodes {
      var k :| 0 <= k < |s.nodes| && s.nodes[k] == t;
      assert u in s.leafs || u in s.nodes[..k];
    } else {
      var k :| 0 <= k < |s.leafs| && s.leafs[k] == t;
    }
  }

  // ---------------------------------------------------------------- counting edges

  lemma {:induction false} OccurrencesInTail(a: seq<nat>, b: seq<nat>, u: nat, j: nat)
    requires j <= |b|
    ensures OccurrencesFrom(a + b, u, |a| + j) == OccurrencesFrom(b, u, j)
    decreases |b| - j
  {
    if j < |b| { OccurrencesInTail(a, b, u, j + 1); }
  }

  lemma {:induction false} OccurrencesJoin(a: seq<nat>, b: seq<nat>, u: nat, j: nat)
    requires j <= |a|
    ensures OccurrencesFrom(a + b, u, j) == OccurrencesFrom(a, u, j) + Occurrences(b, u)
    decreases |a| - j
  {
    if j < |a| { OccurrencesJoin(a, b, u, j + 1); } else { OccurrencesInTail(a, b, u, 0); }
  }

  lemma OccurrencesAppend(a: seq<nat>, b: seq<nat>, u: nat)
    ensures Occurrences(a + b, u) == Occurrences(a, u) + Occurrences(b, u)
  {
    OccurrencesJoin(a, b, u, 0);
  }

  lemma {:induction false} OccurrencesRow(src: seq<nat>, rightToLeft: bool, u: nat)
    ensures Occurrences(Row(src, rightToLeft), u) == Occurrences(src, u)
  {
    if rightToLeft && src != [] {
      var x, rest := src[|src| - 1], src[..|src| - 1];
      OccurrencesRow(rest, true, u);
      assert Row(src, true) == [x] + Row(rest, true) && src == rest + [x];
      OccurrencesAppend([x], Row(rest, true), u);
      OccurrencesAppend(rest, [x], u);
    } else {
      assert Row(src, rightToLeft) == src;
    }
  }

  lemma {:induction false} EdgesAppend(ts: seq<Source>, a: seq<nat>, b: seq<nat>, u: nat)
    requires Ids(ts, a) && Ids(ts, b)
    ensures Ids(ts, a + b) && Edges(ts, a + b, u) == Edges(ts, a, u) + Edges(ts, b, u)
    decreases |b|
  {
    if b == [] {
      assert a + b == a;
    } else {
      assert (a + b)[..|a + b| - 1] == a + b[..|b| - 1];
      EdgesAppend(ts, a, b[..|b| - 1], u);
    }
  }

  lemma {:induction false} NoEdges(ts: seq<Source>, list: seq<nat>, u: nat)
    requires Ids(ts, list) && forall k :: 0 <= k < |list| ==> u !in ts[list[k]].src
    ensures Edges(ts, list, u) == 0
  {
    if list != [] {
      NoEdges(ts, list[..|list| - 1], u);
      OccurrencesZero(ts[list[|list| - 1]].src, u, 0);
    }
  }

  /** Listed tensors have no edges to unvisited ones. */
  lemma NoEdgesToUnused(ts: seq<Source>, s: Building, s': Building, busy: set<nat>, u: nat)
    requires Inv(ts, s', busy) && s.nodes <= s'.nodes && s.leafs <= s'.leafs && u !in s'.used
    ensures Ids(ts, s'.nodes[|s.nodes|..]) && Ids(ts, s'.leafs[|s.leafs|..]) && NewEdges(ts, s, s', u) == 0
  {
    var ns, ls := s'.nodes[|s.nodes|..], s'.leafs[|s.leafs|..];
    forall k | 0 <= k < |ns| ensures ns[k] < |ts| && u !in ts[ns[k]].src {
      if u in ts[ns[k]].src { SourceOfListed(ts, s', busy, ns[k], u); }
    }
    forall k | 0 <= k < |ls| ensures ls[k] < |ts| && u !in ts[ls[k]].src {
      if u in ts[ls[k]].src { SourceOfListed(ts, s', busy, ls[k], u); }
    }
    NoEdges(ts, ns, u);
    NoEdges(ts, ls, u);
  }

  lemma NewEdgesCompose(ts: seq<Source>, a: Building, b: Building, c: Building, u: nat)
    requires a.nodes <= b.nodes <= c.nodes && a.leafs <= b.leafs <= c.leafs
    requires Ids(ts, b.nodes[|a.nodes|..]) && Ids(ts, b.leafs[|a.leafs|..]) && Ids(ts, c.nodes[|b.nodes|..])
             && Ids(ts, c.leafs[|b.leafs|..])
    ensures Ids(ts, c.nodes[|a.nodes|..]) && Ids(ts, c.leafs[|a.leafs|..])
    ensures NewEdges(ts, a, c, u) == NewEdges(ts, a, b, u) + NewEdges(ts, b, c, u)
  {
    assert c.nodes[|a.nodes|..] == b.nodes[|a.nodes|..] + c.nodes[|b.nodes|..];
    assert c.leafs[|a.leafs|..] == b.leafs[|a.leafs|..] + c.leafs[|b.leafs|..];
    EdgesAppend(ts, b.nodes[|a.nodes|..], c.nodes[|b.nodes|..], u);
    EdgesAppend(ts, b.leafs[|a.leafs|..], c.leafs[|b.leafs|..], u);
  }

  // ---------------------------------------------------------------- the steps of a first visit

  /** t has just been marked as visited. */
  function Marked(ts: seq<Source>, s: Building, t: nat, compute: bool): Building
    requires t < |ts|
  {
    s.(used := s.used + {t}, uses := s.uses[t := 0], flagged := if compute && !ts[t].op.NONE? then s.flagged + {t}
      else s.flagged)
  }

  ghost predicate RowOk(ts: seq<Source>, t: nat, row: seq<nat>) {
    t < |ts| && forall j :: 0 <= j < |row| ==> row[j] < t
  }

  /** The first i sources of t have been visited. */
  ghost predicate SourcesDone(ts: seq<Source>, s: Building, si: Building, t: nat, row: seq<nat>, i: nat, compute: bool,
                              busy: set<nat>)
    requires Acyclic(ts) && RowOk(ts, t, row) && i <= |row|
  {
    && Inv(ts, si, busy) && FlagsClosed(ts, si.flagged, busy) && !Listed(si, t)
    && Counted(ts, s, si, ReachFrom(ts, row[..i], t), row[..i])
      && FlagsGrown(ts, s, si, ReachFrom(ts, row[..i], t), compute)
    && (forall j :: 0 <= j < i ==> row[j] in si.used && (compute && !ts[row[j]].op.NONE? ==> row[j] in si.flagged))
  }

  lemma MarkedIsFine(ts: seq<Source>, s: Building, t: nat, compute: bool, busy: set<nat>, row: seq<nat>)
    requires Acyclic(ts) && RowOk(ts, t, row) && Inv(ts, s, busy) && FlagsClosed(ts, s.flagged, busy) && t !in s.used
    ensures SourcesDone(ts, Marked(ts, s, t, compute), Marked(ts, s, t, compute), t, row, 0, compute, busy + {t})
  {
    var m := Marked(ts, s, t, compute);
    assert m.nodes[|m.nodes|..] == [] && m.leafs[|m.leafs|..] == [] && row[..0] == [];
    forall u: nat | u !in busy + {t} ensures FlagsClosedAt(ts, m.flagged, u) { assert FlagsClosedAt(ts, s.flagged, u); }
  }

  lemma GrownCompose(ts: seq<Source>, a: Building, b: Building, c: Building, r: set<nat>, q: set<nat>)
    requires Grown(ts, a, b, r) && Grown(ts, b, c, q)
    ensures Grown(ts, a, c, r + q)
  {
    assert c.nodes[|a.nodes|..] == b.nodes[|a.nodes|..] + c.nodes[|b.nodes|..];
    assert c.leafs[|a.leafs|..] == b.leafs[|a.leafs|..] + c.leafs[|b.leafs|..];
  }

  lemma OccurrencesShort(x: nat, u: nat)
    ensures Occurrences([], u) == 0 && Occurrences([x], u) == if x == u then 1 else 0
  {
    assert OccurrencesFrom([x], u, 1) == 0;
  }

  lemma NewlyCounted(ts: seq<Source>, a: Building, b: Building, c: Building, r: set<nat>, q: set<nat>, row: seq<nat>,
                     busy: set<nat>, u: nat)
    requires Counted(ts, a, b, r, row) && Counted(ts, b, c, q, []) && Inv(ts, b, busy) && u in c.used
    requires forall y :: y in row ==> y in b.used
    ensures Grown(ts, a, c, r + q) && u in c.uses && c.uses[u]
            == UsesOf(a, u) + NewEdges(ts, a, c, u) + Occurrences(row, u)
  {
    hide Inv;
    hide NewEdges;
    GrownCompose(ts, a, b, c, r, q);
    NewEdgesCompose(ts, a, b, c, u);
    OccurrencesShort(u, u);
    if u !in b.used {
      NoEdgesToUnused(ts, a, b, busy, u);
      OccurrencesZero(row, u, 0);
    } else {
      hide Occurrences;
    }
  }

  /** Counting continues where it stopped; `x` is the source whose use is counted on top. */
  lemma CountedCompose(ts: seq<Source>, a: Building, b: Building, c: Building, r: set<nat>, q: set<nat>, row: seq<nat>,
                       x: nat, busy: set<nat>)
    requires Counted(ts, a, b, r, row) && Counted(ts, b, c, q, []) && Inv(ts, b, busy) && x in c.used && x in c.uses
    requires forall y :: y in row ==> y in b.used
    ensures Counted(ts, a, c.(uses := c.uses[x := c.uses[x] + 1]), r + q, row + [x])
  {
    hide Inv;
    hide Occurrences;
    var d := c.(uses := c.uses[x := c.uses[x] + 1]);
    GrownCompose(ts, a, b, c, r, q);
    forall u | u in d.used
      ensures u in d.uses && d.uses[u] == UsesOf(a, u) + NewEdges(ts, a, d, u) + Occurrences(row + [x], u)
    {
      NewlyCounted(ts, a, b, c, r, q, row, busy, u);
      OccurrencesAppend(row, [x], u);
      OccurrencesShort(x, u);
    }
  }

  lemma FlagsCompose(ts: seq<Source>, a: Building, b: Building, c: Building, r: set<nat>, q: set<nat>, compute: bool)
    requires FlagsGrown(ts, a, b, r, compute) && FlagsGrown(ts, b, c, q, compute)
    ensures FlagsGrown(ts, a, c, r + q, compute)
  {
  }

  /** One more source has been visited and its use counted. */
  lemma SourceStep(ts: seq<Source>, s: Building, si: Building, sv: Building, t: nat, row: seq<nat>, i: nat,
                   compute: bool, busy: set<nat>)
    requires Acyclic(ts) && RowOk(ts, t, row) && i < |row| && SourcesDone(ts, s, si, t, row, i, compute, busy)
    requires Visited(ts, si, sv, row[i], compute, busy)
    ensures row[i] in sv.uses && SourcesDone(ts, s, sv.(uses := sv.uses[row[i] := sv.uses[row[i]] + 1]), t, row, i + 1,
              compute, busy)
  {
    hide Inv;
    hide FlagsClosed;
    hide Counted;
    hide FlagsGrown;
    var x, r, q := row[i], ReachFrom(ts, row[..i], t), Reach(ts, row[i]);
    assert row[..i + 1][..i] == row[..i] && row[..i + 1] == row[..i] + [x];
    assert ReachFrom(ts, row[..i + 1], t) == r + q;
    SelfReached(ts, x);
    CountedFacts(ts, si, sv, q, []);
    var next := sv.(uses := sv.uses[x := sv.uses[x] + 1]);
    assert FlagsGrown(ts, s, next, r + q, compute) by {
      FlagsCompose(ts, s, si, sv, r, q, compute);
      FlagsIgnoreUses(ts, s, sv, r + q, compute, x);
    }
    CountedCompose(ts, s, si, sv, r, q, row[..i], x, busy);
    FlagsKept(ts, si, sv, q, compute);
    NotListedAbove(ts, si, sv, x, t);
    InvWithUses(ts, sv, busy, x);
  }

  lemma CountedFacts(ts: seq<Source>, s: Building, s': Building, reached: set<nat>, row: seq<nat>)
    requires Counted(ts, s, s', reached, row)
    ensures Grown(ts, s, s', reached) && forall u :: u in s'.used ==> u in s'.uses
  {
  }

  lemma FlagsIgnoreUses(ts: seq<Source>, s: Building, s': Building, reached: set<nat>, compute: bool, x: nat)
    requires FlagsGrown(ts, s, s', reached, compute) && x in s'.uses
    ensures FlagsGrown(ts, s, s'.(uses := s'.uses[x := s'.uses[x] + 1]), reached, compute)
  {
  }

  lemma FlagsKept(ts: seq<Source>, s: Building, s': Building, reached: set<nat>, compute: bool)
    requires FlagsGrown(ts, s, s', reached, compute)
    ensures s.flagged <= s'.flagged
  {
  }

  lemma SelfReached(ts: seq<Source>, t: nat)
    requires Acyclic(ts) && t < |ts|
    ensures t in Reach(ts, t)
  {
  }

  lemma NotListedAbove(ts: seq<Source>, si: Building, sv: Building, x: nat, t: nat)
    requires Acyclic(ts) && x < t < |ts| && Grown(ts, si, sv, Reach(ts, x)) && !Listed(si, t)
    ensures !Listed(sv, t)
  {
    if t in Reach(ts, x) { ReachBelow(ts, x, t); }
  }

  lemma InvWithUses(ts: seq<Source>, s: Building, busy: set<nat>, x: nat)
    requires Inv(ts, s, busy) && x in s.uses
    ensures Inv(ts, s.(uses := s.uses[x := s.uses[x] + 1]), busy)
  {
  }

  /** t joins its list. */
  function Placed(ts: seq<Source>, s: Building, t: nat): Building
    requires t < |ts|
  {
    if IsLeaf(ts[t]) then s.(leafs := s.leafs + [t]) else s.(nodes := s.nodes + [t])
  }

  lemma PlacedInv(ts: seq<Source>, s: Building, t: nat, busy: set<nat>)
    requires Acyclic(ts) && t < |ts| && Inv(ts, s, busy + {t}) && !Listed(s, t) && t in s.used
    requires forall u :: u in ts[t].src ==> Listed(s, u)
    ensures Inv(ts, Placed(ts, s, t), busy)
  {
    var p := Placed(ts, s, t);
    forall k, u | 0 <= k < |p.nodes| && u in ts[p.nodes[k]].src ensures u in p.leafs || u in p.nodes[..k] {
      if k < |s.nodes| {
        assert s.nodes[k] == p.nodes[k] && s.nodes[..k] == p.nodes[..k];
      } else {
        assert p.nodes[..k] == s.nodes;
        assert Listed(s, u);
      }
    }
    forall k, u | 0 <= k < |p.leafs| && u in ts[p.leafs[k]].src ensures u in p.nodes || u in p.leafs {
      if k < |s.leafs| { assert s.leafs[k] == p.leafs[k]; } else { assert Listed(s, u); }
    }
  }

  /** Listing t adds the edges of t. */
  lemma PlacedEdges(ts: seq<Source>, s: Building, sn: Building, t: nat, u: nat)
    requires t < |ts| && s.nodes <= sn.nodes && s.leafs <= sn.leafs && Ids(ts, sn.nodes[|s.nodes|..])
             && Ids(ts, sn.leafs[|s.leafs|..])
    ensures var p := Placed(ts, sn, t);
            && s.nodes <= p.nodes && s.leafs <= p.leafs && Ids(ts, p.nodes[|s.nodes|..])
              && Ids(ts, p.leafs[|s.leafs|..])
            && NewEdges(ts, s, p, u) == NewEdges(ts, s, sn, u) + Occurrences(ts[t].src, u)
  {
    var p := Placed(ts, sn, t);
    var ns, ls := sn.nodes[|s.nodes|..], sn.leafs[|s.leafs|..];
    assert p.nodes[|s.nodes|..] == if IsLeaf(ts[t]) then ns else ns + [t];
    assert p.leafs[|s.leafs|..] == if IsLeaf(ts[t]) then ls + [t] else ls;
    assert [t][..0] == [];
    EdgesAppend(ts, ns, [t], u);
    EdgesAppend(ts, ls, [t], u);
  }

  lemma PlacedCounted(ts: seq<Source>, s: Building, sn: Building, t: nat, compute: bool, r: set<nat>, row: seq<nat>)
    requires t < |ts| && t !in s.used && Counted(ts, Marked(ts, s, t, compute), sn, r, row) && !Listed(sn, t)
    requires forall u :: Occurrences(row, u) == Occurrences(ts[t].src, u)
    ensures Counted(ts, s, Placed(ts, sn, t), {t} + r, [])
  {
    hide NewEdges;
    var m, p := Marked(ts, s, t, compute), Placed(ts, sn, t);
    PlacedEdges(ts, s, sn, t, t);
    forall u | u in p.used ensures u in p.uses && p.uses[u] == UsesOf(s, u) + NewEdges(ts, s, p, u) + Occurrences([], u)
    {
      PlacedEdges(ts, s, sn, t, u);
      SameNewEdges(ts, m, s, sn, u);
      assert UsesOf(m, u) == UsesOf(s, u);
    }
  }

  lemma SameNewEdges(ts: seq<Source>, a: Building, b: Building, s': Building, u: nat)
    requires a.nodes == b.nodes <= s'.nodes && a.leafs == b.leafs <= s'.leafs && Ids(ts, s'.nodes[|a.nodes|..])
             && Ids(ts, s'.leafs[|a.leafs|..])
    ensures NewEdges(ts, a, s', u) == NewEdges(ts, b, s', u)
  {
  }

  lemma PlacedFlags(ts: seq<Source>, s: Building, sn: Building, t: nat, compute: bool, busy: set<nat>, r: set<nat>,
                    row: seq<nat>)
    requires t < |ts| && FlagsClosed(ts, s.flagged, busy) && t !in busy
    requires FlagsGrown(ts, Marked(ts, s, t, compute), sn, r, compute) && FlagsClosed(ts, sn.flagged, busy + {t})
    requires forall u :: u in ts[t].src ==> u in row
    requires compute ==> forall j :: 0 <= j < |row| ==> row[j] < |ts| && (!ts[row[j]].op.NONE? ==> row[j] in sn.flagged)
    ensures FlagsGrown(ts, s, Placed(ts, sn, t), {t} + r, compute) && FlagsClosed(ts, Placed(ts, sn, t).flagged, busy)
    ensures compute && !ts[t].op.NONE? ==> t in sn.flagged
  {
    assert FlagsClosedAt(ts, s.flagged, t);
  }

  /** All sources of t have been visited, and t has been listed. */
  lemma FirstVisit(ts: seq<Source>, s: Building, sn: Building, t: nat, rightToLeft: bool, compute: bool, busy: set<nat>)
    requires Acyclic(ts) && t < |ts| && t !in s.used && RowOk(ts, t, Row(ts[t].src, rightToLeft))
             && (forall p :: p in busy ==> p > t)
    requires Inv(ts, s, busy) && FlagsClosed(ts, s.flagged, busy)
    requires SourcesDone(ts, Marked(ts, s, t, compute), sn, t, Row(ts[t].src, rightToLeft), |ts[t].src|, compute,
             busy + {t})
    ensures Visited(ts, s, Placed(ts, sn, t), t, compute, busy)
  {
    hide FlagsClosed;
    hide FlagsGrown;
    hide Counted;
    var row := Row(ts[t].src, rightToLeft);
    var r := ReachFrom(ts, row, t);
    assert row[..|row|] == row;
    RowReaches(ts, t, rightToLeft);
    RowMembers(ts, t, rightToLeft);
    forall u ensures Occurrences(row, u) == Occurrences(ts[t].src, u) { OccurrencesRow(ts[t].src, rightToLeft, u); }
    PlacedCounted(ts, s, sn, t, compute, r, row);
    PlacedFlags(ts, s, sn, t, compute, busy, r, row);
    MarkedUsed(ts, s, sn, t, compute, r, row);
    PlacedInv(ts, sn, t, busy);
  }

  lemma MarkedUsed(ts: seq<Source>, s: Building, sn: Building, t: nat, compute: bool, r: set<nat>, row: seq<nat>)
    requires t < |ts| && Counted(ts, Marked(ts, s, t, compute), sn, r, row)
    ensures t in sn.used
  {
  }

  // ---------------------------------------------------------------- visiting again

  /** The first i sources of an already visited t have been revisited for their flags. */
  ghost predicate Revisited(ts: seq<Source>, s: Building, si: Building, t: nat, i: nat, busy: set<nat>)
    requires Acyclic(ts) && t < |ts| && i <= |ts[t].src|
  {
    && si.nodes == s.nodes && si.leafs == s.leafs && si.used == s.used
    && (forall u :: u in s.used ==> u in s.uses && u in si.uses && si.uses[u] == s.uses[u])
    && FlagsClosed(ts, si.flagged, busy + {t}) && FlagsGrown(ts, s, si, Reach(ts, t), true)
    && (!ts[t].op.NONE? ==> t in si.flagged)
    && (forall j :: 0 <= j < i ==> ts[t].src[j] < |ts| && (!ts[ts[t].src[j]].op.NONE? ==> ts[t].src[j] in si.flagged))
  }

  lemma RevisitStart(ts: seq<Source>, s: Building, t: nat, busy: set<nat>)
    requires Acyclic(ts) && t < |ts| && Inv(ts, s, busy) && FlagsClosed(ts, s.flagged, busy)
    ensures Revisited(ts, s, s.(flagged := if !ts[t].op.NONE? then s.flagged + {t} else s.flagged), t, 0, busy)
  {
    var m := s.(flagged := if !ts[t].op.NONE? then s.flagged + {t} else s.flagged);
    forall u: nat | u !in busy + {t} ensures FlagsClosedAt(ts, m.flagged, u) { assert FlagsClosedAt(ts, s.flagged, u); }
    SelfReached(ts, t);
  }

  lemma RevisitStep(ts: seq<Source>, s: Building, si: Building, sv: Building, t: nat, i: nat, busy: set<nat>)
    requires Acyclic(ts) && t < |ts| && i < |ts[t].src| && Inv(ts, s, busy) && t in s.used && t !in busy
    requires Revisited(ts, s, si, t, i, busy) && Visited(ts, si, sv, ts[t].src[i], true, busy + {t})
    ensures Revisited(ts, s, sv, t, i + 1, busy)
  {
    hide Inv;
    hide FlagsClosed;
    var x := ts[t].src[i];
    TIsListed(ts, s, t, busy);
    SourceOfListed(ts, s, busy, t, x);
    forall u | u in Reach(ts, x) ensures u in s.used { ReachOfListed(ts, s, busy, x, u); }
    assert sv.nodes[|si.nodes|..] == [] && sv.leafs[|si.leafs|..] == [];
    forall u | u in Reach(ts, x) ensures u in Reach(ts, t) { ReachFromMember(ts, ts[t].src, t, u); }
  }

  lemma TIsListed(ts: seq<Source>, s: Building, t: nat, busy: set<nat>)
    requires Inv(ts, s, busy) && t in s.used && t !in busy
    ensures Listed(s, t)
  {
  }

  /** A source that carries the flag already is left alone. */
  lemma RevisitSkip(ts: seq<Source>, s: Building, si: Building, t: nat, i: nat, busy: set<nat>)
    requires Acyclic(ts) && t < |ts| && i < |ts[t].src| && Revisited(ts, s, si, t, i, busy)
             && ts[t].src[i] in si.flagged
    ensures Revisited(ts, s, si, t, i + 1, busy)
  {
  }

  lemma SecondVisit(ts: seq<Source>, s: Building, si: Building, t: nat, busy: set<nat>)
    requires Acyclic(ts) && t < |ts| && Inv(ts, s, busy) && FlagsClosed(ts, s.flagged, busy) && t in s.used
             && t !in busy
    requires Revisited(ts, s, si, t, |ts[t].src|, busy)
    ensures Visited(ts, s, si, t, true, busy)
  {
    TIsListed(ts, s, t, busy);
    forall u | u in Reach(ts, t) ensures u in s.used { ReachOfListed(ts, s, busy, t, u); }
    assert si.nodes[|s.nodes|..] == [] && si.leafs[|s.leafs|..] == [];
    assert FlagsClosedAt(ts, s.flagged, t);
    assert FlagsClosedAt(ts, si.flagged, t);
  }

  /** Nothing happens when t is visited again without computing. */
  lemma IdleVisit(ts: seq<Source>, s: Building, t: nat, busy: set<nat>)
    requires Acyclic(ts) && t < |ts| && Inv(ts, s, busy) && FlagsClosed(ts, s.flagged, busy) && t in s.used
             && t !in busy
    ensures Visited(ts, s, s, t, false, busy)
  {
    TIsListed(ts, s, t, busy);
    forall u | u in Reach(ts, t) ensures u in s.used { ReachOfListed(ts, s, busy, t, u); }
    assert s.nodes[|s.nodes|..] == [] && s.leafs[|s.leafs|..] == [];
  }
}
