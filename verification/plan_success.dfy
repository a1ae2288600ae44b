/** When planning succeeds: enough room, no parent smaller than the node that takes it over, and no more tensors held at
    once than the table of free blocks can separate. */
module PlanSuccess {
  import opened Wrappers
  import opened Alignment
  import opened FreeList
  import opened TensorAlloc
  import opened TensorGraph
  import opened Planner
  import opened PlannerMemory
  import opened PlannerCounts
  import opened PlannerOwners
  import opened PlannerSafety
  import opened PlanSafety
  import TallocRuns

  // ---------------------------------------------------------------- free blocks and owners

  /** The byte behind a free block that is not the last one belongs to somebody. */
  lemma GapOwner(pools: seq<Talloc>, own: map<nat, Range>, i: nat, c: nat, k: nat) returns (t: nat)
    requires MemInv(pools, own) && i < |pools| && c < |pools[i].chunks| && k + 1 < |pools[i].chunks[c].blocks|
    ensures t in own && Covers(own[t], i, c, pools[i].chunks[c].blocks[k].End())
  {
    var ch := pools[i].chunks[c];
    var bs, x := ch.blocks, ch.blocks[k].End();
    assert Inv(pools[i]) && ChunkInv(ch, pools[i].alignment);
    forall m | 0 <= m < |bs| ensures !bs[m].Covers(x) {
      if m < k { assert bs[m].End() < bs[k].offset; }
      if m > k { assert bs[k].End() < bs[m].offset; }
    }
    assert bs[k].End() < bs[k + 1].offset;
    assert Used(pools[i], c, x);
    assert SomeoneCovers(own, i, c, x);
    t :| t in own && Covers(own[t], i, c, x);
  }

  lemma DifferentOwners(pools: seq<Talloc>, own: map<nat, Range>, i: nat, c: nat, k: nat, m: nat, t: nat)
    requires MemInv(pools, own) && i < |pools| && c < |pools[i].chunks| && k < m < |pools[i].chunks[c].blocks|
    requires t in own && Covers(own[t], i, c, pools[i].chunks[c].blocks[k].End())
    ensures !Covers(own[t], i, c, pools[i].chunks[c].blocks[m].End())
  {
    var bs := pools[i].chunks[c].blocks;
    assert Inv(pools[i]) && ChunkInv(pools[i].chunks[c], pools[i].alignment);
    assert bs[k].End() < bs[m].offset < bs[m].End();
    if Covers(own[t], i, c, bs[m].End()) {
      OwnedIsUsed(pools, own, t, bs[m].offset);
      assert bs[m].Covers(bs[m].offset);
      assert IsFree(bs, bs[m].offset);
      assert false;
    }
  }

  /** As many owners as gaps behind the first n blocks. */
  lemma {:induction false} GapOwners(pools: seq<Talloc>, own: map<nat, Range>, i: nat, c: nat, n: nat)
    returns (s: set<nat>)
    requires MemInv(pools, own) && i < |pools| && c < |pools[i].chunks| && n < |pools[i].chunks[c].blocks|
    ensures |s| == n && s <= own.Keys
    ensures forall t :: t in s ==>
            t in own && exists k :: 0 <= k < n && Covers(own[t], i, c, pools[i].chunks[c].blocks[k].End())
    decreases n
  {
    hide MemInv;
    if n == 0 {
      s := {};
    } else {
      var before := GapOwners(pools, own, i, c, n - 1);
      var t := GapOwner(pools, own, i, c, n - 1);
      if t in before {
        var k :| 0 <= k < n - 1 && Covers(own[t], i, c, pools[i].chunks[c].blocks[k].End());
        DifferentOwners(pools, own, i, c, k, n - 1, t);
        assert false;
      }
      s := before + {t};
    }
  }

  lemma {:induction false} SubsetSize<T>(a: set<T>, b: set<T>)
    requires a <= b
    ensures |a| <= |b|
    decreases |a|
  {
    if a != {} {
      var x :| x in a;
      SubsetSize(a - {x}, b - {x});
    }
  }

  /** Free blocks are separated by owned ranges, so there is at most one more of them than there are owners. */
  lemma FewBlocks(pools: seq<Talloc>, own: map<nat, Range>, i: nat, c: nat)
    requires MemInv(pools, own) && i < |pools| && c < |pools[i].chunks|
    ensures |pools[i].chunks[c].blocks| <= |own.Keys| + 1
  {
    hide MemInv;
    var n := |pools[i].chunks[c].blocks|;
    if n > 0 {
      var s := GapOwners(pools, own, i, c, n - 1);
      SubsetSize(s, own.Keys);
    }
  }

  /** With room for one more block a release succeeds. */
  lemma ReleaseSucceeds(pools: seq<Talloc>, own: map<nat, Range>, i: nat, addr: Address, request: nat)
    requires MemInv(pools, own) && i < |pools| && addr.chunk < |pools[i].chunks| && |own.Keys| < 255
    requires pools[i].alignment > 0
    ensures FreeBytes(pools[i], addr, request).Some?
    ensures var u := FreeBytes(pools[i], addr, request).value;
      && |u.chunks| == |pools[i].chunks|
      && forall c :: 0 <= c < |u.chunks| ==>
           u.chunks[c].limit == pools[i].chunks[c].limit && u.chunks[c].maxSize == pools[i].chunks[c].maxSize
  {
    FewBlocks(pools, own, i, addr.chunk);
  }

  /** The tensors that own their range. */
  ghost function Owners(hv: seq<HashNode>): set<nat> {
    set t: nat | t < |hv| && hv[t].owned
  }

  lemma SameOwners(hv: seq<HashNode>, hv': seq<HashNode>)
    requires |hv'| == |hv| && forall t :: 0 <= t < |hv| ==> hv'[t].owned == hv[t].owned
    ensures Owners(hv') == Owners(hv)
  {
  }

  lemma OwnersOwn(cfg: Config, hv: seq<HashNode>)
    requires BuffersOk(cfg, hv)
    ensures Own(cfg, hv).Keys == Owners(hv)
  {
  }

  // ---------------------------------------------------------------- room in an allocator

  /** What lies above `bound` has never been used, and the last possible chunk is as large as can be. */
  ghost predicate Roomy(t: Talloc, bound: nat) {
    && (|t.chunks| == 16 ==> t.chunks[15].limit == HALF_MAX)
    && forall c :: 0 <= c < |t.chunks| ==> t.chunks[c].maxSize <= bound
  }

  lemma UsedBeforeBlock(bs: seq<Block>, limit: nat, i: nat)
    requires Wf(bs, limit) && i < |bs|
    ensures !IsFree(bs, bs[i].offset - 1)
  {
    forall k | 0 <= k < |bs| ensures !bs[k].Covers(bs[i].offset - 1) {
      if k < i { assert bs[k].End() < bs[i].offset; }
      if k > i { assert bs[i].End() < bs[k].offset; }
    }
  }

  lemma BlocksStartBelow(c: Chunk, alignment: nat, i: nat)
    requires alignment > 0 && ChunkInv(c, alignment) && i < |c.blocks|
    ensures c.blocks[i].offset <= c.maxSize
  {
    UsedBeforeBlock(c.blocks, c.limit, i);
    assert c.blocks[i].End() <= c.limit;
  }

  /** What has never been used is part of one block. */
  lemma UnusedFits(c: Chunk, alignment: nat, size: nat)
    requires alignment > 0 && ChunkInv(c, alignment) && size > 0 && c.maxSize + size <= c.limit
    ensures exists i :: 0 <= i < |c.blocks| && c.blocks[i].size >= size
  {
    assert IsFree(c.blocks, c.limit - 1);
    var i :| 0 <= i < |c.blocks| && c.blocks[i].Covers(c.limit - 1);
    BlocksStartBelow(c, alignment, i);
  }

  /** A request finds room as long as everything used so far, with the request on top, fits in the largest chunk. */
  lemma AllocSucceeds(t: Talloc, request: nat, bound: nat)
    requires Inv(t) && 0 < request && Roomy(t, bound) && bound + AlignUp(request, t.alignment) <= HALF_MAX
    ensures Alloc(t, request).Some? && Roomy(Alloc(t, request).value.0, bound + AlignUp(request, t.alignment))
  {
    hide Alloc;
    hide ChunkInv;
    var size := AlignUp(request, t.alignment);
    AllocFailsOnlyWhenFull(t, request);
    if |t.chunks| == 16 {
      UnusedFits(t.chunks[15], t.alignment, size);
      var i :| 0 <= i < |t.chunks[15].blocks| && t.chunks[15].blocks[i].size >= size;
      assert SomethingFits(t, size);
    }
    AllocStaysRoomy(t, request, bound);
  }

  lemma AllocStaysRoomy(t: Talloc, request: nat, bound: nat)
    requires Inv(t) && 0 < request && Roomy(t, bound) && bound + AlignUp(request, t.alignment) <= HALF_MAX
    requires Alloc(t, request).Some?
    ensures Roomy(Alloc(t, request).value.0, bound + AlignUp(request, t.alignment))
  {
    hide ChunkInv;
    hide AlignUp;
    var (u, addr) := Alloc(t, request).value;
    TallocRuns.AllocMaxSize(t, request);
    StartsBelow(t, request, bound);
    LastChunkLimit(t, request);
    hide Alloc;
  }

  lemma StartsBelow(t: Talloc, request: nat, bound: nat)
    requires Inv(t) && Roomy(t, bound) && AlignUp(request, t.alignment) <= HALF_MAX && Alloc(t, request).Some?
    ensures Alloc(t, request).value.1.offset <= bound
  {
    hide ChunkInv;
    hide FitSearch;
    hide TailSearch;
    hide AlignUp;
    var p := FindPlace(t, AlignUp(request, t.alignment)).value;
    if p.chunk < |t.chunks| {
      BlocksStartBelow(t.chunks[p.chunk], t.alignment, p.block);
    }
  }

  lemma LastChunkLimit(t: Talloc, request: nat)
    requires t.alignment > 0 && AlignUp(request, t.alignment) <= HALF_MAX && Alloc(t, request).Some?
    requires |t.chunks| == 16 ==> t.chunks[15].limit == HALF_MAX
    ensures var u := Alloc(t, request).value.0; |u.chunks| == 16 ==> u.chunks[15].limit == HALF_MAX
  {
    hide FitSearch;
    hide TailSearch;
    hide AlignUp;
  }

  // ---------------------------------------------------------------- what a caller has to provide

  /** No tensor needs more than `most` bytes, padding included, in any buffer. */
  ghost predicate AtMost(g: Graph, cfg: Config, most: nat)
    requires CfgOk(cfg)
  {
    forall buf, t :: 0 <= buf < |cfg.bufts| && 0 <= t < |g.tensors| ==> Padded(cfg, buf, t) <= most
  }

  /** A node is never larger than a source of the same layout, in any buffer. */
  ghost predicate ParentsLargeEnough(g: Graph, cfg: Config) {
    forall buf, t, p :: 0 <= buf < |cfg.bufts| && 0 <= t < |g.tensors| && 0 <= p < |g.tensors|
                        && cfg.sameLayout(t, p) ==>
      Request(cfg, buf, t) <= Request(cfg, buf, p)
  }

  ghost predicate PoolsRoomy(pools: seq<Talloc>, bound: nat) {
    forall i :: 0 <= i < |pools| ==> Roomy(pools[i], bound)
  }

  lemma MoreRoom(pools: seq<Talloc>, a: nat, b: nat)
    requires PoolsRoomy(pools, a) && a <= b
    ensures PoolsRoomy(pools, b)
  {
    forall i | 0 <= i < |pools| ensures Roomy(pools[i], b) { assert Roomy(pools[i], a); }
  }

  lemma InvOfPool(pools: seq<Talloc>, own: map<nat, Range>, i: nat)
    requires MemInv(pools, own) && i < |pools|
    ensures Inv(pools[i])
  {
  }

  lemma RoomierPools(pools: seq<Talloc>, i: nat, u: Talloc, a: nat, b: nat)
    requires PoolsRoomy(pools, a) && a <= b && i < |pools| && Roomy(u, b)
    ensures PoolsRoomy(pools[i := u], b)
  {
    MoreRoom(pools, a, b);
  }

  // ---------------------------------------------------------------- placing a tensor

  /** A place of its own. */
  lemma FreshSucceeds(g: Graph, cfg: Config, s: State, t: nat, buf: nat, bound: nat, most: nat)
    requires PlanInv(g, cfg, s) && t < |s.hv| && buf < |cfg.bufts| && AtMost(g, cfg, most)
    requires PoolsRoomy(s.pools, bound) && bound + most <= HALF_MAX
    ensures AllocFresh(g, cfg, s, t, buf).Some? && PoolsRoomy(AllocFresh(g, cfg, s, t, buf).value.pools, bound + most)
  {
    hide MemInv;
    hide Alloc;
    hide AlignUp;
    hide Roomy;
    var i := PoolOf(cfg, buf);
    InvOfPool(s.pools, Own(cfg, s.hv), i);
    assert Padded(cfg, buf, t) <= most;
    assert Roomy(s.pools[i], bound);
    AllocSucceeds(s.pools[i], Request(cfg, buf, t), bound);
    RoomierPools(s.pools, i, Alloc(s.pools[i], Request(cfg, buf, t)).value.0, bound, bound + Padded(cfg, buf, t));
    MoreRoom(s.pools[i := Alloc(s.pools[i], Request(cfg, buf, t)).value.0], bound + Padded(cfg, buf, t), bound + most);
  }

  /** The place of a parent. */
  lemma TakeOverSucceeds(g: Graph, cfg: Config, s: State, t: nat, p: nat, bound: nat)
    requires PlanInv(g, cfg, s) && t < |s.hv| && p < |s.hv| && t != p && s.hv[p].owned
    requires ParentsLargeEnough(g, cfg) && cfg.sameLayout(t, p)
    requires |Owners(s.hv)| < 255 && PoolsRoomy(s.pools, bound)
    ensures TakeOver(g, cfg, s, t, p).Some? && PoolsRoomy(TakeOver(g, cfg, s, t, p).value.pools, bound)
  {
    hide MemInv;
    hide FreeBytes;
    hide AlignUp;
    hide Roomy;
    var buf := s.hv[p].bufferId;
    var i := PoolOf(cfg, buf);
    var ps, ns := AlignUp(Request(cfg, buf, p), cfg.align[i]), AlignUp(Request(cfg, buf, t), cfg.align[i]);
    assert Request(cfg, buf, t) <= Request(cfg, buf, p);
    if ps > ns {
      var addr := Address(s.hv[p].addr.chunk, s.hv[p].addr.offset + ns);
      OwnersOwn(cfg, s.hv);
      ReleaseSucceeds(s.pools, Own(cfg, s.hv), i, addr, ps - ns);
      SameRoom(s.pools[i], FreeBytes(s.pools[i], addr, ps - ns).value, bound);
      RoomierPools(s.pools, i, FreeBytes(s.pools[i], addr, ps - ns).value, bound, bound);
    }
  }

  lemma SameRoom(t: Talloc, u: Talloc, bound: nat)
    requires Roomy(t, bound) && |u.chunks| == |t.chunks|
    requires forall c :: 0 <= c < |u.chunks| ==>
               u.chunks[c].limit == t.chunks[c].limit && u.chunks[c].maxSize == t.chunks[c].maxSize
    ensures Roomy(u, bound)
  {
  }

  /** Placing a tensor succeeds, and uses at most one more range of the largest size. */
  lemma PlacingSucceeds(g: Graph, cfg: Config, s: State, t: nat, buf: nat, bound: nat, most: nat)
    requires PlanInv(g, cfg, s) && t < |s.hv| && buf < |cfg.bufts| && AtMost(g, cfg, most) && ParentsLargeEnough(g, cfg)
    requires CanInplace(g.tensors[t].op) ==> t !in g.tensors[t].src && |Owners(s.hv)| < 255
    requires PoolsRoomy(s.pools, bound) && bound + most <= HALF_MAX
    ensures AllocateNode(g, cfg, s, t, buf).Some?
    ensures PoolsRoomy(AllocateNode(g, cfg, s, t, buf).value.pools, bound + most)
  {
    hide MemInv;
    hide AllocFresh;
    hide TakeOver;
    hide TakeOverView;
    hide PoolsRoomy;
    hide AtMost;
    hide ParentsLargeEnough;
    ViewsAreNeverReused(g, cfg, s, t);
    MoreRoom(s.pools, bound, bound + most);
    if Storable(g, t) && !s.hv[t].owned {
      if Taken(g, cfg, s, t).Some? {
        TakeOverSucceeds(g, cfg, s, t, Taken(g, cfg, s, t).value, bound + most);
      } else {
        FreshSucceeds(g, cfg, s, t, buf, bound, most);
      }
    }
  }

  // ---------------------------------------------------------------- before the allocation loop

  ghost function Below(n: nat): set<nat> {
    if n == 0 then {} else Below(n - 1) + {n - 1}
  }

  lemma {:induction false} BelowSize(n: nat)
    ensures |Below(n)| == n && forall x: nat :: x in Below(n) <==> x < n
  {
    if n > 0 { BelowSize(n - 1); }
  }

  /** There are no more owners than tensors, and fewer if some tensor owns nothing. */
  lemma OwnersAreTensors(hv: seq<HashNode>)
    ensures |Owners(hv)| <= |hv|
    ensures forall t :: 0 <= t < |hv| && !hv[t].owned ==> |Owners(hv)| < |hv|
  {
    BelowSize(|hv|);
    SubsetSize(Owners(hv), Below(|hv|));
    if t :| 0 <= t < |hv| && !hv[t].owned { SubsetSize(Owners(hv) + {t}, Below(|hv|)); }
  }

  lemma OneMoreOwner(hv: seq<HashNode>, hv': seq<HashNode>, t: nat)
    requires t < |hv| == |hv'| && !hv[t].owned && hv'[t].owned
    requires forall u :: 0 <= u < |hv| && u != t ==> hv'[u].owned == hv[u].owned
    ensures |Owners(hv')| == |Owners(hv)| + 1
  {
    assert Owners(hv') == Owners(hv) + {t};
  }

  /** Room for n ranges of the largest size. */
  function Space(n: nat, most: nat): nat {
    n * most
  }

  /** Every pool has been used by no more than one range of the largest size per owner. */
  ghost predicate Snug(g: Graph, cfg: Config, s: State, most: nat) {
    Ordered(g) && PlanInv(g, cfg, s) && PoolsRoomy(s.pools, Space(|Owners(s.hv)|, most))
  }

  /** The limits that a caller keeps to. */
  ghost predicate Limits(g: Graph, cfg: Config, most: nat) {
    && CfgOk(cfg) && Ordered(g) && AtMost(g, cfg, most) && ParentsLargeEnough(g, cfg)
    && Space(|g.tensors| + |g.nodes|, most) <= HALF_MAX
  }

  lemma LimitsLeaveRoom(g: Graph, cfg: Config, most: nat, n: nat)
    requires Limits(g, cfg, most) && n < |g.tensors| + |g.nodes|
    ensures Space(n, most) + most == Space(n + 1, most) && Space(n + 1, most) <= HALF_MAX
  {
    hide AtMost;
    hide ParentsLargeEnough;
    hide Ordered;
    MulMonotone(n + 1, |g.tensors| + |g.nodes|, most);
  }

  lemma MulMonotone(a: nat, b: nat, m: nat)
    requires a <= b
    ensures Space(a, m) <= Space(b, m)
  {
    assert (b - a) * m >= 0;
  }

  lemma OutOfPlaceSucceeds(g: Graph, cfg: Config, s: State, t: nat, buf: nat, most: nat)
    requires Limits(g, cfg, most) && Snug(g, cfg, s, most) && t < |s.hv| && buf < |cfg.bufts|
    requires !CanInplace(g.tensors[t].op)
    ensures AllocateNode(g, cfg, s, t, buf).Some? && Snug(g, cfg, AllocateNode(g, cfg, s, t, buf).value, most)
  {
    hide MemInv;
    hide PoolsRoomy;
    hide Ordered;
    hide AtMost;
    hide ParentsLargeEnough;
    hide AllocFresh;
    hide Owners;
    var n := |Owners(s.hv)|;
    if Storable(g, t) && !s.hv[t].owned {
      OwnersAreTensors(s.hv);
      LimitsLeaveRoom(g, cfg, most, n);
      PlacingSucceeds(g, cfg, s, t, buf, Space(n, most), most);
      var s' := AllocateNode(g, cfg, s, t, buf).value;
      AllocateOutOfPlace(g, cfg, s, t, buf);
      OneMoreOwner(s.hv, s'.hv, t);
    }
  }

  lemma {:induction false} LeafsSucceed(g: Graph, cfg: Config, leafBufs: seq<nat>, s: State, i: nat, most: nat)
    requires Limits(g, cfg, most) && Snug(g, cfg, s, most) && i <= |g.leafs|
    ensures AllocLeafs(g, cfg, leafBufs, s, i).Some? && Snug(g, cfg, AllocLeafs(g, cfg, leafBufs, s, i).value, most)
    decreases |g.leafs| - i
  {
    hide AllocateNode;
    hide MemInv;
    hide PoolsRoomy;
    hide AtMost;
    hide ParentsLargeEnough;
    if i < |g.leafs| {
      var t, buf := g.leafs[i], BufOf(cfg, leafBufs, i);
      OutOfPlaceSucceeds(g, cfg, s, t, buf, most);
      LeafsSucceed(g, cfg, leafBufs, AllocateNode(g, cfg, s, t, buf).value, i + 1, most);
    }
  }

  lemma CountersStaySnug(g: Graph, cfg: Config, s: State, hv: seq<HashNode>, most: nat)
    requires Snug(g, cfg, s, most) && |hv| == |s.hv|
    requires forall t :: 0 <= t < |hv| ==>
             hv[t].owned == s.hv[t].owned && hv[t].addr == s.hv[t].addr && hv[t].bufferId == s.hv[t].bufferId
    ensures Snug(g, cfg, s.(hv := hv), most)
  {
    hide MemInv;
    hide PoolsRoomy;
    hide Owners;
    hide Space;
    hide Ordered;
    CountersKeepInv(g, cfg, s, hv);
    SameOwners(s.hv, hv);
  }

  lemma {:induction false} SourcesSucceed(g: Graph, cfg: Config, buf: nat, s: State, k: nat, j: nat, most: nat)
    requires Limits(g, cfg, most) && Snug(g, cfg, s, most) && k < |g.nodes| && j <= |g.Src(k)| && buf < |cfg.bufts|
    ensures CountSources(g, cfg, buf, s, k, j).Some? && Snug(g, cfg, CountSources(g, cfg, buf, s, k, j).value, most)
    decreases |g.Src(k)| - j
  {
    hide AllocateNode;
    hide MemInv;
    hide PoolsRoomy;
    hide AtMost;
    hide ParentsLargeEnough;
    if j < |g.Src(k)| {
      var src := g.Src(k)[j];
      var s1 := s.(hv := AddChildren(s.hv, src, 1));
      CountersStaySnug(g, cfg, s, s1.hv, most);
      if g.tensors[src].input {
        OutOfPlaceSucceeds(g, cfg, s1, src, buf, most);
        SourcesSucceed(g, cfg, buf, AllocateNode(g, cfg, s1, src, buf).value, k, j + 1, most);
      } else {
        SourcesSucceed(g, cfg, buf, s1, k, j + 1, most);
      }
    }
  }

  lemma CountNodeSucceeds(g: Graph, cfg: Config, buf: nat, s: State, k: nat, most: nat)
    requires Limits(g, cfg, most) && Snug(g, cfg, s, most) && k < |g.nodes| && buf < |cfg.bufts|
    ensures CountNode(g, cfg, buf, s, k).Some? && Snug(g, cfg, CountNode(g, cfg, buf, s, k).value, most)
  {
    hide AllocateNode;
    hide CountSources;
    hide MemInv;
    hide PoolsRoomy;
    hide AtMost;
    hide ParentsLargeEnough;
    var t := g.nodes[k];
    var counts := g.IsView(t) && g.tensors[t].op != NONE;
    var s1 := if counts then s.(hv := AddViews(s.hv, g.tensors[t].viewSrc.value, 1)) else s;
    CountersStaySnug(g, cfg, s, s1.hv, most);
    if g.tensors[t].input { OutOfPlaceSucceeds(g, cfg, s1, t, buf, most); }
    SourcesSucceed(g, cfg, buf, if g.tensors[t].input then AllocateNode(g, cfg, s1, t, buf).value else s1, k, 0, most);
  }

  lemma SnugShape(g: Graph, cfg: Config, s: State, most: nat)
    requires Snug(g, cfg, s, most)
    ensures Shape(g, cfg, s)
  {
  }

  lemma {:induction false} CountingSucceeds(g: Graph, cfg: Config, nodeBufs: seq<nat>, s: State, k: nat, most: nat)
    requires Limits(g, cfg, most) && Snug(g, cfg, s, most) && k <= |g.nodes|
    ensures CountAll(g, cfg, nodeBufs, s, k).Some? && Snug(g, cfg, CountAll(g, cfg, nodeBufs, s, k).value, most)
    decreases |g.nodes| - k
  {
    hide CountNode;
    hide Snug;
    hide Limits;
    SnugShape(g, cfg, s, most);
    if k < |g.nodes| {
      CountNodeSucceeds(g, cfg, BufOf(cfg, nodeBufs, k), s, k, most);
      CountingSucceeds(g, cfg, nodeBufs, CountNode(g, cfg, BufOf(cfg, nodeBufs, k), s, k).value, k + 1, most);
    }
  }

  // ---------------------------------------------------------------- the allocation loop

  lemma FreeSucceeds(g: Graph, cfg: Config, s: State, t: nat, bound: nat)
    requires PlanInv(g, cfg, s) && t < |s.hv| && s.hv[t].owned && |Owners(s.hv)| < 255
    requires PoolsRoomy(s.pools, bound)
    ensures FreeNode(g, cfg, s, t).Some? && PoolsRoomy(FreeNode(g, cfg, s, t).value.pools, bound)
  {
    hide MemInv;
    hide FreeBytes;
    hide Roomy;
    if !g.tensors[t].output {
      var h := s.hv[t];
      var i, size := PoolOf(cfg, h.bufferId), Request(cfg, h.bufferId, t);
      OwnersOwn(cfg, s.hv);
      ReleaseSucceeds(s.pools, Own(cfg, s.hv), i, h.addr, size);
      SameRoom(s.pools[i], FreeBytes(s.pools[i], h.addr, size).value, bound);
      RoomierPools(s.pools, i, FreeBytes(s.pools[i], h.addr, size).value, bound, bound);
    }
  }

  /** Ownership only ends. */
  ghost predicate NoNewOwners(hv: seq<HashNode>, hv': seq<HashNode>) {
    |hv'| == |hv| && forall u :: 0 <= u < |hv| && hv'[u].owned ==> hv[u].owned
  }

  lemma FewerOwners(hv: seq<HashNode>, hv': seq<HashNode>)
    requires NoNewOwners(hv, hv')
    ensures |Owners(hv')| <= |Owners(hv)|
  {
    SubsetSize(Owners(hv'), Owners(hv));
  }

  /** The state is that before a source was counted down, except for counters. */
  ghost predicate OnlyCounters(s: State, s': State) {
    && s'.pools == s.pools && |s'.hv| == |s.hv|
    && forall t :: 0 <= t < |s.hv| ==>
         s'.hv[t].owned == s.hv[t].owned && s'.hv[t].addr == s.hv[t].addr && s'.hv[t].bufferId == s.hv[t].bufferId
  }

  lemma FreeAfterCount(g: Graph, cfg: Config, s: State, s': State, t: nat, bound: nat)
    requires PlanInv(g, cfg, s) && OnlyCounters(s, s') && t < |s.hv| && s'.hv[t].owned
    requires |Owners(s.hv)| < 255 && PoolsRoomy(s.pools, bound)
    ensures Shape(g, cfg, s') && FreeNode(g, cfg, s', t).Some?
    ensures PoolsRoomy(FreeNode(g, cfg, s', t).value.pools, bound)
            && NoNewOwners(s.hv, FreeNode(g, cfg, s', t).value.hv)
  {
    hide MemInv;
    hide PoolsRoomy;
    hide FreeBytes;
    hide Owners;
    CountersKeepInv(g, cfg, s, s'.hv);
    SameOwners(s.hv, s'.hv);
    FreeSucceeds(g, cfg, s', t, bound);
  }

  lemma CountedDown(s: State, p: nat, root: nat)
    requires p < |s.hv| && root < |s.hv|
    ensures var s1 := s.(hv := AddChildren(s.hv, p, -1));
      OnlyCounters(s, s1) && OnlyCounters(s, s1.(hv := AddViews(s1.hv, root, -1)))
  {
  }

  lemma UpdateSucceeds(g: Graph, cfg: Config, s: State, p: nat, bound: nat)
    requires PlanInv(g, cfg, s) && p < |s.hv| && |Owners(s.hv)| < 255 && PoolsRoomy(s.pools, bound)
    ensures UpdateParent(g, cfg, s, p).Some?
    ensures PoolsRoomy(UpdateParent(g, cfg, s, p).value.pools, bound)
    ensures NoNewOwners(s.hv, UpdateParent(g, cfg, s, p).value.hv)
  {
    hide MemInv;
    hide PoolsRoomy;
    hide FreeNode;
    hide Owners;
    var root := if g.IsView(p) then g.tensors[p].viewSrc.value else p;
    var s1 := s.(hv := AddChildren(s.hv, p, -1));
    var s2 := s1.(hv := AddViews(s1.hv, root, -1));
    CountedDown(s, p, root);
    hide AddChildren;
    hide AddViews;
    if g.IsView(p) && s2.hv[root].owned { FreeAfterCount(g, cfg, s, s2, root, bound); }
    if !g.IsView(p) && s1.hv[p].owned { FreeAfterCount(g, cfg, s, s1, p, bound); }
  }

  lemma {:induction false} UpdatesSucceed(g: Graph, cfg: Config, s: State, k: nat, j: nat, taken: Option<nat>,
                                          bound: nat)
    requires UpdateInv(g, cfg, s, k, j, taken) && |Owners(s.hv)| < 255 && PoolsRoomy(s.pools, bound)
    ensures UpdateParents(g, cfg, s, k, j).Some? && PoolsRoomy(UpdateParents(g, cfg, s, k, j).value.pools, bound)
    decreases |g.Src(k)| - j
  {
    hide MemInv;
    hide PoolsRoomy;
    hide UpdateParent;
    hide CountsAt;
    hide ViewCountsOk;
    hide OwnedWhileNeeded;
    hide Ordered;
    hide Owners;
    if j < |g.Src(k)| {
      var p := g.Src(k)[j];
      UpdateSucceeds(g, cfg, s, p, bound);
      var s' := UpdateParent(g, cfg, s, p).value;
      if g.IsView(p) { UpdateViewParent(g, cfg, s, k, j, taken); } else { UpdatePlainParent(g, cfg, s, k, j, taken); }
      FewerOwners(s.hv, s'.hv);
      UpdatesSucceed(g, cfg, s', k, j + 1, taken, bound);
    }
  }

  /** The tensors whose bytes are held before step k. */
  ghost function Held(g: Graph, k: nat): set<nat>
    requires g.IdsOk() && k <= |g.nodes|
  {
    set t: nat | t < |g.tensors| && Storable(g, t) && Known(g, t, k) && NeededBefore(g, t, k)
  }

  lemma OwnersAreHeld(g: Graph, cfg: Config, s: State, k: nat)
    requires LoopInv(g, cfg, s, k)
    ensures Owners(s.hv) == Held(g, k)
  {
    hide MemInv;
    hide Known;
    hide NeededBefore;
    hide CountsBefore;
    hide ViewCountsOk;
    hide Readable;
  }

  /** The node joins the owners. */
  lemma OwnersWhilePrepared(g: Graph, cfg: Config, s: State, m: State, x: nat, taken: Option<nat>)
    requires PlanInv(g, cfg, s) && PlanInv(g, cfg, m) && x < |s.hv|
    requires if Storable(g, x) && !s.hv[x].owned then AllocEffect(s, m, x, taken) else m == s
    ensures |Owners(m.hv)| <= |Owners(s.hv)| + 1
  {
    hide MemInv;
    SubsetSize(Owners(m.hv), Owners(s.hv) + {x});
  }

  lemma StepSucceeds(g: Graph, cfg: Config, buf: nat, s: State, k: nat, bound: nat, most: nat)
    requires LoopInv(g, cfg, s, k) && k < |g.nodes| && buf < |cfg.bufts| && |Held(g, k)| < 254
    requires AtMost(g, cfg, most) && ParentsLargeEnough(g, cfg) && PoolsRoomy(s.pools, bound)
             && bound + most <= HALF_MAX
    ensures Step(g, cfg, buf, s, k).Some? && PoolsRoomy(Step(g, cfg, buf, s, k).value.pools, bound + most)
  {
    hide Prepare;
    hide AllocateNode;
    hide UpdateParents;
    hide LoopInv;
    hide PlanInv;
    hide UpdateInv;
    hide PoolsRoomy;
    hide AtMost;
    hide ParentsLargeEnough;
    hide Taken;
    hide AllocEffect;
    hide HandedOver;
    hide SamePlaces;
    hide Owners;
    hide Held;
    var x := g.nodes[k];
    LoopInvPlan(g, cfg, s, k);
    OwnersAreHeld(g, cfg, s, k);
    PlacingSucceeds(g, cfg, s, x, buf, bound, most);
    PrepareAllocates(g, cfg, buf, s, k);
    var m, taken := Prepare(g, cfg, buf, s, k).value, Taken(g, cfg, s, x);
    PrepareMeaning(g, cfg, buf, s, k);
    PrepareEstablishesUpdateInv(g, cfg, buf, s, k);
    OwnersWhilePrepared(g, cfg, s, m, x, taken);
    UpdatesSucceed(g, cfg, m, k, 0, taken, bound + most);
  }

  /** Before every step, fewer tensors are held than the table of free blocks can separate. */
  ghost predicate FewHeld(g: Graph)
    requires g.IdsOk()
  {
    forall k :: 0 <= k < |g.nodes| ==> |Held(g, k)| < 254
  }

  lemma {:induction false} LoopSucceeds(g: Graph, cfg: Config, nodeBufs: seq<nat>, s: State, k: nat, most: nat)
    requires Limits(g, cfg, most) && FewHeld(g) && LoopInv(g, cfg, s, 0) && k <= |g.nodes|
    requires PoolsRoomy(s.pools, Space(|g.tensors|, most))
    ensures Before(g, cfg, nodeBufs, s, k).Some?
    ensures PoolsRoomy(Before(g, cfg, nodeBufs, s, k).value.pools, Space(|g.tensors| + k, most))
  {
    hide Step;
    hide LoopInv;
    hide PoolsRoomy;
    hide Held;
    hide Shape;
    LoopInvShape(g, cfg, s, 0);
    if k > 0 {
      LoopSucceeds(g, cfg, nodeBufs, s, k - 1, most);
      LoopKeepsInv(g, cfg, nodeBufs, s, k - 1);
      LimitsLeaveRoom(g, cfg, most, |g.tensors| + k - 1);
      StepSucceeds(g, cfg, BufOf(cfg, nodeBufs, k - 1), Before(g, cfg, nodeBufs, s, k - 1).value, k - 1,
                   Space(|g.tensors| + k - 1, most), most);
    }
  }

  lemma InitIsSnug(g: Graph, cfg: Config, maxSizes: seq<nat>, most: nat)
    requires CfgOk(cfg) && Ordered(g) && |maxSizes| == |cfg.bufts|
    ensures Snug(g, cfg, InitState(g, cfg, maxSizes), most)
  {
    hide MemInv;
    InitIsEmpty(g, cfg, maxSizes);
    assert Owners(InitState(g, cfg, maxSizes).hv) == {};
  }

  /** Planning succeeds when no node is larger than a source of its layout, fewer than 254 tensors are held before any
      step, and one range of the largest size for every tensor, and one more for every node, fit in the largest
      chunk. */
  lemma PlanSucceeds(g: Graph, cfg: Config, maxSizes: seq<nat>, nodeBufs: seq<nat>, leafBufs: seq<nat>, most: nat)
    requires Limits(g, cfg, most) && FewHeld(g) && |maxSizes| == |cfg.bufts|
    ensures Plan(g, cfg, maxSizes, nodeBufs, leafBufs).Some?
  {
    hide AllocLeafs;
    hide CountAll;
    hide Before;
    hide Snug;
    hide Limits;
    hide FewHeld;
    hide InitState;
    assert CfgOk(cfg) && Ordered(g) by { LimitsOrdered(g, cfg, most); }
    hide CfgOk;
    hide Ordered;
    var s0 := InitState(g, cfg, maxSizes);
    InitIsSnug(g, cfg, maxSizes, most);
    InitShape(g, cfg, maxSizes);
    LeafsSucceed(g, cfg, leafBufs, s0, 0, most);
    var s1 := AllocLeafs(g, cfg, leafBufs, s0, 0).value;
    CountingSucceeds(g, cfg, nodeBufs, s1, 0, most);
    var s2 := CountAll(g, cfg, nodeBufs, s1, 0).value;
    StartOfLoop(g, cfg, maxSizes, nodeBufs, leafBufs);
    SnugAtStart(g, cfg, s2, most);
    LoopSucceeds(g, cfg, nodeBufs, s2, |g.nodes|, most);
  }

  lemma LimitsOrdered(g: Graph, cfg: Config, most: nat)
    requires Limits(g, cfg, most)
    ensures CfgOk(cfg) && Ordered(g) && g.IdsOk()
  {
  }

  lemma InitShape(g: Graph, cfg: Config, maxSizes: seq<nat>)
    requires CfgOk(cfg) && g.IdsOk() && |maxSizes| == |cfg.bufts|
    ensures Shape(g, cfg, InitState(g, cfg, maxSizes))
  {
  }

  lemma SnugAtStart(g: Graph, cfg: Config, s: State, most: nat)
    requires Snug(g, cfg, s, most)
    ensures PoolsRoomy(s.pools, Space(|g.tensors|, most))
  {
    hide MemInv;
    hide PoolsRoomy;
    hide Owners;
    var n := |Owners(s.hv)|;
    OwnersAreTensors(s.hv);
    MulMonotone(n, |g.tensors|, most);
    MoreRoom(s.pools, Space(n, most), Space(|g.tensors|, most));
  }
}
