/** How large the chunks of the allocator become: a chunk is opened with the maximum chunk size, or with the request
    that opens it when that is larger. */
module TallocLimits {
  import opened Wrappers
  import opened Alignment
  import opened FreeList
  import opened TensorAlloc
  import opened TallocRuns
  import PlannerMemory

  /** One more chunk, its size, and what the request that opened it gets of it. */
  lemma OpenedChunk(t: Talloc, request: nat)
    requires t.alignment > 0 && AlignUp(request, t.alignment) <= HALF_MAX && Alloc(t, request).Some?
    ensures var (u, addr) := Alloc(t, request).value;
            var n, size := |t.chunks|, AlignUp(request, t.alignment);
            |u.chunks| > n ==>
              && n < 16 && |u.chunks| == n + 1 && addr == Address(n, 0)
              && (n < 15 ==> u.chunks[n].limit == if size > t.maxChunkSize then size else t.maxChunkSize)
              && (n == 15 ==> u.chunks[n].limit == 0x7FFF_FFFF_FFFF_FFFF)
  {
  }

  /** The other chunks keep their size. */
  lemma LimitsStay(t: Talloc, request: nat, c: nat)
    requires t.alignment > 0 && AlignUp(request, t.alignment) <= HALF_MAX && Alloc(t, request).Some? && c < |t.chunks|
    ensures var u := Alloc(t, request).value.0;
            c < |u.chunks| && u.chunks[c].limit == t.chunks[c].limit && u.maxChunkSize == t.maxChunkSize
  {
  }

  /** Range o of the history was the first of its chunk. */
  ghost predicate Opens(h: seq<Extent>, o: int) {
    0 <= o < |h| && forall j :: 0 <= j < o ==> h[j].addr.chunk != h[o].addr.chunk
  }

  ghost predicate OpenedBy(t: Talloc, h: seq<Extent>, c: int, o: int)
    requires t.alignment > 0 && 0 <= c < |t.chunks|
  {
    && Opens(h, o) && h[o].addr == Address(c, 0)
    && (c < 15 ==> t.chunks[c].limit == if Size(t, h[o]) > t.maxChunkSize then Size(t, h[o]) else t.maxChunkSize)
  }

  ghost predicate WithinLimit(t: Talloc, e: Extent)
    requires t.alignment > 0
  {
    e.addr.chunk < |t.chunks| && e.addr.offset + Size(t, e) <= t.chunks[e.addr.chunk].limit
  }

  /** Chunk c was opened by range os[c] of the history, and every range of the history lies within its chunk. */
  ghost predicate Limits(t: Talloc, h: seq<Extent>, os: seq<nat>) {
    && t.alignment > 0 && |os| == |t.chunks|
    && (forall c :: 0 <= c < |os| ==> OpenedBy(t, h, c, os[c]))
    && (forall k :: 0 <= k < |h| ==> WithinLimit(t, h[k]))
  }

  /** Chunks of u are those of t, perhaps with one more. */
  ghost predicate SameLimits(t: Talloc, u: Talloc) {
    && u.alignment == t.alignment > 0 && u.maxChunkSize == t.maxChunkSize && |t.chunks| <= |u.chunks|
    && forall c :: 0 <= c < |t.chunks| ==> u.chunks[c].limit == t.chunks[c].limit
  }

  lemma OpenedStays(t: Talloc, u: Talloc, h: seq<Extent>, e: Extent, c: nat, o: nat)
    requires SameLimits(t, u) && c < |t.chunks| && OpenedBy(t, h, c, o)
    ensures OpenedBy(u, h + [e], c, o)
  {
    forall j | 0 <= j <= o ensures (h + [e])[j] == h[j] {}
  }

  lemma RangesOfHistory(t: Talloc, h: seq<Extent>, os: seq<nat>, k: nat)
    requires Limits(t, h, os) && k < |h|
    ensures WithinLimit(t, h[k])
  {
  }

  /** A request served by an existing chunk. */
  lemma SameChunks(t: Talloc, u: Talloc, h: seq<Extent>, os: seq<nat>, e: Extent)
    requires Limits(t, h, os) && SameLimits(t, u) && |u.chunks| == |t.chunks| && WithinLimit(u, e)
    ensures Limits(u, h + [e], os)
  {
    hide OpenedBy;
    forall c | 0 <= c < |os| ensures OpenedBy(u, h + [e], c, os[c]) { OpenedStays(t, u, h, e, c, os[c]); }
  }

  /** A request that opens a chunk. */
  lemma OneMoreChunk(t: Talloc, u: Talloc, h: seq<Extent>, os: seq<nat>, e: Extent)
    requires Limits(t, h, os) && SameLimits(t, u) && |u.chunks| == |t.chunks| + 1 && WithinLimit(u, e)
    requires e.addr == Address(|t.chunks|, 0)
    requires |t.chunks| < 15 ==>
               u.chunks[|t.chunks|].limit == if Size(t, e) > t.maxChunkSize then Size(t, e) else t.maxChunkSize
    ensures Limits(u, h + [e], os + [|h|])
  {
    var h', os', n := h + [e], os + [|h|], |t.chunks|;
    forall j | 0 <= j < |h| ensures h'[j].addr.chunk != n { RangesOfHistory(t, h, os, j); }
    assert h'[|h|] == e;
    assert OpenedBy(u, h', n, |h|);
    hide OpenedBy;
    forall c | 0 <= c < |os'| ensures OpenedBy(u, h', c, os'[c]) {
      if c < n { OpenedStays(t, u, h, e, c, os[c]); }
    }
  }

  lemma AllocateKeepsLimits(s: System, os: seq<nat>, id: nat, size: nat) returns (os': seq<nat>)
    requires SystemInv(s) && Limits(s.t, s.history, os)
    requires Legal(s, Allocate(id, size)) && Step(s, Allocate(id, size)).Some?
    ensures Limits(Step(s, Allocate(id, size)).value.t, Step(s, Allocate(id, size)).value.history, os')
    ensures SameLimits(s.t, Step(s, Allocate(id, size)).value.t)
  {
    hide PlannerMemory.MemInv;
    hide Limits;
    hide HistoryAgrees;
    var (u, addr) := Alloc(s.t, size).value;
    var e := Extent(addr, size);
    OnlyInv(s.t, Ranges(s.t, s.live));
    AllocWithin(s.t, size);
    OpenedChunk(s.t, size);
    hide Alloc;
    if |u.chunks| == |s.t.chunks| {
      SameChunks(s.t, u, s.history, os, e);
      os' := os;
    } else {
      OneMoreChunk(s.t, u, s.history, os, e);
      os' := os + [|s.history|];
    }
  }

  lemma AllocWithin(t: Talloc, request: nat)
    requires Inv(t) && 0 < request && AlignUp(request, t.alignment) <= HALF_MAX && Alloc(t, request).Some?
    ensures var (u, addr) := Alloc(t, request).value; SameLimits(t, u) && WithinLimit(u, Extent(addr, request))
  {
    AllocMeaning(t, request);
    SameMaximum(t, request);
    hide Alloc;
    hide Used;
    hide Inv;
  }

  lemma SameMaximum(t: Talloc, request: nat)
    requires t.alignment > 0 && AlignUp(request, t.alignment) <= HALF_MAX && Alloc(t, request).Some?
    ensures Alloc(t, request).value.0.maxChunkSize == t.maxChunkSize
  {
  }

  lemma FreeKeepsLimits(s: System, os: seq<nat>, id: nat)
    requires SystemInv(s) && Limits(s.t, s.history, os) && Legal(s, Free(id)) && Step(s, Free(id)).Some?
    ensures Limits(Step(s, Free(id)).value.t, s.history, os) && Step(s, Free(id)).value.history == s.history
    ensures SameLimits(s.t, Step(s, Free(id)).value.t)
  {
    hide PlannerMemory.MemInv;
    hide HistoryAgrees;
    hide Release;
    hide Opens;
    var t := Step(s, Free(id)).value.t;
    forall c | 0 <= c < |os| ensures OpenedBy(t, s.history, c, os[c]) { assert OpenedBy(s.t, s.history, c, os[c]); }
  }

  /** Limits hold throughout a run; `os` tells which range opened which chunk. */
  lemma {:induction false} RunKeepsLimits(s: System, os: seq<nat>, rs: seq<Request>) returns (os': seq<nat>)
    requires SystemInv(s) && Limits(s.t, s.history, os) && Run(s, rs).Some?
    ensures Limits(Run(s, rs).value.t, Run(s, rs).value.history, os') && SystemInv(Run(s, rs).value)
    ensures Run(s, rs).value.t.maxChunkSize == s.t.maxChunkSize && Run(s, rs).value.t.alignment == s.t.alignment
    decreases |rs|
  {
    hide SystemInv;
    hide Limits;
    if rs == [] {
      os' := os;
    } else {
      match rs[0]
      case Allocate(id, size) =>
        AllocateKeepsInv(s, id, size);
        var next := AllocateKeepsLimits(s, os, id, size);
        os' := RunKeepsLimits(Step(s, rs[0]).value, next, rs[1..]);
      case Free(id) =>
        FreeKeepsInv(s, id);
        FreeKeepsLimits(s, os, id);
        os' := RunKeepsLimits(Step(s, rs[0]).value, os, rs[1..]);
    }
  }

  lemma StartIsFine(alignment: nat, maxBufferSize: nat)
    requires alignment > 0
    ensures SystemInv(Start(alignment, maxBufferSize))
    ensures Limits(Start(alignment, maxBufferSize).t, Start(alignment, maxBufferSize).history, [])
  {
    EveryRun(alignment, maxBufferSize, []);
  }

  /** After any run, in all chunks but the last possible one, a range that ever ended above the maximum chunk size did
      so only because the request that opened its chunk was larger than the maximum, and it ended within that size. */
  lemma EveryRangeWithinChunkSize(alignment: nat, maxBufferSize: nat, rs: seq<Request>, k: nat) returns (o: nat)
    requires alignment > 0 && maxBufferSize <= HALF_MAX && Run(Start(alignment, maxBufferSize), rs).Some?
    requires k < |Run(Start(alignment, maxBufferSize), rs).value.history|
    ensures var h := Run(Start(alignment, maxBufferSize), rs).value.history;
            && h[k].addr.chunk < 16 && Opens(h, o) && h[o].addr == Address(h[k].addr.chunk, 0)
            && (h[k].addr.chunk < 15 && h[k].addr.offset + AlignUp(h[k].request, alignment) > maxBufferSize ==>
                  h[k].addr.offset + AlignUp(h[k].request, alignment) <= AlignUp(h[o].request, alignment))
  {
    hide SystemInv;
    hide Run;
    hide Opens;
    var s0 := Start(alignment, maxBufferSize);
    StartIsFine(alignment, maxBufferSize);
    var os := RunKeepsLimits(s0, [], rs);
    var s := Run(s0, rs).value;
    SixteenChunks(s);
    RangesOfHistory(s.t, s.history, os, k);
    o := os[s.history[k].addr.chunk];
    assert OpenedBy(s.t, s.history, s.history[k].addr.chunk, o);
  }

  lemma SixteenChunks(s: System)
    requires SystemInv(s)
    ensures |s.t.chunks| <= 16
  {
    OnlyInv(s.t, Ranges(s.t, s.live));
  }

  /** A later range may lie above the maximum in a chunk that an even larger one opened. */
  lemma LaterRangeAboveMaximum()
    ensures var r := Run(Start(1, 1000), [Allocate(0, 2000), Free(0), Allocate(1, 1500)]);
            r.Some? && r.value.history == [Extent(Address(0, 0), 2000), Extent(Address(0, 0), 1500)]
  {
    var s0 := Start(1, 1000);
    var filled := Talloc(1, 1000, [Chunk([], 2000, 2000)]);
    var freed := Talloc(1, 1000, [Chunk([Block(0, 2000)], 2000, 2000)]);
    var s1 := System(filled, map[0 := Extent(Address(0, 0), 2000)], [Extent(Address(0, 0), 2000)]);
    OpensLarge();
    assert s0.live[0 := Extent(Address(0, 0), 2000)] == s1.live;
    assert AlignUp(2000, 1) == 2000 && s0.t == Talloc(1, 1000, []) && Legal(s0, Allocate(0, 2000));
    assert s0.history + [Extent(Address(0, 0), 2000)] == s1.history;
    assert Step(s0, Allocate(0, 2000)) == Some(s1);
    FreesLarge(filled);
    var s2 := System(freed, map[], s1.history);
    assert s1.live[0] == Extent(Address(0, 0), 2000) && Legal(s1, Free(0));
    assert s1.live - {0} == map[];
    assert Step(s1, Free(0)) == Some(s2);
    AllocAgain(freed);
    var s3 := Step(s2, Allocate(1, 1500)).value;
    assert Run(s3, []) == Some(s3);
    assert [Allocate(1, 1500)][1..] == [];
    assert Run(s2, [Allocate(1, 1500)]) == Some(s3);
    assert [Free(0), Allocate(1, 1500)][1..] == [Allocate(1, 1500)];
    assert Run(s1, [Free(0), Allocate(1, 1500)]) == Some(s3);
    assert [Allocate(0, 2000), Free(0), Allocate(1, 1500)][1..] == [Free(0), Allocate(1, 1500)];
  }

  lemma OpensLarge()
    ensures Alloc(Talloc(1, 1000, []), 2000) == Some((Talloc(1, 1000, [Chunk([], 2000, 2000)]), Address(0, 0)))
  {
    var t := Talloc(1, 1000, []);
    assert AlignUp(2000, 1) == 2000;
    assert WithNewChunk(t, 2000) == Talloc(1, 1000, [Chunk([Block(0, 2000)], 0, 2000)]);
    assert FindPlace(t, 2000) == Some(Place(WithNewChunk(t, 2000), 0, 0));
    assert Carve([Block(0, 2000)], 0, 2000) == [];
    assert TakeFrom(WithNewChunk(t, 2000), 0, 0, 2000) == Talloc(1, 1000, [Chunk([], 2000, 2000)]);
  }

  lemma FreesLarge(t: Talloc)
    requires t == Talloc(1, 1000, [Chunk([], 2000, 2000)])
    ensures FreeBytes(t, Address(0, 0), 2000) == Some(Talloc(1, 1000, [Chunk([Block(0, 2000)], 2000, 2000)]))
  {
    var ch, bs := t.chunks[0], [Block(0, 2000)];
    assert AlignUp(2000, 1) == 2000;
    assert InsertBlock([], 0, 2000) == bs;
    assert Release(ch.blocks, 0, 2000) == Some(bs);
    assert t.chunks[0 := ch.(blocks := bs)] == [Chunk(bs, 2000, 2000)];
  }

  lemma AllocAgain(t: Talloc)
    requires t == Talloc(1, 1000, [Chunk([Block(0, 2000)], 2000, 2000)])
    ensures Alloc(t, 1500).Some? && Alloc(t, 1500).value.1 == Address(0, 0)
  {
    assert AlignUp(1500, 1) == 1500;
    assert BestIn(t.chunks[0].blocks, 1500, 0) == -1;
    assert FitSearch(t.chunks, 1500, 0).chunk == -1;
    assert TailSearch(t.chunks, 1500, 0) == TailChoice(-1, INT64_MIN);
    assert ReuseFactor(t.chunks[0], 1500) == 500;
    assert TailSearch(t.chunks, 1500, 1) == TailChoice(0, 500);
    assert FitSearch(t.chunks, 1500, 1).chunk == -1;
    assert FindPlace(t, 1500) == Some(Place(t, 0, 0));
    assert t.chunks[0].blocks[0] == Block(0, 2000);
    assert Alloc(t, 1500) == Some((TakeFrom(t, 0, 0, 1500), Address(0, 0)));
  }
}
