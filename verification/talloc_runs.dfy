/** Runs of the dynamic tensor allocator: any sequence of allocations and frees. */
module TallocRuns {
  import opened Wrappers
  import opened Alignment
  import opened FreeList
  import opened TensorAlloc
  import opened PlannerMemory

  /** A range handed out for a request of the given size. */
  datatype Extent = Extent(addr: Address, request: nat)

  datatype Request = Allocate(id: nat, size: nat) | Free(id: nat)

  /** `history` lists every range ever handed out, in order. */
  datatype System = System(t: Talloc, live: map<nat, Extent>, history: seq<Extent>)

  function Start(alignment: nat, maxBufferSize: nat): System {
    var limit := if maxBufferSize < HALF_MAX then maxBufferSize else HALF_MAX;
    System(Talloc(alignment, limit, []), map[], [])
  }

  /** Requests the callers make: sizes are positive and representable, only live ranges are freed. */
  predicate Legal(s: System, r: Request) {
    s.t.alignment > 0 &&
    match r
    case Allocate(id, size) => id !in s.live && size > 0 && AlignUp(size, s.t.alignment) <= HALF_MAX
    case Free(id) => id in s.live && s.live[id].addr.chunk < |s.t.chunks|
  }

  function Step(s: System, r: Request): Option<System>
    requires Legal(s, r)
  {
    match r
    case Allocate(id, size) =>
      var (t, addr) :- Alloc(s.t, size);
      Some(System(t, s.live[id := Extent(addr, size)], s.history + [Extent(addr, size)]))
    case Free(id) =>
      var t :- FreeBytes(s.t, s.live[id].addr, s.live[id].request);
      Some(System(t, s.live - {id}, s.history))
  }

  /** None when some step aborts or is not legal. */
  function Run(s: System, rs: seq<Request>): Option<System>
    decreases |rs|
  {
    if rs == [] then Some(s)
    else if !Legal(s, rs[0]) then None
    else
      var s' :- Step(s, rs[0]);
      Run(s', rs[1..])
  }

  function Size(t: Talloc, e: Extent): nat
    requires t.alignment > 0
  {
    AlignUp(e.request, t.alignment)
  }

  /** The bytes behind the live ranges, in the only allocator there is. */
  ghost function Ranges(t: Talloc, live: map<nat, Extent>): map<nat, Range>
    requires t.alignment > 0
  {
    map id | id in live :: Range(0, live[id].addr, Size(t, live[id]))
  }

  /** Highest end ever handed out in chunk c. */
  function HighWater(t: Talloc, h: seq<Extent>, c: nat): nat
    requires t.alignment > 0
  {
    if h == [] then 0
    else
      var e := h[|h| - 1];
      var w := HighWater(t, h[..|h| - 1], c);
      if e.addr.chunk == c then Max(w, e.addr.offset + Size(t, e)) else w
  }

  ghost predicate HistoryAgrees(t: Talloc, h: seq<Extent>)
    requires t.alignment > 0
  {
    && (forall c :: 0 <= c < |t.chunks| ==> t.chunks[c].maxSize == HighWater(t, h, c))
    && (forall k :: 0 <= k < |h| ==> h[k].addr.chunk < |t.chunks|)
  }

  /** Free blocks are sorted, nonempty and separated; free blocks and live ranges tile every chunk; live ranges are
      aligned, inside their chunk and disjoint; max_size is the high-water mark of the history. */
  ghost predicate SystemInv(s: System) {
    && s.t.alignment > 0
    && MemInv([s.t], Ranges(s.t, s.live))
    && (forall id :: id in s.live ==> s.live[id].request > 0)
    && HistoryAgrees(s.t, s.history)
  }

  lemma {:induction false} HighWaterOfNewChunk(t: Talloc, h: seq<Extent>, c: nat)
    requires t.alignment > 0
    requires forall k :: 0 <= k < |h| ==> h[k].addr.chunk < c
    ensures HighWater(t, h, c) == 0
  {
    if h != [] { HighWaterOfNewChunk(t, h[..|h| - 1], c); }
  }

  lemma {:induction false} HighWaterIgnoresChunks(t: Talloc, u: Talloc, h: seq<Extent>, c: nat)
    requires t.alignment == u.alignment > 0
    ensures HighWater(t, h, c) == HighWater(u, h, c)
  {
    if h != [] { HighWaterIgnoresChunks(t, u, h[..|h| - 1], c); }
  }

  /** An allocation raises max_size of the chunk it lands in to the end of the range, and of no other chunk. */
  lemma AllocMaxSize(t: Talloc, request: nat)
    requires Inv(t) && 0 < request && AlignUp(request, t.alignment) <= HALF_MAX && Alloc(t, request).Some?
    ensures var (u, addr) := Alloc(t, request).value;
            forall c :: 0 <= c < |u.chunks| ==>
              u.chunks[c].maxSize ==
                Max(if c < |t.chunks| then t.chunks[c].maxSize else 0,
                    if c == addr.chunk then addr.offset + AlignUp(request, t.alignment) else 0)
  {
  }

  lemma MaxSizeAfterAlloc(t: Talloc, u: Talloc, h: seq<Extent>, e: Extent, c: nat)
    requires Inv(t) && 0 < e.request && AlignUp(e.request, t.alignment) <= HALF_MAX
    requires Alloc(t, e.request) == Some((u, e.addr)) && c < |u.chunks|
    requires HistoryAgrees(t, h)
    ensures u.alignment == t.alignment && u.chunks[c].maxSize == HighWater(u, h + [e], c)
  {
    AllocMaxSize(t, e.request);
    var h' := h + [e];
    assert h'[..|h'| - 1] == h && h'[|h'| - 1] == e;
    HighWaterIgnoresChunks(t, u, h, c);
    if c >= |t.chunks| { HighWaterOfNewChunk(u, h, c); }
  }

  lemma HistoryAfterAlloc(t: Talloc, u: Talloc, h: seq<Extent>, e: Extent)
    requires Inv(t) && 0 < e.request && AlignUp(e.request, t.alignment) <= HALF_MAX
    requires Alloc(t, e.request) == Some((u, e.addr)) && HistoryAgrees(t, h)
    ensures u.alignment == t.alignment && HistoryAgrees(u, h + [e])
  {
    hide Inv;
    hide HighWater;
    hide FindPlace;
    forall c | 0 <= c < |u.chunks| ensures u.chunks[c].maxSize == HighWater(u, h + [e], c) {
      MaxSizeAfterAlloc(t, u, h, e, c);
    }
  }

  lemma OnlyInv(t: Talloc, own: map<nat, Range>)
    requires MemInv([t], own)
    ensures Inv(t)
  {
    assert Inv([t][0]);
  }

  lemma AllocateKeepsInv(s: System, id: nat, size: nat)
    requires SystemInv(s) && Legal(s, Allocate(id, size)) && Step(s, Allocate(id, size)).Some?
    ensures SystemInv(Step(s, Allocate(id, size)).value)
  {
    hide MemInv;
    hide Inv;
    hide HistoryAgrees;
    hide FindPlace;
    var (u, addr) := Alloc(s.t, size).value;
    var e := Extent(addr, size);
    var own := Ranges(s.t, s.live);
    OnlyInv(s.t, own);
    MemAlloc([s.t], own, id, 0, size);
    assert [s.t][0 := u] == [u];
    assert Ranges(u, s.live[id := e]) == own[id := Range(0, addr, AlignUp(size, s.t.alignment))];
    HistoryAfterAlloc(s.t, u, s.history, e);
  }

  lemma FreeKeepsInv(s: System, id: nat)
    requires SystemInv(s) && Legal(s, Free(id)) && Step(s, Free(id)).Some?
    ensures SystemInv(Step(s, Free(id)).value)
  {
    hide MemInv;
    var e := s.live[id];
    var t := FreeBytes(s.t, e.addr, e.request).value;
    var own := Ranges(s.t, s.live);
    MemFree([s.t], own, id, e.request);
    assert [s.t][0 := t] == [t];
    assert Ranges(t, s.live - {id}) == Without(own, id);
    forall c | 0 <= c < |t.chunks| ensures t.chunks[c].maxSize == HighWater(t, s.history, c) {
      HighWaterIgnoresChunks(s.t, t, s.history, c);
    }
  }

  /** Main result on runs: every legal run from an empty allocator keeps the whole invariant. */
  lemma {:induction false} RunKeepsInv(s: System, rs: seq<Request>)
    requires SystemInv(s) && Run(s, rs).Some?
    ensures SystemInv(Run(s, rs).value)
    decreases |rs|
  {
    if rs != [] {
      match rs[0]
      case Allocate(id, size) => AllocateKeepsInv(s, id, size); RunKeepsInv(Step(s, rs[0]).value, rs[1..]);
      case Free(id) => FreeKeepsInv(s, id); RunKeepsInv(Step(s, rs[0]).value, rs[1..]);
    }
  }

  lemma EveryRun(alignment: nat, maxBufferSize: nat, rs: seq<Request>)
    requires alignment > 0 && Run(Start(alignment, maxBufferSize), rs).Some?
    ensures SystemInv(Run(Start(alignment, maxBufferSize), rs).value)
  {
    RunKeepsInv(Start(alignment, maxBufferSize), rs);
  }

  /** When everything has been freed again, every chunk is back to its single initial block. */
  lemma AllFreedMeansInitial(s: System, c: nat)
    requires SystemInv(s) && s.live == map[] && c < |s.t.chunks| && s.t.chunks[c].limit > 0
    ensures s.t.chunks[c].blocks == [Block(0, s.t.chunks[c].limit)]
  {
    var ch := s.t.chunks[c];
    var own := Ranges(s.t, s.live);
    OnlyInv(s.t, own);
    assert ChunkInv(ch, s.t.alignment);
    var one := [Block(0, ch.limit)];
    forall x ensures IsFree(ch.blocks, x) <==> IsFree(one, x) {
      if 0 <= x < ch.limit {
        assert one[0].Covers(x);
        assert !SomeoneCovers(own, 0, c, x);
        assert !Used([s.t][0], c, x);
      }
    }
    Canonical(ch.blocks, one, ch.limit);
  }
}
