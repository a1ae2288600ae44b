/** Rounding sizes up to an alignment (`aligned_offset` with a NULL buffer). */
module Alignment {
  import opened Arithmetic

  function AlignUp(size: nat, alignment: nat): (r: nat)
    requires alignment > 0
    ensures r % alignment == 0 && size <= r < size + alignment
  {
    var pad := (alignment - size % alignment) % alignment;
    AlignUpIsMultiple(size, alignment);
    size + pad
  }

  lemma AlignUpIsMultiple(size: nat, alignment: nat)
    requires alignment > 0
    ensures (size + (alignment - size % alignment) % alignment) % alignment == 0
  {
    var q, r := size / alignment, size % alignment;
    assert size == alignment * q + r;
    if r == 0 {
      MultipleHasNoRemainder(1, alignment);
    } else {
      QuotientUnique(alignment - r, alignment, 0);
      assert (q + 1) * alignment == alignment * q + alignment;
      MultipleHasNoRemainder(q + 1, alignment);
    }
  }

  lemma MultipleHasNoRemainder(k: nat, alignment: nat)
    requires alignment > 0
    ensures (alignment * k) % alignment == 0 && (k * alignment) % alignment == 0 && k * alignment == alignment * k
  {
    QuotientUnique(k * alignment, alignment, k);
    assert k * alignment == alignment * k;
  }

  lemma SumOfMultiples(a: nat, b: nat, alignment: nat)
    requires alignment > 0 && a % alignment == 0 && b % alignment == 0
    ensures (a + b) % alignment == 0
  {
    assert a + b == alignment * (a / alignment + b / alignment);
    MultipleHasNoRemainder(a / alignment + b / alignment, alignment);
  }

  lemma DifferenceOfMultiples(a: nat, b: nat, alignment: nat)
    requires alignment > 0 && a % alignment == 0 && b % alignment == 0 && a >= b
    ensures (a - b) % alignment == 0
  {
    var p, q := a / alignment, b / alignment;
    assert a == alignment * p && b == alignment * q;
    if p < q { MulMonotone(p + 1, q, alignment); }
    assert a - b == alignment * (p - q);
    MultipleHasNoRemainder(p - q, alignment);
  }

  lemma AlignUpFixed(x: nat, alignment: nat)
    requires alignment > 0 && x % alignment == 0
    ensures AlignUp(x, alignment) == x
  {
    MultipleHasNoRemainder(1, alignment);
  }

  /** Multiples less than one step apart are in order. */
  lemma MultiplesInOrder(u: nat, v: nat, alignment: nat)
    requires alignment > 0 && u % alignment == 0 && v % alignment == 0 && u < v + alignment
    ensures u <= v
  {
    var p, q := u / alignment, v / alignment;
    QuotientFacts(u, alignment);
    QuotientFacts(v, alignment);
    assert u == p * alignment && v == q * alignment;
    if p <= q {
      MulMonotone(p, q, alignment);
    } else {
      MulMonotone(q + 1, p, alignment);
    }
  }

  lemma AlignUpMonotone(a: nat, b: nat, alignment: nat)
    requires alignment > 0 && a <= b
    ensures AlignUp(a, alignment) <= AlignUp(b, alignment)
  {
    hide AlignUp;
    MultiplesInOrder(AlignUp(a, alignment), AlignUp(b, alignment), alignment);
  }
}

/** The multi-chunk dynamic tensor allocator as a value: search order, carving, freeing. */
module TensorAlloc {
  import opened Wrappers
  import opened Alignment
  import opened FreeList

  const MAX_CHUNKS := 16
  const HALF_MAX: nat := 0x7FFF_FFFF_FFFF_FFFF // SIZE_MAX/2
  const INT64_MIN: int := -0x8000_0000_0000_0000

  /** `limit` is the size the chunk's first free block was created with. */
  datatype Chunk = Chunk(blocks: seq<Block>, maxSize: nat, limit: nat)

  datatype Talloc = Talloc(alignment: nat, maxChunkSize: nat, chunks: seq<Chunk>)

  datatype Address = Address(chunk: nat, offset: nat)

  // ---------------------------------------------------------------- search

  /** Best fit among the first n blocks of one chunk, -1 if there is none. */
  function BestIn(bs: seq<Block>, size: nat, n: nat): (b: int)
    requires n <= |bs|
    ensures -1 <= b < n
    ensures b >= 0 ==> bs[b].size >= size
  {
    if n == 0 then -1
    else
      var b := BestIn(bs, size, n - 1);
      if bs[n - 1].size >= size && (b == -1 || bs[n - 1].size <= bs[b].size) then n - 1 else b
  }

  /** It is a smallest block that fits, the last such one on ties, and it is found whenever one fits. */
  lemma {:induction false} BestInIsBestFit(bs: seq<Block>, size: nat, n: nat)
    requires n <= |bs|
    ensures var b := BestIn(bs, size, n);
            && (b == -1 <==> forall k :: 0 <= k < n ==> bs[k].size < size)
            && (b >= 0 ==> forall k :: 0 <= k < n && bs[k].size >= size ==>
                             bs[b].size <= bs[k].size && (k > b ==> bs[b].size < bs[k].size))
  {
    if n > 0 { BestInIsBestFit(bs, size, n - 1); }
  }

  /** Blocks of a chunk the first search looks at: all but the last one. */
  function Inner(c: Chunk): nat {
    if |c.blocks| == 0 then 0 else |c.blocks| - 1
  }

  predicate InnerFits(c: Chunk, size: nat) {
    exists k :: 0 <= k < Inner(c) && c.blocks[k].size >= size
  }

  datatype FitChoice = FitChoice(chunk: int, block: int)

  /** First search. The best size is reset for every chunk, so a later chunk replaces an earlier choice; -1 for none. */
  function FitSearch(cs: seq<Chunk>, size: nat, m: nat): (r: FitChoice)
    requires m <= |cs|
    ensures r == FitChoice(-1, -1) ||
            (0 <= r.chunk < m && 0 <= r.block < |cs[r.chunk].blocks| && cs[r.chunk].blocks[r.block].size >= size)
  {
    if m == 0 then FitChoice(-1, -1)
    else
      var b := BestIn(cs[m - 1].blocks, size, Inner(cs[m - 1]));
      if b >= 0 then FitChoice(m - 1, b) else FitSearch(cs, size, m - 1)
  }

  /** The choice is the best fit of the last chunk that has an inner block large enough. */
  lemma {:induction false} FitSearchPicksLastChunk(cs: seq<Chunk>, size: nat, m: nat)
    requires m <= |cs|
    ensures var r := FitSearch(cs, size, m);
            && (r.chunk == -1 <==> forall c :: 0 <= c < m ==> !InnerFits(cs[c], size))
            && (r.chunk >= 0 ==> r.block == BestIn(cs[r.chunk].blocks, size, Inner(cs[r.chunk])))
            && (r.chunk >= 0 ==> forall c :: r.chunk < c < m ==> !InnerFits(cs[c], size))
  {
    if m > 0 {
      BestInIsBestFit(cs[m - 1].blocks, size, Inner(cs[m - 1]));
      FitSearchPicksLastChunk(cs, size, m - 1);
    }
  }

  /** Bytes left over below the chunk's high-water mark if the tail block served the request. */
  function ReuseFactor(c: Chunk, size: nat): int
    requires |c.blocks| > 0
  {
    c.maxSize - c.blocks[|c.blocks| - 1].offset - size
  }

  predicate TailFits(c: Chunk, size: nat) {
    |c.blocks| > 0 && c.blocks[|c.blocks| - 1].size >= size
  }

  datatype TailChoice = TailChoice(chunk: int, reuse: int)

  /** `a` is preferred to `b`: a fit inside the used part beats growth; among fits less waste, among growths less
      growth. */
  predicate Preferred(a: int, b: int) {
    (b < 0 && a > b) || (0 <= a < b)
  }

  /** Second search: the tail block whose use grows its chunk least. */
  function TailSearch(cs: seq<Chunk>, size: nat, m: nat): TailChoice
    requires m <= |cs|
  {
    if m == 0 then TailChoice(-1, INT64_MIN)
    else
      var best := TailSearch(cs, size, m - 1);
      var c := cs[m - 1];
      if TailFits(c, size) && Preferred(ReuseFactor(c, size), best.reuse) then
        TailChoice(m - 1, ReuseFactor(c, size))
      else best
  }

  lemma {:induction false} TailSearchFits(cs: seq<Chunk>, size: nat, m: nat)
    requires m <= |cs|
    ensures var t := TailSearch(cs, size, m);
            -1 <= t.chunk < m && (t.chunk >= 0 ==>
                TailFits(cs[t.chunk], size) && t.reuse == ReuseFactor(cs[t.chunk], size))
            && (t.chunk == -1 ==> t.reuse == INT64_MIN)
  {
    if m > 0 { TailSearchFits(cs, size, m - 1); }
  }

  // ---------------------------------------------------------------- state changes

  function NewLimit(t: Talloc, minSize: nat): nat {
    if |t.chunks| == MAX_CHUNKS - 1 then HALF_MAX
    else if minSize > t.maxChunkSize then minSize else t.maxChunkSize
  }

  function WithNewChunk(t: Talloc, minSize: nat): Talloc {
    var limit := NewLimit(t, minSize);
    t.(chunks := t.chunks + [Chunk([Block(0, limit)], 0, limit)])
  }

  /** One chunk more: as large as the larger of the request and the maximum, or for the last chunk as can be. */
  ghost predicate OneChunkMore(t: Talloc, minSize: nat, u: Talloc) {
    var n := |t.chunks|;
    && n < 16 && |u.chunks| == n + 1 && u.chunks[..n] == t.chunks
    && u.chunks[n].limit
         == if n == 15 then 0x7FFF_FFFF_FFFF_FFFF else if minSize > t.maxChunkSize then minSize else t.maxChunkSize
  }

  lemma NewChunkIs(t: Talloc, minSize: nat)
    requires |t.chunks| < MAX_CHUNKS
    ensures OneChunkMore(t, minSize, WithNewChunk(t, minSize))
  {
  }

  function Max(a: nat, b: nat): nat { if a > b then a else b }

  function TakeFrom(t: Talloc, c: nat, i: nat, size: nat): Talloc
    requires c < |t.chunks| && i < |t.chunks[c].blocks| && size <= t.chunks[c].blocks[i].size
  {
    var ch := t.chunks[c];
    t.(chunks := t.chunks[c := Chunk(Carve(ch.blocks, i, size), Max(ch.maxSize, ch.blocks[i].offset + size), ch.limit)])
  }

  datatype Place = Place(t: Talloc, chunk: nat, block: nat)

  /** Where a request of (aligned) size goes; None when all chunks exist and nothing fits. */
  function FindPlace(t: Talloc, size: nat): (r: Option<Place>)
    requires size <= HALF_MAX
    ensures r.Some? ==> var p := r.value;
            p.chunk < |p.t.chunks| && p.block < |p.t.chunks[p.chunk].blocks| &&
            p.t.chunks[p.chunk].blocks[p.block].size >= size
  {
    var fit := FitSearch(t.chunks, size, |t.chunks|);
    var tail := TailSearch(t.chunks, size, |t.chunks|);
    TailSearchFits(t.chunks, size, |t.chunks|);
    if fit.chunk >= 0 then Some(Place(t, fit.chunk, fit.block))
    else if tail.chunk >= 0 then Some(Place(t, tail.chunk, |t.chunks[tail.chunk].blocks| - 1))
    else if |t.chunks| >= MAX_CHUNKS then None
    else Some(Place(WithNewChunk(t, size), |t.chunks|, 0))
  }

  /** ggml_dyn_tallocr_alloc; None is the abort. */
  function Alloc(t: Talloc, request: nat): (r: Option<(Talloc, Address)>)
    requires t.alignment > 0 && AlignUp(request, t.alignment) <= HALF_MAX
    ensures r.Some? ==> r.value.0.alignment == t.alignment && |t.chunks| <= |r.value.0.chunks|
                        && r.value.1.chunk < |r.value.0.chunks|
  {
    var size := AlignUp(request, t.alignment);
    var p :- FindPlace(t, size);
    Some((TakeFrom(p.t, p.chunk, p.block, size), Address(p.chunk, p.t.chunks[p.chunk].blocks[p.block].offset)))
  }

  /** ggml_dyn_tallocr_free_bytes; None is the abort on a full block table. */
  function FreeBytes(t: Talloc, addr: Address, request: nat): (r: Option<Talloc>)
    requires t.alignment > 0 && addr.chunk < |t.chunks|
    ensures r.Some? ==> r.value.alignment == t.alignment && |r.value.chunks| == |t.chunks|
  {
    var ch := t.chunks[addr.chunk];
    var bs :- Release(ch.blocks, addr.offset, AlignUp(request, t.alignment));
    Some(t.(chunks := t.chunks[addr.chunk := ch.(blocks := bs)]))
  }

  // ---------------------------------------------------------------- invariant

  ghost predicate ChunkInv(c: Chunk, alignment: nat)
    requires alignment > 0
  {
    && Wf(c.blocks, c.limit)
    && c.maxSize <= c.limit <= HALF_MAX
    && (forall i :: 0 <= i < |c.blocks| ==> c.blocks[i].offset % alignment == 0)
    && RangeFree(c.blocks, c.maxSize, c.limit)
  }

  ghost predicate Inv(t: Talloc) {
    && t.alignment > 0
    && t.maxChunkSize <= HALF_MAX
    && |t.chunks| <= MAX_CHUNKS
    && (forall c :: 0 <= c < |t.chunks| ==> ChunkInv(t.chunks[c], t.alignment))
  }

  /** Byte x of chunk c belongs to somebody. */
  ghost predicate Used(t: Talloc, c: int, x: int) {
    0 <= c < |t.chunks| && 0 <= x < t.chunks[c].limit && !IsFree(t.chunks[c].blocks, x)
  }

  ghost predicate InRange(c: int, x: int, addr: Address, size: nat) {
    c == addr.chunk && addr.offset <= x < addr.offset + size
  }

  ghost predicate WithinChunk(t: Talloc, addr: Address, size: nat) {
    addr.chunk < |t.chunks| && addr.offset + size <= t.chunks[addr.chunk].limit
  }

  /** For every tail that could serve the request, the 64-bit subtraction of the source does not wrap. */
  lemma ReuseFactorExact(t: Talloc, c: nat, size: nat)
    requires Inv(t) && c < |t.chunks| && TailFits(t.chunks[c], size)
    ensures INT64_MIN < ReuseFactor(t.chunks[c], size) <= HALF_MAX
  {
    assert ChunkInv(t.chunks[c], t.alignment);
  }

  lemma PreferredTransitive(a: int, b: int, c: int)
    requires !Preferred(a, b) && (c == b || Preferred(c, b))
    ensures !Preferred(a, c)
  {
  }

  /** The second search fails only when no tail fits, and otherwise returns a tail no other tail is preferred to. */
  lemma {:induction false} TailSearchBest(t: Talloc, size: nat, m: nat)
    requires Inv(t) && m <= |t.chunks|
    ensures var r := TailSearch(t.chunks, size, m);
            && (r.chunk == -1 <==> forall c :: 0 <= c < m ==> !TailFits(t.chunks[c], size))
            && (forall c :: 0 <= c < m && TailFits(t.chunks[c], size) ==>
                  !Preferred(ReuseFactor(t.chunks[c], size), r.reuse))
  {
    TailSearchFits(t.chunks, size, m);
    if m > 0 {
      TailSearchBest(t, size, m - 1);
      TailSearchFits(t.chunks, size, m - 1);
      if TailFits(t.chunks[m - 1], size) { ReuseFactorExact(t, m - 1, size); }
      var best, r := TailSearch(t.chunks, size, m - 1), TailSearch(t.chunks, size, m);
      forall c | 0 <= c < m && TailFits(t.chunks[c], size)
        ensures !Preferred(ReuseFactor(t.chunks[c], size), r.reuse)
      {
        if c < m - 1 { PreferredTransitive(ReuseFactor(t.chunks[c], size), best.reuse, r.reuse); }
      }
    }
  }

  /** What the tail of a chunk leaves unused below the high-water mark, or by how much it raises the mark if
      negative. */
  ghost predicate LeavesOver(c: Chunk, size: nat, w: int) {
    |c.blocks| > 0 && c.blocks[|c.blocks| - 1].size >= size && c.maxSize == c.blocks[|c.blocks| - 1].offset + size + w
  }

  /** If some fitting tail raises no mark, the search takes the one that leaves least over, otherwise the one that
      raises its mark least; the first of several. */
  lemma {:induction false} TailSearchLeast(t: Talloc, size: nat, m: nat, c: nat, w: int)
    requires Inv(t) && m <= |t.chunks| && TailSearch(t.chunks, size, m).chunk >= 0
    requires c < m && LeavesOver(t.chunks[c], size, w)
    ensures var r := TailSearch(t.chunks, size, m);
      && r.chunk < m && LeavesOver(t.chunks[r.chunk], size, r.reuse)
      && (if r.reuse >= 0 then w < 0 || r.reuse <= w else w <= r.reuse)
      && (c < r.chunk ==> w != r.reuse)
  {
    hide Inv;
    TailSearchFits(t.chunks, size, m);
    TailSearchFits(t.chunks, size, m - 1);
    if c < m - 1 {
      if TailSearch(t.chunks, size, m - 1).chunk >= 0 {
        TailSearchLeast(t, size, m - 1, c, w);
      } else {
        TailSearchBest(t, size, m - 1);
      }
    } else {
      ReuseFactorExact(t, c, size);
    }
  }

  lemma NewChunkMeaning(t: Talloc, size: nat)
    requires Inv(t) && |t.chunks| < MAX_CHUNKS && 0 < size <= HALF_MAX
    ensures Inv(WithNewChunk(t, size))
    ensures forall c, x :: Used(WithNewChunk(t, size), c, x) <==> Used(t, c, x)
  {
    var u := WithNewChunk(t, size);
    var ch := u.chunks[|t.chunks|];
    forall x | 0 <= x < ch.limit ensures IsFree(ch.blocks, x) {
      assert ch.blocks[0].Covers(x);
    }
    forall c, x ensures Used(u, c, x) <==> Used(t, c, x) {
      if 0 <= c < |t.chunks| { assert u.chunks[c] == t.chunks[c]; }
    }
    forall c | 0 <= c < |u.chunks| ensures ChunkInv(u.chunks[c], u.alignment) {
      if c < |t.chunks| { assert u.chunks[c] == t.chunks[c]; }
    }
  }

  lemma TakeMeaning(t: Talloc, c: nat, i: nat, size: nat)
    requires Inv(t) && c < |t.chunks| && i < |t.chunks[c].blocks|
    requires 0 < size <= t.chunks[c].blocks[i].size && size % t.alignment == 0
    ensures var u, addr := TakeFrom(t, c, i, size), Address(c, t.chunks[c].blocks[i].offset);
            && Inv(u) && WithinChunk(t, addr, size) && addr.offset % t.alignment == 0
            && (forall x :: addr.offset <= x < addr.offset + size ==> !Used(t, c, x))
            && (forall d, x :: Used(u, d, x) <==> Used(t, d, x) || InRange(d, x, addr, size))
            && |u.chunks| == |t.chunks|
            && (forall d :: 0 <= d < |t.chunks| ==> u.chunks[d].limit == t.chunks[d].limit)
  {
    var u, addr := TakeFrom(t, c, i, size), Address(c, t.chunks[c].blocks[i].offset);
    var ch, ch' := t.chunks[c], u.chunks[c];
    assert ChunkInv(ch, t.alignment);
    CarveMeaning(ch.blocks, ch.limit, i, size);
    CarveAlignment(ch.blocks, i, size, t.alignment);
    forall x | ch'.maxSize <= x < ch'.limit ensures IsFree(ch'.blocks, x) {
      assert IsFree(ch.blocks, x);
    }
    forall d | 0 <= d < |u.chunks| ensures ChunkInv(u.chunks[d], u.alignment) {
      if d != c { assert u.chunks[d] == t.chunks[d]; }
    }
    forall d, x ensures Used(u, d, x) <==> Used(t, d, x) || InRange(d, x, addr, size) {
      if 0 <= d < |u.chunks| && d != c { assert u.chunks[d] == t.chunks[d]; }
    }
  }

  lemma CarveAlignment(bs: seq<Block>, i: nat, size: nat, alignment: nat)
    requires alignment > 0 && i < |bs| && size <= bs[i].size && size % alignment == 0
    requires forall k :: 0 <= k < |bs| ==> bs[k].offset % alignment == 0
    ensures forall k :: 0 <= k < |Carve(bs, i, size)| ==> Carve(bs, i, size)[k].offset % alignment == 0
  {
    SumOfMultiples(bs[i].offset, size, alignment);
    CarveShape(bs, i, size);
  }

  /** What a successful allocation means: an aligned range of unused bytes inside its chunk becomes used,
      nothing else changes, and chunks only ever get added. */
  lemma AllocMeaning(t: Talloc, request: nat)
    requires Inv(t) && 0 < request && AlignUp(request, t.alignment) <= HALF_MAX
    ensures var r := Alloc(t, request);
            r.Some? ==>
              var u, addr, size := r.value.0, r.value.1, AlignUp(request, t.alignment);
              && Inv(u) && u.alignment == t.alignment
              && WithinChunk(u, addr, size) && addr.offset % t.alignment == 0
              && (forall x :: addr.offset <= x < addr.offset + size ==> !Used(t, addr.chunk, x))
              && (forall c, x :: Used(u, c, x) <==> Used(t, c, x) || InRange(c, x, addr, size))
              && |t.chunks| <= |u.chunks|
              && (forall c :: 0 <= c < |t.chunks| ==> u.chunks[c].limit == t.chunks[c].limit)
  {
    var size := AlignUp(request, t.alignment);
    var p := FindPlace(t, size);
    if p.Some? {
      if |p.value.t.chunks| > |t.chunks| { NewChunkMeaning(t, size); }
      TakeMeaning(p.value.t, p.value.chunk, p.value.block, size);
    }
  }

  /** Some free block of some chunk can hold the (aligned) size. */
  ghost predicate SomethingFits(t: Talloc, size: nat) {
    exists c, i :: 0 <= c < |t.chunks| && 0 <= i < |t.chunks[c].blocks| && t.chunks[c].blocks[i].size >= size
  }

  lemma FittingBlock(c: Chunk, i: nat, size: nat)
    requires i < |c.blocks| && c.blocks[i].size >= size
    ensures InnerFits(c, size) || TailFits(c, size)
  {
  }

  lemma FindPlaceWhenItFits(t: Talloc, size: nat, c: nat, i: nat)
    requires Inv(t) && size <= HALF_MAX && c < |t.chunks| && i < |t.chunks[c].blocks|
             && t.chunks[c].blocks[i].size >= size
    ensures FindPlace(t, size).Some? && FindPlace(t, size).value.t == t
  {
    FittingBlock(t.chunks[c], i, size);
    FitSearchPicksLastChunk(t.chunks, size, |t.chunks|);
    TailSearchBest(t, size, |t.chunks|);
    TailSearchFits(t.chunks, size, |t.chunks|);
    assert TailFits(t.chunks[c], size) ==> TailSearch(t.chunks, size, |t.chunks|).chunk != -1;
  }

  /** An allocation fails exactly when all sixteen chunks exist and no free block of any chunk is large enough;
      a chunk is added exactly when fewer exist and no free block is large enough. */
  lemma AllocFailsOnlyWhenFull(t: Talloc, request: nat)
    requires Inv(t) && AlignUp(request, t.alignment) <= HALF_MAX
    ensures Alloc(t, request).None? <==> |t.chunks| == MAX_CHUNKS && !SomethingFits(t, AlignUp(request, t.alignment))
    ensures Alloc(t, request).Some? ==>
              (|Alloc(t, request).value.0.chunks| > |t.chunks| <==> !SomethingFits(t, AlignUp(request, t.alignment)))
  {
    var size := AlignUp(request, t.alignment);
    if SomethingFits(t, size) {
      var c, i :| 0 <= c < |t.chunks| && 0 <= i < |t.chunks[c].blocks| && t.chunks[c].blocks[i].size >= size;
      FindPlaceWhenItFits(t, size, c, i);
    } else {
      forall c | 0 <= c < |t.chunks| ensures !InnerFits(t.chunks[c], size) && !TailFits(t.chunks[c], size) {}
      FitSearchPicksLastChunk(t.chunks, size, |t.chunks|);
      TailSearchBest(t, size, |t.chunks|);
    }
  }

  lemma InsertAlignment(bs: seq<Block>, offset: nat, size: nat, alignment: nat)
    requires alignment > 0 && offset % alignment == 0
    requires forall k :: 0 <= k < |bs| ==> bs[k].offset % alignment == 0
    ensures forall k :: 0 <= k < |InsertBlock(bs, offset, size)| ==>
            InsertBlock(bs, offset, size)[k].offset % alignment == 0
  {
  }

  lemma JoinAlignment(bs: seq<Block>, limit: nat, i: nat, offset: nat, size: nat, alignment: nat)
    requires Wf(bs, limit) && 0 < size && offset + size <= limit
    requires i < |bs| && i == TouchPos(bs, offset, size, 0)
    requires alignment > 0 && offset % alignment == 0
    requires forall k :: 0 <= k < |bs| ==> bs[k].offset % alignment == 0
    ensures forall k :: 0 <= k < |Join(bs, i, offset, size)| ==> Join(bs, i, offset, size)[k].offset % alignment == 0
  {
    JoinShape(bs, limit, i, offset, size);
  }

  /** What freeing means: exactly the given range of used bytes becomes unused. */
  lemma FreeMeaning(t: Talloc, addr: Address, request: nat)
    requires Inv(t) && 0 < request && WithinChunk(t, addr, AlignUp(request, t.alignment))
    requires addr.offset % t.alignment == 0
    requires forall x :: addr.offset <= x < addr.offset + AlignUp(request, t.alignment) ==> Used(t, addr.chunk, x)
    ensures var r := FreeBytes(t, addr, request);
            r.Some? ==>
              && Inv(r.value) && r.value.alignment == t.alignment
              && (forall c, x :: Used(r.value, c, x) <==>
                  Used(t, c, x) && !InRange(c, x, addr, AlignUp(request, t.alignment)))
              && |r.value.chunks| == |t.chunks|
              && (forall c :: 0 <= c < |t.chunks| ==>
                    r.value.chunks[c].limit == t.chunks[c].limit && r.value.chunks[c].maxSize == t.chunks[c].maxSize)
  {
    var size := AlignUp(request, t.alignment);
    var ch := t.chunks[addr.chunk];
    assert ChunkInv(ch, t.alignment);
    forall x | addr.offset <= x < addr.offset + size ensures !IsFree(ch.blocks, x) {
      assert Used(t, addr.chunk, x);
    }
    ReleaseMeaning(ch.blocks, ch.limit, addr.offset, size);
    var r := FreeBytes(t, addr, request);
    if r.Some? {
      var p := TouchPos(ch.blocks, addr.offset, size, 0);
      if p < |ch.blocks| {
        JoinAlignment(ch.blocks, ch.limit, p, addr.offset, size, t.alignment);
      } else {
        InsertAlignment(ch.blocks, addr.offset, size, t.alignment);
      }
      var u := r.value;
      forall d | 0 <= d < |u.chunks| ensures ChunkInv(u.chunks[d], u.alignment) {
        if d != addr.chunk { assert u.chunks[d] == t.chunks[d]; }
      }
      forall c, x ensures Used(u, c, x) <==> Used(t, c, x) && !InRange(c, x, addr, size) {
        if 0 <= c < |u.chunks| && c != addr.chunk { assert u.chunks[c] == t.chunks[c]; }
      }
    }
  }
}
