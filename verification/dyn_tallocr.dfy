/** The in-place code of the dynamic tensor allocator, proved against module TensorAlloc. */
module DynTallocr {
  import opened Wrappers
  import opened Alignment
  import opened FreeList
  import opened TensorAlloc

  const SIZE_MAX: nat := 0xFFFF_FFFF_FFFF_FFFF

  /** struct tallocr_chunk. One slot beyond MAX_FREE_BLOCKS stands for the word the left shift of a full table reads. */
  class ChunkCell {
    const blocks: array<Block>
    var n: nat
    var maxSize: nat
    ghost var limit: nat

    ghost predicate Ok()
      reads this
    {
      blocks.Length == MAX_FREE_BLOCKS + 1 && n <= MAX_FREE_BLOCKS
    }

    ghost function List(): seq<Block>
      reads this, blocks
      requires Ok()
    {
      blocks[..n]
    }

    ghost function State(): Chunk
      reads this, blocks
      requires Ok()
    {
      Chunk(List(), maxSize, limit)
    }

    constructor (size: nat)
      ensures Ok() && fresh(blocks) && State() == Chunk([Block(0, size)], 0, size)
    {
      blocks := new Block[MAX_FREE_BLOCKS + 1](_ => Block(0, 0));
      n, maxSize, limit := 1, 0, size;
      new;
      blocks[0] := Block(0, size);
      assert blocks[..1] == [Block(0, size)];
    }

    /** ggml_dyn_tallocr_insert_block */
    method Insert(offset: nat, size: nat)
      requires Ok() && n < MAX_FREE_BLOCKS
      modifies this`n, blocks
      ensures Ok() && List() == InsertBlock(old(List()), offset, size)
    {
      ghost var was := List();
      var pos := 0;
      while pos < n && blocks[pos].offset < offset
        invariant 0 <= pos <= n
        invariant InsertPos(was, offset, 0) == InsertPos(was, offset, pos)
      {
        pos := pos + 1;
      }
      assert InsertPos(was, offset, 0) == pos;
      ghost var now := was[..pos] + [Block(offset, size)] + was[pos..];
      hide InsertPos;
      var i := n;
      while i > pos
        invariant pos <= i <= n == |was|
        invariant forall k :: 0 <= k < i ==> blocks[k] == was[k]
        invariant forall k :: i < k <= n ==> blocks[k] == was[k - 1]
      {
        blocks[i] := blocks[i - 1];
        i := i - 1;
      }
      blocks[pos] := Block(offset, size);
      n := n + 1;
      assert forall k :: 0 <= k < n ==> blocks[k] == now[k];
      assert List() == now;
    }

    /** ggml_dyn_tallocr_remove_block */
    method Remove(idx: nat)
      requires Ok() && idx < n
      modifies this`n, blocks
      ensures Ok() && List() == old(List())[..idx] + old(List())[idx + 1..]
    {
      ghost var was := List();
      for i := idx to n
        invariant n == |was|
        invariant forall k :: 0 <= k < idx ==> blocks[k] == was[k]
        invariant forall k :: idx <= k < i && k < n - 1 ==> blocks[k] == was[k + 1]
        invariant forall k :: i <= k < n ==> blocks[k] == was[k]
      {
        blocks[i] := blocks[i + 1];
      }
      n := n - 1;
      ghost var now := was[..idx] + was[idx + 1..];
      assert forall k :: 0 <= k < n ==> blocks[k] == now[k];
    }

    /** The end of ggml_dyn_tallocr_alloc: take the front of block i and raise max_size. */
    method Take(i: nat, size: nat) returns (offset: nat)
      requires Ok() && i < n && size <= blocks[i].size
      modifies this, blocks
      ensures Ok() && limit == old(limit)
      ensures offset == old(List())[i].offset
      ensures List() == Carve(old(List()), i, size)
      ensures maxSize == Max(old(maxSize), offset + size)
    {
      ghost var was := List();
      offset := blocks[i].offset;
      blocks[i] := Block(blocks[i].offset + size, blocks[i].size - size);
      if blocks[i].size == 0 {
        Remove(i);
        assert List() == was[..i] + was[i + 1..];
      } else {
        assert List() == was[i := Block(was[i].offset + size, was[i].size - size)];
      }
      maxSize := if maxSize > offset + size then maxSize else offset + size;
    }

    /** The range starts where block i ends: grow block i, then swallow the next block if they meet. */
    method GrowEnd(i: nat, offset: nat, size: nat)
      requires Ok() && i < n && List()[i].End() == offset
      modifies this`n, blocks
      ensures Ok() && List() == Join(old(List()), i, offset, size)
    {
      ghost var was := List();
      var block := blocks[i];
      blocks[i] := Block(block.offset, block.size + size);
      assert List() == was[i := Block(block.offset, block.size + size)];
      if i < n - 1 {
        var next := blocks[i + 1];
        if block.offset + (block.size + size) == next.offset {
          blocks[i] := Block(block.offset, block.size + size + next.size);
          ghost var mid := List();
          assert mid == was[i := Block(block.offset, block.size + size + next.size)];
          Remove(i + 1);
          assert mid[..i + 1] + mid[i + 2..]
                 == was[..i] + [Block(block.offset, block.size + size + next.size)] + was[i + 2..];
        }
      }
    }

    /** The range ends where block i starts: grow block i downwards, then merge it into the previous block if they
        meet. */
    method GrowFront(i: nat, offset: nat, size: nat)
      requires Ok() && i < n && List()[i].End() != offset && offset + size == List()[i].offset
      modifies this`n, blocks
      ensures Ok() && List() == Join(old(List()), i, offset, size)
    {
      ghost var was := List();
      var block := blocks[i];
      blocks[i] := Block(offset, block.size + size);
      assert List() == was[i := Block(offset, block.size + size)];
      if i > 0 {
        var prev := blocks[i - 1];
        if prev.offset + prev.size == offset {
          blocks[i - 1] := Block(prev.offset, prev.size + (block.size + size));
          ghost var mid := List();
          assert mid == was[i := Block(offset, block.size + size)][i
                 - 1 := Block(prev.offset, prev.size + (block.size + size))];
          Remove(i);
          assert mid[..i] + mid[i + 1..]
                 == was[..i - 1] + [Block(prev.offset, prev.size + (block.size + size))] + was[i + 1..];
        }
      }
    }

    /** The body of ggml_dyn_tallocr_free_bytes; ok is false where the source aborts. */
    method GiveBack(offset: nat, size: nat) returns (ok: bool)
      requires Ok()
      modifies this`n, blocks
      ensures Ok()
      ensures ok <==> Release(old(List()), offset, size).Some?
      ensures ok ==> List() == Release(old(List()), offset, size).value
      ensures !ok ==> List() == old(List())
    {
      ghost var was := List();
      var i := 0;
      while i < n
        invariant 0 <= i <= n == |was| <= MAX_FREE_BLOCKS
        invariant List() == was
        invariant TouchPos(was, offset, size, 0) == TouchPos(was, offset, size, i)
      {
        var block := blocks[i];
        assert block == was[i];
        if block.offset + block.size == offset {
          GrowEnd(i, offset, size);
          return true;
        }
        if offset + size == block.offset {
          GrowFront(i, offset, size);
          return true;
        }
        i := i + 1;
      }
      if n < MAX_FREE_BLOCKS {
        Insert(offset, size);
        return true;
      }
      return false;
    }

    /** Best fit among all blocks but the last: the inner loop of the first search. */
    method BestInner(size: nat) returns (best: int)
      requires Ok() && forall k :: 0 <= k < n ==> List()[k].size <= SIZE_MAX
      ensures best == BestIn(List(), size, Inner(State()))
    {
      best := -1;
      var bestSize := SIZE_MAX;
      ghost var bs := List();
      var i := 0;
      while i < n - 1
        invariant 0 <= i <= Inner(State())
        invariant best == BestIn(bs, size, i) && bestSize == if best == -1 then SIZE_MAX else bs[best].size
      {
        var block := blocks[i];
        assert block == bs[i];
        if block.size >= size && block.size <= bestSize {
          best, bestSize := i, block.size;
        }
        i := i + 1;
      }
    }
  }

  /** Every block size is representable, as the comparison with the initial best size SIZE_MAX needs. */
  ghost predicate SmallBlocks(c: Chunk) {
    forall k :: 0 <= k < |c.blocks| ==> c.blocks[k].size <= SIZE_MAX
  }

  lemma InvSmallBlocks(t: Talloc)
    requires Inv(t)
    ensures forall c :: 0 <= c < |t.chunks| ==> SmallBlocks(t.chunks[c])
  {
    forall c | 0 <= c < |t.chunks| ensures SmallBlocks(t.chunks[c]) {
      assert ChunkInv(t.chunks[c], t.alignment);
    }
  }

  /** struct ggml_dyn_tallocr */
  class Allocator {
    const alignment: nat
    const maxChunkSize: nat
    var chunks: seq<ChunkCell>

    ghost var repr: set<object>

    ghost predicate Ok()
      reads this, repr
    {
      && this in repr
      && (forall i :: 0 <= i < |chunks| ==> chunks[i] in repr && chunks[i].blocks in repr && chunks[i].Ok())
      && (forall i, j :: 0 <= i < j < |chunks| ==> chunks[i] != chunks[j] && chunks[i].blocks != chunks[j].blocks)
    }

    ghost function StatesUpTo(k: nat): (s: seq<Chunk>)
      reads this, repr
      requires Ok() && k <= |chunks|
      ensures |s| == k
      ensures forall i :: 0 <= i < k ==> s[i] == chunks[i].State()
    {
      if k == 0 then [] else StatesUpTo(k - 1) + [chunks[k - 1].State()]
    }

    ghost function States(): (s: seq<Chunk>)
      reads this, repr
      requires Ok()
    {
      StatesUpTo(|chunks|)
    }

    ghost function State(): Talloc
      reads this, repr
      requires Ok()
    {
      Talloc(alignment, maxChunkSize, States())
    }

    /** ggml_dyn_tallocr_new */
    constructor (alignment: nat, maxBufferSize: nat)
      requires alignment > 0
      ensures Ok() && fresh(repr)
      ensures State() == Talloc(alignment, if maxBufferSize < HALF_MAX then maxBufferSize else HALF_MAX, [])
      ensures Inv(State())
    {
      this.alignment := alignment;
      this.maxChunkSize := if maxBufferSize < HALF_MAX then maxBufferSize else HALF_MAX;
      this.chunks, this.repr := [], {this};
    }

    /** ggml_dyn_tallocr_reset */
    method Reset()
      requires Ok()
      modifies this
      ensures Ok() && State() == Talloc(alignment, maxChunkSize, []) && repr == {this}
    {
      chunks, repr := [], {this};
    }

    /** ggml_dyn_tallocr_new_chunk */
    method NewChunk(minSize: nat, ghost t: TensorAlloc.Talloc) returns (index: int, ghost u: TensorAlloc.Talloc)
      requires Ok() && t == State()
      modifies this
      ensures Ok() && u == State() && fresh(repr - old(repr))
      ensures if |t.chunks| >= MAX_CHUNKS then index == -1 && u == t
              else index == |t.chunks| && u == WithNewChunk(t, minSize)
      ensures index >= 0 ==> OneChunkMore(t, minSize, u)
    {
      if |chunks| >= MAX_CHUNKS { return -1, t; }
      NewChunkIs(t, minSize);
      hide OneChunkMore;
      var size := if minSize > maxChunkSize then minSize else maxChunkSize;
      if |chunks| == MAX_CHUNKS - 1 { size := HALF_MAX; }
      var chunk := new ChunkCell(size);
      chunks, repr := chunks + [chunk], repr + {chunk, chunk.blocks};
      assert States() == t.chunks + [Chunk([Block(0, size)], 0, size)];
      return |chunks| - 1, State();
    }

    /** First search of ggml_dyn_tallocr_alloc. `t` is the state, which the searches only read. */
    method SearchInner(size: nat, ghost t: TensorAlloc.Talloc) returns (bestChunk: int, bestBlock: int)
      requires Ok() && t == State() && forall c :: 0 <= c < |chunks| ==> SmallBlocks(t.chunks[c])
      ensures FitChoice(bestChunk, bestBlock) == FitSearch(t.chunks, size, |t.chunks|)
    {
      bestChunk, bestBlock := -1, -1;
      for c := 0 to |chunks|
        invariant FitChoice(bestChunk, bestBlock) == FitSearch(t.chunks, size, c)
      {
        assert SmallBlocks(t.chunks[c]) && t.chunks[c] == chunks[c].State();
        var b := chunks[c].BestInner(size);
        if b != -1 { bestChunk, bestBlock := c, b; }
      }
    }

    /** Second search of ggml_dyn_tallocr_alloc. */
    method SearchTails(size: nat, ghost t: TensorAlloc.Talloc) returns (bestChunk: int)
      requires Ok() && t == State()
      ensures bestChunk == TailSearch(t.chunks, size, |t.chunks|).chunk
    {
      bestChunk := -1;
      var bestReuse: int := INT64_MIN;
      for c := 0 to |chunks|
        invariant TailSearch(t.chunks, size, c) == TailChoice(bestChunk, bestReuse)
      {
        var chunk := chunks[c];
        assert t.chunks[c] == chunk.State();
        if chunk.n > 0 {
          var block := chunk.blocks[chunk.n - 1];
          assert block == chunk.List()[chunk.n - 1];
          var reuse := chunk.maxSize - block.offset - size;
          var betterReuse := bestReuse < 0 && reuse > bestReuse;
          var betterFit := reuse >= 0 && reuse < bestReuse;
          if block.size >= size && (betterReuse || betterFit) {
            bestChunk, bestReuse := c, reuse;
          }
        }
      }
    }

    /** The two searches of ggml_dyn_tallocr_alloc one after the other. */
    method Search(size: nat, ghost t: TensorAlloc.Talloc) returns (c: int, b: int)
      requires Ok() && t == State() && Inv(t) && size <= HALF_MAX
      ensures -1 <= c < |t.chunks|
      ensures c != -1 ==> 0 <= b && FindPlace(t, size) == Some(Place(t, c, b))
      ensures c == -1 ==> FindPlace(t, size) == FindPlaceInNewChunk(t, size)
    {
      InvSmallBlocks(t);
      c, b := SearchInner(size, t);
      if b == -1 {
        c := SearchTails(size, t);
        TailSearchFits(t.chunks, size, |t.chunks|);
        if c != -1 {
          assert TailFits(t.chunks[c], size) && t.chunks[c] == chunks[c].State();
          b := chunks[c].n - 1;
        }
      }
    }

    static function FindPlaceInNewChunk(t: TensorAlloc.Talloc, size: nat): Option<Place> {
      if |t.chunks| >= MAX_CHUNKS then None else Some(Place(WithNewChunk(t, size), |t.chunks|, 0))
    }

    /** The choice of chunk and block in ggml_dyn_tallocr_alloc; chunk -1 where the source aborts. */
    method Locate(size: nat, ghost t: TensorAlloc.Talloc) returns (c: int, b: int, ghost u: TensorAlloc.Talloc)
      requires Ok() && t == State() && Inv(t) && size <= HALF_MAX
      modifies this
      ensures Ok() && u == State() && fresh(repr - old(repr))
      ensures c != -1 ==> 0 <= c && 0 <= b && FindPlace(t, size) == Some(Place(u, c, b))
      ensures c == -1 ==> FindPlace(t, size).None? && u == t
    {
      c, b := Search(size, t);
      u := t;
      if c == -1 {
        c, u := NewChunk(size, t);
        b := 0;
      }
    }

    /** ggml_dyn_tallocr_alloc; None where the source aborts. */
    method Alloc(request: nat) returns (r: Option<Address>)
      requires Ok() && Inv(State()) && 0 < request && AlignUp(request, alignment) <= HALF_MAX
      modifies repr
      ensures Ok() && fresh(repr - old(repr))
      ensures TensorAlloc.Alloc(old(State()), request) == if r.None? then None else Some((State(), r.value))
      ensures r.None? ==> State() == old(State())
    {
      var size := AlignUp(request, alignment);
      var c, b, u := Locate(size, State());
      if c == -1 { return None; }
      assert chunks[c].State() == u.chunks[c];
      var offset := TakeAt(c, b, size);
      return Some(Address(c, offset));
    }

    method TakeAt(c: nat, i: nat, size: nat) returns (offset: nat)
      requires Ok() && c < |chunks| && i < chunks[c].n && size <= chunks[c].List()[i].size
      modifies chunks[c], chunks[c].blocks
      ensures Ok() && chunks == old(chunks) && repr == old(repr)
      ensures State() == TakeFrom(old(State()), c, i, size) && offset == old(State()).chunks[c].blocks[i].offset
    {
      ghost var was := States();
      offset := chunks[c].Take(i, size);
      assert States() == was[c := chunks[c].State()];
    }

    /** ggml_dyn_tallocr_free_bytes; ok is false where the source aborts. */
    method FreeBytes(addr: Address, request: nat) returns (ok: bool)
      requires Ok() && alignment > 0 && addr.chunk < |chunks|
      modifies chunks[addr.chunk], chunks[addr.chunk].blocks
      ensures Ok() && chunks == old(chunks) && repr == old(repr)
      ensures TensorAlloc.FreeBytes(old(State()), addr, request) == if ok then Some(State()) else None
      ensures !ok ==> State() == old(State())
    {
      var size := AlignUp(request, alignment);
      ghost var was := States();
      var chunk := chunks[addr.chunk];
      ok := chunk.GiveBack(addr.offset, size);
      assert States() == was[addr.chunk := chunk.State()];
      assert !ok ==> States() == was;
    }
  }
}
