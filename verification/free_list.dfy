/** The free list of one chunk of the dynamic tensor allocator (CGGML/ggml-alloc.c).

    A free list is a sequence of blocks sorted by offset. This module gives the
    meaning of a free list (the set of free bytes), the two list edits the
    allocator performs (carving a prefix of a block, giving a range back), and
    proves what the edits mean. `DynTallocr.ChunkCell` holds the in-place array code.
  */
module FreeList {
  import opened Wrappers

  const MAX_FREE_BLOCKS := 256

  datatype Block = Block(offset: nat, size: nat) {
    function End(): nat { offset + size }

    predicate Covers(x: int) { offset <= x < offset + size }
  }

  /** A byte is free when some block covers it. */
  ghost predicate IsFree(bs: seq<Block>, x: int) {
    exists i :: 0 <= i < |bs| && bs[i].Covers(x)
  }

  /** Sorted, nonempty, pairwise separated by at least one used byte, inside [0, limit). */
  ghost predicate Wf(bs: seq<Block>, limit: nat) {
    && (forall i :: 0 <= i < |bs| ==> bs[i].size > 0 && bs[i].End() <= limit)
    && (forall i, j :: 0 <= i < j < |bs| ==> bs[i].End() < bs[j].offset)
  }

  ghost predicate RangeFree(bs: seq<Block>, lo: int, hi: int) {
    forall x :: lo <= x < hi ==> IsFree(bs, x)
  }

  ghost predicate RangeUsed(bs: seq<Block>, lo: int, hi: int) {
    forall x :: lo <= x < hi ==> !IsFree(bs, x)
  }

  /** Take `size` bytes off the front of block i, dropping the block when it becomes empty. */
  function Carve(bs: seq<Block>, i: nat, size: nat): seq<Block>
    requires i < |bs| && size <= bs[i].size
  {
    if bs[i].size == size then bs[..i] + bs[i + 1..]
    else bs[i := Block(bs[i].offset + size, bs[i].size - size)]
  }

  /** First position whose block starts at or after `offset`. */
  function InsertPos(bs: seq<Block>, offset: nat, from: nat): (p: nat)
    requires from <= |bs|
    ensures from <= p <= |bs|
    ensures forall k :: from <= k < p ==> bs[k].offset < offset
    ensures p < |bs| ==> bs[p].offset >= offset
    decreases |bs| - from
  {
    if from < |bs| && bs[from].offset < offset then InsertPos(bs, offset, from + 1) else from
  }

  function InsertBlock(bs: seq<Block>, offset: nat, size: nat): seq<Block> {
    var p := InsertPos(bs, offset, 0);
    bs[..p] + [Block(offset, size)] + bs[p..]
  }

  /** The range [offset, offset+size) extends block i, either at its end or at its beginning. */
  predicate Touches(bs: seq<Block>, offset: nat, size: nat, i: nat)
    requires i < |bs|
  {
    bs[i].End() == offset || offset + size == bs[i].offset
  }

  /** The first block the range touches, scanning from `from`; |bs| when there is none. */
  function TouchPos(bs: seq<Block>, offset: nat, size: nat, from: nat): (p: nat)
    requires from <= |bs|
    ensures from <= p <= |bs|
    ensures forall k :: from <= k < p ==> !Touches(bs, offset, size, k)
    ensures p < |bs| ==> Touches(bs, offset, size, p)
    decreases |bs| - from
  {
    if from < |bs| && !Touches(bs, offset, size, from) then TouchPos(bs, offset, size, from + 1) else from
  }

  /** Join the range to the block i it touches, then join that block to a neighbour it now meets. */
  function Join(bs: seq<Block>, i: nat, offset: nat, size: nat): seq<Block>
    requires i < |bs| && Touches(bs, offset, size, i)
  {
    if bs[i].End() == offset then
      if i + 1 < |bs| && offset + size == bs[i + 1].offset then
        bs[..i] + [Block(bs[i].offset, bs[i].size + size + bs[i + 1].size)] + bs[i + 2..]
      else
        bs[i := Block(bs[i].offset, bs[i].size + size)]
    else if i > 0 && bs[i - 1].End() == offset then
      bs[..i - 1] + [Block(bs[i - 1].offset, bs[i - 1].size + (bs[i].size + size))] + bs[i + 1..]
    else
      bs[i := Block(offset, bs[i].size + size)]
  }

  /** Give a range back. None: the range touches no block and the block table is full (the source aborts). */
  function Release(bs: seq<Block>, offset: nat, size: nat): Option<seq<Block>> {
    var p := TouchPos(bs, offset, size, 0);
    if p < |bs| then Some(Join(bs, p, offset, size))
    else if |bs| < MAX_FREE_BLOCKS then Some(InsertBlock(bs, offset, size))
    else None
  }

  // ---------------------------------------------------------------- meaning of the edits

  lemma CarveWf(bs: seq<Block>, limit: nat, i: nat, size: nat)
    requires Wf(bs, limit) && i < |bs| && 0 < size <= bs[i].size
    ensures Wf(Carve(bs, i, size), limit)
  {
    var cs := Carve(bs, i, size);
    if bs[i].size == size {
      assert forall k :: 0 <= k < |cs| ==> cs[k] == bs[if k < i then k else k + 1];
    }
  }

  lemma CarveShape(bs: seq<Block>, i: nat, size: nat)
    requires i < |bs| && size <= bs[i].size
    ensures var cs := Carve(bs, i, size);
            if bs[i].size == size then
              |cs| == |bs| - 1 && forall k :: 0 <= k < |cs| ==> cs[k] == bs[if k < i then k else k + 1]
            else
              |cs| == |bs| && cs == bs[i := Block(bs[i].offset + size, bs[i].size - size)]
  {
  }

  lemma CarveKeeps(bs: seq<Block>, i: nat, size: nat, x: int)
    requires i < |bs| && size <= bs[i].size
    requires IsFree(bs, x) && !(bs[i].offset <= x < bs[i].offset + size)
    ensures IsFree(Carve(bs, i, size), x)
  {
    var k :| 0 <= k < |bs| && bs[k].Covers(x);
    var cs := Carve(bs, i, size);
    if bs[i].size == size {
      assert k != i;
      if k < i { assert cs[k] == bs[k]; } else { assert cs[k - 1] == bs[k]; }
    } else {
      assert cs[k].Covers(x);
    }
  }

  lemma CarveAddsNothing(bs: seq<Block>, limit: nat, i: nat, size: nat, x: int)
    requires Wf(bs, limit) && i < |bs| && 0 < size <= bs[i].size
    requires IsFree(Carve(bs, i, size), x)
    ensures IsFree(bs, x) && !(bs[i].offset <= x < bs[i].offset + size)
  {
    var cs := Carve(bs, i, size);
    var k :| 0 <= k < |cs| && cs[k].Covers(x);
    CarveShape(bs, i, size);
    var k' := if k >= i && bs[i].size == size then k + 1 else k;
    assert bs[k'].Covers(x);
    if k' < i { assert bs[k'].End() < bs[i].offset; }
    if i < k' { assert bs[i].End() < bs[k'].offset; }
  }

  lemma CarveMeaning(bs: seq<Block>, limit: nat, i: nat, size: nat)
    requires Wf(bs, limit) && i < |bs| && 0 < size <= bs[i].size
    ensures Wf(Carve(bs, i, size), limit)
    ensures RangeFree(bs, bs[i].offset, bs[i].offset + size)
    ensures forall x :: IsFree(Carve(bs, i, size), x) <==> IsFree(bs, x) && !(bs[i].offset <= x < bs[i].offset + size)
  {
    CarveWf(bs, limit, i, size);
    forall x ensures IsFree(Carve(bs, i, size), x) <==> IsFree(bs, x) && !(bs[i].offset <= x < bs[i].offset + size) {
      if IsFree(Carve(bs, i, size), x) {
        CarveAddsNothing(bs, limit, i, size, x);
      } else if IsFree(bs, x) && !(bs[i].offset <= x < bs[i].offset + size) {
        CarveKeeps(bs, i, size, x);
      }
    }
    forall x | bs[i].offset <= x < bs[i].offset + size ensures IsFree(bs, x) {
      assert bs[i].Covers(x);
    }
  }

  /** A used range lies to one side of every block. */
  lemma Around(bs: seq<Block>, limit: nat, offset: nat, size: nat, k: nat)
    requires Wf(bs, limit) && 0 < size && k < |bs|
    requires RangeUsed(bs, offset, offset + size)
    ensures bs[k].End() <= offset || offset + size <= bs[k].offset
  {
    if bs[k].End() > offset && offset + size > bs[k].offset {
      var x := if bs[k].offset >= offset then bs[k].offset else offset;
      assert bs[k].Covers(x);
      assert IsFree(bs, x);
    }
  }

  /** The blocks before the insertion point end before the range, those after it start after it. */
  lemma InsertGaps(bs: seq<Block>, limit: nat, offset: nat, size: nat, k: nat)
    requires Wf(bs, limit) && 0 < size && k < |bs|
    requires RangeUsed(bs, offset, offset + size)
    requires !Touches(bs, offset, size, k)
    ensures k < InsertPos(bs, offset, 0) ==> bs[k].End() < offset
    ensures k >= InsertPos(bs, offset, 0) ==> offset + size < bs[k].offset
  {
    var p := InsertPos(bs, offset, 0);
    Around(bs, limit, offset, size, k);
    if k > p { assert bs[p].End() < bs[k].offset; }
  }

  lemma InsertShape(bs: seq<Block>, offset: nat, size: nat, k: nat)
    requires k <= |bs|
    ensures var p, cs := InsertPos(bs, offset, 0), InsertBlock(bs, offset, size);
            |cs| == |bs| + 1 && cs[k] == if k < p then bs[k] else if k == p then Block(offset, size) else bs[k - 1]
  {
  }

  lemma InsertWf(bs: seq<Block>, limit: nat, offset: nat, size: nat)
    requires Wf(bs, limit) && 0 < size && offset + size <= limit
    requires RangeUsed(bs, offset, offset + size)
    requires forall k :: 0 <= k < |bs| ==> !Touches(bs, offset, size, k)
    ensures Wf(InsertBlock(bs, offset, size), limit)
  {
    var p := InsertPos(bs, offset, 0);
    var cs := InsertBlock(bs, offset, size);
    hide RangeUsed;
    hide IsFree;
    hide InsertBlock;
    InsertShape(bs, offset, size, 0);
    forall a | 0 <= a < |cs| ensures cs[a].size > 0 && cs[a].End() <= limit {
      InsertShape(bs, offset, size, a);
    }
    forall a, b | 0 <= a < b < |cs| ensures cs[a].End() < cs[b].offset {
      InsertShape(bs, offset, size, a);
      InsertShape(bs, offset, size, b);
      if a < p { InsertGaps(bs, limit, offset, size, a); }
      if p < b { InsertGaps(bs, limit, offset, size, b - 1); }
    }
  }

  lemma InsertFreeByte(bs: seq<Block>, offset: nat, size: nat, x: int)
    ensures IsFree(InsertBlock(bs, offset, size), x) <==> IsFree(bs, x) || offset <= x < offset + size
  {
    var p := InsertPos(bs, offset, 0);
    var cs := InsertBlock(bs, offset, size);
    if IsFree(bs, x) {
      var k :| 0 <= k < |bs| && bs[k].Covers(x);
      var k' := if k < p then k else k + 1;
      assert cs[k'].Covers(x);
    }
    if offset <= x < offset + size { assert cs[p].Covers(x); }
    if IsFree(cs, x) {
      var k :| 0 <= k < |cs| && cs[k].Covers(x);
      if k != p {
        var k' := if k < p then k else k - 1;
        assert bs[k'].Covers(x);
      }
    }
  }

  /** The scan stops at the block before the range whenever that block touches it, so when it stops
      at the block after the range the merge with the previous block cannot fire. */
  lemma MergeWithPreviousNeverFires(bs: seq<Block>, offset: nat, size: nat)
    ensures var p := TouchPos(bs, offset, size, 0);
            p < |bs| && bs[p].End() != offset && p > 0 ==> bs[p - 1].End() != offset
  {
    var p := TouchPos(bs, offset, size, 0);
    if 0 < p < |bs| { assert !Touches(bs, offset, size, p - 1); }
  }

  /** How `Join` moves blocks: index of the block of `bs` that block k of the result comes from. */
  ghost function JoinFrom(bs: seq<Block>, i: nat, offset: nat, size: nat, k: int): int
    requires i < |bs|
  {
    if bs[i].End() == offset && i + 1 < |bs| && offset + size == bs[i + 1].offset && k > i then k + 1 else k
  }

  lemma JoinShape(bs: seq<Block>, limit: nat, i: nat, offset: nat, size: nat)
    requires Wf(bs, limit) && 0 < size && offset + size <= limit
    requires i < |bs| && i == TouchPos(bs, offset, size, 0)
    ensures var cs := Join(bs, i, offset, size);
            && i < |cs| <= |bs|
            && JoinFrom(bs, i, offset, size, |cs|) == |bs|
            && (forall k :: 0 <= k < |cs| && k != i ==> cs[k] == bs[JoinFrom(bs, i, offset, size, k)])
            && cs[i].offset == (if bs[i].End() == offset then bs[i].offset else offset)
            && cs[i].End() == (if bs[i].End() != offset then bs[i].End()
                               else if i + 1 < |bs| && offset + size == bs[i + 1].offset then bs[i + 1].End()
                               else offset + size)
  {
    MergeWithPreviousNeverFires(bs, offset, size);
  }

  lemma JoinPair(bs: seq<Block>, limit: nat, i: nat, offset: nat, size: nat, a: nat, b: nat)
    requires Wf(bs, limit) && 0 < size && offset + size <= limit
    requires RangeUsed(bs, offset, offset + size)
    requires i < |bs| && i == TouchPos(bs, offset, size, 0)
    requires a < b < |Join(bs, i, offset, size)|
    ensures Join(bs, i, offset, size)[a].End() < Join(bs, i, offset, size)[b].offset
  {
    JoinShape(bs, limit, i, offset, size);
    hide Join;
    hide RangeUsed;
    hide IsFree;
    var a', b' := JoinFrom(bs, i, offset, size, a), JoinFrom(bs, i, offset, size, b);
    assert bs[a'].End() < bs[b'].offset;
    if a == i {
      Around(bs, limit, offset, size, i + 1);
      assert bs[i].End() < bs[i + 1].offset;
      if i + 1 < b' { assert bs[i + 1].End() < bs[b'].offset; }
    } else if b == i {
      Around(bs, limit, offset, size, i - 1);
      assert !Touches(bs, offset, size, i - 1);
      if a < i - 1 { assert bs[a].End() < bs[i - 1].offset; }
    }
  }

  lemma JoinWf(bs: seq<Block>, limit: nat, i: nat, offset: nat, size: nat)
    requires Wf(bs, limit) && 0 < size && offset + size <= limit
    requires RangeUsed(bs, offset, offset + size)
    requires i < |bs| && i == TouchPos(bs, offset, size, 0)
    ensures Wf(Join(bs, i, offset, size), limit)
  {
    var cs := Join(bs, i, offset, size);
    JoinShape(bs, limit, i, offset, size);
    forall a | 0 <= a < |cs| ensures cs[a].size > 0 && cs[a].End() <= limit {
      if a != i { assert cs[a] == bs[JoinFrom(bs, i, offset, size, a)]; }
    }
    forall a, b | 0 <= a < b < |cs| ensures cs[a].End() < cs[b].offset {
      JoinPair(bs, limit, i, offset, size, a, b);
    }
  }

  lemma JoinKeeps(bs: seq<Block>, limit: nat, i: nat, offset: nat, size: nat, x: int)
    requires Wf(bs, limit) && 0 < size && offset + size <= limit
    requires i < |bs| && i == TouchPos(bs, offset, size, 0)
    requires IsFree(bs, x) || offset <= x < offset + size
    ensures IsFree(Join(bs, i, offset, size), x)
  {
    JoinShape(bs, limit, i, offset, size);
    if offset <= x < offset + size {
      assert Join(bs, i, offset, size)[i].Covers(x);
    } else {
      var k :| 0 <= k < |bs| && bs[k].Covers(x);
      var merged := JoinFrom(bs, i, offset, size, i + 1) != i + 1;
      if merged && k > i + 1 {
        assert JoinFrom(bs, i, offset, size, k - 1) == k;
        assert Join(bs, i, offset, size)[k - 1].Covers(x);
      } else if k == i || (merged && k == i + 1) {
        assert Join(bs, i, offset, size)[i].Covers(x);
      } else {
        assert JoinFrom(bs, i, offset, size, k) == k;
        assert Join(bs, i, offset, size)[k].Covers(x);
      }
    }
  }

  lemma JoinAddsOnlyRange(bs: seq<Block>, limit: nat, i: nat, offset: nat, size: nat, x: int)
    requires Wf(bs, limit) && 0 < size && offset + size <= limit
    requires i < |bs| && i == TouchPos(bs, offset, size, 0)
    requires IsFree(Join(bs, i, offset, size), x)
    ensures IsFree(bs, x) || offset <= x < offset + size
  {
    var cs := Join(bs, i, offset, size);
    var k :| 0 <= k < |cs| && cs[k].Covers(x);
    JoinShape(bs, limit, i, offset, size);
    if !(offset <= x < offset + size) {
      var k' := if k == i && bs[i].End() == offset && x >= offset then i + 1 else if k == i then i
        else JoinFrom(bs, i, offset, size, k);
      assert bs[k'].Covers(x);
    }
  }

  /** Giving back a used range frees exactly that range and keeps the list well formed. */
  lemma ReleaseMeaning(bs: seq<Block>, limit: nat, offset: nat, size: nat)
    requires Wf(bs, limit) && 0 < size && offset + size <= limit
    requires RangeUsed(bs, offset, offset + size)
    ensures var r := Release(bs, offset, size);
            r.Some? ==> Wf(r.value, limit) &&
                        forall x :: IsFree(r.value, x) <==> IsFree(bs, x) || offset <= x < offset + size
  {
    var p := TouchPos(bs, offset, size, 0);
    if p < |bs| {
      JoinWf(bs, limit, p, offset, size);
      forall x ensures IsFree(Join(bs, p, offset, size), x) <==> IsFree(bs, x) || offset <= x < offset + size {
        if IsFree(Join(bs, p, offset, size), x) {
          JoinAddsOnlyRange(bs, limit, p, offset, size, x);
        } else if IsFree(bs, x) || offset <= x < offset + size {
          JoinKeeps(bs, limit, p, offset, size, x);
        }
      }
    } else if |bs| < MAX_FREE_BLOCKS {
      InsertWf(bs, limit, offset, size);
      forall x ensures IsFree(InsertBlock(bs, offset, size), x) <==> IsFree(bs, x) || offset <= x < offset + size {
        InsertFreeByte(bs, offset, size, x);
      }
    }
  }

  /** The representation is canonical: two well-formed lists with the same free bytes are the same list. */
  lemma {:induction false} Canonical(bs: seq<Block>, cs: seq<Block>, limit: nat)
    requires Wf(bs, limit) && Wf(cs, limit)
    requires forall x :: IsFree(bs, x) <==> IsFree(cs, x)
    ensures bs == cs
    decreases |bs|
  {
    if |bs| == 0 || |cs| == 0 {
      EmptyHasNoBlocks(bs, cs, limit);
      EmptyHasNoBlocks(cs, bs, limit);
    } else {
      SameFirstBlock(bs, cs, limit);
      SameTails(bs, cs, limit);
      Canonical(bs[1..], cs[1..], limit);
      assert bs == [bs[0]] + bs[1..];
      assert cs == [cs[0]] + cs[1..];
    }
  }

  lemma SameFirstBlock(bs: seq<Block>, cs: seq<Block>, limit: nat)
    requires Wf(bs, limit) && Wf(cs, limit) && |bs| > 0 && |cs| > 0
    requires forall x :: IsFree(bs, x) <==> IsFree(cs, x)
    ensures bs[0] == cs[0]
  {
    FirstBlockStart(bs, cs, limit);
    FirstBlockStart(cs, bs, limit);
    FirstBlockEnd(bs, cs, limit);
    FirstBlockEnd(cs, bs, limit);
  }

  lemma SameTails(bs: seq<Block>, cs: seq<Block>, limit: nat)
    requires Wf(bs, limit) && Wf(cs, limit) && |bs| > 0 && |cs| > 0 && bs[0] == cs[0]
    requires forall x :: IsFree(bs, x) <==> IsFree(cs, x)
    ensures Wf(bs[1..], limit) && Wf(cs[1..], limit)
    ensures forall x :: IsFree(bs[1..], x) <==> IsFree(cs[1..], x)
  {
    forall x ensures IsFree(bs[1..], x) <==> IsFree(cs[1..], x) {
      TailFree(bs, limit, x);
      TailFree(cs, limit, x);
    }
  }

  lemma EmptyHasNoBlocks(bs: seq<Block>, cs: seq<Block>, limit: nat)
    requires Wf(cs, limit)
    requires forall x :: IsFree(bs, x) <==> IsFree(cs, x)
    ensures |bs| == 0 ==> |cs| == 0
  {
    if |cs| > 0 {
      assert cs[0].Covers(cs[0].offset);
      assert IsFree(cs, cs[0].offset);
    }
  }

  lemma TailFree(bs: seq<Block>, limit: nat, x: int)
    requires Wf(bs, limit) && |bs| > 0
    ensures IsFree(bs[1..], x) <==> IsFree(bs, x) && !bs[0].Covers(x)
  {
    if IsFree(bs[1..], x) {
      var k :| 0 <= k < |bs[1..]| && bs[1..][k].Covers(x);
      assert bs[k + 1].Covers(x);
      assert bs[0].End() < bs[k + 1].offset;
    }
    if IsFree(bs, x) && !bs[0].Covers(x) {
      var k :| 0 <= k < |bs| && bs[k].Covers(x);
      assert bs[1..][k - 1].Covers(x);
    }
  }

  lemma FirstBlockStart(bs: seq<Block>, cs: seq<Block>, limit: nat)
    requires Wf(bs, limit) && Wf(cs, limit) && |bs| > 0 && |cs| > 0
    requires forall x :: IsFree(bs, x) <==> IsFree(cs, x)
    ensures cs[0].offset <= bs[0].offset
  {
    assert bs[0].Covers(bs[0].offset);
    assert IsFree(cs, bs[0].offset);
    var k :| 0 <= k < |cs| && cs[k].Covers(bs[0].offset);
    if k > 0 { assert cs[0].End() < cs[k].offset; }
  }

  lemma EndIsUsed(cs: seq<Block>, limit: nat)
    requires Wf(cs, limit) && |cs| > 0
    ensures !IsFree(cs, cs[0].End())
  {
    forall k | 0 <= k < |cs| ensures !cs[k].Covers(cs[0].End()) {
      if k > 0 { assert cs[0].End() < cs[k].offset; }
    }
  }

  lemma FirstBlockEnd(bs: seq<Block>, cs: seq<Block>, limit: nat)
    requires Wf(bs, limit) && Wf(cs, limit) && |bs| > 0 && |cs| > 0
    requires forall x :: IsFree(bs, x) <==> IsFree(cs, x)
    requires bs[0].offset == cs[0].offset
    ensures bs[0].End() <= cs[0].End()
  {
    var x := cs[0].End();
    EndIsUsed(cs, limit);
    if x < bs[0].End() { assert bs[0].Covers(x); }
  }

  /** Freeing a range and carving it again from where it landed, or the reverse, is the identity on the list. */
  lemma CarveThenRelease(bs: seq<Block>, limit: nat, i: nat, size: nat)
    requires Wf(bs, limit) && i < |bs| && 0 < size <= bs[i].size
    ensures var r := Release(Carve(bs, i, size), bs[i].offset, size);
            r.Some? ==> r.value == bs
  {
    CarveMeaning(bs, limit, i, size);
    var cs := Carve(bs, i, size);
    ReleaseMeaning(cs, limit, bs[i].offset, size);
    var r := Release(cs, bs[i].offset, size);
    if r.Some? { Canonical(r.value, bs, limit); }
  }

  /** An empty range that touches a block leaves the list as it was. */
  lemma EmptyJoin(bs: seq<Block>, limit: nat, i: nat, offset: nat)
    requires Wf(bs, limit) && i < |bs| && Touches(bs, offset, 0, i)
    ensures Join(bs, i, offset, 0) == bs
  {
  }

  lemma EmptyInsert(bs: seq<Block>, limit: nat, offset: nat)
    ensures !Wf(InsertBlock(bs, offset, 0), limit)
  {
    var p := InsertPos(bs, offset, 0);
    assert InsertBlock(bs, offset, 0)[p].size == 0;
  }

  /** Why sizes must not be zero: giving back an empty range keeps the list well formed (and unchanged) exactly when the
      range starts where a free block starts or ends; anywhere else it leaves an empty block behind. */
  lemma EmptyReleaseExactly(bs: seq<Block>, limit: nat, offset: nat)
    requires Wf(bs, limit) && Release(bs, offset, 0).Some?
    ensures var touched := exists i :: 0 <= i < |bs| && Touches(bs, offset, 0, i);
            && (touched <==> TouchPos(bs, offset, 0, 0) < |bs|)
            && (Wf(Release(bs, offset, 0).value, limit) <==> touched)
            && (touched ==> Release(bs, offset, 0).value == bs)
  {
    var p := TouchPos(bs, offset, 0, 0);
    if p < |bs| {
      EmptyJoin(bs, limit, p, offset);
    } else {
      EmptyInsert(bs, limit, offset);
    }
  }

  /** The failing side is met: an empty range between two used bytes leaves an empty block. */
  lemma EmptyRangeBreaksTheList()
    ensures Wf([Block(64, 64)], 128) && RangeUsed([Block(64, 64)], 32, 32)
    ensures Release([Block(64, 64)], 32, 0) == Some([Block(32, 0), Block(64, 64)])
    ensures !Wf([Block(32, 0), Block(64, 64)], 128)
  {
    var bs := [Block(64, 64)];
    assert !Touches(bs, 32, 0, 0);
    assert InsertPos(bs, 32, 0) == 0;
    assert InsertBlock(bs, 32, 0) == [Block(32, 0), Block(64, 64)];
    EmptyReleaseExactly(bs, 128, 32);
  }
}
