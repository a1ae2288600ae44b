/** Who owns which bytes: the memory invariant behind the planner, independent of the graph. */
module PlannerMemory {
  import opened Wrappers
  import opened Alignment
  import opened FreeList
  import opened TensorAlloc

  /** A padded range in allocator `pool`. */
  datatype Range = Range(pool: nat, addr: Address, size: nat)

  ghost function Without(own: map<nat, Range>, t: nat): map<nat, Range> {
    map v | v in own && v != t :: own[v]
  }

  ghost predicate Covers(r: Range, i: int, c: int, x: int) {
    i == r.pool && InRange(c, x, r.addr, r.size)
  }

  ghost predicate Apart(a: Range, b: Range) {
    a.pool != b.pool || a.addr.chunk != b.addr.chunk
    || a.addr.offset + a.size <= b.addr.offset || b.addr.offset + b.size <= a.addr.offset
  }

  ghost predicate Placed(pools: seq<Talloc>, r: Range) {
    && r.pool < |pools| && pools[r.pool].alignment > 0
    && r.size > 0 && WithinChunk(pools[r.pool], r.addr, r.size)
    && r.addr.offset % pools[r.pool].alignment == 0 && r.size % pools[r.pool].alignment == 0
  }

  ghost predicate SomeoneCovers(own: map<nat, Range>, i: int, c: int, x: int) {
    exists t :: t in own && Covers(own[t], i, c, x)
  }

  ghost predicate Tiles(pools: seq<Talloc>, own: map<nat, Range>) {
    forall i, c, x :: 0 <= i < |pools| ==> (Used(pools[i], c, x) <==> SomeoneCovers(own, i, c, x))
  }

  /** Owned ranges are well placed and pairwise disjoint, and the used bytes are exactly theirs. */
  ghost predicate MemInv(pools: seq<Talloc>, own: map<nat, Range>) {
    && (forall i :: 0 <= i < |pools| ==> Inv(pools[i]))
    && (forall t :: t in own ==> Placed(pools, own[t]))
    && (forall t, u :: t in own && u in own && t != u ==> Apart(own[t], own[u]))
    && Tiles(pools, own)
  }

  lemma OwnedIsUsed(pools: seq<Talloc>, own: map<nat, Range>, t: nat, x: int)
    requires MemInv(pools, own) && t in own && own[t].addr.offset <= x < own[t].addr.offset + own[t].size
    ensures own[t].pool < |pools| && Used(pools[own[t].pool], own[t].addr.chunk, x)
  {
    assert Placed(pools, own[t]);
    assert Covers(own[t], own[t].pool, own[t].addr.chunk, x);
    assert SomeoneCovers(own, own[t].pool, own[t].addr.chunk, x);
  }

  lemma UnusedIsApart(pools: seq<Talloc>, own: map<nat, Range>, r: Range, t: nat)
    requires MemInv(pools, own) && t in own && r.pool < |pools| && r.size > 0
    requires forall x :: r.addr.offset <= x < r.addr.offset + r.size ==> !Used(pools[r.pool], r.addr.chunk, x)
    ensures Apart(r, own[t])
  {
    var q := own[t];
    assert Placed(pools, q);
    if !Apart(r, q) {
      var x := Max(r.addr.offset, q.addr.offset);
      OwnedIsUsed(pools, own, t, x);
    }
  }

  // ---------------------------------------------------------------- a new owner of fresh bytes

  lemma TilesAfterAlloc(pools: seq<Talloc>, own: map<nat, Range>, t: nat, r: Range, u: Talloc)
    requires Tiles(pools, own) && t !in own && r.pool < |pools|
    requires forall c, x :: Used(u, c, x) <==> Used(pools[r.pool], c, x) || InRange(c, x, r.addr, r.size)
    ensures Tiles(pools[r.pool := u], own[t := r])
  {
    var pools', own' := pools[r.pool := u], own[t := r];
    forall i, c, x | 0 <= i < |pools'| ensures Used(pools'[i], c, x) <==> SomeoneCovers(own', i, c, x) {
      if Covers(r, i, c, x) {
        assert t in own' && Covers(own'[t], i, c, x);
      } else if SomeoneCovers(own, i, c, x) {
        var v :| v in own && Covers(own[v], i, c, x);
        assert v in own' && Covers(own'[v], i, c, x);
      } else {
        forall v | v in own' ensures !Covers(own'[v], i, c, x) {
          if v != t { assert v in own && !Covers(own[v], i, c, x); }
        }
      }
    }
  }

  lemma PlacedStays(pools: seq<Talloc>, i: nat, u: Talloc, r: Range)
    requires i < |pools| && Placed(pools, r) && u.alignment == pools[i].alignment
    requires |pools[i].chunks| <= |u.chunks|
    requires forall c :: 0 <= c < |pools[i].chunks| ==> u.chunks[c].limit == pools[i].chunks[c].limit
    ensures Placed(pools[i := u], r)
  {
  }

  ghost predicate LiveRanges(pools: seq<Talloc>, own: map<nat, Range>) {
    && (forall t :: t in own ==> Placed(pools, own[t]))
    && (forall t, u :: t in own && u in own && t != u ==> Apart(own[t], own[u]))
  }

  lemma RangesAfterAlloc(pools: seq<Talloc>, own: map<nat, Range>, t: nat, r: Range, u: Talloc)
    requires MemInv(pools, own) && t !in own && r.pool < |pools| && u.alignment == pools[r.pool].alignment
    requires forall x :: r.addr.offset <= x < r.addr.offset + r.size ==> !Used(pools[r.pool], r.addr.chunk, x)
    requires |pools[r.pool].chunks| <= |u.chunks|
    requires forall c :: 0 <= c < |pools[r.pool].chunks| ==> u.chunks[c].limit == pools[r.pool].chunks[c].limit
    requires Placed(pools[r.pool := u], r)
    ensures LiveRanges(pools[r.pool := u], own[t := r])
  {
    forall v | v in own ensures Apart(r, own[v]) && Placed(pools[r.pool := u], own[v]) {
      UnusedIsApart(pools, own, r, v);
      PlacedStays(pools, r.pool, u, own[v]);
    }
  }

  lemma MemAlloc(pools: seq<Talloc>, own: map<nat, Range>, t: nat, i: nat, request: nat)
    requires MemInv(pools, own) && t !in own && i < |pools| && pools[i].alignment > 0
    requires 0 < request && AlignUp(request, pools[i].alignment) <= HALF_MAX
    requires Alloc(pools[i], request).Some?
    ensures var (u, addr) := Alloc(pools[i], request).value;
            MemInv(pools[i := u], own[t := Range(i, addr, AlignUp(request, pools[i].alignment))])
  {
    var (u, addr) := Alloc(pools[i], request).value;
    var r := Range(i, addr, AlignUp(request, pools[i].alignment));
    AllocMeaning(pools[i], request);
    TilesAfterAlloc(pools, own, t, r, u);
    RangesAfterAlloc(pools, own, t, r, u);
  }

  // ---------------------------------------------------------------- bytes given back

  /** The owner t keeps a prefix of its range (possibly none of it) and gives back the rest. */
  lemma TilesAfterFree(pools: seq<Talloc>, own: map<nat, Range>, own': map<nat, Range>, t: nat, addr: Address,
                       size: nat, u: Talloc)
    requires Tiles(pools, own) && t in own && own[t].pool < |pools|
    requires forall v :: v in own && v != t ==> v in own' && own'[v] == own[v] && Apart(own[v], own[t])
    requires forall v :: v in own' ==> v in own
    requires forall c, x :: InRange(c, x, addr, size) ==> Covers(own[t], own[t].pool, c, x)
    requires forall i, c, x :: (t in own' && Covers(own'[t], i, c, x)) <==>
                                Covers(own[t], i, c, x) && !InRange(c, x, addr, size)
    requires forall c, x :: Used(u, c, x) <==> Used(pools[own[t].pool], c, x) && !InRange(c, x, addr, size)
    ensures Tiles(pools[own[t].pool := u], own')
  {
    var p := own[t].pool;
    var pools' := pools[p := u];
    forall i, c, x | 0 <= i < |pools'| ensures Used(pools'[i], c, x) <==> SomeoneCovers(own', i, c, x) {
      if SomeoneCovers(own, i, c, x) && !(i == p && InRange(c, x, addr, size)) {
        var v :| v in own && Covers(own[v], i, c, x);
        assert v in own' && Covers(own'[v], i, c, x);
      }
      if SomeoneCovers(own', i, c, x) {
        var v :| v in own' && Covers(own'[v], i, c, x);
        assert v in own && Covers(own[v], i, c, x);
        if v != t { assert Apart(own[v], own[t]); }
      }
    }
  }

  lemma MemFree(pools: seq<Talloc>, own: map<nat, Range>, t: nat, request: nat)
    requires MemInv(pools, own) && t in own && 0 < request
    requires own[t].pool < |pools| && pools[own[t].pool].alignment > 0
             && own[t].addr.chunk < |pools[own[t].pool].chunks|
    requires own[t].size == AlignUp(request, pools[own[t].pool].alignment)
    requires FreeBytes(pools[own[t].pool], own[t].addr, request).Some?
    ensures MemInv(pools[own[t].pool := FreeBytes(pools[own[t].pool], own[t].addr, request).value], Without(own, t))
  {
    var r := own[t];
    var u := FreeBytes(pools[r.pool], r.addr, request).value;
    assert Placed(pools, r);
    forall x | r.addr.offset <= x < r.addr.offset + r.size ensures Used(pools[r.pool], r.addr.chunk, x) {
      OwnedIsUsed(pools, own, t, x);
    }
    FreeMeaning(pools[r.pool], r.addr, request);
    TilesAfterFree(pools, own, Without(own, t), t, r.addr, r.size, u);
    forall v | v in own && v != t ensures Placed(pools[r.pool := u], own[v]) {
      PlacedStays(pools, r.pool, u, own[v]);
    }
  }

  /** Ownership of a range moves from p to t. */
  lemma MemHandOver(pools: seq<Talloc>, own: map<nat, Range>, p: nat, t: nat)
    requires MemInv(pools, own) && p in own && t !in own
    ensures MemInv(pools, Without(own, p)[t := own[p]])
  {
    var own' := Without(own, p)[t := own[p]];
    forall i, c, x | 0 <= i < |pools| ensures Used(pools[i], c, x) <==> SomeoneCovers(own', i, c, x) {
      if SomeoneCovers(own, i, c, x) {
        var v :| v in own && Covers(own[v], i, c, x);
        var v' := if v == p then t else v;
        assert v' in own' && Covers(own'[v'], i, c, x);
      }
      if SomeoneCovers(own', i, c, x) {
        var v :| v in own' && Covers(own'[v], i, c, x);
        var v' := if v == t then p else v;
        assert v' in own && Covers(own[v'], i, c, x);
      }
    }
  }

  lemma TailIsFreeable(pools: seq<Talloc>, own: map<nat, Range>, t: nat, keep: nat)
    requires MemInv(pools, own) && t in own && 0 < keep < own[t].size
    requires own[t].pool < |pools| && pools[own[t].pool].alignment > 0
    requires keep % pools[own[t].pool].alignment == 0
    ensures var r := own[t];
            var tail, extra, pool := Address(r.addr.chunk, r.addr.offset + keep), r.size - keep, pools[r.pool];
            && AlignUp(extra, pool.alignment) == extra
            && WithinChunk(pool, tail, extra) && tail.offset % pool.alignment == 0
            && forall x :: tail.offset <= x < tail.offset + extra ==> Used(pool, tail.chunk, x)
  {
    var r := own[t];
    assert Placed(pools, r);
    DifferenceOfMultiples(r.size, keep, pools[r.pool].alignment);
    AlignUpFixed(r.size - keep, pools[r.pool].alignment);
    SumOfMultiples(r.addr.offset, keep, pools[r.pool].alignment);
    forall x | r.addr.offset + keep <= x < r.addr.offset + r.size ensures Used(pools[r.pool], r.addr.chunk, x) {
      OwnedIsUsed(pools, own, t, x);
    }
  }

  lemma RangesAfterShrink(pools: seq<Talloc>, own: map<nat, Range>, t: nat, keep: nat, u: Talloc)
    requires MemInv(pools, own) && t in own && 0 < keep < own[t].size
    requires own[t].pool < |pools| && u.alignment == pools[own[t].pool].alignment > 0
    requires keep % pools[own[t].pool].alignment == 0
    requires |pools[own[t].pool].chunks| == |u.chunks|
    requires forall c :: 0 <= c < |u.chunks| ==> u.chunks[c].limit == pools[own[t].pool].chunks[c].limit
    ensures LiveRanges(pools[own[t].pool := u], own[t := Range(own[t].pool, own[t].addr, keep)])
  {
    var own' := own[t := Range(own[t].pool, own[t].addr, keep)];
    forall v | v in own ensures Placed(pools[own[t].pool := u], own'[v]) {
      assert Placed(pools, own[v]);
      PlacedStays(pools, own[t].pool, u, own[v]);
    }
    forall v, w | v in own' && w in own' && v != w ensures Apart(own'[v], own'[w]) {
      assert Apart(own[v], own[w]);
    }
  }

  /** The owner t gives back the tail of its range. */
  lemma MemShrink(pools: seq<Talloc>, own: map<nat, Range>, t: nat, keep: nat)
    requires MemInv(pools, own) && t in own && 0 < keep < own[t].size
    requires own[t].pool < |pools| && pools[own[t].pool].alignment > 0
             && own[t].addr.chunk < |pools[own[t].pool].chunks|
    requires keep % pools[own[t].pool].alignment == 0
    requires FreeBytes(pools[own[t].pool], Address(own[t].addr.chunk, own[t].addr.offset + keep),
             own[t].size - keep).Some?
    ensures var r := own[t];
            var u := FreeBytes(pools[r.pool], Address(r.addr.chunk, r.addr.offset + keep), r.size - keep).value;
            MemInv(pools[r.pool := u], own[t := Range(r.pool, r.addr, keep)])
  {
    var r := own[t];
    var tail, extra := Address(r.addr.chunk, r.addr.offset + keep), r.size - keep;
    var u := FreeBytes(pools[r.pool], tail, extra).value;
    TailIsFreeable(pools, own, t, keep);
    FreeMeaning(pools[r.pool], tail, extra);
    TilesAfterFree(pools, own, own[t := Range(r.pool, r.addr, keep)], t, tail, extra, u);
    RangesAfterShrink(pools, own, t, keep, u);
  }
}
