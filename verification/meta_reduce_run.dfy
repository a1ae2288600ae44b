/** The fallback all-reduce as it runs: copies into temporaries, additions in place, graphs and nodes taken from the
    auxiliary pools. */
module MetaReduceRun {
  import opened Arithmetic
  import opened MetaReduce

  lemma {:induction false} XorTwice(a: nat, b: nat)
    ensures Xor(Xor(a, b), b) == a
    decreases a + b
  {
    if a != 0 || b != 0 {
      XorTwice(a / 2, b / 2);
      var x := Xor(a, b);
      assert x / 2 == Xor(a / 2, b / 2) && x % 2 == if a % 2 == b % 2 then 0 else 1;
    }
  }

  lemma PartnerTwice(j: nat, r: nat)
    ensures Partner(Partner(j, r), r) == j && Partner(j, r) != j
  {
    XorTwice(j, Pow2(r));
    PartnerMeaning(j, r);
  }

  function Count(marked: seq<bool>): nat {
    if marked == [] then 0 else Count(marked[..|marked| - 1]) + if marked[|marked| - 1] then 1 else 0
  }

  lemma {:induction false} CountBound(marked: seq<bool>)
    ensures Count(marked) <= |marked|
  {
    if marked != [] { CountBound(marked[..|marked| - 1]); }
  }

  lemma {:induction false} CountMark(marked: seq<bool>, j: nat)
    requires j < |marked| && !marked[j]
    ensures Count(marked[j := true]) == Count(marked) + 1
  {
    var n := |marked| - 1;
    if j < n {
      CountMark(marked[..n], j);
      assert marked[j := true][..n] == marked[..n][j := true];
    } else {
      assert marked[j := true][..n] == marked[..n];
    }
  }

  lemma {:induction false} CountNone(n: nat, marked: seq<bool>)
    requires |marked| == n && forall j :: 0 <= j < n ==> !marked[j]
    ensures Count(marked) == 0
  {
    if n > 0 { CountNone(n - 1, marked[..n - 1]); }
  }

  /** Which devices have an addition graph once the devices below cur have been looked at. */
  ghost predicate Marks(marked: seq<bool>, cur: nat, r: nat) {
    forall j ::
      0 <= j < |marked| ==>
        (marked[j] <==> Partner(j, r) < |marked| && (j < cur || Partner(j, r) < cur) && (Partner(j, r) < j ==> j < cur)
                        && (j < Partner(j, r) ==> Partner(j, r) < cur))
  }

  /** The counters for graphs and nodes start at zero on every graph computation. */
  class Reducer {
    const held: array<real>
    const graphs: nat
    const nodes: nat
    var iga: nat
    var ina: nat

    /** The pools hold one graph and two nodes per device, step and subgraph. */
    constructor (held: array<real>, maxSubgraphs: nat)
      ensures this.held == held && iga == 0 && ina == 0
      ensures graphs == Pool(held.Length, maxSubgraphs) && nodes == 2 * Pool(held.Length, maxSubgraphs)
    {
      this.held := held;
      graphs := Pool(held.Length, maxSubgraphs);
      nodes := 2 * Pool(held.Length, maxSubgraphs);
      iga, ina := 0, 0;
    }

    /** Pairs up the devices of one round and copies what each receives; returns the copies and the devices that will
        add. */
    method Exchange(ghost r: nat, offset: nat, tmp: array<real>, marked: array<bool>)
      requires tmp.Length == marked.Length == held.Length && tmp != held && offset == Pow2(r)
      requires iga + held.Length <= graphs && ina + 2 * held.Length <= nodes
      modifies tmp, marked, `iga, `ina
      ensures old(iga) <= iga <= old(iga) + held.Length && ina - old(ina) == 2 * (iga - old(iga))
      ensures iga == old(iga) + Count(marked[..])
      ensures forall j :: 0 <= j < held.Length ==> (marked[j] <==> Partner(j, r) < held.Length)
      ensures forall j :: 0 <= j < held.Length && marked[j] ==> tmp[j] == held[Partner(j, r)]
    {
      hide Partner;
      hide Xor;
      hide Pow2;
      hide Marks;
      var n := held.Length;
      Unmark(marked);
      CountNone(n, marked[..]);
      NoMarks(marked[..], r);
      var j := 0;
      while j < n
        invariant j <= n && Marks(marked[..], j, r)
        invariant forall d :: 0 <= d < n && marked[d] ==> Partner(d, r) < n && tmp[d] == held[Partner(d, r)]
        invariant iga == old(iga) + Count(marked[..]) && ina == old(ina) + 2 * Count(marked[..])
      {
        var other := Xor(j, offset);
        PartnerIs(j, r, offset);
        PartnerTwice(j, r);
        ghost var before := marked[..];
        if other < j {
          StillUnmarked(before, j, r);
          CountPair(before, j, other);
          TakePair(j, other, tmp, marked);
        }
        MarksStep(before, marked[..], j, r);
        j := j + 1;
      }
      CountBound(marked[..]);
      AllMarks(marked[..], r);
    }

    /** Four nodes and two graphs for a pair: the temporaries and the additions of both devices. */
    method TakePair(j: nat, other: nat, tmp: array<real>, marked: array<bool>)
      requires tmp.Length == marked.Length == held.Length && tmp != held && other < j < held.Length
      requires iga + 2 <= graphs && ina + 4 <= nodes
      modifies tmp, marked, `iga, `ina
      ensures iga == old(iga) + 2 && ina == old(ina) + 4
      ensures tmp[..] == old(tmp[..])[other := held[j]][j := held[other]]
      ensures marked[..] == old(marked[..])[j := true][other := true]
    {
      tmp[other] := held[j];
      tmp[j] := held[other];
      ina := ina + 4;
      iga := iga + 2;
      marked[j] := true;
      marked[other] := true;
    }

    /** The additions of one round. */
    method Add(tmp: array<real>, marked: array<bool>)
      requires tmp.Length == marked.Length == held.Length && tmp != held
      modifies held
      ensures forall j :: 0 <= j < held.Length ==> held[j] == if marked[j] then old(held[j]) + tmp[j] else old(held[j])
    {
      var j := 0;
      while j < held.Length
        invariant j <= held.Length
        invariant forall d :: 0 <= d < held.Length ==>
                  held[d] == if d < j && marked[d] then old(held[d]) + tmp[d] else old(held[d])
      {
        if marked[j] { held[j] := held[j] + tmp[j]; }
        j := j + 1;
      }
    }

    /** One all-reduce. It takes at most one graph and two nodes per device and step. */
    method Fallback()
      requires iga + held.Length * Steps(held.Length) <= graphs && ina + 2 * (held.Length * Steps(held.Length)) <= nodes
      modifies this, held
      ensures held[..] == AllReduce(old(held[..]))
      ensures iga <= old(iga) + held.Length * Steps(held.Length) && ina - old(ina) == 2 * (iga - old(iga))
    {
      hide Partner;
      hide Steps;
      hide Count;
      hide Pow2;
      hide Rounds;
      hide Round;
      var n := held.Length;
      FirstRound(held[..]);
      var tmp, marked := new real[n], new bool[n];
      var offset := 1;
      ghost var r: nat, v := 0, held[..];
      NoMoreSteps(n, 0);
      while offset < n
        invariant offset == Pow2(r) && r <= Steps(n) && (offset >= n ==> r == Steps(n))
        invariant held[..] == Rounds(v, r)
        invariant iga <= old(iga) + n * r && ina - old(ina) == 2 * (iga - old(iga))
        decreases Steps(n) - r
      {
        StepsAhead(n, r);
        RoomForRound(n, r, Steps(n));
        ghost var before := held[..];
        Exchange(r, offset, tmp, marked);
        Add(tmp, marked);
        RoundIs(before, held[..], tmp[..], marked[..], r);
        NextRound(v, r);
        r := r + 1;
        offset := offset * 2;
        NoMoreSteps(n, r);
      }
    }
  }

  method Unmark(marked: array<bool>)
    modifies marked
    ensures forall j :: 0 <= j < marked.Length ==> !marked[j]
  {
    var k := 0;
    while k < marked.Length
      invariant k <= marked.Length && forall j :: 0 <= j < k ==> !marked[j]
    {
      marked[k] := false;
      k := k + 1;
    }
  }

  lemma FirstRound(v: seq<real>)
    ensures Rounds(v, 0) == v && Pow2(0) == 1
  {
  }

  lemma NextRound(v: seq<real>, r: nat)
    ensures var next := r + 1; Rounds(v, next) == Round(Rounds(v, r), r) && Pow2(next) == 2 * Pow2(r)
  {
  }

  lemma PartnerIs(j: nat, r: nat, offset: nat)
    requires offset == Pow2(r)
    ensures Xor(j, offset) == Partner(j, r)
  {
  }

  lemma StillUnmarked(marked: seq<bool>, j: nat, r: nat)
    requires Marks(marked, j, r) && j < |marked| && Partner(Partner(j, r), r) == j && Partner(j, r) < j
    ensures !marked[j] && !marked[Partner(j, r)]
  {
  }

  lemma CountPair(before: seq<bool>, j: nat, other: nat)
    requires j < |before| && other < |before| && j != other && !before[j] && !before[other]
    ensures Count(before[j := true][other := true]) == Count(before) + 2 <= |before|
  {
    CountMark(before, j);
    CountMark(before[j := true], other);
    CountBound(before[j := true][other := true]);
  }

  lemma RoundIs(before: seq<real>, after: seq<real>, tmp: seq<real>, marked: seq<bool>, r: nat)
    requires |before| == |after| == |tmp| == |marked|
    requires forall j :: 0 <= j < |marked| ==> (marked[j] <==> Partner(j, r) < |marked|)
    requires forall j :: 0 <= j < |marked| && marked[j] ==> tmp[j] == before[Partner(j, r)]
    requires forall j :: 0 <= j < |after| ==> after[j] == if marked[j] then before[j] + tmp[j] else before[j]
    ensures after == Round(before, r)
  {
    hide Partner;
  }

  function Pool(n: nat, maxSubgraphs: nat): nat {
    n * Steps(n) * maxSubgraphs
  }

  lemma NoMarks(marked: seq<bool>, r: nat)
    requires forall j :: 0 <= j < |marked| ==> !marked[j]
    ensures Marks(marked, 0, r)
  {
  }

  lemma MarksStep(before: seq<bool>, after: seq<bool>, j: nat, r: nat)
    requires Marks(before, j, r) && j < |before| && Partner(Partner(j, r), r) == j && Partner(j, r) != j
    requires after == if Partner(j, r) < j then before[j := true][Partner(j, r) := true] else before
    ensures var next := j + 1; Marks(after, next, r)
  {
    hide Partner;
    forall d | 0 <= d < |after| && Partner(d, r) == j ensures d == Partner(j, r) {
      PartnerTwice(d, r);
    }
  }

  lemma AllMarks(marked: seq<bool>, r: nat)
    requires Marks(marked, |marked|, r)
    ensures forall j :: 0 <= j < |marked| ==> (marked[j] <==> Partner(j, r) < |marked|)
  {
    hide Partner;
  }

  /** While the offset is below n there is a step left. */
  lemma StepsAhead(n: nat, r: nat)
    requires Pow2(r) < n
    ensures r < Steps(n)
  {
    var s := Steps(n);
    if s <= r { PowGrows(s, r); }
  }

  lemma NoMoreSteps(n: nat, r: nat)
    requires r <= Steps(n)
    ensures Pow2(r) >= n ==> r == Steps(n)
  {
    var s := Steps(n);
    StepsBound(n);
    if r < s { PowGrows(r, s - 1); }
  }

  lemma RoomForRound(n: nat, r: nat, steps: nat)
    requires r < steps
    ensures n * r + n <= n * steps && n * (r + 1) == n * r + n
  {
    assert n * (steps - r) >= n;
  }

  /** All all-reduces of one graph computation: one after every subgraph but the last. */
  method ReduceAll(rd: Reducer, nSubgraphs: nat, maxSubgraphs: nat)
    requires 1 <= nSubgraphs <= maxSubgraphs && rd.iga == 0 && rd.ina == 0
    requires rd.graphs == Pool(rd.held.Length, maxSubgraphs) && rd.nodes == 2 * Pool(rd.held.Length, maxSubgraphs)
    modifies rd, rd.held
    ensures rd.iga <= rd.graphs && rd.ina <= rd.nodes
  {
    hide Steps;
    var i, n := 0, rd.held.Length;
    while i < nSubgraphs - 1
      invariant 0 <= i <= nSubgraphs - 1
      invariant rd.iga <= i * (n * Steps(n)) && rd.ina == 2 * rd.iga
    {
      RoomForReduce(n * Steps(n), i, maxSubgraphs);
      rd.Fallback();
      i := i + 1;
    }
    RoomForReduce(n * Steps(n), i, maxSubgraphs);
  }

  lemma RoomForReduce(perReduce: nat, i: nat, maxSubgraphs: nat)
    requires i < maxSubgraphs
    ensures i * perReduce + perReduce <= perReduce * maxSubgraphs && (i + 1) * perReduce == i * perReduce + perReduce
  {
    MulMonotone(i + 1, maxSubgraphs, perReduce);
    assert (i + 1) * perReduce == i * perReduce + perReduce;
  }
}
