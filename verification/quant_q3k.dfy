/** Q3_K scales (CGGML/ggml-quants.c): sixteen 6-bit scales spread over twelve bytes, and their word-parallel
    unpacking. */
module QuantQ3K {
  import opened QuantBytes

  // ---------------------------------------------------------------- packing

  ghost predicate Scales(l: seq<bv8>) {
    |l| == 16 && forall j :: 0 <= j < 16 ==> l[j] < 64
  }

  /** Byte k < 8 after the first n scales: low halves of scales k and k + 8. */
  function LowByte(l: seq<bv8>, k: nat, n: nat): bv8
    requires |l| == 16 && k < 8
  {
    if n <= k then 0 else if n <= k + 8 then Low4(l[k]) else Or(Low4(l[k]), Up4(Low4(l[k + 8])))
  }

  /** Byte 8 + k after the first n scales: high pairs of scales k, k + 4, k + 8 and k + 12. */
  function HighByte(l: seq<bv8>, k: nat, n: nat): bv8
    requires |l| == 16 && k < 4
  {
    if n <= k then 0
    else if n <= k + 4 then Or(0, Left(High4(l[k]), 0))
    else if n <= k + 8 then Or(Or(0, Left(High4(l[k]), 0)), Left(High4(l[k + 4]), 1))
    else if n <= k + 12 then Or(Or(Or(0, Left(High4(l[k]), 0)), Left(High4(l[k + 4]), 1)), Left(High4(l[k + 8]), 2))
    else Or(Or(Or(Or(0, Left(High4(l[k]), 0)), Left(High4(l[k + 4]), 1)), Left(High4(l[k + 8]), 2)),
         Left(High4(l[k + 12]), 3))
  }

  /** Byte k after the first n scales. */
  function PackedByte(l: seq<bv8>, k: nat, n: nat): bv8
    requires |l| == 16 && k < 12
  {
    if k < 8 then LowByte(l, k, n) else HighByte(l, k - 8, n)
  }

  ghost predicate Packed(s: seq<bv8>, l: seq<bv8>, n: nat)
    requires |s| == 12 && |l| == 16
  {
    forall k :: 0 <= k < 12 ==> s[k] == PackedByte(l, k, n)
  }

  lemma Step(l: seq<bv8>, k: nat, j: nat)
    requires |l| == 16 && k < 12 && j < 16
    ensures k == j && j < 8 ==> PackedByte(l, k, j + 1) == Low4(l[j])
    ensures k == j - 8 ==> PackedByte(l, k, j + 1) == Or(PackedByte(l, k, j), Up4(Low4(l[j])))
    ensures k == 8 + j % 4 ==> PackedByte(l, k, j + 1) == Or(PackedByte(l, k, j), Left(High4(l[j]), j / 4))
    ensures k != j && k != j - 8 && k != 8 + j % 4 ==> PackedByte(l, k, j + 1) == PackedByte(l, k, j)
  {
    hide Or;
    hide Low4;
    hide High4;
    hide Up4;
    hide Left;
  }

  method PackScales(l: seq<bv8>, s: array<bv8>)
    requires |l| == 16 && s.Length == 12
    modifies s
    ensures Packed(s[..], l, 16)
  {
    hide *;
    var k := 0;
    while k < 12
      invariant k <= 12 && forall i :: 0 <= i < k ==> s[i] == 0
    {
      s[k] := 0;
      k := k + 1;
    }
    NothingPacked(s[..], l);
    var j := 0;
    while j < 16
      invariant 0 <= j <= 16 && Packed(s[..], l, j)
    {
      PackOne(l, s, j);
      j := j + 1;
    }
  }

  method PackOne(l: seq<bv8>, s: array<bv8>, j: nat)
    requires |l| == 16 && s.Length == 12 && j < 16 && Packed(s[..], l, j)
    modifies s
    ensures Packed(s[..], l, j + 1)
  {
    hide Or;
    hide Low4;
    hide High4;
    hide Up4;
    hide Left;
    hide PackedByte;
    ghost var before := s[..];
    if j < 8 {
      s[j] := Low4(l[j]);
    } else {
      s[j - 8] := Or(s[j - 8], Up4(Low4(l[j])));
    }
    s[8 + j % 4] := Or(s[8 + j % 4], Left(High4(l[j]), j / 4));
    forall k | 0 <= k < 12 ensures s[k] == PackedByte(l, k, j + 1) {
      Step(l, k, j);
    }
  }

  lemma NothingPacked(s: seq<bv8>, l: seq<bv8>)
    requires |s| == 12 && |l| == 16 && forall i :: 0 <= i < 12 ==> s[i] == 0
    ensures Packed(s, l, 0)
  {
    hide Or;
    hide Left;
  }

  // ---------------------------------------------------------------- unpacking one by one

  /** A low half and the byte whose lowest pair is the high part. */
  function Scale(low: bv8, pair: bv8): bv8 {
    low | ((pair & 3) << 4)
  }

  /** One scale, read from its two bytes. */
  function ScalarScale(s: seq<bv8>, j: nat): bv8
    requires |s| == 12 && j < 16
  {
    Scale(if j < 8 then Low4(s[j]) else High4(s[j - 8]), Right(s[8 + j % 4], j / 4))
  }

  /** The high part of any of four scales, next to its low half. */
  lemma HighPairs(a: bv8, b: bv8, c: bv8, d: bv8)
    requires a < 64 && b < 64 && c < 64 && d < 64
    ensures var h := Or(Or(Or(Or(0, Left(High4(a), 0)), Left(High4(b), 1)), Left(High4(c), 2)), Left(High4(d), 3));
      Scale(Low4(a), Right(h, 0)) == a && Scale(Low4(b), Right(h, 1)) == b && Scale(Low4(c), Right(h, 2)) == c
        && Scale(Low4(d), Right(h, 3)) == d
  {
  }

  /** Every scale comes back. */
  lemma ScaleRoundTrip(l: seq<bv8>, s: seq<bv8>, j: nat)
    requires Scales(l) && |s| == 12 && Packed(s, l, 16) && j < 16
    ensures ScalarScale(s, j) == l[j]
  {
    hide Or;
    hide Low4;
    hide High4;
    hide Up4;
    hide Left;
    hide Right;
    hide Scale;
    var k := j % 4;
    HighPairs(l[k], l[k + 4], l[k + 8], l[k + 12]);
    var i := if j < 8 then j else j - 8;
    Nibbles(l[i], l[i + 8]);
    assert s[8 + k] == PackedByte(l, 8 + k, 16) && s[i] == PackedByte(l, i, 16);
  }

  // ---------------------------------------------------------------- four scales at a time

  /** Four bytes as a little-endian word. */
  function Word(a: bv8, b: bv8, c: bv8, d: bv8): bv32 {
    (a as bv32) | ((b as bv32) << 8) | ((c as bv32) << 16) | ((d as bv32) << 24)
  }

  function ByteOf(w: bv32, k: nat): bv8 {
    if k == 0 then (w & 255) as bv8 else if k == 1 then ((w >> 8) & 255) as bv8
      else if k == 2 then ((w >> 16) & 255) as bv8 else ((w >> 24) & 255) as bv8
  }

  const KMASK1: bv32 := 0x03030303
  const KMASK2: bv32 := 0x0f0f0f0f

  /** aux[g] after the rewriting of the four words. */
  function AuxWord(aux0: bv32, aux1: bv32, tmp: bv32, g: nat): bv32 {
    if g == 0 then (aux0 & KMASK2) | (((tmp >> 0) & KMASK1) << 4)
    else if g == 1 then (aux1 & KMASK2) | (((tmp >> 2) & KMASK1) << 4)
    else if g == 2 then ((aux0 >> 4) & KMASK2) | (((tmp >> 4) & KMASK1) << 4)
    else ((aux1 >> 4) & KMASK2) | (((tmp >> 6) & KMASK1) << 4)
  }

  /** Byte j of the rewritten words. */
  function WordScale(s: seq<bv8>, j: nat): bv8
    requires |s| == 12 && j < 16
  {
    ByteOf(AuxWord(Word(s[0], s[1], s[2], s[3]), Word(s[4], s[5], s[6], s[7]), Word(s[8], s[9], s[10], s[11]), j / 4),
      j % 4)
  }

  lemma Group0(a: bv8, b: bv8, c: bv8, d: bv8, w: bv32, t0: bv8, t1: bv8, t2: bv8, t3: bv8)
    ensures var x := AuxWord(Word(a, b, c, d), w, Word(t0, t1, t2, t3), 0);
      ByteOf(x, 0) == Scale(Low4(a), Right(t0, 0)) && ByteOf(x, 1) == Scale(Low4(b), Right(t1, 0))
      && ByteOf(x, 2) == Scale(Low4(c), Right(t2, 0)) && ByteOf(x, 3) == Scale(Low4(d), Right(t3, 0))
  {
  }

  lemma Group1(a: bv8, b: bv8, c: bv8, d: bv8, w: bv32, t0: bv8, t1: bv8, t2: bv8, t3: bv8)
    ensures var x := AuxWord(w, Word(a, b, c, d), Word(t0, t1, t2, t3), 1);
      ByteOf(x, 0) == Scale(Low4(a), Right(t0, 1)) && ByteOf(x, 1) == Scale(Low4(b), Right(t1, 1))
      && ByteOf(x, 2) == Scale(Low4(c), Right(t2, 1)) && ByteOf(x, 3) == Scale(Low4(d), Right(t3, 1))
  {
  }

  lemma Group2(a: bv8, b: bv8, c: bv8, d: bv8, w: bv32, t0: bv8, t1: bv8, t2: bv8, t3: bv8)
    ensures var x := AuxWord(Word(a, b, c, d), w, Word(t0, t1, t2, t3), 2);
      ByteOf(x, 0) == Scale(High4(a), Right(t0, 2)) && ByteOf(x, 1) == Scale(High4(b), Right(t1, 2))
      && ByteOf(x, 2) == Scale(High4(c), Right(t2, 2)) && ByteOf(x, 3) == Scale(High4(d), Right(t3, 2))
  {
  }

  lemma Group3(a: bv8, b: bv8, c: bv8, d: bv8, w: bv32, t0: bv8, t1: bv8, t2: bv8, t3: bv8)
    ensures var x := AuxWord(w, Word(a, b, c, d), Word(t0, t1, t2, t3), 3);
      ByteOf(x, 0) == Scale(High4(a), Right(t0, 3)) && ByteOf(x, 1) == Scale(High4(b), Right(t1, 3))
      && ByteOf(x, 2) == Scale(High4(c), Right(t2, 3)) && ByteOf(x, 3) == Scale(High4(d), Right(t3, 3))
  {
  }

  /** The word-parallel unpacking reads the same scales as the scalar one, whatever the twelve bytes. */
  lemma WordAgrees(s: seq<bv8>, j: nat)
    requires |s| == 12 && j < 16
    ensures WordScale(s, j) == ScalarScale(s, j)
  {
    hide Low4;
    hide High4;
    hide Right;
    hide Scale;
    hide Word;
    hide ByteOf;
    hide AuxWord;
    if j < 4 {
      Group0(s[0], s[1], s[2], s[3], Word(s[4], s[5], s[6], s[7]), s[8], s[9], s[10], s[11]);
    } else if j < 8 {
      Group1(s[4], s[5], s[6], s[7], Word(s[0], s[1], s[2], s[3]), s[8], s[9], s[10], s[11]);
    } else if j < 12 {
      Group2(s[0], s[1], s[2], s[3], Word(s[4], s[5], s[6], s[7]), s[8], s[9], s[10], s[11]);
    } else {
      Group3(s[4], s[5], s[6], s[7], Word(s[0], s[1], s[2], s[3]), s[8], s[9], s[10], s[11]);
    }
  }
}
