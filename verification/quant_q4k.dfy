/** Q4_K packing (CGGML/ggml-quants.c): eight 6-bit scales and eight 6-bit minima in twelve bytes, 4-bit codes two to a
    byte. */
module QuantQ4K {
  import opened QuantBytes
  import opened QuantSums

  const QK := 256

  // ---------------------------------------------------------------- scales and minima

  ghost predicate SixBit(l: seq<bv8>) {
    |l| == 8 && forall j :: 0 <= j < 8 ==> l[j] < 64
  }

  function Top2(x: bv8): bv8 {
    x >> 6
  }

  function Low6(x: bv8): bv8 {
    x & 63
  }

  /** (x >> 4) << 6 */
  function HighToTop(x: bv8): bv8 {
    (x >> 4) << 6
  }

  /** Byte k once the first n pairs are in; before its first write it holds what it held. */
  function PackedByte(ls: seq<bv8>, lm: seq<bv8>, initial: bv8, k: nat, n: nat): bv8
    requires |ls| == |lm| == 8 && k < 12
  {
    if k < 4 then (if n <= k then initial else if n <= k + 4 then ls[k] else Or(ls[k], HighToTop(ls[k + 4])))
    else if k < 8 then (if n <= k - 4 then initial else if n <= k then lm[k - 4] else Or(lm[k - 4], HighToTop(lm[k])))
    else if n <= k - 4 then initial
    else Or(Low4(ls[k - 4]), Up4(Low4(lm[k - 4])))
  }

  ghost predicate Packed(s: seq<bv8>, ls: seq<bv8>, lm: seq<bv8>, initial: seq<bv8>, n: nat)
    requires |s| == |initial| == 12 && |ls| == |lm| == 8
  {
    forall k :: 0 <= k < 12 ==> s[k] == PackedByte(ls, lm, initial[k], k, n)
  }

  lemma Step(ls: seq<bv8>, lm: seq<bv8>, initial: bv8, k: nat, j: nat)
    requires |ls| == |lm| == 8 && k < 12 && j < 8
    ensures k == j && j < 4 ==> PackedByte(ls, lm, initial, k, j + 1) == ls[j]
    ensures k == j + 4 && j < 4 ==> PackedByte(ls, lm, initial, k, j + 1) == lm[j]
    ensures k == j + 4 && j >= 4 ==> PackedByte(ls, lm, initial, k, j + 1) == Or(Low4(ls[j]), Up4(Low4(lm[j])))
    ensures k == j - 4 ==>
            PackedByte(ls, lm, initial, k, j + 1) == Or(PackedByte(ls, lm, initial, k, j), HighToTop(ls[j]))
    ensures k == j && j >= 4 ==>
            PackedByte(ls, lm, initial, k, j + 1) == Or(PackedByte(ls, lm, initial, k, j), HighToTop(lm[j]))
    ensures k != j && k != j + 4 && k != j - 4 ==>
            PackedByte(ls, lm, initial, k, j + 1) == PackedByte(ls, lm, initial, k, j)
  {
    hide Or;
    hide Low4;
    hide Up4;
    hide HighToTop;
  }

  method PackScales(ls: seq<bv8>, lm: seq<bv8>, s: array<bv8>)
    requires |ls| == |lm| == 8 && s.Length == 12
    modifies s
    ensures Packed(s[..], ls, lm, old(s[..]), 8)
  {
    ghost var initial := s[..];
    var j := 0;
    while j < 8
      invariant 0 <= j <= 8 && Packed(s[..], ls, lm, initial, j)
    {
      PackPair(ls, lm, s, j, initial);
      j := j + 1;
    }
  }

  method PackPair(ls: seq<bv8>, lm: seq<bv8>, s: array<bv8>, j: nat, ghost initial: seq<bv8>)
    requires |ls| == |lm| == 8 && s.Length == |initial| == 12 && j < 8 && Packed(s[..], ls, lm, initial, j)
    modifies s
    ensures Packed(s[..], ls, lm, initial, j + 1)
  {
    hide Or;
    hide Low4;
    hide Up4;
    hide HighToTop;
    hide PackedByte;
    if j < 4 {
      s[j] := ls[j];
      s[j + 4] := lm[j];
    } else {
      s[j + 4] := Or(Low4(ls[j]), Up4(Low4(lm[j])));
      s[j - 4] := Or(s[j - 4], HighToTop(ls[j]));
      s[j] := Or(s[j], HighToTop(lm[j]));
    }
    forall k | 0 <= k < 12 ensures s[k] == PackedByte(ls, lm, initial[k], k, j + 1) {
      Step(ls, lm, initial[k], k, j);
    }
  }

  /** get_scale_min_k4 */
  function ScaleMin(j: nat, q: seq<bv8>): (bv8, bv8)
    requires |q| == 12 && j < 8
  {
    if j < 4 then (Low6(q[j]), Low6(q[j + 4]))
    else (Or(Low4(q[j + 4]), Up4(Top2(q[j - 4]))), Or(High4(q[j + 4]), Up4(Top2(q[j]))))
  }

  lemma TopAside(a: bv8, b: bv8)
    requires a < 64 && b < 64
    ensures Low6(Or(a, HighToTop(b))) == a
    ensures Or(Low4(b), Up4(Top2(Or(a, HighToTop(b))))) == b
  {
  }

  /** Every scale and every minimum comes back, whatever the bytes held before. */
  lemma ScaleMinRoundTrip(ls: seq<bv8>, lm: seq<bv8>, s: seq<bv8>, initial: seq<bv8>, j: nat)
    requires SixBit(ls) && SixBit(lm) && |s| == |initial| == 12 && Packed(s, ls, lm, initial, 8) && j < 8
    ensures ScaleMin(j, s) == (ls[j], lm[j])
  {
    hide Or;
    hide Low4;
    hide High4;
    hide Up4;
    hide Low6;
    hide Top2;
    hide HighToTop;
    if j < 4 {
      assert s[j] == Or(ls[j], HighToTop(ls[j + 4])) && s[j + 4] == Or(lm[j], HighToTop(lm[j + 4]));
      TopAside(ls[j], ls[j + 4]);
      TopAside(lm[j], lm[j + 4]);
    } else {
      assert s[j + 4] == Or(Low4(ls[j]), Up4(Low4(lm[j])));
      assert s[j - 4] == Or(ls[j - 4], HighToTop(ls[j])) && s[j] == Or(lm[j - 4], HighToTop(lm[j]));
      Nibbles(ls[j], lm[j]);
      TopAside(ls[j - 4], ls[j]);
      TopAside(lm[j - 4], lm[j]);
    }
  }

  // ---------------------------------------------------------------- codes

  ghost predicate Codes(c: seq<bv8>) {
    |c| == QK && forall i :: 0 <= i < QK ==> c[i] < 16
  }

  function CodeByte(c: seq<bv8>, k: nat): bv8
    requires |c| == QK && k < 128
  {
    Or(c[64 * (k / 32) + k % 32], Up4(c[64 * (k / 32) + k % 32 + 32]))
  }

  lemma CodeBack(a: bv8, b: bv8)
    requires a < 16 && b < 16
    ensures Low4(Or(a, Up4(b))) == a && High4(Or(a, Up4(b))) == b
  {
  }

  method PackCodes(c: seq<bv8>, qs: array<bv8>)
    requires |c| == QK && qs.Length == 128
    modifies qs
    ensures forall k :: 0 <= k < 128 ==> qs[k] == CodeByte(c, k)
  {
    hide Or;
    hide Up4;
    var j, q := 0, 0;
    while j < QK
      invariant 0 <= j <= QK && j % 64 == 0 && q == 32 * (j / 64)
      invariant forall k :: 0 <= k < q ==> qs[k] == CodeByte(c, k)
    {
      var l := 0;
      while l < 32
        invariant 0 <= l <= 32 && forall k :: 0 <= k < q + l ==> qs[k] == CodeByte(c, k)
      {
        qs[q + l] := Or(c[j + l], Up4(c[j + l + 32]));
        l := l + 1;
      }
      q := q + 32;
      j := j + 64;
    }
  }

  // ---------------------------------------------------------------- a super-block

  datatype Block = Block(qs: seq<bv8>, scales: seq<bv8>, d: real, dmin: real)

  /** Codes, scales, minima and factors of one super-block before packing. */
  datatype Plain = Plain(codes: seq<bv8>, ls: seq<bv8>, lm: seq<bv8>, d: real, dmin: real)

  predicate Shaped(b: Block) {
    |b.qs| == 128 && |b.scales| == 12
  }

  ghost predicate Encodes(b: Block, p: Plain, initial: seq<bv8>)
    requires |p.codes| == QK && |p.ls| == |p.lm| == 8 && |initial| == 12
  {
    && Shaped(b) && Packed(b.scales, p.ls, p.lm, initial, 8) && b.d == p.d && b.dmin == p.dmin
    && forall k :: 0 <= k < 128 ==> b.qs[k] == CodeByte(p.codes, k)
  }

  /** The stored code at position i. */
  function CodeAt(b: Block, i: nat): bv8
    requires Shaped(b) && i < QK
  {
    var q := b.qs[32 * (i / 64) + i % 32];
    if i % 64 < 32 then Low4(q) else High4(q)
  }

  /** Position i of a decoded super-block: scale times code, less the minimum. */
  function ValueAt(b: Block, i: nat): real
    requires Shaped(b) && i < QK
  {
    var sm := ScaleMin(i / 32, b.scales);
    Times(Times(b.d, sm.0 as int as real), CodeAt(b, i) as int as real) - Times(b.dmin, sm.1 as int as real)
  }

  lemma Where(i: nat)
    requires i < QK
    ensures var k := 32 * (i / 64) + i % 32; k < 128 && k / 32 == i / 64 && k % 32 == i % 32
    ensures i == 64 * (i / 64) + i % 32 + (if i % 64 < 32 then 0 else 32)
  {
  }

  /** Every code comes back. */
  lemma CodeRoundTrip(b: Block, p: Plain, initial: seq<bv8>, i: nat)
    requires |p.ls| == |p.lm| == 8 && |initial| == 12 && Codes(p.codes) && Encodes(b, p, initial) && i < QK
    ensures CodeAt(b, i) == p.codes[i]
  {
    hide Or;
    hide Low4;
    hide High4;
    hide Up4;
    hide Packed;
    Where(i);
    var k := 32 * (i / 64) + i % 32;
    var lo := 64 * (i / 64) + i % 32;
    assert b.qs[k] == CodeByte(p.codes, k);
    CodeBack(p.codes[lo], p.codes[lo + 32]);
  }

  /** A decoded value is made of the code, scale and minimum that were encoded. */
  lemma ValueRoundTrip(b: Block, p: Plain, initial: seq<bv8>, i: nat)
    requires SixBit(p.ls) && SixBit(p.lm) && |initial| == 12 && Codes(p.codes) && Encodes(b, p, initial) && i < QK
    ensures ValueAt(b, i)
              == Times(Times(p.d, p.ls[i / 32] as int as real), p.codes[i] as int as real)
                 - Times(p.dmin, p.lm[i / 32] as int as real)
  {
    hide Times;
    hide CodeAt;
    hide ScaleMin;
    CodeRoundTrip(b, p, initial, i);
    ScaleMinRoundTrip(p.ls, p.lm, b.scales, initial, i / 32);
  }

  method EncodeBlock(p: Plain, initial: seq<bv8>) returns (b: Block)
    requires |p.codes| == QK && |p.ls| == |p.lm| == 8 && |initial| == 12
    ensures Encodes(b, p, initial)
  {
    hide CodeByte;
    hide Packed;
    var scales, qs := new bv8[12](i requires 0 <= i < 12 => initial[i]), new bv8[128];
    assert scales[..] == initial;
    PackScales(p.ls, p.lm, scales);
    PackCodes(p.codes, qs);
    b := Block(qs[..], scales[..], p.d, p.dmin);
  }

  /** Thirty-two values of one scale and one minimum. */
  method DecodeHalf(b: Block, out: array<real>, at: nat, t: nat, high: bool)
    requires Shaped(b) && at + QK <= out.Length && t < 4
    modifies out
    ensures var start := at + 64 * t + (if high then 32 else 0);
      forall k :: 0 <= k < out.Length ==> out[k] == if start <= k < start + 32 then ValueAt(b, k - at) else old(out[k])
  {
    hide ValueAt;
    hide ScaleMin;
    hide Times;
    var start := 64 * t + (if high then 32 else 0);
    var sm := ScaleMin(start / 32, b.scales);
    var d1, m1 := Times(b.d, sm.0 as int as real), Times(b.dmin, sm.1 as int as real);
    var l := 0;
    while l < 32
      invariant 0 <= l <= 32
      invariant forall k :: 0 <= k < out.Length ==>
                out[k] == if at + start <= k < at + start + l then ValueAt(b, k - at) else old(out[k])
    {
      var v := DecodeOne(b, t, high, l, d1, m1, sm);
      out[at + start + l] := v;
      l := l + 1;
    }
  }

  method DecodeOne(b: Block, t: nat, high: bool, l: nat, d1: real, m1: real, sm: (bv8, bv8)) returns (v: real)
    requires Shaped(b) && t < 4 && l < 32 && sm == ScaleMin((64 * t + (if high then 32 else 0)) / 32, b.scales)
    requires d1 == Times(b.d, sm.0 as int as real) && m1 == Times(b.dmin, sm.1 as int as real)
    ensures v == ValueAt(b, 64 * t + (if high then 32 else 0) + l)
  {
    hide ScaleMin;
    hide Times;
    hide Low4;
    hide High4;
    PositionOf(t, high, l);
    var q := b.qs[32 * t + l];
    var code := if high then High4(q) else Low4(q);
    assert code == CodeAt(b, 64 * t + (if high then 32 else 0) + l);
    v := Times(d1, code as int as real) - m1;
  }

  lemma PositionOf(t: nat, high: bool, l: nat)
    requires t < 4 && l < 32
    ensures var start := 64 * t + (if high then 32 else 0);
      start + l < QK && (start + l) / 64 == t && (start + l) % 32 == l && ((start + l) % 64 < 32 <==> !high)
        && (start + l) / 32 == start / 32
  {
  }

  method DecodeBlock(b: Block, out: array<real>, at: nat)
    requires Shaped(b) && at + QK <= out.Length
    modifies out
    ensures forall k :: 0 <= k < out.Length ==> out[k] == if at <= k < at + QK then ValueAt(b, k - at) else old(out[k])
  {
    hide ValueAt;
    var t := 0;
    while t < 4
      invariant 0 <= t <= 4
      invariant forall k :: 0 <= k < out.Length ==>
                out[k] == if at <= k < at + 64 * t then ValueAt(b, k - at) else old(out[k])
    {
      DecodeHalf(b, out, at, t, false);
      DecodeHalf(b, out, at, t, true);
      t := t + 1;
    }
  }

  // ---------------------------------------------------------------- a row of any number of super-blocks

  /** initial is what the scale bytes of each super-block held before. */
  ghost predicate RowEncodes(y: seq<Block>, x: seq<Plain>, initial: seq<seq<bv8>>) {
    && |y| == |x| == |initial|
    && forall i :: 0 <= i < |x| ==>
      |x[i].codes| == QK && |x[i].ls| == |x[i].lm| == 8 && |initial[i]| == 12 && Encodes(y[i], x[i], initial[i])
  }

  method EncodeRow(x: seq<Plain>, initial: seq<seq<bv8>>) returns (y: seq<Block>)
    requires |initial| == |x| && forall i :: 0 <= i < |x| ==>
             |x[i].codes| == QK && |x[i].ls| == |x[i].lm| == 8 && |initial[i]| == 12
    ensures RowEncodes(y, x, initial)
  {
    hide Encodes;
    y := [];
    var i := 0;
    while i < |x|
      invariant i <= |x| && |y| == i && forall k :: 0 <= k < i ==> Encodes(y[k], x[k], initial[k])
    {
      var b := EncodeBlock(x[i], initial[i]);
      y := y + [b];
      i := i + 1;
    }
  }

  /** Position k of a decoded row. */
  function RowValue(y: seq<Block>, k: nat): real
    requires k < |y| * QK && forall i :: 0 <= i < |y| ==> Shaped(y[i])
  {
    ValueAt(y[k / QK], k % QK)
  }

  method DecodeRow(y: seq<Block>, out: array<real>)
    requires out.Length == |y| * QK && forall i :: 0 <= i < |y| ==> Shaped(y[i])
    modifies out
    ensures forall k :: 0 <= k < out.Length ==> out[k] == RowValue(y, k)
  {
    hide ValueAt;
    var i := 0;
    while i < |y|
      invariant i <= |y| && forall k :: 0 <= k < i * QK ==> out[k] == RowValue(y, k)
    {
      DecodeBlock(y[i], out, i * QK);
      i := i + 1;
    }
  }

  /** A row of any number of super-blocks decodes to scaled codes less scaled minima, position by position. */
  lemma RowRoundTrip(x: seq<Plain>, y: seq<Block>, initial: seq<seq<bv8>>, k: nat)
    requires RowEncodes(y, x, initial) && k < |x| * QK
    requires forall i :: 0 <= i < |x| ==> Codes(x[i].codes) && SixBit(x[i].ls) && SixBit(x[i].lm)
    ensures forall i :: 0 <= i < |y| ==> Shaped(y[i])
    ensures var p, i := x[k / QK], k % QK;
      RowValue(y, k)
        == Times(Times(p.d, p.ls[i / 32] as int as real), p.codes[i] as int as real)
                 - Times(p.dmin, p.lm[i / 32] as int as real)
  {
    hide ValueAt;
    hide Times;
    ValueRoundTrip(y[k / QK], x[k / QK], initial[k / QK], k % QK);
  }
}
