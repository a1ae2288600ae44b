/** Q3_K rows (CGGML/ggml-quants.c): 3-bit codes split into two low bits and a mask bit, and whole super-blocks
    decoded. */
module QuantQ3KRow {
  import opened QuantBytes
  import opened QuantQ3K
  import opened QuantSums

  const QK := 256

  // ---------------------------------------------------------------- bits

  function Bit(g: nat): bv8 {
    if g == 0 then 1 else if g == 1 then 2 else if g == 2 then 4 else if g == 3 then 8
    else if g == 4 then 16 else if g == 5 then 32 else if g == 6 then 64 else if g == 7 then 128 else 0
  }

  function Twice(x: bv8): bv8 {
    x << 1
  }

  predicate Set(x: bv8, m: bv8) {
    x & m != 0
  }

  lemma NextBit(g: nat)
    requires g < 8
    ensures Twice(Bit(g)) == Bit(g + 1)
  {
  }

  lemma SetOr(x: bv8, a: bv8, m: bv8)
    ensures Set(Or(x, a), m) == (Set(x, m) || Set(a, m))
  {
  }

  lemma BitsApart(g: nat, h: nat)
    requires g < 8 && h < 8
    ensures Set(Bit(h), Bit(g)) <==> g == h
  {
  }

  lemma NoBits(m: bv8)
    ensures !Set(0, m)
  {
  }

  // ---------------------------------------------------------------- codes

  ghost predicate Codes(c: seq<bv8>) {
    |c| == QK && forall i :: 0 <= i < QK ==> c[i] < 8
  }

  /** What is left of a code once its high bit is in the mask. */
  function LowBits(c: bv8): bv8 {
    if c > 3 then c - 4 else c
  }

  /** Mask byte m once g groups of 32 codes have been looked at. */
  function MaskByte(c: seq<bv8>, m: nat, g: nat): bv8
    requires |c| == QK && m < 32 && g <= 8
  {
    if g == 0 then 0
    else if c[32 * (g - 1) + m] > 3 then Or(MaskByte(c, m, g - 1), Bit(g - 1)) else MaskByte(c, m, g - 1)
  }

  /** Byte l of half h: four codes 32 apart. */
  function QuantByte(c: seq<bv8>, h: nat, l: nat): bv8
    requires |c| == QK && h < 2 && l < 32
  {
    FourCodes(LowBits(c[128 * h + l]), LowBits(c[128 * h + l + 32]), LowBits(c[128 * h + l + 64]),
      LowBits(c[128 * h + l + 96]))
  }

  function FourCodes(a: bv8, b: bv8, c: bv8, d: bv8): bv8 {
    a | (b << 2) | (c << 4) | (d << 6)
  }

  function TwoBits(x: bv8): bv8 {
    x & 3
  }

  lemma FourCodesBack(a: bv8, b: bv8, c: bv8, d: bv8)
    requires a < 4 && b < 4 && c < 4 && d < 4
    ensures var x := FourCodes(a, b, c, d); TwoBits(Right(x, 0)) == a && TwoBits(Right(x, 1)) == b
                                            && TwoBits(Right(x, 2)) == c && TwoBits(Right(x, 3)) == d
  {
  }

  lemma LowBitsMeaning(c: bv8)
    requires c < 8
    ensures LowBits(c) < 4 && LowBits(c) as int == if c > 3 then c as int - 4 else c as int
  {
  }

  /** The mask records which codes exceed three. */
  lemma {:induction false} MaskMeaning(c: seq<bv8>, m: nat, n: nat, g: nat)
    requires |c| == QK && m < 32 && n <= 8 && g < 8
    ensures Set(MaskByte(c, m, n), Bit(g)) <==> (g < n && c[32 * g + m] > 3)
  {
    hide Set;
    hide Or;
    hide Bit;
    if n == 0 {
      NoBits(Bit(g));
    } else {
      MaskMeaning(c, m, n - 1, g);
      SetOr(MaskByte(c, m, n - 1), Bit(n - 1), Bit(g));
      BitsApart(g, n - 1);
    }
  }

  // ---------------------------------------------------------------- one super-block

  datatype Block = Block(hmask: seq<bv8>, qs: seq<bv8>, scales: seq<bv8>, d: real)

  ghost predicate Shaped(b: Block) {
    |b.hmask| == 32 && |b.qs| == 64 && |b.scales| == 12
  }

  /** The stored code at position i, less four. */
  function CodeAt(b: Block, i: nat): int
    requires |b.hmask| == 32 && |b.qs| == 64 && i < QK
  {
    TwoBits(Right(b.qs[32 * (i / 128) + i % 32], i % 128 / 32)) as int
      - (if Set(b.hmask[i % 32], Bit(i / 32)) then 0 else 4)
  }

  /** The bytes of a super-block with these codes and scales. */
  ghost predicate Encodes(b: Block, c: seq<bv8>, l: seq<bv8>, d: real)
    requires |c| == QK && |l| == 16
  {
    && Shaped(b) && Packed(b.scales, l, 16) && b.d == d
    && (forall m :: 0 <= m < 32 ==> b.hmask[m] == MaskByte(c, m, 8))
    && forall k :: 0 <= k < 64 ==> b.qs[k] == QuantByte(c, k / 32, k % 32)
  }

  lemma QuantBack(c: seq<bv8>, h: nat, m: nat, t: nat)
    requires Codes(c) && h < 2 && m < 32 && t < 4
    ensures TwoBits(Right(QuantByte(c, h, m), t)) == LowBits(c[128 * h + m + 32 * t])
  {
    hide Right;
    hide TwoBits;
    hide FourCodes;
    hide LowBits;
    var base := 128 * h + m;
    LowBitsMeaning(c[base]);
    LowBitsMeaning(c[base + 32]);
    LowBitsMeaning(c[base + 64]);
    LowBitsMeaning(c[base + 96]);
    FourCodesBack(LowBits(c[base]), LowBits(c[base + 32]), LowBits(c[base + 64]), LowBits(c[base + 96]));
  }

  lemma Where(i: nat)
    requires i < QK
    ensures var h, m, t := i / 128, i % 32, i % 128 / 32;
      h < 2 && t < 4 && i == 128 * h + m + 32 * t && i == 32 * (i / 32) + m && (32 * h + m) / 32 == h
        && (32 * h + m) % 32 == m && 32 * h + m < 64
  {
  }

  /** Every code comes back, less four. */
  lemma CodeRoundTrip(b: Block, c: seq<bv8>, l: seq<bv8>, d: real, i: nat)
    requires Codes(c) && |l| == 16 && Encodes(b, c, l, d) && i < QK
    ensures CodeAt(b, i) == c[i] as int - 4
  {
    hide Set;
    hide Bit;
    hide Right;
    hide TwoBits;
    hide LowBits;
    hide MaskByte;
    hide QuantByte;
    hide Packed;
    Where(i);
    var h, m, t := i / 128, i % 32, i % 128 / 32;
    MaskMeaning(c, m, 8, i / 32);
    var k := 32 * h + m;
    assert b.qs[k] == QuantByte(c, h, m);
    QuantBack(c, h, m, t);
    LowBitsMeaning(c[i]);
  }

  // ---------------------------------------------------------------- the loops

  /** How many groups of 32 codes have been looked at for mask byte m once the codes before j have been. */
  function Groups(j: nat, m: nat): nat {
    if m < j % 32 then j / 32 + 1 else j / 32
  }

  lemma GroupsStep(j: nat, m: nat)
    requires j < QK && m < 32
    ensures Groups(j, m) <= 8 && Groups(j + 1, m) <= 8
    ensures m == j % 32 ==> Groups(j, m) == j / 32 && Groups(j + 1, m) == j / 32 + 1 && j == 32 * (j / 32) + m
    ensures m != j % 32 ==> Groups(j + 1, m) == Groups(j, m)
  {
  }

  /** The mask bytes once the codes before j have been looked at. */
  ghost predicate MaskUpTo(c: seq<bv8>, hmask: seq<bv8>, j: nat)
    requires |c| == QK && |hmask| == 32
  {
    forall i :: 0 <= i < 32 ==> Groups(j, i) <= 8 && hmask[i] == MaskByte(c, i, Groups(j, i))
  }

  /** Moves the high bits of the codes into the mask. */
  method PackMask(c: seq<bv8>, hmask: array<bv8>, rest: array<bv8>)
    requires |c| == QK && hmask.Length == 32 && rest.Length == QK && hmask != rest && rest[..] == c
    modifies hmask, rest
    ensures forall m :: 0 <= m < 32 ==> hmask[m] == MaskByte(c, m, 8)
    ensures forall i :: 0 <= i < QK ==> rest[i] == LowBits(c[i])
  {
    hide Or;
    hide Bit;
    hide MaskByte;
    hide Twice;
    hide Groups;
    ClearMask(hmask);
    var j, m, hm := 0, 0, 1;
    FirstBit();
    NoMask(c, hmask[..]);
    while j < QK
      invariant 0 <= j <= QK && 0 <= m < 32 && m == j % 32 && hm == Bit(j / 32)
      invariant MaskUpTo(c, hmask[..], j)
      invariant forall i :: 0 <= i < QK ==> rest[i] == if i < j then LowBits(c[i]) else c[i]
    {
      ghost var before := hmask[..];
      if rest[j] > 3 {
        hmask[m] := Or(hmask[m], hm);
        rest[j] := rest[j] - 4;
      }
      MaskStep(c, before, hmask[..], j);
      NextGroup(j);
      j := j + 1;
      m := m + 1;
      if m == 32 {
        m := 0;
        hm := Twice(hm);
      }
    }
    AllGroups();
    assert forall i :: 0 <= i < 32 ==> hmask[..][i] == MaskByte(c, i, 8);
  }

  lemma FirstBit()
    ensures Bit(0) == 1
  {
  }

  lemma AllGroups()
    ensures forall m: nat :: m < 32 ==> Groups(QK, m) == 8
  {
  }

  lemma NextGroup(j: nat)
    requires j < QK
    ensures j % 32 < 31 ==> (j + 1) % 32 == j % 32 + 1 && (j + 1) / 32 == j / 32
    ensures j % 32 == 31 ==> (j + 1) % 32 == 0 && (j + 1) / 32 == j / 32 + 1
    ensures Bit(j / 32 + 1) == Twice(Bit(j / 32))
  {
    NextBit(j / 32);
  }

  lemma NoMask(c: seq<bv8>, hmask: seq<bv8>)
    requires |c| == QK && |hmask| == 32 && forall i :: 0 <= i < 32 ==> hmask[i] == 0
    ensures MaskUpTo(c, hmask, 0)
  {
  }

  lemma MaskStep(c: seq<bv8>, before: seq<bv8>, after: seq<bv8>, j: nat)
    requires |c| == QK && |before| == |after| == 32 && j < QK
    requires MaskUpTo(c, before, j)
    requires after == if c[j] > 3 then before[j % 32 := Or(before[j % 32], Bit(j / 32))] else before
    ensures var next := j + 1; MaskUpTo(c, after, next)
  {
    hide Or;
    hide Bit;
    hide Groups;
    hide MaskByte;
    var next := j + 1;
    forall i | 0 <= i < 32 ensures Groups(next, i) <= 8 && after[i] == MaskByte(c, i, Groups(next, i)) {
      GroupsStep(j, i);
      if i == j % 32 { MaskUnfold(c, i, j / 32); }
    }
  }

  lemma MaskUnfold(c: seq<bv8>, m: nat, g: nat)
    requires |c| == QK && m < 32 && g < 8
    ensures MaskByte(c, m, g + 1) == if c[32 * g + m] > 3 then Or(MaskByte(c, m, g), Bit(g)) else MaskByte(c, m, g)
  {
  }

  method ClearMask(hmask: array<bv8>)
    modifies hmask
    ensures forall i :: 0 <= i < hmask.Length ==> hmask[i] == 0
  {
    var i := 0;
    while i < hmask.Length
      invariant i <= hmask.Length && forall k :: 0 <= k < i ==> hmask[k] == 0
    {
      hmask[i] := 0;
      i := i + 1;
    }
  }

  method PackQuants(c: seq<bv8>, rest: seq<bv8>, qs: array<bv8>)
    requires |c| == |rest| == QK && qs.Length == 64 && forall i :: 0 <= i < QK ==> rest[i] == LowBits(c[i])
    modifies qs
    ensures forall k :: 0 <= k < 64 ==> qs[k] == QuantByte(c, k / 32, k % 32)
  {
    hide FourCodes;
    hide LowBits;
    var h := 0;
    while h < 2
      invariant 0 <= h <= 2 && forall k :: 0 <= k < 32 * h ==> qs[k] == QuantByte(c, k / 32, k % 32)
    {
      var l := 0;
      while l < 32
        invariant 0 <= l <= 32 && forall k :: 0 <= k < 32 * h + l ==> qs[k] == QuantByte(c, k / 32, k % 32)
      {
        var j := 128 * h;
        qs[j / 4 + l] := FourCodes(rest[j + l], rest[j + l + 32], rest[j + l + 64], rest[j + l + 96]);
        l := l + 1;
      }
      h := h + 1;
    }
  }

  /** The bytes of one super-block. */
  method EncodeBlock(c: seq<bv8>, l: seq<bv8>, d: real) returns (b: Block)
    requires |c| == QK && |l| == 16
    ensures Encodes(b, c, l, d)
  {
    hide MaskByte;
    hide QuantByte;
    hide LowBits;
    hide Packed;
    var hmask, qs, scales, rest := new bv8[32], new bv8[64], new bv8[12], new bv8[QK](i requires 0 <= i < QK => c[i]);
    assert rest[..] == c;
    PackScales(l, scales);
    PackMask(c, hmask, rest);
    PackQuants(c, rest[..], qs);
    b := Block(hmask[..], qs[..], scales[..], d);
  }

  /** Position i of a decoded super-block. */
  function ValueAt(b: Block, i: nat): real
    requires |b.hmask| == 32 && |b.qs| == 64 && |b.scales| == 12 && i < QK
  {
    Times(Times(b.d, (WordScale(b.scales, i / 16) as int - 32) as real), CodeAt(b, i) as real)
  }

  /** Sixteen values with one scale: bytes from 32 * half + first on, one pair of bits and one mask bit. */
  method DecodeSixteen(b: Block, out: array<real>, at: nat, half: nat, t: nat, first: nat)
    requires Shaped(b) && at + QK <= out.Length && half < 2 && t < 4 && (first == 0 || first == 16)
    modifies out
    ensures forall k :: 0 <= k < out.Length ==>
      out[k] == if at + 128 * half + 32 * t + first <= k < at + 128 * half + 32 * t + first + 16 then ValueAt(b, k - at)
        else old(out[k])
  {
    hide ValueAt;
    hide Times;
    hide WordScale;
    var start := 128 * half + 32 * t + first;
    var dl := Times(b.d, (WordScale(b.scales, start / 16) as int - 32) as real);
    var l := 0;
    while l < 16
      invariant 0 <= l <= 16
      invariant forall k :: 0 <= k < out.Length ==>
                out[k] == if at + start <= k < at + start + l then ValueAt(b, k - at) else old(out[k])
    {
      var v := DecodeOne(b, half, t, first, l, dl);
      out[at + start + l] := v;
      l := l + 1;
    }
  }

  method DecodeOne(b: Block, half: nat, t: nat, first: nat, l: nat, dl: real) returns (v: real)
    requires Shaped(b) && half < 2 && t < 4 && (first == 0 || first == 16) && l < 16
    requires dl == Times(b.d, (WordScale(b.scales, (128 * half + 32 * t + first) / 16) as int - 32) as real)
    ensures v == ValueAt(b, 128 * half + 32 * t + first + l)
  {
    hide Set;
    hide Bit;
    hide Right;
    hide TwoBits;
    hide WordScale;
    hide Times;
    PositionOf(half, t, first, l);
    var code := TwoBits(Right(b.qs[32 * half + first + l], t)) as int
      - (if Set(b.hmask[first + l], Bit(4 * half + t)) then 0 else 4);
    assert code == CodeAt(b, 128 * half + 32 * t + first + l);
    v := Times(dl, code as real);
  }

  lemma PositionOf(half: nat, t: nat, first: nat, l: nat)
    requires half < 2 && t < 4 && (first == 0 || first == 16) && l < 16
    ensures var i := 128 * half + 32 * t + first + l;
      i < QK && i / 128 == half && i % 32 == first + l && i % 128 / 32 == t && i / 32 == 4 * half + t
        && i / 16 == (128 * half + 32 * t + first) / 16
  {
  }

  method DecodeBlock(b: Block, out: array<real>, at: nat)
    requires Shaped(b) && at + QK <= out.Length
    modifies out
    ensures forall k :: 0 <= k < out.Length ==> out[k] == if at <= k < at + QK then ValueAt(b, k - at) else old(out[k])
  {
    hide ValueAt;
    var n := 0;
    while n < 2
      invariant 0 <= n <= 2
      invariant forall k :: 0 <= k < out.Length ==>
                out[k] == if at <= k < at + 128 * n then ValueAt(b, k - at) else old(out[k])
    {
      var j := 0;
      while j < 4
        invariant 0 <= j <= 4
        invariant forall k :: 0 <= k < out.Length ==>
                  out[k] == if at <= k < at + 128 * n + 32 * j then ValueAt(b, k - at) else old(out[k])
      {
        DecodeSixteen(b, out, at, n, j, 0);
        DecodeSixteen(b, out, at, n, j, 16);
        j := j + 1;
      }
      n := n + 1;
    }
  }

  /** A decoded value is the scale, less 32, times the code, less four, times the factor of the super-block. */
  lemma ValueRoundTrip(b: Block, c: seq<bv8>, l: seq<bv8>, d: real, i: nat)
    requires Codes(c) && Scales(l) && Encodes(b, c, l, d) && i < QK
    ensures ValueAt(b, i) == Times(Times(d, (l[i / 16] as int - 32) as real), (c[i] as int - 4) as real)
  {
    hide CodeAt;
    hide WordScale;
    hide ScalarScale;
    hide Times;
    CodeRoundTrip(b, c, l, d, i);
    WordAgrees(b.scales, i / 16);
    ScaleRoundTrip(l, b.scales, i / 16);
  }

  // ---------------------------------------------------------------- a row of any number of super-blocks

  /** Codes, scales and factor of one super-block before packing. */
  datatype Plain = Plain(codes: seq<bv8>, scales: seq<bv8>, d: real)

  ghost predicate RowEncodes(y: seq<Block>, x: seq<Plain>) {
    |y| == |x| && forall i :: 0 <= i < |x| ==>
      |x[i].codes| == QK && |x[i].scales| == 16 && Encodes(y[i], x[i].codes, x[i].scales, x[i].d)
  }

  method EncodeRow(x: seq<Plain>) returns (y: seq<Block>)
    requires forall i :: 0 <= i < |x| ==> |x[i].codes| == QK && |x[i].scales| == 16
    ensures RowEncodes(y, x)
  {
    hide Encodes;
    y := [];
    var i := 0;
    while i < |x|
      invariant i <= |x| && |y| == i && forall k :: 0 <= k < i ==> Encodes(y[k], x[k].codes, x[k].scales, x[k].d)
    {
      var b := EncodeBlock(x[i].codes, x[i].scales, x[i].d);
      y := y + [b];
      i := i + 1;
    }
  }

  /** Position k of a decoded row. */
  function RowValue(y: seq<Block>, k: nat): real
    requires k < |y| * QK && forall i :: 0 <= i < |y| ==> |y[i].hmask| == 32 && |y[i].qs| == 64 && |y[i].scales| == 12
  {
    ValueAt(y[k / QK], k % QK)
  }

  method DecodeRow(y: seq<Block>, out: array<real>)
    requires out.Length == |y| * QK && forall i :: 0 <= i < |y| ==>
             |y[i].hmask| == 32 && |y[i].qs| == 64 && |y[i].scales| == 12
    modifies out
    ensures forall k :: 0 <= k < out.Length ==> out[k] == RowValue(y, k)
  {
    hide ValueAt;
    var i := 0;
    while i < |y|
      invariant i <= |y| && forall k :: 0 <= k < i * QK ==> out[k] == RowValue(y, k)
    {
      DecodeBlock(y[i], out, i * QK);
      i := i + 1;
    }
  }

  /** A row of any number of super-blocks decodes to scaled codes, position by position. */
  lemma RowRoundTrip(x: seq<Plain>, y: seq<Block>, k: nat)
    requires RowEncodes(y, x) && k < |x| * QK && forall i :: 0 <= i < |x| ==> Codes(x[i].codes) && Scales(x[i].scales)
    ensures forall i :: 0 <= i < |y| ==> |y[i].hmask| == 32 && |y[i].qs| == 64 && |y[i].scales| == 12
    ensures var p := x[k / QK];
      RowValue(y, k) == Times(Times(p.d, (p.scales[k % QK / 16] as int - 32) as real),
        (p.codes[k % QK] as int - 4) as real)
  {
    hide ValueAt;
    hide Times;
    var p := x[k / QK];
    ValueRoundTrip(y[k / QK], p.codes, p.scales, p.d, k % QK);
  }
}
