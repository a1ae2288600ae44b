/** TQ1_0 (CGGML/ggml-quants.c): five trits to a byte by ceiling division, decoded by multiplying and keeping the
    top. */
module QuantTq1 {
  import opened Arithmetic
  import opened QuantSums

  const QK := 256
  const QS := 48
  const QH := 4

  function Pow3(n: nat): nat {
    if n == 0 then 1 else if n == 1 then 3 else if n == 2 then 9 else if n == 3 then 27 else if n == 4 then 81 else 243
  }

  // ---------------------------------------------------------------- one byte

  /** The stored byte of a number below 243: q/243 as a fraction of 256, rounded up. */
  function Ceiling(q: nat): nat {
    (q * 256 + 242) / 243
  }

  /** Trit n of a stored byte. */
  function Trit(b: nat, n: nat): nat {
    (b * Pow3(n)) % 256 * 3 / 256
  }

  /** The byte times a power of three: the trits before are a multiple of 256, the trit is the top of what is left, and
      rounding up never spills into it. */
  lemma TopTrit(m: nat, before: nat, t: nat, rest: nat, p: nat, excess: nat)
    requires 243 * m == 256 * (243 * before + 81 * t + rest) + excess
    requires t <= 2 && rest + p <= 81 && p >= 1 && excess <= 242 * p
    ensures m % 256 * 3 / 256 == t
  {
    var f := m - 256 * before;
    assert 243 * f == 256 * (81 * t + rest) + excess;
    assert 0 <= f < 256;
    assert m % 256 == f;
    assert 256 * t <= 3 * f < 256 * (t + 1);
  }

  lemma CeilingExcess(q: nat)
    requires q < 243
    ensures 0 <= 243 * Ceiling(q) - 256 * q <= 242 && Ceiling(q) < 256
  {
  }

  /** All five trits come back. */
  lemma FiveTrits(a: nat, b: nat, c: nat, d: nat, e: nat)
    requires a <= 2 && b <= 2 && c <= 2 && d <= 2 && e <= 2
    ensures var y := Ceiling(81 * a + 27 * b + 9 * c + 3 * d + e);
      y < 256 && Trit(y, 0) == a && Trit(y, 1) == b && Trit(y, 2) == c && Trit(y, 3) == d && Trit(y, 4) == e
  {
    var q := 81 * a + 27 * b + 9 * c + 3 * d + e;
    CeilingExcess(q);
    hide Ceiling;
    var y := Ceiling(q);
    var x := 243 * y - 256 * q;
    TopTrit(y, 0, a, 27 * b + 9 * c + 3 * d + e, 1, x);
    TopTrit(3 * y, a, b, 27 * c + 9 * d + 3 * e, 3, 3 * x);
    TopTrit(9 * y, 3 * a + b, c, 27 * d + 9 * e, 9, 9 * x);
    TopTrit(27 * y, 9 * a + 3 * b + c, d, 27 * e, 27, 27 * x);
    TopTrit(81 * y, 27 * a + 9 * b + 3 * c + d, e, 0, 81, 81 * x);
  }

  // ---------------------------------------------------------------- runs of bytes

  /** Trits 0, 1, 2. */
  ghost predicate Trits(x: seq<nat>) {
    forall i :: 0 <= i < |x| ==> x[i] <= 2
  }

  /** The position of digit n of byte m in a run. */
  function Elem(first: nat, stride: nat, m: nat, n: nat): nat {
    first + n * stride + m
  }

  lemma ElemBound(first: nat, stride: nat, m: nat, n: nat, digits: nat)
    requires m < stride && n < digits
    ensures first <= Elem(first, stride, m, n) < first + digits * stride
  {
    MulMonotone(n + 1, digits, stride);
    assert (n + 1) * stride == n * stride + stride;
  }

  /** q after some digits. */
  function Horner(x: seq<nat>, first: nat, stride: nat, m: nat, n: nat): nat
    requires m < stride && first + n * stride <= |x|
  {
    if n == 0 then 0
    else
      ElemBound(first, stride, m, n - 1, n);
      assert (n - 1) * stride <= n * stride;
      3 * Horner(x, first, stride, m, n - 1) + x[Elem(first, stride, m, n - 1)]
  }

  /** Byte m of a run; a run of four digits shifts them up by one. */
  function RunByte(x: seq<nat>, first: nat, stride: nat, m: nat, digits: nat): nat
    requires m < stride && first + digits * stride <= |x| && 4 <= digits <= 5
  {
    Ceiling(if digits == 4 then 3 * Horner(x, first, stride, m, 4) else Horner(x, first, stride, m, 5))
  }

  /** Every digit of a run's byte decodes to the trit at its position. */
  lemma RunByteTrit(x: seq<nat>, first: nat, stride: nat, m: nat, digits: nat, n: nat)
    requires m < stride && first + digits * stride <= |x| && 4 <= digits <= 5 && n < digits && Trits(x)
    ensures first <= Elem(first, stride, m, n) < |x| && Trit(RunByte(x, first, stride, m, digits), n)
            == x[Elem(first, stride, m, n)]
    ensures RunByte(x, first, stride, m, digits) < 256
  {
    hide Trit;
    hide Ceiling;
    ElemBound(first, stride, m, n, digits);
    ElemBound(first, stride, m, 0, digits);
    ElemBound(first, stride, m, 1, digits);
    ElemBound(first, stride, m, 2, digits);
    ElemBound(first, stride, m, 3, digits);
    var a, b, c, d := x[Elem(first, stride, m, 0)], x[Elem(first, stride, m, 1)], x[Elem(first, stride, m, 2)],
      x[Elem(first, stride, m, 3)];
    FourDigits(x, first, stride, m, digits);
    if digits == 4 {
      FiveTrits(a, b, c, d, 0);
    } else {
      ElemBound(first, stride, m, 4, digits);
      FiveTrits(a, b, c, d, x[Elem(first, stride, m, 4)]);
    }
  }

  lemma FourDigits(x: seq<nat>, first: nat, stride: nat, m: nat, digits: nat)
    requires m < stride && first + digits * stride <= |x| && 4 <= digits <= 5
    ensures first + 4 * stride <= |x| && Elem(first, stride, m, 3) < |x|
    ensures Elem(first, stride, m, 0) < |x| && Elem(first, stride, m, 1) < |x| && Elem(first, stride, m, 2) < |x|
    ensures Horner(x, first, stride, m, 4)
              == 27 * x[Elem(first, stride, m, 0)] + 9 * x[Elem(first, stride, m, 1)] + 3 * x[Elem(first, stride, m, 2)]
                + x[Elem(first, stride, m, 3)]
  {
    ElemBound(first, stride, m, 0, 4);
    ElemBound(first, stride, m, 1, 4);
    ElemBound(first, stride, m, 2, 4);
    ElemBound(first, stride, m, 3, 4);
    assert Horner(x, first, stride, m, 0) == 0;
    assert Horner(x, first, stride, m, 1) == x[Elem(first, stride, m, 0)];
    assert Horner(x, first, stride, m, 2) == 3 * x[Elem(first, stride, m, 0)] + x[Elem(first, stride, m, 1)];
    assert Horner(x, first, stride, m, 3)
           == 9 * x[Elem(first, stride, m, 0)] + 3 * x[Elem(first, stride, m, 1)] + x[Elem(first, stride, m, 2)];
  }

  /** Encodes a run: stride bytes of so many digits each, written from start on. */
  method EncodeRun(x: seq<nat>, first: nat, stride: nat, digits: nat, y: array<nat>, start: nat)
    requires first + digits * stride <= |x| && 4 <= digits <= 5 && start + stride <= y.Length
    modifies y
    ensures forall k :: 0 <= k < y.Length ==>
            y[k] == if start <= k < start + stride then RunByte(x, first, stride, k - start, digits) else old(y[k])
  {
    var m := 0;
    while m < stride
      invariant m <= stride
      invariant forall k :: 0 <= k < y.Length ==>
                y[k] == if start <= k < start + m then RunByte(x, first, stride, k - start, digits) else old(y[k])
    {
      var q := EncodeByte(x, first, stride, m, digits);
      y[start + m] := q;
      m := m + 1;
    }
  }

  method EncodeByte(x: seq<nat>, first: nat, stride: nat, m: nat, digits: nat) returns (q: nat)
    requires first + digits * stride <= |x| && 4 <= digits <= 5 && m < stride
    ensures q == RunByte(x, first, stride, m, digits)
  {
    q := 0;
    var n := 0;
    while n < digits
      invariant n <= digits && first + n * stride <= |x| && q == Horner(x, first, stride, m, n)
    {
      ElemBound(first, stride, m, n, digits);
      MulMonotone(n + 1, digits, stride);
      q := q * 3;
      q := q + x[Elem(first, stride, m, n)];
      n := n + 1;
    }
    if digits == 4 { q := q * 3; }
    q := Ceiling(q);
  }

  /** What position i of a run decodes to. */
  function RunValue(y: seq<nat>, start: nat, stride: nat, i: nat): int
    requires stride > 0 && start + stride <= |y|
  {
    Trit(y[start + i % stride], i / stride) - 1
  }

  /** Decodes a run into consecutive positions, digit by digit. */
  method DecodeRun(y: seq<nat>, start: nat, stride: nat, digits: nat, out: array<int>, first: nat)
    requires stride > 0 && start + stride <= |y| && digits <= 5 && first + digits * stride <= out.Length
    modifies out
    ensures forall k :: 0 <= k < out.Length ==> out[k] == if first <= k < first + digits * stride then
                                                RunValue(y, start, stride, k - first) else old(out[k])
  {
    var p, n := first, 0;
    while n < digits
      invariant n <= digits && p == first + n * stride
      invariant forall k :: 0 <= k < out.Length ==>
                out[k] == if first <= k < p then RunValue(y, start, stride, k - first) else old(out[k])
    {
      MulMonotone(n + 1, digits, stride);
      assert (n + 1) * stride == n * stride + stride;
      var m := 0;
      while m < stride
        invariant m <= stride && p == first + n * stride + m
        invariant forall k :: 0 <= k < out.Length ==>
                  out[k] == if first <= k < p then RunValue(y, start, stride, k - first) else old(out[k])
      {
        RunPosition(n, m, stride);
        out[p] := Trit(y[start + m], n) - 1;
        p := p + 1;
        m := m + 1;
      }
      n := n + 1;
    }
  }

  lemma RunPosition(n: nat, m: nat, stride: nat)
    requires m < stride
    ensures (n * stride + m) / stride == n && (n * stride + m) % stride == m
  {
    QuotientUnique(n * stride + m, stride, n);
    assert n * stride + m == stride * n + (n * stride + m) % stride;
  }

  // ---------------------------------------------------------------- one super-block

  datatype Block = Block(qs: seq<nat>, qh: seq<nat>)

  ghost predicate Shaped(b: Block) {
    |b.qs| == QS && |b.qh| == QH
  }

  /** The three runs of a super-block: 160 trits along 32 bytes, 80 along 16 bytes, 16 along 4 bytes of four trits. */
  function BlockValue(b: Block, i: nat): int
    requires |b.qs| == QS && |b.qh| == QH && i < QK
  {
    if i < 160 then RunValue(b.qs, 0, 32, i) else if i < 240 then RunValue(b.qs, 32, 16, i - 160)
      else RunValue(b.qh, 0, 4, i - 240)
  }

  /** The bytes of the three runs. */
  ghost predicate Encodes(b: Block, x: seq<nat>)
    requires |x| == QK
  {
    && Shaped(b)
    && (forall k :: 0 <= k < QS ==>
        b.qs[k] == if k < 32 then RunByte(x, 0, 32, k, 5) else RunByte(x, 160, 16, k - 32, 5))
    && forall k :: 0 <= k < QH ==> b.qh[k] == RunByte(x, 240, 4, k, 4)
  }

  method EncodeBlock(x: seq<nat>) returns (b: Block)
    requires |x| == QK
    ensures Encodes(b, x)
  {
    hide RunByte;
    var qs, qh := new nat[QS], new nat[QH];
    EncodeRun(x, 0, 32, 5, qs, 0);
    EncodeRun(x, 160, 16, 5, qs, 32);
    EncodeRun(x, 240, 4, 4, qh, 0);
    b := Block(qs[..], qh[..]);
  }

  method DecodeBlock(b: Block, out: array<int>, at: nat)
    requires Shaped(b) && at + QK <= out.Length
    modifies out
    ensures forall k :: 0 <= k < out.Length ==>
            out[k] == if at <= k < at + QK then BlockValue(b, k - at) else old(out[k])
  {
    hide RunValue;
    DecodeRun(b.qs, 0, 32, 5, out, at);
    DecodeRun(b.qs, 32, 16, 5, out, at + 160);
    DecodeRun(b.qh, 0, 4, 4, out, at + 240);
  }

  /** A trit survives its super-block. */
  lemma BlockRoundTrip(x: seq<nat>, b: Block, i: nat)
    requires |x| == QK && Trits(x) && Encodes(b, x) && i < QK
    ensures BlockValue(b, i) + 1 == x[i]
  {
    hide Trit;
    hide RunByte;
    if i < 160 {
      RunByteTrit(x, 0, 32, i % 32, 5, i / 32);
    } else if i < 240 {
      var k := i - 160;
      RunByteTrit(x, 160, 16, k % 16, 5, k / 16);
      assert b.qs[32 + k % 16] == RunByte(x, 160, 16, k % 16, 5);
    } else {
      var k := i - 240;
      RunByteTrit(x, 240, 4, k % 4, 4, k / 4);
    }
  }

  // ---------------------------------------------------------------- a row of any number of super-blocks

  ghost predicate RowEncodes(y: seq<Block>, x: seq<nat>) {
    |x| == |y| * QK && forall i :: 0 <= i < |y| ==> Encodes(y[i], x[i * QK..i * QK + QK])
  }

  method EncodeRow(x: seq<nat>, nb: nat) returns (y: seq<Block>)
    requires |x| == nb * QK
    ensures |y| == nb && RowEncodes(y, x)
  {
    hide Encodes;
    y := [];
    var i := 0;
    while i < nb
      invariant i <= nb && |y| == i && forall k :: 0 <= k < i ==> Encodes(y[k], x[k * QK..k * QK + QK])
    {
      var b := EncodeBlock(x[i * QK..i * QK + QK]);
      y := y + [b];
      i := i + 1;
    }
  }

  /** Position k of a decoded row. */
  function RowValue(y: seq<Block>, k: nat): int
    requires k < |y| * QK && forall i :: 0 <= i < |y| ==> |y[i].qs| == QS && |y[i].qh| == QH
  {
    BlockValue(y[k / QK], k % QK)
  }

  method DecodeRow(y: seq<Block>, out: array<int>)
    requires out.Length == |y| * QK && forall i :: 0 <= i < |y| ==> |y[i].qs| == QS && |y[i].qh| == QH
    modifies out
    ensures forall k :: 0 <= k < out.Length ==> out[k] == RowValue(y, k)
  {
    hide BlockValue;
    var i := 0;
    while i < |y|
      invariant i <= |y| && forall k :: 0 <= k < i * QK ==> out[k] == RowValue(y, k)
    {
      DecodeBlock(y[i], out, i * QK);
      i := i + 1;
    }
  }

  /** Every trit of an encoded row decodes to itself, less one. */
  lemma RowRoundTrip(x: seq<nat>, y: seq<Block>, k: nat)
    requires Trits(x) && RowEncodes(y, x) && k < |x|
    ensures forall i :: 0 <= i < |y| ==> |y[i].qs| == QS && |y[i].qh| == QH
    ensures RowValue(y, k) + 1 == x[k]
  {
    hide RunByte;
    hide BlockValue;
    var i := k / QK;
    var part := x[i * QK..i * QK + QK];
    BlockRoundTrip(part, y[i], k % QK);
    assert part[k % QK] == x[k];
  }

  // ---------------------------------------------------------------- the values

  /** `id`: the inverse of the largest magnitude, or zero. */
  function Inverse(amax: real): real {
    if amax != 0.0 then 1.0 / amax else 0.0
  }

  /** lroundf(x * id) + 1. */
  function Quantise(round: real -> int, x: real, amax: real): (q: nat)
    requires Rounding(round) && -amax <= x <= amax
    ensures q <= 2
  {
    ScaledValue(x, amax);
    var v := x * Inverse(amax);
    assert v - 0.5 <= round(v) as real <= v + 0.5;
    round(v) + 1
  }

  /** What a value of magnitude at most amax decodes to is off by at most half of amax. */
  lemma TernaryError(round: real -> int, x: real, amax: real)
    requires Rounding(round) && -amax <= x <= amax
    ensures Magnitude((Quantise(round, x, amax) - 1) as real * amax - x) <= 0.5 * amax
  {
    var v := x * Inverse(amax);
    var r := round(v);
    ScaledValue(x, amax);
    assert v - 0.5 <= r as real <= v + 0.5;
    TermMonotone(amax, r as real - v, 0.5);
    TermMonotone(amax, -0.5, r as real - v);
  }

  lemma ScaledValue(x: real, amax: real)
    requires -amax <= x <= amax
    ensures (x * Inverse(amax)) * amax == x && -1.0 <= x * Inverse(amax) <= 1.0
  {
    hide Inverse;
    if amax > 0.0 {
      InverseMeaning(amax);
      InverseBounds(x, amax, Inverse(amax), x * Inverse(amax));
    } else {
      assert x == 0.0;
    }
  }

  lemma InverseMeaning(amax: real)
    requires amax > 0.0
    ensures Inverse(amax) * amax == 1.0
  {
  }

  lemma InverseBounds(x: real, amax: real, i: real, v: real)
    requires amax > 0.0 && -amax <= x <= amax && i * amax == 1.0 && v == x * i
    ensures v * amax == x && -1.0 <= v <= 1.0
  {
    assert v * amax == x * (i * amax);
    PositiveFactor(amax, 1.0 - v);
    PositiveFactor(amax, 1.0 + v);
  }

  /** The largest magnitude among the first n values. */
  function Largest(x: seq<real>, n: nat): (m: real)
    requires n <= |x|
    ensures m >= 0.0 && forall k :: 0 <= k < n ==> -m <= x[k] <= m
  {
    if n == 0 then 0.0
    else if Magnitude(x[n - 1]) > Largest(x, n - 1) then Magnitude(x[n - 1]) else Largest(x, n - 1)
  }

  function TritsOf(round: real -> int, x: seq<real>): (r: seq<nat>)
    requires Rounding(round)
    ensures |r| == |x| && Trits(r) && forall i :: 0 <= i < |r| ==> r[i] == Quantise(round, x[i], Largest(x, |x|))
  {
    seq(|x|, i requires 0 <= i < |x| => Quantise(round, x[i], Largest(x, |x|)))
  }

  /** One super-block: its largest magnitude becomes the factor. */
  method QuantiseBlock(round: real -> int, x: seq<real>) returns (b: Block, d: real)
    requires |x| == QK && Rounding(round)
    ensures Encodes(b, TritsOf(round, x)) && d == Largest(x, QK)
  {
    hide Encodes;
    hide Rounding;
    d := 0.0;
    var j := 0;
    while j < QK
      invariant j <= QK && d == Largest(x, j)
    {
      if Magnitude(x[j]) > d { d := Magnitude(x[j]); }
      j := j + 1;
    }
    b := EncodeBlock(TritsOf(round, x));
  }

  /** The values of super-block i. */
  function Part(x: seq<real>, i: nat): seq<real>
    requires i * QK + QK <= |x|
  {
    x[i * QK..i * QK + QK]
  }

  ghost predicate RowQuantised(y: seq<Block>, ds: seq<real>, round: real -> int, x: seq<real>)
    requires Rounding(round)
  {
    && |y| == |ds| && |x| == |y| * QK
    && forall i :: 0 <= i < |y| ==> Encodes(y[i], TritsOf(round, Part(x, i))) && ds[i] == Largest(Part(x, i), QK)
  }

  /** quantize_row_tq1_0_ref. */
  method QuantiseRow(round: real -> int, x: seq<real>, nb: nat) returns (y: seq<Block>, ds: seq<real>)
    requires |x| == nb * QK && Rounding(round)
    ensures RowQuantised(y, ds, round, x)
  {
    hide Encodes;
    hide Rounding;
    y, ds := [], [];
    var i := 0;
    while i < nb
      invariant i <= nb && |y| == |ds| == i
      invariant forall k :: 0 <= k < i ==> Encodes(y[k], TritsOf(round, Part(x, k))) && ds[k] == Largest(Part(x, k), QK)
    {
      var b, d := QuantiseBlock(round, Part(x, i));
      y, ds := y + [b], ds + [d];
      i := i + 1;
    }
  }

  /** Every value of a row decodes to something within half of the largest magnitude of its super-block. */
  lemma RowError(round: real -> int, x: seq<real>, y: seq<Block>, ds: seq<real>, k: nat)
    requires Rounding(round) && RowQuantised(y, ds, round, x) && k < |x|
    ensures forall i :: 0 <= i < |y| ==> |y[i].qs| == QS && |y[i].qh| == QH
    ensures Magnitude(RowValue(y, k) as real * ds[k / QK] - x[k]) <= 0.5 * ds[k / QK]
  {
    hide Rounding;
    hide RunByte;
    hide BlockValue;
    hide Quantise;
    hide Largest;
    var i := k / QK;
    var part := Part(x, i);
    assert part[k % QK] == x[k];
    BlockRoundTrip(TritsOf(round, part), y[i], k % QK);
    TernaryError(round, x[k], ds[i]);
  }
}
