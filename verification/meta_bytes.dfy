/** Scattering tensor bytes over devices and gathering them (set_tensor, get_tensor and the strides of init_tensor in
    CGGML/ggml-backend-meta.cpp). */
module MetaBytes {
  import opened Arithmetic
  import opened MetaReduce
  import opened MetaSplit

  newtype Byte = b: int | 0 <= b < 256

  /** Byte t of a row among rows of the given width. */
  function At(row: nat, width: nat, t: nat): nat {
    row * width + t
  }

  lemma AtInside(row: nat, width: nat, t: nat, rows: nat)
    requires row < rows && t < width
    ensures At(row, width, t) < At(rows, width, 0)
  {
    MulMonotone(row + 1, rows, width);
    assert (row + 1) * width == row * width + width;
  }

  lemma AtRow(row: nat, width: nat, t: nat)
    requires t < width
    ensures At(row, width, t) / width == row && At(row, width, t) % width == t
  {
    QuotientUnique(At(row, width, t), width, row);
    assert At(row, width, t) == width * row + At(row, width, t) % width;
  }

  lemma RowOf(p: nat, width: nat, rows: nat)
    requires width > 0 && p < At(rows, width, 0)
    ensures 0 <= p / width < rows && 0 <= p % width < width && p == At(p / width, width, p % width)
  {
    QuotientFacts(p, width);
    assert p == width * (p / width) + p % width;
    if p / width >= rows { MulMonotone(rows, p / width, width); }
  }

  // ---------------------------------------------------------------- strides

  /** The stride of the next dimension on device j: scaled when it exceeds the stride of the split dimension. */
  function ChunkSize(unit: nat, full: nat, extent: nat, dim: nat): nat
    requires dim > 0
  {
    if full > unit then full * extent / dim else full
  }

  /** A contiguous dimension of so many units, of so many elements and bytes each; extents are multiples of a unit. */
  lemma ScaledChunk(unit: nat, units: nat, gran: nat, held: nat)
    requires unit > 0 && units > 0 && gran > 0
    ensures gran * units > 0 && (unit * units) * (gran * held) / (gran * units) == unit * held
  {
    var m, d := (unit * units) * (gran * held), gran * units;
    MulMonotone(1, units, gran);
    assert units * gran == gran * units;
    assert m == (unit * held) * d;
    QuotientUnique(m, d, unit * held);
  }

  /** The chunk sizes of the first devices. */
  function Chunks(unit: nat, units: nat, gran: nat, held: seq<nat>, n: nat): (c: seq<nat>)
    requires n <= |held| && gran * units > 0
    ensures |c| == n && forall j :: 0 <= j < n ==> c[j] == ChunkSize(unit, unit * units, gran * held[j], gran * units)
  {
    seq(n, j requires 0 <= j < n => ChunkSize(unit, unit * units, gran * held[j], gran * units))
  }

  lemma {:induction false} ChunksTotal(unit: nat, units: nat, gran: nat, held: seq<nat>, chunks: seq<nat>, n: nat)
    requires unit > 0 && units > 1 && gran > 0 && gran * units > 0 && n <= |held| == |chunks|
             && chunks == Chunks(unit, units, gran, held, |held|)
    ensures Total(chunks, n) == unit * Total(held, n)
  {
    if n > 0 {
      ChunksTotal(unit, units, gran, held, chunks, n - 1);
      ScaledChunk(unit, units, gran, held[n - 1]);
      UnitsExceed(unit, units);
      assert unit * (Total(held, n - 1) + held[n - 1]) == unit * Total(held, n - 1) + unit * held[n - 1];
    }
  }

  lemma UnitsExceed(unit: nat, units: nat)
    requires unit > 0 && units > 1
    ensures unit * units > unit
  {
    MulMonotone(2, units, unit);
  }

  lemma {:induction false} UnscaledTotal(full: nat, chunks: seq<nat>, n: nat)
    requires n <= |chunks| && forall j :: 0 <= j < n ==> chunks[j] == full
    ensures Total(chunks, n) == n * full
  {
    if n > 0 {
      UnscaledTotal(full, chunks, n - 1);
      assert (n - 1) * full + full == n * full;
    }
  }

  /** The chunks of the devices fill the chunk of the tensor exactly when there is one device or the split dimension has
      more than one unit: with one unit the strides are equal, nothing is scaled, and every device claims the whole
      chunk. */
  lemma ChunksFillExactly(unit: nat, units: nat, gran: nat, held: seq<nat>)
    requires unit > 0 && units > 0 && gran > 0 && gran * units > 0 && |held| >= 1 && Total(held, |held|) == units
    ensures Total(Chunks(unit, units, gran, held, |held|), |held|) == unit * units <==> (|held| == 1 || units > 1)
  {
    var chunks, n := Chunks(unit, units, gran, held, |held|), |held|;
    if units > 1 {
      ChunksTotal(unit, units, gran, held, chunks, n);
    } else {
      assert unit * units == unit;
      UnscaledTotal(unit, chunks, n);
      if n > 1 { MulMonotone(2, n, unit); }
    }
  }

  // ---------------------------------------------------------------- rows of one device

  /** Copies rows of the given width into consecutive rows of dst, from positions of src a stride apart
      (set_tensor_2d). */
  method SetRows(dst: seq<Byte>, width: nat, first: nat, copies: nat, src: seq<Byte>, srcOffset: nat, srcStride: nat)
    returns (r: seq<Byte>)
    requires At(first + copies, width, 0) <= |dst|
    requires srcOffset + width <= srcStride && At(copies, srcStride, 0) <= |src|
    ensures |r| == |dst|
    ensures forall row: nat, t: nat {:trigger r[At(row, width, t)]} :: t < width && At(row, width, t) < |dst| ==>
      r[At(row, width, t)] == RowByte(dst, width, first, copies, src, srcOffset, srcStride, row, t)
  {
    hide At;
    r := dst;
    var i := 0;
    NothingCopied(dst, width, first, src, srcOffset, srcStride);
    while i < copies
      invariant i <= copies && |r| == |dst|
      invariant forall row: nat, t: nat {:trigger r[At(row, width, t)]} :: t < width && At(row, width, t) < |dst| ==>
        r[At(row, width, t)] == RowByte(dst, width, first, i, src, srcOffset, srcStride, row, t)
    {
      var from, to := At(i, srcStride, srcOffset), At(first + i, width, 0);
      SliceBounds(i, copies, srcStride, srcOffset, width, |src|);
      SliceBounds(first + i, first + copies, width, 0, width, |dst|);
      ghost var before := r;
      r := r[..to] + src[from..from + width] + r[to + width..];
      OneRow(dst, before, r, width, first, i, src, srcOffset, srcStride);
      i := i + 1;
    }
  }

  /** What a byte is after some rows have been copied. */
  ghost function RowByte(dst: seq<Byte>, width: nat, first: nat, copies: nat, src: seq<Byte>, srcOffset: nat,
                         srcStride: nat, row: nat, t: nat): Byte
    requires At(row, width, t) < |dst|
  {
    if first <= row < first + copies && At(row - first, srcStride, srcOffset + t) < |src| then
      src[At(row - first, srcStride, srcOffset + t)]
    else dst[At(row, width, t)]
  }

  lemma NothingCopied(dst: seq<Byte>, width: nat, first: nat, src: seq<Byte>, srcOffset: nat, srcStride: nat)
    ensures forall row: nat, t: nat {:trigger dst[At(row, width, t)]} :: t < width && At(row, width, t) < |dst| ==>
      dst[At(row, width, t)] == RowByte(dst, width, first, 0, src, srcOffset, srcStride, row, t)
  {
  }

  lemma SliceBounds(i: nat, rows: nat, stride: nat, offset: nat, width: nat, length: nat)
    requires i < rows && offset + width <= stride && At(rows, stride, 0) <= length
    ensures At(i, stride, offset) + width <= length
  {
    MulMonotone(i + 1, rows, stride);
    assert (i + 1) * stride == i * stride + stride;
  }

  lemma OneRow(dst: seq<Byte>, before: seq<Byte>, after: seq<Byte>, width: nat, first: nat, i: nat, src: seq<Byte>,
               srcOffset: nat, srcStride: nat)
    requires |before| == |dst| && At(first + i, width, 0) + width <= |dst|
    requires srcOffset + width <= srcStride && At(i, srcStride, srcOffset) + width <= |src|
    requires forall row: nat, t: nat {:trigger before[At(row, width, t)]} :: t < width && At(row, width, t) < |dst| ==>
      before[At(row, width, t)] == RowByte(dst, width, first, i, src, srcOffset, srcStride, row, t)
    requires after == before[..At(first + i, width, 0)]
             + src[At(i, srcStride, srcOffset)..At(i, srcStride, srcOffset) + width]
               + before[At(first + i, width, 0) + width..]
    ensures forall row: nat, t: nat {:trigger after[At(row, width, t)]} :: t < width && At(row, width, t) < |dst| ==>
      after[At(row, width, t)] == RowByte(dst, width, first, i + 1, src, srcOffset, srcStride, row, t)
  {
    hide At;
    forall row: nat, t: nat | t < width && At(row, width, t) < |dst|
      ensures after[At(row, width, t)] == RowByte(dst, width, first, i + 1, src, srcOffset, srcStride, row, t)
    {
      Apart(row, first + i, width, t);
      Within(i, srcStride, srcOffset, t);
    }
  }

  lemma Apart(row: nat, other: nat, width: nat, t: nat)
    requires t < width
    ensures row < other ==> At(row, width, t) < At(other, width, 0)
    ensures row > other ==> At(row, width, t) >= At(other, width, 0) + width
    ensures row == other ==> At(row, width, t) == At(other, width, 0) + t
  {
    if row < other {
      MulMonotone(row + 1, other, width);
      assert (row + 1) * width == row * width + width;
    } else if row > other {
      MulMonotone(other + 1, row, width);
      assert (other + 1) * width == other * width + width;
    }
  }

  lemma Within(i: nat, stride: nat, offset: nat, t: nat)
    ensures At(i, stride, offset + t) == At(i, stride, offset) + t
  {
  }

  /** Copies consecutive rows of src to positions of dst a stride apart (get_tensor_2d). */
  method GetRows(dst: seq<Byte>, width: nat, first: nat, copies: nat, src: seq<Byte>, dstOffset: nat, dstStride: nat)
    returns (r: seq<Byte>)
    requires At(first + copies, width, 0) <= |src|
    requires dstOffset + width <= dstStride && At(copies, dstStride, 0) <= |dst|
    ensures |r| == |dst|
    ensures forall row: nat, u: nat {:trigger r[At(row, dstStride, u)]} ::
            u < dstStride && At(row, dstStride, u) < |dst| ==>
      r[At(row, dstStride, u)] == FilledByte(dst, width, first, copies, src, dstOffset, dstStride, row, u)
  {
    hide At;
    r := dst;
    var i := 0;
    while i < copies
      invariant i <= copies && |r| == |dst|
      invariant forall row: nat, u: nat {:trigger r[At(row, dstStride, u)]} ::
                u < dstStride && At(row, dstStride, u) < |dst| ==>
        r[At(row, dstStride, u)] == FilledByte(dst, width, first, i, src, dstOffset, dstStride, row, u)
    {
      var from, to := At(first + i, width, 0), At(i, dstStride, dstOffset);
      SliceBounds(i, copies, dstStride, dstOffset, width, |dst|);
      SliceBounds(first + i, first + copies, width, 0, width, |src|);
      ghost var before := r;
      r := r[..to] + src[from..from + width] + r[to + width..];
      OneFilled(dst, before, r, width, first, i, src, dstOffset, dstStride);
      i := i + 1;
    }
  }

  ghost function FilledByte(dst: seq<Byte>, width: nat, first: nat, copies: nat, src: seq<Byte>, dstOffset: nat,
                            dstStride: nat, row: nat, u: nat): Byte
    requires At(row, dstStride, u) < |dst|
  {
    if row < copies && dstOffset <= u < dstOffset + width && At(first + row, width, u - dstOffset) < |src| then
      src[At(first + row, width, u - dstOffset)]
    else dst[At(row, dstStride, u)]
  }

  lemma OneFilled(dst: seq<Byte>, before: seq<Byte>, after: seq<Byte>, width: nat, first: nat, i: nat, src: seq<Byte>,
                  dstOffset: nat, dstStride: nat)
    requires |before| == |dst| && At(first + i, width, 0) + width <= |src|
    requires dstOffset + width <= dstStride && At(i, dstStride, dstOffset) + width <= |dst|
    requires forall row: nat, u: nat {:trigger before[At(row, dstStride, u)]} ::
             u < dstStride && At(row, dstStride, u) < |dst| ==>
      before[At(row, dstStride, u)] == FilledByte(dst, width, first, i, src, dstOffset, dstStride, row, u)
    requires after == before[..At(i, dstStride, dstOffset)]
             + src[At(first + i, width, 0)..At(first + i, width, 0) + width]
               + before[At(i, dstStride, dstOffset) + width..]
    ensures forall row: nat, u: nat {:trigger after[At(row, dstStride, u)]} ::
            u < dstStride && At(row, dstStride, u) < |dst| ==>
      after[At(row, dstStride, u)] == FilledByte(dst, width, first, i + 1, src, dstOffset, dstStride, row, u)
  {
    hide At;
    forall row: nat, u: nat | u < dstStride && At(row, dstStride, u) < |dst|
      ensures after[At(row, dstStride, u)] == FilledByte(dst, width, first, i + 1, src, dstOffset, dstStride, row, u)
    {
      Apart(row, i, dstStride, u);
      Within(i, dstStride, 0, dstOffset);
      if dstOffset <= u { Within(first + i, width, 0, u - dstOffset); }
    }
  }

  // ---------------------------------------------------------------- a tensor over all devices

  /** Sizes: every device holds the same number of rows, each of its chunk; the chunks fill a row of the tensor. */
  ghost predicate Laid(simple: seq<seq<Byte>>, chunk: seq<nat>, full: nat, rows: nat) {
    && full > 0 && |simple| == |chunk| && Total(chunk, |chunk|) == full
    && forall j :: 0 <= j < |chunk| ==> |simple[j]| == At(rows, chunk[j], 0)
  }

  /** Byte p of the tensor: its row, and within the row the device whose chunk it falls in. */
  ghost function ByteAt(simple: seq<seq<Byte>>, chunk: seq<nat>, full: nat, rows: nat, p: nat): Byte
    requires Laid(simple, chunk, full, rows) && p < At(rows, full, 0)
  {
    RowOf(p, full, rows);
    var o := Owner(chunk, |chunk|, p % full);
    AtInside(p / full, chunk[o.0], o.1, rows);
    simple[o.0][At(p / full, chunk[o.0], o.1)]
  }

  /** All bytes of the tensor. */
  ghost function Bytes(simple: seq<seq<Byte>>, chunk: seq<nat>, full: nat, rows: nat): (r: seq<Byte>)
    requires Laid(simple, chunk, full, rows)
    ensures |r| == At(rows, full, 0) && forall p :: 0 <= p < |r| ==> r[p] == ByteAt(simple, chunk, full, rows, p)
  {
    seq(At(rows, full, 0), p requires 0 <= p < At(rows, full, 0) => ByteAt(simple, chunk, full, rows, p))
  }

  /** Every device has its part of the rows written. */
  ghost predicate Written(before: seq<seq<Byte>>, after: seq<seq<Byte>>, chunk: seq<nat>, full: nat, rows: nat,
                          first: nat, copies: nat, data: seq<Byte>)
    requires Laid(before, chunk, full, rows) && Laid(after, chunk, full, rows)
  {
    forall j: nat, row: nat, t: nat :: j < |chunk| && t < chunk[j] && row < rows
                                       && At(row, chunk[j], t) < |before[j]| ==>
      after[j][At(row, chunk[j], t)] == RowByte(before[j], chunk[j], first, copies, data, Total(chunk, j), full, row, t)
  }

  lemma WrittenByte(before: seq<seq<Byte>>, after: seq<seq<Byte>>, chunk: seq<nat>, full: nat, rows: nat, first: nat,
                    copies: nat, data: seq<Byte>, p: nat)
    requires Laid(before, chunk, full, rows) && Laid(after, chunk, full, rows)
             && Written(before, after, chunk, full, rows, first, copies, data)
    requires |data| == At(copies, full, 0) && p < At(rows, full, 0)
    ensures ByteAt(after, chunk, full, rows, p)
              == if At(first, full, 0) <= p < At(first, full, 0) + |data| then data[p - At(first, full, 0)]
                else ByteAt(before, chunk, full, rows, p)
  {
    hide At;
    RowOf(p, full, rows);
    var row, r := p / full, p % full;
    var o := Owner(chunk, |chunk|, r);
    AtInside(row, chunk[o.0], o.1, rows);
    RowsAway(row, first, copies, full, r);
    if first <= row < first + copies {
      AtInside(row - first, full, r, copies);
    }
  }

  lemma RowsAway(row: nat, first: nat, copies: nat, full: nat, r: nat)
    requires r < full
    ensures first <= row < first + copies <==>
            At(first, full, 0) <= At(row, full, r) < At(first, full, 0) + At(copies, full, 0)
    ensures first <= row ==> At(row - first, full, r) == At(row, full, r) - At(first, full, 0)
  {
    Apart(row, first, full, r);
    Apart(row, first + copies, full, r);
    assert At(first + copies, full, 0) == At(first, full, 0) + At(copies, full, 0);
    if first <= row { assert (row - first) * full == row * full - first * full; }
  }

  lemma WrittenBytes(before: seq<seq<Byte>>, after: seq<seq<Byte>>, chunk: seq<nat>, full: nat, rows: nat, first: nat,
                     copies: nat, data: seq<Byte>)
    requires Laid(before, chunk, full, rows) && Laid(after, chunk, full, rows)
             && Written(before, after, chunk, full, rows, first, copies, data)
    requires |data| == At(copies, full, 0) && first + copies <= rows
    ensures At(first, full, 0) + |data| <= At(rows, full, 0)
    ensures Bytes(after, chunk, full, rows) == Bytes(before, chunk, full,
              rows)[..At(first, full, 0)] + data + Bytes(before, chunk, full, rows)[At(first, full, 0) + |data|..]
  {
    MulMonotone(first + copies, rows, full);
    assert (first + copies) * full == first * full + copies * full;
    hide At;
    hide ByteAt;
    hide Written;
    hide Laid;
    forall p: nat | p < At(rows, full, 0)
      ensures ByteAt(after, chunk, full, rows, p)
              == if At(first, full, 0) <= p < At(first, full, 0) + |data| then data[p - At(first, full, 0)]
                else ByteAt(before, chunk, full, rows, p)
    {
      WrittenByte(before, after, chunk, full, rows, first, copies, data, p);
    }
  }

  /** A tensor split along one axis in one segment; the bytes of the simple tensors are replaced in place. */
  class ShardedTensor {
    const chunk: seq<nat>
    const full: nat
    const rows: nat
    var simple: seq<seq<Byte>>

    ghost predicate Valid()
      reads this
    {
      |chunk| >= 1 && Laid(simple, chunk, full, rows)
    }

    ghost function Contents(): seq<Byte>
      requires Valid()
      reads this
    {
      Bytes(simple, chunk, full, rows)
    }

    constructor (simple: seq<seq<Byte>>, chunk: seq<nat>, full: nat, rows: nat)
      requires |chunk| >= 1 && Laid(simple, chunk, full, rows)
      ensures Valid() && this.simple == simple && this.chunk == chunk && this.full == full && this.rows == rows
    {
      this.simple, this.chunk, this.full, this.rows := simple, chunk, full, rows;
    }

    /** Writes whole rows. */
    method SetTensor(data: seq<Byte>, offset: nat)
      requires Valid() && offset % full == 0 && |data| % full == 0 && offset + |data| <= At(rows, full, 0)
      modifies this
      ensures Valid() && Contents() == old(Contents())[..offset] + data + old(Contents())[offset + |data|..]
    {
      hide At;
      ghost var before := simple;
      var iStart, iStop := offset / full, (offset + |data|) / full;
      WholeRows(offset, |data|, full, rows);
      var offsetJ, j := 0, 0;
      while j < |chunk|
        invariant j <= |chunk| && offsetJ == Total(chunk, j) && Laid(simple, chunk, full, rows)
        invariant WrittenUpTo(before, simple, chunk, full, rows, iStart, iStop - iStart, data, j)
      {
        ChunkFits(chunk, j, full);
        MulMonotone(iStop, rows, chunk[j]);
        RowCount(iStart + (iStop - iStart), rows, chunk[j]);
        ghost var now := simple;
        var r := SetRows(simple[j], chunk[j], iStart, iStop - iStart, data, offsetJ, full);
        simple := simple[j := r];
        OneMoreDevice(before, now, simple, chunk, full, rows, iStart, iStop - iStart, data, j);
        offsetJ := offsetJ + chunk[j];
        j := j + 1;
      }
      assert offsetJ == full;
      AllWritten(before, simple, chunk, full, rows, iStart, iStop - iStart, data);
      WrittenBytes(before, simple, chunk, full, rows, iStart, iStop - iStart, data);
    }

    /** Reads whole rows into a buffer. */
    method GetTensor(buffer: seq<Byte>, offset: nat) returns (data: seq<Byte>)
      requires Valid() && offset % full == 0 && |buffer| % full == 0 && offset + |buffer| <= At(rows, full, 0)
      ensures data == Contents()[offset..offset + |buffer|]
    {
      hide At;
      var iStart, iStop := offset / full, (offset + |buffer|) / full;
      WholeRows(offset, |buffer|, full, rows);
      data := buffer;
      var offsetJ, j := 0, 0;
      while j < |chunk|
        invariant j <= |chunk| && offsetJ == Total(chunk, j) && |data| == |buffer|
        invariant ReadUpTo(simple, data, chunk, full, rows, iStart, offsetJ)
      {
        ChunkFits(chunk, j, full);
        RowCount(iStart + (iStop - iStart), rows, chunk[j]);
        ghost var now := data;
        data := GetRows(data, chunk[j], iStart, iStop - iStart, simple[j], offsetJ, full);
        OneMoreRead(simple, now, data, chunk, full, rows, iStart, iStop - iStart, j);
        offsetJ := offsetJ + chunk[j];
        j := j + 1;
      }
      AllRead(simple, data, chunk, full, rows, iStart, iStop - iStart);
    }
  }

  lemma WholeRows(offset: nat, size: nat, full: nat, rows: nat)
    requires full > 0 && offset % full == 0 && size % full == 0 && offset + size <= At(rows, full, 0)
    ensures var a, b := offset / full, (offset + size) / full;
      0 <= a <= b <= rows && offset == At(a, full, 0) && size == At(b - a, full, 0) && offset + size == At(b, full, 0)
  {
    var a, c := offset / full, size / full;
    assert offset == full * a && size == full * c;
    assert (a + c) * full == a * full + c * full;
    QuotientUnique(offset + size, full, a + c);
    if a + c > rows { MulMonotone(rows + 1, a + c, full); }
  }

  lemma RowCount(count: nat, rows: nat, width: nat)
    requires count <= rows
    ensures At(count, width, 0) <= At(rows, width, 0)
  {
    MulMonotone(count, rows, width);
  }

  lemma ChunkFits(chunk: seq<nat>, j: nat, full: nat)
    requires j < |chunk| && Total(chunk, |chunk|) == full
    ensures Total(chunk, j) + chunk[j] <= full
  {
    var next := j + 1;
    TotalGrows(chunk, next, |chunk|);
  }

  ghost predicate WrittenUpTo(before: seq<seq<Byte>>, after: seq<seq<Byte>>, chunk: seq<nat>, full: nat, rows: nat,
                              first: nat, copies: nat, data: seq<Byte>, devices: nat)
    requires Laid(before, chunk, full, rows) && Laid(after, chunk, full, rows) && devices <= |chunk|
  {
    && (forall j: nat, row: nat, t: nat :: j < devices && t < chunk[j] && row < rows
                                           && At(row, chunk[j], t) < |before[j]| ==>
          after[j][At(row, chunk[j], t)] == RowByte(before[j], chunk[j], first, copies, data, Total(chunk, j), full,
              row, t))
    && forall j: nat :: devices <= j < |chunk| ==> after[j] == before[j]
  }

  lemma OneMoreDevice(before: seq<seq<Byte>>, now: seq<seq<Byte>>, after: seq<seq<Byte>>, chunk: seq<nat>, full: nat,
                      rows: nat, first: nat, copies: nat, data: seq<Byte>, j: nat)
    requires Laid(before, chunk, full, rows) && Laid(now, chunk, full, rows) && j < |chunk|
    requires WrittenUpTo(before, now, chunk, full, rows, first, copies, data, j)
    requires |after| == |now| && after == now[j := after[j]] && |after[j]| == |now[j]|
    requires forall row: nat, t: nat :: t < chunk[j] && At(row, chunk[j], t) < |now[j]| ==>
      after[j][At(row, chunk[j], t)] == RowByte(now[j], chunk[j], first, copies, data, Total(chunk, j), full, row, t)
    ensures Laid(after, chunk, full, rows)
    ensures var next := j + 1; WrittenUpTo(before, after, chunk, full, rows, first, copies, data, next)
  {
    hide At;
    hide RowByte;
  }

  lemma AllWritten(before: seq<seq<Byte>>, after: seq<seq<Byte>>, chunk: seq<nat>, full: nat, rows: nat, first: nat,
                   copies: nat, data: seq<Byte>)
    requires Laid(before, chunk, full, rows) && Laid(after, chunk, full, rows)
    requires WrittenUpTo(before, after, chunk, full, rows, first, copies, data, |chunk|)
    ensures Written(before, after, chunk, full, rows, first, copies, data)
  {
    hide At;
    hide RowByte;
  }

  /** The bytes of the first chunks of every row have been read. */
  ghost predicate ReadUpTo(simple: seq<seq<Byte>>, data: seq<Byte>, chunk: seq<nat>, full: nat, rows: nat, first: nat,
                           upTo: nat)
    requires Laid(simple, chunk, full, rows)
  {
    forall row: nat, u: nat {:trigger data[At(row, full, u)]} ::
      u < upTo && u < full && At(row, full, u) < |data| && At(first + row, full, u) < At(rows, full, 0) ==>
      data[At(row, full, u)] == ByteAt(simple, chunk, full, rows, At(first + row, full, u))
  }

  /** The rows of one device have been filled in. */
  ghost predicate Filled(before: seq<Byte>, after: seq<Byte>, width: nat, first: nat, copies: nat, src: seq<Byte>,
                         dstOffset: nat, full: nat)
  {
    |after| == |before| && forall row: nat, u: nat {:trigger after[At(row, full, u)]} ::
      u < full && At(row, full, u) < |before| ==>
      after[At(row, full, u)] == FilledByte(before, width, first, copies, src, dstOffset, full, row, u)
  }

  lemma OneMoreRead(simple: seq<seq<Byte>>, before: seq<Byte>, after: seq<Byte>, chunk: seq<nat>, full: nat, rows: nat,
                    first: nat, copies: nat, j: nat)
    requires Laid(simple, chunk, full, rows) && j < |chunk| && |before| == At(copies, full, 0) && first + copies <= rows
    requires ReadUpTo(simple, before, chunk, full, rows, first, Total(chunk, j))
    requires Filled(before, after, chunk[j], first, copies, simple[j], Total(chunk, j), full)
    ensures ReadUpTo(simple, after, chunk, full, rows, first, Total(chunk, j) + chunk[j])
  {
    hide At;
    hide ByteAt;
    hide Laid;
    hide Filled;
    hide Total;
    LaidSizes(simple, chunk, full, rows);
    FilledSize(before, after, chunk[j], first, copies, simple[j], Total(chunk, j), full);
    forall row: nat, u: nat | u < Total(chunk, j) + chunk[j] && u < full && At(row, full, u) < |after|
      && At(first + row, full, u) < At(rows, full, 0)
      ensures after[At(row, full, u)] == ByteAt(simple, chunk, full, rows, At(first + row, full, u))
    {
      PointRead(simple, before, after, chunk, full, rows, first, copies, j, row, u);
    }
  }

  lemma PointRead(simple: seq<seq<Byte>>, before: seq<Byte>, after: seq<Byte>, chunk: seq<nat>, full: nat, rows: nat,
                  first: nat, copies: nat, j: nat, row: nat, u: nat)
    requires Laid(simple, chunk, full, rows) && j < |chunk| && |before| == At(copies, full, 0) && first + copies <= rows
    requires ReadUpTo(simple, before, chunk, full, rows, first, Total(chunk, j))
    requires Filled(before, after, chunk[j], first, copies, simple[j], Total(chunk, j), full)
    requires u < Total(chunk, j) + chunk[j] && u < full && At(row, full, u) < |after|
             && At(first + row, full, u) < At(rows, full, 0)
    ensures At(row, full, u) < |after| == |before| && after[At(row, full, u)]
            == ByteAt(simple, chunk, full, rows, At(first + row, full, u))
  {
    hide *;
    LaidSizes(simple, chunk, full, rows);
    FilledPoint(before, after, chunk[j], first, copies, simple[j], Total(chunk, j), full, row, u);
    if u >= Total(chunk, j) {
      RowBelow(row, copies, full, u);
      ReadByte(simple, chunk, full, rows, first + row, u, j);
      FilledNew(before, chunk[j], first, copies, simple[j], Total(chunk, j), full, row, u);
    } else {
      FilledOld(before, chunk[j], first, copies, simple[j], Total(chunk, j), full, row, u);
      ReadPoint(simple, before, chunk, full, rows, first, Total(chunk, j), row, u);
    }
  }

  lemma FilledSize(before: seq<Byte>, after: seq<Byte>, width: nat, first: nat, copies: nat, src: seq<Byte>,
                   dstOffset: nat, full: nat)
    requires Filled(before, after, width, first, copies, src, dstOffset, full)
    ensures |after| == |before|
  {
  }

  lemma LaidSizes(simple: seq<seq<Byte>>, chunk: seq<nat>, full: nat, rows: nat)
    requires Laid(simple, chunk, full, rows)
    ensures |simple| == |chunk|
  {
  }

  lemma FilledPoint(before: seq<Byte>, after: seq<Byte>, width: nat, first: nat, copies: nat, src: seq<Byte>,
                    dstOffset: nat, full: nat, row: nat, u: nat)
    requires Filled(before, after, width, first, copies, src, dstOffset, full) && u < full && At(row, full, u) < |after|
    ensures |after| == |before| && after[At(row, full, u)]
            == FilledByte(before, width, first, copies, src, dstOffset, full, row, u)
  {
    hide At;
    hide FilledByte;
  }

  lemma ReadPoint(simple: seq<seq<Byte>>, data: seq<Byte>, chunk: seq<nat>, full: nat, rows: nat, first: nat, upTo: nat,
                  row: nat, u: nat)
    requires Laid(simple, chunk, full, rows) && ReadUpTo(simple, data, chunk, full, rows, first, upTo)
    requires u < upTo && u < full && At(row, full, u) < |data| && At(first + row, full, u) < At(rows, full, 0)
    ensures data[At(row, full, u)] == ByteAt(simple, chunk, full, rows, At(first + row, full, u))
  {
    hide At;
    hide ByteAt;
    hide Laid;
  }

  lemma FilledNew(dst: seq<Byte>, width: nat, first: nat, copies: nat, src: seq<Byte>, dstOffset: nat, dstStride: nat,
                  row: nat, u: nat)
    requires At(row, dstStride, u) < |dst| && row < copies && dstOffset <= u < dstOffset + width
             && At(first + row, width, u - dstOffset) < |src|
    ensures FilledByte(dst, width, first, copies, src, dstOffset, dstStride, row, u)
            == src[At(first + row, width, u - dstOffset)]
  {
    hide At;
  }

  lemma FilledOld(dst: seq<Byte>, width: nat, first: nat, copies: nat, src: seq<Byte>, dstOffset: nat, dstStride: nat,
                  row: nat, u: nat)
    requires At(row, dstStride, u) < |dst| && u < dstOffset
    ensures FilledByte(dst, width, first, copies, src, dstOffset, dstStride, row, u) == dst[At(row, dstStride, u)]
  {
    hide At;
  }

  lemma RowBelow(row: nat, copies: nat, full: nat, u: nat)
    requires u < full && At(row, full, u) < At(copies, full, 0)
    ensures row < copies
  {
    Apart(row, copies, full, u);
  }

  lemma ReadByte(simple: seq<seq<Byte>>, chunk: seq<nat>, full: nat, rows: nat, row: nat, u: nat, j: nat)
    requires Laid(simple, chunk, full, rows) && j < |chunk| && Total(chunk, j) <= u < Total(chunk, j) + chunk[j]
             && u < full && row < rows
    ensures At(row, full, u) < At(rows, full, 0) && At(row, chunk[j], u - Total(chunk, j)) < |simple[j]|
    ensures ByteAt(simple, chunk, full, rows, At(row, full, u)) == simple[j][At(row, chunk[j], u - Total(chunk, j))]
  {
    hide At;
    AtInside(row, full, u, rows);
    AtInside(row, chunk[j], u - Total(chunk, j), rows);
    AtRow(row, full, u);
    OwnerUnique(chunk, |chunk|, u, j);
  }

  lemma {:induction false} OwnerUnique(ne: seq<nat>, n: nat, p: nat, j: nat)
    requires j < n <= |ne| && Total(ne, j) <= p < Total(ne, j) + ne[j]
    ensures p < Total(ne, n) && Owner(ne, n, p) == (j, p - Total(ne, j))
  {
    var next := j + 1;
    TotalGrows(ne, next, n);
    if j < n - 1 {
      TotalGrows(ne, next, n - 1);
      OwnerUnique(ne, n - 1, p, j);
    }
  }

  lemma AllRead(simple: seq<seq<Byte>>, data: seq<Byte>, chunk: seq<nat>, full: nat, rows: nat, first: nat, copies: nat)
    requires Laid(simple, chunk, full, rows) && |data| == At(copies, full, 0) && first + copies <= rows
    requires ReadUpTo(simple, data, chunk, full, rows, first, full)
    ensures At(first, full, 0) + |data| <= At(rows, full, 0)
    ensures data == Bytes(simple, chunk, full, rows)[At(first, full, 0)..At(first, full, 0) + |data|]
  {
    RowCount(first + copies, rows, full);
    assert (first + copies) * full == first * full + copies * full;
    forall p: nat | p < |data| ensures data[p] == ByteAt(simple, chunk, full, rows, At(first, full, 0) + p) {
      RowOf(p, full, copies);
      ShiftRow(first, p / full, full, p % full);
    }
  }

  lemma ShiftRow(first: nat, row: nat, full: nat, u: nat)
    ensures At(first + row, full, u) == At(first, full, 0) + At(row, full, u)
  {
  }

  /** What was written is what is read. */
  method SetThenGet(t: ShardedTensor, data: seq<Byte>, buffer: seq<Byte>, offset: nat) returns (r: seq<Byte>)
    requires t.Valid() && offset % t.full == 0 && |data| % t.full == 0 && offset + |data| <= At(t.rows, t.full, 0)
             && |buffer| == |data|
    modifies t
    ensures r == data
  {
    t.SetTensor(data, offset);
    r := t.GetTensor(buffer, offset);
  }
}
