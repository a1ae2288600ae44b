/** MUL_MAT over split operands (handle_mul_mat and the ratio propagation of CGGML/ggml-backend-meta.cpp): the local
    products make up the full product. */
module MetaMulMat {
  import opened Wrappers
  import opened Arithmetic
  import opened MetaReduce
  import opened MetaSplit

  /** Rows by columns; a row holds the elements that are multiplied and summed. */
  type Matrix = (nat, nat) -> real

  // ---------------------------------------------------------------- products

  /** The products that make up one element of the result. */
  function Products(a: Matrix, b: Matrix, row: nat, col: nat): nat -> real {
    (k: nat) => a(row, k) * b(col, k)
  }

  /** Element (row, col) of the product: row `row` of a times row `col` of b. */
  function Dot(a: Matrix, b: Matrix, row: nat, col: nat, k: nat): real {
    if k == 0 then 0.0 else Dot(a, b, row, col, k - 1) + a(row, k - 1) * b(col, k - 1)
  }

  lemma {:induction false} DotIsSum(a: Matrix, b: Matrix, row: nat, col: nat, k: nat)
    ensures Dot(a, b, row, col, k) == SumRange(Products(a, b, row, col), 0, k)
  {
    if k > 0 { DotIsSum(a, b, row, col, k - 1); }
  }

  // ---------------------------------------------------------------- what a device holds

  /** What device j holds of an operand: all of it, some columns (dimension 0) or some rows (dimension 1). */
  function Local(m: Matrix, st: SplitState, n: nat, j: nat): Matrix
    requires j < n && Table(st, n)
  {
    var idx := Indices(st, n, j, st.nSegments);
    match st.axis
    case Dim(0) => (r: nat, c: nat) => if c < |idx| then m(r, idx[c]) else 0.0
    case Dim(1) => (r: nat, c: nat) => if r < |idx| then m(idx[r], c) else 0.0
    case _ => m
  }

  /** The number of products per element on device j. */
  function LocalDepth(st: SplitState, n: nat, j: nat, k: nat): nat
    requires j < n && Table(st, n)
  {
    if st.axis == Dim(0) then Extent(st, n, j) else k
  }

  /** Element (row, col) of the product that device j computes. */
  function LocalDot(a: Matrix, b: Matrix, sa: SplitState, sb: SplitState, n: nat, k: nat, j: nat, row: nat,
                    col: nat): real
    requires j < n && Table(sa, n) && Table(sb, n)
  {
    Dot(Local(a, sa, n, j), Local(b, sb, n, j), row, col, LocalDepth(sa, n, j, k))
  }

  // ---------------------------------------------------------------- the state of the result

  /** Equal axes and, device by device, equal extents; segments are not compared. */
  predicate StatesEqual(a: SplitState, b: SplitState, n: nat)
    requires Table(a, n) && Table(b, n)
  {
    a.axis == b.axis && forall j :: 0 <= j < n ==> Extent(a, n, j) == Extent(b, n, j)
  }

  /** The axis of the result; none where the source aborts. */
  function HandleMulMat(sa: SplitState, sb: SplitState, n: nat, assumeSync: bool): Option<Axis>
    requires Table(sa, n) && Table(sb, n)
  {
    if sa.axis == Mirrored && sb.axis == Mirrored then Some(Mirrored)
    else if sa.axis == Dim(1) && sb.axis == Mirrored then Some(Dim(0))
    else if sb.axis == Dim(1) && sa.axis == Mirrored then Some(Dim(1))
    else if sa.axis == Dim(0) && sb.axis == Dim(0) then
      if StatesEqual(sa, sb, n) then Some(if assumeSync then Mirrored else Partial) else None
    else None
  }

  /** One extent taken over from a source, in the ratio of the two dimensions; none where the assertion fails. */
  function Scaled(extent: nat, dimOut: nat, dimSrc: nat): Option<nat> {
    var m := extent * dimOut;
    if m != 0 || dimSrc != 0 then
      if dimSrc != 0 && m % dimSrc == 0 then Some(m / dimSrc) else None
    else Some(m)
  }

  function TakeRatio(st: SplitState, n: nat, devices: nat, dimOut: nat, dimSrc: nat): (r: Option<seq<nat>>)
    requires devices <= n && Table(st, n)
    ensures r.Some? ==> |r.value| == devices
  {
    if devices == 0 then Some([])
    else
      var before, e := TakeRatio(st, n, devices - 1, dimOut, dimSrc),
        Scaled(Extent(st, n, devices - 1), dimOut, dimSrc);
      if before.Some? && e.Some? then Some(before.value + [e.value]) else None
  }

  lemma ScaledMeaning(extent: nat, dimOut: nat, dimSrc: nat)
    requires dimSrc > 0 && Scaled(extent, dimOut, dimSrc).Some?
    ensures Scaled(extent, dimOut, dimSrc).value * dimSrc == extent * dimOut
  {
    var m := extent * dimOut;
    assert m == dimSrc * (m / dimSrc) + m % dimSrc;
  }

  lemma {:induction false} RatioTotal(st: SplitState, n: nat, devices: nat, dimOut: nat, dimSrc: nat)
    requires devices <= n && Table(st, n) && dimSrc > 0 && TakeRatio(st, n, devices, dimOut, dimSrc).Some?
    ensures Total(TakeRatio(st, n, devices, dimOut, dimSrc).value, devices) * dimSrc
            == Total(Extents(st, n, devices), devices) * dimOut
  {
    hide Scaled;
    hide Extent;
    if devices > 0 {
      var before, e := TakeRatio(st, n, devices - 1, dimOut, dimSrc),
        Scaled(Extent(st, n, devices - 1), dimOut, dimSrc);
      RatioTotal(st, n, devices - 1, dimOut, dimSrc);
      ScaledMeaning(Extent(st, n, devices - 1), dimOut, dimSrc);
      TotalAppend(before.value, e.value, devices - 1);
      TotalAppend(Extents(st, n, devices - 1), Extent(st, n, devices - 1), devices - 1);
      Distribute(Total(before.value, devices - 1), e.value, dimSrc);
      Distribute(Total(Extents(st, n, devices - 1), devices - 1), Extent(st, n, devices - 1), dimOut);
    }
  }

  lemma Distribute(a: nat, b: nat, d: nat)
    ensures (a + b) * d == a * d + b * d
  {
  }

  lemma CancelFactor(a: nat, b: nat, d: nat)
    requires a * d == d * b && d > 0
    ensures a == b
  {
    if a < b { MulMonotone(a + 1, b, d); } else if b < a { MulMonotone(b + 1, a, d); }
  }

  /** The extents propagated to the result add up to its dimension, whatever the ratio. */
  lemma RatioAddsUp(st: SplitState, n: nat, dimOut: nat, dimSrc: nat)
    requires Splits(st, n, dimSrc) && Table(st, n) && dimSrc > 0 && TakeRatio(st, n, n, dimOut, dimSrc).Some?
    ensures Total(TakeRatio(st, n, n, dimOut, dimSrc).value, n) == dimOut
  {
    RatioTotal(st, n, n, dimOut, dimSrc);
    ExtentsAddUp(st, n, dimSrc);
    CancelFactor(Total(TakeRatio(st, n, n, dimOut, dimSrc).value, n), dimOut, dimSrc);
  }

  /** An extent can be taken over if nothing is left over, or if there is nothing to take over. */
  ghost predicate Divides(m: nat, dimSrc: nat) {
    if dimSrc == 0 then m == 0 else m % dimSrc == 0
  }

  lemma ScaledExactly(extent: nat, dimOut: nat, dimSrc: nat)
    ensures Scaled(extent, dimOut, dimSrc).Some? <==> Divides(extent * dimOut, dimSrc)
    ensures Divides(extent * dimOut, dimSrc) ==>
              var e := Scaled(extent, dimOut, dimSrc).value;
              e * dimSrc == extent * dimOut && (dimSrc == 0 ==> e == 0)
  {
    if dimSrc > 0 && Divides(extent * dimOut, dimSrc) { ScaledMeaning(extent, dimOut, dimSrc); }
  }

  /** The ratio is taken over exactly when it is whole on every device; an empty source gives an empty share. */
  lemma {:induction false} RatioExactly(st: SplitState, n: nat, devices: nat, dimOut: nat, dimSrc: nat)
    requires devices <= n && Table(st, n)
    ensures var r := TakeRatio(st, n, devices, dimOut, dimSrc);
      && (r.Some? <==> forall j :: 0 <= j < devices ==> Divides(Extent(st, n, j) * dimOut, dimSrc))
      && (r.Some? ==> forall j :: 0 <= j < devices ==>
            r.value[j] * dimSrc == Extent(st, n, j) * dimOut && (dimSrc == 0 ==> r.value[j] == 0))
  {
    if devices > 0 {
      RatioExactly(st, n, devices - 1, dimOut, dimSrc);
      ScaledExactly(Extent(st, n, devices - 1), dimOut, dimSrc);
      hide Scaled;
      hide Divides;
      hide Extent;
    }
  }

  /** With equal dimensions the extents are taken over unchanged. */
  lemma {:induction false} SameRatio(st: SplitState, n: nat, devices: nat, dim: nat)
    requires devices <= n && Table(st, n) && dim > 0
    ensures TakeRatio(st, n, devices, dim, dim) == Some(Extents(st, n, devices))
  {
    if devices > 0 {
      SameRatio(st, n, devices - 1, dim);
      SameScaled(Extent(st, n, devices - 1), dim);
    }
  }

  lemma SameScaled(extent: nat, dim: nat)
    requires dim > 0
    ensures Scaled(extent, dim, dim) == Some(extent)
  {
    var m := extent * dim;
    QuotientUnique(m, dim, extent);
    assert m == dim * (m / dim) + m % dim;
  }

  /** The loop that takes over the ratio of a source. */
  method TakeRatioLoop(st: SplitState, n: nat, dimOut: nat, dimSrc: nat) returns (r: Option<seq<nat>>)
    requires Table(st, n)
    ensures r == TakeRatio(st, n, n, dimOut, dimSrc)
  {
    hide RowStart;
    hide Scaled;
    var ne: seq<nat>, j, ok := [], 0, true;
    while j < n
      invariant j <= n && (if ok then TakeRatio(st, n, j, dimOut, dimSrc) == Some(ne)
                else TakeRatio(st, n, j, dimOut, dimSrc).None?)
    {
      var sum: nat, s := 0, 0;
      while s < st.nSegments
        invariant s <= st.nSegments && sum == Held(st, n, j, s)
      {
        SegmentIndex(st, n, s, j);
        sum := sum + st.ne[RowStart(n, s) + j];
        s := s + 1;
      }
      var e := Scaled(sum, dimOut, dimSrc);
      if ok && e.Some? { ne := ne + [e.value]; } else { ok := false; }
      j := j + 1;
    }
    r := if ok then Some(ne) else None;
  }

  // ---------------------------------------------------------------- where an element of the result is

  /** Element (row, col) of the result, put together from the local products along the reported axis; partial results
      are summed. */
  function Assembled(a: Matrix, b: Matrix, sa: SplitState, sb: SplitState, n: nat, k: nat, axis: Axis, ne: seq<nat>,
                     row: nat, col: nat): real
    requires n >= 1 && Table(sa, n) && Table(sb, n) && |ne| == n
    requires axis == Dim(0) ==> row < Total(ne, n)
    requires axis == Dim(1) ==> col < Total(ne, n)
  {
    match axis
    case Dim(0) => var o := Owner(ne, n, row); LocalDot(a, b, sa, sb, n, k, o.0, o.1, col)
    case Dim(1) => var o := Owner(ne, n, col); LocalDot(a, b, sa, sb, n, k, o.0, row, o.1)
    case Partial => Sum(Partials(a, b, sa, sb, n, k, row, col), 0, n)
    case _ => LocalDot(a, b, sa, sb, n, k, 0, row, col)
  }

  /** What each device computes for one element. */
  function Partials(a: Matrix, b: Matrix, sa: SplitState, sb: SplitState, n: nat, k: nat, row: nat,
                    col: nat): (v: seq<real>)
    requires Table(sa, n) && Table(sb, n)
    ensures |v| == n && forall j :: 0 <= j < n ==> v[j] == LocalDot(a, b, sa, sb, n, k, j, row, col)
  {
    seq(n, j requires 0 <= j < n => LocalDot(a, b, sa, sb, n, k, j, row, col))
  }

  // ---------------------------------------------------------------- rows of either operand split

  lemma {:induction false} DotOfRow(a: Matrix, b: Matrix, a': Matrix, b': Matrix, row: nat, col: nat, row': nat,
                                    col': nat, k: nat)
    requires forall c: nat :: c < k ==> a'(row', c) == a(row, c) && b'(col', c) == b(col, c)
    ensures Dot(a', b', row', col', k) == Dot(a, b, row, col, k)
  {
    if k > 0 { DotOfRow(a, b, a', b', row, col, row', col', k - 1); }
  }

  /** Rows of the first operand split: the element found at a row is that of the row in device order. */
  lemma RowsSplit(a: Matrix, b: Matrix, sa: SplitState, sb: SplitState, n: nat, m: nat, k: nat, row: nat, col: nat)
    requires Splits(sa, n, m) && Table(sa, n) && Table(sb, n) && sa.axis == Dim(1) && sb.axis == Mirrored && row < m
    ensures row < |Order(sa, n, n)| && row < Total(Extents(sa, n, n), n)
    ensures Assembled(a, b, sa, sb, n, k, Dim(0), Extents(sa, n, n), row, col)
            == Dot(a, b, Order(sa, n, n)[row], col, k)
  {
    ExtentsAddUp(sa, n, m);
    var o := Owner(Extents(sa, n, n), n, row);
    OrderAt(sa, n, n, o.0, o.1);
    DotOfRow(a, b, Local(a, sa, n, o.0), Local(b, sb, n, o.0), Order(sa, n, n)[row], col, o.1, col, k);
  }

  /** Rows of the second operand split, in the same way. */
  lemma ColumnsSplit(a: Matrix, b: Matrix, sa: SplitState, sb: SplitState, n: nat, m: nat, k: nat, row: nat, col: nat)
    requires Splits(sb, n, m) && Table(sa, n) && Table(sb, n) && sb.axis == Dim(1) && sa.axis == Mirrored && col < m
    ensures col < |Order(sb, n, n)| && col < Total(Extents(sb, n, n), n)
    ensures Assembled(a, b, sa, sb, n, k, Dim(1), Extents(sb, n, n), row, col)
            == Dot(a, b, row, Order(sb, n, n)[col], k)
  {
    ExtentsAddUp(sb, n, m);
    var o := Owner(Extents(sb, n, n), n, col);
    OrderAt(sb, n, n, o.0, o.1);
    DotOfRow(a, b, Local(a, sa, n, o.0), Local(b, sb, n, o.0), row, Order(sb, n, n)[col], row, o.1, k);
  }

  // ---------------------------------------------------------------- the summed dimension split

  /** Both operands hold the same part of the summed dimension on every device. */
  ghost predicate SameParts(sa: SplitState, sb: SplitState, n: nat)
    requires Table(sa, n) && Table(sb, n)
  {
    forall j :: 0 <= j < n ==> Indices(sa, n, j, sa.nSegments) == Indices(sb, n, j, sb.nSegments)
  }

  lemma {:induction false} LocalDotIsSum(a: Matrix, b: Matrix, idx: seq<nat>, a': Matrix, b': Matrix, row: nat,
                                         col: nat, k: nat)
    requires k <= |idx| && forall c: nat :: c < |idx| ==> a'(row, c) == a(row, idx[c]) && b'(col, c) == b(col, idx[c])
    ensures Dot(a', b', row, col, k) == SumOver(Products(a, b, row, col), idx[..k])
  {
    if k > 0 {
      LocalDotIsSum(a, b, idx, a', b', row, col, k - 1);
      assert idx[..k][..k - 1] == idx[..k - 1];
    }
  }

  lemma PartOfSum(a: Matrix, b: Matrix, sa: SplitState, sb: SplitState, n: nat, k: nat, row: nat, col: nat, j: nat)
    requires Table(sa, n) && Table(sb, n) && sa.axis == Dim(0) && sb.axis == Dim(0) && SameParts(sa, sb, n) && j < n
    ensures LocalDot(a, b, sa, sb, n, k, j, row, col) == SumOver(Products(a, b, row, col),
              Indices(sa, n, j, sa.nSegments))
  {
    var idx := Indices(sa, n, j, sa.nSegments);
    LocalDotIsSum(a, b, idx, Local(a, sa, n, j), Local(b, sb, n, j), row, col, |idx|);
    assert idx[..|idx|] == idx;
  }

  lemma {:induction false} PartialsAddUp(a: Matrix, b: Matrix, sa: SplitState, sb: SplitState, n: nat, k: nat, row: nat,
                                         col: nat, devices: nat)
    requires Table(sa, n) && Table(sb, n) && sa.axis == Dim(0) && sb.axis == Dim(0) && SameParts(sa, sb, n)
             && devices <= n
    ensures Sum(Partials(a, b, sa, sb, n, k, row, col), 0, devices)
            == SumDevices(Products(a, b, row, col), sa, n, devices, sa.nSegments)
  {
    hide LocalDot;
    hide Products;
    hide Indices;
    hide SumOver;
    hide Table;
    hide SameParts;
    if devices > 0 {
      var j := devices - 1;
      PartialsAddUp(a, b, sa, sb, n, k, row, col, j);
      PartOfSum(a, b, sa, sb, n, k, row, col, j);
    }
  }

  /** The partial products add up to the product. */
  lemma DepthSplit(a: Matrix, b: Matrix, sa: SplitState, sb: SplitState, n: nat, k: nat, ne: seq<nat>, row: nat,
                   col: nat)
    requires Splits(sa, n, k) && Table(sa, n) && Table(sb, n) && sa.axis == Dim(0) && sb.axis == Dim(0)
             && SameParts(sa, sb, n) && |ne| == n
    ensures Assembled(a, b, sa, sb, n, k, Partial, ne, row, col) == Dot(a, b, row, col, k)
  {
    PartialsAddUp(a, b, sa, sb, n, k, row, col, n);
    DevicesCover(Products(a, b, row, col), sa, n, sa.nSegments);
    DotIsSum(a, b, row, col, k);
  }

  /** After an all-reduce over a power of two devices every device holds the product, as a synchronised state
      assumes. */
  lemma ReducedIsProduct(a: Matrix, b: Matrix, sa: SplitState, sb: SplitState, n: nat, k: nat, row: nat, col: nat,
                         j: nat)
    requires Splits(sa, n, k) && Table(sa, n) && Table(sb, n) && sa.axis == Dim(0) && sb.axis == Dim(0)
             && SameParts(sa, sb, n)
    requires PowerOfTwo(n) && j < n
    ensures AllReduce(Partials(a, b, sa, sb, n, k, row, col))[j] == Dot(a, b, row, col, k)
  {
    hide AllReduce;
    hide LocalDot;
    PartialsAddUp(a, b, sa, sb, n, k, row, col, n);
    DevicesCover(Products(a, b, row, col), sa, n, sa.nSegments);
    DotIsSum(a, b, row, col, k);
    ReduceSumsExactlyForPowers(n);
  }

  // ---------------------------------------------------------------- when the summed dimension may be split

  /** One element of value one at (0, c). */
  function UnitAt(c: nat): Matrix {
    (r: nat, i: nat) => if i == c then 1.0 else 0.0
  }

  lemma {:induction false} UnitsApart(c: nat, d: nat, k: nat)
    requires c != d
    ensures Dot(UnitAt(c), UnitAt(d), 0, 0, k) == 0.0
  {
    if k > 0 { UnitsApart(c, d, k - 1); }
  }

  ghost predicate ZeroOrOne(m: Matrix) {
    forall r: nat, c: nat :: m(r, c) == 0.0 || m(r, c) == 1.0
  }

  /** A sum of products of zeros and ones is at least any of its terms. */
  lemma {:induction false} DotAtLeast(a: Matrix, b: Matrix, k: nat, t: nat)
    requires ZeroOrOne(a) && ZeroOrOne(b)
    ensures Dot(a, b, 0, 0, k) >= 0.0
    ensures t < k && a(0, t) == 1.0 && b(0, t) == 1.0 ==> Dot(a, b, 0, 0, k) >= 1.0
  {
    if k > 0 {
      DotAtLeast(a, b, k - 1, t);
      assert a(0, k - 1) == 0.0 || a(0, k - 1) == 1.0;
      assert b(0, k - 1) == 0.0 || b(0, k - 1) == 1.0;
    }
  }

  lemma {:induction false} SumAtLeast(v: seq<real>, n: nat, j: nat)
    requires j < n <= |v| && v[j] >= 1.0 && forall i :: 0 <= i < n ==> v[i] >= 0.0
    ensures Sum(v, 0, n) >= 1.0
  {
    if j < n - 1 {
      SumAtLeast(v, n - 1, j);
    } else {
      SumNonnegative(v, n - 1);
    }
  }

  lemma {:induction false} SumNonnegative(v: seq<real>, n: nat)
    requires n <= |v| && forall i :: 0 <= i < n ==> v[i] >= 0.0
    ensures Sum(v, 0, n) >= 0.0
  {
    if n > 0 { SumNonnegative(v, n - 1); }
  }

  /** The partial products add up to the product, for all operands of depth k. */
  ghost predicate DepthSplitIsExact(sa: SplitState, sb: SplitState, n: nat, k: nat)
    requires n >= 1 && Table(sa, n) && Table(sb, n)
  {
    forall a: Matrix, b: Matrix, row: nat, col: nat :: Sum(Partials(a, b, sa, sb, n, k, row, col), 0, n)
                                                       == Dot(a, b, row, col, k)
  }

  lemma LocalUnits(c: nat, st: SplitState, n: nat, j: nat)
    requires j < n && Table(st, n)
    ensures ZeroOrOne(Local(UnitAt(c), st, n, j))
  {
  }

  lemma DifferentPartsFail(sa: SplitState, sb: SplitState, n: nat, k: nat, j: nat, t: nat)
    requires n >= 1 && Table(sa, n) && Table(sb, n) && sa.axis == Dim(0) && sb.axis == Dim(0)
    requires j < n && t < Extent(sa, n, j) && Extent(sb, n, j) == Extent(sa, n, j)
    requires Indices(sa, n, j, sa.nSegments)[t] != Indices(sb, n, j, sb.nSegments)[t]
    ensures !DepthSplitIsExact(sa, sb, n, k)
  {
    UnitsSumWrong(sa, sb, n, k, j, t);
  }

  /** Ones at the two indices that meet on device j make the partial products add up to one or more, and the product
      zero. */
  lemma UnitsSumWrong(sa: SplitState, sb: SplitState, n: nat, k: nat, j: nat, t: nat)
    requires n >= 1 && Table(sa, n) && Table(sb, n) && sa.axis == Dim(0) && sb.axis == Dim(0)
    requires j < n && t < Extent(sa, n, j) && Extent(sb, n, j) == Extent(sa, n, j)
    requires Indices(sa, n, j, sa.nSegments)[t] != Indices(sb, n, j, sb.nSegments)[t]
    ensures var c, d := Indices(sa, n, j, sa.nSegments)[t], Indices(sb, n, j, sb.nSegments)[t];
            Sum(Partials(UnitAt(c), UnitAt(d), sa, sb, n, k, 0, 0), 0, n) != Dot(UnitAt(c), UnitAt(d), 0, 0, k)
  {
    var c, d := Indices(sa, n, j, sa.nSegments)[t], Indices(sb, n, j, sb.nSegments)[t];
    var v := Partials(UnitAt(c), UnitAt(d), sa, sb, n, k, 0, 0);
    forall i | 0 <= i < n ensures v[i] >= 0.0 {
      UnitPart(c, d, sa, sb, n, k, i, t);
    }
    UnitPart(c, d, sa, sb, n, k, j, t);
    SumAtLeast(v, n, j);
    UnitsApart(c, d, k);
  }

  lemma UnitPart(c: nat, d: nat, sa: SplitState, sb: SplitState, n: nat, k: nat, j: nat, t: nat)
    requires j < n && Table(sa, n) && Table(sb, n) && sa.axis == Dim(0) && sb.axis == Dim(0)
    ensures LocalDot(UnitAt(c), UnitAt(d), sa, sb, n, k, j, 0, 0) >= 0.0
    ensures t < Extent(sa, n, j) && t < Extent(sb, n, j) && Indices(sa, n, j, sa.nSegments)[t] == c
            && Indices(sb, n, j, sb.nSegments)[t] == d ==>
      LocalDot(UnitAt(c), UnitAt(d), sa, sb, n, k, j, 0, 0) >= 1.0
  {
    LocalUnits(c, sa, n, j);
    LocalUnits(d, sb, n, j);
    DotAtLeast(Local(UnitAt(c), sa, n, j), Local(UnitAt(d), sb, n, j), Extent(sa, n, j), t);
  }

  /** The source only compares extents. Under that check, splitting the summed dimension is right exactly when every
      device holds the same indices of both operands, which one segment each guarantees. */
  lemma DepthSplitExactly(sa: SplitState, sb: SplitState, n: nat, k: nat)
    requires Splits(sa, n, k) && Table(sa, n) && Table(sb, n) && sa.axis == Dim(0) && sb.axis == Dim(0)
             && StatesEqual(sa, sb, n)
    ensures DepthSplitIsExact(sa, sb, n, k) <==> SameParts(sa, sb, n)
  {
    hide Local;
    if SameParts(sa, sb, n) {
      forall a: Matrix, b: Matrix, row: nat, col: nat
        ensures Sum(Partials(a, b, sa, sb, n, k, row, col), 0, n) == Dot(a, b, row, col, k)
      {
        PartialsAddUp(a, b, sa, sb, n, k, row, col, n);
        DevicesCover(Products(a, b, row, col), sa, n, sa.nSegments);
        DotIsSum(a, b, row, col, k);
      }
    } else {
      var j :| 0 <= j < n && Indices(sa, n, j, sa.nSegments) != Indices(sb, n, j, sb.nSegments);
      var t :| 0 <= t < Extent(sa, n, j) && Indices(sa, n, j, sa.nSegments)[t] != Indices(sb, n, j, sb.nSegments)[t];
      DifferentPartsFail(sa, sb, n, k, j, t);
    }
  }

  lemma {:induction false} OneSegmentSameParts(sa: SplitState, sb: SplitState, n: nat)
    requires Table(sa, n) && Table(sb, n) && sa.nSegments == 1 && sb.nSegments == 1 && StatesEqual(sa, sb, n)
    ensures SameParts(sa, sb, n)
  {
    assert |sa.ne| == n && |sb.ne| == n;
    forall j | 0 <= j < n ensures Indices(sa, n, j, 1) == Indices(sb, n, j, 1) {
      assert Indices(sa, n, j, 0) == Indices(sb, n, j, 0) == [];
      SameTotals(sa, sb, n, j);
      assert sa.ne[j] == sb.ne[j];
    }
  }

  lemma {:induction false} SameTotals(sa: SplitState, sb: SplitState, n: nat, j: nat)
    requires Table(sa, n) && Table(sb, n) && sa.nSegments == 1 && sb.nSegments == 1 && StatesEqual(sa, sb, n) && j <= n
    ensures |sa.ne| == n && |sb.ne| == n && Total(sa.ne, j) == Total(sb.ne, j)
    ensures forall i :: 0 <= i < n ==> sa.ne[i] == sb.ne[i]
  {
    forall i | 0 <= i < n ensures sa.ne[i] == sb.ne[i] {
      assert Extent(sa, n, i) == Held(sa, n, i, 0) + sa.ne[i];
      assert Extent(sb, n, i) == Held(sb, n, i, 0) + sb.ne[i];
    }
    if j > 0 { SameTotals(sa, sb, n, j - 1); }
  }

  /** Extents alone do not settle it: two segments against one, with two devices, hold different indices. */
  lemma SegmentsMayMismatch()
    ensures var sa, sb := SplitState(Dim(0), [1, 1, 1, 1], 2), SplitState(Dim(0), [2, 2], 1);
      Splits(sa, 2, 4) && Splits(sb, 2, 4) && Table(sa, 2) && Table(sb, 2) && StatesEqual(sa, sb, 2)
        && !DepthSplitIsExact(sa, sb, 2, 4)
  {
    var sa, sb := SplitState(Dim(0), [1, 1, 1, 1], 2), SplitState(Dim(0), [2, 2], 1);
    assert Total(sa.ne, 0) == 0 && Total(sa.ne, 1) == 1 && Total(sa.ne, 2) == 2 && Total(sa.ne, 3) == 3
           && Total(sa.ne, 4) == 4;
    assert Total(sb.ne, 0) == 0 && Total(sb.ne, 1) == 2 && Total(sb.ne, 2) == 4;
    forall j | 0 <= j < 2 ensures Extent(sa, 2, j) == 2 && Extent(sb, 2, j) == 2 {
      assert Held(sa, 2, j, 0) == 0 && Held(sa, 2, j, 1) == 1 && Held(sb, 2, j, 0) == 0;
    }
    assert Indices(sa, 2, 0, 0) == [] && Indices(sa, 2, 0, 1) == [0] && Indices(sa, 2, 0, 2) == [0, 2];
    assert Indices(sb, 2, 0, 0) == [] && Indices(sb, 2, 0, 1) == [0, 1];
    DifferentPartsFail(sa, sb, 2, 4, 0, 1);
  }

  // ---------------------------------------------------------------- when rows may be split

  /** Element i of the first column is i. */
  function Counting(): Matrix {
    (r: nat, c: nat) => if c == 0 then r as real else 0.0
  }

  lemma {:induction false} CountingDot(row: nat, k: nat)
    requires k >= 1
    ensures Dot(Counting(), UnitAt(0), row, 0, k) == row as real
  {
    if k == 1 { assert Dot(Counting(), UnitAt(0), row, 0, 0) == 0.0; } else { CountingDot(row, k - 1); }
  }

  /** The result put together from the row parts is the product, for all operands. */
  ghost predicate RowSplitIsExact(sa: SplitState, sb: SplitState, n: nat, m: nat, k: nat)
    requires Splits(sa, n, m) && Table(sa, n) && Table(sb, n) && Total(Extents(sa, n, n), n) == m
  {
    forall a: Matrix, b: Matrix, row: nat, col: nat :: row < m ==>
      Assembled(a, b, sa, sb, n, k, Dim(0), Extents(sa, n, n), row, col) == Dot(a, b, row, col, k)
  }

  /** Splitting the rows of the first operand is right exactly when the devices hold them in order, as with one
      segment. */
  lemma RowSplitExactly(sa: SplitState, sb: SplitState, n: nat, m: nat, k: nat)
    requires Splits(sa, n, m) && Table(sa, n) && Table(sb, n) && sa.axis == Dim(1) && sb.axis == Mirrored && k >= 1
    ensures Total(Extents(sa, n, n), n) == m && |Order(sa, n, n)| == m
    ensures RowSplitIsExact(sa, sb, n, m, k) <==> InOrder(sa, n)
  {
    hide Assembled;
    ExtentsAddUp(sa, n, m);
    if InOrder(sa, n) {
      forall a: Matrix, b: Matrix, row: nat, col: nat | row < m
        ensures Assembled(a, b, sa, sb, n, k, Dim(0), Extents(sa, n, n), row, col) == Dot(a, b, row, col, k)
      {
        RowsSplit(a, b, sa, sb, n, m, k, row, col);
      }
    }
    if RowSplitIsExact(sa, sb, n, m, k) {
      forall p | 0 <= p < m ensures Order(sa, n, n)[p] == p {
        RowsSplit(Counting(), UnitAt(0), sa, sb, n, m, k, p, 0);
        CountingDot(p, k);
        CountingDot(Order(sa, n, n)[p], k);
      }
    }
  }

  /** The same for the rows of the second operand. */
  ghost predicate ColumnSplitIsExact(sa: SplitState, sb: SplitState, n: nat, m: nat, k: nat)
    requires Splits(sb, n, m) && Table(sa, n) && Table(sb, n) && Total(Extents(sb, n, n), n) == m
  {
    forall a: Matrix, b: Matrix, row: nat, col: nat :: col < m ==>
      Assembled(a, b, sa, sb, n, k, Dim(1), Extents(sb, n, n), row, col) == Dot(a, b, row, col, k)
  }

  lemma {:induction false} CountingDotRight(col: nat, k: nat)
    requires k >= 1
    ensures Dot(UnitAt(0), Counting(), 0, col, k) == col as real
  {
    if k == 1 { assert Dot(UnitAt(0), Counting(), 0, col, 0) == 0.0; } else { CountingDotRight(col, k - 1); }
  }

  lemma ColumnSplitExactly(sa: SplitState, sb: SplitState, n: nat, m: nat, k: nat)
    requires Splits(sb, n, m) && Table(sa, n) && Table(sb, n) && sb.axis == Dim(1) && sa.axis == Mirrored && k >= 1
    ensures Total(Extents(sb, n, n), n) == m && |Order(sb, n, n)| == m
    ensures ColumnSplitIsExact(sa, sb, n, m, k) <==> InOrder(sb, n)
  {
    hide Assembled;
    ExtentsAddUp(sb, n, m);
    if InOrder(sb, n) {
      forall a: Matrix, b: Matrix, row: nat, col: nat | col < m
        ensures Assembled(a, b, sa, sb, n, k, Dim(1), Extents(sb, n, n), row, col) == Dot(a, b, row, col, k)
      {
        ColumnsSplit(a, b, sa, sb, n, m, k, row, col);
      }
    }
    if ColumnSplitIsExact(sa, sb, n, m, k) {
      forall p | 0 <= p < m ensures Order(sb, n, n)[p] == p {
        ColumnsSplit(UnitAt(0), Counting(), sa, sb, n, m, k, 0, p);
        CountingDotRight(p, k);
        CountingDotRight(Order(sb, n, n)[p], k);
      }
    }
  }

  /** Rows out of order do occur: two segments of two rows each, shared by two devices, put rows 0 and 2 on the
      first. */
  lemma SegmentsMayReorder()
    ensures var sa, sb := SplitState(Dim(1), [1, 1, 1, 1], 2), SplitState(Mirrored, [0, 0], 1);
      && Splits(sa, 2, 4) && Table(sa, 2) && Table(sb, 2) && HandleMulMat(sa, sb, 2, false) == Some(Dim(0))
      && !InOrder(sa, 2)
      && Total(Extents(sa, 2, 2), 2) == 4 && !RowSplitIsExact(sa, sb, 2, 4, 1)
  {
    var sa, sb := SplitState(Dim(1), [1, 1, 1, 1], 2), SplitState(Mirrored, [0, 0], 1);
    assert Total(sa.ne, 0) == 0 && Total(sa.ne, 1) == 1 && Total(sa.ne, 2) == 2 && Total(sa.ne, 3) == 3
           && Total(sa.ne, 4) == 4;
    assert Indices(sa, 2, 0, 0) == [] && Indices(sa, 2, 0, 1) == [0] && Indices(sa, 2, 0, 2) == [0, 2];
    assert Order(sa, 2, 0) == [] && Order(sa, 2, 1) == [0, 2];
    assert Order(sa, 2, 2)[1] == 2;
    RowSplitExactly(sa, sb, 2, 4, 1);
  }

  // ---------------------------------------------------------------- the whole rule

  /** A state that an operand of the given rows and depth may have. */
  ghost predicate OperandState(st: SplitState, n: nat, rows: nat, k: nat) {
    && n >= 1 && Table(st, n) && st.axis != Partial
    && (st.axis == Dim(0) ==> Splits(st, n, k))
    && (st.axis == Dim(1) ==> Splits(st, n, rows))
  }

  /** Rows that are split are held in order, and a split depth is split into the same indices on both sides. */
  ghost predicate PartsMatch(sa: SplitState, sb: SplitState, n: nat)
    requires Table(sa, n) && Table(sb, n)
  {
    && (sa.axis == Dim(1) ==> InOrder(sa, n)) && (sb.axis == Dim(1) ==> InOrder(sb, n))
    && (sa.axis == Dim(0) && sb.axis == Dim(0) ==> SameParts(sa, sb, n))
  }

  /** The extents propagated to the result from the source that is split: first a, then b. */
  function ResultExtents(sa: SplitState, sb: SplitState, n: nat, axis: Axis, rows: nat, cols: nat): Option<seq<nat>>
    requires Table(sa, n) && Table(sb, n)
  {
    match axis
    case Dim(0) => TakeRatio(sa, n, n, rows, rows)
    case Dim(1) => TakeRatio(sb, n, n, cols, cols)
    case _ => Some(seq(n, _ => 0))
  }

  /** Whenever the rule gives a state, its extents are there and add up to the dimension it names. */
  lemma ResultIsSplit(sa: SplitState, sb: SplitState, n: nat, rows: nat, cols: nat, k: nat)
    requires OperandState(sa, n, rows, k) && OperandState(sb, n, cols, k) && rows >= 1 && cols >= 1
    requires HandleMulMat(sa, sb, n, false).Some?
    ensures var axis := HandleMulMat(sa, sb, n, false).value;
      && ResultExtents(sa, sb, n, axis, rows, cols).Some?
      && var ne := ResultExtents(sa, sb, n, axis, rows, cols).value;
         && |ne| == n
         && (axis == Dim(0) ==> Total(ne, n) == rows && ne == Extents(sa, n, n))
         && (axis == Dim(1) ==> Total(ne, n) == cols && ne == Extents(sb, n, n))
  {
    hide StatesEqual;
    hide TakeRatio;
    if sa.axis == Dim(1) && sb.axis == Mirrored {
      SameRatio(sa, n, n, rows);
      ExtentsAddUp(sa, n, rows);
    } else if sb.axis == Dim(1) && sa.axis == Mirrored {
      SameRatio(sb, n, n, cols);
      ExtentsAddUp(sb, n, cols);
    }
  }

  /** The result that the rule announces holds the product at (row, col): put together along its axis, summed up when it
      is partial, and on every device when it is mirrored. */
  ghost predicate HoldsProduct(a: Matrix, b: Matrix, sa: SplitState, sb: SplitState, n: nat, rows: nat, cols: nat,
                               k: nat,
                               row: nat, col: nat)
    requires OperandState(sa, n, rows, k) && OperandState(sb, n, cols, k) && row < rows && col < cols
    requires HandleMulMat(sa, sb, n, false).Some?
  {
    ResultIsSplit(sa, sb, n, rows, cols, k);
    var axis := HandleMulMat(sa, sb, n, false).value;
    var ne := ResultExtents(sa, sb, n, axis, rows, cols).value;
    && Assembled(a, b, sa, sb, n, k, axis, ne, row, col) == Dot(a, b, row, col, k)
    && (axis == Mirrored ==> forall j :: 0 <= j < n ==>
        LocalDot(a, b, sa, sb, n, k, j, row, col) == Dot(a, b, row, col, k))
  }

  /** The local products make up the product, when the parts match. */
  lemma ShardedMulMat(a: Matrix, b: Matrix, sa: SplitState, sb: SplitState, n: nat, rows: nat, cols: nat, k: nat,
                      row: nat, col: nat)
    requires OperandState(sa, n, rows, k) && OperandState(sb, n, cols, k) && row < rows && col < cols
    requires HandleMulMat(sa, sb, n, false).Some? && PartsMatch(sa, sb, n)
    ensures HoldsProduct(a, b, sa, sb, n, rows, cols, k, row, col)
  {
    hide StatesEqual;
    hide ResultExtents;
    hide Dot;
    ResultIsSplit(sa, sb, n, rows, cols, k);
    if sa.axis == Dim(1) && sb.axis == Mirrored {
      RowsSplit(a, b, sa, sb, n, rows, k, row, col);
    } else if sb.axis == Dim(1) && sa.axis == Mirrored {
      ColumnsSplit(a, b, sa, sb, n, cols, k, row, col);
    } else if sa.axis == Dim(0) {
      var axis := HandleMulMat(sa, sb, n, false).value;
      DepthSplit(a, b, sa, sb, n, k, ResultExtents(sa, sb, n, axis, rows, cols).value, row, col);
    }
  }

  /** Every element of every product is held as announced. */
  ghost predicate HoldsAllProducts(sa: SplitState, sb: SplitState, n: nat, rows: nat, cols: nat, k: nat)
    requires OperandState(sa, n, rows, k) && OperandState(sb, n, cols, k) && HandleMulMat(sa, sb, n, false).Some?
  {
    forall a: Matrix, b: Matrix, row: nat, col: nat :: row < rows && col < cols ==>
      HoldsProduct(a, b, sa, sb, n, rows, cols, k, row, col)
  }

  /** The rule accepts more states than it computes rightly: the products are held for all operands exactly when the
      parts match. */
  lemma ShardedMulMatExactly(sa: SplitState, sb: SplitState, n: nat, rows: nat, cols: nat, k: nat)
    requires OperandState(sa, n, rows, k) && OperandState(sb, n, cols, k) && rows >= 1 && cols >= 1 && k >= 1
    requires HandleMulMat(sa, sb, n, false).Some?
    ensures HoldsAllProducts(sa, sb, n, rows, cols, k) <==> PartsMatch(sa, sb, n)
  {
    hide HoldsProduct;
    hide Table;
    hide Splits;
    if PartsMatch(sa, sb, n) {
      forall a: Matrix, b: Matrix, row: nat, col: nat | row < rows && col < cols
        ensures HoldsProduct(a, b, sa, sb, n, rows, cols, k, row, col)
      {
        ShardedMulMat(a, b, sa, sb, n, rows, cols, k, row, col);
      }
    }
    if HoldsAllProducts(sa, sb, n, rows, cols, k) {
      if sa.axis == Dim(1) {
        RowsMustMatch(sa, sb, n, rows, cols, k);
      } else if sb.axis == Dim(1) {
        ColumnsMustMatch(sa, sb, n, rows, cols, k);
      } else if sa.axis == Dim(0) {
        DepthMustMatch(sa, sb, n, rows, cols, k);
      }
    }
  }

  lemma RowsMustMatch(sa: SplitState, sb: SplitState, n: nat, rows: nat, cols: nat, k: nat)
    requires OperandState(sa, n, rows, k) && OperandState(sb, n, cols, k) && rows >= 1 && cols >= 1 && k >= 1
    requires HandleMulMat(sa, sb, n, false).Some? && sa.axis == Dim(1) && HoldsAllProducts(sa, sb, n, rows, cols, k)
    ensures InOrder(sa, n)
  {
    hide Assembled;
    ResultIsSplit(sa, sb, n, rows, cols, k);
    RowSplitExactly(sa, sb, n, rows, k);
    forall p | 0 <= p < rows ensures Order(sa, n, n)[p] == p {
      assert HoldsProduct(Counting(), UnitAt(0), sa, sb, n, rows, cols, k, p, 0);
      RowsSplit(Counting(), UnitAt(0), sa, sb, n, rows, k, p, 0);
      CountingDot(p, k);
      CountingDot(Order(sa, n, n)[p], k);
    }
  }

  lemma ColumnsMustMatch(sa: SplitState, sb: SplitState, n: nat, rows: nat, cols: nat, k: nat)
    requires OperandState(sa, n, rows, k) && OperandState(sb, n, cols, k) && rows >= 1 && cols >= 1 && k >= 1
    requires HandleMulMat(sa, sb, n, false).Some? && sb.axis == Dim(1) && HoldsAllProducts(sa, sb, n, rows, cols, k)
    ensures InOrder(sb, n)
  {
    hide Assembled;
    ResultIsSplit(sa, sb, n, rows, cols, k);
    ColumnSplitExactly(sa, sb, n, cols, k);
    forall p | 0 <= p < cols ensures Order(sb, n, n)[p] == p {
      assert HoldsProduct(UnitAt(0), Counting(), sa, sb, n, rows, cols, k, 0, p);
      ColumnsSplit(UnitAt(0), Counting(), sa, sb, n, cols, k, 0, p);
      CountingDotRight(p, k);
      CountingDotRight(Order(sb, n, n)[p], k);
    }
  }

  lemma DepthMustMatch(sa: SplitState, sb: SplitState, n: nat, rows: nat, cols: nat, k: nat)
    requires OperandState(sa, n, rows, k) && OperandState(sb, n, cols, k) && rows >= 1 && cols >= 1 && k >= 1
    requires HandleMulMat(sa, sb, n, false).Some? && sa.axis == Dim(0) && HoldsAllProducts(sa, sb, n, rows, cols, k)
    ensures SameParts(sa, sb, n)
  {
    hide HoldsProduct;
    hide LocalDot;
    if !SameParts(sa, sb, n) {
      var j :| 0 <= j < n && Indices(sa, n, j, sa.nSegments) != Indices(sb, n, j, sb.nSegments);
      var t :| 0 <= t < Extent(sa, n, j) && Indices(sa, n, j, sa.nSegments)[t] != Indices(sb, n, j, sb.nSegments)[t];
      UnitsSumWrong(sa, sb, n, k, j, t);
      UnitsAreHeld(sa, sb, n, rows, cols, k, Indices(sa, n, j, sa.nSegments)[t], Indices(sb, n, j, sb.nSegments)[t]);
    }
  }

  lemma UnitsAreHeld(sa: SplitState, sb: SplitState, n: nat, rows: nat, cols: nat, k: nat, c: nat, d: nat)
    requires OperandState(sa, n, rows, k) && OperandState(sb, n, cols, k) && rows >= 1 && cols >= 1
    requires HandleMulMat(sa, sb, n, false) == Some(Partial) && HoldsAllProducts(sa, sb, n, rows, cols, k)
    ensures Sum(Partials(UnitAt(c), UnitAt(d), sa, sb, n, k, 0, 0), 0, n) == Dot(UnitAt(c), UnitAt(d), 0, 0, k)
  {
    hide LocalDot;
    assert HoldsProduct(UnitAt(c), UnitAt(d), sa, sb, n, rows, cols, k, 0, 0);
  }

  /** One segment on either side is enough: the rule is then right whatever it accepts. */
  lemma OneSegmentMulMat(a: Matrix, b: Matrix, sa: SplitState, sb: SplitState, n: nat, rows: nat, cols: nat, k: nat,
                         row: nat, col: nat)
    requires OperandState(sa, n, rows, k) && OperandState(sb, n, cols, k) && row < rows && col < cols
    requires HandleMulMat(sa, sb, n, false).Some? && sa.nSegments == 1 && sb.nSegments == 1
    ensures HoldsProduct(a, b, sa, sb, n, rows, cols, k, row, col)
  {
    hide HoldsProduct;
    hide Splits;
    SingleSegmentInOrder(sa, n);
    SingleSegmentInOrder(sb, n);
    if sa.axis == Dim(0) && sb.axis == Dim(0) { OneSegmentSameParts(sa, sb, n); }
    ShardedMulMat(a, b, sa, sb, n, rows, cols, k, row, col);
  }

  // ---------------------------------------------------------------- which states the rule accepts

  /** The rule gives a state for two mirrored operands, for one operand split by rows against a mirrored one, and for
      two operands split along the depth with equal extents on every device, and for no other pair; synchronisation does
      not matter for that. */
  lemma AcceptedExactly(sa: SplitState, sb: SplitState, n: nat, assumeSync: bool)
    requires Table(sa, n) && Table(sb, n)
    ensures HandleMulMat(sa, sb, n, assumeSync).Some? <==>
            || (sa.axis == Mirrored && sb.axis == Mirrored)
            || (sa.axis == Dim(1) && sb.axis == Mirrored)
            || (sa.axis == Mirrored && sb.axis == Dim(1))
            || (sa.axis == Dim(0) && sb.axis == Dim(0) && forall j :: 0 <= j < n ==>
                Extent(sa, n, j) == Extent(sb, n, j))
  {
  }

  /** A caller that assumes synchronisation gets the same state with a mirrored result in place of a partial one. */
  lemma SyncReplacesPartial(sa: SplitState, sb: SplitState, n: nat)
    requires Table(sa, n) && Table(sb, n)
    ensures var plain := HandleMulMat(sa, sb, n, false);
            HandleMulMat(sa, sb, n, true) == if plain == Some(Partial) then Some(Mirrored) else plain
    ensures HandleMulMat(sa, sb, n, false) == Some(Partial) <==>
            HandleMulMat(sa, sb, n, false).Some? && sa.axis == Dim(0) && sb.axis == Dim(0)
  {
  }

  /** What device j holds for element (row, col) of a result once the devices have synchronised: the reduced sum of
      partial products, or just its own product when there is nothing to sum. */
  function Synchronised(a: Matrix, b: Matrix, sa: SplitState, sb: SplitState, n: nat, k: nat, row: nat, col: nat,
                        j: nat): real
    requires Table(sa, n) && Table(sb, n) && j < n
  {
    if sa.axis == Dim(0) && sb.axis == Dim(0) then AllReduce(Partials(a, b, sa, sb, n, k, row, col))[j]
    else LocalDot(a, b, sa, sb, n, k, j, row, col)
  }

  /** A mirrored state that is announced under the assumption of synchronisation comes true: over a power of two devices
      whose parts match, every device holds the product after the all-reduce. */
  lemma SyncedMulMat(a: Matrix, b: Matrix, sa: SplitState, sb: SplitState, n: nat, rows: nat, cols: nat, k: nat,
                     row: nat, col: nat, j: nat)
    requires OperandState(sa, n, rows, k) && OperandState(sb, n, cols, k) && row < rows && col < cols && j < n
    requires HandleMulMat(sa, sb, n, true) == Some(Mirrored) && PartsMatch(sa, sb, n)
    requires sa.axis == Dim(0) ==> PowerOfTwo(n)
    ensures Synchronised(a, b, sa, sb, n, k, row, col, j) == Dot(a, b, row, col, k)
  {
    hide AllReduce;
    hide Partials;
    hide Dot;
    if sa.axis == Dim(0) && sb.axis == Dim(0) { ReducedIsProduct(a, b, sa, sb, n, k, row, col, j); }
  }

  lemma {:induction false} SumAtLeastBoth(v: seq<real>, n: nat, i: nat, j: nat)
    requires i < n <= |v| && j < n && i != j && forall x :: 0 <= x < n ==> v[x] >= 0.0
    ensures Sum(v, 0, n) >= v[i] + v[j]
  {
    if i == n - 1 {
      SumAtLeastOne(v, n - 1, j);
    } else if j == n - 1 {
      SumAtLeastOne(v, n - 1, i);
    } else {
      SumAtLeastBoth(v, n - 1, i, j);
    }
  }

  lemma {:induction false} SumAtLeastOne(v: seq<real>, n: nat, i: nat)
    requires i < n <= |v| && forall x :: 0 <= x < n ==> v[x] >= 0.0
    ensures Sum(v, 0, n) >= v[i]
  {
    if i == n - 1 { SumNonnegative(v, n - 1); } else { SumAtLeastOne(v, n - 1, i); }
  }

  /** A sum of at most one with one summand of at least one has no other summands. */
  lemma OneHasAll(v: seq<real>, n: nat, m: nat)
    requires m < n == |v| && v[m] >= 1.0 && Sum(v, 0, n) <= 1.0 && forall i :: 0 <= i < n ==> v[i] >= 0.0
    ensures v == Unit(n, m) && Sum(v, 0, n) == 1.0
  {
    SumAtLeastOne(v, n, m);
    forall i | 0 <= i < n && i != m ensures v[i] == 0.0 { SumAtLeastBoth(v, n, m, i); }
  }

  lemma {:induction false} UnitProduct(c: nat, k: nat)
    ensures Dot(UnitAt(c), UnitAt(c), 0, 0, k) == if c < k then 1.0 else 0.0
  {
    if k > 0 { UnitProduct(c, k - 1); }
  }

  /** The partial products of all devices add up to the product. */
  lemma PartialsAreProduct(a: Matrix, b: Matrix, sa: SplitState, sb: SplitState, n: nat, k: nat, row: nat, col: nat)
    requires Splits(sa, n, k) && Table(sa, n) && Table(sb, n) && sa.axis == Dim(0) && sb.axis == Dim(0)
    requires SameParts(sa, sb, n)
    ensures Sum(Partials(a, b, sa, sb, n, k, row, col), 0, n) == Dot(a, b, row, col, k)
  {
    hide LocalDot;
    PartialsAddUp(a, b, sa, sb, n, k, row, col, n);
    DevicesCover(Products(a, b, row, col), sa, n, sa.nSegments);
    DotIsSum(a, b, row, col, k);
  }

  /** With a one at an index that device m holds, the other devices compute zero. */
  lemma UnitPartials(sa: SplitState, sb: SplitState, n: nat, k: nat, m: nat, c: nat)
    requires Splits(sa, n, k) && Table(sa, n) && Table(sb, n) && sa.axis == Dim(0) && sb.axis == Dim(0)
    requires SameParts(sa, sb, n) && m < n && Extent(sa, n, m) > 0 && c == Indices(sa, n, m, sa.nSegments)[0]
    ensures Partials(UnitAt(c), UnitAt(c), sa, sb, n, k, 0, 0) == Unit(n, m)
    ensures Dot(UnitAt(c), UnitAt(c), 0, 0, k) == 1.0
  {
    hide *;
    var u := UnitAt(c);
    var v := Partials(u, u, sa, sb, n, k, 0, 0);
    PartialsAreProduct(u, u, sa, sb, n, k, 0, 0);
    UnitProduct(c, k);
    forall i | 0 <= i < n ensures v[i] >= 0.0 { UnitPart(c, c, sa, sb, n, k, i, 0); }
    FirstIndex(sa, sb, n, m);
    UnitPart(c, c, sa, sb, n, k, m, 0);
    OneHasAll(v, n, m);
  }

  lemma FirstIndex(sa: SplitState, sb: SplitState, n: nat, m: nat)
    requires Table(sa, n) && Table(sb, n) && SameParts(sa, sb, n) && m < n && Extent(sa, n, m) > 0
    ensures Extent(sb, n, m) == Extent(sa, n, m)
    ensures Indices(sb, n, m, sb.nSegments)[0] == Indices(sa, n, m, sa.nSegments)[0]
  {
  }

  /** Any other number of devices fails: with matching parts and an index on the first device past the largest power of
      two, some operands leave a device without the product. */
  lemma SyncNeedsPowerOfTwo(sa: SplitState, sb: SplitState, n: nat, rows: nat, cols: nat, k: nat, x: nat)
    requires OperandState(sa, n, rows, k) && OperandState(sb, n, cols, k) && rows >= 1 && cols >= 1
    requires HandleMulMat(sa, sb, n, true) == Some(Mirrored) && PartsMatch(sa, sb, n) && sa.axis == Dim(0)
    requires Pow2(x) < n < 2 * Pow2(x) && Extent(sa, n, Pow2(x)) > 0
    ensures exists a: Matrix, b: Matrix :: Synchronised(a, b, sa, sb, n, k, 0, 0, Pow2(x) - 1) != Dot(a, b, 0, 0, k)
  {
    hide Partials;
    hide AllReduce;
    hide Indices;
    hide Dot;
    UnitPartials(sa, sb, n, k, Pow2(x), Indices(sa, n, Pow2(x), sa.nSegments)[0]);
    OthersMiss(n, x);
    var u := UnitAt(Indices(sa, n, Pow2(x), sa.nSegments)[0]);
    assert Synchronised(u, u, sa, sb, n, k, 0, 0, Pow2(x) - 1) != Dot(u, u, 0, 0, k);
  }
}
