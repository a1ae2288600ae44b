/** Split states of the meta backend (CGGML/ggml-backend-meta.cpp): which part of a dimension each device holds, and the
    states of a matrix product. */
module MetaSplit {
  import opened Wrappers

  datatype Axis = Dim(d: nat) | Mirrored | Partial

  /** ggml_backend_meta_split_state: ne holds nSegments rows of one extent per device. */
  datatype SplitState = SplitState(axis: Axis, ne: seq<nat>, nSegments: nat)

  function Total(ne: seq<nat>, n: nat): nat
    requires n <= |ne|
  {
    if n == 0 then 0 else Total(ne, n - 1) + ne[n - 1]
  }

  /** Where the extents of a segment start. */
  function RowStart(n: nat, s: nat): nat {
    s * n
  }

  predicate Table(st: SplitState, n: nat) {
    |st.ne| == RowStart(n, st.nSegments)
  }

  /** A state over n devices that splits a dimension of the given extent. */
  ghost predicate Splits(st: SplitState, n: nat, extent: nat) {
    && n >= 1 && st.nSegments >= 1 && Table(st, n) && Total(st.ne, |st.ne|) == extent
  }

  /** What device j holds over the first segments. */
  function Held(st: SplitState, n: nat, j: nat, segments: nat): nat
    requires j < n && segments <= st.nSegments && Table(st, n)
  {
    if segments == 0 then 0
    else
      SegmentIndex(st, n, segments - 1, j);
      Held(st, n, j, segments - 1) + st.ne[RowStart(n, segments - 1) + j]
  }

  function Extent(st: SplitState, n: nat, j: nat): nat
    requires j < n && Table(st, n)
  {
    Held(st, n, j, st.nSegments)
  }

  lemma SegmentIndex(st: SplitState, n: nat, s: nat, j: nat)
    requires s < st.nSegments && j < n && Table(st, n)
    ensures RowStart(n, s) + j < |st.ne|
    ensures var next := s + 1; RowStart(n, next) == RowStart(n, s) + n <= |st.ne|
  {
    var segments := st.nSegments;
    assert (segments - 1 - s) * n >= 0;
    assert segments * n == (segments - 1 - s) * n + s * n + n;
  }

  // ---------------------------------------------------------------- which global indices a device holds

  function Range(start: nat, length: nat): (r: seq<nat>)
    ensures |r| == length && forall t :: 0 <= t < length ==> r[t] == start + t
  {
    seq(length, t => start + t)
  }

  /** The pieces lie one after the other, segment by segment and within a segment device by device. */
  function Indices(st: SplitState, n: nat, j: nat, segments: nat): (r: seq<nat>)
    requires j < n && segments <= st.nSegments && Table(st, n)
    ensures |r| == Held(st, n, j, segments)
  {
    if segments == 0 then []
    else
      SegmentIndex(st, n, segments - 1, j);
      var q := RowStart(n, segments - 1) + j;
      Indices(st, n, j, segments - 1) + Range(Total(st.ne, q), st.ne[q])
  }

  /** All global indices in the order of the devices that hold them. */
  function Order(st: SplitState, n: nat, devices: nat): (r: seq<nat>)
    requires devices <= n && Table(st, n)
  {
    if devices == 0 then [] else Order(st, n, devices - 1) + Indices(st, n, devices - 1, st.nSegments)
  }

  // ---------------------------------------------------------------- sums over the pieces

  function SumRange(f: nat -> real, lo: nat, hi: nat): real
    requires lo <= hi
    decreases hi
  {
    if lo == hi then 0.0 else SumRange(f, lo, hi - 1) + f(hi - 1)
  }

  function SumOver(f: nat -> real, idx: seq<nat>): real {
    if idx == [] then 0.0 else SumOver(f, idx[..|idx| - 1]) + f(idx[|idx| - 1])
  }

  lemma {:induction false} SumOverAppend(f: nat -> real, u: seq<nat>, v: seq<nat>)
    ensures SumOver(f, u + v) == SumOver(f, u) + SumOver(f, v)
    decreases |v|
  {
    if v == [] {
      assert u + v == u;
    } else {
      assert (u + v)[..|u + v| - 1] == u + v[..|v| - 1];
      SumOverAppend(f, u, v[..|v| - 1]);
    }
  }

  lemma {:induction false} SumOverRange(f: nat -> real, start: nat, length: nat)
    ensures SumOver(f, Range(start, length)) == SumRange(f, start, start + length)
  {
    if length > 0 {
      SumOverRange(f, start, length - 1);
      assert Range(start, length)[..length - 1] == Range(start, length - 1);
    }
  }

  lemma {:induction false} SumRangeSplit(f: nat -> real, lo: nat, mid: nat, hi: nat)
    requires lo <= mid <= hi
    ensures SumRange(f, lo, hi) == SumRange(f, lo, mid) + SumRange(f, mid, hi)
    decreases hi
  {
    if mid < hi { SumRangeSplit(f, lo, mid, hi - 1); }
  }

  /** The sum over what the first devices hold of the first segments. */
  function SumDevices(f: nat -> real, st: SplitState, n: nat, devices: nat, segments: nat): real
    requires devices <= n && segments <= st.nSegments && Table(st, n)
  {
    if devices == 0 then 0.0 else SumDevices(f, st, n, devices - 1, segments) + SumOver(f,
                                  Indices(st, n, devices - 1, segments))
  }

  lemma {:induction false} TotalGrows(ne: seq<nat>, a: nat, b: nat)
    requires a <= b <= |ne|
    ensures Total(ne, a) <= Total(ne, b)
  {
    if a < b { TotalGrows(ne, a, b - 1); }
  }

  lemma {:induction false} NoSegments(f: nat -> real, st: SplitState, n: nat, devices: nat)
    requires devices <= n && Table(st, n)
    ensures SumDevices(f, st, n, devices, 0) == 0.0
  {
    if devices > 0 { NoSegments(f, st, n, devices - 1); }
  }

  lemma OneMorePiece(f: nat -> real, st: SplitState, n: nat, j: nat, s: nat)
    requires j < n && s < st.nSegments && Table(st, n) && RowStart(n, s) + j < |st.ne|
    ensures var next, q := s + 1, RowStart(n, s) + j;
      SumOver(f, Indices(st, n, j, next)) == SumOver(f, Indices(st, n, j, s)) + SumRange(f, Total(st.ne, q),
          Total(st.ne, q) + st.ne[q])
  {
    hide Table;
    hide RowStart;
    hide SumOver;
    var q := RowStart(n, s) + j;
    SumOverAppend(f, Indices(st, n, j, s), Range(Total(st.ne, q), st.ne[q]));
    SumOverRange(f, Total(st.ne, q), st.ne[q]);
  }

  /** One more segment adds the pieces of that segment. */
  lemma {:induction false} OneMoreSegment(f: nat -> real, st: SplitState, n: nat, devices: nat, s: nat)
    requires devices <= n && s < st.nSegments && Table(st, n) && RowStart(n, s) + n <= |st.ne|
    ensures Total(st.ne, RowStart(n, s)) <= Total(st.ne, RowStart(n, s) + devices)
    ensures var next := s + 1;
            SumDevices(f, st, n, devices, next) == SumDevices(f, st, n, devices, s) + SumRange(f,
                Total(st.ne, RowStart(n, s)), Total(st.ne, RowStart(n, s) + devices))
  {
    hide Table;
    hide RowStart;
    hide Indices;
    hide SumOver;
    if devices > 0 {
      var j := devices - 1;
      OneMoreSegment(f, st, n, j, s);
      var q := RowStart(n, s) + j;
      TotalGrows(st.ne, RowStart(n, s), q);
      OneMorePiece(f, st, n, j, s);
      SumRangeSplit(f, Total(st.ne, RowStart(n, s)), Total(st.ne, q), Total(st.ne, q) + st.ne[q]);
    }
  }

  lemma RowZero(n: nat)
    ensures RowStart(n, 0) == 0
  {
  }

  /** The devices together hold every index once: a sum over all devices is the sum over the dimension. */
  lemma {:induction false} DevicesCover(f: nat -> real, st: SplitState, n: nat, segments: nat)
    requires n >= 1 && segments <= st.nSegments && Table(st, n)
    ensures RowStart(n, segments) <= |st.ne| && SumDevices(f, st, n, n, segments)
            == SumRange(f, 0, Total(st.ne, RowStart(n, segments)))
  {
    hide Table;
    hide RowStart;
    hide SumDevices;
    if segments == 0 {
      RowZero(n);
      NoSegments(f, st, n, n);
    } else {
      hide SumRange;
      hide Total;
      var s := segments - 1;
      SegmentIndex(st, n, s, 0);
      DevicesCover(f, st, n, s);
      OneMoreSegment(f, st, n, n, s);
      TotalGrows(st.ne, RowStart(n, s), RowStart(n, segments));
      SumRangeSplit(f, 0, Total(st.ne, RowStart(n, s)), Total(st.ne, RowStart(n, segments)));
    }
  }

  // ---------------------------------------------------------------- the extents add up

  function Extents(st: SplitState, n: nat, devices: nat): (e: seq<nat>)
    requires devices <= n && Table(st, n)
    ensures |e| == devices && forall j :: 0 <= j < devices ==> e[j] == Extent(st, n, j)
  {
    if devices == 0 then [] else Extents(st, n, devices - 1) + [Extent(st, n, devices - 1)]
  }

  function One(k: nat): real {
    1.0
  }

  lemma {:induction false} SumOnes(idx: seq<nat>)
    ensures SumOver(One, idx) == |idx| as real
  {
    if idx != [] { SumOnes(idx[..|idx| - 1]); }
  }

  lemma {:induction false} RangeOnes(lo: nat, hi: nat)
    requires lo <= hi
    ensures SumRange(One, lo, hi) == (hi - lo) as real
    decreases hi
  {
    if lo < hi { RangeOnes(lo, hi - 1); }
  }

  lemma {:induction false} TotalAppend(e: seq<nat>, x: nat, n: nat)
    requires n <= |e|
    ensures Total(e + [x], n) == Total(e, n)
  {
    if n > 0 { TotalAppend(e, x, n - 1); }
  }

  lemma {:induction false} DevicesCount(st: SplitState, n: nat, devices: nat)
    requires devices <= n && Table(st, n)
    ensures SumDevices(One, st, n, devices, st.nSegments) == Total(Extents(st, n, devices), devices) as real
    ensures |Order(st, n, devices)| == Total(Extents(st, n, devices), devices)
  {
    if devices > 0 {
      DevicesCount(st, n, devices - 1);
      SumOnes(Indices(st, n, devices - 1, st.nSegments));
      TotalAppend(Extents(st, n, devices - 1), Extent(st, n, devices - 1), devices - 1);
    }
  }

  /** What the devices hold adds up to the dimension. */
  lemma ExtentsAddUp(st: SplitState, n: nat, extent: nat)
    requires Splits(st, n, extent)
    ensures Total(Extents(st, n, n), n) == extent && |Order(st, n, n)| == extent
  {
    DevicesCover(One, st, n, st.nSegments);
    RangeOnes(0, extent);
    DevicesCount(st, n, n);
  }

  /** The extents of a prefix of the devices. */
  lemma {:induction false} ExtentsPrefix(st: SplitState, n: nat, a: nat, b: nat)
    requires a <= b <= n && Table(st, n)
    ensures Total(Extents(st, n, b), a) == Total(Extents(st, n, a), a)
    decreases b
  {
    if a < b {
      ExtentsPrefix(st, n, a, b - 1);
      TotalAppend(Extents(st, n, b - 1), Extent(st, n, b - 1), a);
    }
  }

  /** Local index t of device j is global index number start + t in device order. */
  lemma {:induction false} OrderAt(st: SplitState, n: nat, devices: nat, j: nat, t: nat)
    requires j < devices <= n && Table(st, n) && t < Extent(st, n, j)
    ensures var p := Total(Extents(st, n, n), j) + t;
      p < |Order(st, n, devices)| && Order(st, n, devices)[p] == Indices(st, n, j, st.nSegments)[t]
    decreases devices
  {
    DevicesCount(st, n, devices - 1);
    ExtentsPrefix(st, n, j, n);
    if j == devices - 1 {
    } else {
      OrderAt(st, n, devices - 1, j, t);
    }
  }

  /** With a single segment the devices hold consecutive ranges in order. */
  lemma {:induction false} SingleSegmentOrder(st: SplitState, n: nat, devices: nat, p: nat)
    requires devices <= n && Table(st, n) && st.nSegments == 1 && n <= |st.ne|
    ensures |Order(st, n, devices)| == Total(st.ne, devices)
    ensures p < |Order(st, n, devices)| ==> Order(st, n, devices)[p] == p
  {
    if devices > 0 {
      var j := devices - 1;
      SingleSegmentOrder(st, n, j, p);
      assert Indices(st, n, j, 1) == Indices(st, n, j, 0) + Range(Total(st.ne, j), st.ne[j]);
    }
  }

  /** Device order is the order of the dimension. */
  ghost predicate InOrder(st: SplitState, n: nat)
    requires Table(st, n)
  {
    forall p :: 0 <= p < |Order(st, n, n)| ==> Order(st, n, n)[p] == p
  }

  lemma SingleSegmentInOrder(st: SplitState, n: nat)
    requires Table(st, n) && st.nSegments == 1
    ensures InOrder(st, n)
  {
    forall p | 0 <= p < |Order(st, n, n)| ensures Order(st, n, n)[p] == p {
      SingleSegmentOrder(st, n, n, p);
    }
  }

  // ---------------------------------------------------------------- finding a position

  /** The device that holds position p of a dimension split into these extents, and the position there. */
  function Owner(ne: seq<nat>, n: nat, p: nat): (r: (nat, nat))
    requires n <= |ne| && p < Total(ne, n)
    ensures r.0 < n && r.1 < ne[r.0] && Total(ne, r.0) + r.1 == p
  {
    if p >= Total(ne, n - 1) then (n - 1, p - Total(ne, n - 1)) else Owner(ne, n - 1, p)
  }
}
