/** The butterfly all-reduce of CGGML/ggml-backend-meta.cpp (allreduce_fallback): when it sums, when it does not, and
    what it takes from the auxiliary pools. */
module MetaReduce {
  import opened Arithmetic

  // ---------------------------------------------------------------- powers of two and exclusive or

  function Pow2(k: nat): (r: nat)
    ensures r >= 1
  {
    if k == 0 then 1 else 2 * Pow2(k - 1)
  }

  /** a ^ b, bit by bit. */
  function Xor(a: nat, b: nat): nat
    decreases a + b
  {
    if a == 0 && b == 0 then 0 else 2 * Xor(a / 2, b / 2) + (if a % 2 == b % 2 then 0 else 1)
  }

  /** The device that exchanges with j in round r. */
  function Partner(j: nat, r: nat): nat {
    Xor(j, Pow2(r))
  }

  lemma {:induction false} XorZero(a: nat)
    ensures Xor(a, 0) == a
  {
    if a != 0 { XorZero(a / 2); }
  }

  /** Flipping bit r moves by 2^r, within an aligned block of twice that size. */
  lemma {:induction false} PartnerMeaning(j: nat, r: nat)
    ensures Partner(j, r) == if (j / Pow2(r)) % 2 == 0 then j + Pow2(r) else j - Pow2(r)
  {
    if r == 0 {
      XorZero(j / 2);
    } else {
      PartnerMeaning(j / 2, r - 1);
      HalfThenPow(j, r);
      assert Xor(j, Pow2(r)) == 2 * Xor(j / 2, Pow2(r - 1)) + j % 2;
    }
  }

  lemma HalfThenPow(j: nat, r: nat)
    requires r > 0
    ensures (j / 2) / Pow2(r - 1) == j / Pow2(r)
  {
    var p, u := Pow2(r - 1), j / 2;
    var q := u / p;
    QuotientFacts(u, p);
    assert q * (2 * p) == 2 * (q * p);
    QuotientUnique(j, 2 * p, q);
  }

  // ---------------------------------------------------------------- rounds

  /** One round: every device whose partner exists adds what the partner holds. */
  function Round(v: seq<real>, r: nat): (w: seq<real>)
    ensures |w| == |v|
    ensures forall j :: 0 <= j < |v| ==> w[j] == if Partner(j, r) < |v| then v[j] + v[Partner(j, r)] else v[j]
  {
    seq(|v|, j requires 0 <= j < |v| => if Partner(j, r) < |v| then v[j] + v[Partner(j, r)] else v[j])
  }

  /** What the devices hold after the rounds before r. */
  function Rounds(v: seq<real>, r: nat): (w: seq<real>)
    ensures |w| == |v|
  {
    if r == 0 then v else Round(Rounds(v, r - 1), r - 1)
  }

  /** How many rounds there are: the loop doubles its offset from 1 while it is below n. */
  function Steps(n: nat): (k: nat)
    ensures n >= 1 ==> Pow2(k) >= n
    ensures n >= 2 ==> k >= 1 && Pow2(k - 1) < n
  {
    StepsFrom(n, 0)
  }

  function StepsFrom(n: nat, k: nat): (r: nat)
    ensures r >= k && Pow2(r) >= n && (r > k ==> Pow2(r - 1) < n)
    decreases n - Pow2(k)
  {
    if Pow2(k) >= n then k else StepsFrom(n, k + 1)
  }

  function AllReduce(v: seq<real>): (w: seq<real>)
    ensures |w| == |v|
  {
    Rounds(v, Steps(|v|))
  }

  function Sum(v: seq<real>, lo: nat, hi: nat): real
    requires lo <= hi <= |v|
  {
    if lo == hi then 0.0 else Sum(v, lo, hi - 1) + v[hi - 1]
  }

  lemma {:induction false} SumSplit(v: seq<real>, lo: nat, mid: nat, hi: nat)
    requires lo <= mid <= hi <= |v|
    ensures Sum(v, lo, hi) == Sum(v, lo, mid) + Sum(v, mid, hi)
    decreases hi
  {
    if mid < hi { SumSplit(v, lo, mid, hi - 1); }
  }

  // ---------------------------------------------------------------- a power of two devices

  /** Where the aligned block of 2^r devices around j starts. */
  function BlockStart(j: nat, r: nat): (s: nat)
    ensures s <= j < s + Pow2(r)
  {
    QuotientFacts(j, Pow2(r));
    (j / Pow2(r)) * Pow2(r)
  }

  lemma StartIs(j: nat, r: nat, s: nat, q: nat)
    requires s == q * Pow2(r) && s <= j < s + Pow2(r)
    ensures BlockStart(j, r) == s
  {
    QuotientUnique(j, Pow2(r), q);
  }

  /** A block of 2^(r+1) is two blocks of 2^r: that of j and that of its partner. */
  lemma BlockHalves(j: nat, r: nat)
    ensures Pow2(r + 1) == 2 * Pow2(r)
    ensures var s := BlockStart(j, r + 1);
      if (j / Pow2(r)) % 2 == 0 then BlockStart(j, r) == s && BlockStart(Partner(j, r), r) == s + Pow2(r)
      else BlockStart(j, r) == s + Pow2(r) && BlockStart(Partner(j, r), r) == s
  {
    hide BlockStart;
    var p := Pow2(r);
    var q := j / p;
    QuotientFacts(j, p);
    PartnerMeaning(j, r);
    hide Partner;
    var h := q / 2;
    HalfOf(q, h, p);
    var next := r + 1;
    assert Pow2(next) == 2 * p;
    StartIs(j, next, h * Pow2(next), h);
    StartIs(j, r, q * p, q);
    if q % 2 == 0 {
      StartIs(j + p, r, (q + 1) * p, q + 1);
    } else {
      StartIs(j - p, r, (q - 1) * p, q - 1);
    }
  }

  lemma HalfOf(q: nat, h: nat, p: nat)
    requires h == q / 2
    ensures h * (2 * p) == if q % 2 == 0 then q * p else q * p - p
    ensures (q + 1) * p == q * p + p && (q > 0 ==> (q - 1) * p == q * p - p)
  {
    assert q == 2 * h + q % 2;
    assert h * (2 * p) == (2 * h) * p;
    if q % 2 == 1 { assert (2 * h + 1) * p == (2 * h) * p + p; }
  }

  /** Aligned blocks fit in a power of two. */
  lemma BlockFits(j: nat, r: nat, k: nat)
    requires r <= k && j < Pow2(k)
    ensures BlockStart(j, r) + Pow2(r) <= Pow2(k)
  {
    var p := Pow2(r);
    var m := PowQuotient(r, k);
    QuotientFits(j, p, m);
  }

  lemma QuotientFits(j: nat, p: nat, m: nat)
    requires p > 0 && j < m * p
    ensures (j / p) * p + p <= m * p
  {
    var q := j / p;
    QuotientFacts(j, p);
    if q >= m { MulMonotone(m, q, p); }
    MulMonotone(q + 1, m, p);
    assert (q + 1) * p == q * p + p;
  }

  lemma {:induction false} PowQuotient(r: nat, k: nat) returns (m: nat)
    requires r <= k
    ensures Pow2(k) == m * Pow2(r)
  {
    if r == k {
      m := 1;
    } else {
      var h := PowQuotient(r, k - 1);
      m := 2 * h;
    }
  }

  /** With 2^k devices, after r rounds every device holds the sum over its aligned block of 2^r devices. */
  lemma {:induction false} BlockSums(v: seq<real>, k: nat, r: nat, j: nat)
    requires |v| == Pow2(k) && r <= k && j < |v|
    ensures BlockStart(j, r) + Pow2(r) <= |v|
    ensures Rounds(v, r)[j] == Sum(v, BlockStart(j, r), BlockStart(j, r) + Pow2(r))
    decreases r
  {
    hide BlockStart;
    hide Partner;
    BlockFits(j, r, k);
    if r == 0 {
      SingleBlock(j);
    } else {
      var q := r - 1;
      BlockHalves(j, q);
      BlockFits(j, q, k);
      PartnerInside(v, k, q, j);
      BlockSums(v, k, q, j);
      BlockSums(v, k, q, Partner(j, q));
      var s := BlockStart(j, r);
      SumSplit(v, s, s + Pow2(q), s + Pow2(r));
    }
  }

  lemma SingleBlock(j: nat)
    ensures BlockStart(j, 0) == j
  {
  }

  lemma PartnerInside(v: seq<real>, k: nat, r: nat, j: nat)
    requires |v| == Pow2(k) && r < k && j < |v|
    ensures Partner(j, r) < |v|
  {
    hide Partner;
    BlockHalves(j, r);
    var next := r + 1;
    BlockFits(j, next, k);
  }

  lemma {:induction false} PowGrows(a: nat, b: nat)
    requires a <= b
    ensures Pow2(a) <= Pow2(b) && (a < b ==> Pow2(a) < Pow2(b))
  {
    if a < b { PowGrows(a, b - 1); }
  }

  lemma StepsBound(n: nat)
    ensures var k := Steps(n); Pow2(k) >= n && (k > 0 ==> Pow2(k - 1) < n)
  {
  }

  lemma StepsOfPow(k: nat)
    ensures Steps(Pow2(k)) == k
  {
    var n := Pow2(k);
    var s := Steps(n);
    hide Pow2;
    hide Steps;
    if s < k { PowGrows(s, k); }
    if s > k { PowGrows(k, s - 1); StepsBound(n); }
  }

  // ---------------------------------------------------------------- any other number of devices

  /** One at position m, zero elsewhere. */
  function Unit(n: nat, m: nat): (v: seq<real>)
    ensures |v| == n && forall j :: 0 <= j < n ==> v[j] == if j == m then 1.0 else 0.0
  {
    seq(n, j => if j == m then 1.0 else 0.0)
  }

  /** In the rounds below k nothing that a device from 2^k on holds reaches a device below 2^k. */
  lemma {:induction false} LowStaysZero(v: seq<real>, k: nat, r: nat, j: nat)
    requires r <= k && j < Pow2(k) && j < |v| && forall i :: 0 <= i < |v| && i < Pow2(k) ==> v[i] == 0.0
    ensures Rounds(v, r)[j] == 0.0
    decreases r
  {
    hide Partner;
    if r > 0 {
      LowStaysZero(v, k, r - 1, j);
      PartnerBelow(j, r - 1, k);
      if Partner(j, r - 1) < |v| { LowStaysZero(v, k, r - 1, Partner(j, r - 1)); }
    }
  }

  lemma PartnerBelow(j: nat, r: nat, k: nat)
    requires r < k && j < Pow2(k)
    ensures Partner(j, r) < Pow2(k)
  {
    hide Partner;
    BlockHalves(j, r);
    var next := r + 1;
    BlockFits(j, next, k);
  }

  lemma {:induction false} UnitSum(n: nat, m: nat, hi: nat)
    requires m < n && hi <= n
    ensures Sum(Unit(n, m), 0, hi) == if m < hi then 1.0 else 0.0
  {
    if hi > 0 { UnitSum(n, m, hi - 1); }
  }

  ghost predicate PowerOfTwo(n: nat) {
    exists k :: Pow2(k) == n
  }

  /** With m < n < 2m devices, m a power of two, device m-1 never hears of device m. */
  lemma OthersMiss(n: nat, k: nat)
    requires Pow2(k) < n < 2 * Pow2(k)
    ensures AllReduce(Unit(n, Pow2(k)))[Pow2(k) - 1] == 0.0
  {
    hide Partner;
    var v, m, s := Unit(n, Pow2(k)), Pow2(k), Steps(n);
    var next := k + 1;
    assert Pow2(next) == 2 * m;
    if s < next { PowGrows(s, k); }
    if s > next { PowGrows(next, s - 1); }
    LowStaysZero(v, k, k, m - 1);
    LastPartner(k);
    assert AllReduce(v) == Round(Rounds(v, k), k);
  }

  lemma LastPartner(k: nat)
    ensures Partner(Pow2(k) - 1, k) == 2 * Pow2(k) - 1
  {
    PartnerMeaning(Pow2(k) - 1, k);
    QuotientUnique(Pow2(k) - 1, Pow2(k), 0);
  }

  /** Every device ends with the total, whatever the devices start with. */
  ghost predicate Sums(n: nat) {
    forall v: seq<real>, j: nat :: |v| == n && j < n ==> AllReduce(v)[j] == Sum(v, 0, n)
  }

  /** The all-reduce is correct exactly for a power of two devices. */
  lemma ReduceSumsExactlyForPowers(n: nat)
    requires n >= 1
    ensures Sums(n) <==> PowerOfTwo(n)
  {
    hide Partner;
    hide BlockStart;
    if PowerOfTwo(n) {
      var k :| Pow2(k) == n;
      StepsOfPow(k);
      forall v: seq<real>, j: nat | |v| == n && j < n ensures AllReduce(v)[j] == Sum(v, 0, n) {
        BlockSums(v, k, k, j);
        WholeBlock(j, k);
      }
    } else {
      var s := Steps(n);
      OnlyOneIsPower(n);
      var k := s - 1;
      assert Pow2(s) == 2 * Pow2(k) && Pow2(s) != n;
      OthersMiss(n, k);
      UnitSum(n, Pow2(k), n);
      assert !Sums(n);
    }
  }

  lemma OnlyOneIsPower(n: nat)
    requires n >= 1 && !PowerOfTwo(n)
    ensures n >= 2
  {
    assert Pow2(0) == 1;
  }

  lemma WholeBlock(j: nat, k: nat)
    requires j < Pow2(k)
    ensures BlockStart(j, k) == 0
  {
    QuotientUnique(j, Pow2(k), 0);
  }
}
