/** How much more than a delegator's power the two nested floor divisions can hand out. The worst ratios are just above
    the reciprocals of Sylvester's numbers 2, 3, 7, 43, ..., and the best factor is 1 + 1/2 + 1/6 + 1/42 + ... =
    1.69103... */
module SylvesterBound {
  import opened Sums
  import opened ShareArithmetic

  // ---------- Sylvester's numbers, less one ----------

  /** Multiplication as repeated addition, so that products are multiplied out only where `ProductMeaning` says so. */
  function Product(x: nat, y: nat): nat {
    if x == 0 then 0 else Product(x - 1, y) + y
  }

  lemma {:induction false} ProductMeaning(x: nat, y: nat)
    ensures Product(x, y) == x * y
  {
    if x > 0 {
      ProductMeaning(x - 1, y);
      assert (x - 1) * y + y == x * y;
    }
  }

  /** 1, 2, 6, 42, 1806, ...: ratios just above 1/2, 1/3, 1/7, ..., `n` of them, leave less than one `Cap(n)`-th. */
  function Cap(n: nat): (c: nat)
    ensures n < c
  {
    if n == 0 then 1 else CapGrows(Cap(n - 1), n); Product(Cap(n - 1), Cap(n - 1) + 1)
  }

  lemma CapGrows(c: nat, n: nat)
    requires 1 <= n <= c
    ensures n < Product(c, c + 1)
  {
    ProductMeaning(c, c + 1);
    MulAtMost(c, 2, c + 1);
  }

  lemma CapStep(n: nat)
    ensures Cap(n + 1) == Cap(n) * (Cap(n) + 1)
  {
    ProductMeaning(Cap(n), Cap(n) + 1);
  }

  /** One `Cap(n)`-th of `p`. */
  function Cut(p: real, n: nat): real {
    p / Cap(n) as real
  }

  /** `p` times the sum of the first `n` terms of 1 + 1/2 + 1/6 + 1/42 + ... */
  function PartialSum(p: real, n: nat): real {
    if n == 0 then 0.0 else PartialSum(p, n - 1) + Cut(p, n - 1)
  }

  /** `p` times the bound of depth `n`: 2, 7/4, 61/36, 2983/1764, ... */
  function Bound(p: real, n: nat): real {
    PartialSum(p, n) + Cut(p, n) + Cut(Cut(p, n), n)
  }

  lemma DepthTwo(p: real)
    ensures Bound(p, 2) == p * 61.0 / 36.0
  {
    CapStep(0);
    CapStep(1);
    assert PartialSum(p, 2) == Cut(p, 0) + Cut(p, 1) by { assert PartialSum(p, 1) == Cut(p, 0); }
  }

  lemma FourTerms(p: real)
    ensures PartialSum(p, 4) == p + p / 2.0 + p / 6.0 + p / 42.0
  {
    CapStep(0);
    CapStep(1);
    CapStep(2);
    assert PartialSum(p, 2) == p + p / 2.0 by { assert PartialSum(p, 1) == Cut(p, 0); }
    assert PartialSum(p, 3) == PartialSum(p, 2) + Cut(p, 2) && PartialSum(p, 4) == PartialSum(p, 3) + Cut(p, 3);
  }

  lemma CutNonNegative(p: real, n: nat)
    requires p >= 0.0
    ensures Cut(p, n) >= 0.0
  {
  }

  lemma {:induction false} PartialSumMonotone(p: real, k: nat, n: nat)
    requires p >= 0.0 && k <= n
    ensures 0.0 <= PartialSum(p, k) <= PartialSum(p, n)
    decreases n
  {
    if n > 0 {
      CutNonNegative(p, n - 1);
      PartialSumMonotone(p, if k < n then k else n - 1, n - 1);
    }
  }

  /** All of this scales with `p`. */
  lemma {:induction false} PartialSumScales(p: real, n: nat)
    ensures PartialSum(p, n) == Times(p, PartialSum(1.0, n))
  {
    if n > 0 {
      PartialSumScales(p, n - 1);
      CutScales(p, n - 1);
      TimesDistributes(p, PartialSum(1.0, n - 1), Cut(1.0, n - 1));
    }
  }

  lemma CutScales(p: real, n: nat)
    ensures Cut(p, n) == Times(p, Cut(1.0, n))
  {
  }

  // ---------- From products to cuts ----------

  lemma DivideBoth(m: real, s: real, q: real)
    requires m > 0.0 && m * s <= q
    ensures s <= q / m
  {
    var z := q / m - s;
    assert m * z == q - m * s by { assert m * (q / m) == q; }
    NonNegativeFactor(m, z);
  }

  lemma NonNegativeFactor(m: real, z: real)
    requires m > 0.0 && m * z >= 0.0
    ensures z >= 0.0
  {
  }

  lemma RealProduct(a: int, b: int)
    ensures (a * b) as real == a as real * b as real
  {
  }

  lemma ShareCut(c: nat, share: nat, p: nat)
    requires c > 0 && c * share <= p
    ensures share as real <= p as real / c as real
  {
    RealProduct(c, share);
    DivideBoth(c as real, share as real, p as real);
  }

  lemma QuotientOf(n: real, d: real, q: real)
    requires d > 0.0 && n == q * d
    ensures n / d == q
  {
  }

  lemma NextCut(c: real, p: real)
    requires c > 0.0
    ensures (c + 2.0) * p / (c * (c + 1.0)) == p / c + p / (c * (c + 1.0))
  {
    var d := c * (c + 1.0);
    var x, y := p / c, p / d;
    assert x * d == p * (c + 1.0) by { assert x * c == p; }
    assert y * d == p;
    QuotientOf((c + 2.0) * p, d, x + y);
  }

  lemma NoneCut(c: nat, s: int, p: nat)
    requires c > 0 && c * (c + 1) * s <= (c + 2) * p
    ensures s as real <= p as real / c as real + p as real / (c * (c + 1)) as real
  {
    RealProduct(c * (c + 1), s);
    RealProduct(c, c + 1);
    RealProduct(c + 2, p);
    DivideBoth((c * (c + 1)) as real, s as real, ((c + 2) * p) as real);
    NextCut(c as real, p as real);
  }

  // ---------- Peeling off the largest ratios ----------

  ghost predicate NonNegative<K>(keys: set<K>, ratio: K -> int) {
    forall k | k in keys :: 0 <= ratio(k)
  }

  /** What taking out a ratio with divisor `c` leaves to the others. */
  lemma PeelLeaves(c: nat, t: nat, r: nat, sum: int)
    requires r > 0 && c * sum <= t && t / r == c
    ensures c * (c + 1) * (sum - r) <= t
  {
    Quotient(t, r);
    assert r * c + r == (c + 1) * r;
    MulAtMost(c + 1, c * sum, t);
    MulAtMost(c, t, (c + 1) * r);
    PeelRegroup(c, t, r, sum);
  }

  lemma PeelRegroup(c: nat, t: nat, r: nat, sum: int)
    ensures c * (c + 1) * (sum - r) == (c + 1) * (c * sum) - c * ((c + 1) * r)
    ensures (c + 1) * t == c * t + t
  {
  }

  lemma TakeOne<K>(keys: set<K>, power: nat, t: nat, ratio: K -> int, n: nat, k: K)
    requires NonNegative(keys, ratio) && Cap(n) * SumOver(keys, ratio) <= t
    requires k in keys && 0 < ratio(k) <= t && t / ratio(k) == Cap(n)
    ensures Share(power, t, ratio(k)) as real <= Cut(power as real, n)
    ensures SumOver(keys, Shares(power, t, ratio)) ==
            Share(power, t, ratio(k)) + SumOver(keys - {k}, Shares(power, t, ratio))
    ensures NonNegative(keys - {k}, ratio) && Cap(n + 1) * SumOver(keys - {k}, ratio) <= t
  {
    ShareQuotients(power, t, ratio(k), 1);
    ShareCut(Cap(n), Share(power, t, ratio(k)), power);
    SumOverRemove(keys, Shares(power, t, ratio), k);
    SumOverRemove(keys, ratio, k);
    PeelLeaves(Cap(n), t, ratio(k), SumOver(keys, ratio));
    CapStep(n);
  }

  lemma RatioWithinCap<K>(keys: set<K>, t: nat, ratio: K -> int, c: nat, k: K)
    requires NonNegative(keys, ratio) && c * SumOver(keys, ratio) <= t && k in keys
    ensures c * ratio(k) <= t
  {
    SumOverMember(keys, ratio, k);
    MulAtMost(c, ratio(k), SumOver(keys, ratio));
  }

  lemma LargerDivisor(c: nat, t: nat, r: nat)
    requires r > 0 && c * r <= t && t / r != c
    ensures (c + 1) * r <= t
  {
    assert r * c == c * r;
    QuotientAtLeast(t, r, c);
    Quotient(t, r);
    MulAtMost(r, c + 1, t / r);
  }

  lemma LargerDivisors<K>(keys: set<K>, power: nat, t: nat, ratio: K -> int, c: nat)
    requires t > 0 && NonNegative(keys, ratio) && c * SumOver(keys, ratio) <= t
    requires forall k | k in keys && 0 < ratio(k) :: t / ratio(k) != c
    ensures c * (c + 1) * SumOver(keys, Shares(power, t, ratio)) <= (c + 2) * power
  {
    forall k | k in keys ensures 0 <= ratio(k) && (c + 1) * ratio(k) <= t {
      RatioWithinCap(keys, t, ratio, c, k);
      if ratio(k) > 0 { LargerDivisor(c, t, ratio(k)); }
    }
    SmallRatios(keys, power, t, ratio, c + 1, c);
  }

  /** No divisor is exactly `Cap(n)`, so all are larger. */
  lemma TakeNone<K>(keys: set<K>, power: nat, t: nat, ratio: K -> int, n: nat)
    requires t > 0 && NonNegative(keys, ratio) && Cap(n) * SumOver(keys, ratio) <= t
    requires forall k | k in keys && 0 < ratio(k) :: t / ratio(k) != Cap(n)
    ensures SumOver(keys, Shares(power, t, ratio)) as real <= Cut(power as real, n) + Cut(power as real, n + 1)
  {
    LargerDivisors(keys, power, t, ratio, Cap(n));
    NoneCut(Cap(n), SumOver(keys, Shares(power, t, ratio)), power);
    CapStep(n);
  }

  lemma TakeLast<K>(keys: set<K>, power: nat, t: nat, ratio: K -> int, n: nat, k: K)
    requires NonNegative(keys, ratio) && Cap(n) * SumOver(keys, ratio) <= t && keys == {k}
    ensures SumOver(keys, Shares(power, t, ratio)) as real <= Cut(power as real, n)
  {
    SumOverRemove(keys, Shares(power, t, ratio), k);
    assert keys - {k} == {};
    RatioWithinCap(keys, t, ratio, Cap(n), k);
    ShareWithinCap(power, t, ratio(k), Cap(n));
    ShareCut(Cap(n), Share(power, t, ratio(k)), power);
  }

  lemma ShareWithinCap(power: nat, t: nat, r: nat, c: nat)
    requires c * r <= t
    ensures c * Share(power, t, r) <= power
  {
    if 0 < r <= t {
      ShareQuotients(power, t, r, c);
      MulAtMost(Share(power, t, r), c, t / r);
      assert Share(power, t, r) * (t / r) == (t / r) * Share(power, t, r);
      assert Share(power, t, r) * c == c * Share(power, t, r);
    } else {
      assert c * 0 == 0;
    }
  }

  lemma PositiveWithinTotal<K>(keys: set<K>, t: nat, ratio: K -> int, n: nat, k: K)
    requires NonNegative(keys, ratio) && Cap(n) * SumOver(keys, ratio) <= t && k in keys
    ensures ratio(k) <= t
  {
    RatioWithinCap(keys, t, ratio, Cap(n), k);
    MulAtMost(ratio(k), 1, Cap(n));
    assert ratio(k) * Cap(n) == Cap(n) * ratio(k);
  }

  /** The `k` terms from `j` on. */
  function Terms(p: real, j: nat, k: nat): real
    decreases k
  {
    if k == 0 then 0.0 else Cut(p, j) + Terms(p, j + 1, k - 1)
  }

  lemma {:induction false} TermsAreDifference(p: real, j: nat, k: nat)
    ensures PartialSum(p, j) + Terms(p, j, k) == PartialSum(p, j + k)
    decreases k
  {
    if k > 0 {
      TermsAreDifference(p, j + 1, k - 1);
    }
  }

  lemma {:induction false} TermsNonNegative(p: real, j: nat, k: nat)
    requires p >= 0.0
    ensures 0.0 <= Terms(p, j, k)
    decreases k
  {
    if k > 0 {
      CutNonNegative(p, j);
      TermsNonNegative(p, j + 1, k - 1);
    }
  }

  lemma TwoTerms(p: real, j: nat, k: nat)
    requires p >= 0.0 && 2 <= k
    ensures Cut(p, j) + Cut(p, j + 1) <= Terms(p, j, k)
  {
    TermsNonNegative(p, j + 2, k - 2);
  }

  /** Ratios of at most one `Cap(j)`-th together receive at most the terms from `j` on, one for each. */
  lemma {:induction false} Peel<K>(keys: set<K>, power: nat, t: nat, ratio: K -> int, j: nat)
    requires t > 0 && NonNegative(keys, ratio) && Cap(j) * SumOver(keys, ratio) <= t
    ensures SumOver(keys, Shares(power, t, ratio)) as real <= Terms(power as real, j, |keys|)
    decreases |keys|
  {
    if keys == {} {
    } else if k :| k in keys && 0 < ratio(k) && t / ratio(k) == Cap(j) {
      PositiveWithinTotal(keys, t, ratio, j, k);
      TakeOne(keys, power, t, ratio, j, k);
      Peel(keys - {k}, power, t, ratio, j + 1);
      assert |keys - {k}| == |keys| - 1;
    } else if |keys| == 1 {
      PeelLast(keys, power, t, ratio, j);
    } else {
      PeelNone(keys, power, t, ratio, j, |keys|);
    }
  }

  lemma PeelLast<K>(keys: set<K>, power: nat, t: nat, ratio: K -> int, j: nat)
    requires NonNegative(keys, ratio) && Cap(j) * SumOver(keys, ratio) <= t && |keys| == 1
    ensures SumOver(keys, Shares(power, t, ratio)) as real <= Terms(power as real, j, 1)
  {
    var k :| k in keys;
    OnlyMember(keys, k);
    TakeLast(keys, power, t, ratio, j, k);
  }

  lemma PeelNone<K>(keys: set<K>, power: nat, t: nat, ratio: K -> int, j: nat, n: nat)
    requires t > 0 && NonNegative(keys, ratio) && Cap(j) * SumOver(keys, ratio) <= t && 2 <= n
    requires forall k | k in keys && 0 < ratio(k) :: t / ratio(k) != Cap(j)
    ensures SumOver(keys, Shares(power, t, ratio)) as real <= Terms(power as real, j, n)
  {
    TakeNone(keys, power, t, ratio, j);
    TwoTerms(power as real, j, n);
  }

  lemma OnlyMember<K>(keys: set<K>, k: K)
    requires k in keys && |keys| == 1
    ensures keys == {k}
  {
    assert |keys - {k}| == 0;
  }

  /** Whatever the ratios, delegates whose ratios fit the total receive at most as many terms of power + power/2 +
      power/6 + power/42 + ... as there are delegates. */
  lemma OverAllocationBound<K>(keys: set<K>, power: nat, t: nat, ratio: K -> int)
    requires Fits(keys, ratio, t)
    ensures SumOver(keys, Shares(power, t, ratio)) as real <= PartialSum(power as real, |keys|)
  {
    if t > 0 {
      Peel(keys, power, t, ratio, 0);
      TermsAreDifference(power as real, 0, |keys|);
    } else {
      NothingToShare(keys, power, ratio);
      PartialSumMonotone(power as real, 0, |keys|);
    }
  }

  // ---------- Deeper bounds are sharper ----------

  lemma SharperStep(p: real, c: real)
    requires p > 0.0 && c >= 1.0
    ensures var d := c * (c + 1.0); p / d + p / d / d < p / c / c
  {
    var d := c * (c + 1.0);
    var x := p / d;
    assert d > 1.0;
    assert x / d < x / c by { DenominatorGrows(x, c, d); }
    assert x + x / c == p / c / c by { SharperSplit(p, c); }
  }

  lemma DenominatorGrows(x: real, c: real, d: real)
    requires x > 0.0 && 0.0 < c < d
    ensures x / d < x / c
  {
    var y, z := x / d, x / c;
    assert y * d == x && z * c == x && y > 0.0;
    assert (z - y) * c == y * (d - c) > 0.0;
  }

  lemma SharperSplit(p: real, c: real)
    requires c >= 1.0
    ensures var x := p / (c * (c + 1.0)); x + x / c == p / c / c
  {
    var x, y := p / (c * (c + 1.0)), p / c / c;
    assert x * (c * (c + 1.0)) == p;
    assert y * c * c == p by { assert p / c * c == p; }
    var z := x + x / c;
    assert z * c == x * (c + 1.0);
    assert z * c * c == p;
    assert (z - y) * (c * c) == 0.0;
  }

  lemma NextCuts(p: real, c: nat, d: nat)
    requires p > 0.0 && c > 0 && d == c * (c + 1)
    ensures p / d as real + p / d as real / d as real < p / c as real / c as real
  {
    RealProduct(c, c + 1);
    SharperStep(p, c as real);
  }

  lemma DeeperIsSharper(p: real, n: nat)
    requires p > 0.0
    ensures Bound(p, n + 1) < Bound(p, n)
  {
    CapStep(n);
    NextCuts(p, Cap(n), Cap(n + 1));
  }

  lemma {:induction false} DeeperIsNoLarger(p: real, m: nat, n: nat)
    requires p > 0.0 && m <= n
    ensures Bound(p, n) <= Bound(p, m)
    decreases n
  {
    if m < n {
      DeeperIsNoLarger(p, m, n - 1);
      DeeperIsSharper(p, n - 1);
    }
  }

  lemma BoundCovers(p: real, n: nat)
    requires p >= 0.0
    ensures PartialSum(p, n) <= Bound(p, n)
  {
    CutNonNegative(p, n);
    CutNonNegative(Cut(p, n), n);
  }

  /** `x` is at least the infinite sum 1 + 1/2 + 1/6 + 1/42 + ... */
  ghost predicate BoundsPartialSums(x: real) {
    forall n: nat :: PartialSum(1.0, n) <= x
  }

  /** Every one of the bounds 2, 7/4, 61/36, ... will do. */
  lemma BoundsAreBounds(m: nat)
    ensures BoundsPartialSums(Bound(1.0, m))
  {
    forall n: nat ensures PartialSum(1.0, n) <= Bound(1.0, m) {
      BoundCovers(1.0, if m <= n then n else m);
      if m <= n {
        DeeperIsNoLarger(1.0, m, n);
      } else {
        PartialSumMonotone(1.0, n, m);
      }
    }
  }

  lemma SixtyOneThirtySixths()
    ensures BoundsPartialSums(61.0 / 36.0)
  {
    BoundsAreBounds(2);
    DepthTwo(1.0);
  }

  // ---------- Splits that approach the bounds ----------

  ghost function Below(n: nat): (r: set<nat>)
    ensures forall i: nat :: i in r <==> i < n
    ensures |r| == n
  {
    if n == 0 then {} else Below(n - 1) + {n - 1}
  }

  ghost function SumUpTo(n: nat, f: nat -> int): int {
    if n == 0 then 0 else SumUpTo(n - 1, f) + f(n - 1)
  }

  lemma AddLast(below: set<nat>, last: nat, f: nat -> int)
    requires last !in below
    ensures SumOver(below + {last}, f) == SumOver(below, f) + f(last)
  {
    SumOverRemove(below + {last}, f, last);
    assert below + {last} - {last} == below;
  }

  lemma {:induction false} SumBelow(n: nat, f: nat -> int)
    ensures SumOver(Below(n), f) == SumUpTo(n, f)
  {
    if n > 0 {
      var last: nat := n - 1;
      SumBelow(last, f);
      AddLast(Below(last), last, f);
    }
  }

  lemma {:induction false} SumUpToScaled(n: nat, f: nat -> int, m: nat, c: int, g: nat -> int)
    requires forall i: nat | i < n :: f(i) == m * g(i) + c
    ensures SumUpTo(n, f) == m * SumUpTo(n, g) + n * c
  {
    if n == 0 {
      assert m * 0 == 0;
    } else {
      SumUpToScaled(n - 1, f, m, c, g);
      assert m * (SumUpTo(n - 1, g) + g(n - 1)) == m * SumUpTo(n - 1, g) + m * g(n - 1);
      assert (n - 1) * c + c == n * c;
    }
  }

  /** `Cap(n) / (Cap(i) + 1)` for `i < n`: one part in Sylvester's number. */
  function Part(i: nat, n: nat): nat {
    if i + 1 < n then Product(Part(i, n - 1), Cap(n - 1) + 1) else Cap(i)
  }

  /** `Cap(n) / Cap(i)` for `i <= n`. */
  function Whole(i: nat, n: nat): nat {
    if i < n then Product(Whole(i, n - 1), Cap(n - 1) + 1) else 1
  }

  lemma {:induction false} PartMeaning(i: nat, n: nat)
    requires i < n
    ensures Part(i, n) * (Cap(i) + 1) == Cap(n) && Cap(i) <= Part(i, n)
    decreases n
  {
    if i + 1 < n {
      PartMeaning(i, n - 1);
      ProductMeaning(Part(i, n - 1), Cap(n - 1) + 1);
      PartGrows(Part(i, n - 1), Cap(i), Cap(n - 1));
      CapStep(n - 1);
    } else {
      CapStep(i);
    }
  }

  lemma PartGrows(p: nat, c: nat, d: nat)
    requires p * (c + 1) == d && c <= p
    ensures p * (d + 1) * (c + 1) == d * (d + 1) && c <= p * (d + 1)
  {
    Exchange(p, d + 1, c + 1);
    MulAtMost(p, 1, d + 1);
  }

  lemma Exchange(x: int, y: int, z: int)
    ensures x * y * z == x * z * y
  {
  }

  lemma {:induction false} WholeMeaning(i: nat, n: nat)
    requires i <= n
    ensures Whole(i, n) * Cap(i) == Cap(n)
    decreases n
  {
    if i < n {
      WholeMeaning(i, n - 1);
      ProductMeaning(Whole(i, n - 1), Cap(n - 1) + 1);
      Exchange(Whole(i, n - 1), Cap(n - 1) + 1, Cap(i));
      CapStep(n - 1);
    }
  }

  ghost function Parts(n: nat): nat -> int {
    (i: nat) => Part(i, n)
  }

  ghost function Wholes(n: nat): nat -> int {
    (i: nat) => Whole(i, n)
  }

  lemma PartsScale(n: nat, c: nat)
    requires n > 0 && c == Cap(n - 1)
    ensures SumUpTo(n - 1, Parts(n)) == (c + 1) * SumUpTo(n - 1, Parts(n - 1))
  {
    forall i: nat | i < n - 1 ensures Parts(n)(i) == (c + 1) * Parts(n - 1)(i) + 0 {
      ProductMeaning(Part(i, n - 1), c + 1);
      Commute(Part(i, n - 1), c + 1);
    }
    SumUpToScaled(n - 1, Parts(n), c + 1, 0, Parts(n - 1));
  }

  lemma {:induction false} PartsLeaveOne(n: nat)
    ensures SumUpTo(n, Parts(n)) == Cap(n) - 1
  {
    if n > 0 {
      PartsLeaveOne(n - 1);
      PartsScale(n, Cap(n - 1));
      CapStep(n - 1);
      LeaveOneStep(Cap(n - 1), SumUpTo(n - 1, Parts(n - 1)), SumUpTo(n - 1, Parts(n)), Cap(n));
    }
  }

  lemma LeaveOneStep(c: int, before: int, scaled: int, next: int)
    requires before == c - 1 && scaled == (c + 1) * before && next == c * (c + 1)
    ensures c + scaled == next - 1
  {
  }

  lemma Commute(x: int, y: int)
    ensures x * y == y * x
  {
  }

  /** The reciprocals over their common denominator. */
  lemma {:induction false} TermsOf(k: nat, n: nat)
    requires k <= n
    ensures SumUpTo(k, Wholes(n)) as real == PartialSum(Cap(n) as real, k)
    decreases k
  {
    if k > 0 {
      TermsOf(k - 1, n);
      TermOf(k - 1, n);
    }
  }

  lemma TermOf(i: nat, n: nat)
    requires i <= n
    ensures Whole(i, n) as real == Cut(Cap(n) as real, i)
  {
    WholeMeaning(i, n);
    RealQuotient(Whole(i, n), Cap(i), Cap(n));
  }

  lemma RealQuotient(w: nat, c: nat, d: nat)
    requires w * c == d && c > 0
    ensures w as real == d as real / c as real
  {
    RealProduct(w, c);
    QuotientOf(d as real, c as real, w as real);
  }

  function Total(n: nat): nat {
    Product(n, Cap(n))
  }

  /** Ratios just above one part in each of the first `n` of Sylvester's numbers, out of `n * Cap(n)`. */
  ghost function SylvesterRatios(n: nat): nat -> int {
    (i: nat) => Product(n, Part(i, n)) + 1
  }

  lemma SylvesterRatiosSum(n: nat)
    ensures SumUpTo(n, SylvesterRatios(n)) == Total(n)
  {
    forall i: nat | i < n ensures SylvesterRatios(n)(i) == n * Parts(n)(i) + 1 {
      ProductMeaning(n, Part(i, n));
    }
    SumUpToScaled(n, SylvesterRatios(n), n, 1, Parts(n));
    PartsLeaveOne(n);
    ProductMeaning(n, Cap(n));
    FillUp(n, Cap(n));
  }

  lemma SylvesterRatiosFit(n: nat)
    ensures Fits(Below(n), SylvesterRatios(n), Total(n))
  {
    SylvesterRatiosSum(n);
    SumBelow(n, SylvesterRatios(n));
    forall i | i in Below(n) ensures 0 <= SylvesterRatios(n)(i) {
      assert SylvesterRatios(n)(i) == Product(n, Part(i, n)) + 1;
    }
  }

  lemma FillUp(n: int, c: int)
    ensures n * (c - 1) + n * 1 == n * c
  {
  }

  /** The divisor of such a ratio: `x` is `n * Part(i, n)`. */
  lemma SylvesterDivisor(x: nat, c: nat)
    requires 1 <= c <= x
    ensures x * (c + 1) / (x + 1) == c && x + 1 <= x * (c + 1)
  {
    assert (x + 1) * c == x * c + c && x * (c + 1) == x * c + x && (x + 1) * (c + 1) == x * (c + 1) + c + 1;
    MulAtMost(x, 1, c);
    QuotientUnique(x * (c + 1), x + 1, c);
  }

  lemma SylvesterShare(i: nat, n: nat)
    requires i < n
    ensures Share(Cap(n), Total(n), Product(n, Part(i, n)) + 1) == Whole(i, n)
  {
    var c, x := Cap(i), n * Part(i, n);
    ProductMeaning(n, Part(i, n));
    PartMeaning(i, n);
    MulAtMost(Part(i, n), 1, n);
    Commute(Part(i, n), n);
    MulAssociates(n, Part(i, n), c + 1);
    SylvesterDivisor(x, c);
    ProductMeaning(n, Cap(n));
    assert Total(n) == x * (c + 1);
    WholeMeaning(i, n);
    Commute(Whole(i, n), c);
    ProductQuotient(c, Whole(i, n));
  }

  ghost function SylvesterShares(n: nat): nat -> int {
    Shares<nat>(Cap(n), Total(n), SylvesterRatios(n))
  }

  lemma SharesAreWholes(n: nat)
    ensures SumUpTo(n, SylvesterShares(n)) == SumUpTo(n, Wholes(n))
  {
    var shares := SylvesterShares(n);
    forall i: nat | i < n ensures shares(i) == 1 * Wholes(n)(i) + 0 {
      SylvesterShare(i, n);
    }
    SumUpToScaled(n, shares, 1, 0, Wholes(n));
  }

  /** For every `n` there are `n` ratios that fit a total and pay out exactly the `n`-th partial sum of a power. */
  lemma SylvesterSplit(n: nat)
    ensures Fits(Below(n), SylvesterRatios(n), Total(n))
    ensures |Below(n)| == n
    ensures SumOver(Below(n), SylvesterShares(n)) as real == PartialSum(Cap(n) as real, n)
  {
    SylvesterRatiosFit(n);
    SharesAreWholes(n);
    SumBelow(n, SylvesterShares(n));
    TermsOf(n, n);
  }

  // ---------- The best constant ----------

  /** No split hands out more than `x` times the power. */
  ghost predicate BoundsEverySplit(x: real) {
    forall keys: set<nat>, power: nat, t: nat, ratio: nat -> int ::
      Fits(keys, ratio, t) ==> SumOver(keys, Shares(power, t, ratio)) as real <= Times(power as real, x)
  }

  lemma TimesCancel(p: real, x: real, y: real)
    requires p > 0.0 && Times(p, x) <= Times(p, y)
    ensures x <= y
  {
    assert p * (y - x) >= 0.0;
    NonNegativeFactor(p, y - x);
  }

  lemma TimesAtMost(p: real, x: real, y: real)
    requires p >= 0.0 && x <= y
    ensures Times(p, x) <= Times(p, y)
  {
    assert p * (y - x) >= 0.0;
  }

  /** The best constant, exactly: a number bounds what every split hands out if and only if it bounds every partial sum
      of 1 + 1/2 + 1/6 + 1/42 + ... */
  lemma BestConstantIff(x: real)
    ensures BoundsEverySplit(x) <==> BoundsPartialSums(x)
  {
    if BoundsEverySplit(x) {
      forall n: nat ensures PartialSum(1.0, n) <= x {
        BoundsPartialSum(x, n);
      }
    } else {
      var keys: set<nat>, power: nat, t: nat, ratio: nat -> int :|
        Fits(keys, ratio, t) && SumOver(keys, Shares(power, t, ratio)) as real > Times(power as real, x);
      if BoundsPartialSums(x) {
        WithinLimit(keys, power, t, ratio, x);
      }
    }
  }

  lemma BoundsPartialSum(x: real, n: nat)
    requires BoundsEverySplit(x)
    ensures PartialSum(1.0, n) <= x
  {
    SylvesterSplit(n);
    PartialSumScales(Cap(n) as real, n);
    TimesCancel(Cap(n) as real, PartialSum(1.0, n), x);
  }

  /** Any such `x` bounds what a split hands out, strictly for a positive power. */
  lemma WithinLimit<K>(keys: set<K>, power: nat, t: nat, ratio: K -> int, x: real)
    requires Fits(keys, ratio, t) && BoundsPartialSums(x)
    ensures SumOver(keys, Shares(power, t, ratio)) as real <= Times(power as real, x)
    ensures power > 0 ==> SumOver(keys, Shares(power, t, ratio)) as real < Times(power as real, x)
  {
    var p, k := power as real, |keys|;
    OverAllocationBound(keys, power, t, ratio);
    PartialSumScales(p, k + 1);
    TimesAtMost(p, PartialSum(1.0, k + 1), x);
    CutNonNegative(p, k);
    if power > 0 { CutPositive(p, k); }
  }

  lemma CutPositive(p: real, n: nat)
    requires p > 0.0
    ensures Cut(p, n) > 0.0
  {
  }
}
