/** The two nested floor divisions that split a delegator's power: a delegate with ratio `r` out of a
    total `t` receives `power / (t / r)`. Bounds over any set of delegates whose ratios fit the total. */
module ShareArithmetic {
  import opened Sums

  // ---------- Integer facts ----------

  lemma MulAtMost(m: nat, x: int, y: int)
    requires x <= y
    ensures m * x <= m * y
  {
    assert m * y == m * x + m * (y - x);
  }

  lemma MulBelow(m: nat, x: int, y: int)
    requires m > 0 && x < y
    ensures m * x < m * y
  {
    assert m * y == m * x + m * (y - x);
  }

  lemma MulCancel(m: nat, x: int, y: int)
    requires m > 0 && m * x <= m * y
    ensures x <= y
  {
    if x > y {
      MulBelow(m, y, x);
      assert false;
    }
  }

  lemma MulCancelStrict(m: nat, x: int, y: int)
    requires m > 0 && m * x < m * y
    ensures x < y
  {
    if x >= y {
      MulAtMost(m, y, x);
      assert false;
    }
  }

  lemma Quotient(n: nat, d: nat)
    requires d > 0
    ensures 0 <= d * (n / d) <= n < d * (n / d) + d
  {
    assert n == d * (n / d) + n % d;
  }

  lemma QuotientAtLeast(n: nat, d: nat, q: nat)
    requires d > 0 && d * q <= n
    ensures q <= n / d
  {
    Quotient(n, d);
    assert d * (n / d + 1) == d * (n / d) + d;
    MulCancelStrict(d, q, n / d + 1);
  }

  // ---------- One share ----------

  /** What a delegate with ratio `r` out of `t` receives; a zero ratio never yields a share. */
  function Share(power: nat, t: nat, r: int): nat {
    if 0 < r <= t then
      QuotientAtLeast(t, r, 1);
      power / (t / r)
    else 0
  }

  /** `q` is the inner quotient, and the share is the outer one. */
  lemma ShareQuotients(power: nat, t: nat, r: nat, m: nat)
    requires 0 < r <= t && m * r <= t
    ensures m <= t / r && 1 <= t / r
    ensures r * (t / r) <= t < r * (t / r) + r
    ensures Share(power, t, r) == power / (t / r)
    ensures (t / r) * Share(power, t, r) <= power < (t / r) * Share(power, t, r) + (t / r)
  {
    QuotientAtLeast(t, r, 1);
    assert r * m == m * r;
    QuotientAtLeast(t, r, m);
    Quotient(t, r);
    Quotient(power, t / r);
  }

  lemma ShareAtMostPower(power: nat, t: nat, r: int)
    ensures Share(power, t, r) <= power
  {
    if 0 < r <= t {
      ShareQuotients(power, t, r, 1);
      MulAtMost(Share(power, t, r), 1, t / r);
      assert Share(power, t, r) * (t / r) == (t / r) * Share(power, t, r);
    }
  }

  lemma SlopeStep(power: nat, t: nat, r: nat, m: nat, q: nat, share: nat)
    requires 1 <= m <= q && q * share <= power && t <= r * q + r
    ensures m * t * share <= (m + 1) * power * r
  {
    // share * (q + 1) * m <= (m + 1) * power
    assert m * share * q + m * share <= (m + 1) * power by {
      MulAtMost(share, m, q);
      MulAtMost(m, q * share, power);
      assert m * (q * share) == m * share * q && share * m == m * share && share * q == q * share;
      assert (m + 1) * power == m * power + power;
    }
    MulAtMost(m * share, t, r * q + r);
    MulAtMost(r, m * share * q + m * share, (m + 1) * power);
    SlopeRegroup(power, t, r, m, q, share);
  }

  lemma SlopeRegroup(power: nat, t: nat, r: nat, m: nat, q: nat, share: nat)
    ensures m * t * share == m * share * t
    ensures m * share * (r * q + r) == r * (m * share * q + m * share)
    ensures r * ((m + 1) * power) == (m + 1) * power * r
  {
    var x := m * share;
    assert x * (r * q + r) == x * (r * q) + x * r;
    assert x * (r * q) == r * (x * q);
    assert r * (x * q + x) == r * (x * q) + r * x;
  }

  /** When the ratio is at most one `m`-th of the total, the inner floor costs at most a factor `(m + 1) / m`. */
  lemma ShareSlope(power: nat, t: nat, r: nat, m: nat)
    requires 1 <= m && m * r <= t
    ensures m * t * Share(power, t, r) <= (m + 1) * power * r
  {
    if 0 < r {
      MulAtMost(r, 1, m);
      ShareQuotients(power, t, r, m);
      SlopeStep(power, t, r, m, t / r, Share(power, t, r));
    } else {
      assert m * t * 0 == 0 && (m + 1) * power * 0 == 0;
    }
  }

  // ---------- Sums of shares ----------

  /** Shares of the keys, given their ratios. */
  ghost function Shares<K>(power: nat, t: nat, ratio: K -> int): K -> int {
    k => Share(power, t, ratio(k))
  }

  /** The ratios of the set are non-negative and fit the total. */
  ghost predicate Fits<K>(keys: set<K>, ratio: K -> int, t: nat) {
    (forall k | k in keys :: 0 <= ratio(k)) && SumOver(keys, ratio) <= t
  }

  lemma FitsMember<K>(keys: set<K>, ratio: K -> int, t: nat, k: K)
    requires Fits(keys, ratio, t) && k in keys
    ensures 0 <= ratio(k) <= t
    ensures 0 <= SumOver(keys - {k}, ratio) == SumOver(keys, ratio) - ratio(k)
    ensures Fits(keys - {k}, ratio, t - ratio(k))
  {
    SumOverRemove(keys, ratio, k);
    SumOverSubset({}, keys - {k}, ratio);
  }

  lemma SumSlope<K>(keys: set<K>, power: nat, t: nat, ratio: K -> int, m: nat)
    requires 1 <= m && forall k | k in keys :: 0 <= ratio(k) && m * ratio(k) <= t
    ensures m * t * SumOver(keys, Shares(power, t, ratio)) <= (m + 1) * power * SumOver(keys, ratio)
  {
    var shares := Shares(power, t, ratio);
    forall k | k in keys ensures Scaled(m * t, shares)(k) <= Scaled((m + 1) * power, ratio)(k) {
      ShareSlope(power, t, ratio(k), m);
    }
    SumOverAtMost(keys, Scaled(m * t, shares), Scaled((m + 1) * power, ratio));
    SumOverScaled(keys, m * t, shares);
    SumOverScaled(keys, (m + 1) * power, ratio);
  }

  /** Ratios of at most one `m`-th each and at most one `n`-th together. */
  lemma SmallRatios<K>(keys: set<K>, power: nat, t: nat, ratio: K -> int, m: nat, n: nat)
    requires t > 0 && 1 <= m && n * SumOver(keys, ratio) <= t
    requires forall k | k in keys :: 0 <= ratio(k) && m * ratio(k) <= t
    ensures n * m * SumOver(keys, Shares(power, t, ratio)) <= (m + 1) * power
  {
    var s, r := SumOver(keys, Shares(power, t, ratio)), SumOver(keys, ratio);
    SumSlope(keys, power, t, ratio, m);
    SlopeToBound(m, t, power, s, r, n);
  }

  lemma SlopeToBound(m: nat, t: nat, power: nat, s: int, r: int, n: nat)
    requires t > 0 && m * t * s <= (m + 1) * power * r && n * r <= t
    ensures n * m * s <= (m + 1) * power
  {
    var k, x := (m + 1) * power, n * m * s;
    MulAtMost(n, m * t * s, k * r);
    assert n * (m * t * s) == t * x by { assert m * t * s == t * (m * s) && n * (t * (m * s)) == t * (n * (m * s)); }
    assert n * (k * r) == k * (n * r);
    ScaledBound(t, x, k, n * r);
  }

  lemma ScaledBound(t: nat, x: int, k: nat, y: int)
    requires t > 0 && t * x <= k * y && y <= t
    ensures x <= k
  {
    MulAtMost(k, y, t);
    assert k * t == t * k;
    MulCancel(t, x, k);
  }

  lemma NothingToShare<K>(keys: set<K>, power: nat, ratio: K -> int)
    ensures SumOver(keys, Shares(power, 0, ratio)) == 0
  {
    SumOverScaled(keys, 0, ratio);
    SumOverCongruent(keys, Shares(power, 0, ratio), Scaled(0, ratio));
  }

  // ---------- When a share is exact ----------

  lemma QuotientUnique(n: nat, d: nat, q: nat)
    requires d > 0 && d * q <= n < d * (q + 1)
    ensures n / d == q
  {
    QuotientAtLeast(n, d, q);
    Quotient(n, d);
    MulCancelStrict(d, n / d, q + 1);
  }

  /** A matched delegate never receives less than the exact fraction, rounded down. */
  lemma ShareAtLeastFraction(power: nat, t: nat, r: nat)
    requires 0 < r <= t
    ensures power * r / t <= Share(power, t, r)
  {
    var q, x := t / r, power * r / t;
    ShareQuotients(power, t, r, 1);
    Quotient(power * r, t);
    MulAtMost(x, r * q, t);
    assert x * (r * q) == r * (q * x) && x * t == t * x && power * r == r * power;
    MulCancel(r, q * x, power);
    QuotientAtLeast(power, q, x);
  }

  lemma MulAssociates(a: int, b: int, c: int)
    ensures a * (b * c) == a * b * c
  {
  }

  lemma ScaledQuotient(power: nat, q: nat, x: nat, r: nat)
    requires r > 0 && q * x <= power < q * (x + 1)
    ensures r * q * x <= power * r < r * q * (x + 1)
  {
    MulAtMost(r, q * x, power);
    MulBelow(r, power, q * (x + 1));
    MulAssociates(r, q, x);
    MulAssociates(r, q, x + 1);
  }

  lemma ExactWhenDividing(power: nat, t: nat, r: nat)
    requires 0 < r <= t && t % r == 0
    ensures Share(power, t, r) == power * r / t
  {
    var q, x := t / r, Share(power, t, r);
    ShareQuotients(power, t, r, 1);
    assert t == r * q;
    assert q * (x + 1) == q * x + q;
    ScaledQuotient(power, q, x, r);
    QuotientUnique(power * r, t, x);
  }

  lemma InexactOtherwise(t: nat, r: nat)
    requires 0 < r <= t && t % r != 0
    ensures Share((t / r) * t, t, r) > (t / r) * t * r / t
  {
    var q := t / r;
    QuotientAtLeast(t, r, 1);
    ProductQuotient(q, t);
    assert Share(q * t, t, r) == t;
    assert q * t * r == t * (q * r) by { MulAssociates(t, q, r); }
    ProductQuotient(t, q * r);
    assert t == r * q + t % r && q * r == r * q;
  }

  lemma ProductQuotient(q: nat, x: nat)
    requires q > 0
    ensures q * x / q == x
  {
    assert q * (x + 1) == q * x + q;
    QuotientUnique(q * x, q, x);
  }

  /** The share equals the rounded-down fraction for every power exactly when the ratio divides the total. */
  lemma ShareExactIffDividing(t: nat, r: nat)
    requires 0 < r <= t
    ensures (forall power: nat :: Share(power, t, r) == power * r / t) <==> t % r == 0
  {
    if t % r == 0 {
      forall power: nat ensures Share(power, t, r) == power * r / t {
        ExactWhenDividing(power, t, r);
      }
    } else {
      QuotientAtLeast(t, r, 1);
      InexactOtherwise(t, r);
      assert exists power: nat :: Share(power, t, r) != power * r / t by {
        var power: nat := (t / r) * t;
        assert Share(power, t, r) != power * r / t;
      }
    }
  }

  /** Every positive ratio of the set divides the total. */
  ghost predicate AllDivide<K>(keys: set<K>, ratio: K -> int, t: nat) {
    forall k | k in keys :: 0 < ratio(k) <= t && t % ratio(k) == 0
  }

  lemma DividingShare(power: nat, t: nat, r: nat)
    requires 0 < r <= t && t % r == 0
    ensures t * Share(power, t, r) <= power * r < t * Share(power, t, r) + t
  {
    ExactWhenDividing(power, t, r);
    Quotient(power * r, t);
  }

  lemma {:induction false} DividingSums<K>(keys: set<K>, power: nat, t: nat, ratio: K -> int)
    requires t > 0 && AllDivide(keys, ratio, t)
    ensures t * SumOver(keys, Shares(power, t, ratio)) <= power * SumOver(keys, ratio)
    ensures t * (SumOver(keys, Shares(power, t, ratio)) + |keys|) >= power * SumOver(keys, ratio)
    ensures keys != {} ==> t * (SumOver(keys, Shares(power, t, ratio)) + |keys|) > power * SumOver(keys, ratio)
    decreases |keys|
  {
    if keys != {} {
      var k :| k in keys;
      var rest := keys - {k};
      SumOverRemove(keys, ratio, k);
      SumOverRemove(keys, Shares(power, t, ratio), k);
      DividingSums(rest, power, t, ratio);
      DividingShare(power, t, ratio(k));
      DividingAdd(power, t, Share(power, t, ratio(k)), ratio(k), SumOver(rest, Shares(power, t, ratio)),
        SumOver(rest, ratio), |rest|);
      assert |keys| == |rest| + 1;
    }
  }

  lemma DividingAdd(power: nat, t: nat, share: nat, r: nat, s: int, sr: int, n: nat)
    requires t * share <= power * r < t * share + t
    requires t * s <= power * sr <= t * (s + n)
    ensures t * (share + s) <= power * (r + sr) < t * (share + s + n + 1)
  {
    assert t * (share + s) == t * share + t * s;
    assert power * (r + sr) == power * r + power * sr;
    assert t * (share + s + n + 1) == t * share + t * (s + n) + t;
  }

  /** When every ratio divides the total, nothing is over-allocated, and delegates who hold the whole total leave less
      than one unit each on the table. */
  lemma DividingRatiosConserve<K>(keys: set<K>, power: nat, t: nat, ratio: K -> int)
    requires t > 0 && Fits(keys, ratio, t) && AllDivide(keys, ratio, t)
    ensures SumOver(keys, Shares(power, t, ratio)) <= power
    ensures SumOver(keys, ratio) == t ==> SumOver(keys, Shares(power, t, ratio)) > power - |keys|
  {
    var s, r := SumOver(keys, Shares(power, t, ratio)), SumOver(keys, ratio);
    DividingSums(keys, power, t, ratio);
    MulAtMost(power, r, t);
    assert power * t == t * power;
    MulCancel(t, s, power);
    if r == t {
      assert keys != {};
      MulCancelStrict(t, power, s + |keys|);
    }
  }

  // ---------- Exactly when nothing can be over-allocated ----------

  /** A positive number that every inner quotient divides: a common denominator for the fractions `1 / (t / r)`. */
  ghost predicate CommonMultiple<K>(keys: set<K>, m: nat, t: nat, ratio: K -> int) {
    m > 0 && forall k | k in keys && 0 < ratio(k) <= t :: t / ratio(k) > 0 && m % (t / ratio(k)) == 0
  }

  lemma MultipleOfMultiple(x: nat, y: nat, d: nat)
    requires d > 0 && y % d == 0
    ensures (x * y) % d == 0
  {
    var z := y / d;
    assert y == d * z;
    assert x * y == d * (x * z);
    QuotientUnique(x * y, d, x * z) by { assert d * (x * z + 1) == d * (x * z) + d; }
    assert x * y == d * ((x * y) / d) + (x * y) % d;
  }

  lemma {:induction false} CommonMultipleExists<K>(keys: set<K>, t: nat, ratio: K -> int) returns (power: nat)
    ensures CommonMultiple(keys, power, t, ratio)
    decreases |keys|
  {
    if keys == {} {
      power := 1;
    } else {
      var x :| x in keys;
      var smaller := CommonMultipleExists(keys - {x}, t, ratio);
      if 0 < ratio(x) <= t {
        QuotientAtLeast(t, ratio(x), 1);
        var q := t / ratio(x);
        power := smaller * q;
        MultipleOfMultiple(smaller, q, q);
        forall k | k in keys && 0 < ratio(k) <= t ensures t / ratio(k) > 0 && power % (t / ratio(k)) == 0 {
          if k != x {
            MultipleOfMultiple(q, smaller, t / ratio(k));
            assert q * smaller == smaller * q;
          }
        }
        MulAtMost(smaller, 1, q);
      } else {
        power := smaller;
      }
    }
  }

  /** Over the common denominator `m`, the numerator of `1 / (t / r)` bounds what any power pays out. */
  lemma ShareAgainstMultiple(power: nat, m: nat, t: nat, r: int)
    requires 0 < r <= t ==> t / r > 0 && m % (t / r) == 0
    ensures m * Share(power, t, r) <= power * Share(m, t, r)
  {
    if 0 < r <= t {
      ShareQuotients(power, t, r, 1);
      var q, share, part := t / r, Share(power, t, r), Share(m, t, r);
      assert m == q * part;
      MulAtMost(part, q * share, power);
      assert part * (q * share) == q * part * share && part * power == power * part;
    } else {
      assert m * 0 == 0 && power * 0 == 0;
    }
  }

  lemma SharesAgainstMultiple<K>(keys: set<K>, power: nat, m: nat, t: nat, ratio: K -> int)
    requires CommonMultiple(keys, m, t, ratio)
    ensures m * SumOver(keys, Shares(power, t, ratio)) <= power * SumOver(keys, Shares(m, t, ratio))
  {
    forall k | k in keys ensures Scaled(m, Shares(power, t, ratio))(k) <= Scaled(power, Shares(m, t, ratio))(k) {
      ShareAgainstMultiple(power, m, t, ratio(k));
    }
    SumOverAtMost(keys, Scaled(m, Shares(power, t, ratio)), Scaled(power, Shares(m, t, ratio)));
    SumOverScaled(keys, m, Shares(power, t, ratio));
    SumOverScaled(keys, power, Shares(m, t, ratio));
  }

  // ---------- The exact conditions ----------

  /** The fraction of the power that a ratio is worth after the inner floor: the reciprocal of the divisor. */
  function Reciprocal(t: nat, r: int): real {
    if 0 < r <= t && t / r > 0 then 1.0 / (t / r) as real else 0.0
  }

  ghost function Reciprocals<K>(t: nat, ratio: K -> int): K -> real {
    k => Reciprocal(t, ratio(k))
  }

  lemma ReciprocalOfMultiple(m: nat, t: nat, r: int)
    requires 0 < r <= t ==> t / r > 0 && m % (t / r) == 0
    ensures Times(m as real, Reciprocal(t, r)) == Share(m, t, r) as real
  {
    if 0 < r <= t {
      var q, part := t / r, m / (t / r);
      assert m == q * part;
      assert m as real == q as real * part as real;
      assert q as real * part as real * (1.0 / q as real) == part as real;
    }
  }

  lemma ReciprocalsOfMultiple<K>(keys: set<K>, m: nat, t: nat, ratio: K -> int)
    requires CommonMultiple(keys, m, t, ratio)
    ensures Times(m as real, SumOverReal(keys, Reciprocals(t, ratio))) == SumOver(keys, Shares(m, t, ratio)) as real
  {
    var g, f := Reciprocals(t, ratio), Shares(m, t, ratio);
    forall k | k in keys ensures Times(m as real, g(k)) == f(k) as real {
      ReciprocalOfMultiple(m, t, ratio(k));
    }
    SumOverRealScaled(keys, m as real, g, f);
  }

  lemma ReciprocalsOverMultiple<K>(keys: set<K>, m: nat, t: nat, ratio: K -> int)
    requires CommonMultiple(keys, m, t, ratio)
    ensures SumOver(keys, Shares(m, t, ratio)) <= m <==> SumOverReal(keys, Reciprocals(t, ratio)) <= 1.0
  {
    ReciprocalsOfMultiple(keys, m, t, ratio);
    AgainstOne(m, SumOverReal(keys, Reciprocals(t, ratio)), SumOver(keys, Shares(m, t, ratio)));
  }

  lemma AgainstOne(m: nat, x: real, s: int)
    requires m > 0 && Times(m as real, x) == s as real
    ensures s <= m <==> x <= 1.0
  {
    if x <= 1.0 {
      assert m as real * (1.0 - x) >= 0.0;
    } else {
      assert m as real * (x - 1.0) > 0.0;
    }
  }

  /** Delegates can never be handed more than the delegator's power, whatever that power is, if and only if the
      reciprocals of their divisors add up to at most one. */
  lemma NeverOverAllocatesIff<K>(keys: set<K>, t: nat, ratio: K -> int)
    ensures (forall power: nat :: SumOver(keys, Shares(power, t, ratio)) <= power) <==>
            SumOverReal(keys, Reciprocals(t, ratio)) <= 1.0
  {
    var m := CommonMultipleExists(keys, t, ratio);
    ReciprocalsOverMultiple(keys, m, t, ratio);
    if SumOver(keys, Shares(m, t, ratio)) <= m {
      forall power: nat ensures SumOver(keys, Shares(power, t, ratio)) <= power {
        SharesAgainstMultiple(keys, power, m, t, ratio);
        MulAtMost(power, SumOver(keys, Shares(m, t, ratio)), m);
        assert power * m == m * power;
        MulCancel(m, SumOver(keys, Shares(power, t, ratio)), power);
      }
    }
  }

  /** At a power that the total divides, every share is at least its exact fraction. */
  lemma ShareOfMultiple(q: nat, t: nat, r: nat)
    requires 0 < r <= t
    ensures q * r <= Share(q * t, t, r)
    ensures q == t / r && t % r != 0 ==> q * r < Share(q * t, t, r)
  {
    ShareAtLeastFraction(q * t, t, r);
    assert q * t * r == t * (q * r);
    QuotientUnique(q * t * r, t, q * r) by { assert t * (q * r + 1) == t * (q * r) + t; }
    if q == t / r && t % r != 0 {
      InexactOtherwise(t, r);
    }
  }

  lemma OneRatioLeavesRemainder<K>(keys: set<K>, t: nat, ratio: K -> int, k: K)
    requires t > 0 && SumOver(keys, ratio) == t && forall x | x in keys :: 0 < ratio(x) <= t
    requires k in keys && t % ratio(k) != 0
    ensures t / ratio(k) >= 0 && SumOver(keys, Shares((t / ratio(k)) * t, t, ratio)) > (t / ratio(k)) * t
  {
    QuotientAtLeast(t, ratio(k), 1);
    var q: nat := t / ratio(k);
    var shares := Shares(q * t, t, ratio);
    forall x | x in keys ensures Scaled(q, ratio)(x) <= shares(x) {
      ShareOfMultiple(q, t, ratio(x));
    }
    ShareOfMultiple(q, t, ratio(k));
    SumOverAtMost(keys - {k}, Scaled(q, ratio), shares);
    SumOverRemove(keys, Scaled(q, ratio), k);
    SumOverRemove(keys, shares, k);
    SumOverScaled(keys, q, ratio);
  }

  /** Delegates with positive ratios who hold the whole total are never handed more than the power, whatever that power
      is, if and only if every ratio divides the total. */
  lemma FullSplitConservesIffDividing<K>(keys: set<K>, t: nat, ratio: K -> int)
    requires t > 0 && SumOver(keys, ratio) == t && forall x | x in keys :: 0 < ratio(x)
    ensures (forall power: nat :: SumOver(keys, Shares(power, t, ratio)) <= power) <==> AllDivide(keys, ratio, t)
  {
    forall x | x in keys ensures ratio(x) <= t {
      FitsMember(keys, ratio, t, x);
    }
    if k :| k in keys && t % ratio(k) != 0 {
      OneRatioLeavesRemainder(keys, t, ratio, k);
      assert exists power: nat :: SumOver(keys, Shares(power, t, ratio)) > power;
    } else {
      forall power: nat ensures SumOver(keys, Shares(power, t, ratio)) <= power {
        DividingRatiosConserve(keys, power, t, ratio);
      }
    }
  }
}
