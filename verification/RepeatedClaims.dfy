/** Which delegation data keeps the certified power within the supply. The guest neither asks that a voter list a
    delegator once nor that two voters list different delegators, so the bounds of `SupplyBounds` hold under conditions
    on the data. Here those conditions are shown to be exact, over all worlds in which the holders own no more than the
    supply. */
module RepeatedClaims {
  import opened Primitives
  import opened Sums
  import opened ShareArithmetic
  import opened SylvesterBound
  import opened SplitDelegation
  import opened VotingGuest
  import opened MajorityDecision
  import opened SupplyBounds

  // ---------- What is asked of a world ----------

  ghost predicate BackedWorld(w: World, assets: seq<Asset>) {
    forall a | a in assets :: Backed(w, a)
  }

  /** What the guest computes for each voter. */
  ghost function GuestTotal(w: World, assets: seq<Asset>, data: Address -> Bytes): Address -> int {
    (v: Address) => match TotalPower(w, assets, v, data(v)) case Done(power) => power case _ => 0
  }

  /** If both guests come to a result, all voters together are certified at most `x` times the supply. */
  ghost predicate Within(w: World, assets: seq<Asset>, voters: set<Address>, data: Address -> Bytes, x: real) {
    (forall v | v in voters :: TotalPower(w, assets, v, data(v)).Done?) && TotalSupply(w, assets).Done? ==>
      SumOver(voters, GuestTotal(w, assets, data)) as real <= Times(TotalSupply(w, assets).value as real, x)
  }

  ghost predicate AllDistinct(voters: set<Address>, data: Address -> Bytes) {
    forall v | v in voters :: Distinct(Listed(data(v)))
  }

  /** No delegator is listed twice, neither by one voter nor by two. */
  ghost predicate ClaimedOnce(voters: set<Address>, data: Address -> Bytes) {
    && AllDistinct(voters, data)
    && forall u, v | u in voters && v in voters && u != v :: Elements(Listed(data(u))) !! Elements(Listed(data(v)))
  }

  /** The claimed delegators have lists. */
  ghost predicate ListsExist(w: World, assets: seq<Asset>, voters: set<Address>, data: Address -> Bytes) {
    forall v | v in voters :: AllListsNonEmpty(w, assets, data(v))
  }

  /** The data is a whole number of addresses, few enough for a word to count them once per asset. */
  ghost predicate Countable(assets: seq<Asset>, voters: set<Address>, data: Address -> Bytes) {
    && 0 < |assets| <= U256_MAX
    && forall v | v in voters :: |data(v)| % ADDRESS_LEN == 0 && |assets| * |Listed(data(v))| <= U256_MAX
  }

  lemma TotalsAreCertified(w: World, assets: seq<Asset>, voters: set<Address>, data: Address -> Bytes)
    requires forall v | v in voters :: TotalPower(w, assets, v, data(v)).Done?
    ensures SumOver(voters, GuestTotal(w, assets, data)) == SumOver(voters, CertifiedTotal(w, assets, data))
  {
    forall v | v in voters ensures GuestTotal(w, assets, data)(v) == CertifiedTotal(w, assets, data)(v) {
      TotalPowerMeaning(w, assets, v, data(v));
    }
    SumOverCongruent(voters, GuestTotal(w, assets, data), CertifiedTotal(w, assets, data));
  }

  // ---------- Claims that do not repeat ----------

  lemma ClaimedWithout(voters: set<Address>, data: Address -> Bytes, v: Address)
    requires v in voters && ClaimedOnce(voters, data)
    ensures Claimed(voters, data) == Claimed(voters - {v}, data) + Elements(Listed(data(v)))
    ensures Claimed(voters - {v}, data) !! Elements(Listed(data(v)))
    ensures ClaimedOnce(voters - {v}, data)
  {
    forall d | d in Claimed(voters - {v}, data) ensures d !in Elements(Listed(data(v))) {
      var u :| u in voters - {v} && d in Listed(data(u));
      assert Elements(Listed(data(u))) !! Elements(Listed(data(v)));
      assert d in Elements(Listed(data(u)));
    }
  }

  lemma CertifiedWithinListed(w: World, asset: Asset, data: Address -> Bytes, v: Address)
    requires Distinct(Listed(data(v)))
    ensures Certified(w, asset, data)(v) <= SumOver(Elements(Listed(data(v))), PowerOf(w, asset))
  {
    var ds := Elements(Listed(data(v)));
    SumSeqDistinct(Listed(data(v)), Grants(w, asset, v));
    forall d | d in ds ensures Grants(w, asset, v)(d) <= PowerOf(w, asset)(d) {
      ShareOfAtMostPower(w.power(asset, d), w.registry(asset, d), v);
    }
    SumOverAtMost(ds, Grants(w, asset, v), PowerOf(w, asset));
  }

  lemma {:induction false} OnceWithinClaimed(w: World, asset: Asset, voters: set<Address>, data: Address -> Bytes)
    requires ClaimedOnce(voters, data)
    ensures SumOver(voters, Certified(w, asset, data)) <= SumOver(Claimed(voters, data), PowerOf(w, asset))
    decreases |voters|
  {
    if voters == {} {
      assert Claimed(voters, data) == {};
    } else {
      var v :| v in voters;
      ClaimedPower(voters, data, v, PowerOf(w, asset));
      SumOverRemove(voters, Certified(w, asset, data), v);
      CertifiedWithinListed(w, asset, data, v);
      OnceWithinClaimed(w, asset, voters - {v}, data);
    }
  }

  lemma ClaimedPower(voters: set<Address>, data: Address -> Bytes, v: Address, f: Address -> int)
    requires v in voters && ClaimedOnce(voters, data)
    ensures SumOver(Claimed(voters, data), f) ==
            SumOver(Claimed(voters - {v}, data), f) + SumOver(Elements(Listed(data(v))), f)
    ensures ClaimedOnce(voters - {v}, data) && Distinct(Listed(data(v)))
  {
    ClaimedWithout(voters, data, v);
    SumOverUnion(Claimed(voters - {v}, data), Elements(Listed(data(v))), f);
  }

  lemma {:induction false} OnceWithinSupply(w: World, assets: seq<Asset>, voters: set<Address>, data: Address -> Bytes)
    requires ClaimedOnce(voters, data) && BackedWorld(w, assets)
    ensures SumOver(voters, CertifiedTotal(w, assets, data)) <= SumSeq(assets, SupplyOf(w))
    decreases |assets|
  {
    if assets == [] {
      NoAssets(w, voters, data);
    } else {
      OnceWithinClaimed(w, assets[0], voters, data);
      assert Backed(w, assets[0]);
      OnceWithinSupply(w, assets[1..], voters, data);
      TotalsAdd(w, assets, voters, data);
    }
  }

  // ---------- A world with one unit of power ----------

  /** `d` holds the only unit of every asset; everybody has the same list. */
  function UnitWorld(d: Address, list: seq<Entry>): World {
    World((a: Asset, x: Address) => list, (a: Asset, x: Address) => if x == d then 1 else 0, (a: Asset) => 1)
  }

  lemma UnitBacked(d: Address, list: seq<Entry>, assets: seq<Asset>)
    ensures BackedWorld(UnitWorld(d, list), assets)
  {
    var w := UnitWorld(d, list);
    forall a | a in assets ensures Backed(w, a) {
      forall holders: set<Address> ensures SumOver(holders, PowerOf(w, a)) <= 1 {
        SumOverSubset(holders, holders + {d}, PowerOf(w, a));
        SumOverSupport(holders + {d}, {d}, PowerOf(w, a));
        SumOverRemove({d}, PowerOf(w, a), d);
        assert {d} - {d} == {};
      }
    }
  }

  function Count(xs: seq<Address>, d: Address): nat {
    if xs == [] then 0 else (if xs[0] == d then 1 else 0) + Count(xs[1..], d)
  }

  lemma {:induction false} CountBounds(xs: seq<Address>, d: Address)
    ensures Count(xs, d) <= |xs|
    ensures d in xs ==> Count(xs, d) >= 1
  {
    if xs != [] {
      CountBounds(xs[1..], d);
    }
  }

  lemma {:induction false} CountRepeated(xs: seq<Address>, i: nat, j: nat)
    requires i < j < |xs| && xs[i] == xs[j]
    ensures Count(xs, xs[i]) >= 2
  {
    if i == 0 {
      assert xs[1..][j - 1] == xs[i];
      CountBounds(xs[1..], xs[i]);
    } else {
      CountRepeated(xs[1..], i - 1, j - 1);
    }
  }

  lemma NothingShared(list: seq<Entry>, v: Address)
    ensures ShareOf(0, list, v) == 0
  {
    ShareOfAtMostPower(0, list, v);
  }

  /** A voter is granted the unit as often as the data lists its holder. */
  lemma {:induction false} UnitGrants(d: Address, list: seq<Entry>, asset: Asset, v: Address, xs: seq<Address>)
    ensures SumSeq(xs, Grants(UnitWorld(d, list), asset, v)) == Count(xs, d) * ShareOf(1, list, v)
  {
    if xs == [] {
      assert 0 * ShareOf(1, list, v) == 0;
    } else {
      UnitGrants(d, list, asset, v, xs[1..]);
      NothingShared(list, v);
      var c, g := Count(xs[1..], d), ShareOf(1, list, v);
      assert (1 + c) * g == g + c * g;
    }
  }

  lemma {:induction false} SumSeqConstant(assets: seq<Asset>, f: Asset -> int, c: int)
    requires forall a | a in assets :: f(a) == c
    ensures SumSeq(assets, f) == |assets| * c
  {
    if assets == [] {
      assert 0 * c == 0;
    } else {
      SumSeqConstant(assets[1..], f, c);
      assert |assets| * c == |assets[1..]| * c + c;
    }
  }

  lemma UnitTotal(d: Address, list: seq<Entry>, assets: seq<Asset>, v: Address, data: Bytes)
    requires |data| % ADDRESS_LEN == 0 && |assets| * |Listed(data)| <= U256_MAX && Eligible(list, v)
    ensures TotalPower(UnitWorld(d, list), assets, v, data) ==
            Done(|assets| * (Count(Listed(data), d) * ShareOf(1, list, v)))
  {
    var w, c := UnitWorld(d, list), Count(Listed(data), d) * ShareOf(1, list, v);
    forall a | a in assets ensures GrantTotal(w, v, data)(a) == c && Valid(w, a, v, data) {
      UnitGrants(d, list, a, v, Listed(data));
    }
    SumSeqConstant(assets, GrantTotal(w, v, data), c);
    UnitTotalFits(|assets|, Count(Listed(data), d), ShareOf(1, list, v), |Listed(data)|) by {
      CountBounds(Listed(data), d);
      ShareOfAtMostPower(1, list, v);
    }
    TotalPowerMeaning(w, assets, v, data);
  }

  lemma UnitTotalFits(n: nat, c: nat, g: nat, m: nat)
    requires c <= m && g <= 1
    ensures n * (c * g) <= n * m
  {
    assert c * g <= c by { assert g == 0 || g == 1; }
    assert n * m == n * (c * g) + n * (m - c * g);
  }

  lemma UnitSupply(d: Address, list: seq<Entry>, assets: seq<Asset>)
    requires |assets| <= U256_MAX
    ensures TotalSupply(UnitWorld(d, list), assets) == Done(|assets|)
  {
    var w := UnitWorld(d, list);
    SumSeqConstant(assets, SupplyOf(w), 1);
    SumSupplyMeaning(w, assets, 0);
  }

  /** Two units certified over a supply of one exceed every factor below two. */
  lemma UnitExceeds(
    d: Address, list: seq<Entry>, assets: seq<Asset>, voters: set<Address>, data: Address -> Bytes, x: real,
    some: set<Address>)
    requires Countable(assets, voters, data) && x < 2.0 && some <= voters && forall v | v in voters :: Eligible(list, v)
    requires SumOver(some, GuestTotal(UnitWorld(d, list), assets, data)) >= 2 * |assets|
    ensures !Within(UnitWorld(d, list), assets, voters, data, x)
  {
    var w := UnitWorld(d, list);
    forall v | v in voters ensures TotalPower(w, assets, v, data(v)).Done? && GuestTotal(w, assets, data)(v) >= 0 {
      UnitTotal(d, list, assets, v, data(v));
    }
    UnitSupply(d, list, assets);
    SumOverSubset(some, voters, GuestTotal(w, assets, data));
    TwiceExceeds(SumOver(voters, GuestTotal(w, assets, data)), |assets|, x);
  }

  lemma TwiceExceeds(total: int, n: nat, x: real)
    requires total >= 2 * n && n > 0 && x < 2.0
    ensures total as real > Times(n as real, x)
  {
    var m := n as real;
    assert total as real >= (2 * n) as real && (2 * n) as real == 2.0 * m;
    StrictlyMonotone(m, x, 2.0);
  }

  lemma StrictlyMonotone(m: real, x: real, y: real)
    requires m > 0.0 && x < y
    ensures Times(m, x) < m * y
  {
    assert m * (y - x) > 0.0;
  }

  lemma OneVoterExceeds(
    d: Address, list: seq<Entry>, assets: seq<Asset>, voters: set<Address>, data: Address -> Bytes, x: real, v: Address)
    requires Countable(assets, voters, data) && x < 2.0 && v in voters && forall u | u in voters :: Eligible(list, u)
    requires Count(Listed(data(v)), d) >= 2 && ShareOf(1, list, v) == 1
    ensures !Within(UnitWorld(d, list), assets, voters, data, x)
  {
    var w := UnitWorld(d, list);
    UnitTotal(d, list, assets, v, data(v));
    SumOverRemove({v}, GuestTotal(w, assets, data), v);
    assert {v} - {v} == {};
    assert |assets| * (Count(Listed(data(v)), d) * 1) >= 2 * |assets| by {
      assert |assets| * Count(Listed(data(v)), d) == 2 * |assets| + |assets| * (Count(Listed(data(v)), d) - 2);
    }
    UnitExceeds(d, list, assets, voters, data, x, {v});
  }

  // ---------- No condition on the lists ----------

  lemma ClaimsTheUnit(d: Address, assets: seq<Asset>, v: Address, data: Address -> Bytes)
    requires |data(v)| % ADDRESS_LEN == 0 && |assets| * |Listed(data(v))| <= U256_MAX && d in Listed(data(v))
    ensures GuestTotal(UnitWorld(d, []), assets, data)(v) >= |assets|
  {
    UnitTotal(d, [], assets, v, data(v));
    CountBounds(Listed(data(v)), d);
    AtLeastOnce(|assets|, Count(Listed(data(v)), d), ShareOf(1, [], v));
  }

  lemma AtLeastOnce(n: nat, c: nat, g: nat)
    requires c >= 1 && g == 1
    ensures n * (c * g) >= n
  {
    assert n * c == n + n * (c - 1);
  }

  lemma SumOfTwo(u: Address, v: Address, f: Address -> int)
    requires u != v
    ensures SumOver({u, v}, f) == f(u) + f(v)
  {
    SumOverRemove({u, v}, f, u);
    SumOverRemove({v}, f, v);
    assert {u, v} - {u} == {v} && {v} - {v} == {};
  }

  /** With empty lists two voters may claim one delegator. */
  lemma OverlapExceeds(
    assets: seq<Asset>, voters: set<Address>, data: Address -> Bytes, x: real, u: Address, v: Address, d: Address)
    requires Countable(assets, voters, data) && x < 2.0 && u in voters && v in voters && u != v
    requires d in Listed(data(u)) && d in Listed(data(v))
    ensures BackedWorld(UnitWorld(d, []), assets) && !Within(UnitWorld(d, []), assets, voters, data, x)
  {
    UnitBacked(d, [], assets);
    ClaimsTheUnit(d, assets, u, data);
    ClaimsTheUnit(d, assets, v, data);
    SumOfTwo(u, v, GuestTotal(UnitWorld(d, []), assets, data));
    UnitExceeds(d, [], assets, voters, data, x, {u, v});
  }

  /** A voter who lists a delegator twice. */
  lemma RepeatExceeds(
    list: seq<Entry>, assets: seq<Asset>, voters: set<Address>, data: Address -> Bytes, x: real,
    v: Address) returns (d: Address)
    requires Countable(assets, voters, data) && x < 2.0 && v in voters && forall u | u in voters :: Eligible(list, u)
    requires !Distinct(Listed(data(v))) && ShareOf(1, list, v) == 1
    ensures BackedWorld(UnitWorld(d, list), assets) && !Within(UnitWorld(d, list), assets, voters, data, x)
  {
    var xs := Listed(data(v));
    var i, j :| 0 <= i < j < |xs| && xs[i] == xs[j];
    d := xs[i];
    CountRepeated(xs, i, j);
    UnitBacked(d, list, assets);
    OneVoterExceeds(d, list, assets, voters, data, x, v);
  }

  /** Exactly which data is safe whatever the lists say: all voters together stay within the supply (or within any
      factor below two of it) in every backed world if and only if no delegator is listed twice, neither by one voter
      nor by two. */
  lemma WithinSupplyIffClaimedOnce(assets: seq<Asset>, voters: set<Address>, data: Address -> Bytes, x: real)
    requires Countable(assets, voters, data) && 1.0 <= x < 2.0
    ensures (forall w: World :: BackedWorld(w, assets) ==> Within(w, assets, voters, data, x)) <==>
            ClaimedOnce(voters, data)
  {
    if ClaimedOnce(voters, data) {
      forall w: World | BackedWorld(w, assets) ensures Within(w, assets, voters, data, x) {
        OnceIsWithin(w, assets, voters, data, x);
      }
    } else if v :| v in voters && !Distinct(Listed(data(v))) {
      var d := RepeatExceeds([], assets, voters, data, x, v);
    } else {
      var u, v, d := SomeOverlap(voters, data);
      OverlapExceeds(assets, voters, data, x, u, v, d);
    }
  }

  lemma SomeOverlap(voters: set<Address>, data: Address -> Bytes) returns (u: Address, v: Address, d: Address)
    requires AllDistinct(voters, data) && !ClaimedOnce(voters, data)
    ensures u in voters && v in voters && u != v && d in Listed(data(u)) && d in Listed(data(v))
  {
    u, v :| u in voters && v in voters && u != v && !(Elements(Listed(data(u))) !! Elements(Listed(data(v))));
    d :| d in Elements(Listed(data(u))) && d in Elements(Listed(data(v)));
  }

  lemma OnceIsWithin(w: World, assets: seq<Asset>, voters: set<Address>, data: Address -> Bytes, x: real)
    requires ClaimedOnce(voters, data) && BackedWorld(w, assets) && 1.0 <= x
    ensures Within(w, assets, voters, data, x)
  {
    if (forall v | v in voters :: TotalPower(w, assets, v, data(v)).Done?) && TotalSupply(w, assets).Done? {
      TotalsAreCertified(w, assets, voters, data);
      OnceWithinSupply(w, assets, voters, data);
      SumSupplyMeaning(w, assets, 0);
      AtMostMultiple(TotalSupply(w, assets).value as real, x);
    }
  }

  lemma AtMostMultiple(m: real, x: real)
    requires m >= 0.0 && x >= 1.0
    ensures m <= Times(m, x)
  {
    assert m * (x - 1.0) >= 0.0;
  }

  /** The same for one voter: certified at most the supply in every backed world if and only if no delegator is listed
      twice. */
  lemma VoterWithinSupplyIffDistinct(assets: seq<Asset>, voter: Address, data: Bytes)
    requires 0 < |assets| <= U256_MAX && |data| % ADDRESS_LEN == 0 && |assets| * |Listed(data)| <= U256_MAX
    ensures (forall w: World ::
            BackedWorld(w, assets) && TotalPower(w, assets, voter, data).Done? && TotalSupply(w, assets).Done? ==>
               TotalPower(w, assets, voter, data).value <= TotalSupply(w, assets).value)
            <==> Distinct(Listed(data))
  {
    var all := (v: Address) => data;
    forall w: World
      ensures Within(w, assets, {voter}, all, 1.0) <==>
              (TotalPower(w, assets, voter, data).Done? && TotalSupply(w, assets).Done? ==>
                 TotalPower(w, assets, voter, data).value <= TotalSupply(w, assets).value)
    {
      SumOverRemove({voter}, GuestTotal(w, assets, all), voter);
      assert {voter} - {voter} == {};
    }
    WithinSupplyIffClaimedOnce(assets, {voter}, all, 1.0);
  }

  // ---------- Non-empty lists ----------

  /** One entry of ratio one for each account. */
  lemma {:induction false} OneEach(accounts: set<Address>) returns (list: seq<Entry>)
    requires |accounts| <= U256_MAX
    ensures RatioSum(list) == |accounts|
    ensures forall a: Address :: MatchedRatio(list, a) == if a in accounts then 1 else 0
    decreases |accounts|
  {
    if accounts == {} {
      list := [];
    } else {
      var a :| a in accounts;
      var rest := OneEach(accounts - {a});
      list := [EntryFor(a, 1)] + rest;
      MatchedBehind(a, 1, rest);
    }
  }

  lemma MatchedBehind(a: Address, ratio: U256, list: seq<Entry>)
    ensures RatioSum([EntryFor(a, ratio)] + list) == ratio + RatioSum(list)
    ensures forall x: Address ::
            MatchedRatio([EntryFor(a, ratio)] + list, x) == if x == a then ratio else MatchedRatio(list, x)
  {
    EntryNames(a, ratio);
    FindBehind(EntryFor(a, ratio), list);
  }

  lemma UnitShare(t: nat, r: nat)
    requires 0 < r <= t && t / r == 1
    ensures Share(1, t, r) == 1
  {
  }

  /** A list that names all voters and gives a power of one to `v` alone. */
  lemma Favourite(voters: set<Address>, v: Address) returns (list: seq<Entry>)
    requires v in voters && 2 * |voters| <= U256_MAX
    ensures list != [] && ShareOf(1, list, v) == 1 && forall u | u in voters :: Eligible(list, u)
  {
    var n := |voters|;
    var rest := OneEach(voters - {v});
    list := [EntryFor(v, n)] + rest;
    MatchedBehind(v, n, rest);
    var t := RatioSum(list);
    assert t == 2 * n - 1 && n > 0;
    QuotientUnique(t, n, 1);
    UnitShare(t, n);
    forall u | u in voters ensures Eligible(list, u) {
      assert MatchedRatio(list, u) > 0;
    }
  }

  /** Exactly which data is safe where the claimed delegators have lists: within every factor that bounds the splits,
      and is below two, in every backed world if and only if no voter lists a delegator twice. */
  lemma WithinFactorIffDistinct(assets: seq<Asset>, voters: set<Address>, data: Address -> Bytes, x: real)
    requires Countable(assets, voters, data) && 2 * |voters| <= U256_MAX && BoundsPartialSums(x) && x < 2.0
    ensures (forall w: World :: BackedWorld(w, assets) && ListsExist(w, assets, voters, data) ==>
            Within(w, assets, voters, data, x))
            <==> AllDistinct(voters, data)
  {
    if AllDistinct(voters, data) {
      forall w: World | BackedWorld(w, assets) && ListsExist(w, assets, voters, data)
        ensures Within(w, assets, voters, data, x) {
        DistinctIsWithin(w, assets, voters, data, x);
      }
    } else {
      var v :| v in voters && !Distinct(Listed(data(v)));
      var list := Favourite(voters, v);
      var d := RepeatExceeds(list, assets, voters, data, x, v);
      assert ListsExist(UnitWorld(d, list), assets, voters, data);
    }
  }

  lemma DistinctIsWithin(w: World, assets: seq<Asset>, voters: set<Address>, data: Address -> Bytes, x: real)
    requires AllDistinct(voters, data) && BackedWorld(w, assets) && ListsExist(w, assets, voters, data) &&
             BoundsPartialSums(x)
    ensures Within(w, assets, voters, data, x)
  {
    if (forall v | v in voters :: TotalPower(w, assets, v, data(v)).Done?) && TotalSupply(w, assets).Done? {
      AllVotersOverAllocation(w, assets, voters, data, GuestTotal(w, assets, data), x);
      SumSupplyMeaning(w, assets, 0);
    }
  }
}
