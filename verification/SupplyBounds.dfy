/** What certified voting power is bounded by: the supply that the execution guest measures it against. One voter alone,
    and all voters together, whose claims may share delegators. */
module SupplyBounds {
  import opened Primitives
  import opened Sums
  import opened ShareArithmetic
  import opened SylvesterBound
  import opened SplitDelegation
  import opened VotingGuest
  import opened MajorityDecision

  ghost function PowerOf(w: World, asset: Asset): Address -> int {
    (d: Address) => w.power(asset, d)
  }

  /** No set of distinct holders owns more than the supply of the asset. */
  ghost predicate Backed(w: World, asset: Asset) {
    forall holders: set<Address> :: SumOver(holders, PowerOf(w, asset)) <= w.supply(asset)
  }

  lemma ShareOfAtMostPower(power: nat, list: seq<Entry>, account: Address)
    ensures ShareOf(power, list, account) <= power
  {
    ShareAtMostPower(power, RatioSum(list), MatchedRatio(list, account));
  }

  // ---------- One voter ----------

  lemma GrantTotalWithinSupply(w: World, asset: Asset, voter: Address, data: Bytes)
    requires Distinct(Listed(data)) && Backed(w, asset)
    ensures GrantTotal(w, voter, data)(asset) <= SupplyOf(w)(asset)
  {
    var ds := Elements(Listed(data));
    SumSeqDistinct(Listed(data), Grants(w, asset, voter));
    forall d | d in ds ensures Grants(w, asset, voter)(d) <= PowerOf(w, asset)(d) {
      ShareOfAtMostPower(w.power(asset, d), w.registry(asset, d), voter);
    }
    SumOverAtMost(ds, Grants(w, asset, voter), PowerOf(w, asset));
  }

  /** A voter who lists no delegator twice is certified at most the total supply the execution guest computes over the
      same assets. */
  lemma VoterWithinSupply(w: World, assets: seq<Asset>, voter: Address, data: Bytes)
    requires Distinct(Listed(data)) && forall a | a in assets :: Backed(w, a)
    requires TotalPower(w, assets, voter, data).Done? && TotalSupply(w, assets).Done?
    ensures TotalPower(w, assets, voter, data).value <= TotalSupply(w, assets).value
  {
    TotalPowerMeaning(w, assets, voter, data);
    SumSupplyMeaning(w, assets, 0);
    forall a | a in assets ensures GrantTotal(w, voter, data)(a) <= SupplyOf(w)(a) {
      GrantTotalWithinSupply(w, a, voter, data);
    }
    SumSeqAtMost(assets, GrantTotal(w, voter, data), SupplyOf(w));
  }

  // ---------- All voters together ----------

  /** What delegator `d` of one asset grants voter `v`. */
  ghost function GrantTable(w: World, asset: Asset): (Address, Address) -> int {
    (v: Address, d: Address) => ShareOf(w.power(asset, d), w.registry(asset, d), v)
  }

  ghost function Claimed(voters: set<Address>, data: Address -> Bytes): set<Address> {
    set v: Address, d: Address | v in voters && d in Listed(data(v)) :: d
  }

  /** No delegator's grants to the voters exceed `x` times its power. */
  ghost predicate GrantsBounded(w: World, asset: Asset, voters: set<Address>, delegators: set<Address>, x: real) {
    forall d | d in delegators ::
      SumOver(voters, SharesOf(w.power(asset, d), w.registry(asset, d))) as real <= Times(w.power(asset, d) as real, x)
  }

  /** One asset's certified power, voter by voter. */
  ghost function Certified(w: World, asset: Asset, data: Address -> Bytes): Address -> int {
    (v: Address) => GrantTotal(w, v, data(v))(asset)
  }

  lemma CertifiedWithinRow(w: World, asset: Asset, voters: set<Address>, data: Address -> Bytes, v: Address)
    requires v in voters && Distinct(Listed(data(v)))
    ensures Certified(w, asset, data)(v) <= Rows(Claimed(voters, data), GrantTable(w, asset))(v)
  {
    var all, mine := Claimed(voters, data), Elements(Listed(data(v)));
    SumSeqDistinct(Listed(data(v)), Grants(w, asset, v));
    forall d | d in all ensures Grants(w, asset, v)(d) >= 0 {
      assert ShareOf(w.power(asset, d), w.registry(asset, d), v) >= 0;
    }
    SumOverSubset(mine, all, Grants(w, asset, v));
    SumOverCongruent(all, Grants(w, asset, v), RowOf(GrantTable(w, asset), v));
  }

  lemma ColumnIsShares(w: World, asset: Asset, voters: set<Address>, d: Address)
    ensures Columns(voters, GrantTable(w, asset))(d) ==
            SumOver(voters, SharesOf(w.power(asset, d), w.registry(asset, d)))
  {
    SumOverCongruent(voters, SharesOf(w.power(asset, d), w.registry(asset, d)), ColumnOf(GrantTable(w, asset), d));
  }

  /** Adding up the table of grants by delegators instead of by voters bounds what all voters are certified for one
      asset. */
  lemma AssetWithinSupply(w: World, asset: Asset, voters: set<Address>, data: Address -> Bytes, x: real)
    requires Backed(w, asset) && x >= 0.0 && forall v | v in voters :: Distinct(Listed(data(v)))
    requires GrantsBounded(w, asset, voters, Claimed(voters, data), x)
    ensures SumOver(voters, Certified(w, asset, data)) as real <= Times(w.supply(asset) as real, x)
  {
    var all, table := Claimed(voters, data), GrantTable(w, asset);
    forall v | v in voters ensures Certified(w, asset, data)(v) <= Rows(all, table)(v) {
      CertifiedWithinRow(w, asset, voters, data, v);
    }
    SumOverAtMost(voters, Certified(w, asset, data), Rows(all, table));
    SumOverSwap(voters, all, table);
    ColumnsWithinSupply(w, asset, voters, all, x);
  }

  lemma ColumnsWithinSupply(w: World, asset: Asset, voters: set<Address>, all: set<Address>, x: real)
    requires Backed(w, asset) && x >= 0.0 && GrantsBounded(w, asset, voters, all, x)
    ensures SumOver(all, Columns(voters, GrantTable(w, asset))) as real <= Times(w.supply(asset) as real, x)
  {
    var columns, powers := Columns(voters, GrantTable(w, asset)), PowerOf(w, asset);
    forall d | d in all ensures columns(d) as real <= Times(powers(d) as real, x) {
      ColumnIsShares(w, asset, voters, d);
    }
    SumOverWithinFactor(all, columns, powers, x);
    TimesMonotone(SumOver(all, powers) as real, w.supply(asset) as real, x);
  }

  lemma TimesMonotone(a: real, b: real, x: real)
    requires a <= b && x >= 0.0
    ensures Times(a, x) <= Times(b, x)
  {
    assert (b - a) * x >= 0.0;
  }

  /** The total the guest certifies for each voter. */
  ghost function CertifiedTotal(w: World, assets: seq<Asset>, data: Address -> Bytes): Address -> int {
    (v: Address) => SumSeq(assets, GrantTotal(w, v, data(v)))
  }

  lemma {:induction false} TotalsWithinSupply(
    w: World, assets: seq<Asset>, voters: set<Address>, data: Address -> Bytes, x: real)
    requires x >= 0.0 && forall v | v in voters :: Distinct(Listed(data(v)))
    requires forall a | a in assets :: Backed(w, a) && GrantsBounded(w, a, voters, Claimed(voters, data), x)
    ensures SumOver(voters, CertifiedTotal(w, assets, data)) as real <= Times(SumSeq(assets, SupplyOf(w)) as real, x)
    decreases |assets|
  {
    if assets == [] {
      NoAssets(w, voters, data);
    } else {
      var first, rest := assets[0], assets[1..];
      AssetWithinSupply(w, first, voters, data, x);
      TotalsWithinSupply(w, rest, voters, data, x);
      TotalsAdd(w, assets, voters, data);
      TimesAdds(w.supply(first) as real, SumSeq(rest, SupplyOf(w)) as real, x);
    }
  }

  lemma NoAssets(w: World, voters: set<Address>, data: Address -> Bytes)
    ensures SumOver(voters, CertifiedTotal(w, [], data)) == 0
  {
    SumOverScaled(voters, 0, CertifiedTotal(w, [], data));
    SumOverCongruent(voters, CertifiedTotal(w, [], data), Scaled(0, CertifiedTotal(w, [], data)));
  }

  lemma TotalsAdd(w: World, assets: seq<Asset>, voters: set<Address>, data: Address -> Bytes)
    requires assets != []
    ensures SumOver(voters, CertifiedTotal(w, assets, data)) ==
            SumOver(voters, Certified(w, assets[0], data)) + SumOver(voters, CertifiedTotal(w, assets[1..], data))
  {
    var f, g := Certified(w, assets[0], data), CertifiedTotal(w, assets[1..], data);
    SumOverCongruent(voters, CertifiedTotal(w, assets, data), Plus(f, g));
    SumOverPlus(voters, f, g);
  }

  /** Every voter was certified `power(v)` on data that lists no delegator twice and only delegators with non-empty
      lists. */
  ghost predicate SoundClaims(
    w: World, assets: seq<Asset>, voters: set<Address>, data: Address -> Bytes, power: Address -> int)
  {
    forall v | v in voters ::
      && Distinct(Listed(data(v)))
      && AllListsNonEmpty(w, assets, data(v))
      && TotalPower(w, assets, v, data(v)).Done?
      && TotalPower(w, assets, v, data(v)).value == power(v)
  }

  lemma ListedListNonEmpty(w: World, assets: seq<Asset>, data: Bytes, a: Asset, d: Address)
    requires AllListsNonEmpty(w, assets, data) && a in assets && d in Listed(data)
    ensures w.registry(a, d) != []
  {
    var i :| 0 <= i < |assets| && assets[i] == a;
    assert ListsNonEmpty(w, assets[i], Listed(data));
  }

  lemma SoundTotals(w: World, assets: seq<Asset>, voters: set<Address>, data: Address -> Bytes, power: Address -> int)
    requires SoundClaims(w, assets, voters, data, power)
    ensures SumOver(voters, power) == SumOver(voters, CertifiedTotal(w, assets, data))
  {
    forall v | v in voters ensures power(v) == CertifiedTotal(w, assets, data)(v) {
      TotalPowerMeaning(w, assets, v, data(v));
    }
    SumOverCongruent(voters, power, CertifiedTotal(w, assets, data));
  }

  /** Together, any number of voters are certified at most `x` times the total supply, however delegators split, for
      every bound `x` of 1 + 1/2 + 1/6 + 1/42 + ... */
  lemma AllVotersOverAllocation(
    w: World, assets: seq<Asset>, voters: set<Address>, data: Address -> Bytes, power: Address -> int, x: real)
    requires SoundClaims(w, assets, voters, data, power) && BoundsPartialSums(x) && forall a | a in assets ::
             Backed(w, a)
    ensures SumOver(voters, power) as real <= Times(SumSeq(assets, SupplyOf(w)) as real, x)
  {
    SoundTotals(w, assets, voters, data, power);
    forall a | a in assets ensures GrantsBounded(w, a, voters, Claimed(voters, data), x) {
      forall d | d in Claimed(voters, data)
        ensures SumOver(voters, SharesOf(w.power(a, d), w.registry(a, d))) as real <= Times(w.power(a, d) as real, x)
      {
        var v :| v in voters && d in Listed(data(v));
        ListedListNonEmpty(w, assets, data(v), a, d);
        SplitOverAllocation(voters, w.power(a, d), w.registry(a, d), x);
      }
    }
    assert x >= PartialSum(1.0, 0);
    TotalsWithinSupply(w, assets, voters, data, x);
  }

  /** No claimed delegator's list can be made to hand out more than the delegator has. */
  ghost predicate ConservingClaims(w: World, assets: seq<Asset>, voters: set<Address>, data: Address -> Bytes) {
    forall a, d | a in assets && d in Claimed(voters, data) :: Conserves(w.power(a, d), w.registry(a, d))
  }

  /** If the claimed delegators' lists conserve their power, all voters together are certified at most the total supply.
      */
  lemma AllVotersWithinSupply(
    w: World, assets: seq<Asset>, voters: set<Address>, data: Address -> Bytes, power: Address -> int)
    requires SoundClaims(w, assets, voters, data, power) && ConservingClaims(w, assets, voters, data)
    requires forall a | a in assets :: Backed(w, a)
    ensures SumOver(voters, power) <= SumSeq(assets, SupplyOf(w))
  {
    SoundTotals(w, assets, voters, data, power);
    forall a | a in assets ensures GrantsBounded(w, a, voters, Claimed(voters, data), 1.0) {
      forall d | d in Claimed(voters, data)
        ensures SumOver(voters, SharesOf(w.power(a, d), w.registry(a, d))) as real <= Times(w.power(a, d) as real, 1.0)
      {
        assert Conserves(w.power(a, d), w.registry(a, d));
      }
    }
    TotalsWithinSupply(w, assets, voters, data, 1.0);
  }
}
