/** The voting guest (methods/guest/src/bin/voting_protocol.rs): the power it certifies for a voter, as a fold over
    assets and claimed delegators, and what that power is bounded by. */
module VotingGuest {
  import opened Primitives
  import opened Sums
  import opened SplitDelegation

  // ---------- The computation ----------

  /** The fold over one asset's delegations. */
  function FoldPower(w: World, asset: Asset, ds: seq<Delegation>, acc: nat): Outcome<nat> {
    if ds == [] then Done(acc)
    else if ds[0].ratio == 0 then Aborted
    else
      var next :- Add256(w.power(asset, ds[0].delegate) / ds[0].ratio, acc);
      FoldPower(w, asset, ds[1..], next)
  }

  function AssetPower(w: World, asset: Asset, voter: Address, data: Bytes): Outcome<nat> {
    var ds :- Process(w, asset, voter, data);
    FoldPower(w, asset, ds, 0)
  }

  /** The sum over the assets, each computed when it is its turn. */
  function SumPower(w: World, assets: seq<Asset>, voter: Address, data: Bytes, acc: nat): Outcome<nat> {
    if assets == [] then Done(acc) else
      var p :- AssetPower(w, assets[0], voter, data);
      var next :- Add256(acc, p);
      SumPower(w, assets[1..], voter, data, next)
  }

  function TotalPower(w: World, assets: seq<Asset>, voter: Address, data: Bytes): Outcome<nat> {
    SumPower(w, assets, voter, data, 0)
  }

  /** The assertions that stand between the guest and a committed journal. */
  predicate Certifies(w: World, assets: seq<Asset>, voter: Address, direction: byte, balance: U256, data: Bytes) {
    && TotalPower(w, assets, voter, data) == Done(balance)
    && (direction == 1 || direction == 2 || direction == 3)
    && balance > 0
  }

  // ---------- Its meaning: plain sums of shares ----------

  /** What each delegator's registry list grants the voter, for one asset. */
  ghost function Grants(w: World, asset: Asset, voter: Address): Address -> int {
    (d: Address) => ShareOf(w.power(asset, d), w.registry(asset, d), voter)
  }

  function Listed(data: Bytes): seq<Address> {
    if |data| % ADDRESS_LEN == 0 then Chunks(data) else []
  }

  ghost predicate AllListsNonEmpty(w: World, assets: seq<Asset>, data: Bytes) {
    forall i | 0 <= i < |assets| :: ListsNonEmpty(w, assets[i], Listed(data))
  }

  ghost function GrantTotal(w: World, voter: Address, data: Bytes): Asset -> int {
    asset => SumSeq(Listed(data), Grants(w, asset, voter))
  }

  ghost predicate Valid(w: World, asset: Asset, voter: Address, data: Bytes) {
    |data| % ADDRESS_LEN == 0 && AllEligible(w, asset, Chunks(data), voter)
  }

  lemma {:induction false} FoldPowerMeaning(
    w: World, asset: Asset, addresses: seq<Address>, voter: Address, ds: seq<Delegation>, acc: nat)
    requires |ds| == |addresses| && acc <= U256_MAX
    requires forall i | 0 <= i < |addresses| :: Pays(w, asset, addresses[i], voter, ds[i])
    ensures var total := acc + SumSeq(addresses, Grants(w, asset, voter));
            FoldPower(w, asset, ds, acc) == (if total <= U256_MAX then Done(total) else Overflowed) && total >= acc
    decreases |ds|
  {
    if ds != [] {
      assert Pays(w, asset, addresses[0], voter, ds[0]);
      var share := w.power(asset, ds[0].delegate) / ds[0].ratio;
      if share + acc <= U256_MAX {
        FoldPowerMeaning(w, asset, addresses[1..], voter, ds[1..], share + acc);
      } else {
        GrantsNonNegative(w, asset, voter, addresses[1..]);
      }
    }
  }

  lemma {:induction false} GrantsNonNegative(w: World, asset: Asset, voter: Address, addresses: seq<Address>)
    ensures 0 <= SumSeq(addresses, Grants(w, asset, voter))
  {
    if addresses != [] {
      assert ShareOf(w.power(asset, addresses[0]), w.registry(asset, addresses[0]), voter) >= 0;
      GrantsNonNegative(w, asset, voter, addresses[1..]);
    }
  }

  /** For one asset the guest computes a value exactly when every claimed delegator is eligible and the exact sum of the
      shares fits a word; the value is that sum. */
  lemma AssetPowerMeaning(w: World, asset: Asset, voter: Address, data: Bytes)
    ensures AssetPower(w, asset, voter, data).Done? <==>
            Valid(w, asset, voter, data) && GrantTotal(w, voter, data)(asset) <= U256_MAX
    ensures AssetPower(w, asset, voter, data).Done? ==>
            AssetPower(w, asset, voter, data).value == GrantTotal(w, voter, data)(asset)
    ensures 0 <= GrantTotal(w, voter, data)(asset)
  {
    ProcessMeaning(w, asset, voter, data);
    GrantsNonNegative(w, asset, voter, Listed(data));
    var processed := Process(w, asset, voter, data);
    if processed.Done? {
      FoldPowerMeaning(w, asset, Chunks(data), voter, processed.value, 0);
    }
  }

  lemma {:induction false} SumPowerMeaning(w: World, assets: seq<Asset>, voter: Address, data: Bytes, acc: nat)
    requires acc <= U256_MAX
    ensures var total := acc + SumSeq(assets, GrantTotal(w, voter, data));
            && (SumPower(w, assets, voter, data, acc).Done? <==>
              (forall a | a in assets :: Valid(w, a, voter, data)) && total <= U256_MAX)
            && (SumPower(w, assets, voter, data, acc).Done? ==> SumPower(w, assets, voter, data, acc).value == total)
            && acc <= total
    decreases |assets|
  {
    if assets != [] {
      AssetPowerMeaning(w, assets[0], voter, data);
      var first := GrantTotal(w, voter, data)(assets[0]);
      if acc + first <= U256_MAX {
        SumPowerMeaning(w, assets[1..], voter, data, acc + first);
      } else {
        SumPowerMeaning(w, assets[1..], voter, data, 0);
      }
      assert assets == [assets[0]] + assets[1..];
    }
  }

  /** The guest's total is defined exactly when all claims are valid for all assets and the exact double sum of shares
      fits a word; it is that double sum. */
  lemma TotalPowerMeaning(w: World, assets: seq<Asset>, voter: Address, data: Bytes)
    ensures TotalPower(w, assets, voter, data).Done? <==>
            (forall a | a in assets :: Valid(w, a, voter, data)) &&
              SumSeq(assets, GrantTotal(w, voter, data)) <= U256_MAX
    ensures TotalPower(w, assets, voter, data).Done? ==>
              TotalPower(w, assets, voter, data).value == SumSeq(assets, GrantTotal(w, voter, data))
  {
    SumPowerMeaning(w, assets, voter, data, 0);
  }

  /** When the guest commits a journal: all claims are valid for all assets, the exact double sum of the shares is the
      balance in the journal, the balance is positive and fits a word, and the direction is abstain, yes or no. */
  lemma CommitsIff(w: World, assets: seq<Asset>, voter: Address, direction: byte, balance: U256, data: Bytes)
    ensures Certifies(w, assets, voter, direction, balance, data) <==>
            && (forall a | a in assets :: Valid(w, a, voter, data))
            && SumSeq(assets, GrantTotal(w, voter, data)) == balance
            && 1 <= direction <= 3
            && 0 < balance
  {
    TotalPowerMeaning(w, assets, voter, data);
  }

  /** A voter whose claims add up to nothing gets no journal. */
  lemma NothingToCommit(w: World, assets: seq<Asset>, voter: Address, direction: byte, balance: U256)
    ensures !Certifies(w, assets, voter, direction, balance, [])
  {
    CommitsIff(w, assets, voter, direction, balance, []);
    NothingListed(w, assets, voter);
  }

  lemma {:induction false} NothingListed(w: World, assets: seq<Asset>, voter: Address)
    ensures SumSeq(assets, GrantTotal(w, voter, [])) == 0
  {
    if assets != [] {
      NothingListed(w, assets[1..], voter);
    }
  }

  // ---------- Delegation data is a homomorphism ----------

  lemma AllEligibleAppend(w: World, asset: Asset, xs: seq<Address>, ys: seq<Address>, voter: Address)
    ensures AllEligible(w, asset, xs + ys, voter) <==>
            AllEligible(w, asset, xs, voter) && AllEligible(w, asset, ys, voter)
  {
    var all := xs + ys;
    if AllEligible(w, asset, all, voter) {
      forall i | 0 <= i < |xs| ensures Eligible(w.registry(asset, xs[i]), voter) { assert all[i] == xs[i]; }
      forall i | 0 <= i < |ys| ensures Eligible(w.registry(asset, ys[i]), voter) { assert all[|xs| + i] == ys[i]; }
    }
  }

  /** Processing two aligned pieces of data at once is processing each and adding up. */
  lemma DelegationDataAppends(w: World, asset: Asset, voter: Address, d1: Bytes, d2: Bytes)
    requires |d1| % ADDRESS_LEN == 0 && |d2| % ADDRESS_LEN == 0
    ensures GrantTotal(w, voter, d1 + d2)(asset) == GrantTotal(w, voter, d1)(asset) + GrantTotal(w, voter, d2)(asset)
    ensures AssetPower(w, asset, voter, d1 + d2).Done? <==>
            && AssetPower(w, asset, voter, d1).Done? && AssetPower(w, asset, voter, d2).Done?
            && AssetPower(w, asset, voter, d1).value + AssetPower(w, asset, voter, d2).value <= U256_MAX
    ensures AssetPower(w, asset, voter, d1 + d2).Done? ==>
              AssetPower(w, asset, voter, d1 + d2).value ==
                AssetPower(w, asset, voter, d1).value + AssetPower(w, asset, voter, d2).value
  {
    ChunksAppend(d1, d2);
    AllEligibleAppend(w, asset, Chunks(d1), Chunks(d2), voter);
    SumSeqAppend(Chunks(d1), Chunks(d2), Grants(w, asset, voter));
    AssetPowerMeaning(w, asset, voter, d1);
    AssetPowerMeaning(w, asset, voter, d2);
    AssetPowerMeaning(w, asset, voter, d1 + d2);
  }

  /** The order in which a voter lists the delegators does not change the certified total. */
  lemma DelegatorOrderIrrelevant(w: World, assets: seq<Asset>, voter: Address, xs: seq<Address>, ys: seq<Address>)
    requires multiset(xs) == multiset(ys)
    ensures TotalPower(w, assets, voter, Packed(xs)).Done? <==> TotalPower(w, assets, voter, Packed(ys)).Done?
    ensures TotalPower(w, assets, voter, Packed(xs)).Done? ==>
            TotalPower(w, assets, voter, Packed(xs)) == TotalPower(w, assets, voter, Packed(ys))
  {
    var p, q := Packed(xs), Packed(ys);
    SameAssetsSameTotal(w, assets, voter, xs, ys);
    TotalPowerMeaning(w, assets, voter, p);
    TotalPowerMeaning(w, assets, voter, q);
  }

  lemma {:induction false} SameAssetsSameTotal(
    w: World, assets: seq<Asset>, voter: Address, xs: seq<Address>, ys: seq<Address>)
    requires multiset(xs) == multiset(ys)
    ensures SumSeq(assets, GrantTotal(w, voter, Packed(xs))) == SumSeq(assets, GrantTotal(w, voter, Packed(ys)))
    ensures (forall a | a in assets :: Valid(w, a, voter, Packed(xs))) <==>
            (forall a | a in assets :: Valid(w, a, voter, Packed(ys)))
  {
    if assets != [] {
      AssetOrderIrrelevant(w, assets[0], voter, xs, ys);
      SameAssetsSameTotal(w, assets[1..], voter, xs, ys);
      assert assets == [assets[0]] + assets[1..];
    }
  }

  lemma AssetOrderIrrelevant(w: World, asset: Asset, voter: Address, xs: seq<Address>, ys: seq<Address>)
    requires multiset(xs) == multiset(ys)
    ensures GrantTotal(w, voter, Packed(xs))(asset) == GrantTotal(w, voter, Packed(ys))(asset)
    ensures Valid(w, asset, voter, Packed(xs)) <==> Valid(w, asset, voter, Packed(ys))
  {
    ChunksOfPacked(xs);
    ChunksOfPacked(ys);
    SumSeqPermutation(xs, ys, Grants(w, asset, voter));
    if AllEligible(w, asset, xs, voter) { EligiblePermutation(w, asset, xs, ys, voter); }
    if AllEligible(w, asset, ys, voter) { EligiblePermutation(w, asset, ys, xs, voter); }
  }

  lemma EligiblePermutation(w: World, asset: Asset, xs: seq<Address>, ys: seq<Address>, voter: Address)
    requires multiset(xs) == multiset(ys) && AllEligible(w, asset, xs, voter)
    ensures AllEligible(w, asset, ys, voter)
  {
    forall i | 0 <= i < |ys| ensures Eligible(w.registry(asset, ys[i]), voter) {
      assert ys[i] in multiset(ys);
      assert ys[i] in multiset(xs);
      var j :| 0 <= j < |xs| && xs[j] == ys[i];
    }
  }
}
