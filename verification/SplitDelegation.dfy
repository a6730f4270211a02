/** The split-delegation strategy of the voting guest (strategies/src/delegation_strategies/split_delegation.rs).

    The voter submits the concatenated addresses of claimed delegators. Each of them is looked up in a
    registry, must list the voter, and contributes a divisor for its power. */
module SplitDelegation {
  import opened Primitives
  import opened Sums
  import opened ShareArithmetic
  import opened SylvesterBound

  /** One `DelegateRegistry.Delegation`. */
  datatype Entry = Entry(delegate: Bytes32, ratio: U256)

  datatype Delegation = Delegation(delegate: Address, ratio: nat)

  datatype Asset = Asset(contract: Address, delegationContract: Address)

  /** The contracts a guest can read at the committed block. */
  datatype World = World(
    registry: (Asset, Address) -> seq<Entry>,
    power: (Asset, Address) -> U256,
    supply: Asset -> U256)

  // ---------- Bytes to addresses ----------

  const ADDRESS_LEN: nat := 20

  /** `chunks_exact(20)` of data whose length was checked. */
  function Chunks(data: Bytes): (ds: seq<Address>)
    requires |data| % ADDRESS_LEN == 0
    ensures |ds| * ADDRESS_LEN == |data|
  {
    if data == [] then [] else [data[..ADDRESS_LEN]] + Chunks(data[ADDRESS_LEN..])
  }

  function Packed(ds: seq<Address>): (data: Bytes)
    ensures |data| == |ds| * ADDRESS_LEN
  {
    if ds == [] then [] else ds[0] + Packed(ds[1..])
  }

  /** Chunking undoes concatenation of addresses. */
  lemma {:induction false} ChunksOfPacked(ds: seq<Address>)
    ensures Chunks(Packed(ds)) == ds
  {
    if ds != [] {
      var data := Packed(ds);
      assert data[..ADDRESS_LEN] == ds[0] && data[ADDRESS_LEN..] == Packed(ds[1..]);
      ChunksOfPacked(ds[1..]);
    }
  }

  /** Chunk `i` is bytes 20 i to 20 i + 19. */
  lemma {:induction false} ChunkAt(data: Bytes, i: nat)
    requires |data| % ADDRESS_LEN == 0 && 20 * i + 20 <= |data|
    ensures i < |Chunks(data)| && Chunks(data)[i] == data[20 * i..20 * i + 20]
    decreases i
  {
    if i > 0 {
      ChunkAt(data[ADDRESS_LEN..], i - 1);
      assert data[ADDRESS_LEN..][20 * (i - 1)..20 * (i - 1) + 20] == data[20 * i..20 * i + 20];
    }
  }

  /** Concatenation undoes chunking. */
  lemma {:induction false} PackedOfChunks(data: Bytes)
    requires |data| % ADDRESS_LEN == 0
    ensures Packed(Chunks(data)) == data
  {
    if data != [] {
      PackedOfChunks(data[ADDRESS_LEN..]);
      assert data == data[..ADDRESS_LEN] + data[ADDRESS_LEN..];
      assert Chunks(data)[1..] == Chunks(data[ADDRESS_LEN..]);
    }
  }

  lemma {:induction false} ChunksAppend(d1: Bytes, d2: Bytes)
    requires |d1| % ADDRESS_LEN == 0 && |d2| % ADDRESS_LEN == 0
    ensures |d1 + d2| % ADDRESS_LEN == 0 && Chunks(d1 + d2) == Chunks(d1) + Chunks(d2)
  {
    if d1 == [] {
      assert d1 + d2 == d2;
    } else {
      assert (d1 + d2)[..ADDRESS_LEN] == d1[..ADDRESS_LEN];
      assert (d1 + d2)[ADDRESS_LEN..] == d1[ADDRESS_LEN..] + d2;
      ChunksAppend(d1[ADDRESS_LEN..], d2);
    }
  }

  // ---------- One registry list ----------

  /** `compare_bytes32_to_address`: the last twenty bytes decide. */
  predicate Names(delegate: Bytes32, account: Address) {
    delegate[12..] == account
  }

  function RatioSum(list: seq<Entry>): nat {
    if list == [] then 0 else list[0].ratio + RatioSum(list[1..])
  }

  /** The fold over the ratios, in U256 arithmetic. */
  function FoldRatios(list: seq<Entry>, acc: nat): Outcome<nat>
    requires acc <= U256_MAX
  {
    if list == [] then Done(acc) else
      var next :- Add256(acc, list[0].ratio);
      FoldRatios(list[1..], next)
  }

  lemma {:induction false} FoldRatiosIsSum(list: seq<Entry>, acc: nat)
    requires acc <= U256_MAX
    ensures FoldRatios(list, acc) == if acc + RatioSum(list) <= U256_MAX then Done(acc + RatioSum(list)) else Overflowed
  {
    if list != [] && acc + list[0].ratio <= U256_MAX {
      FoldRatiosIsSum(list[1..], acc + list[0].ratio);
    }
  }

  /** The first entry that names the account. */
  function Find(list: seq<Entry>, account: Address): Option<Entry> {
    if list == [] then None
    else if Names(list[0].delegate, account) then Some(list[0])
    else Find(list[1..], account)
  }

  /** The entry found is the first whose last twenty bytes are the account, and none is found only if there is none. */
  lemma {:induction false} FindMeaning(list: seq<Entry>, account: Address)
    ensures Find(list, account).None? <==> forall i | 0 <= i < |list| :: list[i].delegate[12..32] != account
    ensures Find(list, account).Some? ==>
              exists i :: 0 <= i < |list| && Find(list, account).value == list[i] && list[i].delegate[12..32] == account
                          && forall k | 0 <= k < i :: list[k].delegate[12..32] != account
  {
    if list != [] {
      var rest := list[1..];
      assert list[0].delegate[12..32] == list[0].delegate[12..];
      if Names(list[0].delegate, account) {
        assert Find(list, account).value == list[0];
      } else {
        FindMeaning(rest, account);
        assert forall i | 0 < i < |list| :: list[i] == rest[i - 1];
        if Find(rest, account).Some? {
          var i :| 0 <= i < |rest| && Find(rest, account).value == rest[i] && rest[i].delegate[12..32] == account
                   && forall k | 0 <= k < i :: rest[k].delegate[12..32] != account;
          assert Find(list, account).value == list[i + 1];
        }
      }
    }
  }

  /** The closure mapped over the claimed delegators. An empty list yields ratio one for anybody;
      dividing by a zero ratio panics. */
  function Inspect(list: seq<Entry>, delegator: Address, account: Address): Outcome<Option<Delegation>> {
    if list == [] then Done(Some(Delegation(delegator, 1)))
    else
      var total :- FoldRatios(list, 0);
      match Find(list, account)
      case None => Done(None)
      case Some(e) => if e.ratio == 0 then Aborted else Done(Some(Delegation(delegator, total / e.ratio)))
  }

  function InspectAll(w: World, asset: Asset, ds: seq<Address>, account: Address): (r: Outcome<seq<Option<Delegation>>>)
    ensures r.Done? ==> |r.value| == |ds|
  {
    if ds == [] then Done([]) else
      var first :- Inspect(w.registry(asset, ds[0]), ds[0], account);
      var rest :- InspectAll(w, asset, ds[1..], account);
      Done([first] + rest)
  }

  function Unwrapped(os: seq<Option<Delegation>>): (ds: seq<Delegation>)
    requires None !in os
    ensures |ds| == |os|
  {
    seq(|os|, i requires 0 <= i < |os| => assert os[i] in os; os[i].value)
  }

  /** `SplitDelegation::process`: all claimed delegators are valid, or there is no result. */
  function Process(w: World, asset: Asset, account: Address, data: Bytes): Outcome<seq<Delegation>> {
    if |data| % ADDRESS_LEN != 0 then Aborted
    else
      var os :- InspectAll(w, asset, Chunks(data), account);
      if None in os then Aborted else Done(Unwrapped(os))
  }

  // ---------- What a processed list means ----------

  /** Every delegator of the list has delegated to somebody. */
  ghost predicate ListsNonEmpty(w: World, asset: Asset, ds: seq<Address>) {
    forall i | 0 <= i < |ds| :: w.registry(asset, ds[i]) != []
  }

  function MatchedRatio(list: seq<Entry>, account: Address): nat {
    if Find(list, account).Some? then Find(list, account).value.ratio else 0
  }

  /** The registry supports the claim that the delegator's power goes to the account. */
  predicate Eligible(list: seq<Entry>, account: Address) {
    list == [] || (RatioSum(list) <= U256_MAX && MatchedRatio(list, account) > 0)
  }

  /** What the account receives of `power`. */
  function ShareOf(power: nat, list: seq<Entry>, account: Address): nat {
    if list == [] then power else Share(power, RatioSum(list), MatchedRatio(list, account))
  }

  lemma {:induction false} MatchedWithinSum(list: seq<Entry>, account: Address)
    ensures MatchedRatio(list, account) <= RatioSum(list)
  {
    if list != [] && !Names(list[0].delegate, account) {
      MatchedWithinSum(list[1..], account);
    }
  }

  lemma InspectMeaning(list: seq<Entry>, delegator: Address, account: Address, power: nat)
    ensures Inspect(list, delegator, account).Done? && Inspect(list, delegator, account).value.Some? <==>
            Eligible(list, account)
    ensures Eligible(list, account) ==>
              var d := Inspect(list, delegator, account).value.value;
              d.delegate == delegator && d.ratio > 0 && power / d.ratio == ShareOf(power, list, account)
  {
    FoldRatiosIsSum(list, 0);
    MatchedWithinSum(list, account);
    if list != [] && MatchedRatio(list, account) > 0 {
      QuotientAtLeast(RatioSum(list), MatchedRatio(list, account), 1);
    }
    assert power / 1 == power;
  }

  ghost predicate AllEligible(w: World, asset: Asset, ds: seq<Address>, account: Address) {
    forall i | 0 <= i < |ds| :: Eligible(w.registry(asset, ds[i]), account)
  }

  /** Delegation `d` pays the account what the registry list of its delegator grants. */
  predicate Pays(w: World, asset: Asset, delegator: Address, account: Address, d: Delegation) {
    d.delegate == delegator && d.ratio > 0
    && w.power(asset, delegator) / d.ratio == ShareOf(w.power(asset, delegator), w.registry(asset, delegator), account)
  }

  lemma {:induction false} InspectAllMeaning(w: World, asset: Asset, ds: seq<Address>, account: Address)
    ensures InspectAll(w, asset, ds, account).Done? && None !in InspectAll(w, asset, ds, account).value <==>
            AllEligible(w, asset, ds, account)
    ensures AllEligible(w, asset, ds, account) ==>
              forall i | 0 <= i < |ds| ::
                InspectAll(w, asset, ds, account).value[i].Some? &&
                  Pays(w, asset, ds[i], account, InspectAll(w, asset, ds, account).value[i].value)
  {
    if ds != [] {
      InspectMeaning(w.registry(asset, ds[0]), ds[0], account, w.power(asset, ds[0]));
      InspectAllMeaning(w, asset, ds[1..], account);
      assert AllEligible(w, asset, ds, account) <==>
             Eligible(w.registry(asset, ds[0]), account) && AllEligible(w, asset, ds[1..], account) by {
        assert forall i | 0 < i < |ds| :: ds[i] == ds[1..][i - 1];
      }
    }
  }

  /** The strategy succeeds exactly when the data is aligned and every claimed delegator is eligible; the result then
      lists the delegators in order, each with a positive divisor that yields its share. */
  lemma ProcessMeaning(w: World, asset: Asset, account: Address, data: Bytes)
    ensures Process(w, asset, account, data).Done? <==>
            |data| % ADDRESS_LEN == 0 && AllEligible(w, asset, Chunks(data), account)
    ensures Process(w, asset, account, data).Done? ==>
              && |Process(w, asset, account, data).value| == |Chunks(data)|
              && forall i | 0 <= i < |Chunks(data)| ::
                Pays(w, asset, Chunks(data)[i], account, Process(w, asset, account, data).value[i])
  {
    if |data| % ADDRESS_LEN == 0 {
      InspectAllMeaning(w, asset, Chunks(data), account);
    }
  }

  lemma {:induction false} InspectAllAppend(
    w: World, asset: Asset, xs: seq<Address>, ys: seq<Address>, account: Address)
    ensures var r, p, q := InspectAll(w, asset, xs + ys, account), InspectAll(w, asset, xs, account),
            InspectAll(w, asset, ys, account);
            (r.Done? <==> p.Done? && q.Done?) && (r.Done? ==> r.value == p.value + q.value)
  {
    if xs == [] {
      assert xs + ys == ys;
    } else {
      assert (xs + ys)[0] == xs[0] && (xs + ys)[1..] == xs[1..] + ys;
      InspectAllAppend(w, asset, xs[1..], ys, account);
    }
  }

  /** For aligned pieces of data, processing them together succeeds exactly when each piece does, and yields the
      delegations of the first followed by those of the second. */
  lemma ProcessAppends(w: World, asset: Asset, account: Address, d1: Bytes, d2: Bytes)
    requires |d1| % ADDRESS_LEN == 0 && |d2| % ADDRESS_LEN == 0
    ensures var r, p, q := Process(w, asset, account, d1 + d2), Process(w, asset, account, d1),
            Process(w, asset, account, d2);
            (r.Done? <==> p.Done? && q.Done?) && (r.Done? ==> r.value == p.value + q.value)
  {
    ChunksAppend(d1, d2);
    InspectAllAppend(w, asset, Chunks(d1), Chunks(d2), account);
    var p, q := InspectAll(w, asset, Chunks(d1), account), InspectAll(w, asset, Chunks(d2), account);
    if p.Done? && q.Done? && None !in p.value + q.value {
      assert Unwrapped(p.value + q.value) == Unwrapped(p.value) + Unwrapped(q.value);
    }
  }

  // ---------- Over-allocation of one delegator's power ----------

  ghost function MatchedRatios(list: seq<Entry>): Address -> int {
    (a: Address) => MatchedRatio(list, a)
  }

  ghost function SharesOf(power: nat, list: seq<Entry>): Address -> int {
    (a: Address) => ShareOf(power, list, a)
  }

  /** Different accounts match different entries, so together they match at most the whole list. */
  lemma {:induction false} MatchedRatiosFit(accounts: set<Address>, list: seq<Entry>)
    ensures SumOver(accounts, MatchedRatios(list)) <= RatioSum(list)
  {
    if list == [] {
      SumOverScaled(accounts, 0, MatchedRatios(list));
      SumOverCongruent(accounts, MatchedRatios(list), Scaled(0, MatchedRatios(list)));
    } else {
      var named: Address := list[0].delegate[12..];
      var others := accounts - {named};
      MatchedRatiosFit(others, list[1..]);
      SumOverCongruent(others, MatchedRatios(list), MatchedRatios(list[1..]));
      if named in accounts {
        SumOverRemove(accounts, MatchedRatios(list), named);
      } else {
        assert others == accounts;
      }
    }
  }

  lemma SharesAreShares(accounts: set<Address>, power: nat, list: seq<Entry>)
    requires list != []
    ensures SumOver(accounts, SharesOf(power, list)) ==
            SumOver(accounts, Shares(power, RatioSum(list), MatchedRatios(list)))
    ensures Fits(accounts, MatchedRatios(list), RatioSum(list))
  {
    SumOverCongruent(accounts, SharesOf(power, list), Shares(power, RatioSum(list), MatchedRatios(list)));
    MatchedRatiosFit(accounts, list);
  }

  /** A delegator with a non-empty list, however it splits, hands any accounts at most as many terms of power + power/2
      + power/6 + power/42 + ... as there are accounts, and so at most `x` times its power for every bound `x` of 1 +
      1/2 + 1/6 + 1/42 + ... */
  lemma SplitOverAllocation(accounts: set<Address>, power: nat, list: seq<Entry>, x: real)
    requires list != [] && BoundsPartialSums(x)
    ensures SumOver(accounts, SharesOf(power, list)) as real <= PartialSum(power as real, |accounts|)
    ensures SumOver(accounts, SharesOf(power, list)) as real <= Times(power as real, x)
    ensures power > 0 ==> SumOver(accounts, SharesOf(power, list)) as real < Times(power as real, x)
  {
    SharesAreShares(accounts, power, list);
    OverAllocationBound(accounts, power, RatioSum(list), MatchedRatios(list));
    WithinLimit(accounts, power, RatioSum(list), MatchedRatios(list), x);
  }

  /** Which accounts are safe together: they are never handed more than the delegator's power, whatever that power is,
      if and only if the reciprocals of the divisors the list gives them add up to at most one. */
  lemma SplitNeverOverAllocatesIff(accounts: set<Address>, list: seq<Entry>)
    requires list != []
    ensures (forall power: nat :: SumOver(accounts, SharesOf(power, list)) <= power) <==>
            SumOverReal(accounts, Reciprocals(RatioSum(list), MatchedRatios(list))) <= 1.0
  {
    forall power: nat
      ensures SumOver(accounts, SharesOf(power, list)) ==
              SumOver(accounts, Shares(power, RatioSum(list), MatchedRatios(list)))
    {
      SharesAreShares(accounts, power, list);
    }
    NeverOverAllocatesIff(accounts, RatioSum(list), MatchedRatios(list));
  }

  /** The accounts that the entries name. */
  ghost function Named(list: seq<Entry>): set<Address> {
    set i | 0 <= i < |list| :: list[i].delegate[12..]
  }

  lemma UnnamedUnmatched(list: seq<Entry>, a: Address)
    ensures a in Named(list) || MatchedRatio(list, a) == 0
  {
    if Find(list, a).Some? {
      var i := FindFindsEntry(list, a);
      assert list[i].delegate[12..] == a;
    }
  }

  /** No accounts together are handed more than the named ones. */
  lemma NamedReceiveMost(accounts: set<Address>, power: nat, list: seq<Entry>)
    requires list != []
    ensures SumOver(accounts, SharesOf(power, list)) <= SumOver(Named(list), SharesOf(power, list))
  {
    var all, f := accounts + Named(list), SharesOf(power, list);
    forall a | a in all ensures f(a) >= 0 && (a !in Named(list) ==> f(a) == 0) {
      assert ShareOf(power, list, a) >= 0;
      UnnamedUnmatched(list, a);
    }
    SumOverSubset(accounts, all, f);
    SumOverSupport(all, Named(list), f);
  }

  /** No accounts together are handed more than this power. */
  ghost predicate Conserves(power: nat, list: seq<Entry>) {
    forall accounts: set<Address> :: SumOver(accounts, SharesOf(power, list)) <= power
  }

  /** It is enough to look at the named accounts. */
  lemma ConservesIffNamed(power: nat, list: seq<Entry>)
    requires list != []
    ensures Conserves(power, list) <==> SumOver(Named(list), SharesOf(power, list)) <= power
  {
    if SumOver(Named(list), SharesOf(power, list)) <= power {
      forall accounts: set<Address> ensures SumOver(accounts, SharesOf(power, list)) <= power {
        NamedReceiveMost(accounts, power, list);
      }
    }
  }

  /** Nobody can be handed more than the delegator has, however much that is. */
  ghost predicate NeverOverAllocates(list: seq<Entry>) {
    forall power: nat :: Conserves(power, list)
  }

  /** Which lists are safe for all accounts and all powers, duplicate entries included. */
  lemma ListNeverOverAllocatesIff(list: seq<Entry>)
    requires list != []
    ensures NeverOverAllocates(list) <==>
            SumOverReal(Named(list), Reciprocals(RatioSum(list), MatchedRatios(list))) <= 1.0
  {
    SplitNeverOverAllocatesIff(Named(list), list);
    forall power: nat ensures Conserves(power, list) <==> SumOver(Named(list), SharesOf(power, list)) <= power {
      ConservesIffNamed(power, list);
    }
  }

  /** Every ratio that some account can match divides the total. */
  ghost predicate Dividing(list: seq<Entry>) {
    forall i | 0 <= i < |list| :: list[i].ratio > 0 ==> RatioSum(list) % list[i].ratio == 0
  }

  lemma {:induction false} FindFindsEntry(list: seq<Entry>, account: Address) returns (i: nat)
    requires Find(list, account).Some?
    ensures i < |list| && list[i] == Find(list, account).value && Names(list[i].delegate, account)
  {
    if Names(list[0].delegate, account) {
      i := 0;
    } else {
      var j := FindFindsEntry(list[1..], account);
      i := j + 1;
    }
  }

  /** The accounts the list grants something. */
  ghost function Grantees(accounts: set<Address>, list: seq<Entry>): set<Address> {
    set a: Address | a in accounts && MatchedRatio(list, a) > 0
  }

  lemma GranteesDivide(accounts: set<Address>, list: seq<Entry>)
    requires Dividing(list)
    ensures AllDivide(Grantees(accounts, list), MatchedRatios(list), RatioSum(list))
  {
    forall a | a in Grantees(accounts, list)
      ensures 0 < MatchedRatios(list)(a) <= RatioSum(list) && RatioSum(list) % MatchedRatios(list)(a) == 0
    {
      MatchedWithinSum(list, a);
      var i := FindFindsEntry(list, a);
    }
  }

  /** When every ratio divides the total, a delegator's power is conserved: no set of accounts receives more than it,
      and accounts that together match the whole total leave less than one unit each. */
  lemma DividingSplitConserves(accounts: set<Address>, power: nat, list: seq<Entry>)
    requires list != [] && Dividing(list)
    ensures SumOver(accounts, SharesOf(power, list)) <= power
    ensures SumOver(accounts, MatchedRatios(list)) == RatioSum(list) > 0 ==>
              SumOver(accounts, SharesOf(power, list)) > power - |Grantees(accounts, list)|
  {
    var t, grantees := RatioSum(list), Grantees(accounts, list);
    SumOverSupport(accounts, grantees, SharesOf(power, list));
    SumOverSupport(accounts, grantees, MatchedRatios(list));
    SharesAreShares(grantees, power, list);
    if t == 0 {
      NothingToShare(grantees, power, MatchedRatios(list));
    } else {
      GranteesDivide(accounts, list);
      DividingRatiosConserve(grantees, power, t, MatchedRatios(list));
    }
  }

  lemma DividingListConserves(power: nat, list: seq<Entry>)
    requires list != [] && Dividing(list)
    ensures Conserves(power, list)
  {
    forall accounts: set<Address> ensures SumOver(accounts, SharesOf(power, list)) <= power {
      DividingSplitConserves(accounts, power, list);
    }
  }

  /** No two entries name the same account. */
  ghost predicate DistinctNames(list: seq<Entry>) {
    forall i, j | 0 <= i < j < |list| :: list[i].delegate[12..] != list[j].delegate[12..]
  }

  lemma {:induction false} DistinctNamesMatch(list: seq<Entry>, i: nat)
    requires DistinctNames(list) && i < |list|
    ensures MatchedRatio(list, list[i].delegate[12..]) == list[i].ratio
  {
    if i > 0 {
      assert list[0].delegate[12..] != list[i].delegate[12..];
      DistinctNamesMatch(list[1..], i - 1);
    }
  }

  lemma {:induction false} NamedMatchEverything(list: seq<Entry>)
    requires DistinctNames(list)
    ensures SumOver(Named(list), MatchedRatios(list)) == RatioSum(list)
  {
    if list != [] {
      var first: Address, rest := list[0].delegate[12..], list[1..];
      NamedMatchEverything(rest);
      assert Named(list) - {first} == Named(rest) by {
        forall a | a in Named(list) && a != first ensures a in Named(rest) {
          var i :| 0 <= i < |list| && list[i].delegate[12..] == a;
          assert rest[i - 1].delegate[12..] == a;
        }
        forall a | a in Named(rest) ensures a in Named(list) && a != first {
          var i :| 0 <= i < |rest| && rest[i].delegate[12..] == a;
          assert list[i + 1].delegate[12..] == a;
        }
      }
      assert first in Named(list);
      SumOverRemove(Named(list), MatchedRatios(list), first);
      SumOverCongruent(Named(rest), MatchedRatios(list), MatchedRatios(rest));
    }
  }

  lemma GranteesMatchEverything(list: seq<Entry>)
    requires DistinctNames(list)
    ensures SumOver(Grantees(Named(list), list), MatchedRatios(list)) == RatioSum(list)
  {
    NamedMatchEverything(list);
    SumOverSupport(Named(list), Grantees(Named(list), list), MatchedRatios(list));
  }

  lemma RemainderOverAllocates(list: seq<Entry>, i: nat)
    requires DistinctNames(list) && i < |list| && list[i].ratio > 0 && RatioSum(list) % list[i].ratio != 0
    ensures !NeverOverAllocates(list)
  {
    var t, grantees, a: Address := RatioSum(list), Grantees(Named(list), list), list[i].delegate[12..];
    DistinctNamesMatch(list, i);
    GranteesMatchEverything(list);
    assert a in grantees;
    MatchedWithinSum(list, a);
    FullSplitConservesIffDividing(grantees, t, MatchedRatios(list));
    assert !AllDivide(grantees, MatchedRatios(list), t) by { assert t % MatchedRatios(list)(a) != 0; }
    var power: nat :| SumOver(grantees, Shares(power, t, MatchedRatios(list))) > power;
    SharesAreShares(grantees, power, list);
    assert !Conserves(power, list) by { assert SumOver(grantees, SharesOf(power, list)) > power; }
  }

  /** A delegator that names no account twice can never be made to hand out more than it has if and only if every ratio
      on its list divides the total of the list. */
  lemma DistinctListConservesIffDividing(list: seq<Entry>)
    requires list != [] && DistinctNames(list)
    ensures NeverOverAllocates(list) <==> Dividing(list)
  {
    if Dividing(list) {
      forall power: nat ensures Conserves(power, list) {
        DividingListConserves(power, list);
      }
    } else {
      var i :| 0 <= i < |list| && list[i].ratio > 0 && RatioSum(list) % list[i].ratio != 0;
      RemainderOverAllocates(list, i);
    }
  }

  /** An empty list grants the whole power to every account: `n` accounts receive `n` times the power. */
  lemma {:induction false} EmptyListGrantsEverybody(accounts: set<Address>, power: nat)
    ensures SumOver(accounts, SharesOf(power, [])) == |accounts| * power
    decreases |accounts|
  {
    if accounts != {} {
      var a :| a in accounts;
      SumOverRemove(accounts, SharesOf(power, []), a);
      EmptyListGrantsEverybody(accounts - {a}, power);
      assert |accounts| == |accounts - {a}| + 1;
      assert |accounts| * power == |accounts - {a}| * power + power;
    }
  }

  /** A list of four entries on which a power of 42 pays out 71 = 42 + 21 + 7 + 1, the most that four accounts can
      receive. */
  lemma TightSplit(a: Address, b: Address, c: Address, d: Address, pad: Bytes)
    requires |pad| == 12 && a != b && a != c && a != d && b != c && b != d && c != d
    ensures var list := [Entry(pad + a, 3613), Entry(pad + b, 2409), Entry(pad + c, 1033), Entry(pad + d, 169)];
            SumOver({a, b, c, d}, SharesOf(42, list)) == 71 && 71.0 == PartialSum(42.0, 4)
  {
    var e0, e1, e2, e3 := Entry(pad + a, 3613), Entry(pad + b, 2409), Entry(pad + c, 1033), Entry(pad + d, 169);
    var list := [e0, e1, e2, e3];
    FindBehind(e0, [e1, e2, e3]);
    FindBehind(e1, [e2, e3]);
    FindBehind(e2, [e3]);
    FindBehind(e3, []);
    assert list == [e0] + [e1, e2, e3] && [e1, e2, e3] == [e1] + [e2, e3] && [e2, e3] == [e2] + [e3] &&
           [e3] == [e3] + [];
    assert (pad + a)[12..] == a && (pad + b)[12..] == b && (pad + c)[12..] == c && (pad + d)[12..] == d;
    assert RatioSum(list) == 7224;
    assert MatchedRatio(list, a) == 3613 && MatchedRatio(list, b) == 2409 && MatchedRatio(list, c) == 1033 &&
           MatchedRatio(list, d) == 169;
    assert ShareOf(42, list, a) == 42 && ShareOf(42, list, b) == 21 && ShareOf(42, list, c) == 7 &&
           ShareOf(42, list, d) == 1;
    SumOfFour(a, b, c, d, SharesOf(42, list));
    FourTerms(42.0);
  }

  /** The entry that names an address. */
  function EntryFor(a: Address, ratio: U256): Entry {
    Entry(Zeros(12) + a, ratio)
  }

  lemma EntryNames(a: Address, ratio: U256)
    ensures EntryFor(a, ratio).delegate[12..] == a
  {
  }

  lemma FindBehind(e: Entry, list: seq<Entry>)
    ensures RatioSum([e] + list) == e.ratio + RatioSum(list)
    ensures forall account: Address ::
            Find([e] + list, account) == if e.delegate[12..] == account then Some(e) else Find(list, account)
  {
    assert ([e] + list)[1..] == list;
  }

  lemma SumOfFour(a: Address, b: Address, c: Address, d: Address, f: Address -> int)
    requires a != b && a != c && a != d && b != c && b != d && c != d
    ensures SumOver({a, b, c, d}, f) == f(a) + f(b) + f(c) + f(d)
  {
    SumOverRemove({a, b, c, d}, f, a);
    assert {a, b, c, d} - {a} == {b, c, d};
    SumOverRemove({b, c, d}, f, b);
    assert {b, c, d} - {b} == {c, d};
    SumOverRemove({c, d}, f, c);
    assert {c, d} - {c} == {d};
    SumOverRemove({d}, f, d);
    assert {d} - {d} == {};
  }
}
