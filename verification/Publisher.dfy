/** The host's replica of the guest computation (apps/src/bin/publisher.rs and
    apps/src/delegation_strategies/split_delegation.rs): nested loops that push and accumulate. The host runs them
    before it asks for a proof, so what it computes has to be what the guest will compute. */
module Publisher {
  import opened Primitives
  import opened SplitDelegation
  import opened VotingGuest

  /** `process_delegate`: the first entry is read for a log line before the list is known to be non-empty, so an empty
      list panics here although the guest accepts it. */
  function ProcessDelegate(list: seq<Entry>, delegator: Address, account: Address): Outcome<Option<Delegation>> {
    if list == [] then Aborted
    else
      var total :- FoldRatios(list, 0);
      match Find(list, account)
      case None => Done(None)
      case Some(e) => if e.ratio == 0 then Aborted else Done(Some(Delegation(delegator, total / e.ratio)))
  }

  function Prepended<T>(acc: seq<T>, r: Outcome<seq<T>>): Outcome<seq<T>> {
    if r.Done? then Done(acc + r.value) else r
  }

  lemma PrependedStep<T>(acc: seq<T>, first: T, r: Outcome<seq<T>>)
    ensures Prepended(acc, Prepended([first], r)) == Prepended(acc + [first], r)
    ensures Prepended([], r) == r
  {
    if r.Done? {
      assert acc + ([first] + r.value) == acc + [first] + r.value && [] + r.value == r.value;
    }
  }

  /** The host's `process`. A result of the host is the guest's result; with non-empty lists the two agree on failures
      too. */
  method ProcessOnHost(w: World, asset: Asset, account: Address, data: Bytes) returns (r: Outcome<seq<Delegation>>)
    ensures r.Done? ==> r == Process(w, asset, account, data)
    ensures |data| % ADDRESS_LEN == 0 && ListsNonEmpty(w, asset, Chunks(data)) ==> r == Process(w, asset, account, data)
    ensures r.Done? ==> ListsNonEmpty(w, asset, Chunks(data))
  {
    if |data| % ADDRESS_LEN != 0 { return Aborted; }
    var delegators := Chunks(data);
    var accountDelegates: seq<Option<Delegation>> := [];
    var i := 0;
    assert delegators[0..] == delegators;
    PrependedStep([], None, InspectAll(w, asset, delegators, account));
    while i < |delegators|
      invariant 0 <= i <= |delegators|
      invariant ListsNonEmpty(w, asset, delegators[..i])
      invariant InspectAll(w, asset, delegators, account) ==
                Prepended(accountDelegates, InspectAll(w, asset, delegators[i..], account))
    {
      var result := ProcessDelegate(w.registry(asset, delegators[i]), delegators[i], account);
      ghost var rest := delegators[i..];
      assert rest[0] == delegators[i] && rest[1..] == delegators[i + 1..];
      if !result.Done? {
        return result.PropagateFailure();
      }
      PrependedStep(accountDelegates, result.value, InspectAll(w, asset, rest[1..], account));
      accountDelegates := accountDelegates + [result.value];
      assert forall k | 0 <= k < i :: delegators[..i + 1][k] == delegators[..i][k];
      i := i + 1;
    }
    assert delegators[..i] == delegators && delegators[i..] == [];
    assert accountDelegates + [] == accountDelegates;
    if None in accountDelegates { return Aborted; }
    return Done(Unwrapped(accountDelegates));
  }

  /** The inner loop: one asset's power from its delegations. */
  method AccumulateAsset(w: World, asset: Asset, delegations: seq<Delegation>) returns (r: Outcome<nat>)
    ensures r == FoldPower(w, asset, delegations, 0)
  {
    var assetVotingPower: nat := 0;
    var j := 0;
    assert delegations[0..] == delegations;
    while j < |delegations|
      invariant 0 <= j <= |delegations|
      invariant FoldPower(w, asset, delegations, 0) == FoldPower(w, asset, delegations[j..], assetVotingPower)
    {
      ghost var rest := delegations[j..];
      assert rest[0] == delegations[j] && rest[1..] == delegations[j + 1..];
      if delegations[j].ratio == 0 { return Aborted; }
      var next := Add256(assetVotingPower, w.power(asset, delegations[j].delegate) / delegations[j].ratio);
      if !next.Done? { return Overflowed; }
      assetVotingPower := next.value;
      j := j + 1;
    }
    return Done(assetVotingPower);
  }

  /** The publisher's total. Whenever the host finishes, the guest finishes with the same total; the host finishes
      exactly when the guest does and every listed delegator has a non-empty registry list for every asset. */
  method TotalVotingPower(w: World, assets: seq<Asset>, voter: Address, data: Bytes) returns (r: Outcome<nat>)
    ensures r.Done? ==> TotalPower(w, assets, voter, data) == r
    ensures AllListsNonEmpty(w, assets, data) ==> r == TotalPower(w, assets, voter, data)
    ensures r.Done? <==> TotalPower(w, assets, voter, data).Done? && AllListsNonEmpty(w, assets, data)
  {
    var total: nat := 0;
    var i := 0;
    assert assets[0..] == assets;
    while i < |assets|
      invariant 0 <= i <= |assets|
      invariant AllListsNonEmpty(w, assets[..i], data)
      invariant TotalPower(w, assets, voter, data) == SumPower(w, assets[i..], voter, data, total)
    {
      ghost var rest := assets[i..];
      assert rest[0] == assets[i] && rest[1..] == assets[i + 1..];
      var delegations := ProcessOnHost(w, assets[i], voter, data);
      if !delegations.Done? {
        if |data| % ADDRESS_LEN != 0 { return Aborted; }
        return delegations.PropagateFailure();
      }
      var power := AccumulateAsset(w, assets[i], delegations.value);
      if !power.Done? { return power; }
      var next := Add256(total, power.value);
      if !next.Done? { return Overflowed; }
      total := next.value;
      assert forall k | 0 <= k < i :: assets[..i + 1][k] == assets[..i][k];
      i := i + 1;
    }
    assert assets[..i] == assets;
    return Done(total);
  }

  /** A delegator with an empty list: the guest certifies its whole power, the host panics. */
  lemma HostIsPartial(delegator: Address, account: Address)
    ensures Inspect([], delegator, account) == Done(Some(Delegation(delegator, 1)))
    ensures ProcessDelegate([], delegator, account) == Aborted
  {
  }
}
