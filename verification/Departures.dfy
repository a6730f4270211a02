/** Where the protocol departs from its documentation, shown on whole runs: sound proofs, certified ballots, reached
    states. These runs suppose that the guest reads the assets from a configuration (`Blocks.ConfigEmptyAtSnapshot`
    shows that it finds none). */
module Departures {
  import opened Primitives
  import opened Sums
  import opened SylvesterBound
  import opened BallotLedger
  import opened SplitDelegation
  import opened VotingGuest
  import opened MajorityDecision
  import opened SupplyBounds
  import opened RepeatedClaims
  import opened EndToEnd
  import opened Realization
  import G = Governance

  // ---------- Runs made of certified ballots have sound proofs ----------

  /** Data on which the guest certifies the journal, if there is any that obeys the rule. */
  ghost function Witness(w: World, asset: Asset, rule: Rule): (G.Journal, Bytes) -> Bytes {
    (j: G.Journal, seal: Bytes) =>
      if data :| CertifiedOn(w, [asset], rule, j.voter, j.direction, j.balance, data) then data else []
  }

  /** One asset, every verifier trusted, every block the same world, and journals proved on such data. */
  ghost function TrustIn(w: World, asset: Asset, rule: Rule): Trust {
    Trust((verifier: Address, imageId: Bytes32) => true, (digest: Bytes32) => w, [asset], Witness(w, asset, rule))
  }

  lemma SubmissionIsSound(w: World, asset: Asset, rule: Rule, script: Script, i: nat)
    requires i < |script.ballots| && CertifiedBallot(w, [asset], rule, script.ballots[i])
    ensures VotesOf(script.Submission(i), SoundVote(TrustIn(w, asset, rule)))
    ensures VotesOf(script.Submission(i), RuledVote(TrustIn(w, asset, rule), rule))
  {
    var trust, b := TrustIn(w, asset, rule), script.ballots[i];
    var j := script.JournalOf(b);
    assert script.Chain().decode(Zeros(i)) == Some(j);
    assert CertifiedOn(w, [asset], rule, j.voter, j.direction, j.balance, trust.input(j, []));
  }

  lemma {:induction false} EveryVoteAppend(xs: seq<G.Call>, c: G.Call, p: (G.Env, Bytes, Bytes) -> bool)
    requires EveryVote(xs, p) && VotesOf(c, p)
    ensures EveryVote(xs + [c], p)
    decreases |xs|
  {
    if xs == [] {
      assert xs + [c] == [c] && [c][1..] == [];
    } else {
      assert (xs + [c])[0] == xs[0] && (xs + [c])[1..] == xs[1..] + [c];
      EveryVoteAppend(xs[1..], c, p);
    }
  }

  lemma CreationVotesNothing(script: Script, p: (G.Env, Bytes, Bytes) -> bool)
    ensures EveryVote(script.Calls(0), p)
  {
    assert script.Calls(0) == [script.Creation()] && script.Calls(0)[1..] == [];
    assert VotesOf(script.Creation(), p) && EveryVote([], p);
  }

  /** The run that submits certified ballots is a run with sound proofs on data that obeys the rule. */
  lemma {:induction false} CertifiedScriptsAreSound(w: World, asset: Asset, rule: Rule, script: Script, k: nat)
    requires AllCertified(w, [asset], rule, script.ballots) && k <= |script.ballots|
    ensures SoundRun(TrustIn(w, asset, rule), script.Calls(k)) &&
            RuledRun(TrustIn(w, asset, rule), rule, script.Calls(k))
    decreases k
  {
    var trust := TrustIn(w, asset, rule);
    if k == 0 {
      CreationVotesNothing(script, SoundVote(trust));
      CreationVotesNothing(script, RuledVote(trust, rule));
    } else {
      CertifiedScriptsAreSound(w, asset, rule, script, k - 1);
      assert CertifiedBallot(w, [asset], rule, script.ballots[k - 1]);
      SubmissionIsSound(w, asset, rule, script, k - 1);
      EveryVoteAppend(script.Calls(k - 1), script.Submission(k - 1), SoundVote(trust));
      EveryVoteAppend(script.Calls(k - 1), script.Submission(k - 1), RuledVote(trust, rule));
    }
  }

  /** A run of the script whose ballots are all certified, up to ballot `k`. */
  ghost predicate CertifiedRun(w: World, asset: Asset, rule: Rule, script: Script, k: nat) {
    && k <= |script.ballots|
    && G.Reached(script.State(k), script.self, script.settings, script.Calls(k))
    && SoundRun(TrustIn(w, asset, rule), script.Calls(k)) && RuledRun(TrustIn(w, asset, rule), rule, script.Calls(k))
    && Trusted(TrustIn(w, asset, rule), script.State(k).At(0))
    && G.Ballots(script.State(k).log, 0) == script.ballots[..k]
    && Replay(script.ballots[..k]) == Some(script.State(k).At(0).ledger)
  }

  lemma ScriptsRun(w: World, asset: Asset, rule: Rule, script: Script, k: nat)
    requires script.Valid() && AllCertified(w, [asset], rule, script.ballots) && k <= |script.ballots|
    ensures CertifiedRun(w, asset, rule, script, k)
  {
    AcceptedBallotsAreReached(script, k);
    CertifiedScriptsAreSound(w, asset, rule, script, k);
  }

  lemma WholeScriptRuns(w: World, asset: Asset, rule: Rule, script: Script)
    requires script.Valid() && AllCertified(w, [asset], rule, script.ballots)
    ensures CertifiedRun(w, asset, rule, script, |script.ballots|)
    ensures Replay(script.ballots) == Some(script.State(|script.ballots|).At(0).ledger)
  {
    ScriptsRun(w, asset, rule, script, |script.ballots|);
    assert script.ballots[..|script.ballots|] == script.ballots;
  }

  // ---------- Small worlds ----------

  /** The listed delegators have lists, and those name the voter. */
  ghost predicate AllGrant(w: World, asset: Asset, ds: seq<Address>, voter: Address) {
    forall i | 0 <= i < |ds| :: w.registry(asset, ds[i]) != [] && Eligible(w.registry(asset, ds[i]), voter)
  }

  lemma PackedPower(w: World, asset: Asset, ds: seq<Address>, voter: Address, power: U256)
    requires AllGrant(w, asset, ds, voter) && SumSeq(ds, Grants(w, asset, voter)) == power
    ensures TotalPower(w, [asset], voter, Packed(ds)) == Done(power)
  {
    var data := Packed(ds);
    ChunksOfPacked(ds);
    assert Valid(w, asset, voter, data);
    assert [asset][1..] == [];
    assert SumSeq([asset], GrantTotal(w, voter, data)) == GrantTotal(w, voter, data)(asset);
    TotalPowerMeaning(w, [asset], voter, data);
  }

  lemma PackedProper(w: World, asset: Asset, ds: seq<Address>, voter: Address)
    requires AllGrant(w, asset, ds, voter) && Distinct(ds)
    ensures Obeys(w, [asset], Proper, Packed(ds))
  {
    ChunksOfPacked(ds);
    assert ListsNonEmpty(w, asset, ds);
  }

  /** A ballot is certified once its voter's listed delegators grant its power. */
  lemma CertifiedByGrants(w: World, asset: Asset, ds: seq<Address>, b: Ballot)
    requires Distinct(ds) && b.option != Absent && b.power > 0
    requires AllGrant(w, asset, ds, b.voter) && SumSeq(ds, Grants(w, asset, b.voter)) == b.power
    ensures CertifiedBallot(w, [asset], Proper, b)
  {
    PackedPower(w, asset, ds, b.voter, b.power);
    PackedProper(w, asset, ds, b.voter);
    assert CertifiedOn(w, [asset], Proper, b.voter, G.Direction(b.option), b.power, Packed(ds));
  }

  lemma GrantOfOne(w: World, asset: Asset, voter: Address, d: Address)
    ensures SumSeq([d], Grants(w, asset, voter)) == ShareOf(w.power(asset, d), w.registry(asset, d), voter)
  {
    assert [d][1..] == [];
  }

  lemma GrantOfTwo(w: World, asset: Asset, voter: Address, d: Address, e: Address)
    ensures SumSeq([d, e], Grants(w, asset, voter)) ==
            ShareOf(w.power(asset, d), w.registry(asset, d), voter) +
              ShareOf(w.power(asset, e), w.registry(asset, e), voter)
  {
    assert [d, e][1..] == [e];
    GrantOfOne(w, asset, voter, e);
  }

  lemma CertifiedByOne(w: World, asset: Asset, d: Address, b: Ballot)
    requires b.option != Absent && b.power > 0 && w.registry(asset, d) != [] && Eligible(w.registry(asset, d), b.voter)
    requires ShareOf(w.power(asset, d), w.registry(asset, d), b.voter) == b.power
    ensures CertifiedBallot(w, [asset], Proper, b)
  {
    GrantOfOne(w, asset, b.voter, d);
    CertifiedByGrants(w, asset, [d], b);
  }

  lemma CertifiedByTwo(w: World, asset: Asset, d: Address, e: Address, b: Ballot)
    requires d != e && b.option != Absent && b.power > 0
    requires w.registry(asset, d) != [] && Eligible(w.registry(asset, d), b.voter)
    requires w.registry(asset, e) != [] && Eligible(w.registry(asset, e), b.voter)
    requires ShareOf(w.power(asset, d), w.registry(asset, d), b.voter) +
             ShareOf(w.power(asset, e), w.registry(asset, e), b.voter) == b.power
    ensures CertifiedBallot(w, [asset], Proper, b)
  {
    GrantOfTwo(w, asset, b.voter, d, e);
    CertifiedByGrants(w, asset, [d, e], b);
  }

  /** A list with one entry of ratio one passes the whole power on. */
  lemma WholeGrant(power: nat, a: Address)
    ensures Eligible([EntryFor(a, 1)], a) && ShareOf(power, [EntryFor(a, 1)], a) == power
  {
    EntryNames(a, 1);
    assert [EntryFor(a, 1)] == [EntryFor(a, 1)] + [];
    FindBehind(EntryFor(a, 1), []);
    assert power / 1 == power;
  }

  // ---------- Early execution ----------

  /** `d` holds `power` and splits it by `list`; `e` holds `rest` and gives it to `y`. There is no other supply. */
  function SplitWorld(list: seq<Entry>, d: Address, power: U256, y: Address, e: Address, rest: U256): World
    requires power + rest <= U256_MAX
  {
    World(
      (a: Asset, x: Address) => if x == d then list else if x == e then [EntryFor(y, 1)] else [],
      (a: Asset, x: Address) => if x == d then power else if x == e then rest else 0,
      (a: Asset) => power + rest)
  }

  /** What matters of such a world for one asset. */
  ghost predicate IsSplit(
    w: World, asset: Asset, list: seq<Entry>, d: Address, power: U256, y: Address, e: Address, rest: U256)
  {
    && d != e
    && w.registry(asset, d) == list && w.power(asset, d) == power
    && w.registry(asset, e) == [EntryFor(y, 1)] && w.power(asset, e) == rest
    && (forall x: Address | x != d && x != e :: w.power(asset, x) == 0)
    && w.supply(asset) == power + rest
  }

  lemma SplitWorldBacked(w: World, asset: Asset, d: Address, e: Address)
    requires d != e && w.power(asset, d) + w.power(asset, e) <= w.supply(asset)
    requires forall x: Address | x != d && x != e :: w.power(asset, x) == 0
    ensures Backed(w, asset)
  {
    var f := PowerOf(w, asset);
    forall holders: set<Address> ensures SumOver(holders, f) <= w.supply(asset) {
      SumOverSubset(holders, holders + {d, e}, f);
      SumOverSupport(holders + {d, e}, {d, e}, f);
      SumOverRemove({d, e}, f, d);
      assert {d, e} - {d} == {e} && {e} - {e} == {};
      SumOverRemove({e}, f, e);
    }
  }

  lemma OneAssetSupply(w: World, asset: Asset)
    ensures TotalSupply(w, [asset]) == Done(w.supply(asset))
  {
    SumSupplyMeaning(w, [asset], 0);
    assert SumSeq([asset], SupplyOf(w)) == w.supply(asset) by { assert [asset][1..] == []; }
  }

  /** The criterion holds for a stored tally, nobody replaces a vote afterwards, and the decision is reversed: in some
      run with sound proofs on proper data over the one asset of `w`. */
  ghost predicate Reverses(
    w: World, asset: Asset, trust: Trust, s: G.State, t: G.State, self: Address, v: G.VotingSettings,
    before: seq<G.Call>, after: seq<G.Call>, id: nat, supply: nat)
  {
    && trust.assets == [asset] && WorldOf(trust, t.At(id)) == w
    && Continues(trust, Proper, s, t, self, v, before, after, id, supply)
    && Decided(supply, s.At(id).ledger.tally)
    && ProofExecution(supply, t.At(id).ledger.tally) != Done(true)
  }

  /** The criterion is final in every such run. */
  ghost predicate CriterionIsFinal(w: World, asset: Asset) {
    forall trust: Trust, s: G.State, t: G.State, self: Address, v: G.VotingSettings, before: seq<G.Call>,
      after: seq<G.Call>, id: nat,
      supply: nat :: !Reverses(w, asset, trust, s, t, self, v, before, after, id, supply)
  }

  /** The script reverses its decision between the first `j` ballots and all of them. */
  ghost predicate ScriptReverses(w: World, asset: Asset, script: Script, j: nat) {
    var k := |script.ballots|;
    j <= k && Reverses(
      w, asset, TrustIn(w, asset, Proper), script.State(j), script.State(k), script.self, script.settings,
      script.Calls(j), script.Calls(k)[j + 1..], 0, w.supply(asset))
  }

  lemma RunContinues(
    w: World, asset: Asset, trust: Trust, s: G.State, t: G.State, self: Address, v: G.VotingSettings,
    before: seq<G.Call>, after: seq<G.Call>)
    requires G.Reached(s, self, v, before) && G.Reached(t, self, v, before + after)
    requires SoundRun(trust, before + after) && RuledRun(trust, Proper, before + after) && Trusted(trust, t.At(0))
    requires trust.assets == [asset] && WorldOf(trust, t.At(0)) == w && Backed(w, asset)
    requires NoReplacementsSince(G.Ballots(t.log, 0), |G.Ballots(s.log, 0)|)
    ensures Continues(trust, Proper, s, t, self, v, before, after, 0, w.supply(asset))
  {
    OneAssetSupply(w, asset);
  }

  lemma ScriptContinues(w: World, asset: Asset, script: Script, j: nat)
    requires script.Valid() && AllCertified(w, [asset], Proper, script.ballots) && Backed(w, asset)
    requires j <= |script.ballots| && NoReplacementsSince(script.ballots, j)
    ensures var k := |script.ballots|;
            Continues(TrustIn(w, asset, Proper), Proper, script.State(j), script.State(k), script.self, script.settings,
                      script.Calls(j), script.Calls(k)[j + 1..], 0, w.supply(asset))
    ensures Replay(script.ballots[..j]) == Some(script.State(j).At(0).ledger)
    ensures Replay(script.ballots) == Some(script.State(|script.ballots|).At(0).ledger)
  {
    var k := |script.ballots|;
    AcceptedBallotsAreReached(script, j);
    WholeScriptRuns(w, asset, Proper, script);
    CallsContinue(script, j, k);
    assert script.ballots[..k] == script.ballots;
    RunContinues(w, asset, TrustIn(w, asset, Proper), script.State(j), script.State(k), script.self, script.settings,
                 script.Calls(j), script.Calls(k)[j + 1..]);
  }

  lemma ScriptIsReversed(w: World, asset: Asset, script: Script, j: nat)
    requires script.Valid() && AllCertified(w, [asset], Proper, script.ballots) && Backed(w, asset)
    requires j <= |script.ballots| && NoReplacementsSince(script.ballots, j)
    requires Replay(script.ballots[..j]).Some? && Decided(w.supply(asset), Replay(script.ballots[..j]).value.tally)
    requires !Passes(w.supply(asset), Replay(script.ballots).value.tally)
    ensures ScriptReverses(w, asset, script, j)
  {
    ScriptContinues(w, asset, script, j);
    DecisionMeaning(w.supply(asset), Replay(script.ballots).value.tally);
  }

  // ---------- Reversal by over-allocation ----------

  lemma NoReplacementAppended(bs: seq<Ballot>, b: Ballot, n: nat)
    requires n <= |bs| && NoReplacementsSince(bs, n) && LastOption(bs, b.voter) == Absent
    ensures NoReplacementsSince(bs + [b], n)
  {
    forall i | n <= i < |bs + [b]| ensures LastOption((bs + [b])[..i], (bs + [b])[i].voter) == Absent {
      assert (bs + [b])[..i] == bs[..i];
      if i == |bs| {
        assert bs[..i] == bs;
      }
    }
  }

  /** A new voter's No is added to the No total. */
  lemma NoIsAdded(bs: seq<Ballot>, b: Ballot)
    requires Replay(bs).Some? && LastOption(bs, b.voter) == Absent && b.option == No &&
             Replay(bs).value.tally.no + b.power <= U256_MAX
    ensures Replay(bs + [b]).Some?
    ensures Replay(bs + [b]).value.tally == Replay(bs).value.tally.(no := Replay(bs).value.tally.no + b.power)
  {
    var l := Replay(bs).value;
    assert l.OptionOf(b.voter) == Absent by { ReplayRecordsLastOptions(bs); }
    assert Replay(bs + [b]) == Cast(l, b) by { Appended(bs, b, b.voter); }
  }

  /** The ballots `cs` follow `first`; each of the voters says No once, with the power `f` gives. */
  ghost predicate SayNo(first: Ballot, cs: seq<Ballot>, voters: set<Address>, f: Address -> int) {
    && (forall i | 0 <= i < |cs| :: cs[i].voter in voters && cs[i].option == No && cs[i].power == f(cs[i].voter))
    && Replay([first] + cs).Some?
    && Replay([first] + cs).value.tally.abstain == 0
    && Replay([first] + cs).value.tally.yes == first.power
    && Replay([first] + cs).value.tally.no == SumOver(voters, f)
    && NoReplacementsSince([first] + cs, 1)
  }

  lemma FirstBallot(b: Ballot)
    requires b.option == Yes
    ensures Replay([b]) == Some(Ledger(Tally(0, b.power, 0), map[b.voter := Yes]))
  {
    assert [] + [b] == [b];
    Appended([], b, b.voter);
  }

  lemma NobodySaysNo(first: Ballot, f: Address -> int)
    requires first.option == Yes
    ensures SayNo(first, [], {}, f)
  {
    assert [first] + [] == [first];
    FirstBallot(first);
  }

  lemma NotAmong(first: Ballot, prior: seq<Ballot>, voters: set<Address>, a: Address, f: Address -> int)
    requires first.voter != a && SayNo(first, prior, voters - {a}, f)
    ensures LastOption([first] + prior, a) == Absent
  {
    assert a !in Voters([first] + prior);
    UnseenVoter([first] + prior, a);
  }

  lemma OneMoreSaysNo(first: Ballot, prior: seq<Ballot>, voters: set<Address>, a: Address, f: Address -> int)
    requires first.voter != a && a in voters && SayNo(first, prior, voters - {a}, f) &&
             0 <= f(a) <= SumOver(voters, f) <= U256_MAX
    ensures SayNo(first, prior + [Ballot(a, No, f(a))], voters, f)
  {
    var bs, b := [first] + prior, Ballot(a, No, f(a));
    assert [first] + (prior + [b]) == bs + [b];
    NotAmong(first, prior, voters, a, f);
    SumOverRemove(voters, f, a);
    NoIsAdded(bs, b);
    NoReplacementAppended(bs, b, 1);
  }

  lemma {:induction false} NoBallots(first: Ballot, voters: set<Address>, f: Address -> int) returns (cs: seq<Ballot>)
    requires first.option == Yes && first.voter !in voters && (forall a | a in voters :: 0 < f(a)) &&
             SumOver(voters, f) <= U256_MAX
    ensures SayNo(first, cs, voters, f)
    decreases |voters|
  {
    if voters == {} {
      NobodySaysNo(first, f);
      cs := [];
    } else {
      var a :| a in voters;
      SumOverRemove(voters, f, a);
      SumOverSubset({}, voters - {a}, f);
      var prior := NoBallots(first, voters - {a}, f);
      OneMoreSaysNo(first, prior, voters, a, f);
      cs := prior + [Ballot(a, No, f(a))];
    }
  }

  /** Who votes, and what they hold together. */
  lemma SplitVoters(list: seq<Entry>, power: U256) returns (voters: set<Address>)
    requires list != []
    ensures voters <= Named(list) && forall a | a in voters :: SharesOf(power, list)(a) > 0
    ensures SumOver(voters, SharesOf(power, list)) == SumOver(Named(list), SharesOf(power, list)) >= 0
  {
    var f := SharesOf(power, list);
    voters := set a | a in Named(list) && f(a) > 0;
    forall a | a in Named(list) ensures f(a) >= 0 { assert ShareOf(power, list, a) >= 0; }
    SumOverSupport(Named(list), voters, f);
    SumOverSubset({}, Named(list), f);
  }

  /** The holder's Yes, and then No by accounts that the list grants something. */
  ghost predicate SplitBallots(bs: seq<Ballot>, list: seq<Entry>, power: U256, y: Address, rest: U256) {
    && |bs| > 0 && bs[0] == Ballot(y, Yes, rest)
    && forall i | 0 < i < |bs| :: bs[i].option == No && bs[i].power == ShareOf(power, list, bs[i].voter) > 0
  }

  lemma SplitBallotsCertified(
    w: World, list: seq<Entry>, power: U256, d: Address, e: Address, y: Address, asset: Asset, rest: U256,
    bs: seq<Ballot>)
    requires list != [] && RatioSum(list) <= U256_MAX && rest > 0 && IsSplit(w, asset, list, d, power, y, e, rest)
    requires SplitBallots(bs, list, power, y, rest)
    ensures AllCertified(w, [asset], Proper, bs)
  {
    forall i | 0 <= i < |bs| ensures CertifiedBallot(w, [asset], Proper, bs[i]) {
      if i == 0 {
        WholeGrantCertified(w, asset, e, bs[0]);
      } else {
        SplitGrantCertified(w, asset, d, list, bs[i]);
      }
    }
  }

  lemma WholeGrantCertified(w: World, asset: Asset, e: Address, b: Ballot)
    requires w.registry(asset, e) == [EntryFor(b.voter, 1)] && w.power(asset, e) == b.power > 0 && b.option != Absent
    ensures CertifiedBallot(w, [asset], Proper, b)
  {
    WholeGrant(b.power, b.voter);
    CertifiedByOne(w, asset, e, b);
  }

  lemma SplitGrantCertified(w: World, asset: Asset, d: Address, list: seq<Entry>, b: Ballot)
    requires list != [] && RatioSum(list) <= U256_MAX && w.registry(asset, d) == list && b.option != Absent
    requires b.power == ShareOf(w.power(asset, d), list, b.voter) > 0
    ensures CertifiedBallot(w, [asset], Proper, b)
  {
    CertifiedByOne(w, asset, d, b);
  }

  lemma SplitWorldReverses(
    w: World, list: seq<Entry>, power: U256, d: Address, e: Address, y: Address, asset: Asset, rest: U256,
    script: Script)
    requires list != [] && RatioSum(list) <= U256_MAX && power < rest && IsSplit(w, asset, list, d, power, y, e, rest)
    requires script.Valid() && SplitBallots(script.ballots, list, power, y, rest)
    requires NoReplacementsSince(script.ballots, 1) && Replay(script.ballots).value.tally == Tally(0, rest, rest)
    ensures ScriptReverses(w, asset, script, 1)
  {
    SplitBallotsCertified(w, list, power, d, e, y, asset, rest, script.ballots);
    SplitWorldBacked(w, asset, d, e);
    DrawReverses(w, asset, script, rest);
  }

  /** A first Yes of more than half of the supply, then as much No. */
  lemma DrawReverses(w: World, asset: Asset, script: Script, rest: U256)
    requires script.Valid() && AllCertified(w, [asset], Proper, script.ballots) && Backed(w, asset) &&
             w.supply(asset) < 2 * rest
    requires |script.ballots| > 0 && script.ballots[0].option == Yes && script.ballots[0].power == rest
    requires NoReplacementsSince(script.ballots, 1) && Replay(script.ballots).value.tally == Tally(0, rest, rest)
    ensures ScriptReverses(w, asset, script, 1)
  {
    FirstBallot(script.ballots[0]);
    assert script.ballots[..1] == [script.ballots[0]];
    ScriptIsReversed(w, asset, script, 1);
  }

  /** If the named accounts receive more than the power, let them vote No against somebody who holds exactly what they
      received. */
  lemma OverAllocationReverses(
    list: seq<Entry>, power: U256, d: Address, e: Address, y: Address, asset: Asset, plan: Script) returns (rest: U256)
    requires list != [] && RatioSum(list) <= U256_MAX && d != e && y !in Named(list)
    requires power < SumOver(Named(list), SharesOf(power, list)) <= U256_MAX - power
    requires plan.ballots == [] && plan.Valid()
    ensures power + rest <= U256_MAX && !CriterionIsFinal(SplitWorld(list, d, power, y, e, rest), asset)
  {
    var voters := SplitVoters(list, power);
    rest := SumOver(voters, SharesOf(power, list));
    var first := Ballot(y, Yes, rest);
    var cs := NoBallots(first, voters, SharesOf(power, list));
    var script := plan.(ballots := [first] + cs);
    var w := SplitWorld(list, d, power, y, e, rest);
    SplitWorldReverses(w, list, power, d, e, y, asset, rest, script);
    assert ScriptReverses(w, asset, script, 1);
  }

  // ---------- Finality by conservation ----------

  lemma WholeGrantConserves(power: nat, y: Address)
    ensures Conserves(power, [EntryFor(y, 1)])
  {
    DividingListConserves(power, [EntryFor(y, 1)]);
  }

  /** Only `d` and `e` have lists, so every certificate is about conserving delegators. */
  lemma SplitCertificatesConserve(
    w: World, list: seq<Entry>, power: U256, d: Address, e: Address, y: Address, asset: Asset, rest: U256,
    bs: seq<Ballot>)
    requires power + rest <= U256_MAX && w == SplitWorld(list, d, power, y, e, rest) && d != e && Conserves(power, list)
    requires AllCertified(w, [asset], Proper, bs)
    ensures AllCertified(w, [asset], Conserving, bs)
  {
    forall i | 0 <= i < |bs| ensures CertifiedBallot(w, [asset], Conserving, bs[i]) {
      var b := bs[i];
      assert CertifiedBallot(w, [asset], Proper, b);
      var data :| CertifiedOn(w, [asset], Proper, b.voter, G.Direction(b.option), b.power, data);
      WholeGrantConserves(rest, y);
      forall k | 0 <= k < |Listed(data)|
        ensures Conserves(w.power(asset, Listed(data)[k]), w.registry(asset, Listed(data)[k])) {
        assert ListsNonEmpty(w, [asset][0], Listed(data));
      }
      assert CertifiedOn(w, [asset], Conserving, b.voter, G.Direction(b.option), b.power, data);
    }
  }

  lemma ConservingRunIsFinal(
    w: World, list: seq<Entry>, power: U256, d: Address, e: Address, y: Address, asset: Asset, rest: U256,
    trust: Trust, s: G.State, t: G.State, self: Address, v: G.VotingSettings, before: seq<G.Call>, after: seq<G.Call>,
    id: nat, supply: nat)
    requires power + rest <= U256_MAX && w == SplitWorld(list, d, power, y, e, rest) && d != e && Conserves(power, list)
    ensures !Reverses(w, asset, trust, s, t, self, v, before, after, id, supply)
  {
    if trust.assets == [asset] && WorldOf(trust, t.At(id)) == w &&
      Continues(trust, Proper, s, t, self, v, before, after, id, supply)
       && Decided(supply, s.At(id).ledger.tally)
    {
      var bs := G.Ballots(t.log, id);
      RuledRunsCertify(trust, Proper, t, self, v, before + after, id);
      SplitCertificatesConserve(w, list, power, d, e, y, asset, rest, bs);
      StoredBallotsGrow(s, t, self, v, before, after, id);
      SixtyOneThirtySixths();
      CertifiedTurnoutWithinSupply(w, [asset], Conserving, bs, 61.0 / 36.0);
      SumSupplyMeaning(w, [asset], 0);
      StoredTallyExtends(s, t, self, v, before, after, id);
      DecidedStays(supply, s.At(id).ledger.tally, t.At(id).ledger.tally);
    }
  }

  lemma ConservationIsFinal(list: seq<Entry>, power: U256, d: Address, e: Address, y: Address, asset: Asset, rest: U256)
    requires d != e && power + rest <= U256_MAX && Conserves(power, list)
    ensures CriterionIsFinal(SplitWorld(list, d, power, y, e, rest), asset)
  {
    var w := SplitWorld(list, d, power, y, e, rest);
    forall trust: Trust, s: G.State, t: G.State, self: Address, v: G.VotingSettings, before: seq<G.Call>,
      after: seq<G.Call>, id: nat,
      supply: nat
      ensures !Reverses(w, asset, trust, s, t, self, v, before, after, id, supply)
    {
      ConservingRunIsFinal(w, list, power, d, e, y, asset, rest, trust, s, t, self, v, before, after, id, supply);
    }
  }

  /** The documented criterion for early execution, exactly: for a delegator who splits `power` by `list`, next to one
      who passes everything on, the criterion is final whatever the other holds if the list conserves the power, and
      only if, as long as a supply of the power and all that the list hands out fits a word. */
  lemma CriterionFinalIffConserving(
    list: seq<Entry>, power: U256, d: Address, e: Address, y: Address, asset: Asset, plan: Script)
    requires list != [] && RatioSum(list) <= U256_MAX && d != e && y !in Named(list)
    requires plan.ballots == [] && plan.Valid()
    ensures var handed := SumOver(Named(list), SharesOf(power, list));
            var final := forall rest: U256 | power + rest <= U256_MAX ::
              CriterionIsFinal(SplitWorld(list, d, power, y, e, rest), asset);
            && (handed <= power ==> final)
            && (power + handed <= U256_MAX && final ==> handed <= power)
  {
    ConservesIffNamed(power, list);
    if Conserves(power, list) {
      forall rest: U256 | power + rest <= U256_MAX
        ensures CriterionIsFinal(SplitWorld(list, d, power, y, e, rest), asset) {
        ConservationIsFinal(list, power, d, e, y, asset, rest);
      }
    } else if power + SumOver(Named(list), SharesOf(power, list)) <= U256_MAX {
      var rest := OverAllocationReverses(list, power, d, e, y, asset, plan);
    }
  }

  // ---------- The smallest reversal ----------

  lemma RemainderShares(x: Address, y: Address)
    requires x != y
    ensures var list := [EntryFor(x, 3), EntryFor(y, 2)];
            && Eligible(list, x) && Eligible(list, y)
            && ShareOf(100, list, x) == 100 && ShareOf(100, list, y) == 50
  {
    EntryNames(x, 3);
    EntryNames(y, 2);
    assert [EntryFor(x, 3), EntryFor(y, 2)] == [EntryFor(x, 3)] + [EntryFor(y, 2)] &&
           [EntryFor(y, 2)] == [EntryFor(y, 2)] + [];
    FindBehind(EntryFor(x, 3), [EntryFor(y, 2)]);
    FindBehind(EntryFor(y, 2), []);
  }

  /** `d1` holds 100 and splits them 3 to 2 between `x` and `y`; `d2` holds 1 and gives it to `y`. The supply is 101. */
  function RemainderWorld(x: Address, y: Address, d1: Address, d2: Address): World {
    SplitWorld([EntryFor(x, 3), EntryFor(y, 2)], d1, 100, y, d2, 1)
  }

  lemma RemainderCertified(x: Address, y: Address, d1: Address, d2: Address, asset: Asset)
    requires x != y && d1 != d2
    ensures AllCertified(RemainderWorld(x, y, d1, d2), [asset], Proper, [Ballot(y, Yes, 51), Ballot(x, No, 100)])
  {
    var w := RemainderWorld(x, y, d1, d2);
    RemainderShares(x, y);
    WholeGrant(1, y);
    CertifiedByTwo(w, asset, d1, d2, Ballot(y, Yes, 51));
    CertifiedByOne(w, asset, d1, Ballot(x, No, 100));
  }

  lemma YesThenNo(b: Ballot, c: Ballot)
    requires b.voter != c.voter && b.option == Yes && c.option == No
    ensures Replay([b]) == Some(Ledger(Tally(0, b.power, 0), map[b.voter := Yes]))
    ensures Replay([b, c]).Some? && Replay([b, c]).value.tally == Tally(0, b.power, c.power)
    ensures NoReplacementsSince([b, c], 1)
  {
    assert [b] + [c] == [b, c];
    FirstBallot(b);
    assert LastOption([b], c.voter) == Absent by { assert [b][..0] == []; }
    NoIsAdded([b], c);
    NoReplacementAppended([b], c, 1);
  }

  /** In this run `y` votes Yes with 51 of a supply of 101, so 51 > 101 - 51. Then `x` votes No with 100, nobody having
      replaced a vote, and the decision is reversed. */
  lemma CriterionFailsWithRemainder(script: Script, x: Address, y: Address, d1: Address, d2: Address, asset: Asset)
    requires x != y && d1 != d2 && script.ballots == [Ballot(y, Yes, 51), Ballot(x, No, 100)]
    requires G.SettingsWithinBounds(script.settings) && script.settings.verifier != ZERO_ADDRESS
    ensures script.Valid() && ScriptReverses(RemainderWorld(x, y, d1, d2), asset, script, 1)
  {
    var w, b, c := RemainderWorld(x, y, d1, d2), Ballot(y, Yes, 51), Ballot(x, No, 100);
    YesThenNo(b, c);
    RemainderCertified(x, y, d1, d2, asset);
    SplitWorldBacked(w, asset, d1, d2);
    assert script.ballots[..1] == [b];
    ScriptIsReversed(w, asset, script, 1);
  }

  // ---------- Repeated and unlisted delegators ----------

  function Repeat(d: Address, k: nat): (ds: seq<Address>)
    ensures |ds| == k
  {
    if k == 0 then [] else [d] + Repeat(d, k - 1)
  }

  lemma {:induction false} RepeatCounts(d: Address, k: nat)
    ensures Count(Repeat(d, k), d) == k
  {
    if k > 0 {
      assert Repeat(d, k)[1..] == Repeat(d, k - 1);
      RepeatCounts(d, k - 1);
    }
  }

  /** In a world with one unit a voter is certified as much as the data repeats its holder. */
  lemma RepeatCertified(d: Address, list: seq<Entry>, b: Ballot, asset: Asset)
    requires b.option != Absent && b.power > 0 && Eligible(list, b.voter) && ShareOf(1, list, b.voter) == 1
    ensures CertifiedBallot(UnitWorld(d, list), [asset], Any, b)
  {
    var ds, w := Repeat(d, b.power), UnitWorld(d, list);
    ChunksOfPacked(ds);
    RepeatCounts(d, b.power);
    UnitTotal(d, list, [asset], b.voter, Packed(ds));
    assert TotalPower(w, [asset], b.voter, Packed(ds)) == Done(b.power);
    assert CertifiedOn(w, [asset], Any, b.voter, G.Direction(b.option), b.power, Packed(ds));
  }

  /** No multiple of the supply bounds the stored turnout: for every `n` there is a run with sound proofs over a supply
      of one in which a single voter, who lists the one delegator `n` times, brings the turnout to `n`. The delegator's
      list is not empty. */
  lemma RepeatsExceedEverySupply(script: Script, n: U256, y: Address, d: Address, asset: Asset)
    requires n > 0 && script.ballots == [Ballot(y, Yes, n)]
    requires G.SettingsWithinBounds(script.settings) && script.settings.verifier != ZERO_ADDRESS
    ensures var w := UnitWorld(d, [EntryFor(y, 1)]);
            && Backed(w, asset) && TotalSupply(w, [asset]) == Done(1)
            && CertifiedRun(w, asset, Any, script, 1) && script.State(1).At(0).ledger.tally.Turnout() == n
  {
    var list := [EntryFor(y, 1)];
    WholeGrant(1, y);
    FirstBallot(script.ballots[0]);
    RepeatCertified(d, list, script.ballots[0], asset);
    UnitBacked(d, list, [asset]);
    UnitSupply(d, list, [asset]);
    WholeScriptRuns(UnitWorld(d, list), asset, Any, script);
  }

  /** One unit of No each. */
  ghost function Ones(): Address -> int {
    (a: Address) => 1
  }

  lemma {:induction false} OnesAddUp(voters: set<Address>)
    ensures SumOver(voters, Ones()) == |voters|
    decreases |voters|
  {
    if voters != {} {
      var a :| a in voters;
      SumOverRemove(voters, Ones(), a);
      OnesAddUp(voters - {a});
    }
  }

  lemma EmptyListCertified(d: Address, b: Ballot, asset: Asset)
    requires b.option != Absent && b.power == 1
    ensures CertifiedBallot(UnitWorld(d, []), [asset], Any, b)
  {
    RepeatCertified(d, [], b, asset);
  }

  /** Neither does it help that nobody lists a delegator twice: over a supply of one, any number of voters are certified
      the one unit of a delegator with an empty list, and all of it is tallied. */
  lemma EmptyListExceedsEverySupply(
    plan: Script, voters: set<Address>, y: Address, d: Address, asset: Asset) returns (script: Script)
    requires plan.ballots == [] && plan.Valid() && y !in voters && |voters| <= U256_MAX
    ensures script == plan.(ballots := script.ballots) && Backed(UnitWorld(d, []), asset)
    ensures TotalSupply(UnitWorld(d, []), [asset]) == Done(1)
    ensures CertifiedRun(UnitWorld(d, []), asset, Any, script, |script.ballots|)
    ensures script.State(|script.ballots|).At(0).ledger.tally == Tally(0, 1, |voters|)
  {
    var first, w := Ballot(y, Yes, 1), UnitWorld(d, []);
    OnesAddUp(voters);
    var cs := NoBallots(first, voters, Ones());
    var bs := [first] + cs;
    script := plan.(ballots := bs);
    forall i | 0 <= i < |bs| ensures CertifiedBallot(w, [asset], Any, bs[i]) {
      assert i > 0 ==> bs[i] == cs[i - 1];
      EmptyListCertified(d, bs[i], asset);
    }
    UnitBacked(d, [], [asset]);
    UnitSupply(d, [], [asset]);
    WholeScriptRuns(w, asset, Any, script);
  }

  // ---------- A balance that grows between two votes ----------

  /** `d1` holds 3 and `d2` holds 5, both for `a`; `d3` holds 5 for `c`. */
  function GrowingWorld(a: Address, c: Address, d1: Address, d2: Address, d3: Address): World {
    World(
      (asset: Asset, d: Address) =>
        if d == d1 || d == d2 then [EntryFor(a, 1)] else if d == d3 then [EntryFor(c, 1)] else [],
      (asset: Asset, d: Address) => if d == d1 then 3 else if d == d2 || d == d3 then 5 else 0,
      (asset: Asset) => 13)
  }

  lemma GrowingCertified(w: World, asset: Asset, a: Address, c: Address, d1: Address, d2: Address, d3: Address)
    requires d1 != d2
    requires w.registry(asset, d1) == w.registry(asset, d2) == [EntryFor(a, 1)] &&
             w.registry(asset, d3) == [EntryFor(c, 1)]
    requires w.power(asset, d1) == 3 && w.power(asset, d2) == w.power(asset, d3) == 5
    ensures CertifiedBallot(w, [asset], Proper, Ballot(a, Yes, 3))
    ensures CertifiedBallot(w, [asset], Proper, Ballot(c, Yes, 5))
    ensures CertifiedBallot(w, [asset], Proper, Ballot(a, No, 8))
  {
    WholeGrant(3, a);
    WholeGrant(5, a);
    WholeGrant(5, c);
    CertifiedByOne(w, asset, d1, Ballot(a, Yes, 3));
    CertifiedByOne(w, asset, d3, Ballot(c, Yes, 5));
    CertifiedByTwo(w, asset, d1, d2, Ballot(a, No, 8));
  }

  /** At one snapshot the guest certifies two powers for one voter, who lists one delegator first and two later. */
  lemma TwoPowersCertified(a: Address, c: Address, d1: Address, d2: Address, d3: Address, asset: Asset)
    requires d1 != d2 && d1 != d3 && d2 != d3
    ensures var w := GrowingWorld(a, c, d1, d2, d3);
            AllCertified(w, [asset], Proper, [Ballot(a, Yes, 3), Ballot(c, Yes, 5), Ballot(a, No, 8)])
  {
    GrowingCertified(GrowingWorld(a, c, d1, d2, d3), asset, a, c, d1, d2, d3);
  }

  /** Only the latest vote is not what is tallied in this run of certified votes: the latest votes are 5 Yes and 8 No,
      and the stored tally has no Yes left. */
  lemma GrownBalanceMiscountsOnChain(
    script: Script, a: Address, c: Address, d1: Address, d2: Address, d3: Address, asset: Asset)
    requires a != c && d1 != d2 && d1 != d3 && d2 != d3
    requires script.ballots == [Ballot(a, Yes, 3), Ballot(c, Yes, 5), Ballot(a, No, 8)]
    requires G.SettingsWithinBounds(script.settings) && script.settings.verifier != ZERO_ADDRESS
    ensures CertifiedRun(GrowingWorld(a, c, d1, d2, d3), asset, Proper, script, 3)
    ensures script.State(3).At(0).ledger.tally == Tally(0, 0, 8) && Recount(script.ballots, Yes) == 5
  {
    GrownBalanceMiscounts(a, c);
    TwoPowersCertified(a, c, d1, d2, d3, asset);
    WholeScriptRuns(GrowingWorld(a, c, d1, d2, d3), asset, Proper, script);
  }

  // ---------- Votes that `_canVote` denies ----------

  /** A reached state outside vote-replacement mode on which a voter's vote is accepted although `_canVote` denies it at
      every time. */
  lemma DeniedVoteIsAccepted(script: Script, a: Address)
    requires script.ballots == [Ballot(a, Yes, 1), Ballot(a, No, 1)] && script.settings.votingMode != G.VoteReplacement
    requires G.SettingsWithinBounds(script.settings) && script.settings.verifier != ZERO_ADDRESS
    ensures G.Reached(script.State(1), script.self, script.settings, script.Calls(1))
    ensures G.Step(script.State(1), script.Submission(1)).Some?
    ensures forall now: nat :: !G.CanVote(script.State(1).At(0), a, No, now)
  {
    var b, c := Ballot(a, Yes, 1), Ballot(a, No, 1);
    FirstBallot(b);
    Appended([b], c, a);
    assert [b] + [c] == script.ballots && script.ballots[..1] == [b] && script.ballots[..2] == script.ballots;
    AcceptedBallotsAreReached(script, 1);
    SubmissionHolds(script, script.State(1), 1);
  }
}
