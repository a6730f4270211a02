/** The governance protocol end to end: what the totals stored on chain can be, when accepted proofs are sound, and what
    the execution guest's decision then means for later runs. */
module EndToEnd {
  import opened Primitives
  import opened Sums
  import opened SylvesterBound
  import opened BallotLedger
  import opened SplitDelegation
  import opened VotingGuest
  import opened MajorityDecision
  import opened SupplyBounds
  import G = Governance
  import Token

  // ---------- Certified ballots ----------

  /** What may be supposed of the delegation data behind a vote. The guest takes any. `Proper` data lists no delegator
      twice and only delegators with non-empty lists; with `Conserving` data none of them hands out more than it has. */
  datatype Rule = Any | Proper | Conserving

  ghost predicate AllListsConserve(w: World, assets: seq<Asset>, data: Bytes) {
    forall i, k | 0 <= i < |assets| && 0 <= k < |Listed(data)| ::
      Conserves(w.power(assets[i], Listed(data)[k]), w.registry(assets[i], Listed(data)[k]))
  }

  ghost predicate Obeys(w: World, assets: seq<Asset>, rule: Rule, data: Bytes) {
    && (rule != Any ==> Distinct(Listed(data)) && AllListsNonEmpty(w, assets, data))
    && (rule == Conserving ==> AllListsConserve(w, assets, data))
  }

  /** The guest committed this vote on the data. */
  ghost predicate CertifiedOn(
    w: World, assets: seq<Asset>, rule: Rule, voter: Address, direction: byte, power: U256, data: Bytes)
  {
    Certifies(w, assets, voter, direction, power, data) && Obeys(w, assets, rule, data)
  }

  ghost predicate CertifiedBallot(w: World, assets: seq<Asset>, rule: Rule, b: Ballot) {
    exists data :: CertifiedOn(w, assets, rule, b.voter, G.Direction(b.option), b.power, data)
  }

  ghost predicate AllCertified(w: World, assets: seq<Asset>, rule: Rule, bs: seq<Ballot>) {
    forall i | 0 <= i < |bs| :: CertifiedBallot(w, assets, rule, bs[i])
  }

  // ---------- What an accepted proof means ----------

  /** Which verifier and image pairs are trusted, the world that a block hash commits to, the assets of the
      configuration, and the private delegation data that a journal was proved on, by journal and seal. */
  datatype Trust = Trust(
    trusted: (Address, Bytes32) -> bool,
    world: Bytes32 -> World,
    assets: seq<Asset>,
    input: (G.Journal, Bytes) -> Bytes)

  /** Some trusted verifier accepts the proof of a well-formed journal. */
  ghost predicate Proved(trust: Trust, env: G.Env, journalData: Bytes, seal: Bytes) {
    env.decode(journalData).Some? && exists verifier: Address, imageId: Bytes32 ::
      trust.trusted(verifier, imageId) && env.verify(verifier, seal, imageId, env.sha256(journalData))
  }

  /** The vote's proof is sound: if it is accepted, the guest certified the journal in the world of its commitment. */
  ghost predicate Sound(trust: Trust, env: G.Env, journalData: Bytes, seal: Bytes) {
    Proved(trust, env, journalData, seal) ==>
      var j := env.decode(journalData).value;
      Certifies(trust.world(j.commitment.digest), trust.assets, j.voter, j.direction, j.balance, trust.input(j, seal))
  }

  /** The vote's data obeys the rule. */
  ghost predicate Ruled(trust: Trust, rule: Rule, env: G.Env, journalData: Bytes, seal: Bytes) {
    Proved(trust, env, journalData, seal) ==>
      var j := env.decode(journalData).value;
      Obeys(trust.world(j.commitment.digest), trust.assets, rule, trust.input(j, seal))
  }

  ghost function SoundVote(trust: Trust): (G.Env, Bytes, Bytes) -> bool {
    (env: G.Env, journalData: Bytes, seal: Bytes) => Sound(trust, env, journalData, seal)
  }

  ghost function RuledVote(trust: Trust, rule: Rule): (G.Env, Bytes, Bytes) -> bool {
    (env: G.Env, journalData: Bytes, seal: Bytes) => Ruled(trust, rule, env, journalData, seal)
  }

  /** Every vote that is submitted anywhere in the call trees satisfies `p`. */
  ghost predicate VotesOf(c: G.Call, p: (G.Env, Bytes, Bytes) -> bool)
    decreases c, 1
  {
    match c
    case UpdateVotingSettings(_, _) => true
    case CreateProposal(_, _, _, _, _) => true
    case Vote(env, journalData, seal) => p(env, journalData, seal)
    case Execute(_, _, _, nested, _) => EveryVote(nested, p)
    case Frame(calls, _) => EveryVote(calls, p)
  }

  ghost predicate EveryVote(calls: seq<G.Call>, p: (G.Env, Bytes, Bytes) -> bool)
    decreases calls, 0
  {
    calls == [] || (VotesOf(calls[0], p) && EveryVote(calls[1..], p))
  }

  /** What zero-knowledge verification gives: the submitted proofs are sound. */
  ghost predicate SoundRun(trust: Trust, calls: seq<G.Call>) {
    EveryVote(calls, SoundVote(trust))
  }

  /** What it does not give: the submitted votes were proved on data that obeys the rule. */
  ghost predicate RuledRun(trust: Trust, rule: Rule, calls: seq<G.Call>) {
    EveryVote(calls, RuledVote(trust, rule))
  }

  /** `Any` asks nothing. */
  lemma {:induction false} AnyVotes(trust: Trust, c: G.Call)
    ensures VotesOf(c, RuledVote(trust, Any))
    decreases c, 1
  {
    match c
    case Execute(_, _, _, nested, _) => AnyRun(trust, nested);
    case Frame(calls, _) => AnyRun(trust, calls);
    case _ =>
  }

  lemma {:induction false} AnyRun(trust: Trust, calls: seq<G.Call>)
    ensures RuledRun(trust, Any, calls)
    decreases calls, 0
  {
    if calls != [] {
      AnyVotes(trust, calls[0]);
      AnyRun(trust, calls[1..]);
    }
  }

  /** Proposals under a trusted verifier and voting image. */
  predicate Trusted(trust: Trust, p: G.Proposal) {
    trust.trusted(p.parameters.verifier, p.parameters.votingProtocolImageId)
  }

  ghost function WorldOf(trust: Trust, p: G.Proposal): World {
    trust.world(p.parameters.snapshotBlockHash)
  }

  ghost predicate CertifiedAt(trust: Trust, rule: Rule, s: G.State, id: nat) {
    Trusted(trust, s.At(id)) ==> AllCertified(WorldOf(trust, s.At(id)), trust.assets, rule, G.Ballots(s.log, id))
  }

  ghost predicate CertifiedState(trust: Trust, rule: Rule, s: G.State) {
    forall id: nat :: CertifiedAt(trust, rule, s, id)
  }

  /** An event that is no vote on `id` leaves its ballots, and terms that stay keep their certificates. */
  lemma StillCertified(trust: Trust, rule: Rule, s: G.State, t: G.State, e: G.Event, id: nat)
    requires CertifiedAt(trust, rule, s, id) && t.log == s.log + [e] && (e.VoteCast? ==> e.id != id)
    requires t.At(id).parameters == s.At(id).parameters || G.Ballots(s.log, id) == []
    ensures CertifiedAt(trust, rule, t, id)
  {
    G.LogAppended(s.log, e, id);
  }

  /** The plugin's own checks turn an accepted proof into a certificate at the proposal's snapshot. */
  lemma AcceptedVoteIsCertified(trust: Trust, rule: Rule, s: G.State, env: G.Env, journalData: Bytes, seal: Bytes)
    requires Sound(trust, env, journalData, seal) && Ruled(trust, rule, env, journalData, seal)
    requires G.VoteStep(s, env, journalData, seal).Some?
    ensures var j := env.decode(journalData).value;
            Trusted(trust, s.At(j.proposalId)) ==>
              CertifiedBallot(WorldOf(trust, s.At(j.proposalId)), trust.assets, rule,
                              Ballot(j.voter, G.OptionFromDirection(j.direction).value, j.balance))
  {
    var j := env.decode(journalData).value;
    var p := s.At(j.proposalId).parameters;
    if Trusted(trust, s.At(j.proposalId)) {
      assert trust.trusted(p.verifier, p.votingProtocolImageId)
             && env.verify(p.verifier, seal, p.votingProtocolImageId, env.sha256(journalData));
      assert Proved(trust, env, journalData, seal);
      G.DirectionRoundTrip(G.OptionFromDirection(j.direction).value, j.direction);
      assert CertifiedOn(trust.world(p.snapshotBlockHash), trust.assets, rule, j.voter, j.direction, j.balance,
             trust.input(j, seal));
    }
  }

  lemma RecordCertifies(trust: Trust, rule: Rule, s: G.State, id: nat, ballot: Ballot, ledger: Ledger)
    requires CertifiedState(trust, rule, s)
    requires Trusted(trust, s.At(id)) ==> CertifiedBallot(WorldOf(trust, s.At(id)), trust.assets, rule, ballot)
    ensures CertifiedState(trust, rule, G.RecordVote(s, id, ballot, ledger))
  {
    var t, e := G.RecordVote(s, id, ballot, ledger), G.VoteCast(id, ballot);
    forall k: nat ensures CertifiedAt(trust, rule, t, k) {
      assert CertifiedAt(trust, rule, s, k);
      if k == id {
        G.LogAppended(s.log, e, k);
      } else {
        StillCertified(trust, rule, s, t, e, k);
      }
    }
  }

  lemma VoteCertifies(trust: Trust, rule: Rule, s: G.State, env: G.Env, journalData: Bytes, seal: Bytes)
    requires CertifiedState(trust, rule, s) && G.VoteStep(s, env, journalData, seal).Some?
    requires Sound(trust, env, journalData, seal) && Ruled(trust, rule, env, journalData, seal)
    ensures CertifiedState(trust, rule, G.VoteStep(s, env, journalData, seal).value)
  {
    AcceptedVoteIsCertified(trust, rule, s, env, journalData, seal);
    var j := env.decode(journalData).value;
    var ballot := Ballot(j.voter, G.OptionFromDirection(j.direction).value, j.balance);
    RecordCertifies(trust, rule, s, j.proposalId, ballot, Cast(s.At(j.proposalId).ledger, ballot).value);
  }

  /** Steps that record no vote. */
  lemma QuietStepCertifies(trust: Trust, rule: Rule, s: G.State, t: G.State, e: G.Event)
    requires G.Inv(s) && CertifiedState(trust, rule, s) && G.Evolves(s, t) && t.log == s.log + [e] && !e.VoteCast?
    ensures CertifiedState(trust, rule, t)
  {
    forall id: nat ensures CertifiedAt(trust, rule, t, id) {
      assert CertifiedAt(trust, rule, s, id) && G.Accounted(s, id);
      assert id < s.nextId ==> G.KeepsTerms(s.At(id), t.At(id));
      StillCertified(trust, rule, s, t, e, id);
    }
  }

  lemma {:induction false} StepCertifies(trust: Trust, rule: Rule, s: G.State, c: G.Call)
    requires G.Inv(s) && CertifiedState(trust, rule, s) && G.Step(s, c).Some?
    requires VotesOf(c, SoundVote(trust)) && VotesOf(c, RuledVote(trust, rule))
    ensures CertifiedState(trust, rule, G.Step(s, c).value)
    decreases c, 1
  {
    match c
    case UpdateVotingSettings(env, v) =>
      G.UpdateKeeps(s, v);
      QuietStepCertifies(trust, rule, s, G.Step(s, c).value, G.VotingSettingsUpdated(v));
    case CreateProposal(env, actions, allowFailureMap, start, end) =>
      G.CreateKeeps(s, env, actions, allowFailureMap, start, end);
      var t := G.Step(s, c).value;
      QuietStepCertifies(trust, rule, s, t, t.log[|s.log|]);
    case Vote(env, journalData, seal) => VoteCertifies(trust, rule, s, env, journalData, seal);
    case Execute(env, journalData, seal, nested, _) =>
      G.BeginKeeps(s, env, journalData, seal);
      var begun := G.BeginExecution(s, env, journalData, seal).value;
      QuietStepCertifies(trust, rule, s, begun, begun.log[|s.log|]);
      RunCertifies(trust, rule, begun, nested);
    case Frame(calls, _) => RunCertifies(trust, rule, s, calls);
  }

  lemma {:induction false} RunCertifies(trust: Trust, rule: Rule, s: G.State, calls: seq<G.Call>)
    requires G.Inv(s) && CertifiedState(trust, rule, s) && SoundRun(trust, calls) && RuledRun(trust, rule, calls)
    ensures CertifiedState(trust, rule, G.Run(s, calls))
    decreases calls, 0
  {
    if calls != [] {
      var step := G.Step(s, calls[0]);
      if step.Some? {
        StepCertifies(trust, rule, s, calls[0]);
        G.StepKeeps(s, calls[0]);
        RunCertifies(trust, rule, step.value, calls[1..]);
      } else {
        RunCertifies(trust, rule, s, calls[1..]);
      }
    }
  }

  lemma RuledRunsCertify(
    trust: Trust, rule: Rule, s: G.State, self: Address, v: G.VotingSettings, calls: seq<G.Call>, id: nat)
    requires G.Reached(s, self, v, calls) && SoundRun(trust, calls) && RuledRun(trust, rule, calls) &&
             Trusted(trust, s.At(id))
    ensures AllCertified(WorldOf(trust, s.At(id)), trust.assets, rule, G.Ballots(s.log, id))
  {
    var start := G.Initialize(self, v).value;
    G.InitialInv(self, v);
    forall k: nat ensures CertifiedAt(trust, rule, start, k) {
      assert G.Accounted(start, k);
    }
    RunCertifies(trust, rule, start, calls);
    assert CertifiedAt(trust, rule, s, id);
  }

  /** In every run with sound proofs, re-entrant calls included, every ballot recorded on a trusted proposal was
      certified by the voting guest, on some data, in the world of the proposal's own snapshot. */
  lemma SoundRunsCertify(trust: Trust, s: G.State, self: Address, v: G.VotingSettings, calls: seq<G.Call>, id: nat)
    requires G.Reached(s, self, v, calls) && SoundRun(trust, calls) && Trusted(trust, s.At(id))
    ensures AllCertified(WorldOf(trust, s.At(id)), trust.assets, Any, G.Ballots(s.log, id))
  {
    AnyRun(trust, calls);
    RuledRunsCertify(trust, Any, s, self, v, calls, id);
  }

  /** In every run with sound proofs, each ballot recorded on a trusted proposal is a real option with a positive power,
      and the power is the exact sum, over the assets and the delegators of some data, of what the registry grants the
      voter. */
  lemma RecordedPowersAreGranted(
    trust: Trust, s: G.State, self: Address, v: G.VotingSettings, calls: seq<G.Call>, id: nat, i: nat)
    requires G.Reached(s, self, v, calls) && SoundRun(trust, calls) && Trusted(trust, s.At(id)) &&
             i < |G.Ballots(s.log, id)|
    ensures var b, w := G.Ballots(s.log, id)[i], WorldOf(trust, s.At(id));
            && b.power > 0 && b.option in {Abstain, Yes, No}
            && exists data: Bytes ::
                 && SumSeq(trust.assets, GrantTotal(w, b.voter, data)) == b.power
                 && forall a | a in trust.assets :: Valid(w, a, b.voter, data)
  {
    SoundRunsCertify(trust, s, self, v, calls, id);
    assert CertifiedBallot(WorldOf(trust, s.At(id)), trust.assets, Any, G.Ballots(s.log, id)[i]);
    CertifiedIsGranted(WorldOf(trust, s.At(id)), trust.assets, G.Ballots(s.log, id)[i]);
  }

  lemma CertifiedIsGranted(w: World, assets: seq<Asset>, b: Ballot)
    requires CertifiedBallot(w, assets, Any, b)
    ensures b.power > 0 && b.option in {Abstain, Yes, No}
    ensures exists data: Bytes ::
              SumSeq(assets, GrantTotal(w, b.voter, data)) == b.power && forall a | a in assets ::
                Valid(w, a, b.voter, data)
  {
    var data :| CertifiedOn(w, assets, Any, b.voter, G.Direction(b.option), b.power, data);
    CommitsIff(w, assets, b.voter, G.Direction(b.option), b.power, data);
  }

  // ---------- From certified ballots to sound claims ----------

  lemma CertifiedArePresent(w: World, assets: seq<Asset>, rule: Rule, bs: seq<Ballot>)
    requires AllCertified(w, assets, rule, bs)
    ensures AllPresent(bs)
  {
    forall i | 0 <= i < |bs| ensures bs[i].option != Absent {
      assert CertifiedBallot(w, assets, rule, bs[i]);
    }
  }

  lemma {:induction false} FirstPowerIsSomeBallots(bs: seq<Ballot>, v: Address) returns (i: nat)
    requires v in Voters(bs)
    ensures i < |bs| && bs[i].voter == v && bs[i].power == FirstPower(bs, v)
  {
    if bs[0].voter == v {
      i := 0;
    } else {
      var k :| 0 <= k < |bs| && bs[k].voter == v;
      assert bs[1..][k - 1].voter == v;
      var j := FirstPowerIsSomeBallots(bs[1..], v);
      i := j + 1;
    }
  }

  /** Some data that obeys the rule and with which the voter was certified `power`. */
  ghost function Evidence(w: World, assets: seq<Asset>, rule: Rule, v: Address, power: nat): Bytes {
    if data :| IsEvidence(w, assets, rule, v, power, data) then data else []
  }

  ghost predicate IsEvidence(w: World, assets: seq<Asset>, rule: Rule, v: Address, power: nat, data: Bytes) {
    TotalPower(w, assets, v, data) == Done(power) && Obeys(w, assets, rule, data)
  }

  ghost function EvidenceOf(w: World, assets: seq<Asset>, rule: Rule, bs: seq<Ballot>): Address -> Bytes {
    (v: Address) => Evidence(w, assets, rule, v, FirstPower(bs, v))
  }

  lemma CertifiedBallotsAreSound(w: World, assets: seq<Asset>, rule: Rule, bs: seq<Ballot>)
    requires AllCertified(w, assets, rule, bs) && rule != Any
    ensures forall v | v in Voters(bs) ::
            IsEvidence(w, assets, rule, v, FirstPower(bs, v), EvidenceOf(w, assets, rule, bs)(v))
    ensures SoundClaims(w, assets, Voters(bs), EvidenceOf(w, assets, rule, bs), FirstOf(bs))
  {
    forall v | v in Voters(bs)
      ensures IsEvidence(w, assets, rule, v, FirstPower(bs, v), Evidence(w, assets, rule, v, FirstPower(bs, v)))
    {
      var i := FirstPowerIsSomeBallots(bs, v);
      assert CertifiedBallot(w, assets, rule, bs[i]);
      var data :| CertifiedOn(w, assets, rule, v, G.Direction(bs[i].option), bs[i].power, data);
      assert IsEvidence(w, assets, rule, v, FirstPower(bs, v), data);
    }
  }

  lemma CertifiedClaimsConserve(w: World, assets: seq<Asset>, bs: seq<Ballot>)
    requires AllCertified(w, assets, Conserving, bs)
    ensures ConservingClaims(w, assets, Voters(bs), EvidenceOf(w, assets, Conserving, bs))
  {
    var data := EvidenceOf(w, assets, Conserving, bs);
    CertifiedBallotsAreSound(w, assets, Conserving, bs);
    forall a, d | a in assets && d in Claimed(Voters(bs), data) ensures Conserves(w.power(a, d), w.registry(a, d)) {
      var v :| v in Voters(bs) && d in Listed(data(v));
      var i :| 0 <= i < |assets| && assets[i] == a;
      var k :| 0 <= k < |Listed(data(v))| && Listed(data(v))[k] == d;
      assert AllListsConserve(w, assets, data(v));
    }
  }

  // ---------- Turnout against supply ----------

  /** Ballots certified on proper data add up to at most `x` times the supply, for every bound `x` of 1 + 1/2 + 1/6 +
      1/42 + ..., and to at most the supply when the delegators in the data conserve their power. */
  lemma CertifiedTurnoutWithinSupply(w: World, assets: seq<Asset>, rule: Rule, bs: seq<Ballot>, x: real)
    requires Replay(bs).Some? && AllCertified(w, assets, rule, bs) && rule != Any && BoundsPartialSums(x)
    requires forall a | a in assets :: Backed(w, a)
    ensures Replay(bs).value.tally.Turnout() as real <= Times(SumSeq(assets, SupplyOf(w)) as real, x)
    ensures rule == Conserving ==> Replay(bs).value.tally.Turnout() <= SumSeq(assets, SupplyOf(w))
  {
    CertifiedArePresent(w, assets, rule, bs);
    TurnoutIsFirstPowers(bs);
    CertifiedBallotsAreSound(w, assets, rule, bs);
    AllVotersOverAllocation(w, assets, Voters(bs), EvidenceOf(w, assets, rule, bs), FirstOf(bs), x);
    if rule == Conserving {
      CertifiedClaimsConserve(w, assets, bs);
      AllVotersWithinSupply(w, assets, Voters(bs), EvidenceOf(w, assets, rule, bs), FirstOf(bs));
    }
  }

  /** In every run with sound proofs on proper data, re-entrant calls and replaced votes included, the stored turnout of
      a trusted proposal is at most `x` times the total supply at its snapshot, for every bound `x` of 1 + 1/2 + 1/6 +
      1/42 + ..., and at most that supply when the delegators in the data conserve their power. */
  lemma StoredTurnoutWithinSupply(
    trust: Trust, rule: Rule, s: G.State, self: Address, v: G.VotingSettings, calls: seq<G.Call>, id: nat, x: real)
    requires G.Reached(s, self, v, calls) && SoundRun(trust, calls) && RuledRun(trust, rule, calls) && rule != Any
    requires Trusted(trust, s.At(id)) && BoundsPartialSums(x) && forall a | a in trust.assets ::
             Backed(WorldOf(trust, s.At(id)), a)
    ensures var supply := SumSeq(trust.assets, SupplyOf(WorldOf(trust, s.At(id))));
            && s.At(id).ledger.tally.Turnout() as real <= Times(supply as real, x)
            && (rule == Conserving ==> s.At(id).ledger.tally.Turnout() <= supply)
  {
    RuledRunsCertify(trust, rule, s, self, v, calls, id);
    G.ReachedInv(s, self, v, calls);
    assert G.Accounted(s, id);
    CertifiedTurnoutWithinSupply(WorldOf(trust, s.At(id)), trust.assets, rule, G.Ballots(s.log, id), x);
  }

  /** The same bounds with nothing left to assume about holders: every asset is a token that was operated in any way
      since its deployment. */
  lemma StoredTurnoutWithinTokenSupply(
    trust: Trust, rule: Rule, s: G.State, self: Address, v: G.VotingSettings, calls: seq<G.Call>, id: nat, x: real,
    history: Asset -> seq<Token.Op>)
    requires G.Reached(s, self, v, calls) && SoundRun(trust, calls) && RuledRun(trust, rule, calls) && rule != Any
    requires Trusted(trust, s.At(id)) && BoundsPartialSums(x)
    requires forall a | a in trust.assets ::
             Token.ReadsToken(WorldOf(trust, s.At(id)), a, Token.Run(Token.DEPLOYED, history(a)))
    ensures var supply := SumSeq(trust.assets, SupplyOf(WorldOf(trust, s.At(id))));
            && s.At(id).ledger.tally.Turnout() as real <= Times(supply as real, x)
            && (rule == Conserving ==> s.At(id).ledger.tally.Turnout() <= supply)
  {
    forall a | a in trust.assets ensures Backed(WorldOf(trust, s.At(id)), a) {
      Token.TokenBacksAsset(WorldOf(trust, s.At(id)), a, history(a));
    }
    StoredTurnoutWithinSupply(trust, rule, s, self, v, calls, id, x);
  }

  // ---------- Early execution on the stored tally ----------

  /** Every ballot after the first `n` is by a voter with no recorded option at that point. */
  ghost predicate NoReplacementsSince(bs: seq<Ballot>, n: nat) {
    forall i | n <= i < |bs| :: LastOption(bs[..i], bs[i].voter) == Absent
  }

  lemma {:induction false} NewVotersOnlyAdd(bs: seq<Ballot>, n: nat)
    requires n <= |bs| && Replay(bs).Some? && NoReplacementsSince(bs, n)
    ensures Replay(bs[..n]).Some? && Extends(Replay(bs[..n]).value.tally, Replay(bs).value.tally)
  {
    if n == |bs| {
      assert bs[..n] == bs;
    } else {
      var prior := bs[..|bs| - 1];
      assert prior[..n] == bs[..n];
      assert forall i | n <= i < |prior| :: prior[..i] == bs[..i] && prior[i] == bs[i];
      NewVotersOnlyAdd(prior, n);
      ReplayRecordsLastOptions(prior);
      assert LastOption(bs[..|bs| - 1], bs[|bs| - 1].voter) == Absent;
    }
  }

  lemma {:induction false} BallotsGrow(log: seq<G.Event>, longer: seq<G.Event>, id: nat)
    requires log <= longer
    ensures G.Ballots(log, id) <= G.Ballots(longer, id)
    decreases |longer|
  {
    if |log| < |longer| {
      BallotsGrow(log, longer[..|longer| - 1], id);
    } else {
      assert log == longer;
    }
  }

  lemma StoredBallotsGrow(
    s: G.State, t: G.State, self: Address, v: G.VotingSettings, before: seq<G.Call>, after: seq<G.Call>, id: nat)
    requires G.Reached(s, self, v, before) && G.Reached(t, self, v, before + after)
    ensures G.Ballots(s.log, id) <= G.Ballots(t.log, id)
    ensures Replay(G.Ballots(s.log, id)) == Some(s.At(id).ledger) &&
            Replay(G.Ballots(t.log, id)) == Some(t.At(id).ledger)
  {
    G.ReachedInv(s, self, v, before);
    G.ReachedInv(t, self, v, before + after);
    G.RunAppend(G.Initialize(self, v).value, before, after);
    G.RunKeeps(s, after);
    BallotsGrow(s.log, t.log, id);
    assert G.Accounted(s, id) && G.Accounted(t, id);
  }

  /** Without replacements, every later stored tally extends the earlier one. */
  lemma StoredTallyExtends(
    s: G.State, t: G.State, self: Address, v: G.VotingSettings, before: seq<G.Call>, after: seq<G.Call>, id: nat)
    requires G.Reached(s, self, v, before) && G.Reached(t, self, v, before + after)
    requires NoReplacementsSince(G.Ballots(t.log, id), |G.Ballots(s.log, id)|)
    ensures Extends(s.At(id).ledger.tally, t.At(id).ledger.tally)
  {
    var old', new' := G.Ballots(s.log, id), G.Ballots(t.log, id);
    StoredBallotsGrow(s, t, self, v, before, after, id);
    assert new'[..|old'|] == old';
    NewVotersOnlyAdd(new', |old'|);
  }

  /** A later state `t` of a run with sound proofs on proper data that saw no replacement since `s`, over assets whose
      supply at the snapshot is `supply`. */
  ghost predicate Continues(
    trust: Trust, rule: Rule, s: G.State, t: G.State, self: Address, v: G.VotingSettings, before: seq<G.Call>,
    after: seq<G.Call>, id: nat, supply: nat)
  {
    && G.Reached(s, self, v, before) && G.Reached(t, self, v, before + after)
    && SoundRun(trust, before + after) && RuledRun(trust, rule, before + after) && rule != Any &&
      Trusted(trust, t.At(id))
    && (forall a | a in trust.assets :: Backed(WorldOf(trust, t.At(id)), a))
    && NoReplacementsSince(G.Ballots(t.log, id), |G.Ballots(s.log, id)|)
    && TotalSupply(WorldOf(trust, t.At(id)), trust.assets) == Done(supply)
  }

  lemma ContinuedTally(
    trust: Trust, rule: Rule, s: G.State, t: G.State, self: Address, v: G.VotingSettings, before: seq<G.Call>,
    after: seq<G.Call>, id: nat, supply: nat, x: real)
    requires Continues(trust, rule, s, t, self, v, before, after, id, supply) && BoundsPartialSums(x)
    ensures Extends(s.At(id).ledger.tally, t.At(id).ledger.tally)
    ensures t.At(id).ledger.tally.Turnout() as real <= Times(supply as real, x)
    ensures rule == Conserving ==> t.At(id).ledger.tally.Turnout() <= supply <= U256_MAX
  {
    SumSupplyMeaning(WorldOf(trust, t.At(id)), trust.assets, 0);
    StoredTallyExtends(s, t, self, v, before, after, id);
    StoredTurnoutWithinSupply(trust, rule, t, self, v, before + after, id, x);
  }

  /** The documented criterion is safe where the delegators in play conserve their power: once it holds for the stored
      tally, the decision passes after every later run in which nobody replaces a recorded vote. */
  lemma EarlyExecutionIsFinal(
    trust: Trust, s: G.State, t: G.State, self: Address, v: G.VotingSettings, before: seq<G.Call>, after: seq<G.Call>,
    id: nat, supply: nat)
    requires Continues(trust, Conserving, s, t, self, v, before, after, id, supply)
    requires Decided(supply, s.At(id).ledger.tally)
    ensures ProofExecution(supply, t.At(id).ledger.tally) == Done(true)
  {
    SixtyOneThirtySixths();
    ContinuedTally(trust, Conserving, s, t, self, v, before, after, id, supply, 61.0 / 36.0);
    DecidedStays(supply, s.At(id).ledger.tally, t.At(id).ledger.tally);
  }

  /** On proper data of any delegators the criterion needs a margin: the turnout can grow to `x` times the supply, and a
      yes vote that outweighs everything up to there is final, for every bound `x` of 1 + 1/2 + 1/6 + 1/42 + ... */
  lemma EarlyExecutionWithMargin(
    trust: Trust, s: G.State, t: G.State, self: Address, v: G.VotingSettings, before: seq<G.Call>, after: seq<G.Call>,
    id: nat, supply: nat, x: real)
    requires Continues(trust, Proper, s, t, self, v, before, after, id, supply) && BoundsPartialSums(x)
    requires (2 * s.At(id).ledger.tally.yes + s.At(id).ledger.tally.abstain) as real > Times(supply as real, x)
    ensures Passes(supply, t.At(id).ledger.tally)
    ensures ProofExecution(supply, t.At(id).ledger.tally) == Done(true) || t.At(id).ledger.tally.Turnout() > U256_MAX
  {
    ContinuedTally(trust, Proper, s, t, self, v, before, after, id, supply, x);
    MarginPasses(supply, x, s.At(id).ledger.tally, t.At(id).ledger.tally);
    DecisionMeaning(supply, t.At(id).ledger.tally);
  }

  lemma MarginPasses(supply: nat, x: real, t: Tally, u: Tally)
    requires BoundsPartialSums(x) && Extends(t, u) && u.Turnout() as real <= Times(supply as real, x)
    requires (2 * t.yes + t.abstain) as real > Times(supply as real, x)
    ensures Passes(supply, u)
  {
    assert 2 * t.yes + t.abstain > u.Turnout();
    OneTerm(x);
    TimesAtMost(supply as real, 1.0, x);
    assert 2 * t.yes + t.abstain > supply;
  }

  lemma OneTerm(x: real)
    requires BoundsPartialSums(x)
    ensures 1.0 <= x
  {
    assert PartialSum(1.0, 1) == Cut(1.0, 0);
  }
}
