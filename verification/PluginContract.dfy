/** The plugin as the mutable contract it is. Every method reports whether the transaction
    succeeded and is proved to change the storage exactly as the state machine in `Governance`
    says; a revert leaves the storage as it was. */
module PluginContract {
  import opened Primitives
  import opened BallotLedger
  import opened Governance

  class RiscVotingProtocolPlugin {
    const self: Address
    var settings: VotingSettings
    var proposals: map<nat, Proposal>
    var nextId: nat
    var log: seq<Event>

    ghost function View(): State
      reads this
    {
      State(self, settings, proposals, nextId, log)
    }

    /** Deployment: nothing stored, nothing logged; the settings are overwritten by `Init`. */
    constructor (self: Address, untouched: VotingSettings)
      ensures View() == State(self, untouched, map[], 0, [])
    {
      this.self := self;
      settings, proposals, nextId, log := untouched, map[], 0, [];
    }

    function At(id: nat): Proposal
      reads this
    {
      if id in proposals then proposals[id] else DEFAULT_PROPOSAL
    }

    /** `_updateVotingSettings`; also the body of `initialize`. */
    method UpdateVotingSettings(v: VotingSettings) returns (ok: bool)
      modifies this
      ensures ok == Governance.UpdateSettings(old(View()), v).Some?
      ensures View() == Governance.UpdateSettings(old(View()), v).GetOr(old(View()))
      ensures ok <==> SettingsWithinBounds(v)
    {
      if v.supportThreshold > RATIO_BASE - 1 { return false; }
      if v.minParticipation > RATIO_BASE { return false; }
      if v.minDuration < MINUTES_60 { return false; }
      if v.minDuration > DAYS_365 { return false; }
      settings := v;
      log := log + [VotingSettingsUpdated(v)];
      return true;
    }

    /** `createProposal`. */
    method CreateProposal(env: Env, actions: seq<Action>, allowFailureMap: U256, start: U64, end: U64)
      returns (ok: bool, proposalId: nat)
      modifies this
      ensures ok == CreateStep(old(View()), env, actions, allowFailureMap, start, end).Some?
      ensures View() == CreateStep(old(View()), env, actions, allowFailureMap, start, end).GetOr(old(View()))
      ensures ok ==> proposalId == old(nextId)
    {
      proposalId := nextId;
      if !env.authorized { return false, proposalId; }
      var snapshotBlock := SnapshotBlock(env.blockNumber);
      var dates := ValidateDates(settings.minDuration, env.timestamp, start, end);
      if dates.None? || snapshotBlock > U64_MAX { return false, proposalId; }
      var parameters := NewParameters(settings, dates.value, snapshotBlock, env.blockhash(snapshotBlock));
      var stored := At(proposalId);
      var failureMap := stored.allowFailureMap;
      if allowFailureMap != 0 {
        failureMap := allowFailureMap;
      }
      var pushed := stored.actions;
      for i := 0 to |actions|
        invariant pushed == stored.actions + actions[..i]
      {
        pushed := pushed + [actions[i]];
      }
      assert actions[..|actions|] == actions;
      proposals := proposals[proposalId := Proposal(stored.executed, parameters, stored.ledger, pushed, failureMap)];
      nextId := nextId + 1;
      log := log + [ProposalCreated(proposalId, env.timestamp, parameters, pushed, failureMap)];
      return true, proposalId;
    }

    /** The arithmetic of `vote`: the recorded option gives the new balance back, then the new option receives it. Every
        total a ballot does not touch stays, and no weight is created or lost when both options are real. */
    static method MoveWeight(
      before: Tally, recorded: VoteOption, option: VoteOption, votingPower: U256) returns (after: Option<Tally>)
      ensures after.Some? <==>
              Debit(before, recorded, votingPower).Some? &&
              Credit(Debit(before, recorded, votingPower).value, option, votingPower).Some?
      ensures after.Some? ==>
              Debit(before, recorded, votingPower).Some? &&
              after == Credit(Debit(before, recorded, votingPower).value, option, votingPower)
      ensures after.Some? && recorded != Absent && option != Absent ==> after.value.Turnout() == before.Turnout()
    {
      var tally := before;
      if recorded == Yes {
        if tally.yes < votingPower { return None; }
        tally := tally.(yes := tally.yes - votingPower);
      } else if recorded == No {
        if tally.no < votingPower { return None; }
        tally := tally.(no := tally.no - votingPower);
      } else if recorded == Abstain {
        if tally.abstain < votingPower { return None; }
        tally := tally.(abstain := tally.abstain - votingPower);
      }
      if option == Yes {
        if tally.yes + votingPower > U256_MAX { return None; }
        tally := tally.(yes := tally.yes + votingPower);
      } else if option == No {
        if tally.no + votingPower > U256_MAX { return None; }
        tally := tally.(no := tally.no + votingPower);
      } else if option == Abstain {
        if tally.abstain + votingPower > U256_MAX { return None; }
        tally := tally.(abstain := tally.abstain + votingPower);
      }
      return Some(tally);
    }

    /** `vote`: the journal checks, the proof, then the tally and the voter's record. */
    method Vote(env: Env, journalData: Bytes, seal: Bytes) returns (ok: bool)
      modifies this
      ensures ok == VoteStep(old(View()), env, journalData, seal).Some?
      ensures View() == VoteStep(old(View()), env, journalData, seal).GetOr(old(View()))
    {
      var decoded := env.decode(journalData);
      if decoded.None? { return false; }
      var journal := decoded.value;
      if journal.configContract != self { return false; }
      var proposal := At(journal.proposalId);
      if !CommitsToSnapshot(journal.commitment, proposal.parameters) { return false; }
      var imageId := proposal.parameters.votingProtocolImageId;
      if !ProofAccepted(env, proposal.parameters.verifier, imageId, journalData, seal) { return false; }

      var option := OptionFromDirection(journal.direction);
      if option.None? { return false; }
      var moved := MoveWeight(proposal.ledger.tally, proposal.ledger.OptionOf(journal.voter), option.value,
        journal.balance);
      if moved.None? { return false; }
      var ledger := Ledger(moved.value, proposal.ledger.voters[journal.voter := option.value]);
      proposals := proposals[journal.proposalId := proposal.(ledger := ledger)];
      log := log + [VoteCast(journal.proposalId, Ballot(journal.voter, option.value, journal.balance))];
      return true;
    }

    /** `execute`: the flag is set before the DAO is called, and `nested` is what the DAO's actions call back. */
    method Execute(env: Env, journalData: Bytes, seal: Bytes, nested: seq<Call>, daoSucceeds: bool) returns (ok: bool)
      modifies this
      ensures var begun := BeginExecution(old(View()), env, journalData, seal);
              ok == (begun.Some? && daoSucceeds)
              && View() == if ok then Run(begun.value, nested) else old(View())
      decreases nested, 2
    {
      var decoded := env.decode(journalData);
      if decoded.None? { return false; }
      var journal := decoded.value;
      if journal.configContract != self { return false; }
      var proposal := At(journal.proposalId);
      if env.timestamp > U64_MAX || !CanExecute(proposal, env.timestamp) { return false; }
      if !CommitsToSnapshot(journal.commitment, proposal.parameters) { return false; }
      var imageId := proposal.parameters.executionProtocolImageId;
      if !ProofAccepted(env, proposal.parameters.verifier, imageId, journalData, seal) { return false; }

      var saved := (settings, proposals, nextId, log);
      proposals := proposals[journal.proposalId := proposal.(executed := true)];
      log := log + [Dispatched(journal.proposalId, proposal.actions, proposal.allowFailureMap)];
      PerformAll(nested);
      if !daoSucceeds {
        settings, proposals, nextId, log := saved.0, saved.1, saved.2, saved.3;
      }
      return daoSucceeds;
    }

    /** Any call tree. */
    method Perform(c: Call) returns (ok: bool)
      modifies this
      ensures ok == Step(old(View()), c).Some?
      ensures View() == Step(old(View()), c).GetOr(old(View()))
      decreases c, 0
    {
      match c {
        case UpdateVotingSettings(env, v) =>
          if !env.authorized { return false; }
          ok := UpdateVotingSettings(v);
        case CreateProposal(env, actions, allowFailureMap, start, end) =>
          var id;
          ok, id := CreateProposal(env, actions, allowFailureMap, start, end);
        case Vote(env, journalData, seal) =>
          ok := Vote(env, journalData, seal);
        case Execute(env, journalData, seal, nested, daoSucceeds) =>
          ok := Execute(env, journalData, seal, nested, daoSucceeds);
        case Frame(calls, succeeds) =>
          var saved := (settings, proposals, nextId, log);
          PerformAll(calls);
          if !succeeds {
            settings, proposals, nextId, log := saved.0, saved.1, saved.2, saved.3;
          }
          ok := succeeds;
      }
    }

    method PerformAll(calls: seq<Call>)
      modifies this
      ensures View() == Run(old(View()), calls)
      decreases calls, 1
    {
      if calls != [] {
        var _ := Perform(calls[0]);
        PerformAll(calls[1..]);
      }
    }
  }
}
