# A verified model of the zk governance protocol

Aragon's zk governance lets a token holder vote on a DAO proposal without the chain computing voting power. A *voting guest*
adds up the power that delegators grant a voter over several assets and commits a journal. A *plugin contract* accepts the journal
with a proof and moves the weight in the proposal's tally. An *execution guest* proves that a tally passes, and the plugin then
dispatches the proposal's actions once. A *publisher* on the host repeats the guest's computation before it asks for a proof, and a
*router* with emergency stops decides which verifier checks it.

This project models those parts in Dafny and proves what they promise together. `dafny verify dfyconfig.toml` checks all of it.

| file | what it holds |
|---|---|
| `Primitives`, `ByteOrder`, `Sums` | EVM words, byte strings and outcomes; big-endian integers; finite sums over sets and sequences |
| `BallotLedger` | the running tally of one proposal, against definitions that read the ballots only |
| `Governance` | the plugin as a state machine over re-entrant call trees, and theorems over every run |
| `PluginContract` | the plugin as the mutable contract, proved to follow the state machine |
| `Blocks` | the plugin's history block by block |
| `ShareArithmetic`, `SylvesterBound`, `SplitDelegation` | the two nested floor divisions, the best bound on what they hand out, and the registry lists they are applied to |
| `VotingGuest`, `Publisher` | the power fold of the guest, and the host's nested loops |
| `MajorityDecision` | the execution decision, against the documented criteria |
| `SupplyBounds`, `RepeatedClaims` | certified power against supply, and exactly which delegation data keeps it there |
| `Token` | the ERC-20 token whose balances are the power |
| `EndToEnd` | what runs with sound proofs store: certified ballots, bounded turnout, and when early execution is final |
| `Realization`, `Departures` | every accepted ballot sequence as a run on one chain, and runs on which the documentation fails |
| `VerifierStack`, `Receipts`, `StructHash`, `VoteMessage`, `SteelEncoding`, `WordNetworks` | router, emergency stop, claims, seals and codecs |

## How the model is set up

* Every state-changing contract is a class whose methods are proved against a step function on a value; theorems about whole runs
  are proved about the step functions. `None` is a revert, which undoes everything including the event log.
* A call is a tree. An `Execute` carries the calls that its dispatched actions make back into the plugin, and a `Frame` is any other
  contract that makes calls and then succeeds or reverts. Runs therefore include every re-entrancy.
* Solidity arithmetic is checked and reverts. A Rust U256 sum that leaves 256 bits is the outcome `Overflowed`: the arithmetic
  library decides what happens then, and nothing is claimed about it.
* Hash functions are arbitrary functions. Where a result needs them not to collide, it says so for the finitely many inputs that
  were hashed, never for all byte strings.
* The chain, the verifiers, `abi.decode` and the registries are arbitrary functions that a call or a guest can ask.
* What is supposed of proofs is said of the votes that a run submits, in two parts. `SoundRun` is what proof verification gives: if
  a trusted verifier and image accept a vote's proof, then the voting guest certified its journal, in the world of the journal's own
  commitment, on some delegation data, and no U256 sum on the way left 256 bits. `RuledRun` is a separate supposition about that data,
  which the guest does not check: `Any` asks nothing, `Proper` asks that no delegator is listed twice and all have non-empty lists,
  `Conserving` also that none hands out more than it has. That the ballots of a proposal were certified at *its* snapshot is proved.
* A factor `x` with `BoundsPartialSums(x)` is any number that is at least 1 + 1/2 + 1/6 + 1/42 + ... = 1.69103..., for example 61/36
  (`SylvesterBound.SixtyOneThirtySixths`).

## Where the code departs from what it documents

* "Only the latest vote option is tallied" (contracts/MajorityVotingBase.sol:69-70) holds if and only if a replacement carries the power
  it replaces (`LatestVoteTalliedIffSteady`). `GrownBalanceMiscounts` shows another voter's weight vanish otherwise, and
  `GrownBalanceMiscountsOnChain` that this happens with certified votes: the guest certifies two powers for one voter at one snapshot,
  who lists one delegator first and two later (`TwoPowersCertified`).
* `vote` never consults `_canVote`, which would deny late votes, the `None` option and second votes outside replacement mode
  (`VoteIgnoresCanVote`, `DeniedVoteIsAccepted`). Only the guest, which never certifies direction 0
  (methods/guest/src/bin/voting_protocol.rs:194), keeps `None` votes out. `_canExecute` is also true before the start date
  (`ExecutionMeaning`).
* Splitting a delegator's power can hand out more than the power. A list never does, for any power, if and only if the reciprocals of
  its divisors add up to at most one (`ListNeverOverAllocatesIff`), and for a list that names nobody twice if and only if every ratio
  divides the total (`DistinctListConservesIffDividing`). `n` accounts receive at most `n` terms of power + power/2 + power/6 +
  power/42 + ... (`OverAllocationBound`), which is reached for every `n` (`SylvesterSplit`), so 1.69103... is the best factor
  (`BestConstantIff`). An empty list grants everything to everybody (`EmptyListGrantsEverybody`).
* Certified power is not bounded by the supply: the guest lets a voter list a delegator any number of times, and any number of voters
  list a delegator whose list is empty. `RepeatsExceedEverySupply` and `EmptyListExceedsEverySupply` are runs over a supply of one with
  any turnout. All voters stay within the supply in every world if and only if no delegator is listed twice, neither by one voter nor
  by two (`WithinSupplyIffClaimedOnce`); one voter, if and only if the data lists no delegator twice
  (`VoterWithinSupplyIffDistinct`); and where lists are not empty all voters stay within the factor above if and only if no voter
  lists a delegator twice (`WithinFactorIffDistinct`).
* The documented worst-case criterion for early execution, yes > supply - yes - abstain, supposes that the turnout cannot exceed the
  supply. `CriterionFailsWithRemainder` reverses a decision that met it, on proper data: with a supply of 101, a Yes of 51 is followed
  by a No of 100 from a delegator of 100 who split 3 to 2. For a split it is final if and only if what the list hands out fits the
  delegator's power (`CriterionFinalIffConserving`). In general it is final on conserving data (`EarlyExecutionIsFinal`). On proper data
  of any delegators it is final with a margin, 2 yes + abstain > x supply (`EarlyExecutionWithMargin`). Neither covers other data, where the turnout has no bound.
* The documented criteria carry a support threshold and a minimum participation. The early criterion is right for every threshold
  (`EarlySupportIff`), but the coded decision hard-codes one half for both and asks for more than half where the documentation asks for
  at least: against thresholds of one half it differs exactly when half of the supply took part and yes leads (`DecisionAgreesIff`), and
  no setting makes the two agree (`NoSettingAgrees`). The stored threshold is never read (`ExecutionIgnoresThreshold`).
* `createProposal` snapshots the block before it, and at the end of that block the proposal's configuration is still empty
  (`ConfigEmptyAtSnapshot`). A guest that reads the configuration from the block it commits to finds an empty string and aborts, so no
  vote on the proposal could be certified. The results about certified votes take the assets as given, as if this were repaired.
* A U256 sum that leaves 256 bits is visible in the model. If the U256 library wraps around instead, ratios 5, 5 and 2^256 - 5 total 5
  and two accounts would each receive everything; nothing here covers that.
* The publisher panics on an empty registry list that the guest accepts (`HostIsPartial`); otherwise the two agree (`TotalVotingPower`).

## Model

| member | source | states |
|---|---|---|
| BallotLedger.TotalsDecompose | contracts/RiscVotingProtocolPlugin.sol:150-175 | in every accepted ballot sequence, with any balances, each running total is the sum over the voters of the signed effect of that voter's own ballots |
| BallotLedger.InterleavingIrrelevant | contracts/RiscVotingProtocolPlugin.sol:150-175 | two accepted sequences that agree on each voter's own ballots leave the same tally and the same recorded options |
| BallotLedger.ReplayRecordsLastOptions | contracts/RiscVotingProtocolPlugin.sol:154-175 | the stored option of every voter is the option of the latest ballot, and exactly the voters have one |
| BallotLedger.LatestVoteTalliedIffSteady | contracts/MajorityVotingBase.sol:67-70 | every running total equals the recount of latest votes at every moment of an accepted sequence if and only if every replacement carries the power it replaces |
| BallotLedger.ConstantPowersAreSteady | contracts/RiscVotingProtocolPlugin.sol:152-175 | one balance per voter is enough for that condition |
| BallotLedger.OnlyLastVotesMatter | contracts/MajorityVotingBase.sol:67-70 | under that condition the ledger depends only on who voted and what each voter said last |
| BallotLedger.MatchingBallotAcceptance | contracts/RiscVotingProtocolPlugin.sol:156-173 | under that condition a replacement never reverts by underflow, and is accepted exactly when the recount of its option fits a word |
| BallotLedger.GrownBalanceMiscounts | contracts/RiscVotingProtocolPlugin.sol:156-175 | a concrete run in which a grown balance makes five Yes votes of somebody else disappear |
| BallotLedger.TurnoutIsFirstPowers | contracts/RiscVotingProtocolPlugin.sol:152-175 | with directions 1 to 3 and any balances, turnout is the sum over the voters of the power in their first accepted ballot |
| Governance.DatesMeaning | contracts/MajorityVotingBase.sol:590-625 | exactly which dates are accepted: the requested ones or the earliest allowed, never in the past, never too short, never past 64 bits |
| Governance.UpdateMeaning | contracts/MajorityVotingBase.sol:538-582 | exactly when an update succeeds, the permission included, and that it replaces the settings, logs the new ones and changes nothing else |
| Governance.InitializeMeaning | contracts/MajorityVotingBase.sol:538-582 | exactly which settings a plugin can start with, and that it starts with them and without proposals |
| Governance.UpdateGovernsCreation | contracts/RiscVotingProtocolPlugin.sol:87-100 | a proposal created after an update has the verifier, images, configuration, mode and threshold of the update |
| Governance.CreateMeaning | contracts/RiscVotingProtocolPlugin.sol:57-114 | on reachable states, exactly when creation succeeds, that it stores what was asked and what the settings say, snapshots the previous block, logs it, and touches no other proposal |
| Governance.VoteMeaning | contracts/RiscVotingProtocolPlugin.sol:116-183 | exactly when a vote is accepted, and that it changes one voter's option on one proposal |
| Governance.VoteEffect | contracts/RiscVotingProtocolPlugin.sol:150-183 | by direction byte: 1 adds the balance to abstain, 2 to yes, 3 to no, 0 to nothing, after the recorded option gave it back; the option is recorded, the vote is logged, nothing else changes |
| Governance.ExecutionMeaning | contracts/RiscVotingProtocolPlugin.sol:215-256 | exactly when execution may begin, including before the start date and in early-execution mode |
| Governance.ExecutionEffect | contracts/MajorityVotingBase.sol:476-485 | an accepted execution sets the flag and dispatches the proposal's own actions and failure map once, before the DAO runs, and changes nothing else |
| Governance.CallTreeMeaning | contracts/RiscVotingProtocolPlugin.sol:215-256 | an execution succeeds exactly when it begins and the DAO succeeds, a frame exactly when it does; then what was called inside remains, otherwise nothing does |
| Governance.ExecuteDispatchesOnce | contracts/MajorityVotingBase.sol:476-520 | a successful execution, whatever its actions call back, leaves exactly one dispatch, and no journal ever executes the proposal again in any later run |
| Governance.CanVoteMeaning | contracts/RiscVotingProtocolPlugin.sol:186-212 | when `_canVote` allows a vote, in terms of the history of a reachable state |
| Governance.OnlyCreatedIdsAccept | contracts/RiscVotingProtocolPlugin.sol:127-148 | on reachable states an id that was never created takes neither votes nor executions |
| Governance.VoteIgnoresCanVote | contracts/RiscVotingProtocolPlugin.sol:186-212 | each of the three denials is ignored: any accepted vote is accepted alike after the end date, a proved journal that differs only in naming None is accepted, and outside replacement mode the same journal is accepted a second time and leaves the tally as it is |
| Governance.ExecutionIgnoresThreshold | contracts/RiscVotingProtocolPlugin.sol:215-256 | execution begins or reverts alike under every stored support threshold |
| Governance.DirectionRoundTrip | contracts/IMajorityVoting.sol:16-21 | direction bytes 0 to 3 stand for none, abstain, yes and no, and nothing else does |
| Blocks.SnapshotPrecedesCreation | contracts/RiscVotingProtocolPlugin.sol:69-97 | in every history of blocks, re-entrant calls included, a proposal is snapshotted at a block at whose end it did not exist |
| Blocks.ConfigEmptyAtSnapshot | methods/guest/src/bin/voting_protocol.rs:149-156 | so at the end of the block its votes must commit to, its configuration is the empty string |
| Governance.StepKeeps | contracts/MajorityVotingBase.sol:476-520 | every call tree keeps the invariant that the log alone explains settings, terms, tally, options and dispatches of every id |
| Governance.RunKeeps | contracts/MajorityVotingBase.sol:476-520 | the same over every sequence of call trees, and later states keep ids, terms, executed flags and log of earlier ones |
| Governance.ProposalsAreScheduled | contracts/MajorityVotingBase.sol:538-625 | in every run settings stay in bounds and each proposal was created under the settings then in force, starts no earlier than its creation and stays open for at least an hour |
| Governance.TermsNeverChange | contracts/RiscVotingProtocolPlugin.sol:87-113 | no later call, settings updates included, changes what a proposal was created with |
| Governance.DispatchedAtMostOnce | contracts/MajorityVotingBase.sol:476-485 | in every run, however actions re-enter, a proposal's actions are dispatched at most once, exactly when its flag is set, and are those it was created with |
| Governance.ExecutedForever | contracts/MajorityVotingBase.sol:502-520 | from the moment the flag is set, mid-dispatch included, no call tree dispatches again or clears the flag |
| Governance.StoredTallyIsLatestVotes | contracts/RiscVotingProtocolPlugin.sol:150-175 | the latest-vote equivalence for the stored tally of every reachable state, and the stored options |
| Governance.SteadyReplacementNeverUnderflows | contracts/RiscVotingProtocolPlugin.sol:156-173 | on every reachable state with steady powers a power-keeping replacement never reverts by underflow |
| Governance.StoredTurnoutIsFirstPowers | contracts/RiscVotingProtocolPlugin.sol:152-175 | turnout conservation for every reachable state |
| PluginContract.RiscVotingProtocolPlugin.UpdateVotingSettings | contracts/MajorityVotingBase.sol:538-582 | the storage changes as the state machine says, and succeeds exactly for settings within bounds |
| PluginContract.RiscVotingProtocolPlugin.CreateProposal | contracts/RiscVotingProtocolPlugin.sol:57-114 | the storage changes as the state machine says, with the actions pushed one by one, and the next id is returned |
| PluginContract.RiscVotingProtocolPlugin.MoveWeight | contracts/RiscVotingProtocolPlugin.sol:156-173 | the branches debit the recorded option and credit the new one with checked arithmetic, and keep the turnout between real options |
| PluginContract.RiscVotingProtocolPlugin.Vote | contracts/RiscVotingProtocolPlugin.sol:116-183 | the storage changes as the state machine says, or not at all |
| PluginContract.RiscVotingProtocolPlugin.Execute | contracts/RiscVotingProtocolPlugin.sol:215-256 | the flag is set before any nested call runs, and a failing DAO call restores the storage |
| PluginContract.RiscVotingProtocolPlugin.Perform | contracts/RiscVotingProtocolPlugin.sol:57-256 | every call tree changes the storage as the state machine says |
| SylvesterBound.OverAllocationBound | strategies/src/delegation_strategies/split_delegation.rs:64-79 | any n delegates whose ratios fit the total receive at most the first n terms of power + power/2 + power/6 + power/42 + ... |
| SylvesterBound.SylvesterSplit | strategies/src/delegation_strategies/split_delegation.rs:64-79 | for every n there are n ratios and a power that reach this bound exactly |
| SylvesterBound.BestConstantIff | strategies/src/delegation_strategies/split_delegation.rs:64-79 | a number bounds the factor of every split if and only if it bounds every partial sum of 1 + 1/2 + 1/6 + 1/42 + ... |
| SylvesterBound.WithinLimit | strategies/src/delegation_strategies/split_delegation.rs:64-79 | every such number bounds what any delegates receive, strictly for a positive power |
| ShareArithmetic.ShareAtLeastFraction | strategies/src/delegation_strategies/split_delegation.rs:72-79 | a matched delegate receives at least the exact fraction rounded down |
| ShareArithmetic.ShareExactIffDividing | strategies/src/delegation_strategies/split_delegation.rs:72-79 | the share is that fraction for every power if and only if the ratio divides the total |
| ShareArithmetic.NeverOverAllocatesIff | strategies/src/delegation_strategies/split_delegation.rs:64-79 | delegates never receive more than the power, whatever it is, if and only if the reciprocals of their inner quotients, as reals, add up to at most one |
| ShareArithmetic.FullSplitConservesIffDividing | strategies/src/delegation_strategies/split_delegation.rs:64-79 | positive ratios that make up the whole total never over-allocate if and only if every one of them divides it |
| ShareArithmetic.DividingRatiosConserve | strategies/src/delegation_strategies/split_delegation.rs:64-79 | dividing ratios never over-allocate, and leave less than one unit per delegate when they hold the whole total |
| SplitDelegation.ChunksOfPacked | strategies/src/delegation_strategies/split_delegation.rs:37-41 | chunking undoes the concatenation of addresses |
| SplitDelegation.PackedOfChunks | strategies/src/delegation_strategies/split_delegation.rs:37-41 | concatenation undoes chunking of aligned data |
| SplitDelegation.ChunkAt | strategies/src/delegation_strategies/split_delegation.rs:37-41 | chunk i is bytes 20 i to 20 i + 19 |
| SplitDelegation.FindMeaning | strategies/src/delegation_strategies/split_delegation.rs:72-75 | the entry found is the first whose last twenty bytes are the account |
| SplitDelegation.ProcessMeaning | strategies/src/delegation_strategies/split_delegation.rs:25-88 | processing succeeds exactly for aligned data whose delegators are all eligible, and lists them in order with positive divisors that yield their shares |
| SplitDelegation.ProcessAppends | strategies/src/delegation_strategies/split_delegation.rs:33-87 | processing concatenated data succeeds exactly when both parts do and concatenates the delegations |
| SplitDelegation.MatchedRatiosFit | strategies/src/delegation_strategies/split_delegation.rs:72-79 | different accounts match different entries, duplicates in the list included, so matched ratios fit the total |
| SplitDelegation.SplitOverAllocation | strategies/src/delegation_strategies/split_delegation.rs:64-79 | a delegator with a non-empty list hands n accounts at most n terms of power + power/2 + power/6 + ..., and strictly less than x times a positive power for every bound x of 1 + 1/2 + 1/6 + ... |
| SplitDelegation.SplitNeverOverAllocatesIff | strategies/src/delegation_strategies/split_delegation.rs:64-79 | which accounts together can never be handed more than the delegator has: the reciprocals of their divisors add up to at most one |
| SplitDelegation.ListNeverOverAllocatesIff | strategies/src/delegation_strategies/split_delegation.rs:64-79 | which registry lists can never hand out more than the delegator has, duplicate entries included, by the reciprocals over the named accounts |
| SplitDelegation.DistinctListConservesIffDividing | strategies/src/delegation_strategies/split_delegation.rs:64-79 | a list that names nobody twice can never hand out more than the delegator has if and only if every ratio divides the total |
| SplitDelegation.DividingSplitConserves | strategies/src/delegation_strategies/split_delegation.rs:64-79 | lists with dividing ratios conserve the power, from above and, when fully matched, from below |
| SplitDelegation.EmptyListGrantsEverybody | strategies/src/delegation_strategies/split_delegation.rs:57-62 | an empty list pays n accounts n times the power |
| SplitDelegation.TightSplit | strategies/src/delegation_strategies/split_delegation.rs:64-79 | a concrete list on which a power of 42 pays out 71, the most four accounts can receive |
| VotingGuest.AssetPowerMeaning | methods/guest/src/bin/voting_protocol.rs:164-185 | one asset's power is defined exactly when all claims are eligible and the exact sum of shares fits, and is that sum |
| VotingGuest.TotalPowerMeaning | methods/guest/src/bin/voting_protocol.rs:160-189 | the guest's total is defined exactly when all claims are valid for all assets and the exact double sum fits, and is that sum |
| VotingGuest.CommitsIff | methods/guest/src/bin/voting_protocol.rs:160-203 | the guest commits a journal exactly when all claims are valid, the exact double sum of shares is the balance, the balance is positive and the direction is 1, 2 or 3 |
| VotingGuest.NothingToCommit | methods/guest/src/bin/voting_protocol.rs:196-203 | with no claims no journal is committed, whatever the balance |
| VotingGuest.DelegationDataAppends | methods/guest/src/bin/voting_protocol.rs:175-185 | the power of concatenated data is the sum of the powers |
| VotingGuest.DelegatorOrderIrrelevant | methods/guest/src/bin/voting_protocol.rs:160-189 | permuting the listed delegators changes neither success nor total |
| Publisher.ProcessOnHost | apps/src/delegation_strategies/split_delegation.rs:39-75 | the host's loop yields the guest's delegations whenever it yields any, and agrees on failures when lists are non-empty |
| Publisher.AccumulateAsset | apps/src/bin/publisher.rs:173-186 | the inner accumulation loop computes the guest's fold |
| Publisher.TotalVotingPower | apps/src/bin/publisher.rs:155-188 | the host's total is the guest's; the host finishes exactly when the guest does and all listed registry lists are non-empty |
| Publisher.HostIsPartial | apps/src/delegation_strategies/split_delegation.rs:108-119 | the empty list that the guest accepts and the host panics on |
| MajorityDecision.SumSupplyMeaning | methods/guest/src/bin/execution_protocol.rs:59-63 | the computed supply is the exact sum whenever that fits a word |
| MajorityDecision.DecisionMeaning | strategies/src/execution_strategies/majority_voting.rs:8-28 | despite both floor divisions the decision is: twice the turnout exceeds the supply and yes exceeds no |
| MajorityDecision.DecidedWithinCap | contracts/MajorityVotingBase.sol:72-113 | against any cap on the turnout, the tally stays passing for every extension within the cap if and only if enough took part and yes exceeds cap - yes - abstain |
| MajorityDecision.EarlyDecision | contracts/MajorityVotingBase.sol:72-113 | the coded decision passes with all uncast power as No if and only if it passes for every extension of the tally within the supply, if and only if yes > supply - yes - abstain |
| MajorityDecision.EarlySupportIff | contracts/MajorityVotingBase.sol:72-113 | for every support threshold, the documented early criterion holds if and only if the support criterion holds for every extension of the tally within the supply, if and only if it holds in the worst case |
| MajorityDecision.DecisionAgreesIff | contracts/MajorityVotingBase.sol:52-65 | with both thresholds at one half the coded decision differs from the documented one exactly when half of the supply took part and yes leads |
| MajorityDecision.NoSettingAgrees | contracts/MajorityVotingBase.sol:52-65 | for every pair of thresholds there is a tally within the supply on which the two differ |
| MajorityDecision.ReplacementUndoesDecision | contracts/MajorityVotingBase.sol:74-76 | every decided tally can be undone by replacement, which is why the two options exclude each other |
| SupplyBounds.VoterWithinSupply | methods/guest/src/bin/voting_protocol.rs:160-203 | a voter who lists no delegator twice is certified at most the supply the execution guest computes over the same assets |
| SupplyBounds.AllVotersOverAllocation | methods/guest/src/bin/voting_protocol.rs:160-203 | on data without repeated delegators and with non-empty lists, all voters together, sharing delegators in any way, are certified at most x times the total supply for every bound x of 1 + 1/2 + 1/6 + ... |
| SupplyBounds.AllVotersWithinSupply | methods/guest/src/bin/voting_protocol.rs:160-203 | on such data, if the claimed delegators conserve their power, all voters together are certified at most the total supply |
| RepeatedClaims.VoterWithinSupplyIffDistinct | methods/guest/src/bin/voting_protocol.rs:160-203 | a voter's data keeps the certified power within the supply in every backed world if and only if it lists no delegator twice |
| RepeatedClaims.WithinSupplyIffClaimedOnce | methods/guest/src/bin/voting_protocol.rs:160-203 | the voters' data keeps all of them within the supply, or any factor of it below two, in every backed world if and only if no delegator is listed twice, neither by one voter nor by two |
| RepeatedClaims.WithinFactorIffDistinct | methods/guest/src/bin/voting_protocol.rs:160-203 | where lists are not empty, it keeps all of them within x times the supply in every backed world if and only if no voter lists a delegator twice |
| Token.MoveConserves | contracts/ERC20.sol:20-46 | a transfer, to oneself included, succeeds exactly when the sender has the amount, and conserves the sum of balances |
| Token.StepConserves | contracts/ERC20.sol:20-66 | exactly when each transaction succeeds, and that each conserves; crediting never overflows on its own |
| Token.BalancesAfter | contracts/ERC20.sol:20-66 | for every transaction and account the balance afterwards: a transfer between different accounts moves the amount from sender to recipient, one to oneself moves nothing, minting and burning change one account and the supply |
| Token.AllowancesAfter | contracts/ERC20.sol:30-46 | for every transaction and pair the allowance afterwards |
| Token.BalanceIsNetFlow | contracts/ERC20.sol:20-66 | in every run from deployment an account holds what flowed in less what flowed out in the transactions that could be afforded |
| Token.SupplyIsSumOfBalances | contracts/ERC20.sol:20-66 | in every run from deployment the balances add up to the total supply and no set of holders owns more |
| Token.TokenBacksAsset | strategies/src/voting_strategies/balance_of.rs:15-29 | guests that read such a token work over backed power |
| Token.ERC20.Transfer | contracts/ERC20.sol:20-28 | the storage changes as the step function says, or not at all |
| Token.ERC20.TransferFrom | contracts/ERC20.sol:36-46 | likewise, with the allowance reduced first |
| Token.ERC20.Mint | contracts/ERC20.sol:48-62 | likewise |
| Token.ERC20.Burn | contracts/ERC20.sol:54-66 | likewise |
| EndToEnd.SoundRunsCertify | contracts/RiscVotingProtocolPlugin.sol:127-148 | in every run with sound proofs, re-entrant calls included, every ballot recorded on a trusted proposal was certified by the guest, on some data, in the world of the proposal's own snapshot |
| EndToEnd.RuledRunsCertify | contracts/RiscVotingProtocolPlugin.sol:127-148 | the same with certificates on data that obeys the rule the submitted votes obey |
| EndToEnd.RecordedPowersAreGranted | methods/guest/src/bin/voting_protocol.rs:160-203 | in every run with sound proofs each ballot recorded on a trusted proposal is a real option with a positive power, which is the exact sum of what the registry grants on some data |
| EndToEnd.StoredTurnoutWithinSupply | methods/guest/src/bin/voting_protocol.rs:160-214 | in every run with sound proofs on proper data the stored turnout is at most x times the total supply at the snapshot, for every bound x of 1 + 1/2 + 1/6 + ..., and at most that supply on conserving data |
| EndToEnd.StoredTurnoutWithinTokenSupply | contracts/ERC20.sol:20-66 | the same with every asset a token operated in any way since its deployment |
| EndToEnd.EarlyExecutionIsFinal | contracts/MajorityVotingBase.sol:72-117 | on conserving data: once the worst-case criterion holds for the stored tally, the decision passes after every later run without replacements |
| EndToEnd.EarlyExecutionWithMargin | contracts/MajorityVotingBase.sol:72-117 | the same on proper data of any delegators, for a stored tally with 2 yes + abstain > x supply |
| Realization.AcceptedBallotsAreReached | contracts/RiscVotingProtocolPlugin.sol:57-183 | every accepted ballot sequence is what one run on one chain records, prefix by prefix, for any settings within bounds, any snapshot and any hash function |
| Departures.CriterionFinalIffConserving | contracts/MajorityVotingBase.sol:72-117 | for a delegator who splits a power by a list, next to one who passes everything on, the criterion is final in every run on proper data, whatever the other holds, if what the named accounts receive fits the power, and only if, where both fit a word together |
| Departures.CriterionFailsWithRemainder | contracts/MajorityVotingBase.sol:72-117 | a reached run with sound proofs on proper data, without replacements, that reverses a decision which met the documented criterion |
| Departures.RepeatsExceedEverySupply | strategies/src/delegation_strategies/split_delegation.rs:33-62 | for every n, a reached run with sound proofs over a supply of one whose turnout is n, by one voter who lists one delegator n times |
| Departures.EmptyListExceedsEverySupply | strategies/src/delegation_strategies/split_delegation.rs:57-62 | for any set of voters, a reached run with sound proofs over a supply of one in which each is tallied the one unit of a delegator with an empty list |
| Departures.TwoPowersCertified | methods/guest/src/bin/voting_protocol.rs:160-203 | the guest certifies two powers for one voter in one world |
| Departures.GrownBalanceMiscountsOnChain | contracts/RiscVotingProtocolPlugin.sol:156-175 | a reached run of certified votes whose stored tally is not the recount of latest votes |
| Departures.DeniedVoteIsAccepted | contracts/RiscVotingProtocolPlugin.sol:186-212 | a reached state on which a vote is accepted that `_canVote` denies at every time |
| VerifierStack.OneImplementationPerSelector | lib/risc0/RiscZeroVerifierRouter.sol:59-83 | any two successful lookups of a selector, at any two times of any run, return the same verifier |
| VerifierStack.RemovedForever | lib/risc0/RiscZeroVerifierRouter.sol:59-71 | a removed selector never resolves again |
| VerifierStack.OwnerMeaning | lib/risc0/RiscZeroVerifierRouter.sol:49-71 | exactly when the owner can add and remove; an added verifier resolves, a removed selector never resolves again whatever follows, and no other entry or wrapper changes |
| VerifierStack.Marks | lib/risc0/RiscZeroVerifierRouter.sol:26-36 | the unset mark is address zero and the removed mark address one |
| VerifierStack.AddedVerifierAnswers | lib/risc0/RiscZeroVerifierRouter.sol:86-100 | a request to an added selector is answered by its verifier, behind a wrapper by the wrapped verifier while it is not paused |
| VerifierStack.UnroutedRequests | lib/risc0/RiscZeroVerifierRouter.sol:74-90 | short seals and selectors that do not resolve are refused |
| VerifierStack.StopMeaning | lib/risc0/RiscZeroVerifierEmergencyStop.sol:36-71 | exactly when a stop succeeds, and that it pauses one wrapper and changes nothing else |
| VerifierStack.StopRejectsForever | lib/risc0/RiscZeroVerifierEmergencyStop.sol:36-71 | from the guardian's stop on, whatever follows, requests whose selector resolved to the wrapper are refused |
| VerifierStack.StoppedSelectorRejectsForever | lib/risc0/RiscZeroVerifierEmergencyStop.sol:36-71 | once a selector resolves to a stopped wrapper, every later request with it reverts |
| VerifierStack.StoppedSelectorBlocksProposals | contracts/RiscVotingProtocolPlugin.sol:142-148 | a proposal behind the router then accepts neither votes nor executions with that selector |
| VerifierStack.RiscZeroVerifierRouter.AddVerifier | lib/risc0/RiscZeroVerifierRouter.sol:49-57 | the mapping changes as the step function says, or not at all |
| VerifierStack.RiscZeroVerifierRouter.RemoveVerifier | lib/risc0/RiscZeroVerifierRouter.sol:63-71 | likewise |
| VerifierStack.RiscZeroVerifierRouter.GetVerifier | lib/risc0/RiscZeroVerifierRouter.sol:74-83 | unknown and removed selectors revert, others resolve to their entry |
| VerifierStack.RiscZeroVerifierRouter.Verify | lib/risc0/RiscZeroVerifierRouter.sol:86-100 | the method routes requests as the network does |
| VerifierStack.RiscZeroVerifierEmergencyStop.Estop | lib/risc0/RiscZeroVerifierEmergencyStop.sol:41-43 | in every network the contract is deployed in, the guardian's stop is the step of the network; it succeeds at most once, after which nothing is accepted |
| VerifierStack.RiscZeroVerifierEmergencyStop.EstopWithProof | lib/risc0/RiscZeroVerifierEmergencyStop.sol:52-59 | likewise for the circuit breaker: anybody stops it exactly with an accepted receipt for the all-zero claim |
| VerifierStack.RiscZeroVerifierEmergencyStop.Accepts | lib/risc0/RiscZeroVerifierEmergencyStop.sol:61-71 | the contract answers as any network it is deployed in does at its address |
| StructHash.PreimageParses | lib/risc0/StructHash.sol:43-52 | the packed preimage of fewer than 65536 fields parses back to tag, fields and data |
| StructHash.TaggedStructBytes | lib/risc0/StructHash.sol:43-52 | the digest is the hash of tag, fields in order, data and the little-endian field count, and 65536 or more fields revert |
| StructHash.TaggedStructBinds | lib/risc0/StructHash.sol:43-52 | a struct digest determines tag, fields and data unless two preimages collide, and exactly 65536 or more fields revert |
| StructHash.TaggedList | lib/risc0/StructHash.sol:63-69 | the loop from the end computes the right fold of cons |
| StructHash.ListHashBytes | lib/risc0/StructHash.sol:55-69 | the bytes hashed for the empty list, one element and a cons, head before tail |
| StructHash.ListHashInjective | lib/risc0/StructHash.sol:55-69 | lists of any lengths with one digest are equal, if the hash neither collides nor hits zero on what was hashed |
| Receipts.OutputPreimageLayout | lib/risc0/IRiscZeroVerifier.sol:177-188 | the output preimage has the packed layout of the source |
| Receipts.ClaimPreimageLayout | lib/risc0/IRiscZeroVerifier.sol:81-97 | the claim preimage has the packed layout of the source |
| Receipts.OkDigestBytes | lib/risc0/IRiscZeroVerifier.sol:60-97 | the digest of a successful claim, written out in bytes from image and journal digest |
| Receipts.OkDigestBinds | lib/risc0/IRiscZeroVerifier.sol:71-97 | one claim digest belongs to at most one pair of image and journal |
| Receipts.MockAcceptsIff | contracts/mocks/RiscZeroMockVerifier.sol:61-79 | accepted seals are exactly the selector followed by the claim digest |
| Receipts.MockReceiptIsAccepted | contracts/mocks/RiscZeroMockVerifier.sol:81-95 | a mock receipt carries its claim and a seal accepted for it |
| Receipts.SealBindsReceipt | contracts/mocks/RiscZeroMockVerifier.sol:44-79 | one seal fits at most one pair of image and journal |
| Receipts.MockProofsAreAccepted | contracts/mocks/RiscZeroMockVerifier.sol:81-95 | mock receipts are accepted for their claim, directly and through the router |
| Receipts.EncodeSeal | lib/risc0/lib.rs:30-52 | the encoded seal is the selector followed by the seal, fake seals are mock seals at the zero selector, other receipts are refused |
| VoteMessage.EncodeRoundTrip | methods/guest/src/bin/voting_protocol.rs:95-111 | the 93-byte message decodes to exactly its five fields |
| VoteMessage.DecodeRoundTrip | methods/guest/src/bin/voting_protocol.rs:102-111 | every 93-byte string is the encoding of what it decodes to |
| VoteMessage.GuestAndClientAgree | tests/src/lib.rs:7-27 | the guest's digest is the client's, written from the prefix string and the bytes of the five fields, most significant first |
| ByteOrder.BigEndianAt | methods/guest/src/bin/voting_protocol.rs:102-111 | byte i of a big-endian integer has the weight 256^(len - 1 - i) |
| VoteMessage.HashVoteBinds | methods/guest/src/bin/voting_protocol.rs:95-114 | the digest determines the vote unless the hashes of the two votes collide |
| SteelEncoding.EncodeVersionedID | lib/risc0/steel/Steel.sol:97-103 | decoding gives back id and version |
| SteelEncoding.VersionedIDLayout | lib/risc0/steel/Steel.sol:97-103 | in bytes, two of the version and then thirty of the id |
| SteelEncoding.VersionedIDRoundTrip | lib/risc0/steel/Steel.sol:97-116 | a word encodes a pair if and only if it decodes to it |
| WordNetworks.NetworkReverses | lib/risc0/Util.sol:23-44 | the five swap stages reverse the 32-byte list of a word |
| WordNetworks.NetworkInvolution | lib/risc0/Util.sol:23-44 | reversing twice gives the word back |
| WordNetworks.ReverseByteOrderUint256 | lib/risc0/Util.sol:23-44 | the stage-by-stage method computes the byte reversal |
| WordNetworks.ReverseByteOrderUint32 | lib/risc0/Util.sol:50-58 | likewise for four bytes |
| WordNetworks.ReverseByteOrderUint16 | lib/risc0/Util.sol:64-69 | likewise for two bytes |
| WordNetworks.SplitDigestReversesHalves | lib/risc0/groth16/RiscZeroGroth16Verifier.sol:133-140 | each public signal is one half of the digest with its bytes reversed |
| WordNetworks.SplitDigestRoundTrip | lib/risc0/groth16/RiscZeroGroth16Verifier.sol:137-140 | the two halves determine the digest |

## Left out

- The server, the command lines, RPC providers, proving and transaction submission: input and output only.
- Elliptic-curve recovery and the check of the signer, which the guest has commented out; keccak, sha256, the Groth16 pairing and Steel's EVM execution: hash functions and verifiers are parameters.
- The execution journal: its layout is marked as unfinished in the contract and differs from the guest's, so no claim connects an accepted execution proof to the stored tally. `EarlyExecutionIsFinal` is about the decision function on the stored tally.
- Token.TokenBacksAsset: the supply that the guest reads is taken to be the token's `totalSupply`, although strategies/src/voting_strategies/balance_of.rs:11 calls `getTotalSupply`, which contracts/ERC20.sol does not have.
- EndToEnd.SoundRunsCertify: the assets are a parameter rather than what the stored configuration parses to, because at the snapshot block that configuration is still empty (`ConfigEmptyAtSnapshot`).
- Departures.CriterionFinalIffConserving: the only-if half is for powers that fit a word together with what the list hands out, so that the supply of the reversing run fits one.
- SupplyBounds.VoterWithinSupply: asks that no delegator is listed twice, which the guest does not; `VoterWithinSupplyIffDistinct` shows the condition to be exact.
- SupplyBounds.AllVotersOverAllocation: asks for data without repetitions and for non-empty lists, which the guest does not; `WithinFactorIffDistinct` and `WithinSupplyIffClaimedOnce` show the conditions to be exact.
- SupplyBounds.AllVotersWithinSupply: likewise.
- SylvesterBound.SylvesterSplit: its ratios are unbounded numbers; they fit a 256-bit word for n up to 8.
- JSON configuration and the lookup of strategies by name: every asset uses split delegation, and voting power is one function of asset and account.
- `GetPastVotes`: host and guest query different timepoints, so `Publisher.TotalVotingPower` is about one shared power function.
- Plugin setup, permissions, proxies and the Aragon OSx base classes: a permission check is a flag of the call, proposal ids count up, and `initialize` is the settings update on an untouched contract without the once-only guard.
- Calls that the plugin makes to the verifier are views and cannot re-enter.
- Steel.validateCommitment, which the plugin does not call, and `verifier_key_digest`, whose list hash is covered for every list.
- Getters, ERC-165 support, metadata and event subscriptions: easy members only.
