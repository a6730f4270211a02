/** The on-chain proposal state machine (contracts/RiscVotingProtocolPlugin.sol and
    contracts/MajorityVotingBase.sol): settings, proposal creation, proof-carrying votes and one-shot
    execution, whose dispatched actions may call back into the plugin in any way.

    A `Call` is a tree: an `Execute` carries the calls made while its actions run, and a `Frame` is any
    other contract that makes calls and then succeeds or reverts. A revert undoes everything below it,
    the event log included. */
module Governance {
  import opened Primitives
  import opened BallotLedger
  import opened Sums
  import SteelEncoding

  const RATIO_BASE: nat := 1_000_000
  const MINUTES_60: nat := 3_600
  const DAYS_365: nat := 31_536_000

  datatype VotingMode = Standard | EarlyExecution | VoteReplacement

  datatype VotingSettings = VotingSettings(
    votingMode: VotingMode,
    supportThreshold: U32,
    minParticipation: U32,
    minDuration: U64,
    minProposerVotingPower: U256,
    votingProtocolConfig: string,
    verifier: Address,
    votingProtocolImageId: Bytes32,
    executionProtocolImageId: Bytes32)

  datatype Parameters = Parameters(
    votingMode: VotingMode,
    supportThreshold: U32,
    startDate: U64,
    endDate: U64,
    snapshotBlock: U64,
    snapshotBlockHash: Bytes32,
    votingProtocolConfig: string,
    verifier: Address,
    votingProtocolImageId: Bytes32,
    executionProtocolImageId: Bytes32)

  datatype Action = Action(to: Address, value: U256, data: Bytes)

  datatype Proposal = Proposal(
    executed: bool,
    parameters: Parameters,
    ledger: Ledger,
    actions: seq<Action>,
    allowFailureMap: U256)

  /** What a storage read returns for an id that was never written. */
  const DEFAULT_PROPOSAL := Proposal(
    false,
    Parameters(Standard, 0, 0, 0, 0, ZERO_DIGEST, "", ZERO_ADDRESS, ZERO_DIGEST, ZERO_DIGEST),
    EMPTY_LEDGER, [], 0)

  datatype Commitment = Commitment(id: U256, digest: Bytes32, configId: Bytes32)

  /** `VotingJournal` and `ExecutionJournal` have the same layout. */
  datatype Journal = Journal(
    commitment: Commitment,
    configContract: Address,
    proposalId: U256,
    voter: Address,
    balance: U256,
    direction: byte)

  /** Everything a call can ask of the chain it runs on. */
  datatype Env = Env(
    timestamp: nat,
    blockNumber: U256,
    blockhash: U256 -> Bytes32,
    authorized: bool,
    decode: Bytes -> Option<Journal>,
    sha256: Bytes -> Bytes32,
    verify: (Address, Bytes, Bytes32, Bytes32) -> bool)

  datatype Event =
    | ProposalCreated(id: nat, timestamp: nat, parameters: Parameters, actions: seq<Action>, allowFailureMap: U256)
    | VoteCast(id: nat, ballot: Ballot)
    | VotingSettingsUpdated(settings: VotingSettings)
    | Dispatched(id: nat, actions: seq<Action>, allowFailureMap: U256)

  datatype State = State(
    self: Address,
    settings: VotingSettings,
    proposals: map<nat, Proposal>,
    nextId: nat,
    log: seq<Event>)
  {
    function At(id: nat): Proposal {
      if id in proposals then proposals[id] else DEFAULT_PROPOSAL
    }
  }

  datatype Call =
    | UpdateVotingSettings(env: Env, settings: VotingSettings)
    | CreateProposal(env: Env, actions: seq<Action>, allowFailureMap: U256, startDate: U64, endDate: U64)
    | Vote(env: Env, journalData: Bytes, seal: Bytes)
    | Execute(env: Env, journalData: Bytes, seal: Bytes, nested: seq<Call>, daoSucceeds: bool)
    | Frame(calls: seq<Call>, succeeds: bool)

  // ---------- Settings and dates ----------

  predicate SettingsWithinBounds(v: VotingSettings) {
    && v.supportThreshold <= RATIO_BASE - 1
    && v.minParticipation <= RATIO_BASE
    && MINUTES_60 <= v.minDuration <= DAYS_365
  }

  function UpdateSettings(s: State, v: VotingSettings): Option<State> {
    if v.supportThreshold > RATIO_BASE - 1 then None
    else if v.minParticipation > RATIO_BASE then None
    else if v.minDuration < MINUTES_60 then None
    else if v.minDuration > DAYS_365 then None
    else Some(s.(settings := v, log := s.log + [VotingSettingsUpdated(v)]))
  }

  /** `initialize` on an untouched contract. */
  function Initialize(self: Address, v: VotingSettings): Option<State> {
    UpdateSettings(State(self, v, map[], 0, []), v)
  }

  /** `_validateProposalDates`: a zero date asks for the default; the sum is a checked uint64 sum. */
  function ValidateDates(minDuration: U64, now: nat, start: U64, end: U64): Option<(U64, U64)> {
    if now > U64_MAX then None
    else if start != 0 && start < now then None
    else
      var startDate := if start == 0 then now else start;
      if startDate + minDuration > U64_MAX then None
      else if end != 0 && end < startDate + minDuration then None
      else Some((startDate, if end == 0 then startDate + minDuration else end))
  }

  // ---------- Creation ----------

  /** The previous block, with the wrap-around of an unchecked subtraction. */
  function SnapshotBlock(blockNumber: U256): U256 {
    if blockNumber == 0 then U256_MAX else blockNumber - 1
  }

  function NewParameters(
    v: VotingSettings, dates: (U64, U64), snapshotBlock: U64, snapshotBlockHash: Bytes32): Parameters
  {
    Parameters(
      v.votingMode, v.supportThreshold, dates.0, dates.1, snapshotBlock, snapshotBlockHash,
      v.votingProtocolConfig, v.verifier, v.votingProtocolImageId, v.executionProtocolImageId)
  }

  /** The writes of `createProposal` to the storage slot of the new id. */
  function NewProposal(
    stored: Proposal, parameters: Parameters, actions: seq<Action>, allowFailureMap: U256): Proposal
  {
    Proposal(
      stored.executed, parameters, stored.ledger, stored.actions + actions,
      if allowFailureMap != 0 then allowFailureMap else stored.allowFailureMap)
  }

  function Enroll(s: State, timestamp: nat, p: Proposal): State {
    s.(proposals := s.proposals[s.nextId := p], nextId := s.nextId + 1,
       log := s.log + [ProposalCreated(s.nextId, timestamp, p.parameters, p.actions, p.allowFailureMap)])
  }

  function CreateStep(
    s: State, env: Env, actions: seq<Action>, allowFailureMap: U256, start: U64, end: U64): Option<State>
  {
    var snapshotBlock := SnapshotBlock(env.blockNumber);
    var dates := ValidateDates(s.settings.minDuration, env.timestamp, start, end);
    if !env.authorized || snapshotBlock > U64_MAX || dates.None? then None
    else
      var parameters := NewParameters(s.settings, dates.value, snapshotBlock, env.blockhash(snapshotBlock));
      Some(Enroll(s, env.timestamp, NewProposal(s.At(s.nextId), parameters, actions, allowFailureMap)))
  }

  // ---------- Voting ----------

  function OptionFromDirection(direction: byte): Option<VoteOption> {
    match direction
    case 0 => Some(Absent)
    case 1 => Some(Abstain)
    case 2 => Some(Yes)
    case 3 => Some(No)
    case _ => None
  }

  function Direction(o: VoteOption): byte {
    match o
    case Absent => 0
    case Abstain => 1
    case Yes => 2
    case No => 3
  }

  lemma DirectionRoundTrip(o: VoteOption, direction: byte)
    ensures OptionFromDirection(direction) == Some(o) <==> direction == Direction(o)
  {
  }

  /** The journal commits to the block the proposal was snapshotted at. */
  predicate CommitsToSnapshot(c: Commitment, p: Parameters) {
    c.digest == p.snapshotBlockHash && SteelEncoding.DecodeVersionedID(c.id).0 == p.snapshotBlock
  }

  /** An external call to an address without code reverts, so the zero address verifies nothing. */
  predicate ProofAccepted(env: Env, verifier: Address, imageId: Bytes32, journalData: Bytes, seal: Bytes) {
    verifier != ZERO_ADDRESS && env.verify(verifier, seal, imageId, env.sha256(journalData))
  }

  function RecordVote(s: State, id: nat, ballot: Ballot, ledger: Ledger): State {
    s.(proposals := s.proposals[id := s.At(id).(ledger := ledger)], log := s.log + [VoteCast(id, ballot)])
  }

  function VoteStep(s: State, env: Env, journalData: Bytes, seal: Bytes): Option<State> {
    var decoded := env.decode(journalData);
    if decoded.None? then None else
    var j := decoded.value;
    var p := s.At(j.proposalId);
    if j.configContract != s.self || !CommitsToSnapshot(j.commitment, p.parameters) then None
    else if !ProofAccepted(env, p.parameters.verifier, p.parameters.votingProtocolImageId, journalData, seal) then None
    else
      var option :- OptionFromDirection(j.direction);
      var ballot := Ballot(j.voter, option, j.balance);
      var ledger :- Cast(p.ledger, ballot);
      Some(RecordVote(s, j.proposalId, ballot, ledger))
  }

  // ---------- Execution ----------

  predicate IsOpen(p: Proposal, now: nat) {
    p.parameters.startDate <= now < p.parameters.endDate && !p.executed
  }

  predicate CanExecute(p: Proposal, now: nat) {
    !p.executed && (IsOpen(p, now) ==> p.parameters.votingMode == EarlyExecution)
  }

  function Dispatch(s: State, id: nat): State {
    s.(proposals := s.proposals[id := s.At(id).(executed := true)],
       log := s.log + [Dispatched(id, s.At(id).actions, s.At(id).allowFailureMap)])
  }

  /** `_execute` up to the moment the DAO is called: the flag is set first. */
  function BeginExecution(s: State, env: Env, journalData: Bytes, seal: Bytes): Option<State> {
    var decoded := env.decode(journalData);
    if decoded.None? then None else
    var j := decoded.value;
    var p := s.At(j.proposalId);
    if j.configContract != s.self || env.timestamp > U64_MAX || !CanExecute(p, env.timestamp) then None
    else if !CommitsToSnapshot(j.commitment, p.parameters) then None
    else if !ProofAccepted(env, p.parameters.verifier, p.parameters.executionProtocolImageId, journalData, seal)
      then None
    else Some(Dispatch(s, j.proposalId))
  }

  // ---------- Runs ----------

  /** One call tree; `None` is a revert of the whole tree. */
  function Step(s: State, c: Call): Option<State>
    decreases c, 1
  {
    match c
    case UpdateVotingSettings(env, v) => if env.authorized then UpdateSettings(s, v) else None
    case CreateProposal(env, actions, allowFailureMap, start, end) =>
      CreateStep(s, env, actions, allowFailureMap, start, end)
    case Vote(env, journalData, seal) => VoteStep(s, env, journalData, seal)
    case Execute(env, journalData, seal, nested, daoSucceeds) =>
      var begun :- BeginExecution(s, env, journalData, seal);
      var ended := Run(begun, nested);
      if daoSucceeds then Some(ended) else None
    case Frame(calls, succeeds) =>
      var ended := Run(s, calls);
      if succeeds then Some(ended) else None
  }

  /** Calls in order; a reverted call leaves no trace. */
  function Run(s: State, calls: seq<Call>): State
    decreases calls, 0
  {
    if calls == [] then s else Run(Step(s, calls[0]).GetOr(s), calls[1..])
  }

  // ---------- Reading the log ----------

  function Ballots(log: seq<Event>, id: nat): seq<Ballot> {
    if log == [] then []
    else
      var e := log[|log| - 1];
      Ballots(log[..|log| - 1], id) + (if e.VoteCast? && e.id == id then [e.ballot] else [])
  }

  /** The action lists handed to the DAO for one proposal, with their failure maps. */
  function Dispatches(log: seq<Event>, id: nat): seq<(seq<Action>, U256)> {
    if log == [] then []
    else
      var e := log[|log| - 1];
      Dispatches(log[..|log| - 1], id) + (if e.Dispatched? && e.id == id then [(e.actions, e.allowFailureMap)] else [])
  }

  function SettingsInForce(log: seq<Event>): Option<VotingSettings> {
    if log == [] then None
    else
      var e := log[|log| - 1];
      if e.VotingSettingsUpdated? then Some(e.settings) else SettingsInForce(log[..|log| - 1])
  }

  /** A creation event and the settings in force just before it. */
  datatype Birth = Birth(timestamp: nat, settings: VotingSettings, parameters: Parameters, actions: seq<Action>,
    allowFailureMap: U256)

  function BirthOf(log: seq<Event>, id: nat): Option<Birth> {
    if log == [] then None
    else
      var e, earlier := log[|log| - 1], log[..|log| - 1];
      if e.ProposalCreated? && e.id == id && SettingsInForce(earlier).Some?
      then Some(Birth(e.timestamp, SettingsInForce(earlier).value, e.parameters, e.actions, e.allowFailureMap))
      else BirthOf(earlier, id)
  }

  lemma LogAppended(log: seq<Event>, e: Event, id: nat)
    ensures Ballots(log + [e], id) ==
            if e.VoteCast? && e.id == id then Ballots(log, id) + [e.ballot] else Ballots(log, id)
    ensures Dispatches(log + [e], id) ==
            if e.Dispatched? && e.id == id then Dispatches(log, id) + [(e.actions, e.allowFailureMap)]
            else Dispatches(log, id)
    ensures SettingsInForce(log + [e]) == if e.VotingSettingsUpdated? then Some(e.settings) else SettingsInForce(log)
    ensures BirthOf(log + [e], id) ==
            if e.ProposalCreated? && e.id == id && SettingsInForce(log).Some?
            then Some(Birth(e.timestamp, SettingsInForce(log).value, e.parameters, e.actions, e.allowFailureMap))
            else BirthOf(log, id)
  {
    assert (log + [e])[..|log|] == log;
  }

  // ---------- The invariant of reachable states ----------

  /** What a stored proposal owes to the settings it was created under. */
  predicate ScheduledUnder(b: Birth) {
    && SettingsWithinBounds(b.settings)
    && b.timestamp <= b.parameters.startDate
    && b.parameters.startDate + b.settings.minDuration <= b.parameters.endDate
    && b.parameters.votingMode == b.settings.votingMode
    && b.parameters.supportThreshold == b.settings.supportThreshold
    && b.parameters.verifier == b.settings.verifier
    && b.parameters.votingProtocolConfig == b.settings.votingProtocolConfig
    && b.parameters.votingProtocolImageId == b.settings.votingProtocolImageId
    && b.parameters.executionProtocolImageId == b.settings.executionProtocolImageId
  }

  /** Storage of one id, explained by the log alone. */
  predicate Accounted(s: State, id: nat) {
    var p, birth := s.At(id), BirthOf(s.log, id);
    && Replay(Ballots(s.log, id)) == Some(p.ledger)
    && Dispatches(s.log, id) == (if p.executed then [(p.actions, p.allowFailureMap)] else [])
    && if id < s.nextId then
         && birth.Some? && ScheduledUnder(birth.value)
         && birth.value.parameters == p.parameters
         && birth.value.actions == p.actions
         && birth.value.allowFailureMap == p.allowFailureMap
       else
         p == DEFAULT_PROPOSAL && Ballots(s.log, id) == []
  }

  ghost predicate Inv(s: State) {
    && SettingsWithinBounds(s.settings)
    && SettingsInForce(s.log) == Some(s.settings)
    && forall id: nat :: Accounted(s, id)
  }

  /** What later states keep of earlier ones. */
  ghost predicate Evolves(s: State, t: State) {
    && t.self == s.self
    && s.nextId <= t.nextId
    && s.log <= t.log
    && forall id: nat | id < s.nextId :: KeepsTerms(s.At(id), t.At(id))
  }

  predicate KeepsTerms(p: Proposal, q: Proposal) {
    && q.parameters == p.parameters
    && q.actions == p.actions
    && q.allowFailureMap == p.allowFailureMap
    && (p.executed ==> q.executed)
  }

  lemma EvolvesTransitive(s: State, t: State, u: State)
    requires Evolves(s, t) && Evolves(t, u)
    ensures Evolves(s, u)
  {
    forall id: nat | id < s.nextId ensures KeepsTerms(s.At(id), u.At(id)) {
      assert KeepsTerms(s.At(id), t.At(id)) && KeepsTerms(t.At(id), u.At(id));
    }
  }

  lemma InitialInv(self: Address, v: VotingSettings)
    requires Initialize(self, v).Some?
    ensures Inv(Initialize(self, v).value)
  {
    var s := Initialize(self, v).value;
    assert s.log == [] + [VotingSettingsUpdated(v)];
    forall id: nat ensures Accounted(s, id) {
      LogAppended([], VotingSettingsUpdated(v), id);
    }
    LogAppended([], VotingSettingsUpdated(v), 0);
  }

  /** An event about something else changes nothing in the account of `k`. */
  lemma StillAccounted(s: State, t: State, e: Event, k: nat)
    requires Accounted(s, k) && t.log == s.log + [e] && t.At(k) == s.At(k) && (k < t.nextId <==> k < s.nextId)
    requires e.VotingSettingsUpdated? || e.id != k
    ensures Accounted(t, k)
  {
    LogAppended(s.log, e, k);
  }

  lemma UpdateKeeps(s: State, v: VotingSettings)
    requires Inv(s) && UpdateSettings(s, v).Some?
    ensures Inv(UpdateSettings(s, v).value) && Evolves(s, UpdateSettings(s, v).value)
  {
    var t := UpdateSettings(s, v).value;
    LogAppended(s.log, VotingSettingsUpdated(v), 0);
    forall id: nat ensures Accounted(t, id) {
      assert Accounted(s, id);
      StillAccounted(s, t, VotingSettingsUpdated(v), id);
    }
  }

  lemma EnrollAccounted(s: State, timestamp: nat, p: Proposal)
    requires Accounted(s, s.nextId) && SettingsInForce(s.log) == Some(s.settings) && !p.executed &&
             p.ledger == EMPTY_LEDGER
    requires ScheduledUnder(Birth(timestamp, s.settings, p.parameters, p.actions, p.allowFailureMap))
    ensures Accounted(Enroll(s, timestamp, p), s.nextId)
  {
    LogAppended(s.log, ProposalCreated(s.nextId, timestamp, p.parameters, p.actions, p.allowFailureMap), s.nextId);
  }

  lemma EnrollKeeps(s: State, timestamp: nat, p: Proposal)
    requires Inv(s) && !p.executed && p.ledger == EMPTY_LEDGER
    requires ScheduledUnder(Birth(timestamp, s.settings, p.parameters, p.actions, p.allowFailureMap))
    ensures Inv(Enroll(s, timestamp, p)) && Evolves(s, Enroll(s, timestamp, p))
  {
    var t, e := Enroll(s, timestamp, p),
      ProposalCreated(s.nextId, timestamp, p.parameters, p.actions, p.allowFailureMap);
    LogAppended(s.log, e, 0);
    forall k: nat ensures Accounted(t, k) {
      assert Accounted(s, k);
      if k == s.nextId { EnrollAccounted(s, timestamp, p); } else { StillAccounted(s, t, e, k); }
    }
  }

  lemma CreateKeeps(s: State, env: Env, actions: seq<Action>, allowFailureMap: U256, start: U64, end: U64)
    requires Inv(s) && CreateStep(s, env, actions, allowFailureMap, start, end).Some?
    ensures Inv(CreateStep(s, env, actions, allowFailureMap, start, end).value)
    ensures Evolves(s, CreateStep(s, env, actions, allowFailureMap, start, end).value)
  {
    assert Accounted(s, s.nextId);
    var dates := ValidateDates(s.settings.minDuration, env.timestamp, start, end).value;
    var block := SnapshotBlock(env.blockNumber);
    var parameters := NewParameters(s.settings, dates, block, env.blockhash(block));
    EnrollKeeps(s, env.timestamp, NewProposal(s.At(s.nextId), parameters, actions, allowFailureMap));
  }

  lemma VoteAccounted(s: State, id: nat, ballot: Ballot, ledger: Ledger)
    requires Accounted(s, id) && id < s.nextId && Cast(s.At(id).ledger, ballot) == Some(ledger)
    ensures Accounted(RecordVote(s, id, ballot, ledger), id)
  {
    LogAppended(s.log, VoteCast(id, ballot), id);
    Appended(Ballots(s.log, id), ballot, ballot.voter);
  }

  lemma RecordKeeps(s: State, id: nat, ballot: Ballot, ledger: Ledger)
    requires Inv(s) && id < s.nextId && Cast(s.At(id).ledger, ballot) == Some(ledger)
    ensures Inv(RecordVote(s, id, ballot, ledger)) && Evolves(s, RecordVote(s, id, ballot, ledger))
  {
    var t, e := RecordVote(s, id, ballot, ledger), VoteCast(id, ballot);
    LogAppended(s.log, e, 0);
    forall k: nat ensures Accounted(t, k) {
      assert Accounted(s, k);
      if k == id { VoteAccounted(s, id, ballot, ledger); } else { StillAccounted(s, t, e, k); }
    }
  }

  lemma DispatchAccounted(s: State, id: nat)
    requires Accounted(s, id) && id < s.nextId && !s.At(id).executed
    ensures Accounted(Dispatch(s, id), id)
  {
    LogAppended(s.log, Dispatched(id, s.At(id).actions, s.At(id).allowFailureMap), id);
  }

  lemma DispatchKeeps(s: State, id: nat)
    requires Inv(s) && id < s.nextId && !s.At(id).executed
    ensures Inv(Dispatch(s, id)) && Evolves(s, Dispatch(s, id))
  {
    var t, e := Dispatch(s, id), Dispatched(id, s.At(id).actions, s.At(id).allowFailureMap);
    LogAppended(s.log, e, 0);
    forall k: nat ensures Accounted(t, k) {
      assert Accounted(s, k);
      if k == id { DispatchAccounted(s, id); } else { StillAccounted(s, t, e, k); }
    }
  }

  /** The zero address verifies nothing, so ids that were never created take neither votes nor executions. */
  lemma OnlyCreatedIdsAccept(s: State, env: Env, journalData: Bytes, seal: Bytes)
    requires Inv(s)
    ensures VoteStep(s, env, journalData, seal).Some? || BeginExecution(s, env, journalData, seal).Some? ==>
              env.decode(journalData).Some? && env.decode(journalData).value.proposalId < s.nextId
  {
    if env.decode(journalData).Some? {
      assert Accounted(s, env.decode(journalData).value.proposalId);
    }
  }

  lemma VoteKeeps(s: State, env: Env, journalData: Bytes, seal: Bytes)
    requires Inv(s) && VoteStep(s, env, journalData, seal).Some?
    ensures Inv(VoteStep(s, env, journalData, seal).value)
    ensures Evolves(s, VoteStep(s, env, journalData, seal).value)
  {
    OnlyCreatedIdsAccept(s, env, journalData, seal);
    var j := env.decode(journalData).value;
    var ballot := Ballot(j.voter, OptionFromDirection(j.direction).value, j.balance);
    RecordKeeps(s, j.proposalId, ballot, Cast(s.At(j.proposalId).ledger, ballot).value);
  }

  lemma BeginKeeps(s: State, env: Env, journalData: Bytes, seal: Bytes)
    requires Inv(s) && BeginExecution(s, env, journalData, seal).Some?
    ensures Inv(BeginExecution(s, env, journalData, seal).value)
    ensures Evolves(s, BeginExecution(s, env, journalData, seal).value)
  {
    OnlyCreatedIdsAccept(s, env, journalData, seal);
    DispatchKeeps(s, env.decode(journalData).value.proposalId);
  }

  /** Every call tree keeps the invariant, whatever its dispatched actions call back. */
  lemma {:induction false} StepKeeps(s: State, c: Call)
    requires Inv(s) && Step(s, c).Some?
    ensures Inv(Step(s, c).value) && Evolves(s, Step(s, c).value)
    decreases c, 1
  {
    match c
    case UpdateVotingSettings(env, v) => UpdateKeeps(s, v);
    case CreateProposal(env, actions, allowFailureMap, start, end) =>
      CreateKeeps(s, env, actions, allowFailureMap, start, end);
    case Vote(env, journalData, seal) => VoteKeeps(s, env, journalData, seal);
    case Execute(env, journalData, seal, nested, _) =>
      BeginKeeps(s, env, journalData, seal);
      var begun := BeginExecution(s, env, journalData, seal).value;
      RunKeeps(begun, nested);
      EvolvesTransitive(s, begun, Run(begun, nested));
    case Frame(calls, _) => RunKeeps(s, calls);
  }

  lemma {:induction false} RunKeeps(s: State, calls: seq<Call>)
    requires Inv(s)
    ensures Inv(Run(s, calls)) && Evolves(s, Run(s, calls))
    decreases calls, 0
  {
    if calls != [] {
      var step := Step(s, calls[0]);
      if step.Some? {
        StepKeeps(s, calls[0]);
        RunKeeps(step.value, calls[1..]);
        EvolvesTransitive(s, step.value, Run(step.value, calls[1..]));
      } else {
        RunKeeps(s, calls[1..]);
      }
    }
  }

  // ---------- What each transaction needs and does ----------

  /** Accepted dates are the requested ones, or the earliest possible where zero was passed; nothing earlier than now
      and nothing shorter than the minimum duration is accepted, and no sum leaves 64 bits. */
  lemma DatesMeaning(minDuration: U64, now: nat, start: U64, end: U64, dates: (U64, U64))
    ensures ValidateDates(minDuration, now, start, end) == Some(dates) <==>
            && now <= dates.0 <= U64_MAX
            && dates.0 + minDuration <= dates.1
            && (dates.0 == start || (start == 0 && dates.0 == now))
            && (dates.1 == end || (end == 0 && dates.1 == dates.0 + minDuration))
            && (start == 0 ==> dates.0 == now)
            && (end == 0 ==> dates.1 == dates.0 + minDuration)
  {
  }

  /** Settings are replaced exactly when the caller is authorized and they are within bounds (the threshold below one
      and the participation at most one, in millionths, and a duration from an hour to a year); nothing else changes. */
  lemma UpdateMeaning(s: State, env: Env, v: VotingSettings)
    ensures Step(s, Call.UpdateVotingSettings(env, v)).Some? <==>
            && env.authorized && v.supportThreshold < 1_000_000 && v.minParticipation <= 1_000_000
            && 60 * 60 <= v.minDuration <= 365 * 24 * 60 * 60
    ensures Step(s, Call.UpdateVotingSettings(env, v)).Some? ==>
              var t := Step(s, Call.UpdateVotingSettings(env, v)).value;
              && t.settings == v && t.log == s.log + [VotingSettingsUpdated(v)]
              && t.self == s.self && t.proposals == s.proposals && t.nextId == s.nextId
  {
  }

  /** A plugin starts with the given settings and without proposals. */
  lemma InitializeMeaning(self: Address, v: VotingSettings)
    ensures Initialize(self, v).Some? <==>
            && v.supportThreshold < 1_000_000 && v.minParticipation <= 1_000_000
            && 60 * 60 <= v.minDuration <= 365 * 24 * 60 * 60
    ensures Initialize(self, v).Some? ==>
              var t := Initialize(self, v).value;
              && t.self == self && t.settings == v && t.nextId == 0 && t.log == [VotingSettingsUpdated(v)]
              && forall id: nat :: t.At(id) == DEFAULT_PROPOSAL
  {
  }

  /** On a reachable state a creation stores exactly what was asked for, snapshots the previous block, and touches no
      other proposal. */
  lemma CreateMeaning(s: State, env: Env, actions: seq<Action>, allowFailureMap: U256, start: U64, end: U64)
    requires Inv(s)
    ensures CreateStep(s, env, actions, allowFailureMap, start, end).Some? <==>
            && env.authorized && 1 <= env.blockNumber <= U64_MAX + 1
            && ValidateDates(s.settings.minDuration, env.timestamp, start, end).Some?
    ensures CreateStep(s, env, actions, allowFailureMap, start, end).Some? ==>
              var t := CreateStep(s, env, actions, allowFailureMap, start, end).value;
              var p := t.At(s.nextId);
              && t.nextId == s.nextId + 1 && t.settings == s.settings && t.self == s.self
              && t.log == s.log + [ProposalCreated(s.nextId, env.timestamp, p.parameters, actions, allowFailureMap)]
              && p.parameters.votingMode == s.settings.votingMode
              && p.parameters.supportThreshold == s.settings.supportThreshold
              && p.parameters.votingProtocolConfig == s.settings.votingProtocolConfig
              && p.parameters.verifier == s.settings.verifier
              && p.parameters.votingProtocolImageId == s.settings.votingProtocolImageId
              && p.parameters.executionProtocolImageId == s.settings.executionProtocolImageId
              && p.actions == actions && p.allowFailureMap == allowFailureMap && !p.executed && p.ledger == EMPTY_LEDGER
              && p.parameters.snapshotBlock + 1 == env.blockNumber
              && p.parameters.snapshotBlockHash == env.blockhash(p.parameters.snapshotBlock)
              && Some((p.parameters.startDate, p.parameters.endDate)) ==
                ValidateDates(s.settings.minDuration, env.timestamp, start, end)
              && forall k: nat | k != s.nextId :: t.At(k) == s.At(k)
  {
    assert Accounted(s, s.nextId);
    assert [] + actions == actions;
  }

  /** A proposal that is created after an update is decided by the verifier, the images and the mode of the update. */
  lemma UpdateGovernsCreation(
    s: State, env: Env, v: VotingSettings, later: Env, actions: seq<Action>, allowFailureMap: U256, start: U64,
    end: U64)
    requires Inv(s) && Step(s, Call.UpdateVotingSettings(env, v)).Some?
    ensures var t := Step(s, Call.UpdateVotingSettings(env, v)).value;
            var created := Step(t, Call.CreateProposal(later, actions, allowFailureMap, start, end));
            created.Some? ==>
              var p := created.value.At(s.nextId).parameters;
              && p.votingMode == v.votingMode && p.supportThreshold == v.supportThreshold && p.verifier == v.verifier
              && p.votingProtocolConfig == v.votingProtocolConfig
              && p.votingProtocolImageId == v.votingProtocolImageId
              && p.executionProtocolImageId == v.executionProtocolImageId
              && p.startDate + v.minDuration <= p.endDate
  {
    var t := Step(s, Call.UpdateVotingSettings(env, v)).value;
    UpdateKeeps(s, v);
    CreateMeaning(t, later, actions, allowFailureMap, start, end);
  }

  /** A vote is accepted exactly when its journal is addressed to this plugin, commits to the proposal's snapshot block
      and hash, is proved for the voting image under the proposal's verifier, names a known direction, and the checked
      tally update succeeds. */
  lemma VoteMeaning(s: State, env: Env, journalData: Bytes, seal: Bytes)
    ensures VoteStep(s, env, journalData, seal).Some? <==>
            && env.decode(journalData).Some?
            && var j := env.decode(journalData).value; var p := s.At(j.proposalId);
            && j.configContract == s.self
            && j.commitment.digest == p.parameters.snapshotBlockHash
            && (exists version: SteelEncoding.U16 ::
              SteelEncoding.EncodeVersionedID(p.parameters.snapshotBlock, version) == j.commitment.id)
            && p.parameters.verifier != ZERO_ADDRESS
            && env.verify(p.parameters.verifier, seal, p.parameters.votingProtocolImageId, env.sha256(journalData))
            && j.direction <= 3
            && Cast(p.ledger, Ballot(j.voter, OptionFromDirection(j.direction).value, j.balance)).Some?
    ensures VoteStep(s, env, journalData, seal).Some? ==>
              var j, t := env.decode(journalData).value, VoteStep(s, env, journalData, seal).value;
              && t.settings == s.settings && t.nextId == s.nextId
              && t.At(j.proposalId).ledger.OptionOf(j.voter) == OptionFromDirection(j.direction).value
              && (forall a: Address | a != j.voter ::
                t.At(j.proposalId).ledger.OptionOf(a) == s.At(j.proposalId).ledger.OptionOf(a))
              && forall k: nat | k != j.proposalId :: t.At(k) == s.At(k)
  {
    if env.decode(journalData).Some? {
      CommitmentMeaning(env.decode(journalData).value.commitment,
        s.At(env.decode(journalData).value.proposalId).parameters);
    }
  }

  /** What an accepted vote does to the tally, by the direction byte of its journal: 1 adds to abstain, 2 to yes, 3 to
      no and 0 to nothing, after the voter's recorded option gave the same balance back. Nothing else changes. */
  lemma VoteEffect(s: State, env: Env, journalData: Bytes, seal: Bytes)
    requires VoteStep(s, env, journalData, seal).Some?
    ensures var j, t := env.decode(journalData).value, VoteStep(s, env, journalData, seal).value;
            var before, after := s.At(j.proposalId).ledger, t.At(j.proposalId).ledger;
            var recorded := before.OptionOf(j.voter);
            && after.tally.abstain == before.tally.abstain - (if recorded == Abstain then j.balance else 0)
                                      + (if j.direction == 1 then j.balance else 0)
            && after.tally.yes == before.tally.yes - (if recorded == Yes then j.balance else 0)
                                  + (if j.direction == 2 then j.balance else 0)
            && after.tally.no == before.tally.no - (if recorded == No then j.balance else 0)
                                 + (if j.direction == 3 then j.balance else 0)
            && (after.OptionOf(j.voter) == Absent <==> j.direction == 0)
            && (after.OptionOf(j.voter) == Abstain <==> j.direction == 1)
            && (after.OptionOf(j.voter) == Yes <==> j.direction == 2)
            && (after.OptionOf(j.voter) == No <==> j.direction == 3)
    ensures var j, t := env.decode(journalData).value, VoteStep(s, env, journalData, seal).value;
            && t.At(j.proposalId) == s.At(j.proposalId).(ledger := t.At(j.proposalId).ledger)
            && t.log == s.log +
              [VoteCast(j.proposalId, Ballot(j.voter, t.At(j.proposalId).ledger.OptionOf(j.voter), j.balance))]
            && t.settings == s.settings && t.nextId == s.nextId && t.self == s.self
  {
    var j := env.decode(journalData).value;
    var l, b := s.At(j.proposalId).ledger, Ballot(j.voter, OptionFromDirection(j.direction).value, j.balance);
    CastMoves(l, b, Abstain);
    CastMoves(l, b, Yes);
    CastMoves(l, b, No);
  }

  lemma CommitmentMeaning(c: Commitment, p: Parameters)
    ensures CommitsToSnapshot(c, p) <==>
            c.digest == p.snapshotBlockHash && exists version: SteelEncoding.U16 ::
              SteelEncoding.EncodeVersionedID(p.snapshotBlock, version) == c.id
  {
    var version := SteelEncoding.DecodeVersionedID(c.id).1;
    SteelEncoding.VersionedIDRoundTrip(c.id, p.snapshotBlock, version);
  }

  /** Execution needs an unexecuted proposal that is outside its voting window (before it included) or in
      early-execution mode, and a proof for the execution image. */
  lemma ExecutionMeaning(s: State, env: Env, journalData: Bytes, seal: Bytes)
    ensures BeginExecution(s, env, journalData, seal).Some? <==>
            && env.decode(journalData).Some?
            && var j := env.decode(journalData).value; var p := s.At(j.proposalId); var now := env.timestamp;
            && j.configContract == s.self && now <= U64_MAX && !p.executed
            && (now < p.parameters.startDate || p.parameters.endDate <= now ||
              p.parameters.votingMode == EarlyExecution)
            && j.commitment.digest == p.parameters.snapshotBlockHash
            && (exists version: SteelEncoding.U16 ::
              SteelEncoding.EncodeVersionedID(p.parameters.snapshotBlock, version) == j.commitment.id)
            && p.parameters.verifier != ZERO_ADDRESS
            && env.verify(p.parameters.verifier, seal, p.parameters.executionProtocolImageId, env.sha256(journalData))
  {
    if env.decode(journalData).Some? {
      CommitmentMeaning(env.decode(journalData).value.commitment,
        s.At(env.decode(journalData).value.proposalId).parameters);
    }
  }

  /** What an accepted execution does before the DAO is called: the flag is set and the proposal's own actions and
      failure map are handed out, once. Nothing else changes. */
  lemma ExecutionEffect(s: State, env: Env, journalData: Bytes, seal: Bytes)
    requires BeginExecution(s, env, journalData, seal).Some?
    ensures var id, t := env.decode(journalData).value.proposalId, BeginExecution(s, env, journalData, seal).value;
            && !s.At(id).executed && t.At(id).executed
            && t.log == s.log + [Dispatched(id, s.At(id).actions, s.At(id).allowFailureMap)]
            && t.At(id).ledger == s.At(id).ledger && t.At(id).parameters == s.At(id).parameters
            && t.At(id).actions == s.At(id).actions && t.At(id).allowFailureMap == s.At(id).allowFailureMap
            && (forall k: nat | k != id :: t.At(k) == s.At(k))
            && t.settings == s.settings && t.nextId == s.nextId && t.self == s.self
  {
  }

  /** When a whole call tree succeeds, and what it leaves. An execution needs the DAO to succeed, and a frame itself;
      otherwise nothing that happened inside them remains. */
  lemma CallTreeMeaning(
    s: State, env: Env, journalData: Bytes, seal: Bytes, nested: seq<Call>, succeeds: bool, rest: seq<Call>)
    ensures var begun, c := BeginExecution(s, env, journalData, seal),
            Execute(env, journalData, seal, nested, succeeds);
            && (Step(s, c).Some? <==> begun.Some? && succeeds)
            && (begun.Some? && succeeds ==> Run(s, [c] + rest) == Run(Run(begun.value, nested), rest))
            && (begun.None? || !succeeds ==> Run(s, [c] + rest) == Run(s, rest))
    ensures var c := Frame(nested, succeeds);
            && (Step(s, c).Some? <==> succeeds)
            && Run(s, [c] + rest) == if succeeds then Run(s, nested + rest) else Run(s, rest)
  {
    var c, f := Execute(env, journalData, seal, nested, succeeds), Frame(nested, succeeds);
    assert ([c] + rest)[1..] == rest && ([f] + rest)[1..] == rest;
    RunAppend(s, nested, rest);
  }

  function WithThreshold(p: Proposal, threshold: U32): Proposal {
    p.(parameters := p.parameters.(supportThreshold := threshold))
  }

  /** The stored support threshold decides nothing: execution begins or reverts alike under any other one. */
  lemma ExecutionIgnoresThreshold(s: State, env: Env, journalData: Bytes, seal: Bytes, id: nat, threshold: U32)
    ensures var t := s.(proposals := s.proposals[id := WithThreshold(s.At(id), threshold)]);
            BeginExecution(t, env, journalData, seal).Some? <==> BeginExecution(s, env, journalData, seal).Some?
  {
  }

  /** `_canVote`, which `vote` never consults. */
  predicate CanVote(p: Proposal, account: Address, option: VoteOption, now: nat) {
    IsOpen(p, now) && option != Absent &&
      (p.ledger.OptionOf(account) == Absent || p.parameters.votingMode == VoteReplacement)
  }

  /** Each of the three denials of `_canVote` is ignored. Any accepted vote is accepted, with the same effect, after the
      proposal's end. A proved journal that differs only in naming the option `None` is accepted as well. And outside
      vote-replacement mode the very same journal is accepted a second time, leaving the tally as it is. */
  lemma VoteIgnoresCanVote(s: State, env: Env, journalData: Bytes, seal: Bytes)
    requires VoteStep(s, env, journalData, seal).Some?
    ensures var j := env.decode(journalData).value;
            var late := env.(timestamp := s.At(j.proposalId).parameters.endDate);
            && VoteStep(s, late, journalData, seal) == VoteStep(s, env, journalData, seal)
            && !CanVote(s.At(j.proposalId), j.voter, OptionFromDirection(j.direction).value, late.timestamp)
    ensures var j := env.decode(journalData).value;
            var p := s.At(j.proposalId);
            forall noneData: Bytes, noneSeal: Bytes ::
              && env.decode(noneData) == Some(j.(direction := 0))
              && ProofAccepted(env, p.parameters.verifier, p.parameters.votingProtocolImageId, noneData, noneSeal) ==>
                && VoteStep(s, env, noneData, noneSeal).Some?
                && forall now: nat :: !CanVote(p, j.voter, OptionFromDirection(0).value, now)
    ensures var j, t := env.decode(journalData).value, VoteStep(s, env, journalData, seal).value;
            t.At(j.proposalId).parameters.votingMode != VoteReplacement && j.direction != 0 ==>
              && VoteStep(t, env, journalData, seal).Some?
              && VoteStep(t, env, journalData, seal).value.At(j.proposalId).ledger == t.At(j.proposalId).ledger
              && !CanVote(t.At(j.proposalId), j.voter, OptionFromDirection(j.direction).value, env.timestamp)
  {
    var j := env.decode(journalData).value;
    RecastIsNeutral(s.At(j.proposalId).ledger, Ballot(j.voter, OptionFromDirection(j.direction).value, j.balance));
    WithdrawalIsAccepted(s.At(j.proposalId).ledger, Ballot(j.voter, OptionFromDirection(j.direction).value, j.balance));
  }

  lemma RecastIsNeutral(l: Ledger, b: Ballot)
    requires Cast(l, b).Some?
    ensures Cast(Cast(l, b).value, b) == Cast(l, b)
  {
    var m := Cast(l, b).value;
    assert m.voters[b.voter := b.option] == m.voters;
  }

  lemma WithdrawalIsAccepted(l: Ledger, b: Ballot)
    requires Cast(l, b).Some?
    ensures Cast(l, b.(option := Absent)).Some?
  {
  }

  // ---------- Theorems over every run ----------

  /** The state after initialization with `v` and the given calls, if initialization does not revert. */
  ghost predicate Reached(s: State, self: Address, v: VotingSettings, calls: seq<Call>) {
    Initialize(self, v).Some? && s == Run(Initialize(self, v).value, calls)
  }

  lemma ReachedInv(s: State, self: Address, v: VotingSettings, calls: seq<Call>)
    requires Reached(s, self, v, calls)
    ensures Inv(s)
  {
    InitialInv(self, v);
    RunKeeps(Initialize(self, v).value, calls);
  }

  lemma {:induction false} RunAppend(s: State, xs: seq<Call>, ys: seq<Call>)
    ensures Run(s, xs + ys) == Run(Run(s, xs), ys)
    decreases |xs|
  {
    if xs == [] {
      assert xs + ys == ys;
    } else {
      assert (xs + ys)[0] == xs[0] && (xs + ys)[1..] == xs[1..] + ys;
      RunAppend(Step(s, xs[0]).GetOr(s), xs[1..], ys);
    }
  }

  /** In every run, re-entrant or not, the settings stay within bounds and every proposal was created under the settings
      then in force, starts no earlier than it was created and stays open for at least an hour. */
  lemma ProposalsAreScheduled(s: State, self: Address, v: VotingSettings, calls: seq<Call>, id: nat)
    requires Reached(s, self, v, calls)
    ensures SettingsWithinBounds(s.settings)
    ensures id < s.nextId ==>
              && BirthOf(s.log, id).Some? && ScheduledUnder(BirthOf(s.log, id).value)
              && BirthOf(s.log, id).value.parameters == s.At(id).parameters
              && BirthOf(s.log, id).value.timestamp <= s.At(id).parameters.startDate
              && s.At(id).parameters.startDate + MINUTES_60 <= s.At(id).parameters.endDate
    ensures id >= s.nextId ==> s.At(id) == DEFAULT_PROPOSAL
  {
    ReachedInv(s, self, v, calls);
    assert Accounted(s, id);
  }

  /** Later calls, settings updates included, never change what a proposal was created with. */
  lemma TermsNeverChange(
    s: State, t: State, self: Address, v: VotingSettings, before: seq<Call>, after: seq<Call>, id: nat)
    requires Reached(s, self, v, before) && Reached(t, self, v, before + after) && id < s.nextId
    ensures KeepsTerms(s.At(id), t.At(id))
  {
    ReachedInv(s, self, v, before);
    RunAppend(Initialize(self, v).value, before, after);
    RunKeeps(s, after);
  }

  /** Whatever the dispatched actions call back, a proposal's actions are handed to the DAO at most once, exactly when
      its flag is set, and they are the actions and failure map it was created with. */
  lemma DispatchedAtMostOnce(s: State, self: Address, v: VotingSettings, calls: seq<Call>, id: nat)
    requires Reached(s, self, v, calls)
    ensures |Dispatches(s.log, id)| <= 1
    ensures |Dispatches(s.log, id)| == 1 <==> s.At(id).executed
    ensures s.At(id).executed ==>
              BirthOf(s.log, id).Some? &&
                Dispatches(s.log, id) == [(BirthOf(s.log, id).value.actions, BirthOf(s.log, id).value.allowFailureMap)]
  {
    ReachedInv(s, self, v, calls);
    assert Accounted(s, id);
  }

  /** From the moment the flag is set, also in the middle of the dispatch, no call tree hands the proposal to the DAO
      again and the flag never goes back. */
  lemma ExecutedForever(s: State, calls: seq<Call>, id: nat)
    requires Inv(s) && s.At(id).executed
    ensures Run(s, calls).At(id).executed
    ensures Dispatches(Run(s, calls).log, id) == Dispatches(s.log, id)
  {
    RunKeeps(s, calls);
    var t := Run(s, calls);
    assert Accounted(s, id) && Accounted(t, id);
    assert KeepsTerms(s.At(id), t.At(id));
  }

  /** A successful execution, whatever its actions call back, leaves exactly one dispatch of what the proposal was
      created with, and neither this nor any other journal ever executes the proposal again. */
  lemma ExecuteDispatchesOnce(s: State, env: Env, journalData: Bytes, seal: Bytes, nested: seq<Call>, daoSucceeds: bool)
    requires Inv(s) && Step(s, Execute(env, journalData, seal, nested, daoSucceeds)).Some?
    ensures var id := env.decode(journalData).value.proposalId;
            var t := Step(s, Execute(env, journalData, seal, nested, daoSucceeds)).value;
            && Dispatches(s.log, id) == [] && t.At(id).executed
            && Dispatches(t.log, id) == [(s.At(id).actions, s.At(id).allowFailureMap)]
    ensures var id := env.decode(journalData).value.proposalId;
            var t := Step(s, Execute(env, journalData, seal, nested, daoSucceeds)).value;
            forall calls: seq<Call>, later: Env, data: Bytes, proof: Bytes ::
              later.decode(data).Some? && later.decode(data).value.proposalId == id ==>
                BeginExecution(Run(t, calls), later, data, proof) == None
  {
    var id, begun := env.decode(journalData).value.proposalId, BeginExecution(s, env, journalData, seal).value;
    assert Accounted(s, id);
    ExecutionEffect(s, env, journalData, seal);
    BeginKeeps(s, env, journalData, seal);
    LogAppended(s.log, Dispatched(id, s.At(id).actions, s.At(id).allowFailureMap), id);
    ExecutedForever(begun, nested, id);
    var t := Run(begun, nested);
    RunKeeps(begun, nested);
    forall calls: seq<Call>, later: Env, data: Bytes, proof: Bytes |
      later.decode(data).Some? && later.decode(data).value.proposalId == id
      ensures BeginExecution(Run(t, calls), later, data, proof) == None
    {
      ExecutedForever(t, calls, id);
    }
  }

  /** When `_canVote` would allow a vote, in terms of the history: the proposal is in its window and was not dispatched,
      the option is a real one, and the voter's latest vote on it is none unless votes may be replaced. */
  lemma CanVoteMeaning(
    s: State, self: Address, v: VotingSettings, calls: seq<Call>, id: nat, a: Address, o: VoteOption, now: nat)
    requires Reached(s, self, v, calls)
    ensures CanVote(s.At(id), a, o, now) <==>
            && s.At(id).parameters.startDate <= now < s.At(id).parameters.endDate
            && Dispatches(s.log, id) == []
            && o in {Abstain, Yes, No}
            && (LastOption(Ballots(s.log, id), a) == Absent || s.At(id).parameters.votingMode == VoteReplacement)
  {
    ReachedInv(s, self, v, calls);
    assert Accounted(s, id);
    ReplayRecordsLastOptions(Ballots(s.log, id));
  }

  /** In every run a proposal's totals are always those of its latest votes if and only if no replacement changes
      the power it replaces; then the stored totals are the recount. */
  lemma StoredTallyIsLatestVotes(s: State, self: Address, v: VotingSettings, calls: seq<Call>, id: nat)
    requires Reached(s, self, v, calls)
    ensures FaithfulThroughout(Ballots(s.log, id)) <==> Steady(Ballots(s.log, id))
    ensures Steady(Ballots(s.log, id)) ==>
            forall o | o != Absent :: s.At(id).ledger.tally.Of(o) == Recount(Ballots(s.log, id), o)
    ensures forall a: Address :: s.At(id).ledger.OptionOf(a) == LastOption(Ballots(s.log, id), a)
  {
    ReachedInv(s, self, v, calls);
    assert Accounted(s, id);
    LatestVoteTalliedIffSteady(Ballots(s.log, id));
    ReplayRecordsLastOptions(Ballots(s.log, id));
    if Steady(Ballots(s.log, id)) { SteadyIsFaithful(Ballots(s.log, id)); }
  }

  /** In every run with steady powers on a proposal, a further vote that keeps its voter's power never reverts by
      underflow; the tally update succeeds exactly when the recount of the chosen total still fits a word. */
  lemma SteadyReplacementNeverUnderflows(
    s: State, self: Address, v: VotingSettings, calls: seq<Call>, id: nat, b: Ballot)
    requires Reached(s, self, v, calls)
    requires Steady(Ballots(s.log, id)) && Matches(Ballots(s.log, id), b)
    ensures Debit(s.At(id).ledger.tally, s.At(id).ledger.OptionOf(b.voter), b.power).Some?
    ensures Cast(s.At(id).ledger, b).Some? <==>
            b.option == Absent || Recount(Ballots(s.log, id) + [b], b.option) <= U256_MAX
  {
    ReachedInv(s, self, v, calls);
    assert Accounted(s, id);
    MatchingBallotAcceptance(Ballots(s.log, id), b);
  }

  /** In every run whose votes on a proposal all have a direction the guest lets through, the turnout is the sum of
      the voters' first accepted powers. */
  lemma StoredTurnoutIsFirstPowers(s: State, self: Address, v: VotingSettings, calls: seq<Call>, id: nat)
    requires Reached(s, self, v, calls) && AllPresent(Ballots(s.log, id))
    ensures s.At(id).ledger.tally.Turnout() == SumOver(Voters(Ballots(s.log, id)), FirstOf(Ballots(s.log, id)))
  {
    ReachedInv(s, self, v, calls);
    assert Accounted(s, id);
    TurnoutIsFirstPowers(Ballots(s.log, id));
  }
}
