/** The plugin's history block by block: what the state was at the block that a proposal is snapshotted at. */
module Blocks {
  import opened Primitives
  import opened Governance

  /** Every call of the tree is made in block `n`. */
  ghost predicate InBlock(c: Call, n: nat)
    decreases c, 1
  {
    match c
    case UpdateVotingSettings(env, _) => env.blockNumber == n
    case CreateProposal(env, _, _, _, _) => env.blockNumber == n
    case Vote(env, _, _) => env.blockNumber == n
    case Execute(env, _, _, nested, _) => env.blockNumber == n && AllInBlock(nested, n)
    case Frame(calls, _) => AllInBlock(calls, n)
  }

  ghost predicate AllInBlock(calls: seq<Call>, n: nat)
    decreases calls, 0
  {
    calls == [] || (InBlock(calls[0], n) && AllInBlock(calls[1..], n))
  }

  /** The calls of block `k` are `history[k]`. */
  ghost predicate IsHistory(history: seq<seq<Call>>) {
    forall k | 0 <= k < |history| :: AllInBlock(history[k], k)
  }

  /** The state after the first `b` blocks, that is, at the end of block `b - 1`. */
  function After(start: State, history: seq<seq<Call>>, b: nat): State
    requires b <= |history|
  {
    if b == 0 then start else Run(After(start, history, b - 1), history[b - 1])
  }

  /** What was created between the two states is snapshotted at the block before `n`. */
  ghost predicate NewInBlock(s: State, t: State, n: nat) {
    forall id: nat | s.nextId <= id < t.nextId :: t.At(id).parameters.snapshotBlock + 1 == n
  }

  lemma NewInBlockTransitive(s: State, t: State, u: State, n: nat)
    requires NewInBlock(s, t, n) && NewInBlock(t, u, n) && Evolves(t, u)
    ensures NewInBlock(s, u, n)
  {
    forall id: nat | s.nextId <= id < u.nextId ensures u.At(id).parameters.snapshotBlock + 1 == n {
      if id < t.nextId {
        assert KeepsTerms(t.At(id), u.At(id));
      }
    }
  }

  lemma {:induction false} StepSnapshots(s: State, c: Call, n: nat)
    requires Inv(s) && InBlock(c, n) && Step(s, c).Some?
    ensures NewInBlock(s, Step(s, c).value, n)
    decreases c, 1
  {
    match c
    case UpdateVotingSettings(env, v) =>
    case CreateProposal(env, actions, allowFailureMap, start, end) =>
      CreateMeaning(s, env, actions, allowFailureMap, start, end);
    case Vote(env, journalData, seal) =>
    case Execute(env, journalData, seal, nested, _) =>
      BeginKeeps(s, env, journalData, seal);
      RunSnapshots(BeginExecution(s, env, journalData, seal).value, nested, n);
    case Frame(calls, _) => RunSnapshots(s, calls, n);
  }

  lemma {:induction false} RunSnapshots(s: State, calls: seq<Call>, n: nat)
    requires Inv(s) && AllInBlock(calls, n)
    ensures NewInBlock(s, Run(s, calls), n)
    decreases calls, 0
  {
    if calls != [] {
      var step := Step(s, calls[0]);
      if step.Some? {
        StepSnapshots(s, calls[0], n);
        StepKeeps(s, calls[0]);
        RunSnapshots(step.value, calls[1..], n);
        RunKeeps(step.value, calls[1..]);
        NewInBlockTransitive(s, step.value, Run(step.value, calls[1..]), n);
      } else {
        RunSnapshots(s, calls[1..], n);
      }
    }
  }

  lemma {:induction false} AfterKeeps(start: State, history: seq<seq<Call>>, b: nat)
    requires Inv(start) && b <= |history|
    ensures Inv(After(start, history, b))
    decreases b
  {
    if b > 0 {
      AfterKeeps(start, history, b - 1);
      RunKeeps(After(start, history, b - 1), history[b - 1]);
    }
  }

  /** Every proposal is snapshotted at a block at whose end it did not exist yet, in every history, re-entrant calls
      included. */
  lemma {:induction false} SnapshotPrecedesCreation(start: State, history: seq<seq<Call>>, b: nat, id: nat)
    requires Inv(start) && start.nextId == 0 && IsHistory(history) && b <= |history| &&
             id < After(start, history, b).nextId
    ensures var snapshot: nat := After(start, history, b).At(id).parameters.snapshotBlock;
            snapshot + 1 < b && After(start, history, snapshot + 1).nextId <= id
    decreases b
  {
    var before := After(start, history, b - 1);
    AfterKeeps(start, history, b - 1);
    RunKeeps(before, history[b - 1]);
    RunSnapshots(before, history[b - 1], b - 1);
    if id < before.nextId {
      SnapshotPrecedesCreation(start, history, b - 1, id);
      assert KeepsTerms(before.At(id), After(start, history, b).At(id));
    }
  }

  /** At the end of the block that its votes must commit to, a proposal's configuration is still the empty string, in
      every history of an initialized plugin. A guest that reads the configuration there cannot parse it. */
  lemma ConfigEmptyAtSnapshot(self: Address, v: VotingSettings, history: seq<seq<Call>>, b: nat, id: nat)
    requires Initialize(self, v).Some? && IsHistory(history) && b <= |history|
    requires id < After(Initialize(self, v).value, history, b).nextId
    ensures var start := Initialize(self, v).value;
            var snapshot: nat := After(start, history, b).At(id).parameters.snapshotBlock;
            snapshot + 1 < b && After(start, history, snapshot + 1).At(id).parameters.votingProtocolConfig == ""
  {
    var start := Initialize(self, v).value;
    InitialInv(self, v);
    SnapshotPrecedesCreation(start, history, b, id);
    var snapshot: nat := After(start, history, b).At(id).parameters.snapshotBlock;
    AfterKeeps(start, history, snapshot + 1);
    assert Accounted(After(start, history, snapshot + 1), id);
  }
}
