/** Every accepted ballot sequence is the history of some run on one chain: a plugin is initialized, one proposal is
    created, and one journal is submitted per ballot. What is shown of ballot sequences therefore happens on chain. */
module Realization {
  import opened Primitives
  import opened BallotLedger
  import opened Governance

  /** A plugin, its settings, the snapshot hash and the hash function of the chain, and the ballots to be cast. */
  datatype Script = Script(self: Address, settings: VotingSettings, snapshot: Bytes32, sha256: Bytes -> Bytes32,
    ballots: seq<Ballot>) {
    predicate Valid() {
      SettingsWithinBounds(settings) && settings.verifier != ZERO_ADDRESS && Replay(ballots).Some?
    }

    /** The journal that carries a ballot on the first proposal. */
    function JournalOf(b: Ballot): Journal {
      Journal(Commitment(0, snapshot, ZERO_DIGEST), self, 0, b.voter, b.power, Direction(b.option))
    }

    /** The one chain of the run. Journal bytes of length `i` decode to ballot `i`, nothing else decodes, and proofs are
        accepted. */
    function Chain(): Env {
      Env(0, 1, (n: U256) => snapshot, true,
          (data: Bytes) => if |data| < |ballots| then Some(JournalOf(ballots[|data|])) else None,
          sha256, (verifier: Address, seal: Bytes, imageId: Bytes32, digest: Bytes32) => true)
    }

    function Creation(): Call {
      CreateProposal(Chain(), [], 0, 0, 0)
    }

    function Submission(i: nat): Call {
      Vote(Chain(), Zeros(i), [])
    }

    /** The creation and the first `k` submissions. */
    function Calls(k: nat): (calls: seq<Call>)
      ensures |calls| == k + 1
    {
      if k == 0 then [Creation()] else Calls(k - 1) + [Submission(k - 1)]
    }

    function State(k: nat): Governance.State {
      var untouched := Governance.State(self, settings, map[], 0, []);
      Run(UpdateSettings(untouched, settings).GetOr(untouched), Calls(k))
    }

    /** The first proposal of `s` holds exactly the first `k` ballots. */
    ghost predicate Holds(s: Governance.State, k: nat) {
      && k <= |ballots|
      && s.self == self && s.nextId == 1
      && Ballots(s.log, 0) == ballots[..k]
      && Replay(ballots[..k]) == Some(s.At(0).ledger)
      && !s.At(0).executed
      && s.At(0).parameters.votingMode == settings.votingMode
      && s.At(0).parameters.snapshotBlock == 0
      && s.At(0).parameters.snapshotBlockHash == snapshot
      && s.At(0).parameters.verifier == settings.verifier
      && s.At(0).parameters.votingProtocolImageId == settings.votingProtocolImageId
    }
  }

  lemma RunOne(s: State, c: Call)
    ensures Run(s, [c]) == Step(s, c).GetOr(s)
  {
    assert [c][1..] == [];
  }

  /** A creation in block 1 at time 0 with default dates. */
  lemma CreationAccepted(self: Address, v: VotingSettings, env: Env)
    requires SettingsWithinBounds(v) && env.timestamp == 0 && env.blockNumber == 1 && env.authorized
    ensures Initialize(self, v).Some? && CreateStep(Initialize(self, v).value, env, [], 0, 0, 0).Some?
    ensures var t := CreateStep(Initialize(self, v).value, env, [], 0, 0, 0).value;
            && t.self == self && t.nextId == 1 && Ballots(t.log, 0) == []
            && t.At(0).ledger == EMPTY_LEDGER && !t.At(0).executed
            && t.At(0).parameters.votingMode == v.votingMode
            && t.At(0).parameters.snapshotBlock == 0
            && t.At(0).parameters.snapshotBlockHash == env.blockhash(0)
            && t.At(0).parameters.verifier == v.verifier
            && t.At(0).parameters.votingProtocolImageId == v.votingProtocolImageId
  {
    var s := Initialize(self, v).value;
    InitialInv(self, v);
    assert ValidateDates(v.minDuration, 0, 0, 0) == Some((0, v.minDuration));
    CreateMeaning(s, env, [], 0, 0, 0);
    var t := CreateStep(s, env, [], 0, 0, 0).value;
    assert Accounted(s, 0);
    assert t.log == s.log + [t.log[|s.log|]];
    LogAppended(s.log, t.log[|s.log|], 0);
  }

  lemma CreationHolds(script: Script)
    requires script.Valid()
    ensures Initialize(script.self, script.settings).Some?
    ensures script.Holds(script.State(0), 0)
  {
    CreationAccepted(script.self, script.settings, script.Chain());
    RunOne(Initialize(script.self, script.settings).value, script.Creation());
    assert script.Calls(0) == [script.Creation()] && script.ballots[..0] == [];
  }

  lemma SubmissionAccepted(script: Script, s: State, k: nat)
    requires script.Valid() && script.Holds(s, k) && k < |script.ballots| &&
             Cast(s.At(0).ledger, script.ballots[k]).Some?
    ensures var b := script.ballots[k];
            Step(s, script.Submission(k)) == Some(RecordVote(s, 0, b, Cast(s.At(0).ledger, b).value))
  {
    var b := script.ballots[k];
    assert script.Chain().decode(Zeros(k)) == Some(script.JournalOf(b));
    DirectionRoundTrip(b.option, Direction(b.option));
  }

  /** On a state that holds the first `k` ballots, the next journal is accepted. */
  lemma SubmissionHolds(script: Script, s: State, k: nat)
    requires script.Valid() && script.Holds(s, k) && k < |script.ballots| && Replay(script.ballots[..k + 1]).Some?
    ensures Step(s, script.Submission(k)).Some?
    ensures script.Holds(Step(s, script.Submission(k)).value, k + 1)
  {
    var b := script.ballots[k];
    assert script.ballots[..k + 1] == script.ballots[..k] + [b];
    Appended(script.ballots[..k], b, b.voter);
    SubmissionAccepted(script, s, k);
    LogAppended(s.log, VoteCast(0, b), 0);
  }

  lemma {:induction false} PrefixAccepted(bs: seq<Ballot>, k: nat)
    requires Replay(bs).Some? && k <= |bs|
    ensures Replay(bs[..k]).Some?
    decreases |bs|
  {
    if k < |bs| {
      PrefixAccepted(bs[..|bs| - 1], k);
      assert bs[..|bs| - 1][..k] == bs[..k];
    } else {
      assert bs[..k] == bs;
    }
  }

  /** For any settings within bounds, any snapshot and any hash function, the ballots are recorded one after the other,
      each prefix by a reached state of one run. */
  lemma {:induction false} AcceptedBallotsAreReached(script: Script, k: nat)
    requires script.Valid() && k <= |script.ballots|
    ensures Reached(script.State(k), script.self, script.settings, script.Calls(k))
    ensures script.Holds(script.State(k), k)
    decreases k
  {
    CreationHolds(script);
    if k > 0 {
      AcceptedBallotsAreReached(script, k - 1);
      PrefixAccepted(script.ballots, k);
      SubmissionHolds(script, script.State(k - 1), k - 1);
      var last := [script.Submission(k - 1)];
      RunAppend(Initialize(script.self, script.settings).value, script.Calls(k - 1), last);
      assert last[1..] == [];
    }
  }

  /** Later calls of the run continue earlier ones. */
  lemma {:induction false} CallsContinue(script: Script, j: nat, k: nat)
    requires j <= k
    ensures script.Calls(j) + script.Calls(k)[j + 1..] == script.Calls(k)
    decreases k
  {
    if j < k {
      CallsContinue(script, j, k - 1);
      var prior, last := script.Calls(k - 1), script.Submission(k - 1);
      assert (prior + [last])[j + 1..] == prior[j + 1..] + [last];
    } else {
      assert script.Calls(k)[k + 1..] == [];
    }
  }
}
