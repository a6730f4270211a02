/** The verifier router and its emergency-stop wrappers (lib/risc0/RiscZeroVerifierRouter.sol and
    lib/risc0/RiscZeroVerifierEmergencyStop.sol), as one network of contracts that owners and guardians operate over
    time. */
module VerifierStack {
  import opened Primitives
  import G = Governance

  /** The value of an entry that has never been set, and the mark of a removed one. */
  const UNSET: Address := ZERO_ADDRESS
  const TOMBSTONE: Address := Zeros(19) + [1]

  /** `verify` and `verifyIntegrity`. */
  datatype Request =
    | Verify(seal: Bytes, imageId: Bytes32, journalDigest: Bytes32)
    | VerifyIntegrity(seal: Bytes, claimDigest: Bytes32)

  /** What the wrapped, unseen verifiers answer at one moment. */
  type Oracle = (Address, Request) -> bool

  datatype EmergencyStop = EmergencyStop(verifier: Address, paused: bool)

  datatype Network = Network(verifiers: map<Selector, Address>, wrappers: map<Address, EmergencyStop>) {
    function Entry(selector: Selector): Address {
      if selector in verifiers then verifiers[selector] else UNSET
    }

    function GetVerifier(selector: Selector): Option<Address> {
      if Entry(selector) == UNSET || Entry(selector) == TOMBSTONE then None else Some(Entry(selector))
    }

    /** A wrapper forwards unless it is paused; any other address answers for itself. */
    predicate Accepts(oracle: Oracle, at: Address, request: Request) {
      if at in wrappers then !wrappers[at].paused && oracle(wrappers[at].verifier, request) else oracle(at, request)
    }

    /** A request to the router. */
    predicate Routed(oracle: Oracle, request: Request) {
      |request.seal| >= 4 && GetVerifier(request.seal[..4]).Some? &&
        Accepts(oracle, GetVerifier(request.seal[..4]).value, request)
    }
  }

  datatype Op =
    | AddVerifier(byOwner: bool, selector: Selector, verifier: Address)
    | RemoveVerifier(byOwner: bool, selector: Selector)
    | Stop(byGuardian: bool, at: Address)
    | StopWithProof(at: Address, seal: Bytes, claimDigest: Bytes32, oracle: Oracle)

  function Pause(n: Network, at: Address): Option<Network> {
    if at !in n.wrappers || n.wrappers[at].paused then None
    else Some(n.(wrappers := n.wrappers[at := n.wrappers[at].(paused := true)]))
  }

  /** One transaction; `None` is a revert. */
  function Step(n: Network, op: Op): Option<Network> {
    match op
    case AddVerifier(byOwner, selector, verifier) =>
      if !byOwner || n.Entry(selector) == TOMBSTONE || n.Entry(selector) != UNSET then None
      else Some(n.(verifiers := n.verifiers[selector := verifier]))
    case RemoveVerifier(byOwner, selector) =>
      if !byOwner || n.Entry(selector) == UNSET then None
      else Some(n.(verifiers := n.verifiers[selector := TOMBSTONE]))
    case Stop(byGuardian, at) => if byGuardian then Pause(n, at) else None
    case StopWithProof(at, seal, claimDigest, oracle) =>
      if claimDigest != ZERO_DIGEST ||
        !n.Accepts(oracle, at, VerifyIntegrity(seal, claimDigest)) then None else Pause(n, at)
  }

  function Run(n: Network, ops: seq<Op>): Network
    decreases |ops|
  {
    if ops == [] then n else Run(Step(n, ops[0]).GetOr(n), ops[1..])
  }

  // ---------- What time can do ----------

  /** An entry moves from unset to a verifier to the tombstone, never back and never sideways; a pause is for good. */
  ghost predicate Ages(n: Network, m: Network) {
    && (forall s: Selector :: m.Entry(s) == n.Entry(s) || n.Entry(s) == UNSET || m.Entry(s) == TOMBSTONE)
    && (forall a | a in n.wrappers :: a in m.wrappers && m.wrappers[a].verifier == n.wrappers[a].verifier
                                      && (n.wrappers[a].paused ==> m.wrappers[a].paused))
  }

  lemma StepAges(n: Network, op: Op)
    requires Step(n, op).Some?
    ensures Ages(n, Step(n, op).value)
  {
    assert TOMBSTONE[19] != UNSET[19];
  }

  lemma AgesTransitive(n: Network, m: Network, k: Network)
    requires Ages(n, m) && Ages(m, k)
    ensures Ages(n, k)
  {
    assert TOMBSTONE[19] != UNSET[19];
    forall s: Selector ensures k.Entry(s) == n.Entry(s) || n.Entry(s) == UNSET || k.Entry(s) == TOMBSTONE {
      assert m.Entry(s) == n.Entry(s) || n.Entry(s) == UNSET || m.Entry(s) == TOMBSTONE;
      assert k.Entry(s) == m.Entry(s) || m.Entry(s) == UNSET || k.Entry(s) == TOMBSTONE;
    }
  }

  lemma {:induction false} RunAges(n: Network, ops: seq<Op>)
    ensures Ages(n, Run(n, ops))
    decreases |ops|
  {
    if ops != [] {
      var next := Step(n, ops[0]).GetOr(n);
      if Step(n, ops[0]).Some? { StepAges(n, ops[0]); }
      RunAges(next, ops[1..]);
      AgesTransitive(n, next, Run(next, ops[1..]));
    }
  }

  /** Each selector resolves to at most one implementation across time. */
  lemma OneImplementationPerSelector(n: Network, ops: seq<Op>, selector: Selector)
    requires n.GetVerifier(selector).Some? && Run(n, ops).GetVerifier(selector).Some?
    ensures n.GetVerifier(selector) == Run(n, ops).GetVerifier(selector)
  {
    RunAges(n, ops);
    assert Run(n, ops).Entry(selector) == n.Entry(selector) || n.Entry(selector) == UNSET ||
           Run(n, ops).Entry(selector) == TOMBSTONE;
  }

  /** A removed selector never resolves again. */
  lemma RemovedForever(n: Network, ops: seq<Op>, selector: Selector)
    requires n.Entry(selector) == TOMBSTONE
    ensures Run(n, ops).GetVerifier(selector) == None
  {
    RunAges(n, ops);
    assert TOMBSTONE[19] != UNSET[19];
    assert Run(n, ops).Entry(selector) == n.Entry(selector) || n.Entry(selector) == UNSET ||
           Run(n, ops).Entry(selector) == TOMBSTONE;
  }

  /** Once a selector has resolved to a stopped wrapper, every later request with that selector reverts, whatever the
      owners do and whatever the wrapped verifier would answer. */
  lemma StoppedSelectorRejectsForever(n: Network, ops: seq<Op>, oracle: Oracle, request: Request)
    requires |request.seal| >= 4 && n.GetVerifier(request.seal[..4]).Some?
    requires var at := n.GetVerifier(request.seal[..4]).value; at in n.wrappers && n.wrappers[at].paused
    ensures !Run(n, ops).Routed(oracle, request)
  {
    RunAges(n, ops);
    if Run(n, ops).GetVerifier(request.seal[..4]).Some? {
      OneImplementationPerSelector(n, ops, request.seal[..4]);
    }
  }

  /** What the owner's two operations need and do. A removal makes the selector unresolvable for good; an added verifier
      resolves; no other entry and no wrapper changes. */
  lemma OwnerMeaning(n: Network, byOwner: bool, selector: Selector, verifier: Address, ops: seq<Op>)
    ensures Step(n, RemoveVerifier(byOwner, selector)).Some? <==> byOwner && n.Entry(selector) != UNSET
    ensures Step(n, RemoveVerifier(byOwner, selector)).Some? ==>
              var m := Step(n, RemoveVerifier(byOwner, selector)).value;
              && Run(n, [RemoveVerifier(byOwner, selector)] + ops).GetVerifier(selector) == None
              && (forall s: Selector | s != selector :: m.Entry(s) == n.Entry(s)) && m.wrappers == n.wrappers
    ensures Step(n, AddVerifier(byOwner, selector, verifier)).Some? <==> byOwner && n.Entry(selector) == UNSET
    ensures Step(n, AddVerifier(byOwner, selector, verifier)).Some? ==>
              var m := Step(n, AddVerifier(byOwner, selector, verifier)).value;
              && m.Entry(selector) == verifier
              && (verifier != UNSET && verifier != TOMBSTONE ==> m.GetVerifier(selector) == Some(verifier))
              && (forall s: Selector | s != selector :: m.Entry(s) == n.Entry(s)) && m.wrappers == n.wrappers
  {
    assert TOMBSTONE[19] != UNSET[19];
    if Step(n, RemoveVerifier(byOwner, selector)).Some? {
      assert ([RemoveVerifier(byOwner, selector)] + ops)[1..] == ops;
      RemovedForever(Step(n, RemoveVerifier(byOwner, selector)).value, ops, selector);
    }
  }

  /** The two marks are the zero address and address one. */
  lemma Marks()
    ensures |UNSET| == |TOMBSTONE| == 20 && UNSET[19] == 0 && TOMBSTONE[19] == 1
    ensures forall i | 0 <= i < 19 :: UNSET[i] == 0 && TOMBSTONE[i] == 0
  {
  }

  /** What a stop needs and does: the guardian, or anybody with a receipt for the all-zero claim that the wrapper
      accepts, pauses a deployed wrapper that is not paused yet, and nothing else changes. */
  lemma StopMeaning(n: Network, at: Address, byGuardian: bool, seal: Bytes, claimDigest: Bytes32, oracle: Oracle)
    ensures Step(n, Op.Stop(byGuardian, at)).Some? <==> byGuardian && at in n.wrappers && !n.wrappers[at].paused
    ensures Step(n, Op.StopWithProof(at, seal, claimDigest, oracle)).Some? <==>
            && claimDigest == Zeros(32) && at in n.wrappers && !n.wrappers[at].paused
            && oracle(n.wrappers[at].verifier, VerifyIntegrity(seal, claimDigest))
    ensures forall op | op in {Op.Stop(byGuardian, at), Op.StopWithProof(at, seal, claimDigest, oracle)} &&
            Step(n, op).Some? ::
              var m := Step(n, op).value;
              && m.verifiers == n.verifiers && m.wrappers.Keys == n.wrappers.Keys
              && m.wrappers[at] == EmergencyStop(n.wrappers[at].verifier, true)
              && forall a | a in n.wrappers && a != at :: m.wrappers[a] == n.wrappers[a]
  {
  }

  /** From the guardian's stop of a wrapper on, whatever follows, requests whose selector resolved to the wrapper are
      refused. */
  lemma StopRejectsForever(n: Network, at: Address, ops: seq<Op>, oracle: Oracle, request: Request)
    requires |request.seal| >= 4 && n.GetVerifier(request.seal[..4]) == Some(at) && at in n.wrappers
    ensures !Run(n, [Op.Stop(true, at)] + ops).Routed(oracle, request)
  {
    var stop := Op.Stop(true, at);
    assert ([stop] + ops)[1..] == ops;
    StoppedSelectorRejectsForever(Step(n, stop).GetOr(n), ops, oracle, request);
  }

  /** A request to a freshly added selector is answered by the verifier that was added, or, behind a wrapper, by the
      wrapped verifier as long as the wrapper is not paused; the request is handed on as it is. */
  lemma AddedVerifierAnswers(n: Network, selector: Selector, verifier: Address, oracle: Oracle, request: Request)
    requires n.Entry(selector) == UNSET && verifier != UNSET && verifier != TOMBSTONE
    requires |request.seal| >= 4 && request.seal[..4] == selector
    ensures Step(n, AddVerifier(true, selector, verifier)).Some?
    ensures var m := Step(n, AddVerifier(true, selector, verifier)).value;
            m.Routed(oracle, request) <==>
            if verifier !in n.wrappers then oracle(verifier, request)
            else !n.wrappers[verifier].paused && oracle(n.wrappers[verifier].verifier, request)
  {
    OwnerMeaning(n, true, selector, verifier, []);
  }

  /** Seals without four bytes and selectors that do not resolve are refused. */
  lemma UnroutedRequests(n: Network, oracle: Oracle, request: Request)
    requires |request.seal| < 4 || n.Entry(request.seal[..4]) in {UNSET, TOMBSTONE}
    ensures !n.Routed(oracle, request)
  {
  }

  /** The plugin's verifier is this router. */
  ghost predicate PluginUses(env: G.Env, router: Address, n: Network, oracle: Oracle) {
    forall seal: Bytes, imageId: Bytes32, digest: Bytes32 ::
      env.verify(router, seal, imageId, digest) <==> n.Routed(oracle, Verify(seal, imageId, digest))
  }

  /** A proposal whose verifier is the router accepts neither votes nor executions that carry a stopped selector, ever
      after. */
  lemma StoppedSelectorBlocksProposals(
    n: Network, ops: seq<Op>, oracle: Oracle, env: G.Env, s: G.State, journalData: Bytes, seal: Bytes)
    requires |seal| >= 4 && n.GetVerifier(seal[..4]).Some?
    requires var at := n.GetVerifier(seal[..4]).value; at in n.wrappers && n.wrappers[at].paused
    requires env.decode(journalData).Some?
    requires PluginUses(env, s.At(env.decode(journalData).value.proposalId).parameters.verifier, Run(n, ops), oracle)
    ensures G.VoteStep(s, env, journalData, seal) == None && G.BeginExecution(s, env, journalData, seal) == None
  {
    var p := s.At(env.decode(journalData).value.proposalId).parameters;
    var digest := env.sha256(journalData);
    StoppedSelectorRejectsForever(n, ops, oracle, Verify(seal, p.votingProtocolImageId, digest));
    StoppedSelectorRejectsForever(n, ops, oracle, Verify(seal, p.executionProtocolImageId, digest));
    assert !env.verify(p.verifier, seal, p.votingProtocolImageId, digest);
    assert !env.verify(p.verifier, seal, p.executionProtocolImageId, digest);
  }

  // ---------- The contracts ----------

  class RiscZeroVerifierRouter {
    var verifiers: map<Selector, Address>

    ghost function View(wrappers: map<Address, EmergencyStop>): Network
      reads this
    {
      Network(verifiers, wrappers)
    }

    constructor ()
      ensures verifiers == map[]
    {
      verifiers := map[];
    }

    function Entry(selector: Selector): Address
      reads this
    {
      if selector in verifiers then verifiers[selector] else UNSET
    }

    method AddVerifier(byOwner: bool, selector: Selector, verifier: Address) returns (ok: bool)
      modifies this
      ensures forall ws :: ok == Step(old(View(ws)), Op.AddVerifier(byOwner, selector, verifier)).Some?
      ensures forall ws ::
              View(ws) == Step(old(View(ws)), Op.AddVerifier(byOwner, selector, verifier)).GetOr(old(View(ws)))
    {
      if !byOwner { return false; }
      if Entry(selector) == TOMBSTONE { return false; }
      if Entry(selector) != UNSET { return false; }
      verifiers := verifiers[selector := verifier];
      return true;
    }

    method RemoveVerifier(byOwner: bool, selector: Selector) returns (ok: bool)
      modifies this
      ensures forall ws :: ok == Step(old(View(ws)), Op.RemoveVerifier(byOwner, selector)).Some?
      ensures forall ws :: View(ws) == Step(old(View(ws)), Op.RemoveVerifier(byOwner, selector)).GetOr(old(View(ws)))
    {
      if !byOwner { return false; }
      if Entry(selector) == UNSET { return false; }
      verifiers := verifiers[selector := TOMBSTONE];
      return true;
    }

    method GetVerifier(selector: Selector) returns (r: Option<Address>)
      ensures forall ws :: r == View(ws).GetVerifier(selector)
    {
      var verifier := Entry(selector);
      if verifier == UNSET { return None; }
      if verifier == TOMBSTONE { return None; }
      return Some(verifier);
    }

    /** `verify` and `verifyIntegrity`: the first four bytes of the seal select the verifier, which gets the request as
        it is. */
    method Verify(wrappers: map<Address, EmergencyStop>, oracle: Oracle, request: Request) returns (ok: bool)
      ensures ok == View(wrappers).Routed(oracle, request)
    {
      if |request.seal| < 4 { return false; }
      var verifier := GetVerifier(request.seal[..4]);
      if verifier.None? { return false; }
      if verifier.value !in wrappers { return oracle(verifier.value, request); }
      var wrapper := wrappers[verifier.value];
      return !wrapper.paused && oracle(wrapper.verifier, request);
    }
  }

  /** A network in which the wrapper `w` is deployed at `at`. */
  function Deployed(n: Network, at: Address, w: EmergencyStop): Network {
    n.(wrappers := n.wrappers[at := w])
  }

  lemma PauseDeployed(n: Network, at: Address, w: EmergencyStop)
    ensures Pause(Deployed(n, at, w), at) == if w.paused then None else Some(Deployed(n, at, w.(paused := true)))
  {
    assert n.wrappers[at := w][at := w.(paused := true)] == n.wrappers[at := w.(paused := true)];
  }

  class RiscZeroVerifierEmergencyStop {
    const verifier: Address
    var paused: bool

    constructor (verifier: Address)
      ensures this.verifier == verifier && !paused
    {
      this.verifier := verifier;
      paused := false;
    }

    function Wrapper(): EmergencyStop
      reads this
    {
      EmergencyStop(verifier, paused)
    }

    ghost function View(n: Network, at: Address): Network
      reads this
    {
      Deployed(n, at, Wrapper())
    }

    /** `verify` and `verifyIntegrity`, as any network the contract is deployed in answers at its address. */
    predicate Accepts(oracle: Oracle, request: Request): (accepted: bool)
      reads this
      ensures forall n: Network, at: Address :: accepted == View(n, at).Accepts(oracle, at, request)
    {
      !paused && oracle(verifier, request)
    }

    /** The guardian's stop: the same step in every network the contract is deployed in. It succeeds at most once, and
        nothing is accepted afterwards. */
    method Estop(byGuardian: bool) returns (ok: bool)
      modifies this
      ensures ok <==> byGuardian && !old(paused)
      ensures paused == (ok || old(paused))
      ensures forall n: Network, at: Address ::
              Step(old(View(n, at)), Op.Stop(byGuardian, at)) == if ok then Some(View(n, at)) else None
      ensures ok ==> forall oracle: Oracle, request: Request :: !Accepts(oracle, request)
    {
      ghost var w := Wrapper();
      if byGuardian && !paused {
        paused := true;
        ok := true;
      } else {
        ok := false;
      }
      forall n: Network, at: Address
        ensures Step(old(View(n, at)), Op.Stop(byGuardian, at)) == if ok then Some(View(n, at)) else None
      {
        PauseDeployed(n, at, w);
      }
    }

    /** The circuit breaker: anybody with an accepted receipt for the all-zero claim. */
    method EstopWithProof(seal: Bytes, claimDigest: Bytes32, oracle: Oracle) returns (ok: bool)
      modifies this
      ensures ok <==> claimDigest == ZERO_DIGEST && old(Accepts(oracle, VerifyIntegrity(seal, claimDigest)))
      ensures paused == (ok || old(paused))
      ensures forall n: Network, at: Address ::
                Step(old(View(n, at)), Op.StopWithProof(at, seal, claimDigest, oracle)) == if ok then Some(View(n, at))
                  else None
      ensures ok ==> forall o: Oracle, request: Request :: !Accepts(o, request)
    {
      ghost var w := Wrapper();
      if claimDigest == ZERO_DIGEST && Accepts(oracle, VerifyIntegrity(seal, claimDigest)) {
        paused := true;
        ok := true;
      } else {
        ok := false;
      }
      forall n: Network, at: Address
        ensures Step(old(View(n, at)), Op.StopWithProof(at, seal, claimDigest, oracle)) == if ok then Some(View(n, at))
                else None
      {
        PauseDeployed(n, at, w);
      }
    }
  }
}
