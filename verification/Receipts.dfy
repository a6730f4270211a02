/** Receipt claims and their digests (lib/risc0/IRiscZeroVerifier.sol), the mock verifier that accepts them
    (contracts/mocks/RiscZeroMockVerifier.sol) and the seal encoding (lib/risc0/lib.rs). `sha` and `keccak` are
    arbitrary functions. */
module Receipts {
  import opened Primitives
  import opened ByteOrder
  import opened StructHash
  import opened VerifierStack

  datatype SystemExitCode = Halted | Paused | SystemSplit

  datatype ReceiptClaim = ReceiptClaim(
    preStateDigest: Bytes32,
    postStateDigest: Bytes32,
    system: SystemExitCode,
    user: byte,
    input: Bytes32,
    output: Bytes32)

  datatype Output = Output(journalDigest: Bytes32, assumptionsDigest: Bytes32)

  datatype Receipt = Receipt(seal: Bytes, claimDigest: Bytes32)

  function SystemCode(c: SystemExitCode): byte {
    match c
    case Halted => 0
    case Paused => 1
    case SystemSplit => 2
  }

  /** `uint32(code) << 24`, big-endian: the code itself, then three zero bytes. */
  function ExitWord(code: byte): Bytes {
    [code, 0, 0, 0]
  }

  const CLAIM_TAG: string := "risc0.ReceiptClaim"
  const OUTPUT_TAG: string := "risc0.Output"

  /** The preimages are tagged structs, written out field by field in the source. */
  function OutputPreimage(sha: Bytes -> Bytes32, o: Output): Bytes {
    Preimage(sha(Ascii(OUTPUT_TAG)), [o.journalDigest, o.assumptionsDigest], [])
  }

  function ClaimPreimage(sha: Bytes -> Bytes32, c: ReceiptClaim): Bytes {
    Preimage(
      sha(Ascii(CLAIM_TAG)),
      [c.input, c.preStateDigest, c.postStateDigest, c.output],
      ExitWord(SystemCode(c.system)) + ExitWord(c.user))
  }

  /** The packed layout of `OutputLib.digest`: tag, two digests and `uint16(2) << 8`. */
  lemma OutputPreimageLayout(sha: Bytes -> Bytes32, o: Output)
    ensures OutputPreimage(sha, o) == sha(Ascii(OUTPUT_TAG)) + o.journalDigest + o.assumptionsDigest + [2, 0]
  {
    FlatTwo(o.journalDigest, o.assumptionsDigest);
    LengthIsLittleEndian(2);
    var tag := sha(Ascii(OUTPUT_TAG));
    assert tag + (o.journalDigest + o.assumptionsDigest) + [] + [2, 0] ==
           tag + o.journalDigest + o.assumptionsDigest + [2, 0];
  }

  /** The packed layout of `ReceiptClaimLib.digest`: tag, four digests, two exit words and `uint16(4) << 8`. */
  lemma ClaimPreimageLayout(sha: Bytes -> Bytes32, c: ReceiptClaim)
    ensures ClaimPreimage(sha, c) ==
            sha(Ascii(CLAIM_TAG)) + c.input + c.preStateDigest + c.postStateDigest + c.output
            + [match c.system { case Halted => 0 case Paused => 1 case SystemSplit => 2 }, 0, 0, 0]
            + [c.user, 0, 0, 0] + [4, 0]
  {
    FlatTwo(c.postStateDigest, c.output);
    assert [c.input, c.preStateDigest, c.postStateDigest, c.output][1..][1..] == [c.postStateDigest, c.output];
    LengthIsLittleEndian(4);
    var tag, exits := sha(Ascii(CLAIM_TAG)), ExitWord(SystemCode(c.system)) + ExitWord(c.user);
    assert Flat([c.input, c.preStateDigest, c.postStateDigest, c.output]) ==
           c.input + (c.preStateDigest + (c.postStateDigest + c.output));
    assert tag + (c.input + (c.preStateDigest + (c.postStateDigest + c.output))) + exits + [4, 0] ==
           tag + c.input + c.preStateDigest + c.postStateDigest + c.output + ExitWord(SystemCode(c.system)) +
             ExitWord(c.user) + [4, 0];
  }

  const SYSTEM_STATE_ZERO_DIGEST: Bytes32 := [
    0xa3, 0xac, 0xc2, 0x71, 0x17, 0x41, 0x89, 0x96, 0x34, 0x0b, 0x84, 0xe5, 0xa9, 0x0f, 0x3e, 0xf4,
    0xc4, 0x9d, 0x22, 0xc7, 0x9e, 0x44, 0xaa, 0xd8, 0x22, 0xec, 0x9c, 0x31, 0x3e, 0x1e, 0xb8, 0xe2
  ]

  /** `ReceiptClaimLib.ok`. */
  function Ok(sha: Bytes -> Bytes32, imageId: Bytes32, journalDigest: Bytes32): ReceiptClaim {
    ReceiptClaim(imageId, SYSTEM_STATE_ZERO_DIGEST, Halted, 0, ZERO_DIGEST,
      sha(OutputPreimage(sha, Output(journalDigest, ZERO_DIGEST))))
  }

  function OkDigest(sha: Bytes -> Bytes32, imageId: Bytes32, journalDigest: Bytes32): Bytes32 {
    sha(ClaimPreimage(sha, Ok(sha, imageId, journalDigest)))
  }

  lemma TagBytes()
    ensures Ascii(OUTPUT_TAG) == [0x72, 0x69, 0x73, 0x63, 0x30, 0x2E, 0x4F, 0x75, 0x74, 0x70, 0x75, 0x74]
    ensures Ascii(CLAIM_TAG) == [
              0x72, 0x69, 0x73, 0x63, 0x30, 0x2E, 0x52, 0x65, 0x63, 0x65, 0x69, 0x70, 0x74, 0x43, 0x6C, 0x61, 0x69,
                0x6D]
  {
  }

  /** `uint16(n) << 8` after no assumptions. */
  lemma OutputBytes(sha: Bytes -> Bytes32, journalDigest: Bytes32)
    ensures OutputPreimage(sha, Output(journalDigest, ZERO_DIGEST)) ==
            sha([0x72, 0x69, 0x73, 0x63, 0x30, 0x2E, 0x4F, 0x75, 0x74, 0x70, 0x75, 0x74]) + journalDigest + Zeros(32) +
              [2, 0]
  {
    TagBytes();
    OutputPreimageLayout(sha, Output(journalDigest, ZERO_DIGEST));
  }

  /** The digest of the claim that an image ran successfully and committed a journal, byte by byte: the tag, no input,
      the image before, the empty state after, the output without assumptions, exit codes (halted, 0), and the number of
      fields. */
  lemma OkDigestBytes(sha: Bytes -> Bytes32, imageId: Bytes32, journalDigest: Bytes32)
    ensures var outputTag := [0x72, 0x69, 0x73, 0x63, 0x30, 0x2E, 0x4F, 0x75, 0x74, 0x70, 0x75, 0x74];
            var claimTag := [
              0x72, 0x69, 0x73, 0x63, 0x30, 0x2E, 0x52, 0x65, 0x63, 0x65, 0x69, 0x70, 0x74, 0x43, 0x6C, 0x61, 0x69,
                0x6D];
            var emptyState := [
              0xA3, 0xAC, 0xC2, 0x71, 0x17, 0x41, 0x89, 0x96, 0x34, 0x0B, 0x84, 0xE5, 0xA9, 0x0F, 0x3E, 0xF4,
              0xC4, 0x9D, 0x22, 0xC7, 0x9E, 0x44, 0xAA, 0xD8, 0x22, 0xEC, 0x9C, 0x31, 0x3E, 0x1E, 0xB8, 0xE2];
            OkDigest(sha, imageId, journalDigest) ==
            sha(sha(claimTag) + Zeros(32) + imageId + emptyState
                + sha(sha(outputTag) + journalDigest + Zeros(32) + [2, 0])
                + [0, 0, 0, 0] + [0, 0, 0, 0] + [4, 0])
  {
    TagBytes();
    OutputBytes(sha, journalDigest);
    ClaimPreimageLayout(sha, Ok(sha, imageId, journalDigest));
  }

  // ---------- The digest binds the claim ----------

  /** A claim preimage determines its claim. */
  lemma ClaimPreimageInjective(sha: Bytes -> Bytes32, c: ReceiptClaim, d: ReceiptClaim)
    requires ClaimPreimage(sha, c) == ClaimPreimage(sha, d)
    ensures c == d
  {
    var tag := sha(Ascii(CLAIM_TAG));
    var xs, ys := [c.input, c.preStateDigest, c.postStateDigest, c.output],
      [d.input, d.preStateDigest, d.postStateDigest, d.output];
    var p, q := ExitWord(SystemCode(c.system)) + ExitWord(c.user), ExitWord(SystemCode(d.system)) + ExitWord(d.user);
    PreimageParses(tag, xs, p);
    PreimageParses(tag, ys, q);
    assert xs == ys && p == q;
    assert xs[0] == ys[0] && xs[1] == ys[1] && xs[2] == ys[2] && xs[3] == ys[3];
    assert p[0] == q[0] && p[4] == q[4];
  }

  /** Everything hashed to obtain the digest of a successful claim, tags aside. */
  ghost function OkHashed(sha: Bytes -> Bytes32, imageId: Bytes32, journalDigest: Bytes32): set<Bytes> {
    {OutputPreimage(sha, Output(journalDigest, ZERO_DIGEST)), ClaimPreimage(sha, Ok(sha, imageId, journalDigest))}
  }

  /** One digest belongs to at most one pair of image and journal. */
  lemma OkDigestBinds(sha: Bytes -> Bytes32, i1: Bytes32, j1: Bytes32, i2: Bytes32, j2: Bytes32)
    requires CollisionFree(sha, OkHashed(sha, i1, j1) + OkHashed(sha, i2, j2))
    requires OkDigest(sha, i1, j1) == OkDigest(sha, i2, j2)
    ensures i1 == i2 && j1 == j2
  {
    var tag := sha(Ascii(OUTPUT_TAG));
    ClaimPreimageInjective(sha, Ok(sha, i1, j1), Ok(sha, i2, j2));
    PreimageParses(tag, [j1, ZERO_DIGEST], []);
    PreimageParses(tag, [j2, ZERO_DIGEST], []);
    assert [j1, ZERO_DIGEST][0] == [j2, ZERO_DIGEST][0];
  }

  // ---------- The mock verifier ----------

  /** `_verifyIntegrity`; slicing a seal shorter than four bytes reverts. */
  predicate MockAccepts(keccak: Bytes -> Bytes32, selector: Selector, seal: Bytes, claimDigest: Bytes32) {
    |seal| >= 4 && selector == seal[..4] && keccak(seal[4..]) == keccak(claimDigest)
  }

  predicate MockVerifies(
    keccak: Bytes -> Bytes32, sha: Bytes -> Bytes32, selector: Selector, seal: Bytes, imageId: Bytes32,
    journalDigest: Bytes32)
  {
    MockAccepts(keccak, selector, seal, OkDigest(sha, imageId, journalDigest))
  }

  function MockProve(selector: Selector, claimDigest: Bytes32): Receipt {
    Receipt(selector + claimDigest, claimDigest)
  }

  /** Accepted seals are exactly the selector followed by the claim digest. */
  lemma MockAcceptsIff(keccak: Bytes -> Bytes32, selector: Selector, seal: Bytes, claimDigest: Bytes32)
    requires |seal| >= 4 ==> CollisionFree(keccak, {seal[4..], claimDigest})
    ensures MockAccepts(keccak, selector, seal, claimDigest) <==> seal == selector + claimDigest
  {
    if |seal| >= 4 {
      assert seal == seal[..4] + seal[4..];
    }
    if seal == selector + claimDigest {
      assert seal[..4] == selector && seal[4..] == claimDigest;
    }
  }

  /** One seal fits at most one pair of image and journal. */
  lemma SealBindsReceipt(
    keccak: Bytes -> Bytes32, sha: Bytes -> Bytes32, selector: Selector, seal: Bytes, i1: Bytes32, j1: Bytes32,
    i2: Bytes32, j2: Bytes32)
    requires MockVerifies(keccak, sha, selector, seal, i1, j1) && MockVerifies(keccak, sha, selector, seal, i2, j2)
    requires CollisionFree(keccak, {OkDigest(sha, i1, j1), OkDigest(sha, i2, j2)})
    requires CollisionFree(sha, OkHashed(sha, i1, j1) + OkHashed(sha, i2, j2))
    ensures i1 == i2 && j1 == j2
  {
    OkDigestBinds(sha, i1, j1, i2, j2);
  }

  // ---------- Seal encoding ----------

  datatype InnerReceipt =
    | Fake(claimDigest: Bytes32)
    | Groth16(verifierParameters: Bytes32, seal: Bytes)
    | Unsupported

  /** `encode_seal`: the selector, then the seal, appended to a growing vector. */
  method EncodeSeal(receipt: InnerReceipt) returns (r: Option<Bytes>)
    ensures r.None? <==> receipt.Unsupported?
    ensures receipt.Fake? ==> r == Some([0, 0, 0, 0] + receipt.claimDigest)
    ensures receipt.Fake? ==> r == Some(MockProve(Zeros(4), receipt.claimDigest).seal)
    ensures receipt.Groth16? ==>
            |r.value| >= 4 && r.value[..4] == receipt.verifierParameters[..4] && r.value[4..] == receipt.seal
  {
    match receipt {
      case Fake(claimDigest) =>
        var selectorSeal: Bytes := [];
        selectorSeal := selectorSeal + Zeros(4);
        selectorSeal := selectorSeal + claimDigest;
        assert Zeros(4) == [0, 0, 0, 0];
        assert selectorSeal == Zeros(4) + claimDigest;
        return Some(selectorSeal);
      case Groth16(verifierParameters, seal) =>
        var selectorSeal: Bytes := [];
        selectorSeal := selectorSeal + verifierParameters[..4];
        selectorSeal := selectorSeal + seal;
        return Some(selectorSeal);
      case Unsupported =>
        return None;
    }
  }

  /** A mock receipt carries the claim it was made for and a seal that the mock verifier accepts for it. */
  lemma MockReceiptIsAccepted(keccak: Bytes -> Bytes32, selector: Selector, claimDigest: Bytes32)
    ensures var r := MockProve(selector, claimDigest);
            r.claimDigest == claimDigest && r.seal == selector + claimDigest
            && MockAccepts(keccak, selector, r.seal, r.claimDigest)
  {
    var seal := MockProve(selector, claimDigest).seal;
    assert seal[..4] == selector && seal[4..] == claimDigest;
  }

  /** Mock receipts, and fake seals at the zero selector, are accepted for the claim they were made for; behind a router
      with an unwrapped mock verifier at that selector they are routed to it. */
  lemma MockProofsAreAccepted(
    keccak: Bytes -> Bytes32, sha: Bytes -> Bytes32, selector: Selector, imageId: Bytes32, journalDigest: Bytes32,
    n: Network, oracle: Oracle, mock: Address)
    requires n.GetVerifier(selector) == Some(mock) && mock !in n.wrappers
    requires forall seal: Bytes, i: Bytes32, j: Bytes32 ::
               oracle(mock, Verify(seal, i, j)) <==> MockVerifies(keccak, sha, selector, seal, i, j)
    ensures var seal := MockProve(selector, OkDigest(sha, imageId, journalDigest)).seal;
            MockVerifies(keccak, sha, selector, seal, imageId, journalDigest) &&
              n.Routed(oracle, Verify(seal, imageId, journalDigest))
  {
    var digest := OkDigest(sha, imageId, journalDigest);
    var seal := MockProve(selector, digest).seal;
    assert seal[..4] == selector && seal[4..] == digest;
    assert oracle(mock, Verify(seal, imageId, journalDigest));
  }
}
