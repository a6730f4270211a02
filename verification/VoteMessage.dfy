/** The message a voter signs (`hash_vote` in methods/guest/src/bin/voting_protocol.rs, and the client's copy in
    tests/src/lib.rs): a 93-byte big-endian concatenation, hashed, prefixed and hashed again. */
module VoteMessage {
  import opened Primitives
  import opened ByteOrder

  datatype SignedVote = SignedVote(chainId: U64, dao: Address, proposalId: U256, direction: byte, balance: U256)

  function Encode(v: SignedVote): (bs: Bytes)
    ensures |bs| == 93
  {
    BigEndian(v.chainId, 8) + v.dao + BigEndian(v.proposalId, 32) + [v.direction] + BigEndian(v.balance, 32)
  }

  function Decode(bs: Bytes): (nat, Address, nat, byte, nat)
    requires |bs| == 93
  {
    (FromBigEndian(bs[..8]), bs[8..28], FromBigEndian(bs[28..60]), bs[60], FromBigEndian(bs[61..]))
  }

  /** The concatenation has no ambiguity: every field reads back. */
  lemma EncodeRoundTrip(v: SignedVote)
    ensures Decode(Encode(v)) == (v.chainId, v.dao, v.proposalId, v.direction, v.balance)
  {
    WordSizes();
    BigEndianRoundTrip(v.chainId, 8);
    BigEndianRoundTrip(v.proposalId, 32);
    BigEndianRoundTrip(v.balance, 32);
    var bs := Encode(v);
    assert bs[..8] == BigEndian(v.chainId, 8);
    assert bs[8..28] == v.dao;
    assert bs[28..60] == BigEndian(v.proposalId, 32);
    assert bs[61..] == BigEndian(v.balance, 32);
  }

  /** Every 93-byte string is the encoding of what it decodes to. */
  lemma DecodeRoundTrip(bs: Bytes, v: SignedVote)
    requires |bs| == 93 && Decode(bs) == (v.chainId, v.dao, v.proposalId, v.direction, v.balance)
    ensures Encode(v) == bs
  {
    FromBigEndianRoundTrip(bs[..8]);
    FromBigEndianRoundTrip(bs[28..60]);
    FromBigEndianRoundTrip(bs[61..]);
    assert bs == bs[..8] + bs[8..28] + bs[28..60] + [bs[60]] + bs[61..];
  }

  /** The prefix of version 0x45 of ERC-191: 0x19, "Ethereum Signed Message:", a newline and the length "32". */
  const PREFIX: Bytes := [
    0x19, 0x45, 0x74, 0x68, 0x65, 0x72, 0x65, 0x75, 0x6D, 0x20, 0x53, 0x69, 0x67, 0x6E,
    0x65, 0x64, 0x20, 0x4D, 0x65, 0x73, 0x73, 0x61, 0x67, 0x65, 0x3A, 0x0A, 0x33, 0x32
  ]

  function Prefixed(digest: Bytes32): Bytes {
    PREFIX + digest
  }

  /** `hash_vote`. */
  function HashVote(keccak: Bytes -> Bytes32, v: SignedVote): Bytes32 {
    keccak(Prefixed(keccak(Encode(v))))
  }

  // ---------- The client ----------

  /** Byte `i` of a `len`-byte integer, counted from the most significant one. */
  function ByteOf(x: nat, len: nat, i: nat): byte
    requires i < len
  {
    x / Pow256(len - 1 - i) % 256
  }

  function ClientBytes(x: nat, len: nat): Bytes {
    seq(len, i requires 0 <= i < len => ByteOf(x, len, i))
  }

  /** `hash_vote` of tests/src/lib.rs, which a client signs. */
  function ClientHashVote(keccak: Bytes -> Bytes32, v: SignedVote): Bytes32 {
    var message :=
      ClientBytes(v.chainId, 8) + v.dao + ClientBytes(v.proposalId, 32) + [v.direction] + ClientBytes(v.balance, 32);
    keccak([0x19] + Ascii("Ethereum Signed Message:") + [0x0A] + Ascii("32") + keccak(message))
  }

  lemma ClientBytesAreBigEndian(x: nat, len: nat)
    ensures BigEndian(x, len) == ClientBytes(x, len)
  {
    forall i | 0 <= i < len ensures BigEndian(x, len)[i] == ClientBytes(x, len)[i] {
      BigEndianAt(x, len, i);
    }
  }

  lemma PrefixIsPersonalSign()
    ensures PREFIX == [0x19] + Ascii("Ethereum Signed Message:") + [0x0A] + Ascii("32")
  {
    MessageBytes();
    LengthBytes();
  }

  lemma LengthBytes()
    ensures Ascii("32") == [0x33, 0x32]
  {
  }

  lemma MessageBytes()
    ensures Ascii("Ethereum Signed Message:") == [
              0x45, 0x74, 0x68, 0x65, 0x72, 0x65, 0x75, 0x6D, 0x20, 0x53, 0x69, 0x67, 0x6E,
              0x65, 0x64, 0x20, 0x4D, 0x65, 0x73, 0x73, 0x61, 0x67, 0x65, 0x3A]
  {
  }

  /** What the guest recovers the signer from is what the client signs: the digest of the prefixed digest of the five
      fields in order, each integer from its most significant byte on. */
  lemma GuestAndClientAgree(keccak: Bytes -> Bytes32, v: SignedVote)
    ensures HashVote(keccak, v) == ClientHashVote(keccak, v)
  {
    ClientBytesAreBigEndian(v.chainId, 8);
    ClientBytesAreBigEndian(v.proposalId, 32);
    ClientBytesAreBigEndian(v.balance, 32);
    PrefixIsPersonalSign();
  }

  /** Everything hashed for one vote. */
  ghost function VoteHashed(keccak: Bytes -> Bytes32, v: SignedVote): set<Bytes> {
    {Encode(v), Prefixed(keccak(Encode(v)))}
  }

  /** A digest determines the whole vote it was signed for, unless hashing the two votes collides. */
  lemma HashVoteBinds(keccak: Bytes -> Bytes32, v: SignedVote, u: SignedVote)
    requires CollisionFree(keccak, VoteHashed(keccak, v) + VoteHashed(keccak, u))
    requires HashVote(keccak, v) == HashVote(keccak, u)
    ensures v == u
  {
    var p, q := Prefixed(keccak(Encode(v))), Prefixed(keccak(Encode(u)));
    assert p == q;
    assert p[|PREFIX|..] == keccak(Encode(v)) && q[|PREFIX|..] == keccak(Encode(u));
    assert Encode(v) == Encode(u);
    EncodeRoundTrip(v);
    EncodeRoundTrip(u);
  }
}
