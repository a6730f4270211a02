/** The packed ids of lib/risc0/steel/Steel.sol: a 16-bit version above a 240-bit claim id. Words are numbers here:
    shifting by 240 bits is scaling by 2^240, masking the low 240 bits is the remainder, and joining disjoint bits is
    addition. */
module SteelEncoding {
  import opened Primitives
  import opened ByteOrder

  const TWO_240: nat := 0x1_0000_0000_0000_0000_0000_0000_0000_0000_0000_0000_0000_0000_0000_0000_0000

  type U240 = n: nat | n < TWO_240
  type U16 = n: nat | n < 0x1_0000

  /** `encodeVersionedID`. */
  function EncodeVersionedID(id: U240, version: U16): (e: U256)
    ensures DecodeVersionedID(e) == (id, version)
  {
    version * TWO_240 + id
  }

  /** `decodeVersionedID`. */
  function DecodeVersionedID(id: U256): (r: (U240, U16))
    ensures r.1 * TWO_240 + r.0 == id
  {
    (id % TWO_240, id / TWO_240)
  }

  /** In bytes, from the most significant one: two of the version, then thirty of the id. */
  lemma VersionedIDLayout(id: U240, version: U16)
    ensures BigEndian(EncodeVersionedID(id, version), 32) == BigEndian(version, 2) + BigEndian(id, 30)
  {
    WordSizes();
    BigEndianJoins(version, id, 2, 30);
  }

  /** Every word is the encoding of what it decodes to, and no other pair encodes to it. */
  lemma VersionedIDRoundTrip(id: U256, claimId: U240, version: U16)
    ensures EncodeVersionedID(claimId, version) == id <==> DecodeVersionedID(id) == (claimId, version)
  {
  }
}
