/** Bit-level word manipulation: the byte-order networks of lib/risc0/Util.sol and `splitDigest` of
    lib/risc0/groth16/RiscZeroGroth16Verifier.sol. */
module WordNetworks {

  function Low8(v: bv256): bv8 {
    (v & 0xFF) as bv8
  }

  // The bytes of a word, most significant first, in four groups of eight.

  function Group0(v: bv256): (bs: seq<bv8>)
    ensures |bs| == 8
  {
    [Low8(v >> 248), Low8(v >> 240), Low8(v >> 232), Low8(v >> 224), Low8(v >> 216), Low8(v >> 208), Low8(v >> 200),
      Low8(v >> 192)]
  }

  function Group1(v: bv256): (bs: seq<bv8>)
    ensures |bs| == 8
  {
    [Low8(v >> 184), Low8(v >> 176), Low8(v >> 168), Low8(v >> 160), Low8(v >> 152), Low8(v >> 144), Low8(v >> 136),
      Low8(v >> 128)]
  }

  function Group2(v: bv256): (bs: seq<bv8>)
    ensures |bs| == 8
  {
    [Low8(v >> 120), Low8(v >> 112), Low8(v >> 104), Low8(v >> 96), Low8(v >> 88), Low8(v >> 80), Low8(v >> 72),
      Low8(v >> 64)]
  }

  function Group3(v: bv256): (bs: seq<bv8>)
    ensures |bs| == 8
  {
    [Low8(v >> 56), Low8(v >> 48), Low8(v >> 40), Low8(v >> 32), Low8(v >> 24), Low8(v >> 16), Low8(v >> 8), Low8(v)]
  }

  /** The bytes of a word, most significant first, as `bytes32` is laid out. */
  function Bytes256(v: bv256): (bs: seq<bv8>)
    ensures |bs| == 32
  {
    Group0(v) + Group1(v) + Group2(v) + Group3(v)
  }

  function Reversed<T>(xs: seq<T>): (ys: seq<T>)
    ensures |ys| == |xs|
    ensures forall i | 0 <= i < |xs| :: ys[i] == xs[|xs| - 1 - i]
  {
    seq(|xs|, i requires 0 <= i < |xs| => xs[|xs| - 1 - i])
  }

  // The five swap stages of `reverseByteOrderUint256`.

  function Swap1(v: bv256): bv256 {
    ((v & 0xFF00FF00FF00FF00FF00FF00FF00FF00FF00FF00FF00FF00FF00FF00FF00FF00) >> 8)
    | ((v & 0x00FF00FF00FF00FF00FF00FF00FF00FF00FF00FF00FF00FF00FF00FF00FF00FF) << 8)
  }

  function Swap2(v: bv256): bv256 {
    ((v & 0xFFFF0000FFFF0000FFFF0000FFFF0000FFFF0000FFFF0000FFFF0000FFFF0000) >> 16)
    | ((v & 0x0000FFFF0000FFFF0000FFFF0000FFFF0000FFFF0000FFFF0000FFFF0000FFFF) << 16)
  }

  function Swap4(v: bv256): bv256 {
    ((v & 0xFFFFFFFF00000000FFFFFFFF00000000FFFFFFFF00000000FFFFFFFF00000000) >> 32)
    | ((v & 0x00000000FFFFFFFF00000000FFFFFFFF00000000FFFFFFFF00000000FFFFFFFF) << 32)
  }

  function Swap8(v: bv256): bv256 {
    ((v & 0xFFFFFFFFFFFFFFFF0000000000000000FFFFFFFFFFFFFFFF0000000000000000) >> 64)
    | ((v & 0x0000000000000000FFFFFFFFFFFFFFFF0000000000000000FFFFFFFFFFFFFFFF) << 64)
  }

  function Swap16(v: bv256): bv256 {
    (v >> 128) | (v << 128)
  }

  function Network256(v: bv256): bv256 {
    Swap16(Swap8(Swap4(Swap2(Swap1(v)))))
  }

  // Byte `j` of `w` is byte `31 - j` of `v`, eight bytes at a time.

  predicate Mirrored0(v: bv256, w: bv256) {
    && Low8(w >> 248) == Low8(v)
    && Low8(w >> 240) == Low8(v >> 8)
    && Low8(w >> 232) == Low8(v >> 16)
    && Low8(w >> 224) == Low8(v >> 24)
    && Low8(w >> 216) == Low8(v >> 32)
    && Low8(w >> 208) == Low8(v >> 40)
    && Low8(w >> 200) == Low8(v >> 48)
    && Low8(w >> 192) == Low8(v >> 56)
  }

  predicate Mirrored1(v: bv256, w: bv256) {
    && Low8(w >> 184) == Low8(v >> 64)
    && Low8(w >> 176) == Low8(v >> 72)
    && Low8(w >> 168) == Low8(v >> 80)
    && Low8(w >> 160) == Low8(v >> 88)
    && Low8(w >> 152) == Low8(v >> 96)
    && Low8(w >> 144) == Low8(v >> 104)
    && Low8(w >> 136) == Low8(v >> 112)
    && Low8(w >> 128) == Low8(v >> 120)
  }

  predicate Mirrored2(v: bv256, w: bv256) {
    && Low8(w >> 120) == Low8(v >> 128)
    && Low8(w >> 112) == Low8(v >> 136)
    && Low8(w >> 104) == Low8(v >> 144)
    && Low8(w >> 96) == Low8(v >> 152)
    && Low8(w >> 88) == Low8(v >> 160)
    && Low8(w >> 80) == Low8(v >> 168)
    && Low8(w >> 72) == Low8(v >> 176)
    && Low8(w >> 64) == Low8(v >> 184)
  }

  predicate Mirrored3(v: bv256, w: bv256) {
    && Low8(w >> 56) == Low8(v >> 192)
    && Low8(w >> 48) == Low8(v >> 200)
    && Low8(w >> 40) == Low8(v >> 208)
    && Low8(w >> 32) == Low8(v >> 216)
    && Low8(w >> 24) == Low8(v >> 224)
    && Low8(w >> 16) == Low8(v >> 232)
    && Low8(w >> 8) == Low8(v >> 240)
    && Low8(w) == Low8(v >> 248)
  }

  lemma NetworkMirrored0(v: bv256)
    ensures Mirrored0(v, Network256(v))
  {
  }

  lemma NetworkMirrored1(v: bv256)
    ensures Mirrored1(v, Network256(v))
  {
  }

  lemma NetworkMirrored2(v: bv256)
    ensures Mirrored2(v, Network256(v))
  {
  }

  // Byte by byte: as one conjunction the solver does not get through the lowest group.
  lemma NetworkMirrored3(v: bv256)
    ensures Low8(Network256(v) >> 56) == Low8(v >> 192)
    ensures Low8(Network256(v) >> 48) == Low8(v >> 200)
    ensures Low8(Network256(v) >> 40) == Low8(v >> 208)
    ensures Low8(Network256(v) >> 32) == Low8(v >> 216)
    ensures Low8(Network256(v) >> 24) == Low8(v >> 224)
    ensures Low8(Network256(v) >> 16) == Low8(v >> 232)
    ensures Low8(Network256(v) >> 8) == Low8(v >> 240)
    ensures Low8(Network256(v)) == Low8(v >> 248)
  {
  }

  predicate Mirrored(v: bv256, w: bv256) {
    Mirrored0(v, w) && Mirrored1(v, w) && Mirrored2(v, w) && Mirrored3(v, w)
  }

  lemma NetworkMirrors(v: bv256)
    ensures Mirrored(v, Network256(v))
  {
    NetworkMirrored0(v);
    NetworkMirrored1(v);
    NetworkMirrored2(v);
    NetworkMirrored3(v);
  }

  lemma ReversedAppend<T>(xs: seq<T>, ys: seq<T>)
    ensures Reversed(xs + ys) == Reversed(ys) + Reversed(xs)
  {
  }

  lemma ReversedEight<T>(x0: T, x1: T, x2: T, x3: T, x4: T, x5: T, x6: T, x7: T)
    ensures Reversed([x0, x1, x2, x3, x4, x5, x6, x7]) == [x7, x6, x5, x4, x3, x2, x1, x0]
  {
  }

  lemma ReversedFour<T>(a: seq<T>, b: seq<T>, c: seq<T>, d: seq<T>)
    ensures Reversed(a + b + c + d) == Reversed(d) + Reversed(c) + Reversed(b) + Reversed(a)
  {
    ReversedAppend(a + b + c, d);
    ReversedAppend(a + b, c);
    ReversedAppend(a, b);
  }

  lemma MirroredGroup0(v: bv256, w: bv256)
    requires Mirrored0(v, w)
    ensures Group0(w) == Reversed(Group3(v))
  {
    ReversedEight(Low8(v >> 56), Low8(v >> 48), Low8(v >> 40), Low8(v >> 32), Low8(v >> 24), Low8(v >> 16),
      Low8(v >> 8), Low8(v));
  }

  lemma MirroredGroup1(v: bv256, w: bv256)
    requires Mirrored1(v, w)
    ensures Group1(w) == Reversed(Group2(v))
  {
    ReversedEight(Low8(v >> 120), Low8(v >> 112), Low8(v >> 104), Low8(v >> 96), Low8(v >> 88), Low8(v >> 80),
      Low8(v >> 72), Low8(v >> 64));
  }

  lemma MirroredGroup2(v: bv256, w: bv256)
    requires Mirrored2(v, w)
    ensures Group2(w) == Reversed(Group1(v))
  {
    ReversedEight(Low8(v >> 184), Low8(v >> 176), Low8(v >> 168), Low8(v >> 160), Low8(v >> 152), Low8(v >> 144),
      Low8(v >> 136), Low8(v >> 128));
  }

  lemma MirroredGroup3(v: bv256, w: bv256)
    requires Mirrored3(v, w)
    ensures Group3(w) == Reversed(Group0(v))
  {
    ReversedEight(Low8(v >> 248), Low8(v >> 240), Low8(v >> 232), Low8(v >> 224), Low8(v >> 216), Low8(v >> 208),
      Low8(v >> 200), Low8(v >> 192));
  }

  lemma MirroredLists(v: bv256, w: bv256)
    requires Mirrored(v, w)
    ensures Bytes256(w) == Reversed(Bytes256(v))
  {
    MirroredGroup0(v, w);
    MirroredGroup1(v, w);
    MirroredGroup2(v, w);
    MirroredGroup3(v, w);
    ReversedFour(Group0(v), Group1(v), Group2(v), Group3(v));
  }

  /** The network reverses the byte list of a word. */
  lemma NetworkReverses(v: bv256)
    ensures Bytes256(Network256(v)) == Reversed(Bytes256(v))
  {
    NetworkMirrors(v);
    MirroredLists(v, Network256(v));
  }

  // Eight equal bytes make an equal 64-bit lane.

  predicate Same0(v: bv256, w: bv256) {
    && Low8(v >> 248) == Low8(w >> 248)
    && Low8(v >> 240) == Low8(w >> 240)
    && Low8(v >> 232) == Low8(w >> 232)
    && Low8(v >> 224) == Low8(w >> 224)
    && Low8(v >> 216) == Low8(w >> 216)
    && Low8(v >> 208) == Low8(w >> 208)
    && Low8(v >> 200) == Low8(w >> 200)
    && Low8(v >> 192) == Low8(w >> 192)
  }

  predicate Same1(v: bv256, w: bv256) {
    && Low8(v >> 184) == Low8(w >> 184)
    && Low8(v >> 176) == Low8(w >> 176)
    && Low8(v >> 168) == Low8(w >> 168)
    && Low8(v >> 160) == Low8(w >> 160)
    && Low8(v >> 152) == Low8(w >> 152)
    && Low8(v >> 144) == Low8(w >> 144)
    && Low8(v >> 136) == Low8(w >> 136)
    && Low8(v >> 128) == Low8(w >> 128)
  }

  predicate Same2(v: bv256, w: bv256) {
    && Low8(v >> 120) == Low8(w >> 120)
    && Low8(v >> 112) == Low8(w >> 112)
    && Low8(v >> 104) == Low8(w >> 104)
    && Low8(v >> 96) == Low8(w >> 96)
    && Low8(v >> 88) == Low8(w >> 88)
    && Low8(v >> 80) == Low8(w >> 80)
    && Low8(v >> 72) == Low8(w >> 72)
    && Low8(v >> 64) == Low8(w >> 64)
  }

  predicate Same3(v: bv256, w: bv256) {
    && Low8(v >> 56) == Low8(w >> 56)
    && Low8(v >> 48) == Low8(w >> 48)
    && Low8(v >> 40) == Low8(w >> 40)
    && Low8(v >> 32) == Low8(w >> 32)
    && Low8(v >> 24) == Low8(w >> 24)
    && Low8(v >> 16) == Low8(w >> 16)
    && Low8(v >> 8) == Low8(w >> 8)
    && Low8(v) == Low8(w)
  }

  lemma SameLane0(v: bv256, w: bv256)
    requires Same0(v, w)
    ensures (v >> 192) & 0xFFFF_FFFF_FFFF_FFFF == (w >> 192) & 0xFFFF_FFFF_FFFF_FFFF
  {
  }

  lemma SameLane1(v: bv256, w: bv256)
    requires Same1(v, w)
    ensures (v >> 128) & 0xFFFF_FFFF_FFFF_FFFF == (w >> 128) & 0xFFFF_FFFF_FFFF_FFFF
  {
  }

  lemma SameLane2(v: bv256, w: bv256)
    requires Same2(v, w)
    ensures (v >> 64) & 0xFFFF_FFFF_FFFF_FFFF == (w >> 64) & 0xFFFF_FFFF_FFFF_FFFF
  {
  }

  lemma SameLane3(v: bv256, w: bv256)
    requires Same3(v, w)
    ensures v & 0xFFFF_FFFF_FFFF_FFFF == w & 0xFFFF_FFFF_FFFF_FFFF
  {
  }

  lemma SameLanesSameWord(v: bv256, w: bv256)
    requires (v >> 192) & 0xFFFF_FFFF_FFFF_FFFF == (w >> 192) & 0xFFFF_FFFF_FFFF_FFFF
    requires (v >> 128) & 0xFFFF_FFFF_FFFF_FFFF == (w >> 128) & 0xFFFF_FFFF_FFFF_FFFF
    requires (v >> 64) & 0xFFFF_FFFF_FFFF_FFFF == (w >> 64) & 0xFFFF_FFFF_FFFF_FFFF
    requires v & 0xFFFF_FFFF_FFFF_FFFF == w & 0xFFFF_FFFF_FFFF_FFFF
    ensures v == w
  {
  }

  lemma SameBytesSameWord(v: bv256, w: bv256)
    requires Same0(v, w) && Same1(v, w) && Same2(v, w) && Same3(v, w)
    ensures v == w
  {
    SameLane0(v, w);
    SameLane1(v, w);
    SameLane2(v, w);
    SameLane3(v, w);
    SameLanesSameWord(v, w);
  }

  lemma MirroredTwice(u: bv256, v: bv256, w: bv256)
    requires Mirrored(u, v) && Mirrored(v, w)
    ensures u == w
  {
    SameBytesSameWord(u, w);
  }

  /** Reversing twice gives the word back. */
  lemma NetworkInvolution(v: bv256)
    ensures Network256(Network256(v)) == v
  {
    NetworkMirrors(v);
    NetworkMirrors(Network256(v));
    MirroredTwice(v, Network256(v), Network256(Network256(v)));
  }

  /** `reverseByteOrderUint256`: the local is overwritten by one stage after the other. */
  method ReverseByteOrderUint256(input: bv256) returns (v: bv256)
    ensures v == Network256(input)
    ensures Bytes256(v) == Reversed(Bytes256(input))
  {
    v := input;
    v := Swap1(v);
    v := Swap2(v);
    v := Swap4(v);
    v := Swap8(v);
    v := Swap16(v);
    NetworkReverses(input);
  }

  function Bytes32Bit(v: bv32): (bs: seq<bv8>) {
    [(v >> 24) as bv8, ((v >> 16) & 0xFF) as bv8, ((v >> 8) & 0xFF) as bv8, (v & 0xFF) as bv8]
  }

  /** `reverseByteOrderUint32`. */
  method ReverseByteOrderUint32(input: bv32) returns (v: bv32)
    ensures Bytes32Bit(v) == Reversed(Bytes32Bit(input))
  {
    v := input;
    v := ((v & 0xFF00FF00) >> 8) | ((v & 0x00FF00FF) << 8);
    v := (v >> 16) | (v << 16);
  }

  function Bytes16Bit(v: bv16): (bs: seq<bv8>) {
    [(v >> 8) as bv8, (v & 0xFF) as bv8]
  }

  /** `reverseByteOrderUint16`. */
  method ReverseByteOrderUint16(input: bv16) returns (v: bv16)
    ensures Bytes16Bit(v) == Reversed(Bytes16Bit(input))
  {
    v := input;
    v := (v >> 8) | ((v & 0x00FF) << 8);
  }

  // ---------- splitDigest ----------

  /** The bytes of a `bytes16` value. */
  function Bytes128(h: bv128): (bs: seq<bv8>)
    ensures |bs| == 16
  {
    Group2(h as bv256) + Group3(h as bv256)
  }

  /** The low and the high half of a word. */
  function Halves(w: bv256): (bv128, bv128) {
    ((w & 0xFFFF_FFFF_FFFF_FFFF_FFFF_FFFF_FFFF_FFFF) as bv128, (w >> 128) as bv128)
  }

  function JoinHalves(halves: (bv128, bv128)): bv256 {
    (halves.1 as bv256 << 128) | halves.0 as bv256
  }

  /** `splitDigest`. */
  function SplitDigest(digest: bv256): (bv128, bv128) {
    Halves(Network256(digest))
  }

  lemma HighHalfGroup2(w: bv256)
    ensures Low8((w >> 128) >> 120) == Low8(w >> 248)
    ensures Low8((w >> 128) >> 112) == Low8(w >> 240)
    ensures Low8((w >> 128) >> 104) == Low8(w >> 232)
    ensures Low8((w >> 128) >> 96) == Low8(w >> 224)
    ensures Low8((w >> 128) >> 88) == Low8(w >> 216)
    ensures Low8((w >> 128) >> 80) == Low8(w >> 208)
    ensures Low8((w >> 128) >> 72) == Low8(w >> 200)
    ensures Low8((w >> 128) >> 64) == Low8(w >> 192)
  {
  }

  lemma LowHalfGroup2(w: bv256)
    ensures Low8((w & 0xFFFF_FFFF_FFFF_FFFF_FFFF_FFFF_FFFF_FFFF) >> 120) == Low8(w >> 120)
    ensures Low8((w & 0xFFFF_FFFF_FFFF_FFFF_FFFF_FFFF_FFFF_FFFF) >> 112) == Low8(w >> 112)
    ensures Low8((w & 0xFFFF_FFFF_FFFF_FFFF_FFFF_FFFF_FFFF_FFFF) >> 104) == Low8(w >> 104)
    ensures Low8((w & 0xFFFF_FFFF_FFFF_FFFF_FFFF_FFFF_FFFF_FFFF) >> 96) == Low8(w >> 96)
    ensures Low8((w & 0xFFFF_FFFF_FFFF_FFFF_FFFF_FFFF_FFFF_FFFF) >> 88) == Low8(w >> 88)
    ensures Low8((w & 0xFFFF_FFFF_FFFF_FFFF_FFFF_FFFF_FFFF_FFFF) >> 80) == Low8(w >> 80)
    ensures Low8((w & 0xFFFF_FFFF_FFFF_FFFF_FFFF_FFFF_FFFF_FFFF) >> 72) == Low8(w >> 72)
    ensures Low8((w & 0xFFFF_FFFF_FFFF_FFFF_FFFF_FFFF_FFFF_FFFF) >> 64) == Low8(w >> 64)
  {
  }

  lemma HighHalfGroup3(w: bv256)
    ensures Low8((w >> 128) >> 56) == Low8(w >> 184)
    ensures Low8((w >> 128) >> 48) == Low8(w >> 176)
    ensures Low8((w >> 128) >> 40) == Low8(w >> 168)
    ensures Low8((w >> 128) >> 32) == Low8(w >> 160)
    ensures Low8((w >> 128) >> 24) == Low8(w >> 152)
    ensures Low8((w >> 128) >> 16) == Low8(w >> 144)
    ensures Low8((w >> 128) >> 8) == Low8(w >> 136)
    ensures Low8((w >> 128)) == Low8(w >> 128)
  {
  }

  lemma LowHalfGroup3(w: bv256)
    ensures Low8((w & 0xFFFF_FFFF_FFFF_FFFF_FFFF_FFFF_FFFF_FFFF) >> 56) == Low8(w >> 56)
    ensures Low8((w & 0xFFFF_FFFF_FFFF_FFFF_FFFF_FFFF_FFFF_FFFF) >> 48) == Low8(w >> 48)
    ensures Low8((w & 0xFFFF_FFFF_FFFF_FFFF_FFFF_FFFF_FFFF_FFFF) >> 40) == Low8(w >> 40)
    ensures Low8((w & 0xFFFF_FFFF_FFFF_FFFF_FFFF_FFFF_FFFF_FFFF) >> 32) == Low8(w >> 32)
    ensures Low8((w & 0xFFFF_FFFF_FFFF_FFFF_FFFF_FFFF_FFFF_FFFF) >> 24) == Low8(w >> 24)
    ensures Low8((w & 0xFFFF_FFFF_FFFF_FFFF_FFFF_FFFF_FFFF_FFFF) >> 16) == Low8(w >> 16)
    ensures Low8((w & 0xFFFF_FFFF_FFFF_FFFF_FFFF_FFFF_FFFF_FFFF) >> 8) == Low8(w >> 8)
    ensures Low8((w & 0xFFFF_FFFF_FFFF_FFFF_FFFF_FFFF_FFFF_FFFF)) == Low8(w)
  {
  }

  lemma WidenedHalves(w: bv256)
    ensures ((w >> 128) as bv128) as bv256 == w >> 128
    ensures ((w & 0xFFFF_FFFF_FFFF_FFFF_FFFF_FFFF_FFFF_FFFF) as bv128) as bv256 ==
            w & 0xFFFF_FFFF_FFFF_FFFF_FFFF_FFFF_FFFF_FFFF
  {
  }

  lemma HalvesJoin(w: bv256)
    ensures JoinHalves(Halves(w)) == w
  {
  }

  lemma HalvesOf(w: bv256)
    ensures Bytes128(Halves(w).1) == Group0(w) + Group1(w)
    ensures Bytes128(Halves(w).0) == Group2(w) + Group3(w)
  {
    WidenedHalves(w);
    HighHalfGroup2(w);
    HighHalfGroup3(w);
    LowHalfGroup2(w);
    LowHalfGroup3(w);
  }

  lemma SplitReversed<T>(xs: seq<T>, a: seq<T>, b: seq<T>, c: seq<T>, d: seq<T>)
    requires |xs| == 32 && |a| == |b| == |c| == |d| == 8 && a + b + c + d == Reversed(xs)
    ensures c + d == Reversed(xs[..16]) && a + b == Reversed(xs[16..])
  {
    assert a + b == (a + b + c + d)[..16] && c + d == (a + b + c + d)[16..];
  }

  lemma HalvesOfReversed(v: bv256, w: bv256)
    requires Bytes256(w) == Reversed(Bytes256(v))
    ensures Bytes128(Halves(w).0) == Reversed(Bytes256(v)[..16])
    ensures Bytes128(Halves(w).1) == Reversed(Bytes256(v)[16..])
  {
    HalvesOf(w);
    SplitReversed(Bytes256(v), Group0(w), Group1(w), Group2(w), Group3(w));
  }

  /** Each public signal is one half of the digest with its bytes reversed. */
  lemma SplitDigestReversesHalves(digest: bv256)
    ensures Bytes128(SplitDigest(digest).0) == Reversed(Bytes256(digest)[..16])
    ensures Bytes128(SplitDigest(digest).1) == Reversed(Bytes256(digest)[16..])
  {
    NetworkReverses(digest);
    HalvesOfReversed(digest, Network256(digest));
  }

  /** Splitting loses nothing: joining the halves and reversing again gives the digest. */
  lemma SplitDigestRoundTrip(digest: bv256)
    ensures Network256(JoinHalves(SplitDigest(digest))) == digest
  {
    HalvesJoin(Network256(digest));
    NetworkInvolution(digest);
  }
}
