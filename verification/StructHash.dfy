/** Structural hashing (lib/risc0/StructHash.sol): tagged structs and tagged lists over an arbitrary hash function. */
module StructHash {
  import opened Primitives

  const TWO_16: nat := 0x1_0000

  /** `bytes2((n << 8) | (n >> 8))` on 16 bits: the swapped number, written big-endian. */
  function LengthLE(n: nat): Bytes
    requires n < TWO_16
  {
    var swapped := n * 256 % TWO_16 + n / 256;
    [swapped / 256, swapped % 256]
  }

  lemma LengthIsLittleEndian(n: nat)
    requires n < TWO_16
    ensures LengthLE(n) == [n % 256, n / 256]
  {
    assert n * 256 % TWO_16 == (n % 256) * 256;
  }

  function Flat(down: seq<Bytes32>): (bs: Bytes)
    ensures |bs| == 32 * |down|
  {
    if down == [] then [] else down[0] + Flat(down[1..])
  }

  /** `abi.encodePacked(tagDigest, down, data, downLenLE)`. */
  function Preimage(tag: Bytes32, down: seq<Bytes32>, data: Bytes): (bs: Bytes)
    requires |down| < TWO_16
    ensures |bs| == 32 + 32 * |down| + |data| + 2
  {
    tag + Flat(down) + data + LengthLE(|down|)
  }

  /** `taggedStruct`; more than 65535 fields revert. */
  function TaggedStruct(h: Bytes -> Bytes32, tag: Bytes32, down: seq<Bytes32>, data: Bytes): Option<Bytes32> {
    if |down| >= TWO_16 then None else Some(h(Preimage(tag, down, data)))
  }

  // ---------- The packed preimage parses back ----------

  function TakeDigests(bs: Bytes, n: nat): (down: seq<Bytes32>)
    requires 32 * n <= |bs|
    ensures |down| == n
  {
    if n == 0 then [] else [bs[..32]] + TakeDigests(bs[32..], n - 1)
  }

  /** Reads the field count from the end, then the fields from the front; what is left over is data. */
  function Parse(bs: Bytes): Option<(Bytes32, seq<Bytes32>, Bytes)> {
    if |bs| < 34 then None
    else
      var low: nat, high: nat := bs[|bs| - 2], bs[|bs| - 1];
      var n := low + 256 * high;
      if 32 + 32 * n + 2 > |bs| then None
      else Some((bs[..32], TakeDigests(bs[32..], n), bs[32 + 32 * n..|bs| - 2]))
  }

  lemma {:induction false} TakeDigestsOfFlat(down: seq<Bytes32>, rest: Bytes)
    ensures TakeDigests(Flat(down) + rest, |down|) == down
  {
    if down != [] {
      var bs := Flat(down) + rest;
      assert bs[..32] == down[0] && bs[32..] == Flat(down[1..]) + rest;
      TakeDigestsOfFlat(down[1..], rest);
    }
  }

  lemma {:induction false} FlatAt(down: seq<Bytes32>, i: nat)
    requires i < |down|
    ensures Flat(down)[32 * i..32 * i + 32] == down[i]
  {
    if i > 0 {
      FlatAt(down[1..], i - 1);
      assert Flat(down)[32 * i..32 * i + 32] == Flat(down[1..])[32 * (i - 1)..32 * (i - 1) + 32];
    }
  }

  /** Although the mode is packed, the preimage determines the tag, the fields and the data. */
  lemma PreimageParses(tag: Bytes32, down: seq<Bytes32>, data: Bytes)
    requires |down| < TWO_16
    ensures Parse(Preimage(tag, down, data)) == Some((tag, down, data))
  {
    var n, bs := |down|, Preimage(tag, down, data);
    LengthIsLittleEndian(n);
    assert bs[|bs| - 2] == n % 256 && bs[|bs| - 1] == n / 256;
    assert bs[..32] == tag;
    assert bs[32..] == Flat(down) + (data + LengthLE(n));
    TakeDigestsOfFlat(down, data + LengthLE(n));
    assert bs[32 + 32 * n..|bs| - 2] == data;
  }

  /** The digest is the hash of the tag, the fields in order, the data and the number of fields with its low byte first.
      */
  lemma TaggedStructBytes(h: Bytes -> Bytes32, tag: Bytes32, down: seq<Bytes32>, data: Bytes)
    ensures |down| >= 65536 ==> TaggedStruct(h, tag, down, data) == None
    ensures |down| < 65536 ==>
              TaggedStruct(h, tag, down, data) == Some(h(tag + Flat(down) + data + [|down| % 256, |down| / 256]))
    ensures forall i | 0 <= i < |down| :: Flat(down)[32 * i..32 * i + 32] == down[i]
  {
    if |down| < TWO_16 { LengthIsLittleEndian(|down|); }
    forall i | 0 <= i < |down| ensures Flat(down)[32 * i..32 * i + 32] == down[i] {
      FlatAt(down, i);
    }
  }

  /** A struct digest determines tag, fields and data, unless the two preimages collide; exactly the oversized structs
      revert. */
  lemma TaggedStructBinds(
    h: Bytes -> Bytes32, t1: Bytes32, d1: seq<Bytes32>, x1: Bytes, t2: Bytes32, d2: seq<Bytes32>, x2: Bytes)
    requires |d1| < TWO_16 && |d2| < TWO_16 ==> CollisionFree(h, {Preimage(t1, d1, x1), Preimage(t2, d2, x2)})
    ensures TaggedStruct(h, t1, d1, x1).Some? <==> |d1| < TWO_16
    ensures TaggedStruct(h, t1, d1, x1).Some? && TaggedStruct(h, t1, d1, x1) == TaggedStruct(h, t2, d2, x2) ==>
              t1 == t2 && d1 == d2 && x1 == x2
  {
    if |d1| < TWO_16 && |d2| < TWO_16 {
      PreimageParses(t1, d1, x1);
      PreimageParses(t2, d2, x2);
    }
  }

  // ---------- Tagged lists ----------

  function ConsPreimage(tag: Bytes32, head: Bytes32, tail: Bytes32): Bytes {
    Preimage(tag, [head, tail], [])
  }

  /** `taggedListCons`. */
  function ListCons(h: Bytes -> Bytes32, tag: Bytes32, head: Bytes32, tail: Bytes32): Bytes32 {
    h(ConsPreimage(tag, head, tail))
  }

  /** The list hash as a right fold of cons over the zero digest. */
  function ListHash(h: Bytes -> Bytes32, tag: Bytes32, list: seq<Bytes32>): Bytes32 {
    if list == [] then ZERO_DIGEST else ListCons(h, tag, list[0], ListHash(h, tag, list[1..]))
  }

  lemma FlatTwo(a: Bytes32, b: Bytes32)
    ensures Flat([a, b]) == a + b
  {
    assert [a, b][1..] == [b] && [b][1..] == [];
    assert b + Flat([]) == b;
  }

  /** The bytes that are hashed for a list: the tag, its first element, the digest of the rest, and two fields. */
  lemma ListHashBytes(h: Bytes -> Bytes32, tag: Bytes32, x: Bytes32, rest: seq<Bytes32>)
    ensures ListHash(h, tag, []) == Zeros(32)
    ensures ListHash(h, tag, [x]) == h(tag + x + Zeros(32) + [2, 0])
    ensures ListHash(h, tag, [x] + rest) == h(tag + x + ListHash(h, tag, rest) + [2, 0])
  {
    assert ([x] + rest)[1..] == rest && [x][1..] == [];
    ConsBytes(tag, x, ListHash(h, tag, rest));
    ConsBytes(tag, x, ZERO_DIGEST);
  }

  lemma ConsBytes(tag: Bytes32, head: Bytes32, tail: Bytes32)
    ensures ConsPreimage(tag, head, tail) == tag + head + tail + [2, 0]
  {
    FlatTwo(head, tail);
    LengthIsLittleEndian(2);
    assert tag + (head + tail) + [] + [2, 0] == tag + head + tail + [2, 0];
  }

  /** `taggedList`: the loop consumes the list from its end. */
  method TaggedList(h: Bytes -> Bytes32, tag: Bytes32, list: seq<Bytes32>) returns (curr: Bytes32)
    ensures curr == ListHash(h, tag, list)
  {
    curr := ZERO_DIGEST;
    var i := 0;
    while i < |list|
      invariant 0 <= i <= |list|
      invariant curr == ListHash(h, tag, list[|list| - i..])
    {
      ghost var next := list[|list| - 1 - i..];
      assert next[0] == list[|list| - 1 - i] && next[1..] == list[|list| - i..];
      curr := ListCons(h, tag, list[|list| - 1 - i], curr);
      i := i + 1;
    }
    assert list[0..] == list;
  }

  /** Everything that is hashed on the way to the digest of a list. */
  function Hashed(h: Bytes -> Bytes32, tag: Bytes32, list: seq<Bytes32>): set<Bytes> {
    if list == [] then {} else {ConsPreimage(tag, list[0], ListHash(h, tag, list[1..]))} + Hashed(h, tag, list[1..])
  }

  /** No collision and no zero digest among the inputs. */
  ghost predicate Sound(h: Bytes -> Bytes32, inputs: set<Bytes>) {
    CollisionFree(h, inputs) && forall x | x in inputs :: h(x) != ZERO_DIGEST
  }

  lemma OnlyEmptyHashesToZero(h: Bytes -> Bytes32, tag: Bytes32, list: seq<Bytes32>, inputs: set<Bytes>)
    requires Sound(h, inputs) && Hashed(h, tag, list) <= inputs
    ensures ListHash(h, tag, list) == ZERO_DIGEST <==> list == []
  {
    if list != [] {
      assert ConsPreimage(tag, list[0], ListHash(h, tag, list[1..])) in Hashed(h, tag, list);
    }
  }

  /** Lists of any lengths with the same digest are the same list, if the hash is sound on what was hashed for the two.
      */
  lemma {:induction false} ListHashInjective(h: Bytes -> Bytes32, tag: Bytes32, xs: seq<Bytes32>, ys: seq<Bytes32>)
    requires Sound(h, Hashed(h, tag, xs) + Hashed(h, tag, ys))
    requires ListHash(h, tag, xs) == ListHash(h, tag, ys)
    ensures xs == ys
    decreases |xs|
  {
    OnlyEmptyHashesToZero(h, tag, xs, Hashed(h, tag, xs) + Hashed(h, tag, ys));
    OnlyEmptyHashesToZero(h, tag, ys, Hashed(h, tag, xs) + Hashed(h, tag, ys));
    if xs != [] && ys != [] {
      var x, y := ListHash(h, tag, xs[1..]), ListHash(h, tag, ys[1..]);
      var p, q := ConsPreimage(tag, xs[0], x), ConsPreimage(tag, ys[0], y);
      assert p in Hashed(h, tag, xs) && q in Hashed(h, tag, ys);
      assert p == q;
      PreimageParses(tag, [xs[0], x], []);
      PreimageParses(tag, [ys[0], y], []);
      assert [xs[0], x] == [ys[0], y];
      assert xs[0] == [xs[0], x][0] == ys[0] && x == [xs[0], x][1] == y;
      ListHashInjective(h, tag, xs[1..], ys[1..]);
      assert xs == [xs[0]] + xs[1..] && ys == [ys[0]] + ys[1..];
    }
  }
}
