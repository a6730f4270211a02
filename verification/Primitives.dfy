/** Machine-level vocabulary shared by every module: EVM words, byte strings and
    the two ways in which a computation can fail to produce a value. */
module Primitives {

  const U256_MAX: nat := 0xFFFF_FFFF_FFFF_FFFF_FFFF_FFFF_FFFF_FFFF_FFFF_FFFF_FFFF_FFFF_FFFF_FFFF_FFFF_FFFF
  const U64_MAX: nat := 0xFFFF_FFFF_FFFF_FFFF
  const U32_MAX: nat := 0xFFFF_FFFF

  type U256 = n: nat | n <= U256_MAX
  type U64 = n: nat | n <= U64_MAX
  type U32 = n: nat | n <= U32_MAX

  type byte = n: nat | n < 256
  type Bytes = seq<byte>
  type Address = a: Bytes | |a| == 20 witness Zeros(20)
  type Bytes32 = b: Bytes | |b| == 32 witness Zeros(32)
  type Selector = b: Bytes | |b| == 4 witness Zeros(4)

  function Zeros(n: nat): (z: Bytes)
    ensures |z| == n
    ensures forall i | 0 <= i < n :: z[i] == 0
  {
    seq(n, _ => 0)
  }

  const ZERO_ADDRESS: Address := Zeros(20)
  const ZERO_DIGEST: Bytes32 := Zeros(32)

  datatype Option<+T> = None | Some(value: T) {
    predicate IsFailure() { None? }
    function PropagateFailure<U>(): Option<U> requires None? { None }
    function Extract(): T requires Some? { value }
    function GetOr(default: T): T { if Some? then value else default }
  }

  /** Result of a Rust computation. `Aborted` is a panic, a failed assertion or an
      error that the caller turns into one. `Overflowed` is a U256 sum that left the
      256-bit range: the arithmetic library decides what happens then, so nothing is
      claimed about it. */
  datatype Outcome<+T> = Done(value: T) | Aborted | Overflowed {
    predicate IsFailure() { !Done? }
    function PropagateFailure<U>(): Outcome<U> requires !Done? {
      if Aborted? then Aborted else Overflowed
    }
    function Extract(): T requires Done? { value }
  }

  /** U256 addition, with leaving the range made visible. */
  function Add256(x: nat, y: nat): Outcome<nat> {
    if x + y <= U256_MAX then Done(x + y) else Overflowed
  }

  /** `h` sends no two different members of the finite set `inputs` to one digest. */
  ghost predicate CollisionFree(h: Bytes -> Bytes32, inputs: set<Bytes>) {
    forall x, y | x in inputs && y in inputs && h(x) == h(y) :: x == y
  }
}
