/** Machine words, byte strings and small containers shared by every module. */
module Common {

  datatype Option<+T> = None | Some(value: T)

  const U64: nat := 0x1_0000_0000_0000_0000
  const U256: nat := 0x1_0000_0000_0000_0000_0000_0000_0000_0000_0000_0000_0000_0000_0000_0000_0000_0000

  type u64 = x: nat | x < 0x1_0000_0000_0000_0000

  type byte = b: nat | b < 256

  type Bytes = seq<byte>

  type Hash = h: Bytes | |h| == 32 witness seq(32, _ => 0)

  type Address = a: Bytes | |a| == 20 witness seq(20, _ => 0)

  const ZERO_HASH: Hash := [
    0, 0, 0, 0, 0, 0, 0, 0, 0, 0, 0, 0, 0, 0, 0, 0,
    0, 0, 0, 0, 0, 0, 0, 0, 0, 0, 0, 0, 0, 0, 0, 0]

  /** What Go's uint64 arithmetic keeps of a mathematical result. */
  function Wrap64(x: int): u64 {
    x % 0x1_0000_0000_0000_0000
  }

  /** What uint256.Int keeps of a big.Int, and what its arithmetic wraps to. */
  function Wrap256(x: int): nat {
    x % 0x1_0000_0000_0000_0000_0000_0000_0000_0000_0000_0000_0000_0000_0000_0000_0000_0000
  }

  function Min(a: int, b: int): int {
    if a < b then a else b
  }

  function Max(a: int, b: int): int {
    if a > b then a else b
  }

  /**
    * Both gas guards of the program test a wrapped sum, `used + gas > limit`, with
    * `used` already within the limit.  The wrapped test agrees with the intended
    * one exactly when the sum fits in 64 bits; otherwise it always lets the
    * transaction through.
    */
  lemma GasGuardExact(used: u64, gas: u64, limit: u64)
    requires used <= limit
    ensures (Wrap64(used + gas) > limit <==> used + gas > limit) <==> used + gas < U64
    ensures used + gas >= U64 ==> Wrap64(used + gas) <= limit
  {
    if used + gas >= U64 {
      assert Wrap64(used + gas) == used + gas - U64;
    } else {
      assert Wrap64(used + gas) == used + gas;
    }
  }

  lemma WrapSmall(x: int)
    requires 0 <= x < U64
    ensures Wrap64(x) == x
  {}

  lemma Wrap256Small(x: int)
    requires 0 <= x < U256
    ensures Wrap256(x) == x
  {}
}
