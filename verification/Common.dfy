/** Types shared by the models of the enclave, the vault and the tools. */
module Common {

  datatype Option<+T> = None | Some(value: T)

  /** A value, or the error a throw in the source carries. */
  datatype Result<+T, +E> = Ok(value: T) | Err(error: E) {
    predicate IsFailure() {
      Err?
    }

    function PropagateFailure<U>(): Result<U, E>
      requires Err?
    {
      Err(error)
    }

    function Extract(): T
      requires Ok?
    {
      value
    }
  }

  type byte = x: int | 0 <= x < 256

  type bytes = seq<byte>

  function Zeros(n: nat): (b: bytes)
    ensures |b| == n
  {
    seq(n, (_: nat) => 0)
  }

  /** A 20-byte EVM address, as the contracts and the Go tools hold it. */
  type Address = a: bytes | |a| == 20 witness Zeros(20)

  /** A 32-byte word: digests, keys and seeds. */
  type Word32 = w: bytes | |w| == 32 witness Zeros(32)

  const ZERO_ADDRESS: Address := Zeros(20)

  /** One past the largest value of a Solidity uint256. */
  const TWO_256: nat := 0x1_0000000000000000_0000000000000000_0000000000000000_0000000000000000
}
