/** Shared value types: fixed-width integers, byte strings, the user operation
    record, and the Option/Result wrappers the Rust code gets from its prelude. */
module Primitives {

  const TWO_64: nat := 0x1_0000_0000_0000_0000
  const TWO_256: nat := 0x1_0000_0000_0000_0000_0000_0000_0000_0000_0000_0000_0000_0000_0000_0000_0000_0000

  /** Ethereum's 256-bit unsigned integer (fees, nonces). */
  type U256 = x: nat | x < TWO_256

  /** Rust's u64 (the bundling interval, in seconds). */
  type U64 = x: nat | x < TWO_64

  type Byte = bv8
  type Bytes = seq<Byte>

  /** A 20-byte account address, kept as its numeric value. */
  type Address = nat

  /** A 32-byte transaction hash, kept as its numeric value; H256::default() is zero. */
  type H256 = x: nat | x < TWO_256
  const DefaultHash: H256 := 0

  datatype Option<+T> = None | Some(value: T)

  datatype Result<+T, +E> = Ok(value: T) | Err(error: E)

  /** The fields of a user operation that the bundling core reads. Gas limits,
      paymaster data and the rest of the record pass through untouched. */
  datatype UserOperation = UserOperation(
    sender: Address,
    nonce: U256,
    initCode: Bytes,
    callData: Bytes,
    maxFeePerGas: U256,
    maxPriorityFeePerGas: U256,
    signature: Bytes
  )
}
