/** Basic value types shared by the block store model: machine integers,
    byte strings, 32-byte hashes, the opaque records the store persists and
    the error kinds its operations report. */
module Types {

  type byte = x: int | 0 <= x < 0x100
  type uint64 = x: int | 0 <= x < 0x1_0000_0000_0000_0000
  type int64 = x: int | -0x8000_0000_0000_0000 <= x < 0x8000_0000_0000_0000

  type Bytes = seq<byte>

  const HashSize: nat := 32

  /** A header hash: exactly 32 bytes, like Go's `[32]byte`. */
  type Hash = s: Bytes | |s| == HashSize witness seq(32, _ => 0)

  /** Go's `uint64(x)` conversion of an `int64`: two's-complement reinterpretation,
      so negative values wrap to the top half of the unsigned range. */
  function ToUint64(x: int64): (r: uint64)
    ensures 0 <= x ==> r == x
    ensures x < 0 ==> r > 0x7FFF_FFFF_FFFF_FFFF && r - x == 0x1_0000_0000_0000_0000
  {
    if x < 0 then x + 0x1_0000_0000_0000_0000 else x
  }

  // The records the store persists. Their contents are produced and consumed
  // by foreign code, so apart from the fields the store reads they are
  // opaque payloads.

  datatype Header = Header(height: uint64, fields: Bytes)
  datatype Block = Block(header: Header, data: Bytes)
  datatype Commit = Commit(fields: Bytes)
  /** Chain state; the store reads only its last block height. */
  datatype State = State(lastBlockHeight: int64, fields: Bytes)
  /** The protobuf message a State converts to and from. */
  datatype PbState = PbState(fields: Bytes)
  datatype ABCIResponses = ABCIResponses(fields: Bytes)
  datatype ValidatorSet = ValidatorSet(fields: Bytes)
  /** The protobuf message a ValidatorSet converts to and from. */
  datatype PbValidatorSet = PbValidatorSet(fields: Bytes)

  /** Error kinds, without their message text. */
  datatype Error =
    | NotFound              // the datastore has no entry under the key
    | InvalidHashLength     // an index entry is not exactly 32 bytes
    | EncodeFailure         // a record could not be converted or marshalled
    | DecodeFailure         // stored bytes could not be unmarshalled or converted
    | UnsupportedBackend    // the datastore does not offer transactions
    | TxnCreateFailure      // the transaction could not be opened
    | TxnPutFailure         // staging a write in the transaction failed
    | TxnCommitFailure      // the transaction could not be committed

  datatype Result<+T> = Ok(value: T) | Err(error: Error) {
    predicate IsFailure() { Err? }

    function PropagateFailure<U>(): Result<U>
      requires Err?
    {
      Err(error)
    }

    function Extract(): T
      requires Ok?
    {
      value
    }
  }

  datatype Option<+T> = None | Some(value: T)
}
