/** Machine integers, byte strings and the failure-carrying wrappers shared by every module. */
module Types {

  newtype uint64 = x: int | 0 <= x <= 0xFFFF_FFFF_FFFF_FFFF
  newtype uint32 = x: int | 0 <= x <= 0xFFFF_FFFF
  newtype byte = x: int | 0 <= x < 256

  type Bytes = seq<byte>

  /** `math.MaxUint64`, the exclusive upper end of every entity scan. */
  const MAX_UINT64: uint64 := 0xFFFF_FFFF_FFFF_FFFF

  datatype Option<T> = None | Some(value: T)

  datatype Result<T, E> = Ok(value: T) | Err(error: E)

  /** Errors of `strconv.ParseUint`. */
  datatype NumError = ErrSyntax | ErrRange

  /** Every error the metadata store can report. */
  datatype Error =
    | MarshalFailed                      // a record's Marshal failed
    | DecodeFailed                       // a stored record's Unmarshal failed
    | EmptyTxnResponse                   // the else-branch of a transaction answered nothing
    | InvalidRangeResponse               // the else-branch answer is not a one-pair range response
    | InvalidClusterKey(key: string)     // a legacy cluster-ID key with too few segments
    | InvalidValueLength(length: nat)    // an 8-byte integer value of the wrong length
    | ParseFailed(cause: NumError)       // a legacy key segment that is not a uint64
}
