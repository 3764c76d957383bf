/** Shared vocabulary of the model: failure-carrying results, Java's signed
    64-bit integers, stream identifiers and the opaque payload types. */
module Base {

  datatype Option<+T> = None | Some(value: T)

  datatype Result<+R, +E> = Success(value: R) | Failure(error: E)

  /** A `void` operation that either completes or raises `error`. */
  datatype Outcome<+E> = Pass | Fail(error: E)

  const INT64_MIN: int := -0x8000_0000_0000_0000
  const INT64_MAX: int := 0x7fff_ffff_ffff_ffff
  const TWO_64: int := 0x1_0000_0000_0000_0000

  /** Java `long`. */
  type Int64 = x: int | INT64_MIN <= x <= INT64_MAX

  /** A non-negative `long`: a global log address as the sequencer issues it. */
  type Address = x: int | 0 <= x <= INT64_MAX

  /** `java.util.UUID`: two 64-bit halves. */
  datatype UUID = UUID(mostSig: Int64, leastSig: Int64)

  /** A `byte[]` as stored by a log unit. */
  type Bytes = seq<bv8>

  /** A deserialized Java object (a stream payload, an SMR object), kept
      abstract: only its identity as a value matters to the core. */
  type Object = seq<int>
}
