/** Shared vocabulary: optional values, results, octets and concatenation. */
module Prelude {

  datatype Option<+T> = None | Some(value: T)

  datatype Result<+T, +E> = Ok(value: T) | Err(error: E)

  /** One octet of a wire format. */
  type Octet = x: int | 0 <= x < 256

  type Bytes = seq<Octet>

  /** The concatenation of `parts`, in order. */
  function Flatten<T>(parts: seq<seq<T>>): seq<T> {
    if |parts| == 0 then [] else parts[0] + Flatten(parts[1..])
  }
}
