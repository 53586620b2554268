/** Small types that several models share. */
module Wrappers {
  datatype Option<+T> = None | Some(value: T)

  function OptionSeq<T>(o: Option<T>): seq<T> {
    if o.Some? then [o.value] else []
  }

  type Byte = b: int | 0 <= b < 256
}
