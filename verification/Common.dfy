/** Values that several components share. */
module Common {

  datatype Option<T> = None | Some(value: T)

  /** A byte as a number, where the program does arithmetic on it. */
  type byte = x: int | 0 <= x < 256

  /** Bytes that are only moved around. */
  type Bytes = seq<bv8>

  function Min(a: int, b: int): int {
    if a < b then a else b
  }

  function Max(a: int, b: int): int {
    if a < b then b else a
  }
}
