/**
 What several parts of the model share: machine integers, parameters of param.h, and Option.
 */
module Common {
  const UINT_LIMIT := 0x1_0000_0000
  const INT_LIMIT := 0x8000_0000

  const MAXOPBLOCKS := 10
  const LOGSIZE := 30     // MAXOPBLOCKS * 3

  type Byte = x: int | 0 <= x < 256
  type Uint = x: int | 0 <= x < UINT_LIMIT
  type Int = x: int | -INT_LIMIT <= x < INT_LIMIT

  datatype Option<T> = None | Some(value: T)
}
