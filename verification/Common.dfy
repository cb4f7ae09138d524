/** Value types shared by every component of the keeper model. */
module Common {

  newtype byte = x: int | 0 <= x < 256

  type Bytes = seq<byte>

  datatype Option<+T> = None | Some(value: T)
}
