/** Small types and constants shared by the modules of this project. */
module Common {

  const TWO_TO_64: nat := 0x1_0000_0000_0000_0000

  datatype Option<+T> = None | Some(value: T)

  datatype Result<+T, +E> = Ok(value: T) | Err(error: E)

  /** Where a key lives: its physical key and the counter keys of its tags (tags.go). */
  datatype Slot = Slot(pk: string, genKeys: seq<string>)
}
