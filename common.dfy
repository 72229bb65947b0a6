/** Values shared by both generations of the editor: optional and fallible
    results, and display positions measured in terminal cells. */
module Common {

  datatype Option<+T> = None | Some(value: T)

  datatype Result<+T, +E> = Ok(value: T) | Err(error: E)

  /** A display position. Both coordinates are `ChUnit` values, which are
      unsigned, hence `nat`. */
  datatype Position = Position(colIndex: nat, rowIndex: nat)

  /** `ChUnit` subtraction: it stops at zero instead of going negative. */
  function SaturatingSub(a: nat, b: nat): nat
  {
    if a >= b then a - b else 0
  }

  function Min(a: nat, b: nat): nat
  {
    if a <= b then a else b
  }
}
