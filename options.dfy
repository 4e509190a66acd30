/** The optional value used where the game answers "nothing" (no colour for an
    empty square, no square selected). */
module Options {
  datatype Option<+T> = None | Some(value: T)
}
