/** The ways the Rust code aborts. Debug builds check integer arithmetic, so an
    overflowing `u16` addition or an underflowing `usize` subtraction panics just
    like an out-of-bounds index or an `unwrap` on `None`/`Err`; `ParseFailure`
    is an `unwrap` on a failed parse. */
module Panics {

  datatype Panic =
    | SubtractWithOverflow
    | AddWithOverflow
    | IndexOutOfBounds
    | UnwrapOnNone
    | SliceOutOfBounds
    | ParseFailure
    /** An explicit `panic!` on a branch the code treats as impossible. */
    | ExplicitPanic
}
