/**
  A pointer or reference to one memory slot: C's `T *` and Rust's `&T` / `&mut T`.
  Reads through it are `reads` clauses, writes through it `modifies` clauses.
*/
module Cells {

  class Ref<T> {
    var value: T

    constructor (value: T)
      ensures this.value == value
    {
      this.value := value;
    }
  }
}
