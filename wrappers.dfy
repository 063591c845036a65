/** Option and panic outcomes shared by the storage and streaming models. */
module Wrappers {

  /** An optional value, as Rust's `Option`. */
  datatype Option<+T> = None | Some(value: T)

  /** The result of code that may abort: `Panic` stands for an `unwrap`
      on an absent value or a failed `assert!`, which ends the calling thread. */
  datatype Outcome<+T> = Done(value: T) | Panic
}
