/** Values that may be missing, and calls that may be refused. */
module Wrappers {

  datatype Option<+T> = None | Some(value: T)

  /** Which calls of one round the driver refuses, by number. */
  type Refusals = nat -> bool

  function Nobody(): Refusals {
    (i: nat) => false
  }
}
