/** Two notions used throughout. */
module Basics {

  datatype Option<+T> = None | Some(value: T)

  /** A sequence with position k struck out. */
  function Struck<T>(a: seq<T>, k: nat): seq<T>
    requires k < |a|
  {
    a[..k] + a[k + 1..]
  }
}
