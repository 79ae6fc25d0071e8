/** The larger and the smaller of two values. */
module Reals {

  function MaxOf(a: real, b: real): real {
    if a < b then b else a
  }

  function MinOf(a: real, b: real): real {
    if a > b then b else a
  }
}
