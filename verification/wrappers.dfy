/** Failure-carrying datatypes shared by the other modules: `Option` for the
    source's `None`/`Option`, `Result` for Rust's `Result<_, String>`. */
module Wrappers {

  datatype Option<+T> = None | Some(value: T) {

    /** The wrapped value, or `fallback` when absent (`dict.get(key, fallback)`). */
    function UnwrapOr(fallback: T): T {
      if Some? then value else fallback
    }
  }

  datatype Result<+R, +E> = Ok(value: R) | Err(error: E)

  /** The last element of a non-empty sequence (Python's `xs[-1]`). */
  function Last<T>(xs: seq<T>): T
    requires |xs| > 0
  {
    xs[|xs| - 1]
  }

  /** Concatenation of a sequence of sequences, in order. */
  function Flatten<T>(xss: seq<seq<T>>): seq<T>
  {
    if xss == [] then [] else xss[0] + Flatten(xss[1..])
  }
}
