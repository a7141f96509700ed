/** Small datatypes every other module shares. */
module Basics {
  datatype Option<+T> = None | Some(value: T)

  /** A value, or the code of the error the source returns instead. */
  datatype Result<+T> = Ok(value: T) | Err(code: string)

  /** `r` is `s` with some elements left out: nothing is added and nothing is reordered. */
  ghost predicate Subsequence<T(!new)>(r: seq<T>, s: seq<T>)
  {
    || r == []
    || (s != [] && r[|r| - 1] == s[|s| - 1] && Subsequence(r[..|r| - 1], s[..|s| - 1]))
    || (s != [] && Subsequence(r, s[..|s| - 1]))
  }
}
