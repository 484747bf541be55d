/** Shared vocabulary. */
module Basics {
  datatype Option<+T> = None | Some(value: T)

  /** A computation that may panic. */
  datatype Outcome<+T> = Panic | Ok(value: T)

  function Front<T>(s: seq<T>): seq<T>
    requires s != []
  {
    s[..|s| - 1]
  }

  function Last<T>(s: seq<T>): T
    requires s != []
  {
    s[|s| - 1]
  }

  /** r is an order-preserving merge of a and b. */
  ghost predicate Merges<T>(r: seq<T>, a: seq<T>, b: seq<T>) {
    if r == [] then a == [] && b == []
    else
      || (a != [] && Last(a) == Last(r) && Merges(Front(r), Front(a), b))
      || (b != [] && Last(b) == Last(r) && Merges(Front(r), a, Front(b)))
  }
}
