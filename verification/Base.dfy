/** Shared vocabulary: optional values and Go's units of time. */
module Base {

  datatype Option<+T> = None | Some(value: T)

  datatype Result<+T, +E> = Ok(value: T) | Err(error: E)

  // Durations and clock readings are nanoseconds, as in Go's time package.
  function Seconds(n: int): int { n * 1_000_000_000 }

  function Millis(n: int): int { n * 1_000_000 }

  function Min(x: int, y: int): int { if x <= y then x else y }

  function Max(x: int, y: int): int { if x <= y then y else x }

  ghost predicate Distinct<T>(s: seq<T>) {
    forall i, j | 0 <= i < j < |s| :: s[i] != s[j]
  }
}
