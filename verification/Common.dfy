/** Types shared by every part of the model. */
module Common {

  datatype Option<+T> = None | Some(value: T)

  /** A reading of `time.time()`: seconds since the epoch, never negative.
      On such readings Python's `int(t)` is `t.Floor`. */
  type Time = t: real | 0.0 <= t witness 0.0

  /** Python's `int(t)`: truncation toward zero. */
  function Truncate(t: real): int {
    if t >= 0.0 then t.Floor else -(-t).Floor
  }

  /** Python's `if not s` for an optional string. */
  predicate Given(s: Option<string>) {
    s.Some? && s.value != ""
  }

  predicate StartsWith(s: string, prefix: string) {
    |prefix| <= |s| && s[..|prefix|] == prefix
  }
}
