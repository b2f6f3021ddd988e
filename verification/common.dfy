/** Shared vocabulary of the model: optional values, results, and the byte
    cell that image buffers are made of. */
module Common {

  /** A value that may be absent (JavaScript `null` / `undefined`). */
  datatype Option<+T> = None | Some(value: T)

  /** The outcome of an operation that either returns a value or throws. */
  datatype Result<+T, +E> = Ok(value: T) | Err(error: E)

  /** One cell of a `Uint8Array` or `Uint8ClampedArray`. */
  type byte = x: int | 0 <= x < 256

  /** Does `sub` occur in `s` starting at offset `k`? */
  ghost predicate OccursAt(s: string, sub: string, k: int)
  {
    0 <= k && k + |sub| <= |s| && s[k..k + |sub|] == sub
  }

  /** JavaScript's `s.includes(sub)`, stated declaratively. */
  ghost predicate IsSubstring(sub: string, s: string)
  {
    exists k :: OccursAt(s, sub, k)
  }
}
