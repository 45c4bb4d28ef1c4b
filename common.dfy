/** Small value types shared by several components. */
module Common {

  /** A value that may be absent (a JavaScript `undefined`, or "no spawn this frame"). */
  datatype Option<T> = None | Some(value: T)

  function Max(a: real, b: real): real { if a >= b then a else b }

  function Min(a: real, b: real): real { if a <= b then a else b }
}
