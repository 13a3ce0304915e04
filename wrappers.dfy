/** Small helpers shared by every module of the model: an optional value, `Min` and concatenation regrouping. */
module Wrappers {

  /** A value that may be absent, as Python's `None` or a failed lookup. */
  datatype Option<+T> = None | Some(value: T)

  function Min(a: int, b: int): (m: int)
    ensures m <= a && m <= b && (m == a || m == b)
  {
    if a <= b then a else b
  }

  /** Concatenation regroups freely; stated once so that long proofs need not re-derive it. */
  lemma AppendAssoc<T>(x: seq<T>, y: seq<T>, z: seq<T>)
    ensures x + (y + z) == (x + y) + z
  {
  }
}
