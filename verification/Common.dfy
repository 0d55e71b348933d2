/** Small value types shared by the model. */
module Common {
  /** An absent or present value: a missing field, a SQL NULL, a failed lookup. */
  datatype Option<+T> = None | Some(value: T)

  /** `a ?? b`, and SQL's COALESCE(a, b). */
  function Coalesce<T>(a: Option<T>, b: T): T {
    if a.Some? then a.value else b
  }

  function Last<T>(s: seq<T>): T
    requires s != []
  {
    s[|s| - 1]
  }

  function Front<T>(s: seq<T>): seq<T>
    requires s != []
  {
    s[..|s| - 1]
  }

  lemma ConcatAssociates<T>(a: seq<T>, b: seq<T>, c: seq<T>)
    ensures (a + b) + c == a + (b + c)
  {
  }
}
