/** Small generic pieces: an optional value (Python's `None`-or-value and
    `dict.get(key, default)`) and the concatenation of a list of lists
    (`list.extend` repeated in order). */
module Common {

  datatype Option<+T> = None | Some(value: T) {
    /** `d.get(key, default)`: the value when present, the default otherwise. */
    function GetOr(default: T): T {
      match this
      case Some(v) => v
      case None => default
    }
  }

  /** Concatenates the lists in order: `[x for xs in xss for x in xs]`. */
  function Concat<T>(xss: seq<seq<T>>): seq<T>
  {
    if xss == [] then [] else Concat(xss[..|xss| - 1]) + xss[|xss| - 1]
  }

  /** Concatenating one more list appends it. */
  lemma ConcatSnoc<T>(xss: seq<seq<T>>, yss: seq<seq<T>>, ys: seq<T>)
    requires xss == yss + [ys]
    ensures Concat(xss) == Concat(yss) + ys
  {
    assert xss[..|xss| - 1] == yss;
  }
}
