/** Optional values and the outcome of a decoding step. */
module Outcomes {

  /** A value that may be missing: Java's null. */
  datatype Option<+T> = None | Some(value: T)

  /**
   * The outcome of a loader: a value, or one of the ways a load can end.
   * Malformed is MalformedSaveException, IOError is IOException, and Crash is a Java
   * runtime exception (an out-of-bounds array index) that no loader catches.
   */
  datatype Outcome<+T> = Ok(value: T) | Malformed | IOError | Crash {

    predicate IsFailure() {
      !Ok?
    }

    /** The same failure, carrying a different value type. */
    function PropagateFailure<U>(): (r: Outcome<U>)
      requires !Ok?
      ensures r.Malformed? == Malformed? && r.IOError? == IOError? && r.Crash? == Crash?
    {
      match this
      case Malformed => Malformed
      case IOError => IOError
      case Crash => Crash
    }

    function Extract(): T
      requires Ok?
    {
      value
    }
  }

  /** Puts `front` before the list that `rest` carries; a failure passes through unchanged. */
  function Prepend<T>(front: seq<T>, rest: Outcome<seq<T>>): (r: Outcome<seq<T>>)
    ensures r.Ok? == rest.Ok?
    ensures r.Ok? ==> r.value == front + rest.value
    ensures !r.Ok? ==> r == rest
  {
    match rest
    case Ok(v) => Ok(front + v)
    case _ => rest
  }

  /** Prepending nothing changes nothing, and prepending twice prepends the concatenation. */
  lemma PrependLaws<T>(a: seq<T>, b: seq<T>, rest: Outcome<seq<T>>)
    ensures Prepend([], rest) == rest
    ensures Prepend(a, Prepend(b, rest)) == Prepend(a + b, rest)
  {
    if rest.Ok? {
      assert [] + rest.value == rest.value;
      assert a + (b + rest.value) == (a + b) + rest.value;
    }
  }
}
