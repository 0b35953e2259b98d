/**
 * Value wrappers shared by every module.
 *
 * `Outcome` stands for the result of a JavaScript call that may throw: `Crash`
 * is a thrown exception (an `Error`, or a `TypeError` from touching
 * `undefined`).  It supports `:-`, so a throw propagates to the caller exactly
 * as an uncaught exception does.
 */
module Common {

  datatype Option<+T> = None | Some(value: T)

  datatype Outcome<+T> = Ok(value: T) | Crash
  {
    predicate IsFailure() { Crash? }

    function PropagateFailure<U>(): Outcome<U>
      requires Crash?
    {
      Crash
    }

    function Extract(): T
      requires Ok?
    {
      value
    }
  }

  /** Using an `undefined` (or NaN) value where the source goes on to throw. */
  function OrCrash<T>(o: Option<T>): (r: Outcome<T>)
    ensures r.Ok? <==> o.Some?
    ensures o.Some? ==> r.value == o.value
  {
    match o
    case None => Crash
    case Some(v) => Ok(v)
  }

  /** `n` copies of `x`. */
  function Repeat<T>(x: T, n: nat): (r: seq<T>)
    ensures |r| == n
    ensures forall i :: 0 <= i < n ==> r[i] == x
  {
    if n == 0 then [] else [x] + Repeat(x, n - 1)
  }

  /** Flattening of a list of lists (`_.flatten` one level deep). */
  function Flatten<T>(ss: seq<seq<T>>): seq<T>
  {
    if ss == [] then [] else Flatten(ss[..|ss| - 1]) + ss[|ss| - 1]
  }

  lemma FlattenAppend<T>(ss: seq<seq<T>>, s: seq<T>)
    ensures Flatten(ss + [s]) == Flatten(ss) + s
  {
    assert (ss + [s])[..|ss|] == ss;
  }
}
