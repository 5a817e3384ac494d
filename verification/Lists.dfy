/** Taking a list apart and searching it. */
module Lists {

  function Last<T>(xs: seq<T>): T
    requires xs != []
  {
    xs[|xs| - 1]
  }

  function Init<T>(xs: seq<T>): seq<T>
    requires xs != []
  {
    xs[..|xs| - 1]
  }

  /** `findIndex`, with |xs| for "not found". */
  function FindFirst<T>(xs: seq<T>, f: T -> bool): (i: nat)
    ensures i <= |xs| && (i < |xs| ==> f(xs[i]))
    ensures forall k :: 0 <= k < i ==> !f(xs[k])
  {
    if xs == [] then 0 else if f(xs[0]) then 0 else 1 + FindFirst(xs[1..], f)
  }
}
