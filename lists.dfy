/** In-place rewriting of a list, shared by the builders that change the
    elements of their lists index by index. */
module Lists {

  /** The list after every element satisfying `p` became `f` of itself. */
  function Rewritten<T>(xs: seq<T>, p: T -> bool, f: T -> T): seq<T> {
    if xs == [] then []
    else
      var last := xs[|xs| - 1];
      Rewritten(xs[..|xs| - 1], p, f) + [if p(last) then f(last) else last]
  }

  /** Rewriting keeps the length, rewrites exactly the elements satisfying
      the predicate, and leaves the others unchanged. */
  lemma {:induction false} RewrittenAt<T>(xs: seq<T>, p: T -> bool, f: T -> T)
    ensures |Rewritten(xs, p, f)| == |xs|
    ensures forall i :: 0 <= i < |xs| ==>
      Rewritten(xs, p, f)[i] == if p(xs[i]) then f(xs[i]) else xs[i]
  {
    if xs != [] {
      RewrittenAt(xs[..|xs| - 1], p, f);
    }
  }
}
