/** Sequence helpers shared by the query-like parts of the model: `select` and `sum`. */
module Collections {

  /** Ruby's `select`: the elements that satisfy `keep`, in their original order. */
  function Select<T(!new)>(xs: seq<T>, keep: T -> bool): (out: seq<T>)
    ensures |out| <= |xs|
    ensures forall x :: x in out <==> x in xs && keep(x)
    ensures forall x :: multiset(out)[x] == if keep(x) then multiset(xs)[x] else 0
    decreases |xs|
  {
    if xs == [] then []
    else
      assert xs == xs[..|xs| - 1] + [xs[|xs| - 1]];
      Select(xs[..|xs| - 1], keep) + (if keep(xs[|xs| - 1]) then [xs[|xs| - 1]] else [])
  }

  /** A non-empty sequence is its front followed by its last element. */
  lemma SplitLast<T>(xs: seq<T>)
    requires xs != []
    ensures xs == xs[..|xs| - 1] + [xs[|xs| - 1]]
  {
  }

  /** Ruby's `sum` over integers. */
  function Sum(xs: seq<int>): int
    decreases |xs|
  {
    if xs == [] then 0 else xs[0] + Sum(xs[1..])
  }
}
