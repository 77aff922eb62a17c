/**
 * Array helpers shared by the dashboard pages and editors: `Array.filter`
 * with a predicate, the subsequence relation it establishes, and removal of
 * every element equal to a value (`filter((t) => t !== x)`).
 */
module Lists {

  /** `xs.filter(keep)`. */
  function Filter<T>(xs: seq<T>, keep: T -> bool): (r: seq<T>)
    ensures |r| <= |xs|
    ensures forall k :: 0 <= k < |r| ==> r[k] in xs && keep(r[k])
    ensures forall k :: 0 <= k < |xs| && keep(xs[k]) ==> xs[k] in r
  {
    if xs == [] then []
    else if keep(xs[0]) then [xs[0]] + Filter(xs[1..], keep)
    else Filter(xs[1..], keep)
  }

  /** `small` can be obtained from `big` by deleting elements, keeping order. */
  ghost predicate IsSubsequence<T>(small: seq<T>, big: seq<T>)
    decreases |big|
  {
    if small == [] then true
    else if big == [] then false
    else (small[0] == big[0] && IsSubsequence(small[1..], big[1..])) || IsSubsequence(small, big[1..])
  }

  /** A filtered array keeps the relative order of the elements it retains. */
  lemma {:induction false} FilterIsSubsequence<T>(xs: seq<T>, keep: T -> bool)
    ensures IsSubsequence(Filter(xs, keep), xs)
  {
    if xs != [] {
      FilterIsSubsequence(xs[1..], keep);
    }
  }

  /** A predicate that holds everywhere keeps the whole array. */
  lemma {:induction false} FilterAll<T>(xs: seq<T>, keep: T -> bool)
    requires forall k :: 0 <= k < |xs| ==> keep(xs[k])
    ensures Filter(xs, keep) == xs
  {
    if xs != [] {
      FilterAll(xs[1..], keep);
    }
  }

  /** `xs.filter((x) => x !== v)`: every element equal to `v` removed. */
  function RemoveAll<T(==)>(xs: seq<T>, v: T): (r: seq<T>)
    ensures v !in r
    ensures forall k :: 0 <= k < |r| ==> r[k] in xs
    ensures forall k :: 0 <= k < |xs| && xs[k] != v ==> xs[k] in r
    ensures IsSubsequence(r, xs)
  {
    FilterIsSubsequence(xs, x => x != v);
    Filter(xs, x => x != v)
  }

  /** No element occurs twice. */
  predicate NoDuplicates<T(==)>(xs: seq<T>)
  {
    forall i, j :: 0 <= i < j < |xs| ==> xs[i] != xs[j]
  }

  /** Filtering a duplicate-free array leaves it duplicate-free. */
  lemma {:induction false} FilterNoDuplicates<T>(xs: seq<T>, keep: T -> bool)
    requires NoDuplicates(xs)
    ensures NoDuplicates(Filter(xs, keep))
  {
    if xs != [] {
      FilterNoDuplicates(xs[1..], keep);
      assert xs[0] !in xs[1..];
    }
  }

  /** Appending a value not yet present keeps an array duplicate-free. */
  lemma AppendFreshNoDuplicates<T>(xs: seq<T>, v: T)
    requires NoDuplicates(xs) && v !in xs
    ensures NoDuplicates(xs + [v])
  {
  }
}
