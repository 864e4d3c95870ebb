/** Sequence helpers: Python's list comprehension `[x for x in xs if p(x)]`
    and the facts about it the rest of the model relies on. */
module Seqs {
  import opened Wrappers

  /** `[x for x in xs if p(x)]`. */
  function Filter<T>(xs: seq<T>, p: T -> bool): (r: seq<T>)
    ensures |r| <= |xs|
    ensures forall i :: 0 <= i < |r| ==> r[i] in xs && p(r[i])
    ensures forall i :: 0 <= i < |xs| && p(xs[i]) ==> xs[i] in r
  {
    if xs == [] then []
    else if p(xs[0]) then [xs[0]] + Filter(xs[1..], p)
    else Filter(xs[1..], p)
  }

  /** Filtering distributes over concatenation. */
  lemma {:induction false} FilterAppend<T>(xs: seq<T>, ys: seq<T>, p: T -> bool)
    ensures Filter(xs + ys, p) == Filter(xs, p) + Filter(ys, p)
  {
    if xs == [] {
      assert xs + ys == ys;
    } else {
      assert (xs + ys)[1..] == xs[1..] + ys;
      FilterAppend(xs[1..], ys, p);
    }
  }

  /** Filtering twice is filtering once by the conjunction. */
  lemma {:induction false} FilterFilter<T>(xs: seq<T>, p: T -> bool, q: T -> bool)
    ensures Filter(Filter(xs, p), q) == Filter(xs, x => p(x) && q(x))
  {
    if xs != [] {
      FilterFilter(xs[1..], p, q);
    }
  }

  /** The head of a non-empty filter is the element at the first index whose
      element satisfies the predicate. */
  lemma {:induction false} FilterHead<T>(xs: seq<T>, p: T -> bool) returns (j: nat)
    requires Filter(xs, p) != []
    ensures j < |xs| && p(xs[j]) && Filter(xs, p)[0] == xs[j]
    ensures forall i :: 0 <= i < j ==> !p(xs[i])
  {
    if p(xs[0]) {
      j := 0;
    } else {
      var k := FilterHead(xs[1..], p);
      j := k + 1;
    }
  }

  /** A sequence whose first element satisfies `p` is the head of its filter. */
  lemma FilterStartsWithHead<T>(xs: seq<T>, p: T -> bool)
    requires xs != [] && p(xs[0])
    ensures Filter(xs, p) != [] && Filter(xs, p)[0] == xs[0]
  {
  }

  /** Filtering by a predicate no element satisfies leaves nothing. */
  lemma FilterNone<T>(xs: seq<T>, p: T -> bool)
    requires forall i :: 0 <= i < |xs| ==> !p(xs[i])
    ensures Filter(xs, p) == []
  {
    if xs != [] {
      FilterNone(xs[1..], p);
    }
  }

  /** `[f(x) for x in xs]`. */
  function Map<T, U>(xs: seq<T>, f: T -> U): (r: seq<U>)
    ensures |r| == |xs|
    ensures forall i :: 0 <= i < |xs| ==> r[i] == f(xs[i])
  {
    seq(|xs|, i requires 0 <= i < |xs| => f(xs[i]))
  }

  /** Index of the first element satisfying `p`: Python's
      `next(i for i, x in enumerate(xs) if p(x))`, with `None` when there is
      none. */
  function FindFirst<T>(xs: seq<T>, p: T -> bool): (r: Option<nat>)
    ensures r.Some? ==> r.value < |xs| && p(xs[r.value])
    ensures r.Some? ==> forall j :: 0 <= j < r.value ==> !p(xs[j])
    ensures r.None? <==> forall j :: 0 <= j < |xs| ==> !p(xs[j])
  {
    if xs == [] then None
    else if p(xs[0]) then Some(0)
    else match FindFirst(xs[1..], p)
      case None => None
      case Some(j) => Some(j + 1)
  }

  /** The first element satisfying `p`: the loop `for x in xs: if p(x):
      return x`, with `None` (or `{}`) when the loop runs out. */
  function FirstWhere<T>(xs: seq<T>, p: T -> bool): (r: Option<T>)
    ensures r.None? <==> forall j :: 0 <= j < |xs| ==> !p(xs[j])
    ensures r.Some? ==> exists j :: 0 <= j < |xs| && r.value == xs[j] && p(xs[j])
                                    && forall i :: 0 <= i < j ==> !p(xs[i])
  {
    match FindFirst(xs, p)
    case None => None
    case Some(j) => Some(xs[j])
  }

  /** Index of the last element satisfying `p`, or `None`. */
  function LastMatch<T>(xs: seq<T>, p: T -> bool): (r: Option<nat>)
    ensures r.None? <==> forall j :: 0 <= j < |xs| ==> !p(xs[j])
    ensures r.Some? ==> r.value < |xs| && p(xs[r.value])
    ensures r.Some? ==> forall j :: r.value < j < |xs| ==> !p(xs[j])
    decreases |xs|
  {
    if xs == [] then None
    else if p(xs[|xs| - 1]) then Some(|xs| - 1)
    else
      var r := LastMatch(xs[..|xs| - 1], p);
      assert forall j :: 0 <= j < |xs| - 1 ==> xs[..|xs| - 1][j] == xs[j];
      r
  }

  /** The first match is the head of the comprehension `[x for x in xs if p(x)]`,
      and there is none exactly when the comprehension is empty. */
  lemma {:induction false} FindFirstFilter<T>(xs: seq<T>, p: T -> bool)
    ensures FindFirst(xs, p).None? <==> Filter(xs, p) == []
    ensures FindFirst(xs, p).Some? ==> Filter(xs, p)[0] == xs[FindFirst(xs, p).value]
  {
    if xs != [] && !p(xs[0]) {
      FindFirstFilter(xs[1..], p);
    }
  }

  /** If `xs[j]` is the first element satisfying `p`, it is also the first
      satisfying any stronger `q` that it satisfies. */
  lemma FilterHeadNarrow<T>(xs: seq<T>, p: T -> bool, q: T -> bool, j: nat)
    requires j < |xs| && q(xs[j])
    requires forall i :: 0 <= i < j ==> !p(xs[i])
    requires forall i :: 0 <= i < |xs| && q(xs[i]) ==> p(xs[i])
    ensures Filter(xs, q) != [] && Filter(xs, q)[0] == xs[j]
  {
    assert xs[j] in Filter(xs, q);
    var k := FilterHead(xs, q);
    assert k == j;
  }
}
