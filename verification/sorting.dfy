/** Python's stable sort (`sorted(xs, key=…)`, `xs.sort(key=…, reverse=…)`),
    modelled as a stable insertion sort parameterised by the "may come first"
    relation `le`: `key(a) <= key(b)` for an ascending sort and
    `key(a) >= key(b)` for `reverse=True`.  A stable sort's output is
    determined by the order of the keys alone, so the two agree. */
module Sorting {
  import opened Seqs

  ghost predicate Total<T(!new)>(le: (T, T) -> bool) {
    forall a, b :: le(a, b) || le(b, a)
  }

  ghost predicate Transitive<T(!new)>(le: (T, T) -> bool) {
    forall a, b, c :: le(a, b) && le(b, c) ==> le(a, c)
  }

  /** Every element comes no later than every element after it. */
  ghost predicate SortedBy<T>(xs: seq<T>, le: (T, T) -> bool) {
    forall i, j :: 0 <= i < j < |xs| ==> le(xs[i], xs[j])
  }

  /** Inserts `x` in front of the first element it may precede; the elements
      it passes are those that must come strictly before it. */
  function Insert<T>(x: T, ys: seq<T>, le: (T, T) -> bool): (r: seq<T>)
    ensures |r| == |ys| + 1
    ensures multiset(r) == multiset(ys) + multiset{x}
  {
    if ys == [] || le(x, ys[0]) then [x] + ys
    else
      assert ys == [ys[0]] + ys[1..];
      [ys[0]] + Insert(x, ys[1..], le)
  }

  /** Stable sort: elements that compare equal keep their input order. */
  function SortBy<T>(xs: seq<T>, le: (T, T) -> bool): (r: seq<T>)
    ensures |r| == |xs|
    ensures multiset(r) == multiset(xs)
  {
    if xs == [] then []
    else
      assert xs == [xs[0]] + xs[1..];
      Insert(xs[0], SortBy(xs[1..], le), le)
  }

  lemma {:induction false} InsertSorted<T(!new)>(x: T, ys: seq<T>, le: (T, T) -> bool)
    requires Total(le) && Transitive(le)
    requires SortedBy(ys, le)
    ensures SortedBy(Insert(x, ys, le), le)
  {
    if ys == [] || le(x, ys[0]) {
    } else {
      InsertSorted(x, ys[1..], le);
      var r := Insert(x, ys, le);
      var t := Insert(x, ys[1..], le);
      assert r == [ys[0]] + t;
      forall k | 0 <= k < |t|
        ensures le(ys[0], t[k])
      {
        assert t[k] in multiset(t);
        assert t[k] in multiset(ys[1..]) + multiset{x};
        if t[k] in multiset(ys[1..]) {
          var m :| 0 <= m < |ys[1..]| && ys[1..][m] == t[k];
          assert ys[m + 1] == t[k];
        }
      }
    }
  }

  /** The output of `SortBy` is sorted. */
  lemma {:induction false} SortBySorted<T(!new)>(xs: seq<T>, le: (T, T) -> bool)
    requires Total(le) && Transitive(le)
    ensures SortedBy(SortBy(xs, le), le)
  {
    if xs != [] {
      SortBySorted(xs[1..], le);
      InsertSorted(xs[0], SortBy(xs[1..], le), le);
    }
  }

  /** Sorting keeps the elements: membership is unchanged. */
  lemma SortByMembers<T>(xs: seq<T>, le: (T, T) -> bool)
    ensures forall x :: x in SortBy(xs, le) <==> x in xs
  {
    var r := SortBy(xs, le);
    forall x
      ensures x in r <==> x in xs
    {
      assert x in r <==> x in multiset(r);
      assert x in xs <==> x in multiset(xs);
    }
  }

  /** Inserting `x` does not disturb the relative order of a class of elements
      that `x` may precede. */
  lemma {:induction false} InsertFilter<T>(x: T, ys: seq<T>, le: (T, T) -> bool, p: T -> bool)
    requires p(x) ==> forall i :: 0 <= i < |ys| && p(ys[i]) ==> le(x, ys[i])
    ensures Filter(Insert(x, ys, le), p) == Filter([x], p) + Filter(ys, p)
  {
    if ys == [] || le(x, ys[0]) {
      FilterAppend([x], ys, p);
    } else {
      var y0, rest := ys[0], ys[1..];
      assert ys == [y0] + rest;
      assert p(x) ==> forall i :: 0 <= i < |rest| && p(rest[i]) ==> le(x, rest[i]) by {
        if p(x) {
          forall i | 0 <= i < |rest| && p(rest[i])
            ensures le(x, rest[i])
          {
            assert rest[i] == ys[i + 1];
          }
        }
      }
      InsertFilter(x, rest, le, p);
      assert Insert(x, ys, le) == [y0] + Insert(x, rest, le);
      FilterAppend([y0], Insert(x, rest, le), p);
      FilterAppend([y0], rest, p);
      assert p(y0) ==> !p(x);
      assert Filter([y0], p) == [] || Filter([x], p) == [];
    }
  }

  /** Stability: within a class of elements that may all precede one another,
      sorting keeps the input order. */
  lemma {:induction false} SortByStable<T>(xs: seq<T>, le: (T, T) -> bool, p: T -> bool)
    requires forall a, b :: p(a) && p(b) ==> le(a, b)
    ensures Filter(SortBy(xs, le), p) == Filter(xs, p)
  {
    if xs != [] {
      var x, ys := xs[0], SortBy(xs[1..], le);
      SortByStable(xs[1..], le, p);
      assert p(x) ==> forall i :: 0 <= i < |ys| && p(ys[i]) ==> le(x, ys[i]);
      InsertFilter(x, ys, le, p);
      FilterAppend([x], xs[1..], p);
      assert [x] + xs[1..] == xs;
      assert SortBy(xs, le) == Insert(x, ys, le);
    }
  }

  /** The order of `sort(key=key, reverse=True)`: larger keys first. */
  function GeBy<T>(key: T -> nat): (T, T) -> bool {
    (a, b) => key(a) >= key(b)
  }

  lemma GeByOrder<T(!new)>(key: T -> nat)
    ensures Total(GeBy(key)) && Transitive(GeBy(key))
  {
  }

  /** The elements whose key is `k`. */
  function KeyIs<T>(key: T -> nat, k: nat): T -> bool {
    x => key(x) == k
  }

  /** The elements that tie with `best` on both keys. */
  function Tie<T>(major: T -> nat, minor: T -> nat, best: T): T -> bool {
    x => major(x) == major(best) && minor(x) == minor(best)
  }

  /** Sorting by `minor` and then by `major`, both descending and stable, puts
      first the earliest element (in input order) among those with the
      largest `major` key and, among them, the largest `minor` key. */
  lemma {:induction false} TwoKeyBest<T(!new)>(ms: seq<T>, minor: T -> nat, major: T -> nat)
    requires ms != []
    ensures var best := SortBy(SortBy(ms, GeBy(minor)), GeBy(major))[0];
      && best in ms
      && (forall i :: 0 <= i < |ms| ==> major(ms[i]) <= major(best))
      && (forall i :: 0 <= i < |ms| && major(ms[i]) == major(best) ==> minor(ms[i]) <= minor(best))
      && Filter(ms, Tie(major, minor, best)) != []
      && Filter(ms, Tie(major, minor, best))[0] == best
  {
    var s1 := SortBy(ms, GeBy(minor));
    var f := SortBy(s1, GeBy(major));
    var best := f[0];
    GeByOrder(minor);
    GeByOrder(major);
    SortBySorted(ms, GeBy(minor));
    SortBySorted(s1, GeBy(major));
    SortByMembers(ms, GeBy(minor));
    SortByMembers(s1, GeBy(major));
    assert best in ms;
    forall i | 0 <= i < |ms|
      ensures major(ms[i]) <= major(best)
    {
      assert ms[i] in f;
      var k :| 0 <= k < |f| && f[k] == ms[i];
      if k > 0 {
        assert GeBy(major)(f[0], f[k]);
      }
    }
    var p := KeyIs(major, major(best));
    SortByStable(s1, GeBy(major), p);
    FilterStartsWithHead(f, p);
    var j1 := FilterHead(s1, p);
    assert s1[j1] == best;
    forall i | 0 <= i < |ms| && major(ms[i]) == major(best)
      ensures minor(ms[i]) <= minor(best)
    {
      assert ms[i] in s1;
      var k :| 0 <= k < |s1| && s1[k] == ms[i];
      assert p(s1[k]);
      if k > j1 {
        assert GeBy(minor)(s1[j1], s1[k]);
      }
    }
    var q := Tie(major, minor, best);
    FilterHeadNarrow(s1, p, q, j1);
    SortByStable(ms, GeBy(minor), q);
  }

  /** `TwoKeyBest` applied to the comprehension `[x for x in xs if m(x)]`,
      stated over positions of `xs`. */
  lemma BestOfFilter<T(!new)>(xs: seq<T>, m: T -> bool, minor: T -> nat, major: T -> nat) returns (j: nat)
    requires Filter(xs, m) != []
    ensures var best := SortBy(SortBy(Filter(xs, m), GeBy(minor)), GeBy(major))[0];
      && j < |xs| && xs[j] == best && m(xs[j])
      && (forall k :: 0 <= k < |xs| && m(xs[k]) ==> major(xs[k]) <= major(best))
      && (forall k :: 0 <= k < |xs| && m(xs[k]) && major(xs[k]) == major(best) ==> minor(xs[k]) <= minor(best))
      && (forall k :: 0 <= k < j && m(xs[k]) ==> !Tie(major, minor, best)(xs[k]))
  {
    var ms := Filter(xs, m);
    TwoKeyBest(ms, minor, major);
    var best := SortBy(SortBy(ms, GeBy(minor)), GeBy(major))[0];
    var q := Tie(major, minor, best);
    FilterFilter(xs, m, q);
    j := FilterHead(xs, x => m(x) && q(x));
    forall k | 0 <= k < |xs| && m(xs[k])
      ensures major(xs[k]) <= major(best)
      ensures major(xs[k]) == major(best) ==> minor(xs[k]) <= minor(best)
    {
      assert xs[k] in ms;
      var i :| 0 <= i < |ms| && ms[i] == xs[k];
    }
  }
}
