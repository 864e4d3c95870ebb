/** Python's insertion-ordered `dict`, as a sequence of `(key, value)` pairs
    with pairwise distinct keys. */
module Dict {
  import opened Wrappers
  import Seqs

  predicate UniqueKeys<K(==,!new), V>(d: seq<(K, V)>) {
    forall i, j :: 0 <= i < j < |d| ==> d[i].0 != d[j].0
  }

  type Dict<K(==,!new), V> = d: seq<(K, V)> | UniqueKeys(d) witness []

  /** `list(d.keys())`. */
  function Keys<K, V>(d: seq<(K, V)>): (r: seq<K>)
    ensures |r| == |d|
    ensures forall i :: 0 <= i < |d| ==> r[i] == d[i].0
  {
    if d == [] then [] else [d[0].0] + Keys(d[1..])
  }

  lemma KeysAppend<K(!new), V>(a: seq<(K, V)>, b: seq<(K, V)>)
    ensures Keys(a + b) == Keys(a) + Keys(b)
  {
  }

  /** Position of key `k`. */
  function IndexOf<K(==,!new), V>(d: seq<(K, V)>, k: K): (i: nat)
    requires k in Keys(d)
    ensures i < |d| && d[i].0 == k
    ensures forall j :: 0 <= j < i ==> d[j].0 != k
  {
    if d[0].0 == k then 0 else 1 + IndexOf(d[1..], k)
  }

  /** `d.get(k)`: the value stored under `k`, if any. */
  function Get<K(==,!new), V>(d: seq<(K, V)>, k: K): (r: Option<V>)
    ensures r.Some? <==> k in Keys(d)
  {
    if k in Keys(d) then Some(d[IndexOf(d, k)].1) else None
  }

  /** In a dict, the pair at position `i` is what `Get` returns for its key. */
  lemma GetAt<K(!new), V>(d: Dict<K, V>, i: nat)
    requires i < |d|
    ensures Get(d, d[i].0) == Some(d[i].1)
  {
    assert d[i].0 in Keys(d);
  }

  /** The first pair of a non-empty dict, and the dict of the pairs after it. */
  lemma DictTail<K(!new), V>(d: Dict<K, V>)
    requires d != []
    ensures Keys(d) == [d[0].0] + Keys(d[1..])
    ensures d[0].0 !in Keys(d[1..])
    ensures Get(d, d[0].0) == Some(d[0].1)
    ensures forall k :: k != d[0].0 ==> Get(d[1..], k) == Get(d, k)
  {
    var tail: Dict<K, V> := d[1..];
    assert Keys(d) == [d[0].0] + Keys(tail);
    GetAt(d, 0);
    forall k | k != d[0].0
      ensures Get(tail, k) == Get(d, k)
    {
      if k in Keys(tail) {
        var j := IndexOf(tail, k);
        assert tail[j] == d[j + 1];
        GetAt(tail, j);
        GetAt(d, j + 1);
      }
    }
  }

  /** `k in d`. */
  predicate HasKey<K(==,!new), V>(d: seq<(K, V)>, k: K) {
    k in Keys(d)
  }

  /** `d[k] = v`: an existing key keeps its position and takes the new value,
      a new key is appended. */
  function Put<K(==,!new), V>(d: Dict<K, V>, k: K, v: V): (r: Dict<K, V>)
    ensures Get(r, k) == Some(v)
    ensures forall k' :: k' != k ==> Get(r, k') == Get(d, k')
    ensures Keys(r) == if k in Keys(d) then Keys(d) else Keys(d) + [k]
  {
    if k in Keys(d) then
      var i := IndexOf(d, k);
      var r := d[i := (k, v)];
      assert Keys(r) == Keys(d);
      assert r[i].0 == k;
      GetAt(r, i);
      forall k' | k' != k
        ensures Get(r, k') == Get(d, k')
      {
        if k' in Keys(d) {
          var j := IndexOf(d, k');
          assert r[j] == d[j];
          GetAt(r, j);
        }
      }
      r
    else
      var r := d + [(k, v)];
      KeysAppend(d, [(k, v)]);
      assert UniqueKeys(r);
      GetAt(r, |d|);
      forall k' | k' != k
        ensures Get(r, k') == Get(d, k')
      {
        if k' in Keys(d) {
          var j := IndexOf(d, k');
          assert r[j] == d[j];
          GetAt(r, j);
        }
      }
      r
  }

  /** `[k for k in ks if k not in present]`. */
  function Missing<K(==,!new)>(ks: seq<K>, present: seq<K>): (r: seq<K>)
    ensures forall k :: k in r <==> k in ks && k !in present
  {
    if ks == [] then []
    else if ks[0] in present then Missing(ks[1..], present)
    else [ks[0]] + Missing(ks[1..], present)
  }

  lemma {:induction false} MissingExtend<K(!new)>(ks: seq<K>, present: seq<K>, k: K)
    requires k !in ks
    ensures Missing(ks, present + [k]) == Missing(ks, present)
  {
    if ks != [] {
      MissingExtend(ks[1..], present, k);
    }
  }

  /** `r` is what `d.update(e)` leaves in `d`: a key of `e` takes its value
      from `e`, any other key keeps its value from `d`; the keys of `d` keep
      their positions and the new keys of `e` follow, in `e`'s order. */
  ghost predicate IsUpdate<K(!new), V>(r: seq<(K, V)>, d: seq<(K, V)>, e: seq<(K, V)>) {
    && (forall k :: Get(r, k) == if k in Keys(e) then Get(e, k) else Get(d, k))
    && Keys(r) == Keys(d) + Missing(Keys(e), Keys(d))
  }

  /** `d.update(e)`: the pairs of `e` are stored one by one, in order. */
  function Update<K(==,!new), V>(d: Dict<K, V>, e: Dict<K, V>): (r: Dict<K, V>)
    ensures IsUpdate(r, d, e)
    decreases |e|
  {
    if e == [] then d
    else
      var r := Update(Put(d, e[0].0, e[0].1), e[1..]);
      DictTail(e);
      MissingStep(Keys(d), e[0].0, Keys(e[1..]));
      UpdateStepGet(d, e, r);
      r
  }

  /** One step of `Update` on the key order: storing `k` first, then the keys
      `tk` after it, appends exactly the keys of `[k] + tk` not already there. */
  lemma MissingStep<K(!new)>(ks: seq<K>, k: K, tk: seq<K>)
    requires k !in tk
    ensures var ks1 := if k in ks then ks else ks + [k];
      ks1 + Missing(tk, ks1) == ks + Missing([k] + tk, ks)
  {
    assert ([k] + tk)[1..] == tk;
    if k !in ks {
      MissingExtend(tk, ks, k);
    }
  }

  lemma UpdateStepGet<K(!new), V>(d: Dict<K, V>, e: Dict<K, V>, r: Dict<K, V>)
    requires e != []
    requires forall k :: Get(r, k) == if k in Keys(e[1..]) then Get(e[1..], k) else Get(Put(d, e[0].0, e[0].1), k)
    ensures forall k :: Get(r, k) == if k in Keys(e) then Get(e, k) else Get(d, k)
  {
    DictTail(e);
  }

  /** Two dicts with the same keys in the same order and the same values are
      the same dict. */
  lemma {:induction false} DictExt<K(!new), V>(a: Dict<K, V>, b: Dict<K, V>)
    requires Keys(a) == Keys(b)
    requires forall k :: Get(a, k) == Get(b, k)
    ensures a == b
  {
    forall i | 0 <= i < |a|
      ensures a[i] == b[i]
    {
      assert a[i].0 == b[i].0;
      GetAt(a, i);
      GetAt(b, i);
    }
  }

  /** `dict.update` is determined by its effect: two dicts that are both the
      update of `d` by `e` are equal. */
  lemma IsUpdateUnique<K(!new), V>(r1: Dict<K, V>, r2: Dict<K, V>, d: Dict<K, V>, e: Dict<K, V>)
    requires IsUpdate(r1, d, e) && IsUpdate(r2, d, e)
    ensures r1 == r2
  {
    DictExt(r1, r2);
  }

  /** Updating by an empty dict changes nothing. */
  lemma UpdateByEmpty<K(!new), V>(d: Dict<K, V>)
    ensures Update(d, []) == d
  {
  }

  /** `{k: v for k, v in d.items() if keep(v)}`. */
  function FilterValues<K(==,!new), V>(d: Dict<K, V>, keep: V -> bool): (r: Dict<K, V>)
    ensures forall i :: 0 <= i < |r| ==> keep(r[i].1)
    ensures forall k :: Get(r, k) == if Get(d, k).Some? && keep(Get(d, k).value) then Get(d, k) else None
    ensures forall k :: k in Keys(r) ==> k in Keys(d)
    ensures r == Seqs.Filter(d, (kv: (K, V)) => keep(kv.1))
  {
    if d == [] then []
    else
      var tail: Dict<K, V> := d[1..];
      var rest := FilterValues(tail, keep);
      DictTail(d);
      if keep(d[0].1) then
        DictCons(d[0], rest);
        [d[0]] + rest
      else
        rest
  }

  /** A pair whose key a dict lacks, put in front of it, makes a dict that
      maps that key to its value and every other key as before. */
  lemma DictCons<K(!new), V>(p: (K, V), rest: Dict<K, V>)
    requires p.0 !in Keys(rest)
    ensures UniqueKeys([p] + rest)
    ensures Keys([p] + rest) == [p.0] + Keys(rest)
    ensures Get([p] + rest, p.0) == Some(p.1)
    ensures forall k :: k != p.0 ==> Get([p] + rest, k) == Get(rest, k)
  {
    var r := [p] + rest;
    assert Keys(r) == [p.0] + Keys(rest);
    assert UniqueKeys(r);
    assert r[1..] == rest;
    DictTail(r);
  }

  /** `{prefix + k: v for k, v in d.items()}`. */
  function Prefixed<V>(d: Dict<string, V>, prefix: string): (r: Dict<string, V>)
    ensures |r| == |d|
    ensures forall i :: 0 <= i < |d| ==> r[i] == (prefix + d[i].0, d[i].1)
  {
    var r := seq(|d|, i requires 0 <= i < |d| => (prefix + d[i].0, d[i].1));
    assert UniqueKeys(r) by {
      forall i, j | 0 <= i < j < |r|
        ensures r[i].0 != r[j].0
      {
        assert (prefix + d[i].0)[|prefix|..] == d[i].0;
        assert (prefix + d[j].0)[|prefix|..] == d[j].0;
      }
    }
    r
  }

  /** Every key of a prefixed dict starts with the prefix, and looking up the
      prefixed key finds the original value. */
  lemma PrefixedGet<V>(d: Dict<string, V>, prefix: string, k: string)
    ensures Get(Prefixed(d, prefix), prefix + k) == Get(d, k)
    ensures forall k' :: k' in Keys(Prefixed(d, prefix)) ==> prefix <= k'
  {
    var r := Prefixed(d, prefix);
    if k in Keys(d) {
      var i := IndexOf(d, k);
      GetAt(d, i);
      GetAt(r, i);
    } else {
      forall i | 0 <= i < |r|
        ensures r[i].0 != prefix + k
      {
        assert (prefix + d[i].0)[|prefix|..] == d[i].0;
        assert (prefix + k)[|prefix|..] == k;
      }
    }
  }
}
