/** Python's `dict`, as the crawler uses it: an insertion-ordered table in
    which assigning to a present key keeps its position and assigning to a
    new key appends it.  A dictionary is modelled as the sequence of its
    (key, value) entries in insertion order. */
module Dicts {
  import opened Wrappers

  type Dict<K, V> = seq<(K, V)>

  function Keys<K, V>(d: Dict<K, V>): seq<K>
  {
    seq(|d|, i requires 0 <= i < |d| => d[i].0)
  }

  /** A dictionary has each key at most once. */
  predicate Valid<K(==), V>(d: Dict<K, V>)
  {
    forall i, j :: 0 <= i < j < |d| ==> d[i].0 != d[j].0
  }

  /** `d.get(k)`: the value stored under `k`, or None. */
  function Lookup<K(==), V>(d: Dict<K, V>, k: K): (r: Option<V>)
    ensures r.None? <==> k !in Keys(d)
  {
    if d == [] then None
    else
      assert Keys(d) == [d[0].0] + Keys(d[1..]);
      if d[0].0 == k then Some(d[0].1) else Lookup(d[1..], k)
  }

  lemma ValidCons<K, V>(x: (K, V), d: Dict<K, V>)
    ensures Valid([x] + d) <==> Valid(d) && x.0 !in Keys(d)
  {
    var r := [x] + d;
    if Valid(d) && x.0 !in Keys(d) {
      forall i, j | 0 <= i < j < |r| ensures r[i].0 != r[j].0 {
        assert r[j].0 == Keys(d)[j - 1];
        if i > 0 { assert r[i] == d[i - 1] && r[j] == d[j - 1]; }
      }
    }
    if Valid(r) {
      forall i, j | 0 <= i < j < |d| ensures d[i].0 != d[j].0 {
        assert d[i] == r[i + 1] && d[j] == r[j + 1];
      }
      forall j | 0 <= j < |d| ensures Keys(d)[j] != x.0 {
        assert Keys(d)[j] == r[j + 1].0 && x.0 == r[0].0;
      }
    }
  }

  /** `d[k] = v`. */
  function Set<K(==,!new), V>(d: Dict<K, V>, k: K, v: V): (r: Dict<K, V>)
    ensures forall k' {:trigger Lookup(r, k')} :: Lookup(r, k') == if k' == k then Some(v) else Lookup(d, k')
    ensures Keys(r) == if k in Keys(d) then Keys(d) else Keys(d) + [k]
    ensures forall e :: e in r ==> e in d || e == (k, v)
    ensures Valid(d) ==> Valid(r)
  {
    if d == [] then [(k, v)]
    else if d[0].0 == k then
      SetFront(d, k, v);
      [(k, v)] + d[1..]
    else
      var rest := Set(d[1..], k, v);
      SetBehind(d, k, v, rest);
      [d[0]] + rest
  }

  /** Assigning to the first key replaces its entry in place. */
  lemma SetFront<K(!new), V>(d: Dict<K, V>, k: K, v: V)
    requires d != [] && d[0].0 == k
    ensures var r := [(k, v)] + d[1..];
            && (forall k' {:trigger Lookup(r, k')} :: Lookup(r, k') == if k' == k then Some(v) else Lookup(d, k'))
            && Keys(r) == Keys(d) && k in Keys(d)
            && (forall e :: e in r ==> e in d || e == (k, v))
            && (Valid(d) ==> Valid(r))
  {
    var r := [(k, v)] + d[1..];
    assert Keys(d) == [k] + Keys(d[1..]);
    assert Keys(r) == [k] + Keys(d[1..]);
    assert d == [d[0]] + d[1..];
    ValidCons(d[0], d[1..]);
    ValidCons((k, v), d[1..]);
  }

  /** Assigning to a key behind the first keeps the first entry and
      assigns in the rest. */
  lemma SetBehind<K(!new), V>(d: Dict<K, V>, k: K, v: V, rest: Dict<K, V>)
    requires d != [] && d[0].0 != k
    requires forall k' {:trigger Lookup(rest, k')} :: Lookup(rest, k') == if k' == k then Some(v) else Lookup(d[1..], k')
    requires Keys(rest) == if k in Keys(d[1..]) then Keys(d[1..]) else Keys(d[1..]) + [k]
    requires forall e :: e in rest ==> e in d[1..] || e == (k, v)
    requires Valid(d[1..]) ==> Valid(rest)
    ensures var r := [d[0]] + rest;
            && (forall k' {:trigger Lookup(r, k')} :: Lookup(r, k') == if k' == k then Some(v) else Lookup(d, k'))
            && Keys(r) == (if k in Keys(d) then Keys(d) else Keys(d) + [k])
            && (forall e :: e in r ==> e in d || e == (k, v))
            && (Valid(d) ==> Valid(r))
  {
    var r := [d[0]] + rest;
    assert Keys(d) == [d[0].0] + Keys(d[1..]);
    assert Keys(r) == [d[0].0] + Keys(rest);
    assert d == [d[0]] + d[1..];
    ValidCons(d[0], d[1..]);
    ValidCons(d[0], rest);
  }

  /** `d.update(ps)`, and with `d` empty `dict(ps)` or a dict display:
      the entries of `ps` are assigned one after the other. */
  function Update<K(==,!new), V>(d: Dict<K, V>, ps: seq<(K, V)>): (r: Dict<K, V>)
    ensures Keys(d) <= Keys(r)
    ensures forall k :: k in Keys(r) <==> k in Keys(d) || k in Keys(ps)
    ensures |r| <= |d| + |ps|
    ensures forall e :: e in r ==> e in d || e in ps
    ensures Valid(d) ==> Valid(r)
    decreases |ps|
  {
    if ps == [] then d
    else
      assert Keys(ps) == [ps[0].0] + Keys(ps[1..]);
      Update(Set(d, ps[0].0, ps[0].1), ps[1..])
  }

  /** The entry at position `j` is the last one of `ps` with key `k`. */
  predicate LastWith<K(==), V>(ps: seq<(K, V)>, k: K, j: int)
  {
    0 <= j < |ps| && ps[j].0 == k && forall i :: j < i < |ps| ==> ps[i].0 != k
  }

  /** The position of the last entry of `ps` with key `k`, or -1 when no
      entry has that key. */
  function LastAt<K(==), V>(ps: seq<(K, V)>, k: K): (j: int)
    ensures -1 <= j < |ps|
    ensures j >= 0 ==> LastWith(ps, k, j)
    ensures j < 0 <==> k !in Keys(ps)
    decreases |ps|
  {
    if ps == [] then -1
    else
      assert Keys(ps) == [ps[0].0] + Keys(ps[1..]);
      var j := LastAt(ps[1..], k);
      if j >= 0 then
        assert ps[j + 1] == ps[1..][j];
        j + 1
      else if ps[0].0 == k then
        assert forall i :: 0 < i < |ps| ==> ps[i].0 == Keys(ps[1..])[i - 1];
        0
      else -1
  }

  /** After an update, a key assigned by `ps` holds the value of its last
      assignment; every other key keeps its old value. */
  lemma {:induction false} UpdateLookup<K(!new), V>(d: Dict<K, V>, ps: seq<(K, V)>, k: K)
    ensures k !in Keys(ps) ==> Lookup(Update(d, ps), k) == Lookup(d, k)
    ensures k in Keys(ps) ==> Lookup(Update(d, ps), k) == Some(ps[LastAt(ps, k)].1)
    decreases |ps|
  {
    if ps != [] {
      var d' := Set(d, ps[0].0, ps[0].1);
      assert Update(d, ps) == Update(d', ps[1..]);
      assert Keys(ps) == [ps[0].0] + Keys(ps[1..]);
      UpdateLookup(d', ps[1..], k);
      var j := LastAt(ps[1..], k);
      if j >= 0 {
        assert LastAt(ps, k) == j + 1;
        assert ps[1..][j] == ps[j + 1];
      } else if ps[0].0 == k {
        assert LastAt(ps, k) == 0;
        assert Lookup(d', k) == Some(ps[0].1);
      } else {
        assert Lookup(d', k) == Lookup(d, k);
      }
    }
  }

  /** In a valid dictionary the entry at position `i` is the one `Lookup` finds. */
  lemma {:induction false} LookupAt<K, V>(d: Dict<K, V>, i: int)
    requires Valid(d) && 0 <= i < |d|
    ensures Lookup(d, d[i].0) == Some(d[i].1)
  {
    if i > 0 {
      assert d[0].0 != d[i].0;
      LookupAt(d[1..], i - 1);
    }
  }

  /** Updating with a dictionary (one entry per key): the keys it holds take
      its values, the others keep theirs. */
  lemma UpdateWithDict<K(!new), V>(d: Dict<K, V>, e: Dict<K, V>, k: K)
    requires Valid(e)
    ensures Lookup(Update(d, e), k) == if k in Keys(e) then Lookup(e, k) else Lookup(d, k)
  {
    UpdateLookup(d, e, k);
    if k in Keys(e) {
      LookupAt(e, LastAt(e, k));
    }
  }

  /** Two valid dictionaries with the same keys in the same order and the
      same value under every key are the same dictionary. */
  lemma {:induction false} Extensionality<K, V>(a: Dict<K, V>, b: Dict<K, V>)
    requires Valid(a) && Valid(b) && Keys(a) == Keys(b)
    requires forall k :: Lookup(a, k) == Lookup(b, k)
    ensures a == b
  {
    assert |a| == |Keys(a)| == |b|;
    forall i | 0 <= i < |a| ensures a[i] == b[i] {
      assert a[i].0 == Keys(a)[i] == b[i].0;
      LookupAt(a, i);
      LookupAt(b, i);
    }
  }

  /** Merging the same dictionary twice gives the same result as merging it once. */
  lemma UpdateIdempotent<K(!new), V>(d: Dict<K, V>, e: Dict<K, V>)
    requires Valid(d) && Valid(e)
    ensures Update(Update(d, e), e) == Update(d, e)
  {
    var once := Update(d, e);
    var twice := Update(once, e);
    assert Keys(once) <= Keys(twice);
    assert |Keys(twice)| == |Keys(once)| by {
      KeysNoGrowth(once, e);
    }
    forall k ensures Lookup(twice, k) == Lookup(once, k) {
      UpdateWithDict(once, e, k);
      UpdateWithDict(d, e, k);
    }
    Extensionality(twice, once);
  }

  /** Updating with keys that are all present already adds no entry. */
  lemma {:induction false} KeysNoGrowth<K(!new), V>(d: Dict<K, V>, ps: seq<(K, V)>)
    requires forall k :: k in Keys(ps) ==> k in Keys(d)
    ensures Keys(Update(d, ps)) == Keys(d)
    decreases |ps|
  {
    if ps != [] {
      assert Keys(ps) == [ps[0].0] + Keys(ps[1..]);
      KeysNoGrowth(Set(d, ps[0].0, ps[0].1), ps[1..]);
    }
  }

  /** `[x for x in xs if p(x)]` / `list(filter(p, xs))`. */
  function Filter<T(!new)>(p: T -> bool, xs: seq<T>): (r: seq<T>)
    ensures forall i :: 0 <= i < |r| ==> p(r[i])
  {
    if xs == [] then []
    else (if p(xs[0]) then [xs[0]] else []) + Filter(p, xs[1..])
  }

  /** Filtering drops exactly the elements that fail `p`: every other
      element is kept as often as it occurs. */
  lemma {:induction false} FilterCounts<T(!new)>(p: T -> bool, xs: seq<T>, x: T)
    ensures multiset(Filter(p, xs))[x] == if p(x) then multiset(xs)[x] else 0
  {
    if xs != [] {
      assert xs == [xs[0]] + xs[1..];
      FilterCounts(p, xs[1..], x);
    }
  }

  /** Filtering keeps the order: it distributes over concatenation. */
  lemma {:induction false} FilterAppend<T(!new)>(p: T -> bool, a: seq<T>, b: seq<T>)
    ensures Filter(p, a + b) == Filter(p, a) + Filter(p, b)
  {
    if a == [] {
      assert a + b == b;
    } else {
      assert (a + b)[0] == a[0];
      assert (a + b)[1..] == a[1..] + b;
      FilterAppend(p, a[1..], b);
    }
  }
}
