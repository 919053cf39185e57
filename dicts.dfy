/** Python's insertion-ordered `dict`, as a sequence of key/value pairs. Assigning to a key
    that is present replaces its value in place and keeps its position; a new key goes to
    the end. */
module Dicts {
  import opened Wrappers

  type Dict<K, V> = seq<(K, V)>

  function Keys<K, V>(d: Dict<K, V>): (ks: seq<K>)
    ensures |ks| == |d|
    ensures forall i :: 0 <= i < |d| ==> ks[i] == d[i].0
  {
    seq(|d|, i requires 0 <= i < |d| => d[i].0)
  }

  /** A dict never holds a key twice. */
  ghost predicate UniqueKeys<K, V>(d: Dict<K, V>)
  {
    forall i, j :: 0 <= i < j < |d| ==> d[i].0 != d[j].0
  }

  predicate HasKey<K(==), V>(d: Dict<K, V>, k: K)
  {
    exists i :: 0 <= i < |d| && d[i].0 == k
  }

  /** The position of `k`, scanning from the front. */
  function IndexOf<K(==), V>(d: Dict<K, V>, k: K): (r: Option<nat>)
    ensures r.Some? ==> r.value < |d| && d[r.value].0 == k
    ensures r.Some? ==> forall j :: 0 <= j < r.value ==> d[j].0 != k
    ensures r.None? <==> !HasKey(d, k)
  {
    if d == [] then None
    else if d[0].0 == k then Some(0)
    else match IndexOf(d[1..], k)
      case None => None
      case Some(i) => Some(i + 1)
  }

  lemma IndexOfFirst<K, V>(d: Dict<K, V>, k: K, j: nat)
    requires j < |d| && d[j].0 == k
    requires forall l :: 0 <= l < j ==> d[l].0 != k
    ensures IndexOf(d, k) == Some(j)
  {
    assert HasKey(d, k);
  }

  /** `d.get(k)`: the value of the first pair with key `k`. */
  function Get<K(==), V>(d: Dict<K, V>, k: K): (r: Option<V>)
    ensures r.None? <==> !HasKey(d, k)
  {
    match IndexOf(d, k)
    case None => None
    case Some(i) => Some(d[i].1)
  }

  /** `d[k] = v`. */
  function Put<K(==), V>(d: Dict<K, V>, k: K, v: V): Dict<K, V>
  {
    match IndexOf(d, k)
    case None => d + [(k, v)]
    case Some(i) => d[i := (k, v)]
  }

  lemma PutGet<K, V>(d: Dict<K, V>, k: K, v: V, k': K)
    ensures Get(Put(d, k, v), k') == if k' == k then Some(v) else Get(d, k')
  {
    var e := Put(d, k, v);
    match IndexOf(d, k)
    case None =>
      assert e == d + [(k, v)];
      if k' == k {
        IndexOfFirst(e, k, |d|);
      } else {
        match IndexOf(d, k')
        case None =>
          assert !HasKey(e, k');
        case Some(j) =>
          IndexOfFirst(e, k', j);
      }
    case Some(i) =>
      assert e == d[i := (k, v)];
      if k' == k {
        IndexOfFirst(e, k, i);
      } else {
        match IndexOf(d, k')
        case None =>
          assert !HasKey(e, k');
        case Some(j) =>
          IndexOfFirst(e, k', j);
      }
  }

  /** Assignment keeps keys unique and changes the key list only by appending a new key. */
  lemma PutKeys<K, V>(d: Dict<K, V>, k: K, v: V)
    requires UniqueKeys(d)
    ensures UniqueKeys(Put(d, k, v))
    ensures Keys(Put(d, k, v)) == if HasKey(d, k) then Keys(d) else Keys(d) + [k]
  {
    var e := Put(d, k, v);
    if HasKey(d, k) {
      assert Keys(e) == Keys(d);
    } else {
      assert Keys(e) == Keys(d) + [k];
    }
  }
}
