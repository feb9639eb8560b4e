/** Small value-level helpers shared by the model: an Option type, Python's
    `dict.get(k, [])` / `setdefault(k, []).append(x)` on maps of lists, and
    insertion-ordered dictionaries (Python 3 dicts keep insertion order, and the
    engine iterates over several of them). */
module Collections {

  datatype Option<T> = None | Some(value: T)

  /** `m.get(k, [])` */
  function Lookup<K, X>(m: map<K, seq<X>>, k: K): seq<X>
  {
    if k in m then m[k] else []
  }

  /** `m.setdefault(k, []).append(x)` on a map whose values are lists. */
  function AppendTo<K, X>(m: map<K, seq<X>>, k: K, x: X): (r: map<K, seq<X>>)
    ensures r.Keys == m.Keys + {k}
    ensures r[k] == Lookup(m, k) + [x]
    ensures forall k' :: k' in m && k' != k ==> r[k'] == m[k']
  {
    m[k := Lookup(m, k) + [x]]
  }

  /** An insertion-ordered dictionary: (key, value) pairs in insertion order. */
  type Entries<K, V> = seq<(K, V)>

  ghost predicate DistinctKeys<K, V>(e: Entries<K, V>)
  {
    forall i, j :: 0 <= i < j < |e| ==> e[i].0 != e[j].0
  }

  function KeysOf<K, V>(e: Entries<K, V>): (r: seq<K>)
    ensures |r| == |e|
    ensures forall i :: 0 <= i < |e| ==> r[i] == e[i].0
  {
    if e == [] then [] else [e[0].0] + KeysOf(e[1..])
  }

  /** `d.values()` in order */
  function ValuesOf<K, V>(e: Entries<K, V>): (r: seq<V>)
    ensures |r| == |e|
    ensures forall i :: 0 <= i < |e| ==> r[i] == e[i].1
  {
    if e == [] then [] else [e[0].1] + ValuesOf(e[1..])
  }

  /** Position of key `k`, if present. */
  function IndexOf<K(==), V>(e: Entries<K, V>, k: K): (r: Option<nat>)
    ensures r.Some? ==> r.value < |e| && e[r.value].0 == k
    ensures r.Some? ==> forall j :: 0 <= j < r.value ==> e[j].0 != k
    ensures r.None? <==> forall j :: 0 <= j < |e| ==> e[j].0 != k
  {
    if e == [] then None
    else if e[0].0 == k then Some(0)
    else match IndexOf(e[1..], k)
      case None => None
      case Some(i) => Some(i + 1)
  }

  /** `d.get(k)` */
  function Get<K(==), V>(e: Entries<K, V>, k: K): (r: Option<V>)
    ensures r.None? <==> forall j :: 0 <= j < |e| ==> e[j].0 != k
  {
    match IndexOf(e, k)
    case None => None
    case Some(i) => Some(e[i].1)
  }

  /** `d[k] = v`: replaces the value in place when `k` is present, appends otherwise. */
  function Put<K(==), V>(e: Entries<K, V>, k: K, v: V): (r: Entries<K, V>)
    ensures IndexOf(e, k).Some? ==> |r| == |e| && r == e[IndexOf(e, k).value := (k, v)]
    ensures IndexOf(e, k).None? ==> r == e + [(k, v)]
  {
    match IndexOf(e, k)
    case None => e + [(k, v)]
    case Some(i) => e[i := (k, v)]
  }

  /** `d[k].append(x)` on a `defaultdict(list)`. */
  function AppendUnder<K(==), X>(e: Entries<K, seq<X>>, k: K, x: X): (r: Entries<K, seq<X>>)
  {
    match Get(e, k)
    case None => Put(e, k, [x])
    case Some(xs) => Put(e, k, xs + [x])
  }

  /** `{**a, **b}`: every entry of `b` assigned, in order, onto `a`. */
  function Merge<K(==), V>(a: Entries<K, V>, b: Entries<K, V>): Entries<K, V>
    decreases |b|
  {
    if b == [] then a else Merge(Put(a, b[0].0, b[0].1), b[1..])
  }

  /** The first position holding `k` is what `IndexOf` finds. */
  lemma IndexOfFirst<K, V>(e: Entries<K, V>, k: K, j: nat)
    requires j < |e| && e[j].0 == k
    requires forall l :: 0 <= l < j ==> e[l].0 != k
    ensures IndexOf(e, k) == Some(j)
  {
    var r := IndexOf(e, k);
    assert r.Some?;
    assert !(r.value < j);
    assert !(r.value > j);
  }

  lemma {:induction false} IndexOfDistinct<K, V>(e: Entries<K, V>, i: nat)
    requires DistinctKeys(e) && i < |e|
    ensures IndexOf(e, e[i].0) == Some(i)
  {
  }

  lemma {:induction false} PutKeepsDistinct<K, V>(e: Entries<K, V>, k: K, v: V)
    requires DistinctKeys(e)
    ensures DistinctKeys(Put(e, k, v))
  {
  }

  /** Reading back a key after `d[k] = v`. */
  lemma {:induction false} GetPut<K, V>(e: Entries<K, V>, k: K, v: V, k': K)
    ensures Get(Put(e, k, v), k') == if k' == k then Some(v) else Get(e, k')
  {
    var r := Put(e, k, v);
    match IndexOf(e, k)
    case None =>
      if k' == k {
        assert r[|e|].0 == k;
        assert IndexOf(r, k') == Some(|e|);
      } else {
        match IndexOf(e, k')
        case None =>
          assert forall j :: 0 <= j < |r| ==> r[j].0 != k';
        case Some(j) =>
          IndexOfFirst(r, k', j);
      }
    case Some(i) =>
      if k' == k {
        IndexOfFirst(r, k', i);
      } else {
        match IndexOf(e, k')
        case None =>
          assert forall j :: 0 <= j < |r| ==> r[j].0 != k';
        case Some(j) =>
          IndexOfFirst(r, k', j);
      }
  }

  /** `{**a, **b}[k]` is `b[k]` when `b` has `k`, and `a[k]` otherwise. */
  lemma {:induction false} GetMerge<K, V>(a: Entries<K, V>, b: Entries<K, V>, k: K)
    requires DistinctKeys(b)
    ensures Get(Merge(a, b), k) == if Get(b, k).Some? then Get(b, k) else Get(a, k)
    decreases |b|
  {
    if b != [] {
      var a' := Put(a, b[0].0, b[0].1);
      assert DistinctKeys(b[1..]);
      GetMerge(a', b[1..], k);
      GetPut(a, b[0].0, b[0].1, k);
      if k == b[0].0 {
        assert Get(b, k) == Some(b[0].1);
        assert forall j :: 0 <= j < |b[1..]| ==> b[1..][j].0 != k;
      } else {
        assert IndexOf(b, k) == match IndexOf(b[1..], k) case None => None case Some(i) => Some(i + 1);
      }
    }
  }

  /** `d[k].append(x)` on a `defaultdict(list)` extends exactly the list under `k`
      (starting it when absent) and leaves every other key's list as it was. */
  lemma GetAppendUnder<K, X>(e: Entries<K, seq<X>>, k: K, x: X, k': K)
    ensures Get(AppendUnder(e, k, x), k') ==
      if k' == k then Some((if Get(e, k).Some? then Get(e, k).value else []) + [x]) else Get(e, k')
  {
    match Get(e, k)
    case None =>
      assert [] + [x] == [x];
      GetPut(e, k, [x], k');
    case Some(xs) => GetPut(e, k, xs + [x], k');
  }

  /** The keys keep their order; a new key goes last. */
  lemma AppendUnderKeys<K, X>(e: Entries<K, seq<X>>, k: K, x: X)
    ensures KeysOf(AppendUnder(e, k, x)) == if Get(e, k).Some? then KeysOf(e) else KeysOf(e) + [k]
  {
    var r := AppendUnder(e, k, x);
    if Get(e, k).Some? {
      assert KeysOf(r) == KeysOf(e);
    } else {
      assert KeysOf(r) == KeysOf(e) + [k];
    }
  }
}
