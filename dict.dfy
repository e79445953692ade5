/**
 * Python's insertion-ordered `dict` with string keys, kept as the sequence of its
 * (key, value) entries in insertion order. Lookups find the first entry with the key;
 * assignment overwrites an existing entry where it stands and appends a new key at the end.
 */
module Dict {
  import opened Options

  type Dict<V> = seq<(string, V)>

  function Keys<V>(d: Dict<V>): seq<string> {
    seq(|d|, i requires 0 <= i < |d| => d[i].0)
  }

  /** The position of the first entry with key `k`, if any. */
  function Find<V>(d: Dict<V>, k: string): (r: Option<nat>)
    ensures r.Some? ==> r.value < |d| && d[r.value].0 == k
    ensures r.Some? ==> forall j :: 0 <= j < r.value ==> d[j].0 != k
    ensures r.None? ==> forall j :: 0 <= j < |d| ==> d[j].0 != k
  {
    if d == [] then None
    else if d[0].0 == k then Some(0)
    else
      match Find(d[1..], k)
      case None => None
      case Some(i) => Some(i + 1)
  }

  /** Where a key is found depends on the keys alone. */
  lemma FindSameKeys<V>(d: Dict<V>, e: Dict<V>)
    requires Keys(d) == Keys(e)
    ensures forall k :: Find(d, k) == Find(e, k)
  {
    forall k ensures Find(d, k) == Find(e, k) {
      assert forall j :: 0 <= j < |d| ==> d[j].0 == Keys(d)[j] == Keys(e)[j] == e[j].0;
    }
  }

  /** A non-empty sequence is its prefix followed by its last element. */
  lemma LastSplit<T>(xs: seq<T>)
    requires xs != []
    ensures xs[..|xs| - 1] + [xs[|xs| - 1]] == xs
  {
  }

  /** `k in d` */
  predicate HasKey<V>(d: Dict<V>, k: string) {
    Find(d, k).Some?
  }

  /** `d.get(k)` */
  function Get<V>(d: Dict<V>, k: string): Option<V> {
    match Find(d, k)
    case None => None
    case Some(i) => Some(d[i].1)
  }

  /** No key occurs twice: what a Python dict always is. */
  predicate DistinctKeys<V>(d: Dict<V>) {
    forall i, j :: 0 <= i < j < |d| ==> d[i].0 != d[j].0
  }

  /** Looking a key up in two entry lists one after the other. */
  lemma GetConcat<V>(a: Dict<V>, b: Dict<V>, k: string)
    ensures Get(a + b, k) == if HasKey(a, k) then Get(a, k) else Get(b, k)
  {
    var ab := a + b;
    match Find(a, k)
    case Some(i) =>
      assert ab[i] == a[i];
    case None =>
      match Find(b, k)
      case Some(i) =>
        assert ab[|a| + i] == b[i];
        assert forall j :: |a| <= j < |a| + i ==> ab[j] == b[j - |a|];
      case None =>
        assert forall j :: |a| <= j < |ab| ==> ab[j] == b[j - |a|];
  }

  /** In a dict (whose keys are distinct), the last entry is found under its key. */
  lemma GetLastEntry<V>(d: Dict<V>, k: string)
    requires DistinctKeys(d) && d != []
    ensures Get(d, k) == if k == d[|d| - 1].0 then Some(d[|d| - 1].1) else Get(d[..|d| - 1], k)
  {
    var n := |d| - 1;
    LastSplit(d);
    GetConcat(d[..n], [d[n]], k);
    if k == d[n].0 {
      assert !HasKey(d[..n], k);
    }
  }

  /** A key all of whose entries carry `v`, and that has one, looks up to `v`. */
  lemma GetUniform<V>(d: Dict<V>, k: string, v: V)
    requires (k, v) in d
    requires forall p :: p in d && p.0 == k ==> p.1 == v
    ensures Get(d, k) == Some(v)
  {
    var i :| 0 <= i < |d| && d[i] == (k, v);
    assert Find(d, k).Some?;
    assert d[Find(d, k).value] in d;
  }

  /** A key that no entry has looks up to nothing. */
  lemma GetAbsentKey<V>(d: Dict<V>, k: string)
    requires forall p :: p in d ==> p.0 != k
    ensures Get(d, k) == None
  {
  }

  /** `d[k] = v`: overwrites the entry of `k` in place when there is one, otherwise appends. */
  function Put<V>(d: Dict<V>, k: string, v: V): (r: Dict<V>)
    ensures Get(r, k) == Some(v)
    ensures forall k' :: k' != k ==> Get(r, k') == Get(d, k')
    ensures Keys(r) == if HasKey(d, k) then Keys(d) else Keys(d) + [k]
  {
    match Find(d, k)
    case Some(i) =>
      var r := d[i := (k, v)];
      assert Keys(r) == Keys(d);
      FindSameKeys(d, r);
      r
    case None =>
      var r := d + [(k, v)];
      assert Keys(r) == Keys(d) + [k];
      assert forall k' :: Get(r, k') == if HasKey(d, k') then Get(d, k') else Get([(k, v)], k') by {
        forall k' { GetConcat(d, [(k, v)], k'); }
      }
      r
  }

  /** The value of the last pair with key `k`. */
  function LastValue<V>(keys: seq<string>, vals: seq<V>, k: string): Option<V>
    requires |keys| == |vals|
    decreases |keys|
  {
    if keys == [] then None
    else if keys[|keys| - 1] == k then Some(vals[|vals| - 1])
    else LastValue(keys[..|keys| - 1], vals[..|vals| - 1], k)
  }

  /** `dict(zip(keys, vals))`: `keys[j]` assigned `vals[j]` one pair after the other. */
  function Pairs<V>(keys: seq<string>, vals: seq<V>): (r: Dict<V>)
    requires |keys| == |vals|
    ensures forall k :: Get(r, k) == LastValue(keys, vals, k)
    decreases |keys|
  {
    if keys == [] then []
    else Put(Pairs(keys[..|keys| - 1], vals[..|vals| - 1]), keys[|keys| - 1], vals[|vals| - 1])
  }

  lemma PairsAppend<V>(keys: seq<string>, vals: seq<V>, k: string, v: V)
    requires |keys| == |vals|
    ensures Pairs(keys + [k], vals + [v]) == Put(Pairs(keys, vals), k, v)
  {
    assert (keys + [k])[..|keys|] == keys && (vals + [v])[..|vals|] == vals;
  }

  /** A key maps to the value of its last pair. */
  lemma {:induction false} PairsLast<V>(keys: seq<string>, vals: seq<V>, i: nat)
    requires |keys| == |vals| && i < |keys|
    requires forall j :: i < j < |keys| ==> keys[j] != keys[i]
    ensures LastValue(keys, vals, keys[i]) == Some(vals[i])
    decreases |keys|
  {
    var n := |keys| - 1;
    if i < n {
      var pk, pv := keys[..n], vals[..n];
      assert pk[i] == keys[i] && pv[i] == vals[i];
      PairsLast(pk, pv, i);
    }
  }

  /** A key of no pair is not in the dict. */
  lemma {:induction false} PairsAbsent<V>(keys: seq<string>, vals: seq<V>, k: string)
    requires |keys| == |vals|
    requires forall j :: 0 <= j < |keys| ==> keys[j] != k
    ensures LastValue(keys, vals, k) == None
    decreases |keys|
  {
    if keys != [] {
      PairsAbsent(keys[..|keys| - 1], vals[..|vals| - 1], k);
    }
  }

  /** `d.setdefault(k, v)` as far as `d` is concerned: adds `k` only when it is missing. */
  function SetDefault<V>(d: Dict<V>, k: string, v: V): (r: Dict<V>)
    ensures Get(r, k) == if HasKey(d, k) then Get(d, k) else Some(v)
    ensures HasKey(r, k)
    ensures forall k' :: k' != k ==> Get(r, k') == Get(d, k')
    ensures Keys(r) == if HasKey(d, k) then Keys(d) else Keys(d) + [k]
  {
    if HasKey(d, k) then d else Put(d, k, v)
  }

  /** Assignment keeps the keys distinct: an existing key is overwritten, a new one appended. */
  lemma PutDistinct<V>(d: Dict<V>, k: string, v: V)
    requires DistinctKeys(d)
    ensures DistinctKeys(Put(d, k, v)) && DistinctKeys(SetDefault(d, k, v))
  {
    var r := Put(d, k, v);
    assert forall i :: 0 <= i < |r| ==> r[i].0 == Keys(r)[i];
    assert forall i :: 0 <= i < |d| ==> d[i].0 == Keys(d)[i];
  }

  /** The sum of `f` over the values, in entry order. */
  function SumBy<V>(d: Dict<V>, f: V -> nat): nat
    decreases |d|
  {
    if d == [] then 0 else SumBy(d[..|d| - 1], f) + f(d[|d| - 1].1)
  }

  lemma SumByAppend<V>(d: Dict<V>, x: (string, V), f: V -> nat)
    ensures SumBy(d + [x], f) == SumBy(d, f) + f(x.1)
  {
    assert (d + [x])[..|d|] == d;
  }

  /** Replacing one entry changes the sum by the difference of the two values. */
  lemma {:induction false} SumByUpdate<V>(d: Dict<V>, i: nat, x: (string, V), f: V -> nat)
    requires i < |d|
    ensures SumBy(d[i := x], f) + f(d[i].1) == SumBy(d, f) + f(x.1)
    decreases |d|
  {
    var n := |d| - 1;
    if i == n {
      assert d[i := x][..n] == d[..n];
    } else {
      assert d[i := x][..n] == d[..n][i := x];
      SumByUpdate(d[..n], i, x, f);
    }
  }

  /** `d[k] = v` changes the sum by what `v` brings minus what the old value of `k` brought. */
  lemma SumByPut<V>(d: Dict<V>, k: string, v: V, f: V -> nat)
    ensures SumBy(Put(d, k, v), f) + (match Get(d, k) case Some(w) => f(w) case None => 0)
         == SumBy(d, f) + f(v)
  {
    match Find(d, k)
    case Some(i) => SumByUpdate(d, i, (k, v), f);
    case None => SumByAppend(d, (k, v), f);
  }
}
