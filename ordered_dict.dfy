/**
 * Python's `dict`, which remembers insertion order: a sequence of
 * (key, value) entries whose keys are pairwise distinct. Assigning to an
 * existing key overwrites its value in place; a new key goes at the end.
 */
module OrderedDict {
  import opened Common

  type Dict<K, V> = seq<(K, V)>

  /** The keys, in insertion order. */
  function Keys<K(==), V>(d: Dict<K, V>): (r: seq<K>)
    ensures |r| == |d|
    ensures forall i :: 0 <= i < |d| ==> r[i] == d[i].0
  {
    if d == [] then [] else [d[0].0] + Keys(d[1..])
  }

  predicate Distinct<T(==)>(s: seq<T>) {
    forall i, j :: 0 <= i < j < |s| ==> s[i] != s[j]
  }

  /** The representation invariant: no key occurs twice. */
  predicate UniqueKeys<K(==), V>(d: Dict<K, V>) {
    Distinct(Keys(d))
  }

  /** `d.get(k)`. */
  function Get<K(==), V>(d: Dict<K, V>, k: K): (r: Option<V>)
    ensures r.None? <==> k !in Keys(d)
    ensures r.Some? ==> (k, r.value) in d
  {
    if d == [] then None
    else if d[0].0 == k then Some(d[0].1)
    else Get(d[1..], k)
  }

  /** Looking a key up in a dictionary with one more entry in front. */
  lemma GetCons<K, V>(k: K, v: V, rest: Dict<K, V>, key: K)
    ensures Get([(k, v)] + rest, key) == if k == key then Some(v) else Get(rest, key)
  {
    assert ([(k, v)] + rest)[1..] == rest;
  }

  /** `d[k] = v`. */
  function Set<K(==), V>(d: Dict<K, V>, k: K, v: V): Dict<K, V> {
    if d == [] then [(k, v)]
    else if d[0].0 == k then [(k, v)] + d[1..]
    else [d[0]] + Set(d[1..], k, v)
  }

  /** `d[k] = v` keeps the order of the keys, adding `k` at the end when it is new. */
  lemma {:induction false} SetKeys<K, V>(d: Dict<K, V>, k: K, v: V)
    ensures Keys(Set(d, k, v)) == if k in Keys(d) then Keys(d) else Keys(d) + [k]
  {
    if d != [] && d[0].0 != k {
      SetKeys(d[1..], k, v);
      assert Keys(d) == [d[0].0] + Keys(d[1..]);
    }
  }

  /** After `d[k] = v`, `d[k]` is `v`. */
  lemma {:induction false} GetSetSame<K, V>(d: Dict<K, V>, k: K, v: V)
    ensures Get(Set(d, k, v), k) == Some(v)
  {
    if d != [] && d[0].0 != k {
      GetSetSame(d[1..], k, v);
    }
  }

  /** `d[k] = v` leaves every other key's value alone. */
  lemma {:induction false} GetSetOther<K, V>(d: Dict<K, V>, k: K, v: V, k': K)
    requires k' != k
    ensures Get(Set(d, k, v), k') == Get(d, k')
  {
    if d != [] && d[0].0 != k {
      GetSetOther(d[1..], k, v, k');
    }
  }

  /** `d[k] = v` keeps the keys distinct. */
  lemma SetUnique<K, V>(d: Dict<K, V>, k: K, v: V)
    requires UniqueKeys(d)
    ensures UniqueKeys(Set(d, k, v))
  {
    SetKeys(d, k, v);
  }

  /**
   * `dict(pairs)`: later pairs overwrite earlier ones with the same key,
   * and a key keeps the position of its first occurrence.
   */
  function FromPairs<K(==), V>(pairs: seq<(K, V)>): (r: Dict<K, V>)
    ensures UniqueKeys(r)
  {
    if pairs == [] then []
    else
      var last := pairs[|pairs| - 1];
      var d := FromPairs(pairs[..|pairs| - 1]);
      SetUnique(d, last.0, last.1);
      Set(d, last.0, last.1)
  }

  /** The value of the last pair with key `k`, scanning from the end. */
  function LastValue<K(==), V>(pairs: seq<(K, V)>, k: K): Option<V> {
    if pairs == [] then None
    else if pairs[|pairs| - 1].0 == k then Some(pairs[|pairs| - 1].1)
    else LastValue(pairs[..|pairs| - 1], k)
  }

  /** In `dict(pairs)`, a key maps to the value of its last pair. */
  lemma {:induction false} GetFromPairs<K, V>(pairs: seq<(K, V)>, k: K)
    ensures Get(FromPairs(pairs), k) == LastValue(pairs, k)
  {
    if pairs != [] {
      var last := pairs[|pairs| - 1];
      var d := FromPairs(pairs[..|pairs| - 1]);
      if last.0 == k {
        GetSetSame(d, k, last.1);
      } else {
        GetSetOther(d, last.0, last.1, k);
        GetFromPairs(pairs[..|pairs| - 1], k);
      }
    }
  }

  /** Assigning a new key appends one entry at the end. */
  lemma {:induction false} SetNew<K, V>(d: Dict<K, V>, k: K, v: V)
    requires k !in Keys(d)
    ensures Set(d, k, v) == d + [(k, v)]
  {
    if d != [] {
      assert Keys(d) == [d[0].0] + Keys(d[1..]);
      SetNew(d[1..], k, v);
      assert [d[0]] + (d[1..] + [(k, v)]) == d + [(k, v)];
    }
  }

  /** Assigning an existing key replaces its entry where it stands. */
  lemma {:induction false} SetExisting<K, V>(d: Dict<K, V>, i: nat, k: K, v: V)
    requires i < |d| && d[i].0 == k
    requires forall j :: 0 <= j < i ==> d[j].0 != k
    ensures Set(d, k, v) == d[..i] + [(k, v)] + d[i + 1..]
  {
    if i == 0 {
      assert d[..0] == [];
    } else {
      var tail := d[1..];
      SetPastHead(d, k, v);
      forall j | 0 <= j < i - 1 ensures tail[j].0 != k {
        assert tail[j] == d[j + 1];
      }
      SetExisting(tail, i - 1, k, v);
      SplitPastHead(d, i, (k, v));
    }
  }

  /** `d[k] = v` with `k` not the first key leaves the first entry in front. */
  lemma SetPastHead<K, V>(d: Dict<K, V>, k: K, v: V)
    requires d != [] && d[0].0 != k
    ensures Set(d, k, v) == [d[0]] + Set(d[1..], k, v)
  { }

  lemma SplitPastHead<T>(d: seq<T>, i: nat, e: T)
    requires 0 < i < |d|
    ensures [d[0]] + (d[1..][..i - 1] + [e] + d[1..][i..]) == d[..i] + [e] + d[i + 1..]
  {
    assert [d[0]] + d[1..][..i - 1] == d[..i];
    assert d[1..][i..] == d[i + 1..];
  }

  /** The entries up to and including the `i`-th, and the dict cut just after it. */
  lemma TakeOneMore<T>(d: seq<T>, i: nat)
    requires i < |d|
    ensures d[..i + 1] == d[..i] + [d[i]]
    ensures d == d[..i + 1] + d[i + 1..]
  { }

  /** The first `n + 1` entries are the first one followed by the first `n` of the rest. */
  lemma ConsTake<T>(d: seq<T>, n: nat)
    requires n < |d|
    ensures d[..n + 1] == [d[0]] + d[1..][..n]
  { }

  /** Where a key stands: its first entry. */
  lemma {:induction false} KeyIndex<K, V>(d: Dict<K, V>, k: K) returns (i: nat)
    requires k in Keys(d)
    ensures i < |d| && d[i].0 == k
    ensures forall j :: 0 <= j < i ==> d[j].0 != k
  {
    if d[0].0 == k {
      i := 0;
    } else {
      assert Keys(d) == [d[0].0] + Keys(d[1..]);
      var i' := KeyIndex(d[1..], k);
      i := i' + 1;
    }
  }

  /** Two assignments to the same key: the second wins, and the key keeps its place. */
  lemma {:induction false} SetSet<K, V>(d: Dict<K, V>, k: K, v1: V, v2: V)
    ensures Set(Set(d, k, v1), k, v2) == Set(d, k, v2)
  {
    if d != [] && d[0].0 != k {
      SetSet(d[1..], k, v1, v2);
    }
  }
  /** Every entry after `d[k] = v` is the new one or was already there. */
  lemma {:induction false} SetEntries<K, V>(d: Dict<K, V>, k: K, v: V)
    ensures (k, v) in Set(d, k, v)
    ensures forall e :: e in Set(d, k, v) ==> e == (k, v) || e in d
  {
    if d != [] && d[0].0 != k {
      SetEntries(d[1..], k, v);
    }
  }

  /** With distinct keys, `d[k]` is the value of the one entry for `k`. */
  lemma GetAt<K, V>(d: Dict<K, V>, i: nat)
    requires UniqueKeys(d) && i < |d|
    ensures Get(d, d[i].0) == Some(d[i].1)
  {
    var r := Get(d, d[i].0);
    assert Keys(d)[i] == d[i].0;
    var j :| 0 <= j < |d| && d[j] == (d[i].0, r.value);
    assert Keys(d)[j] == Keys(d)[i];
  }
}
