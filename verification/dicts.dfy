/** Python's insertion-ordered `dict`: the keys in insertion order plus the
    key-to-value map. Assigning to a present key keeps its position; a new key
    goes to the end, as in CPython 3.7 and later. */
module Dicts {
  import opened Results

  datatype RawDict<K(==,!new), V> = RawDict(keys: seq<K>, entries: map<K, V>)

  ghost predicate WellFormed<K(!new), V>(d: RawDict<K, V>) {
    (forall i, j :: 0 <= i < j < |d.keys| ==> d.keys[i] != d.keys[j])
    && (forall k :: k in d.entries <==> k in d.keys)
  }

  type Dict<K(==,!new), V> = d: RawDict<K, V> | WellFormed(d) witness RawDict([], map[])

  function Empty<K(==,!new), V>(): (r: Dict<K, V>)
    ensures |r.keys| == 0
  {
    RawDict([], map[])
  }

  predicate HasKey<K(==,!new), V>(d: Dict<K, V>, k: K) {
    k in d.entries
  }

  /** `d.get(k)` */
  function Get<K(==,!new), V>(d: Dict<K, V>, k: K): (r: Option<V>)
    ensures r.Some? <==> k in d.keys
  {
    if k in d.entries then Some(d.entries[k]) else None
  }

  /** `d[k] = v` */
  function Put<K(==,!new), V>(d: Dict<K, V>, k: K, v: V): (r: Dict<K, V>)
    ensures Get(r, k) == Some(v)
    ensures forall k2 :: k2 != k ==> Get(r, k2) == Get(d, k2)
    ensures r.keys == if k in d.keys then d.keys else d.keys + [k]
  {
    var keys := if k in d.entries then d.keys else d.keys + [k];
    var r := RawDict(keys, d.entries[k := v]);
    assert forall i, j :: 0 <= i < j < |keys| ==> keys[i] != keys[j] by {
      if k !in d.entries {
        assert k !in d.keys;
      }
    }
    r
  }

  /** `d.setdefault(k, v)`, ignoring the returned value: stores `v` only when `k` is absent. */
  function SetDefault<K(==,!new), V>(d: Dict<K, V>, k: K, v: V): (r: Dict<K, V>)
    ensures k in d.keys ==> r == d
    ensures k !in d.keys ==> r == Put(d, k, v)
  {
    if k in d.entries then d else Put(d, k, v)
  }

  /** `list(d.values())` */
  function Values<K(==,!new), V>(d: Dict<K, V>): (vs: seq<V>)
    ensures |vs| == |d.keys|
    ensures forall i :: 0 <= i < |d.keys| ==> Get(d, d.keys[i]) == Some(vs[i])
  {
    seq(|d.keys|, i requires 0 <= i < |d.keys| => d.entries[d.keys[i]])
  }

  /** The dict without its most recently inserted key. */
  function DropLast<K(==,!new), V>(d: Dict<K, V>): (r: Dict<K, V>)
    requires |d.keys| > 0
    ensures |r.keys| == |d.keys| - 1
    ensures forall x :: x in r.keys <==> x in d.keys && x != d.keys[|d.keys| - 1]
    ensures forall x :: x in r.keys ==> r.entries[x] == d.entries[x]
  {
    var n := |d.keys| - 1;
    var k := d.keys[n];
    var keys := d.keys[..n];
    assert forall i :: 0 <= i < n ==> keys[i] == d.keys[i] && keys[i] != k;
    assert forall x :: x in d.keys ==> x == k || x in keys by {
      forall x | x in d.keys ensures x == k || x in keys {
        var i :| 0 <= i < |d.keys| && d.keys[i] == x;
        if i < n { assert keys[i] == x; }
      }
    }
    RawDict(keys, d.entries - {k})
  }

  /** `dict(pairs)`: later pairs overwrite earlier ones, a key keeps its first position. */
  function FromPairs<K(==,!new), V>(pairs: seq<(K, V)>): (d: Dict<K, V>)
    ensures forall k :: k in d.keys <==> exists i :: 0 <= i < |pairs| && pairs[i].0 == k
    decreases |pairs|
  {
    if |pairs| == 0 then Empty()
    else
      var d := Put(FromPairs(pairs[..|pairs| - 1]), pairs[|pairs| - 1].0, pairs[|pairs| - 1].1);
      assert forall k :: k in d.keys <==> exists i :: 0 <= i < |pairs| && pairs[i].0 == k by {
        forall k ensures k in d.keys <==> exists i :: 0 <= i < |pairs| && pairs[i].0 == k {
          if k in d.keys && k != pairs[|pairs| - 1].0 {
            var i :| 0 <= i < |pairs| - 1 && pairs[..|pairs| - 1][i].0 == k;
            assert pairs[i].0 == k;
          }
          if exists i :: 0 <= i < |pairs| && pairs[i].0 == k {
            var i :| 0 <= i < |pairs| && pairs[i].0 == k;
            if i < |pairs| - 1 {
              assert pairs[..|pairs| - 1][i].0 == k;
            }
          }
        }
      }
      d
  }

  /** The value `dict(pairs)` holds for a key is the one its last pair gives. */
  lemma {:induction false} FromPairsLastWins<K(!new), V>(pairs: seq<(K, V)>, i: nat)
    requires i < |pairs|
    requires forall j :: i < j < |pairs| ==> pairs[j].0 != pairs[i].0
    ensures Get(FromPairs(pairs), pairs[i].0) == Some(pairs[i].1)
    decreases |pairs|
  {
    if i < |pairs| - 1 {
      FromPairsLastWins(pairs[..|pairs| - 1], i);
    }
  }

  /** Every value `dict(pairs)` holds comes from one of the pairs. */
  lemma {:induction false} FromPairsValueFrom<K(!new), V>(pairs: seq<(K, V)>, k: K)
    requires Get(FromPairs(pairs), k).Some?
    ensures exists i :: 0 <= i < |pairs| && pairs[i] == (k, Get(FromPairs(pairs), k).value)
    decreases |pairs|
  {
    var n := |pairs| - 1;
    if pairs[n].0 != k {
      FromPairsValueFrom(pairs[..n], k);
      var i :| 0 <= i < n && pairs[..n][i] == (k, Get(FromPairs(pairs[..n]), k).value);
      assert pairs[i] == pairs[..n][i];
    }
  }
}
