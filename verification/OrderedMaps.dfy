/** Maps that remember the order their keys were first put in, as the browser's do. */
module OrderedMaps {

  datatype Option<+T> = None | Some(value: T)

  datatype OMap<K(==,!new), V> = OMap(keys: seq<K>, at: map<K, V>)
  {
    ghost predicate Valid() {
      (forall k :: k in keys <==> k in at)
      && (forall i, j :: 0 <= i < j < |keys| ==> keys[i] != keys[j])
    }

    /** A key put again keeps its place. */
    function Put(k: K, v: V): OMap<K, V> {
      OMap(if k in at then keys else keys + [k], at[k := v])
    }

    function Drop(k: K): OMap<K, V> {
      OMap(Without(keys, k), at - {k})
    }
  }

  function Empty<K(==,!new), V>(): OMap<K, V> { OMap([], map[]) }

  function Without<K(==)>(keys: seq<K>, k: K): seq<K> {
    if keys == [] then [] else (if keys[0] == k then [] else [keys[0]]) + Without(keys[1..], k)
  }

  lemma {:induction false} WithoutLeaves<K(!new)>(keys: seq<K>, k: K)
    ensures forall x :: x in Without(keys, k) <==> x in keys && x != k
  {
    if keys != [] {
      WithoutLeaves(keys[1..], k);
      forall x ensures x in Without(keys, k) <==> x in keys && x != k {
        assert x in keys <==> x == keys[0] || x in keys[1..];
        assert x in Without(keys, k) <==> (x == keys[0] && x != k) || x in Without(keys[1..], k);
      }
    }
  }

  lemma {:induction false} WithoutDistinct<K(!new)>(keys: seq<K>, k: K)
    requires forall i, j :: 0 <= i < j < |keys| ==> keys[i] != keys[j]
    ensures forall i, j :: 0 <= i < j < |Without(keys, k)| ==> Without(keys, k)[i] != Without(keys, k)[j]
  {
    if keys != [] {
      WithoutDistinct(keys[1..], k);
      WithoutLeaves(keys[1..], k);
      var s, tail := Without(keys, k), Without(keys[1..], k);
      if keys[0] != k {
        forall i, j | 0 <= i < j < |s| ensures s[i] != s[j] {
          assert s[j] == tail[j - 1] && s[j] in tail;
          assert i > 0 ==> s[i] == tail[i - 1];
        }
      }
    }
  }

  lemma DropValid<K(!new), V>(m: OMap<K, V>, k: K)
    requires m.Valid()
    ensures m.Drop(k).Valid()
  {
    WithoutLeaves(m.keys, k);
    WithoutDistinct(m.keys, k);
  }

  lemma PutValid<K(!new), V>(m: OMap<K, V>, k: K, v: V)
    requires m.Valid()
    ensures m.Put(k, v).Valid()
  {}

  lemma {:induction false} WithoutShorter<K(!new)>(keys: seq<K>, k: K)
    requires k in keys && forall i, j :: 0 <= i < j < |keys| ==> keys[i] != keys[j]
    ensures |Without(keys, k)| == |keys| - 1
  {
    if keys[0] == k {
      WithoutAbsent(keys[1..], k);
    } else {
      WithoutShorter(keys[1..], k);
    }
  }

  lemma {:induction false} WithoutAbsent<K(!new)>(keys: seq<K>, k: K)
    requires k !in keys
    ensures Without(keys, k) == keys
  {
    if keys != [] {
      assert forall x :: x in keys[1..] ==> x in keys;
      WithoutAbsent(keys[1..], k);
    }
  }
}
