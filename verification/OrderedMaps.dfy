/**
 * Maps that keep the order in which their keys were first set.
 *
 * They are sequences of entries with unique keys, as the `Map` objects of the language enumerate themselves: setting a
 * key that is present replaces its value in place, and setting a new one appends it. The lemmas relate reading to
 * setting and appending.
 */
module OrderedMaps {
  import opened Wrappers

  datatype Entry<K, V> = Entry(key: K, value: V)

  type OrderedMap<K, V> = seq<Entry<K, V>>

  function Get<K(==), V>(m: OrderedMap<K, V>, key: K): Option<V> {
    if m == [] then None
    else if m[0].key == key then Some(m[0].value)
    else Get(m[1..], key)
  }

  predicate Has<K(==), V>(m: OrderedMap<K, V>, key: K) {
    Get(m, key).Some?
  }

  /** Sets a key: in its place when it is there, at the end otherwise. */
  function Put<K(==), V>(m: OrderedMap<K, V>, key: K, value: V): OrderedMap<K, V> {
    if m == [] then [Entry(key, value)]
    else if m[0].key == key then [Entry(key, value)] + m[1..]
    else [m[0]] + Put(m[1..], key, value)
  }

  function Remove<K(==), V>(m: OrderedMap<K, V>, key: K): OrderedMap<K, V> {
    if m == [] then []
    else if m[0].key == key then Remove(m[1..], key)
    else [m[0]] + Remove(m[1..], key)
  }

  /** Each key has one entry. */
  ghost predicate UniqueKeys<K, V>(m: OrderedMap<K, V>) {
    forall i, j :: 0 <= i < j < |m| ==> m[i].key != m[j].key
  }

  lemma {:induction false} GetFinds<K, V>(m: OrderedMap<K, V>, key: K)
    ensures Get(m, key).Some? <==> exists i :: 0 <= i < |m| && m[i].key == key
    ensures Get(m, key).Some? ==> Entry(key, Get(m, key).value) in m
    ensures UniqueKeys(m) ==> forall i :: 0 <= i < |m| && m[i].key == key ==> Get(m, key) == Some(m[i].value)
  {
    if m != [] {
      GetFinds(m[1..], key);
      if i :| 0 <= i < |m| && m[i].key == key && i > 0 {
        assert m[1..][i - 1].key == key;
      }
      if UniqueKeys(m) {
        forall i | 0 <= i < |m| && m[i].key == key ensures Get(m, key) == Some(m[i].value) {
          if i > 0 {
            assert m[1..][i - 1] == m[i];
          }
        }
      }
    }
  }

  lemma {:induction false} GetAfterPut<K, V>(m: OrderedMap<K, V>, key: K, value: V, other: K)
    ensures Get(Put(m, key, value), other) == if other == key then Some(value) else Get(m, other)
  {
    if m != [] && m[0].key != key {
      GetAfterPut(m[1..], key, value, other);
    }
  }

  lemma {:induction false} PutKeepsUnique<K, V>(m: OrderedMap<K, V>, key: K, value: V)
    requires UniqueKeys(m)
    ensures UniqueKeys(Put(m, key, value))
  {
    if m != [] && m[0].key != key {
      assert UniqueKeys(m[1..]);
      PutKeepsUnique(m[1..], key, value);
      var rest := Put(m[1..], key, value);
      GetFinds(m[1..], m[0].key);
      assert forall i :: 0 <= i < |m[1..]| ==> m[1..][i] == m[i + 1];
      GetAfterPut(m[1..], key, value, m[0].key);
      GetFinds(rest, m[0].key);
    }
  }

  lemma {:induction false} PutAbsentAppends<K, V>(m: OrderedMap<K, V>, key: K, value: V)
    requires !Has(m, key)
    ensures Put(m, key, value) == m + [Entry(key, value)]
  {
    if m != [] {
      PutAbsentAppends(m[1..], key, value);
      assert m == [m[0]] + m[1..];
    }
  }

  lemma {:induction false} GetOfAppend<K, V>(a: OrderedMap<K, V>, b: OrderedMap<K, V>, key: K)
    ensures Get(a + b, key) == Get(a, key).OrElse(Get(b, key))
  {
    if a == [] {
      assert a + b == b;
    } else {
      assert (a + b)[1..] == a[1..] + b;
      GetOfAppend(a[1..], b, key);
    }
  }
}
