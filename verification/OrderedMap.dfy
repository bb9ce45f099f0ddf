/** An insertion-ordered map, as JavaScript's `Map`: setting an existing key keeps its place. */
module OrderedMap {
  import opened Wrappers

  type OrderedMap<V> = seq<(string, V)>

  function Get<V>(m: OrderedMap<V>, key: string): Option<V> {
    if m == [] then None else if m[0].0 == key then Some(m[0].1) else Get(m[1..], key)
  }

  function Set<V>(m: OrderedMap<V>, key: string, v: V): OrderedMap<V> {
    if m == [] then [(key, v)] else if m[0].0 == key then [(key, v)] + m[1..] else [m[0]] + Set(m[1..], key, v)
  }

  function Delete<V>(m: OrderedMap<V>, key: string): OrderedMap<V> {
    if m == [] then [] else if m[0].0 == key then m[1..] else [m[0]] + Delete(m[1..], key)
  }

  ghost predicate UniqueKeys<V>(m: OrderedMap<V>) {
    m == [] || (Get(m[1..], m[0].0).None? && UniqueKeys(m[1..]))
  }

  lemma {:induction false} GetSet<V>(m: OrderedMap<V>, key: string, v: V, other: string)
    ensures Get(Set(m, key, v), other) == if other == key then Some(v) else Get(m, other)
  {
    if m == [] {
      assert [(key, v)][1..] == [];
    } else if m[0].0 == key {
      assert ([(key, v)] + m[1..])[1..] == m[1..];
    } else {
      GetSet(m[1..], key, v, other);
      assert ([m[0]] + Set(m[1..], key, v))[1..] == Set(m[1..], key, v);
    }
  }

  lemma {:induction false} GetDelete<V>(m: OrderedMap<V>, key: string, other: string)
    requires UniqueKeys(m)
    ensures Get(Delete(m, key), other) == if other == key then None else Get(m, other)
  {
    if m != [] && m[0].0 != key {
      GetDelete(m[1..], key, other);
      assert ([m[0]] + Delete(m[1..], key))[1..] == Delete(m[1..], key);
    }
  }

  lemma {:induction false} SetUnique<V>(m: OrderedMap<V>, key: string, v: V)
    requires UniqueKeys(m)
    ensures UniqueKeys(Set(m, key, v))
  {
    if m == [] {
      assert [(key, v)][1..] == [];
    } else if m[0].0 == key {
      assert ([(key, v)] + m[1..])[1..] == m[1..];
    } else {
      SetUnique(m[1..], key, v);
      GetSet(m[1..], key, v, m[0].0);
      assert ([m[0]] + Set(m[1..], key, v))[1..] == Set(m[1..], key, v);
    }
  }

  lemma {:induction false} DeleteUnique<V>(m: OrderedMap<V>, key: string)
    requires UniqueKeys(m)
    ensures UniqueKeys(Delete(m, key))
  {
    if m != [] && m[0].0 != key {
      DeleteUnique(m[1..], key);
      GetDelete(m[1..], key, m[0].0);
      assert ([m[0]] + Delete(m[1..], key))[1..] == Delete(m[1..], key);
    }
  }
}
