/**
 * JavaScript's `Map<string, V>` as a value: a key table plus the order in
 * which keys were first inserted, which is the order `values()` and
 * `forEach` visit. Setting an existing key replaces its value in place;
 * deleting a key removes it from the order.
 */
module OrderedMaps {
  import opened Wrappers

  predicate Distinct(s: seq<string>) {
    forall i, j :: 0 <= i < j < |s| ==> s[i] != s[j]
  }

  /** s with every occurrence of x dropped, the rest in order. */
  function Without(s: seq<string>, x: string): (r: seq<string>)
    ensures forall y :: y in r <==> y in s && y != x
    ensures Distinct(s) ==> Distinct(r)
    ensures x !in s ==> r == s
    ensures |r| <= |s|
  {
    if s == [] then []
    else if s[0] == x then Without(s[1..], x)
    else
      var tail := Without(s[1..], x);
      assert Distinct(s) ==> s[0] !in tail;
      [s[0]] + tail
  }

  datatype OrderedMap<V> = OrderedMap(keys: seq<string>, table: map<string, V>) {

    /** The order lists every key of the table exactly once. */
    ghost predicate Valid() {
      && Distinct(keys)
      && (forall k :: k in keys <==> k in table)
    }

    static function Empty(): (m: OrderedMap<V>)
      ensures m.Valid() && m.keys == [] && m.table == map[]
    {
      OrderedMap([], map[])
    }

    /** `map.get(k)`. */
    function Get(k: string): (r: Option<V>)
      ensures r.Some? <==> k in table
      ensures r.Some? ==> r.value == table[k]
    {
      if k in table then Some(table[k]) else None
    }

    /** `map.size === 0`. */
    predicate IsEmpty()
      requires Valid()
    {
      keys == []
    }

    lemma EmptyIffNoEntries()
      requires Valid()
      ensures IsEmpty() <==> table == map[]
    {
      if keys != [] {
        assert keys[0] in table;
      }
    }

    /** `map.set(k, v)`: a new key goes last, an existing key keeps its place. */
    function Set(k: string, v: V): (r: OrderedMap<V>)
      requires Valid()
      ensures r.Valid()
      ensures r.Get(k) == Some(v)
      ensures forall k' :: k' != k ==> r.Get(k') == Get(k')
      ensures k in table ==> r.keys == keys
      ensures k !in table ==> r.keys == keys + [k]
    {
      OrderedMap(if k in table then keys else keys + [k], table[k := v])
    }

    /** `map.delete(k)`: the other keys keep their relative order. */
    function Delete(k: string): (r: OrderedMap<V>)
      requires Valid()
      ensures r.Valid()
      ensures r.Get(k) == None
      ensures forall k' :: k' != k ==> r.Get(k') == Get(k')
      ensures r.keys == Without(keys, k)
      ensures k !in table ==> r == this
    {
      OrderedMap(Without(keys, k), table - {k})
    }

    /** `Array.from(map.values())`: the values in insertion order. */
    function Values(): (vs: seq<V>)
      requires Valid()
      ensures |vs| == |keys|
      ensures forall i :: 0 <= i < |keys| ==> vs[i] == table[keys[i]]
      ensures forall k :: k in table ==> table[k] in vs
    {
      seq(|keys|, i requires 0 <= i < |keys| => table[keys[i]])
    }
  }

  /** Re-setting an existing key changes only that key's value, in its own position. */
  lemma SetExistingKeepsPosition<V>(m: OrderedMap<V>, i: nat, v: V)
    requires m.Valid() && i < |m.keys|
    ensures m.Set(m.keys[i], v).Values() == m.Values()[i := v]
  {
    var r := m.Set(m.keys[i], v);
    assert r.keys == m.keys;
    forall j | 0 <= j < |m.keys|
      ensures r.Values()[j] == m.Values()[i := v][j]
    {
      if j != i {
        assert m.keys[j] != m.keys[i];
        assert r.Get(m.keys[j]) == m.Get(m.keys[j]);
      }
    }
  }

  /** Setting a new key appends its value after every existing one. */
  lemma SetNewAppends<V>(m: OrderedMap<V>, k: string, v: V)
    requires m.Valid() && k !in m.table
    ensures m.Set(k, v).Values() == m.Values() + [v]
  {
    var r := m.Set(k, v);
    forall j | 0 <= j < |m.keys|
      ensures r.Values()[j] == m.Values()[j]
    {
      assert m.keys[j] != k;
      assert r.Get(m.keys[j]) == m.Get(m.keys[j]);
    }
  }
}
