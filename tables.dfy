/** Id-keyed tables: a fixed choice of key, the values at a set of keys
    counted with multiplicity, and listing a table's values. */
module Tables {

  /** A fixed choice of element, so that folds over sets are functions. */
  ghost function Pick<T>(s: set<T>): T
    requires s != {}
  {
    var x :| x in s; x
  }

  /** The values of `m` at `keys`, counted with multiplicity. */
  ghost function ValuesOver<K, V>(m: map<K, V>, keys: set<K>): multiset<V>
    requires keys <= m.Keys
    decreases keys
  {
    if keys == {} then multiset{}
    else
      var k := Pick(keys);
      multiset{m[k]} + ValuesOver(m, keys - {k})
  }

  lemma {:induction false} ValuesOverRemove<K, V>(m: map<K, V>, keys: set<K>, k: K)
    requires keys <= m.Keys && k in keys
    ensures ValuesOver(m, keys) == multiset{m[k]} + ValuesOver(m, keys - {k})
    decreases keys
  {
    var p := Pick(keys);
    if p != k {
      ValuesOverRemove(m, keys - {p}, k);
      ValuesOverRemove(m, keys - {k}, p);
      assert keys - {p} - {k} == keys - {k} - {p};
    }
  }

  lemma {:induction false} ValuesOverSize<K, V>(m: map<K, V>, keys: set<K>)
    requires keys <= m.Keys
    ensures |ValuesOver(m, keys)| == |keys|
    decreases keys
  {
    if keys != {} {
      ValuesOverSize(m, keys - {Pick(keys)});
    }
  }

  lemma {:induction false} ValuesOverAbsent<K, V>(m: map<K, V>, keys: set<K>, v: V)
    requires keys <= m.Keys
    requires forall k :: k in keys ==> m[k] != v
    ensures ValuesOver(m, keys)[v] == 0
    decreases keys
  {
    if keys != {} {
      ValuesOverAbsent(m, keys - {Pick(keys)}, v);
    }
  }

  /** A value is listed for some key exactly when one of those keys maps to it. */
  lemma {:induction false} ValuesOverHas<K, V>(m: map<K, V>, keys: set<K>, v: V)
    requires keys <= m.Keys
    ensures v in ValuesOver(m, keys) <==> exists k :: k in keys && m[k] == v
    decreases keys
  {
    if keys != {} {
      var p := Pick(keys);
      ValuesOverHas(m, keys - {p}, v);
    }
  }

  /** Every value of the table once per key, in
      the table's own order, as `values()` of a `HashMap` lists them. */
  method ListValues<K, V>(table: map<K, V>) returns (values: seq<V>)
    ensures multiset(values) == ValuesOver(table, table.Keys)
  {
    values := [];
    ghost var listed: set<K> := {};
    var unlisted := table.Keys;
    while unlisted != {}
      invariant listed == table.Keys - unlisted
      invariant multiset(values) == ValuesOver(table, listed)
      decreases unlisted
    {
      var k :| k in unlisted;
      ValuesOverRemove(table, listed + {k}, k);
      assert listed + {k} - {k} == listed;
      values := values + [table[k]];
      listed := listed + {k};
      unlisted := unlisted - {k};
    }
    assert listed == table.Keys;
  }
}
