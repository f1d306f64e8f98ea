/**
 * Python's `dict`: a finite map that remembers the order in which its keys
 * were first inserted.  Assigning to an existing key keeps its position.
 */
module OrderedMap {

  predicate Distinct<K(==)>(s: seq<K>) {
    forall i, j :: 0 <= i < j < |s| ==> s[i] != s[j]
  }

  datatype Dict<K, V> = Dict(keys: seq<K>, entries: map<K, V>) {
    ghost predicate Valid() {
      Distinct(keys) && entries.Keys == (set i | 0 <= i < |keys| :: keys[i]) &&
      forall i :: 0 <= i < |keys| ==> keys[i] in entries
    }
  }

  function Empty<K, V>(): (d: Dict<K, V>)
    ensures d.Valid() && d.keys == []
  {
    Dict([], map[])
  }

  /** `d[k] = v`. */
  function Put<K, V>(d: Dict<K, V>, k: K, v: V): (r: Dict<K, V>)
    requires d.Valid()
    ensures r.Valid()
    ensures r.entries == d.entries[k := v]
    ensures r.keys == if k in d.entries then d.keys else d.keys + [k]
  {
    if k in d.entries then Dict(d.keys, d.entries[k := v])
    else
      var ks := d.keys + [k];
      assert (set i | 0 <= i < |ks| :: ks[i]) == d.entries.Keys + {k} by {
        forall x | x in d.entries.Keys + {k}
          ensures x in (set i | 0 <= i < |ks| :: ks[i])
        {
          if x != k {
            var i :| 0 <= i < |d.keys| && d.keys[i] == x;
            assert ks[i] == x;
          } else {
            assert ks[|d.keys|] == x;
          }
        }
      }
      Dict(ks, d.entries[k := v])
  }

  /** A key has an entry exactly when it is among the ordered keys. */
  lemma HasKey<K, V>(d: Dict<K, V>, k: K)
    requires d.Valid()
    ensures k in d.entries <==> k in d.keys
  {
    if k in d.keys {
      var i :| 0 <= i < |d.keys| && d.keys[i] == k;
      assert k in (set i | 0 <= i < |d.keys| :: d.keys[i]);
    }
  }

  /** `d.get(k, default)`. */
  function GetOr<K, V>(d: Dict<K, V>, k: K, default: V): V {
    if k in d.entries then d.entries[k] else default
  }
}
