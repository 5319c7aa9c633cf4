/**
 * JavaScript objects used as dictionaries: their entries in insertion order.
 * Assigning to an existing key overwrites it in place, a new key goes last,
 * and `delete` removes the entry and keeps the order of the rest.
 */
module Dict {
  import opened Wrappers

  /** An object literal seen as its entries in insertion order. */
  function LookupEntry<K(==), V>(m: seq<(K, V)>, k: K): (r: Option<V>)
    ensures r.Some? <==> exists i :: 0 <= i < |m| && m[i].0 == k
  {
    if m == [] then None
    else if m[0].0 == k then Some(m[0].1)
    else
      var r := LookupEntry(m[1..], k);
      assert forall i :: 0 <= i < |m[1..]| ==> m[1..][i] == m[i + 1];
      r
  }

  /** `obj[k] = v`: an existing key is overwritten in place, a new one goes last. */
  function PutEntry<K(==), V>(m: seq<(K, V)>, k: K, v: V): seq<(K, V)>
  {
    if m == [] then [(k, v)]
    else if m[0].0 == k then [(k, v)] + m[1..]
    else [m[0]] + PutEntry(m[1..], k, v)
  }

  /** A key not yet present is appended. */
  lemma {:induction false} PutEntryNew<K, V>(m: seq<(K, V)>, k: K, v: V)
    requires forall i :: 0 <= i < |m| ==> m[i].0 != k
    ensures PutEntry(m, k, v) == m + [(k, v)]
  {
    if m != [] {
      PutEntryNew(m[1..], k, v);
    }
  }

  /** After `obj[k] = v`, reading `k` gives `v` and every other key reads as before. */
  lemma {:induction false} PutEntryLookup<K, V>(m: seq<(K, V)>, k: K, v: V, k': K)
    ensures LookupEntry(PutEntry(m, k, v), k') == if k' == k then Some(v) else LookupEntry(m, k')
  {
    if m != [] && m[0].0 != k {
      PutEntryLookup(m[1..], k, v, k');
    }
  }

  /** The object literal filled by `obj[keys[i]] = vals[i]` for each `i` in turn. */
  function PutAll<K(==), V>(keys: seq<K>, vals: seq<V>): seq<(K, V)>
    requires |keys| == |vals|
  {
    if keys == [] then []
    else PutEntry(PutAll(keys[..|keys| - 1], vals[..|vals| - 1]), keys[|keys| - 1], vals[|vals| - 1])
  }

  lemma PutAllAppend<K, V>(keys: seq<K>, vals: seq<V>, k: K, v: V)
    requires |keys| == |vals|
    ensures PutAll(keys + [k], vals + [v]) == PutEntry(PutAll(keys, vals), k, v)
  {
    assert (keys + [k])[..|keys|] == keys;
    assert (vals + [v])[..|vals|] == vals;
  }

  lemma PutAllStep<K, V>(keys: seq<K>, vals: seq<V>, k: nat)
    requires k < |keys| == |vals|
    ensures PutAll(keys[..k + 1], vals[..k + 1]) == PutEntry(PutAll(keys[..k], vals[..k]), keys[k], vals[k])
  {
    PutAllAppend(keys[..k], vals[..k], keys[k], vals[k]);
    assert keys[..k + 1] == keys[..k] + [keys[k]] && vals[..k + 1] == vals[..k] + [vals[k]];
  }

  /** With distinct keys, every assignment adds an entry: the entries are the pairs in order. */
  lemma {:induction false} PutAllDistinct<K, V>(keys: seq<K>, vals: seq<V>)
    requires |keys| == |vals|
    requires forall i, j :: 0 <= i < j < |keys| ==> keys[i] != keys[j]
    ensures |PutAll(keys, vals)| == |keys|
    ensures forall i :: 0 <= i < |keys| ==> PutAll(keys, vals)[i] == (keys[i], vals[i])
  {
    if keys != [] {
      var n := |keys| - 1;
      PutAllDistinct(keys[..n], vals[..n]);
      var prev := PutAll(keys[..n], vals[..n]);
      forall i | 0 <= i < |prev| ensures prev[i].0 != keys[n] {
        assert prev[i].0 == keys[i];
      }
      PutEntryNew(prev, keys[n], vals[n]);
    }
  }

  /** Every assigned key can be read back. */
  lemma {:induction false} PutAllHas<K, V>(keys: seq<K>, vals: seq<V>, k: nat)
    requires |keys| == |vals| && k < |keys|
    ensures LookupEntry(PutAll(keys, vals), keys[k]).Some?
  {
    var n := |keys| - 1;
    PutEntryLookup(PutAll(keys[..n], vals[..n]), keys[n], vals[n], keys[k]);
    if k < n {
      PutAllHas(keys[..n], vals[..n], k);
    }
  }


  /** `delete obj[k]`. */
  function Delete<K(==), V>(m: seq<(K, V)>, k: K): seq<(K, V)>
  {
    if m == [] then []
    else if m[0].0 == k then Delete(m[1..], k)
    else [m[0]] + Delete(m[1..], k)
  }

  /** After `delete obj[k]` the key is gone and every other entry is still there, in order. */
  lemma {:induction false} DeleteSpec<K, V>(m: seq<(K, V)>, k: K)
    ensures forall i :: 0 <= i < |Delete(m, k)| ==> Delete(m, k)[i] in m && Delete(m, k)[i].0 != k
    ensures forall i :: 0 <= i < |m| && m[i].0 != k ==> m[i] in Delete(m, k)
    ensures |Delete(m, k)| <= |m|
  {
    if m != [] {
      DeleteSpec(m[1..], k);
      assert m == [m[0]] + m[1..];
      if m[0].0 != k {
        var d := Delete(m, k);
        forall i | 0 <= i < |d| ensures d[i] in m && d[i].0 != k {
          if i > 0 { assert d[i] == Delete(m[1..], k)[i - 1]; }
        }
      }
      forall i | 0 <= i < |m| && m[i].0 != k ensures m[i] in Delete(m, k) {
        if i > 0 { assert m[i] == m[1..][i - 1]; }
      }
    }
  }

  /** The keys in order (`Object.keys`). */
  function KeysOf<K, V>(m: seq<(K, V)>): (ks: seq<K>)
    ensures |ks| == |m|
    ensures forall i :: 0 <= i < |m| ==> ks[i] == m[i].0
  {
    seq(|m|, i requires 0 <= i < |m| => m[i].0)
  }

  /** No key occurs twice: every dictionary built by assignment has this form. */
  predicate UniqueKeys<K(==), V>(m: seq<(K, V)>)
  {
    forall i, j :: 0 <= i < j < |m| ==> m[i].0 != m[j].0
  }
}
