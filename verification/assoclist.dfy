/**
 * JavaScript plain objects used as dictionaries: `Object.keys` lists keys in
 * insertion order, and assigning to an existing key keeps its position.
 * Modelled as a list of pairs with distinct keys.
 */
module AssocList {
  import opened Common

  type Assoc<K, V> = seq<(K, V)>

  function Keys<K, V>(a: Assoc<K, V>): (ks: seq<K>)
    ensures |ks| == |a|
    ensures forall i :: 0 <= i < |a| ==> ks[i] == a[i].0
  {
    if a == [] then [] else [a[0].0] + Keys(a[1..])
  }

  /** `obj[k]`, with `None` for `undefined`: the value of the first entry for `k`. */
  function Get<K(==), V>(a: Assoc<K, V>, k: K): (r: Option<V>)
    ensures r.None? <==> k !in Keys(a)
    ensures r.Some? ==> exists i :: 0 <= i < |a| && a[i] == (k, r.value)
  {
    if a == [] then None
    else if a[0].0 == k then Some(a[0].1)
    else
      var r := Get(a[1..], k);
      assert Keys(a) == [a[0].0] + Keys(a[1..]);
      r
  }

  /** `obj[k] = v`: overwrite in place if `k` is present, otherwise append. */
  function Put<K(==), V>(a: Assoc<K, V>, k: K, v: V): (r: Assoc<K, V>)
    ensures Keys(r) == if k in Keys(a) then Keys(a) else Keys(a) + [k]
  {
    if a == [] then [(k, v)]
    else if a[0].0 == k then
      var r := [(k, v)] + a[1..];
      assert Keys(r) == Keys(a);
      r
    else
      var tail := Put(a[1..], k, v);
      var r := [a[0]] + tail;
      assert r[1..] == tail;
      assert Keys(a) == [a[0].0] + Keys(a[1..]);
      assert Keys(r) == (if k in Keys(a) then Keys(a) else Keys(a) + [k]) by {
        assert Keys(r) == [a[0].0] + Keys(tail);
        if k in Keys(a[1..]) {
          assert k in Keys(a);
        } else {
          assert k !in Keys(a);
          assert Keys(r) == [a[0].0] + (Keys(a[1..]) + [k]) == Keys(a) + [k];
        }
      }
      r
  }

  /** After assigning a key, reading it gives the assigned value. */
  lemma {:induction false} PutGet<K, V>(a: Assoc<K, V>, k: K, v: V)
    ensures Get(Put(a, k, v), k) == Some(v)
  {
    if a != [] && a[0].0 != k {
      PutGet(a[1..], k, v);
      assert Put(a, k, v)[1..] == Put(a[1..], k, v);
    }
  }

  /** Assigning one key leaves every other key's value alone. */
  lemma {:induction false} PutKeepsOthers<K, V>(a: Assoc<K, V>, k: K, v: V, k': K)
    requires k' != k
    ensures Get(Put(a, k, v), k') == Get(a, k')
  {
    if a != [] && a[0].0 != k {
      PutKeepsOthers(a[1..], k, v, k');
      assert Put(a, k, v)[1..] == Put(a[1..], k, v);
    } else if a != [] {
      assert Put(a, k, v)[1..] == a[1..];
    }
  }

  /** Assignment keeps the keys distinct. */
  lemma PutKeepsDistinct<K, V>(a: Assoc<K, V>, k: K, v: V)
    requires Distinct(Keys(a))
    ensures Distinct(Keys(Put(a, k, v)))
  {
  }

  /** Assigning a fresh key appends exactly one entry. */
  lemma {:induction false} PutFresh<K, V>(a: Assoc<K, V>, k: K, v: V)
    requires k !in Keys(a)
    ensures Put(a, k, v) == a + [(k, v)]
  {
    if a != [] {
      var t := a[1..];
      assert k !in Keys(t) by {
        assert Keys(a) == [a[0].0] + Keys(t);
      }
      PutFresh(t, k, v);
      assert Put(a, k, v) == [a[0]] + (t + [(k, v)]) by {
        assert a[0].0 != k;
      }
      assert [a[0]] + (t + [(k, v)]) == a + [(k, v)] by {
        assert a == [a[0]] + t;
      }
    }
  }
}
