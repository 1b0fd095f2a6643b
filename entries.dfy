/** A JavaScript object with string keys, as the sequence of its entries in
    key order: reading a key, testing `key in o`, and assigning `o[key]`. */
module Entries {
  import opened Wrappers
  import opened Sorting

  function KeyOf<V>(e: (string, V)): string {
    e.0
  }

  /** The position of `key` among the keys: its first occurrence. */
  function Find<V>(m: seq<(string, V)>, key: string): (r: Option<nat>)
    ensures r.Some? ==> r.value < |m| && m[r.value].0 == key
    ensures r.Some? ==> forall k :: 0 <= k < r.value ==> m[k].0 != key
    ensures r.None? ==> forall k :: 0 <= k < |m| ==> m[k].0 != key
    decreases |m|
  {
    if m == [] then None
    else if m[0].0 == key then Some(0)
    else match Find(m[1..], key)
      case None => None
      case Some(k) => Some(k + 1)
  }

  /** `o[key] = v`: an existing key keeps its place and gets the new value,
      a new key is appended. */
  function Put<V>(m: seq<(string, V)>, key: string, v: V): seq<(string, V)> {
    match Find(m, key)
    case Some(i) => m[i := (key, v)]
    case None => m + [(key, v)]
  }

  /** In an object without repeated keys, an assignment keeps the keys
      distinct, and the entries afterwards are the new pair and the old
      pairs for other keys. */
  lemma PutEntries<V(!new)>(m: seq<(string, V)>, key: string, v: V)
    requires DistinctBy(m, KeyOf)
    ensures DistinctBy(Put(m, key, v), KeyOf)
    ensures forall a, t :: (a, t) in Put(m, key, v) <==> (a == key && t == v) || (a != key && (a, t) in m)
  {
    match Find(m, key)
    case Some(i) =>
      var r := m[i := (key, v)];
      assert forall k :: 0 <= k < |m| && k != i ==> m[k].0 != key by {
        forall k | 0 <= k < |m| && k != i
          ensures m[k].0 != key
        {
          assert KeyOf(m[k]) != KeyOf(m[i]);
        }
      }
      forall a, t
        ensures (a, t) in r <==> (a == key && t == v) || (a != key && (a, t) in m)
      {
        assert r[i] == (key, v);
        if (a, t) in r {
          var k :| 0 <= k < |r| && r[k] == (a, t);
          if k != i {
            assert m[k] == (a, t) && m[k].0 != key;
          }
        }
        if a != key && (a, t) in m {
          var k :| 0 <= k < |m| && m[k] == (a, t);
          assert r[k] == (a, t);
        }
      }
    case None =>
  }


  /** `o[key]`, `None` for a missing key. */
  function Get<V>(m: seq<(string, V)>, key: string): Option<V> {
    match Find(m, key)
    case Some(i) => Some(m[i].1)
    case None => None
  }

  /** `key in o`. */
  predicate HasKey<V>(m: seq<(string, V)>, key: string) {
    Find(m, key).Some?
  }

  /** Reading a key after an assignment gives the value assigned to it, and
      an assignment to one key leaves every other key as it was. */
  lemma GetPut<V(!new)>(m: seq<(string, V)>, key: string, v: V, other: string)
    ensures Get(Put(m, key, v), key) == Some(v)
    ensures other != key ==> Get(Put(m, key, v), other) == Get(m, other)
    ensures HasKey(Put(m, key, v), other) <==> other == key || HasKey(m, other)
  {
    var r := Put(m, key, v);
    match Find(m, key)
    case Some(i) =>
      assert r == m[i := (key, v)];
      FindFirst(r, key, i);
      match Find(m, other) {
        case Some(j) =>
          if other != key {
            FindFirst(r, other, j);
          }
        case None =>
          if other != key {
            FindNone(r, other);
          }
      }
    case None =>
      assert r == m + [(key, v)];
      FindFirst(r, key, |m|);
      match Find(m, other) {
        case Some(j) =>
          FindFirst(r, other, j);
        case None =>
          if other != key {
            FindNone(r, other);
          }
      }
  }

  /** `Find` is the first position holding the key. */
  lemma FindFirst<V>(m: seq<(string, V)>, key: string, i: nat)
    requires i < |m| && m[i].0 == key && forall k :: 0 <= k < i ==> m[k].0 != key
    ensures Find(m, key) == Some(i)
  {
  }

  lemma FindNone<V>(m: seq<(string, V)>, key: string)
    requires forall k :: 0 <= k < |m| ==> m[k].0 != key
    ensures Find(m, key).None?
  {
  }

  /** An assignment to an existing key keeps the keys and their order. */
  lemma PutExisting<V(!new)>(m: seq<(string, V)>, key: string, v: V)
    requires HasKey(m, key)
    ensures |Put(m, key, v)| == |m|
    ensures forall k :: 0 <= k < |m| ==> Put(m, key, v)[k].0 == m[k].0
  {
  }
}
