/**
 * Python dicts as the list of their entries in insertion order: assigning
 * to a key that is present keeps its slot and replaces its value, a new key
 * goes last.
 */
module Dicts {
  import opened Wrappers

  /** The keys of the entries, in order. */
  function Keys<K, V>(es: seq<(K, V)>): (ks: seq<K>)
    ensures |ks| == |es|
    ensures forall i :: 0 <= i < |es| ==> ks[i] == es[i].0
  {
    if es == [] then [] else Keys(es[..|es| - 1]) + [es[|es| - 1].0]
  }

  predicate DistinctKeys<K(==), V>(es: seq<(K, V)>) {
    forall i, j :: 0 <= i < j < |es| ==> es[i].0 != es[j].0
  }

  /** `d[k]`: the value of the entry with key k, None for a missing key. */
  function Lookup<K(==), V>(es: seq<(K, V)>, k: K): (r: Option<V>)
    ensures r.None? <==> k !in Keys(es)
  {
    if es == [] then None
    else if es[0].0 == k then Some(es[0].1)
    else
      assert Keys(es) == [es[0].0] + Keys(es[1..]);
      Lookup(es[1..], k)
  }

  /** `d[k] = v`. */
  function Put<K(==), V>(es: seq<(K, V)>, k: K, v: V): (r: seq<(K, V)>)
    ensures |r| == if k in Keys(es) then |es| else |es| + 1
  {
    if es == [] then [(k, v)]
    else
      assert Keys(es) == [es[0].0] + Keys(es[1..]);
      if es[0].0 == k then [(k, v)] + es[1..]
      else [es[0]] + Put(es[1..], k, v)
  }

  /** `{k: v for (k, v) in ps}`: the pairs put in order. */
  function FromPairs<K(==), V>(ps: seq<(K, V)>): seq<(K, V)> {
    if ps == [] then [] else
      var (k, v) := ps[|ps| - 1];
      Put(FromPairs(ps[..|ps| - 1]), k, v)
  }

  /** The keys in the order of their first occurrence, each once. */
  function FirstOccurrences<K(==)>(ks: seq<K>): seq<K> {
    if ks == [] then []
    else if ks[|ks| - 1] in ks[..|ks| - 1] then FirstOccurrences(ks[..|ks| - 1])
    else FirstOccurrences(ks[..|ks| - 1]) + [ks[|ks| - 1]]
  }

  /** The value of the last pair with key k. */
  function LastValue<K(==), V>(ps: seq<(K, V)>, k: K): Option<V> {
    if ps == [] then None
    else if ps[|ps| - 1].0 == k then Some(ps[|ps| - 1].1)
    else LastValue(ps[..|ps| - 1], k)
  }

  lemma {:induction false} FirstOccurrencesMembers<K>(ks: seq<K>, k: K)
    ensures k in FirstOccurrences(ks) <==> k in ks
    decreases |ks|
  {
    if ks != [] {
      var init := ks[..|ks| - 1];
      assert ks == init + [ks[|ks| - 1]];
      FirstOccurrencesMembers(init, k);
    }
  }

  lemma {:induction false} PutKeys<K, V>(es: seq<(K, V)>, k: K, v: V)
    ensures Keys(Put(es, k, v)) == if k in Keys(es) then Keys(es) else Keys(es) + [k]
    decreases |es|
  {
    if es != [] {
      assert Keys(es) == [es[0].0] + Keys(es[1..]);
      if es[0].0 != k {
        PutKeys(es[1..], k, v);
        var r := Put(es, k, v);
        assert r == [es[0]] + Put(es[1..], k, v);
        assert Keys(r) == [es[0].0] + Keys(Put(es[1..], k, v)) by {
          assert r[1..] == Put(es[1..], k, v);
          KeysCons(r);
        }
      } else {
        var r := Put(es, k, v);
        KeysCons(r);
        assert r[1..] == es[1..];
      }
    }
  }

  lemma KeysCons<K, V>(es: seq<(K, V)>)
    requires es != []
    ensures Keys(es) == [es[0].0] + Keys(es[1..])
  {
  }

  lemma {:induction false} PutLookup<K, V>(es: seq<(K, V)>, k: K, v: V, key: K)
    ensures Lookup(Put(es, k, v), key) == if key == k then Some(v) else Lookup(es, key)
    decreases |es|
  {
    if es != [] && es[0].0 != k {
      PutLookup(es[1..], k, v, key);
      var r := Put(es, k, v);
      assert r[0] == es[0] && r[1..] == Put(es[1..], k, v);
    }
  }

  lemma {:induction false} PutDistinct<K, V>(es: seq<(K, V)>, k: K, v: V)
    requires DistinctKeys(es)
    ensures DistinctKeys(Put(es, k, v))
  {
    var r := Put(es, k, v);
    PutKeys(es, k, v);
    forall i, j | 0 <= i < j < |r|
      ensures r[i].0 != r[j].0
    {
      assert Keys(r)[i] == r[i].0 && Keys(r)[j] == r[j].0;
      if j < |es| {
        assert Keys(es)[i] == es[i].0 && Keys(es)[j] == es[j].0;
      } else {
        assert Keys(es)[i] == es[i].0;
      }
    }
  }

  /**
   * The comprehension's keys are the pairs' keys in the order of their first
   * occurrence, each once: a repeated key keeps its first slot.
   */
  lemma {:induction false} FromPairsKeys<K, V>(ps: seq<(K, V)>)
    ensures Keys(FromPairs(ps)) == FirstOccurrences(Keys(ps))
    decreases |ps|
  {
    if ps != [] {
      var init := ps[..|ps| - 1];
      var (k, v) := ps[|ps| - 1];
      FromPairsKeys(init);
      PutKeys(FromPairs(init), k, v);
      assert Keys(ps)[..|ps| - 1] == Keys(init);
      FirstOccurrencesMembers(Keys(init), k);
    }
  }

  /** A repeated key takes the value of its last pair. */
  lemma {:induction false} FromPairsLookup<K, V>(ps: seq<(K, V)>, key: K)
    ensures Lookup(FromPairs(ps), key) == LastValue(ps, key)
    decreases |ps|
  {
    if ps != [] {
      var init := ps[..|ps| - 1];
      var (k, v) := ps[|ps| - 1];
      FromPairsLookup(init, key);
      PutLookup(FromPairs(init), k, v, key);
    }
  }

  lemma {:induction false} FromPairsDistinct<K, V>(ps: seq<(K, V)>)
    ensures DistinctKeys(FromPairs(ps))
    decreases |ps|
  {
    if ps != [] {
      var init := ps[..|ps| - 1];
      var (k, v) := ps[|ps| - 1];
      FromPairsDistinct(init);
      PutDistinct(FromPairs(init), k, v);
    }
  }

  /** Put of a new key appends it. */
  lemma {:induction false} PutNew<K, V>(es: seq<(K, V)>, k: K, v: V)
    requires k !in Keys(es)
    ensures Put(es, k, v) == es + [(k, v)]
    decreases |es|
  {
    if es != [] {
      KeysCons(es);
      PutNew(es[1..], k, v);
      assert [es[0]] + (es[1..] + [(k, v)]) == es + [(k, v)];
    }
  }

  /** Pairs with distinct keys come out as they went in. */
  lemma {:induction false} FromPairsOfDistinct<K, V>(ps: seq<(K, V)>)
    requires DistinctKeys(ps)
    ensures FromPairs(ps) == ps
    decreases |ps|
  {
    if ps != [] {
      var init := ps[..|ps| - 1];
      var (k, v) := ps[|ps| - 1];
      assert DistinctKeys(init);
      FromPairsOfDistinct(init);
      assert k !in Keys(init) by {
        forall i | 0 <= i < |init|
          ensures Keys(init)[i] != k
        {
          assert init[i].0 == ps[i].0;
        }
      }
      PutNew(init, k, v);
      assert init + [(k, v)] == ps;
    }
  }
}
