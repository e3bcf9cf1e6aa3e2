/**
 * The .NET `Dictionary<string, V>` as the sink uses it: entries in insertion
 * order, no key twice, and assignment through the indexer overwriting the
 * value of an existing key in place (its position is kept) or appending a new
 * entry. Nothing is ever removed, so insertion order is enumeration order.
 */
module Dictionaries {
  import opened Wrappers

  datatype KeyValuePair<V> = KeyValuePair(key: string, value: V)

  ghost predicate DistinctKeys<V>(es: seq<KeyValuePair<V>>) {
    forall i, j :: 0 <= i < j < |es| ==> es[i].key != es[j].key
  }

  /** The dictionary's `Keys`, in enumeration order. */
  function Keys<V>(es: seq<KeyValuePair<V>>): (r: seq<string>)
    ensures |r| == |es|
    ensures forall i :: 0 <= i < |es| ==> r[i] == es[i].key
  {
    if es == [] then [] else [es[0].key] + Keys(es[1..])
  }

  /** The dictionary's `Values`, in enumeration order. */
  function Values<V>(es: seq<KeyValuePair<V>>): (r: seq<V>)
    ensures |r| == |es|
    ensures forall i :: 0 <= i < |es| ==> r[i] == es[i].value
  {
    if es == [] then [] else [es[0].value] + Values(es[1..])
  }

  function KeySet<V>(es: seq<KeyValuePair<V>>): set<string> {
    set i | 0 <= i < |es| :: es[i].key
  }

  /** Position of key `k`, if present. */
  function IndexOf<V>(es: seq<KeyValuePair<V>>, k: string): (r: Option<nat>)
    ensures r.Some? ==> r.value < |es| && es[r.value].key == k
    ensures r.None? <==> k !in KeySet(es)
  {
    if es == [] then None
    else if es[0].key == k then Some(0)
    else
      var rest := IndexOf(es[1..], k);
      assert KeySet(es) == {es[0].key} + KeySet(es[1..]) by {
        forall x | x in KeySet(es) ensures x in {es[0].key} + KeySet(es[1..]) {
          var i :| 0 <= i < |es| && es[i].key == x;
          if i > 0 { assert es[1..][i - 1].key == x; }
        }
      }
      if rest.None? then None else Some(rest.value + 1)
  }

  /** `TryGetValue`: the value stored under `k`, if any. */
  function Lookup<V>(es: seq<KeyValuePair<V>>, k: string): (r: Option<V>)
    ensures r.Some? <==> k in KeySet(es)
    ensures DistinctKeys(es) ==> forall i :: 0 <= i < |es| && es[i].key == k ==> r == Some(es[i].value)
  {
    match IndexOf(es, k)
    case None => None
    case Some(i) => Some(es[i].value)
  }

  /** `dictionary[k] = v`. */
  function Put<V>(es: seq<KeyValuePair<V>>, k: string, v: V): (r: seq<KeyValuePair<V>>)
    ensures DistinctKeys(es) ==> DistinctKeys(r)
    ensures KeySet(r) == KeySet(es) + {k}
    ensures DistinctKeys(es) ==> Lookup(r, k) == Some(v)
    ensures DistinctKeys(es) ==> forall k' :: k' != k ==> Lookup(r, k') == Lookup(es, k')
    ensures k in KeySet(es) ==> |r| == |es| && Keys(r) == Keys(es)
    ensures k !in KeySet(es) ==> r == es + [KeyValuePair(k, v)]
  {
    match IndexOf(es, k)
    case None =>
      PutAppends(es, k, v);
      es + [KeyValuePair(k, v)]
    case Some(i) =>
      PutOverwrites(es, i, v);
      es[i := KeyValuePair(k, v)]
  }

  /** Assigning an absent key appends one entry. */
  lemma PutAppends<V>(es: seq<KeyValuePair<V>>, k: string, v: V)
    requires k !in KeySet(es)
    ensures var r := es + [KeyValuePair(k, v)];
            && KeySet(r) == KeySet(es) + {k}
            && (DistinctKeys(es) ==> DistinctKeys(r) && Lookup(r, k) == Some(v))
            && (DistinctKeys(es) ==> forall k' :: k' != k ==> Lookup(r, k') == Lookup(es, k'))
  {
    var r := es + [KeyValuePair(k, v)];
    assert forall i :: 0 <= i < |es| ==> r[i] == es[i];
    assert r[|es|].key == k;
    assert KeySet(r) == KeySet(es) + {k};
  }

  /** Assigning a present key changes that entry's value and keeps every key where it was. */
  lemma PutOverwrites<V>(es: seq<KeyValuePair<V>>, i: nat, v: V)
    requires i < |es|
    ensures var r := es[i := KeyValuePair(es[i].key, v)];
            && |r| == |es| && Keys(r) == Keys(es)
            && KeySet(r) == KeySet(es)
            && (DistinctKeys(es) ==> DistinctKeys(r) && Lookup(r, es[i].key) == Some(v))
            && (DistinctKeys(es) ==> forall k' :: k' != es[i].key ==> Lookup(r, k') == Lookup(es, k'))
  {
    var r := es[i := KeyValuePair(es[i].key, v)];
    assert forall j :: 0 <= j < |es| ==> r[j].key == es[j].key;
    assert KeySet(r) == KeySet(es);
    assert Keys(r) == Keys(es);
  }

  /** With distinct keys, the number of entries is the number of keys. */
  lemma {:induction false} CountIsKeyCount<V>(es: seq<KeyValuePair<V>>)
    requires DistinctKeys(es)
    ensures |KeySet(es)| == |es|
  {
    if es != [] {
      var rest := es[1..];
      CountIsKeyCount(rest);
      assert KeySet(es) == {es[0].key} + KeySet(rest) by {
        forall x | x in KeySet(es) ensures x in {es[0].key} + KeySet(rest) {
          var i :| 0 <= i < |es| && es[i].key == x;
          if i > 0 { assert rest[i - 1].key == x; }
        }
        forall x | x in KeySet(rest) ensures x in KeySet(es) {
          var i :| 0 <= i < |rest| && rest[i].key == x;
          assert es[i + 1].key == x;
        }
      }
      assert es[0].key !in KeySet(rest);
    }
  }
}
