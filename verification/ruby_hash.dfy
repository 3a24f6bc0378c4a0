/** Ruby's Hash: an insertion-ordered list of key/value pairs whose keys
    are distinct. Keys are strings; `BM25F` keys its Hashes by Symbols,
    which it only ever compares for equality. */
module RubyHash {
  import opened Wrappers

  predicate DistinctKeys<V>(h: seq<(string, V)>) {
    forall i, j :: 0 <= i < j < |h| ==> h[i].0 != h[j].0
  }

  type Hash<V> = h: seq<(string, V)> | DistinctKeys(h) witness []

  /** The keys in insertion order (Hash#keys). */
  function Keys<V>(h: seq<(string, V)>): (ks: seq<string>)
    ensures |ks| == |h|
    ensures forall i :: 0 <= i < |h| ==> ks[i] == h[i].0
  {
    if |h| == 0 then [] else [h[0].0] + Keys(h[1..])
  }

  /** Hash#[]: the value stored under `k`, or None (Ruby's nil) when absent. */
  function Get<V>(h: seq<(string, V)>, k: string): (r: Option<V>)
    ensures r.None? <==> k !in Keys(h)
    ensures DistinctKeys(h) ==>
      forall i :: 0 <= i < |h| && h[i].0 == k ==> r == Some(h[i].1)
  {
    if |h| == 0 then None
    else if h[0].0 == k then Some(h[0].1)
    else
      assert Keys(h) == [h[0].0] + Keys(h[1..]);
      Get(h[1..], k)
  }

  /** Hash#[]=: overwrite the value of an existing key in place, or append
      a new key at the end. */
  function Set<V>(h: Hash<V>, k: string, v: V): (r: Hash<V>)
    ensures forall x :: x in Keys(r) <==> x in Keys(h) || x == k
    ensures Get(r, k) == Some(v)
    ensures forall x :: x != k ==> Get(r, x) == Get(h, x)
    ensures k in Keys(h) ==> Keys(r) == Keys(h)
    ensures k in Keys(h) ==>
      forall i :: 0 <= i < |h| ==> r[i] == (if h[i].0 == k then (k, v) else h[i])
    ensures k !in Keys(h) ==> r == h + [(k, v)]
  {
    if k in Keys(h) then
      var r := seq(|h|, i requires 0 <= i < |h| => if h[i].0 == k then (k, v) else h[i]);
      assert Keys(r) == Keys(h);
      r
    else
      var r := h + [(k, v)];
      assert Keys(r) == Keys(h) + [k];
      r
  }
}
