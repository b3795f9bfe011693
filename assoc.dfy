/** Building a map by inserting key/value pairs one after another, as Go code
    does with `m[k] = v` in a loop: a later pair with the same key overwrites
    an earlier one. */
module Assoc {

  function FromPairs<K, V>(ps: seq<(K, V)>): map<K, V>
  {
    if ps == [] then map[] else FromPairs(ps[..|ps| - 1])[ps[|ps| - 1].0 := ps[|ps| - 1].1]
  }

  /** Exactly the keys of the pairs are present. */
  lemma {:induction false} FromPairsKeys<K, V>(ps: seq<(K, V)>, k: K)
    ensures k in FromPairs(ps) <==> exists i :: 0 <= i < |ps| && ps[i].0 == k
  {
    if ps != [] {
      var init := ps[..|ps| - 1];
      FromPairsKeys(init, k);
      if exists i :: 0 <= i < |init| && init[i].0 == k {
        var i :| 0 <= i < |init| && init[i].0 == k;
        assert ps[i].0 == k;
      }
      if exists i :: 0 <= i < |ps| && ps[i].0 == k {
        var i :| 0 <= i < |ps| && ps[i].0 == k;
        if i < |init| { assert init[i].0 == k; }
      }
    }
  }

  /** A key maps to the value of the LAST pair that carries it. */
  lemma {:induction false} FromPairsLastWins<K, V>(ps: seq<(K, V)>, i: nat)
    requires i < |ps|
    requires forall j :: i < j < |ps| ==> ps[j].0 != ps[i].0
    ensures ps[i].0 in FromPairs(ps) && FromPairs(ps)[ps[i].0] == ps[i].1
  {
    if i < |ps| - 1 {
      var init := ps[..|ps| - 1];
      FromPairsLastWins(init, i);
    }
  }

  /** `keys` lists each key of the map once: the order in which Go's
      `range` visits a map, which the language leaves unspecified. */
  ghost predicate Enumerates<K(!new), V>(keys: seq<K>, m: map<K, V>)
  {
    (forall k :: k in m <==> k in keys) && forall i, j :: 0 <= i < j < |keys| ==> keys[i] != keys[j]
  }

  /** Such an enumeration has one entry per key. */
  lemma EnumeratesCard<K(!new), V>(keys: seq<K>, m: map<K, V>)
    requires Enumerates(keys, m)
    ensures |keys| == |m|
  {
    DistinctCard(keys, m.Keys);
  }

  lemma {:induction false} DistinctCard<K>(keys: seq<K>, s: set<K>)
    requires forall k :: k in s <==> k in keys
    requires forall i, j :: 0 <= i < j < |keys| ==> keys[i] != keys[j]
    ensures |s| == |keys|
  {
    if keys != [] {
      var last := keys[|keys| - 1];
      var init := keys[..|keys| - 1];
      assert keys == init + [last];
      forall k
        ensures k in s - {last} <==> k in init
      {
        if k in init {
          var i :| 0 <= i < |init| && init[i] == k;
          assert keys[i] == k;
        }
      }
      DistinctCard(init, s - {last});
    }
  }
}
