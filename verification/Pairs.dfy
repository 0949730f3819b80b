/** Lists of key/value pairs read as maps: a later pair overrides an earlier one. */
module Pairs {
  import opened Common

  type Pair = (string, string)

  function LastWins<K(==), V>(pairs: seq<(K, V)>): map<K, V> {
    if pairs == [] then map[]
    else
      var last := pairs[|pairs| - 1];
      LastWins(pairs[..|pairs| - 1])[last.0 := last.1]
  }

  function Found<K, V>(m: map<K, V>, key: K): Option<V> {
    if key in m then Some(m[key]) else None
  }

  lemma {:induction false} LastWinsOfConcat<K, V>(a: seq<(K, V)>, b: seq<(K, V)>)
    ensures LastWins(a + b) == LastWins(a) + LastWins(b)
  {
    if b == [] {
      assert a + b == a;
    } else {
      assert (a + b)[..|a + b| - 1] == a + b[..|b| - 1];
      LastWinsOfConcat(a, b[..|b| - 1]);
    }
  }

  predicate UniqueKeys<K(==), V>(pairs: seq<(K, V)>) {
    forall i, j :: 0 <= i < j < |pairs| ==> pairs[i].0 != pairs[j].0
  }

  /** The map has exactly the keys of the list. */
  lemma {:induction false} KeysOfLastWins<K, V>(pairs: seq<(K, V)>, key: K)
    ensures key in LastWins(pairs) <==> exists i :: 0 <= i < |pairs| && pairs[i].0 == key
  {
    if pairs != [] {
      var front := pairs[..|pairs| - 1];
      KeysOfLastWins(front, key);
      if i :| 0 <= i < |pairs| && pairs[i].0 == key { assert i < |front| ==> front[i].0 == key; }
      if i :| 0 <= i < |front| && front[i].0 == key { assert pairs[i].0 == key; }
    }
  }

  /** The value of a key is the one of the last pair that has it. */
  lemma {:induction false} ValueOfLastPair<K, V>(pairs: seq<(K, V)>, i: nat)
    requires i < |pairs| && forall j :: i < j < |pairs| ==> pairs[j].0 != pairs[i].0
    ensures pairs[i].0 in LastWins(pairs) && LastWins(pairs)[pairs[i].0] == pairs[i].1
  {
    if i < |pairs| - 1 {
      ValueOfLastPair(pairs[..|pairs| - 1], i);
    }
  }

  /** A map's value comes from one of the pairs. */
  lemma {:induction false} LastWinsTakesFrom<K, V>(pairs: seq<(K, V)>, key: K)
    requires key in LastWins(pairs)
    ensures exists i :: 0 <= i < |pairs| && pairs[i] == (key, LastWins(pairs)[key])
  {
    var last := |pairs| - 1;
    if pairs[last].0 == key {
      assert pairs[last] == (key, LastWins(pairs)[key]);
    } else {
      LastWinsTakesFrom(pairs[..last], key);
      var i :| 0 <= i < last && pairs[..last][i] == (key, LastWins(pairs[..last])[key]);
      assert pairs[i] == (key, LastWins(pairs)[key]);
    }
  }

  predicate NoRepeats(keys: seq<string>) {
    forall i, j :: 0 <= i < j < |keys| ==> keys[i] != keys[j]
  }

  /** The keys in order of first appearance. */
  function FirstSeen(pairs: seq<Pair>): (keys: seq<string>)
    ensures NoRepeats(keys) && forall k :: k in keys <==> k in LastWins(pairs)
  {
    if pairs == [] then []
    else
      var before, key := FirstSeen(pairs[..|pairs| - 1]), pairs[|pairs| - 1].0;
      if key in before then before else before + [key]
  }

  /** Each key once, where it first appeared, with the value it was last given. */
  function Deduped(pairs: seq<Pair>): (r: seq<Pair>)
    ensures |r| == |FirstSeen(pairs)| && UniqueKeys(r)
  {
    var keys, values := FirstSeen(pairs), LastWins(pairs);
    seq(|keys|, i requires 0 <= i < |keys| => (keys[i], values[keys[i]]))
  }

  /** Dropping overridden pairs does not change the map. */
  lemma DedupedMeansTheSame(pairs: seq<Pair>)
    ensures LastWins(Deduped(pairs)) == LastWins(pairs)
  {
    var d, keys := Deduped(pairs), FirstSeen(pairs);
    forall key ensures key in LastWins(d) <==> key in LastWins(pairs) {
      KeysOfLastWins(d, key);
      if key in LastWins(pairs) {
        assert key in keys;
        var i :| 0 <= i < |keys| && keys[i] == key;
        assert d[i].0 == key;
      }
    }
    forall key | key in LastWins(pairs) ensures LastWins(d)[key] == LastWins(pairs)[key] {
      assert key in keys;
      var i :| 0 <= i < |keys| && keys[i] == key;
      ValueOfLastPair(d, i);
    }
  }

  /** Where a key is. */
  function IndexOf(pairs: seq<Pair>, key: string): (r: Option<nat>)
    ensures r.Some? ==> r.value < |pairs| && pairs[r.value].0 == key
    ensures r.None? ==> forall i :: 0 <= i < |pairs| ==> pairs[i].0 != key
  {
    if pairs == [] then None
    else if pairs[|pairs| - 1].0 == key then Some(|pairs| - 1)
    else IndexOf(pairs[..|pairs| - 1], key)
  }

  lemma DedupedOverwrites(before: seq<Pair>, pair: Pair, i: nat)
    requires i < |Deduped(before)| && Deduped(before)[i].0 == pair.0
    ensures Deduped(before + [pair]) == Deduped(before)[i := pair]
  {
    assert (before + [pair])[..|before|] == before;
    assert FirstSeen(before)[i] == pair.0;
  }

  lemma DedupedAppends(before: seq<Pair>, pair: Pair)
    requires forall i :: 0 <= i < |Deduped(before)| ==> Deduped(before)[i].0 != pair.0
    ensures Deduped(before + [pair]) == Deduped(before) + [pair]
  {
    assert (before + [pair])[..|before|] == before;
    var keys := FirstSeen(before);
    forall i | 0 <= i < |keys| ensures keys[i] != pair.0 { assert Deduped(before)[i].0 == keys[i]; }
  }

  /** deduped_kafka_config: overwrite the pair that has the key, or push a new one. */
  method DedupeLoop(pairs: seq<Pair>) returns (deduped: seq<Pair>)
    ensures deduped == Deduped(pairs)
  {
    deduped := [];
    for n := 0 to |pairs|
      invariant deduped == Deduped(pairs[..n])
    {
      var (key, value) := pairs[n];
      assert pairs[..n + 1] == pairs[..n] + [pairs[n]];
      var found := IndexOf(deduped, key);
      if found.Some? {
        DedupedOverwrites(pairs[..n], pairs[n], found.value);
        deduped := deduped[found.value := (key, value)];
      } else {
        DedupedAppends(pairs[..n], pairs[n]);
        deduped := deduped + [(key, value)];
      }
    }
    assert pairs[..|pairs|] == pairs;
  }
}
