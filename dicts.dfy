/**
  Python dict assignment `d[k] = v`, repeated: the normaliser builds every
  grouping (synonyms by key, definitions and translations by part of speech)
  this way, so a key written twice keeps the value written last.
 */
module Dicts {

  /** The dict left by executing `d[k] = v` for each pair `(k, v)` of `pairs`, in order. */
  function Assign<K, V>(d: map<K, V>, pairs: seq<(K, V)>): map<K, V> {
    if pairs == [] then d
    else
      var last := pairs[|pairs| - 1];
      Assign(d, pairs[..|pairs| - 1])[last.0 := last.1]
  }

  /** `d.get(k, default)`. */
  function Get<K, V>(d: map<K, V>, k: K, default: V): V {
    if k in d then d[k] else default
  }

  /** The keys written by `pairs`. */
  function KeysOf<K, V>(pairs: seq<(K, V)>): set<K> {
    set j | 0 <= j < |pairs| :: pairs[j].0
  }

  /** No pair after the `j`-th writes the same key. */
  ghost predicate LastOfKey<K, V>(pairs: seq<(K, V)>, j: nat)
    requires j < |pairs|
  {
    forall k :: j < k < |pairs| ==> pairs[k].0 != pairs[j].0
  }

  /** One more assignment at the end of the loop. */
  lemma AssignSnoc<K, V>(d: map<K, V>, pairs: seq<(K, V)>, p: (K, V))
    ensures Assign(d, pairs + [p]) == Assign(d, pairs)[p.0 := p.1]
  {
    assert (pairs + [p])[..|pairs|] == pairs;
  }

  /** Two loops in a row write the pairs of both, in order. */
  lemma {:induction false} AssignConcat<K, V>(d: map<K, V>, a: seq<(K, V)>, b: seq<(K, V)>)
    ensures Assign(d, a + b) == Assign(Assign(d, a), b)
  {
    if b == [] {
      assert a + b == a;
    } else {
      var n := |b| - 1;
      AssignConcat(d, a, b[..n]);
      assert (a + b)[..|a + b| - 1] == a + b[..n];
    }
  }

  /** The dict holds exactly the keys it started with and the keys written. */
  lemma {:induction false} AssignKeys<K, V>(d: map<K, V>, pairs: seq<(K, V)>)
    ensures Assign(d, pairs).Keys == d.Keys + KeysOf(pairs)
  {
    if pairs != [] {
      var init := pairs[..|pairs| - 1];
      AssignKeys(d, init);
      assert KeysOf(pairs) == KeysOf(init) + {pairs[|pairs| - 1].0} by {
        forall key | key in KeysOf(pairs) ensures key in KeysOf(init) + {pairs[|pairs| - 1].0} {
          var j :| 0 <= j < |pairs| && pairs[j].0 == key;
          if j < |pairs| - 1 { assert init[j] == pairs[j]; }
        }
        forall key | key in KeysOf(init) ensures key in KeysOf(pairs) {
          var j :| 0 <= j < |init| && init[j].0 == key;
          assert pairs[j] == init[j];
        }
      }
    }
  }

  /** Last write wins: the value of a key is the one its last pair wrote. */
  lemma {:induction false} AssignLastWins<K, V>(d: map<K, V>, pairs: seq<(K, V)>, j: nat)
    requires j < |pairs| && LastOfKey(pairs, j)
    ensures pairs[j].0 in Assign(d, pairs)
    ensures Assign(d, pairs)[pairs[j].0] == pairs[j].1
  {
    var n := |pairs| - 1;
    if j < n {
      var init := pairs[..n];
      assert init[j] == pairs[j];
      assert LastOfKey(init, j) by {
        forall k | j < k < |init| ensures init[k].0 != init[j].0 {
          assert init[k] == pairs[k];
        }
      }
      AssignLastWins(d, init, j);
      assert pairs[n].0 != pairs[j].0;
    }
  }

  /** Every value of the dict was there at the start or was written by some pair. */
  lemma {:induction false} AssignValueFrom<K, V>(d: map<K, V>, pairs: seq<(K, V)>, key: K)
    requires key in Assign(d, pairs)
    ensures (key in d && Assign(d, pairs)[key] == d[key])
         || exists j :: 0 <= j < |pairs| && pairs[j] == (key, Assign(d, pairs)[key])
  {
    if pairs != [] {
      var n := |pairs| - 1;
      var init := pairs[..n];
      if pairs[n].0 != key {
        AssignValueFrom(d, init, key);
        if !(key in d && Assign(d, pairs)[key] == d[key]) {
          var j :| 0 <= j < |init| && init[j] == (key, Assign(d, init)[key]);
          assert pairs[j] == init[j];
        }
      } else {
        assert pairs[n] == (key, Assign(d, pairs)[key]);
      }
    }
  }
}
