/** A `java.util.HashMap` filled by one `put` per element, in order: the
    residue's atoms by name, a chain's residues by residue number, a model's
    chains by chain identifier and its atoms by serial number. */
module Indexing {

  /** `m` after `put(ks[0], vs[0])`, ..., `put(ks[n-1], vs[n-1])`. */
  function Put<K, V>(m: map<K, V>, ks: seq<K>, vs: seq<V>): (r: map<K, V>)
    requires |ks| == |vs|
    ensures r.Keys == m.Keys + set k | k in ks
    decreases |ks|
  {
    if ks == [] then m
    else
      var n := |ks| - 1;
      var p := Put(m, ks[..n], vs[..n]);
      assert (set k | k in ks) == (set k | k in ks[..n]) + {ks[n]} by {
        assert ks == ks[..n] + [ks[n]];
      }
      p[ks[n] := vs[n]]
  }

  /** The value `put` last stored under a key wins: it is the value paired
      with the key's last occurrence. */
  lemma {:induction false} PutLastWins<K, V>(m: map<K, V>, ks: seq<K>, vs: seq<V>, i: nat)
    requires |ks| == |vs| && i < |ks|
    requires forall j :: i < j < |ks| ==> ks[j] != ks[i]
    ensures Put(m, ks, vs)[ks[i]] == vs[i]
    decreases |ks|
  {
    var n := |ks| - 1;
    if i < n {
      PutLastWins(m, ks[..n], vs[..n], i);
    }
  }

  /** A key no `put` names keeps the value it had. */
  lemma {:induction false} PutElsewhere<K, V>(m: map<K, V>, ks: seq<K>, vs: seq<V>, k: K)
    requires |ks| == |vs| && k in m && k !in ks
    ensures Put(m, ks, vs)[k] == m[k]
    decreases |ks|
  {
    if ks != [] {
      var n := |ks| - 1;
      assert k !in ks[..n] by {
        assert forall j :: 0 <= j < n ==> ks[..n][j] == ks[j];
      }
      PutElsewhere(m, ks[..n], vs[..n], k);
    }
  }

  /** Every key that was put maps to the value of its last occurrence. */
  lemma PutFound<K, V>(m: map<K, V>, ks: seq<K>, vs: seq<V>, k: K) returns (i: nat)
    requires |ks| == |vs| && k in ks
    ensures i < |ks| && ks[i] == k
    ensures forall j :: i < j < |ks| ==> ks[j] != k
    ensures Put(m, ks, vs)[k] == vs[i]
  {
    i := |ks| - 1;
    while ks[i] != k
      invariant i < |ks|
      invariant forall j :: i < j < |ks| ==> ks[j] != k
      invariant exists j :: 0 <= j <= i && ks[j] == k
      decreases i
    {
      i := i - 1;
    }
    PutLastWins(m, ks, vs, i);
  }

  /** Every value of the map after the puts was there before or was put. */
  lemma PutValues<K, V>(m: map<K, V>, ks: seq<K>, vs: seq<V>, k: K)
    requires |ks| == |vs| && k in Put(m, ks, vs)
    ensures (k in ks && Put(m, ks, vs)[k] in vs) || (k !in ks && k in m && Put(m, ks, vs)[k] == m[k])
  {
    if k in ks {
      var i := PutFound(m, ks, vs, k);
    } else {
      PutElsewhere(m, ks, vs, k);
    }
  }
}
