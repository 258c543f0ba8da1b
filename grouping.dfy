/** The run-length grouping `Parser.buildModel` performs twice: atoms into
    residues wherever the residue number changes, then residues into chains
    wherever the chain identifier changes. The loop, as written, never places
    the last item in a group, emits nothing for fewer than two items, and
    names each group after a variable that is only updated on repeated keys. */
module Grouping {

  /** A group the loop emits: the items at positions [lo, hi) and the value
      of the lagging name variable when the group is closed. */
  datatype Run<T> = Run(lo: nat, hi: nat, name: T)

  /** The groups the loop emits from iteration `i` on, when the open group
      started at `lo` and the name variable holds `lag`. */
  ghost function RunsFrom<K, T>(ks: seq<K>, tags: seq<T>, i: nat, lo: nat, lag: T): seq<Run<T>>
    requires |tags| == |ks| && 1 <= i
    decreases |ks| - i
  {
    if i >= |ks| then []
    else if i == |ks| - 1 then [Run(lo, i, lag)]
    else if ks[i] == ks[i - 1] then RunsFrom(ks, tags, i + 1, lo, tags[i])
    else [Run(lo, i, lag)] + RunsFrom(ks, tags, i + 1, i, lag)
  }

  /** The groups of the whole loop, the name variable starting at `init`. */
  ghost function Runs<K, T>(ks: seq<K>, tags: seq<T>, init: T): seq<Run<T>>
    requires |tags| == |ks|
  {
    if |ks| == 0 then [] else RunsFrom(ks, tags, 1, 0, init)
  }

  /** The name variable before iteration `hi`: the tag of the latest
      position j in [1, hi) whose key repeats its predecessor's, or `init`
      when there is none. */
  ghost function LagName<K, T>(ks: seq<K>, tags: seq<T>, init: T, hi: nat): T
    requires |tags| == |ks| && hi <= |ks|
  {
    if hi <= 1 then init
    else if ks[hi - 1] == ks[hi - 2] then tags[hi - 1]
    else LagName(ks, tags, init, hi - 1)
  }

  /** A group is non-empty, its keys are all equal, it starts where the key
      differs from the previous item's, and it carries the name variable's
      value at its end. */
  ghost predicate WellFormed<K, T>(ks: seq<K>, tags: seq<T>, init: T, r: Run<T>)
    requires |tags| == |ks|
  {
    && r.lo < r.hi <= |ks|
    && (forall j :: r.lo <= j < r.hi ==> ks[j] == ks[r.lo])
    && (r.lo > 0 ==> ks[r.lo] != ks[r.lo - 1])
    && r.name == LagName(ks, tags, init, r.hi)
  }

  /** The groups cover [lo, hi) in order, each ending where the next begins. */
  ghost predicate Tiling<T>(runs: seq<Run<T>>, lo: nat, hi: nat) {
    && (runs == [] ==> lo == hi)
    && (runs != [] ==> runs[0].lo == lo && runs[|runs| - 1].hi == hi)
    && (forall k :: 0 <= k < |runs| - 1 ==> runs[k].hi == runs[k + 1].lo)
  }

  lemma {:induction false} RunsFromFacts<K, T>(ks: seq<K>, tags: seq<T>, init: T, i: nat, lo: nat, lag: T)
    requires |tags| == |ks| && lo < i < |ks|
    requires forall j :: lo <= j < i ==> ks[j] == ks[lo]
    requires lo > 0 ==> ks[lo] != ks[lo - 1]
    requires lag == LagName(ks, tags, init, i)
    ensures Tiling(RunsFrom(ks, tags, i, lo, lag), lo, |ks| - 1)
    ensures forall k :: 0 <= k < |RunsFrom(ks, tags, i, lo, lag)| ==>
      WellFormed(ks, tags, init, RunsFrom(ks, tags, i, lo, lag)[k])
    decreases |ks| - i
  {
    if i == |ks| - 1 {
    } else if ks[i] == ks[i - 1] {
      RunsFromFacts(ks, tags, init, i + 1, lo, tags[i]);
    } else {
      var rest := RunsFrom(ks, tags, i + 1, i, lag);
      RunsFromFacts(ks, tags, init, i + 1, i, lag);
      assert RunsFrom(ks, tags, i, lo, lag) == [Run(lo, i, lag)] + rest;
      assert forall k :: 1 <= k < 1 + |rest| ==> ([Run(lo, i, lag)] + rest)[k] == rest[k - 1];
    }
  }

  /** With at least two items, the groups tile [0, n-1): every item but the
      last lands in exactly one group, in order. Each group is well formed. */
  lemma RunsTile<K, T>(ks: seq<K>, tags: seq<T>, init: T)
    requires |tags| == |ks| && |ks| >= 2
    ensures Tiling(Runs(ks, tags, init), 0, |ks| - 1)
    ensures forall k :: 0 <= k < |Runs(ks, tags, init)| ==> WellFormed(ks, tags, init, Runs(ks, tags, init)[k])
  {
    RunsFromFacts(ks, tags, init, 1, 0, init);
  }

  /** Every group lies within the items and is non-empty. */
  lemma RunsInRange<K, T>(ks: seq<K>, tags: seq<T>, init: T)
    requires |tags| == |ks|
    ensures forall k :: 0 <= k < |Runs(ks, tags, init)| ==> Runs(ks, tags, init)[k].lo < Runs(ks, tags, init)[k].hi <= |ks|
  {
    if |ks| >= 2 {
      RunsTile(ks, tags, init);
    }
  }

  /** With fewer than two items the loop emits nothing. */
  lemma RunsShort<K, T>(ks: seq<K>, tags: seq<T>, init: T)
    requires |tags| == |ks| && |ks| <= 1
    ensures Runs(ks, tags, init) == []
  {
  }

  /** The groups before group n tile the items before group n starts. */
  lemma RunsPrefixTile<K, T>(ks: seq<K>, tags: seq<T>, init: T, n: nat)
    requires |tags| == |ks| && n < |Runs(ks, tags, init)|
    ensures Runs(ks, tags, init)[n].lo <= |ks|
    ensures Tiling(Runs(ks, tags, init)[..n], 0, Runs(ks, tags, init)[n].lo)
  {
    if |ks| < 2 {
      RunsShort(ks, tags, init);
      assert false;
    }
    var runs := Runs(ks, tags, init);
    assert Tiling(runs, 0, |ks| - 1) by {
      RunsTile(ks, tags, init);
    }
    TilingPrefix(runs, 0, |ks| - 1, n);
    RunsInRange(ks, tags, init);
  }

  /** The first n groups of a tiling tile the range up to group n. */
  lemma TilingPrefix<T>(runs: seq<Run<T>>, lo: nat, hi: nat, n: nat)
    requires Tiling(runs, lo, hi) && n < |runs|
    ensures Tiling(runs[..n], lo, runs[n].lo)
  {
  }

  /** Some group of a tiling holds each position of the tiled range. */
  lemma {:induction false} Covered<T>(runs: seq<Run<T>>, lo: nat, hi: nat, j: nat) returns (k: nat)
    requires Tiling(runs, lo, hi) && lo <= j < hi
    ensures k < |runs| && runs[k].lo <= j < runs[k].hi
  {
    k := 0;
    while runs[k].hi <= j
      invariant k < |runs| && runs[k].lo <= j
      decreases |runs| - k
    {
      k := k + 1;
    }
  }

  /** A new group starts at position j of [1, n-1) exactly when the key at
      j differs from the key at j - 1. */
  lemma RunsSplitWhereKeyChanges<K, T>(ks: seq<K>, tags: seq<T>, init: T, j: nat)
    requires |tags| == |ks| && 1 <= j < |ks| - 1
    ensures ks[j] != ks[j - 1] <==> exists k :: 0 <= k < |Runs(ks, tags, init)| && Runs(ks, tags, init)[k].lo == j
  {
    var runs := Runs(ks, tags, init);
    RunsTile(ks, tags, init);
    var k := Covered(runs, 0, |ks| - 1, j);
    assert WellFormed(ks, tags, init, runs[k]);
    if ks[j] != ks[j - 1] {
      assert runs[k].lo == j;
    }
  }

  /** The items of each group. */
  ghost function Pieces<X, T>(xs: seq<X>, runs: seq<Run<T>>): (r: seq<seq<X>>)
    requires forall k :: 0 <= k < |runs| ==> runs[k].lo <= runs[k].hi <= |xs|
    ensures |r| == |runs|
    ensures forall k :: 0 <= k < |runs| ==> r[k] == xs[runs[k].lo..runs[k].hi]
  {
    seq(|runs|, k requires 0 <= k < |runs| => xs[runs[k].lo..runs[k].hi])
  }

  ghost function Concat<X>(ss: seq<seq<X>>): seq<X> {
    if ss == [] then [] else Concat(ss[..|ss| - 1]) + ss[|ss| - 1]
  }

  /** The groups of a tiling, concatenated, give back the tiled range. */
  lemma {:induction false} ConcatPieces<X, T>(xs: seq<X>, runs: seq<Run<T>>, lo: nat, hi: nat)
    requires forall k :: 0 <= k < |runs| ==> runs[k].lo <= runs[k].hi <= |xs|
    requires Tiling(runs, lo, hi) && hi <= |xs|
    ensures lo <= hi && Concat(Pieces(xs, runs)) == xs[lo..hi]
    decreases |runs|
  {
    if runs != [] {
      var n := |runs| - 1;
      var front := runs[..n];
      assert Pieces(xs, runs)[..n] == Pieces(xs, front);
      if n == 0 {
        assert Concat(Pieces(xs, front)) == [];
      } else {
        assert Tiling(front, lo, runs[n].lo);
        ConcatPieces(xs, front, lo, runs[n].lo);
      }
      assert xs[lo..hi] == xs[lo..runs[n].lo] + xs[runs[n].lo..hi];
    }
  }
}
