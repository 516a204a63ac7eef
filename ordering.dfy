/** Python's `list.sort(key=...)`: it computes every key once and sorts
    stably. The model sorts the positions 0 .. k-1 of a key list by a total
    preorder `le` (insertion sort), and proves the result is the stable
    sorted order: a permutation, sorted by key, and with positions of equal
    keys kept in their original order. A stable sort's result is unique, so
    this is the order the source's sort produces. */
module Ordering {
  import opened Models

  /** `le` is total and transitive on the keys. */
  ghost predicate TotalPreorder<K>(keys: seq<K>, le: (K, K) -> bool) {
    && (forall i, j :: 0 <= i < |keys| && 0 <= j < |keys| ==> le(keys[i], keys[j]) || le(keys[j], keys[i]))
    && (forall i, j, k ::
          0 <= i < |keys| && 0 <= j < |keys| && 0 <= k < |keys| && le(keys[i], keys[j]) && le(keys[j], keys[k]) ==>
          le(keys[i], keys[k]))
  }

  /** Every entry is a position of `keys`. */
  predicate Positions<K>(keys: seq<K>, r: seq<nat>) {
    forall i :: 0 <= i < |r| ==> r[i] < |keys|
  }

  /** `r` lists positions in key order, equal keys in increasing position. */
  ghost predicate SortedStably<K>(keys: seq<K>, le: (K, K) -> bool, r: seq<nat>)
    requires Positions(keys, r)
  {
    && (forall i, j :: 0 <= i < j < |r| ==> le(keys[r[i]], keys[r[j]]))
    && (forall i, j :: 0 <= i < j < |r| && le(keys[r[j]], keys[r[i]]) ==> r[i] < r[j])
  }

  /** `r` is a permutation of 0 .. k-1. */
  ghost predicate PermutationOf(r: seq<nat>, k: nat) {
    |r| == k && Distinct(r) && forall x: nat :: x in r <==> x < k
  }

  /** Inserts position `x` into the sorted `ys`: behind every entry whose key
      is at most that of `x`, so ahead only of strictly greater keys. */
  function Insert<K>(keys: seq<K>, le: (K, K) -> bool, ys: seq<nat>, x: nat): (r: seq<nat>)
    requires x < |keys| && Positions(keys, ys)
    ensures Positions(keys, r) && |r| == |ys| + 1
  {
    if ys == [] then [x]
    else if le(keys[ys[|ys| - 1]], keys[x]) then ys + [x]
    else Insert(keys, le, ys[..|ys| - 1], x) + [ys[|ys| - 1]]
  }

  /** Insertion sort of the positions 0 .. k-1 by key. */
  function SortPositions<K>(keys: seq<K>, le: (K, K) -> bool, k: nat): (r: seq<nat>)
    requires k <= |keys|
    ensures Positions(keys, r) && |r| == k
  {
    if k == 0 then [] else Insert(keys, le, SortPositions(keys, le, k - 1), k - 1)
  }

  /** The stable sorted order of all positions of `keys`. */
  function StableOrder<K>(keys: seq<K>, le: (K, K) -> bool): (r: seq<nat>)
    ensures Positions(keys, r) && |r| == |keys|
  {
    SortPositions(keys, le, |keys|)
  }

  /** `xs` rearranged: entry i of the result is `xs[ord[i]]`. */
  function Arrange<T>(xs: seq<T>, ord: seq<nat>): (r: seq<T>)
    requires forall i :: 0 <= i < |ord| ==> ord[i] < |xs|
    ensures |r| == |ord| && forall i :: 0 <= i < |ord| ==> r[i] == xs[ord[i]]
  {
    seq(|ord|, i requires 0 <= i < |ord| => xs[ord[i]])
  }

  /** Inserting a new position adds exactly that position. */
  lemma {:induction false} InsertElements<K>(keys: seq<K>, le: (K, K) -> bool, ys: seq<nat>, x: nat)
    requires x < |keys| && Positions(keys, ys) && Distinct(ys) && x !in ys
    ensures Distinct(Insert(keys, le, ys, x))
    ensures forall y :: y in Insert(keys, le, ys, x) <==> y in ys || y == x
    decreases |ys|
  {
    if ys != [] && !le(keys[ys[|ys| - 1]], keys[x]) {
      var last := ys[|ys| - 1];
      var init := ys[..|ys| - 1];
      assert ys == init + [last];
      InsertElements(keys, le, init, x);
      assert last !in Insert(keys, le, init, x);
    }
  }

  /** A property shared by `x` and every entry of `ys` holds of every entry
      after the insertion. */
  lemma {:induction false} InsertAll<K>(keys: seq<K>, le: (K, K) -> bool, ys: seq<nat>, x: nat, p: nat -> bool)
    requires x < |keys| && Positions(keys, ys)
    requires p(x) && forall i :: 0 <= i < |ys| ==> p(ys[i])
    ensures forall i :: 0 <= i < |ys| + 1 ==> p(Insert(keys, le, ys, x)[i])
    decreases |ys|
  {
    if ys != [] && !le(keys[ys[|ys| - 1]], keys[x]) {
      InsertAll(keys, le, ys[..|ys| - 1], x, p);
    }
  }

  /** Appending a position whose key is at least every key in a stably
      sorted list, and which follows every entry of equal key, keeps it
      stably sorted. */
  lemma AppendSorted<K>(keys: seq<K>, le: (K, K) -> bool, s: seq<nat>, z: nat)
    requires z < |keys| && Positions(keys, s) && SortedStably(keys, le, s)
    requires forall i :: 0 <= i < |s| ==> le(keys[s[i]], keys[z])
    requires forall i :: 0 <= i < |s| ==> le(keys[z], keys[s[i]]) ==> s[i] < z
    ensures SortedStably(keys, le, s + [z])
  {
    assert forall i :: 0 <= i < |s| ==> (s + [z])[i] == s[i];
  }

  /** A stably sorted list stays so without its last entry. */
  lemma DropLastSorted<K>(keys: seq<K>, le: (K, K) -> bool, ys: seq<nat>)
    requires Positions(keys, ys) && SortedStably(keys, le, ys) && ys != []
    ensures SortedStably(keys, le, ys[..|ys| - 1])
  {
    assert forall i :: 0 <= i < |ys| - 1 ==> ys[..|ys| - 1][i] == ys[i];
  }

  /** Inserting a position above all others into a stably sorted list keeps
      it stably sorted. */
  lemma {:induction false} InsertSorted<K>(keys: seq<K>, le: (K, K) -> bool, ys: seq<nat>, x: nat)
    requires TotalPreorder(keys, le)
    requires x < |keys| && Positions(keys, ys)
    requires forall i :: 0 <= i < |ys| ==> ys[i] < x
    requires SortedStably(keys, le, ys)
    ensures SortedStably(keys, le, Insert(keys, le, ys, x))
    decreases |ys|
  {
    if ys != [] {
      var last := ys[|ys| - 1];
      var init := ys[..|ys| - 1];
      if le(keys[last], keys[x]) {
        forall i | 0 <= i < |ys|
          ensures le(keys[ys[i]], keys[x])
        {
          if i < |ys| - 1 {
            assert le(keys[ys[i]], keys[last]);
          }
        }
        AppendSorted(keys, le, ys, x);
      } else {
        DropLastSorted(keys, le, ys);
        InsertSorted(keys, le, init, x);
        assert last < |keys|;
        var below := (y: nat) => y < |keys| && le(keys[y], keys[last]);
        var after := (y: nat) => y < |keys| && (le(keys[last], keys[y]) ==> y < last);
        assert forall i :: 0 <= i < |init| ==> init[i] == ys[i];
        InsertAll(keys, le, init, x, below);
        InsertAll(keys, le, init, x, after);
        AppendSorted(keys, le, Insert(keys, le, init, x), last);
      }
    }
  }

  /** The entries of a permutation of 0 .. k-1 are below k. */
  lemma PermutationBelow(r: seq<nat>, k: nat)
    requires PermutationOf(r, k)
    ensures forall i :: 0 <= i < |r| ==> r[i] < k
  {
    forall i | 0 <= i < |r|
      ensures r[i] < k
    {
      assert r[i] in r;
    }
  }

  /** Insertion sort of 0 .. k-1 yields a permutation of 0 .. k-1. */
  lemma {:induction false} SortPositionsPermutation<K>(keys: seq<K>, le: (K, K) -> bool, k: nat)
    requires k <= |keys|
    ensures PermutationOf(SortPositions(keys, le, k), k)
  {
    if k > 0 {
      var ys := SortPositions(keys, le, k - 1);
      SortPositionsPermutation(keys, le, k - 1);
      InsertElements(keys, le, ys, k - 1);
    }
  }

  /** Insertion sort of 0 .. k-1 yields a stably sorted list. */
  lemma {:induction false} SortPositionsSorted<K>(keys: seq<K>, le: (K, K) -> bool, k: nat)
    requires TotalPreorder(keys, le) && k <= |keys|
    ensures SortedStably(keys, le, SortPositions(keys, le, k))
  {
    if k > 0 {
      SortPositionsSorted(keys, le, k - 1);
      SortPositionsStep(keys, le, k);
    }
  }

  /** One insertion keeps the insertion sort stably sorted. */
  lemma SortPositionsStep<K>(keys: seq<K>, le: (K, K) -> bool, k: nat)
    requires TotalPreorder(keys, le) && 0 < k <= |keys|
    requires SortedStably(keys, le, SortPositions(keys, le, k - 1))
    ensures SortedStably(keys, le, SortPositions(keys, le, k))
  {
    var ys := SortPositions(keys, le, k - 1);
    SortPositionsBelow(keys, le, k - 1);
    InsertSorted(keys, le, ys, k - 1);
  }

  /** Insertion sort of 0 .. k-1 lists positions below k only. */
  lemma {:induction false} SortPositionsBelow<K>(keys: seq<K>, le: (K, K) -> bool, k: nat)
    requires k <= |keys|
    ensures forall i :: 0 <= i < k ==> SortPositions(keys, le, k)[i] < k
  {
    if k > 0 {
      SortPositionsBelow(keys, le, k - 1);
      InsertAll(keys, le, SortPositions(keys, le, k - 1), k - 1, y => y < k);
    }
  }

  /** The stable order is a permutation of the positions, sorted by key,
      with equal keys in their original order. */
  lemma StableOrderCorrect<K>(keys: seq<K>, le: (K, K) -> bool)
    requires TotalPreorder(keys, le)
    ensures PermutationOf(StableOrder(keys, le), |keys|)
    ensures SortedStably(keys, le, StableOrder(keys, le))
  {
    SortPositionsPermutation(keys, le, |keys|);
    SortPositionsSorted(keys, le, |keys|);
  }
}
