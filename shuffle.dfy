/**
 * The shuffles `arr.sort(() => Math.random() - 0.5)`.  The random comparator only
 * decides an order, so a shuffle is modelled by the permutation of positions it
 * happens to produce, supplied by the caller: `order[i]` is the original position
 * of the element that ends up at position `i`.
 */
module Shuffle {

  predicate IsPermutation(order: seq<nat>, n: nat)
  {
    && |order| == n
    && (forall i :: 0 <= i < n ==> order[i] < n)
    && (forall i, j :: 0 <= i < j < n ==> order[i] != order[j])
  }

  function Pick<T>(s: seq<T>, order: seq<nat>): (r: seq<T>)
    requires forall i :: 0 <= i < |order| ==> order[i] < |s|
    ensures |r| == |order|
  {
    seq(|order|, i requires 0 <= i < |order| => s[order[i]])
  }

  /** Rearranging by a permutation of positions keeps every element with its multiplicity. */
  lemma {:induction false} PickPermutationMultiset<T>(s: seq<T>, order: seq<nat>)
    requires IsPermutation(order, |s|)
    ensures multiset(Pick(s, order)) == multiset(s)
    decreases |s|
  {
    var n := |s|;
    if n > 0 {
      var v := order[n - 1];
      var s' := s[..v] + s[v + 1..];
      var order' := seq(n - 1, i requires 0 <= i < n - 1 => if order[i] > v then order[i] - 1 else order[i]);
      forall i | 0 <= i < n - 1 ensures order'[i] < n - 1 {
        assert order[i] != v;
      }
      forall i, j | 0 <= i < j < n - 1 ensures order'[i] != order'[j] {
        assert order[i] != v && order[j] != v && order[i] != order[j];
      }
      PickPermutationMultiset(s', order');
      forall i | 0 <= i < n - 1 ensures Pick(s, order)[i] == Pick(s', order')[i] {
        assert order[i] != v;
      }
      assert Pick(s, order) == Pick(s', order') + [s[v]];
      assert s == s[..v] + [s[v]] + s[v + 1..];
    }
  }

  /** The shuffled sequence: element `i` is `s[order[i]]`, and it is a permutation of `s`. */
  function Permute<T>(s: seq<T>, order: seq<nat>): (r: seq<T>)
    requires IsPermutation(order, |s|)
    ensures |r| == |s|
    ensures forall i :: 0 <= i < |s| ==> r[i] == s[order[i]]
    ensures multiset(r) == multiset(s)
  {
    PickPermutationMultiset(s, order);
    Pick(s, order)
  }

  /** The identity order, for the shuffle that happens to keep the input as it is. */
  function Identity(n: nat): (order: seq<nat>)
    ensures IsPermutation(order, n)
  {
    seq(n, i requires 0 <= i < n => i)
  }

  /** A shuffle may leave the order as it was: permuting by the identity changes nothing. */
  lemma PermuteIdentity<T>(s: seq<T>)
    ensures Permute(s, Identity(|s|)) == s
  {
    var r := Permute(s, Identity(|s|));
    assert forall i :: 0 <= i < |s| ==> r[i] == s[i];
  }
}
