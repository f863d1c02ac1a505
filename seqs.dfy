/** Sequence helpers shared by the texture list and the render queues. */
module Seqs {

  /** `s` with the element at index `k` erased (std::vector::erase at one position);
      an index past the end erases nothing. */
  function RemoveAt<T>(s: seq<T>, k: nat): (r: seq<T>)
    ensures k < |s| ==> |r| == |s| - 1
    ensures k >= |s| ==> r == s
    ensures forall i :: 0 <= i < k && i < |r| ==> r[i] == s[i]
    ensures forall i :: k <= i < |r| ==> r[i] == s[i + 1]
  {
    if k < |s| then s[..k] + s[k + 1..] else s
  }

  /** Erasing one position removes exactly one occurrence of that element. */
  lemma RemoveAtMultiset<T>(s: seq<T>, k: nat)
    requires k < |s|
    ensures multiset(RemoveAt(s, k)) == multiset(s) - multiset{s[k]}
  {
    assert s == s[..k] + [s[k]] + s[k + 1..];
    assert multiset(s) == multiset(s[..k]) + multiset{s[k]} + multiset(s[k + 1..]);
  }

  /** Concatenation is associative; stated once so that appending to a running
      trace costs one lemma call instead of an extensionality proof. */
  lemma ConcatAssoc<T>(a: seq<T>, b: seq<T>, c: seq<T>)
    ensures (a + b) + c == a + (b + c)
  {
  }
}
