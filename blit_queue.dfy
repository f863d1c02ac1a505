/** One render queue: a std::priority_queue of draw items ordered by the
    engine's Comparer. The Comparer is not part of this model; it is stood for
    by a key function `priority` over depths: top() is an item of greatest
    key. Whether greater depths come out first or last is therefore left open,
    and so is the order among items of equal key (the heap layout is not
    modelled: the items are kept in push order and the first one of greatest
    key is the top). */
module BlitQueues {
  import opened Seqs
  import opened RenderTypes

  /** Index of the first item of greatest priority. */
  function TopIndex(items: seq<BlitItem>, priority: int -> int): (k: nat)
    requires items != []
    ensures k < |items|
    ensures forall j :: 0 <= j < |items| ==> priority(items[j].depth) <= priority(items[k].depth)
  {
    if |items| == 1 then 0
    else
      var k := TopIndex(items[..|items| - 1], priority);
      if priority(items[|items| - 1].depth) > priority(items[k].depth) then |items| - 1 else k
  }

  /** `t` is in the queue's contents and no item there ranks above it. */
  ghost predicate IsTop(q: multiset<BlitItem>, t: BlitItem, priority: int -> int)
  {
    t in q && forall x :: x in q ==> priority(x.depth) <= priority(t.depth)
  }

  /** Taking top() and popping it |order| times from a queue holding `q`
      yields the items of `order`, in that order, and leaves `rest`. */
  ghost predicate Drains(q: multiset<BlitItem>, order: seq<BlitItem>, rest: multiset<BlitItem>,
                         priority: int -> int)
    decreases |order|
  {
    if order == [] then rest == q
    else IsTop(q, order[0], priority) &&
         Drains(q - multiset{order[0]}, order[1..], rest, priority)
  }

  /** One more pop of a top item extends the drain. */
  lemma {:induction false} DrainsExtend(q: multiset<BlitItem>, order: seq<BlitItem>, rest: multiset<BlitItem>,
                                        t: BlitItem, priority: int -> int)
    requires Drains(q, order, rest, priority) && IsTop(rest, t, priority)
    ensures Drains(q, order + [t], rest - multiset{t}, priority)
    decreases |order|
  {
    if order != [] {
      assert (order + [t])[1..] == order[1..] + [t];
      DrainsExtend(q - multiset{order[0]}, order[1..], rest, t, priority);
    }
  }

  /** Every item the queue held is taken exactly once: the items taken and the
      items left make up the original contents. */
  lemma {:induction false} DrainsTakesEachOnce(q: multiset<BlitItem>, order: seq<BlitItem>, rest: multiset<BlitItem>,
                                               priority: int -> int)
    requires Drains(q, order, rest, priority)
    ensures multiset(order) + rest == q
    decreases |order|
  {
    if order != [] {
      DrainsTakesEachOnce(q - multiset{order[0]}, order[1..], rest, priority);
      assert order == [order[0]] + order[1..];
    }
  }

  /** Items come out by rank: no item taken later, nor any item left, ranks
      above an item taken earlier. */
  lemma {:induction false} DrainsRanked(q: multiset<BlitItem>, order: seq<BlitItem>, rest: multiset<BlitItem>,
                                        priority: int -> int)
    requires Drains(q, order, rest, priority)
    ensures forall i, j :: 0 <= i < j < |order| ==> priority(order[j].depth) <= priority(order[i].depth)
    ensures forall i, x :: 0 <= i < |order| && x in rest ==> priority(x.depth) <= priority(order[i].depth)
    decreases |order|
  {
    if order != [] {
      var q' := q - multiset{order[0]};
      DrainsRanked(q', order[1..], rest, priority);
      DrainsTakesEachOnce(q', order[1..], rest, priority);
      forall j | 0 < j < |order| ensures priority(order[j].depth) <= priority(order[0].depth) {
        assert order[j] == order[1..][j - 1];
        assert order[j] in multiset(order[1..]);
      }
      forall i, x | 0 <= i < |order| && x in rest ensures priority(x.depth) <= priority(order[i].depth) {
        if i > 0 { assert order[i] == order[1..][i - 1]; }
      }
      forall i, j | 0 < i < j < |order| ensures priority(order[j].depth) <= priority(order[i].depth) {
        assert order[i] == order[1..][i - 1] && order[j] == order[1..][j - 1];
      }
    }
  }

  /** Of two items of one queue, the one of strictly higher rank is blitted
      first, whatever order they were submitted in. */
  lemma HigherRankDrainsFirst(q: multiset<BlitItem>, order: seq<BlitItem>, priority: int -> int, i: nat, j: nat)
    requires Drains(q, order, multiset{}, priority)
    requires i < |order| && j < |order|
    requires priority(order[i].depth) < priority(order[j].depth)
    ensures j < i
  {
    DrainsRanked(q, order, multiset{}, priority);
  }

  /** Popping keeps only items that were queued, so a queue of items the
      blits can draw stays one. */
  lemma RemoveKeepsWellFormed(items: seq<BlitItem>, k: nat)
    requires AllWellFormed(items)
    ensures AllWellFormed(RemoveAt(items, k))
  {
  }

  /** The std::priority_queue<BlitItem*, ..., Comparer> of one render queue. */
  class BlitQueue {
    const priority: int -> int
    var items: seq<BlitItem>

    constructor (priority: int -> int)
      ensures this.priority == priority && items == []
    {
      this.priority := priority;
      items := [];
    }

    /** top(): an item no other item in the queue ranks above. */
    function Top(): (t: BlitItem)
      reads this
      requires items != []
      ensures t in items
      ensures forall x :: x in items ==> priority(x.depth) <= priority(t.depth)
    {
      items[TopIndex(items, priority)]
    }

    method Push(item: BlitItem)
      modifies this
      ensures items == old(items) + [item]
    {
      items := items + [item];
    }

    /** pop(): removes the item top() returns, and only that one. */
    method Pop()
      requires items != []
      modifies this
      ensures items == RemoveAt(old(items), TopIndex(old(items), priority))
      ensures multiset(items) == multiset(old(items)) - multiset{old(Top())}
    {
      var k := TopIndex(items, priority);
      RemoveAtMultiset(items, k);
      items := RemoveAt(items, k);
    }
  }
}
