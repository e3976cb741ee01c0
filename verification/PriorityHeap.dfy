/**
 The two heaps of the repository: the job queue that serves the highest priority first and
 the worker-pool heap that serves the lowest number first. They differ only in the
 comparison. Every element stores its own position.

 `Up` and `Down` are the sift steps of Go's container/heap, running over the
 repository's Less, Swap, Push and Pop.
 */
module PriorityHeap {
  import opened Wrappers

  class Item {
    const priority: int
    var index: int

    constructor (priority: int)
      ensures this.priority == priority && index == 0
    {
      this.priority, index := priority, 0;
    }
  }

  function Parent(i: int): int {
    if i <= 0 then 0 else (i - 1) / 2
  }

  /** The smaller the key, the sooner the item is served. */
  function Key(highFirst: bool, x: Item): int {
    if highFirst then -x.priority else x.priority
  }

  ghost predicate InOrder(highFirst: bool, items: seq<Item>, i: int) {
    0 < i < |items| ==> Key(highFirst, items[Parent(i)]) <= Key(highFirst, items[i])
  }

  ghost predicate HeapOrdered(highFirst: bool, items: seq<Item>) {
    forall i :: 0 < i < |items| ==> InOrder(highFirst, items, i)
  }

  /** A heap except that the item at `j` may belong further up. */
  ghost predicate OrderedBut(highFirst: bool, items: seq<Item>, j: int) {
    && (forall i :: 0 < i < |items| && i != j ==> InOrder(highFirst, items, i))
    && (forall i :: 0 < i < |items| && 0 < j < |items| && Parent(i) == j ==>
         Key(highFirst, items[Parent(j)]) <= Key(highFirst, items[i]))
  }

  /** The first `n` items form a heap except that the item at `j` may belong further down. */
  ghost predicate OrderedBelowBut(highFirst: bool, items: seq<Item>, n: int, j: int) {
    && n <= |items|
    && (forall i :: 0 < i < n && Parent(i) != j ==> InOrder(highFirst, items, i))
    && (forall i :: 0 < i < n && 0 < j && Parent(i) == j ==>
         Key(highFirst, items[Parent(j)]) <= Key(highFirst, items[i]))
  }

  /** The root of a heap is served no later than any other item. */
  lemma {:induction false} RootIsFirst(highFirst: bool, items: seq<Item>, i: nat)
    requires HeapOrdered(highFirst, items) && i < |items|
    ensures Key(highFirst, items[0]) <= Key(highFirst, items[i])
  {
    if i > 0 {
      RootIsFirst(highFirst, items, Parent(i));
      assert InOrder(highFirst, items, i);
    }
  }

  function Exchanged(items: seq<Item>, i: int, j: int): seq<Item>
    requires 0 <= i < |items| && 0 <= j < |items|
  {
    items[i := items[j]][j := items[i]]
  }

  /** The same items, in another order. */
  ghost predicate SameItems(a: seq<Item>, b: seq<Item>) {
    |a| == |b| && multiset(a) == multiset(b) && forall x :: x in a ==> x in b
  }

  lemma ExchangedPermutes(items: seq<Item>, i: int, j: int)
    requires 0 <= i < |items| && 0 <= j < |items|
    ensures SameItems(Exchanged(items, i, j), items)
    ensures AllDistinct(items) ==> AllDistinct(Exchanged(items, i, j))
  {
  }

  lemma ExchangedBefore(items: seq<Item>, i: int, j: int, n: int)
    requires 0 <= i < n <= |items| && 0 <= j < n
    ensures Exchanged(items, i, j)[n..] == items[n..]
  {
  }

  ghost predicate AllDistinct(items: seq<Item>) {
    forall i, j :: 0 <= i < j < |items| ==> items[i] != items[j]
  }

  /** No item occurs twice, and each knows its position. */
  ghost predicate Indexed(items: seq<Item>)
    reads items
  {
    AllDistinct(items) && forall i :: 0 <= i < |items| ==> items[i].index == i
  }

  /** Exchanging an item with its parent moves the one possible violation up. */
  lemma SwapUp(highFirst: bool, items: seq<Item>, j: int)
    requires 0 < j < |items| && OrderedBut(highFirst, items, j)
    requires Key(highFirst, items[j]) < Key(highFirst, items[Parent(j)])
    ensures OrderedBut(highFirst, Exchanged(items, Parent(j), j), Parent(j))
  {
    var i := Parent(j);
    var t := items[i := items[j]][j := items[i]];
    forall m | 0 < m < |t| && m != i ensures InOrder(highFirst, t, m) {
      assert m != j ==> InOrder(highFirst, items, m);
    }
    forall m | 0 < m < |t| && 0 < i && Parent(m) == i
      ensures Key(highFirst, t[Parent(i)]) <= Key(highFirst, t[m])
    {
      assert InOrder(highFirst, items, i);
      assert m != j ==> InOrder(highFirst, items, m);
    }
  }

  /** Exchanging an item with its first child moves the one possible violation down. */
  lemma SwapDown(highFirst: bool, items: seq<Item>, n: int, i: int, j: int)
    requires OrderedBelowBut(highFirst, items, n, i) && IsFirstChild(highFirst, items, n, i, j)
    requires Key(highFirst, items[j]) < Key(highFirst, items[i])
    ensures OrderedBelowBut(highFirst, Exchanged(items, i, j), n, j)
  {
    var t := items[i := items[j]][j := items[i]];
    forall m | 0 < m < n && Parent(m) != j ensures InOrder(highFirst, t, m) {
      assert Parent(m) != i ==> InOrder(highFirst, items, m);
    }
    forall m | 0 < m < n && Parent(m) == j ensures Key(highFirst, t[Parent(j)]) <= Key(highFirst, t[m]) {
      assert InOrder(highFirst, items, m);
    }
  }

  /** A new last item may belong further up. */
  lemma AppendedBut(highFirst: bool, items: seq<Item>, x: Item)
    requires HeapOrdered(highFirst, items)
    ensures OrderedBut(highFirst, items + [x], |items|)
  {
    forall i | 0 < i < |items| ensures InOrder(highFirst, items + [x], i) {
      assert InOrder(highFirst, items, i);
    }
  }

  /** With the root and the last item exchanged, the rest is a heap but for its root. */
  lemma RootExchanged(highFirst: bool, items: seq<Item>)
    requires HeapOrdered(highFirst, items) && items != []
    ensures var n := |items| - 1;
            OrderedBelowBut(highFirst, Exchanged(items, 0, n), n, 0)
  {
    var n := |items| - 1;
    forall i | 0 < i < n && Parent(i) != 0 ensures InOrder(highFirst, items[0 := items[n]][n := items[0]], i) {
      assert InOrder(highFirst, items, i);
    }
  }

  /** `j` is a child of `i`, and no child of `i` comes before it. */
  ghost predicate IsFirstChild(highFirst: bool, items: seq<Item>, n: int, i: int, j: int) {
    && 0 <= i < j < n <= |items| && Parent(j) == i
    && forall k :: 0 < k < n && Parent(k) == i ==> Key(highFirst, items[j]) <= Key(highFirst, items[k])
  }

  /** Once no child of the hole comes before it, there is no violation left. */
  lemma HoleClosed(highFirst: bool, items: seq<Item>, n: int, i: int)
    requires 0 <= i < n && OrderedBelowBut(highFirst, items, n, i)
    requires forall k :: 0 < k < n && Parent(k) == i ==> Key(highFirst, items[i]) <= Key(highFirst, items[k])
    ensures HeapOrdered(highFirst, items[..n])
  {
    forall k | 0 < k < n ensures InOrder(highFirst, items[..n], k) {
      assert Parent(k) != i ==> InOrder(highFirst, items, k);
    }
  }

  lemma FirstComesFirst(highFirst: bool, items: seq<Item>)
    requires HeapOrdered(highFirst, items) && items != []
    ensures forall x :: x in items ==> Key(highFirst, items[0]) <= Key(highFirst, x)
  {
    forall x | x in items ensures Key(highFirst, items[0]) <= Key(highFirst, x) {
      var i :| 0 <= i < |items| && items[i] == x;
      RootIsFirst(highFirst, items, i);
    }
  }

  /** `after` is `before` without `x`, in some order. */
  ghost predicate TookOut(before: seq<Item>, after: seq<Item>, x: Item) {
    && multiset(after) + multiset{x} == multiset(before)
    && x in before && (forall y :: y in after ==> y in before)
  }

  lemma PoppedLast(before: seq<Item>, after: seq<Item>, x: Item)
    requires SameItems(after + [x], before)
    ensures TookOut(before, after, x)
  {
    assert multiset(after + [x]) == multiset(after) + multiset{x};
    assert x in after + [x];
    forall y | y in after ensures y in before {
      assert y in after + [x];
    }
  }

  class Heap {
    const highFirst: bool
    var items: seq<Item>

    constructor (highFirst: bool)
      ensures this.highFirst == highFirst && items == [] && Valid()
    {
      this.highFirst, items := highFirst, [];
    }

    ghost predicate Valid()
      reads this, items
    {
      Indexed(items) && HeapOrdered(highFirst, items)
    }

    function Less(i: int, j: int): bool
      requires 0 <= i < |items| && 0 <= j < |items|
      reads this
    {
      if highFirst then items[i].priority > items[j].priority else items[i].priority < items[j].priority
    }

    method Swap(i: int, j: int)
      requires 0 <= i < |items| && 0 <= j < |items| && Indexed(items)
      modifies this`items, items[i], items[j]
      ensures items == old(Exchanged(items, i, j)) && Indexed(items)
    {
      ExchangedPermutes(items, i, j);
      items := items[i := items[j]][j := items[i]];
      items[i].index := i;
      items[j].index := j;
    }

    method Push(x: Item)
      requires Indexed(items) && x !in items
      modifies this, x
      ensures items == old(items) + [x] && Indexed(items)
    {
      x.index := |items|;
      items := items + [x];
    }

    method Pop() returns (x: Item)
      requires Indexed(items) && items != []
      modifies this`items, items[|items| - 1]
      ensures old(items) == items + [x] && x.index == -1 && Indexed(items)
    {
      var n := |items|;
      x := items[n - 1];
      x.index := -1;
      items := items[..n - 1];
    }

    method Up(start: int)
      requires 0 <= start < |items| && Indexed(items) && OrderedBut(highFirst, items, start)
      modifies this`items, items
      ensures Valid() && SameItems(items, old(items))
    {
      var j := start;
      while true
        invariant 0 <= j < |items| && Indexed(items) && OrderedBut(highFirst, items, j)
        invariant SameItems(items, old(items))
        decreases j
      {
        var i := Parent(j);
        if i == j || !Less(j, i) { break; }
        SwapUp(highFirst, items, j);
        ExchangedPermutes(items, i, j);
        assert items[i] in items && items[j] in items;
        Swap(i, j);
        j := i;
      }
    }

    /** The child of `i` to compare with, if there is one. */
    method FirstChild(i: int, n: int) returns (j: Option<int>)
      requires 0 <= i < n <= |items|
      ensures j.None? ==> forall k :: 0 < k < n ==> Parent(k) != i
      ensures j.Some? ==> IsFirstChild(highFirst, items, n, i, j.value)
    {
      var j1 := 2 * i + 1;
      if j1 >= n { return None; }
      var j2 := j1 + 1;
      if j2 < n && Less(j2, j1) {
        j := Some(j2);
      } else {
        j := Some(j1);
      }
    }

    method Down(start: int, n: int)
      requires 0 <= start < n <= |items| && Indexed(items) && OrderedBelowBut(highFirst, items, n, start)
      modifies this`items, items
      ensures Indexed(items) && SameItems(items, old(items))
      ensures HeapOrdered(highFirst, items[..n]) && items[n..] == old(items[n..])
    {
      var i := start;
      while true
        invariant 0 <= i < n <= |items| && Indexed(items) && OrderedBelowBut(highFirst, items, n, i)
        invariant SameItems(items, old(items)) && items[n..] == old(items[n..])
        decreases n - i
      {
        var child := FirstChild(i, n);
        if child.None? || !Less(child.value, i) {
          HoleClosed(highFirst, items, n, i);
          return;
        }
        var j := child.value;
        SwapDown(highFirst, items, n, i, j);
        ExchangedPermutes(items, i, j);
        ExchangedBefore(items, i, j, n);
        assert items[i] in items && items[j] in items;
        Swap(i, j);
        i := j;
      }
    }

    /** container/heap's Push over the methods above. */
    method HeapPush(x: Item)
      requires Valid() && x !in items
      modifies this, items, x
      ensures Valid() && multiset(items) == old(multiset(items)) + multiset{x}
    {
      AppendedBut(highFirst, items, x);
      Push(x);
      Up(|items| - 1);
    }

    /** The first half of container/heap's Pop: the root changes places with the last item and the rest is sifted. */
    method RootToEnd()
      requires Valid() && items != []
      modifies this`items, items
      ensures Indexed(items) && SameItems(items, old(items))
      ensures |items| == |old(items)| && items[|items| - 1] == old(items[0])
      ensures HeapOrdered(highFirst, items[..|items| - 1])
    {
      var n := |items| - 1;
      RootExchanged(highFirst, items);
      ExchangedPermutes(items, 0, n);
      Swap(0, n);
      if n > 0 {
        Down(0, n);
      }
      assert items[n] == items[n..][0];
    }

    /** container/heap's Pop over the methods above. */
    method HeapPop() returns (x: Item)
      requires Valid() && items != []
      modifies this, items
      ensures Valid() && x == old(items[0]) && x.index == -1
      ensures TookOut(old(items), items, x)
      ensures forall y :: y in old(items) ==> Key(highFirst, x) <= Key(highFirst, y)
    {
      FirstComesFirst(highFirst, items);
      RootToEnd();
      x := Pop();
      PoppedLast(old(items), items, x);
    }
  }

  // ---------- The queue of jobs ----------

  class RequestQueueManager {
    const queue: Heap

    constructor ()
      ensures fresh(queue) && queue.highFirst && queue.items == [] && queue.Valid()
    {
      queue := new Heap(true);
    }

    method Enqueue(request: Item)
      requires queue.Valid() && request !in queue.items
      modifies queue, queue.items, request
      ensures queue.Valid() && multiset(queue.items) == old(multiset(queue.items)) + multiset{request}
    {
      queue.HeapPush(request);
    }

    /** Takes out a job that no queued job has a higher priority than; nothing if there is none. */
    method Dequeue() returns (job: Option<Item>)
      requires queue.Valid() && queue.highFirst
      modifies queue, queue.items
      ensures queue.Valid()
      ensures job.None? <==> old(queue.items) == []
      ensures job.None? ==> queue.items == []
      ensures job.Some? ==>
                && TookOut(old(queue.items), queue.items, job.value)
                && job.value.index == -1
                && forall x :: x in old(queue.items) ==> x.priority <= job.value.priority
    {
      if |queue.items| == 0 {
        return None;
      }
      var x := queue.HeapPop();
      job := Some(x);
    }
  
    /** The manager's loop, while nothing new is enqueued: jobs go to the channel by falling priority. */
    method MoveAll() returns (channel: seq<Item>)
      requires queue.Valid() && queue.highFirst
      modifies queue, queue.items
      ensures queue.items == [] && multiset(channel) == old(multiset(queue.items))
      ensures forall i, j :: 0 <= i < j < |channel| ==> channel[i].priority >= channel[j].priority
    {
      channel := [];
      while true
        invariant queue.Valid() && Served(channel, queue.items, old(queue.items))
        decreases |queue.items|
      {
        ghost var before := queue.items;
        assert forall i :: 0 <= i < |queue.items| ==> queue.items[i] in old(queue.items);
        var job := Dequeue();
        if job.None? { return; }
        ServeOne(channel, before, queue.items, old(queue.items), job.value);
        channel := channel + [job.value];
      }
    }
  }

  /** `channel` has been served from `all`, by falling priority, and `rest` has not. */
  ghost predicate Served(channel: seq<Item>, rest: seq<Item>, all: seq<Item>) {
    && multiset(channel) + multiset(rest) == multiset(all)
    && (forall x :: x in rest ==> x in all)
    && (forall i, j :: 0 <= i < j < |channel| ==> channel[i].priority >= channel[j].priority)
    && (forall i, x :: 0 <= i < |channel| && x in rest ==> channel[i].priority >= x.priority)
  }

  lemma ServeOne(channel: seq<Item>, before: seq<Item>, after: seq<Item>, all: seq<Item>, x: Item)
    requires Served(channel, before, all) && TookOut(before, after, x)
    requires forall y :: y in before ==> y.priority <= x.priority
    ensures Served(channel + [x], after, all) && |after| < |before|
  {
    assert multiset(channel + [x]) == multiset(channel) + multiset{x};
    assert |multiset(after) + multiset{x}| == |multiset(before)|;
  }
}
