/**
 The simulator's event queue: a binary min-heap of scheduled callbacks ordered by
 their firing instant only, as Go's container/heap keeps it over eventHeap, plus a
 one-way "stopped" flag.  Times are nanoseconds; the callback is a type parameter.
 */
module EventQueue {

  /** A scheduled callback: its sequence id, the instant it fires at, and the callback. */
  datatype Element<A> = Element(id: int, at: int, action: A)

  /** What Pull reports: the earliest event, "stopped", or that the caller would wait. */
  datatype PullResult<A> = Pulled(event: Element<A>) | Stopped | WouldBlock

  /** eventHeap.Less: one element precedes another only if it fires strictly earlier. */
  predicate Less<A>(x: Element<A>, y: Element<A>) {
    x.at < y.at
  }

  /**
   Less is a strict order on instants alone: two elements are tied, neither preceding the
   other, exactly when they fire at the same instant, whatever their ids.
   */
  lemma LessOrdersByInstantOnly<A>(x: Element<A>, y: Element<A>, z: Element<A>)
    ensures !Less(x, x)
    ensures Less(x, y) && Less(y, z) ==> Less(x, z)
    ensures !Less(x, y) && !Less(y, x) <==> x.at == y.at
  {
  }

  /** Slot k has a parent and fires no earlier than it. */
  ghost predicate Ordered<A>(h: seq<Element<A>>, k: nat) {
    0 < k < |h| && h[(k - 1) / 2].at <= h[k].at
  }

  /** Slot k fires no earlier than the parent of slot j. */
  ghost predicate NotBeforeGrandparent<A>(h: seq<Element<A>>, j: nat, k: nat) {
    0 < j < |h| && k < |h| && h[(j - 1) / 2].at <= h[k].at
  }

  /** The heap order on the first n slots: no element fires before its parent. */
  ghost predicate IsHeapPrefix<A>(h: seq<Element<A>>, n: nat) {
    n <= |h| && forall k :: 0 < k < n ==> Ordered(h, k)
  }

  ghost predicate IsHeap<A>(h: seq<Element<A>>) {
    IsHeapPrefix(h, |h|)
  }

  /** The heap order everywhere except between slot j and its parent (what sift-up repairs). */
  ghost predicate HeapExceptUp<A>(h: seq<Element<A>>, j: nat) {
    && j < |h|
    && (forall k :: 0 < k < |h| && k != j ==> Ordered(h, k))
    && (0 < j ==> forall k :: 0 < k < |h| && (k - 1) / 2 == j ==> NotBeforeGrandparent(h, j, k))
  }

  /** The heap order on the first n slots except between slot i and its children (what sift-down repairs). */
  ghost predicate HeapExceptDown<A>(h: seq<Element<A>>, i: nat, n: nat) {
    && n <= |h|
    && (forall k :: 0 < k < n && (k - 1) / 2 != i ==> Ordered(h, k))
    && (0 < i ==> forall k :: 0 < k < n && (k - 1) / 2 == i ==> NotBeforeGrandparent(h, i, k))
  }

  /** e is in m and no element of m fires before it. */
  ghost predicate IsEarliest<A>(e: Element<A>, m: multiset<Element<A>>) {
    e in m && forall x {:trigger NotBefore(x, e.at)} :: x in m ==> NotBefore(x, e.at)
  }

  /** x is due no earlier than instant t. */
  predicate NotBefore<A>(x: Element<A>, t: int) {
    t <= x.at
  }

  /** e carries an id handed out before n. */
  predicate IssuedBefore<A>(e: Element<A>, n: int) {
    e.id < n
  }

  /** e occurs exactly once in m. */
  predicate Once<A(==)>(m: multiset<Element<A>>, e: Element<A>) {
    m[e] == 1
  }

  /** eventHeap.Swap. */
  function Swap<A>(h: seq<Element<A>>, i: nat, j: nat): (r: seq<Element<A>>)
    requires i < |h| && j < |h|
    ensures |r| == |h| && r[i] == h[j] && r[j] == h[i]
    ensures forall k :: 0 <= k < |h| && k != i && k != j ==> r[k] == h[k]
    ensures multiset(r) == multiset(h)
  {
    h[i := h[j]][j := h[i]]
  }

  /** container/heap's up: move slot j towards the root while it fires before its parent. */
  function SiftUp<A>(h: seq<Element<A>>, j: nat): (r: seq<Element<A>>)
    requires j < |h|
    ensures |r| == |h| && multiset(r) == multiset(h)
    decreases j
  {
    if j == 0 then h
    else
      var i := (j - 1) / 2;
      if !Less(h[j], h[i]) then h
      else SiftUp(Swap(h, i, j), i)
  }

  /** container/heap's down on the first n slots: move slot i towards the leaves while a child fires before it. */
  function SiftDown<A>(h: seq<Element<A>>, i: nat, n: nat): (r: seq<Element<A>>)
    requires i < |h| && n <= |h|
    ensures |r| == |h| && multiset(r) == multiset(h)
    ensures forall k :: n <= k < |h| ==> r[k] == h[k]
    decreases |h| - i
  {
    if 2 * i + 1 >= n then h
    else
      var j := SmallerChild(h, i, n);
      if !Less(h[j], h[i]) then h
      else SiftDown(Swap(h, i, j), j, n)
  }

  /** The child of slot i, among the first n slots, that the down loop compares with i: the right one only when strictly earlier. */
  function SmallerChild<A>(h: seq<Element<A>>, i: nat, n: nat): (j: nat)
    requires 2 * i + 1 < n <= |h|
    ensures j < n && (j == 2 * i + 1 || j == 2 * i + 2)
    ensures !Less(h[2 * i + 1], h[j]) && (2 * i + 2 < n ==> !Less(h[2 * i + 2], h[j]))
    ensures j == 2 * i + 2 ==> Less(h[2 * i + 2], h[2 * i + 1])
  {
    var j1 := 2 * i + 1;
    if j1 + 1 < n && Less(h[j1 + 1], h[j1]) then j1 + 1 else j1
  }

  /** heap.Push: append, then sift the new last slot up. */
  function Pushed<A>(h: seq<Element<A>>, e: Element<A>): (r: seq<Element<A>>)
    ensures |r| == |h| + 1 && multiset(r) == multiset(h) + multiset{e}
  {
    SiftUp(h + [e], |h|)
  }

  /** heap.Pop without its result: swap the root to the end, sift the new root down, drop the last slot. */
  function Popped<A>(h: seq<Element<A>>): (r: seq<Element<A>>)
    requires |h| > 0
    ensures |r| == |h| - 1 && multiset(r) == multiset(h) - multiset{h[0]}
  {
    var n := |h| - 1;
    var s := SiftDown(Swap(h, 0, n), 0, n);
    assert s == s[..n] + [s[n]];
    s[..n]
  }

  lemma {:induction false} SiftUpRestoresHeap<A>(h: seq<Element<A>>, j: nat)
    requires HeapExceptUp(h, j)
    ensures IsHeap(SiftUp(h, j))
    decreases j
  {
    if j == 0 {
      forall k | 0 < k < |h| ensures Ordered(h, k) {
        assert k != j;
      }
    } else {
      var i := (j - 1) / 2;
      if !Less(h[j], h[i]) {
        forall k | 0 < k < |h| ensures Ordered(h, k) {
          if k != j {
            assert Ordered(h, k);
          }
        }
      } else {
        var h' := Swap(h, i, j);
        forall k | 0 < k < |h'| && k != i
          ensures Ordered(h', k)
        {
          var p := (k - 1) / 2;
          if k == j {
          } else if p == j {
            assert NotBeforeGrandparent(h, j, k);
          } else if p == i {
            assert Ordered(h, k);
          } else {
            assert Ordered(h, k);
          }
        }
        if 0 < i {
          forall k | 0 < k < |h'| && (k - 1) / 2 == i
            ensures NotBeforeGrandparent(h', i, k)
          {
            assert Ordered(h, i);
            if k != j {
              assert Ordered(h, k);
            }
          }
        }
        SiftUpRestoresHeap(h', i);
      }
    }
  }

  /** Slots 2i+1 and 2i+2 are exactly the children of slot i. */
  lemma ChildrenOf(i: nat, k: nat)
    requires 0 < k
    ensures (k - 1) / 2 == i <==> k == 2 * i + 1 || k == 2 * i + 2
  {
  }

  /** One step of sift-down: swapping slot i with its earlier child j moves the defect to j. */
  lemma SwapDownMovesDefect<A>(h: seq<Element<A>>, i: nat, j: nat, n: nat)
    requires i < |h| && HeapExceptDown(h, i, n)
    requires j < n && (j == 2 * i + 1 || j == 2 * i + 2)
    requires forall k :: 0 < k < n && (k - 1) / 2 == i ==> h[j].at <= h[k].at
    requires Less(h[j], h[i])
    ensures HeapExceptDown(Swap(h, i, j), j, n)
  {
    var h' := Swap(h, i, j);
    forall k | 0 < k < n && (k - 1) / 2 != j
      ensures Ordered(h', k)
    {
      var p := (k - 1) / 2;
      if k == j {
        ChildrenOf(i, k);
      } else if p == i {
        assert h[j].at <= h[k].at;
      } else if k == i {
        ChildrenOf(i, j);
        assert NotBeforeGrandparent(h, i, j);
      } else {
        assert Ordered(h, k);
      }
    }
    forall k | 0 < k < n && (k - 1) / 2 == j
      ensures NotBeforeGrandparent(h', j, k)
    {
      ChildrenOf(i, j);
      assert Ordered(h, k);
    }
  }

  /** A slot without children among the first n: the heap order already holds there. */
  lemma NoChildrenIsHeap<A>(h: seq<Element<A>>, i: nat, n: nat)
    requires i < |h| && HeapExceptDown(h, i, n) && 2 * i + 1 >= n
    ensures IsHeapPrefix(h, n)
  {
    forall k | 0 < k < n ensures Ordered(h, k) {
      ChildrenOf(i, k);
    }
  }

  /** The smaller child is due no later than either child of i. */
  lemma SmallerChildIsEarliest<A>(h: seq<Element<A>>, i: nat, n: nat)
    requires 2 * i + 1 < n <= |h|
    ensures forall k :: 0 < k < n && (k - 1) / 2 == i ==> h[SmallerChild(h, i, n)].at <= h[k].at
  {
    forall k | 0 < k < n && (k - 1) / 2 == i ensures h[SmallerChild(h, i, n)].at <= h[k].at {
      ChildrenOf(i, k);
    }
  }

  /** When the smaller child is not earlier than slot i, the defect at i is no defect. */
  lemma InOrderIsHeap<A>(h: seq<Element<A>>, i: nat, n: nat)
    requires i < |h| && HeapExceptDown(h, i, n) && 2 * i + 1 < n
    requires forall k :: 0 < k < n && (k - 1) / 2 == i ==> h[SmallerChild(h, i, n)].at <= h[k].at
    requires !Less(h[SmallerChild(h, i, n)], h[i])
    ensures IsHeapPrefix(h, n)
  {
    forall k | 0 < k < n ensures Ordered(h, k) {
      if (k - 1) / 2 != i {
        assert Ordered(h, k);
      }
    }
  }

  lemma {:induction false} SiftDownRestoresHeap<A>(h: seq<Element<A>>, i: nat, n: nat)
    requires i < |h| && HeapExceptDown(h, i, n)
    ensures IsHeapPrefix(SiftDown(h, i, n), n)
    decreases |h| - i
  {
    if 2 * i + 1 >= n {
      NoChildrenIsHeap(h, i, n);
    } else {
      var j := SmallerChild(h, i, n);
      SmallerChildIsEarliest(h, i, n);
      if !Less(h[j], h[i]) {
        InOrderIsHeap(h, i, n);
      } else {
        SwapDownMovesDefect(h, i, j, n);
        SiftDownRestoresHeap(Swap(h, i, j), j, n);
      }
    }
  }


  /** The root of a heap fires no later than any slot. */
  lemma {:induction false} HeapRootIsEarliest<A>(h: seq<Element<A>>, k: nat)
    requires IsHeap(h) && k < |h|
    ensures h[0].at <= h[k].at
    decreases k
  {
    if k > 0 {
      assert Ordered(h, k);
      HeapRootIsEarliest(h, (k - 1) / 2);
    }
  }

  /** Pushing keeps the heap order. */
  lemma PushedIsHeap<A>(h: seq<Element<A>>, e: Element<A>)
    requires IsHeap(h)
    ensures IsHeap(Pushed(h, e))
  {
    var h' := h + [e];
    forall k | 0 < k < |h'| && k != |h| ensures Ordered(h', k) {
      assert Ordered(h, k);
    }
    SiftUpRestoresHeap(h', |h|);
  }

  /** The root of a heap is due no later than any element. */
  lemma RootIsEarliest<A>(h: seq<Element<A>>)
    requires IsHeap(h) && |h| > 0
    ensures IsEarliest(h[0], multiset(h))
  {
    forall x | x in multiset(h) ensures NotBefore(x, h[0].at) {
      assert x in h;
      var k :| 0 <= k < |h| && h[k] == x;
      HeapRootIsEarliest(h, k);
    }
  }

  /** Popping keeps the heap order. */
  lemma PoppedIsHeap<A>(h: seq<Element<A>>)
    requires IsHeap(h) && |h| > 0
    ensures IsHeap(Popped(h))
  {
    var n := |h| - 1;
    var s0 := Swap(h, 0, n);
    forall k | 0 < k < n && (k - 1) / 2 != 0 ensures Ordered(s0, k) {
      assert Ordered(h, k);
    }
    SiftDownRestoresHeap(s0, 0, n);
    var s := SiftDown(s0, 0, n);
    assert Popped(h) == s[..n];
    forall k | 0 < k < n ensures Ordered(s[..n], k) {
      assert Ordered(s, k);
    }
  }


  /** Two elements carry the same id. */
  predicate SameId<A>(e1: Element<A>, e2: Element<A>) {
    e1.id == e2.id
  }

  /** Every element of m has an id handed out before n and occurs once, and no two elements of m share an id. */
  ghost predicate IdsDistinct<A>(m: multiset<Element<A>>, n: int) {
    && (forall e {:trigger IssuedBefore(e, n)} :: e in m ==> IssuedBefore(e, n))
    && (forall e {:trigger Once(m, e)} :: e in m ==> Once(m, e))
    && (forall e1, e2 {:trigger SameId(e1, e2)} :: e1 in m && e2 in m && SameId(e1, e2) ==> e1 == e2)
  }

  /** Stamping a new element with the next id keeps ids distinct. */
  lemma AddingKeepsIdsDistinct<A>(m: multiset<Element<A>>, x: Element<A>, n: int)
    requires IdsDistinct(m, n) && x.id == n
    ensures IdsDistinct(m + multiset{x}, n + 1)
  {
    assert x in m ==> IssuedBefore(x, n);
    var m' := m + multiset{x};
    forall e | e in m'
      ensures IssuedBefore(e, n + 1) && Once(m', e)
    {
      if e != x {
        assert e in m && IssuedBefore(e, n) && Once(m, e);
      }
    }
    forall e1, e2 | e1 in m' && e2 in m' && SameId(e1, e2)
      ensures e1 == e2
    {
      if e1 != x {
        assert e1 in m && IssuedBefore(e1, n);
      }
      if e2 != x {
        assert e2 in m && IssuedBefore(e2, n);
      }
    }
  }

  /** Removing an element keeps ids distinct. */
  lemma RemovingKeepsIdsDistinct<A>(m: multiset<Element<A>>, x: Element<A>, n: int)
    requires IdsDistinct(m, n)
    ensures IdsDistinct(m - multiset{x}, n)
  {
    var m' := m - multiset{x};
    forall e | e in m'
      ensures IssuedBefore(e, n) && Once(m', e)
    {
      assert e in m && IssuedBefore(e, n) && Once(m, e);
    }
    forall e1, e2 | e1 in m' && e2 in m' && SameId(e1, e2)
      ensures e1 == e2
    {
      assert e1 in m && e2 in m;
    }
  }

  /** The event queue (eventQueue): the heap slice, the next id to hand out, and the stopped flag. */
  class Queue<A(==)> {
    var heap: seq<Element<A>>
    var nextID: int
    var stopped: bool

    /** Heap order, and every queued id is one already handed out and appears once. */
    ghost predicate Valid()
      reads this
    {
      && IsHeap(heap)
      && IdsDistinct(multiset(heap), nextID)
    }

    /** newEventQueue: an empty heap, id 0 next, not stopped. */
    constructor ()
      ensures Valid()
      ensures heap == [] && nextID == 0 && !stopped
    {
      heap := [];
      nextID := 0;
      stopped := false;
    }

    method Len() returns (n: nat)
      ensures n == |heap| && n == |multiset(heap)|
    {
      n := |heap|;
    }

    /** Stamps the next id, inserts one element at `at`; no stopped check. */
    method Push(at: int, action: A)
      requires Valid()
      modifies this
      ensures Valid()
      ensures heap == Pushed(old(heap), Element(old(nextID), at, action))
      ensures multiset(heap) == old(multiset(heap)) + multiset{Element(old(nextID), at, action)}
      ensures nextID == old(nextID) + 1 && stopped == old(stopped)
    {
      var event := Element(nextID, at, action);
      ghost var m := multiset(heap) + multiset{event};
      AddingKeepsIdsDistinct(multiset(heap), event, nextID);
      PushedIsHeap(heap, event);
      nextID := nextID + 1;
      Insert(event);
      assert multiset(heap) == m;
    }

    /** heap.Push: append, then move the new last element up. */
    method Insert(event: Element<A>)
      modifies this`heap
      ensures heap == Pushed(old(heap), event)
    {
      heap := heap + [event];
      Up(|heap| - 1);
    }

    /** heap.Pop: swap the root with the last slot, move the new root down over the rest, drop the last slot. */
    method PopRoot() returns (event: Element<A>)
      requires |heap| > 0
      modifies this`heap
      ensures event == old(heap)[0] && heap == Popped(old(heap))
    {
      var n := |heap| - 1;
      heap := Swap(heap, 0, n);
      Down(0, n);
      event := heap[n];
      heap := heap[..n];
    }

    /** container/heap's up loop over the heap slice. */
    method Up(j0: nat)
      requires j0 < |heap|
      modifies this`heap
      ensures heap == SiftUp(old(heap), j0)
    {
      var j: nat := j0;
      while j > 0 && Less(heap[j], heap[(j - 1) / 2])
        invariant j < |heap|
        invariant SiftUp(heap, j) == SiftUp(old(heap), j0)
        decreases j
      {
        var i := (j - 1) / 2;
        heap := Swap(heap, i, j);
        j := i;
      }
    }

    /** container/heap's down loop over the first n slots of the heap slice. */
    method Down(i0: nat, n: nat)
      requires i0 < |heap| && n <= |heap|
      modifies this`heap
      ensures heap == SiftDown(old(heap), i0, n)
    {
      var i: nat := i0;
      while true
        invariant i < |heap| && n <= |heap|
        invariant SiftDown(heap, i, n) == SiftDown(old(heap), i0, n)
        decreases |heap| - i
      {
        var j1 := 2 * i + 1;
        if j1 >= n {
          assert SiftDown(heap, i, n) == heap;
          break;
        }
        var j := SmallerChild(heap, i, n);
        if !Less(heap[j], heap[i]) {
          assert SiftDown(heap, i, n) == heap;
          break;
        }
        assert SiftDown(heap, i, n) == SiftDown(Swap(heap, i, j), j, n);
        heap := Swap(heap, i, j);
        i := j;
      }
    }

    /**
     Removes and returns the earliest event; "stopped" once Stop was called, even with
     events left; "would block" when empty and not stopped (where the source waits).
     */
    method Pull() returns (r: PullResult<A>)
      requires Valid()
      modifies this`heap
      ensures Valid()
      ensures nextID == old(nextID) && stopped == old(stopped)
      ensures old(stopped) ==> r == Stopped && heap == old(heap)
      ensures !old(stopped) && old(heap) == [] ==> r == WouldBlock && heap == old(heap)
      ensures !old(stopped) && old(heap) != [] ==> r == Pulled(old(heap)[0]) && heap == Popped(old(heap))
      ensures !old(stopped) && old(heap) != [] ==> IsEarliest(old(heap)[0], old(multiset(heap)))
      ensures !old(stopped) && old(heap) != [] ==> multiset(heap) == old(multiset(heap)) - multiset{old(heap)[0]}
    {
      if |heap| == 0 && !stopped {
        return WouldBlock;
      }
      if stopped {
        return Stopped;
      }
      var event := PopEarliest();
      r := Pulled(event);
    }

    /** The pop of a non-empty queue: the root leaves, and the rest is a heap again. */
    method PopEarliest() returns (event: Element<A>)
      requires Valid() && |heap| > 0
      modifies this`heap
      ensures Valid()
      ensures event == old(heap)[0] && heap == Popped(old(heap))
      ensures IsEarliest(event, old(multiset(heap)))
      ensures multiset(heap) == old(multiset(heap)) - multiset{event}
    {
      PoppedIsHeap(heap);
      RootIsEarliest(heap);
      RemovingKeepsIdsDistinct(multiset(heap), heap[0], nextID);
      event := PopRoot();
    }

    /** Sets the stopped flag; the heap is left as it is. */
    method Stop()
      modifies this
      ensures stopped
      ensures heap == old(heap) && nextID == old(nextID)
    {
      stopped := true;
    }
  }
}
