/**
 * The loader's priority queue: a binary min-heap on the distance key,
 * stored in a growable list (here a sequence the methods reassign).
 */
module LoadQueues {
  import opened Wrappers
  import opened ChunkCoords

  /** One queued load: the cell and its priority distance (smaller loads first). */
  datatype QueueItem = QueueItem(coord: ChunkCoord, distance: real)

  /** The largest finite single-precision value, used as the retry priority. */
  const FloatMaxValue: real := 340282346638528859811704183484516925440.0

  function Parent(j: int): int
    requires j > 0
  {
    (j - 1) / 2
  }

  /** Every entry is no smaller than its parent. */
  ghost predicate HeapOk(h: seq<QueueItem>)
  {
    forall j :: 0 < j < |h| ==> h[Parent(j)].distance <= h[j].distance
  }

  /** Heap order holds except between `i` and its parent; `i`'s parent still bounds `i`'s children. */
  ghost predicate HeapExceptUp(h: seq<QueueItem>, i: int)
  {
    && (forall j :: 0 < j < |h| && j != i ==> h[Parent(j)].distance <= h[j].distance)
    && (i > 0 ==> forall j :: 0 < j < |h| && Parent(j) == i ==> h[Parent(i)].distance <= h[j].distance)
  }

  /** Heap order holds except between `i` and its children; `i`'s parent already bounds them. */
  ghost predicate HeapExceptDown(h: seq<QueueItem>, i: int)
  {
    && (forall j :: 0 < j < |h| && Parent(j) != i ==> h[Parent(j)].distance <= h[j].distance)
    && (i > 0 && i < |h| ==> forall j :: 0 < j < |h| && Parent(j) == i ==> h[Parent(i)].distance <= h[j].distance)
  }

  lemma {:induction false} RootBelow(h: seq<QueueItem>, j: int)
    requires HeapOk(h) && 0 <= j < |h|
    ensures h[0].distance <= h[j].distance
    decreases j
  {
    if j > 0 {
      RootBelow(h, Parent(j));
    }
  }

  /** The root of a heap carries a minimum distance among all its entries. */
  lemma RootIsMinimum(h: seq<QueueItem>)
    requires HeapOk(h) && |h| > 0
    ensures forall x :: x in multiset(h) ==> h[0].distance <= x.distance
  {
    forall x | x in multiset(h) ensures h[0].distance <= x.distance {
      var j :| 0 <= j < |h| && h[j] == x;
      RootBelow(h, j);
    }
  }

  function SwapAt(h: seq<QueueItem>, i: int, j: int): (r: seq<QueueItem>)
    requires 0 <= i < |h| && 0 <= j < |h|
    ensures |r| == |h| && multiset(r) == multiset(h)
    ensures r[i] == h[j] && r[j] == h[i]
    ensures forall k :: 0 <= k < |h| && k != i && k != j ==> r[k] == h[k]
  {
    h[i := h[j]][j := h[i]]
  }

  /** Replacing the root by the last entry and dropping the last slot removes exactly the root. */
  function RemoveRoot(h: seq<QueueItem>): (r: seq<QueueItem>)
    requires |h| > 0
    ensures |r| == |h| - 1
    ensures multiset(r) == multiset(h) - multiset{h[0]}
  {
    var last := |h| - 1;
    assert h == [h[0]] + h[1..];
    if last == 0 then []
    else
      assert h[1..] == h[1..last] + [h[last]];
      [h[last]] + h[1..last]
  }

  lemma RemoveRootKeepsOrderBelow(h: seq<QueueItem>)
    requires HeapOk(h) && |h| > 1
    ensures HeapExceptDown(RemoveRoot(h), 0)
  {
    var r := RemoveRoot(h);
    forall j | 0 < j < |r| && Parent(j) != 0
      ensures r[Parent(j)].distance <= r[j].distance
    {
      assert r[j] == h[j] && r[Parent(j)] == h[Parent(j)];
    }
  }

  lemma SwapUpStep(h: seq<QueueItem>, i: int)
    requires 0 < i < |h| && HeapExceptUp(h, i)
    requires h[i].distance < h[Parent(i)].distance
    ensures HeapExceptUp(SwapAt(h, i, Parent(i)), Parent(i))
  {
    var p := Parent(i);
    var r := SwapAt(h, i, p);
    forall j | 0 < j < |r| && j != p
      ensures r[Parent(j)].distance <= r[j].distance
    {
      if j == i {
      } else if Parent(j) == i {
        assert r[j] == h[j];
      } else if Parent(j) == p {
        assert r[j] == h[j];
        assert h[p].distance <= h[j].distance;
      } else {
        assert r[j] == h[j];
      }
    }
    if p > 0 {
      forall j | 0 < j < |r| && Parent(j) == p
        ensures r[Parent(p)].distance <= r[j].distance
      {
        assert r[Parent(p)] == h[Parent(p)];
        assert h[Parent(p)].distance <= h[p].distance;
        if j != i {
          assert r[j] == h[j];
          assert h[p].distance <= h[j].distance;
        }
      }
    }
  }

  lemma UpDone(h: seq<QueueItem>, i: int)
    requires 0 <= i < |h| && HeapExceptUp(h, i)
    requires i > 0 ==> h[i].distance >= h[Parent(i)].distance
    ensures HeapOk(h)
  {
  }

  lemma SwapDownStep(h: seq<QueueItem>, i: int, m: int)
    requires 0 <= i < |h| && HeapExceptDown(h, i)
    requires 0 < m < |h| && Parent(m) == i
    requires h[m].distance < h[i].distance
    requires forall j :: 0 < j < |h| && Parent(j) == i ==> h[m].distance <= h[j].distance
    ensures HeapExceptDown(SwapAt(h, i, m), m)
  {
    var r := SwapAt(h, i, m);
    forall j | 0 < j < |r| && Parent(j) != m
      ensures r[Parent(j)].distance <= r[j].distance
    {
      if j == m {
      } else if j == i {
        assert r[Parent(j)] == h[Parent(j)];
        assert h[Parent(i)].distance <= h[m].distance;
      } else if Parent(j) == i {
        assert r[j] == h[j];
      } else {
        assert r[j] == h[j];
        assert Parent(j) != i && Parent(j) != m;
        assert r[Parent(j)] == h[Parent(j)];
      }
    }
    forall j | 0 < j < |r| && Parent(j) == m
      ensures r[Parent(m)].distance <= r[j].distance
    {
      assert r[j] == h[j];
      assert h[m].distance <= h[j].distance;
    }
  }

  lemma ChildrenOf(i: int)
    requires i >= 0
    ensures forall j :: j > 0 && Parent(j) == i <==> j == 2 * i + 1 || j == 2 * i + 2
  {
  }

  lemma DownDone(h: seq<QueueItem>, i: int)
    requires 0 <= i < |h| && HeapExceptDown(h, i)
    requires forall j :: 0 < j < |h| && Parent(j) == i ==> h[i].distance <= h[j].distance
    ensures HeapOk(h)
  {
  }

  class LoadQueue {
    var heap: seq<QueueItem>

    ghost predicate Valid()
      reads this
    {
      HeapOk(heap)
    }

    /** The queued entries, ignoring heap layout. */
    ghost function Contents(): multiset<QueueItem>
      reads this
    {
      multiset(heap)
    }

    function Count(): (n: nat)
      reads this
      ensures n == |Contents()|
    {
      |heap|
    }

    constructor()
      ensures Valid() && Contents() == multiset{}
    {
      heap := [];
    }

    method Enqueue(coord: ChunkCoord, distance: real)
      requires Valid()
      modifies this
      ensures Valid()
      ensures Contents() == old(Contents()) + multiset{QueueItem(coord, distance)}
    {
      heap := heap + [QueueItem(coord, distance)];
      HeapifyUp(|heap| - 1);
    }

    /**
     * Removes and returns an entry of minimum distance; an empty queue is
     * the source's InvalidOperationException and yields None.
     */
    method Dequeue() returns (r: Option<ChunkCoord>, ghost removed: QueueItem)
      requires Valid()
      modifies this
      ensures Valid()
      ensures old(Count()) == 0 <==> r.None?
      ensures r.None? ==> heap == old(heap)
      ensures r.Some? ==>
        && removed in old(Contents())
        && r.value == removed.coord
        && (forall x :: x in old(Contents()) ==> removed.distance <= x.distance)
        && Contents() == old(Contents()) - multiset{removed}
    {
      if |heap| == 0 {
        removed := QueueItem(ChunkCoord(0, 0), 0.0);
        return None, removed;
      }
      RootIsMinimum(heap);
      removed := heap[0];
      r := Some(heap[0].coord);
      if |heap| > 1 {
        RemoveRootKeepsOrderBelow(heap);
        heap := RemoveRoot(heap);
        HeapifyDown(0);
      } else {
        heap := RemoveRoot(heap);
      }
    }

    method Clear()
      modifies this
      ensures Valid() && Contents() == multiset{}
    {
      heap := [];
    }

    method HeapifyUp(index: int)
      requires 0 <= index < |heap| && HeapExceptUp(heap, index)
      modifies this
      ensures HeapOk(heap) && multiset(heap) == old(multiset(heap))
    {
      var i := index;
      while i > 0
        invariant 0 <= i < |heap| && HeapExceptUp(heap, i)
        invariant multiset(heap) == old(multiset(heap))
        decreases i
      {
        var p := Parent(i);
        if heap[i].distance >= heap[p].distance {
          UpDone(heap, i);
          return;
        }
        SwapUpStep(heap, i);
        heap := SwapAt(heap, i, p);
        i := p;
      }
      UpDone(heap, i);
    }

    method HeapifyDown(index: int)
      requires 0 <= index < |heap| && HeapExceptDown(heap, index)
      modifies this
      ensures HeapOk(heap) && multiset(heap) == old(multiset(heap))
    {
      var i := index;
      while true
        invariant 0 <= i < |heap| && HeapExceptDown(heap, i)
        invariant multiset(heap) == old(multiset(heap))
        decreases |heap| - i
      {
        var smallest := i;
        var left, right := 2 * i + 1, 2 * i + 2;
        if left < |heap| && heap[left].distance < heap[smallest].distance {
          smallest := left;
        }
        if right < |heap| && heap[right].distance < heap[smallest].distance {
          smallest := right;
        }
        ChildrenOf(i);
        ghost var kids := set j | 0 < j < |heap| && Parent(j) == i;
        assert forall j :: j in kids ==> heap[smallest].distance <= heap[j].distance;
        if smallest == i {
          DownDone(heap, i);
          return;
        }
        SwapDownStep(heap, i, smallest);
        heap := SwapAt(heap, i, smallest);
        i := smallest;
      }
    }
  }
}
