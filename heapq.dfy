/**
 * Python's `heapq` on the waitlist: `heappush` and `heapify` as CPython
 * implements them (`_siftdown` moving a new item up towards the root,
 * `_siftup` moving a hole down to a leaf and then sifting the item back up),
 * over a list of entries ordered by `WaitlistEntry.Before`.  With `__lt__`
 * meaning higher priority, the smallest item `heapq` keeps at the root is the
 * entry of highest priority.
 */
module Heapq {
  import opened WaitlistEntries

  /** The parent of position `c > 0` (`(c - 1) >> 1`). */
  function Parent(c: int): int
  {
    (c - 1) / 2
  }

  /** Position `pos` lies in the subtree rooted at `start`. */
  predicate Descends(start: int, pos: int)
    decreases pos
  {
    pos == start || (0 < pos && start < pos && Descends(start, Parent(pos)))
  }

  /** Every position lies in the subtree of the root. */
  lemma {:induction false} DescendsFromRoot(pos: int)
    requires 0 <= pos
    ensures Descends(0, pos)
    decreases pos
  {
    if pos > 0 {
      DescendsFromRoot(Parent(pos));
    }
  }

  /** No entry ranks strictly above its parent: `not heap[c] < heap[parent]`. */
  predicate IsHeap(xs: seq<WaitlistEntry>)
    reads xs
  {
    forall c :: 0 < c < |xs| ==> xs[Parent(c)].priorityScore >= xs[c].priorityScore
  }

  /**
   * Every edge whose parent is at position `start` or later is in heap order,
   * except the edge into `hole` (pass -1 for none).
   */
  ghost predicate OrderedFrom(xs: seq<WaitlistEntry>, start: int, hole: int)
    reads xs
  {
    forall c :: 0 < c < |xs| && start <= Parent(c) && c != hole ==> xs[Parent(c)].priorityScore >= xs[c].priorityScore
  }

  /** The parent of `pos` ranks no lower than the children of `pos`. */
  ghost predicate ParentCoversChildren(xs: seq<WaitlistEntry>, pos: int)
    requires 0 < pos < |xs|
    reads xs
  {
    && (2 * pos + 1 < |xs| ==> xs[Parent(pos)].priorityScore >= xs[2 * pos + 1].priorityScore)
    && (2 * pos + 2 < |xs| ==> xs[Parent(pos)].priorityScore >= xs[2 * pos + 2].priorityScore)
  }

  lemma OrderedFromAll(xs: seq<WaitlistEntry>)
    ensures OrderedFrom(xs, 0, -1) <==> IsHeap(xs)
  {
  }

  /** The root of a heap ranks no lower than any entry. */
  lemma {:induction false} HeapRootIsMax(xs: seq<WaitlistEntry>, i: int)
    requires IsHeap(xs) && 0 <= i < |xs|
    ensures xs[0].priorityScore >= xs[i].priorityScore
    decreases i
  {
    if i > 0 {
      HeapRootIsMax(xs, Parent(i));
    }
  }

  /**
   * Only the root is promised: a heap's second entry can rank below its
   * third, so a prefix of the heap list is not sorted by priority.
   */
  lemma HeapPrefixNotSorted(a: WaitlistEntry, b: WaitlistEntry, c: WaitlistEntry)
    requires a.priorityScore == 5 && b.priorityScore == 1 && c.priorityScore == 4
    ensures IsHeap([a, b, c])
    ensures [a, b, c][1].priorityScore < [a, b, c][2].priorityScore
  {
    assert Parent(1) == 0 && Parent(2) == 0;
  }

  // ---------------------------------------------------------------------------
  // _siftdown
  // ---------------------------------------------------------------------------

  /**
   * The state of `_siftdown` with the hole at `pos`: putting `newitem` into the
   * hole gives a rearrangement of the input in heap order from `startpos`,
   * except for the edge into the hole, whose parent also covers the hole's
   * children.
   */
  ghost predicate SiftingDown(heap: seq<WaitlistEntry>, a: seq<WaitlistEntry>, startpos: int, pos: int, newitem: WaitlistEntry)
    reads heap, a, newitem
  {
    && |a| == |heap| && 0 <= startpos <= pos < |a| && Descends(startpos, pos)
    && multiset(a[pos := newitem]) == multiset(heap)
    && OrderedFrom(a[pos := newitem], startpos, pos)
    && (startpos < pos ==> ParentCoversChildren(a[pos := newitem], pos))
  }

  /** Exchanging two positions rearranges a sequence. */
  lemma SwapMultiset<T>(b: seq<T>, i: int, j: int)
    requires 0 <= i < |b| && 0 <= j < |b|
    ensures multiset(b[i := b[j]][j := b[i]]) == multiset(b)
  {
  }

  /** Moving the parent into the hole when `newitem` ranks above it keeps the state, one level up. */
  lemma SiftDownStep(heap: seq<WaitlistEntry>, a: seq<WaitlistEntry>, startpos: int, pos: int, newitem: WaitlistEntry)
    requires SiftingDown(heap, a, startpos, pos, newitem) && startpos < pos
    requires newitem.priorityScore > a[Parent(pos)].priorityScore
    ensures SiftingDown(heap, a[pos := a[Parent(pos)]], startpos, Parent(pos), newitem)
  {
    var pp := Parent(pos);
    var b := a[pos := newitem];
    var b' := a[pos := a[pp]][pp := newitem];
    assert Descends(startpos, pp);
    assert b' == b[pos := b[pp]][pp := b[pos]];
    SwapMultiset(b, pos, pp);
    SwappedOrder(b, startpos, pos);
  }

  /** The order part of `SiftDownStep`, over the sequence with the item in the hole. */
  lemma SwappedOrder(b: seq<WaitlistEntry>, startpos: int, pos: int)
    requires 0 <= startpos < pos < |b| && Descends(startpos, pos)
    requires OrderedFrom(b, startpos, pos) && ParentCoversChildren(b, pos)
    requires b[pos].priorityScore > b[Parent(pos)].priorityScore
    ensures var pp := Parent(pos);
            var b' := b[pos := b[pp]][pp := b[pos]];
            && OrderedFrom(b', startpos, pp)
            && (startpos < pp ==> ParentCoversChildren(b', pp))
  {
    var pp := Parent(pos);
    var b' := b[pos := b[pp]][pp := b[pos]];
    assert startpos < pp ==> startpos <= Parent(pp) by {
      if startpos < pp {
        assert Descends(startpos, Parent(pp));
      }
    }
    forall c | 0 < c < |b'| && startpos <= Parent(c) && c != pp
      ensures b'[Parent(c)].priorityScore >= b'[c].priorityScore
    {
      if c == pos {
        assert b'[Parent(c)] == b[pos] && b'[c] == b[pp];
      } else if Parent(c) == pos {
        assert c == 2 * pos + 1 || c == 2 * pos + 2;
        assert b'[Parent(c)] == b[pp] && b'[c] == b[c];
      } else if Parent(c) == pp {
        assert b'[Parent(c)] == b[pos] && b'[c] == b[c];
        assert b[pp].priorityScore >= b[c].priorityScore;
      } else if c != pp {
        assert b'[Parent(c)] == b[Parent(c)] && b'[c] == b[c];
      }
    }
    if startpos < pp {
      assert b[Parent(pp)].priorityScore >= b[pp].priorityScore;
      assert b'[Parent(pp)] == b[Parent(pp)];
      forall k | (k == 2 * pp + 1 || k == 2 * pp + 2) && k < |b'|
        ensures b'[k].priorityScore <= b[pp].priorityScore
      {
        assert Parent(k) == pp;
        if k != pos {
          assert b'[k] == b[k];
        }
      }
    }
  }

  /**
   * `_siftdown(heap, startpos, pos)`: the item at `pos` climbs towards
   * `startpos` while it ranks strictly above its parent.  Given heap order
   * from `startpos` everywhere but into `pos`, the result is in heap order
   * from `startpos`: it is a rearrangement of the input.
   */
  method SiftDown(heap: seq<WaitlistEntry>, startpos: int, pos: int) returns (h: seq<WaitlistEntry>)
    requires 0 <= startpos <= pos < |heap| && Descends(startpos, pos)
    requires OrderedFrom(heap, startpos, pos)
    requires startpos < pos ==> ParentCoversChildren(heap, pos)
    ensures |h| == |heap| && multiset(h) == multiset(heap)
    ensures OrderedFrom(h, startpos, -1)
  {
    var a := heap;
    var p := pos;
    var newitem := a[p];
    assert a[p := newitem] == heap;
    while p > startpos
      invariant SiftingDown(heap, a, startpos, p, newitem)
      decreases p
    {
      var parentpos := Parent(p);
      var parent := a[parentpos];
      if newitem.Before(parent) {
        SiftDownStep(heap, a, startpos, p, newitem);
        a := a[p := parent];
        p := parentpos;
        continue;
      }
      break;
    }
    SiftDownDone(heap, a, startpos, p, newitem);
    a := a[p := newitem];
    h := a;
  }

  /** When the item stops, the edge into its place is in order too. */
  lemma SiftDownDone(heap: seq<WaitlistEntry>, a: seq<WaitlistEntry>, startpos: int, pos: int, newitem: WaitlistEntry)
    requires SiftingDown(heap, a, startpos, pos, newitem)
    requires startpos < pos ==> newitem.priorityScore <= a[Parent(pos)].priorityScore
    ensures OrderedFrom(a[pos := newitem], startpos, -1) && multiset(a[pos := newitem]) == multiset(heap)
  {
    var b := a[pos := newitem];
    forall c | 0 < c < |b| && startpos <= Parent(c)
      ensures b[Parent(c)].priorityScore >= b[c].priorityScore
    {
      if c == pos {
        assert b[Parent(c)] == a[Parent(pos)];
      }
    }
  }

  // ---------------------------------------------------------------------------
  // _siftup
  // ---------------------------------------------------------------------------

  /**
   * The state of the descent in `_siftup`: the hole is at `pos`, every edge
   * whose parent is at `startpos` or later is in heap order except those
   * leaving `startpos` while the hole is still there, and putting `newitem`
   * into the hole gives a rearrangement of the input.
   */
  ghost predicate Descending(heap: seq<WaitlistEntry>, a: seq<WaitlistEntry>, startpos: int, pos: int, newitem: WaitlistEntry)
    reads heap, a, newitem
  {
    && |a| == |heap| && 0 <= startpos <= pos < |a| && Descends(startpos, pos)
    && multiset(a[pos := newitem]) == multiset(heap)
    && HoleOrdered(a, startpos, pos)
  }

  /** Heap order from `startpos`, leaving out the edges out of `startpos` while the hole is there. */
  ghost predicate HoleOrdered(a: seq<WaitlistEntry>, startpos: int, pos: int)
    reads a
  {
    forall c :: 0 < c < |a| && startpos <= Parent(c) && !(pos == startpos && Parent(c) == startpos) ==>
      a[Parent(c)].priorityScore >= a[c].priorityScore
  }

  /** Moving the higher-ranked child up into the hole keeps the state, one level down. */
  lemma DescendStep(heap: seq<WaitlistEntry>, a: seq<WaitlistEntry>, startpos: int, pos: int, newitem: WaitlistEntry,
                    childpos: int)
    requires Descending(heap, a, startpos, pos, newitem)
    requires childpos == 2 * pos + 1 || childpos == 2 * pos + 2
    requires childpos < |a|
    requires childpos == 2 * pos + 1 && 2 * pos + 2 < |a| ==> a[2 * pos + 1].priorityScore > a[2 * pos + 2].priorityScore
    requires childpos == 2 * pos + 2 ==> a[2 * pos + 1].priorityScore <= a[2 * pos + 2].priorityScore
    ensures Descending(heap, a[pos := a[childpos]], startpos, childpos, newitem)
  {
    var b := a[pos := newitem];
    assert Parent(childpos) == pos;
    assert a[pos := a[childpos]][childpos := newitem] == b[pos := b[childpos]][childpos := b[pos]];
    SwapMultiset(b, pos, childpos);
    DescendOrder(a, startpos, pos, childpos);
  }

  /** The order part of `DescendStep`. */
  lemma DescendOrder(a: seq<WaitlistEntry>, startpos: int, pos: int, childpos: int)
    requires 0 <= startpos <= pos && Descends(startpos, pos)
    requires HoleOrdered(a, startpos, pos)
    requires childpos == 2 * pos + 1 || childpos == 2 * pos + 2
    requires childpos < |a|
    requires childpos == 2 * pos + 1 && 2 * pos + 2 < |a| ==> a[2 * pos + 1].priorityScore > a[2 * pos + 2].priorityScore
    requires childpos == 2 * pos + 2 ==> a[2 * pos + 1].priorityScore <= a[2 * pos + 2].priorityScore
    ensures HoleOrdered(a[pos := a[childpos]], startpos, childpos)
  {
    var a' := a[pos := a[childpos]];
    assert Parent(childpos) == pos;
    assert startpos < pos ==> startpos <= Parent(pos) by {
      if startpos < pos {
        assert Descends(startpos, Parent(pos));
      }
    }
    forall c | 0 < c < |a'| && startpos <= Parent(c) && !(childpos == startpos && Parent(c) == startpos)
      ensures a'[Parent(c)].priorityScore >= a'[c].priorityScore
    {
      if c == pos {
        assert a'[c] == a[childpos] && a'[Parent(c)] == a[Parent(c)];
        assert a[Parent(pos)].priorityScore >= a[pos].priorityScore;
        assert a[pos].priorityScore >= a[childpos].priorityScore;
      } else if Parent(c) == pos {
        assert c == 2 * pos + 1 || c == 2 * pos + 2;
        assert a'[Parent(c)] == a[childpos] && a'[c] == a[c];
      } else {
        assert a'[Parent(c)] == a[Parent(c)] && a'[c] == a[c];
      }
    }
  }

  /**
   * `_siftup(heap, pos)`: the hole left by the item at `pos` moves down along
   * the higher-ranked children (the right one on a tie) to a leaf, the item
   * goes there and `_siftdown` lifts it back.  Given heap order below `pos`,
   * the result is in heap order from `pos` and a rearrangement of the input.
   */
  method SiftUp(heap: seq<WaitlistEntry>, pos: int) returns (h: seq<WaitlistEntry>)
    requires 0 <= pos < |heap|
    requires OrderedFrom(heap, pos + 1, -1)
    ensures |h| == |heap| && multiset(h) == multiset(heap)
    ensures OrderedFrom(h, pos, -1)
  {
    var a := heap;
    var endpos := |a|;
    var startpos := pos;
    var p := pos;
    var newitem := a[p];
    assert a[p := newitem] == heap;
    var childpos := 2 * p + 1;
    while childpos < endpos
      invariant Descending(heap, a, startpos, p, newitem) && childpos == 2 * p + 1 && endpos == |a|
      decreases endpos - p
    {
      var rightpos := childpos + 1;
      if rightpos < endpos && !a[childpos].Before(a[rightpos]) {
        childpos := rightpos;
      }
      DescendStep(heap, a, startpos, p, newitem, childpos);
      a := a[p := a[childpos]];
      p := childpos;
      childpos := 2 * p + 1;
    }
    AtLeaf(heap, a, startpos, p, newitem);
    a := a[p := newitem];
    h := SiftDown(a, startpos, p);
  }

  /** At a leaf the item can be put into the hole and sifted back up. */
  lemma AtLeaf(heap: seq<WaitlistEntry>, a: seq<WaitlistEntry>, startpos: int, pos: int, newitem: WaitlistEntry)
    requires Descending(heap, a, startpos, pos, newitem) && 2 * pos + 1 >= |a|
    ensures OrderedFrom(a[pos := newitem], startpos, pos)
    ensures startpos < pos ==> ParentCoversChildren(a[pos := newitem], pos)
  {
    var b := a[pos := newitem];
    forall c | 0 < c < |b| && startpos <= Parent(c) && c != pos
      ensures b[Parent(c)].priorityScore >= b[c].priorityScore
    {
      assert Parent(c) != pos;
    }
  }

  // ---------------------------------------------------------------------------
  // heappush and heapify
  // ---------------------------------------------------------------------------

  /** `heapq.heappush`: appends the item and sifts it up; the result is a heap of the old entries and the item. */
  method HeapPush(heap: seq<WaitlistEntry>, item: WaitlistEntry) returns (h: seq<WaitlistEntry>)
    requires IsHeap(heap)
    ensures IsHeap(h)
    ensures multiset(h) == multiset(heap) + multiset{item}
    ensures |h| == |heap| + 1
  {
    var a := heap + [item];
    assert OrderedFrom(a, 0, |a| - 1) by {
      forall c | 0 < c < |a| && 0 <= Parent(c) && c != |a| - 1
        ensures a[Parent(c)].priorityScore >= a[c].priorityScore
      {
        assert a[c] == heap[c] && a[Parent(c)] == heap[Parent(c)];
      }
    }
    DescendsFromRoot(|a| - 1);
    h := SiftDown(a, 0, |a| - 1);
    OrderedFromAll(h);
  }

  /**
   * `heapq.heapify`: `_siftup` at every position from `n // 2 - 1` down to 0;
   * the result is a heap holding the same entries.
   */
  method Heapify(x: seq<WaitlistEntry>) returns (h: seq<WaitlistEntry>)
    ensures IsHeap(h)
    ensures multiset(h) == multiset(x) && |h| == |x|
  {
    h := x;
    var n := |h|;
    var i := n / 2;
    assert OrderedFrom(h, i, -1) by {
      forall c | 0 < c < |h| && i <= Parent(c)
        ensures false
      {
      }
    }
    while i > 0
      invariant 0 <= i <= n / 2 && |h| == n && multiset(h) == multiset(x)
      invariant OrderedFrom(h, i, -1)
    {
      i := i - 1;
      h := SiftUp(h, i);
    }
    OrderedFromAll(h);
  }

  /** An entry is kept by the list comprehension of `remove_patient` unless it carries the id. */
  function Without(xs: seq<WaitlistEntry>, patientId: string): (r: seq<WaitlistEntry>)
    ensures forall e :: e in r ==> e in xs && e.patientId != patientId
  {
    if xs == [] then []
    else Without(xs[..|xs| - 1], patientId) + (if xs[|xs| - 1].patientId != patientId then [xs[|xs| - 1]] else [])
  }

  /** When one entry alone carries the id, dropping the id's entries removes exactly that entry. */
  lemma {:induction false} WithoutOne(xs: seq<WaitlistEntry>, patientId: string, e: WaitlistEntry)
    requires forall k :: 0 <= k < |xs| && xs[k].patientId == patientId ==> xs[k] == e
    requires e.patientId == patientId
    ensures multiset(Without(xs, patientId)) == multiset(xs)[e := 0]
    decreases |xs|
  {
    if xs != [] {
      var init := xs[..|xs| - 1];
      var last := xs[|xs| - 1];
      assert xs == init + [last];
      WithoutOne(init, patientId, e);
      if last.patientId != patientId {
        assert last != e;
      }
    }
  }
}
