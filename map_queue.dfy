// The binary-heap priority queue of kxg/misc/map.py (PriorityQueue and its
// IndexedPQ subclass).  The queue keeps a heap list and, beside it, a set
// used for membership tests.  Its comparison is modelled as a rank: `a`
// comes before `b` when `rank(a) < rank(b)`; the default comparison
// `a < b` is the rank `x => x` on integers, and an IndexedPQ ranks an item
// by its entry in the weights dict it shares with its caller.

module MapQueue {
  import opened Wrappers

  datatype QueueError =
    | EmptyQueue        // `heap.pop(0)` / `heap[0]` on an empty list: IndexError
    | NotAMember        // `set.remove(first)` on an item the set lost: KeyError
    | NotQueued         // `heap.index(item)` on an absent item: ValueError
    | ListIndexIsFloat  // `heap[(child - 1) / 2]` under true division: TypeError
    | ListIndexOutOfRange // an int list index outside `[-len, len)`: IndexError

  /** Slot `c` is a child of slot `p` in the heap layout. */
  predicate IsChild(p: int, c: int) {
    c == 2 * p + 1 || c == 2 * p + 2
  }

  /** Slot of the parent of heap slot `i > 0`: `(i - 1) / 2` read as integer
    * division; it is the one slot `i` is a child of. */
  function Parent(i: int): (p: int)
    requires i > 0
    ensures 0 <= p < i && IsChild(p, i)
    ensures forall q :: IsChild(q, i) ==> q == p
  {
    (i - 1) / 2
  }

  /** Every slot ranks no higher than its children. */
  predicate IsHeap<T>(h: seq<T>, rank: T -> int) {
    forall p, c :: 0 <= p < |h| && 0 <= c < |h| && IsChild(p, c) ==> rank(h[p]) <= rank(h[c])
  }

  /** The state `_bubble` works on: the heap property holds everywhere
    * except perhaps between slot `c0` and its parent, and `c0`'s parent
    * already ranks no higher than `c0`'s children. */
  predicate ReadyUp<T>(h: seq<T>, rank: T -> int, c0: int) {
    && 0 <= c0 < |h|
    && (forall p, c :: 0 <= p < |h| && 0 <= c < |h| && IsChild(p, c) && c != c0 ==> rank(h[p]) <= rank(h[c]))
    && (forall q, k :: 0 <= q < |h| && 0 <= k < |h| && IsChild(q, c0) && IsChild(c0, k) ==> rank(h[q]) <= rank(h[k]))
  }

  /** The state `_drip` works on: the heap property holds everywhere except
    * perhaps between slot `p0` and its children, and `p0`'s parent already
    * ranks no higher than `p0`'s children. */
  predicate ReadyDown<T>(h: seq<T>, rank: T -> int, p0: int) {
    && 0 <= p0 < |h|
    && (forall p, c :: 0 <= p < |h| && 0 <= c < |h| && IsChild(p, c) && p != p0 ==> rank(h[p]) <= rank(h[c]))
    && (forall q, k :: 0 <= q < |h| && 0 <= k < |h| && IsChild(q, p0) && IsChild(p0, k) ==> rank(h[q]) <= rank(h[k]))
  }

  /** Exchange of two slots, as in `heap[child], heap[parent] = heap[parent], heap[child]`. */
  function Swap<T>(h: seq<T>, i: int, j: int): (s: seq<T>)
    requires 0 <= i < |h| && 0 <= j < |h|
    ensures |s| == |h| && multiset(s) == multiset(h)
    ensures s[i] == h[j] && s[j] == h[i]
    ensures forall k :: 0 <= k < |h| && k != i && k != j ==> s[k] == h[k]
  {
    h[i := h[j]][j := h[i]]
  }

  /** No item occurs twice in the heap. */
  predicate Distinct<T(==)>(h: seq<T>) {
    forall i :: 0 <= i < |h| ==> multiset(h)[h[i]] == 1
  }

  /** The items of the heap, as the membership set should hold them. */
  function Elements<T>(h: seq<T>): set<T> {
    set x | x in h
  }

  /** The root of a heap ranks no higher than any other slot. */
  lemma {:induction false} RootIsMinimal<T>(h: seq<T>, rank: T -> int, i: int)
    requires IsHeap(h, rank) && 0 <= i < |h|
    ensures rank(h[0]) <= rank(h[i])
    decreases i
  {
    if i > 0 {
      RootIsMinimal(h, rank, Parent(i));
    }
  }

  /** Whatever the rank, a heap has a minimal item at its root. */
  lemma RootIsMinimalAll<T>(h: seq<T>, rank: T -> int)
    requires |h| > 0
    ensures IsHeap(h, rank) ==> forall x :: x in h ==> rank(h[0]) <= rank(x)
  {
    forall x | x in h && IsHeap(h, rank) ensures rank(h[0]) <= rank(x) {
      var i :| 0 <= i < |h| && h[i] == x;
      RootIsMinimal(h, rank, i);
    }
  }

  /** Appending to a heap leaves the new last slot ready to bubble up. */
  lemma AppendIsReadyUp<T>(h: seq<T>, rank: T -> int, x: T)
    requires IsHeap(h, rank)
    ensures ReadyUp(h + [x], rank, |h|)
  {
    var h' := h + [x];
    forall i | 0 < i < |h'| && i != |h|
      ensures rank(h'[Parent(i)]) <= rank(h'[i])
    {
      assert h'[i] == h[i] && h'[Parent(i)] == h[Parent(i)];
    }
  }

  /** One swap of `_bubble` keeps the loop's state, one slot higher. */
  lemma SiftUpStep<T>(h: seq<T>, rank: T -> int, c: int)
    requires ReadyUp(h, rank, c) && c > 0
    requires rank(h[c]) < rank(h[Parent(c)])
    ensures ReadyUp(Swap(h, c, Parent(c)), rank, Parent(c))
  {
    var p := Parent(c);
    var s := Swap(h, c, p);
    forall q, k | 0 <= q < |s| && 0 <= k < |s| && IsChild(q, k) && k != p
      ensures rank(s[q]) <= rank(s[k])
    {
      if k == c {
      } else if q == c {
        assert rank(h[p]) <= rank(h[k]);
      } else if q == p {
        assert rank(h[p]) <= rank(h[k]);
      } else {
        assert s[q] == h[q];
      }
    }
    forall q, k | 0 <= q < |s| && 0 <= k < |s| && IsChild(q, p) && IsChild(p, k)
      ensures rank(s[q]) <= rank(s[k])
    {
      assert rank(h[q]) <= rank(h[p]);
    }
  }

  /** One swap of `_drip` with the lower-ranked child keeps the loop's
    * state, one level lower. */
  lemma SiftDownStep<T>(h: seq<T>, rank: T -> int, p: int, c: int)
    requires ReadyDown(h, rank, p) && 0 <= c < |h| && IsChild(p, c)
    requires forall k :: 0 <= k < |h| && IsChild(p, k) ==> rank(h[c]) <= rank(h[k])
    requires rank(h[c]) < rank(h[p])
    ensures ReadyDown(Swap(h, p, c), rank, c)
  {
    var s := Swap(h, p, c);
    forall q, k | 0 <= q < |s| && 0 <= k < |s| && IsChild(q, k) && q != c
      ensures rank(s[q]) <= rank(s[k])
    {
      if q == p {
      } else if k == p {
        assert rank(h[q]) <= rank(h[c]);
      } else {
        assert s[q] == h[q];
      }
    }
  }

  /** `_drip` stops where the slot ranks no higher than its children. */
  lemma DripDone<T>(h: seq<T>, rank: T -> int, p: int)
    requires ReadyDown(h, rank, p)
    requires forall k :: 0 <= k < |h| && IsChild(p, k) ==> rank(h[p]) <= rank(h[k])
    ensures IsHeap(h, rank)
  {
  }

  /** The queue.  `heap` is the heap list, `members` the membership set and
    * `rank` the comparison; an IndexedPQ's caller changes `rank` through
    * the weights dict, which `Reweigh` stands for. */
  class PriorityQueue<T(==)> {
    var heap: seq<T>
    var members: set<T>
    var rank: T -> int

    /** A well-formed queue: a heap of distinct items whose membership set
      * holds exactly those items. */
    predicate Valid()
      reads this
    {
      IsHeap(heap, rank) && Distinct(heap) && members == Elements(heap)
    }

    constructor(rank: T -> int)
      ensures heap == [] && members == {} && this.rank == rank
      ensures Valid()
    {
      heap := [];
      members := {};
      this.rank := rank;
    }

    /** `__len__`: the length of the heap, which in a valid queue is the
      * number of items the membership set holds. */
    function Length(): (n: nat)
      reads this
      ensures Valid() ==> n == |members|
    {
      DistinctSizeIf(heap, members);
      |heap|
    }

    /** `__contains__` tests the membership set, which in a valid queue
      * answers for the heap. */
    predicate Contains(x: T)
      reads this
      ensures Valid() ==> (Contains(x) <==> x in heap)
    {
      x in members
    }

    /** `empty`. */
    predicate Empty()
      reads this
      ensures Valid() ==> (Empty() <==> members == {})
    {
      assert |heap| > 0 ==> heap[0] in Elements(heap);
      Length() == 0
    }

    /** `peek`: the root, a minimal item of a heap. */
    function Peek(): (r: Result<T, QueueError>)
      reads this
      ensures heap == [] <==> r == Err(EmptyQueue)
      ensures r.Ok? ==> r.value in heap
      ensures r.Ok? && IsHeap(heap, rank) ==> forall x :: x in heap ==> rank(r.value) <= rank(x)
    {
      if heap == [] then Err(EmptyQueue)
      else
        RootIsMinimalAll(heap, rank);
        Ok(heap[0])
    }

    /** `push`: append, record membership, bubble the new slot up. */
    method Push(x: T)
      modifies this
      ensures rank == old(rank)
      ensures multiset(heap) == old(multiset(heap)) + multiset{x}
      ensures members == old(members) + {x}
      ensures old(IsHeap(heap, rank)) ==> IsHeap(heap, rank)
      ensures old(Valid()) && x !in old(members) ==> Valid()
    {
      ghost var wasHeap := IsHeap(heap, rank);
      if wasHeap {
        AppendIsReadyUp(heap, rank, x);
      }
      heap := heap + [x];
      members := members + {x};
      Bubble(|heap| - 1);
      if old(Valid()) && x !in old(members) {
        DistinctAppend(old(heap), x, heap);
      }
    }

    /** `update`: find the item and bubble it up, after its rank dropped. */
    method Update(x: T) returns (r: Outcome<QueueError>)
      modifies this
      ensures rank == old(rank) && members == old(members)
      ensures multiset(heap) == old(multiset(heap))
      ensures r == Fail(NotQueued) <==> x !in old(heap)
      ensures r.Fail? ==> r == Fail(NotQueued) && heap == old(heap)
      ensures r.Pass? ==> exists c :: 0 <= c < old(|heap|) && old(heap)[c] == x &&
                                 (old(ReadyUp(heap, rank, c)) ==> IsHeap(heap, rank))
    {
      var c := 0;
      while c < |heap| && heap[c] != x
        invariant 0 <= c <= |heap|
        invariant x !in heap[..c]
      {
        c := c + 1;
      }
      if c == |heap| {
        assert heap[..c] == heap;
        return Fail(NotQueued);
      }
      Bubble(c);
      r := Pass;
    }

    /** The caller changing the item's entry in the weights dict an
      * IndexedPQ compares by. */
    method Reweigh(x: T, w: int)
      modifies this
      ensures heap == old(heap) && members == old(members)
      ensures rank(x) == w && forall y :: y != x ==> rank(y) == old(rank)(y)
    {
      var r := rank;
      rank := y => if y == x then w else r(y);
    }

    /** `_bubble`: swap the slot with its parent while it ranks lower. */
    method Bubble(index: int)
      modifies this
      requires 0 <= index < |heap|
      ensures rank == old(rank) && members == old(members)
      ensures multiset(heap) == old(multiset(heap)) && |heap| == old(|heap|)
      ensures old(ReadyUp(heap, rank, index)) ==> IsHeap(heap, rank)
    {
      ghost var ready := ReadyUp(heap, rank, index);
      var child := index;
      while child > 0 && rank(heap[child]) < rank(heap[Parent(child)])
        invariant 0 <= child < |heap|
        invariant rank == old(rank) && members == old(members)
        invariant multiset(heap) == old(multiset(heap)) && |heap| == old(|heap|)
        invariant ready ==> ReadyUp(heap, rank, child)
      {
        var parent := Parent(child);
        if ready {
          SiftUpStep(heap, rank, child);
        }
        heap := Swap(heap, child, parent);
        child := parent;
      }
    }

    /** `_drip`, with the bound every child slot needs: swap the slot with
      * its lower-ranked child while that child ranks lower. */
    method Drip(index: int)
      modifies this
      requires 0 <= index < |heap|
      ensures rank == old(rank) && members == old(members)
      ensures multiset(heap) == old(multiset(heap)) && |heap| == old(|heap|)
      ensures old(ReadyDown(heap, rank, index)) ==> IsHeap(heap, rank)
    {
      ghost var ready := ReadyDown(heap, rank, index);
      var parent, child := index, 2 * index + 1;
      var size := |heap|;
      while child < size
        invariant 0 <= parent < |heap| && child == 2 * parent + 1 && size == |heap|
        invariant rank == old(rank) && members == old(members)
        invariant multiset(heap) == old(multiset(heap)) && |heap| == old(|heap|)
        invariant ready ==> ReadyDown(heap, rank, parent)
        decreases size - child
      {
        var lower, swapped := Sink(parent);
        if !swapped {
          break;
        }
        parent, child := lower, 2 * lower + 1;
      }
      if ready && child >= size {
        DripDone(heap, rank, parent);
      }
    }

    /** One pass of `_drip`'s loop: pick the lower-ranked child of `parent`
      * and swap the two when the child ranks lower. */
    method Sink(parent: int) returns (child: int, swapped: bool)
      requires 0 <= parent && 2 * parent + 1 < |heap|
      modifies this`heap
      ensures |heap| == old(|heap|) && multiset(heap) == old(multiset(heap))
      ensures IsChild(parent, child) && parent < child < |heap|
      ensures swapped ==> (old(ReadyDown(heap, rank, parent)) ==> ReadyDown(heap, rank, child))
      ensures !swapped ==> heap == old(heap) && (ReadyDown(heap, rank, parent) ==> IsHeap(heap, rank))
    {
      child := 2 * parent + 1;
      if child + 1 < |heap| && rank(heap[child + 1]) < rank(heap[child]) {
        child := child + 1;
      }
      assert forall k :: 0 <= k < |heap| && IsChild(parent, k) ==> rank(heap[child]) <= rank(heap[k]);
      swapped := rank(heap[child]) < rank(heap[parent]);
      if swapped {
        if ReadyDown(heap, rank, parent) {
          SiftDownStep(heap, rank, parent, child);
        }
        heap := Swap(heap, parent, child);
      } else if ReadyDown(heap, rank, parent) {
        DripDone(heap, rank, parent);
      }
    }

    /** `pop`: take the root, move the last item into its place, drip it
      * down, and drop the root from the membership set. */
    method Pop() returns (r: Result<T, QueueError>)
      modifies this
      ensures rank == old(rank)
      ensures old(heap) == [] ==> r == Err(EmptyQueue) && heap == old(heap) && members == old(members)
      ensures old(heap) != [] ==>
        && multiset(heap) == old(multiset(heap)) - multiset{old(heap[0])}
        && members == old(members) - {old(heap[0])}
        && r == (if old(heap[0]) in old(members) then Ok(old(heap[0])) else Err(NotAMember))
      ensures old(IsHeap(heap, rank)) ==> IsHeap(heap, rank)
      ensures old(Valid()) && old(heap) != [] ==>
                Valid() && r.Ok? && forall x :: x in old(heap) ==> rank(r.value) <= rank(x)
    {
      if heap == [] {
        return Err(EmptyQueue);
      }
      ghost var h0 := heap;
      ghost var wasValid := Valid();
      var first := TakeRoot();
      r := if first in members then Ok(first) else Err(NotAMember);
      members := members - {first};
      if wasValid {
        DistinctRemove(h0, heap, first);
      }
    }

    /** The heap half of `pop`: take the root, move the last item into its
      * place and drip it down. */
    method TakeRoot() returns (first: T)
      modifies this
      requires heap != []
      ensures first == old(heap[0]) && rank == old(rank) && members == old(members)
      ensures multiset(heap) == old(multiset(heap)) - multiset{first}
      ensures old(IsHeap(heap, rank)) ==>
                IsHeap(heap, rank) && forall x :: x in old(heap) ==> rank(first) <= rank(x)
    {
      ghost var h0 := heap;
      ghost var wasHeap := IsHeap(heap, rank);
      RootIsMinimalAll(heap, rank);
      first := heap[0];
      RootRemoved(h0);
      if |heap| == 1 {
        heap := [];
      } else {
        heap := [heap[|heap| - 1]] + heap[1..|heap| - 1];
        if wasHeap {
          MovedLastIsReadyDown(h0, rank);
        }
        Drip(0);
      }
    }
  }

  /** Popping the root and moving the last item up removes just the root. */
  lemma RootRemoved<T>(h: seq<T>)
    requires |h| >= 1
    ensures |h| == 1 ==> multiset(h) - multiset{h[0]} == multiset{}
    ensures |h| >= 2 ==> multiset([h[|h| - 1]] + h[1..|h| - 1]) == multiset(h) - multiset{h[0]}
  {
    if |h| == 1 {
      assert h == [h[0]];
    } else {
      assert h == [h[0]] + h[1..|h| - 1] + [h[|h| - 1]];
    }
  }

  /** Putting the last item at the root of a heap leaves it ready to drip. */
  lemma MovedLastIsReadyDown<T>(h: seq<T>, rank: T -> int)
    requires IsHeap(h, rank) && |h| >= 2
    ensures ReadyDown([h[|h| - 1]] + h[1..|h| - 1], rank, 0)
  {
    var s := [h[|h| - 1]] + h[1..|h| - 1];
    forall i | 0 < i < |s| && Parent(i) != 0
      ensures rank(s[Parent(i)]) <= rank(s[i])
    {
      assert s[i] == h[i] && s[Parent(i)] == h[Parent(i)];
    }
  }

  /** Removing one occurrence of an item from a queue of distinct items
    * removes it from their set. */
  lemma DistinctRemove<T>(h: seq<T>, h': seq<T>, x: T)
    requires Distinct(h) && x in h
    requires multiset(h') == multiset(h) - multiset{x}
    ensures Distinct(h') && Elements(h') == Elements(h) - {x}
  {
    forall y ensures y in h' <==> y in h && y != x {
      assert y in h' <==> y in multiset(h');
      assert y in h <==> y in multiset(h);
    }
  }

  /** Pushing an item the queue does not hold keeps its items distinct. */
  lemma DistinctAppend<T>(h: seq<T>, x: T, h': seq<T>)
    requires Distinct(h) && x !in h
    requires multiset(h') == multiset(h) + multiset{x}
    ensures Distinct(h') && Elements(h') == Elements(h) + {x}
  {
    forall y ensures y in h' <==> y in h || y == x {
      assert y in h' <==> y in multiset(h');
      assert y in h <==> y in multiset(h);
    }
    forall i | 0 <= i < |h'| ensures multiset(h')[h'[i]] == 1 {
      assert h'[i] in multiset(h');
      if h'[i] != x {
        assert h'[i] in h;
        var j :| 0 <= j < |h| && h[j] == h'[i];
      }
    }
  }

  /** Two slots of a queue of distinct items hold different items. */
  /** A sequence without repeats has as many items as slots. */
  lemma {:induction false} DistinctSize<T>(h: seq<T>)
    requires Distinct(h)
    ensures |Elements(h)| == |h|
  {
    if h != [] {
      var n := |h| - 1;
      var p := h[..n];
      assert h == p + [h[n]];
      assert multiset(h) == multiset(p) + multiset{h[n]};
      assert Distinct(p) by {
        forall i | 0 <= i < |p|
          ensures multiset(p)[p[i]] == 1
        {
          assert p[i] == h[i];
        }
      }
      assert multiset(h)[h[n]] == 1;
      assert multiset(p)[h[n]] == 0;
      DistinctSize(p);
      assert Elements(h) == Elements(p) + {h[n]};
    }
  }

  lemma DistinctSizeIf<T>(h: seq<T>, m: set<T>)
    ensures Distinct(h) && m == Elements(h) ==> |m| == |h|
  {
    if Distinct(h) && m == Elements(h) {
      DistinctSize(h);
    }
  }

  lemma DistinctSlots<T>(h: seq<T>, i: int, j: int)
    requires Distinct(h) && 0 <= i < j < |h|
    ensures h[i] != h[j]
  {
    assert h == h[..j] + h[j..];
    assert h[i] == h[..j][i] && h[j] == h[j..][0];
    assert multiset(h) == multiset(h[..j]) + multiset(h[j..]);
  }

  /** Lowering the rank of one item of a heap, as IndexedPQ's caller does
    * before `update`, leaves that item's slot ready to bubble up. */
  lemma LowerRankIsReadyUp<T>(h: seq<T>, rank: T -> int, rank': T -> int, c: int)
    requires IsHeap(h, rank) && Distinct(h) && 0 <= c < |h|
    requires rank'(h[c]) <= rank(h[c])
    requires forall y :: y != h[c] ==> rank'(y) == rank(y)
    ensures ReadyUp(h, rank', c)
  {
    forall i | 0 <= i < |h| && i != c ensures h[i] != h[c] {
      if i < c { DistinctSlots(h, i, c); } else { DistinctSlots(h, c, i); }
    }
  }

  // ---------------------------------------------------------------------
  // `_bubble` and `_drip` as written.

  /** A Python number: `/` on two ints gives a float under Python 3. */
  datatype Number = IntValue(i: int) | FloatValue(f: real)

  /** `heap[k]`: a float index raises TypeError, a negative one counts from
    * the end, one out of range raises IndexError. */
  function ListIndex<T>(h: seq<T>, k: Number): (r: Result<T, QueueError>)
    ensures k.FloatValue? ==> r == Err(ListIndexIsFloat)
    ensures k.IntValue? && 0 <= k.i < |h| ==> r == Ok(h[k.i])
    ensures r == Err(ListIndexOutOfRange) <==> k.IntValue? && !(-|h| <= k.i < |h|)
  {
    match k
    case FloatValue(_) => Err(ListIndexIsFloat)
    case IntValue(i) =>
      if 0 <= i < |h| then Ok(h[i])
      else if -|h| <= i < 0 then Ok(h[|h| + i])
      else Err(ListIndexOutOfRange)
  }

  /** `parent = (child - 1) / 2` as written (lines 242 and 246). */
  function ParentAsWritten(child: int): Number {
    FloatValue((child - 1) as real / 2.0)
  }

  /** As written, `push` onto a non-empty queue reaches `heap[parent]` in
    * `_bubble` with a float and raises TypeError. */
  lemma PushAsWrittenRaises<T>(h: seq<T>, x: T)
    requires |h| >= 1
    ensures ListIndex(h + [x], ParentAsWritten(|h|)) == Err(ListIndexIsFloat)
  {
  }

  /** `_drip` as written: `size` is one less than the heap length, so a
    * child in the last slot is never compared with its parent. */
  function DripAsWritten<T>(h: seq<T>, rank: T -> int, parent: int): (s: seq<T>)
    requires 0 <= parent < |h|
    ensures |s| == |h|
    decreases |h| - parent
  {
    var size := |h| - 1;
    var child := 2 * parent + 1;
    if child < size then
      var c := if child < size - 1 && rank(h[child + 1]) < rank(h[child]) then child + 1 else child;
      if rank(h[c]) < rank(h[parent]) then DripAsWritten(Swap(h, parent, c), rank, c) else h
    else h
  }

  /** `pop` as written: the root, and the heap left after `_drip`. */
  function PopAsWritten<T>(h: seq<T>, rank: T -> int): (T, seq<T>)
    requires |h| >= 1
  {
    if |h| == 1 then (h[0], [])
    else (h[0], DripAsWritten([h[|h| - 1]] + h[1..|h| - 1], rank, 0))
  }

  function Identity(x: int): int { x }

  /** Pushing 1, 2, 3 with the default comparison gives the heap [1, 2, 3]
    * once `_bubble` divides with `//` (as written the second push already
    * raises TypeError, see PushAsWrittenRaises); popping it as written
    * leaves [3, 2], which is not a heap, so the next pop returns 3 while 2
    * is queued. */
  lemma PopAsWrittenBreaksOrder()
    ensures PopAsWritten([1, 2, 3], Identity) == (1, [3, 2])
    ensures IsHeap([1, 2, 3], Identity) && !IsHeap([3, 2], Identity)
    ensures PopAsWritten([3, 2], Identity).0 == 3 && 2 in [3, 2]
  {
    var h := [1, 2, 3];
    assert [h[|h| - 1]] + h[1..|h| - 1] == [3, 2];
    assert DripAsWritten([3, 2], Identity, 0) == [3, 2];
    assert IsChild(0, 1);
  }
}
