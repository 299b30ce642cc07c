/** A binary heap of (ns, seq, insertion, id) tuples in an array that grows, standing in for Python's heapq
    on a list. */
module MinHeap {
  datatype Entry = Entry(ns: nat, seqno: nat, insertion: int, id: int)

  /** Tuple comparison. */
  predicate Less(a: Entry, b: Entry) {
    a.ns < b.ns || (a.ns == b.ns && (a.seqno < b.seqno || (a.seqno == b.seqno &&
      (a.insertion < b.insertion || (a.insertion == b.insertion && a.id < b.id)))))
  }

  predicate Leq(a: Entry, b: Entry) { !Less(b, a) }

  lemma LeqTransitive(a: Entry, b: Entry, c: Entry)
    requires Leq(a, b) && Leq(b, c)
    ensures Leq(a, c)
  {
  }

  function Parent(i: nat): nat
    requires i > 0
  {
    (i - 1) / 2
  }

  /** The entry at i respects the heap order with its parent. */
  ghost predicate Ordered(h: seq<Entry>, i: nat) {
    0 < i < |h| ==> Leq(h[Parent(i)], h[i])
  }

  ghost predicate IsHeap(h: seq<Entry>) {
    forall i: nat :: Ordered(h, i)
  }

  /** The root of a heap is a minimum. */
  lemma {:induction false} RootIsLeast(h: seq<Entry>, i: nat)
    requires IsHeap(h) && i < |h|
    ensures Leq(h[0], h[i])
    decreases i
  {
    if i > 0 {
      assert Ordered(h, i);
      RootIsLeast(h, Parent(i));
      LeqTransitive(h[0], h[Parent(i)], h[i]);
    }
  }

  function Swap(h: seq<Entry>, i: nat, j: nat): (r: seq<Entry>)
    requires i < |h| && j < |h|
    ensures multiset(r) == multiset(h)
  {
    h[i := h[j]][j := h[i]]
  }

  // ----- one sifting step -----

  /** Heap order holds except perhaps between i and its parent, and i's children also respect its parent. */
  ghost predicate UpTo(h: seq<Entry>, i: nat) {
    && i < |h|
    && (forall j: nat :: j != i ==> Ordered(h, j))
    && (i > 0 ==> forall j: nat :: 0 < j < |h| && Parent(j) == i ==> Leq(h[Parent(i)], h[j]))
  }

  lemma UpStep(h: seq<Entry>, i: nat)
    requires UpTo(h, i) && i > 0 && Less(h[i], h[Parent(i)])
    ensures UpTo(Swap(h, i, Parent(i)), Parent(i))
  {
    var p := Parent(i);
    var h' := Swap(h, i, p);
    forall j: nat | j != p ensures Ordered(h', j) {
      assert j == i || Ordered(h, j);
      if 0 < j < |h| && j != i && Parent(j) == p { LeqTransitive(h[i], h[p], h[j]); }
    }
    if p > 0 {
      assert Ordered(h, p);
      forall j: nat | 0 < j < |h'| && Parent(j) == p ensures Leq(h'[Parent(p)], h'[j]) {
        if j != i {
          assert Ordered(h, j);
          LeqTransitive(h[Parent(p)], h[p], h[j]);
        }
      }
    }
  }

  /** Heap order holds except perhaps between i and its children, which still respect i's parent. */
  ghost predicate DownTo(h: seq<Entry>, i: nat) {
    && i < |h|
    && (forall j: nat :: j > 0 && Parent(j) != i ==> Ordered(h, j))
    && (i > 0 ==> forall j: nat :: 0 < j < |h| && Parent(j) == i ==> Leq(h[Parent(i)], h[j]))
  }

  lemma DownStep(h: seq<Entry>, i: nat, child: nat)
    requires DownTo(h, i) && 0 < child < |h| && Parent(child) == i
    requires forall j: nat :: 0 < j < |h| && Parent(j) == i ==> Leq(h[child], h[j])
    requires Less(h[child], h[i])
    ensures DownTo(Swap(h, i, child), child)
  {
    var h' := Swap(h, i, child);
    forall j: nat | j > 0 && Parent(j) != child ensures Ordered(h', j) {
      assert Parent(j) == i || Ordered(h, j);
    }
    forall j: nat | 0 < j < |h'| && Parent(j) == child ensures Leq(h'[i], h'[j]) {
      assert Ordered(h, j);
    }
  }

  lemma DownDone(h: seq<Entry>, i: nat)
    requires DownTo(h, i)
    requires forall j: nat :: 0 < j < |h| && Parent(j) == i ==> Leq(h[i], h[j])
    ensures IsHeap(h)
  {
    forall j: nat ensures Ordered(h, j) {
      if j > 0 && Parent(j) != i { assert Ordered(h, j); }
    }
  }

  /** Comparing the two children finds the smaller one. */
  lemma SmallerChild(h: seq<Entry>, i: nat, child: nat)
    requires 2 * i + 1 < |h|
    requires child == if 2 * i + 2 < |h| && Less(h[2 * i + 2], h[2 * i + 1]) then 2 * i + 2 else 2 * i + 1
    ensures 0 < child < |h| && Parent(child) == i && i < child
    ensures forall j: nat :: 0 < j < |h| && Parent(j) == i ==> Leq(h[child], h[j])
  {
    assert forall j: nat :: 0 < j < |h| && Parent(j) == i ==> j == 2 * i + 1 || j == 2 * i + 2;
  }

  /** Putting the last entry of a heap at its root loses the root only, and disturbs the order below the
      root only. */
  lemma PopMoves(was: seq<Entry>, now: seq<Entry>)
    requires IsHeap(was) && |was| == |now| + 1 && |now| > 0
    requires now == was[..|now|][0 := was[|now|]]
    ensures multiset(now) == multiset(was) - multiset{was[0]}
    ensures DownTo(now, 0)
  {
    assert was == was[..|now|] + [was[|now|]];
    forall j: nat | j > 0 && Parent(j) != 0 ensures Ordered(now, j) { assert Ordered(was, j); }
  }

  class Heap {
    var data: array<Entry>
    var size: nat

    ghost predicate Valid()
      reads this, data
    {
      size <= data.Length && IsHeap(data[..size])
    }

    /** The entries in use, root first. */
    ghost function Items(): (items: seq<Entry>)
      requires size <= data.Length
      reads this, data
      ensures |items| == size
    {
      data[..size]
    }

    constructor ()
      ensures Valid() && Items() == [] && fresh(data)
    {
      data, size := new Entry[0], 0;
    }

    /** Makes room for one more entry. */
    method Grow()
      requires size <= data.Length
      modifies this`data
      ensures fresh(data) && size < data.Length && Items() == old(Items())
    {
      var wider := new Entry[2 * data.Length + 1];
      forall i | 0 <= i < size { wider[i] := data[i]; }
      data := wider;
    }

    method Push(e: Entry)
      requires Valid()
      modifies this, data
      ensures Valid() && (data == old(data) || fresh(data))
      ensures multiset(Items()) == multiset(old(Items())) + multiset{e}
    {
      ghost var was := Items();
      if size == data.Length { Grow(); }
      data[size] := e;
      size := size + 1;
      assert data[..size] == was + [e];
      forall j: nat | j != |was| ensures Ordered(data[..size], j) { assert Ordered(was, j); }
      SiftUp(size - 1);
    }

    /** Moves the entry at k towards the root until its parent is not larger. */
    method SiftUp(k: nat)
      requires size <= data.Length && UpTo(data[..size], k)
      modifies data
      ensures IsHeap(data[..size]) && multiset(data[..size]) == multiset(old(data[..size]))
    {
      var i := k;
      while i > 0 && Less(data[i], data[Parent(i)])
        invariant UpTo(data[..size], i) && multiset(data[..size]) == multiset(old(data[..size]))
        decreases i
      {
        UpStep(data[..size], i);
        SwapAt(i, Parent(i));
        i := Parent(i);
      }
      assert data[..size][i] == data[i] && (i > 0 ==> data[..size][Parent(i)] == data[Parent(i)]);
      forall j: nat ensures Ordered(data[..size], j) {}
    }

    /** Exchanges two entries in place. */
    method SwapAt(i: nat, j: nat)
      requires size <= data.Length && i < size && j < size
      modifies data
      ensures data[..size] == Swap(old(data[..size]), i, j)
    {
      data[i], data[j] := data[j], data[i];
    }

    method Pop() returns (e: Entry)
      requires Valid() && size > 0
      modifies this`size, data
      ensures Valid() && size == old(size) - 1
      ensures e == old(Items())[0]
      ensures multiset(Items()) == multiset(old(Items())) - multiset{e}
    {
      ghost var was := Items();
      e := data[0];
      var last := data[size - 1];
      size := size - 1;
      assert was == data[..size] + [last];
      if size > 0 {
        data[0] := last;
        assert data[..size] == was[..size][0 := last];
        PopMoves(was, data[..size]);
        SiftDown();
      }
    }

    /** Moves the root down, always past the smaller child, until no child is smaller. */
    method SiftDown()
      requires size <= data.Length && DownTo(data[..size], 0)
      modifies data
      ensures IsHeap(data[..size]) && multiset(data[..size]) == multiset(old(data[..size]))
    {
      hide IsHeap, DownTo, Swap;
      var i := 0;
      while 2 * i + 1 < size
        invariant DownTo(data[..size], i) && multiset(data[..size]) == multiset(old(data[..size]))
        decreases size - i
      {
        ghost var items := data[..size];
        var child := 2 * i + 1;
        if child + 1 < size && Less(data[child + 1], data[child]) { child := child + 1; }
        SmallerChild(items, i, child);
        if Leq(data[i], data[child]) {
          forall j: nat | 0 < j < size && Parent(j) == i ensures Leq(items[i], items[j]) {
            LeqTransitive(items[i], items[child], items[j]);
          }
          DownDone(items, i);
          return;
        }
        DownStep(items, i, child);
        SwapAt(i, child);
        i := child;
      }
      DownDone(data[..size], i);
    }
  }
}
