/** The resister: a priority queue of shared elements with an index by ID. */
module Resister {

  type Int32 = x: int | -0x8000_0000 <= x < 0x8000_0000

  /** Two's-complement wrap-around to 32 bits. */
  function Wrap32(x: int): Int32 { (x + 0x8000_0000) % 0x1_0000_0000 - 0x8000_0000 }

  /** What an element carries besides its ID. */
  datatype Entry<D> = Entry(data: D, priority: Int32, created: int, retries: Int32)

  class Element<D> {
    const id: string
    var data: D
    var priority: Int32
    var created: int
    var retries: Int32

    constructor (id: string, entry: Entry<D>)
      ensures this.id == id && Value() == entry
    {
      this.id := id;
      data, priority, created, retries := entry.data, entry.priority, entry.created, entry.retries;
    }

    function Value(): Entry<D>
      reads this
    {
      Entry(data, priority, created, retries)
    }

    method Set(entry: Entry<D>)
      modifies this
      ensures Value() == entry
    {
      data, priority, created, retries := entry.data, entry.priority, entry.created, entry.retries;
    }

    method CopyFrom(other: Element<D>)
      modifies this
      ensures Value() == old(other.Value())
    {
      data, priority, created, retries := other.data, other.priority, other.created, other.retries;
    }

    method DecayPriority()
      modifies this`priority
      ensures Value() == Decayed(old(Value()))
    {
      if retries > 5 {
        var newPriority := Wrap32(priority - 2);
        if newPriority < 0 {
          newPriority := 0;
        }
        priority := newPriority;
      }
    }
  }

  function Decayed<D>(e: Entry<D>): Entry<D> {
    if e.retries <= 5 then e
    else
      var p := Wrap32(e.priority - 2);
      e.(priority := if p < 0 then 0 else p)
  }

  /**
   What decay does to an entry, number by number: nothing up to five retries; beyond, the priority
   falls by two, to zero at the least, except that the two lowest priorities there are wrap around
   to the two highest.
   */
  lemma DecayedMeaning<D>(e: Entry<D>)
    ensures Decayed(e).data == e.data && Decayed(e).created == e.created && Decayed(e).retries == e.retries
    ensures Decayed(e).priority
            == if e.retries <= 5 then e.priority
               else if e.priority >= 2 then e.priority - 2
               else if e.priority >= -0x7fff_fffe then 0
               else e.priority + 0xffff_fffe
  {
  }

  /** So it never raises a priority if and only if the entry is young or its priority is not negative. */
  lemma DecayRaisesNothing<D>(e: Entry<D>)
    ensures Decayed(e).priority <= e.priority <==> e.retries <= 5 || e.priority >= 0
  {
  }

  // ---------- the heap order on a slice of elements ----------

  function Parent(j: nat): nat { if j == 0 then 0 else (j - 1) / 2 }

  /** Position `j` is not above its parent's priority. */
  ghost predicate Ordered<D>(q: seq<Element<D>>, j: nat)
    requires j < |q|
    reads q
  {
    q[Parent(j)].priority >= q[j].priority
  }

  ghost predicate Heap<D>(q: seq<Element<D>>)
    reads q
  {
    forall j :: 0 <= j < |q| ==> Ordered(q, j)
  }

  /** Below position `i`, within the first `n`, nothing exceeds the parent of `i`. */
  ghost predicate Bridged<D>(q: seq<Element<D>>, i: nat, n: nat)
    requires i < n <= |q|
    reads q
  {
    forall c :: 0 < c < n && Parent(c) == i ==> q[Parent(i)].priority >= q[c].priority
  }

  function Swap<T>(q: seq<T>, i: nat, j: nat): (r: seq<T>)
    requires i < |q| && j < |q|
    ensures |r| == |q| && multiset(r) == multiset(q)
  {
    q[i := q[j]][j := q[i]]
  }

  /** `up`: moves the element at `j0` towards the root. */
  method Up<D>(q0: seq<Element<D>>, j0: nat) returns (q: seq<Element<D>>)
    requires j0 < |q0|
    requires forall j :: 0 <= j < |q0| && j != j0 ==> Ordered(q0, j)
    requires 0 < j0 ==> Bridged(q0, j0, |q0|)
    ensures Heap(q) && multiset(q) == multiset(q0) && |q| == |q0|
  {
    q := q0;
    var j: nat := j0;
    while true
      invariant j < |q| == |q0| && multiset(q) == multiset(q0)
      invariant forall k :: 0 <= k < |q| && k != j ==> Ordered(q, k)
      invariant 0 < j ==> Bridged(q, j, |q|)
      decreases j
    {
      var i := Parent(j);
      if i == j || !(q[j].priority > q[i].priority) {
        break;
      }
      UpStep(q, j);
      q := Swap(q, i, j);
      j := i;
    }
  }

  lemma UpStep<D>(q: seq<Element<D>>, j: nat)
    requires 0 < j < |q|
    requires forall k :: 0 <= k < |q| && k != j ==> Ordered(q, k)
    requires Bridged(q, j, |q|)
    requires q[j].priority > q[Parent(j)].priority
    ensures var i, r := Parent(j), Swap(q, Parent(j), j);
            && (forall k :: 0 <= k < |q| && k != i ==> Ordered(r, k))
            && (0 < i ==> Bridged(r, i, |q|))
  {
    var i, r := Parent(j), Swap(q, Parent(j), j);
    forall k | 0 <= k < |q| && k != i
      ensures Ordered(r, k)
    {
      assert k != j ==> Ordered(q, k);
      assert Parent(k) == i && k != j ==> q[i].priority >= q[k].priority;
    }
    if 0 < i {
      assert Ordered(q, i);
      forall c | 0 < c < |q| && Parent(c) == i
        ensures r[Parent(i)].priority >= r[c].priority
      {
        assert c != j ==> Ordered(q, c);
      }
    }
  }

  /** Order within the first `n`, among positions whose parent is at least `lo`, except at and below `i`. */
  ghost predicate OrderedAround<D>(q: seq<Element<D>>, lo: nat, i: nat, n: nat)
    requires n <= |q|
    reads q
  {
    forall k :: 0 < k < n && lo <= Parent(k) && Parent(k) != i && k != i ==> Ordered(q, k)
  }

  /** The state of a sift-down that started at `i0` and stands at `i`. */
  ghost predicate Sinking<D>(q: seq<Element<D>>, lo: nat, i0: nat, i: nat, n: nat)
    requires lo <= i0 <= i < n <= |q|
    reads q
  {
    && OrderedAround(q, lo, i, n)
    && (0 < i && lo <= Parent(i) ==> Bridged(q, i, n))
    && (i0 < i ==> lo <= Parent(i) && Ordered(q, i))
    && (i0 < i && 0 < i0 && lo <= Parent(i0) ==> Ordered(q, i0))
  }

  /** No child of `i` within the first `n` exceeds it. */
  ghost predicate Settled<D>(q: seq<Element<D>>, i: nat, n: nat)
    requires i < n <= |q|
    reads q
  {
    forall c :: 0 < c < n && Parent(c) == i ==> q[i].priority >= q[c].priority
  }

  /** The larger child of `i` if it exceeds `i`, otherwise `i` itself. */
  method ChildAbove<D>(q: seq<Element<D>>, i: nat, n: nat) returns (j: nat)
    requires i < n <= |q|
    ensures j == i ==> Settled(q, i, n)
    ensures j != i ==> i < j < n && Parent(j) == i && q[j].priority > q[i].priority
    ensures j != i ==> forall c :: 0 < c < n && Parent(c) == i ==> q[j].priority >= q[c].priority
  {
    var j1 := 2 * i + 1;
    assert forall c :: 0 < c < n && Parent(c) == i ==> c == j1 || c == j1 + 1;
    if j1 >= n {
      return i;
    }
    j := j1;
    if j1 + 1 < n && q[j1 + 1].priority > q[j1].priority {
      j := j1 + 1;
    }
    if !(q[j].priority > q[i].priority) {
      j := i;
    }
  }

  /** `down`: moves the element at `i0` towards the leaves of the first `n`. */
  method Down<D>(q0: seq<Element<D>>, i0: nat, n: nat, ghost lo: nat) returns (q: seq<Element<D>>, moved: bool)
    requires lo <= i0 < n <= |q0|
    requires OrderedAround(q0, lo, i0, n)
    requires 0 < i0 && lo <= Parent(i0) ==> Bridged(q0, i0, n)
    ensures |q| == |q0| && multiset(q) == multiset(q0)
    ensures forall k :: n <= k < |q| ==> q[k] == q0[k]
    ensures forall k :: 0 < k < n && lo <= Parent(k) && k != i0 ==> Ordered(q, k)
    ensures moved && 0 < i0 && lo <= Parent(i0) ==> Ordered(q, i0)
    ensures !moved ==> q == q0
  {
    q := q0;
    var i := i0;
    while true
      invariant i0 <= i < n <= |q| == |q0| && multiset(q) == multiset(q0)
      invariant forall k :: n <= k < |q| ==> q[k] == q0[k]
      invariant i == i0 ==> q == q0
      invariant Sinking(q, lo, i0, i, n)
      decreases n - i
    {
      var j := ChildAbove(q, i, n);
      if j == i {
        break;
      }
      DownStep(q, lo, i0, i, j, n);
      q := Swap(q, i, j);
      i := j;
    }
    DownDone(q, lo, i0, i, n);
    moved := i > i0;
  }

  lemma DownDone<D>(q: seq<Element<D>>, lo: nat, i0: nat, i: nat, n: nat)
    requires lo <= i0 <= i < n <= |q| && Sinking(q, lo, i0, i, n) && Settled(q, i, n)
    ensures forall k :: 0 < k < n && lo <= Parent(k) && k != i0 ==> Ordered(q, k)
  {
  }

  lemma DownStep<D>(q: seq<Element<D>>, lo: nat, i0: nat, i: nat, j: nat, n: nat)
    requires lo <= i0 <= i < j < n <= |q| && Parent(j) == i && Sinking(q, lo, i0, i, n)
    requires forall c :: 0 < c < n && Parent(c) == i ==> q[j].priority >= q[c].priority
    requires q[j].priority > q[i].priority
    ensures Sinking(Swap(q, i, j), lo, i0, j, n)
  {
    var r := Swap(q, i, j);
    forall k | 0 < k < n && lo <= Parent(k) && Parent(k) != j && k != j
      ensures Ordered(r, k)
    {
      assert Parent(k) != i && k != i ==> Ordered(q, k);
    }
    forall c | 0 < c < n && Parent(c) == j
      ensures r[Parent(j)].priority >= r[c].priority
    {
      assert Ordered(q, c);
    }
  }

  /** `heap.Fix` after the priority at `i` changed. */
  method Fix<D>(q0: seq<Element<D>>, i: nat) returns (q: seq<Element<D>>)
    requires i < |q0| && OrderedAround(q0, 0, i, |q0|) && (0 < i ==> Bridged(q0, i, |q0|))
    ensures Heap(q) && multiset(q) == multiset(q0) && |q| == |q0|
  {
    var moved;
    q, moved := Down(q0, i, |q0|, 0);
    if !moved {
      q := Up(q, i);
    }
  }

  /** `heap.Init` */
  method Init<D>(q0: seq<Element<D>>) returns (q: seq<Element<D>>)
    ensures Heap(q) && multiset(q) == multiset(q0) && |q| == |q0|
  {
    q := q0;
    var n := |q|;
    var i := n / 2 - 1;
    while i >= 0
      invariant -1 <= i < n / 2 || (i == -1 && n <= 1)
      invariant |q| == n && multiset(q) == multiset(q0)
      invariant forall k :: 0 < k < n && i < Parent(k) ==> Ordered(q, k)
    {
      var moved;
      q, moved := Down(q, i, n, i);
      i := i - 1;
    }
  }

  /** The root of a heap has the largest priority. */
  lemma RootIsMaximal<D>(q: seq<Element<D>>, j: nat)
    requires Heap(q) && j < |q|
    ensures q[0].priority >= q[j].priority
    decreases j
  {
    if j > 0 {
      assert Ordered(q, j);
      RootIsMaximal(q, Parent(j));
    }
  }

  lemma TwiceInMultiset<T>(q: seq<T>, i: nat, j: nat)
    requires i < j < |q| && q[i] == q[j]
    ensures multiset(q)[q[i]] >= 2
  {
    assert q == q[..j] + [q[j]] + q[j + 1..];
    assert q[i] in q[..j];
  }

  /** The heap as it was before the caller gave `e` a new priority in place. */
  ghost predicate HeapBefore<D>(q: seq<Element<D>>, e: Element<D>, was: int)
    reads q
  {
    forall j :: 0 <= j < |q| ==> PriorityBefore(q[Parent(j)], e, was) >= PriorityBefore(q[j], e, was)
  }

  ghost function PriorityBefore<D>(x: Element<D>, e: Element<D>, was: int): int
    reads x
  {
    if x == e then was else x.priority
  }

  lemma HeapUnchanged<D>(q: seq<Element<D>>, e: Element<D>)
    requires Heap(q)
    ensures HeapBefore(q, e, e.priority)
  {
    forall j | 0 <= j < |q|
      ensures PriorityBefore(q[Parent(j)], e, e.priority) >= PriorityBefore(q[j], e, e.priority)
    {
      assert Ordered(q, j);
    }
  }

  lemma FixableAfterChange<D>(q: seq<Element<D>>, i: nat, was: int)
    requires i < |q| && HeapBefore(q, q[i], was)
    requires forall j :: 0 <= j < |q| && j != i ==> q[j] != q[i]
    ensures OrderedAround(q, 0, i, |q|) && (0 < i ==> Bridged(q, i, |q|))
  {
    var e := q[i];
    forall k | 0 < k < |q| && Parent(k) != i && k != i
      ensures Ordered(q, k)
    {
      assert PriorityBefore(q[Parent(k)], e, was) >= PriorityBefore(q[k], e, was);
    }
    forall c | 0 < c < |q| && Parent(c) == i
      ensures 0 < i ==> q[Parent(i)].priority >= q[c].priority
    {
      assert PriorityBefore(q[Parent(c)], e, was) >= PriorityBefore(q[c], e, was);
      assert PriorityBefore(q[Parent(i)], e, was) >= PriorityBefore(q[i], e, was);
    }
  }

  // ---------- the resister ----------

  ghost predicate IndexedBy<D>(q: seq<Element<D>>, index: map<string, Element<D>>) {
    && multiset(q) == multiset(index.Values)
    && forall id :: id in index ==> index[id].id == id
  }

  class Resister<D> {
    var queue: seq<Element<D>>
    var indexByID: map<string, Element<D>>

    /** The index holds exactly the queued objects, each once and under its own ID. */
    ghost predicate Indexed()
      reads this
    {
      IndexedBy(queue, indexByID)
    }

    ghost predicate Valid()
      reads this, queue
    {
      Indexed() && Heap(queue)
    }

    /** The simple map that the resister stands for. */
    ghost function Contents(): map<string, Entry<D>>
      reads this, indexByID.Values
    {
      map id | id in indexByID :: indexByID[id].Value()
    }

    constructor ()
      ensures Valid() && queue == [] && indexByID == map[]
    {
      queue, indexByID := [], map[];
    }

    lemma QueuedIffIndexed(e: Element<D>)
      requires Indexed()
      ensures e in queue <==> e.id in indexByID && indexByID[e.id] == e
    {
      assert e in queue <==> e in multiset(queue);
      assert e in multiset(queue) <==> e in indexByID.Values;
      if e in indexByID.Values {
        var id :| id in indexByID && indexByID[id] == e;
      }
    }

    lemma QueuedAreIndexed()
      requires Indexed()
      ensures forall e :: e in queue ==> e in indexByID.Values
    {
      forall e | e in queue
        ensures e in indexByID.Values
      {
        QueuedIffIndexed(e);
      }
    }

    /** Queued elements have distinct IDs. */
    lemma DistinctIDs(i: nat, j: nat)
      requires Indexed() && i < j < |queue|
      ensures queue[i].id != queue[j].id
    {
      QueuedIffIndexed(queue[i]);
      QueuedIffIndexed(queue[j]);
      assert multiset(indexByID.Values)[queue[i]] <= 1;
      if queue[i] == queue[j] {
        TwiceInMultiset(queue, i, j);
      }
    }

    method IndexOf(id: string) returns (idx: int)
      ensures -1 <= idx < |queue|
      ensures 0 <= idx ==> queue[idx].id == id && forall k :: 0 <= k < idx ==> queue[k].id != id
      ensures idx == -1 <==> forall e :: e in queue ==> e.id != id
    {
      for i := 0 to |queue|
        invariant forall k :: 0 <= k < i ==> queue[k].id != id
      {
        if queue[i].id == id {
          return i;
        }
      }
      idx := -1;
    }

    method Len() returns (n: nat)
      requires Indexed()
      ensures n == |indexByID|
    {
      n := |queue|;
      assert |multiset(queue)| == |multiset(indexByID.Values)|;
      SizeOfIndex();
    }

    /** Sets the entry of an ID.  A caller may already have changed the priority of
        the very object it pushes: all that is asked is that the queue was a heap
        before that. */
    method Push(element: Element?<D>) returns (ok: bool, requeued: bool)
      requires element == null ==> Valid()
      requires element != null ==> Indexed() && exists was: int :: HeapBefore(queue, element, was)
      modifies this, if element != null && element.id in indexByID then {indexByID[element.id]} else {}
      ensures Valid()
      ensures ok <==> element != null
      ensures !ok ==> queue == old(queue) && indexByID == old(indexByID)
      ensures ok ==> requeued == old(element.id in indexByID)
      ensures ok ==> Contents() == old(Contents())[element.id := old(element.Value())]
      ensures ok && requeued ==> indexByID == old(indexByID) && multiset(queue) == multiset(old(queue))
      ensures ok && !requeued ==> indexByID == old(indexByID)[element.id := element]
      ensures ok && !requeued ==> multiset(queue) == multiset(old(queue)) + multiset{element}
    {
      if element == null {
        return false, false;
      }
      ok, requeued := true, element.id in indexByID;
      if requeued {
        Requeue(element);
      } else {
        Enqueue(element);
      }
    }

    /** The branch for an ID already queued: update that object, then `heap.Fix`. */
    method Requeue(element: Element<D>)
      requires element.id in indexByID
      requires Indexed() && exists was: int :: HeapBefore(queue, element, was)
      modifies this`queue, indexByID[element.id]
      ensures Valid() && multiset(queue) == multiset(old(queue))
      ensures Contents() == old(Contents())[element.id := old(element.Value())]
    {
      QueuedIffIndexed(element);
      ghost var was :| HeapBefore(queue, element, was);
      var existing := indexByID[element.id];
      if existing != element {
        was := existing.priority;
        existing.CopyFrom(element);
      }
      Refix(existing, was);
    }

    /** The element found by its ID is the indexed one, and `heap.Fix` may be called there. */
    lemma FixReady(existing: Element<D>, idx: nat, was: int)
      requires Indexed() && existing.id in indexByID && indexByID[existing.id] == existing
      requires idx < |queue| && queue[idx].id == existing.id && HeapBefore(queue, existing, was)
      ensures OrderedAround(queue, 0, idx, |queue|) && (0 < idx ==> Bridged(queue, idx, |queue|))
    {
      SoleAt(idx);
      FixableAfterChange(queue, idx, was);
    }

    /** Finds the element by its ID and repairs the heap there. */
    method Refix(existing: Element<D>, ghost was: int)
      requires Indexed() && existing.id in indexByID && indexByID[existing.id] == existing
      requires HeapBefore(queue, existing, was)
      modifies this`queue
      ensures Valid() && multiset(queue) == multiset(old(queue))
    {
      QueuedIffIndexed(existing);
      var idx := IndexOf(existing.id);
      if idx >= 0 {
        FixAt(existing, idx, was);
      } else {
        assert false;
      }
    }

    method FixAt(existing: Element<D>, idx: nat, ghost was: int)
      requires Indexed() && existing.id in indexByID && indexByID[existing.id] == existing
      requires idx < |queue| && queue[idx].id == existing.id && HeapBefore(queue, existing, was)
      modifies this`queue
      ensures Valid() && multiset(queue) == multiset(old(queue))
    {
      FixReady(existing, idx, was);
      queue := Fix(queue, idx);
      IndexReordered(old(queue), queue, indexByID);
    }

    /** The branch for a new ID: index it, then `heap.Push`. */
    method Enqueue(element: Element<D>)
      requires element.id !in indexByID
      requires Indexed() && exists was: int :: HeapBefore(queue, element, was)
      modifies this
      ensures Valid() && multiset(queue) == multiset(old(queue)) + multiset{element}
      ensures indexByID == old(indexByID)[element.id := element]
      ensures Contents() == old(Contents())[element.id := old(element.Value())]
    {
      QueuedIffIndexed(element);
      ghost var was :| HeapBefore(queue, element, was);
      var q := HeapPush(queue, element, was);
      Install(q, element);
    }

    /** Stores the grown heap and indexes the new element. */
    method Install(q: seq<Element<D>>, element: Element<D>)
      requires Indexed() && element.id !in indexByID && Heap(q) && multiset(q) == multiset(queue) + multiset{element}
      modifies this
      ensures Valid() && queue == q && indexByID == old(indexByID)[element.id := element]
      ensures Contents() == old(Contents())[element.id := old(element.Value())]
    {
      IndexAdd(queue, q, indexByID, element);
      queue, indexByID := q, indexByID[element.id := element];
    }

    /** An indexed position is the only one holding its object, which is the indexed one. */
    lemma SoleAt(i: nat)
      requires Indexed() && i < |queue|
      ensures queue[i].id in indexByID && indexByID[queue[i].id] == queue[i]
      ensures forall j :: 0 <= j < |queue| && j != i ==> queue[j] != queue[i]
    {
      QueuedIffIndexed(queue[i]);
      forall j | 0 <= j < |queue| && j != i
        ensures queue[j] != queue[i]
      {
        if i < j {
          DistinctIDs(i, j);
        } else {
          DistinctIDs(j, i);
        }
      }
    }

    lemma RootAboveAll()
      requires Valid() && queue != []
      ensures forall id :: id in indexByID ==> indexByID[id].priority <= queue[0].priority
    {
      forall id | id in indexByID
        ensures indexByID[id].priority <= queue[0].priority
      {
        QueuedIffIndexed(indexByID[id]);
        var k :| 0 <= k < |queue| && queue[k] == indexByID[id];
        RootIsMaximal(queue, k);
      }
    }

    /** Removes one entry, of maximal priority. */
    method Pop() returns (element: Element?<D>)
      requires Valid()
      modifies this
      ensures Valid()
      ensures element == null <==> old(queue) == []
      ensures element == null ==> queue == old(queue) && indexByID == old(indexByID)
      ensures element != null ==>
                && element.id in old(indexByID) && old(indexByID)[element.id] == element
                && indexByID == old(indexByID) - {element.id}
                && Contents() == old(Contents()) - {element.id}
                && forall id :: id in old(Contents()) ==> old(Contents())[id].priority <= element.priority
    {
      if |queue| == 0 {
        return null;
      }
      SoleAt(0);
      RootAboveAll();
      var rest, top := HeapPop(queue);
      IndexRemove(queue, rest, indexByID, top);
      queue, indexByID, element := rest, indexByID - {top.id}, top;
    }

    /** Decays every element once and restores the heap. */
    method DecayPriorities()
      requires Valid()
      modifies this`queue, queue
      ensures Valid() && indexByID == old(indexByID)
      ensures multiset(queue) == multiset(old(queue))
      ensures Contents() == map id | id in old(Contents()) :: Decayed(old(Contents())[id])
    {
      var changed := DecayAll();
      forall id | id in indexByID
        ensures indexByID[id].Value() == Decayed(old(indexByID[id].Value()))
      {
        QueuedIffIndexed(indexByID[id]);
      }
      if changed != 0 {
        queue := Init(queue);
      } else {
        forall j | 0 <= j < |queue|
          ensures Ordered(queue, j)
        {
          assert old(Ordered(queue, j));
          assert queue[j].priority == old(queue[j].priority);
          assert queue[Parent(j)].priority == old(queue[Parent(j)].priority);
        }
      }
    }

    /** The loop over the slice; counts the elements whose priority changed. */
    method DecayAll() returns (changed: nat)
      requires Indexed()
      modifies queue
      ensures forall k :: 0 <= k < |queue| ==> queue[k].Value() == Decayed(old(queue[k].Value()))
      ensures changed == 0 ==> forall k :: 0 <= k < |queue| ==> queue[k].priority == old(queue[k].priority)
    {
      changed := 0;
      for i := 0 to |queue|
        invariant forall k :: 0 <= k < i ==> queue[k].Value() == Decayed(old(queue[k].Value()))
        invariant forall k :: i <= k < |queue| ==> queue[k].Value() == old(queue[k].Value())
        invariant changed == 0 ==> forall k :: 0 <= k < |queue| ==> queue[k].priority == old(queue[k].priority)
      {
        SoleAt(i);
        var before := queue[i].priority;
        queue[i].DecayPriority();
        if before != queue[i].priority {
          changed := changed + 1;
        }
      }
    }

    lemma SizeOfIndex()
      requires Indexed()
      ensures |indexByID.Values| == |indexByID|
    {
      assert forall a, b :: a in indexByID && b in indexByID && indexByID[a] == indexByID[b] ==> a == b;
      ValuesCount(indexByID);
    }
  }

  /** Swapping the ends of a heap breaks the order only at the new root. */
  lemma RootAndLast<D>(q: seq<Element<D>>)
    requires Heap(q) && |q| > 0
    ensures var n := |q| - 1;
            n > 0 ==> OrderedAround(Swap(q, 0, n), 0, 0, n)
  {
    var n := |q| - 1;
    forall k | 0 < k < n && Parent(k) != 0
      ensures Ordered(Swap(q, 0, n), k)
    {
      assert Ordered(q, k);
    }
  }

  lemma IndexReordered<D>(q0: seq<Element<D>>, q: seq<Element<D>>, index: map<string, Element<D>>)
    requires IndexedBy(q0, index) && multiset(q) == multiset(q0)
    ensures IndexedBy(q, index)
  {
  }

  lemma IndexAdd<D>(q0: seq<Element<D>>, q: seq<Element<D>>, index: map<string, Element<D>>, e: Element<D>)
    requires IndexedBy(q0, index) && e.id !in index && multiset(q) == multiset(q0) + multiset{e}
    ensures IndexedBy(q, index[e.id := e])
  {
    assert e !in index.Values;
    AddValue(index, e.id, e);
  }

  lemma IndexRemove<D>(q0: seq<Element<D>>, q: seq<Element<D>>, index: map<string, Element<D>>, e: Element<D>)
    requires IndexedBy(q0, index) && e.id in index && index[e.id] == e && multiset(q0) == multiset(q) + multiset{e}
    ensures IndexedBy(q, index - {e.id})
  {
    RemoveValue(index, e.id);
    CancelOne(multiset(q), multiset((index - {e.id}).Values), e);
  }

  lemma AddValue<K, V>(m: map<K, V>, k: K, v: V)
    requires k !in m && v !in m.Values
    ensures m[k := v].Values == m.Values + {v} && multiset(m[k := v].Values) == multiset(m.Values) + multiset{v}
  {
    var r := m[k := v];
    forall x | x in m.Values
      ensures x in r.Values
    {
      var a :| a in m && m[a] == x;
      assert r[a] == x;
    }
    assert r[k] == v;
    assert r.Values == m.Values + {v};
  }

  lemma CancelOne<T>(a: multiset<T>, b: multiset<T>, x: T)
    requires a + multiset{x} == b + multiset{x}
    ensures a == b
  {
    assert a == (a + multiset{x}) - multiset{x};
    assert b == (b + multiset{x}) - multiset{x};
  }

  /** `heap.Push` of an element that is not in the heap yet. */
  method HeapPush<D>(q0: seq<Element<D>>, e: Element<D>, ghost was: int) returns (q: seq<Element<D>>)
    requires e !in q0 && HeapBefore(q0, e, was)
    ensures Heap(q) && multiset(q) == multiset(q0) + multiset{e}
  {
    q := q0 + [e];
    forall j | 0 <= j < |q0|
      ensures Ordered(q, j)
    {
      assert PriorityBefore(q0[Parent(j)], e, was) >= PriorityBefore(q0[j], e, was);
    }
    q := Up(q, |q0|);
  }

  /** `heap.Pop` */
  method HeapPop<D>(q0: seq<Element<D>>) returns (q: seq<Element<D>>, top: Element<D>)
    requires Heap(q0) && |q0| > 0
    ensures Heap(q) && top == q0[0] && multiset(q0) == multiset(q) + multiset{top}
  {
    var n := |q0| - 1;
    q := Swap(q0, 0, n);
    RootAndLast(q0);
    if n > 0 {
      var moved;
      q, moved := Down(q, 0, n, 0);
    }
    top := q[n];
    CutLast(q);
    q := q[..n];
  }

  /** Without its last element, a slice ordered up to there is a heap of the others. */
  lemma CutLast<D>(q: seq<Element<D>>)
    requires |q| > 0 && forall k :: 0 < k < |q| - 1 ==> Ordered(q, k)
    ensures Heap(q[..|q| - 1]) && multiset(q) == multiset(q[..|q| - 1]) + multiset{q[|q| - 1]}
  {
    var front := q[..|q| - 1];
    assert q == front + [q[|q| - 1]];
    forall j | 0 <= j < |front|
      ensures Ordered(front, j)
    {
      assert 0 < j ==> Ordered(q, j);
    }
  }

  lemma RemoveValue<K, V>(m: map<K, V>, k: K)
    requires k in m && forall a, b :: a in m && b in m && m[a] == m[b] ==> a == b
    ensures multiset(m.Values) == multiset((m - {k}).Values) + multiset{m[k]}
  {
    forall v | v in m.Values - {m[k]}
      ensures v in (m - {k}).Values
    {
      var a :| a in m && m[a] == v;
      assert a in m - {k} && (m - {k})[a] == v;
    }
    assert (m - {k}).Values == m.Values - {m[k]};
  }

  lemma ValuesCount<K, V>(m: map<K, V>)
    requires forall a, b :: a in m && b in m && m[a] == m[b] ==> a == b
    ensures |m.Values| == |m|
    decreases |m|
  {
    if m != map[] {
      var k :| k in m;
      var r := m - {k};
      ValuesCount(r);
      forall v | v in m.Values
        ensures v in r.Values + {m[k]}
      {
        var a :| a in m && m[a] == v;
        assert a != k ==> a in r && r[a] == v;
      }
      assert m.Values == r.Values + {m[k]};
      assert |m.Keys| == |r.Keys + {k}|;
    }
  }

  // ---------- whole runs against the simple map ----------

  /** `PushAgain`: the caller overwrites a queued object's fields in place and pushes that very object. */
  datatype Op<D> = PushEntry(id: string, entry: Entry<D>) | PushAgain(id: string, entry: Entry<D>) | TakeTop | Decay

  datatype Taken<D> = Nothing | Took(id: string, entry: Entry<D>)

  /** One operation on the map from IDs to entries. */
  ghost predicate MapStep<D(!new)>(m: map<string, Entry<D>>, op: Op<D>, out: Taken<D>, m': map<string, Entry<D>>) {
    match op
    case PushEntry(id, entry) => out == Nothing && m' == m[id := entry]
    case PushAgain(id, entry) => out == Nothing && m' == if id in m then m[id := entry] else m
    case Decay => out == Nothing && m' == map id | id in m :: Decayed(m[id])
    case TakeTop =>
      if m == map[] then out == Nothing && m' == m
      else
        && out.Took? && out.id in m && out.entry == m[out.id]
        && (forall id :: id in m ==> m[id].priority <= out.entry.priority)
        && m' == m - {out.id}
  }

  ghost predicate MapRun<D(!new)>(ops: seq<Op<D>>, outs: seq<Taken<D>>, ms: seq<map<string, Entry<D>>>) {
    && |ms| == |ops| + 1 && |outs| == |ops| && ms[0] == map[]
    && forall i :: 0 <= i < |ops| ==> MapStep(ms[i], ops[i], outs[i], ms[i + 1])
  }

  lemma MapRunSnoc<D(!new)>(
    ops: seq<Op<D>>, outs: seq<Taken<D>>, ms: seq<map<string, Entry<D>>>,
    op: Op<D>, out: Taken<D>, m: map<string, Entry<D>>)
    requires MapRun(ops, outs, ms) && MapStep(ms[|ops|], op, out, m)
    ensures MapRun(ops + [op], outs + [out], ms + [m])
  {
    var ops', outs', ms' := ops + [op], outs + [out], ms + [m];
    forall i | 0 <= i < |ops'| ensures MapStep(ms'[i], ops'[i], outs'[i], ms'[i + 1]) {
      assert i < |ops| ==> MapStep(ms[i], ops[i], outs[i], ms[i + 1]);
    }
  }

  /** Refinement: every sequence of operations on a resister is a run of the map. */
  method Replay<D(!new)>(ops: seq<Op<D>>)
    returns (r: Resister<D>, outs: seq<Taken<D>>, ghost ms: seq<map<string, Entry<D>>>)
    ensures MapRun(ops, outs, ms)
    ensures r.Valid() && r.Contents() == ms[|ops|]
  {
    r := new Resister();
    outs, ms := [], [map[]];
    for i := 0 to |ops|
      invariant fresh(r) && r.Valid()
      invariant forall id :: id in r.indexByID ==> fresh(r.indexByID[id])
      invariant MapRun(ops[..i], outs, ms) && r.Contents() == ms[i]
    {
      var out := Perform(r, ops[i]);
      MapRunSnoc(ops[..i], outs, ms, ops[i], out, r.Contents());
      assert ops[..i + 1] == ops[..i] + [ops[i]];
      outs, ms := outs + [out], ms + [r.Contents()];
    }
    assert ops[..|ops|] == ops;
  }

  /** Pushes a new object carrying the entry. */
  method PushEntryOf<D(!new)>(r: Resister<D>, id: string, entry: Entry<D>)
    requires r.Valid()
    modifies r, r.indexByID.Values
    ensures r.Valid() && r.Contents() == old(r.Contents())[id := entry]
    ensures forall i :: i in r.indexByID ==> fresh(r.indexByID[i]) || r.indexByID[i] in old(r.indexByID.Values)
  {
    var e := new Element(id, entry);
    HeapUnchanged(r.queue, e);
    var ok, requeued := r.Push(e);
  }

  /** Changes a queued object in place, so that the queue may stop being a heap, and pushes it. */
  method PushQueued<D(!new)>(r: Resister<D>, id: string, entry: Entry<D>)
    requires r.Valid() && id in r.indexByID
    modifies r, r.indexByID[id]
    ensures r.Valid() && r.indexByID == old(r.indexByID)
    ensures r.Contents() == old(r.Contents())[id := entry]
  {
    var e := r.indexByID[id];
    ghost var was, m := e.priority, r.Contents();
    HeapUnchanged(r.queue, e);
    e.Set(entry);
    assert HeapBefore(r.queue, e, was);
    assert r.Contents() == m[id := entry];
    var ok, requeued := r.Push(e);
  }

  method Perform<D(!new)>(r: Resister<D>, op: Op<D>) returns (out: Taken<D>)
    requires r.Valid()
    modifies r, r.indexByID.Values
    ensures r.Valid() && MapStep(old(r.Contents()), op, out, r.Contents())
    ensures forall id :: id in r.indexByID ==> fresh(r.indexByID[id]) || r.indexByID[id] in old(r.indexByID.Values)
  {
    out := Nothing;
    match op {
      case PushEntry(id, entry) =>
        PushEntryOf(r, id, entry);
      case PushAgain(id, entry) =>
        if id in r.indexByID {
          PushQueued(r, id, entry);
        }
      case Decay =>
        r.QueuedAreIndexed();
        r.DecayPriorities();
      case TakeTop =>
        var e := r.Pop();
        if e != null {
          out := Took(e.id, e.Value());
        }
    }
  }

  /** Consecutive pops come out in order of priority. */
  lemma PopsInOrder<D(!new)>(ops: seq<Op<D>>, outs: seq<Taken<D>>, ms: seq<map<string, Entry<D>>>, i: nat)
    requires MapRun(ops, outs, ms) && i + 1 < |ops|
    requires ops[i].TakeTop? && ops[i + 1].TakeTop? && outs[i + 1].Took?
    ensures outs[i].Took? && outs[i].id != outs[i + 1].id
    ensures outs[i].entry.priority >= outs[i + 1].entry.priority
  {
    assert MapStep(ms[i], ops[i], outs[i], ms[i + 1]);
    assert MapStep(ms[i + 1], ops[i + 1], outs[i + 1], ms[i + 2]);
  }
}
