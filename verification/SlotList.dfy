/** A doubly linked list that allocates its own elements.

    Elements live in slots of fixed-size buffers.  A removed element goes to a free list
    threaded through the same links; a new element comes from the free list, from the next
    unused slot of the buffer, or from a new buffer.  Pointers are modelled as slots and the
    memory as a map from slots to elements. */
module SlotList {

  datatype Option<T> = None | Some(value: T)

  /** An address: a buffer and a place in it. */
  datatype Slot = Slot(buffer: nat, index: nat)

  /** The element type the list is instantiated with. */
  datatype Data = Data(value: int, rho: real, theta: real)

  datatype Element = Element(prev: Option<Slot>, next: Option<Slot>, data: Data)

  type Memory = map<Slot, Element>

  const DEFAULT_SIZE := 10

  function At(s: seq<Slot>, i: int): Option<Slot> {
    if 0 <= i < |s| then Some(s[i]) else None
  }

  function Last(s: seq<Slot>): Option<Slot> {
    At(s, |s| - 1)
  }

  /** The slots are linked in this order, in both directions. */
  ghost predicate Chained(mem: Memory, s: seq<Slot>) {
    forall i: nat :: i < |s| ==> ChainedAt(mem, s, i)
  }

  ghost predicate ChainedAt(mem: Memory, s: seq<Slot>, i: nat)
    requires i < |s|
  {
    s[i] in mem && mem[s[i]].next == At(s, i + 1) && mem[s[i]].prev == At(s, i - 1)
  }

  /** The free list is linked forward only. */
  ghost predicate ChainedForward(mem: Memory, s: seq<Slot>) {
    forall i: nat :: i < |s| ==> ForwardAt(mem, s, i)
  }

  ghost predicate ForwardAt(mem: Memory, s: seq<Slot>, i: nat)
    requires i < |s|
  {
    s[i] in mem && mem[s[i]].next == At(s, i + 1)
  }

  ghost predicate Distinct(s: seq<Slot>) {
    forall i, j :: 0 <= i < j < |s| ==> s[i] != s[j]
  }

  ghost predicate Apart(live: seq<Slot>, free: seq<Slot>) {
    forall i, j :: 0 <= i < |live| && 0 <= j < |free| ==> live[i] != free[j]
  }

  /** The data in some slots, in order. */
  function DataIn(mem: Memory, s: seq<Slot>): (d: seq<Data>)
    ensures |d| == |s|
  {
    seq(|s|, i requires 0 <= i < |s| => DataAt(mem, s[i]))
  }

  function DataAt(mem: Memory, slot: Slot): Data {
    if slot in mem then mem[slot].data else Data(0, 0.0, 0.0)
  }

  /** The sequence with one more element at some place, or with one less. */
  function Inserted<T>(s: seq<T>, at: nat, x: T): seq<T>
    requires at <= |s|
  {
    s[..at] + [x] + s[at..]
  }

  function Removed<T>(s: seq<T>, at: nat): seq<T>
    requires at < |s|
  {
    s[..at] + s[at + 1..]
  }

  /** Setting one link of an element that may not be there. */
  function SetNext(mem: Memory, slot: Option<Slot>, next: Option<Slot>): Memory {
    if slot.Some? && slot.value in mem then mem[slot.value := mem[slot.value].(next := next)] else mem
  }

  function SetPrev(mem: Memory, slot: Option<Slot>, prev: Option<Slot>): Memory {
    if slot.Some? && slot.value in mem then mem[slot.value := mem[slot.value].(prev := prev)] else mem
  }

  /** The memory after an element has been linked in between its neighbours. */
  function LinkedIn(mem: Memory, s: seq<Slot>, at: nat, element: Slot, data: Data): Memory
    requires at <= |s|
  {
    SetPrev(SetNext(mem[element := Element(At(s, at - 1), At(s, at), data)], At(s, at - 1), Some(element)), At(s, at),
        Some(element))
  }

  lemma LinkedInAt(mem: Memory, s: seq<Slot>, at: nat, element: Slot, data: Data, i: nat)
    requires Chained(mem, s) && Distinct(s) && at <= |s| && element !in s && i < |s|
    ensures var w, t := LinkedIn(mem, s, at, element, data), Inserted(s, at, element);
      && s[i] in w && DataAt(w, s[i]) == DataAt(mem, s[i])
      && w[s[i]].next == (if i + 1 == at then Some(element) else At(s, i + 1))
      && w[s[i]].prev == (if i == at then Some(element) else At(s, i - 1))
  {
    assert ChainedAt(mem, s, i);
    assert at > 0 ==> ChainedAt(mem, s, at - 1) && (i != at - 1 ==> s[i] != s[at - 1]);
    assert at < |s| ==> ChainedAt(mem, s, at) && (i != at ==> s[i] != s[at]);
    hide Chained, Distinct;
  }

  lemma InsertedAt(s: seq<Slot>, at: nat, element: Slot, i: nat)
    requires at <= |s| && i <= |s|
    ensures var t := Inserted(s, at, element);
      && |t| == |s| + 1 && t[i] == (if i < at then s[i] else if i == at then element else s[i - 1])
      && At(t, i + 1) == (if i + 1 < at then At(s, i + 1) else if i + 1 == at then Some(element) else At(s, i))
      && At(t, i - 1) == (if i <= at then At(s, i - 1) else if i - 1 == at then Some(element) else At(s, i - 2))
  {
  }

  lemma LinkedInChained(mem: Memory, s: seq<Slot>, free: seq<Slot>, at: nat, element: Slot, data: Data)
    requires Chained(mem, s) && Distinct(s) && at <= |s| && element !in s && element !in free
    requires ChainedForward(mem, free) && Apart(s, free)
    ensures var w := LinkedIn(mem, s, at, element, data);
      && Chained(w, Inserted(s, at, element)) && Distinct(Inserted(s, at, element))
      && ChainedForward(w, free) && Apart(Inserted(s, at, element), free)
      && DataIn(w, Inserted(s, at, element)) == Inserted(DataIn(mem, s), at, data)
  {
    var w, t := LinkedIn(mem, s, at, element, data), Inserted(s, at, element);
    assert element in w && w[element] == Element(At(s, at - 1), At(s, at), data);
    forall i: nat | i < |t|
      ensures ChainedAt(w, t, i)
      ensures DataAt(w, t[i]) == Inserted(DataIn(mem, s), at, data)[i]
    {
      hide LinkedIn, Chained, Distinct, Apart, ChainedForward, Inserted;
      InsertedAt(s, at, element, i);
      InsertedDataAt(DataIn(mem, s), at, data, i);
      if i < at {
        LinkedInAt(mem, s, at, element, data, i);
      } else if i > at {
        LinkedInAt(mem, s, at, element, data, i - 1);
      }
    }
    assert DataIn(w, t) == Inserted(DataIn(mem, s), at, data);
    FreeStays(mem, s, free, at, element, data);
  }

  lemma InsertedDataAt(s: seq<Data>, at: nat, x: Data, i: nat)
    requires at <= |s| && i <= |s|
    ensures |Inserted(s, at, x)| == |s| + 1
    ensures Inserted(s, at, x)[i] == (if i < at then s[i] else if i == at then x else s[i - 1])
  {
  }

  lemma FreeStays(mem: Memory, s: seq<Slot>, free: seq<Slot>, at: nat, element: Slot, data: Data)
    requires Chained(mem, s) && Distinct(s) && at <= |s| && element !in s && element !in free
    requires ChainedForward(mem, free) && Apart(s, free)
    ensures Distinct(Inserted(s, at, element)) && Apart(Inserted(s, at, element), free)
    ensures ChainedForward(LinkedIn(mem, s, at, element, data), free)
  {
    var w := LinkedIn(mem, s, at, element, data);
    forall j: nat | j < |free|
      ensures ForwardAt(w, free, j)
    {
      assert ForwardAt(mem, free, j) && free[j] != element && (at > 0 ==> s[at - 1] != free[j]) && (at < |s| ==>
             s[at] != free[j]);
    }
  }

  /** The memory after an element has been linked out. */
  function LinkedOut(mem: Memory, s: seq<Slot>, at: nat): Memory
    requires at < |s|
  {
    SetPrev(SetNext(mem, At(s, at - 1), At(s, at + 1)), At(s, at + 1), At(s, at - 1))
  }

  lemma LinkedOutAt(mem: Memory, s: seq<Slot>, at: nat, i: nat)
    requires Chained(mem, s) && Distinct(s) && at < |s| && i < |s| && i != at
    ensures var w := LinkedOut(mem, s, at);
      && s[i] in w && DataAt(w, s[i]) == DataAt(mem, s[i])
      && w[s[i]].next == (if i + 1 == at then At(s, at + 1) else At(s, i + 1))
      && w[s[i]].prev == (if i == at + 1 then At(s, at - 1) else At(s, i - 1))
  {
    assert ChainedAt(mem, s, i);
    assert at > 0 ==> ChainedAt(mem, s, at - 1) && (i != at - 1 ==> s[i] != s[at - 1]);
    assert at + 1 < |s| ==> ChainedAt(mem, s, at + 1) && (i != at + 1 ==> s[i] != s[at + 1]);
    hide Chained, Distinct;
  }

  lemma RemovedAt(s: seq<Slot>, at: nat, i: nat)
    requires at < |s| && i < |s| - 1
    ensures var t := Removed(s, at);
      && |t| == |s| - 1 && t[i] == (if i < at then s[i] else s[i + 1])
      && At(t, i + 1) == (if i + 1 < at then At(s, i + 1) else At(s, i + 2))
      && At(t, i - 1) == (if i <= at then At(s, i - 1) else At(s, i))
  {
  }

  lemma RemovedDataAt(s: seq<Data>, at: nat, i: nat)
    requires at < |s| && i < |s| - 1
    ensures |Removed(s, at)| == |s| - 1 && Removed(s, at)[i] == (if i < at then s[i] else s[i + 1])
  {
  }

  lemma LinkedOutChained(mem: Memory, s: seq<Slot>, free: seq<Slot>, at: nat)
    requires Chained(mem, s) && Distinct(s) && at < |s| && ChainedForward(mem, free) && Apart(s, free)
    ensures var w := LinkedOut(mem, s, at);
      && Chained(w, Removed(s, at)) && Distinct(Removed(s, at)) && s[at] !in Removed(s, at)
      && ChainedForward(w, free) && Apart(Removed(s, at), free) && s[at] !in free && s[at] in w
      && DataIn(w, Removed(s, at)) == Removed(DataIn(mem, s), at)
  {
    var w, t := LinkedOut(mem, s, at), Removed(s, at);
    assert |t| == |s| - 1;
    forall i: nat | i < |t|
      ensures ChainedAt(w, t, i)
      ensures DataAt(w, t[i]) == Removed(DataIn(mem, s), at)[i]
    {
      hide LinkedOut, Chained, Distinct, Apart, ChainedForward, Removed;
      RemovedAt(s, at, i);
      RemovedDataAt(DataIn(mem, s), at, i);
      LinkedOutAt(mem, s, at, if i < at then i else i + 1);
    }
    assert DataIn(w, t) == Removed(DataIn(mem, s), at);
    FreeStaysOut(mem, s, free, at);
  }

  lemma FreeStaysOut(mem: Memory, s: seq<Slot>, free: seq<Slot>, at: nat)
    requires Chained(mem, s) && Distinct(s) && at < |s| && ChainedForward(mem, free) && Apart(s, free)
    ensures Distinct(Removed(s, at)) && Apart(Removed(s, at), free) && s[at] !in Removed(s, at) && s[at] !in free
    ensures ChainedForward(LinkedOut(mem, s, at), free) && s[at] in LinkedOut(mem, s, at)
  {
    var w := LinkedOut(mem, s, at);
    assert ChainedAt(mem, s, at);
    forall j: nat | j < |free|
      ensures ForwardAt(w, free, j)
    {
      assert ForwardAt(mem, free, j) && (at > 0 ==> s[at - 1] != free[j]) && (at + 1 < |s| ==> s[at + 1] != free[j]);
    }
  }

  /** All used slots exist; while they fit into one buffer they are the first ones of the
      buffer in use. */
  ghost predicate Allocated(s: seq<Slot>, count: nat, buffers: nat, bufSize: nat) {
    forall i :: 0 <= i < |s| ==>
           s[i].buffer < buffers && (count <= bufSize ==> s[i].buffer == buffers - 1 && s[i].index < count)
  }

  lemma AllocatedInserted(s: seq<Slot>, at: nat, element: Slot, count: nat, buffers: nat, bufSize: nat)
    requires at <= |s| && Allocated(s, count, buffers, bufSize) && element.buffer < buffers
    requires count <= bufSize ==> element.buffer == buffers - 1 && element.index < count
    ensures Allocated(Inserted(s, at, element), count, buffers, bufSize)
  {
  }

  lemma AllocatedRemoved(s: seq<Slot>, at: nat, free: seq<Slot>, count: nat, buffers: nat, bufSize: nat)
    requires at < |s| && Allocated(s, count, buffers, bufSize) && Allocated(free, count, buffers, bufSize)
    ensures Allocated(Removed(s, at), count, buffers, bufSize) && Allocated([s[at]] + free, count, buffers, bufSize)
  {
  }

  class List {
    const bufSize: nat
    var buffers: nat
    var size: int
    var head: Option<Slot>
    var tail: Option<Slot>
    var headFree: Option<Slot>
    var mem: Memory
    ghost var live: seq<Slot>
    ghost var free: seq<Slot>

    /** The list stands for this sequence of elements, with these slots free. */
    ghost predicate Represents(live: seq<Slot>, free: seq<Slot>)
      reads this
    {
      && size == |live| && head == At(live, 0) && tail == Last(live) && headFree == At(free, 0)
      && Chained(mem, live) && ChainedForward(mem, free)
      && Distinct(live) && Distinct(free) && Apart(live, free)
    }

    ghost predicate Valid()
      reads this
    {
      && bufSize > 0 && buffers > 0 && Represents(live, free)
      && Allocated(live, |live| + |free|, buffers, bufSize) && Allocated(free, |live| + |free|, buffers, bufSize)
    }

    /** The contents. */
    ghost function Values(): seq<Data>
      reads this
    {
      DataIn(mem, live)
    }

    constructor (size: int)
      ensures Valid() && Values() == [] && bufSize == if size > 0 then size else DEFAULT_SIZE
    {
      bufSize := if size > 0 then size else DEFAULT_SIZE;
      buffers := 1;
      this.size := 0;
      head, tail, headFree := None, None, None;
      mem := map[];
      live, free := [], [];
    }

    /** Forget everything; the last buffer is used again from its start. */
    method Clear()
      requires Valid()
      modifies this
      ensures Valid() && Values() == [] && buffers == old(buffers)
    {
      head, tail := None, None;
      size := 0;
      headFree := None;
      live, free := [], [];
    }

    /** What INSERT_NEW promises: a slot that is neither live nor still free; the live elements
        are as they were. */
    twostate predicate NewSlot(element: Slot)
      reads this
    {
      && size == old(size) + 1 && element !in live && element !in free
      && live == old(live) && free == (if old(free) == [] then [] else old(free)[1..])
      && head == old(head) && tail == old(tail) && headFree == At(free, 0)
      && Chained(mem, live) && ChainedForward(mem, free) && Distinct(live) && Distinct(free) && Apart(live, free)
      && DataIn(mem, live) == old(DataIn(mem, live))
      && buffers >= old(buffers) && element.buffer < buffers
      && (|live| + 1 + |free| <= bufSize ==> element.buffer == buffers - 1 && element.index < |live| + 1 + |free|)
      && Allocated(live, |live| + 1 + |free|, buffers, bufSize) &&
         Allocated(free, |live| + 1 + |free|, buffers, bufSize)
    }

    method InsertNew() returns (element: Slot)
      requires Valid()
      modifies `size, `headFree, `buffers, `mem, `free
      ensures NewSlot(element)
    {
      size := size + 1;
      if headFree.Some? {
        element := TakeFree();
      } else {
        if bufSize < size {
          element := Slot(buffers, 0);
          buffers := buffers + 1;
        } else {
          element := Slot(buffers - 1, size - 1);
        }
      }
    }

    /** Unlink the first free slot. */
    method TakeFree() returns (element: Slot)
      requires headFree.Some? && headFree == At(free, 0)
      requires Chained(mem, live) && ChainedForward(mem, free) && Distinct(free) && Apart(live, free)
      modifies `headFree, `mem, `free
      ensures element == old(free)[0] && free == old(free)[1..] && headFree == At(free, 0)
      ensures Chained(mem, live) && ChainedForward(mem, free) && DataIn(mem, live) == old(DataIn(mem, live))
    {
      element := headFree.value;
      assert ForwardAt(mem, free, 0);
      var next := mem[element].next;
      assert next.Some? ==> ForwardAt(mem, free, 1) && next.value == free[1];
      if next.Some? {
        mem := mem[next.value := mem[next.value].(prev := None)];
        headFree := next;
      } else {
        headFree := None;
      }
      ghost var rest := free[1..];
      forall j: nat | j < |rest|
        ensures ForwardAt(mem, rest, j)
      {
        assert ForwardAt(old(mem), old(free), j + 1);
      }
      forall i: nat | i < |live|
        ensures ChainedAt(mem, live, i) && DataAt(mem, live[i]) == old(DataAt(mem, live[i]))
      {
        assert ChainedAt(old(mem), live, i);
      }
      free := rest;
    }

    lemma ElementAt(i: nat)
      requires Chained(mem, live) && i < |live|
      ensures live[i] in mem && mem[live[i]].next == At(live, i + 1) && mem[live[i]].prev == At(live, i - 1)
    {
      assert ChainedAt(mem, live, i);
    }

    method AddHead(data: Data) returns (pos: Slot)
      requires Valid()
      modifies this
      ensures Valid() && live == Inserted(old(live), 0, pos) && pos !in old(live)
      ensures Values() == Inserted(old(Values()), 0, data)
    {
      hide Chained, ChainedForward, Distinct, Apart, DataIn, Allocated;
      var element := InsertNew();
      LinkedInChained(mem, live, free, 0, element, data);
      AllocatedInserted(live, 0, element, |live| + 1 + |free|, buffers, bufSize);
      ghost var w := LinkedIn(mem, live, 0, element, data);
      var next := head;
      if live != [] {
        ElementAt(0);
      }
      mem := mem[element := Element(None, next, data)];
      if next.Some? {
        mem := mem[next.value := mem[next.value].(prev := Some(element))];
      } else {
        tail := Some(element);
      }
      head := Some(element);
      pos := element;
      assert mem == w;
      live := Inserted(live, 0, element);
    }

    method AddTail(data: Data) returns (pos: Slot)
      requires Valid()
      modifies this
      ensures Valid() && live == Inserted(old(live), |old(live)|, pos) && pos !in old(live)
      ensures Values() == Inserted(old(Values()), |old(live)|, data)
    {
      hide Chained, ChainedForward, Distinct, Apart, DataIn, Allocated;
      var element := InsertNew();
      LinkedInChained(mem, live, free, |live|, element, data);
      AllocatedInserted(live, |live|, element, |live| + 1 + |free|, buffers, bufSize);
      ghost var w := LinkedIn(mem, live, |live|, element, data);
      var prev := tail;
      if live != [] {
        ElementAt(|live| - 1);
      }
      mem := mem[element := Element(prev, None, data)];
      if prev.Some? {
        mem := mem[prev.value := mem[prev.value].(next := Some(element))];
      } else {
        head := Some(element);
      }
      tail := Some(element);
      pos := element;
      assert mem == w;
      live := Inserted(live, |live|, element);
    }

    method InsertAfter(before: Slot, data: Data, ghost at: nat) returns (pos: Slot)
      requires Valid() && at < |live| && live[at] == before
      modifies this
      ensures Valid() && live == Inserted(old(live), at + 1, pos) && pos !in old(live)
      ensures Values() == Inserted(old(Values()), at + 1, data)
    {
      hide Chained, ChainedForward, Distinct, Apart, DataIn, Allocated;
      var element := InsertNew();
      LinkedInChained(mem, live, free, at + 1, element, data);
      AllocatedInserted(live, at + 1, element, |live| + 1 + |free|, buffers, bufSize);
      ghost var w := LinkedIn(mem, live, at + 1, element, data);
      ElementAt(at);
      if at + 1 < |live| {
        ElementAt(at + 1);
      }
      var next := mem[before].next;
      mem := mem[element := Element(Some(before), next, data)];
      mem := mem[before := mem[before].(next := Some(element))];
      if next.Some? {
        mem := mem[next.value := mem[next.value].(prev := Some(element))];
      } else {
        tail := Some(element);
      }
      pos := element;
      assert mem == w;
      live := Inserted(live, at + 1, element);
    }

    method InsertBefore(after: Slot, data: Data, ghost at: nat) returns (pos: Slot)
      requires Valid() && at < |live| && live[at] == after
      modifies this
      ensures Valid() && live == Inserted(old(live), at, pos) && pos !in old(live)
      ensures Values() == Inserted(old(Values()), at, data)
    {
      hide Chained, ChainedForward, Distinct, Apart, DataIn, Allocated;
      var element := InsertNew();
      LinkedInChained(mem, live, free, at, element, data);
      AllocatedInserted(live, at, element, |live| + 1 + |free|, buffers, bufSize);
      ghost var w := LinkedIn(mem, live, at, element, data);
      ElementAt(at);
      if at > 0 {
        ElementAt(at - 1);
      }
      var prev := mem[after].prev;
      mem := mem[element := Element(prev, Some(after), data)];
      mem := mem[after := mem[after].(prev := Some(element))];
      if prev.Some? {
        mem := mem[prev.value := mem[prev.value].(next := Some(element))];
      } else {
        head := Some(element);
      }
      pos := element;
      assert mem == w;
      live := Inserted(live, at, element);
    }

    /** INSERT_FREE: an element that is linked out goes to the front of the free list. */
    method InsertFree(element: Slot)
      requires element in mem && element !in live && element !in free && headFree == At(free, 0)
      requires Chained(mem, live) && ChainedForward(mem, free) && Distinct(free) && Apart(live, free)
      modifies `headFree, `mem, `free
      ensures free == [element] + old(free) && headFree == At(free, 0) && Distinct(free) && Apart(live, free)
      ensures Chained(mem, live) && ChainedForward(mem, free) && DataIn(mem, live) == old(DataIn(mem, live))
    {
      if headFree.Some? {
        assert ForwardAt(mem, free, 0);
        mem := mem[headFree.value := mem[headFree.value].(prev := Some(element))];
      }
      mem := mem[element := mem[element].(next := headFree)];
      headFree := Some(element);
      ghost var all := [element] + free;
      forall j: nat | j < |all|
        ensures ForwardAt(mem, all, j)
      {
        assert j > 0 ==> ForwardAt(old(mem), old(free), j - 1);
      }
      forall i: nat | i < |live|
        ensures ChainedAt(mem, live, i) && DataAt(mem, live[i]) == old(DataAt(mem, live[i]))
      {
        assert ChainedAt(old(mem), live, i);
      }
      free := all;
    }

    method RemoveAt(element: Slot, ghost at: nat)
      requires Valid() && at < |live| && live[at] == element
      modifies this
      ensures Valid() && live == Removed(old(live), at) && free == [element] + old(free)
      ensures Values() == Removed(old(Values()), at) && buffers == old(buffers)
    {
      hide Chained, ChainedForward, Distinct, Apart, DataIn, Allocated;
      ghost var w := LinkedOut(mem, live, at);
      LinkedOutChained(mem, live, free, at);
      AllocatedRemoved(live, at, free, |live| + |free|, buffers, bufSize);
      ElementAt(at);
      if at > 0 {
        ElementAt(at - 1);
      }
      if at + 1 < |live| {
        ElementAt(at + 1);
      }
      var prev, next := mem[element].prev, mem[element].next;
      if prev.Some? {
        mem := mem[prev.value := mem[prev.value].(next := next)];
      } else {
        head := next;
      }
      if next.Some? {
        mem := mem[next.value := mem[next.value].(prev := prev)];
      } else {
        tail := prev;
      }
      assert mem == w;
      live := Removed(live, at);
      InsertFree(element);
      size := size - 1;
    }

    /** Removing at one end leaves the other end alone: that is right exactly when another
        element remains; after the last one is removed no sequence at all is represented. */
    method RemoveHead()
      requires Valid() && size > 0
      modifies this
      ensures old(size) >= 2 ==> Valid() && live == old(live)[1..] && Values() == old(Values())[1..]
      ensures old(size) == 1 ==> forall l, f :: !Represents(l, f)
    {
      hide Chained, ChainedForward, Distinct, Apart, DataIn, Allocated;
      var element := head.value;
      ghost var w := LinkedOut(mem, live, 0);
      LinkedOutChained(mem, live, free, 0);
      AllocatedRemoved(live, 0, free, |live| + |free|, buffers, bufSize);
      ElementAt(0);
      var next := mem[element].next;
      if next.Some? {
        ElementAt(1);
        mem := mem[next.value := mem[next.value].(prev := None)];
      }
      head := next;
      assert mem == w;
      live := Removed(live, 0);
      InsertFree(element);
      size := size - 1;
    }

    method RemoveTail()
      requires Valid() && size > 0
      modifies this
      ensures old(size) >= 2 ==> Valid() && live == Removed(old(live), |old(live)| - 1)
                                 && Values() == Removed(old(Values()), |old(live)| - 1)
      ensures old(size) == 1 ==> forall l, f :: !Represents(l, f)
    {
      hide Chained, ChainedForward, Distinct, Apart, DataIn, Allocated;
      var element := tail.value;
      ghost var at: nat := |live| - 1;
      ghost var w := LinkedOut(mem, live, at);
      LinkedOutChained(mem, live, free, at);
      AllocatedRemoved(live, at, free, |live| + |free|, buffers, bufSize);
      ElementAt(at);
      var prev := mem[element].prev;
      if prev.Some? {
        ElementAt(at - 1);
        mem := mem[prev.value := mem[prev.value].(next := None)];
      }
      tail := prev;
      assert mem == w;
      live := Removed(live, at);
      InsertFree(element);
      size := size - 1;
    }

    /** Copies as many bytes as a pointer has: the first field only. */
    method Set(pos: Slot, data: Data, ghost at: nat)
      requires Valid() && at < |live| && live[at] == pos
      modifies `mem
      ensures Valid() && Values() == old(Values())[at := old(Values())[at].(value := data.value)]
      ensures Values()[at] == data <==> old(Values())[at].rho == data.rho && old(Values())[at].theta == data.theta
    {
      ElementAt(at);
      ghost var before := DataIn(mem, live);
      mem := mem[pos := mem[pos].(data := mem[pos].data.(value := data.value))];
      forall i: nat | i < |live|
        ensures ChainedAt(mem, live, i)
        ensures DataAt(mem, live[i]) == before[at := before[at].(value := data.value)][i]
      {
        assert ChainedAt(old(mem), live, i);
      }
      forall j: nat | j < |free|
        ensures ForwardAt(mem, free, j)
      {
        assert ForwardAt(old(mem), free, j);
      }
    }

    /** Step forward: the data at a position, and the position behind it. */
    method GetNext(pos: Option<Slot>, ghost at: nat) returns (data: Option<Data>, next: Option<Slot>)
      requires Valid() && at <= |live| && pos == At(live, at)
      ensures data == (if at < |live| then Some(Values()[at]) else None)
      ensures at < |live| ==> next == At(live, at + 1)
    {
      if pos.Some? {
        ElementAt(at);
        data, next := Some(mem[pos.value].data), mem[pos.value].next;
      } else {
        data, next := None, pos;
      }
    }

    method GetPrev(pos: Option<Slot>, ghost at: int) returns (data: Option<Data>, prev: Option<Slot>)
      requires Valid() && -1 <= at < |live| && pos == At(live, at)
      ensures data == (if at >= 0 then Some(Values()[at]) else None)
      ensures at >= 0 ==> prev == At(live, at - 1)
    {
      if pos.Some? {
        ElementAt(at);
        data, prev := Some(mem[pos.value].data), mem[pos.value].prev;
      } else {
        data, prev := None, pos;
      }
    }

    /** Walking from the head reads off the whole contents. */
    method ReadAll() returns (all: seq<Data>)
      requires Valid()
      ensures all == Values() && |all| == size
    {
      all := [];
      var pos := head;
      while pos.Some?
        invariant |all| <= |live| && pos == At(live, |all|) && all == Values()[..|all|]
        decreases |live| - |all|
      {
        var data, next := GetNext(pos, |all|);
        all := all + [data.value];
        pos := next;
      }
    }
  }
}
