/** The circular buffer behind the mixed queue, the flow queues, the deferred
    queues and the relay's egress queues. */
module RingBuffer {
  import opened Arith

  datatype Cell<T> = Vacant | Holding(item: T)

  /** The position i places after head. */
  function Place(head: nat, cap: nat, i: nat): (p: nat)
    requires head < cap && i <= cap
    ensures p < cap
  {
    if head + i < cap then head + i else head + i - cap
  }

  lemma Wraps(x: nat, cap: nat)
    requires 0 < cap && x < 2 * cap
    ensures x % cap == if x < cap then x else x - cap
  {
    if x < cap { DivModOf(0, x, cap); } else { DivModOf(1, x - cap, cap); }
  }

  ghost predicate RingOk<T>(cells: seq<Cell<T>>, head: nat, tail: nat, count: nat) {
    head < |cells| && count <= |cells| && tail == Place(head, |cells|, count) &&
    forall i :: 0 <= i < count ==> cells[Place(head, |cells|, i)].Holding?
  }

  ghost function Items<T>(cells: seq<Cell<T>>, head: nat, tail: nat, count: nat): (q: seq<T>)
    requires RingOk(cells, head, tail, count)
  {
    seq(count, i requires 0 <= i < count => cells[Place(head, |cells|, i)].item)
  }

  lemma AddLast<T>(cells: seq<Cell<T>>, head: nat, tail: nat, count: nat, item: T)
    requires RingOk(cells, head, tail, count) && count < |cells|
    ensures var cells', tail' := cells[tail := Holding(item)], (tail + 1) % |cells|;
            RingOk(cells', head, tail', count + 1) && Items(cells', head, tail', count + 1) == Items(cells, head, tail, count) + [item]
  {
    Wraps(tail + 1, |cells|);
  }

  lemma AddFirst<T>(cells: seq<Cell<T>>, head: nat, tail: nat, count: nat, item: T)
    requires RingOk(cells, head, tail, count) && count < |cells|
    ensures var head' := (head + |cells| - 1) % |cells|;
            var cells' := cells[head' := Holding(item)];
            RingOk(cells', head', tail, count + 1) && Items(cells', head', tail, count + 1) == [item] + Items(cells, head, tail, count)
  {
    Wraps(head + |cells| - 1, |cells|);
    var head' := (head + |cells| - 1) % |cells|;
    var cells' := cells[head' := Holding(item)];
    forall i | 0 < i < count + 1 ensures cells'[Place(head', |cells|, i)] == cells[Place(head, |cells|, i - 1)] {
    }
    var q, r := Items(cells, head, tail, count), Items(cells', head', tail, count + 1);
    forall i | 0 < i < |r| ensures r[i] == ([item] + q)[i] {
      assert ([item] + q)[i] == q[i - 1];
    }
  }

  lemma DropFirst<T>(cells: seq<Cell<T>>, head: nat, tail: nat, count: nat)
    requires RingOk(cells, head, tail, count) && count > 0
    ensures cells[head] == Holding(Items(cells, head, tail, count)[0])
    ensures var cells', head' := cells[head := Vacant], (head + 1) % |cells|;
            RingOk(cells', head', tail, count - 1) && Items(cells', head', tail, count - 1) == Items(cells, head, tail, count)[1..]
  {
    Wraps(head + 1, |cells|);
    assert Place(head, |cells|, 0) == head;
    var cells', head' := cells[head := Vacant], (head + 1) % |cells|;
    forall i | 0 <= i < count - 1 ensures cells'[Place(head', |cells|, i)] == cells[Place(head, |cells|, i + 1)] {
    }
  }

  class Ring<T(0)> {
    const slots: array<Cell<T>>
    var head: nat
    var tail: nat
    var count: nat
    var shutdown: bool

    ghost predicate Valid()
      reads this, slots
    {
      RingOk(slots[..], head, tail, count)
    }

    ghost function Contents(): (q: seq<T>)
      reads this, slots
      requires Valid()
    {
      Items(slots[..], head, tail, count)
    }

    constructor (capacity: nat)
      requires capacity > 0
      ensures Valid() && Contents() == [] && slots.Length == capacity && !shutdown && fresh(slots)
    {
      slots := new Cell<T>[capacity](i => Vacant);
      head, tail, count, shutdown := 0, 0, 0, false;
    }

    /** try_enqueue: at the tail, or in front when the packet prefers the head. */
    method Enqueue(item: T, preferHead: bool) returns (ok: bool)
      requires Valid()
      modifies this`head, this`tail, this`count, slots
      ensures Valid() && ok == (!shutdown && |old(Contents())| < slots.Length)
      ensures Contents() == if !ok then old(Contents()) else if preferHead then [item] + old(Contents()) else old(Contents()) + [item]
    {
      hide Place, Items;
      SizeOf();
      if shutdown || count == slots.Length {
        return false;
      }
      if preferHead {
        AddFirst(slots[..], head, tail, count, item);
        head := (head + slots.Length - 1) % slots.Length;
        slots[head] := Holding(item);
      } else {
        AddLast(slots[..], head, tail, count, item);
        slots[tail] := Holding(item);
        tail := (tail + 1) % slots.Length;
      }
      count := count + 1;
      return true;
    }

    lemma SizeOf()
      requires Valid()
      ensures |Contents()| == count
    {}

    /** try_dequeue: the oldest item, or nothing. */
    method Dequeue() returns (out: Cell<T>)
      requires Valid()
      modifies this`head, this`count, slots
      ensures Valid() && out == if |old(Contents())| == 0 then Vacant else Holding(old(Contents())[0])
      ensures Contents() == if |old(Contents())| == 0 then [] else old(Contents())[1..]
    {
      hide Place, Items;
      SizeOf();
      if count == 0 {
        return Vacant;
      }
      DropFirst(slots[..], head, tail, count);
      out := slots[head];
      slots[head] := Vacant;
      head := (head + 1) % slots.Length;
      count := count - 1;
    }

    /** try_dequeue_batch and try_pop_batch: up to max items, in order. */
    method DequeueBatch(max: nat) returns (out: seq<T>)
      requires Valid()
      modifies this`head, this`count, slots
      ensures Valid() && out + Contents() == old(Contents())
      ensures |out| == if |old(Contents())| < max then |old(Contents())| else max
    {
      hide Place, Items;
      out := [];
      SizeOf();
      while |out| < max && count > 0
        invariant Valid() && out + Contents() == old(Contents()) && |out| <= max && |Contents()| == count
        decreases count
      {
        var cell := Dequeue();
        out := out + [cell.item];
        SizeOf();
      }
    }
  }
}
