/** A fixed array used as a ring: one spare slot tells a full queue from an empty one. */
module CircularQueues {
  import opened Ring

  datatype Outcome<+T> = Ok(value: T) | Failed

  class CircularQueue<T(0)> {
    var capacity: nat       // number of slots: one more than the queue may hold
    var head: nat
    var end: nat
    var overrun: nat
    var elems: array<T>

    /** A queue with at most one slot holds nothing and never moves its indices. */
    ghost predicate Valid()
      reads this
    {
      if capacity > 1 then elems.Length == capacity && head < capacity && end < capacity
      else head == 0 && end == 0
    }

    ghost function Items(): (s: seq<T>)
      requires Valid()
      reads this, elems
      ensures |s| == Size()
    {
      if capacity <= 1 then [] else Window(elems[..], head, end)
    }

    ghost function Model(): (r: Ring<T>)
      requires Valid()
      reads this, elems
      ensures r.Valid()
    {
      Ring(Capacity(), Items(), overrun)
    }

    constructor Default()
      ensures Valid() && fresh(elems)
      ensures Model() == Ring(0, [], 0)
    {
      capacity, head, end, overrun := 0, 0, 0, 0;
      elems := new T[0];
    }

    constructor (requested: nat, fill: T)
      ensures Valid() && fresh(elems)
      ensures Model() == Ring(requested, [], 0)
      ensures elems.Length == capacity
      ensures forall k :: 0 <= k < elems.Length ==> elems[k] == fill
    {
      capacity := if requested > 0 then requested + 1 else 1;
      head, end, overrun := 0, 0, 0;
      elems := new T[if requested > 0 then requested + 1 else 1](_ => fill);
    }

    /** Move construction: the source is left without capacity but keeps its overrun count. */
    constructor Move(other: CircularQueue<T>)
      requires other.Valid()
      modifies other
      ensures Valid() && other.Valid()
      ensures Model() == old(other.Model())
      ensures other.Model() == Ring(0, [], old(other.overrun))
    {
      capacity, head, end, overrun := other.capacity, other.head, other.end, other.overrun;
      elems := other.elems;
      new;
      other.elems := new T[0];
      other.capacity, other.head, other.end := 1, 0, 0;
    }

    function Capacity(): nat
      reads this
    {
      if capacity > 1 then capacity - 1 else 0
    }

    function Size(): nat
      requires Valid()
      reads this
    {
      if head <= end then end - head else capacity - head + end
    }

    predicate Empty()
      requires Valid()
      reads this, elems
      ensures Empty() <==> Items() == []
    {
      head == end
    }

    predicate Full()
      requires Valid()
      reads this, elems
      ensures Full() <==> Model().Full()
    {
      capacity > 1 && Next(capacity, end) == head
    }

    /** The element `index` places behind the front, however often the ring has wrapped. */
    function At(index: nat): (r: Outcome<T>)
      requires Valid()
      reads this, elems
      ensures r == if index < |Items()| then Ok(Items()[index]) else Failed
    {
      if index >= Size() then Failed
      else
        WrapAdd(capacity, head, index);
        Ok(elems[(head + index) % capacity])
    }

    function Front(): (r: Outcome<T>)
      requires Valid()
      reads this, elems
      ensures r == if Items() == [] then Failed else Ok(Items()[0])
    {
      if Empty() then Failed else Ok(elems[head])
    }

    /** Also says which slot changes and where the indices go, so that a caller can follow
        what stays in the slots outside the live window. */
    method PushBack(x: T)
      requires Valid()
      modifies this`head, this`end, this`overrun, elems
      ensures Valid()
      ensures Model() == old(Model()).Push(x)
      ensures capacity > 1 ==> elems[..] == old(elems[..][end := x])
      ensures capacity > 1 ==> end == Next(capacity, old(end))
      ensures capacity > 1 ==> head == if old(Full()) then Next(capacity, old(head)) else old(head)
    {
      if capacity <= 1 {
        return;
      }
      ghost var slots, s := elems[..], Items();
      PushWindow(slots, head, end, x);
      elems[end] := x;
      assert elems[..] == slots[end := x];
      end := Next(capacity, end);
      if end == head {
        assert |s| == capacity - 1;
        head := Next(capacity, head);
        overrun := overrun + 1;
        assert Items() == s[1..] + [x];
      } else {
        assert |s| < capacity - 1;
        assert Items() == s + [x];
      }
    }

    /** Moving out of the reference that `front` returned leaves `hole` in the front slot. */
    method MoveOutFront(hole: T) returns (x: T)
      requires Valid() && Items() != []
      modifies elems
      ensures Valid() && x == old(Items()[0])
      ensures elems[..] == old(elems[..])[head := hole]
      ensures Items() == old(Items())[0 := hole]
    {
      x := elems[head];
      elems[head] := hole;
    }

    method PopFront() returns (r: Outcome<()>)
      requires Valid()
      modifies this`head
      ensures Valid()
      ensures old(Items()) == [] ==> r == Failed && Model() == old(Model())
      ensures old(Items()) != [] ==> r == Ok(()) && Model() == old(Model()).Pop()
      ensures old(Items()) != [] ==> head == Next(capacity, old(head))
    {
      if Empty() {
        return Failed;
      }
      head := Next(capacity, head);
      r := Ok(());
    }

    method Clear()
      requires Valid()
      modifies this`head, this`end, this`overrun
      ensures Valid() && Model() == Ring(old(Capacity()), [], 0)
    {
      head, end := 0, 0;
      overrun := 0;
    }

    method ResetCounter()
      requires Valid()
      modifies this`overrun
      ensures Valid() && Model() == old(Model()).(overrun := 0)
    {
      overrun := 0;
    }

    /** Move assignment. */
    method MoveAssign(other: CircularQueue<T>)
      requires Valid() && other.Valid()
      modifies this, other
      ensures Valid() && other.Valid()
      ensures this == other ==> Model() == old(Model())
      ensures this != other ==> Model() == old(other.Model())
      ensures this != other ==> other.Model() == Ring(0, [], old(other.overrun))
    {
      if this != other {
        elems := other.elems;
        head, end, overrun, capacity := other.head, other.end, other.overrun, other.capacity;
        other.elems := new T[0];
        other.capacity, other.head, other.end := 1, 0, 0;
      }
    }
  }

  /** The live part of the slots: from head up to end, going round at the last slot. */
  ghost function Window<T>(slots: seq<T>, head: nat, end: nat): (s: seq<T>)
    requires head < |slots| && end < |slots|
    ensures |s| == if head <= end then end - head else |slots| - head + end
  {
    if head <= end then slots[head..end] else slots[head..] + slots[..end]
  }

  /** Writing at end and stepping over it appends; stepping head as well drops the oldest. */
  lemma PushWindow<T>(slots: seq<T>, head: nat, end: nat, x: T)
    requires head < |slots| && end < |slots| && |slots| > 1
    ensures
      var next := Next(|slots|, end);
      var after := Next(|slots|, head);
      var s := Window(slots, head, end);
      if next == head
      then Window(slots[end := x], after, next) == s[1..] + [x] && slots[end := x][next] == s[0]
      else Window(slots[end := x], head, next) == s + [x]
  {
  }

  /** The slot after i. */
  function Next(capacity: nat, i: nat): (r: nat)
    requires i < capacity
    ensures r == if i + 1 == capacity then 0 else i + 1
  {
    (i + 1) % capacity
  }

  lemma WrapAdd(capacity: nat, i: nat, k: nat)
    requires i < capacity && k < capacity
    ensures (i + k) % capacity == if i + k < capacity then i + k else i + k - capacity
  {
    if i + k >= capacity {
      assert (i + k - capacity) % capacity == (i + k) % capacity;
    }
  }
}
