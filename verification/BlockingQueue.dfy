/** The blocking queue: a ring, a discard count, and the logs of what went in and out. */
module BlockingQueues {
  import opened Ring
  import opened CircularQueues

  /** How an element left the queue. */
  datatype Removal<T> = Dequeued(elem: T) | Overwritten(elem: T)

  datatype Queue<T> = Queue(ring: Ring<T>, discarded: nat, pushed: seq<T>, removed: seq<Removal<T>>) {

    predicate Valid() {
      ring.Valid()
    }

    function EnqueueNoWait(x: T): (q: Queue<T>)
      requires Valid()
      ensures q.Valid() && q.ring.capacity == ring.capacity
    {
      Queue(ring.Push(x), discarded, pushed + [x],
            if ring.Full() then removed + [Overwritten(ring.items[0])] else removed)
    }

    /** A producer that finds the queue full goes on waiting. */
    function Enqueue(x: T): (q: Queue<T>)
      requires Valid()
      ensures q.Valid() && q.ring.capacity == ring.capacity
    {
      if ring.Full() then this else EnqueueNoWait(x)
    }

    function EnqueueIfNotFull(x: T): (q: Queue<T>)
      requires Valid()
      ensures q.Valid() && q.ring.capacity == ring.capacity
    {
      if ring.Full() then this.(discarded := discarded + 1) else EnqueueNoWait(x)
    }

    /** A consumer that finds the queue empty goes on waiting, or gives up at its deadline. */
    function Dequeue(): (q: Queue<T>)
      requires Valid()
      ensures q.Valid() && q.ring.capacity == ring.capacity
    {
      if ring.items == [] then this
      else this.(ring := ring.Pop(), removed := removed + [Dequeued(ring.items[0])])
    }
  }

  function New<T>(capacity: nat): Queue<T> {
    Queue(Ring(capacity, [], 0), 0, [], [])
  }

  function Elems<T>(removed: seq<Removal<T>>): seq<T> {
    if removed == [] then [] else Elems(removed[..|removed| - 1]) + [removed[|removed| - 1].elem]
  }

  function Taken<T>(removed: seq<Removal<T>>): seq<T> {
    if removed == [] then []
    else
      var last := removed[|removed| - 1];
      Taken(removed[..|removed| - 1]) + (if last.Dequeued? then [last.elem] else [])
  }

  function Lost<T>(removed: seq<Removal<T>>): seq<T> {
    if removed == [] then []
    else
      var last := removed[|removed| - 1];
      Lost(removed[..|removed| - 1]) + (if last.Overwritten? then [last.elem] else [])
  }

  lemma ElemsSnoc<T>(removed: seq<Removal<T>>, r: Removal<T>)
    ensures Elems(removed + [r]) == Elems(removed) + [r.elem]
    ensures Taken(removed + [r]) == Taken(removed) + (if r.Dequeued? then [r.elem] else [])
    ensures Lost(removed + [r]) == Lost(removed) + (if r.Overwritten? then [r.elem] else [])
  {
    assert (removed + [r])[..|removed|] == removed;
  }

  lemma {:induction false} RemovalsCounted<T>(removed: seq<Removal<T>>)
    ensures |Elems(removed)| == |Taken(removed)| + |Lost(removed)|
    ensures Lost(removed) == [] ==> Taken(removed) == Elems(removed)
  {
    if removed != [] {
      RemovalsCounted(removed[..|removed| - 1]);
    }
  }

  /** Every removal was a dequeue or an overwriting. */
  lemma {:induction false} RemovalsSplit<T>(removed: seq<Removal<T>>)
    ensures |Elems(removed)| == |Taken(removed)| + |Lost(removed)|
    ensures multiset(Elems(removed)) == multiset(Taken(removed)) + multiset(Lost(removed))
    ensures Lost(removed) == [] ==> Taken(removed) == Elems(removed)
  {
    RemovalsCounted(removed);
    if removed != [] {
      RemovalsSplit(removed[..|removed| - 1]);
    }
  }

  /** What was pushed is what left, in order, followed by what is still there, and the
      overrun count is the number of overwritten elements. */
  ghost predicate Linear<T>(q: Queue<T>) {
    && q.pushed == Elems(q.removed) + q.ring.items
    && q.ring.overrun == |Lost(q.removed)|
  }

  lemma EnqueueLinear<T>(q: Queue<T>, x: T)
    requires q.Valid() && Linear(q) && q.ring.capacity > 0
    ensures Linear(q.EnqueueNoWait(x))
  {
    if q.ring.Full() {
      ElemsSnoc(q.removed, Overwritten(q.ring.items[0]));
      assert q.ring.items == [q.ring.items[0]] + q.ring.items[1..];
    }
  }

  lemma DequeueLinear<T>(q: Queue<T>)
    requires q.Valid() && Linear(q)
    ensures Linear(q.Dequeue())
  {
    if q.ring.items != [] {
      ElemsSnoc(q.removed, Dequeued(q.ring.items[0]));
      assert q.ring.items == [q.ring.items[0]] + q.ring.items[1..];
    }
  }

  datatype Op<T> =
    | OpEnqueue(x: T)
    | OpEnqueueNoWait(x: T)
    | OpEnqueueIfNotFull(x: T)
    | OpDequeue
    | OpDequeueWaitFor

  function Apply<T>(q: Queue<T>, op: Op<T>): (q': Queue<T>)
    requires q.Valid()
    ensures q'.Valid() && q'.ring.capacity == q.ring.capacity
  {
    match op
    case OpEnqueue(x) => q.Enqueue(x)
    case OpEnqueueNoWait(x) => q.EnqueueNoWait(x)
    case OpEnqueueIfNotFull(x) => q.EnqueueIfNotFull(x)
    case OpDequeue => q.Dequeue()
    case OpDequeueWaitFor => q.Dequeue()
  }

  /** The critical sections of the five operations, in the order the mutex admits them. */
  function Run<T>(q: Queue<T>, ops: seq<Op<T>>): (q': Queue<T>)
    requires q.Valid()
    ensures q'.Valid() && q'.ring.capacity == q.ring.capacity
    decreases |ops|
  {
    if ops == [] then q else Run(Apply(q, ops[0]), ops[1..])
  }

  lemma {:induction false} RunLinear<T>(q: Queue<T>, ops: seq<Op<T>>)
    requires q.Valid() && Linear(q) && q.ring.capacity > 0
    ensures Linear(Run(q, ops))
    decreases |ops|
  {
    if ops != [] {
      match ops[0] {
        case OpEnqueue(x) => EnqueueLinear(q, x);
        case OpEnqueueNoWait(x) => EnqueueLinear(q, x);
        case OpEnqueueIfNotFull(x) => EnqueueLinear(q, x);
        case OpDequeue => DequeueLinear(q);
        case OpDequeueWaitFor => DequeueLinear(q);
      }
      RunLinear(Apply(q, ops[0]), ops[1..]);
    }
  }

  lemma {:induction false} RunWithoutCapacity<T>(q: Queue<T>, ops: seq<Op<T>>)
    requires q.ring == Ring(0, [], 0) && q.removed == []
    ensures Run(q, ops).ring == q.ring && Run(q, ops).removed == []
    decreases |ops|
  {
    if ops != [] {
      RunWithoutCapacity(Apply(q, ops[0]), ops[1..]);
    }
  }

  /** A queue with capacity keeps the law over every interleaving; one without accepts
      elements and drops them unseen, so it keeps the law only until its first push. */
  lemma LinearisableIff<T>(capacity: nat, ops: seq<Op<T>>)
    ensures
      var q := Run(New(capacity), ops);
      Linear(q) <==> capacity > 0 || q.pushed == []
  {
    if capacity > 0 {
      RunLinear(New(capacity), ops);
    } else {
      RunWithoutCapacity(New(capacity), ops);
    }
  }

  lemma {:induction false} RunWithoutOverwriting<T>(q: Queue<T>, ops: seq<Op<T>>)
    requires q.Valid() && Lost(q.removed) == [] && Taken(q.removed) == Elems(q.removed)
    requires forall op <- ops :: !op.OpEnqueueNoWait?
    ensures
      var q' := Run(q, ops);
      Lost(q'.removed) == [] && Taken(q'.removed) == Elems(q'.removed)
    decreases |ops|
  {
    if ops != [] {
      var op := ops[0];
      if (op.OpDequeue? || op.OpDequeueWaitFor?) && q.ring.items != [] {
        ElemsSnoc(q.removed, Dequeued(q.ring.items[0]));
      }
      assert op in ops && forall o <- ops[1..] :: o in ops;
      RunWithoutOverwriting(Apply(q, op), ops[1..]);
    }
  }

  /** Without the overwriting enqueue nothing is lost and consumers see a prefix of the
      accepted elements: first in, first out. */
  lemma FirstInFirstOut<T>(capacity: nat, ops: seq<Op<T>>)
    requires capacity > 0 && forall op <- ops :: !op.OpEnqueueNoWait?
    ensures
      var q := Run(New(capacity), ops);
      q.ring.overrun == 0 && Taken(q.removed) + q.ring.items == q.pushed
  {
    RunLinear(New(capacity), ops);
    RunWithoutOverwriting(New(capacity), ops);
  }

  /** How many times enqueueIfNotFull meets a full queue. */
  function Refusals<T>(q: Queue<T>, ops: seq<Op<T>>): nat
    requires q.Valid()
    decreases |ops|
  {
    if ops == [] then 0
    else (if ops[0].OpEnqueueIfNotFull? && q.ring.Full() then 1 else 0) + Refusals(Apply(q, ops[0]), ops[1..])
  }

  /** The discard count is the number of refused enqueueIfNotFull calls, over every interleaving. */
  lemma {:induction false} DiscardsCounted<T>(q: Queue<T>, ops: seq<Op<T>>)
    requires q.Valid()
    ensures Run(q, ops).discarded == q.discarded + Refusals(q, ops)
    decreases |ops|
  {
    if ops != [] {
      DiscardsCounted(Apply(q, ops[0]), ops[1..]);
    }
  }

  /** Each method is one pass through a critical section; a waiting thread is told to
      wait and tries again. `hole` is what a slot holds after its element is moved out. */
  class MPMCBlockingQueue<T(0)> {
    const ring: CircularQueue<T>
    const hole: T
    var discardCount: nat
    ghost var pushed: seq<T>
    ghost var removed: seq<Removal<T>>

    ghost predicate Valid()
      reads this, ring, ring.elems
    {
      ring.Valid() && (ring.capacity > 1 ==> Tidy(ring.elems[..], ring.head, ring.end, hole, Lost(removed)))
    }

    ghost function Model(): (q: Queue<T>)
      requires ring.Valid()
      reads this, ring, ring.elems
      ensures q.Valid()
    {
      Queue(ring.Model(), discardCount, pushed, removed)
    }

    constructor (maxElems: nat, hole: T)
      ensures Valid() && fresh(ring) && fresh(ring.elems)
      ensures Model() == New(maxElems)
    {
      ring := new CircularQueue<T>(maxElems, hole);
      this.hole := hole;
      discardCount := 0;
      pushed, removed := [], [];
    }

    method Size() returns (n: nat)
      requires Valid()
      ensures n == |Model().ring.items|
    {
      n := ring.Size();
    }

    method Push(x: T)
      requires Valid()
      modifies this`pushed, this`removed, ring, ring.elems
      ensures Valid() && ring.elems == old(ring.elems)
      ensures Model() == old(Model()).EnqueueNoWait(x)
      ensures !old(ring.Full()) && ring.capacity > 1 ==> ring.elems[ring.end] == hole
    {
      ghost var full := ring.Full();
      pushed := pushed + [x];
      if ring.capacity > 1 {
        TidyPush(ring.elems[..], ring.head, ring.end, hole, Lost(removed), x);
      }
      if full {
        ElemsSnoc(removed, Overwritten(ring.elems[ring.head]));
        removed := removed + [Overwritten(ring.elems[ring.head])];
      }
      ring.PushBack(x);
    }

    /** False tells the producer to wait for room. */
    method Enqueue(x: T) returns (done: bool)
      requires Valid()
      modifies this`pushed, this`removed, ring, ring.elems
      ensures Valid() && ring.elems == old(ring.elems)
      ensures done <==> !old(ring.Full())
      ensures Model() == old(Model()).Enqueue(x)
    {
      done := !ring.Full();
      if done {
        Push(x);
      }
    }

    method EnqueueNoWait(x: T)
      requires Valid()
      modifies this`pushed, this`removed, ring, ring.elems
      ensures Valid() && ring.elems == old(ring.elems)
      ensures Model() == old(Model()).EnqueueNoWait(x)
    {
      Push(x);
    }

    method EnqueueIfNotFull(x: T) returns (accepted: bool)
      requires Valid()
      modifies this, ring, ring.elems
      ensures Valid() && ring.elems == old(ring.elems)
      ensures accepted <==> !old(ring.Full())
      ensures Model() == old(Model()).EnqueueIfNotFull(x)
    {
      accepted := !ring.Full();
      if accepted {
        Push(x);
      } else {
        discardCount := discardCount + 1;
      }
    }

    /** None tells the consumer to wait for an element, or to give up at its deadline. */
    method Dequeue() returns (x: Outcome<T>)
      requires Valid()
      modifies this`removed, ring, ring.elems
      ensures Valid() && ring.elems == old(ring.elems)
      ensures x == old(ring.Front())
      ensures Model() == old(Model()).Dequeue()
    {
      if ring.Empty() {
        return Failed;
      }
      TidyPop(ring.elems[..], ring.head, ring.end, hole, Lost(removed));
      var front := TakeFront();
      ElemsSnoc(removed, Dequeued(front));
      removed := removed + [Dequeued(front)];
      x := Ok(front);
    }

    /** Moves the front element out and steps over its slot. */
    method TakeFront() returns (x: T)
      requires ring.Valid() && ring.Items() != []
      modifies ring, ring.elems
      ensures ring.Valid() && ring.elems == old(ring.elems) && ring.end == old(ring.end)
      ensures x == old(ring.Items()[0]) && ring.Model() == old(ring.Model()).Pop()
      ensures ring.elems[..] == old(ring.elems[..][ring.head := hole])
      ensures ring.head == Next(ring.capacity, old(ring.head)) && ring.capacity == old(ring.capacity)
    {
      ghost var items := ring.Items();
      x := ring.MoveOutFront(hole);
      assert ring.Items()[1..] == items[1..];
      var _ := ring.PopFront();
    }
  }

  ghost predicate InWindow(k: nat, head: nat, end: nat) {
    if head <= end then head <= k < end else k < end || head <= k
  }

  /** No slot outside the live window owns an element, except that the spare slot may still
      own the element overwritten last. */
  ghost predicate Tidy<T>(slots: seq<T>, head: nat, end: nat, hole: T, lost: seq<T>)
    requires head < |slots| && end < |slots|
  {
    && (forall k :: 0 <= k < |slots| && !InWindow(k, head, end) && k != end ==> slots[k] == hole)
    && (slots[end] == hole || (lost != [] && slots[end] == lost[|lost| - 1]))
  }

  /** The next push destroys whatever the spare slot still owned. */
  lemma TidyPush<T>(slots: seq<T>, head: nat, end: nat, hole: T, lost: seq<T>, x: T)
    requires head < |slots| && end < |slots| && |slots| > 1
    requires Tidy(slots, head, end, hole, lost)
    ensures
      var next := Next(|slots|, end);
      if next == head
      then Tidy(slots[end := x], Next(|slots|, head), next, hole, lost + [slots[head]])
      else Tidy(slots[end := x], head, next, hole, lost) && slots[end := x][next] == hole
  {
  }

  lemma TidyPop<T>(slots: seq<T>, head: nat, end: nat, hole: T, lost: seq<T>)
    requires head < |slots| && end < |slots| && head != end
    requires Tidy(slots, head, end, hole, lost)
    ensures Tidy(slots[head := hole], Next(|slots|, head), end, hole, lost)
  {
  }
}
