/** Producers and consumers asleep on the two condition variables of the blocking queue.
    A push or pop happens under the mutex; its notification comes after the mutex is free,
    so any number of other threads may run in between. */
module QueueWaiting {
  import opened BlockingQueues

  datatype Call<T> = Call(id: nat, elem: T)

  datatype Waiting<T(==)> = Waiting(
    q: Queue<T>,
    producers: set<Call<T>>,         // in a blocking enqueue, awake
    sleepingProducers: set<Call<T>>,
    consumers: set<nat>,             // in a dequeue, awake
    sleepingConsumers: set<nat>,
    pushSignals: nat,                // pushes whose notify_one is still to come
    popSignals: nat)

  datatype Event<T> =
    | CallEnqueue(p: Call<T>)
    | ProducerLooks(p: Call<T>)
    | ProducerWakes(p: Call<T>)
    | PushNoWait(x: T)
    | PushIfNotFull(x: T)
    | SignalPush(c: nat)
    | CallDequeue(c: nat)
    | ConsumerLooks(c: nat, deadlinePassed: bool)
    | ConsumerWakes(c: nat)
    | SignalPop(p: Call<T>)

  function Step<T(==)>(s: Waiting<T>, e: Event<T>): (s': Waiting<T>)
    requires s.q.Valid()
    ensures s'.q.Valid() && s'.q.ring.capacity == s.q.ring.capacity
  {
    match e
    case CallEnqueue(p) =>
      if p in s.sleepingProducers then s else s.(producers := s.producers + {p})
    case ProducerLooks(p) =>
      if p !in s.producers then s
      else if s.q.ring.Full() then
        s.(producers := s.producers - {p}, sleepingProducers := s.sleepingProducers + {p})
      else
        s.(q := s.q.Enqueue(p.elem), producers := s.producers - {p}, pushSignals := s.pushSignals + 1)
    case ProducerWakes(p) =>
      if p !in s.sleepingProducers then s
      else s.(producers := s.producers + {p}, sleepingProducers := s.sleepingProducers - {p})
    case PushNoWait(x) =>
      s.(q := s.q.EnqueueNoWait(x), pushSignals := s.pushSignals + 1)
    case PushIfNotFull(x) =>
      s.(q := s.q.EnqueueIfNotFull(x),
         pushSignals := if s.q.ring.Full() then s.pushSignals else s.pushSignals + 1)
    case SignalPush(c) =>
      if s.pushSignals == 0 then s
      else if s.sleepingConsumers == {} then s.(pushSignals := s.pushSignals - 1)
      else if c !in s.sleepingConsumers then s
      else s.(consumers := s.consumers + {c}, sleepingConsumers := s.sleepingConsumers - {c},
              pushSignals := s.pushSignals - 1)
    case CallDequeue(c) =>
      if c in s.sleepingConsumers then s else s.(consumers := s.consumers + {c})
    case ConsumerLooks(c, deadlinePassed) =>
      if c !in s.consumers then s
      else if s.q.ring.items != [] then
        s.(q := s.q.Dequeue(), consumers := s.consumers - {c}, popSignals := s.popSignals + 1)
      else if deadlinePassed then s.(consumers := s.consumers - {c})
      else s.(consumers := s.consumers - {c}, sleepingConsumers := s.sleepingConsumers + {c})
    case ConsumerWakes(c) =>
      if c !in s.sleepingConsumers then s
      else s.(consumers := s.consumers + {c}, sleepingConsumers := s.sleepingConsumers - {c})
    case SignalPop(p) =>
      if s.popSignals == 0 then s
      else if s.sleepingProducers == {} then s.(popSignals := s.popSignals - 1)
      else if p !in s.sleepingProducers then s
      else s.(producers := s.producers + {p}, sleepingProducers := s.sleepingProducers - {p},
              popSignals := s.popSignals - 1)
  }

  function Execute<T(==)>(s: Waiting<T>, events: seq<Event<T>>): (s': Waiting<T>)
    requires s.q.Valid()
    ensures s'.q.Valid() && s'.q.ring.capacity == s.q.ring.capacity
    decreases |events|
  {
    if events == [] then s else Execute(Step(s, events[0]), events[1..])
  }

  function Fresh<T(==)>(capacity: nat): Waiting<T> {
    Waiting(New(capacity), {}, {}, {}, {}, 0, 0)
  }

  /** Every element a sleeping consumer could take, and every place a sleeping producer
      could fill, has a signal on its way or an awake thread about to look. */
  ghost predicate NobodyForgotten<T>(s: Waiting<T>) {
    && s.q.Valid()
    && s.producers !! s.sleepingProducers
    && s.consumers !! s.sleepingConsumers
    && (s.sleepingConsumers != {} ==> |s.q.ring.items| <= s.pushSignals + |s.consumers|)
    && (s.sleepingProducers != {} ==> s.q.ring.capacity > 0)
    && (s.sleepingProducers != {} ==>
          s.q.ring.capacity - |s.q.ring.items| <= s.popSignals + |s.producers|)
  }

  lemma StepForgetsNobody<T>(s: Waiting<T>, e: Event<T>)
    requires NobodyForgotten(s)
    ensures NobodyForgotten(Step(s, e))
  {
    match e {
      case CallEnqueue(p) => ProducerForgetsNobody(s, e);
      case ProducerLooks(p) => ProducerForgetsNobody(s, e);
      case ProducerWakes(p) => ProducerForgetsNobody(s, e);
      case SignalPop(p) => ProducerForgetsNobody(s, e);
      case PushNoWait(x) => PushForgetsNobody(s, e);
      case PushIfNotFull(x) => PushForgetsNobody(s, e);
      case ConsumerLooks(c, _) => LookForgetsNobody(s, e);
      case _ => ConsumerForgetsNobody(s, e);
    }
  }

  lemma ProducerForgetsNobody<T>(s: Waiting<T>, e: Event<T>)
    requires NobodyForgotten(s) && (e.CallEnqueue? || e.ProducerLooks? || e.ProducerWakes? || e.SignalPop?)
    ensures NobodyForgotten(Step(s, e))
  {
    Members(s.producers, e.p);
  }

  lemma PushForgetsNobody<T>(s: Waiting<T>, e: Event<T>)
    requires NobodyForgotten(s) && (e.PushNoWait? || e.PushIfNotFull?)
    ensures NobodyForgotten(Step(s, e))
  {
  }

  lemma ConsumerForgetsNobody<T>(s: Waiting<T>, e: Event<T>)
    requires NobodyForgotten(s) && (e.CallDequeue? || e.ConsumerWakes? || e.SignalPush?)
    ensures NobodyForgotten(Step(s, e))
  {
    Members(s.consumers, e.c);
  }

  lemma LookForgetsNobody<T>(s: Waiting<T>, e: Event<T>)
    requires NobodyForgotten(s) && e.ConsumerLooks?
    ensures NobodyForgotten(Step(s, e))
  {
    Members(s.consumers, e.c);
  }

  lemma Members<X>(xs: set<X>, x: X)
    ensures |xs + {x}| == if x in xs then |xs| else |xs| + 1
    ensures |xs - {x}| == if x in xs then |xs| - 1 else |xs|
  {
    if x in xs {
      assert xs + {x} == xs;
    } else {
      assert xs - {x} == xs;
    }
  }

  lemma {:induction false} ExecuteForgetsNobody<T>(s: Waiting<T>, events: seq<Event<T>>)
    requires NobodyForgotten(s)
    ensures NobodyForgotten(Execute(s, events))
    decreases |events|
  {
    if events != [] {
      StepForgetsNobody(s, events[0]);
      ExecuteForgetsNobody(Step(s, events[0]), events[1..]);
    }
  }

  /** No lost wake-up on either condition variable: once every call has returned or fallen
      asleep and every signal is out, a consumer sleeps only on an empty queue, a producer
      only on a full one, and never both. */
  lemma NoLostQueueWakeup<T>(capacity: nat, events: seq<Event<T>>)
    ensures
      var s := Execute(Fresh<T>(capacity), events);
      s.producers == {} && s.consumers == {} && s.pushSignals == 0 && s.popSignals == 0 ==>
        && (s.sleepingConsumers != {} ==> s.q.ring.items == [])
        && (s.sleepingProducers != {} ==> s.q.ring.Full())
        && (s.sleepingConsumers == {} || s.sleepingProducers == {})
  {
    ExecuteForgetsNobody(Fresh<T>(capacity), events);
  }
}
