/** The value a circular queue stands for: a bounded sequence that drops its oldest
    element when it is pushed while full, and counts how often it did. */
module Ring {

  datatype Ring<T> = Ring(capacity: nat, items: seq<T>, overrun: nat) {

    predicate Valid() {
      |items| <= capacity
    }

    predicate Full() {
      capacity > 0 && |items| == capacity
    }

    function Push(x: T): (r: Ring<T>)
      requires Valid()
      ensures r.Valid() && r.capacity == capacity
    {
      if capacity == 0 then this
      else if Full() then Ring(capacity, items[1..] + [x], overrun + 1)
      else this.(items := items + [x])
    }

    function Pop(): (r: Ring<T>)
      requires Valid() && items != []
      ensures r.Valid() && r.capacity == capacity
    {
      this.(items := items[1..])
    }
  }

  function PushAll<T>(r: Ring<T>, xs: seq<T>): (r': Ring<T>)
    requires r.Valid()
    ensures r'.Valid() && r'.capacity == r.capacity
    decreases |xs|
  {
    if xs == [] then r else PushAll(r.Push(xs[0]), xs[1..])
  }

  /** The last n elements of s, or all of s when it is shorter. */
  function Last<T>(s: seq<T>, n: nat): seq<T> {
    if |s| <= n then s else s[|s| - n..]
  }

  /** Pushing xs leaves the newest elements of items + xs. Every element that no longer fits
      is counted as an overrun, except by a queue without capacity, which counts nothing. */
  lemma {:induction false} PushAllClosedForm<T>(r: Ring<T>, xs: seq<T>)
    requires r.Valid()
    ensures PushAll(r, xs).items == Last(r.items + xs, r.capacity)
    ensures
      var lost := |r.items| + |xs| - r.capacity;
      PushAll(r, xs).overrun == r.overrun + (if lost > 0 then lost else 0)
      <==> r.capacity > 0 || xs == []
    decreases |xs|
  {
    if xs == [] {
      assert r.items + xs == r.items;
    } else {
      var next := r.Push(xs[0]);
      PushAllClosedForm(next, xs[1..]);
      assert r.items + xs == r.items + [xs[0]] + xs[1..];
      if r.capacity == 0 {
        PushAllIntoNothing(r, xs);
      } else if r.Full() {
        assert (r.items + [xs[0]] + xs[1..])[1..] == next.items + xs[1..];
      }
    }
  }

  lemma {:induction false} PushAllIntoNothing<T>(r: Ring<T>, xs: seq<T>)
    requires r.Valid() && r.capacity == 0
    ensures PushAll(r, xs) == r
    decreases |xs|
  {
    if xs != [] {
      PushAllIntoNothing(r, xs[1..]);
    }
  }
}
