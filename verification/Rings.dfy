/** A single-producer single-consumer ring, with both index words unbounded.
    It is what the 32-bit ring in module Uqueues is proved to implement. */
module Rings {
  import opened Words

  /** log:      every item ever published, oldest first; its length is the published producer index
      staged:   items the producer has put in slots but not yet published
      taken:    how many items the consumer has read out of their slots
      released: the published consumer index: how many slots have been handed back
      seen:     the user's stale copy of the kernel's index (`released` where the user produces,
                the length of `log` where the user consumes) */
  datatype Ring<T> = Ring(log: seq<T>, staged: seq<T>, taken: nat, released: nat, seen: nat) {

    /** One past the last slot position written. */
    function Tail(): nat {
      |log| + |staged|
    }

    /** What both parties together keep. */
    predicate Ok(size: nat) {
      released <= taken <= |log| && Tail() <= released + size
    }

    /** ... and what the user keeps on a ring it fills: fill ring and tx ring. */
    predicate ProducerOk(size: nat) {
      Ok(size) && seen <= released && Tail() <= seen + size
    }

    /** ... and on a ring it drains: completion ring and rx ring. */
    predicate ConsumerOk(size: nat) {
      Ok(size) && taken <= seen <= |log|
    }

    /** Items in the ring that the consumer has not read, oldest first. */
    function InFlight(): seq<T>
      requires taken <= |log|
    {
      (log + staged)[taken..]
    }

    /** Slots free by the user's stale count. */
    function Free(size: nat): int {
      seen + size - Tail()
    }

    /** After asking for room for nb items: the stale count is refreshed only when it is too small. */
    function AskedFree(size: nat, nb: nat): Ring<T> {
      if Free(size) >= nb then this else this.(seen := released)
    }

    /** After asking how many items are available: refreshed only when the stale count is zero. */
    function AskedAvail(): Ring<T> {
      if seen == taken then this.(seen := |log|) else this
    }

    /** How many items may be read out after AskedAvail. */
    function Avail(nb: nat): nat {
      if seen < taken then 0 else if seen - taken > nb then nb else seen - taken
    }

    function Stage(x: T): Ring<T> {
      this.(staged := staged + [x])
    }

    function Publish(): Ring<T> {
      this.(log := log + staged, staged := [])
    }

    function Take(): Ring<T> {
      this.(taken := taken + 1)
    }

    function Release(n: nat): Ring<T> {
      this.(released := n)
    }
  }

  function Empty<T>(): Ring<T> {
    Ring([], [], 0, 0, 0)
  }

  /** The kernel has read and handed back any number of slots of a ring the user fills. */
  predicate KernelConsumed<T(==)>(a: Ring<T>, b: Ring<T>) {
    b.log == a.log && b.staged == a.staged && b.seen == a.seen
    && a.taken <= b.taken && a.released <= b.released
  }

  /** The kernel has put any number of items into a ring the user drains. */
  predicate KernelProduced<T(==)>(a: Ring<T>, b: Ring<T>) {
    a.log <= b.log && b.taken == a.taken && b.released == a.released && b.seen == a.seen
  }

  /** Of at most most items to be read out of r, n is as many as the user knew to be there, or, if that was
      none, at least as many as were there. */
  predicate Enough<T(==)>(r: Ring<T>, n: nat, most: nat) {
    if r.seen > r.taken then n == Min(most, r.seen - r.taken) else n >= most || n >= |r.log| - r.taken
  }

  /** Between r and r' the user has read out the oldest unread items, out: no more than most of them, and no
      fewer than it had to. */
  predicate Drained<T(==)>(r: Ring<T>, r': Ring<T>, out: seq<T>, most: nat) {
    r.taken <= r'.taken <= |r'.log| && r.log <= r'.log && out == r'.log[r.taken..r'.taken]
    && |out| <= most && Enough(r, |out|, most)
  }

  /** Between r and r' the user has published the items behind all others, or, for want of room, none. */
  predicate Filled<T(==)>(r: Ring<T>, r': Ring<T>, items: seq<T>, size: nat) {
    r'.log == r.log + items || (r'.log == r.log && |r.log| + |items| > r.released + size)
  }

  lemma StageInFlight<T>(r: Ring<T>, x: T, size: nat)
    requires r.Ok(size)
    ensures r.Stage(x).InFlight() == r.InFlight() + [x]
    ensures r.Publish().InFlight() == r.InFlight()
  {
    assert (r.log + (r.staged + [x])) == (r.log + r.staged) + [x];
    assert r.log + r.staged + [] == r.log + r.staged;
  }

  lemma TakeInFlight<T>(r: Ring<T>, size: nat)
    requires r.Ok(size) && r.taken < |r.log|
    ensures [r.log[r.taken]] + r.Take().InFlight() == r.InFlight()
  {
  }
}
