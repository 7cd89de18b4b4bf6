/** The user side of one AF_XDP ring: `struct xdp_umem_uqueue` and `struct xdp_uqueue`, which
    differ only in the element type T. The kernel may act between any two accesses to the words
    and slots it shares; a store to an index word is one atomic, immediately visible step. */
module Uqueues {
  import opened Words
  import opened Rings

  /** Every slot from the published consumer index to the last one written holds its item. */
  ghost predicate SlotsHold<T(!new)>(slots: seq<T>, r: Ring<T>) {
    |slots| > 0 && forall j :: r.released <= j < r.Tail() ==> slots[SlotOf(j, |slots|)] == (r.log + r.staged)[j]
  }

  /** The slot of the j-th item ever put in the ring. */
  function SlotOf(j: nat, size: nat): (i: nat)
    requires size > 0
    ensures i < size
  {
    if j < size then j else SlotOf(j - size, size)
  }

  lemma {:induction false} SlotIsModulo(j: nat, size: nat)
    requires size > 0
    ensures SlotOf(j, size) == j % size
  {
    if j < size {
      RemainderUnique(j, size, 0, j);
    } else {
      SlotIsModulo(j - size, size);
      DivMod(j - size, size);
      Distribute((j - size) / size, 1, size);
      RemainderUnique(j, size, (j - size) / size + 1, (j - size) % size);
    }
  }

  /** `counter & mask`, for a wrapped counter, is the slot of the unbounded one. */
  method Mask(counter: u32, mask: u32, ghost j: nat, ghost k: nat) returns (idx: u32)
    requires k < 32 && counter == Wrap(j) && mask == Pow2(k) - 1
    ensures idx == SlotOf(j, Pow2(k))
  {
    MaskIsModulo(counter, k);
    WrapKeepsSlot(j, k);
    SlotIsModulo(j, Pow2(k));
    SizeFits(k);
    idx := And(counter, mask);
  }

  /** The slot about to be written is none of those the other party may still read. */
  lemma WriteIsSafe<T(!new)>(slots: seq<T>, r: Ring<T>, x: T)
    requires r.Ok(|slots|) && r.Tail() < r.released + |slots|
    requires SlotsHold(slots, r)
    ensures forall j :: r.released <= j < r.Tail() ==> SlotOf(j, |slots|) != SlotOf(r.Tail(), |slots|)
    ensures SlotsHold(slots[SlotOf(r.Tail(), |slots|) := x], r.Stage(x))
  {
    forall j | r.released <= j < r.Tail() ensures SlotOf(j, |slots|) != SlotOf(r.Tail(), |slots|) {
      DistinctSlots(j, r.Tail(), |slots|);
      SlotIsModulo(j, |slots|);
      SlotIsModulo(r.Tail(), |slots|);
    }
  }

  /** Publishing, reading and releasing leave the slots as they are. */
  lemma SlotsStay<T(!new)>(slots: seq<T>, r: Ring<T>, n: nat)
    requires r.Ok(|slots|) && SlotsHold(slots, r) && r.released <= n
    ensures SlotsHold(slots, r.Publish()) && r.Publish().Tail() == r.Tail()
    ensures SlotsHold(slots, r.Release(n))
  {
    assert r.log + r.staged + [] == r.log + r.staged;
  }

  class Uqueue<T(0,!new)> {
    var cachedProd: u32
    var cachedCons: u32
    const mask: u32
    const size: u32
    /** The words and the slots shared with the kernel. */
    var producer: u32
    var consumer: u32
    const ring: array<T>
    /** The kernel's private position: the next slot it reads, or the next one it writes. */
    var kernelPos: u32
    ghost const order: nat
    /** The unbounded ring this one stands for. */
    ghost var model: Ring<T>
    /** Every value the shared word the user writes has ever held, oldest first, as an unbounded index: the
        kernel never reads another. */
    ghost var stores: seq<nat>

    ghost predicate Shared()
      reads this, ring
    {
      order < 32 && size == Pow2(order) && mask == size - 1 && ring.Length == size
      && producer == Wrap(|model.log|)
      && consumer == Wrap(model.released)
      && model.Ok(size) && SlotsHold(ring[..], model)
    }

    /** Used as a fill or tx ring. cachedCons runs one ring size ahead of the consumer index. */
    ghost predicate Fills()
      reads this, ring
    {
      Shared() && model.ProducerOk(size)
      && cachedProd == Wrap(model.Tail())
      && cachedCons == Wrap(model.seen + size)
      && kernelPos == Wrap(model.taken)
      && stores != [] && stores[|stores| - 1] == |model.log|
    }

    /** Used as a completion or rx ring. */
    ghost predicate Drains()
      reads this, ring
    {
      Shared() && model.ConsumerOk(size)
      && cachedCons == Wrap(model.taken)
      && cachedProd == Wrap(model.seen)
      && kernelPos == Wrap(model.Tail())
      && stores != [] && stores[|stores| - 1] == model.released
    }

    /** A mapped ring: the shared words and the cached words are zero, except that where the user
        fills, cached_cons starts at the ring size. */
    constructor (k: nat, fills: bool)
      requires k < 32
      ensures fills ==> Fills()
      ensures !fills ==> Drains()
      ensures size == Pow2(k) && model == Empty() && stores == [0] && fresh(ring)
    {
      hide Pow2;
      order := k;
      SizeFits(k);
      size := Pow2(k);
      mask := Pow2(k) - 1;
      cachedProd := 0;
      cachedCons := if fills then Pow2(k) else 0;
      producer := 0;
      consumer := 0;
      kernelPos := 0;
      ring := new T[Pow2(k)];
      model := Empty();
      stores := [0];
    }

    /** The kernel, as the consumer: any number of reads of published slots, and any number of
        publications of how far it has read. */
    method KernelConsumes()
      requires Fills()
      modifies this`consumer, this`kernelPos, this`model
      ensures Fills() && KernelConsumed(old(model), model)
    {
      hide Wrap, Pow2, SlotOf;
      var steps: nat := *;
      while steps > 0
        invariant Fills() && KernelConsumed(old(model), model)
      {
        var reading: bool := *;
        if reading && kernelPos != producer {
          var idx := Mask(kernelPos, mask, model.taken, order);
          var x := ring[idx];
          assert x == model.log[model.taken];   // the kernel reads what the user published
          AdvanceWrapped(model.taken, 1);
          kernelPos := Plus(kernelPos, 1);
          model := model.Take();
        } else if !reading {
          SlotsStay(ring[..], model, model.taken);
          consumer := kernelPos;
          model := model.Release(model.taken);
        }
        steps := steps - 1;
      }
    }

    /** The kernel, as the producer: it writes free slots only, and publishes what it has written. */
    method KernelProduces()
      requires Drains()
      modifies this`producer, this`kernelPos, this`model, ring
      ensures Drains() && KernelProduced(old(model), model)
    {
      hide Wrap, Pow2, SlotsHold, SlotOf;
      SizeFits(order);
      var steps: nat := *;
      while steps > 0
        invariant Drains() && KernelProduced(old(model), model)
      {
        var writing: bool := *;
        var x: T := *;
        if writing && Minus(kernelPos, consumer) < size {
          DistanceSurvivesWrap(model.Tail(), model.released);
          WriteIsSafe(ring[..], model, x);
          var idx := Mask(kernelPos, mask, model.Tail(), order);
          ring[idx] := x;
          AdvanceWrapped(model.Tail(), 1);
          kernelPos := Plus(kernelPos, 1);
          model := model.Stage(x);
        } else if !writing {
          SlotsStay(ring[..], model, model.released);
          producer := kernelPos;
          model := model.Publish();
        }
        steps := steps - 1;
      }
    }

    /** umem_nb_free and xq_nb_free: never more than there is, and if it is less than asked for, exact. */
    method NbFree(nb: u32) returns (free: u32)
      requires Fills()
      modifies this`cachedCons, this`model
      ensures Fills() && model == old(model).AskedFree(size, nb) && free == model.Free(size)
      ensures free <= model.released + size - model.Tail()
      ensures free < nb ==> free == model.released + size - model.Tail()
    {
      hide Wrap, Pow2;
      SizeFits(order);
      DistanceSurvivesWrap(model.seen + size, model.Tail());
      AdvanceWrapped(model.released, size);
      free := Minus(cachedCons, cachedProd);
      if free >= nb {
        return;
      }
      cachedCons := Plus(consumer, size);
      model := model.(seen := model.released);
      DistanceSurvivesWrap(model.seen + size, model.Tail());
      free := Minus(cachedCons, cachedProd);
    }

    /** umem_nb_avail and xq_nb_avail: never more than there is, and nothing only if there is nothing. */
    method NbAvail(nb: u32) returns (entries: u32)
      requires Drains()
      modifies this`cachedProd, this`model
      ensures Drains() && model == old(model).AskedAvail() && entries == model.Avail(nb)
      ensures entries <= |model.log| - model.taken && (entries == 0 && nb > 0 ==> model.taken == |model.log|)
    {
      hide Wrap, Pow2;
      SizeFits(order);
      DistanceSurvivesWrap(model.seen, model.taken);
      entries := Minus(cachedProd, cachedCons);
      if entries == 0 {
        cachedProd := producer;
        model := model.(seen := |model.log|);
        DistanceSurvivesWrap(model.seen, model.taken);
        entries := Minus(cachedProd, cachedCons);
      }
      entries := if entries > nb then nb else entries;
    }

    /** One iteration of the filling loops. */
    method WriteSlot(x: T)
      requires Fills() && model.Free(size) > 0
      modifies this`cachedProd, this`model, ring
      ensures Fills() && model == old(model).Stage(x)
    {
      hide Wrap, Pow2;
      SizeFits(order);
      AdvanceWrapped(model.Tail(), 1);
      var idx := Mask(cachedProd, mask, model.Tail(), order);
      WriteIsSafe(ring[..], model, x);
      cachedProd := Plus(cachedProd, 1);
      ring[idx] := x;
      model := model.Stage(x);
    }

    /** One iteration of the draining loops. */
    method ReadSlot() returns (x: T)
      requires Drains() && model.taken < model.seen
      modifies this`cachedCons, this`model
      ensures Drains() && model == old(model).Take() && x == old(model).log[old(model).taken]
    {
      hide Wrap, Pow2;
      SizeFits(order);
      AdvanceWrapped(model.taken, 1);
      var idx := Mask(cachedCons, mask, model.taken, order);
      cachedCons := Plus(cachedCons, 1);
      x := ring[idx];
      model := model.Take();
    }

    /** The store of cached_prod to the shared producer word. */
    method PublishProducer()
      requires Fills()
      modifies this`producer, this`model, this`stores
      ensures Fills() && model == old(model).Publish() && stores == old(stores) + [|model.log|]
    {
      SlotsStay(ring[..], model, model.released);
      producer := cachedProd;
      model := model.Publish();
      stores := stores + [|model.log|];
    }

    /** The store of cached_cons to the shared consumer word. */
    method PublishConsumer()
      requires Drains()
      modifies this`consumer, this`model, this`stores
      ensures Drains() && model == old(model).Release(old(model).taken) && stores == old(stores) + [model.taken]
    {
      SlotsStay(ring[..], model, model.taken);
      consumer := cachedCons;
      model := model.Release(model.taken);
      stores := stores + [model.taken];
    }

    /** umem_fill_to_kernel, umem_fill_to_kernel_ex and xq_enq. The batch goes behind everything published
        before, and is refused only for want of room. It becomes visible whole or not at all: the producer
        word goes in one store from before the batch to behind it, or is not stored to. */
    method Enqueue(items: seq<T>) returns (ok: bool)
      requires Fills() && model.staged == [] && |items| < TWO32
      modifies this`cachedProd, this`cachedCons, this`producer, this`consumer, this`kernelPos, this`model
      modifies this`stores, ring
      ensures Fills() && model.staged == []
      ensures stores == if ok then old(stores) + [|old(model).log| + |items|] else old(stores)
      ensures model.log == if ok then old(model).log + items else old(model).log
      ensures old(model).taken <= model.taken && old(model).released <= model.released
      ensures |old(model).log| + |items| <= old(model).released + size ==> ok
    {
      hide Fills;
      KernelConsumes();
      var free := NbFree(|items|);
      FillBounds();
      KernelConsumes();
      FillBounds();
      if free < |items| {
        return false;
      }
      ghost var log := model.log;
      var i: u32 := 0;
      while i < |items|
        invariant i <= |items| && Fills() && model.log == log && model.staged == items[..i]
        invariant model.Free(size) >= |items| - i && stores == old(stores)
        invariant old(model).taken <= model.taken && old(model).released <= model.released
      {
        WriteSlot(items[i]);
        i := i + 1;
        KernelConsumes();
      }
      assert items[..i] == items;
      PublishProducer();
      KernelConsumes();
      return true;
    }

    /** umem_complete_from_kernel and xq_deq. What is read out is the oldest unread part of the log, in
        order: as much as was known to be there, or, if that was nothing, as was there. The slots are handed
        back in one store, after the last has been read. */
    method Dequeue(nb: u32) returns (out: seq<T>)
      requires Drains() && model.released == model.taken
      modifies this`cachedProd, this`cachedCons, this`producer, this`consumer, this`kernelPos, this`model
      modifies this`stores, ring
      ensures Drains() && model.released == model.taken == old(model).taken + |out|
      ensures stores == if out == [] then old(stores) else old(stores) + [model.taken]
      ensures old(model).log <= model.log && out == model.log[old(model).taken..model.taken]
      ensures |out| <= nb
      ensures old(model).seen > old(model).taken ==> |out| == Min(nb, old(model).seen - old(model).taken)
      ensures old(model).seen == old(model).taken ==> |out| >= Min(nb, |old(model).log| - old(model).taken)
    {
      hide Drains, Pow2, Wrap, SlotsHold;
      DrainBounds();
      KernelProduces();
      DrainBounds();
      var entries := NbAvail(nb);
      DrainBounds();
      out := [];
      var i: u32 := 0;
      while i < entries
        invariant i <= entries && Drains() && old(model).log <= model.log && model.taken <= model.seen <= |model.log|
        invariant model.taken == old(model).taken + i && |out| == i
        invariant stores == old(stores)
        invariant model.released == old(model).released && model.seen - model.taken >= entries - i
        invariant out == model.log[old(model).taken..model.taken]
      {
        ghost var before := model;
        KernelProduces();
        DrainBounds();
        var x := ReadSlot();
        DrainBounds();
        SliceGrows(before.log, model.log, old(model).taken, before.taken);
        out := out + [x];
        i := i + 1;
      }
      ghost var before := model;
      KernelProduces();
      DrainBounds();
      if entries > 0 {
        PublishConsumer();
      }
      KernelProduces();
      DrainBounds();
      SliceStays(before.log, model.log, old(model).taken, model.taken);
    }

    lemma DrainBounds()
      requires Drains()
      ensures model.released <= model.taken <= model.seen <= |model.log|
    {
    }

    lemma FillBounds()
      requires Fills()
      ensures model.released <= model.taken <= |model.log| && model.seen <= model.released
      ensures model.Tail() <= model.seen + size
    {
    }
  }

  lemma SliceStays<T>(log: seq<T>, log': seq<T>, a: nat, b: nat)
    requires log <= log' && a <= b <= |log|
    ensures log'[a..b] == log[a..b]
  {
  }

  lemma SliceGrows<T>(log: seq<T>, log': seq<T>, a: nat, b: nat)
    requires log <= log' && a <= b <= |log| && b < |log'|
    ensures log'[a..b + 1] == log[a..b] + [log'[b]]
  {
  }

  lemma SizeFits(k: nat)
    requires k < 32
    ensures 1 <= Pow2(k) < TWO32
  {
    Pow2Grows(k, 31);
    Pow2Of32();
  }

  lemma {:induction false} Pow2Grows(j: nat, k: nat)
    requires j <= k
    ensures Pow2(j) <= Pow2(k)
  {
    if j < k { Pow2Grows(j, k - 1); }
  }
}
