/** The drivers as they are written, over the rings of module Uqueues: what one pass of a loop does to the
    rings and to the counters. Module Forwarding has their interleaving with the kernel step by step. */
module Drivers {
  import opened Words
  import opened Rings
  import opened Frames
  import opened Uqueues

  const ORDER: nat := 10

  /** `struct xdp_desc`. */
  datatype Desc = Desc(addr: nat, len: nat)

  function Addrs(descs: seq<Desc>): (r: seq<nat>)
    ensures |r| == |descs|
  {
    seq(|descs|, i requires 0 <= i < |descs| => descs[i].addr)
  }

  /** Between two values the producer index takes no other. */
  predicate AtOnce(stores: seq<nat>, stores': seq<nat>, before: nat, after: nat) {
    if before == after then stores' == stores else stores' == stores + [after]
  }

  /** `struct xdpsock` with its umem. */
  class Xdpsock {
    const fq: Uqueue<nat>
    const cq: Uqueue<nat>
    const rx: Uqueue<Desc>
    const tx: Uqueue<Desc>
    var rxNpkts: nat
    var txNpkts: nat
    var outstandingTx: u32

    ghost predicate Apart() {
      var u: set<object> := {fq, cq};
      var v: set<object> := {fq.ring, cq.ring};
      fq != cq && rx != tx && fq.ring != cq.ring && rx.ring != tx.ring
      && rx !in u && tx !in u && rx.ring !in v && tx.ring !in v
    }

    /** Between calls: nothing half written or half read. */
    ghost predicate Ready()
      reads this, fq, cq, rx, tx, fq.ring, cq.ring, rx.ring, tx.ring
    {
      Apart() && fq.Fills() && tx.Fills() && cq.Drains() && rx.Drains()
      && fq.size == cq.size == rx.size == tx.size == NUM_DESCS
      && fq.model.staged == [] && tx.model.staged == []
      && cq.model.released == cq.model.taken && rx.model.released == rx.model.taken
    }

    /** xsk_configure: no initial fill is ever refused, and afterwards each frame is published once. */
    constructor ()
      ensures Ready() && fresh(fq) && fresh(cq) && fresh(rx) && fresh(tx)
      ensures fresh(fq.ring) && fresh(cq.ring) && fresh(rx.ring) && fresh(tx.ring)
      ensures fq.model.log == FrameStarts(NUM_DESCS) && cq.model == Empty() && rx.model == tx.model == Empty()
      ensures outstandingTx == 0 && rxNpkts == txNpkts == 0
    {
      hide Pow2, Uqueue<nat>.Fills, Uqueue<nat>.Drains, Uqueue<Desc>.Fills, Uqueue<Desc>.Drains;
      Ten();
      fq := new Uqueue<nat>(ORDER, true);
      cq := new Uqueue<nat>(ORDER, false);
      rx := new Uqueue<Desc>(ORDER, false);
      tx := new Uqueue<Desc>(ORDER, true);
      rxNpkts, txNpkts, outstandingTx := 0, 0, 0;
      new;
      InitialFill(fq);
    }

    /** The kernel at work on all four rings. */
    method Kernel()
      requires Ready()
      modifies fq`consumer, fq`kernelPos, fq`model, tx`consumer, tx`kernelPos, tx`model
      modifies cq`producer, cq`kernelPos, cq`model, cq.ring, rx`producer, rx`kernelPos, rx`model, rx.ring
      ensures Ready()
      ensures KernelConsumed(old(fq.model), fq.model) && KernelConsumed(old(tx.model), tx.model)
      ensures KernelProduced(old(cq.model), cq.model) && KernelProduced(old(rx.model), rx.model)
    {
      hide Pow2, Uqueue<nat>.Fills, Uqueue<nat>.Drains, Uqueue<Desc>.Fills, Uqueue<Desc>.Drains;
      fq.KernelConsumes();
      cq.KernelProduces();
      rx.KernelProduces();
      tx.KernelConsumes();
    }

    /** umem_complete_from_kernel on the completion ring, with the kernel at work on all rings. */
    method CompleteFromKernel(nb: u32) returns (descs: seq<nat>)
      requires Ready()
      modifies fq`consumer, fq`kernelPos, fq`model, tx`consumer, tx`kernelPos, tx`model
      modifies cq, cq.ring, rx`producer, rx`kernelPos, rx`model, rx.ring
      ensures Ready() && Drained(old(cq.model), cq.model, descs, nb)
      ensures KernelConsumed(old(fq.model), fq.model) && KernelConsumed(old(tx.model), tx.model)
      ensures KernelProduced(old(rx.model), rx.model)
    {
      hide Pow2, Uqueue<nat>.Fills, Uqueue<nat>.Drains, Uqueue<Desc>.Fills, Uqueue<Desc>.Drains;
      cq.DrainBounds();
      Kernel();
      descs := cq.Dequeue(nb);
      cq.DrainBounds();
      ghost var log := cq.model.log;
      Kernel();
      cq.DrainBounds();
      SliceStays(log, cq.model.log, old(cq.model).taken, cq.model.taken);
    }

    /** xq_deq on the rx ring, with the kernel at work on all rings. */
    method Receive(nb: u32) returns (descs: seq<Desc>)
      requires Ready()
      modifies fq`consumer, fq`kernelPos, fq`model, tx`consumer, tx`kernelPos, tx`model
      modifies cq`producer, cq`kernelPos, cq`model, cq.ring, rx, rx.ring
      ensures Ready() && Drained(old(rx.model), rx.model, descs, nb)
      ensures KernelConsumed(old(fq.model), fq.model) && KernelConsumed(old(tx.model), tx.model)
      ensures KernelProduced(old(cq.model), cq.model)
    {
      hide Pow2, Uqueue<nat>.Fills, Uqueue<nat>.Drains, Uqueue<Desc>.Fills, Uqueue<Desc>.Drains;
      rx.DrainBounds();
      Kernel();
      descs := rx.Dequeue(nb);
      rx.DrainBounds();
      ghost var log := rx.model.log;
      Kernel();
      rx.DrainBounds();
      SliceStays(log, rx.model.log, old(rx.model).taken, rx.model.taken);
    }

    /** umem_fill_to_kernel on the fill ring. */
    method FillToKernel(addrs: seq<nat>)
      requires Ready() && 0 < |addrs| < TWO32
      modifies fq, fq.ring
      ensures Ready() && Filled(old(fq.model), fq.model, addrs, NUM_DESCS)
      ensures AtOnce(old(fq.stores), fq.stores, |old(fq.model).log|, |fq.model.log|)
    {
      hide Pow2, Uqueue<nat>.Fills, Uqueue<nat>.Drains, Uqueue<Desc>.Fills, Uqueue<Desc>.Drains;
      var refilled := fq.Enqueue(addrs);
    }

    /** xq_enq on the tx ring. */
    method SendToKernel(descs: seq<Desc>) returns (ok: bool)
      requires Ready() && 0 < |descs| < TWO32
      modifies tx, tx.ring
      ensures Ready() && Filled(old(tx.model), tx.model, descs, NUM_DESCS)
      ensures AtOnce(old(tx.stores), tx.stores, |old(tx.model).log|, |tx.model.log|)
      ensures ok <==> tx.model.log == old(tx.model).log + descs
    {
      hide Pow2, Uqueue<nat>.Fills, Uqueue<nat>.Drains, Uqueue<Desc>.Fills, Uqueue<Desc>.Drains;
      ok := tx.Enqueue(descs);
    }

    /** complete_tx_l2fwd: up to a batch of the oldest completions goes back to the fill ring whole, or, if
        that has no room for it, nowhere; what is taken off outstanding_tx never exceeds it. */
    method CompleteTx()
      requires Ready()
      modifies this`outstandingTx, this`txNpkts, fq, fq.ring, cq, cq.ring, rx, rx.ring, tx
      ensures Ready() && old(cq.model).taken <= cq.model.taken <= |cq.model.log|
      ensures var done := cq.model.log[old(cq.model).taken..cq.model.taken];
              Drained(old(cq.model), cq.model, done, Min(BATCH_SIZE, old(outstandingTx)))
              && outstandingTx == old(outstandingTx) - |done| && txNpkts == old(txNpkts) + |done|
              && Filled(old(fq.model), fq.model, done, NUM_DESCS)
              && AtOnce(old(fq.stores), fq.stores, |old(fq.model).log|, |fq.model.log|)
      ensures KernelConsumed(old(tx.model), tx.model) && KernelProduced(old(rx.model), rx.model)
    {
      hide Pow2, Wrap, Uqueue<nat>.Fills, Uqueue<nat>.Drains, Uqueue<Desc>.Fills, Uqueue<Desc>.Drains;
      cq.DrainBounds();
      if outstandingTx == 0 {
        return;
      }
      var ndescs: u32 := if outstandingTx > BATCH_SIZE then BATCH_SIZE else outstandingTx;
      var descs := CompleteFromKernel(ndescs);
      if |descs| > 0 {
        FillToKernel(descs);
        Subtracts(outstandingTx, |descs|);
        outstandingTx := Minus(outstandingTx, |descs|);
        txNpkts := txNpkts + |descs|;
      }
    }

    /** rx_drop. */
    method RxDrop()
      requires Ready()
      modifies this`rxNpkts, fq, fq.ring, cq, cq.ring, rx, rx.ring, tx
      ensures Ready() && old(rx.model).taken <= rx.model.taken <= |rx.model.log|
      ensures var got := rx.model.log[old(rx.model).taken..rx.model.taken];
              Drained(old(rx.model), rx.model, got, BATCH_SIZE) && rxNpkts == old(rxNpkts) + |got|
              && Filled(old(fq.model), fq.model, Addrs(got), NUM_DESCS)
              && AtOnce(old(fq.stores), fq.stores, |old(fq.model).log|, |fq.model.log|)
      ensures KernelConsumed(old(tx.model), tx.model) && KernelProduced(old(cq.model), cq.model)
    {
      hide Pow2, Wrap, Uqueue<nat>.Fills, Uqueue<nat>.Drains, Uqueue<Desc>.Fills, Uqueue<Desc>.Drains, Addrs;
      var descs := Receive(BATCH_SIZE);
      if |descs| == 0 {
        return;
      }
      rxNpkts := rxNpkts + |descs|;
      FillToKernel(Addrs(descs));
    }

    /** The receiving half of l2fwd: what is received is handed to the tx ring in the same order, lengths and
        all; ok is whether lassert(ret == 0) held. */
    method Forward() returns (ok: bool)
      requires Ready()
      modifies this`rxNpkts, this`outstandingTx, fq, cq, cq.ring, rx, rx.ring, tx, tx.ring
      ensures Ready() && old(rx.model).taken <= rx.model.taken <= |rx.model.log|
      ensures var got := rx.model.log[old(rx.model).taken..rx.model.taken];
              Drained(old(rx.model), rx.model, got, BATCH_SIZE) && rxNpkts == old(rxNpkts) + |got|
              && Filled(old(tx.model), tx.model, got, NUM_DESCS)
              && AtOnce(old(tx.stores), tx.stores, |old(tx.model).log|, |tx.model.log|)
              && (ok <==> tx.model.log == old(tx.model).log + got)
              && outstandingTx == (if ok then Plus(old(outstandingTx), |got|) else old(outstandingTx))
      ensures KernelConsumed(old(fq.model), fq.model) && KernelProduced(old(cq.model), cq.model)
    {
      hide Pow2, Wrap, Uqueue<nat>.Fills, Uqueue<nat>.Drains, Uqueue<Desc>.Fills, Uqueue<Desc>.Drains;
      Adds(outstandingTx);
      var descs := Receive(BATCH_SIZE);
      if |descs| == 0 {
        return true;
      }
      rxNpkts := rxNpkts + |descs|;
      ok := SendToKernel(descs);
      if ok {
        outstandingTx := Plus(outstandingTx, |descs|);
      }
    }

    /** One pass of tx_only, idx being the number of the next frame: the assertion around xq_enq_tx_only
        holds, as room was just asked for, and a batch is sent whole or not at all. */
    method SendBatch(idx: u32) returns (next: u32, sent: bool)
      requires Ready()
      modifies this`outstandingTx, fq, cq, cq.ring, rx, rx.ring, tx, tx.ring
      ensures Ready()
      ensures next == if sent then (idx + BATCH_SIZE) % TWO32 % NUM_FRAMES else idx
      ensures tx.model.log == if sent then old(tx.model).log + TxBatch(idx, BATCH_SIZE) else old(tx.model).log
      ensures tx.stores == if sent then old(tx.stores) + [|old(tx.model).log| + BATCH_SIZE] else old(tx.stores)
      ensures outstandingTx == if sent then Plus(old(outstandingTx), BATCH_SIZE) else old(outstandingTx)
      ensures Filled(old(tx.model), tx.model, TxBatch(idx, BATCH_SIZE), NUM_DESCS)
    {
      hide Pow2, Uqueue<nat>.Fills, Uqueue<nat>.Drains, Uqueue<Desc>.Fills, Uqueue<Desc>.Drains, TxBatch;
      Kernel();
      var free := tx.NbFree(BATCH_SIZE);
      Kernel();
      tx.FillBounds();
      if free < BATCH_SIZE {
        return idx, false;
      }
      var ok := EnqTxOnly(tx, idx, BATCH_SIZE);
      assert ok;   // lassert(xq_enq_tx_only(...) == 0)
      outstandingTx := Plus(outstandingTx, BATCH_SIZE);
      next := Plus(idx, BATCH_SIZE);
      next := next % NUM_FRAMES;
      sent := true;
    }

    /** complete_tx_only: completions are counted and forgotten. The driver relies on there being no more
        of them than outstanding_tx says. */
    method CompleteTxOnly()
      requires Ready()
      modifies this`outstandingTx, this`txNpkts, fq, cq, cq.ring, rx, rx.ring, tx
      ensures Ready() && old(cq.model).taken <= cq.model.taken <= |cq.model.log|
      ensures var done := cq.model.log[old(cq.model).taken..cq.model.taken];
              Drained(old(cq.model), cq.model, done, if old(outstandingTx) == 0 then 0 else BATCH_SIZE)
              && txNpkts == old(txNpkts) + |done| && outstandingTx == Wrap(old(outstandingTx) - |done|)
              && (|done| <= old(outstandingTx) ==> outstandingTx == old(outstandingTx) - |done|)
    {
      hide Pow2, Wrap, Uqueue<nat>.Fills, Uqueue<nat>.Drains, Uqueue<Desc>.Fills, Uqueue<Desc>.Drains;
      cq.DrainBounds();
      Adds(outstandingTx);
      if outstandingTx == 0 {
        return;
      }
      var descs := CompleteFromKernel(BATCH_SIZE);
      FitsExactly(outstandingTx, |descs|);
      if |descs| > 0 {
        outstandingTx := Minus(outstandingTx, |descs|);
        txNpkts := txNpkts + |descs|;
      }
    }
  }

  lemma Subtracts(a: u32, n: nat)
    requires n <= a
    ensures n < TWO32 && Minus(a, n) == a - n
  {
  }

  lemma Adds(a: u32)
    ensures Plus(a, 0) == a == Wrap(a) == Minus(a, 0)
  {
  }

  lemma Ten()
    ensures Pow2(ORDER) == NUM_DESCS
  {
    assert Pow2(5) == 32;
    Pow2Add(5, 5);
  }

  /** sizeof(pkt_data) - 1. */
  const PKT_LEN: nat := 60

  /** The descriptors xq_enq_tx_only writes. */
  function TxBatch(id: u32, n: nat): (r: seq<Desc>)
    ensures |r| == n && Addrs(r) == TxAddresses(id, n)
  {
    seq(n, (i: nat) => Desc(TxAddress(id, i), PKT_LEN))
  }

  /** xq_enq_tx_only: refused only if the room the caller has just seen has not been there; the batch becomes
      visible whole or not at all. */
  method EnqTxOnly(q: Uqueue<Desc>, id: u32, n: u32) returns (ok: bool)
    requires q.Fills() && q.model.staged == []
    modifies q, q.ring
    ensures q.Fills() && q.model.staged == []
    ensures q.model.log == if ok then old(q.model).log + TxBatch(id, n) else old(q.model).log
    ensures q.stores == if ok then old(q.stores) + [|old(q.model).log| + n] else old(q.stores)
    ensures old(q.model).released <= q.model.released && old(q.model).taken <= q.model.taken
    ensures old(q.model).Free(q.size) >= n ==> ok
  {
    hide Wrap, Pow2, SlotsHold, TxAddress, Uqueue<Desc>.Fills;
    q.KernelConsumes();
    var free := q.NbFree(n);
    q.KernelConsumes();
    q.FillBounds();
    if free < n {
      return false;
    }
    ghost var log := q.model.log;
    var i: u32 := 0;
    while i < n
      invariant i <= n && q.Fills() && q.model.log == log && q.model.staged == TxBatch(id, i)
      invariant q.model.Free(q.size) >= n - i && q.stores == old(q.stores)
      invariant old(q.model).released <= q.model.released && old(q.model).taken <= q.model.taken
    {
      q.WriteSlot(Desc(TxAddress(id, i), PKT_LEN));
      assert TxBatch(id, i + 1) == TxBatch(id, i) + [Desc(TxAddress(id, i), PKT_LEN)];
      i := i + 1;
      q.KernelConsumes();
    }
    q.PublishProducer();
    q.KernelConsumes();
    return true;
  }

  method InitialFill(fq: Uqueue<nat>)
    requires fq.Fills() && fq.model == Empty() && fq.size == NUM_DESCS
    modifies fq, fq.ring
    ensures fq.Fills() && fq.model.log == FrameStarts(NUM_DESCS) && fq.model.staged == []
  {
    hide Wrap, Pow2, FrameStarts, Uqueue<nat>.Fills;
    StartsNone();
    var i := 0;
    ghost var k := 0;
    while i < NUM_DESCS * FRAME_SIZE
      invariant i == k * FRAME_SIZE && k <= NUM_DESCS
      invariant fq.Fills() && fq.model.staged == [] && fq.model.log == FrameStarts(k)
    {
      var ok := fq.Enqueue([i]);
      assert ok;   // lassert(umem_fill_to_kernel(...) == 0)
      StartsGrow(k);
      i := i + FRAME_SIZE;
      k := k + 1;
    }
  }

  lemma StartsNone()
    ensures FrameStarts(0) == []
  {
  }

  lemma StartsGrow(k: nat)
    ensures FrameStarts(k + 1) == FrameStarts(k) + [k * FRAME_SIZE]
  {
  }
}
