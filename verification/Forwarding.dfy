/** The l2fwd and rxdrop drivers, interleaved step by step with the kernel. One step is one access
    to a word or slot shared with the kernel; the four rings are those of module Rings. */
module Forwarding {
  import opened Words
  import opened Rings
  import opened Frames

  datatype Bench = RxDrop | L2Fwd

  /** Where the driver stands. The number in a state is the size of the batch it is about. */
  datatype Point =
    | Top                      // head of the loop
    | ReadCq(left: nat)        // reading completion slots
    | FillCheck                // asking for room in the fill ring
    | FillWrite(n: nat)        // writing fill slots
    | FillDone(n: nat)         // after umem_fill_to_kernel, whatever it returned
    | RxCheck                  // asking for received descriptors
    | ReadRx(left: nat)        // reading rx slots
    | TxCheck                  // asking for room in the tx ring
    | TxWrite(n: nat)          // writing tx slots
    | TxDone(n: nat)           // after xq_enq succeeded
    | Failed                   // lassert(ret == 0) after xq_enq fired

  /** batch: frames in the driver's descs array; lost: frames whose umem_fill_to_kernel failed;
      kRx, kTx: frames the kernel has taken from the fill and tx rings and not put in a ring yet. */
  datatype State = State(
    bench: Bench,
    fq: Ring<nat>, cq: Ring<nat>, rx: Ring<nat>, tx: Ring<nat>,
    kRx: seq<nat>, kTx: seq<nat>,
    at: Point, batch: seq<nat>, outstanding: u32, lost: seq<nat>)

  /** After xsk_configure: 1024 frames published in the fill ring, everything else empty. */
  function Start(bench: Bench): State {
    State(bench, Ring(FrameStarts(NUM_DESCS), [], 0, 0, 0), Empty(), Empty(), Empty(),
          [], [], Top, [], 0, [])
  }

  // ------------------------------------------------------------------ the driver

  /** The driver's next step; a failed assertion is the end. */
  function UserStep(s: State): State {
    match s.at
    case Top =>
      if s.bench == RxDrop || s.outstanding == 0 then s.(at := RxCheck)
      else
        var cq := s.cq.AskedAvail();
        s.(cq := cq, at := ReadCq(cq.Avail(Min(s.outstanding, BATCH_SIZE))))
    case ReadCq(left) =>
      if left > 0 then
        if s.cq.taken < |s.cq.log| then
          s.(cq := s.cq.Take(), batch := s.batch + [s.cq.log[s.cq.taken]], at := ReadCq(left - 1))
        else s
      else if s.batch == [] then s.(at := RxCheck)
      else s.(cq := s.cq.Release(s.cq.taken), at := FillCheck)
    case FillCheck =>
      var fq := s.fq.AskedFree(NUM_DESCS, |s.batch|);
      if fq.Free(NUM_DESCS) < |s.batch| then
        s.(fq := fq, at := FillDone(|s.batch|), lost := s.lost + s.batch, batch := [])
      else s.(fq := fq, at := FillWrite(|s.batch|))
    case FillWrite(n) =>
      if s.batch != [] then s.(fq := s.fq.Stage(s.batch[0]), batch := s.batch[1..])
      else s.(fq := s.fq.Publish(), at := FillDone(n))
    case FillDone(n) =>
      if s.bench == RxDrop then s.(at := Top)
      else s.(outstanding := Minus(s.outstanding, n % TWO32), at := RxCheck)
    case RxCheck =>
      var rx := s.rx.AskedAvail();
      s.(rx := rx, at := ReadRx(rx.Avail(BATCH_SIZE)))
    case ReadRx(left) =>
      if left > 0 then
        if s.rx.taken < |s.rx.log| then
          s.(rx := s.rx.Take(), batch := s.batch + [s.rx.log[s.rx.taken]], at := ReadRx(left - 1))
        else s
      else if s.batch == [] then s.(at := Top)
      else s.(rx := s.rx.Release(s.rx.taken), at := if s.bench == RxDrop then FillCheck else TxCheck)
    case TxCheck =>
      var tx := s.tx.AskedFree(NUM_DESCS, |s.batch|);
      if tx.Free(NUM_DESCS) < |s.batch| then s.(tx := tx, at := Failed)
      else s.(tx := tx, at := TxWrite(|s.batch|))
    case TxWrite(n) =>
      if s.batch != [] then s.(tx := s.tx.Stage(s.batch[0]), batch := s.batch[1..])
      else s.(tx := s.tx.Publish(), at := TxDone(n))
    case TxDone(n) => s.(outstanding := Plus(s.outstanding, n % TWO32), at := Top)
    case Failed => s
  }

  // ------------------------------------------------------------------ the kernel

  /** What the kernel may do: read published slots of the rings it drains, hand such slots back, put
      frames it holds into free slots of the rings it fills, publish those. It keeps a frame's chunk
      but may change the offset inside it. */
  datatype KernelMove =
    | TakeFill | ReleaseFill | PutRx(i: nat, addr: nat) | PublishRx
    | TakeTx | ReleaseTx | PutCq(i: nat, addr: nat) | PublishCq

  predicate May(s: State, m: KernelMove) {
    match m
    case TakeFill => s.fq.taken < |s.fq.log|
    case TakeTx => s.tx.taken < |s.tx.log|
    case PutRx(i, addr) =>
      i < |s.kRx| && FrameOf(addr) == FrameOf(s.kRx[i]) && s.rx.Tail() < s.rx.released + NUM_DESCS
    case PutCq(i, addr) =>
      i < |s.kTx| && FrameOf(addr) == FrameOf(s.kTx[i]) && s.cq.Tail() < s.cq.released + NUM_DESCS
    case _ => true
  }

  function Without<T>(s: seq<T>, i: nat): seq<T>
    requires i < |s|
  {
    s[..i] + s[i + 1..]
  }

  function Moved(s: State, m: KernelMove): State
    requires May(s, m)
  {
    match m
    case TakeFill => s.(fq := s.fq.Take(), kRx := s.kRx + [s.fq.log[s.fq.taken]])
    case ReleaseFill => s.(fq := s.fq.Release(s.fq.taken))
    case PutRx(i, addr) => s.(rx := s.rx.Stage(addr), kRx := Without(s.kRx, i))
    case PublishRx => s.(rx := s.rx.Publish())
    case TakeTx => s.(tx := s.tx.Take(), kTx := s.kTx + [s.tx.log[s.tx.taken]])
    case ReleaseTx => s.(tx := s.tx.Release(s.tx.taken))
    case PutCq(i, addr) => s.(cq := s.cq.Stage(addr), kTx := Without(s.kTx, i))
    case PublishCq => s.(cq := s.cq.Publish())
  }

  // ------------------------------------------------------------------ runs

  /** One step of either party; a kernel move that is not possible changes nothing. */
  datatype Step = User | Kernel(m: KernelMove)

  function Next(s: State, step: Step): State {
    match step
    case User => UserStep(s)
    case Kernel(m) => if May(s, m) then Moved(s, m) else s
  }

  /** The state after any interleaving of driver and kernel steps. */
  function Run(s: State, steps: seq<Step>): State
    decreases |steps|
  {
    if steps == [] then s else Run(Next(s, steps[0]), steps[1..])
  }

  predicate RingsOk(s: State) {
    s.fq.ProducerOk(NUM_DESCS) && s.tx.ProducerOk(NUM_DESCS)
    && s.cq.ConsumerOk(NUM_DESCS) && s.rx.ConsumerOk(NUM_DESCS)
  }

  // ------------------------------------------------------------------ where the frames are

  /** How often frame f occurs, over all the places a frame can be. */
  function Census(s: State, f: nat): nat
    requires RingsOk(s)
  {
    Count(s.fq.InFlight(), f) + Count(s.kRx, f) + Count(s.rx.InFlight(), f) + Count(s.batch, f)
    + Count(s.tx.InFlight(), f) + Count(s.kTx, f) + Count(s.cq.InFlight(), f) + Count(s.lost, f)
  }

  function Population(s: State): nat
    requires RingsOk(s)
  {
    |s.fq.InFlight()| + |s.kRx| + |s.rx.InFlight()| + |s.batch|
    + |s.tx.InFlight()| + |s.kTx| + |s.cq.InFlight()| + |s.lost|
  }

  /** Frames handed to the kernel for sending and not read back from the completion ring. */
  function Sending(s: State): nat
    requires RingsOk(s)
  {
    |s.tx.InFlight()| + |s.kTx| + |s.cq.InFlight()|
  }

  /** What outstanding_tx still lacks, or has too much, before the batch at hand is accounted for. */
  function Unaccounted(s: State): int {
    if s.bench == RxDrop then 0 else
    match s.at
    case ReadCq(_) => |s.batch|
    case FillCheck => |s.batch|
    case FillWrite(n) => n
    case FillDone(n) => n
    case TxWrite(n) => |s.batch| - n
    case TxDone(n) => 0 - n as int
    case _ => 0
  }

  predicate PointOk(s: State)
    requires RingsOk(s)
  {
    (s.at.FillWrite? || s.fq.staged == [])
    && (s.at.TxWrite? || s.tx.staged == [])
    && (s.cq.released == s.cq.taken || s.at.ReadCq?)
    && (s.rx.released == s.rx.taken || s.at.ReadRx?)
    && |s.batch| <= BATCH_SIZE
    && match s.at
       case Top => s.batch == []
       case RxCheck => s.batch == []
       case ReadCq(left) => s.bench == L2Fwd && left + s.cq.taken <= s.cq.seen && left + |s.batch| <= BATCH_SIZE
                            && (s.batch == [] ==> s.cq.released == s.cq.taken)
       case ReadRx(left) => left + s.rx.taken <= s.rx.seen && left + |s.batch| <= BATCH_SIZE
                            && (s.batch == [] ==> s.rx.released == s.rx.taken)
       case FillCheck => s.batch != []
       case FillWrite(n) => |s.batch| <= n <= BATCH_SIZE && |s.batch| <= s.fq.Free(NUM_DESCS)
       case FillDone(n) => s.batch == [] && n <= BATCH_SIZE
       case TxCheck => s.bench == L2Fwd && s.batch != []
       case TxWrite(n) => s.bench == L2Fwd && |s.batch| <= n <= BATCH_SIZE && |s.batch| <= s.tx.Free(NUM_DESCS)
       case TxDone(n) => s.bench == L2Fwd && s.batch == [] && n <= BATCH_SIZE
       case Failed => s.bench == L2Fwd
  }

  /** Each of the 1024 frames is in exactly one place, and nothing else is anywhere. */
  ghost predicate Conserved(s: State)
    requires RingsOk(s)
  {
    Population(s) == NUM_DESCS
    && forall f: nat :: Census(s, f) == if f < NUM_DESCS then 1 else 0
  }

  ghost predicate Inv(s: State) {
    RingsOk(s) && PointOk(s) && Conserved(s)
    && s.outstanding == Sending(s) + Unaccounted(s)
  }

  // ------------------------------------------------------------------ every step keeps the invariant

  lemma StartOk(bench: Bench)
    ensures Inv(Start(bench))
  {
    var s := Start(bench);
    assert s.fq.InFlight() == FrameStarts(NUM_DESCS);
    assert s.rx.InFlight() == s.tx.InFlight() == s.cq.InFlight() == [];
    forall f: nat ensures Census(s, f) == if f < NUM_DESCS then 1 else 0 {
      CountFrameStarts(NUM_DESCS, f);
    }
  }

  lemma Staged(r: Ring<nat>, x: nat, f: nat)
    requires r.Ok(NUM_DESCS)
    ensures Count(r.Stage(x).InFlight(), f) == Count(r.InFlight(), f) + Count([x], f)
    ensures r.Publish().InFlight() == r.InFlight()
    ensures |r.Stage(x).InFlight()| == |r.InFlight()| + 1
  {
    StageInFlight(r, x, NUM_DESCS);
    CountAppend(r.InFlight(), [x], f);
  }

  lemma Taken(r: Ring<nat>, f: nat)
    requires r.Ok(NUM_DESCS) && r.taken < |r.log|
    ensures Count(r.InFlight(), f) == Count([r.log[r.taken]], f) + Count(r.Take().InFlight(), f)
    ensures |r.Take().InFlight()| == |r.InFlight()| - 1
  {
    TakeInFlight(r, NUM_DESCS);
    CountHead(r.InFlight(), f);
  }

  /** Reading a slot of the completion ring or of the rx ring. */
  lemma ReadKeeps(s: State)
    requires Inv(s) && (s.at.ReadCq? || s.at.ReadRx?)
    ensures Inv(UserStep(s))
  {
    hide Count;
    var s' := UserStep(s);
    var r := if s.at.ReadCq? then s.cq else s.rx;
    if s.at.left > 0 {
      Taken(r, 0);
      forall f: nat ensures Census(s', f) == Census(s, f) {
        Taken(r, f);
        CountAppend(s.batch, [r.log[r.taken]], f);
      }
    } else {
      forall f: nat ensures Census(s', f) == Census(s, f) {}
    }
  }

  /** Asking for room, writing slots and publishing, on the fill ring. */
  lemma FillKeeps(s: State)
    requires Inv(s) && (s.at.FillCheck? || s.at.FillWrite?)
    ensures Inv(UserStep(s))
  {
    hide Count;
    var s' := UserStep(s);
    StageInFlight(s.fq, 0, NUM_DESCS);
    if s.at.FillWrite? && s.batch != [] {
      Staged(s.fq, s.batch[0], 0);
    }
    forall f: nat ensures Census(s', f) == Census(s, f) {
      if s.at.FillCheck? {
        CountAppend(s.lost, s.batch, f);
        CountNone(f);
      } else if s.batch != [] {
        Staged(s.fq, s.batch[0], f);
        CountHead(s.batch, f);
      }
    }
  }

  /** ... and on the tx ring. */
  lemma SendKeeps(s: State)
    requires Inv(s) && (s.at.TxCheck? || s.at.TxWrite?)
    ensures Inv(UserStep(s))
  {
    hide Count;
    var s' := UserStep(s);
    StageInFlight(s.tx, 0, NUM_DESCS);
    if s.at.TxWrite? && s.batch != [] {
      Staged(s.tx, s.batch[0], 0);
    }
    forall f: nat ensures Census(s', f) == Census(s, f) {
      if s.at.TxWrite? && s.batch != [] {
        Staged(s.tx, s.batch[0], f);
        CountHead(s.batch, f);
      }
    }
  }

  lemma NobodyMoves(s: State, s': State)
    requires RingsOk(s) && RingsOk(s') && Conserved(s)
    requires s'.fq.InFlight() == s.fq.InFlight() && s'.cq.InFlight() == s.cq.InFlight()
    requires s'.rx.InFlight() == s.rx.InFlight() && s'.tx.InFlight() == s.tx.InFlight()
    requires s'.kRx == s.kRx && s'.kTx == s.kTx && s'.batch == s.batch && s'.lost == s.lost
    ensures Conserved(s') && Sending(s') == Sending(s)
  {
    hide Count;
    forall f: nat ensures Census(s', f) == Census(s, f) {}
  }

  /** Steps that move no frame. */
  lemma IdleKeeps(s: State)
    requires Inv(s) && (s.at.Top? || s.at.FillDone? || s.at.RxCheck? || s.at.TxDone? || s.at.Failed?)
    ensures Inv(UserStep(s))
  {
    hide Conserved, Sending, Minus, Plus;
    if s.at.FillDone? || s.at.TxDone? { FitsExactly(s.outstanding, s.at.n); }
    SendingBound(s);
    NobodyMoves(s, UserStep(s));
  }

  lemma SendingBound(s: State)
    requires RingsOk(s) && Conserved(s)
    ensures Sending(s) + |s.batch| <= NUM_DESCS
  {
  }

  lemma UserKeeps(s: State)
    requires Inv(s)
    ensures Inv(UserStep(s))
  {
    hide Inv, UserStep;
    if s.at.ReadCq? || s.at.ReadRx? {
      ReadKeeps(s);
    } else if s.at.FillCheck? || s.at.FillWrite? {
      FillKeeps(s);
    } else if s.at.TxCheck? || s.at.TxWrite? {
      SendKeeps(s);
    } else {
      IdleKeeps(s);
    }
  }

  lemma TakeReceivingKeeps(s: State)
    requires Inv(s) && May(s, TakeFill)
    ensures Inv(Moved(s, TakeFill))
  {
    hide Count;
    Taken(s.fq, 0);
    forall f: nat ensures Census(Moved(s, TakeFill), f) == Census(s, f) {
      Taken(s.fq, f);
      CountAppend(s.kRx, [s.fq.log[s.fq.taken]], f);
    }
  }

  lemma PutReceivingKeeps(s: State, i: nat, addr: nat)
    requires Inv(s) && May(s, PutRx(i, addr))
    ensures Inv(Moved(s, PutRx(i, addr)))
  {
    hide Count;
    Staged(s.rx, addr, 0);
    forall f: nat ensures Census(Moved(s, PutRx(i, addr)), f) == Census(s, f) {
      Staged(s.rx, addr, f);
      CountRemove(s.kRx, i, f);
      CountSame(addr, s.kRx[i], f);
    }
  }

  /** The kernel taking frames to receive into, and delivering them. */
  lemma ReceivingKeeps(s: State, m: KernelMove)
    requires Inv(s) && May(s, m) && (m.TakeFill? || m.ReleaseFill? || m.PutRx? || m.PublishRx?)
    ensures Inv(Moved(s, m))
  {
    if m.TakeFill? {
      TakeReceivingKeeps(s);
    } else if m.PutRx? {
      PutReceivingKeeps(s, m.i, m.addr);
    } else {
      hide Conserved, Sending;
      StageInFlight(s.rx, 0, NUM_DESCS);
      NobodyMoves(s, Moved(s, m));
    }
  }

  lemma TakeSendingKeeps(s: State)
    requires Inv(s) && May(s, TakeTx)
    ensures Inv(Moved(s, TakeTx))
  {
    hide Count;
    Taken(s.tx, 0);
    forall f: nat ensures Census(Moved(s, TakeTx), f) == Census(s, f) {
      Taken(s.tx, f);
      CountAppend(s.kTx, [s.tx.log[s.tx.taken]], f);
    }
  }

  lemma PutSendingKeeps(s: State, i: nat, addr: nat)
    requires Inv(s) && May(s, PutCq(i, addr))
    ensures Inv(Moved(s, PutCq(i, addr)))
  {
    hide Count;
    Staged(s.cq, addr, 0);
    forall f: nat ensures Census(Moved(s, PutCq(i, addr)), f) == Census(s, f) {
      Staged(s.cq, addr, f);
      CountRemove(s.kTx, i, f);
      CountSame(addr, s.kTx[i], f);
    }
  }

  /** The kernel taking frames to send, and completing them. */
  lemma SendingKeeps(s: State, m: KernelMove)
    requires Inv(s) && May(s, m) && (m.TakeTx? || m.ReleaseTx? || m.PutCq? || m.PublishCq?)
    ensures Inv(Moved(s, m))
  {
    if m.TakeTx? {
      TakeSendingKeeps(s);
    } else if m.PutCq? {
      PutSendingKeeps(s, m.i, m.addr);
    } else {
      hide Conserved, Sending;
      StageInFlight(s.cq, 0, NUM_DESCS);
      NobodyMoves(s, Moved(s, m));
    }
  }

  lemma NextKeeps(s: State, step: Step)
    requires Inv(s)
    ensures Inv(Next(s, step))
  {
    hide Inv, UserStep, Moved;
    match step {
      case User => UserKeeps(s);
      case Kernel(m) =>
        if May(s, m) {
          if m.TakeFill? || m.ReleaseFill? || m.PutRx? || m.PublishRx? {
            ReceivingKeeps(s, m);
          } else {
            SendingKeeps(s, m);
          }
        }
    }
  }

  lemma {:induction false} RunKeeps(s: State, steps: seq<Step>)
    requires Inv(s)
    ensures Inv(Run(s, steps))
    decreases |steps|
  {
    hide Inv, Next;
    if steps != [] {
      NextKeeps(s, steps[0]);
      RunKeeps(Next(s, steps[0]), steps[1..]);
    }
  }

  // ------------------------------------------------------------------ main results

  /** Conservation, over runs of any length and every interleaving: each of the 1024 frames is in
      exactly one place, at the head of the loop outstanding_tx is the number being sent, and taking
      a completed batch off it never wraps. */
  lemma FramesAreConserved(bench: Bench, steps: seq<Step>)
    ensures var s := Run(Start(bench), steps);
            RingsOk(s)
            && (forall f: nat :: Census(s, f) == if f < NUM_DESCS then 1 else 0)
            && (s.bench == L2Fwd && s.at == Top ==> s.outstanding == Sending(s))
            && (s.bench == L2Fwd && s.at.FillDone? ==> s.at.n <= s.outstanding)
            && s.outstanding <= NUM_DESCS + BATCH_SIZE
  {
    StartOk(bench);
    RunKeeps(Start(bench), steps);
    BenchStays(Start(bench), steps);
  }

  lemma {:induction false} BenchStays(s: State, steps: seq<Step>)
    ensures Run(s, steps).bench == s.bench
    decreases |steps|
  {
    if steps != [] { BenchStays(Next(s, steps[0]), steps[1..]); }
  }

  /** Slots of a ring the kernel has read but not handed back. */
  function Lag(r: Ring<nat>): int {
    r.taken - r.released
  }

  /** The unchecked umem_fill_to_kernel loses its batch exactly when the kernel is keeping back more
      fill slots than there are frames outside the fill ring and the batch. */
  lemma RefillFailsIff(s: State)
    requires Inv(s) && s.at.FillCheck?
    ensures UserStep(s).lost != s.lost
      <==> Lag(s.fq) > |s.kRx| + |s.rx.InFlight()| + Sending(s) + |s.lost|
  {
    assert s.lost + s.batch != s.lost;
  }

  /** lassert(ret == 0) after xq_enq fires exactly when the kernel is keeping back more tx slots than
      there are frames outside the tx ring and the batch. */
  lemma SendFailsIff(s: State)
    requires Inv(s) && s.at.TxCheck?
    ensures UserStep(s).at.Failed?
      <==> Lag(s.tx) > |s.fq.InFlight()| + |s.kRx| + |s.rx.InFlight()| + |s.kTx| + |s.cq.InFlight()| + |s.lost|
  {
  }

  /** A prompt kernel does not publish a frame before it has handed back the slots of all the frames
      it no longer holds. */
  predicate PromptMove(s: State, m: KernelMove) {
    (m.PublishRx? ==> Lag(s.fq) <= |s.kRx|) && (m.PublishCq? ==> Lag(s.tx) <= |s.kTx|)
  }

  predicate PromptRun(s: State, steps: seq<Step>)
    decreases |steps|
  {
    steps == [] ||
    ((steps[0].Kernel? ==> PromptMove(s, steps[0].m)) && PromptRun(Next(s, steps[0]), steps[1..]))
  }

  ghost predicate PromptInv(s: State) {
    Inv(s) && s.lost == [] && s.at != Failed
    && Lag(s.fq) <= |s.kRx| + |s.rx.staged|
    && Lag(s.tx) <= |s.kTx| + |s.cq.staged|
  }

  lemma PromptUserKeeps(s: State)
    requires PromptInv(s)
    ensures PromptInv(UserStep(s))
  {
    hide Inv, UserStep;
    UserKeeps(s);
    UserLeavesLags(s);
    if s.at.FillCheck? || s.at.TxCheck? {
      PromptCheckSucceeds(s);
    }
  }

  lemma UserLeavesLags(s: State)
    ensures var s' := UserStep(s);
            Lag(s'.fq) == Lag(s.fq) && Lag(s'.tx) == Lag(s.tx) && s'.kRx == s.kRx && s'.kTx == s.kTx
            && s'.rx.staged == s.rx.staged && s'.cq.staged == s.cq.staged
            && (s.at.FillCheck? || s'.lost == s.lost) && (s'.at == Failed ==> s.at.TxCheck? || s.at == Failed)
  {
  }

  lemma PromptCheckSucceeds(s: State)
    requires PromptInv(s) && (s.at.FillCheck? || s.at.TxCheck?)
    ensures UserStep(s).lost == [] && UserStep(s).at != Failed
  {
    hide Count, Conserved;
    if s.at.FillCheck? {
      RefillFailsIff(s);
    } else {
      SendFailsIff(s);
    }
  }

  lemma PromptMoveKeeps(s: State, m: KernelMove)
    requires PromptInv(s) && May(s, m) && PromptMove(s, m)
    ensures PromptInv(Moved(s, m))
  {
    hide Count, Conserved, PointOk;
    NextKeeps(s, Kernel(m));
  }

  lemma PromptNextKeeps(s: State, step: Step)
    requires PromptInv(s) && (step.Kernel? ==> PromptMove(s, step.m))
    ensures PromptInv(Next(s, step))
  {
    hide PromptInv, UserStep, Moved;
    match step {
      case User => PromptUserKeeps(s);
      case Kernel(m) => if May(s, m) { PromptMoveKeeps(s, m); }
    }
  }

  lemma {:induction false} PromptRunKeeps(s: State, steps: seq<Step>)
    requires PromptInv(s) && PromptRun(s, steps)
    ensures PromptInv(Run(s, steps))
    decreases |steps|
  {
    hide PromptInv, Next;
    if steps != [] {
      PromptNextKeeps(s, steps[0]);
      PromptRunKeeps(Next(s, steps[0]), steps[1..]);
    }
  }

  /** With a prompt kernel no refill is ever refused and the assertion after xq_enq never fires. */
  lemma PromptKernelIsSafe(bench: Bench, steps: seq<Step>)
    requires PromptRun(Start(bench), steps)
    ensures var s := Run(Start(bench), steps);
            s.lost == [] && s.at != Failed
  {
    StartOk(bench);
    PromptRunKeeps(Start(bench), steps);
  }

  /** With a kernel that hands the fill slot back late, rxdrop loses the first frame it receives. */
  lemma LazyKernelLosesAFrame()
    ensures exists steps :: Run(Start(RxDrop), steps).lost == [0]
  {
    var s0 := Start(RxDrop);
    var s3 := s0.(fq := s0.fq.(taken := 1), rx := Ring([0], [], 0, 0, 0));
    var s8 := s3.(rx := Ring([0], [], 1, 1, 1), at := FillDone(1), lost := [0]);
    LazyDelivery(s0, s3);
    LazyRefill(s3, s8);
    var delivery := [Kernel(TakeFill), Kernel(PutRx(0, 0)), Kernel(PublishRx)];
    var refill := [User, User, User, User, User];
    RunConcat(s0, delivery, refill);
    assert Run(s0, delivery + refill).lost == [0];
  }

  lemma LazyDelivery(s0: State, s3: State)
    requires s0 == Start(RxDrop) && s3 == s0.(fq := s0.fq.(taken := 1), rx := Ring([0], [], 0, 0, 0))
    ensures Run(s0, [Kernel(TakeFill), Kernel(PutRx(0, 0)), Kernel(PublishRx)]) == s3
  {
    hide Run, UserStep;
    var s1 := s0.(fq := s0.fq.(taken := 1), kRx := [0]);
    var s2 := s1.(kRx := [], rx := Ring([], [0], 0, 0, 0));
    var none: seq<nat> := [];
    assert none + [0] == [0] && [0] + none == [0] && Without([0 as nat], 0) == none;
    RunCons(s0, [Kernel(TakeFill), Kernel(PutRx(0, 0)), Kernel(PublishRx)], [Kernel(PutRx(0, 0)), Kernel(PublishRx)]);
    RunCons(s1, [Kernel(PutRx(0, 0)), Kernel(PublishRx)], [Kernel(PublishRx)]);
    RunCons(s2, [Kernel(PublishRx)], []);
    RunNil(s3);
  }

  lemma LazyRefill(s3: State, s8: State)
    requires s3.bench == RxDrop && s3.at == Top && s3.batch == [] && s3.rx == Ring([0], [], 0, 0, 0)
    requires s3.fq.Tail() == NUM_DESCS && s3.fq.seen == s3.fq.released == 0 && s3.lost == []
    requires s8 == s3.(rx := Ring([0], [], 1, 1, 1), at := FillDone(1), lost := [0])
    ensures Run(s3, [User, User, User, User, User]) == s8
  {
    hide Run;
    var s4 := s3.(at := RxCheck);
    var s5 := s3.(rx := Ring([0], [], 0, 0, 1), at := ReadRx(1));
    var s6 := s3.(rx := Ring([0], [], 1, 0, 1), at := ReadRx(0), batch := [0]);
    var s7 := s6.(rx := Ring([0], [], 1, 1, 1), at := FillCheck);
    var none: seq<nat> := [];
    assert none + [0] == [0];
    RunCons(s3, [User, User, User, User, User], [User, User, User, User]);
    RunCons(s4, [User, User, User, User], [User, User, User]);
    RunCons(s5, [User, User, User], [User, User]);
    RunCons(s6, [User, User], [User]);
    RunCons(s7, [User], []);
    RunNil(s8);
  }

  lemma RunNil(s: State)
    ensures Run(s, []) == s
  {
  }

  lemma RunCons(s: State, steps: seq<Step>, rest: seq<Step>)
    requires |steps| > 0 && steps[1..] == rest
    ensures Run(s, steps) == Run(Next(s, steps[0]), rest)
  {
  }

  lemma {:induction false} RunConcat(s: State, a: seq<Step>, b: seq<Step>)
    ensures Run(s, a + b) == Run(Run(s, a), b)
    decreases |a|
  {
    hide Next;
    if a == [] {
      assert a + b == b;
    } else {
      assert (a + b)[1..] == a[1..] + b;
      RunConcat(Next(s, a[0]), a[1..], b);
    }
  }
}
