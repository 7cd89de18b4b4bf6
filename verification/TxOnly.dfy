/** The txonly driver, interleaved step by step with the kernel. It numbers frames round and round and
    never looks at the addresses that come back; module Rings has the two rings it uses. */
module TxOnly {
  import opened Words
  import opened Rings
  import opened Frames

  datatype Point =
    | Ask                  // head of the loop: is there room for a batch?
    | AskAgain             // the same question inside xq_enq_tx_only
    | Write(i: nat)        // writing tx slot i of the batch
    | Sent                 // after xq_enq_tx_only
    | CqCheck              // asking for completions
    | ReadCq(left: nat, n: nat)
    | Retired(n: nat)      // n completions read and released
    | Failed               // lassert(xq_enq_tx_only(...) == 0) fired

  datatype State = State(
    tx: Ring<nat>, cq: Ring<nat>,
    kTx: seq<nat>,           // taken from tx, not yet completed, oldest first
    at: Point, idx: u32, outstanding: u32)

  function Start(): State {
    State(Empty(), Empty(), [], Ask, 0, 0)
  }

  function UserStep(s: State): State {
    match s.at
    case Ask =>
      var tx := s.tx.AskedFree(NUM_DESCS, BATCH_SIZE);
      s.(tx := tx, at := if tx.Free(NUM_DESCS) >= BATCH_SIZE then AskAgain else CqCheck)
    case AskAgain =>
      var tx := s.tx.AskedFree(NUM_DESCS, BATCH_SIZE);
      s.(tx := tx, at := if tx.Free(NUM_DESCS) < BATCH_SIZE then Failed else Write(0))
    case Write(i) =>
      if i < BATCH_SIZE then s.(tx := s.tx.Stage(TxAddress(s.idx, i)), at := Write(i + 1))
      else s.(tx := s.tx.Publish(), at := Sent)
    case Sent =>
      s.(outstanding := Plus(s.outstanding, BATCH_SIZE), idx := Plus(s.idx, BATCH_SIZE) % NUM_FRAMES, at := CqCheck)
    case CqCheck =>
      if s.outstanding == 0 then s.(at := Ask)
      else
        var cq := s.cq.AskedAvail();
        var n := cq.Avail(BATCH_SIZE);
        s.(cq := cq, at := ReadCq(n, n))
    case ReadCq(left, n) =>
      if left > 0 then s.(cq := s.cq.Take(), at := ReadCq(left - 1, n))
      else if n > 0 then s.(cq := s.cq.Release(s.cq.taken), at := Retired(n))
      else s.(at := Ask)
    case Retired(n) => s.(outstanding := Minus(s.outstanding, n % TWO32), at := Ask)
    case Failed => s
  }

  /** The kernel takes a frame only with a completion slot to spare for it, and completes in order. */
  datatype KernelMove = TakeTx | ReleaseTx | PutCq(addr: nat) | PublishCq

  predicate May(s: State, m: KernelMove) {
    match m
    case TakeTx => s.tx.taken < |s.tx.log| && s.cq.Tail() + |s.kTx| < s.cq.released + NUM_DESCS
    case PutCq(addr) => s.kTx != [] && FrameOf(addr) == FrameOf(s.kTx[0])
    case _ => true
  }

  function Moved(s: State, m: KernelMove): State
    requires May(s, m)
  {
    match m
    case TakeTx => s.(tx := s.tx.Take(), kTx := s.kTx + [s.tx.log[s.tx.taken]])
    case ReleaseTx => s.(tx := s.tx.Release(s.tx.taken))
    case PutCq(addr) => s.(cq := s.cq.Stage(addr), kTx := s.kTx[1..])
    case PublishCq => s.(cq := s.cq.Publish())
  }

  datatype Step = User | Kernel(m: KernelMove)

  function Next(s: State, step: Step): State {
    match step
    case User => UserStep(s)
    case Kernel(m) => if May(s, m) then Moved(s, m) else s
  }

  function Run(s: State, steps: seq<Step>): State
    decreases |steps|
  {
    if steps == [] then s else Run(Next(s, steps[0]), steps[1..])
  }

  // ------------------------------------------------------------------ the window of frames in flight

  predicate RingsOk(s: State) {
    s.tx.ProducerOk(NUM_DESCS) && s.cq.ConsumerOk(NUM_DESCS)
    && s.cq.Tail() + |s.kTx| <= s.cq.released + NUM_DESCS
  }

  /** Every frame the driver has written a descriptor for and not read back, oldest first. */
  function Window(s: State): seq<nat>
    requires RingsOk(s)
  {
    s.cq.InFlight() + s.kTx + s.tx.InFlight()
  }

  /** The number the next descriptor gets. */
  function NextId(s: State): nat {
    s.idx + match s.at case Write(i) => i case Sent => BATCH_SIZE case _ => 0
  }

  /** What outstanding_tx has too much, or lacks, in the middle of a batch. */
  function Unaccounted(s: State): int {
    match s.at
    case Write(i) => 0 - i as int
    case Sent => 0 - BATCH_SIZE as int
    case ReadCq(left, n) => n - left
    case Retired(n) => n
    case _ => 0
  }

  predicate PointOk(s: State)
    requires RingsOk(s)
  {
    (s.at.Write? || s.tx.staged == [])
    && (s.at.ReadCq? || s.cq.released == s.cq.taken)
    && match s.at
       case AskAgain => s.tx.Free(NUM_DESCS) >= BATCH_SIZE
       case Write(i) => i <= BATCH_SIZE && s.tx.Free(NUM_DESCS) >= BATCH_SIZE - i
       case ReadCq(left, n) => left <= n <= BATCH_SIZE && left <= s.cq.seen - s.cq.taken
                               && s.cq.taken == s.cq.released + (n - left)
       case Retired(n) => n <= BATCH_SIZE
       case Failed => false
       case _ => true
  }

  /** The k-th oldest frame in flight carries the number that many places before the next. */
  ghost predicate Numbered(w: seq<nat>, next: nat) {
    forall k :: 0 <= k < |w| ==> FrameOf(w[k]) == (next - |w| + k) % NUM_FRAMES
  }

  /** The i-th descriptor ever written names the start of frame i modulo 131072. */
  ghost predicate RoundRobin(written: seq<nat>) {
    forall i :: 0 <= i < |written| ==> written[i] == (i % NUM_FRAMES) * FRAME_SIZE
  }

  ghost predicate Inv(s: State) {
    RingsOk(s) && PointOk(s)
    && s.idx < NUM_FRAMES && s.idx % BATCH_SIZE == 0
    && NextId(s) % NUM_FRAMES == s.tx.Tail() % NUM_FRAMES
    && Numbered(Window(s), NextId(s)) && RoundRobin(s.tx.log + s.tx.staged)
    && s.outstanding == |Window(s)| + Unaccounted(s)
  }

  lemma SameWindow(s: State, s': State)
    requires RingsOk(s) && s'.tx == s.tx && s'.cq == s.cq && s'.kTx == s.kTx
    ensures RingsOk(s') && Window(s') == Window(s)
  {
  }

  lemma WindowBound(s: State)
    requires RingsOk(s)
    ensures |Window(s)| <= 2 * NUM_DESCS
  {
  }

  /** Numbers that close together, modulo 131072, are different. */
  lemma NumbersDiffer(w: seq<nat>, next: nat, i: nat, j: nat)
    requires Numbered(w, next) && |w| <= 2 * NUM_DESCS && i < j < |w|
    ensures FrameOf(w[i]) != FrameOf(w[j])
  {
    var a, b := next - |w| + i, next - |w| + j;
    assert FrameOf(w[i]) == a % NUM_FRAMES && FrameOf(w[j]) == b % NUM_FRAMES;
    assert 0 < b - a < NUM_FRAMES;
  }

  /** The window grows at its new end, shrinks at its old end, and only frames count. */
  lemma NumberedMoves(w: seq<nat>, next: nat, w': seq<nat>)
    requires Numbered(w, next)
    ensures |w'| == |w| + 1 && w'[..|w|] == w && FrameOf(w'[|w|]) == next % NUM_FRAMES ==> Numbered(w', next + 1)
    ensures w != [] && w' == w[1..] ==> Numbered(w', next)
    ensures |w'| == |w| && (forall k :: 0 <= k < |w| ==> FrameOf(w'[k]) == FrameOf(w[k])) ==> Numbered(w', next)
  {
    if |w'| == |w| + 1 && w'[..|w|] == w && FrameOf(w'[|w|]) == next % NUM_FRAMES {
      forall k | 0 <= k < |w'| ensures FrameOf(w'[k]) == (next + 1 - |w'| + k) % NUM_FRAMES {
        if k < |w| { assert w'[k] == w[k]; }
      }
    }
  }

  /** Numbering wraps at 131072 with the counter. */
  lemma NumberedWraps(w: seq<nat>, next: nat)
    requires Numbered(w, next) && next <= NUM_FRAMES
    ensures Numbered(w, next % NUM_FRAMES)
  {
  }

  lemma AddressFits(idx: u32, i: nat)
    requires idx < NUM_FRAMES && idx % BATCH_SIZE == 0 && i < BATCH_SIZE
    ensures idx + i < NUM_FRAMES
    ensures TxAddress(idx, i) == (idx + i) * FRAME_SIZE && FrameOf(TxAddress(idx, i)) == idx + i
  {
  }

  lemma RoundRobinGrows(written: seq<nat>, id: nat)
    requires RoundRobin(written) && id < NUM_FRAMES && id % NUM_FRAMES == |written| % NUM_FRAMES
    ensures RoundRobin(written + [id * FRAME_SIZE])
    ensures (id + 1) % NUM_FRAMES == (|written| + 1) % NUM_FRAMES
  {
  }

  /** Writing a slot: the window grows by the next frame. */
  lemma WriteSlotKeeps(s: State)
    requires Inv(s) && s.at.Write? && s.at.i < BATCH_SIZE
    ensures Inv(UserStep(s))
  {
    hide Numbered, RoundRobin, TxAddress, FrameOf, Window;
    var a, i := TxAddress(s.idx, s.at.i), s.at.i;
    var written, tx := s.tx.log + s.tx.staged, s.tx.Stage(a);
    AddressFits(s.idx, i);
    RoundRobinGrows(written, NextId(s));
    assert tx.log + tx.staged == written + [a];
    WindowGrows(s, a);
    assert Window(UserStep(s)) == Window(s) + [a];
    NumberedMoves(Window(s), NextId(s), Window(s) + [a]);
  }

  /** Publishing the batch: the window stays. */
  lemma PublishKeeps(s: State)
    requires Inv(s) && s.at.Write? && s.at.i == BATCH_SIZE
    ensures Inv(UserStep(s))
  {
    hide Numbered, RoundRobin;
    StageInFlight(s.tx, 0, NUM_DESCS);
    assert s.tx.log + s.tx.staged + [] == s.tx.log + s.tx.staged;
    assert Window(UserStep(s)) == Window(s);
  }

  lemma WriteKeeps(s: State)
    requires Inv(s) && s.at.Write?
    ensures Inv(UserStep(s))
  {
    hide Numbered, RoundRobin, UserStep, Window;
    if s.at.i < BATCH_SIZE {
      WriteSlotKeeps(s);
    } else {
      PublishKeeps(s);
    }
  }

  lemma WindowGrows(s: State, a: nat)
    requires RingsOk(s) && s.tx.Free(NUM_DESCS) > 0
    ensures forall at :: RingsOk(s.(tx := s.tx.Stage(a), at := at))
    ensures forall at :: Window(s.(tx := s.tx.Stage(a), at := at)) == Window(s) + [a]
  {
    StageInFlight(s.tx, a, NUM_DESCS);
  }

  lemma ReadKeeps(s: State)
    requires Inv(s) && s.at.ReadCq?
    ensures Inv(UserStep(s))
  {
    hide Numbered;
    var s' := UserStep(s);
    if s.at.left > 0 {
      TakeInFlight(s.cq, NUM_DESCS);
      assert Window(s) == [s.cq.log[s.cq.taken]] + Window(s');
      NumberedMoves(Window(s), NextId(s), Window(s'));
    }
  }

  lemma SentKeeps(s: State)
    requires Inv(s) && s.at.Sent?
    ensures Inv(UserStep(s))
  {
    hide Numbered, RoundRobin, Plus, Window;
    WindowBound(s);
    SameWindow(s, UserStep(s));
    FitsExactly(s.outstanding, BATCH_SIZE);
    FitsExactly(s.idx, BATCH_SIZE);
    NumberedWraps(Window(s), NextId(s));
  }

  lemma IdleKeeps(s: State)
    requires Inv(s) && !s.at.Write? && !s.at.ReadCq? && !s.at.Sent?
    ensures Inv(UserStep(s))
  {
    hide Numbered, RoundRobin, Minus;
    if s.at.Retired? { FitsExactly(s.outstanding, s.at.n); }
    assert Window(UserStep(s)) == Window(s);
  }

  lemma UserKeeps(s: State)
    requires Inv(s)
    ensures Inv(UserStep(s))
  {
    hide Inv, UserStep;
    if s.at.Write? {
      WriteKeeps(s);
    } else if s.at.ReadCq? {
      ReadKeeps(s);
    } else if s.at.Sent? {
      SentKeeps(s);
    } else {
      IdleKeeps(s);
    }
  }

  /** In-order completion: a frame the kernel takes or completes keeps its place in the window. */
  lemma TakeKeeps(s: State)
    requires Inv(s) && May(s, TakeTx)
    ensures Inv(Moved(s, TakeTx))
  {
    hide Numbered, RoundRobin;
    TakeInFlight(s.tx, NUM_DESCS);
    assert Window(Moved(s, TakeTx)) == Window(s);
  }

  lemma CompleteKeeps(s: State, addr: nat)
    requires Inv(s) && May(s, PutCq(addr))
    ensures Inv(Moved(s, PutCq(addr)))
  {
    hide Numbered, RoundRobin, FrameOf;
    var s' := Moved(s, PutCq(addr));
    StageInFlight(s.cq, addr, NUM_DESCS);
    SameFrames(s.cq.InFlight(), s.kTx, s.tx.InFlight(), addr);
    NumberedMoves(Window(s), NextId(s), Window(s'));
  }

  lemma SameFrames(a: seq<nat>, b: seq<nat>, c: seq<nat>, addr: nat)
    requires b != [] && FrameOf(addr) == FrameOf(b[0])
    ensures var w, w' := a + b + c, a + [addr] + b[1..] + c;
            |w'| == |w| && forall k :: 0 <= k < |w| ==> FrameOf(w'[k]) == FrameOf(w[k])
  {
  }

  lemma KernelKeeps(s: State, m: KernelMove)
    requires Inv(s) && May(s, m)
    ensures Inv(Moved(s, m))
  {
    hide Numbered, RoundRobin;
    match m {
      case TakeTx => TakeKeeps(s);
      case PutCq(addr) => CompleteKeeps(s, addr);
      case _ => StageInFlight(s.cq, 0, NUM_DESCS);
    }
  }

  lemma {:induction false} RunKeeps(s: State, steps: seq<Step>)
    requires Inv(s)
    ensures Inv(Run(s, steps))
    decreases |steps|
  {
    hide Inv, UserStep, Moved;
    if steps != [] {
      var step := steps[0];
      if step.User? {
        UserKeeps(s);
      } else if May(s, step.m) {
        KernelKeeps(s, step.m);
      }
      RunKeeps(Next(s, step), steps[1..]);
    }
  }

  /** In every run, no frame is in flight twice; the descriptors ever written name the frames of
      the packet memory round and round; the assertion never fires; and outstanding_tx is the number in flight at
      the head of the loop and never wraps. */
  lemma NoFrameInFlightTwice(steps: seq<Step>)
    ensures var s := Run(Start(), steps);
            RingsOk(s)
            && |Window(s)| <= 2 * NUM_DESCS
            && (forall i, j :: 0 <= i < j < |Window(s)| ==> FrameOf(Window(s)[i]) != FrameOf(Window(s)[j]))
            && RoundRobin(s.tx.log + s.tx.staged)
            && s.at != Failed
            && (s.at == Ask ==> s.outstanding == |Window(s)|)
            && (s.at.Retired? ==> s.at.n <= s.outstanding)
            && s.outstanding <= 2 * NUM_DESCS + BATCH_SIZE
  {
    hide Run;
    RunKeeps(Start(), steps);
    var s := Run(Start(), steps);
    WindowBound(s);
    forall i, j | 0 <= i < j < |Window(s)| ensures FrameOf(Window(s)[i]) != FrameOf(Window(s)[j]) {
      NumbersDiffer(Window(s), NextId(s), i, j);
    }
  }
}
