/** What the two halves of txonly's loop body come to in the step machine of module TxOnly, however the kernel
    interleaves with them: what module Drivers promises of them as they are written. */
module TxPasses {
  import opened Words
  import opened Rings
  import opened Frames
  import opened TxOnly

  // ------------------------------------------------------------------ sending a batch

  /** A batch is in the tx ring, or there was no room for it. */
  predicate BatchSent(s0: State, s: State) {
    s.tx.log == s0.tx.log + TxAddresses(s0.idx, BATCH_SIZE) && s.idx == (s0.idx + BATCH_SIZE) % TWO32 % NUM_FRAMES
    && s.outstanding == s0.outstanding + BATCH_SIZE
  }

  predicate NoRoom(s0: State, s: State) {
    s.tx.log == s0.tx.log && s.idx == s0.idx && s.outstanding == s0.outstanding
    && |s0.tx.log| + BATCH_SIZE > s0.tx.released + NUM_DESCS
  }

  /** How far the half that asks for room and sends a batch has come. */
  ghost predicate Sending(s0: State, s: State) {
    Inv(s) && s0.tx.released <= s.tx.released
    && match s.at
       case CqCheck => s.tx.staged == [] && (BatchSent(s0, s) || NoRoom(s0, s))
       case Sent => s.tx.log == s0.tx.log + TxAddresses(s0.idx, BATCH_SIZE) && s.tx.staged == []
                    && s.idx == s0.idx && s.outstanding == s0.outstanding
       case Write(i) => s.tx.log == s0.tx.log && s.tx.staged == TxAddresses(s0.idx, i)
                        && s.idx == s0.idx && s.outstanding == s0.outstanding
       case _ => (s.at == Ask || s.at == AskAgain) && s.tx.log == s0.tx.log && s.tx.staged == []
                 && s.idx == s0.idx && s.outstanding == s0.outstanding
  }

  /** What the halves need of the invariant. */
  lemma Known(s: State)
    requires Inv(s)
    ensures s.at != Failed && s.cq.taken <= s.cq.seen <= |s.cq.log| && (s.at.Write? ==> s.at.i <= BATCH_SIZE)
    ensures s.at.Sent? ==> Plus(s.outstanding, BATCH_SIZE) == s.outstanding + BATCH_SIZE
    ensures s.at.Retired? ==> s.at.n % TWO32 == s.at.n && Minus(s.outstanding, s.at.n % TWO32) == s.outstanding - s.at.n
    ensures s.at.ReadCq? ==> s.at.left <= s.at.n <= BATCH_SIZE && (s.at.left > 0 ==> s.cq.taken < |s.cq.log|)
    ensures s.at.Ask? && UserStep(s).at == CqCheck ==> |s.tx.log| + BATCH_SIZE > s.tx.released + NUM_DESCS
    ensures s.at.AskAgain? ==> UserStep(s).at == Write(0)
  {
    hide Numbered, RoundRobin, Minus, Plus;
    WindowBound(s);
    FitsExactly(s.outstanding, BATCH_SIZE);
    if s.at.Retired? { FitsExactly(s.outstanding, s.at.n); }
  }

  lemma UserSending(s0: State, s: State)
    requires Sending(s0, s) && s.at != CqCheck
    ensures Sending(s0, UserStep(s))
  {
    hide Inv, Plus, TxAddress, TxAddresses;
    UserKeeps(s);
    Known(s);
    if s.at.Write? {
      if s.at.i < BATCH_SIZE {
        AddressesGrow(s0.idx, s.at.i);
      }
    } else if s.at.AskAgain? {
      NoAddresses(s0.idx);
    } else if s.at.Sent? {
      assert Plus(s.idx, BATCH_SIZE) == (s.idx + BATCH_SIZE) % TWO32 by { PlusIs(s.idx); }
    }
  }

  lemma PlusIs(a: u32)
    ensures Plus(a, BATCH_SIZE) == (a + BATCH_SIZE) % TWO32
  {
  }

  lemma AddressesGrow(id: u32, i: nat)
    ensures TxAddresses(id, i + 1) == TxAddresses(id, i) + [TxAddress(id, i)]
  {
    hide TxAddress;
  }

  lemma NoAddresses(id: u32)
    ensures TxAddresses(id, 0) == []
  {
  }

  lemma KernelSending(s0: State, s: State, m: KernelMove)
    requires Sending(s0, s) && May(s, m)
    ensures Sending(s0, Moved(s, m))
  {
    hide Inv, TxAddresses;
    KernelKeeps(s, m);
    KernelLeaves(s, m);
  }

  lemma KernelLeaves(s: State, m: KernelMove)
    requires Inv(s) && May(s, m)
    ensures var s' := Moved(s, m);
            s'.tx.log == s.tx.log && s'.tx.staged == s.tx.staged && s.tx.released <= s'.tx.released
            && s'.cq.taken == s.cq.taken && s.cq.log <= s'.cq.log
            && s'.at == s.at && s'.idx == s.idx && s'.outstanding == s.outstanding
  {
    hide Numbered, RoundRobin, PointOk;
  }

  /** No step before the last begins at end. */
  predicate NotBefore(s: State, steps: seq<Step>, end: Point)
    decreases |steps|
  {
    steps == [] || (s.at != end && NotBefore(Next(s, steps[0]), steps[1..], end))
  }

  lemma {:induction false} StaysSending(s0: State, s: State, steps: seq<Step>)
    requires Sending(s0, s) && NotBefore(s, steps, CqCheck)
    ensures Sending(s0, Run(s, steps))
    decreases |steps|
  {
    hide Sending, UserStep, Moved;
    if steps != [] {
      match steps[0] {
        case User => UserSending(s0, s);
        case Kernel(m) => if May(s, m) { KernelSending(s0, s, m); }
      }
      StaysSending(s0, Next(s, steps[0]), steps[1..]);
    }
  }

  /** From the head of the loop to the first time completions are asked for: a batch of consecutively numbered
      frames has been published, or, only for want of room, nothing. */
  lemma SendingDoesWhatItSays(s0: State, steps: seq<Step>)
    requires Inv(s0) && s0.at == Ask && NotBefore(s0, steps, CqCheck) && Run(s0, steps).at == CqCheck
    ensures BatchSent(s0, Run(s0, steps)) || NoRoom(s0, Run(s0, steps))
    ensures Filled(s0.tx, Run(s0, steps).tx, TxAddresses(s0.idx, BATCH_SIZE), NUM_DESCS)
  {
    hide Run, NotBefore, Numbered, RoundRobin, TxAddress;
    StaysSending(s0, s0, steps);
  }

  // ------------------------------------------------------------------ counting completions

  /** How many completions are asked for. */
  function Most(s: State): nat {
    if s.outstanding == 0 then 0 else BATCH_SIZE
  }

  /** How far the half that reads completions has come. */
  ghost predicate Completing(s0: State, s: State) {
    Inv(s) && s0.cq.taken <= s.cq.taken && s0.cq.log <= s.cq.log && s.tx.log == s0.tx.log && s.idx == s0.idx
    && var n := s.cq.taken - s0.cq.taken;
       match s.at
       case Ask => n <= Most(s0) && Enough(s0.cq, n, Most(s0)) && s.outstanding == s0.outstanding - n
       case Retired(k) => n == k <= Most(s0) && Enough(s0.cq, k, Most(s0)) && s.outstanding == s0.outstanding
       case ReadCq(left, k) => n == k - left && k <= Most(s0) && Enough(s0.cq, k, Most(s0))
                               && s.outstanding == s0.outstanding
       case _ => s.at == CqCheck && n == 0 && s.cq.seen == s0.cq.seen && s.outstanding == s0.outstanding
  }

  lemma UserCompleting(s0: State, s: State)
    requires Completing(s0, s) && s.at != Ask
    ensures Completing(s0, UserStep(s))
  {
    hide Inv, Minus;
    UserKeeps(s);
    Known(s);
  }

  lemma KernelCompleting(s0: State, s: State, m: KernelMove)
    requires Completing(s0, s) && May(s, m)
    ensures Completing(s0, Moved(s, m))
  {
    hide Inv;
    KernelKeeps(s, m);
    KernelLeaves(s, m);
  }

  lemma {:induction false} StaysCompleting(s0: State, s: State, steps: seq<Step>)
    requires Completing(s0, s) && NotBefore(s, steps, Ask)
    ensures Completing(s0, Run(s, steps))
    decreases |steps|
  {
    hide Completing, UserStep, Moved;
    if steps != [] {
      match steps[0] {
        case User => UserCompleting(s0, s);
        case Kernel(m) => if May(s, m) { KernelCompleting(s0, s, m); }
      }
      StaysCompleting(s0, Next(s, steps[0]), steps[1..]);
    }
  }

  /** From asking for completions to the first time back at the head of the loop: up to a batch of the oldest
      completions has been read, and outstanding_tx has gone down by exactly their number, without wrapping. */
  lemma CompletingDoesWhatItSays(s0: State, steps: seq<Step>)
    requires Inv(s0) && s0.at == CqCheck && NotBefore(s0, steps, Ask) && Run(s0, steps).at == Ask
    ensures var s := Run(s0, steps);
            s0.cq.taken <= s.cq.taken <= |s.cq.log| && s.tx.log == s0.tx.log
            && Drained(s0.cq, s.cq, s.cq.log[s0.cq.taken..s.cq.taken], Most(s0))
            && s.outstanding == s0.outstanding - (s.cq.taken - s0.cq.taken)
  {
    hide Run, NotBefore, Numbered, RoundRobin;
    StaysCompleting(s0, s0, steps);
  }
}
