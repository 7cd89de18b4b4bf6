/** What one pass of a driver's loop body comes to in the step machine of module Forwarding, however the kernel
    interleaves with it: what module Drivers promises of the loop bodies as they are written. */
module Passes {
  import opened Words
  import opened Rings
  import opened Frames
  import opened Forwarding

  /** The two parts of a loop body: complete_tx_l2fwd runs from the head of the loop to asking for received
      descriptors, and what deals with these from there back to the head. */
  predicate Begins(s: State) {
    (s.bench == L2Fwd && s.at == Top) || s.at == RxCheck
  }

  /** The ring a part reads from, and the ring it writes to. */
  function From(begin: Point, s: State): Ring<nat> {
    if begin == Top then s.cq else s.rx
  }

  function To(begin: Point, s: State): Ring<nat> {
    if begin == Top || s.bench == RxDrop then s.fq else s.tx
  }

  function Most(s: State): nat {
    if s.at == Top then Min(s.outstanding, BATCH_SIZE) else BATCH_SIZE
  }

  function Got(s0: State, s: State): seq<nat>
    requires From(s0.at, s0).taken <= From(s0.at, s).taken <= |From(s0.at, s).log|
  {
    From(s0.at, s).log[From(s0.at, s0).taken..From(s0.at, s).taken]
  }

  /** The part that began in s0 is over. */
  predicate Over(s0: State, s: State) {
    s.at == (if s0.at == Top then RxCheck else Top) || s.at == Failed
  }

  /** What outstanding_tx is after a part that has dealt with n frames. */
  function Outstanding(s0: State, s: State, n: nat): int {
    if s0.at == Top then s0.outstanding - n
    else if s.bench == RxDrop || s.at == Failed then s0.outstanding as int
    else s0.outstanding + n
  }

  /** Before the part has asked what there is, it knows what it knew; from then on what it has read, got items,
      and what it will read come to no less than they have to. */
  predicate Asked(s0: State, s: State, got: nat) {
    var from0 := From(s0.at, s0);
    if s.at == s0.at then From(s0.at, s).seen == from0.seen && From(s0.at, s).taken == from0.taken
    else match s.at
         case ReadCq(left) => Enough(from0, got + left, Most(s0))
         case ReadRx(left) => Enough(from0, got + left, Most(s0))
         case _ => Enough(from0, got, Most(s0))
  }

  /** How far a part has come. */
  ghost predicate Underway(s0: State, s: State) {
    var from0, from, to0, to := From(s0.at, s0), From(s0.at, s), To(s0.at, s0), To(s0.at, s);
    Inv(s) && s.bench == s0.bench && from0.taken <= from.taken && from0.log <= from.log && to0.released <= to.released
    && var got := Got(s0, s);
       |got| <= Most(s0) && Asked(s0, s, |got|)
       && if Over(s0, s) then
            (if s.at == Failed then to.log == to0.log && |to0.log| + |got| > to0.released + NUM_DESCS
             else Filled(to0, to, got, NUM_DESCS) && to.staged == [])
            && s.outstanding == Outstanding(s0, s, |got|)
          else
            s.outstanding == s0.outstanding
            && match s.at
               case FillDone(n) => (s0.at == Top || s.bench == RxDrop) && n == |got| && Filled(to0, to, got, NUM_DESCS)
               case TxDone(n) => s0.at == RxCheck && s.bench == L2Fwd && n == |got| && to.log == to0.log + got
               case _ =>
                 to.log == to0.log && to.staged + s.batch == got
                 && match s.at
                    case Top => s0.at == Top && got == []
                    case RxCheck => s0.at == RxCheck && got == []
                    case ReadCq(left) => s0.at == Top && left + |got| <= Most(s0)
                    case ReadRx(left) => s0.at == RxCheck && left + |got| <= Most(s0)
                    case FillCheck => s0.at == Top || s.bench == RxDrop
                    case FillWrite(n) => (s0.at == Top || s.bench == RxDrop) && n == |got|
                    case TxCheck => s0.at == RxCheck && s.bench == L2Fwd
                    case TxWrite(n) => s0.at == RxCheck && s.bench == L2Fwd && n == |got|
                    case _ => false
  }

  lemma SliceMore(log: seq<nat>, a: nat, b: nat)
    requires a <= b < |log|
    ensures log[a..b + 1] == log[a..b] + [log[b]]
  {
  }

  /** What a part needs of the invariant. */
  lemma Known(s: State)
    requires Inv(s)
    ensures s.cq.taken <= s.cq.seen <= |s.cq.log| && s.rx.taken <= s.rx.seen <= |s.rx.log|
    ensures s.at.ReadCq? && s.at.left > 0 ==> s.cq.taken < |s.cq.log|
    ensures s.at.ReadRx? && s.at.left > 0 ==> s.rx.taken < |s.rx.log|
    ensures !s.at.FillWrite? ==> s.fq.staged == []
    ensures !s.at.TxWrite? ==> s.tx.staged == []
    ensures s.at.Top? || s.at.RxCheck? || s.at.FillDone? || s.at.TxDone? ==> s.batch == []
    ensures s.bench == L2Fwd && s.at.FillDone? ==>
              s.at.n % TWO32 == s.at.n && Minus(s.outstanding, s.at.n % TWO32) == s.outstanding - s.at.n
    ensures s.at.TxDone? ==> s.at.n % TWO32 == s.at.n && Plus(s.outstanding, s.at.n % TWO32) == s.outstanding + s.at.n
  {
    hide Conserved, Minus, Plus;
    if s.at.FillDone? || s.at.TxDone? { FitsExactly(s.outstanding, s.at.n); }
    SendingBound(s);
  }

  /** A batch is refused only when the ring as it is now has no room for it. */
  lemma RefusedForRoom(s: State)
    requires Inv(s)
    ensures s.at.FillCheck? && UserStep(s).at.FillDone? ==>
              s.fq.staged == [] && |s.fq.log| + |s.batch| > s.fq.released + NUM_DESCS
    ensures s.at.TxCheck? && UserStep(s).at.Failed? ==>
              s.tx.staged == [] && |s.tx.log| + |s.batch| > s.tx.released + NUM_DESCS
  {
    hide Conserved;
  }

  lemma ReadUnderway(s0: State, s: State)
    requires Begins(s0) && Underway(s0, s) && !Over(s0, s) && (s.at.ReadCq? || s.at.ReadRx?) && s.at.left > 0
    ensures Underway(s0, UserStep(s))
  {
    hide Inv, Most, Enough, Filled;
    UserKeeps(s);
    Known(s);
    Known(UserStep(s));
    var from := From(s0.at, s);
    SliceMore(from.log, From(s0.at, s0).taken, from.taken);
    assert |Got(s0, UserStep(s))| + (s.at.left - 1) == |Got(s0, s)| + s.at.left;
  }

  lemma AllRead(s0: State, s: State)
    requires Begins(s0) && Underway(s0, s) && !Over(s0, s) && (s.at.ReadCq? || s.at.ReadRx?) && s.at.left == 0
    ensures Underway(s0, UserStep(s))
  {
    hide Inv, Most, Enough;
    UserKeeps(s);
    Known(s);
    Known(UserStep(s));
  }

  lemma WriteUnderway(s0: State, s: State)
    requires Begins(s0) && Underway(s0, s) && !Over(s0, s) && (s.at.FillWrite? || s.at.TxWrite?)
    ensures Underway(s0, UserStep(s))
  {
    hide Inv, Most;
    UserKeeps(s);
    Known(s);
    var to := To(s0.at, s);
    if s.batch != [] {
      assert to.staged + [s.batch[0]] + s.batch[1..] == to.staged + s.batch;
    } else {
      assert to.staged + [] == to.staged;
    }
  }

  lemma CheckUnderway(s0: State, s: State)
    requires Begins(s0) && Underway(s0, s) && !Over(s0, s) && (s.at.FillCheck? || s.at.TxCheck?)
    ensures Underway(s0, UserStep(s))
  {
    hide Inv, Most;
    UserKeeps(s);
    Known(s);
    RefusedForRoom(s);
    if UserStep(s).at.FillDone? || UserStep(s).at.Failed? {
      assert To(s0.at, s).staged + s.batch == s.batch;
    }
  }

  lemma AskUnderway(s0: State, s: State)
    requires Begins(s0) && Underway(s0, s) && !Over(s0, s)
    requires s.at.Top? || s.at.RxCheck? || s.at.FillDone? || s.at.TxDone? || s.at.Failed?
    ensures Underway(s0, UserStep(s))
  {
    hide Inv, Minus, Plus;
    UserKeeps(s);
    Known(s);
  }

  lemma RingsMove(begin: Point, s: State, m: KernelMove)
    requires Inv(s) && May(s, m)
    ensures var s', from, to := Moved(s, m), From(begin, s), To(begin, s);
            From(begin, s').taken == from.taken <= |from.log| && from.log <= From(begin, s').log
            && To(begin, s').log == to.log && To(begin, s').staged == to.staged && to.released <= To(begin, s').released
            && s'.at == s.at && s'.batch == s.batch && s'.bench == s.bench && s'.outstanding == s.outstanding
  {
    hide Conserved, PointOk;
  }

  lemma IsInv(s0: State, s: State)
    requires Underway(s0, s)
    ensures Inv(s)
  {
    hide Inv;
  }

  lemma KernelUnderway(s0: State, s: State, m: KernelMove)
    requires Begins(s0) && Underway(s0, s) && May(s, m)
    ensures Underway(s0, Moved(s, m))
  {
    hide Inv, Most;
    IsInv(s0, s);
    NextKeeps(s, Kernel(m));
    RingsMove(s0.at, s, m);
    assert Got(s0, Moved(s, m)) == Got(s0, s);
  }

  /** The part that began in s0 is not over before the last of the steps. */
  predicate NotBefore(s0: State, s: State, steps: seq<Step>)
    decreases |steps|
  {
    steps == [] || (!Over(s0, s) && NotBefore(s0, Next(s, steps[0]), steps[1..]))
  }

  lemma {:induction false} StaysUnderway(s0: State, s: State, steps: seq<Step>)
    requires Begins(s0) && Underway(s0, s) && NotBefore(s0, s, steps)
    ensures Underway(s0, Run(s, steps))
    decreases |steps|
  {
    hide Underway, Inv, UserStep, Moved, Over;
    if steps != [] {
      match steps[0] {
        case User =>
          if s.at.ReadCq? || s.at.ReadRx? {
            if s.at.left > 0 { ReadUnderway(s0, s); } else { AllRead(s0, s); }
          } else if s.at.FillWrite? || s.at.TxWrite? {
            WriteUnderway(s0, s);
          } else if s.at.FillCheck? || s.at.TxCheck? {
            CheckUnderway(s0, s);
          } else {
            AskUnderway(s0, s);
          }
        case Kernel(m) => if May(s, m) { KernelUnderway(s0, s, m); }
      }
      StaysUnderway(s0, Next(s, steps[0]), steps[1..]);
    }
  }

  /** A part of a loop body, from where it begins to where it first is over, whatever the kernel does between
      its steps: it has read out the oldest items of one ring and published them, all and in order, in the
      other, or, for want of room there, none; and outstanding_tx has moved by their number. */
  lemma PassDoesWhatItSays(s0: State, steps: seq<Step>)
    requires Inv(s0) && Begins(s0) && NotBefore(s0, s0, steps) && Over(s0, Run(s0, steps))
    ensures var s := Run(s0, steps);
            var from0, from, to0, to := From(s0.at, s0), From(s0.at, s), To(s0.at, s0), To(s0.at, s);
            from0.taken <= from.taken <= |from.log|
            && var got := from.log[from0.taken..from.taken];
               Drained(from0, from, got, Most(s0)) && Filled(to0, to, got, NUM_DESCS)
               && (s.at == Failed ==> to.log == to0.log) && s.outstanding == Outstanding(s0, s, |got|)
  {
    hide Run, NotBefore, UserStep, Conserved;
    StaysUnderway(s0, s0, steps);
  }
}
