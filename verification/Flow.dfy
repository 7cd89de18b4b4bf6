/** What the drivers of module Forwarding do with the frames, beyond not losing them: order and progress. */
module Flow {
  import opened Words
  import opened Rings
  import opened Frames
  import opened Forwarding

  /** The frames in hand that go to the tx ring, and those that go back to the fill ring. */
  function ToSend(s: State): seq<nat> {
    if s.bench == L2Fwd && (s.at.ReadRx? || s.at.TxCheck? || s.at.TxWrite? || s.at.Failed?) then s.batch else []
  }

  function ToRefill(s: State): seq<nat> {
    if ToSend(s) == [] then s.batch else []
  }

  /** Addresses the driver has read that it owes to the fill ring, oldest first. */
  function ReadBack(s: State): seq<nat>
    requires RingsOk(s)
  {
    if s.bench == L2Fwd then s.cq.log[..s.cq.taken] else s.rx.log[..s.rx.taken]
  }

  // ------------------------------------------------------------------ sequences that make up another

  /** Taking a and b apart again, all keeps the order of either. */
  ghost predicate Merges<T>(all: seq<T>, a: seq<T>, b: seq<T>)
    decreases |all|
  {
    if all == [] then a == [] && b == []
    else
      var front, x := all[..|all| - 1], all[|all| - 1];
      (a != [] && a[|a| - 1] == x && Merges(front, a[..|a| - 1], b))
      || (b != [] && b[|b| - 1] == x && Merges(front, a, b[..|b| - 1]))
  }

  lemma {:induction false} MergesMore<T>(all: seq<T>, a: seq<T>, b: seq<T>, x: seq<T>)
    requires Merges(all, a, b)
    ensures Merges(all + x, a + x, b) && Merges(all + x, a, b + x)
    decreases |x|
  {
    if x == [] {
      assert all + x == all && a + x == a && b + x == b;
    } else {
      var front, last := x[..|x| - 1], x[|x| - 1];
      MergesMore(all, a, b, front);
      assert all + x == (all + front) + [last] && a + x == (a + front) + [last] && b + x == (b + front) + [last];
      MergesOne(all + front, a + front, b, last);
      MergesOne(all + front, a, b + front, last);
    }
  }

  lemma MergesOne<T>(all: seq<T>, a: seq<T>, b: seq<T>, x: T)
    requires Merges(all, a, b)
    ensures Merges(all + [x], a + [x], b) && Merges(all + [x], a, b + [x])
  {
    assert (all + [x])[..|all|] == all && (a + [x])[..|a|] == a && (b + [x])[..|b|] == b;
  }

  lemma {:induction false} MergesNone<T>(all: seq<T>, a: seq<T>)
    ensures Merges(all, a, []) <==> all == a
    decreases |all|
  {
    if all != [] {
      var front, x := all[..|all| - 1], all[|all| - 1];
      if a != [] {
        MergesNone(front, a[..|a| - 1]);
        assert all == front + [x] && a == a[..|a| - 1] + [a[|a| - 1]];
      }
    }
  }

  /** Of what is owed, the newest part is pending, and the rest is in log or lost, in order. */
  ghost predicate Settles<T>(owed: seq<T>, pending: seq<T>, log: seq<T>, lost: seq<T>) {
    |pending| <= |owed| && owed[|owed| - |pending|..] == pending
    && Merges(owed[..|owed| - |pending|], log, lost)
  }

  lemma SettlesRead<T>(owed: seq<T>, pending: seq<T>, log: seq<T>, lost: seq<T>, x: T)
    requires Settles(owed, pending, log, lost)
    ensures Settles(owed + [x], pending + [x], log, lost)
  {
    assert (owed + [x])[..|owed| - |pending|] == owed[..|owed| - |pending|];
  }

  lemma SettlesPending<T>(owed: seq<T>, pending: seq<T>, log: seq<T>, lost: seq<T>)
    requires Settles(owed, pending, log, lost)
    ensures Settles(owed, [], log + pending, lost) && Settles(owed, [], log, lost + pending)
  {
    var settled := owed[..|owed| - |pending|];
    MergesMore(settled, log, lost, pending);
    assert settled + pending == owed[..|owed| - 0];
  }

  // ------------------------------------------------------------------ the order of sends

  ghost predicate SendsInOrder(s: State) {
    Inv(s) && s.rx.taken <= |s.rx.log|
    && (s.bench == L2Fwd ==> s.tx.log + s.tx.staged + ToSend(s) == s.rx.log[..s.rx.taken])
  }

  lemma Move<T>(a: seq<T>, b: seq<T>, x: seq<T>)
    requires x != []
    ensures a + (b + [x[0]]) + x[1..] == a + b + x
    ensures a + b + [] == a + b && a + [] == a
  {
  }

  lemma Regroup<T>(a: seq<T>, b: seq<T>, c: seq<T>)
    ensures a + b + c == a + (b + c)
  {
  }

  lemma UserSends(s: State)
    requires SendsInOrder(s)
    ensures SendsInOrder(UserStep(s))
  {
    hide Inv, Minus, Plus;
    UserKeeps(s);
    Known(s);
    Known(UserStep(s));
    if s.at.ReadRx? && s.at.left > 0 {
      var x := s.rx.log[s.rx.taken];
      assert s.rx.log[..s.rx.taken + 1] == s.rx.log[..s.rx.taken] + [x];
      Regroup(s.tx.log + s.tx.staged, s.batch, [x]);
    } else if s.at.TxWrite? {
      if s.batch != [] {
        Move(s.tx.log, s.tx.staged, s.batch);
      } else {
        assert s.tx.log + s.tx.staged + [] == s.tx.log + s.tx.staged;
      }
    }
  }

  lemma KernelSends(s: State, m: KernelMove)
    requires SendsInOrder(s) && May(s, m)
    ensures SendsInOrder(Moved(s, m))
  {
    hide Inv;
    NextKeeps(s, Kernel(m));
    KernelLeaves(s, m);
  }

  /** What a kernel move leaves as it is. */
  lemma KernelLeaves(s: State, m: KernelMove)
    requires Inv(s) && May(s, m)
    ensures var s' := Moved(s, m);
            s.rx.taken <= |s.rx.log| && s'.rx.taken == s.rx.taken && s.rx.log <= s'.rx.log
            && s.cq.taken <= |s.cq.log| && s'.cq.taken == s.cq.taken && s.cq.log <= s'.cq.log
            && s'.tx.log == s.tx.log && s'.tx.staged == s.tx.staged
            && s'.fq.log == s.fq.log && s'.fq.staged == s.fq.staged
            && s'.at == s.at && s'.batch == s.batch && s'.bench == s.bench && s'.lost == s.lost
            && s'.rx.log[..s.rx.taken] == s.rx.log[..s.rx.taken] && s'.cq.log[..s.cq.taken] == s.cq.log[..s.cq.taken]
  {
    hide Conserved, PointOk;
  }

  // ------------------------------------------------------------------ the order of refills

  /** What the driver has owed to the fill ring since the beginning. */
  function Owed(s: State): seq<nat>
    requires RingsOk(s)
  {
    FrameStarts(NUM_DESCS) + ReadBack(s)
  }

  ghost predicate RefillsOk(s: State) {
    Inv(s) && Settles(Owed(s), s.fq.staged + ToRefill(s), s.fq.log, s.lost)
  }

  lemma Known(s: State)
    requires Inv(s)
    ensures RingsOk(s) && s.cq.taken <= |s.cq.log| && s.rx.taken <= |s.rx.log|
    ensures !s.at.FillWrite? ==> s.fq.staged == []
    ensures s.at.ReadCq? ==> s.bench == L2Fwd && (s.at.left > 0 ==> s.cq.taken < |s.cq.log|)
    ensures s.at.ReadRx? && s.at.left > 0 ==> s.rx.taken < |s.rx.log|
    ensures s.at.TxCheck? || s.at.TxWrite? || s.at.Failed? ==> s.bench == L2Fwd
    ensures s.at.Top? || s.at.RxCheck? || s.at.FillDone? || s.at.TxDone? ==> s.batch == []
  {
    hide Conserved;
  }

  lemma ReadRefills(s: State)
    requires RefillsOk(s) && (s.at.ReadCq? || s.at.ReadRx?)
    ensures RefillsOk(UserStep(s))
  {
    hide Inv, RingsOk, Settles, FrameStarts;
    UserKeeps(s);
    Known(s);
    Known(UserStep(s));
    if s.at.left > 0 && (s.at.ReadCq? || s.bench == RxDrop) {
      var r := if s.at.ReadCq? then s.cq else s.rx;
      var x := r.log[r.taken];
      assert r.log[..r.taken + 1] == r.log[..r.taken] + [x];
      SettlesRead(Owed(s), s.fq.staged + ToRefill(s), s.fq.log, s.lost, x);
      Regroup(FrameStarts(NUM_DESCS), r.log[..r.taken], [x]);
      Regroup(s.fq.staged, s.batch, [x]);
    }
  }

  lemma FillRefills(s: State)
    requires RefillsOk(s) && (s.at.FillCheck? || s.at.FillWrite?)
    ensures RefillsOk(UserStep(s))
  {
    hide Inv, RingsOk, Settles, FrameStarts;
    UserKeeps(s);
    Known(s);
    Known(UserStep(s));
    SettlesPending(Owed(s), s.fq.staged + s.batch, s.fq.log, s.lost);
    if s.at.FillCheck? {
      var s' := UserStep(s);
      assert s.fq.staged + s.batch == s.batch;
      assert s'.batch == [] ==> s'.fq.staged + ToRefill(s') == [];
    } else if s.batch != [] {
      assert s.fq.staged + [s.batch[0]] + s.batch[1..] == s.fq.staged + s.batch;
    } else {
      assert s.fq.staged + s.batch == s.fq.staged;
      assert UserStep(s).fq.staged + ToRefill(UserStep(s)) == [];
    }
  }

  lemma OtherRefills(s: State)
    requires RefillsOk(s) && !s.at.ReadCq? && !s.at.ReadRx? && !s.at.FillCheck? && !s.at.FillWrite?
    ensures RefillsOk(UserStep(s))
  {
    hide Inv, RingsOk, Settles, FrameStarts, Minus, Plus;
    UserKeeps(s);
    Known(s);
    Known(UserStep(s));
  }

  lemma KernelRefills(s: State, m: KernelMove)
    requires RefillsOk(s) && May(s, m)
    ensures RefillsOk(Moved(s, m))
  {
    hide Inv, RingsOk, Settles, FrameStarts;
    NextKeeps(s, Kernel(m));
    KernelLeaves(s, m);
    Known(Moved(s, m));
    Known(s);
  }

  ghost predicate InOrder(s: State) {
    SendsInOrder(s) && RefillsOk(s)
  }

  lemma NextOrder(s: State, step: Step)
    requires InOrder(s)
    ensures InOrder(Next(s, step))
  {
    hide SendsInOrder, RefillsOk, UserStep, Moved;
    match step {
      case User =>
        UserSends(s);
        if s.at.ReadCq? || s.at.ReadRx? {
          ReadRefills(s);
        } else if s.at.FillCheck? || s.at.FillWrite? {
          FillRefills(s);
        } else {
          OtherRefills(s);
        }
      case Kernel(m) =>
        if May(s, m) {
          KernelSends(s, m);
          KernelRefills(s, m);
        }
    }
  }

  lemma {:induction false} RunOrder(s: State, steps: seq<Step>)
    requires InOrder(s)
    ensures InOrder(Run(s, steps))
    decreases |steps|
  {
    hide InOrder, Next;
    if steps != [] {
      NextOrder(s, steps[0]);
      RunOrder(Next(s, steps[0]), steps[1..]);
    }
  }

  /** l2fwd: what has been put in the tx ring, followed by what is in hand, is what was read from the
      rx ring, address for address and in the same order. */
  lemma ForwardsInOrder(steps: seq<Step>)
    ensures var s := Run(Start(L2Fwd), steps);
            RingsOk(s) && s.tx.log + s.tx.staged + ToSend(s) == s.rx.log[..s.rx.taken]
  {
    hide Run;
    StartInOrder(L2Fwd);
    RunOrder(Start(L2Fwd), steps);
    BenchStays(Start(L2Fwd), steps);
  }

  /** The initial frames, followed by what was read back (from the completion ring in l2fwd, from the rx ring in
      rxdrop), end with what is being refilled; the rest of them is what has been published in the fill ring
      and what refused refills lost, either in order. Without a refused refill, the fill ring has it all. */
  lemma RefillsInOrder(bench: Bench, steps: seq<Step>)
    ensures var s := Run(Start(bench), steps);
            RingsOk(s) && Settles(Owed(s), s.fq.staged + ToRefill(s), s.fq.log, s.lost)
            && (s.lost == [] ==> s.fq.log + (s.fq.staged + ToRefill(s)) == Owed(s))
  {
    hide Run, FrameStarts, Settles, Owed, SendsInOrder, Conserved, PointOk, ToRefill;
    StartInOrder(bench);
    RunOrder(Start(bench), steps);
    var s := Run(Start(bench), steps);
    if s.lost == [] {
      NothingLost(Owed(s), s.fq.staged + ToRefill(s), s.fq.log);
    }
  }

  lemma NothingLost<T>(owed: seq<T>, pending: seq<T>, log: seq<T>)
    requires Settles(owed, pending, log, [])
    ensures log + pending == owed
  {
    MergesNone(owed[..|owed| - |pending|], log);
    assert owed == owed[..|owed| - |pending|] + owed[|owed| - |pending|..];
  }

  lemma StartInOrder(bench: Bench)
    ensures InOrder(Start(bench))
  {
    hide FrameStarts, Settles;
    StartOk(bench);
    var s := Start(bench);
    assert Owed(s) == FrameStarts(NUM_DESCS) && s.fq.staged + ToRefill(s) == [];
    AllSettled(FrameStarts(NUM_DESCS));
  }

  lemma AllSettled<T>(all: seq<T>)
    ensures Settles(all, [], all, [])
  {
    MergesNone(all, all);
    assert all[..|all| - 0] == all;
  }

  // ------------------------------------------------------------------ progress

  /** How many more steps of its own the driver needs, at most, to be back at the head of its loop. */
  function Remaining(s: State): nat {
    match s.at
    case Top => 0
    case TxDone(_) => 1
    case TxWrite(_) => 2 + |s.batch|
    case TxCheck => 19
    case ReadRx(left) => 20 + left
    case RxCheck => 37
    case FillDone(_) => if s.bench == L2Fwd then 38 else 1
    case FillWrite(_) => (if s.bench == L2Fwd then 39 else 2) + |s.batch|
    case FillCheck => if s.bench == L2Fwd then 56 else 19
    case ReadCq(left) => 57 + left
    case Failed => 0
  }

  /** Unless the assertion has fired, every driver step inside the loop body brings the head of the loop
      nearer, and nothing the kernel does puts it off: a round takes at most 74 driver steps. */
  lemma RoundsEnd(s: State, m: KernelMove)
    requires Inv(s)
    ensures s.at != Top && s.at != Failed ==> Remaining(UserStep(s)) < Remaining(s)
    ensures May(s, m) ==> Remaining(Moved(s, m)) == Remaining(s)
    ensures Remaining(s) <= 73
  {
    hide Conserved;
  }
}
