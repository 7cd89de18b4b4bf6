/** That the mutexes of the socket wrapper protect what the threads share. */
module Races {
  import opened Locks

  /** The mutex that goes with a piece of shared data. */
  function Guard(d: Datum): Lock {
    match d
    case SocketsArray => Sockets
    case Unmapping => SocketReset
    case FreeList => FirstFree
    case Info(i) => Si(i)
    case AutobindStart => Autobind
    case MaxMtu => Mtu
    case CaptureFile => Pcap
    case Symbols => Binding
  }

  /** Run under the locks of held, the code touches nothing without its mutex. */
  predicate Guarded(p: Prog, held: set<Lock>) {
    match p
    case Skip => true
    case Touch(d) => Guard(d) in held
    case Seq(a, b) => Guarded(a, held) && Guarded(b, held)
    case Choice(a, b) => Guarded(a, held) && Guarded(b, held)
    case Loop(b) => Guarded(b, held)
    case Locked(l, b) => Guarded(b, held + {l})
  }

  /** What a piece of code may touch. */
  function Data(p: Prog): set<Datum> {
    match p
    case Skip => {}
    case Touch(d) => {d}
    case Seq(a, b) => Data(a) + Data(b)
    case Choice(a, b) => Data(a) + Data(b)
    case Loop(b) => Data(b)
    case Locked(_, b) => Data(b)
  }

  // ------------------------------------------------------------------ the code

  /** Guarded, one construct at a time. */
  lemma Rules()
    ensures forall held :: Guarded(Skip, held)
    ensures forall d, held {:trigger Guarded(Touch(d), held)} :: Guarded(Touch(d), held) <==> Guard(d) in held
    ensures forall a, b, held {:trigger Guarded(Seq(a, b), held)} ::
              Guarded(Seq(a, b), held) <==> Guarded(a, held) && Guarded(b, held)
    ensures forall a, b, held {:trigger Guarded(Choice(a, b), held)} ::
              Guarded(Choice(a, b), held) <==> Guarded(a, held) && Guarded(b, held)
    ensures forall b, held {:trigger Guarded(Loop(b), held)} :: Guarded(Loop(b), held) <==> Guarded(b, held)
    ensures forall l, b, held {:trigger Guarded(Locked(l, b), held)} ::
              Guarded(Locked(l, b), held) <==> Guarded(b, held + {l})
  {
  }

  lemma LibCGuarded(held: set<Lock>)
    ensures Guarded(LibC(), held)
  {
    hide Guarded;
    Rules();
  }

  lemma DumpGuarded(i: nat, held: set<Lock>)
    requires Si(i) in held
    ensures Guarded(PcapDump(i), held) && Guarded(ThreeDumps(i), held) && Guarded(AutoBind(i), held)
  {
    hide Guarded, LibC;
    Rules();
    LibCGuarded(held + {Pcap});
    LibCGuarded(held + {Autobind});
  }

  lemma TableGuarded(i: nat, held: set<Lock>)
    ensures Guarded(RemoveStale(i), held) && Guarded(AddSocketInfo(i), held)
  {
    hide Guarded;
    Rules();
  }

  lemma LeavesGuarded()
    ensures forall held :: Guarded(LibC(), held)
    ensures forall i, held :: Si(i) in held ==> Guarded(PcapDump(i), held)
    ensures forall i, held :: Si(i) in held ==> Guarded(AutoBind(i), held)
    ensures forall i, held :: Guarded(RemoveStale(i), held)
    ensures forall i, held :: Guarded(AddSocketInfo(i), held)
  {
    hide Guarded, LibC, PcapDump, AutoBind, RemoveStale, AddSocketInfo;
    forall held ensures Guarded(LibC(), held) { LibCGuarded(held); }
    forall i, held | Si(i) in held ensures Guarded(PcapDump(i), held) { DumpGuarded(i, held); }
    forall i, held | Si(i) in held ensures Guarded(AutoBind(i), held) { DumpGuarded(i, held); }
    forall i, held ensures Guarded(RemoveStale(i), held) { TableGuarded(i, held); }
    forall i, held ensures Guarded(AddSocketInfo(i), held) { TableGuarded(i, held); }
  }

  lemma CloseGuarded(i: nat, held: set<Lock>)
    ensures Guarded(Close(i), held)
  {
    hide Guarded, LibC, PcapDump;
    Rules();
    LeavesGuarded();
  }

  lemma IOGuarded(i: nat, held: set<Lock>)
    ensures Guarded(BeforeIO(i), held) && Guarded(AfterIO(i), held)
  {
    hide Guarded, LibC, PcapDump, AutoBind, RemoveStale;
    Rules();
    LeavesGuarded();
  }

  lemma AcceptGuarded(parent: nat, stale: nat, child: nat)
    ensures Guarded(AcceptBody(parent, stale, child), {})
  {
    hide Guarded, LibC, PcapDump, RemoveStale, AddSocketInfo, Close;
    Rules();
    LeavesGuarded();
    CloseGuarded(stale, {});
  }

  /** Whatever a call does with shared data it does under the mutex that goes with it. */
  lemma CodeIsGuarded(c: Call)
    ensures Guarded(Body(c), {})
  {
    hide Guarded, LibC, PcapDump, AutoBind, RemoveStale, AddSocketInfo, Close, BeforeIO, AfterIO, AcceptBody;
    Rules();
    LeavesGuarded();
    match c {
      case CloseCall(i) => CloseGuarded(i, {});
      case Dup2Call(i, replaced, stale) => CloseGuarded(replaced, {});
      case Accept(parent, stale, child) => AcceptGuarded(parent, stale, child);
      case Send(i) => IOGuarded(i, {});
      case Receive(i) => IOGuarded(i, {});
      case _ =>
    }
  }

  /** What each call touches. */
  lemma DataOfCalls(c: Call)
    ensures Data(Body(c)) ==
            match c
            case Socket(stale, new_) => {SocketsArray, FreeList, Unmapping, Info(stale), Info(new_), Symbols}
            case CloseCall(i) => {FreeList, Unmapping, Info(i), CaptureFile, Symbols}
            case DupCall(i, stale) => {FreeList, Unmapping, Info(i), Info(stale), Symbols}
            case Dup2Call(i, replaced, stale) =>
              {FreeList, Unmapping, Info(i), Info(replaced), Info(stale), CaptureFile, Symbols}
            case Accept(parent, stale, child) =>
              {FreeList, Unmapping, Info(parent), Info(stale), Info(child), CaptureFile, Symbols}
            case Connect(i) => {Info(i), AutobindStart, CaptureFile, Symbols}
            case BindCall(i) => {Info(i), Symbols}
            case Listen(i) => {Info(i), AutobindStart, Symbols}
            case Names(i) => {Info(i), Symbols}
            case Ioctl(i) => {Info(i), CaptureFile, Symbols}
            case Send(i) => {FreeList, Unmapping, Info(i), AutobindStart, MaxMtu, CaptureFile, Symbols}
            case Receive(i) => {FreeList, Unmapping, Info(i), AutobindStart, MaxMtu, CaptureFile, Symbols}
            case OtherDescriptor(stale) => {FreeList, Unmapping, Info(stale), Symbols}
  {
    hide Data, LibC, PcapDump, AutoBind, RemoveStale, AddSocketInfo, Close, BeforeIO, AfterIO, Dup;
    DataRules();
    DataOfParts();
  }

  lemma DataRules()
    ensures Data(Skip) == {}
    ensures forall d :: Data(Touch(d)) == {d}
    ensures forall a, b {:trigger Data(Seq(a, b))} :: Data(Seq(a, b)) == Data(a) + Data(b)
    ensures forall a, b {:trigger Data(Choice(a, b))} :: Data(Choice(a, b)) == Data(a) + Data(b)
    ensures forall b {:trigger Data(Loop(b))} :: Data(Loop(b)) == Data(b)
    ensures forall l, b {:trigger Data(Locked(l, b))} :: Data(Locked(l, b)) == Data(b)
  {
  }

  lemma DataOfLeaves()
    ensures Data(LibC()) == {Symbols}
    ensures forall i :: Data(PcapDump(i)) == {Info(i), CaptureFile, Symbols}
    ensures forall i :: Data(AutoBind(i)) == {Info(i), AutobindStart, Symbols}
    ensures forall i :: Data(RemoveStale(i)) == {Info(i), FreeList, Unmapping}
    ensures forall i :: Data(AddSocketInfo(i)) == {Info(i), FreeList}
  {
    hide Data;
    DataRules();
  }

  lemma DataOfParts()
    ensures Data(LibC()) == {Symbols}
    ensures forall i :: Data(PcapDump(i)) == {Info(i), CaptureFile, Symbols}
    ensures forall i :: Data(AutoBind(i)) == {Info(i), AutobindStart, Symbols}
    ensures forall i :: Data(RemoveStale(i)) == {Info(i), FreeList, Unmapping}
    ensures forall i :: Data(AddSocketInfo(i)) == {Info(i), FreeList}
    ensures forall i :: Data(Close(i)) == {Info(i), FreeList, Unmapping, CaptureFile, Symbols}
    ensures forall i :: Data(BeforeIO(i)) == {Info(i), FreeList, Unmapping, AutobindStart, MaxMtu, Symbols}
    ensures forall i :: Data(AfterIO(i)) == {Info(i), FreeList, Unmapping, CaptureFile, Symbols}
    ensures forall i, j {:trigger Data(Dup(i, j))} ::
              Data(Dup(i, j)) == {Info(i), Info(j), FreeList, Unmapping, Symbols}
  {
    hide Data, LibC, PcapDump, AutoBind, RemoveStale, AddSocketInfo;
    DataRules();
    DataOfLeaves();
  }

  // ------------------------------------------------------------------ the threads

  /** What a thread has yet to do touches nothing without its mutex, given the locks it holds by then. */
  ghost predicate StackGuarded(st: Stack)
    decreases |st|
  {
    st == [] || (StackGuarded(st[1..]) && (st[0].Run? ==> Guarded(st[0].p, Held(st[1..]))))
  }

  ghost predicate Safe(s: System) {
    Inv(s) && forall t :: 0 <= t < |s.threads| ==> StackGuarded(s.threads[t])
  }

  lemma PushGuarded(item: Item, rest: Stack)
    ensures StackGuarded([item] + rest) <==> StackGuarded(rest) && (item.Run? ==> Guarded(item.p, Held(rest)))
  {
    assert ([item] + rest)[1..] == rest;
  }

  lemma StepGuarded(st: Stack, choice: bool)
    requires st != [] && StackGuarded(st)
    ensures StackGuarded(Expand(st[0], choice) + st[1..])
  {
    hide StackGuarded, Held, Guarded;
    Rules();
    var rest := st[1..];
    assert st == [st[0]] + rest;
    PushGuarded(st[0], rest);
    if st[0].Run? {
      match st[0].p {
        case Skip => assert Expand(st[0], choice) + rest == rest;
        case Touch(_) => assert Expand(st[0], choice) + rest == rest;
        case Seq(a, b) =>
          PushGuarded(Run(b), rest);
          PushGuarded(Run(a), [Run(b)] + rest);
          Push(Run(b), rest);
          assert Held([Run(b)] + rest) == Held(rest);
          assert Expand(st[0], choice) + rest == [Run(a)] + ([Run(b)] + rest);
        case Choice(a, b) => PushGuarded(Run(if choice then a else b), rest);
        case Loop(b) =>
          PushGuarded(Run(b), [st[0]] + rest);
          Push(st[0], rest);
          assert Held([st[0]] + rest) == Held(rest);
          assert Expand(st[0], choice) + rest == if choice then [Run(b)] + ([st[0]] + rest) else rest;
        case Locked(l, b) =>
          PushGuarded(Unlock(l), rest);
          PushGuarded(Run(b), [Unlock(l)] + rest);
          Push(Unlock(l), rest);
          assert Expand(st[0], choice) + rest == [Run(b)] + ([Unlock(l)] + rest);
      }
    } else {
      assert Expand(st[0], choice) + rest == rest;
    }
  }

  lemma {:induction false} ScheduleSafe(s: System, picks: seq<(nat, bool)>)
    requires Safe(s)
    ensures Safe(Schedule(s, picks))
    decreases |picks|
  {
    hide Inv, StackGuarded, CanStep, Expand;
    if picks != [] {
      var (t, choice) := picks[0];
      if CanStep(s, t) {
        StepKeeps(s, t, choice);
        InRange(s, t);
        StepGuarded(s.threads[t], choice);
        assert Step(s, t, choice).threads == s.threads[t := Expand(s.threads[t][0], choice) + s.threads[t][1..]];
        ScheduleSafe(Step(s, t, choice), picks[1..]);
      } else {
        ScheduleSafe(s, picks[1..]);
      }
    }
  }

  lemma InRange(s: System, t: nat)
    requires CanStep(s, t)
    ensures t < |s.threads| && s.threads[t] != []
  {
  }

  lemma {:induction false} ThreadGuarded(calls: seq<Call>)
    ensures StackGuarded(Thread(calls))
  {
    hide StackGuarded, Guarded, Body, Held;
    if calls == [] {
      NothingToGuard();
    } else {
      ThreadGuarded(calls[1..]);
      ThreadOk(calls[1..]);
      CodeIsGuarded(calls[0]);
      PushGuarded(Run(Body(calls[0])), Thread(calls[1..]));
    }
  }

  lemma NothingToGuard()
    ensures StackGuarded([])
  {
  }

  /** A thread is about to touch a piece of shared data. */
  predicate AboutToTouch(s: System, t: nat, d: Datum) {
    t < |s.threads| && s.threads[t] != [] && s.threads[t][0] == Run(Touch(d))
  }

  lemma Owns(s: System, t: nat, d: Datum)
    requires Safe(s) && AboutToTouch(s, t, d)
    ensures Guard(d) in s.owner && s.owner[Guard(d)] == t
  {
    var st := s.threads[t];
    assert StackGuarded(st) && Guarded(st[0].p, Held(st[1..]));
    assert Guard(d) in Held(st);
  }

  /** No data races: whatever calls any number of threads make in turn, and however they are scheduled, a thread
      about to touch a piece of shared data owns its mutex, so that no two threads are ever about to touch the
      same. */
  lemma NoRaces(calls: seq<seq<Call>>, picks: seq<(nat, bool)>, t: nat, d: Datum)
    ensures var s := Schedule(Start(calls), picks);
            AboutToTouch(s, t, d) ==>
              Guard(d) in s.owner && s.owner[Guard(d)] == t && forall u: nat :: AboutToTouch(s, u, d) ==> u == t
  {
    hide Inv, StackGuarded, Thread, Schedule, Guard, AboutToTouch;
    StartOk(calls);
    forall t | 0 <= t < |calls| ensures StackGuarded(Thread(calls[t])) {
      ThreadGuarded(calls[t]);
    }
    ScheduleSafe(Start(calls), picks);
    var s := Schedule(Start(calls), picks);
    forall u: nat | AboutToTouch(s, u, d) ensures Guard(d) in s.owner && s.owner[Guard(d)] == u {
      Owns(s, u, d);
    }
  }
}
