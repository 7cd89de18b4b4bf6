/** The mutexes of the socket wrapper, and who may hold which while asking for another. */
module Locks {

  datatype Lock = Sockets | SocketReset | FirstFree | Si(i: nat) | Autobind | Mtu | Pcap | Binding

  function Rank(l: Lock): nat {
    match l
    case Sockets => 1
    case SocketReset => 2
    case FirstFree => 3
    case Si(_) => 4
    case Autobind => 5
    case Mtu => 5
    case Pcap => 5
    case Binding => 6
  }

  /** What the threads share: the array of sockets, while it is set up; looking a descriptor up and dropping it;
      the free list, head and links; an entry's reference count and socket; autobind_start; max_mtu, while it is
      set up; the capture file; the libc symbols, while they are bound. */
  datatype Datum = SocketsArray | Unmapping | FreeList | Info(i: nat) | AutobindStart | MaxMtu | CaptureFile | Symbols

  /** The locking skeleton of a piece of code: what it does with shared data, and when; everything else it does is
      a Skip, every test is open. */
  datatype Prog =
    | Skip
    | Touch(d: Datum)
    | Seq(first: Prog, then_: Prog)
    | Choice(one: Prog, other: Prog)
    | Loop(body: Prog)
    | Locked(l: Lock, inside: Prog)

  // ------------------------------------------------------------------ the code

  /** A call into libc: the first one binds the symbol. */
  function LibC(): Prog {
    Choice(Skip, Locked(Binding, Touch(Symbols)))
  }

  function Maybe(p: Prog): Prog {
    Choice(Skip, p)
  }

  /** socket_wrapper_init_sockets. */
  function InitSockets(): Prog {
    Locked(Sockets, Seq(Touch(SocketsArray), Maybe(Locked(FirstFree, Touch(FreeList)))))
  }

  /** swrap_add_socket_info. */
  function AddSocketInfo(i: nat): Prog {
    Locked(FirstFree, Seq(Touch(FreeList), Maybe(Locked(Si(i), Seq(Touch(FreeList), Touch(Info(i)))))))
  }

  /** swrap_remove_stale. */
  function RemoveStale(i: nat): Prog {
    var drop := Seq(Touch(Info(i)), Maybe(Touch(FreeList)));
    Locked(SocketReset, Seq(Touch(Unmapping), Maybe(Locked(FirstFree, Locked(Si(i), drop)))))
  }

  /** swrap_pcap_dump_packet: the packet, opening the file and two writes. */
  function PcapDump(i: nat): Prog {
    var write := Seq(Touch(Info(i)), Seq(LibC(), Seq(LibC(), LibC())));
    Locked(Pcap, Seq(Touch(CaptureFile), Maybe(write)))
  }

  /** What swrap_close does with a descriptor that is not wrapped, such as the capture file's. */
  function CloseUnwrapped(): Prog {
    Seq(Locked(SocketReset, Touch(Unmapping)), LibC())
  }

  /** swrap_pcap_dump_packet when writing the file header fails and the file is closed again. */
  function PcapDumpHeaderFails(i: nat): Prog {
    var write := Seq(Touch(Info(i)), Seq(LibC(), Seq(LibC(), CloseUnwrapped())));
    Locked(Pcap, Seq(Touch(CaptureFile), Maybe(write)))
  }

  /** Three packets in a row: the handshake, or the end of a connection. */
  function ThreeDumps(i: nat): Prog {
    Seq(PcapDump(i), Seq(PcapDump(i), PcapDump(i)))
  }

  /** swrap_close, once it has the locks: libc_close, the count, and at the last reference the packets. */
  function Closing(i: nat): Prog {
    Seq(LibC(), Seq(Touch(Info(i)), Maybe(Seq(Maybe(ThreeDumps(i)), Touch(FreeList)))))
  }

  /** swrap_close. */
  function Close(i: nat): Prog {
    Choice(CloseUnwrapped(), Locked(SocketReset, Seq(Touch(Unmapping), Locked(FirstFree, Locked(Si(i), Closing(i))))))
  }

  /** swrap_auto_bind. */
  function AutoBind(i: nat): Prog {
    var try := Seq(Touch(Info(i)), Maybe(Seq(LibC(), Maybe(Seq(Touch(AutobindStart), Touch(Info(i)))))));
    Locked(Autobind, Seq(Touch(AutobindStart), Maybe(try)))
  }

  /** swrap_dup and F_DUPFD; j is the entry a stale mapping of the new descriptor names. */
  function Dup(i: nat, j: nat): Prog {
    Seq(LibC(), Maybe(Seq(Locked(Si(i), Touch(Info(i))), RemoveStale(j))))
  }

  /** swrap_sendmsg_before and swrap_recvmsg_before. */
  function BeforeIO(i: nat): Prog {
    var prepare := Seq(Maybe(Locked(Mtu, Touch(MaxMtu))), Seq(Maybe(AutoBind(i)), Maybe(LibC())));
    Seq(Locked(Si(i), Seq(Touch(Info(i)), prepare)), Maybe(RemoveStale(i)))
  }

  /** swrap_sendmsg_after and swrap_recvmsg_after. */
  function AfterIO(i: nat): Prog {
    var capture := Seq(Maybe(PcapDump(i)), Maybe(PcapDump(i)));
    Seq(Maybe(RemoveStale(i)), Locked(Si(i), Seq(Touch(Info(i)), capture)))
  }

  /** swrap_socket. */
  function SocketBody(stale: nat, new_: nat): Prog {
    var create := Seq(RemoveStale(stale), Maybe(AddSocketInfo(new_)));
    Seq(Maybe(InitSockets()), Maybe(Seq(LibC(), create)))
  }

  /** swrap_accept. */
  function AcceptBody(parent: nat, stale: nat, child: nat): Prog {
    var capture := Maybe(Locked(Si(child), ThreeDumps(child)));
    var create := Seq(AddSocketInfo(child), Choice(Close(stale), capture));
    var accepted := Seq(Locked(Si(parent), Touch(Info(parent))), Seq(LibC(), Choice(Close(stale), create)));
    var ask := Seq(Locked(Si(parent), Touch(Info(parent))), LibC());
    Choice(LibC(), Seq(ask, Choice(Maybe(RemoveStale(parent)), accepted)))
  }

  /** swrap_connect, dump being what it does to show the SYN. */
  function ConnectDumping(i: nat, dump: Prog): Prog {
    var try := Maybe(Seq(dump, LibC()));
    var outcome := Seq(PcapDump(i), Maybe(PcapDump(i)));
    var connect := Seq(Maybe(AutoBind(i)), Maybe(Seq(try, outcome)));
    Choice(LibC(), Locked(Si(i), Seq(Touch(Info(i)), connect)))
  }

  /** swrap_connect. */
  function ConnectBody(i: nat): Prog {
    ConnectDumping(i, PcapDump(i))
  }

  /** swrap_write, swrap_send, swrap_sendto, swrap_sendmsg and swrap_writev. */
  function SendBody(i: nat): Prog {
    var broadcast := Seq(Loop(LibC()), Locked(Si(i), PcapDump(i)));
    var plain := Seq(Choice(LibC(), Locked(Si(i), Seq(Touch(Info(i)), LibC()))), Maybe(AfterIO(i)));
    var wrapped := Seq(BeforeIO(i), Maybe(Choice(broadcast, plain)));
    Choice(LibC(), Seq(Maybe(Locked(Si(i), Touch(Info(i)))), wrapped))
  }

  /** swrap_read, swrap_recv, swrap_recvfrom, swrap_recvmsg and swrap_readv. */
  function ReceiveBody(i: nat): Prog {
    var plain := Seq(LibC(), Seq(Maybe(AfterIO(i)), Maybe(Locked(Si(i), Touch(Info(i))))));
    var wrapped := Seq(BeforeIO(i), Maybe(plain));
    Choice(LibC(), Seq(Maybe(Locked(Si(i), Touch(Info(i)))), wrapped))
  }

  /** The wrapped calls, by the entries they may touch. */
  datatype Call =
    | Socket(stale: nat, new_: nat)
    | CloseCall(i: nat)
    | DupCall(i: nat, stale: nat)
    | Dup2Call(i: nat, replaced: nat, stale: nat)
    | Accept(parent: nat, stale: nat, child: nat)
    | Connect(i: nat)
    | BindCall(i: nat)
    | Listen(i: nat)
    | Names(i: nat)               // getsockname, getpeername, getsockopt, setsockopt
    | Ioctl(i: nat)
    | Send(i: nat)
    | Receive(i: nat)
    | OtherDescriptor(stale: nat) // open, pipe, eventfd, ...: a new descriptor that is no socket

  function Body(c: Call): Prog {
    match c
    case Socket(stale, new_) => SocketBody(stale, new_)
    case CloseCall(i) => Close(i)
    case DupCall(i, stale) => Choice(LibC(), Dup(i, stale))
    case Dup2Call(i, replaced, stale) => Choice(LibC(), Seq(Maybe(Close(replaced)), Dup(i, stale)))
    case Accept(parent, stale, child) => AcceptBody(parent, stale, child)
    case Connect(i) => ConnectBody(i)
    case BindCall(i) => Choice(LibC(), Locked(Si(i), Seq(Touch(Info(i)), Maybe(LibC()))))
    case Listen(i) =>
      var listen := Seq(Maybe(AutoBind(i)), Maybe(LibC()));
      Choice(LibC(), Locked(Si(i), Seq(Touch(Info(i)), listen)))
    case Names(i) => Choice(LibC(), Locked(Si(i), Seq(Touch(Info(i)), Maybe(LibC()))))
    case Ioctl(i) => Choice(LibC(), Locked(Si(i), Seq(LibC(), Maybe(PcapDump(i)))))
    case Send(i) => SendBody(i)
    case Receive(i) => ReceiveBody(i)
    case OtherDescriptor(stale) => Seq(LibC(), Maybe(RemoveStale(stale)))
  }

  /** Every lock is asked for above all those held: those of rank up to floor, and those around it. */
  predicate Ordered(p: Prog, floor: nat) {
    match p
    case Skip => true
    case Touch(_) => true
    case Seq(a, b) => Ordered(a, floor) && Ordered(b, floor)
    case Choice(a, b) => Ordered(a, floor) && Ordered(b, floor)
    case Loop(b) => Ordered(b, floor)
    case Locked(l, b) => Rank(l) > floor && Ordered(b, Rank(l))
  }

  // ------------------------------------------------------------------ threads

  /** What a thread has yet to do, first thing first. */
  datatype Item = Run(p: Prog) | Unlock(l: Lock)

  type Stack = seq<Item>

  datatype System = System(threads: seq<Stack>, owner: map<Lock, nat>)

  /** A thread about to make calls, one after another. */
  function Thread(calls: seq<Call>): (st: Stack)
    ensures |st| == |calls|
  {
    if calls == [] then [] else [Run(Body(calls[0]))] + Thread(calls[1..])
  }

  /** Threads about to make theirs. */
  function Start(calls: seq<seq<Call>>): System {
    System(seq(|calls|, t requires 0 <= t < |calls| => Thread(calls[t])), map[])
  }

  predicate CanStep(s: System, t: nat) {
    t < |s.threads| && s.threads[t] != []
    && (s.threads[t][0].Run? && s.threads[t][0].p.Locked? ==> s.threads[t][0].p.l !in s.owner)
  }

  /** What is left of an item after one step of it; choice settles its test. */
  function Expand(item: Item, choice: bool): Stack {
    match item
    case Unlock(_) => []
    case Run(p) =>
      match p
      case Skip => []
      case Touch(_) => []
      case Seq(a, b) => [Run(a), Run(b)]
      case Choice(a, b) => if choice then [Run(a)] else [Run(b)]
      case Loop(b) => if choice then [Run(b), Run(p)] else []
      case Locked(l, b) => [Run(b), Unlock(l)]
  }

  function NewOwner(item: Item, t: nat, owner: map<Lock, nat>): map<Lock, nat> {
    if item.Unlock? then owner - {item.l} else if item.p.Locked? then owner[item.p.l := t] else owner
  }

  /** One step of thread t. */
  function Step(s: System, t: nat, choice: bool): System
    requires CanStep(s, t)
  {
    var st := s.threads[t];
    System(s.threads[t := Expand(st[0], choice) + st[1..]], NewOwner(st[0], t, s.owner))
  }

  /** A scheduler's picks; a pick that cannot step is skipped. */
  function Schedule(s: System, picks: seq<(nat, bool)>): System
    decreases |picks|
  {
    if picks == [] then s
    else Schedule(if CanStep(s, picks[0].0) then Step(s, picks[0].0, picks[0].1) else s, picks[1..])
  }

  /** The rank of the lock taken last and still held. */
  function Floor(st: Stack): nat
    decreases |st|
  {
    if st == [] then 0 else if st[0].Unlock? then Rank(st[0].l) else Floor(st[1..])
  }

  /** The locks a thread holds: those it has yet to release. */
  function Held(st: Stack): set<Lock>
    decreases |st|
  {
    if st == [] then {} else Held(st[1..]) + (if st[0].Unlock? then {st[0].l} else {})
  }

  predicate ItemOk(item: Item, floor: nat) {
    match item
    case Run(p) => Ordered(p, floor)
    case Unlock(l) => Rank(l) > floor
  }

  predicate StackOk(st: Stack)
    decreases |st|
  {
    st == [] || (StackOk(st[1..]) && ItemOk(st[0], Floor(st[1..])))
  }

  ghost predicate Inv(s: System) {
    (forall t :: 0 <= t < |s.threads| ==> StackOk(s.threads[t]))
    && (forall t, l :: 0 <= t < |s.threads| && l in Held(s.threads[t]) ==> l in s.owner && s.owner[l] == t)
    && (forall l :: l in s.owner ==> s.owner[l] < |s.threads| && l in Held(s.threads[s.owner[l]]))
  }

  /** A thread's locks all lie at or below its floor. */
  lemma {:induction false} HeldBelowFloor(st: Stack)
    requires StackOk(st)
    ensures forall l :: l in Held(st) ==> Rank(l) <= Floor(st)
    decreases |st|
  {
    if st != [] { HeldBelowFloor(st[1..]); }
  }

  lemma Push(item: Item, rest: Stack)
    ensures StackOk([item] + rest) <==> StackOk(rest) && ItemOk(item, Floor(rest))
    ensures Held([item] + rest) == Held(rest) + (if item.Unlock? then {item.l} else {})
    ensures Floor([item] + rest) == if item.Unlock? then Rank(item.l) else Floor(rest)
  {
    assert ([item] + rest)[1..] == rest;
  }

  /** A step does to a thread's stack what it says, and to the locks it holds what it does to their owners. */
  lemma StepStack(s: System, t: nat, choice: bool)
    requires CanStep(s, t) && StackOk(s.threads[t])
    ensures var st, st' := s.threads[t], Step(s, t, choice).threads[t];
            StackOk(st')
            && Held(st') == if st[0].Unlock? then Held(st) - {st[0].l}
                            else if st[0].p.Locked? then Held(st) + {st[0].p.l} else Held(st)
    ensures s.threads[t][0].Unlock? ==> s.threads[t][0].l in Held(s.threads[t])
  {
    hide StackOk, Held, Floor, Ordered;
    Rules();
    var st, st' := s.threads[t], Step(s, t, choice).threads[t];
    var rest := st[1..];
    assert st == [st[0]] + rest;
    Push(st[0], rest);
    match st[0] {
      case Unlock(l) =>
        HeldBelowFloor(rest);
        assert st' == rest;
      case Run(p) => {
        match p {
          case Skip => assert st' == rest;
          case Touch(_) => assert st' == rest;
          case Seq(a, b) => Push(Run(b), rest); Push(Run(a), [Run(b)] + rest);
            assert st' == [Run(a)] + ([Run(b)] + rest);
          case Choice(a, b) => Push(Run(if choice then a else b), rest);
          case Loop(b) => Push(Run(p), rest); Push(Run(b), [Run(p)] + rest);
            assert st' == if choice then [Run(b)] + ([Run(p)] + rest) else rest;
          case Locked(l, b) => Push(Unlock(l), rest); Push(Run(b), [Unlock(l)] + rest);
            assert st' == [Run(b)] + ([Unlock(l)] + rest);
        }
      }
    }
  }

  lemma StepKeeps(s: System, t: nat, choice: bool)
    requires Inv(s) && CanStep(s, t)
    ensures Inv(Step(s, t, choice))
  {
    hide StackOk, Held;
    StepStack(s, t, choice);
    var s' := Step(s, t, choice);
    forall u, l | 0 <= u < |s'.threads| && l in Held(s'.threads[u])
      ensures l in s'.owner && s'.owner[l] == u
    {
      var item := s.threads[t][0];
      if u != t {
        assert s'.threads[u] == s.threads[u];
        assert l in s.owner && s.owner[l] == u;
        if item.Unlock? { assert s.owner[item.l] == t; }
      } else {
        assert l in Held(s.threads[t]) || (item.Run? && item.p.Locked? && l == item.p.l);
      }
    }
    forall l | l in s'.owner ensures s'.owner[l] < |s'.threads| && l in Held(s'.threads[s'.owner[l]]) {
    }
  }

  // ------------------------------------------------------------------ main results

  /** The library's code asks for locks in one order: sockets, socket_reset, first_free, one socket's own,
      then one of autobind, mtu and pcap, and last the symbol binding. */
  lemma CodeIsOrdered(c: Call)
    ensures Ordered(Body(c), 0)
  {
    hide Ordered, LibC, AutoBind, PcapDump, ThreeDumps, InitSockets, AddSocketInfo, RemoveStale, Dup, Close;
    hide AcceptBody, ConnectBody, SendBody, ReceiveBody;
    Rules();
    LeavesOrdered(0);
    LeavesOrdered(4);
    match c {
      case Socket(stale, new_) => TableOrdered(stale); TableOrdered(new_);
      case CloseCall(i) => CloseOrdered(i);
      case DupCall(i, stale) => DupOrdered(i, stale);
      case Dup2Call(i, replaced, stale) => CloseOrdered(replaced); DupOrdered(i, stale);
      case Accept(parent, stale, child) => AcceptOrdered(parent, stale, child);
      case Connect(i) => ConnectOrdered(i);
      case Send(i) => SendOrdered(i);
      case Receive(i) => IOOrdered(i);
      case OtherDescriptor(stale) => TableOrdered(stale);
      case _ =>
    }
  }

  /** Ordered, one construct at a time. */
  lemma Rules()
    ensures forall floor :: Ordered(Skip, floor)
    ensures forall d, floor :: Ordered(Touch(d), floor)
    ensures forall a, b, floor {:trigger Ordered(Seq(a, b), floor)} ::
              Ordered(Seq(a, b), floor) <==> Ordered(a, floor) && Ordered(b, floor)
    ensures forall a, b, floor {:trigger Ordered(Choice(a, b), floor)} ::
              Ordered(Choice(a, b), floor) <==> Ordered(a, floor) && Ordered(b, floor)
    ensures forall b, floor {:trigger Ordered(Loop(b), floor)} :: Ordered(Loop(b), floor) <==> Ordered(b, floor)
    ensures forall l, b, floor {:trigger Ordered(Locked(l, b), floor)} ::
              Ordered(Locked(l, b), floor) <==> Rank(l) > floor && Ordered(b, Rank(l))
  {
  }

  lemma LeavesOrdered(floor: nat)
    requires floor <= 4
    ensures Ordered(LibC(), floor) && forall i :: Ordered(AutoBind(i), floor)
    ensures forall i :: Ordered(PcapDump(i), floor)
    ensures forall i :: Ordered(ThreeDumps(i), floor)
  {
    hide Ordered;
    Rules();
  }

  lemma TableOrdered(i: nat)
    ensures Ordered(InitSockets(), 0) && Ordered(AddSocketInfo(i), 0) && Ordered(RemoveStale(i), 0)
  {
    hide Ordered;
    Rules();
  }

  lemma DupOrdered(i: nat, j: nat)
    ensures Ordered(Dup(i, j), 0)
  {
    hide Ordered, LibC, RemoveStale;
    Rules();
    LeavesOrdered(0);
    TableOrdered(j);
  }

  lemma CloseOrdered(i: nat)
    ensures Ordered(Close(i), 0)
  {
    hide Ordered, LibC, ThreeDumps;
    Rules();
    LeavesOrdered(0);
    LeavesOrdered(4);
  }

  lemma AcceptOrdered(parent: nat, stale: nat, child: nat)
    ensures Ordered(AcceptBody(parent, stale, child), 0)
  {
    hide Ordered, LibC, ThreeDumps, AddSocketInfo, RemoveStale, Close;
    Rules();
    LeavesOrdered(0);
    LeavesOrdered(4);
    TableOrdered(parent);
    TableOrdered(child);
    CloseOrdered(stale);
  }

  lemma ConnectOrdered(i: nat)
    ensures Ordered(ConnectBody(i), 0)
  {
    hide Ordered, LibC, PcapDump, AutoBind;
    Rules();
    LeavesOrdered(0);
    LeavesOrdered(4);
  }

  lemma IOOrdered(i: nat)
    ensures Ordered(BeforeIO(i), 0) && Ordered(AfterIO(i), 0) && Ordered(ReceiveBody(i), 0)
  {
    hide Ordered, LibC, PcapDump, AutoBind, RemoveStale;
    Rules();
    LeavesOrdered(0);
    LeavesOrdered(4);
    TableOrdered(i);
  }

  lemma SendOrdered(i: nat)
    ensures Ordered(SendBody(i), 0)
  {
    hide Ordered, LibC, PcapDump, BeforeIO, AfterIO;
    Rules();
    LeavesOrdered(0);
    LeavesOrdered(4);
    IOOrdered(i);
  }

  lemma {:induction false} ThreadOk(calls: seq<Call>)
    ensures StackOk(Thread(calls)) && Held(Thread(calls)) == {} && Floor(Thread(calls)) == 0
  {
    hide StackOk, Held, Floor, Ordered, Body;
    if calls == [] {
      NothingLeft();
    } else {
      ThreadOk(calls[1..]);
      CodeIsOrdered(calls[0]);
      Push(Run(Body(calls[0])), Thread(calls[1..]));
    }
  }

  lemma NothingLeft()
    ensures StackOk([]) && Held([]) == {} && Floor([]) == 0
  {
  }

  lemma StartOk(calls: seq<seq<Call>>)
    ensures Inv(Start(calls))
  {
    hide Thread, StackOk, Held;
    forall t | 0 <= t < |calls| ensures StackOk(Thread(calls[t])) && Held(Thread(calls[t])) == {} {
      ThreadOk(calls[t]);
    }
  }

  lemma {:induction false} ScheduleKeeps(s: System, picks: seq<(nat, bool)>)
    requires Inv(s)
    ensures Inv(Schedule(s, picks))
    decreases |picks|
  {
    hide Inv, Step, CanStep;
    if picks != [] {
      var s' := if CanStep(s, picks[0].0) then Step(s, picks[0].0, picks[0].1) else s;
      if CanStep(s, picks[0].0) { StepKeeps(s, picks[0].0, picks[0].1); }
      ScheduleKeeps(s', picks[1..]);
    }
  }

  /** The rank of what a blocked thread waits for. */
  function Wanted(s: System, t: nat): nat
    requires t < |s.threads| && s.threads[t] != [] && !CanStep(s, t)
  {
    Rank(s.threads[t][0].p.l)
  }

  /** A blocked thread waits for a lock that another, unfinished thread holds; from holder to holder the
      ranks waited for rise, so the chain of waiting ends at a thread that can step. */
  lemma {:induction false} SomeoneCanStep(s: System, t: nat) returns (u: nat)
    requires Inv(s) && t < |s.threads| && s.threads[t] != []
    ensures CanStep(s, u)
    decreases if CanStep(s, t) then 0 else 7 - Wanted(s, t)
  {
    u := t;
    if !CanStep(s, t) {
      var l := s.threads[t][0].p.l;
      var holder := s.owner[l];
      var st := s.threads[holder];
      HeldBelowFloor(st);
      if !CanStep(s, holder) {
        assert st[0].p.Locked? && Rank(st[0].p.l) > Floor(st[1..]) >= Rank(l);
      }
      u := SomeoneCanStep(s, holder);
    }
  }

  /** No deadlock: whatever calls any number of threads make in turn, and however they have been scheduled, as
      long as some thread is unfinished some thread can step. */
  lemma NoDeadlock(calls: seq<seq<Call>>, picks: seq<(nat, bool)>)
    ensures var s := Schedule(Start(calls), picks);
            (exists t: nat :: t < |s.threads| && s.threads[t] != []) ==> exists u: nat :: CanStep(s, u)
  {
    StartOk(calls);
    ScheduleKeeps(Start(calls), picks);
    var s := Schedule(Start(calls), picks);
    if t: nat :| t < |s.threads| && s.threads[t] != [] {
      var u := SomeoneCanStep(s, t);
    }
  }

  /** The lock thread t is about to ask for, if any. */
  predicate AsksFor(s: System, t: nat, l: Lock) {
    t < |s.threads| && s.threads[t] != [] && s.threads[t][0].Run? && s.threads[t][0].p.Locked?
    && s.threads[t][0].p.l == l
  }

  /** No thread ever asks for a lock it holds itself, and a finished thread holds none. */
  lemma NoRelock(calls: seq<seq<Call>>, picks: seq<(nat, bool)>, t: nat, l: Lock)
    ensures var s := Schedule(Start(calls), picks);
            t < |s.threads| && (s.threads[t] == [] || AsksFor(s, t, l)) ==> l !in s.owner || s.owner[l] != t
  {
    StartOk(calls);
    ScheduleKeeps(Start(calls), picks);
    var s := Schedule(Start(calls), picks);
    if t < |s.threads| {
      HeldBelowFloor(s.threads[t]);
    }
  }

  function Size(p: Prog): nat {
    match p
    case Skip => 1
    case Touch(_) => 1
    case Seq(a, b) => 1 + Size(a) + Size(b)
    case Choice(a, b) => 1 + Size(a) + Size(b)
    case Loop(b) => 1 + Size(b)
    case Locked(_, b) => 2 + Size(b)
  }

  function StackSize(st: Stack): nat
    decreases |st|
  {
    if st == [] then 0 else ItemSize(st[0]) + StackSize(st[1..])
  }

  function TotalSize(threads: seq<Stack>): nat
    decreases |threads|
  {
    if threads == [] then 0 else StackSize(threads[0]) + TotalSize(threads[1..])
  }

  lemma {:induction false} TotalSizeUpdate(threads: seq<Stack>, t: nat, st: Stack)
    requires t < |threads|
    ensures TotalSize(threads[t := st]) == TotalSize(threads) - StackSize(threads[t]) + StackSize(st)
    decreases |threads|
  {
    if t == 0 {
      assert threads[t := st][1..] == threads[1..];
    } else {
      assert threads[t := st][1..] == threads[1..][t - 1 := st];
      TotalSizeUpdate(threads[1..], t - 1, st);
    }
  }

  function ItemSize(item: Item): nat {
    if item.Run? then Size(item.p) else 1
  }

  lemma SizeCons(item: Item, rest: Stack)
    ensures StackSize([item] + rest) == ItemSize(item) + StackSize(rest)
  {
    assert ([item] + rest)[1..] == rest;
  }

  lemma SizeExpanded(item: Item, rest: Stack)
    ensures StackSize(Expand(item, false) + rest) < ItemSize(item) + StackSize(rest)
  {
    hide StackSize;
    var more := Expand(item, false);
    if more == [] {
      assert more + rest == rest;
    } else if |more| == 1 {
      SizeCons(more[0], rest);
      assert more + rest == [more[0]] + rest;
    } else {
      SizeCons(more[1], rest);
      SizeCons(more[0], [more[1]] + rest);
      assert more + rest == [more[0]] + ([more[1]] + rest);
    }
  }

  lemma StackShrinks(st: Stack)
    requires st != []
    ensures StackSize(Expand(st[0], false) + st[1..]) < StackSize(st)
  {
    hide StackSize, Expand;
    assert st == [st[0]] + st[1..];
    SizeCons(st[0], st[1..]);
    SizeExpanded(st[0], st[1..]);
  }

  predicate AllDone(s: System) {
    forall t :: 0 <= t < |s.threads| ==> s.threads[t] == []
  }

  lemma DoneHoldsNothing(s: System)
    requires Inv(s) && AllDone(s)
    ensures s.owner == map[]
  {
  }

  /** From every state that keeps the order some schedule finishes all threads. */
  lemma {:induction false} AllCanFinish(s: System) returns (picks: seq<(nat, bool)>)
    requires Inv(s)
    ensures AllDone(Schedule(s, picks)) && Schedule(s, picks).owner == map[]
    decreases TotalSize(s.threads)
  {
    if AllDone(s) {
      picks := [];
      DoneHoldsNothing(s);
    } else {
      var t: nat :| t < |s.threads| && s.threads[t] != [];
      var u := SomeoneCanStep(s, t);
      StepKeeps(s, u, false);
      StackShrinks(s.threads[u]);
      TotalSizeUpdate(s.threads, u, Step(s, u, false).threads[u]);
      var rest := AllCanFinish(Step(s, u, false));
      picks := [(u, false)] + rest;
      assert picks[1..] == rest;
    }
  }

  /** However calls have been scheduled so far, the rest can be scheduled so that all of them return, with
      every lock free. */
  lemma CallsCanFinish(calls: seq<seq<Call>>, picks: seq<(nat, bool)>)
    ensures exists more :: AllDone(Schedule(Schedule(Start(calls), picks), more))
                           && Schedule(Schedule(Start(calls), picks), more).owner == map[]
  {
    StartOk(calls);
    ScheduleKeeps(Start(calls), picks);
    var more := AllCanFinish(Schedule(Start(calls), picks));
  }

  // ------------------------------------------------------------------ the path that breaks the order

  function Two(a: Stack, b: Stack, owner: map<Lock, nat>): System {
    System([a, b], owner)
  }

  /** The other thread's step, in the picks and in the state. */
  lemma Pick0(item: Item, more: Stack, b: Stack, o: map<Lock, nat>, choice: bool, rest: seq<(nat, bool)>)
    requires item.Run? && item.p.Locked? ==> item.p.l !in o
    ensures Schedule(Two([item] + more, b, o), [(0, choice)] + rest)
         == Schedule(Two(Expand(item, choice) + more, b, NewOwner(item, 0, o)), rest)
  {
    var s := Two([item] + more, b, o);
    assert ([(0, choice)] + rest)[1..] == rest;
    assert ([item] + more)[1..] == more;
    assert Step(s, 0, choice).threads == [Expand(item, choice) + more, b];
  }

  lemma Pick1(a: Stack, item: Item, more: Stack, o: map<Lock, nat>, choice: bool, rest: seq<(nat, bool)>)
    requires item.Run? && item.p.Locked? ==> item.p.l !in o
    ensures Schedule(Two(a, [item] + more, o), [(1, choice)] + rest)
         == Schedule(Two(a, Expand(item, choice) + more, NewOwner(item, 1, o)), rest)
  {
    var s := Two(a, [item] + more, o);
    assert ([(1, choice)] + rest)[1..] == rest;
    assert ([item] + more)[1..] == more;
    assert Step(s, 1, choice).threads == [a, Expand(item, choice) + more];
  }

  /** Taking the locks of swrap_close for entry 1. */
  lemma CloserLocks(a: Stack, o: map<Lock, nat>, rest: seq<(nat, bool)>) returns (picks: seq<(nat, bool)>)
    requires SocketReset !in o && FirstFree !in o && Si(1) !in o
    ensures Schedule(Two(a, [Run(Close(1))], o), picks)
         == Schedule(Two(a, [Run(Closing(1))] + CloserHolds(),
                         o[SocketReset := 1][FirstFree := 1][Si(1) := 1]), rest)
  {
    hide Schedule, Expand, Closing;
    var p3 := Locked(Si(1), Closing(1));
    var p2 := Locked(FirstFree, p3);
    var p1 := Locked(SocketReset, Seq(Touch(Unmapping), p2));
    var u := CloserHolds();
    var r3 := [(1, true)] + rest;
    Pick1(a, Run(p3), u[1..], o[SocketReset := 1][FirstFree := 1], true, rest);
    ExpandLocked(p3, u[1..]);
    var r2 := [(1, true)] + r3;
    Pick1(a, Run(p2), u[2..], o[SocketReset := 1], true, r3);
    ExpandLocked(p2, u[2..]);
    var r1 := [(1, true)] + r2;
    TouchPasses1(a, Unmapping, [Run(p2)] + u[2..], o[SocketReset := 1], r2);
    var r0 := [(1, true)] + r1;
    Pick1(a, Run(p1.inside), u[2..], o[SocketReset := 1], true, r1);
    ExpandSeq(p1.inside, u[2..]);
    var r := [(1, true)] + r0;
    Pick1(a, Run(p1), [], o, true, r0);
    ExpandLocked(p1, []);
    picks := [(1, false)] + r;
    Pick1(a, Run(Close(1)), [], o, false, r);
    ExpandSecond(Close(1), []);
    assert [Run(Close(1))] + [] == [Run(Close(1))];
    assert u == [Unlock(Si(1))] + u[1..] && u[1..] == [Unlock(FirstFree)] + u[2..]
      && u[2..] == [Unlock(SocketReset)] + [];
  }

  /** ... and where it stands when it asks for pcap. */
  function CloserBlocked(): Stack {
    [Run(PcapDump(1))] + ([Run(Seq(PcapDump(1), PcapDump(1)))] + ([Run(Touch(FreeList))] + CloserHolds()))
  }

  function CloserHolds(): Stack {
    [Unlock(Si(1)), Unlock(FirstFree), Unlock(SocketReset)]
  }

  lemma ExpandLocked(p: Prog, more: Stack)
    requires p.Locked?
    ensures forall choice :: Expand(Run(p), choice) + more == [Run(p.inside)] + ([Unlock(p.l)] + more)
  {
  }

  lemma ExpandSecond(p: Prog, more: Stack)
    requires p.Choice?
    ensures Expand(Run(p), false) + more == [Run(p.other)] + more
    ensures Expand(Run(p), true) + more == [Run(p.one)] + more
  {
  }

  lemma ExpandSeq(p: Prog, more: Stack)
    requires p.Seq?
    ensures forall choice :: Expand(Run(p), choice) + more == [Run(p.first)] + ([Run(p.then_)] + more)
  {
  }

  /** A call into libc whose symbol is bound already. */
  lemma LibCPasses0(more: Stack, b: Stack, o: map<Lock, nat>, rest: seq<(nat, bool)>)
    ensures Schedule(Two([Run(LibC())] + more, b, o), [(0, true)] + ([(0, true)] + rest))
         == Schedule(Two(more, b, o), rest)
  {
    hide Schedule, Expand;
    Pick0(Run(LibC()), more, b, o, true, [(0, true)] + rest);
    ExpandSecond(LibC(), more);
    Pick0(Run(Skip), more, b, o, true, rest);
    ExpandSkip(more);
  }

  lemma LibCPasses1(a: Stack, more: Stack, o: map<Lock, nat>, rest: seq<(nat, bool)>)
    ensures Schedule(Two(a, [Run(LibC())] + more, o), [(1, true)] + ([(1, true)] + rest))
         == Schedule(Two(a, more, o), rest)
  {
    hide Schedule, Expand;
    Pick1(a, Run(LibC()), more, o, true, [(1, true)] + rest);
    ExpandSecond(LibC(), more);
    Pick1(a, Run(Skip), more, o, true, rest);
    ExpandSkip(more);
  }

  lemma ExpandSkip(more: Stack)
    ensures Expand(Run(Skip), true) + more == more
    ensures forall d :: Expand(Run(Touch(d)), true) + more == more
  {
  }

  lemma TouchPasses0(d: Datum, more: Stack, b: Stack, o: map<Lock, nat>, rest: seq<(nat, bool)>)
    ensures Schedule(Two([Run(Touch(d))] + more, b, o), [(0, true)] + rest) == Schedule(Two(more, b, o), rest)
  {
    hide Schedule, Expand;
    Pick0(Run(Touch(d)), more, b, o, true, rest);
    ExpandSkip(more);
  }

  lemma TouchPasses1(a: Stack, d: Datum, more: Stack, o: map<Lock, nat>, rest: seq<(nat, bool)>)
    ensures Schedule(Two(a, [Run(Touch(d))] + more, o), [(1, true)] + rest) == Schedule(Two(a, more, o), rest)
  {
    hide Schedule, Expand;
    Pick1(a, Run(Touch(d)), more, o, true, rest);
    ExpandSkip(more);
  }

  /** A thread that closes entry 1, with its locks, gets as far as asking for pcap. */
  lemma CloserAsks(a: Stack, o: map<Lock, nat>, rest: seq<(nat, bool)>) returns (picks: seq<(nat, bool)>)
    ensures Schedule(Two(a, [Run(Closing(1))] + CloserHolds(), o), picks)
         == Schedule(Two(a, CloserBlocked(), o), rest)
  {
    hide Schedule, Expand, LibC, PcapDump;
    var three, last := ThreeDumps(1), Seq(Maybe(ThreeDumps(1)), Touch(FreeList));
    var after := Seq(Touch(Info(1)), Maybe(last));
    var u := CloserHolds();
    var v := [Run(Touch(FreeList))] + u;
    var r7 := [(1, true)] + rest;
    Pick1(a, Run(three), v, o, true, rest);
    ExpandSeq(three, v);
    var r6 := [(1, false)] + r7;
    Pick1(a, Run(Maybe(three)), v, o, false, r7);
    ExpandSecond(Maybe(three), v);
    var r5 := [(1, true)] + r6;
    Pick1(a, Run(last), u, o, true, r6);
    ExpandSeq(last, u);
    var r4 := [(1, false)] + r5;
    Pick1(a, Run(Maybe(last)), u, o, false, r5);
    ExpandSecond(Maybe(last), u);
    var r3 := [(1, true)] + r4;
    TouchPasses1(a, Info(1), [Run(Maybe(last))] + u, o, r4);
    var r2 := [(1, true)] + r3;
    Pick1(a, Run(after), u, o, true, r3);
    ExpandSeq(after, u);
    var r1 := [(1, true)] + ([(1, true)] + r2);
    LibCPasses1(a, [Run(after)] + u, o, r2);
    picks := [(1, true)] + r1;
    Pick1(a, Run(Closing(1)), u, o, true, r1);
    ExpandSeq(Closing(1), u);
  }

  /** What a thread that connects socket 2 has yet to do once the SYN is shown. */
  function DumperRest(): Stack {
    [Run(LibC())] + ([Run(Seq(PcapDump(2), Maybe(PcapDump(2))))] + [Unlock(Si(2))])
  }

  /** ... and inside the capture, where the header cannot be written. */
  function DumperInside(): Stack {
    [Run(PcapDumpHeaderFails(2).inside)] + ([Unlock(Pcap)] + DumperRest())
  }

  /** ... and where it then asks for socket_reset. */
  function DumperBlocked(): Stack {
    [Run(Locked(SocketReset, Touch(Unmapping)))] + ([Run(LibC())] + ([Unlock(Pcap)] + DumperRest()))
  }

  /** A thread that connects socket 2 takes the socket's lock, and pcap to show the SYN. */
  lemma DumperStarts(b: Stack, o: map<Lock, nat>, rest: seq<(nat, bool)>) returns (picks: seq<(nat, bool)>)
    requires Si(2) !in o && Pcap !in o
    ensures Schedule(Two([Run(ConnectDumping(2, PcapDumpHeaderFails(2)))], b, o), picks)
         == Schedule(Two(DumperInside(), b, o[Si(2) := 0][Pcap := 0]), rest)
  {
    hide Schedule, Expand, LibC, AutoBind, PcapDump, PcapDumpHeaderFails;
    var dump, o1 := PcapDumpHeaderFails(2), o[Si(2) := 0];
    DumpIsLocked();
    var try := Maybe(Seq(dump, LibC()));
    var outcome := Seq(PcapDump(2), Maybe(PcapDump(2)));
    var showing := Maybe(Seq(try, outcome));
    var connect := Seq(Maybe(AutoBind(2)), showing);
    var u := [Unlock(Si(2))];
    var v := [Run(outcome)] + u;
    var r8 := [(0, true)] + rest;
    Pick0(Run(dump), DumperRest(), b, o1, true, rest);
    ExpandLocked(dump, DumperRest());
    var r7 := [(0, true)] + r8;
    Pick0(Run(Seq(dump, LibC())), v, b, o1, true, r8);
    ExpandSeq(Seq(dump, LibC()), v);
    var r6 := [(0, false)] + r7;
    Pick0(Run(try), v, b, o1, false, r7);
    ExpandSecond(try, v);
    var r5 := [(0, true)] + r6;
    Pick0(Run(Seq(try, outcome)), u, b, o1, true, r6);
    ExpandSeq(Seq(try, outcome), u);
    var r4 := [(0, false)] + r5;
    Pick0(Run(showing), u, b, o1, false, r5);
    ExpandSecond(showing, u);
    var r3 := SkipMaybe(AutoBind(2), [Run(showing)] + u, b, o1, r4);
    var r2 := [(0, true)] + r3;
    Pick0(Run(connect), u, b, o1, true, r3);
    ExpandSeq(connect, u);
    var r1 := [(0, true)] + r2;
    TouchPasses0(Info(2), [Run(connect)] + u, b, o1, r2);
    var r0 := [(0, true)] + r1;
    Pick0(Run(Seq(Touch(Info(2)), connect)), u, b, o1, true, r1);
    ExpandSeq(Seq(Touch(Info(2)), connect), u);
    var r := [(0, true)] + r0;
    Pick0(Run(Locked(Si(2), Seq(Touch(Info(2)), connect))), [], b, o, true, r0);
    ExpandLocked(Locked(Si(2), Seq(Touch(Info(2)), connect)), []);
    var whole := ConnectDumping(2, dump);
    picks := [(0, false)] + r;
    Pick0(Run(whole), [], b, o, false, r);
    ExpandSecond(whole, []);
    assert [Run(whole)] + [] == [Run(whole)] && u + [] == u;
  }

  lemma DumpIsLocked()
    ensures PcapDumpHeaderFails(2).Locked? && PcapDumpHeaderFails(2).l == Pcap
  {
  }

  /** A test that is not taken. */
  lemma SkipMaybe(p: Prog, more: Stack, b: Stack, o: map<Lock, nat>, rest: seq<(nat, bool)>)
    returns (picks: seq<(nat, bool)>)
    ensures Schedule(Two([Run(Maybe(p))] + more, b, o), picks) == Schedule(Two(more, b, o), rest)
  {
    hide Schedule, Expand;
    Pick0(Run(Skip), more, b, o, true, rest);
    ExpandSkip(more);
    picks := [(0, true)] + ([(0, true)] + rest);
    Pick0(Run(Maybe(p)), more, b, o, true, [(0, true)] + rest);
    ExpandSecond(Maybe(p), more);
  }

  /** It opens the file, fails to write the header, and asks for socket_reset to close the file. */
  lemma DumperAsks(b: Stack, o: map<Lock, nat>) returns (picks: seq<(nat, bool)>)
    ensures Schedule(Two(DumperInside(), b, o), picks) == Two(DumperBlocked(), b, o)
  {
    hide Schedule, Expand, LibC, DumperRest;
    var u := [Unlock(Pcap)] + DumperRest();
    var inside := PcapDumpHeaderFails(2).inside;
    var again := Seq(LibC(), CloseUnwrapped());
    var write := Seq(Touch(Info(2)), Seq(LibC(), again));
    ScheduleNone(Two(DumperBlocked(), b, o));
    var r8 := [(0, true)] + [];
    Pick0(Run(CloseUnwrapped()), u, b, o, true, []);
    ExpandSeq(CloseUnwrapped(), u);
    var r7 := [(0, true)] + ([(0, true)] + r8);
    LibCPasses0([Run(CloseUnwrapped())] + u, b, o, r8);
    var r6 := [(0, true)] + r7;
    Pick0(Run(again), u, b, o, true, r7);
    ExpandSeq(again, u);
    var r5 := [(0, true)] + ([(0, true)] + r6);
    LibCPasses0([Run(again)] + u, b, o, r6);
    var r4 := [(0, true)] + r5;
    Pick0(Run(Seq(LibC(), again)), u, b, o, true, r5);
    ExpandSeq(Seq(LibC(), again), u);
    var r3 := [(0, true)] + r4;
    TouchPasses0(Info(2), [Run(Seq(LibC(), again))] + u, b, o, r4);
    var r2 := [(0, true)] + r3;
    Pick0(Run(write), u, b, o, true, r3);
    ExpandSeq(write, u);
    var r1 := [(0, false)] + r2;
    Pick0(Run(Maybe(write)), u, b, o, false, r2);
    ExpandSecond(Maybe(write), u);
    var r0 := [(0, true)] + r1;
    TouchPasses0(CaptureFile, [Run(Maybe(write))] + u, b, o, r1);
    picks := [(0, true)] + r0;
    Pick0(Run(inside), u, b, o, true, r0);
    ExpandSeq(inside, u);
  }

  lemma ScheduleNone(s: System)
    ensures Schedule(s, []) == s
  {
  }

  ghost predicate Stuck(s: System) {
    (exists t: nat :: t < |s.threads| && s.threads[t] != []) && forall t: nat :: !CanStep(s, t)
  }

  lemma BothBlocked(o: map<Lock, nat>)
    requires Pcap in o && SocketReset in o
    ensures Stuck(Two(DumperBlocked(), CloserBlocked(), o))
  {
    hide DumperRest;
    var s := Two(DumperBlocked(), CloserBlocked(), o);
    assert s.threads[0] != [] && s.threads[0][0] == Run(Locked(SocketReset, Touch(Unmapping)));
    assert s.threads[1][0] == Run(PcapDump(1));
  }

  /** The one path outside the order: a thread connecting socket 2 shows the SYN, cannot write the capture
      file's header, and asks for socket_reset under pcap to close the file, which is no wrapped socket;
      another, closing socket 1, holds socket_reset and asks for pcap. */
  lemma HeaderFailureCanDeadlock()
    ensures ConnectBody(2) == ConnectDumping(2, PcapDump(2)) && Body(CloseCall(1)) == Close(1)
    ensures exists picks ::
              Stuck(Schedule(Two([Run(ConnectDumping(2, PcapDumpHeaderFails(2)))], [Run(Body(CloseCall(1)))], map[]),
                             picks))
  {
    hide Schedule, Expand, Close, PcapDump, PcapDumpHeaderFails, DumperInside, DumperBlocked, ConnectDumping;
    var none: map<Lock, nat> := map[];
    var o := none[Si(2) := 0][Pcap := 0];
    var o3 := o[SocketReset := 1][FirstFree := 1][Si(1) := 1];
    var last := DumperAsks(CloserBlocked(), o3);
    var asks := CloserAsks(DumperInside(), o3, last);
    var locks := CloserLocks(DumperInside(), o, asks);
    var picks := DumperStarts([Run(Close(1))], none, locks);
    BothBlocked(o3);
    assert Stuck(Schedule(Two([Run(ConnectDumping(2, PcapDumpHeaderFails(2)))], [Run(Close(1))], none), picks));
  }
}
