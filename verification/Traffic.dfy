/** The events a stream socket gives the capture in the course of its life: modules Lifecycle and Capture put
    together. */
module Traffic {
  import opened Names
  import opened Sockets
  import L = Lifecycle
  import C = Capture
  import R = Records

  /** An address structure as the capture finds it: all zero while it is not set. */
  function NameOf(a: Option<SockAddr>): SockAddr {
    if a == None then In(Unspec, 0, 0) else a.value
  }

  /** When, in seconds and microseconds. */
  type Time = (nat, nat)

  function EventOf(si: Info, kind: C.Kind, addr: SockAddr, payload: seq<R.byte>, t: Time): C.Event {
    C.Event(kind, NameOf(si.myname), NameOf(si.peername), addr, payload, t.0, t.1)
  }

  /** What swrap_connect dumps of a stream. */
  function ConnectDumps(si: Info, a: SockAddr, env: Env, start: nat, bindOk: bool, connectOk: bool, t: Time):
    seq<C.Event>
  {
    var (si1, _, r) := if si.bound then (si, start, Ok(())) else AfterAutoBind(si, FamilyOf(a), env, start, bindOk);
    if r.Err? || si1.family != FamilyOf(a) || ConvertRemote(env.dir, env.dflt, si1.stype, a).Err? then []
    else if ConvertRemote(env.dir, env.dflt, si1.stype, a).value.1 != 0 then []
    else if !connectOk then [EventOf(si1, C.ConnectSend, a, [], t), EventOf(si1, C.ConnectUnreach, a, [], t)]
    else
      var si2 := Connected(si1, a);
      [EventOf(si1, C.ConnectSend, a, [], t), EventOf(si2, C.ConnectRecv, a, [], t),
       EventOf(si2, C.ConnectAck, a, [], t)]
  }

  /** What swrap_accept dumps of the child, when the caller asks for the peer's address. */
  function AcceptDumps(child: Info, t: Time): seq<C.Event> {
    var a := NameOf(child.peername);
    [EventOf(child, C.AcceptSend, a, [], t), EventOf(child, C.AcceptRecv, a, [], t),
     EventOf(child, C.AcceptAck, a, [], t)]
  }

  /** What swrap_close dumps at the last reference. */
  function CloseDumps(si: Info, t: Time): seq<C.Event> {
    if si.myname == None || si.peername == None then []
    else
      var a := NameOf(si.peername);
      [EventOf(si, C.CloseSend, a, [], t), EventOf(si, C.CloseRecv, a, [], t), EventOf(si, C.CloseAck, a, [], t)]
  }

  /** What is done with a socket: a call that may change its state, data or a reset that shows, or its end. */
  datatype Action = Do(call: L.Call, t: Time) | Data(kind: C.Kind, payload: seq<R.byte>, t: Time) | Close(t: Time)

  predicate ActionOk(dir: string, act: Action) {
    match act
    case Do(call, _) => L.CallOk(dir, call)
    case Data(kind, payload, _) =>
      kind in {C.Send, C.SendRst, C.Recv, C.RecvRst, C.PendingRst} && (kind !in {C.Send, C.Recv} ==> payload == [])
    case Close(_) => true
  }

  /** bind() to the unspecified family. */
  predicate BindsUnspec(act: Action) {
    act.Do? && act.call.Bind? && FamilyOf(act.call.a) == Unspec
  }

  function Dumps(si: Info, start: nat, act: Action): seq<C.Event> {
    match act
    case Do(Connect(a, env, bindOk, connectOk), t) => ConnectDumps(si, a, env, start, bindOk, connectOk, t)
    case Do(_, _) => []
    case Data(kind, payload, t) =>
      if kind in {C.Send, C.Recv} && !si.connected then [] else [EventOf(si, kind, NameOf(None), payload, t)]
    case Close(t) => CloseDumps(si, t)
  }

  function After(si: Info, start: nat, act: Action): (Info, nat) {
    if act.Do? then L.Step(si, start, act.call) else (si, start)
  }

  /** All events of a socket, from a state on. */
  function Trace(si: Info, start: nat, acts: seq<Action>): seq<C.Event>
    decreases |acts|
  {
    if acts == [] then []
    else
      var (si', start') := After(si, start, acts[0]);
      Dumps(si, start, acts[0]) + Trace(si', start', acts[1..])
  }

  // ------------------------------------------------------------------ names stay proper

  predicate Proper(a: Option<SockAddr>) {
    a != None && FamilyOf(a.value) != Unspec
  }

  predicate NamesProper(si: Info) {
    Proper(si.myname) && (si.bindname != None ==> Proper(si.bindname)) && (si.peername != None ==> Proper(si.peername))
  }

  lemma AutoBindProper(si: Info, family: Family, env: Env, start: nat, ok: bool)
    requires NamesProper(si)
    ensures var (si', _, r) := AfterAutoBind(si, family, env, start, ok);
            NamesProper(si') && (r.Ok? ==> si'.family == family != Unspec)
  {
    hide SunPath, LeastUnused;
  }

  lemma AllocProper(si: Info, a: SockAddr, env: Env)
    requires NamesProper(si) && FamilyOf(a) != Unspec
    ensures NamesProper(AfterAlloc(si, a, env).0)
  {
    hide SunPath, LeastUnused, LocalIface, WithPort, TypeChar;
    WithPortProper(si.myname);
    WithPortProper(si.bindname);
    var l := LocalIface(env.dflt, si.stype, a);
    if l.Ok? {
      WithPortProper(Some(NameToStore(a, l.value.0)));
    }
  }

  lemma WithPortProper(a: Option<SockAddr>)
    ensures forall port :: Proper(a) ==> Proper(WithPort(a, port))
  {
  }

  lemma BindProper(si: Info, a: SockAddr, env: Env, ok: bool)
    requires NamesProper(si) && FamilyOf(a) != Unspec
    ensures NamesProper(AfterBind(si, a, env, ok).0)
  {
    hide AfterAlloc;
    AllocProper(si.(myname := Some(a)), a, env);
  }

  lemma ConnectProper(si: Info, a: SockAddr, env: Env, start: nat, bindOk: bool, connectOk: bool)
    requires NamesProper(si) && si.family != Unspec
    ensures NamesProper(AfterConnect(si, a, env, start, bindOk, connectOk).0)
  {
    hide AfterAutoBind, ConvertRemote;
    AutoBindProper(si, FamilyOf(a), env, start, bindOk);
    var (si1, _, r) := if si.bound then (si, start, Ok(())) else AfterAutoBind(si, FamilyOf(a), env, start, bindOk);
    var si' := AfterConnect(si, a, env, start, bindOk, connectOk).0;
    assert NamesProper(si1);
    assert si' == si1 || (si' == Connected(si1, a) && r.Ok? && si1.family == FamilyOf(a));
    assert r.Ok? && si1.family == FamilyOf(a) ==> FamilyOf(a) != Unspec;
  }

  lemma StepProper(si: Info, start: nat, call: L.Call)
    requires NamesProper(si) && si.family != Unspec && (call.Bind? ==> FamilyOf(call.a) != Unspec)
    ensures NamesProper(L.Step(si, start, call).0)
  {
    hide AfterAutoBind, AfterBind, AfterConnect, Reachable;
    match call {
      case Bind(a, env, ok) => BindProper(si, a, env, ok);
      case Connect(a, env, bindOk, connectOk) => ConnectProper(si, a, env, start, bindOk, connectOk);
      case Listen(env, bindOk) => AutoBindProper(si, si.family, env, start, bindOk);
      case Receive(_, _, env, bindOk) => AutoBindProper(si, si.family, env, start, bindOk);
      case Send(_, env, bindOk, _) => AutoBindProper(si, si.family, env, start, bindOk);
    }
  }

  /** An event that shows, or takes up nothing of the sequence space. */
  predicate Harmless(e: C.Event) {
    C.Shows(e) || C.Advance(e.kind, e.payload) == 0
  }

  predicate AllHarmless(es: seq<C.Event>) {
    forall k :: 0 <= k < |es| ==> Harmless(es[k])
  }

  lemma DumpsHarmless(dir: string, si: Info, start: nat, act: Action)
    requires NamesProper(si) && L.Lives(dir, si) && ActionOk(dir, act) && StartOk(start)
    ensures AllHarmless(Dumps(si, start, act))
  {
    hide L.Named, ConvertRemote, AfterAutoBind;
    if act.Do? && act.call.Connect? {
      var c := act.call;
      if !si.bound {
        AutoBindProper(si, FamilyOf(c.a), c.env, start, c.bindOk);
        L.AutoBindLives(dir, si, FamilyOf(c.a), c.env, start, c.bindOk);
      }
    }
  }

  lemma AfterKeeps(dir: string, si: Info, start: nat, act: Action)
    requires NamesProper(si) && L.Lives(dir, si) && ActionOk(dir, act) && StartOk(start) && !BindsUnspec(act)
    ensures var (si', start') := After(si, start, act); NamesProper(si') && L.Lives(dir, si') && StartOk(start')
  {
    hide L.Lives, L.Step, NamesProper;
    LivesFamily(dir, si);
    if act.Do? {
      StepProper(si, start, act.call);
      L.StepLives(dir, si, start, act.call);
    }
  }

  lemma LivesFamily(dir: string, si: Info)
    requires L.Lives(dir, si)
    ensures si.family != Unspec
  {
  }

  /** A socket that never binds to the unspecified family keeps nothing from the capture that counts. */
  lemma {:induction false} TraceHarmless(dir: string, si: Info, start: nat, acts: seq<Action>)
    requires NamesProper(si) && L.Lives(dir, si) && StartOk(start)
    requires forall i :: 0 <= i < |acts| ==> ActionOk(dir, acts[i]) && !BindsUnspec(acts[i])
    ensures AllHarmless(Trace(si, start, acts))
    decreases |acts|
  {
    hide NamesProper, L.Lives, ActionOk, BindsUnspec, Dumps, After, Harmless;
    if acts != [] {
      var (si', start') := After(si, start, acts[0]);
      DumpsHarmless(dir, si, start, acts[0]);
      AfterKeeps(dir, si, start, acts[0]);
      TraceHarmless(dir, si', start', acts[1..]);
    }
  }

  lemma {:induction false} HarmlessLosesNothing(es: seq<C.Event>)
    requires AllHarmless(es)
    ensures C.Lost(es, true) == C.Lost(es, false) == 0
    decreases |es|
  {
    if es != [] {
      HarmlessLosesNothing(es[..|es| - 1]);
      assert Harmless(es[|es| - 1]);
    }
  }

  /** Each TCP packet of a run's events is numbered rightly. */
  ghost predicate AllNumbered(far: set<SockAddr>, es: seq<C.Event>)
    requires C.FarEnds(far) && C.EventsOk(far, es)
  {
    R.AllShotsOk(C.ShotsOf(es))
    && var file := R.ReadFile(R.FileOf(C.ShotsOf(es)));
       file != None
       && forall k :: 0 <= k < |es| && C.Shows(es[k]) && es[k].kind != C.ConnectUnreach ==>
            |C.ShotsOf(es[..k])| < |file.value|
            && C.Numbered(C.ReadAll(file.value), |C.ShotsOf(es[..k])|, far)
  }

  lemma HarmlessNumbered(far: set<SockAddr>, es: seq<C.Event>)
    requires C.FarEnds(far) && C.EventsOk(far, es) && AllHarmless(es)
    ensures AllNumbered(far, es)
  {
    hide R.ReadFile, R.FileOf, C.FarEnds, C.EventOk, C.Numbered, C.Shows, C.ShotsOf, Harmless;
    C.CaptureAccounts(far, es);
    var file := R.ReadFile(R.FileOf(C.ShotsOf(es))).value;
    forall k | 0 <= k < |es| && C.Shows(es[k]) && es[k].kind != C.ConnectUnreach
      ensures |C.ShotsOf(es[..k])| < |file| && C.Numbered(C.ReadAll(file), |C.ShotsOf(es[..k])|, far)
    {
      HarmlessLosesNothing(es[..k]);
      assert C.AccountedFor(C.ReadAll(file), far, es, k);
    }
  }

  /** The capture of a stream socket from its creation on, whatever it does short of binding to the unspecified
      family: each TCP packet in the file is numbered rightly. */
  lemma SocketAccounts(dir: string, family: Family, start: nat, acts: seq<Action>, far: set<SockAddr>)
    requires family != Unspec && StartOk(start)
    requires forall i :: 0 <= i < |acts| ==> ActionOk(dir, acts[i]) && !BindsUnspec(acts[i])
    requires C.FarEnds(far) && C.EventsOk(far, Trace(Fresh(family, Stream), start, acts))
    ensures AllNumbered(far, Trace(Fresh(family, Stream), start, acts))
  {
    hide ActionOk, BindsUnspec, Trace, AllNumbered, C.EventsOk, C.FarEnds;
    L.FreshLives(dir, family, Stream);
    TraceHarmless(dir, Fresh(family, Stream), start, acts);
    HarmlessNumbered(far, Trace(Fresh(family, Stream), start, acts));
  }

  /** ... and of one that accept() makes. */
  lemma ChildAccounts(dir: string, parent: Info, peerPath: string, t: Time, start: nat, acts: seq<Action>,
                      far: set<SockAddr>)
    requires Fits(dir) && L.Lives(dir, parent) && parent.bound && parent.stype == Stream && StartOk(start)
    requires L.Named(dir, parent.family, Stream, peerPath)
    requires forall i :: 0 <= i < |acts| ==> ActionOk(dir, acts[i]) && !BindsUnspec(acts[i])
    ensures var child := Child(parent, peerPath, parent.kname);
            child.Ok? && var es := AcceptDumps(child.value, t) + Trace(child.value, start, acts);
                         C.FarEnds(far) && C.EventsOk(far, es) ==> AllNumbered(far, es)
  {
    hide ActionOk, BindsUnspec, Trace, AllNumbered, C.EventsOk, C.FarEnds, Child, L.NamesPath;
    L.ChildLives(dir, parent, peerPath);
    var iface, port :| L.NamesPath(dir, parent.family, Stream, iface, port, peerPath);
    var iface', port' :| L.NamesPath(dir, parent.family, Stream, iface', port', parent.kname);
    L.ChildNames(dir, parent, iface, port, iface', port', peerPath, parent.kname);
    var child := Child(parent, peerPath, parent.kname).value;
    NoBindname(parent, peerPath);
    TraceHarmless(dir, child, start, acts);
    var es := AcceptDumps(child, t) + Trace(child, start, acts);
    assert AllHarmless(es);
    if C.FarEnds(far) && C.EventsOk(far, es) {
      HarmlessNumbered(far, es);
    }
  }

  lemma NoBindname(parent: Info, peerPath: string)
    ensures var child := Child(parent, peerPath, parent.kname); child.Ok? ==> child.value.bindname == None
  {
  }

  // ------------------------------------------------------------------ how a file begins and ends

  /** The socket after some actions. */
  function Later(si: Info, start: nat, acts: seq<Action>): (Info, nat)
    decreases |acts|
  {
    if acts == [] then (si, start)
    else
      var (si', start') := After(si, start, acts[0]);
      Later(si', start', acts[1..])
  }

  predicate AllOk(dir: string, acts: seq<Action>) {
    forall i :: 0 <= i < |acts| ==> ActionOk(dir, acts[i]) && !BindsUnspec(acts[i])
  }

  /** Calls that show nothing: all but connect(). */
  predicate Quiet(acts: seq<Action>) {
    forall i :: 0 <= i < |acts| ==> acts[i].Do? && !acts[i].call.Connect?
  }

  lemma {:induction false} TraceSplits(si: Info, start: nat, before: seq<Action>, acts: seq<Action>)
    ensures var (si', start') := Later(si, start, before);
            Trace(si, start, before + acts) == Trace(si, start, before) + Trace(si', start', acts)
    decreases |before|
  {
    hide After, Dumps;
    if before == [] {
      assert before + acts == acts;
    } else {
      var (si', start') := After(si, start, before[0]);
      assert (before + acts)[1..] == before[1..] + acts;
      TraceSplits(si', start', before[1..], acts);
    }
  }

  lemma {:induction false} QuietShowsNothing(si: Info, start: nat, acts: seq<Action>)
    requires Quiet(acts)
    ensures Trace(si, start, acts) == []
    decreases |acts|
  {
    hide After;
    if acts != [] {
      var (si', start') := After(si, start, acts[0]);
      assert acts[0].Do? && !acts[0].call.Connect?;
      QuietShowsNothing(si', start', acts[1..]);
    }
  }

  lemma {:induction false} LaterKeeps(dir: string, si: Info, start: nat, acts: seq<Action>)
    requires NamesProper(si) && L.Lives(dir, si) && StartOk(start) && AllOk(dir, acts)
    ensures var (si', start') := Later(si, start, acts); NamesProper(si') && L.Lives(dir, si') && StartOk(start')
    ensures Later(si, start, acts).0.stype == si.stype
    decreases |acts|
  {
    hide NamesProper, L.Lives, ActionOk, BindsUnspec, After, StartOk;
    if acts != [] {
      var (si', start') := After(si, start, acts[0]);
      AfterKeeps(dir, si, start, acts[0]);
      KeepsType(dir, si, start, acts[0]);
      LaterKeeps(dir, si', start', acts[1..]);
    }
  }

  lemma KeepsType(dir: string, si: Info, start: nat, act: Action)
    requires L.Lives(dir, si) && ActionOk(dir, act) && StartOk(start)
    ensures After(si, start, act).0.stype == si.stype
  {
    hide L.Lives, L.Step;
    if act.Do? { L.StepLives(dir, si, start, act.call); }
  }

  /** What a connect() that succeeds shows: the name the SYN carries is the one the socket has when it is sent. */
  lemma ConnectShows(dir: string, si: Info, a: SockAddr, env: Env, start: nat, bindOk: bool, connectOk: bool, t: Time)
    requires L.Lives(dir, si) && si.stype == Stream && EnvOk(env) && env.dir == dir && StartOk(start)
    requires AfterConnect(si, a, env, start, bindOk, connectOk).2.Ok?
    ensures var es, name := ConnectDumps(si, a, env, start, bindOk, connectOk, t),
                            NameOf(AfterConnect(si, a, env, start, bindOk, connectOk).0.myname);
            |es| == 3 && es[0].kind == C.ConnectSend && es[1].kind == C.ConnectRecv && es[2].kind == C.ConnectAck
            && es[0].addr == es[1].addr == es[2].addr == a && es[1].myname == es[2].myname == name
            && (si.bound ==> es[0].myname == NameOf(si.myname)) && (si.bindname == None ==> es[0].myname == name)
  {
    hide AfterAutoBind, ConvertRemote, L.Named, Stored;
    if !si.bound {
      L.AutoBindLives(dir, si, FamilyOf(a), env, start, bindOk);
      KeepsBindname(si, FamilyOf(a), env, start, bindOk);
    }
  }

  /** ... and what one that fails shows: if only the system refuses, the SYN and a complaint about it, else nothing. */
  lemma RefusedShows(dir: string, si: Info, a: SockAddr, env: Env, start: nat, bindOk: bool, connectOk: bool, t: Time)
    requires L.Lives(dir, si) && si.stype == Stream && EnvOk(env) && env.dir == dir && StartOk(start)
    requires AfterConnect(si, a, env, start, bindOk, connectOk).2.Err?
    ensures var es, name := ConnectDumps(si, a, env, start, bindOk, connectOk, t),
                            NameOf(AfterConnect(si, a, env, start, bindOk, connectOk).0.myname);
            if AfterConnect(si, a, env, start, bindOk, true).2.Err? then es == []
            else |es| == 2 && es[0].kind == C.ConnectSend && es[1].kind == C.ConnectUnreach
                 && es[0].addr == es[1].addr == a && es[0].myname == es[1].myname == name
  {
    hide AfterAutoBind, ConvertRemote, L.Named, Stored;
    if !si.bound {
      L.AutoBindLives(dir, si, FamilyOf(a), env, start, bindOk);
    }
  }

  lemma KeepsBindname(si: Info, family: Family, env: Env, start: nat, ok: bool)
    ensures AfterAutoBind(si, family, env, start, ok).0.bindname == si.bindname
  {
    hide SunPath, LeastUnused, WithPort, Wrapped, TypeChar;
  }

  /** The file of a client that connects starts with the handshake, from the client to the address connected to and
      back: whatever it has called before, and whatever happens later. */
  lemma ClientFile(dir: string, family: Family, start: nat, calls: seq<Action>, act: Action, rest: seq<Action>,
                   far: set<SockAddr>)
    requires family != Unspec && StartOk(start) && AllOk(dir, calls) && AllOk(dir, [act]) && AllOk(dir, rest)
    requires Quiet(calls) && act.Do? && act.call.Connect?
    requires var (si, s) := Later(Fresh(family, Stream), start, calls);
             AfterConnect(si, act.call.a, act.call.env, s, act.call.bindOk, act.call.connectOk).2.Ok?
    requires C.FarEnds(far) && C.EventsOk(far, Trace(Fresh(family, Stream), start, calls + ([act] + rest)))
    ensures var (si, s) := Later(Fresh(family, Stream), start, calls);
            var si' := AfterConnect(si, act.call.a, act.call.env, s, act.call.bindOk, act.call.connectOk).0;
            var es := Trace(Fresh(family, Stream), start, calls + ([act] + rest));
            exists first ::
              C.Handshake(es, first, NameOf(si'.myname), act.call.a)
              && (si.bound ==> first == NameOf(si.myname)) && (si.bindname == None ==> first == NameOf(si'.myname))
  {
    hide Later, ActionOk, AfterConnect, Trace, NamesProper, L.Lives, StartOk, C.EventOk, C.FarEnds, C.Handshake;
    var si0, c := Fresh(family, Stream), act.call;
    var (si, s) := Later(si0, start, calls);
    L.FreshLives(dir, family, Stream);
    FreshProper(family);
    LaterKeeps(dir, si0, start, calls);
    assert ActionOk(dir, [act][0]);
    var es := Trace(si0, start, calls + ([act] + rest));
    FirstDumps(si0, start, calls, act, rest);
    ConnectCall(dir, act);
    ConnectShows(dir, si, c.a, c.env, s, c.bindOk, c.connectOk, act.t);
    DumpsHarmless(dir, si, s, act);
    LivesFamily(dir, si);
    ConnectProper(si, c.a, c.env, s, c.bindOk, c.connectOk);
    var name := NameOf(AfterConnect(si, c.a, c.env, s, c.bindOk, c.connectOk).0.myname);
    ProperName(AfterConnect(si, c.a, c.env, s, c.bindOk, c.connectOk).0);
    var three := ConnectDumps(si, c.a, c.env, s, c.bindOk, c.connectOk, act.t);
    assert es[0] == three[0] && es[1] == three[1] && es[2] == three[2];
    HandshakeShows(three, name, c.a);
    C.OpeningReads(far, es);
    assert C.Handshake(es, es[0].myname, name, c.a);
  }

  lemma FreshProper(family: Family)
    requires family != Unspec
    ensures NamesProper(Fresh(family, Stream))
  {
  }

  lemma ProperName(si: Info)
    requires NamesProper(si)
    ensures FamilyOf(NameOf(si.myname)) != Unspec
  {
  }

  lemma ConnectCall(dir: string, act: Action)
    requires ActionOk(dir, act) && act.Do? && act.call.Connect?
    ensures EnvOk(act.call.env) && act.call.env.dir == dir
  {
  }

  lemma FirstDumps(si: Info, start: nat, calls: seq<Action>, act: Action, rest: seq<Action>)
    requires Quiet(calls)
    ensures var (si', start') := Later(si, start, calls);
            Dumps(si', start', act) <= Trace(si, start, calls + ([act] + rest))
  {
    hide Later, Dumps, After;
    var (si', start') := Later(si, start, calls);
    TraceSplits(si, start, calls, [act] + rest);
    QuietShowsNothing(si, start, calls);
    assert ([act] + rest)[0] == act;
  }

  lemma HandshakeShows(es: seq<C.Event>, name: SockAddr, a: SockAddr)
    requires |es| == 3 && es[0].kind == C.ConnectSend && es[1].kind == C.ConnectRecv && es[2].kind == C.ConnectAck
    requires es[0].addr == es[1].addr == es[2].addr == a && es[1].myname == es[2].myname == name
    requires AllHarmless(es) && FamilyOf(name) != Unspec
    ensures C.Shows(es[0]) && C.Shows(es[1]) && C.Shows(es[2])
    ensures C.StreamEnds(es[0]) == (es[0].myname, a) && C.StreamEnds(es[1]) == (a, name)
    ensures C.StreamEnds(es[2]) == (name, a)
  {
    assert Harmless(es[0]) && Harmless(es[1]);
  }

  /** The file of a socket that accept() makes starts with the handshake, from the peer to the child and back. */
  lemma ChildFile(dir: string, parent: Info, peerPath: string, t: Time, start: nat, acts: seq<Action>,
                  far: set<SockAddr>)
    requires Fits(dir) && L.Lives(dir, parent) && parent.bound && parent.stype == Stream
    requires L.Named(dir, parent.family, Stream, peerPath) && Child(parent, peerPath, parent.kname).Ok?
    requires var child := Child(parent, peerPath, parent.kname).value;
             C.FarEnds(far) && C.EventsOk(far, AcceptDumps(child, t) + Trace(child, start, acts))
    ensures var child := Child(parent, peerPath, parent.kname).value;
            var es := AcceptDumps(child, t) + Trace(child, start, acts);
            C.Handshake(es, NameOf(child.peername), NameOf(child.peername), NameOf(child.myname))
  {
    hide Trace, C.EventOk, C.FarEnds, C.Handshake, Child, L.Named, L.NamesPath, L.Lives, StartOk;
    ChildProper(dir, parent, peerPath);
    var child := Child(parent, peerPath, parent.kname).value;
    var es := AcceptDumps(child, t) + Trace(child, start, acts);
    C.OpeningReads(far, es);
  }

  lemma ChildProper(dir: string, parent: Info, peerPath: string)
    requires Fits(dir) && L.Lives(dir, parent) && parent.bound && parent.stype == Stream
    requires L.Named(dir, parent.family, Stream, peerPath)
    ensures var child := Child(parent, peerPath, parent.kname);
            child.Ok? && NamesProper(child.value) && child.value.peername != None && L.Lives(dir, child.value)
  {
    hide Child, L.NamesPath;
    L.ChildLives(dir, parent, peerPath);
    var iface, port :| L.NamesPath(dir, parent.family, Stream, iface, port, peerPath);
    var iface', port' :| L.NamesPath(dir, parent.family, Stream, iface', port', parent.kname);
    L.ChildNames(dir, parent, iface, port, iface', port', peerPath, parent.kname);
    NoBindname(parent, peerPath);
  }

  /** The file of a connected socket, however it began, ends when the socket is closed with the three packets that
      close a connection, between the name it goes by and its peer's. */
  lemma ClosedFile(dir: string, opening: seq<C.Event>, si0: Info, start: nat, acts: seq<Action>, t: Time,
                   far: set<SockAddr>)
    requires NamesProper(si0) && L.Lives(dir, si0) && StartOk(start) && AllOk(dir, acts)
    requires Later(si0, start, acts).0.connected
    requires C.FarEnds(far) && C.EventsOk(far, opening + Trace(si0, start, acts + [Close(t)]))
    ensures var si, es := Later(si0, start, acts).0, opening + Trace(si0, start, acts + [Close(t)]);
            var n := |C.ShotsOf(es)|;
            n >= 3 && C.Farewell(es, n - 3, NameOf(si.myname), NameOf(si.peername))
  {
    hide Later, Trace, NamesProper, L.Lives, StartOk, C.EventOk, C.FarEnds, C.Farewell, C.ShotsOf;
    var si, es := Later(si0, start, acts).0, opening + Trace(si0, start, acts + [Close(t)]);
    LaterKeeps(dir, si0, start, acts);
    LastDumps(si0, start, acts, t);
    ClosesOn(dir, si, t);
    var k := |es| - 3;
    assert es[k] == CloseDumps(si, t)[0] && es[k + 1] == CloseDumps(si, t)[1] && es[k + 2] == CloseDumps(si, t)[2];
    C.ThreeInARow(es, k);
    assert es[..k + 3] == es;
    C.ClosingReads(far, es, k);
  }

  lemma LastDumps(si: Info, start: nat, acts: seq<Action>, t: Time)
    ensures Trace(si, start, acts + [Close(t)]) == Trace(si, start, acts) + CloseDumps(Later(si, start, acts).0, t)
  {
    hide Later, CloseDumps;
    var (si', start') := Later(si, start, acts);
    TraceSplits(si, start, acts, [Close(t)]);
    assert Trace(si', start', [Close(t)]) == CloseDumps(si', t) + Trace(si', start', []);
  }

  lemma ClosesOn(dir: string, si: Info, t: Time)
    requires NamesProper(si) && L.Lives(dir, si) && si.connected
    ensures var es, name, peer := CloseDumps(si, t), NameOf(si.myname), NameOf(si.peername);
            |es| == 3 && es[0].kind == C.CloseSend && es[1].kind == C.CloseRecv && es[2].kind == C.CloseAck
            && C.Shows(es[0]) && C.Shows(es[1]) && C.Shows(es[2])
            && C.StreamEnds(es[0]) == C.StreamEnds(es[2]) == (name, peer) && C.StreamEnds(es[1]) == (peer, name)
  {
    hide L.Named, Stored;
  }

  /** A TCP packet from the one end to the other with the payload and flags given. */
  predicate Carries(w: Option<R.Wire>, from: SockAddr, to: SockAddr, payload: seq<R.byte>, ctl: R.byte) {
    w != None && C.Goes(w.value, from, to) && w.value.transport.Tcp? && w.value.transport.ctl == ctl
    && w.value.payload == payload
  }

  /** What a connected socket sends or receives, and every reset, is what its file ends with then: one packet, whole,
      between its name and its peer's. */
  lemma DataFile(dir: string, opening: seq<C.Event>, si0: Info, start: nat, acts: seq<Action>, data: Action,
                 far: set<SockAddr>)
    requires NamesProper(si0) && L.Lives(dir, si0) && StartOk(start) && AllOk(dir, acts)
    requires ActionOk(dir, data) && data.Data? && Later(si0, start, acts).0.connected
    requires C.FarEnds(far) && C.EventsOk(far, opening + Trace(si0, start, acts + [data]))
    ensures var si, es := Later(si0, start, acts).0, opening + Trace(si0, start, acts + [data]);
            var n, name, peer := |C.ShotsOf(es)|, NameOf(si.myname), NameOf(si.peername);
            n >= 1
            && Carries(C.InFile(es, n - 1), if data.kind == C.Send then name else peer,
                       if data.kind == C.Send then peer else name, data.payload,
                       if data.kind in {C.Send, C.Recv} then 0x18 else 0x14)
  {
    hide Later, Trace, NamesProper, L.Lives, StartOk, C.EventOk, C.FarEnds, C.InFile, C.ShotsOf, C.CountersAfter;
    hide AddrOk, R.AddrBytes, C.Added;
    var si, es := Later(si0, start, acts).0, opening + Trace(si0, start, acts + [data]);
    LaterKeeps(dir, si0, start, acts);
    LastData(si0, start, acts, data);
    var k := |es| - 1;
    DataShows(dir, si, data);
    assert es[k] == EventOf(si, data.kind, NameOf(None), data.payload, data.t) && es[..k + 1] == es;
    OneMore(es);
    C.FileTells(far, es, k);
    C.Flags(C.InFile(es, |C.ShotsOf(es[..k])|).value.transport.ctl);
  }

  lemma OneMore(es: seq<C.Event>)
    requires es != [] && C.Shows(es[|es| - 1])
    ensures |C.ShotsOf(es)| == |C.ShotsOf(es[..|es| - 1])| + 1
  {
    hide C.Added, C.CountersAfter;
  }

  lemma LastData(si: Info, start: nat, acts: seq<Action>, data: Action)
    requires data.Data? && Later(si, start, acts).0.connected
    ensures Trace(si, start, acts + [data]) == Trace(si, start, acts)
            + [EventOf(Later(si, start, acts).0, data.kind, NameOf(None), data.payload, data.t)]
  {
    hide Later;
    var (si', start') := Later(si, start, acts);
    TraceSplits(si, start, acts, [data]);
    assert Trace(si', start', [data]) == Dumps(si', start', data) + Trace(si', start', []);
  }

  lemma DataShows(dir: string, si: Info, data: Action)
    requires NamesProper(si) && L.Lives(dir, si) && si.connected && data.Data? && ActionOk(dir, data)
    ensures C.Shows(EventOf(si, data.kind, NameOf(None), data.payload, data.t))
  {
    hide L.Named, Stored;
  }
}
