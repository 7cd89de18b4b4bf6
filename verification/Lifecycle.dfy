/** What every run of calls keeps of the wrapped sockets of a process, and how the two ends of a stream
    connection come to agree on their names. */
module Lifecycle {
  import opened Names
  import opened Sockets

  /** A call on one socket, with what its surroundings answer. */
  datatype Call =
    | Bind(a: SockAddr, env: Env, ok: bool)
    | Connect(a: SockAddr, env: Env, bindOk: bool, connectOk: bool)
    | Listen(env: Env, bindOk: bool)
    | Receive(named: bool, pieces: nat, env: Env, bindOk: bool)
    | Send(to: Option<SockAddr>, env: Env, bindOk: bool, connectOk: bool)

  function Step(si: Info, start: nat, call: Call): (Info, nat) {
    match call
    case Bind(a, env, ok) => (AfterBind(si, a, env, ok).0, start)
    case Connect(a, env, bindOk, connectOk) =>
      var (si', start', _) := AfterConnect(si, a, env, start, bindOk, connectOk); (si', start')
    case Listen(env, bindOk) =>
      var (si', start', _) := AfterListen(si, env, start, bindOk); (si', start')
    case Receive(named, pieces, env, bindOk) =>
      var (si', start', _) := AfterReceive(si, named, pieces, env, start, bindOk); (si', start')
    case Send(to, env, bindOk, connectOk) =>
      var (si', start', _) := AfterSend(si, to, env, start, bindOk, connectOk); (si', start')
  }

  predicate CallOk(dir: string, call: Call) {
    EnvOk(call.env) && call.env.dir == dir
    && match call
       case Bind(a, _, _) => AddrOk(a)
       case Connect(a, _, _, _) => AddrOk(a)
       case _ => true
  }

  /** A path that names an endpoint of the kind the socket has. */
  ghost predicate Named(dir: string, family: Family, stype: SockType, path: string) {
    exists iface, port :: NamesPath(dir, family, stype, iface, port, path)
  }

  predicate NamesPath(dir: string, family: Family, stype: SockType, iface: nat, port: nat, path: string) {
    1 <= iface <= MAX_WRAPPED_INTERFACES && 1 <= port <= 0xFFFF
    && path == SunPath(dir, TypeChar(family, stype), iface, port)
  }

  /** A name left for connect() is one that convert_in_un_alloc stores. */
  predicate BindnameOk(si: Info) {
    si.bindname != None ==> Stored(si.bindname.value)
  }

  ghost predicate Lives(dir: string, si: Info) {
    && si.family != Unspec
    && (si.bound ==> Named(dir, si.family, si.stype, si.kname))
    && (si.connected ==> si.bound && si.peername != None && FamilyOf(si.peername.value) == si.family)
    && (si.deferConnect ==> si.connected && si.stype == Dgram)
    && BindnameOk(si)
    && si.autobinds <= (if si.bound then 1 else 0)
  }

  /** What no call undoes. */
  predicate Grew(before: Info, after: Info) {
    && after.stype == before.stype
    && (before.bound ==> after.bound && after.family == before.family)
    && (before.connected ==> after.connected)
    && (before.isServer == after.isServer)
    && before.autobinds <= after.autobinds && (before.bound ==> after.autobinds == before.autobinds)
  }

  /** Nothing renames a bound socket. */
  predicate SameName(before: Info, after: Info) {
    before.bound ==> after.kname == before.kname && after.unAddr == before.unAddr
  }

  // ------------------------------------------------------------------ one call

  lemma AutoBindLives(dir: string, si: Info, family: Family, env: Env, start: nat, ok: bool)
    requires Lives(dir, si) && EnvOk(env) && env.dir == dir && StartOk(start) && !si.bound
    ensures var (si', start', r) := AfterAutoBind(si, family, env, start, ok);
            Lives(dir, si') && Grew(si, si') && StartOk(start') && si'.connected == si.connected
            && (r.Ok? <==> si'.bound) && si'.family == (if r.Ok? then family else si.family)
            && si'.peername == si.peername && si'.deferConnect == si.deferConnect
            && si'.autobinds == si.autobinds + (if r.Ok? then 1 else 0)
  {
    hide SunPath, LeastUnused;
    if family != Unspec && (family == Inet6 ==> si.family == Inet6) {
      var first := WindowStart(start);
      var p := LeastUnused(env, TypeChar(family, si.stype), env.dflt, first, first + SOCKET_MAX_SOCKETS);
      LeastUnusedIsLeast(env, TypeChar(family, si.stype), env.dflt, first, first + SOCKET_MAX_SOCKETS);
      assert NamesPath(dir, family, si.stype, env.dflt, p, SunPath(env.dir, TypeChar(family, si.stype), env.dflt, p))
        || p == first + SOCKET_MAX_SOCKETS;
    }
  }

  lemma AllocLives(dir: string, si: Info, a: SockAddr, env: Env)
    requires EnvOk(env) && env.dir == dir && AddrOk(a) && si.family != Unspec
    ensures var (si', r) := AfterAlloc(si, a, env);
            (r.Ok? ==> Named(dir, si.family, si.stype, r.value))
            && si' == si.(bindname := si'.bindname, myname := si'.myname, bcast := si'.bcast)
  {
    hide SunPath, LeastUnused, LocalIface;
    var l := LocalIface(env.dflt, si.stype, a);
    if l.Ok? && 1 <= l.value.0 <= MAX_WRAPPED_INTERFACES {
      var kind := TypeChar(si.family, si.stype);
      LeastUnusedIsLeast(env, kind, l.value.0, EPHEMERAL_FIRST, EPHEMERAL_END);
      var p := if a.port != 0 then a.port else LeastUnused(env, kind, l.value.0, EPHEMERAL_FIRST, EPHEMERAL_END);
      assert p == EPHEMERAL_END || a.port != 0
        || NamesPath(dir, si.family, si.stype, l.value.0, p, SunPath(env.dir, kind, l.value.0, p));
      assert a.port != 0 ==> NamesPath(dir, si.family, si.stype, l.value.0, p, SunPath(env.dir, kind, l.value.0, p));
    }
  }

  lemma AllocStores(si: Info, a: SockAddr, env: Env)
    requires EnvOk(env) && AddrOk(a) && BindnameOk(si)
    ensures BindnameOk(AfterAlloc(si, a, env).0)
  {
    hide SunPath, LeastUnused, LocalIface, WithPort, TypeChar, Stored;
    IfaceFits(env, si.stype, a);
    var l := LocalIface(env.dflt, si.stype, a);
    if l.Ok? {
      NameIsStored(a, l.value.0);
      WithPortStored(Some(NameToStore(a, l.value.0)));
    }
    WithPortStored(si.bindname);
  }

  lemma IfaceFits(env: Env, stype: SockType, a: SockAddr)
    requires EnvOk(env) && AddrOk(a)
    ensures LocalIface(env.dflt, stype, a).Ok? ==> LocalIface(env.dflt, stype, a).value.0 <= 0xFF
  {
  }

  lemma WithPortStored(a: Option<SockAddr>)
    ensures forall port :: a != None && Stored(a.value) ==> WithPort(a, port) != None && Stored(WithPort(a, port).value)
  {
  }

  lemma NameIsStored(a: SockAddr, iface: nat)
    requires AddrOk(a) && iface <= 0xFF
    ensures Stored(NameToStore(a, iface))
  {
  }

  lemma BindLives(dir: string, si: Info, a: SockAddr, env: Env, ok: bool)
    requires Lives(dir, si) && EnvOk(env) && env.dir == dir && AddrOk(a)
    ensures Lives(dir, AfterBind(si, a, env, ok).0) && Grew(si, AfterBind(si, a, env, ok).0)
  {
    hide AfterAlloc, SunPath, Named, Stored;
    AllocLives(dir, si.(myname := Some(a)), a, env);
    AllocStores(si.(myname := Some(a)), a, env);
  }

  lemma EnsureBoundLives(dir: string, si: Info, env: Env, start: nat, bindOk: bool)
    requires Lives(dir, si) && EnvOk(env) && env.dir == dir && StartOk(start)
    ensures var (si', start', r) := EnsureBound(si, env, start, bindOk);
            Lives(dir, si') && Grew(si, si') && SameName(si, si') && StartOk(start') && si'.connected == si.connected
            && (r.Ok? ==> si'.bound) && si'.peername == si.peername && si'.deferConnect == si.deferConnect
            && si'.family == si.family
  {
    hide AfterAutoBind, Named;
    if !si.bound {
      AutoBindLives(dir, si, si.family, env, start, bindOk);
    }
  }

  lemma ConnectLives(dir: string, si: Info, a: SockAddr, env: Env, start: nat, bindOk: bool, connectOk: bool)
    requires Lives(dir, si) && EnvOk(env) && env.dir == dir && StartOk(start)
    ensures var (si', start', _) := AfterConnect(si, a, env, start, bindOk, connectOk);
            Lives(dir, si') && Grew(si, si') && SameName(si, si') && StartOk(start')
  {
    hide AfterAutoBind, Named, ConvertRemote;
    if !si.bound {
      AutoBindLives(dir, si, FamilyOf(a), env, start, bindOk);
      var (si1, start1, r) := AfterAutoBind(si, FamilyOf(a), env, start, bindOk);
      var (si', start', _) := AfterConnect(si, a, env, start, bindOk, connectOk);
      assert si' == si1 || si' == Connected(si1, a);
      assert si' == Connected(si1, a) ==> r.Ok?;
    }
  }

  lemma ListenLives(dir: string, si: Info, env: Env, start: nat, bindOk: bool)
    requires Lives(dir, si) && EnvOk(env) && env.dir == dir && StartOk(start)
    ensures var (si', start', _) := AfterListen(si, env, start, bindOk);
            Lives(dir, si') && Grew(si, si') && SameName(si, si') && StartOk(start')
  {
    hide EnsureBound, Named;
    EnsureBoundLives(dir, si, env, start, bindOk);
  }

  lemma ReceiveLives(dir: string, si: Info, named: bool, pieces: nat, env: Env, start: nat, bindOk: bool)
    requires Lives(dir, si) && EnvOk(env) && env.dir == dir && StartOk(start)
    ensures var (si', start', _) := AfterReceive(si, named, pieces, env, start, bindOk);
            Lives(dir, si') && Grew(si, si') && SameName(si, si') && StartOk(start')
  {
    hide EnsureBound, Named;
    EnsureBoundLives(dir, si, env, start, bindOk);
  }

  lemma SendLives(dir: string, si: Info, to: Option<SockAddr>, env: Env, start: nat, bindOk: bool, connectOk: bool)
    requires Lives(dir, si) && EnvOk(env) && env.dir == dir && StartOk(start)
    ensures var (si', start', _) := AfterSend(si, to, env, start, bindOk, connectOk);
            Lives(dir, si') && Grew(si, si') && SameName(si, si') && StartOk(start')
  {
    hide EnsureBound, Named, Reachable;
    EnsureBoundLives(dir, si, env, start, bindOk);
  }

  lemma StepLives(dir: string, si: Info, start: nat, call: Call)
    requires Lives(dir, si) && StartOk(start) && CallOk(dir, call)
    ensures var (si', start') := Step(si, start, call);
            Lives(dir, si') && Grew(si, si') && StartOk(start') && (!call.Bind? ==> SameName(si, si'))
  {
    hide AfterBind, AfterConnect, AfterListen, AfterReceive, AfterSend, Lives, Grew, StartOk;
    match call {
      case Bind(a, env, ok) => BindLives(dir, si, a, env, ok);
      case Connect(a, env, bindOk, connectOk) => ConnectLives(dir, si, a, env, start, bindOk, connectOk);
      case Listen(env, bindOk) => ListenLives(dir, si, env, start, bindOk);
      case Receive(named, pieces, env, bindOk) => ReceiveLives(dir, si, named, pieces, env, start, bindOk);
      case Send(to, env, bindOk, connectOk) => SendLives(dir, si, to, env, start, bindOk, connectOk);
    }
  }

  // ------------------------------------------------------------------ runs of a process

  /** The wrapped sockets of a process, in the order they were made, and its autobind_start. */
  datatype Process = Process(socks: seq<Info>, start: nat)

  datatype Event = On(i: nat, call: Call) | Open(family: Family, stype: SockType) | Accept(i: nat, peerPath: string)

  /** accept() succeeds on a bound stream socket, and the peer's path names an endpoint of its family. */
  ghost predicate EventOk(dir: string, p: Process, e: Event) {
    match e
    case On(i, call) => i < |p.socks| && CallOk(dir, call)
    case Open(family, _) => family != Unspec
    case Accept(i, peerPath) =>
      i < |p.socks| && p.socks[i].bound && p.socks[i].stype == Stream
      && Named(dir, p.socks[i].family, Stream, peerPath)
  }

  ghost function Next(dir: string, p: Process, e: Event): Process
    requires EventOk(dir, p, e)
  {
    match e
    case On(i, call) => var (si, start) := Step(p.socks[i], p.start, call); Process(p.socks[i := si], start)
    case Open(family, stype) => p.(socks := p.socks + [Fresh(family, stype)])
    case Accept(i, peerPath) =>
      match Child(p.socks[i], peerPath, p.socks[i].kname)
      case Ok(child) => p.(socks := p.socks + [child])
      case Err(_) => p
  }

  ghost predicate RunOk(dir: string, p: Process, es: seq<Event>)
    decreases |es|
  {
    es == [] || (EventOk(dir, p, es[0]) && RunOk(dir, Next(dir, p, es[0]), es[1..]))
  }

  ghost function Run(dir: string, p: Process, es: seq<Event>): Process
    requires RunOk(dir, p, es)
    decreases |es|
  {
    if es == [] then p else Run(dir, Next(dir, p, es[0]), es[1..])
  }

  ghost predicate AllLive(dir: string, p: Process) {
    StartOk(p.start) && forall i :: 0 <= i < |p.socks| ==> Lives(dir, p.socks[i])
  }

  predicate AllGrew(before: seq<Info>, after: seq<Info>) {
    |before| <= |after| && forall i :: 0 <= i < |before| ==> Grew(before[i], after[i])
  }

  /** A child goes by the names its two paths print. */
  lemma ChildNames(dir: string, parent: Info, iface: nat, port: nat, iface': nat, port': nat, peerPath: string,
                   ownPath: string)
    requires Fits(dir) && parent.family != Unspec
    requires NamesPath(dir, parent.family, Stream, iface, port, peerPath)
    requires NamesPath(dir, parent.family, Stream, iface', port', ownPath)
    ensures var child := Child(parent, peerPath, ownPath);
            child.Ok? && child.value.peername == Some(Wrapped(parent.family, iface, port))
            && child.value.myname == Some(Wrapped(parent.family, iface', port'))
  {
    hide SunPath, ConvertUnIn, TypeChar;
    ParsePrinted(dir, parent.family, Stream, iface, port, SizeOfFamily(parent.family));
    ParsePrinted(dir, parent.family, Stream, iface', port', 128);
  }

  lemma ChildLives(dir: string, parent: Info, peerPath: string)
    requires Fits(dir) && Lives(dir, parent) && parent.bound && parent.stype == Stream
    requires Named(dir, parent.family, Stream, peerPath)
    ensures var child := Child(parent, peerPath, parent.kname); child.Ok? && Lives(dir, child.value)
  {
    hide NamesPath, ConvertUnIn;
    var iface, port :| NamesPath(dir, parent.family, Stream, iface, port, peerPath);
    var iface', port' :| NamesPath(dir, parent.family, Stream, iface', port', parent.kname);
    ChildNames(dir, parent, iface, port, iface', port', peerPath, parent.kname);
  }

  /** A call to bind() on socket i. */
  predicate Binds(e: Event, i: nat) {
    e.On? && e.i == i && e.call.Bind?
  }

  lemma NextLives(dir: string, p: Process, e: Event)
    requires Fits(dir) && AllLive(dir, p) && EventOk(dir, p, e)
    ensures AllLive(dir, Next(dir, p, e)) && AllGrew(p.socks, Next(dir, p, e).socks)
    ensures forall i :: 0 <= i < |p.socks| && !Binds(e, i) ==> SameName(p.socks[i], Next(dir, p, e).socks[i])
  {
    hide Step, Child, Lives, CallOk, StartOk, Named;
    match e {
      case On(i, call) => StepLives(dir, p.socks[i], p.start, call);
      case Open(family, stype) => FreshLives(dir, family, stype);
      case Accept(i, peerPath) => ChildLives(dir, p.socks[i], peerPath);
    }
  }

  lemma FreshLives(dir: string, family: Family, stype: SockType)
    requires family != Unspec
    ensures Lives(dir, Fresh(family, stype))
  {
  }

  lemma {:induction false} RunLives(dir: string, p: Process, es: seq<Event>)
    requires Fits(dir) && AllLive(dir, p) && RunOk(dir, p, es)
    ensures AllLive(dir, Run(dir, p, es)) && AllGrew(p.socks, Run(dir, p, es).socks)
    decreases |es|
  {
    hide AllLive, EventOk, Next;
    if es != [] {
      var q := Next(dir, p, es[0]);
      NextLives(dir, p, es[0]);
      RunLives(dir, q, es[1..]);
      forall i | 0 <= i < |p.socks| ensures Grew(p.socks[i], Run(dir, p, es).socks[i]) {
        assert Grew(p.socks[i], q.socks[i]) && Grew(q.socks[i], Run(dir, q, es[1..]).socks[i]);
      }
    }
  }

  /** In any part of a run, swrap_auto_bind succeeds on a socket that is bound not at all, and on any other
      at most once. */
  lemma AutoBindsOnce(dir: string, p: Process, es: seq<Event>, i: nat)
    requires Fits(dir) && AllLive(dir, p) && RunOk(dir, p, es) && i < |p.socks|
    ensures i < |Run(dir, p, es).socks|
    ensures var more := Run(dir, p, es).socks[i].autobinds - p.socks[i].autobinds;
            0 <= more <= if p.socks[i].bound then 0 else 1
  {
    hide Run;
    RunLives(dir, p, es);
    assert Lives(dir, p.socks[i]) && Grew(p.socks[i], Run(dir, p, es).socks[i]);
    assert Lives(dir, Run(dir, p, es).socks[i]);
  }

  /** Only bind() gives a bound socket another path, or another file to unlink when it is closed. */
  lemma {:induction false} OnlyBindRenames(dir: string, p: Process, es: seq<Event>, i: nat)
    requires Fits(dir) && AllLive(dir, p) && RunOk(dir, p, es) && i < |p.socks|
    requires forall k :: 0 <= k < |es| ==> !Binds(es[k], i)
    ensures i < |Run(dir, p, es).socks| && SameName(p.socks[i], Run(dir, p, es).socks[i])
    decreases |es|
  {
    hide AllLive, EventOk, Next;
    if es != [] {
      var q := Next(dir, p, es[0]);
      NextLives(dir, p, es[0]);
      assert !Binds(es[0], i) && Grew(p.socks[i], q.socks[i]);
      assert forall k :: 0 <= k < |es[1..]| ==> es[1..][k] == es[k + 1];
      OnlyBindRenames(dir, q, es[1..], i);
    }
  }

  /** The life of the sockets of a process, from its start: whatever calls are made on however many
      sockets and whatever the system answers, a connected socket is bound and has a peer of its own
      family, only datagram sockets defer connecting, bound and connected are never cleared, the family
      stays once bound, and no socket is automatically bound twice, or once it is bound. */
  lemma LifeOfAProcess(dir: string, pid: nat, es: seq<Event>, later: seq<Event>)
    requires Fits(dir) && RunOk(dir, Process([], InitialStart(pid)), es)
    requires RunOk(dir, Run(dir, Process([], InitialStart(pid)), es), later)
    ensures var p := Run(dir, Process([], InitialStart(pid)), es);
            AllLive(dir, p) && AllLive(dir, Run(dir, p, later)) && AllGrew(p.socks, Run(dir, p, later).socks)
            && forall i :: 0 <= i < |p.socks| ==> p.socks[i].autobinds <= 1
  {
    hide Run, RunOk;
    RunLives(dir, Process([], InitialStart(pid)), es);
    var p := Run(dir, Process([], InitialStart(pid)), es);
    RunLives(dir, p, later);
    forall i | 0 <= i < |p.socks| ensures p.socks[i].autobinds <= 1 {
      assert Lives(dir, p.socks[i]);
    }
  }

  /** A socket at any point of its life that binds: the name left for connect() leads to the path bound now
      if and only if it is of the socket's family and, if an earlier attempt left it behind, of the same
      interface and port, unless the port is being chosen now. */
  lemma BoundNameLeads(dir: string, si: Info, a: SockAddr, env: Env)
    requires Lives(dir, si) && EnvOk(env) && Suits(si.family, a) && AfterAlloc(si, a, env).1.Ok?
    ensures var (si', r) := AfterAlloc(si, a, env);
            LocalIface(env.dflt, si.stype, a).Ok? && si'.bindname != None
            && (ConvertRemote(env.dir, env.dflt, si.stype, si'.bindname.value) == Ok((r.value, 0)) <==>
                LeftBehind(si, a, LocalIface(env.dflt, si.stype, a).value.0))
  {
    hide AfterAlloc, ConvertRemote, LocalIface, Stored, IfaceOf, Named;
    AllocSucceeded(si, a, env);
    if si.bindname == None {
      Rendezvous(si, a, env);
    } else {
      StaleNameLeadsElsewhere(si, a, env);
    }
  }

  predicate LeftBehind(si: Info, a: SockAddr, iface: nat)
    requires BindnameOk(si)
  {
    if si.bindname == None then FamilyOf(a) == si.family
    else
      var b := si.bindname.value;
      FamilyOf(b) == si.family && IfaceOf(b) == iface && (a.port == 0 || b.port == a.port)
  }

  // ------------------------------------------------------------------ the two ends of a connection

  /** A stream client that has not tried to bind, or has bound once. */
  function Client(family: Family, bind: Option<(SockAddr, Env)>): Info {
    if bind == None then Fresh(family, Stream) else AfterBind(Fresh(family, Stream), bind.value.0, bind.value.1, true).0
  }

  predicate BindOk(dir: string, family: Family, bind: Option<(SockAddr, Env)>) {
    bind != None ==>
      var (b, env) := bind.value;
      EnvOk(env) && env.dir == dir && Suits(family, b) && AfterBind(Fresh(family, Stream), b, env, true).1.Ok?
  }

  /** What the client is bound to when connect() has bound it if need be, and what it then calls itself. */
  ghost predicate ClientNamed(dir: string, family: Family, si: Info, iface: nat, port: nat) {
    NamesPath(dir, family, Stream, iface, port, si.kname) && si.myname == Some(Wrapped(family, iface, port))
  }

  lemma BoundClient(dir: string, family: Family, bind: Option<(SockAddr, Env)>)
    requires family != Unspec && bind != None && BindOk(dir, family, bind)
    ensures var si := Client(family, bind);
            si.bound && si.family == family && si.stype == Stream && si.bindname != None
            && Named(dir, family, Stream, si.kname)
            && FamilyOf(si.bindname.value) == FamilyOf(bind.value.0)
            && (FamilyOf(bind.value.0) == family ==> exists iface, port ::
                NamesPath(dir, family, Stream, iface, port, si.kname)
                && si.bindname.value == Wrapped(family, iface, port))
  {
    hide AfterAlloc, SunPath, ConvertRemote;
    var (b, env) := bind.value;
    var si0 := Fresh(family, Stream).(myname := Some(b));
    AllocLives(dir, si0, b, env);
    Rendezvous(si0, b, env);
    AllocFamily(si0, b, env);
    if FamilyOf(b) == family {
      var (si1, r) := AfterAlloc(si0, b, env);
      var iface, port :| 1 <= iface <= MAX_WRAPPED_INTERFACES && 1 <= port <= 0xFFFF
                && si1.bindname.value == Wrapped(family, iface, port)
                && r.value == SunPath(env.dir, TypeChar(family, Stream), iface, port);
      assert NamesPath(dir, family, Stream, iface, port, Client(family, bind).kname);
    }
  }

  lemma AllocFamily(si: Info, a: SockAddr, env: Env)
    requires si.bindname == None && AfterAlloc(si, a, env).1.Ok?
    ensures AfterAlloc(si, a, env).0.bindname != None
    ensures FamilyOf(AfterAlloc(si, a, env).0.bindname.value) == FamilyOf(a)
  {
    hide SunPath, LeastUnused, LocalIface;
  }

  /** Once a stream client has connected and its connection has been accepted, the child takes itself
      for the endpoint the client connected to; and each end knows the other by the name the other goes
      by, except exactly when the client had bound to the unspecified family. */
  lemma EndpointsAgree(dir: string, family: Family, bind: Option<(SockAddr, Env)>,
                       iface: nat, port: nat, toFamily: Family, env: Env, start: nat, parent: Info)
    requires EnvOk(env) && env.dir == dir && StartOk(start) && family != Unspec && toFamily != Unspec
    requires 1 <= iface <= MAX_WRAPPED_INTERFACES && 1 <= port <= 0xFFFF && BindOk(dir, family, bind)
    requires AfterConnect(Client(family, bind), Wrapped(toFamily, iface, port), env, start, true, true).2.Ok?
    requires Lives(dir, parent) && parent.bound && parent.stype == Stream
    requires ConvertRemote(dir, env.dflt, Stream, Wrapped(toFamily, iface, port)) == Ok((parent.kname, 0))
    ensures var client := AfterConnect(Client(family, bind), Wrapped(toFamily, iface, port), env, start, true, true).0;
            var child := Child(parent, client.kname, parent.kname);
            child.Ok? && child.value.myname == client.peername == Some(Wrapped(toFamily, iface, port))
            && (child.value.peername == client.myname <==> bind == None || FamilyOf(bind.value.0) == family)
  {
    hide SunPath, ConvertRemote, AfterAutoBind, AfterBind, Child, Lives, Named, NamesPath, TypeChar;
    var a, si := Wrapped(toFamily, iface, port), Client(family, bind);
    var client := AfterConnect(si, a, env, start, true, true).0;
    ParentFamily(dir, parent, toFamily, env, iface, port);
    assert NamesPath(dir, toFamily, Stream, iface, port, parent.kname);
    if bind == None {
      AutoBoundClient(dir, family, toFamily, env, start);
      var si1 := AfterAutoBind(si, toFamily, env, start, true).0;
      var i, p :| ClientNamed(dir, toFamily, si1, i, p);
      ChildNames(dir, parent, i, p, iface, port, client.kname, parent.kname);
    } else {
      BoundClient(dir, family, bind);
      if FamilyOf(bind.value.0) == family {
        var i, p :| NamesPath(dir, family, Stream, i, p, si.kname) && si.bindname.value == Wrapped(family, i, p);
        assert ClientNamed(dir, family, client, i, p);
      }
      BoundAgree(dir, family, bind, iface, port, client, parent);
    }
  }

  lemma BoundAgree(dir: string, family: Family, bind: Option<(SockAddr, Env)>, iface: nat, port: nat, client: Info,
                   parent: Info)
    requires Fits(dir) && family != Unspec && bind != None && parent.family == family
    requires NamesPath(dir, family, Stream, iface, port, parent.kname)
    requires client.myname != None && Named(dir, family, Stream, client.kname)
    requires FamilyOf(client.myname.value) == FamilyOf(bind.value.0)
    requires FamilyOf(bind.value.0) == family ==> exists i, p :: ClientNamed(dir, family, client, i, p)
    ensures var child := Child(parent, client.kname, parent.kname);
            child.Ok? && child.value.myname == Some(Wrapped(family, iface, port))
            && (child.value.peername == client.myname <==> FamilyOf(bind.value.0) == family)
  {
    hide Child, NamesPath;
    if FamilyOf(bind.value.0) == family {
      var i, p :| ClientNamed(dir, family, client, i, p);
      ChildNames(dir, parent, i, p, iface, port, client.kname, parent.kname);
    } else {
      var i, p :| NamesPath(dir, family, Stream, i, p, client.kname);
      ChildNames(dir, parent, i, p, iface, port, client.kname, parent.kname);
    }
  }

  lemma AutoBoundClient(dir: string, family: Family, toFamily: Family, env: Env, start: nat)
    requires EnvOk(env) && env.dir == dir && StartOk(start) && toFamily != Unspec
    requires AfterAutoBind(Fresh(family, Stream), toFamily, env, start, true).2.Ok?
    ensures var si := AfterAutoBind(Fresh(family, Stream), toFamily, env, start, true).0;
            si.family == toFamily && si.stype == Stream && si.bindname == None
            && exists i, p :: ClientNamed(dir, toFamily, si, i, p)
  {
    hide SunPath, LeastUnused;
    AutoBindChooses(Fresh(family, Stream), toFamily, env, start, true);
    var si := AfterAutoBind(Fresh(family, Stream), toFamily, env, start, true).0;
    var p :| AUTOBIND_FIRST <= p <= AUTOBIND_LAST && si == AutoBound(Fresh(family, Stream), toFamily, env, p);
    assert AutoBound(Fresh(family, Stream), toFamily, env, p).myname == Some(Wrapped(toFamily, env.dflt, p));
    assert ClientNamed(dir, toFamily, si, env.dflt, p);
  }

  /** The socket at a path has the family of the addresses that lead there. */
  lemma ParentFamily(dir: string, parent: Info, toFamily: Family, env: Env, iface: nat, port: nat)
    requires EnvOk(env) && env.dir == dir && toFamily != Unspec && Lives(dir, parent) && parent.bound
    requires parent.stype == Stream
    requires 1 <= iface <= MAX_WRAPPED_INTERFACES && 1 <= port <= 0xFFFF
    requires ConvertRemote(dir, env.dflt, Stream, Wrapped(toFamily, iface, port)) == Ok((parent.kname, 0))
    ensures parent.family == toFamily && NamesPath(dir, toFamily, Stream, iface, port, parent.kname)
  {
    hide SunPath, ConvertRemote, Wrapped;
    RemoteOfWrapped(env, toFamily, Stream, iface, port);
    var i, p :| NamesPath(dir, parent.family, Stream, i, p, parent.kname);
    PathsDiffer(dir, TypeChar(toFamily, Stream), iface, port, TypeChar(parent.family, Stream), i, p);
  }
}
