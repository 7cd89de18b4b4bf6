/** What the calls on a socket come to, in terms of the addresses a caller passes and the names, flags and errors
    it gets to see. */
module Outcomes {
  import opened Names
  import opened Sockets
  import opened Lifecycle

  // ------------------------------------------------------------------ bind

  /** To bind to a is to ask for an interface: a concrete one, or, by the wildcard address or a broadcast
      address, the default one. */
  predicate Asks(si: Info, dflt: nat, a: SockAddr, iface: nat, bcast: nat) {
    var any := [0, 0, 0, 0, 0, 0, 0, 0, 0, 0, 0, 0, 0, 0, 0, 0];
    || (bcast == 0 && iface <= 0xFF && a == Wrapped(si.family, iface, a.port))
    || (bcast == 0 && iface == dflt && si.family == Inet && a.In? && a.family != Inet6 && a.addr == 0)
    || (bcast == 0 && iface == dflt && si.family == Inet6 && a == In6(any, a.port))
    || (bcast == 1 && iface == dflt && si.family == Inet && si.stype == Dgram && a == In(Inet, 0x7FFF_FFFF, a.port))
    || (bcast == 2 && iface == dflt && si.family == Inet && si.stype == Dgram && a == In(Inet, 0xFFFF_FFFF, a.port))
  }

  /** The port bind() to a takes on the interface it asks for. */
  predicate TakesPort(env: Env, kind: char, iface: nat, a: SockAddr, p: nat) {
    if a.port != 0 then p == a.port else FirstFree(env, kind, iface, 5001, 10000, p)
  }

  /** What bind() to a leaves behind on a socket, bound or not: p is the port taken, or 0. The name for connect()
      is that of the first attempt. */
  function Tried(si: Info, a: SockAddr, iface: nat, bcast: nat, p: nat): Info {
    var first := if si.bindname != None then si.bindname.value
                 else if FamilyOf(a) == si.family then Wrapped(si.family, iface, a.port)
                 else In(Unspec, 0x7F00_0000 + iface, a.port);
    si.(bcast := bcast, myname := Some(a.(port := p)),
        bindname := Some(if p != a.port then first.(port := p) else first))
  }

  /** A socket that binds gets the path of the interface asked for and of the port asked for or the least free
      one; it fails exactly for want of such an interface or port, or when the system does not agree. */
  lemma BindOutcome(si: Info, a: SockAddr, env: Env, ok: bool, iface: nat, bcast: nat)
    requires EnvOk(env) && AddrOk(a) && si.family != Unspec && Asks(si, env.dflt, a, iface, bcast)
    ensures var (si', r) := AfterBind(si, a, env, ok);
            var kind := TypeChar(si.family, si.stype);
            var badIface, full := iface == 0 || iface > 64, a.port == 0 && AllUsed(env, kind, iface, 5001, 10000);
            if badIface || full then
              r == Err(if badIface then EINVAL else ENFILE) && si' == Tried(si, a, iface, bcast, a.port)
            else exists p: nat ::
              TakesPort(env, kind, iface, a, p)
              && if !ok then r == Err(LibCError) && si' == Tried(si, a, iface, bcast, p)
                 else r == Ok(())
                      && si' == Tried(si, a, iface, bcast, p).(bound := true, kname := SunPath(env.dir, kind, iface, p))
  {
    hide SunPath, LeastUnused, AllUsed, FirstFree, LocalIface, AfterAlloc, Asks, Stored, Tried, AddrOk;
    var kind := TypeChar(si.family, si.stype);
    SearchFinds(env, kind, iface, 5001, 10000);
    var p := if a.port != 0 then a.port else LeastUnused(env, kind, iface, 5001, 10000);
    if a.port == 0 && FirstFree(env, kind, iface, 5001, 10000, p) {
      InWindow(env, kind, iface, 5001, 10000, p);
    }
    AsksIface(si, env.dflt, a, iface, bcast);
    TriedForgets(si, a, iface, bcast, p);
    AllocOn(si.(myname := Some(a)), a, env, iface, bcast);
    assert TakesPort(env, kind, iface, a, p) || (a.port == 0 && AllUsed(env, kind, iface, 5001, 10000));
  }

  lemma AsksIface(si: Info, dflt: nat, a: SockAddr, iface: nat, bcast: nat)
    requires AddrOk(a) && si.family != Unspec && Asks(si, dflt, a, iface, bcast)
    ensures LocalIface(dflt, si.stype, a) == Ok((iface, bcast)) && BindError(si.family, a) == None
  {
    assert (SWRAP_PREFIX + [iface])[..15] == SWRAP_PREFIX && (SWRAP_PREFIX + [iface])[0] == 0xFD;
  }

  lemma AllocOn(si: Info, a: SockAddr, env: Env, iface: nat, bcast: nat)
    requires AddrOk(a) && BindError(si.family, a) == None && LocalIface(env.dflt, si.stype, a) == Ok((iface, bcast))
    requires si.myname == Some(a) && si.family != Unspec
    ensures var kind, (si', r) := TypeChar(si.family, si.stype), AfterAlloc(si, a, env);
            var p := if a.port != 0 then a.port else LeastUnused(env, kind, iface, 5001, 10000);
            if iface == 0 || iface > 64 then r == Err(EINVAL) && si' == Tried(si, a, iface, bcast, a.port)
            else if a.port == 0 && p == 10000 then r == Err(ENFILE) && si' == Tried(si, a, iface, bcast, a.port)
            else 5001 <= p < 10000 || a.port != 0 ==>
                   r == Ok(SunPath(env.dir, kind, iface, p)) && si' == Tried(si, a, iface, bcast, p)
  {
    hide SunPath, LeastUnused, LocalIface, WithPort, NameToStore, Wrapped, TypeChar;
    NameStored(si.family, a, iface);
    PortSet(a);
    PortSet(if si.bindname == None then NameToStore(a, iface) else si.bindname.value);
  }

  lemma TriedForgets(si: Info, a: SockAddr, iface: nat, bcast: nat, p: nat)
    ensures Tried(si.(myname := Some(a)), a, iface, bcast, p) == Tried(si, a, iface, bcast, p)
    ensures Tried(si.(myname := Some(a)), a, iface, bcast, a.port) == Tried(si, a, iface, bcast, a.port)
  {
  }

  lemma NameStored(family: Family, a: SockAddr, iface: nat)
    requires BindError(family, a) == None && AddrOk(a) && family != Unspec
    ensures NameToStore(a, iface)
         == if FamilyOf(a) == family then Wrapped(family, iface, a.port) else In(Unspec, 0x7F00_0000 + iface, a.port)
  {
  }

  lemma PortSet(b: SockAddr)
    ensures b.(port := b.port) == b
    ensures forall p: nat {:trigger WithPort(Some(b), p)} :: p <= 0xFFFF ==> WithPort(Some(b), p) == Some(b.(port := p))
  {
  }

  /** An address that asks for nothing is refused: one of the wrong kind at once, any other as not available. */
  lemma BindRefused(si: Info, a: SockAddr, env: Env, ok: bool)
    requires AddrOk(a) && si.family != Unspec && forall iface, bcast :: !Asks(si, env.dflt, a, iface, bcast)
    ensures var (si', r) := AfterBind(si, a, env, ok);
            if si.family == Inet && (a.In6? || (a.family == Unspec && a.addr != 0)) then
              r == Err(EAFNOSUPPORT) && si' == si
            else if si.family == Inet6 && a.In? then r == Err(EINVAL) && si' == si
            else r == Err(EADDRNOTAVAIL) && si' == si.(myname := Some(a), bcast := 0)
  {
    if BindError(si.family, a) == None {
      var l := LocalIface(env.dflt, si.stype, a);
      if l.Ok? {
        AskedIface(si, env.dflt, a);
      }
    }
  }

  lemma AskedIface(si: Info, dflt: nat, a: SockAddr)
    requires AddrOk(a) && si.family != Unspec && BindError(si.family, a) == None && LocalIface(dflt, si.stype, a).Ok?
    ensures var (iface, bcast) := LocalIface(dflt, si.stype, a).value; Asks(si, dflt, a, iface, bcast)
  {
    if a.In6? {
      assert a.addr6 == a.addr6[..15] + [a.addr6[15]];
      if forall i :: 0 <= i < 16 ==> a.addr6[i] == 0 {
        assert a.addr6 == [0, 0, 0, 0, 0, 0, 0, 0, 0, 0, 0, 0, 0, 0, 0, 0];
      }
    }
  }

  /** Whoever knows the address a socket is bound to, with the port that was taken, finds the socket. */
  lemma BindReaches(si: Info, iface: nat, port: nat, env: Env, ok: bool, dflt: nat)
    requires EnvOk(env) && si.family != Unspec && 1 <= iface <= MAX_WRAPPED_INTERFACES && port <= 0xFFFF
    requires AfterBind(si, Wrapped(si.family, iface, port), env, ok).1.Ok?
    ensures var si' := AfterBind(si, Wrapped(si.family, iface, port), env, ok).0;
            si'.bound && exists p: nat ::
              (if port != 0 then p == port else 5001 <= p <= 9999)
              && si'.kname == SunPath(env.dir, TypeChar(si.family, si.stype), iface, p)
              && ConvertRemote(env.dir, dflt, si.stype, Wrapped(si.family, iface, p)) == Ok((si'.kname, 0))
  {
    hide AfterBind, SunPath, AllUsed, TypeChar, ConvertRemote, Tried;
    BindOutcome(si, Wrapped(si.family, iface, port), env, ok, iface, 0);
    var kind, si' := TypeChar(si.family, si.stype), AfterBind(si, Wrapped(si.family, iface, port), env, ok).0;
    var p: nat :| TakesPort(env, kind, iface, Wrapped(si.family, iface, port), p)
                  && si'.kname == SunPath(env.dir, kind, iface, p);
    RemoteOfWrapped(Env(env.dir, dflt, {}), si.family, si.stype, iface, p);
  }

  // ------------------------------------------------------------------ the other end

  /** An address inside 127.0.0.0/24 or fd00::5357:5f00/120. */
  predicate IsWrapped(a: SockAddr) {
    if a.In? then a.family == Inet && 0x7F00_0000 <= a.addr <= 0x7F00_00FF
    else |a.addr6| == 16 && a.addr6[..15] == [0xFD, 0, 0, 0, 0, 0, 0, 0, 0, 0, 0, 0, 0x53, 0x57, 0x5F]
  }

  predicate IsBroadcast(stype: SockType, a: SockAddr) {
    stype == Dgram && a.In? && a.family == Inet && a.addr in {0xFFFF_FFFF, 0x7FFF_FFFF}
  }

  /** A peer address leads to the path of its family, interface and port, whatever the caller's own interface; a
      datagram may also go to either broadcast address; nothing else can be reached. */
  lemma RemoteOutcome(env: Env, stype: SockType, a: SockAddr)
    requires EnvOk(env) && AddrOk(a)
    ensures var r := ConvertRemote(env.dir, env.dflt, stype, a);
            if !IsWrapped(a) && !IsBroadcast(stype, a) then r == Err(ENETUNREACH)
            else if a.port == 0 then r == Err(EINVAL)
            else if IsBroadcast(stype, a) then
              r == Ok((env.dir + "/EINVAL", if a.addr == 0xFFFF_FFFF then 2 else 1))
            else exists iface: nat ::
              iface <= 0xFF && a == Wrapped(FamilyOf(a), iface, a.port)
              && r == Ok((SunPath(env.dir, TypeChar(FamilyOf(a), stype), iface, a.port), 0))
  {
    hide SunPath, TypeChar;
    if IsWrapped(a) {
      var iface := if a.In? then a.addr - 0x7F00_0000 else a.addr6[15];
      if a.In6? { assert a.addr6 == a.addr6[..15] + [a.addr6[15]]; }
      assert a == Wrapped(FamilyOf(a), iface, a.port);
      if a.port != 0 { RemoteOfWrapped(env, FamilyOf(a), stype, iface, a.port); }
    }
  }

  // ------------------------------------------------------------------ binding on the way to something else

  /** A socket is bound, or can be bound automatically, in a family. */
  predicate CanBind(si: Info, family: Family, env: Env, start: nat, bindOk: bool) {
    si.bound || (family != Unspec && (family == Inet6 ==> si.family == Inet6)
                 && !WindowFull(env, TypeChar(family, si.stype), start) && bindOk)
  }

  /** si' is si bound: as it was, or automatically, once, to the first free port of the window. */
  ghost predicate NowBound(si: Info, family: Family, env: Env, start: nat, si': Info, start': nat) {
    if si.bound then si' == si && start' == start
    else
      var first := if start > 60000 then 10000 else start;
      exists p: nat :: FirstFree(env, TypeChar(family, si.stype), env.dflt, first, first + 1024, p)
                       && start' == p + 1 && si' == AutoBound(si, family, env, p)
  }

  /** si' is si, but may have got a name without a port. */
  predicate Untouched(si: Info, family: Family, env: Env, si': Info) {
    si' == si || (!si.bound && si' == si.(myname := Some(Wrapped(family, env.dflt, 0))))
  }

  lemma AutoBindOutcome(si: Info, family: Family, env: Env, start: nat, bindOk: bool)
    requires EnvOk(env) && StartOk(start) && !si.bound
    ensures var (si', start', r) := AfterAutoBind(si, family, env, start, bindOk);
            if CanBind(si, family, env, start, bindOk) then r == Ok(()) && NowBound(si, family, env, start, si', start')
            else Untouched(si, family, env, si')
                 && r == Err(if family == Unspec then ESOCKTNOSUPPORT
                             else if family == Inet6 && si.family != Inet6 then ENETUNREACH
                             else if WindowFull(env, TypeChar(family, si.stype), start) then ENFILE
                             else LibCError)
  {
    hide WindowFull, TypeChar, FirstFree, AutoBound, LeastUnused, Wrapped, WithPort, SunPath;
    if family != Unspec && (family == Inet6 ==> si.family == Inet6) {
      AutoBindChooses(si, family, env, start, bindOk);
    }
  }

  lemma StaysBound(si: Info, env: Env, start: nat)
    requires si.bound
    ensures NowBound(si, si.family, env, start, si, start)
  {
  }

  lemma EnsuredOutcome(si: Info, env: Env, start: nat, bindOk: bool)
    requires EnvOk(env) && StartOk(start) && Lives(env.dir, si)
    ensures var (si', start', r) := EnsureBound(si, env, start, bindOk);
            if CanBind(si, si.family, env, start, bindOk) then
              r == Ok(()) && NowBound(si, si.family, env, start, si', start')
              && si'.bound && Named(env.dir, si.family, si.stype, si'.kname)
            else Untouched(si, si.family, env, si')
                 && r == Err(if WindowFull(env, TypeChar(si.family, si.stype), start) then ENFILE else LibCError)
  {
    hide AfterAutoBind, WindowFull, NowBound, TypeChar, Named, Stored;
    if si.bound {
      StaysBound(si, env, start);
    } else {
      AutoBindOutcome(si, si.family, env, start, bindOk);
      AutoBindLives(env.dir, si, si.family, env, start, bindOk);
    }
  }

  /** listen() binds first; any failure to is reported as a used address. */
  lemma ListenOutcome(si: Info, env: Env, start: nat, bindOk: bool)
    requires EnvOk(env) && StartOk(start) && Lives(env.dir, si)
    ensures var (si', start', r) := AfterListen(si, env, start, bindOk);
            if CanBind(si, si.family, env, start, bindOk) then
              r == Ok(()) && NowBound(si, si.family, env, start, si', start')
              && si'.bound && Named(env.dir, si.family, si.stype, si'.kname)
            else r == Err(EADDRINUSE) && Untouched(si, si.family, env, si')
  {
    hide EnsureBound, CanBind, NowBound, Untouched, Lives, Named;
    EnsuredOutcome(si, env, start, bindOk);
  }

  /** Receiving takes a connected stream socket, or a datagram socket that is told where to put the sender's
      address; this is bound first, unless there is no room to receive anything. */
  lemma ReceiveOutcome(si: Info, named: bool, pieces: nat, env: Env, start: nat, bindOk: bool)
    requires EnvOk(env) && StartOk(start) && Lives(env.dir, si)
    ensures var (si', start', r) := AfterReceive(si, named, pieces, env, start, bindOk);
            if si.stype == Stream || !named || pieces == 0 then
              si' == si && start' == start
              && r == if si.stype == Stream then (if si.connected then Ok(()) else Err(ENOTCONN))
                      else if named then Ok(()) else Err(EINVAL)
            else if CanBind(si, si.family, env, start, bindOk) then
              r == Ok(()) && NowBound(si, si.family, env, start, si', start')
              && si'.bound && Named(env.dir, si.family, Dgram, si'.kname)
            else Untouched(si, si.family, env, si')
                 && r == Err(if WindowFull(env, TypeChar(si.family, Dgram), start) then ENFILE else LibCError)
  {
    hide EnsureBound, CanBind, NowBound, Untouched, Lives, Named, WindowFull, TypeChar;
    EnsuredOutcome(si, env, start, bindOk);
  }

  // ------------------------------------------------------------------ send

  predicate CanReach(stype: SockType, a: SockAddr) {
    a.port != 0 && (IsWrapped(a) || IsBroadcast(stype, a))
  }

  /** A datagram socket has somewhere to send to: its peer, or else the address given. */
  predicate HasTarget(si: Info, to: Option<SockAddr>) {
    si.connected || (to != None && CanReach(Dgram, to.value))
  }

  /** Its deferred connect(), if any, can be made up for. */
  predicate CanCatchUp(si: Info, connectOk: bool) {
    si.deferConnect ==> connectOk && si.peername != None && CanReach(Dgram, si.peername.value)
  }

  lemma ReachableOutcome(si: Info, a: SockAddr, env: Env)
    ensures Reachable(si, a, env).Ok? <==> CanReach(si.stype, a)
    ensures Reachable(si, a, env).Err? ==> Reachable(si, a, env).errno in {EAFNOSUPPORT, ENETUNREACH, EINVAL}
  {
    hide SunPath, TypeChar, InvalidPath;
  }

  lemma SendBound(si: Info, to: Option<SockAddr>, env: Env, start: nat, bindOk: bool, connectOk: bool)
    requires si.stype == Dgram && si.bound
    ensures var (si', start', r) := AfterSend(si, to, env, start, bindOk, connectOk);
            start' == start
            && if HasTarget(si, to) && CanCatchUp(si, connectOk) then r == Ok(()) && si' == si.(deferConnect := false)
               else r.Err? && si' == si && (r == Err(ENOTCONN) <==> !si.connected && to == None)
                    && (r == Err(LibCError) ==> !connectOk)
  {
    hide Reachable, CanReach;
    if to != None { ReachableOutcome(si, to.value, env); }
    if si.peername != None { ReachableOutcome(si, si.peername.value, env); }
  }

  lemma SendUnbound(si: Info, to: Option<SockAddr>, env: Env, start: nat, bindOk: bool, connectOk: bool)
    requires Lives(env.dir, si) && si.stype == Dgram && !si.bound
    ensures var (si', start', r) := AfterSend(si, to, env, start, bindOk, connectOk);
            if HasTarget(si, to) then (si', start', r) == EnsureBound(si, env, start, bindOk)
            else r.Err? && si' == si && start' == start && (r == Err(ENOTCONN) <==> to == None)
  {
    hide Reachable, CanReach, Named, SunPath, LeastUnused, Wrapped, WithPort, TypeChar;
    if to != None { ReachableOutcome(si, to.value, env); }
  }

  lemma NowBoundWithout(si: Info, family: Family, env: Env, start: nat, si': Info, start': nat)
    requires si.bound && si' == si.(deferConnect := false) && start' == start
    ensures NowBound(si.(deferConnect := false), family, env, start, si', start')
  {
  }

  /** A datagram can be sent exactly when it has somewhere to go, the socket is bound or can be, and a deferred
      connect can be made up for; from then on the socket is bound, to its old path or, once, automatically, and
      no connect is deferred. A stream socket sends exactly when it is connected. */
  lemma SendOutcome(si: Info, to: Option<SockAddr>, env: Env, start: nat, bindOk: bool, connectOk: bool)
    requires EnvOk(env) && StartOk(start) && Lives(env.dir, si)
    ensures var (si', start', r) := AfterSend(si, to, env, start, bindOk, connectOk);
            if si.stype == Stream then
              si' == si && start' == start && r == if si.connected then Ok(()) else Err(ENOTCONN)
            else if HasTarget(si, to) && CanBind(si, si.family, env, start, bindOk) && CanCatchUp(si, connectOk) then
              r == Ok(()) && NowBound(si.(deferConnect := false), si.family, env, start, si', start')
              && si'.bound && Named(env.dir, si.family, Dgram, si'.kname) && !si'.deferConnect
            else
              r.Err? && Untouched(si, si.family, env, si')
              && (r == Err(ENOTCONN) <==> !si.connected && to == None)
              && (!HasTarget(si, to) || si.bound ==> si' == si && start' == start)
              && (HasTarget(si, to) && !si.bound ==>
                    r == Err(if WindowFull(env, TypeChar(si.family, Dgram), start) then ENFILE else LibCError))
              && (r == Err(LibCError) && si.bound ==> !connectOk)
  {
    hide EnsureBound, NowBound, Named, WindowFull, TypeChar, HasTarget, CanReach, Stored;
    if si.stype == Dgram && si.bound {
      SendBound(si, to, env, start, bindOk, connectOk);
      NowBoundWithout(si, si.family, env, start, si.(deferConnect := false), start);
    } else if si.stype == Dgram {
      hide AfterSend;
      assert si.(deferConnect := false) == si;
      SendUnbound(si, to, env, start, bindOk, connectOk);
      EnsuredOutcome(si, env, start, bindOk);
    }
  }

  // ------------------------------------------------------------------ connect

  /** An address of the family a socket has when it is bound, that leads to a path, and a system that agrees. */
  predicate Joinable(si: Info, a: SockAddr, connectOk: bool) {
    (si.bound ==> si.family == FamilyOf(a)) && IsWrapped(a) && a.port != 0 && (si.stype == Stream ==> connectOk)
  }

  /** Connecting binds first, in the family of the address, and that stays so when it fails. When it succeeds the
      socket is connected, has its peer, goes by the name left by bind() if there is one, and, for a datagram
      socket, has the system's connect deferred. */
  lemma ConnectOutcome(si: Info, a: SockAddr, env: Env, start: nat, bindOk: bool, connectOk: bool)
    requires EnvOk(env) && StartOk(start) && Lives(env.dir, si)
    ensures var (si', start', r) := AfterConnect(si, a, env, start, bindOk, connectOk);
            if !CanBind(si, FamilyOf(a), env, start, bindOk) then r.Err? && Untouched(si, FamilyOf(a), env, si')
            else exists si1 ::
              NowBound(si, FamilyOf(a), env, start, si1, start')
              && if !Joinable(si, a, connectOk) then r.Err? && si' == si1
                 else r == Ok(()) && si' == si1.(connected := true, peername := Some(a), bindname := None,
                                                 deferConnect := si.stype == Dgram,
                                                 myname := if si.bindname == None then si1.myname else si.bindname)
  {
    hide AfterAutoBind, ConvertRemote, CanBind, NowBound, Untouched, Named, Stored, IsWrapped;
    RemoteJoins(si, a, env);
    if si.bound {
      BoundStays(si, FamilyOf(a), env, start, bindOk);
      assert NowBound(si, FamilyOf(a), env, start, si, start);
    } else {
      AutoBindOutcome(si, FamilyOf(a), env, start, bindOk);
      AutoBindLives(env.dir, si, FamilyOf(a), env, start, bindOk);
      var (si1, start1, _) := AfterAutoBind(si, FamilyOf(a), env, start, bindOk);
      if CanBind(si, FamilyOf(a), env, start, bindOk) {
        BindKeeps(si, FamilyOf(a), env, start, si1, start1);
      }
    }
  }

  lemma BindKeeps(si: Info, family: Family, env: Env, start: nat, si': Info, start': nat)
    requires NowBound(si, family, env, start, si', start')
    ensures si'.bindname == si.bindname && si'.stype == si.stype
  {
  }

  lemma RemoteJoins(si: Info, a: SockAddr, env: Env)
    ensures var r := ConvertRemote(env.dir, env.dflt, si.stype, a);
            r.Ok? && r.value.1 == 0 <==> IsWrapped(a) && a.port != 0
  {
    hide SunPath, TypeChar, InvalidPath;
  }

  lemma BoundStays(si: Info, family: Family, env: Env, start: nat, bindOk: bool)
    requires si.bound
    ensures CanBind(si, family, env, start, bindOk) && NowBound(si, family, env, start, si, start)
  {
  }

  /** What connect() says when it fails. */
  lemma ConnectErrors(si: Info, a: SockAddr, env: Env, start: nat, bindOk: bool, connectOk: bool)
    requires EnvOk(env) && StartOk(start) && Lives(env.dir, si)
    requires AfterConnect(si, a, env, start, bindOk, connectOk).2.Err?
    ensures AfterConnect(si, a, env, start, bindOk, connectOk).2.errno ==
            if !CanBind(si, FamilyOf(a), env, start, bindOk) then
              if FamilyOf(a) == Unspec then ESOCKTNOSUPPORT
              else if FamilyOf(a) == Inet6 && si.family != Inet6 then ENETUNREACH
              else if WindowFull(env, TypeChar(FamilyOf(a), si.stype), start) then ENFILE
              else LibCError
            else if si.bound && si.family != FamilyOf(a) then EINVAL
            else if !IsWrapped(a) && !IsBroadcast(si.stype, a) then ENETUNREACH
            else if a.port == 0 then EINVAL
            else if !IsWrapped(a) then ENETUNREACH
            else LibCError
  {
    hide AfterAutoBind, ConvertRemote, CanBind, NowBound, Untouched, Named, Stored, WindowFull, IsWrapped;
    RemoteErrors(si, a, env);
    if si.bound {
      BoundStays(si, FamilyOf(a), env, start, bindOk);
    } else {
      AutoBindOutcome(si, FamilyOf(a), env, start, bindOk);
      AutoBindLives(env.dir, si, FamilyOf(a), env, start, bindOk);
    }
  }

  lemma RemoteErrors(si: Info, a: SockAddr, env: Env)
    ensures var r := ConvertRemote(env.dir, env.dflt, si.stype, a);
            if !IsWrapped(a) && !IsBroadcast(si.stype, a) then r == Err(ENETUNREACH)
            else if a.port == 0 then r == Err(EINVAL)
            else r.Ok? && (r.value.1 == 0 <==> IsWrapped(a))
  {
    hide SunPath, TypeChar, InvalidPath;
  }

  // ------------------------------------------------------------------ connected sockets

  /** A call that moves data, and what its surroundings answer. */
  datatype Transfer = Transfer(to: Option<SockAddr>, named: bool, pieces: nat, env: Env, bindOk: bool, connectOk: bool)

  /** The socket sends and receives, and stays as it is. */
  predicate Talks(si: Info, start: nat, t: Transfer) {
    AfterSend(si, t.to, t.env, start, t.bindOk, t.connectOk) == (si, start, Ok(()))
    && AfterReceive(si, t.named, t.pieces, t.env, start, t.bindOk) == (si, start, Ok(()))
  }

  /** A connected stream socket sends and receives, whatever has happened since. */
  lemma ConnectedTalks(dir: string, p: Process, es: seq<Event>, i: nat, start: nat, t: Transfer)
    requires Fits(dir) && AllLive(dir, p) && RunOk(dir, p, es)
    requires i < |p.socks| && p.socks[i].connected && p.socks[i].stype == Stream
    ensures i < |Run(dir, p, es).socks|
    ensures var si := Run(dir, p, es).socks[i];
            si.connected && si.bound && !si.deferConnect && si.family == p.socks[i].family && Talks(si, start, t)
  {
    hide Run, RunOk;
    RunLives(dir, p, es);
    assert Lives(dir, p.socks[i]) && Grew(p.socks[i], Run(dir, p, es).socks[i]);
    assert Lives(dir, Run(dir, p, es).socks[i]);
  }

  /** accept() adds one socket: a bound and connected server of its listener's family and type, at its listener's
      path. It sends and receives, then and whatever happens later. */
  lemma AcceptedTalks(dir: string, p: Process, i: nat, peerPath: string, es: seq<Event>, start: nat, t: Transfer)
    requires Fits(dir) && AllLive(dir, p) && EventOk(dir, p, Accept(i, peerPath))
    requires RunOk(dir, Next(dir, p, Accept(i, peerPath)), es)
    ensures var q, n := Next(dir, p, Accept(i, peerPath)), |p.socks|;
            |q.socks| == n + 1 && q.socks[..n] == p.socks && q.start == p.start
            && var child, parent := q.socks[n], p.socks[i];
               child.bound && child.connected && child.isServer && !child.deferConnect
               && child.family == parent.family && child.stype == parent.stype == Stream
               && child.kname == parent.kname && child.unAddr == "" && child.bindname == None && child.autobinds == 0
               && n < |Run(dir, q, es).socks| && Talks(child, start, t) && Talks(Run(dir, q, es).socks[n], start, t)
  {
    hide Run, RunOk, ConvertUnIn, Named;
    NextLives(dir, p, Accept(i, peerPath));
    ChildLives(dir, p.socks[i], peerPath);
    ConnectedTalks(dir, Next(dir, p, Accept(i, peerPath)), es, |p.socks|, start, t);
  }

  /** So does a stream socket that has connected. */
  lemma ClientTalks(dir: string, p: Process, i: nat, call: Call, es: seq<Event>, start: nat, t: Transfer)
    requires Fits(dir) && AllLive(dir, p) && EventOk(dir, p, On(i, call)) && RunOk(dir, Next(dir, p, On(i, call)), es)
    requires call.Connect? && p.socks[i].stype == Stream
    requires AfterConnect(p.socks[i], call.a, call.env, p.start, call.bindOk, call.connectOk).2.Ok?
    ensures i < |Run(dir, Next(dir, p, On(i, call)), es).socks|
    ensures Talks(Run(dir, Next(dir, p, On(i, call)), es).socks[i], start, t)
  {
    hide Run, RunOk, AfterConnect, NowBound, CanBind, Joinable, Untouched, Lives, Talks;
    NextLives(dir, p, On(i, call));
    assert Lives(dir, p.socks[i]);
    ConnectOutcome(p.socks[i], call.a, call.env, p.start, call.bindOk, call.connectOk);
    assert Next(dir, p, On(i, call)).socks[i].connected;
    ConnectedTalks(dir, Next(dir, p, On(i, call)), es, i, start, t);
  }

  /** A datagram socket that has connected makes up for the deferred connect when it first sends; from then on it
      sends without further ado. */
  lemma DatagramClientSends(dir: string, si: Info, a: SockAddr, env: Env, start: nat, bindOk: bool, t: Transfer)
    requires Lives(dir, si) && EnvOk(env) && EnvOk(t.env) && env.dir == t.env.dir == dir && StartOk(start)
    requires si.stype == Dgram && AfterConnect(si, a, env, start, bindOk, true).2.Ok? && t.connectOk
    ensures var si1 := AfterConnect(si, a, env, start, bindOk, true).0;
            var (si2, start2, r2) := AfterSend(si1, t.to, t.env, start, t.bindOk, t.connectOk);
            si1.connected && si1.bound && si1.deferConnect && si1.peername == Some(a)
            && si2 == si1.(deferConnect := false) && start2 == start && r2 == Ok(())
            && AfterSend(si2, t.to, t.env, start, t.bindOk, false) == (si2, start, Ok(()))
  {
    hide AfterConnect, AfterSend, NowBound, CanBind, Untouched, Named, Stored, IsWrapped;
    ConnectOutcome(si, a, env, start, bindOk, true);
    ConnectLives(dir, si, a, env, start, bindOk, true);
    var si1 := AfterConnect(si, a, env, start, bindOk, true).0;
    assert Joinable(si, a, true) && Lives(dir, si1);
    assert si1.bound && si1.connected && si1.deferConnect && CanReach(Dgram, a);
    SendBound(si1, t.to, t.env, start, t.bindOk, t.connectOk);
    SendBound(si1.(deferConnect := false), t.to, t.env, start, t.bindOk, false);
  }
}
