/** One wrapped socket: how bind, connect, listen, send and accept change it, and the names it goes by. */
module Sockets {
  import opened Names

  /** The part of `struct socket_info` that carries names and connection state. Two are not fields of it:
      kname is the path the system has bound the descriptor to, "" while there is none, and autobinds how
      often swrap_auto_bind has succeeded on the socket. */
  datatype Info = Info(
    family: Family, stype: SockType,
    bound: bool, connected: bool, isServer: bool, deferConnect: bool, bcast: nat,
    unAddr: string,
    bindname: Option<SockAddr>, myname: Option<SockAddr>, peername: Option<SockAddr>,
    kname: string, autobinds: nat)

  /** The directory, the default interface, and the paths that exist at the time of a call. */
  datatype Env = Env(dir: string, dflt: nat, files: set<string>)

  predicate EnvOk(env: Env) {
    Fits(env.dir) && 1 <= env.dflt <= MAX_WRAPPED_INTERFACES
  }

  /** As swrap_socket sets it up. */
  function Fresh(family: Family, stype: SockType): Info {
    var any := if family == Inet then In(Inet, 0, 0) else In6(seq(16, i => 0), 0);
    Info(family, stype, false, false, false, false, 0, "", None, Some(any), None, "", 0)
  }

  /** set_port. */
  function WithPort(a: Option<SockAddr>, port: nat): Option<SockAddr> {
    match a
    case None => None
    case Some(In(f, addr, _)) => Some(In(f, addr, port % 0x1_0000))
    case Some(In6(addr6, _)) => Some(In6(addr6, port % 0x1_0000))
  }

  /** The first port in lo..hi-1 whose path does not exist, or hi. */
  function LeastUnused(env: Env, kind: char, iface: nat, lo: nat, hi: nat): nat
    decreases hi - lo
  {
    if lo >= hi || SunPath(env.dir, kind, iface, lo) !in env.files then lo
    else LeastUnused(env, kind, iface, lo + 1, hi)
  }

  lemma {:induction false} LeastUnusedIsLeast(env: Env, kind: char, iface: nat, lo: nat, hi: nat)
    requires lo <= hi
    ensures var p := LeastUnused(env, kind, iface, lo, hi);
            lo <= p <= hi
            && (forall q :: lo <= q < p ==> SunPath(env.dir, kind, iface, q) in env.files)
            && (p < hi ==> SunPath(env.dir, kind, iface, p) !in env.files)
    decreases hi - lo
  {
    if lo < hi && SunPath(env.dir, kind, iface, lo) in env.files {
      LeastUnusedIsLeast(env, kind, iface, lo + 1, hi);
    }
  }

  predicate AllUsed(env: Env, kind: char, iface: nat, lo: nat, hi: nat) {
    forall q :: lo <= q < hi ==> SunPath(env.dir, kind, iface, q) in env.files
  }

  /** p is the first port of lo..hi-1 whose path does not exist. */
  predicate FirstFree(env: Env, kind: char, iface: nat, lo: nat, hi: nat, p: nat) {
    lo <= p < hi && SunPath(env.dir, kind, iface, p) !in env.files && AllUsed(env, kind, iface, lo, p)
  }

  lemma SearchFinds(env: Env, kind: char, iface: nat, lo: nat, hi: nat)
    requires lo <= hi
    ensures var p := LeastUnused(env, kind, iface, lo, hi);
            if AllUsed(env, kind, iface, lo, hi) then p == hi else FirstFree(env, kind, iface, lo, hi, p)
  {
    hide SunPath;
    LeastUnusedIsLeast(env, kind, iface, lo, hi);
  }

  // ------------------------------------------------------------------ what each call does

  const EPHEMERAL_FIRST: nat := 5001
  const EPHEMERAL_END: nat := 10000
  const SOCKET_MAX_SOCKETS: nat := 1024

  /** An address of the kind the socket's family goes with. */
  predicate Suits(family: Family, a: SockAddr) {
    AddrOk(a) && family != Unspec && (family == Inet <==> a.In?)
  }

  /** The name convert_in_un_alloc stores on the first attempt to bind. */
  function NameToStore(a: SockAddr, iface: nat): SockAddr {
    match a
    case In(family, _, port) => In(family, 0x7F00_0000 + iface, port)
    case In6(_, port) => Wrapped6(iface, port)
  }

  /** convert_in_un_alloc. */
  function AfterAlloc(si: Info, a: SockAddr, env: Env): (Info, Result<string>) {
    match LocalIface(env.dflt, si.stype, a)
    case Err(e) => (si.(bcast := 0), Err(e))
    case Ok((iface, bcast)) =>
      var kind := TypeChar(si.family, si.stype);
      var bindname := if si.bindname == None then Some(NameToStore(a, iface)) else si.bindname;
      var si1 := si.(bindname := bindname, bcast := bcast);
      if iface == 0 || iface > MAX_WRAPPED_INTERFACES then (si1, Err(EINVAL))
      else if a.port != 0 then (si1, Ok(SunPath(env.dir, kind, iface, a.port)))
      else
        var p := LeastUnused(env, kind, iface, EPHEMERAL_FIRST, EPHEMERAL_END);
        if p == EPHEMERAL_END then (si1, Err(ENFILE))
        else (si1.(myname := WithPort(si.myname, p), bindname := WithPort(bindname, p)),
              Ok(SunPath(env.dir, kind, iface, p)))
  }

  /** The checks at the head of swrap_bind. */
  function BindError(family: Family, a: SockAddr): Option<Errno> {
    if family == Inet then
      if a.In? && (a.family == Inet || (a.family == Unspec && a.addr == 0)) then None else Some(EAFNOSUPPORT)
    else if a.In6? then None else Some(EINVAL)
  }

  /** swrap_bind; ok is whether libc_bind succeeds. */
  function AfterBind(si: Info, a: SockAddr, env: Env, ok: bool): (Info, Result<()>) {
    if BindError(si.family, a) != None then (si, Err(BindError(si.family, a).value))
    else
      var (si1, r) := AfterAlloc(si.(myname := Some(a)), a, env);
      match r
      case Err(e) => (si1, Err(e))
      case Ok(path) => if ok then (si1.(bound := true, kname := path), Ok(())) else (si1, Err(LibCError))
  }

  /** Where the search for a port starts. */
  function WindowStart(start: nat): nat {
    if start > 60000 then 10000 else start
  }

  /** swrap_auto_bind; start is the global autobind_start, which comes back second. */
  function AfterAutoBind(si: Info, family: Family, env: Env, start: nat, ok: bool): (Info, nat, Result<()>) {
    if family == Unspec then (si, start, Err(ESOCKTNOSUPPORT))
    else if family == Inet6 && si.family != Inet6 then (si, start, Err(ENETUNREACH))
    else
      var kind := TypeChar(family, si.stype);
      var si1 := si.(myname := Some(Wrapped(family, env.dflt, 0)));
      var first := WindowStart(start);
      var p := LeastUnused(env, kind, env.dflt, first, first + SOCKET_MAX_SOCKETS);
      if p == first + SOCKET_MAX_SOCKETS then (si1, first, Err(ENFILE))
      else if !ok then (si1, first, Err(LibCError))
      else
        var path := SunPath(env.dir, kind, env.dflt, p);
        (si1.(unAddr := path, kname := path, bound := true, family := family, myname := WithPort(si1.myname, p),
              autobinds := si.autobinds + 1),
         p + 1, Ok(()))
  }

  /** swrap_connect; bindOk and connectOk are what libc_bind and libc_connect say. */
  function AfterConnect(si: Info, a: SockAddr, env: Env, start: nat, bindOk: bool, connectOk: bool):
    (Info, nat, Result<()>) {
    var (si1, start1, r) :=
      if si.bound then (si, start, Ok(())) else AfterAutoBind(si, FamilyOf(a), env, start, bindOk);
    if r.Err? then (si1, start1, r)
    else if si1.family != FamilyOf(a) then (si1, start1, Err(EINVAL))
    else match ConvertRemote(env.dir, env.dflt, si1.stype, a)
         case Err(e) => (si1, start1, Err(e))
         case Ok((_, bcast)) =>
           if bcast != 0 then (si1, start1, Err(ENETUNREACH))
           else if si1.stype == Stream && !connectOk then (si1, start1, Err(LibCError))
           else (Connected(si1, a), start1, Ok(()))
  }

  function Connected(si: Info, a: SockAddr): Info {
    si.(deferConnect := si.deferConnect || si.stype == Dgram, peername := Some(a), connected := true,
        myname := if si.bindname == None then si.myname else si.bindname, bindname := None)
  }

  /** An unbound socket is bound, in its own family, before it listens or sends. */
  function EnsureBound(si: Info, env: Env, start: nat, bindOk: bool): (Info, nat, Result<()>) {
    if si.bound then (si, start, Ok(())) else AfterAutoBind(si, si.family, env, start, bindOk)
  }

  /** swrap_listen, up to libc_listen. */
  function AfterListen(si: Info, env: Env, start: nat, bindOk: bool): (Info, nat, Result<()>) {
    var (si1, start1, r) := EnsureBound(si, env, start, bindOk);
    (si1, start1, if r.Err? then Err(EADDRINUSE) else r)
  }

  /** swrap_recvmsg_before, on the socket; named is whether msg_name is set, pieces is msg_iovlen. */
  function AfterReceive(si: Info, named: bool, pieces: nat, env: Env, start: nat, bindOk: bool):
    (Info, nat, Result<()>) {
    if si.stype == Stream then (si, start, if si.connected then Ok(()) else Err(ENOTCONN))
    else if !named then (si, start, Err(EINVAL))
    else if pieces == 0 then (si, start, Ok(()))
    else EnsureBound(si, env, start, bindOk)
  }

  /** swrap_sendmsg_before, on the socket; to is msg_name. */
  function AfterSend(si: Info, to: Option<SockAddr>, env: Env, start: nat, bindOk: bool, connectOk: bool):
    (Info, nat, Result<()>) {
    if si.stype == Stream then (si, start, if si.connected then Ok(()) else Err(ENOTCONN))
    else
      var target := if si.connected then Ok(()) else if to == None then Err(ENOTCONN) else Reachable(si, to.value, env);
      if target.Err? then (si, start, target)
      else
        var (si1, start1, r) := EnsureBound(si, env, start, bindOk);
        if r.Err? || !si1.deferConnect then (si1, start1, r)
        else
          var peer := if si1.peername == None then Err(EAFNOSUPPORT) else Reachable(si1, si1.peername.value, env);
          if peer.Err? then (si1, start1, peer)
          else if !connectOk then (si1, start1, Err(LibCError))
          else (si1.(deferConnect := false), start1, Ok(()))
  }

  /** Whether sockaddr_convert_to_un has a path for a peer address. */
  function Reachable(si: Info, a: SockAddr, env: Env): Result<()> {
    if a.In? && a.family == Unspec && (si.family != Inet || a.addr != 0) then Err(EAFNOSUPPORT)
    else match ConvertRemote(env.dir, env.dflt, si.stype, a)
         case Err(e) => Err(e)
         case Ok(_) => Ok(())
  }

  function SizeOfFamily(family: Family): nat {
    if family == Inet then SIZEOF_SOCKADDR_IN else SIZEOF_SOCKADDR_IN6
  }

  /** The child swrap_accept makes, from the paths accept and getsockname report. */
  function Child(parent: Info, peerPath: string, ownPath: string): Result<Info> {
    match ConvertUnIn(peerPath, SizeOfFamily(parent.family))
    case Err(e) => Err(e)
    case Ok(peer) =>
      match ConvertUnIn(ownPath, 128)
      case Err(e) => Err(e)
      case Ok(own) =>
        Ok(Info(parent.family, parent.stype, true, true, true, false, 0, "", None, Some(own), Some(peer), ownPath, 0))
  }

  // ------------------------------------------------------------------ rendezvous

  /** After a first successful conversion of a local address, the name stored for connect() leads to
      exactly the path that was bound: exactly when the address names the socket's own family. */
  lemma Rendezvous(si: Info, a: SockAddr, env: Env)
    requires EnvOk(env) && Suits(si.family, a) && si.bindname == None
    requires AfterAlloc(si, a, env).1.Ok?
    ensures var (si', r) := AfterAlloc(si, a, env);
            si'.bindname != None
            && (FamilyOf(a) == si.family <==>
                ConvertRemote(env.dir, env.dflt, si.stype, si'.bindname.value) == Ok((r.value, 0)))
            && (FamilyOf(a) == si.family ==> exists iface, port ::
                1 <= iface <= MAX_WRAPPED_INTERFACES && 1 <= port <= 0xFFFF
                && si'.bindname.value == Wrapped(si.family, iface, port)
                && r.value == SunPath(env.dir, TypeChar(si.family, si.stype), iface, port))
  {
    hide SunPath, LeastUnused;
    var iface := LocalIface(env.dflt, si.stype, a).value.0;
    LeastUnusedIsLeast(env, TypeChar(si.family, si.stype), iface, EPHEMERAL_FIRST, EPHEMERAL_END);
    var port := if a.port != 0 then a.port
                else LeastUnused(env, TypeChar(si.family, si.stype), iface, EPHEMERAL_FIRST, EPHEMERAL_END);
    var (si', r) := AfterAlloc(si, a, env);
    assert r.value == SunPath(env.dir, TypeChar(si.family, si.stype), iface, port);
    if FamilyOf(a) == si.family {
      assert si'.bindname.value == Wrapped(si.family, iface, port);
      RemoteOfWrapped(env, si.family, si.stype, iface, port);
    }
  }

  lemma RemoteOfWrapped(env: Env, family: Family, stype: SockType, iface: nat, port: nat)
    requires family != Unspec && iface <= 0xFF && 1 <= port <= 0xFFFF
    ensures ConvertRemote(env.dir, env.dflt, stype, Wrapped(family, iface, port))
         == Ok((SunPath(env.dir, TypeChar(family, stype), iface, port), 0))
  {
    if family == Inet {
      assert (0x7F00_0000 + iface) / 256 == 0x7F_0000 && (0x7F00_0000 + iface) % 256 == iface;
    } else {
      assert (SWRAP_PREFIX + [iface])[..15] == SWRAP_PREFIX;
    }
  }

  /** A name convert_in_un_alloc may have stored in an earlier call. */
  predicate Stored(b: SockAddr) {
    b.port <= 0xFFFF && match b
                        case In(family, addr, _) => family != Inet6 && addr / 256 == 0x7F_0000
                        case In6(addr6, _) => |addr6| == 16 && addr6[..15] == SWRAP_PREFIX && addr6[15] <= 0xFF
  }

  function IfaceOf(b: SockAddr): nat
    requires Stored(b)
  {
    if b.In? then b.addr % 256 else b.addr6[15]
  }

  /** When an earlier attempt has left a name behind, it leads to the path bound now exactly when it
      already was the right name: the socket's family, the same interface, and the same port unless the
      port is being chosen now. */
  lemma StaleNameLeadsElsewhere(si: Info, a: SockAddr, env: Env)
    requires EnvOk(env) && Suits(si.family, a) && si.bindname != None && Stored(si.bindname.value)
    requires AfterAlloc(si, a, env).1.Ok?
    ensures var (si', r) := AfterAlloc(si, a, env);
            var b := si.bindname.value;
            si'.bindname != None
            && (ConvertRemote(env.dir, env.dflt, si.stype, si'.bindname.value) == Ok((r.value, 0)) <==>
                FamilyOf(b) == si.family && IfaceOf(b) == LocalIface(env.dflt, si.stype, a).value.0
                && (a.port == 0 || b.port == a.port))
  {
    hide SunPath, LeastUnused, AfterAlloc, LocalIface, ConvertRemote, IfaceOf, Stored;
    AllocOverStored(si, a, env);
    var b, port := AfterAlloc(si, a, env).0.bindname.value, BoundPort(si, a, env);
    var iface := LocalIface(env.dflt, si.stype, a).value.0;
    RemoteOfStored(env, si.stype, b);
    assert FamilyOf(b) == si.family || FamilyOf(b) == Unspec
      || TypeChar(FamilyOf(b), si.stype) != TypeChar(si.family, si.stype);
    if FamilyOf(b) != Unspec && b.port != 0 {
      var path := SunPath(env.dir, TypeChar(FamilyOf(b), si.stype), IfaceOf(b), b.port);
      if path == AfterAlloc(si, a, env).1.value {
        PathsDiffer(env.dir, TypeChar(si.family, si.stype), iface, port, TypeChar(FamilyOf(b), si.stype), IfaceOf(b),
            b.port);
      }
    }
  }

  /** The port a successful bind to a takes. */
  function BoundPort(si: Info, a: SockAddr, env: Env): nat
    requires LocalIface(env.dflt, si.stype, a).Ok?
  {
    if a.port != 0 then a.port
    else LeastUnused(env, TypeChar(si.family, si.stype), LocalIface(env.dflt, si.stype, a).value.0,
                     EPHEMERAL_FIRST, EPHEMERAL_END)
  }

  lemma AllocOverStored(si: Info, a: SockAddr, env: Env)
    requires EnvOk(env) && Suits(si.family, a) && si.bindname != None && Stored(si.bindname.value)
    requires AfterAlloc(si, a, env).1.Ok?
    ensures LocalIface(env.dflt, si.stype, a).Ok?
    ensures 1 <= LocalIface(env.dflt, si.stype, a).value.0 <= MAX_WRAPPED_INTERFACES
    ensures 1 <= BoundPort(si, a, env) <= 0xFFFF && (a.port == 0 ==> BoundPort(si, a, env) >= EPHEMERAL_FIRST)
    ensures var (si', r) := AfterAlloc(si, a, env);
            var b, b' := si.bindname.value, si'.bindname;
            r.value == SunPath(env.dir, TypeChar(si.family, si.stype), LocalIface(env.dflt, si.stype, a).value.0,
                BoundPort(si, a, env))
            && b' == (if a.port == 0 then WithPort(Some(b), BoundPort(si, a, env)) else Some(b))
            && b' != None && Stored(b'.value) && FamilyOf(b'.value) == FamilyOf(b) && IfaceOf(b'.value) == IfaceOf(b)
            && b'.value.port == (if a.port == 0 then BoundPort(si, a, env) else b.port)
  {
    hide SunPath, LeastUnused, LocalIface;
    if a.port == 0 {
      LeastUnusedIsLeast(env, TypeChar(si.family, si.stype), LocalIface(env.dflt, si.stype, a).value.0,
          EPHEMERAL_FIRST, EPHEMERAL_END);
    }
  }

  lemma RemoteOfStored(env: Env, stype: SockType, b: SockAddr)
    requires Stored(b)
    ensures ConvertRemote(env.dir, env.dflt, stype, b)
         == if FamilyOf(b) == Unspec then Err(ENETUNREACH)
            else if b.port == 0 then Err(EINVAL)
            else Ok((SunPath(env.dir, TypeChar(FamilyOf(b), stype), IfaceOf(b), b.port), 0))
    ensures IfaceOf(b) <= 0xFF && b.port <= 0xFFFF
  {
    hide SunPath;
  }

  /** Such a name does get left behind: binding to 127.0.0.200 fails, and after binding to 127.0.0.1 and
      connecting the socket takes itself for 127.0.0.200. */
  lemma FailedBindSticks(env: Env, port: nat, peer: SockAddr)
    requires EnvOk(env) && 1 <= port <= 0xFFFF && peer == Wrapped4(2, 80)
    ensures var si0 := Fresh(Inet, Stream);
            var (si1, r1) := AfterBind(si0, Wrapped4(200, port), env, true);
            var (si2, r2) := AfterBind(si1, Wrapped4(1, port), env, true);
            var (si3, _, r3) := AfterConnect(si2, peer, env, 10000, true, true);
            r1 == Err(EINVAL) && r2.Ok? && r3.Ok?
            && si3.kname == SunPath(env.dir, 'T', 1, port) && si3.myname == Some(Wrapped4(200, port))
  {
    hide SunPath;
  }

  // ------------------------------------------------------------------ ports

  const AUTOBIND_FIRST: nat := 10000
  const AUTOBIND_LAST: nat := 61023

  predicate StartOk(start: nat) {
    AUTOBIND_FIRST <= start <= AUTOBIND_LAST + 1
  }

  /** A port chosen by bind() to port 0 is the least unused one of 5001..9999; there is none exactly when
      all of them are used. */
  lemma BindChoosesLeast(si: Info, a: SockAddr, env: Env)
    requires EnvOk(env) && Suits(si.family, a) && a.port == 0
    requires LocalIface(env.dflt, si.stype, a).Ok?
    requires 1 <= LocalIface(env.dflt, si.stype, a).value.0 <= MAX_WRAPPED_INTERFACES
    ensures var (si', r) := AfterAlloc(si, a, env);
            var kind, iface := TypeChar(si.family, si.stype), LocalIface(env.dflt, si.stype, a).value.0;
            (r.Err? <==> forall q :: 5001 <= q <= 9999 ==> SunPath(env.dir, kind, iface, q) in env.files)
            && (r.Ok? ==> exists p :: 5001 <= p <= 9999 && r.value == SunPath(env.dir, kind, iface, p)
                                      && r.value !in env.files
                                      && (forall q :: 5001 <= q < p ==> SunPath(env.dir, kind, iface, q) in env.files)
                                      && si'.bindname != None && si'.bindname.value.port == p)
  {
    hide SunPath, LeastUnused, AfterAlloc, LocalIface;
    var kind, iface := TypeChar(si.family, si.stype), LocalIface(env.dflt, si.stype, a).value.0;
    LeastUnusedIsLeast(env, kind, iface, EPHEMERAL_FIRST, EPHEMERAL_END);
    AllocAnyPort(si, a, env);
    var p := LeastUnused(env, kind, iface, EPHEMERAL_FIRST, EPHEMERAL_END);
    if p == EPHEMERAL_END {
      assert AfterAlloc(si, a, env).1.Err?;
    } else {
      assert AfterAlloc(si, a, env).1.Ok?;
    }
  }

  lemma AllocAnyPort(si: Info, a: SockAddr, env: Env)
    requires a.port == 0 && LocalIface(env.dflt, si.stype, a).Ok?
    requires 1 <= LocalIface(env.dflt, si.stype, a).value.0 <= MAX_WRAPPED_INTERFACES
    ensures var kind, iface := TypeChar(si.family, si.stype), LocalIface(env.dflt, si.stype, a).value.0;
            var p := LeastUnused(env, kind, iface, EPHEMERAL_FIRST, EPHEMERAL_END);
            var (si', r) := AfterAlloc(si, a, env);
            if p == EPHEMERAL_END then r == Err(ENFILE)
            else r == Ok(SunPath(env.dir, kind, iface, p)) && si'.bindname != None
                 && si'.bindname.value.port == p % 0x1_0000
  {
    hide SunPath, LeastUnused, LocalIface;
  }

  /** Automatic binding takes the first unused port of its window, within 10000..61023, names the socket
      after it and keeps the next search in range; it fails exactly when the window is full or the system
      does not agree, and then leaves behind no more than a name without a port. */
  lemma AutoBindChooses(si: Info, family: Family, env: Env, start: nat, ok: bool)
    requires EnvOk(env) && StartOk(start) && family != Unspec && (family == Inet6 ==> si.family == Inet6)
    ensures var (si', start', r) := AfterAutoBind(si, family, env, start, ok);
            var kind, first := TypeChar(family, si.stype), if start > 60000 then 10000 else start;
            10000 <= first && first + 1023 <= 61023 && StartOk(start')
            && if WindowFull(env, kind, start) || !ok then
                 r == Err(if WindowFull(env, kind, start) then ENFILE else LibCError)
                 && si' == si.(myname := Some(Wrapped(family, env.dflt, 0))) && start' == first
               else
                 r == Ok(())
                 && exists p: nat :: FirstFree(env, kind, env.dflt, first, first + 1024, p) && start' == p + 1
                                     && si' == AutoBound(si, family, env, p)
  {
    hide SunPath, LeastUnused, AllUsed, FirstFree;
    var first := if start > 60000 then 10000 else start;
    SearchFinds(env, TypeChar(family, si.stype), env.dflt, first, first + 1024);
    var p := LeastUnused(env, TypeChar(family, si.stype), env.dflt, first, first + 1024);
    if FirstFree(env, TypeChar(family, si.stype), env.dflt, first, first + 1024, p) {
      InWindow(env, TypeChar(family, si.stype), env.dflt, first, first + 1024, p);
      assert ok ==> AfterAutoBind(si, family, env, start, ok).0 == AutoBound(si, family, env, p);
    }
  }

  /** All 1024 ports of the window that starts at autobind_start, or, that being above 60000, at 10000. */
  predicate WindowFull(env: Env, kind: char, start: nat) {
    var first := if start > 60000 then 10000 else start;
    AllUsed(env, kind, env.dflt, first, first + 1024)
  }

  lemma InWindow(env: Env, kind: char, iface: nat, lo: nat, hi: nat, p: nat)
    requires FirstFree(env, kind, iface, lo, hi, p)
    ensures lo <= p < hi && !AllUsed(env, kind, iface, lo, hi)
  {
  }

  /** A socket bound automatically to port p of the default interface. */
  function AutoBound(si: Info, family: Family, env: Env, p: nat): Info {
    var path := SunPath(env.dir, TypeChar(family, si.stype), env.dflt, p);
    si.(bound := true, kname := path, unAddr := path, family := family, myname := Some(Wrapped(family, env.dflt, p)),
        autobinds := si.autobinds + 1)
  }

  /** autobind_start as the first call sets it from the process id. */
  function InitialStart(pid: nat): nat {
    pid % 50000 + 10000
  }

  /** Processes whose ids are less than 50000 apart start at different ports. */
  lemma ProcessesStartApart(pid: nat, pid': nat)
    requires pid < pid' < pid + 50000
    ensures InitialStart(pid) != InitialStart(pid') && 10000 <= InitialStart(pid) < 60000
  {
    assert pid == 50000 * (pid / 50000) + pid % 50000 && pid' == 50000 * (pid' / 50000) + pid' % 50000;
  }

  datatype AutoBindCall = AutoBindCall(si: Info, family: Family, env: Env, ok: bool)

  function StartAfter(start: nat, calls: seq<AutoBindCall>): nat
    decreases |calls|
  {
    if calls == [] then start
    else StartAfter(AfterAutoBind(calls[0].si, calls[0].family, calls[0].env, start, calls[0].ok).1, calls[1..])
  }

  /** Over every run of calls, on any sockets and whatever files come and go, autobind_start stays within
      10000..61024, so every port chosen has four hex digits. */
  lemma {:induction false} StartStaysInRange(start: nat, calls: seq<AutoBindCall>)
    requires StartOk(start) && forall i :: 0 <= i < |calls| ==> EnvOk(calls[i].env)
    ensures StartOk(StartAfter(start, calls))
    decreases |calls|
  {
    if calls != [] {
      var c := calls[0];
      if c.family != Unspec && (c.family == Inet6 ==> c.si.family == Inet6) {
        AutoBindChooses(c.si, c.family, c.env, start, c.ok);
      }
      StartStaysInRange(AfterAutoBind(c.si, c.family, c.env, start, c.ok).1, calls[1..]);
    }
  }

  lemma EveryProcessStartsInRange(pid: nat, calls: seq<AutoBindCall>)
    requires forall i :: 0 <= i < |calls| ==> EnvOk(calls[i].env)
    ensures StartOk(StartAfter(InitialStart(pid), calls))
  {
    StartStaysInRange(InitialStart(pid), calls);
  }

  /** The two allocators never choose the same path, in whatever processes they run. */
  lemma AllocatorsNeverCollide(si: Info, a: SockAddr, env: Env, si2: Info, family: Family, env2: Env, start: nat)
    requires EnvOk(env) && EnvOk(env2) && env.dir == env2.dir && StartOk(start)
    requires Suits(si.family, a) && a.port == 0
    ensures AfterAlloc(si, a, env).1.Ok? && AfterAutoBind(si2, family, env2, start, true).2.Ok? ==>
              AfterAlloc(si, a, env).1.value != AfterAutoBind(si2, family, env2, start, true).0.kname
  {
    hide SunPath, LeastUnused, AfterAlloc, AfterAutoBind;
    if AfterAlloc(si, a, env).1.Err? || AfterAutoBind(si2, family, env2, start, true).2.Err? {
      return;
    }
    AllocSucceeded(si, a, env);
    AutoBindSucceeded(si2, family, env2, start);
    BindChoosesLeast(si, a, env);
    AutoBindChooses(si2, family, env2, start, true);
    var kind, iface := TypeChar(si.family, si.stype), LocalIface(env.dflt, si.stype, a).value.0;
    var p :| 5001 <= p <= 9999 && AfterAlloc(si, a, env).1.value == SunPath(env.dir, kind, iface, p);
    var kind2 := TypeChar(family, si2.stype);
    var q :| AUTOBIND_FIRST <= q <= AUTOBIND_LAST
             && AfterAutoBind(si2, family, env2, start, true).0 == AutoBound(si2, family, env2, q);
    assert AutoBound(si2, family, env2, q).kname == SunPath(env2.dir, kind2, env2.dflt, q);
    if AfterAlloc(si, a, env).1.value == AfterAutoBind(si2, family, env2, start, true).0.kname {
      PathsDiffer(env.dir, kind, iface, p, kind2, env2.dflt, q);
    }
  }

  lemma AllocSucceeded(si: Info, a: SockAddr, env: Env)
    requires AfterAlloc(si, a, env).1.Ok?
    ensures LocalIface(env.dflt, si.stype, a).Ok?
    ensures 1 <= LocalIface(env.dflt, si.stype, a).value.0 <= MAX_WRAPPED_INTERFACES
  {
  }

  lemma AutoBindSucceeded(si: Info, family: Family, env: Env, start: nat)
    requires AfterAutoBind(si, family, env, start, true).2.Ok?
    ensures family != Unspec && (family == Inet6 ==> si.family == Inet6)
  {
  }
}
