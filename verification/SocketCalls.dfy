/** The calls on a wrapped socket as they are written: fields changed in place, and ports searched for by
    trying one after another. Each is proved to change the socket as the functions in Sockets say. */
module SocketCalls {
  import opened Names
  import opened Sockets

  /** The search both allocators make: print the path of each port in turn, and stop at the first that
      does not exist. hi when they all do. */
  method FirstUnused(env: Env, kind: char, iface: nat, lo: nat, hi: nat) returns (port: nat)
    requires lo <= hi
    ensures lo <= port <= hi && port == LeastUnused(env, kind, iface, lo, hi)
    ensures forall q :: lo <= q < port ==> SunPath(env.dir, kind, iface, q) in env.files
    ensures port < hi ==> SunPath(env.dir, kind, iface, port) !in env.files
  {
    hide SunPath;
    port := lo;
    while port < hi
      invariant lo <= port <= hi
      invariant LeastUnused(env, kind, iface, lo, hi) == LeastUnused(env, kind, iface, port, hi)
      invariant forall q :: lo <= q < port ==> SunPath(env.dir, kind, iface, q) in env.files
    {
      if SunPath(env.dir, kind, iface, port) !in env.files {
        return;
      }
      port := port + 1;
    }
  }

  /** autobind_start_init and autobind_start, shared by the sockets of a process. */
  class AutobindState {
    const pid: nat
    var init: bool
    var start: nat

    constructor (pid: nat)
      ensures Start() == InitialStart(pid)
    {
      this.pid := pid;
      init, start := false, 0;
    }

    /** Where the next search would start, were it not for the last window. */
    function Start(): nat
      reads this
    {
      if init then start else InitialStart(pid)
    }

    method Prepare()
      modifies this
      ensures init && start == old(Start())
    {
      if !init {
        init := true;
        start := pid;
        start := start % 50000;
        start := start + 10000;
      }
    }
  }

  class SocketInfo {
    var family: Family
    const stype: SockType
    var bound: bool
    var connected: bool
    var isServer: bool
    var deferConnect: bool
    var bcast: nat
    var unAddr: string
    var bindname: Option<SockAddr>
    var myname: Option<SockAddr>
    var peername: Option<SockAddr>
    var kname: string
    var autobinds: nat

    /** The socket as a value. */
    function View(): Info
      reads this
    {
      Info(family, stype, bound, connected, isServer, deferConnect, bcast, unAddr, bindname, myname, peername, kname,
           autobinds)
    }

    constructor (family: Family, stype: SockType)
      ensures View() == Fresh(family, stype)
      ensures !bound && !connected && !deferConnect && peername == bindname == None && this.family == family
    {
      this.family, this.stype := family, stype;
      bound, connected, isServer, deferConnect := false, false, false, false;
      bcast, unAddr, kname, autobinds := 0, "", "", 0;
      bindname, peername := None, None;
      myname := if family == Inet then Some(In(Inet, 0, 0)) else Some(In6(seq(16, i => 0), 0));
    }

    constructor Accepted(family: Family, stype: SockType, own: SockAddr, peer: SockAddr, path: string)
      ensures View() == Info(family, stype, true, true, true, false, 0, "", None, Some(own), Some(peer), path, 0)
    {
      this.family, this.stype := family, stype;
      bound, isServer, connected := true, true, true;
      deferConnect, bcast, unAddr := false, 0, "";
      bindname, myname, peername := None, Some(own), Some(peer);
      kname, autobinds := path, 0;
    }

    /** convert_in_un_alloc. */
    method ConvertInUnAlloc(a: SockAddr, env: Env) returns (r: Result<string>)
      modifies this
      ensures (View(), r) == AfterAlloc(old(View()), a, env)
    {
      hide SunPath, LocalIface, LeastUnused, WithPort;
      bcast := 0;
      var found := LocalIface(env.dflt, stype, a);
      if found.Err? {
        return Err(found.errno);
      }
      var (iface, isBcast) := found.value;
      if bindname == None {
        bindname := Some(NameToStore(a, iface));
      }
      bcast := isBcast;
      if iface == 0 || iface > MAX_WRAPPED_INTERFACES {
        return Err(EINVAL);
      }
      var kind := TypeChar(family, stype);
      var prt := a.port;
      if prt == 0 {
        prt := FirstUnused(env, kind, iface, 5001, 10000);
        if prt == 10000 {
          return Err(ENFILE);
        }
        myname := WithPort(myname, prt);
        bindname := WithPort(bindname, prt);
      }
      return Ok(SunPath(env.dir, kind, iface, prt));
    }

    /** swrap_auto_bind; bindOk is what libc_bind says of the path tried. */
    method AutoBind(g: AutobindState, wanted: Family, env: Env, bindOk: bool) returns (r: Result<()>)
      modifies this, g
      ensures (View(), g.Start(), r) == AfterAutoBind(old(View()), wanted, env, old(g.Start()), bindOk)
    {
      hide SunPath, LeastUnused, WithPort, TypeChar, Wrapped, InitialStart;
      g.Prepare();
      if wanted == Unspec {
        return Err(ESOCKTNOSUPPORT);
      }
      if wanted == Inet6 && family != Inet6 {
        return Err(ENETUNREACH);
      }
      var kind := TypeChar(wanted, stype);
      myname := Some(Wrapped(wanted, env.dflt, 0));
      if g.start > 60000 {
        g.start := 10000;
      }
      var end := g.start + SOCKET_MAX_SOCKETS;
      var port := FirstUnused(env, kind, env.dflt, g.start, end);
      if port == end {
        return Err(ENFILE);
      }
      if !bindOk {
        return Err(LibCError);
      }
      g.start := port + 1;
      TakePath(wanted, SunPath(env.dir, kind, env.dflt, port), port);
      return Ok(());
    }

    /** What swrap_auto_bind records once libc_bind has taken the path. */
    method TakePath(wanted: Family, path: string, port: nat)
      modifies this
      ensures View() == old(View()).(unAddr := path, kname := path, bound := true, family := wanted,
                                     myname := WithPort(old(myname), port), autobinds := old(autobinds) + 1)
    {
      hide WithPort;
      unAddr := path;
      kname := unAddr;
      bound := true;
      autobinds := autobinds + 1;
      family := wanted;
      myname := WithPort(myname, port);
    }

    /** swrap_connect. */
    method Connect(g: AutobindState, a: SockAddr, env: Env, bindOk: bool, connectOk: bool) returns (r: Result<()>)
      modifies this, g
      ensures (View(), g.Start(), r) == AfterConnect(old(View()), a, env, old(g.Start()), bindOk, connectOk)
    {
      hide AfterAutoBind, ConvertRemote;
      if !bound {
        r := AutoBind(g, FamilyOf(a), env, bindOk);
        if r.Err? {
          return;
        }
      }
      if family != FamilyOf(a) {
        return Err(EINVAL);
      }
      var path := ConvertRemote(env.dir, env.dflt, stype, a);
      if path.Err? {
        return Err(path.errno);
      }
      if path.value.1 != 0 {
        return Err(ENETUNREACH);
      }
      if stype == Dgram {
        deferConnect := true;
      } else if !connectOk {
        return Err(LibCError);
      }
      peername := Some(a);
      connected := true;
      if bindname != None {
        myname := bindname;
        bindname := None;
      }
      return Ok(());
    }

    /** swrap_bind. */
    method Bind(a: SockAddr, env: Env, bindOk: bool) returns (r: Result<()>)
      modifies this
      ensures (View(), r) == AfterBind(old(View()), a, env, bindOk)
    {
      hide AfterAlloc;
      var bindError := None;
      if family == Inet {
        if FamilyOf(a) != Inet {
          bindError := Some(EAFNOSUPPORT);
        }
        if a.In? && a.family == Unspec && a.addr == 0 {
          bindError := None;
        }
      } else if !a.In6? {
        bindError := Some(EINVAL);
      }
      if bindError != None {
        return Err(bindError.value);
      }
      myname := Some(a);
      var path := ConvertInUnAlloc(a, env);
      if path.Err? {
        return Err(path.errno);
      }
      if !bindOk {
        return Err(LibCError);
      }
      bound := true;
      kname := path.value;
      return Ok(());
    }

    /** swrap_listen, up to libc_listen. */
    method Listen(g: AutobindState, env: Env, bindOk: bool) returns (r: Result<()>)
      modifies this, g
      ensures (View(), g.Start(), r) == AfterListen(old(View()), env, old(g.Start()), bindOk)
    {
      hide AfterAutoBind;
      if !bound {
        r := AutoBind(g, family, env, bindOk);
        if r.Err? {
          return Err(EADDRINUSE);
        }
      } else {
        r := Ok(());
      }
    }

    /** swrap_recvmsg_before, as far as it changes the socket. */
    method ReceiveBefore(g: AutobindState, named: bool, pieces: nat, env: Env, bindOk: bool) returns (r: Result<()>)
      modifies this, g
      ensures (View(), g.Start(), r) == AfterReceive(old(View()), named, pieces, env, old(g.Start()), bindOk)
    {
      hide AfterAutoBind;
      if stype == Stream {
        if !connected {
          return Err(ENOTCONN);
        }
        return Ok(());
      }
      if !named {
        return Err(EINVAL);
      }
      r := Ok(());
      if pieces > 0 && !bound {
        r := AutoBind(g, family, env, bindOk);
      }
    }

    /** swrap_sendmsg_before, as far as it changes the socket. */
    method SendBefore(g: AutobindState, to: Option<SockAddr>, env: Env, bindOk: bool, connectOk: bool)
      returns (r: Result<()>)
      modifies this, g
      ensures (View(), g.Start(), r) == AfterSend(old(View()), to, env, old(g.Start()), bindOk, connectOk)
    {
      hide AfterAutoBind, Reachable;
      if stype == Stream {
        if !connected {
          return Err(ENOTCONN);
        }
        return Ok(());
      }
      if !connected {
        if to == None {
          return Err(ENOTCONN);
        }
        r := Reachable(View(), to.value, env);
        if r.Err? {
          return;
        }
      }
      r := Ok(());
      if !bound {
        r := AutoBind(g, family, env, bindOk);
        if r.Err? {
          return;
        }
      }
      if !deferConnect {
        return;
      }
      if peername == None {
        return Err(EAFNOSUPPORT);
      }
      r := Reachable(View(), peername.value, env);
      if r.Err? {
        return;
      }
      if !connectOk {
        return Err(LibCError);
      }
      deferConnect := false;
      return Ok(());
    }

    /** swrap_accept, from the paths the system reports for the new descriptor's two ends. */
    method Accept(peerPath: string, ownPath: string) returns (r: Result<SocketInfo>)
      ensures var child := Child(View(), peerPath, ownPath);
              r.Ok? == child.Ok? && (r.Ok? ==> fresh(r.value) && r.value.View() == child.value)
              && (r.Err? ==> r.errno == child.errno)
    {
      hide ConvertUnIn;
      var peer := ConvertUnIn(peerPath, SizeOfFamily(family));
      if peer.Err? {
        return Err(peer.errno);
      }
      var own := ConvertUnIn(ownPath, 128);
      if own.Err? {
        return Err(own.errno);
      }
      var child := new SocketInfo.Accepted(family, stype, own.value, peer.value, ownPath);
      return Ok(child);
    }
  }
}
