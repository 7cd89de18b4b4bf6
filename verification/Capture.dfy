/** The packets a capture shows of one socket, and the TCP sequence numbers in them. */
module Capture {
  import opened Names
  import opened Records
  import Sockets

  /** enum swrap_packet_type. */
  datatype Kind = ConnectSend | ConnectUnreach | ConnectRecv | ConnectAck | AcceptSend | AcceptRecv | AcceptAck
                | RecvFrom | SendTo | SendToUnreach | PendingRst | Recv | RecvRst | Send | SendRst
                | CloseSend | CloseRecv | CloseAck

  /** One call of swrap_pcap_dump_packet: myname and peername at the time, and the arguments. */
  datatype Event = Event(kind: Kind, myname: SockAddr, peername: SockAddr, addr: SockAddr, payload: seq<byte>,
                         seconds: nat, micros: nat)

  /** io.pck_snd and io.pck_rcv, which are unsigned longs. */
  datatype Counters = Counters(snd: ulong, rcv: ulong)

  const LONG: nat := 0x1_0000_0000_0000_0000

  type ulong = n: nat | n < LONG

  function Plus(a: ulong, b: nat): ulong {
    (a + b) % LONG
  }

  // ------------------------------------------------------------------ one packet

  /** Packets that only a stream has. */
  predicate StreamOnly(kind: Kind) {
    kind in {ConnectSend, ConnectUnreach, ConnectRecv, ConnectAck, AcceptSend, AcceptRecv, AcceptAck,
             PendingRst, RecvRst, CloseSend, CloseRecv, CloseAck}
  }

  /** Packets that only a datagram socket has. */
  predicate DatagramOnly(kind: Kind) {
    kind in {SendTo, SendToUnreach, RecvFrom}
  }

  /** Packets shown as going from the socket to its peer. */
  predicate Outward(kind: Kind) {
    kind in {ConnectSend, ConnectAck, AcceptRecv, Send, SendTo, CloseSend, CloseAck}
  }

  /** Whether the other end is the address argument, and not peername. */
  predicate UsesAddr(kind: Kind) {
    kind in {ConnectSend, ConnectUnreach, ConnectRecv, ConnectAck, AcceptSend, AcceptRecv, AcceptAck,
             SendTo, SendToUnreach, RecvFrom}
  }

  predicate Complains(kind: Kind) {
    kind in {ConnectUnreach, SendToUnreach}
  }

  const FIN: byte := 0x01
  const SYN: byte := 0x02
  const RST: byte := 0x04
  const PSH: byte := 0x08
  const ACK: byte := 0x10

  function Control(kind: Kind): byte {
    match kind
    case ConnectSend | ConnectUnreach | AcceptSend => SYN
    case ConnectRecv | AcceptRecv => SYN + ACK
    case ConnectAck | AcceptAck | CloseAck => ACK
    case Send | Recv => PSH + ACK
    case SendRst | PendingRst | RecvRst => RST + ACK
    case CloseSend | CloseRecv => FIN + ACK
    case SendTo | SendToUnreach | RecvFrom => 0
  }

  /** What the packet adds to the counter of its direction. */
  function Advance(kind: Kind, payload: seq<byte>): nat {
    if kind in {Send, Recv, SendTo, RecvFrom} then |payload|
    else if kind in {ConnectSend, ConnectRecv, AcceptSend, AcceptRecv, CloseSend, CloseRecv} then 1
    else 0
  }

  /** The other end an event is about. */
  function Other(e: Event): SockAddr {
    if UsesAddr(e.kind) then e.addr else e.peername
  }

  /** Where the packet is shown as coming from. */
  function Source(e: Event): SockAddr {
    if Outward(e.kind) then e.myname else Other(e)
  }

  function Packet(e: Event, stype: SockType, kind: Kind, seqno: nat, ack: nat): Shot {
    var (src, dest) := if Outward(kind) then (e.myname, Other(e)) else (Other(e), e.myname);
    Shot(e.seconds, e.micros, src, dest, stype, e.payload, seqno, ack, Control(kind), Complains(kind))
  }

  /** swrap_pcap_packet_init makes no packet from an address that has no family. */
  function Made(s: Shot): Option<Shot> {
    if FamilyOf(s.src) == Unspec then None else Some(s)
  }

  function Numbers(c: Counters, kind: Kind): (ulong, ulong) {
    if DatagramOnly(kind) then (0, 0)
    else if kind == ConnectUnreach then (Plus(c.snd, LONG - 1), c.rcv)
    else if Outward(kind) then (c.snd, c.rcv)
    else (c.rcv, c.snd)
  }

  /** swrap_pcap_marshall_packet: the counters after it, and the packet, if one is made: the counters have
      moved by then. */
  function Marshalled(c: Counters, stype: SockType, e: Event): (Counters, Option<Shot>) {
    if stype == Dgram && StreamOnly(e.kind) then (c, None)
    else if stype == Dgram && e.kind == SendRst then (c, Made(Packet(e, stype, SendToUnreach, 0, 0)))
    else
      var n := Advance(e.kind, e.payload);
      var c' := if Outward(e.kind) then c.(snd := Plus(c.snd, n)) else c.(rcv := Plus(c.rcv, n));
      (c', Made(Packet(e, stype, e.kind, Numbers(c, e.kind).0, Numbers(c, e.kind).1)))
  }

  /** struct socket_info's io. */
  class Io {
    var pckSnd: ulong
    var pckRcv: ulong

    constructor ()
      ensures View() == Counters(0, 0)
    {
      pckSnd, pckRcv := 0, 0;
    }

    function View(): Counters
      reads this
    {
      Counters(pckSnd, pckRcv)
    }

    /** swrap_pcap_marshall_packet, as it is written. */
    method Marshall(stype: SockType, e: Event) returns (r: Option<Shot>)
      modifies this
      ensures (View(), r) == Marshalled(old(View()), stype, e)
    {
      assert forall c: ulong :: Plus(c, 0) == c;
      hide Plus;
      var seqno: ulong, ack: ulong, ctl: byte, unreachable := 0, 0, 0, false;
      var src, dest := e.myname, e.peername;
      match e.kind {
        case ConnectSend =>
          if stype != Stream { return None; }
          src, dest := e.myname, e.addr;
          seqno, ack, ctl := pckSnd, pckRcv, 0x02;
          pckSnd := Plus(pckSnd, 1);
        case ConnectRecv =>
          if stype != Stream { return None; }
          dest, src := e.myname, e.addr;
          seqno, ack, ctl := pckRcv, pckSnd, 0x12;
          pckRcv := Plus(pckRcv, 1);
        case ConnectUnreach =>
          if stype != Stream { return None; }
          dest, src := e.myname, e.addr;
          seqno, ack, ctl := Plus(pckSnd, LONG - 1), pckRcv, 0x02;
          unreachable := true;
        case ConnectAck =>
          if stype != Stream { return None; }
          src, dest := e.myname, e.addr;
          seqno, ack, ctl := pckSnd, pckRcv, 0x10;
        case AcceptSend =>
          if stype != Stream { return None; }
          dest, src := e.myname, e.addr;
          seqno, ack, ctl := pckRcv, pckSnd, 0x02;
          pckRcv := Plus(pckRcv, 1);
        case AcceptRecv =>
          if stype != Stream { return None; }
          src, dest := e.myname, e.addr;
          seqno, ack, ctl := pckSnd, pckRcv, 0x12;
          pckSnd := Plus(pckSnd, 1);
        case AcceptAck =>
          if stype != Stream { return None; }
          dest, src := e.myname, e.addr;
          seqno, ack, ctl := pckRcv, pckSnd, 0x10;
        case Send =>
          src, dest := e.myname, e.peername;
          seqno, ack, ctl := pckSnd, pckRcv, 0x18;
          pckSnd := Plus(pckSnd, |e.payload|);
        case SendRst =>
          dest, src := e.myname, e.peername;
          if stype == Dgram {
            unreachable := true;
          } else {
            seqno, ack, ctl := pckRcv, pckSnd, 0x14;
          }
        case PendingRst =>
          dest, src := e.myname, e.peername;
          if stype == Dgram { return None; }
          seqno, ack, ctl := pckRcv, pckSnd, 0x14;
        case Recv =>
          dest, src := e.myname, e.peername;
          seqno, ack, ctl := pckRcv, pckSnd, 0x18;
          pckRcv := Plus(pckRcv, |e.payload|);
        case RecvRst =>
          dest, src := e.myname, e.peername;
          if stype == Dgram { return None; }
          seqno, ack, ctl := pckRcv, pckSnd, 0x14;
        case SendTo =>
          src, dest := e.myname, e.addr;
          pckSnd := Plus(pckSnd, |e.payload|);
        case SendToUnreach =>
          dest, src := e.myname, e.addr;
          unreachable := true;
        case RecvFrom =>
          dest, src := e.myname, e.addr;
          pckRcv := Plus(pckRcv, |e.payload|);
        case CloseSend =>
          if stype != Stream { return None; }
          src, dest := e.myname, e.peername;
          seqno, ack, ctl := pckSnd, pckRcv, 0x11;
          pckSnd := Plus(pckSnd, 1);
        case CloseRecv =>
          if stype != Stream { return None; }
          dest, src := e.myname, e.peername;
          seqno, ack, ctl := pckRcv, pckSnd, 0x11;
          pckRcv := Plus(pckRcv, 1);
        case CloseAck =>
          if stype != Stream { return None; }
          src, dest := e.myname, e.peername;
          seqno, ack, ctl := pckSnd, pckRcv, 0x10;
      }
      if FamilyOf(src) == Unspec {
        return None;
      }
      return Some(Shot(e.seconds, e.micros, src, dest, stype, e.payload, seqno, ack, ctl, unreachable));
    }
  }

  // ------------------------------------------------------------------ what a reader adds up

  /** The names the other ends of a socket go by in the course of its life. */
  predicate FarEnds(far: set<SockAddr>) {
    forall o :: o in far ==> AddrOk(o)
  }

  predicate GoesTo(w: Wire, o: SockAddr)
    requires AddrOk(o)
  {
    w.Plain? && w.ip.dest == AddrBytes(o) && w.transport.dport == o.port
  }

  /** A decoded packet, if there is one, goes away from the socket, to one of the other ends. */
  ghost predicate Away(w: Option<Wire>, far: set<SockAddr>)
    requires FarEnds(far)
  {
    w != None && exists o :: o in far && GoesTo(w.value, o)
  }

  /** What a decoded TCP packet takes up of the sequence space (section 3.4 of RFC 9293): its payload, and
      one each for SYN and FIN. */
  function Units(w: Option<Wire>): nat {
    if w != None && w.value.Plain? && w.value.transport.Tcp? then
      |w.value.payload| + w.value.transport.ctl / 2 % 2 + w.value.transport.ctl % 2
    else 0
  }

  /** The sequence space taken up by packets that go away, or by those that do not. */
  ghost function Total(ws: seq<Option<Wire>>, far: set<SockAddr>, away: bool): nat
    requires FarEnds(far)
  {
    if ws == [] then 0
    else Total(ws[..|ws| - 1], far, away) + if Away(ws[|ws| - 1], far) == away then Units(ws[|ws| - 1]) else 0
  }

  /** The packet at i is numbered as section 3.10 of RFC 9293 has it, judging by those before it. */
  ghost predicate Numbered(ws: seq<Option<Wire>>, i: nat, far: set<SockAddr>)
    requires FarEnds(far) && i < |ws|
  {
    ws[i] != None && ws[i].value.Plain? && ws[i].value.transport.Tcp?
    && ws[i].value.transport.seqno == Total(ws[..i], far, Away(ws[i], far)) % 0x1_0000_0000
    && ws[i].value.transport.ack == Total(ws[..i], far, !Away(ws[i], far)) % 0x1_0000_0000
  }

  // ------------------------------------------------------------------ runs

  /** A packet is made for the event. */
  predicate Shows(e: Event) {
    FamilyOf(Source(e)) != Unspec
  }

  predicate SameEnd(a: SockAddr, b: SockAddr)
    requires AddrOk(a) && AddrOk(b)
  {
    a.port == b.port && AddrBytes(a) == AddrBytes(b)
  }

  /** If a packet is made, its other end is one of far, of the kind of the socket's own name, and that is none
      of far. */
  predicate EndsOk(far: set<SockAddr>, e: Event)
    requires FarEnds(far)
  {
    |e.payload| < 0xFFFF_FF00
    && (Shows(e) ==> Other(e) in far && AddrOk(e.myname) && e.myname.In? == Other(e).In?
                     && forall o :: o in far ==> !SameEnd(e.myname, o))
  }

  /** ... for a stream socket. */
  predicate EventOk(far: set<SockAddr>, e: Event)
    requires FarEnds(far)
  {
    EndsOk(far, e) && e.kind !in {SendTo, SendToUnreach, RecvFrom} && (e.kind !in {Send, Recv} ==> e.payload == [])
  }

  predicate EventsOk(far: set<SockAddr>, es: seq<Event>)
    requires FarEnds(far)
  {
    forall i :: 0 <= i < |es| ==> EventOk(far, es[i])
  }

  function CountersAfter(es: seq<Event>): Counters {
    if es == [] then Counters(0, 0) else Marshalled(CountersAfter(es[..|es| - 1]), Stream, es[|es| - 1]).0
  }

  /** What an event adds to the file: a packet, or nothing. */
  function Added(c: Counters, e: Event): (r: seq<Shot>)
    ensures |r| == if Shows(e) then 1 else 0
  {
    var m := Marshalled(c, Stream, e).1;
    if m == None then [] else [m.value]
  }

  /** The packets of the file. */
  function ShotsOf(es: seq<Event>): (r: seq<Shot>)
    ensures |r| <= |es|
  {
    if es == [] then [] else ShotsOf(es[..|es| - 1]) + Added(CountersAfter(es[..|es| - 1]), es[|es| - 1])
  }

  function Decoded(s: Shot): Option<Wire> {
    if ShotOk(s) then ReadWire(WireBytes(s)) else None
  }

  /** ... as they read back. */
  function WiresRead(shots: seq<Shot>): (r: seq<Option<Wire>>)
    ensures |r| == |shots|
  {
    seq(|shots|, i requires 0 <= i < |shots| => Decoded(shots[i]))
  }

  /** The sequence space taken up by events in one direction that no packet was made for. */
  function Lost(es: seq<Event>, outward: bool): nat {
    if es == [] then 0
    else
      var e := es[|es| - 1];
      Lost(es[..|es| - 1], outward) + if Outward(e.kind) == outward && !Shows(e) then Advance(e.kind, e.payload) else 0
  }

  /** What one event shows, in terms of the event. */
  lemma SeenPlainly(c: Counters, e: Event, far: set<SockAddr>)
    requires FarEnds(far) && EventOk(far, e) && Shows(e)
    ensures var s := Added(c, e)[0];
            var w, numbers := Decoded(s), Numbers(c, e.kind);
            ShotOk(s) && RecordedLength(s) < 0x1_0000_0000 && !DatagramOnly(e.kind)
            && if e.kind == ConnectUnreach then w == None || w.value.Complaint?
               else w != None && w.value.Plain? && w.value.transport.Tcp?
                    && w.value.transport.seqno == numbers.0 % 0x1_0000_0000
                    && w.value.transport.ack == numbers.1 % 0x1_0000_0000
                    && Away(w, far) == Outward(e.kind) && Units(w) == Advance(e.kind, e.payload)
  {
    hide ReadWire, WireBytes, AddrBytes;
    var s := Added(c, e)[0];
    RecordReads(s);
    if e.kind != ConnectUnreach {
      if Outward(e.kind) {
        assert GoesTo(Decoded(s).value, Other(e));
      } else {
        forall o | o in far ensures !GoesTo(Decoded(s).value, o) {
          assert !SameEnd(e.myname, o);
        }
      }
    }
  }

  // ------------------------------------------------------------------ what a packet tells its reader

  /** A decoded packet goes from one address and port to another. */
  predicate Goes(w: Wire, from: SockAddr, to: SockAddr) {
    AddrOk(from) && AddrOk(to) && w.Plain?
    && w.ip.src == AddrBytes(from) && w.transport.sport == from.port
    && w.ip.dest == AddrBytes(to) && w.transport.dport == to.port
  }

  predicate Bit(ctl: byte, bit: nat)
    requires bit > 0
  {
    ctl / bit % 2 == 1
  }

  /** The two ends of a stream socket's packet: connect() and accept() name the other end, the rest is about the
      peer. */
  function StreamEnds(e: Event): (SockAddr, SockAddr) {
    var other := if e.kind in {ConnectSend, ConnectUnreach, ConnectRecv, ConnectAck, AcceptSend, AcceptRecv, AcceptAck}
                 then e.addr else e.peername;
    if e.kind in {ConnectSend, ConnectAck, AcceptRecv, Send, CloseSend, CloseAck} then (e.myname, other)
    else (other, e.myname)
  }

  predicate EndsKnown(ends: (SockAddr, SockAddr)) {
    AddrOk(ends.0) && AddrOk(ends.1) && ends.0.In? == ends.1.In?
  }

  /** A TCP packet from the one end to the other that carries all of the data: SYN opens a stream, FIN closes it,
      RST resets it, PSH marks data, and all but the opening SYN acknowledge. */
  predicate Tells(w: Wire, e: Event) {
    Goes(w, StreamEnds(e).0, StreamEnds(e).1) && w.transport.Tcp? && w.payload == e.payload
    && var ctl := w.transport.ctl;
       ctl < 0x20
       && (Bit(ctl, 0x01) <==> e.kind in {CloseSend, CloseRecv})
       && (Bit(ctl, 0x02) <==> e.kind in {ConnectSend, ConnectRecv, AcceptSend, AcceptRecv})
       && (Bit(ctl, 0x04) <==> e.kind in {SendRst, RecvRst, PendingRst})
       && (Bit(ctl, 0x08) <==> e.kind in {Send, Recv})
       && (Bit(ctl, 0x10) <==> e.kind !in {ConnectSend, AcceptSend})
  }

  /** The packet of an event of a stream socket, as it reads back: there is one unless its source has no family. */
  lemma StreamPacketTells(c: Counters, e: Event)
    requires EndsKnown(StreamEnds(e)) && e.kind !in {ConnectUnreach, SendTo, SendToUnreach, RecvFrom}
    ensures var shot := Marshalled(c, Stream, e).1;
            if FamilyOf(StreamEnds(e).0) == Unspec then shot == None
            else shot != None && ShotOk(shot.value)
                 && shot.value.seconds == e.seconds && shot.value.micros == e.micros
                 && var w := ReadWire(WireBytes(shot.value)); w != None && Tells(w.value, e)
  {
    hide ReadWire, WireBytes, AddrBytes, AddrOk;
    var shot := Marshalled(c, Stream, e).1;
    if shot != None {
      RecordReads(shot.value);
    }
  }

  /** When connecting is refused, the complaint comes from the other end, about a SYN to it. */
  lemma RefusalTells(c: Counters, e: Event)
    requires EndsKnown((e.addr, e.myname)) && e.kind == ConnectUnreach
    ensures var shot := Marshalled(c, Stream, e).1;
            if FamilyOf(e.addr) == Unspec then shot == None
            else shot != None && ShotOk(shot.value) && shot.value.unreachable && shot.value.stype == Stream
                 && shot.value.src == e.addr && shot.value.dest == e.myname && shot.value.ctl == 0x02
                 && shot.value.payload == e.payload
                 && var w := ReadWire(WireBytes(shot.value));
                    (e.addr.In? ==> w != None && w.value.Complaint? && w.value.transport.Tcp?
                                    && w.value.outer.src == w.value.inner.dest == AddrBytes(e.addr)
                                    && w.value.outer.dest == w.value.inner.src == AddrBytes(e.myname)
                                    && w.value.transport.sport == e.myname.port
                                    && w.value.transport.dport == e.addr.port
                                    && w.value.transport.ctl == 0x02)
  {
    hide ReadWire, WireBytes, AddrBytes, AddrOk;
    var shot := Marshalled(c, Stream, e).1;
    if shot != None {
      RecordReads(shot.value);
    }
  }

  lemma {:induction false} CountersTotal(far: set<SockAddr>, es: seq<Event>)
    requires FarEnds(far) && EventsOk(far, es)
    ensures CountersAfter(es).snd == (Total(WiresRead(ShotsOf(es)), far, true) + Lost(es, true)) % LONG
    ensures CountersAfter(es).rcv == (Total(WiresRead(ShotsOf(es)), far, false) + Lost(es, false)) % LONG
    decreases |es|
  {
    hide Decoded, Away, Units, EventOk, Total, Marshalled, Advance, Outward, Added, Shows, FarEnds, WiresRead;
    if es == [] {
      NothingYet(far);
    } else {
      var front, e := es[..|es| - 1], es[|es| - 1];
      CountersTotal(far, front);
      var c, ws := CountersAfter(front), WiresRead(ShotsOf(front));
      ReadAppend(ShotsOf(front), Added(c, e));
      Advanced(c, e);
      AddMod(Total(ws, far, Outward(e.kind)) + Lost(front, Outward(e.kind)), Advance(e.kind, e.payload));
      if Shows(e) {
        SeenPlainly(c, e, far);
        var w := Decoded(Added(c, e)[0]);
        Unseen(w, far);
        TotalStep(ws, w, far);
      }
    }
  }

  lemma ReadAppend(shots: seq<Shot>, more: seq<Shot>)
    requires |more| <= 1
    ensures WiresRead(shots + more)
         == if more == [] then WiresRead(shots) else WiresRead(shots) + [Decoded(more[0])]
  {
    hide Decoded;
    assert shots + [] == shots;
  }

  lemma NothingYet(far: set<SockAddr>)
    requires FarEnds(far)
    ensures WiresRead([]) == [] && Total(WiresRead([]), far, true) == Total(WiresRead([]), far, false) == 0
  {
  }

  lemma TotalStep(ws: seq<Option<Wire>>, w: Option<Wire>, far: set<SockAddr>)
    requires FarEnds(far)
    ensures Total(ws + [w], far, Away(w, far)) == Total(ws, far, Away(w, far)) + Units(w)
    ensures Total(ws + [w], far, !Away(w, far)) == Total(ws, far, !Away(w, far))
  {
    assert (ws + [w])[..|ws|] == ws;
  }

  lemma AddMod(t: nat, n: nat)
    ensures (t % LONG + n) % LONG == (t + n) % LONG
  {
    var q, r := t / LONG, t % LONG + n;
    assert t + n == LONG * q + r;
    assert t + n == LONG * (q + r / LONG) + r % LONG;
  }

  lemma Advanced(c: Counters, e: Event)
    ensures var c', n := Marshalled(c, Stream, e).0, Advance(e.kind, e.payload);
            c'.snd == (if Outward(e.kind) then (c.snd + n) % LONG else c.snd)
            && c'.rcv == (if Outward(e.kind) then c.rcv else (c.rcv + n) % LONG)
    ensures e.kind == ConnectUnreach ==> Advance(e.kind, e.payload) == 0
  {
  }

  lemma Unseen(w: Option<Wire>, far: set<SockAddr>)
    requires FarEnds(far)
    ensures w == None || w.value.Complaint? ==> Units(w) == 0
  {
  }

  /** The file after part of a run is the start of the file after all of it. */
  lemma {:induction false} ShotsGrow(es: seq<Event>, k: nat)
    requires k <= |es|
    ensures ShotsOf(es[..k]) <= ShotsOf(es)
    ensures k < |es| ==> ShotsOf(es[..k]) + Added(CountersAfter(es[..k]), es[k]) <= ShotsOf(es)
    decreases |es|
  {
    hide Added;
    if k == |es| {
      assert es[..k] == es;
    } else {
      var front := es[..|es| - 1];
      if k < |es| - 1 {
        ShotsGrow(front, k);
        assert front[..k] == es[..k] && front[k] == es[k];
      }
    }
  }

  lemma Remainders(n: nat)
    ensures n % LONG % 0x1_0000_0000 == n % 0x1_0000_0000
  {
    assert n == LONG * (n / LONG) + n % LONG;
    assert LONG * (n / LONG) == 0x1_0000_0000 * (0x1_0000_0000 * (n / LONG));
  }

  /** A sum keeps its remainder exactly when a multiple of the modulus is added. */
  lemma Shifted(t: nat, lost: nat)
    ensures (t + lost) % 0x1_0000_0000 == t % 0x1_0000_0000 <==> lost % 0x1_0000_0000 == 0
  {
    var m := 0x1_0000_0000;
    assert t == m * (t / m) + t % m && lost == m * (lost / m) + lost % m;
    var r := t % m + lost % m;
    assert t + lost == m * (t / m + lost / m) + r;
    if r < m {
      assert (t + lost) % m == r;
    } else {
      assert t + lost == m * (t / m + lost / m + 1) + (r - m);
      assert (t + lost) % m == r - m;
    }
  }

  /** No sequence space went by unseen, modulo 2^32. */
  predicate NothingLost(es: seq<Event>) {
    Lost(es, true) % 0x1_0000_0000 == 0 && Lost(es, false) % 0x1_0000_0000 == 0
  }

  /** Where the packet of event k is in the file, and that it is a TCP packet; it is numbered rightly exactly if
      nothing was lost before. */
  ghost predicate AccountedFor(ws: seq<Option<Wire>>, far: set<SockAddr>, es: seq<Event>, k: nat)
    requires FarEnds(far) && k < |es|
  {
    var i := |ShotsOf(es[..k])|;
    i < |ws| && ws[i] != None && ws[i].value.Plain? && ws[i].value.transport.Tcp?
    && (Numbered(ws, i, far) <==> NothingLost(es[..k]))
  }

  /** Numbers taken from the counters are right exactly if nothing was lost. */
  lemma NumbersRight(ws: seq<Option<Wire>>, i: nat, far: set<SockAddr>, c: Counters, away: bool, lost: nat, lost': nat)
    requires FarEnds(far) && i < |ws| && ws[i] != None && ws[i].value.Plain? && ws[i].value.transport.Tcp?
    requires Away(ws[i], far) == away
    requires c.snd == (Total(ws[..i], far, true) + lost) % LONG && c.rcv == (Total(ws[..i], far, false) + lost') % LONG
    requires ws[i].value.transport.seqno == (if away then c.snd else c.rcv) % 0x1_0000_0000
    requires ws[i].value.transport.ack == (if away then c.rcv else c.snd) % 0x1_0000_0000
    ensures Numbered(ws, i, far) <==> lost % 0x1_0000_0000 == 0 && lost' % 0x1_0000_0000 == 0
  {
    hide Away, Total, FarEnds;
    var out, in_ := Total(ws[..i], far, true), Total(ws[..i], far, false);
    Remainders(out + lost);
    Remainders(in_ + lost');
    Shifted(out, lost);
    Shifted(in_, lost');
  }

  lemma WiresAt(shots: seq<Shot>, start: seq<Shot>, s: Shot)
    requires start + [s] <= shots
    ensures WiresRead(shots)[..|start|] == WiresRead(start) && WiresRead(shots)[|start|] == Decoded(s)
  {
    hide Decoded;
    assert forall j :: 0 <= j < |start| ==> start[j] == (start + [s])[j] == shots[j];
    assert (start + [s])[|start|] == s;
  }

  lemma NumberedAt(far: set<SockAddr>, es: seq<Event>, k: nat)
    requires FarEnds(far) && EventsOk(far, es) && k < |es| && Shows(es[k]) && es[k].kind != ConnectUnreach
    ensures AccountedFor(WiresRead(ShotsOf(es)), far, es, k)
  {
    hide Decoded, Away, Units, EventOk, Total, Added, FarEnds, ShotsOf, CountersAfter, Lost, WiresRead, Shows, Numbered;
    var before, c := ShotsOf(es[..k]), CountersAfter(es[..k]);
    ShotsGrow(es, k);
    CountersTotal(far, es[..k]);
    SeenPlainly(c, es[k], far);
    var shot := Added(c, es[k])[0];
    assert Added(c, es[k]) == [shot];
    WiresAt(ShotsOf(es), before, shot);
    NumbersRight(WiresRead(ShotsOf(es)), |before|, far, c, Outward(es[k].kind), Lost(es[..k], true), Lost(es[..k],
        false));
  }

  function ReadAll(wires: seq<seq<byte>>): seq<Option<Wire>> {
    seq(|wires|, i requires 0 <= i < |wires| => ReadWire(wires[i]))
  }

  lemma AddedFits(far: set<SockAddr>, c: Counters, e: Event)
    requires FarEnds(far) && EventOk(far, e)
    ensures AllShotsOk(Added(c, e))
  {
    hide Added, EventOk, EndsFit, RecordedLength, Numbers, Decoded;
    if Shows(e) {
      SeenPlainly(c, e, far);
      var s := Added(c, e)[0];
      assert Added(c, e) == [s];
    }
  }

  lemma BothFit(a: seq<Shot>, b: seq<Shot>)
    requires AllShotsOk(a) && AllShotsOk(b)
    ensures AllShotsOk(a + b)
  {
    hide ShotOk, RecordedLength;
  }

  lemma {:induction false} ShotsFit(far: set<SockAddr>, es: seq<Event>)
    requires FarEnds(far) && EventsOk(far, es)
    ensures AllShotsOk(ShotsOf(es))
    decreases |es|
  {
    hide Added, EventOk, AllShotsOk, CountersAfter;
    if es == [] {
      NoneUnfit();
    } else {
      var front, e := es[..|es| - 1], es[|es| - 1];
      ShotsFit(far, front);
      AddedFits(far, CountersAfter(front), e);
      BothFit(ShotsOf(front), Added(CountersAfter(front), e));
    }
  }

  lemma NoneUnfit()
    ensures AllShotsOk([])
  {
  }

  lemma ReadsBack(shots: seq<Shot>)
    requires AllShotsOk(shots)
    ensures ReadAll(WiresOf(shots)) == WiresRead(shots)
  {
    hide ReadWire, WireBytes, ShotOk;
  }

  /** Whatever a stream socket does from its creation on, with whomever: someone who splits the capture file
      into packets and decodes them finds, for every event that a packet is made for but a refused connection,
      a TCP packet in its place. It is numbered by what the packets before it in its direction took up, and
      acknowledges what those in the other took up, modulo 2^32, exactly if what was sent from a name without
      a family until then took up nothing, modulo 2^32. */
  lemma CaptureAccounts(far: set<SockAddr>, es: seq<Event>)
    requires FarEnds(far) && EventsOk(far, es)
    ensures AllShotsOk(ShotsOf(es))
    ensures var file := ReadFile(FileOf(ShotsOf(es)));
            file != None && |file.value| == |ShotsOf(es)|
            && forall k :: 0 <= k < |es| && Shows(es[k]) && es[k].kind != ConnectUnreach
                           ==> AccountedFor(ReadAll(file.value), far, es, k)
  {
    hide ReadFile, FileOf, ReadAll, EventOk, AccountedFor, FarEnds;
    ShotsFit(far, es);
    FileReads(ShotsOf(es));
    ReadsBack(ShotsOf(es));
    forall k | 0 <= k < |es| && Shows(es[k]) && es[k].kind != ConnectUnreach
      ensures AccountedFor(WiresRead(ShotsOf(es)), far, es, k)
    {
      NumberedAt(far, es, k);
    }
  }

  /** Packet i of the file, as it reads back. */
  function InFile(es: seq<Event>, i: nat): Option<Wire> {
    if !AllShotsOk(ShotsOf(es)) then None
    else
      var file := ReadFile(FileOf(ShotsOf(es)));
      if file == None || i >= |file.value| then None else ReadWire(file.value[i])
  }

  lemma ToldAt(far: set<SockAddr>, es: seq<Event>, k: nat)
    requires FarEnds(far) && EventsOk(far, es) && k < |es| && Shows(es[k]) && es[k].kind != ConnectUnreach
    ensures var w, c := InFile(es, |ShotsOf(es[..k])|), CountersAfter(es[..k]);
            w != None && Tells(w.value, es[k])
            && w.value.transport.seqno == Numbers(c, es[k].kind).0 % 0x1_0000_0000
            && w.value.transport.ack == Numbers(c, es[k].kind).1 % 0x1_0000_0000
  {
    hide Numbers, ReadFile, FileOf, ReadWire, WireBytes, Decoded, Added, ShotsOf, CountersAfter, Tells, Shows;
    hide AddrOk, FarEnds;
    var before, c := ShotsOf(es[..k]), CountersAfter(es[..k]);
    ShotsFit(far, es);
    FileReads(ShotsOf(es));
    ReadsBack(ShotsOf(es));
    ShotsGrow(es, k);
    SeenPlainly(c, es[k], far);
    ShownTells(far, c, es[k]);
    WiresAt(ShotsOf(es), before, Added(c, es[k])[0]);
    assert ReadAll(WiresOf(ShotsOf(es)))[|before|] == Decoded(Added(c, es[k])[0]);
  }

  /** In the file every event of a stream socket that shows, but a refused connection, reads in its place as what
      it was. */
  lemma FileTells(far: set<SockAddr>, es: seq<Event>, k: nat)
    requires FarEnds(far) && EventsOk(far, es) && k < |es| && Shows(es[k]) && es[k].kind != ConnectUnreach
    ensures var w := InFile(es, |ShotsOf(es[..k])|); w != None && Tells(w.value, es[k])
  {
    hide InFile, Tells, Shows, ShotsOf, Numbers, CountersAfter;
    ToldAt(far, es, k);
  }

  lemma ShownTells(far: set<SockAddr>, c: Counters, e: Event)
    requires FarEnds(far) && EventOk(far, e) && Shows(e) && e.kind != ConnectUnreach
    ensures |Added(c, e)| == 1 && Added(c, e) == [Added(c, e)[0]]
    ensures var w := Decoded(Added(c, e)[0]); w != None && Tells(w.value, e)
  {
    hide Marshalled, ReadWire, WireBytes, AddrBytes, Tells;
    EndsAre(e);
    StreamPacketTells(c, e);
  }

  lemma EndsAre(e: Event)
    requires !DatagramOnly(e.kind) && e.kind != ConnectUnreach
    ensures Source(e) == StreamEnds(e).0
    ensures StreamEnds(e) == (Other(e), e.myname) || StreamEnds(e) == (e.myname, Other(e))
  {
  }

  lemma {:induction false} ProperNamesLoseNothing(es: seq<Event>)
    requires forall k :: 0 <= k < |es| ==> Shows(es[k])
    ensures NothingLost(es) && |ShotsOf(es)| == |es|
    ensures Lost(es, true) == Lost(es, false) == 0
    decreases |es|
  {
    hide Shows;
    if es != [] {
      ProperNamesLoseNothing(es[..|es| - 1]);
    }
  }

  /** A socket whose ends always have a family: every event is shown, and every TCP packet numbered rightly. */
  lemma ProperNamesAccount(far: set<SockAddr>, es: seq<Event>)
    requires FarEnds(far) && EventsOk(far, es) && forall k :: 0 <= k < |es| ==> Shows(es[k])
    ensures AllShotsOk(ShotsOf(es))
    ensures var file := ReadFile(FileOf(ShotsOf(es)));
            file != None && |file.value| == |es| == |ReadAll(file.value)|
            && forall k :: 0 <= k < |es| && es[k].kind != ConnectUnreach ==> Numbered(ReadAll(file.value), k, far)
  {
    hide ReadFile, FileOf, ReadAll, EventOk, Numbered, FarEnds, Shows, NothingLost;
    CaptureAccounts(far, es);
    ProperNamesLoseNothing(es);
    ReadsBack(ShotsOf(es));
    FileReads(ShotsOf(es));
    forall k | 0 <= k < |es| && es[k].kind != ConnectUnreach
      ensures Numbered(WiresRead(ShotsOf(es)), k, far)
    {
      ProperNamesLoseNothing(es[..k]);
      NumberedAt(far, es, k);
    }
  }

  // ------------------------------------------------------------------ how a connection begins and ends

  /** A TCP packet without data from the one end to the other. */
  predicate Plainly(w: Option<Wire>, from: SockAddr, to: SockAddr, seqno: nat, ack: nat, ctl: byte) {
    w != None && Goes(w.value, from, to) && w.value.transport == Tcp(from.port, to.port, seqno, ack, ctl)
    && w.value.payload == []
  }

  /** The three packets that open a connection (section 3.5 of RFC 9293): SYN, SYN,ACK and ACK, numbered from 0. The
      client may change its name after the first. */
  predicate Handshake(es: seq<Event>, first: SockAddr, client: SockAddr, server: SockAddr) {
    Plainly(InFile(es, 0), first, server, 0, 0, 0x02)
    && Plainly(InFile(es, 1), server, client, 0, 1, 0x12)
    && Plainly(InFile(es, 2), client, server, 1, 1, 0x10)
  }

  /** The three packets that close one, numbered on from where it stood, from packet i on. */
  ghost predicate Farewell(es: seq<Event>, i: nat, near: SockAddr, far: SockAddr) {
    exists snd: nat, rcv: nat ::
      Plainly(InFile(es, i), near, far, snd % 0x1_0000_0000, rcv % 0x1_0000_0000, 0x11)
      && Plainly(InFile(es, i + 1), far, near, rcv % 0x1_0000_0000, (snd + 1) % 0x1_0000_0000, 0x11)
      && Plainly(InFile(es, i + 2), near, far, (snd + 1) % 0x1_0000_0000, (rcv + 1) % 0x1_0000_0000, 0x10)
  }

  /** Three events in a row that show: where they are in the file, and the counters each finds. */
  lemma ThreeInARow(es: seq<Event>, k: nat)
    requires k + 2 < |es| && Shows(es[k]) && Shows(es[k + 1]) && Shows(es[k + 2])
    ensures |ShotsOf(es[..k + 1])| == |ShotsOf(es[..k])| + 1
    ensures |ShotsOf(es[..k + 2])| == |ShotsOf(es[..k])| + 2
    ensures |ShotsOf(es[..k + 3])| == |ShotsOf(es[..k])| + 3
    ensures CountersAfter(es[..k + 1]) == Marshalled(CountersAfter(es[..k]), Stream, es[k]).0
    ensures CountersAfter(es[..k + 2]) == Marshalled(CountersAfter(es[..k + 1]), Stream, es[k + 1]).0
  {
    hide Marshalled, Shows, Added;
    Steps(es, k);
    Steps(es, k + 1);
    assert es[..k + 1][..k] == es[..k] && es[..k + 2][..k + 1] == es[..k + 1] && es[..k + 3][..k + 2] == es[..k + 2];
  }

  lemma NoneBefore()
    ensures ShotsOf([]) == [] && CountersAfter([]) == Counters(0, 0)
  {
  }

  lemma Counted(c: Counters, e: Event)
    requires e.kind in {ConnectSend, ConnectRecv, AcceptSend, AcceptRecv, CloseSend, CloseRecv}
    ensures var c' := Marshalled(c, Stream, e).0;
            if e.kind in {ConnectSend, AcceptRecv, CloseSend} then c'.snd == (c.snd + 1) % LONG && c'.rcv == c.rcv
            else c'.snd == c.snd && c'.rcv == (c.rcv + 1) % LONG
  {
  }

  /** The packet of an event without data, with the numbers its counters give. */
  lemma ToldPlainly(far: set<SockAddr>, es: seq<Event>, k: nat)
    requires FarEnds(far) && EventsOk(far, es) && k < |es| && Shows(es[k])
    requires es[k].kind in {ConnectSend, ConnectRecv, ConnectAck, AcceptSend, AcceptRecv, AcceptAck,
                            CloseSend, CloseRecv, CloseAck}
    ensures var c, e := CountersAfter(es[..k]), es[k];
            var away := e.kind in {ConnectSend, ConnectAck, AcceptRecv, CloseSend, CloseAck};
            Plainly(InFile(es, |ShotsOf(es[..k])|), StreamEnds(e).0, StreamEnds(e).1,
                    (if away then c.snd else c.rcv) % 0x1_0000_0000, (if away then c.rcv else c.snd) % 0x1_0000_0000,
                    if e.kind in {ConnectSend, AcceptSend} then 0x02
                    else if e.kind in {ConnectRecv, AcceptRecv} then 0x12
                    else if e.kind in {CloseSend, CloseRecv} then 0x11 else 0x10)
  {
    hide InFile, Shows, ShotsOf, CountersAfter, FarEnds, StreamEnds, AddrOk, AddrBytes;
    ToldAt(far, es, k);
    var w := InFile(es, |ShotsOf(es[..k])|).value;
    Flags(w.transport.ctl);
    assert es[k].payload == [];
  }

  lemma Flags(ctl: byte)
    requires ctl < 0x20
    ensures ctl == (if Bit(ctl, 1) then 1 else 0) + (if Bit(ctl, 2) then 2 else 0) + (if Bit(ctl, 4) then 4 else 0)
                   + (if Bit(ctl, 8) then 8 else 0) + (if Bit(ctl, 0x10) then 0x10 else 0)
  {
  }

  lemma OpeningReads(far: set<SockAddr>, es: seq<Event>)
    requires FarEnds(far) && EventsOk(far, es) && |es| >= 3 && forall k :: 0 <= k < 3 ==> Shows(es[k])
    requires (es[0].kind == ConnectSend && es[1].kind == ConnectRecv && es[2].kind == ConnectAck)
             || (es[0].kind == AcceptSend && es[1].kind == AcceptRecv && es[2].kind == AcceptAck)
    requires StreamEnds(es[0]).1 == StreamEnds(es[1]).0 == StreamEnds(es[2]).1
    requires StreamEnds(es[1]).1 == StreamEnds(es[2]).0
    ensures Handshake(es, StreamEnds(es[0]).0, StreamEnds(es[1]).1, StreamEnds(es[0]).1)
  {
    hide InFile, Marshalled, Shows, EventOk, ShotsOf, CountersAfter, StreamEnds, FarEnds, Plainly;
    assert es[..0] == [];
    NoneBefore();
    ThreeInARow(es, 0);
    Counted(Counters(0, 0), es[0]);
    Counted(CountersAfter(es[..1]), es[1]);
    ToldPlainly(far, es, 0);
    ToldPlainly(far, es, 1);
    ToldPlainly(far, es, 2);
  }

  lemma ClosingReads(far: set<SockAddr>, es: seq<Event>, k: nat)
    requires FarEnds(far) && EventsOk(far, es) && k + 2 < |es| && Shows(es[k]) && Shows(es[k + 1]) && Shows(es[k + 2])
    requires es[k].kind == CloseSend && es[k + 1].kind == CloseRecv && es[k + 2].kind == CloseAck
    requires StreamEnds(es[k]) == StreamEnds(es[k + 2]) == (StreamEnds(es[k + 1]).1, StreamEnds(es[k + 1]).0)
    ensures Farewell(es, |ShotsOf(es[..k])|, StreamEnds(es[k]).0, StreamEnds(es[k]).1)
  {
    hide InFile, Marshalled, Shows, EventOk, ShotsOf, CountersAfter, StreamEnds, FarEnds, Plainly;
    var c := CountersAfter(es[..k]);
    ThreeInARow(es, k);
    Counted(c, es[k]);
    Counted(CountersAfter(es[..k + 1]), es[k + 1]);
    ToldPlainly(far, es, k);
    ToldPlainly(far, es, k + 1);
    ToldPlainly(far, es, k + 2);
    Remainders(c.snd + 1);
    Remainders(c.rcv + 1);
    var snd: nat, rcv: nat := c.snd, c.rcv;
    assert Plainly(InFile(es, |ShotsOf(es[..k])|), StreamEnds(es[k]).0, StreamEnds(es[k]).1,
                   snd % 0x1_0000_0000, rcv % 0x1_0000_0000, 0x11);
  }

  // ------------------------------------------------------------------ names without a family

  /** The events of a connection made from a socket that is bound to a name without a family. */
  function ConnectedUnspec(first: SockAddr, then_: SockAddr, peer: SockAddr): seq<Event> {
    [Event(ConnectSend, first, peer, peer, [], 0, 0), Event(ConnectRecv, then_, peer, peer, [], 0, 0),
     Event(ConnectAck, then_, peer, peer, [], 0, 0)]
  }

  /** Such a socket there is: bind() to the unspecified family and connect() both succeed. The file then shows
      the SYN,ACK alone, which acknowledges a SYN that is not there. */
  lemma UnspecifiedBindLosesSyn(env: Sockets.Env, start: nat, peer: SockAddr)
    requires Sockets.EnvOk(env) && peer == Wrapped4(2, 80)
    ensures var (si1, r1) := Sockets.AfterBind(Sockets.Fresh(Inet, Stream), In(Unspec, 0, 5001), env, true);
            var (si2, _, r2) := Sockets.AfterConnect(si1, peer, env, start, true, true);
            r1.Ok? && r2.Ok? && si1.myname != None && si2.myname != None
            && var es := ConnectedUnspec(si1.myname.value, si2.myname.value, peer);
               EventsOk({peer}, es) && AllShotsOk(ShotsOf(es)) && |ShotsOf(es)| == 1
               && var ws := WiresRead(ShotsOf(es));
                  ws[0] != None && ws[0].value.Plain? && ws[0].value.transport.Tcp?
                  && ws[0].value.transport.ack == 1 && !Numbered(ws, 0, {peer})
  {
    hide SunPath;
    var si1 := Sockets.AfterBind(Sockets.Fresh(Inet, Stream), In(Unspec, 0, 5001), env, true).0;
    var si2 := Sockets.AfterConnect(si1, peer, env, start, true, true).0;
    assert si1.myname == Some(In(Unspec, 0, 5001)) && si2.myname == Some(In(Unspec, 0x7F00_0000 + env.dflt, 5001));
    LoneSynAck(si1.myname.value, si2.myname.value, peer);
  }

  lemma LoneSynAck(first: SockAddr, then_: SockAddr, peer: SockAddr)
    requires AddrOk(first) && AddrOk(then_) && FamilyOf(first) == FamilyOf(then_) == Unspec && first.In? && then_.In?
    requires peer == Wrapped4(2, 80) && first.port == then_.port == 5001
    ensures var es := ConnectedUnspec(first, then_, peer);
            EventsOk({peer}, es) && AllShotsOk(ShotsOf(es)) && |ShotsOf(es)| == 1
            && var ws := WiresRead(ShotsOf(es));
               ws[0] != None && ws[0].value.Plain? && ws[0].value.transport.Tcp?
               && ws[0].value.transport.ack == 1 && !Numbered(ws, 0, {peer})
  {
    hide Decoded, AddrBytes, Added, AllShotsOk, ShotsOf, Total, WiresRead;
    var es := ConnectedUnspec(first, then_, peer);
    assert EventsOk({peer}, es);
    ShotsFit({peer}, es);
    LoneShot(es);
    CountersTotal({peer}, es[..1]);
    NumberedAt({peer}, es, 1);
    SeenPlainly(Counters(1, 0), es[1], {peer});
    WiresReadAt(ShotsOf(es), 0);
  }

  lemma WiresReadAt(shots: seq<Shot>, i: nat)
    requires i < |shots|
    ensures WiresRead(shots)[i] == Decoded(shots[i])
  {
  }

  lemma LoneShot(es: seq<Event>)
    requires |es| == 3 && es[0].kind == ConnectSend && es[1].kind == ConnectRecv && es[2].kind == ConnectAck
    requires !Shows(es[0]) && Shows(es[1]) && !Shows(es[2])
    ensures CountersAfter(es[..1]) == Counters(1, 0) && ShotsOf(es[..1]) == []
    ensures ShotsOf(es) == Added(Counters(1, 0), es[1]) && |ShotsOf(es)| == 1
    ensures Lost(es[..1], true) == 1 && !NothingLost(es[..1])
  {
    var one, two, none := es[..1], es[..2], es[..0];
    assert none == [] && es[..|es| - 1] == two && two[..|two| - 1] == one && one[..|one| - 1] == none;
    assert two[1] == es[1] && one[0] == es[0];
    assert CountersAfter(none) == Counters(0, 0) && ShotsOf(none) == [] && Lost(none, true) == 0;
    assert CountersAfter(one) == Marshalled(Counters(0, 0), Stream, es[0]).0;
    assert ShotsOf(one) == Added(Counters(0, 0), es[0]) == [];
    assert ShotsOf(two) == ShotsOf(one) + Added(Counters(1, 0), es[1]);
    assert ShotsOf(es) == ShotsOf(two) + Added(CountersAfter(two), es[2]);
  }

  // ------------------------------------------------------------------ complaints

  lemma WireIgnoresTime(s: Shot, t: Shot)
    requires EndsFit(s) && t == s.(seconds := t.seconds, micros := t.micros)
    ensures EndsFit(t) && WireBytes(t) == WireBytes(s) && |WireBytes(t)| == RecordedLength(t)
  {
    hide IpBytes, TransportBytes, AddrBytes, IcmpBytes;
    TruncationSparesHeaders(s);
  }

  /** Behind its own headers a complaint quotes the first 64 bytes of a packet that was shown. */
  predicate Quotes(complaint: Shot, shown: Option<Shot>) {
    shown != None && EndsFit(complaint) && EndsFit(shown.value)
    && IcmpHeaderLength(complaint) <= |WireBytes(complaint)|
    && var about := WireBytes(shown.value);
       WireBytes(complaint)[IcmpHeaderLength(complaint)..] == about[..if |about| < 64 then |about| else 64]
  }

  predicate About(complaint: Shot, about: Shot) {
    Offender(complaint) == about.(seconds := complaint.seconds, micros := complaint.micros)
  }

  /** A complaint about a packet, made at another time, quotes it exactly if they are IPv4. */
  lemma QuotesOffender(complaint: Shot, about: Shot)
    requires ShotOk(complaint) && complaint.unreachable
    requires About(complaint, about)
    ensures Quotes(complaint, Some(about)) <==> complaint.src.In?
  {
    hide WireBytes, AddrBytes;
    ComplaintQuotes(complaint);
    WireIgnoresTime(about, Offender(complaint));
  }

  /** The one exception: when connecting is refused, the complaint that comes back quotes the SYN shown just
      before, with its number, if and only if the ends are IPv4 and the SYN was shown at all. */
  lemma RefusalQuotesSyn(far: set<SockAddr>, es: seq<Event>, k: nat)
    requires FarEnds(far) && EventsOk(far, es) && k + 1 < |es|
    requires es[k].kind == ConnectSend && es[k + 1].kind == ConnectUnreach
    requires es[k + 1].myname == es[k].myname && es[k + 1].addr == es[k].addr
    ensures var syn := Marshalled(CountersAfter(es[..k]), Stream, es[k]).1;
            var complaint := Marshalled(CountersAfter(es[..k + 1]), Stream, es[k + 1]).1;
            (syn != None <==> FamilyOf(es[k].myname) != Unspec)
            && (complaint != None <==> FamilyOf(es[k].addr) != Unspec)
            && (complaint != None ==>
                  (Quotes(complaint.value, syn) <==> es[k].addr.In? && FamilyOf(es[k].myname) != Unspec))
  {
    hide CountersAfter, Marshalled, Shows, EventOk, Quotes, About;
    var c := CountersAfter(es[..k]);
    Steps(es, k);
    Refused(c, es[k], es[k + 1], far);
    var syn := Marshalled(c, Stream, es[k]).1;
    var complaint := Marshalled(CountersAfter(es[..k + 1]), Stream, es[k + 1]).1;
    if complaint != None {
      if syn != None {
        QuotesOffender(complaint.value, syn.value);
      } else {
        NothingQuoted(complaint.value);
      }
    }
  }

  lemma NothingQuoted(complaint: Shot)
    ensures !Quotes(complaint, None)
  {
  }

  lemma Refused(c: Counters, e: Event, e': Event, far: set<SockAddr>)
    requires FarEnds(far) && EventOk(far, e) && EventOk(far, e')
    requires e'.myname == e.myname && e'.addr == e.addr && e.kind == ConnectSend && e'.kind == ConnectUnreach
    ensures var syn, complaint := Marshalled(c, Stream, e).1, Marshalled(Marshalled(c, Stream, e).0, Stream, e').1;
            (syn != None <==> FamilyOf(e.myname) != Unspec) && (complaint != None <==> FamilyOf(e.addr) != Unspec)
            && (complaint != None ==> ShotOk(complaint.value) && complaint.value.unreachable
                                      && complaint.value.src == e.addr)
            && (complaint != None && syn != None ==> About(complaint.value, syn.value))
  {
    hide AddrBytes;
    AddMod(c.snd + 1, LONG - 1);
  }

  lemma Steps(es: seq<Event>, k: nat)
    requires k < |es|
    ensures CountersAfter(es[..k + 1]) == Marshalled(CountersAfter(es[..k]), Stream, es[k]).0
  {
    hide Marshalled;
    assert es[..k + 1][..k] == es[..k];
  }

  // ------------------------------------------------------------------ datagram sockets

  /** The two ends of a datagram: its name, and the peer or the address it is sent to or came from. */
  function DatagramEnds(e: Event): (SockAddr, SockAddr) {
    match e.kind
    case Send => (e.myname, e.peername)
    case SendTo => (e.myname, e.addr)
    case Recv => (e.peername, e.myname)
    case _ => (e.addr, e.myname)
  }

  /** A datagram sent or received shows as a UDP packet from the one end to the other that carries all of it, if
      and only if its source has a family; the packets only a stream has do not show at all. */
  lemma DatagramTells(c: Counters, e: Event)
    ensures e.kind !in {Send, SendTo, SendToUnreach, SendRst, Recv, RecvFrom} ==> Marshalled(c, Dgram, e) == (c, None)
    ensures e.kind in {Send, SendTo, Recv, RecvFrom} && EndsKnown(DatagramEnds(e)) ==>
              var shot := Marshalled(c, Dgram, e).1;
              if FamilyOf(DatagramEnds(e).0) == Unspec then shot == None
              else shot != None && ShotOk(shot.value)
                   && shot.value.seconds == e.seconds && shot.value.micros == e.micros
                   && var w := Decoded(shot.value);
                      w != None && Goes(w.value, DatagramEnds(e).0, DatagramEnds(e).1) && w.value.transport.Udp?
                      && w.value.payload == e.payload
  {
    hide ReadWire, WireBytes, AddrBytes, AddrOk;
    if e.kind in {Send, SendTo, Recv, RecvFrom} && EndsKnown(DatagramEnds(e)) && Marshalled(c, Dgram, e).1 != None {
      RecordReads(Marshalled(c, Dgram, e).1.value);
    }
  }

  /** It goes to one of the other ends just when it was sent. */
  lemma DatagramSeen(c: Counters, e: Event, far: set<SockAddr>)
    requires FarEnds(far) && EndsOk(far, e) && e.kind in {Send, SendTo, Recv, RecvFrom} && Shows(e)
    ensures var shot := Marshalled(c, Dgram, e).1;
            shot != None && (Away(Decoded(shot.value), far) <==> e.kind in {Send, SendTo})
  {
    hide Decoded, AddrBytes, AddrOk;
    DatagramTells(c, e);
    var w := Decoded(Marshalled(c, Dgram, e).1.value);
    if e.kind in {Send, SendTo} {
      assert GoesTo(w.value, Other(e));
    } else {
      forall o | o in far ensures !GoesTo(w.value, o) {
        assert !SameEnd(e.myname, o);
      }
    }
  }

  /** When sending fails, the datagram and then a complaint about it are shown, each with at most the first 80
      bytes of what was to be sent, as if that were all. The complaint quotes the first 64 bytes of the packet
      shown, lengths as there, exactly if the ends are IPv4 and the packet was shown at all. */
  lemma FailedSendQuotesDatagram(c: Counters, e: Event, e': Event, far: set<SockAddr>)
    requires FarEnds(far) && EndsOk(far, e) && EndsOk(far, e')
    requires e.kind == SendTo && e'.kind in {SendToUnreach, SendRst}
    requires e'.myname == e.myname && e.addr == (if e'.kind == SendRst then e'.peername else e'.addr)
    requires e'.payload == e.payload
    ensures var sent, complaint := Marshalled(c, Dgram, e).1, Marshalled(Marshalled(c, Dgram, e).0, Dgram, e').1;
            (sent != None <==> FamilyOf(e.myname) != Unspec) && (complaint != None <==> FamilyOf(e.addr) != Unspec)
            && (complaint != None ==>
                  complaint.value.unreachable && complaint.value.src == e.addr && complaint.value.dest == e.myname
                  && complaint.value.stype == Dgram && complaint.value.payload == e.payload
                  && (Quotes(complaint.value, sent) <==> e.addr.In? && FamilyOf(e.myname) != Unspec))
  {
    hide WireBytes, AddrBytes, Quotes;
    var sent, complaint := Marshalled(c, Dgram, e).1, Marshalled(Marshalled(c, Dgram, e).0, Dgram, e').1;
    if complaint != None {
      if sent != None {
        QuotesOffender(complaint.value, sent.value);
      } else {
        NothingQuoted(complaint.value);
      }
    }
  }
}
