/** Capture records: how swrap_pcap_packet_init lays one out, and how it reads back. */
module Records {
  import opened Names

  type byte = n: nat | n < 0x100

  function Be16(n: nat): seq<byte> {
    [n / 0x100 % 0x100, n % 0x100]
  }

  function Be32(n: nat): seq<byte> {
    Be16(n / 0x1_0000) + Be16(n)
  }

  /** A host byte order field, on a little endian machine. */
  function Le32(n: nat): seq<byte> {
    [n % 0x100, n / 0x100 % 0x100, n / 0x1_0000 % 0x100, n / 0x100_0000 % 0x100]
  }

  function Zeros(n: nat): seq<byte> {
    seq(n, i => 0)
  }

  /** One call: the time, the two ends, what is carried and the TCP fields. */
  datatype Shot = Shot(seconds: nat, micros: nat, src: SockAddr, dest: SockAddr, stype: SockType,
                       payload: seq<byte>, seqno: nat, ack: nat, ctl: byte, unreachable: bool)

  /** Two ends of one kind: the source reads the destination as what the source address is. */
  predicate EndsFit(s: Shot) {
    AddrOk(s.src) && AddrOk(s.dest) && s.src.In? == s.dest.In?
  }

  /** ... of which a packet is made, the source having a family. */
  predicate ShotOk(s: Shot) {
    EndsFit(s) && FamilyOf(s.src) != Unspec
  }

  // ------------------------------------------------------------------ headers

  /** The fields of an IP header that vary; addresses as they are on the wire. */
  datatype Ip = Ip(v6: bool, length: nat, protocol: byte, src: seq<byte>, dest: seq<byte>)

  predicate IpOk(ip: Ip) {
    |ip.src| == |ip.dest| == (if ip.v6 then 16 else 4) && ip.length < 0x1_0000
  }

  function IpSize(v6: bool): nat {
    if v6 then 40 else 20
  }

  function IpBytes(ip: Ip): (r: seq<byte>)
    requires IpOk(ip)
    ensures |r| == IpSize(ip.v6)
  {
    if ip.v6 then [0x60, 0, 0, 0] + Be16(ip.length) + [ip.protocol, 0] + ip.src + ip.dest
    else [0x45, 0] + Be16(ip.length) + [0xFF, 0xFF, 0x40, 0, 0xFF, ip.protocol, 0, 0] + ip.src + ip.dest
  }

  datatype Transport = Tcp(sport: nat, dport: nat, seqno: nat, ack: nat, ctl: byte)
                     | Udp(sport: nat, dport: nat, length: nat)

  predicate TransportOk(t: Transport) {
    t.sport < 0x1_0000 && t.dport < 0x1_0000
    && match t case Tcp(_, _, seqno, ack, _) => seqno < 0x1_0000_0000 && ack < 0x1_0000_0000
               case Udp(_, _, length) => length < 0x1_0000
  }

  function TransportSize(stype: SockType): nat {
    if stype == Stream then 20 else 8
  }

  function TransportBytes(t: Transport): (r: seq<byte>)
    ensures |r| == if t.Tcp? then 20 else 8
  {
    match t
    case Tcp(sport, dport, seqno, ack, ctl) =>
      Be16(sport) + Be16(dport) + Be32(seqno) + Be32(ack) + [0x50, ctl] + Be16(0x7FFF) + Zeros(4)
    case Udp(sport, dport, length) => Be16(sport) + Be16(dport) + Be16(length) + Zeros(2)
  }

  const ICMP_SIZE: nat := 8

  /** Destination unreachable. */
  function UnreachableType(v6: bool): byte {
    if v6 then 0x01 else 0x03
  }

  function IcmpBytes(v6: bool): (r: seq<byte>)
    ensures |r| == ICMP_SIZE && r[0] == UnreachableType(v6)
  {
    [UnreachableType(v6), if v6 then 0x03 else 0x01] + Zeros(6)
  }

  // ------------------------------------------------------------------ lengths

  /** wire_len before an ICMP header is put in front. */
  function DatagramLength(s: Shot): nat {
    IpSize(s.src.In6?) + TransportSize(s.stype) + |s.payload|
  }

  function IcmpHeaderLength(s: Shot): nat {
    if s.unreachable then IpSize(s.src.In6?) + ICMP_SIZE else 0
  }

  /** icmp_truncate_len. */
  function Truncated(s: Shot): (r: nat)
    ensures r <= DatagramLength(s)
  {
    if s.unreachable && DatagramLength(s) > 64 then DatagramLength(s) - 64 else 0
  }

  function RecordedLength(s: Shot): nat {
    DatagramLength(s) + IcmpHeaderLength(s) - Truncated(s)
  }

  const FRAME_SIZE: nat := 16
  const MIN_ALLOC: nat := 76

  // ------------------------------------------------------------------ the record

  function AddrBytes(a: SockAddr): (r: seq<byte>)
    requires AddrOk(a)
    ensures |r| == if a.In6? then 16 else 4
  {
    match a case In(_, addr, _) => Be32(addr) case In6(addr6, _) => addr6
  }

  function ProtocolOf(stype: SockType): byte {
    if stype == Stream then 0x06 else 0x11
  }

  function IcmpProtocol(v6: bool): byte {
    if v6 then 0x3A else 0x01
  }

  function OuterIp(s: Shot): (ip: Ip)
    requires EndsFit(s)
    ensures IpOk(ip)
  {
    Ip(s.src.In6?, RecordedLength(s) % 0x1_0000,
       if s.unreachable then IcmpProtocol(s.src.In6?) else ProtocolOf(s.stype),
       AddrBytes(s.src), AddrBytes(s.dest))
  }

  /** The header inside the ICMP message. In the IPv6 case it, too, says ICMPv6. */
  function InnerIp(s: Shot): (ip: Ip)
    requires EndsFit(s)
    ensures IpOk(ip)
  {
    var length := if s.src.In6? then RecordedLength(s) else DatagramLength(s);
    Ip(s.src.In6?, length % 0x1_0000, if s.src.In6? then IcmpProtocol(true) else ProtocolOf(s.stype),
       AddrBytes(s.dest), AddrBytes(s.src))
  }

  function TransportOf(s: Shot): (t: Transport)
    requires EndsFit(s)
    ensures TransportOk(t)
  {
    var (sport, dport) := if s.unreachable then (s.dest.port, s.src.port) else (s.src.port, s.dest.port);
    if s.stype == Stream then Tcp(sport, dport, s.seqno % 0x1_0000_0000, s.ack % 0x1_0000_0000, s.ctl)
    else Udp(sport, dport, (8 + |s.payload|) % 0x1_0000)
  }

  function FrameBytes(s: Shot): (r: seq<byte>)
    ensures |r| == FRAME_SIZE
  {
    Le32(s.seconds) + Le32(s.micros) + Le32(RecordedLength(s)) + Le32(RecordedLength(s))
  }

  function Headers(s: Shot): (r: seq<byte>)
    requires EndsFit(s)
    ensures |r| == DatagramLength(s) - |s.payload| + IcmpHeaderLength(s)
  {
    IpBytes(OuterIp(s)) + (if s.unreachable then IcmpBytes(s.src.In6?) + IpBytes(InnerIp(s)) else [])
    + TransportBytes(TransportOf(s))
  }

  /** What is written to the capture file. */
  function Record(s: Shot): seq<byte>
    requires EndsFit(s)
  {
    FrameBytes(s) + (Headers(s) + s.payload)[..RecordedLength(s)]
  }

  /** Cutting an ICMP message short removes payload only: every header stays whole, and of the datagram
      complained about 64 bytes, or all of it if it is shorter. */
  lemma TruncationSparesHeaders(s: Shot)
    requires EndsFit(s)
    ensures RecordedLength(s) >= |Headers(s)|
    ensures Record(s) == FrameBytes(s) + Headers(s) + s.payload[..|s.payload| - Truncated(s)]
    ensures s.unreachable ==>
              RecordedLength(s) - IcmpHeaderLength(s) == if DatagramLength(s) < 64 then DatagramLength(s) else 64
  {
    hide Headers, FrameBytes;
    var h, n := Headers(s), RecordedLength(s);
    assert (h + s.payload)[..n] == h + s.payload[..n - |h|];
    assert FrameBytes(s) + (h + s.payload[..n - |h|]) == FrameBytes(s) + h + s.payload[..n - |h|];
  }

  /** The length a reader of the file goes by is the length written, exactly when it fits its field. */
  lemma FrameMeasuresRecord(s: Shot)
    requires EndsFit(s)
    ensures |Record(s)| == FRAME_SIZE + RecordedLength(s)
    ensures FromLe32(Record(s)[8..12]) == RecordedLength(s) <==> RecordedLength(s) < 0x1_0000_0000
  {
    hide Headers;
    TruncationSparesHeaders(s);
    var n := RecordedLength(s);
    assert Record(s)[8..12] == Le32(n);
    Le32Reads(n);
  }

  // ------------------------------------------------------------------ building it

  /** Copies bytes to where the cursor stands. */
  method Put(base: array<byte>, buf: nat, bytes: seq<byte>) returns (next: nat)
    requires buf + |bytes| <= base.Length
    modifies base
    ensures next == buf + |bytes|
    ensures base[..next] == old(base[..buf]) + bytes
  {
    var i := 0;
    while i < |bytes|
      invariant i <= |bytes|
      invariant base[..buf + i] == old(base[..buf]) + bytes[..i]
    {
      base[buf + i] := bytes[i];
      i := i + 1;
      assert base[..buf + i] == base[..buf + i - 1] + [bytes[i - 1]];
    }
    assert bytes[..i] == bytes;
    next := buf + |bytes|;
  }

  /** Lays out the frame header and all others. */
  method PutHeaders(base: array<byte>, s: Shot) returns (buf: nat)
    requires EndsFit(s) && FRAME_SIZE + |Headers(s)| <= base.Length
    modifies base
    ensures buf == FRAME_SIZE + |Headers(s)| && base[..buf] == FrameBytes(s) + Headers(s)
  {
    hide IpBytes, OuterIp, InnerIp, TransportOf, TransportBytes, FrameBytes, AddrBytes, IcmpBytes;
    OuterFields(s);
    buf := Put(base, 0, FrameBytes(s));
    buf := Put(base, buf, IpBytes(OuterIp(s)));
    if s.unreachable {
      buf := Put(base, buf, IcmpBytes(s.src.In6?));
      buf := Put(base, buf, IpBytes(InnerIp(s)));
    }
    buf := Put(base, buf, TransportBytes(TransportOf(s)));
    assert base[..buf] == FrameBytes(s) + Headers(s);
  }

  /** swrap_pcap_packet_init: base is what calloc returned, packetLen what the caller may write of it, and
      end where the cursor came to stand after the payload. There is no packet from an address that has no
      family, and only then. */
  method PacketInit(s: Shot) returns (base: array?<byte>, packetLen: nat, end: nat)
    requires EndsFit(s)
    ensures base == null <==> !ShotOk(s)
    ensures base != null ==> fresh(base) && base.Length == (if end < MIN_ALLOC then MIN_ALLOC else end)
    ensures base != null ==> end == FRAME_SIZE + DatagramLength(s) + IcmpHeaderLength(s) && packetLen <= end
    ensures base != null ==> packetLen == FRAME_SIZE + RecordedLength(s) && base[..packetLen] == Record(s)
  {
    hide Headers, FrameBytes;
    if FamilyOf(s.src) == Unspec {
      return null, 0, 0;
    }
    var ipHdrLen := IpSize(s.src.In6?);
    var wireLen := ipHdrLen + TransportSize(s.stype) + |s.payload|;
    var icmpHdrLen, icmpTruncateLen := 0, 0;
    if s.unreachable {
      icmpHdrLen := ipHdrLen + ICMP_SIZE;
      if wireLen > 64 {
        icmpTruncateLen := wireLen - 64;
      }
      wireLen := wireLen + icmpHdrLen;
    }
    var whole := FRAME_SIZE + wireLen;
    var allocLen := whole;
    if allocLen < MIN_ALLOC {
      allocLen := MIN_ALLOC;
    }
    var packet := new byte[allocLen](i => 0);
    var buf := PutHeaders(packet, s);
    end := Put(packet, buf, s.payload);
    packetLen := whole - icmpTruncateLen;
    Prefix(packet[..end], FrameBytes(s), Headers(s) + s.payload, packetLen);
    assert packet[..packetLen] == packet[..end][..packetLen];
    base := packet;
  }

  lemma Prefix(all: seq<byte>, front: seq<byte>, back: seq<byte>, n: nat)
    requires all == front + back && |front| <= n <= |all|
    ensures all[..n] == front + back[..n - |front|]
  {
  }

  // ------------------------------------------------------------------ reading it back

  function FromBe16(s: seq<byte>): nat
    requires |s| == 2
  {
    var high: nat, low: nat := s[0], s[1];
    0x100 * high + low
  }

  function FromBe32(s: seq<byte>): nat
    requires |s| == 4
  {
    0x1_0000 * FromBe16(s[..2]) + FromBe16(s[2..])
  }

  function FromLe32(s: seq<byte>): nat
    requires |s| == 4
  {
    var a: nat, b: nat, c: nat, d: nat := s[0], s[1], s[2], s[3];
    a + 0x100 * b + 0x1_0000 * c + 0x100_0000 * d
  }

  lemma Quotients(n: nat)
    ensures n / 0x1_0000 == n / 0x100 / 0x100 && n / 0x100_0000 == n / 0x1_0000 / 0x100
  {
  }

  lemma Le32Reads(n: nat)
    ensures FromLe32(Le32(n)) == n % 0x1_0000_0000
  {
    Quotients(n);
    var a := n / 0x100;
    var b := a / 0x100;
    var c := b / 0x100;
    Digits(n, a, b, c, c / 0x100, n % 0x100, a % 0x100, b % 0x100, c % 0x100);
  }

  lemma Digits(n: nat, a: nat, b: nat, c: nat, d: nat, r: byte, p: byte, q: byte, t: byte)
    requires n == 0x100 * a + r && a == 0x100 * b + p && b == 0x100 * c + q && c == 0x100 * d + t
    ensures n % 0x1_0000_0000 == r + 0x100 * p + 0x1_0000 * q + 0x100_0000 * t
  {
    Rest(n, d, r + 0x100 * p + 0x1_0000 * q + 0x100_0000 * t);
  }

  lemma Rest(n: nat, d: nat, low: nat)
    requires n == 0x1_0000_0000 * d + low && low < 0x1_0000_0000
    ensures n % 0x1_0000_0000 == low
  {
  }

  lemma Be16Reads(n: nat)
    requires n < 0x1_0000
    ensures FromBe16(Be16(n)) == n
  {
  }

  lemma Be32Reads(n: nat)
    requires n < 0x1_0000_0000
    ensures FromBe32(Be32(n)) == n
  {
    var high := n / 0x1_0000;
    assert Be32(n)[..2] == Be16(high) && Be32(n)[2..] == Be16(n);
    assert n == 0x1_0000 * high + n % 0x1_0000;
    assert FromBe16(Be16(n)) == n % 0x1_0000;
  }

  function ReadIp(s: seq<byte>): Option<Ip> {
    if |s| >= 20 && s[0] == 0x45 then Some(Ip(false, FromBe16(s[2..4]), s[9], s[12..16], s[16..20]))
    else if |s| >= 40 && s[0] == 0x60 then Some(Ip(true, FromBe16(s[4..6]), s[6], s[8..24], s[24..40]))
    else None
  }

  lemma IpReads(ip: Ip, rest: seq<byte>)
    requires IpOk(ip)
    ensures ReadIp(IpBytes(ip) + rest) == Some(ip)
  {
    Be16Reads(ip.length);
    var s := IpBytes(ip) + rest;
    if ip.v6 {
      assert s[4..6] == Be16(ip.length) && s[8..24] == ip.src && s[24..40] == ip.dest;
    } else {
      assert s[2..4] == Be16(ip.length) && s[12..16] == ip.src && s[16..20] == ip.dest;
    }
  }

  function ReadTransport(protocol: byte, s: seq<byte>): Option<Transport> {
    if protocol == 0x06 && |s| >= 20 then
      Some(Tcp(FromBe16(s[0..2]), FromBe16(s[2..4]), FromBe32(s[4..8]), FromBe32(s[8..12]), s[13]))
    else if protocol == 0x11 && |s| >= 8 then Some(Udp(FromBe16(s[0..2]), FromBe16(s[2..4]), FromBe16(s[4..6])))
    else None
  }

  lemma TcpReads(t: Transport, rest: seq<byte>)
    requires TransportOk(t) && t.Tcp?
    ensures ReadTransport(0x06, TransportBytes(t) + rest) == Some(t)
  {
    hide Be16, Be32, FromBe16, FromBe32;
    Sizes(t.sport, t.seqno);
    Sizes(t.dport, t.ack);
    Sizes(0x7FFF, 0);
    Be16Reads(t.sport);
    Be16Reads(t.dport);
    Be32Reads(t.seqno);
    Be32Reads(t.ack);
    var s := TransportBytes(t) + rest;
    assert s[0..2] == Be16(t.sport) && s[2..4] == Be16(t.dport) && s[4..8] == Be32(t.seqno) && s[8..12] == Be32(t.ack);
  }

  lemma Sizes(m: nat, n: nat)
    ensures |Be16(m)| == 2 && |Be32(n)| == 4
  {
  }

  lemma UdpReads(t: Transport, rest: seq<byte>)
    requires TransportOk(t) && t.Udp?
    ensures ReadTransport(0x11, TransportBytes(t) + rest) == Some(t)
  {
    hide Be16, FromBe16;
    Sizes(t.sport, 0);
    Sizes(t.dport, 0);
    Sizes(t.length, 0);
    Be16Reads(t.sport);
    Be16Reads(t.dport);
    Be16Reads(t.length);
    var s := TransportBytes(t) + rest;
    assert s[0..2] == Be16(t.sport) && s[2..4] == Be16(t.dport) && s[4..6] == Be16(t.length);
  }

  /** A packet as a reader of the capture sees it. */
  datatype Wire = Plain(ip: Ip, transport: Transport, payload: seq<byte>)
                | Complaint(outer: Ip, inner: Ip, transport: Transport, payload: seq<byte>)

  function ReadWire(s: seq<byte>): Option<Wire> {
    match ReadIp(s)
    case None => None
    case Some(ip) =>
      var rest := s[IpSize(ip.v6)..];
      if ip.protocol != IcmpProtocol(ip.v6) then
        match ReadTransport(ip.protocol, rest)
        case None => None
        case Some(t) => Some(Plain(ip, t, rest[if t.Tcp? then 20 else 8..]))
      else if |rest| < ICMP_SIZE || rest[0] != UnreachableType(ip.v6) then None
      else
        match ReadIp(rest[ICMP_SIZE..])
        case None => None
        case Some(inner) =>
          var rest2 := rest[ICMP_SIZE..][IpSize(inner.v6)..];
          match ReadTransport(inner.protocol, rest2)
          case None => None
          case Some(t) => Some(Complaint(ip, inner, t, rest2[if t.Tcp? then 20 else 8..]))
  }

  /** What follows the frame header. */
  function WireBytes(s: Shot): seq<byte>
    requires EndsFit(s)
  {
    (Headers(s) + s.payload)[..RecordedLength(s)]
  }

  /** A record reads back as the packet it was made for, with as much of the payload as was kept; exactly
      the IPv6 complaints do not, as their inner header claims to hold an ICMPv6 message. */
  lemma RecordReads(s: Shot)
    requires ShotOk(s)
    ensures ReadWire(WireBytes(s)) ==
            if !s.unreachable then Some(Plain(OuterIp(s), TransportOf(s), s.payload))
            else if s.src.In6? then None
            else Some(Complaint(OuterIp(s), InnerIp(s), TransportOf(s), s.payload[..|s.payload| - Truncated(s)]))
  {
    hide IpBytes, OuterIp, InnerIp, TransportOf, TransportBytes, IcmpBytes, ReadIp, ReadTransport, WireBytes;
    var kept := s.payload[..|s.payload| - Truncated(s)];
    var tail := TransportBytes(TransportOf(s)) + kept;
    WireParts(s);
    TransportReads(s, kept);
    OuterFields(s);
    if !s.unreachable {
      IpReads(OuterIp(s), tail);
    } else {
      ComplaintReads(s, tail);
    }
  }

  /** The bytes of a packet, part by part. */
  lemma WireParts(s: Shot)
    requires EndsFit(s)
    ensures var tail := TransportBytes(TransportOf(s)) + s.payload[..|s.payload| - Truncated(s)];
            WireBytes(s) == IpBytes(OuterIp(s))
              + (if s.unreachable then IcmpBytes(s.src.In6?) + (IpBytes(InnerIp(s)) + tail) else tail)
    ensures !s.unreachable ==> s.payload[..|s.payload| - Truncated(s)] == s.payload
  {
    hide IpBytes, OuterIp, InnerIp, TransportOf, TransportBytes, IcmpBytes;
    KeptPayload(s);
    var kept := s.payload[..|s.payload| - Truncated(s)];
    if s.unreachable {
      Regroup(IpBytes(OuterIp(s)), IcmpBytes(s.src.In6?), IpBytes(InnerIp(s)), TransportBytes(TransportOf(s)), kept);
    } else {
      Regroup(IpBytes(OuterIp(s)), [], [], TransportBytes(TransportOf(s)), kept);
    }
  }

  lemma Regroup(a: seq<byte>, b: seq<byte>, c: seq<byte>, d: seq<byte>, e: seq<byte>)
    ensures a + (b + c) + d + e == a + (b + (c + (d + e)))
    ensures a + [] + d + e == a + (d + e)
  {
  }

  /** Taking a complaint apart, header by header. */
  lemma ComplaintReads(s: Shot, tail: seq<byte>)
    requires EndsFit(s) && s.unreachable
    ensures var inner := IpBytes(InnerIp(s)) + tail;
            var rest := IcmpBytes(s.src.In6?) + inner;
            var wire := IpBytes(OuterIp(s)) + rest;
            ReadIp(wire) == Some(OuterIp(s)) && wire[IpSize(s.src.In6?)..] == rest
            && rest[0] == UnreachableType(s.src.In6?)
            && |rest| >= ICMP_SIZE && rest[ICMP_SIZE..] == inner && ReadIp(inner) == Some(InnerIp(s))
            && |inner| >= IpSize(s.src.In6?) && inner[IpSize(s.src.In6?)..] == tail
  {
    hide IpBytes, OuterIp, InnerIp, IcmpBytes, ReadIp;
    OuterFields(s);
    var inner := IpBytes(InnerIp(s)) + tail;
    IpReads(InnerIp(s), tail);
    IpReads(OuterIp(s), IcmpBytes(s.src.In6?) + inner);
  }

  // ------------------------------------------------------------------ what the bytes say

  /** An IP header from one end to another; the identification, lifetime and checksum fields are constant. */
  predicate IpAt(w: seq<byte>, length: nat, protocol: byte, src: SockAddr, dest: SockAddr)
    requires src.In? == dest.In?
  {
    if src.In? then
      |w| >= 20 && w[0..2] == [0x45, 0x00] && FromBe16(w[2..4]) == length % 0x1_0000
      && w[4..10] == [0xFF, 0xFF, 0x40, 0x00, 0xFF, protocol] && w[10..12] == [0, 0]
      && FromBe32(w[12..16]) == src.addr && FromBe32(w[16..20]) == dest.addr
    else
      |w| >= 40 && w[0..4] == [0x60, 0x00, 0x00, 0x00] && FromBe16(w[4..6]) == length % 0x1_0000
      && w[6..8] == [protocol, 0x00] && w[8..24] == src.addr6 && w[24..40] == dest.addr6
  }

  /** A TCP or UDP header from one port to another, and, behind it, the first kept bytes of the payload. */
  predicate TransportAt(w: seq<byte>, s: Shot, sport: nat, dport: nat, kept: nat) {
    kept <= |s.payload|
    && if s.stype == Stream then
         |w| >= 20 && FromBe16(w[0..2]) == sport && FromBe16(w[2..4]) == dport
         && FromBe32(w[4..8]) == s.seqno % 0x1_0000_0000 && FromBe32(w[8..12]) == s.ack % 0x1_0000_0000
         && w[12..20] == [0x50, s.ctl, 0x7F, 0xFF, 0, 0, 0, 0] && w[20..] == s.payload[..kept]
       else
         |w| >= 8 && FromBe16(w[0..2]) == sport && FromBe16(w[2..4]) == dport
         && FromBe16(w[4..6]) == (8 + |s.payload|) % 0x1_0000 && w[6..8] == [0, 0] && w[8..] == s.payload[..kept]
  }

  lemma IpSpelled(ip: Ip, length: nat, src: SockAddr, dest: SockAddr, rest: seq<byte>)
    requires ip.length == length % 0x1_0000
    requires AddrOk(src) && AddrOk(dest) && src.In? == dest.In? && IpOk(ip)
    requires ip.v6 == src.In6? && ip.src == AddrBytes(src) && ip.dest == AddrBytes(dest)
    ensures IpAt(IpBytes(ip) + rest, length, ip.protocol, src, dest)
  {
    hide Be32, FromBe32, FromBe16, Be16;
    Be16Reads(ip.length);
    Sizes(ip.length, 0);
    var w := IpBytes(ip) + rest;
    if src.In? {
      Be32Reads(src.addr);
      Be32Reads(dest.addr);
      assert w[2..4] == Be16(ip.length) && w[12..16] == ip.src && w[16..20] == ip.dest;
    } else {
      assert w[4..6] == Be16(ip.length) && w[8..24] == ip.src && w[24..40] == ip.dest;
    }
  }

  lemma TransportSpelled(s: Shot, kept: nat)
    requires EndsFit(s) && kept <= |s.payload|
    ensures var (sport, dport) := if s.unreachable then (s.dest.port, s.src.port) else (s.src.port, s.dest.port);
            TransportAt(TransportBytes(TransportOf(s)) + s.payload[..kept], s, sport, dport, kept)
  {
    hide Be16, Be32, FromBe16, FromBe32, AddrOk;
    var t := TransportOf(s);
    var w := TransportBytes(t) + s.payload[..kept];
    Sizes(t.sport, 0);
    Sizes(t.dport, 0);
    Be16Reads(t.sport);
    Be16Reads(t.dport);
    if t.Tcp? {
      Sizes(0x7FFF, t.seqno);
      Sizes(0x7FFF, t.ack);
      Be32Reads(t.seqno);
      Be32Reads(t.ack);
      assert w[0..2] == Be16(t.sport) && w[2..4] == Be16(t.dport) && w[4..8] == Be32(t.seqno)
        && w[8..12] == Be32(t.ack) && w[12..14] == [0x50, t.ctl] && w[14..16] == Be16(0x7FFF) && w[16..20] == Zeros(4);
      WindowBytes();
      assert w[12..20] == w[12..14] + w[14..16] + w[16..20];
    } else {
      Sizes(t.length, 0);
      Be16Reads(t.length);
      assert w[0..2] == Be16(t.sport) && w[2..4] == Be16(t.dport) && w[4..6] == Be16(t.length) && w[6..8] == Zeros(2);
    }
  }

  lemma WindowBytes()
    ensures Be16(0x7FFF) == [0x7F, 0xFF] && Zeros(4) == [0, 0, 0, 0]
  {
  }

  /** A packet byte by byte: TCP is protocol 6, UDP 17, ICMP 1 and ICMPv6 58. A complaint is about an unreachable
      destination (type 3 or, in ICMPv6, 1), and keeps of the payload what fits the 64 bytes it quotes. */
  lemma PacketSpelled(s: Shot)
    requires ShotOk(s)
    ensures var w, h, t := WireBytes(s), if s.src.In? then 20 else 40, if s.stype == Stream then 20 else 8;
            var protocol: byte := if s.stype == Stream then 6 else 17;
            var whole := h + t + |s.payload|;
            if !s.unreachable then
              |w| == whole && IpAt(w, |w|, protocol, s.src, s.dest)
              && TransportAt(w[h..], s, s.src.port, s.dest.port, |s.payload|)
            else
              |w| == h + 8 + (if whole < 64 then whole else 64)
              && IpAt(w, |w|, if s.src.In? then 1 else 58, s.src, s.dest)
              && w[h..h + 8] == (if s.src.In? then [3, 1, 0, 0, 0, 0, 0, 0] else [1, 3, 0, 0, 0, 0, 0, 0])
              && IpAt(w[h + 8..], if s.src.In? then whole else |w|, if s.src.In? then protocol else 58, s.dest, s.src)
              && TransportAt(w[h + 8..][h..], s, s.dest.port, s.src.port,
                             if whole < 64 then |s.payload| else 64 - h - t)
  {
    hide IpBytes, InnerIp, OuterIp, TransportOf, TransportBytes, IcmpBytes, WireBytes, IpAt, TransportAt, AddrBytes;
    OuterFields(s);
    EndFields(s);
    WireParts(s);
    var kept := |s.payload| - Truncated(s);
    TransportSpelled(s, kept);
    var tail := TransportBytes(TransportOf(s)) + s.payload[..kept];
    if s.unreachable {
      IcmpSpelled(s.src.In6?);
      var inner := IpBytes(InnerIp(s)) + tail;
      IpSpelled(OuterIp(s), RecordedLength(s), s.src, s.dest, IcmpBytes(s.src.In6?) + inner);
      IpSpelled(InnerIp(s), if s.src.In? then DatagramLength(s) else RecordedLength(s), s.dest, s.src, tail);
      Apart(IpBytes(OuterIp(s)), IcmpBytes(s.src.In6?), IpBytes(InnerIp(s)), tail);
    } else {
      IpSpelled(OuterIp(s), RecordedLength(s), s.src, s.dest, tail);
    }
  }

  lemma Apart(a: seq<byte>, b: seq<byte>, c: seq<byte>, d: seq<byte>)
    requires |b| == 8
    ensures var w := a + (b + (c + d));
            w[|a|..|a| + 8] == b && w[|a| + 8..] == c + d && w[|a| + 8..][|c|..] == d
  {
  }

  lemma IcmpSpelled(v6: bool)
    ensures IcmpBytes(v6) == if v6 then [1, 3, 0, 0, 0, 0, 0, 0] else [3, 1, 0, 0, 0, 0, 0, 0]
  {
  }

  lemma EndFields(s: Shot)
    requires EndsFit(s)
    ensures OuterIp(s).src == AddrBytes(s.src) == InnerIp(s).dest
    ensures OuterIp(s).dest == AddrBytes(s.dest) == InnerIp(s).src
    ensures OuterIp(s).length == RecordedLength(s) % 0x1_0000
    ensures InnerIp(s).length == (if s.src.In? then DatagramLength(s) else RecordedLength(s)) % 0x1_0000
  {
    hide AddrBytes;
  }

  /** The frame header: when the packet was, and how long it is, twice. */
  lemma FrameSpelled(s: Shot)
    requires ShotOk(s)
    ensures |Record(s)| >= 16 && Record(s)[16..] == WireBytes(s)
    ensures FromLe32(Record(s)[0..4]) == s.seconds % 0x1_0000_0000
    ensures FromLe32(Record(s)[4..8]) == s.micros % 0x1_0000_0000
    ensures FromLe32(Record(s)[8..12]) == FromLe32(Record(s)[12..16]) == |WireBytes(s)| % 0x1_0000_0000
  {
    hide Headers, RecordedLength, FromLe32, Le32;
    Le32Reads(s.seconds);
    Le32Reads(s.micros);
    Le32Reads(RecordedLength(s));
    FrameMeasuresRecord(s);
    LeSizes(s);
    assert Record(s)[0..4] == Le32(s.seconds) && Record(s)[4..8] == Le32(s.micros);
    assert Record(s)[8..12] == Record(s)[12..16] == Le32(RecordedLength(s));
  }

  lemma LeSizes(s: Shot)
    ensures |Le32(s.seconds)| == |Le32(s.micros)| == |Le32(RecordedLength(s))| == 4
  {
  }

  /** The datagram that a complaint is about. */
  function Offender(s: Shot): Shot {
    s.(src := s.dest, dest := s.src, unreachable := false)
  }

  /** Behind its own headers a complaint quotes the start of the datagram it is about, as that would be
      captured: in the IPv4 case exactly. */
  lemma ComplaintQuotes(s: Shot)
    requires ShotOk(s) && s.unreachable
    ensures |WireBytes(s)| == RecordedLength(s) >= IcmpHeaderLength(s)
    ensures var about := WireBytes(Offender(s));
            WireBytes(s)[IcmpHeaderLength(s)..] == about[..if |about| < 64 then |about| else 64] <==> s.src.In?
  {
    hide IpBytes, OuterIp, InnerIp, TransportOf, TransportBytes, IcmpBytes, WireBytes, RecordedLength, Offender;
    var o, tail := Offender(s), TransportBytes(TransportOf(s)) + s.payload;
    OuterFields(s);
    OffenderFields(s);
    Behind(s);
    WireParts(o);
    var inner, about := IpBytes(InnerIp(s)) + tail, IpBytes(OuterIp(o)) + tail;
    var n := if |about| < 64 then |about| else 64;
    if s.src.In6? {
      InnerProtocol(s);
      assert inner[..n][6] == 0x3A && about[..n][6] != 0x3A;
    }
  }

  lemma Behind(s: Shot)
    requires EndsFit(s) && s.unreachable
    ensures |WireBytes(s)| == RecordedLength(s) >= IcmpHeaderLength(s)
    ensures var inner := IpBytes(InnerIp(s)) + (TransportBytes(TransportOf(s)) + s.payload);
            WireBytes(s)[IcmpHeaderLength(s)..] == inner[..if |inner| < 64 then |inner| else 64]
  {
    hide IpBytes, OuterIp, InnerIp, TransportOf, TransportBytes, IcmpBytes;
    OuterFields(s);
    var front := IpBytes(OuterIp(s)) + IcmpBytes(s.src.In6?);
    var inner := IpBytes(InnerIp(s)) + (TransportBytes(TransportOf(s)) + s.payload);
    Regroup(IpBytes(OuterIp(s)), IcmpBytes(s.src.In6?), IpBytes(InnerIp(s)), TransportBytes(TransportOf(s)), s.payload);
    assert Headers(s) + s.payload == front + inner;
    Cut(front, inner, RecordedLength(s));
  }

  lemma Cut(a: seq<byte>, b: seq<byte>, n: nat)
    requires |a| <= n <= |a| + |b|
    ensures (a + b)[..n][|a|..] == b[..n - |a|]
  {
  }

  lemma OffenderFields(s: Shot)
    requires EndsFit(s) && s.unreachable
    ensures EndsFit(Offender(s)) && OuterIp(Offender(s)).v6 == s.src.In6? && !Offender(s).unreachable
    ensures Offender(s).payload == s.payload
    ensures TransportOf(Offender(s)) == TransportOf(s)
    ensures s.src.In? ==> OuterIp(Offender(s)) == InnerIp(s)
  {
    hide AddrBytes;
  }

  lemma InnerProtocol(s: Shot)
    requires EndsFit(s) && s.unreachable && s.src.In6?
    ensures IpBytes(InnerIp(s))[6] == 0x3A && IpBytes(OuterIp(Offender(s)))[6] == ProtocolOf(s.stype)
  {
    hide AddrBytes;
  }

  lemma KeptPayload(s: Shot)
    requires EndsFit(s)
    ensures WireBytes(s) == Headers(s) + s.payload[..|s.payload| - Truncated(s)]
  {
    hide Headers;
  }

  lemma OuterFields(s: Shot)
    requires EndsFit(s)
    ensures OuterIp(s).v6 == s.src.In6? == InnerIp(s).v6
    ensures OuterIp(s).protocol == if s.unreachable then IcmpProtocol(s.src.In6?) else ProtocolOf(s.stype)
    ensures InnerIp(s).protocol == if s.src.In6? then 0x3A else ProtocolOf(s.stype)
    ensures TransportOf(s).Tcp? <==> s.stype == Stream
  {
    hide AddrBytes;
  }

  lemma TransportReads(s: Shot, kept: seq<byte>)
    requires EndsFit(s)
    ensures var tail := TransportBytes(TransportOf(s)) + kept;
            ReadTransport(ProtocolOf(s.stype), tail) == Some(TransportOf(s)) && ReadTransport(0x3A, tail) == None
            && tail[if TransportOf(s).Tcp? then 20 else 8..] == kept
  {
    hide TransportBytes;
    if s.stype == Stream {
      TcpReads(TransportOf(s), kept);
    } else {
      UdpReads(TransportOf(s), kept);
    }
  }

  /** The length fields of the headers are exact just when the packet fits 16 bits, as every complaint does;
      the IPv6 ones count the header itself, too. Inside a complaint the field is that of the datagram
      complained about if it fits and is IPv4, but for IPv6 only if that happens to have 112 bytes. */
  lemma LengthFields(s: Shot)
    requires ShotOk(s)
    ensures OuterIp(s).length == RecordedLength(s) <==> s.unreachable || DatagramLength(s) < 0x1_0000
    ensures s.unreachable ==> (InnerIp(s).length == DatagramLength(s) <==>
              if s.src.In6? then DatagramLength(s) == 112 else DatagramLength(s) < 0x1_0000)
    ensures TransportOf(s).Udp? ==> (TransportOf(s).length == 8 + |s.payload| <==> 8 + |s.payload| < 0x1_0000)
  {
    hide AddrBytes;
  }

  // ------------------------------------------------------------------ a whole file

  predicate AllShotsOk(shots: seq<Shot>) {
    forall i :: 0 <= i < |shots| ==> ShotOk(shots[i]) && RecordedLength(shots[i]) < 0x1_0000_0000
  }

  function FileOf(shots: seq<Shot>): seq<byte>
    requires AllShotsOk(shots)
  {
    if shots == [] then [] else Record(shots[0]) + FileOf(shots[1..])
  }

  function WiresOf(shots: seq<Shot>): (r: seq<seq<byte>>)
    requires AllShotsOk(shots)
    ensures |r| == |shots| && forall i :: 0 <= i < |shots| ==> r[i] == WireBytes(shots[i])
  {
    seq(|shots|, i requires 0 <= i < |shots| => WireBytes(shots[i]))
  }

  /** Splits a file into packets by the recorded lengths. */
  function ReadFile(s: seq<byte>): Option<seq<seq<byte>>>
    decreases |s|
  {
    if s == [] then Some([])
    else if |s| < FRAME_SIZE then None
    else
      var n := FromLe32(s[8..12]);
      if |s| < FRAME_SIZE + n then None
      else match ReadFile(s[FRAME_SIZE + n..])
           case None => None
           case Some(rest) => Some([s[FRAME_SIZE..FRAME_SIZE + n]] + rest)
  }

  /** However many records are written one after another, the file splits back into exactly them. */
  lemma {:induction false} FileReads(shots: seq<Shot>)
    requires AllShotsOk(shots)
    ensures ReadFile(FileOf(shots)) == Some(WiresOf(shots))
    decreases |shots|
  {
    hide Record, WireBytes, EndsFit, RecordedLength, FromLe32;
    if shots != [] {
      var s, rest := shots[0], FileOf(shots[1..]);
      RecordShape(s);
      FileReads(shots[1..]);
      assert WiresOf(shots) == [WireBytes(s)] + WiresOf(shots[1..]);
      var n, file := RecordedLength(s), FileOf(shots);
      assert file == Record(s) + rest;
      assert file[8..12] == Record(s)[8..12] && file[FRAME_SIZE + n..] == rest;
      assert file[FRAME_SIZE..FRAME_SIZE + n] == Record(s)[FRAME_SIZE..];
    }
  }

  lemma RecordShape(s: Shot)
    requires ShotOk(s) && RecordedLength(s) < 0x1_0000_0000
    ensures |Record(s)| == FRAME_SIZE + RecordedLength(s)
    ensures FromLe32(Record(s)[8..12]) == RecordedLength(s) && Record(s)[FRAME_SIZE..] == WireBytes(s)
  {
    hide Headers, FrameBytes, FromLe32;
    FrameMeasuresRecord(s);
  }
}
