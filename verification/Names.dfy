/** How IP endpoints are named: printed to Unix socket paths, and parsed back from them. */
module Names {

  datatype Option<+T> = None | Some(value: T)

  datatype Errno = EINVAL | ENETUNREACH | EADDRNOTAVAIL | ENFILE | EAFNOSUPPORT | ESOCKTNOSUPPORT | ENOTCONN
                 | EADDRINUSE | LibCError

  datatype Result<+T> = Ok(value: T) | Err(errno: Errno)

  datatype Family = Inet | Inet6 | Unspec

  datatype SockType = Stream | Dgram

  /** sockaddr_in, whose family field need not say AF_INET, and sockaddr_in6; both in host byte order. */
  datatype SockAddr = In(family: Family, addr: nat, port: nat) | In6(addr6: seq<nat>, port: nat)

  function FamilyOf(a: SockAddr): Family {
    if a.In? then a.family else Inet6
  }

  predicate AddrOk(a: SockAddr) {
    a.port <= 0xFFFF && match a case In(family, addr, _) => family != Inet6 && addr <= 0xFFFF_FFFF
                                case In6(addr6, _) => |addr6| == 16 && forall i :: 0 <= i < 16 ==> addr6[i] <= 0xFF
  }

  const SUN_PATH_MAX: nat := 107   // sizeof(sun_path) less the terminator
  const MAX_WRAPPED_INTERFACES: nat := 64

  /** FD00::5357:5F00, but for its last byte. */
  const SWRAP_PREFIX: seq<nat> := [0xFD, 0, 0, 0, 0, 0, 0, 0, 0, 0, 0, 0, 0x53, 0x57, 0x5F]

  function Wrapped4(iface: nat, port: nat): SockAddr {
    In(Inet, 0x7F00_0000 + iface, port)
  }

  function Wrapped6(iface: nat, port: nat): SockAddr {
    In6(SWRAP_PREFIX + [iface], port)
  }

  function Wrapped(family: Family, iface: nat, port: nat): SockAddr {
    if family == Inet then Wrapped4(iface, port) else Wrapped6(iface, port)
  }

  function TypeChar(family: Family, stype: SockType): char {
    if family == Inet then (if stype == Stream then 'T' else 'U') else (if stype == Stream then 'X' else 'Y')
  }

  // ------------------------------------------------------------------ printing

  function HexDigit(d: nat): (c: char)
    requires d < 16
  {
    "0123456789ABCDEF"[d]
  }

  /** %0<width>X: at least width digits. */
  function HexPad(n: nat, width: nat): string
    decreases n + width
  {
    if n == 0 && width == 0 then ""
    else HexPad(n / 16, if width == 0 then 0 else width - 1) + [HexDigit(n % 16)]
  }

  /** SOCKET_FORMAT: "%c%02X%04X". */
  function SocketName(kind: char, iface: nat, port: nat): string {
    [kind] + HexPad(iface, 2) + HexPad(port, 4)
  }

  /** snprintf into sun_path cuts off what does not fit. */
  function SunPath(dir: string, kind: char, iface: nat, port: nat): string {
    var full := dir + "/" + SocketName(kind, iface, port);
    if |full| > SUN_PATH_MAX then full[..SUN_PATH_MAX] else full
  }

  /** Room for the directory, a slash and an eight character name. */
  predicate Fits(dir: string) {
    |dir| + 8 <= SUN_PATH_MAX
  }

  // ------------------------------------------------------------------ parsing

  function HexValue(c: char): int {
    if '0' <= c <= '9' then c as int - '0' as int
    else if 'A' <= c <= 'F' then c as int - 'A' as int + 10
    else if 'a' <= c <= 'f' then c as int - 'a' as int + 10
    else -1
  }

  function SkipSpaces(s: string): (r: string)
    ensures |r| <= |s|
  {
    if s != "" && s[0] in {' ', '\t', '\n', '\r', '\U{000B}', '\U{000C}'} then SkipSpaces(s[1..]) else s
  }

  /** How many of the first width characters, from the start, are hex digits. */
  function DigitRun(s: string, width: nat): (n: nat)
    ensures n <= width && n <= |s|
    ensures forall i :: 0 <= i < n ==> HexValue(s[i]) >= 0
  {
    if width == 0 || s == "" || HexValue(s[0]) < 0 then 0 else 1 + DigitRun(s[1..], width - 1)
  }

  function HexNumber(s: string): nat
    requires forall i :: 0 <= i < |s| ==> HexValue(s[i]) >= 0
  {
    if s == "" then 0 else 16 * HexNumber(s[..|s| - 1]) + HexValue(s[|s| - 1])
  }

  /** sscanf's %<width>X into an unsigned int: leading white space, a sign and a 0x prefix are allowed,
      the latter two within the width. What is left of the input comes second. */
  function ScanHex(s: string, width: nat): Option<(nat, string)> {
    var s1 := SkipSpaces(s);
    var signed := s1 != "" && s1[0] in {'+', '-'} && width > 0;
    var s2, w2 := if signed then s1[1..] else s1, if signed then width - 1 else width;
    var prefixed := w2 >= 2 && |s2| >= 2 && s2[0] == '0' && s2[1] in {'x', 'X'};
    var s3, w3 := if prefixed then s2[2..] else s2, if prefixed then w2 - 2 else w2;
    var n := DigitRun(s3, w3);
    if n == 0 then None
    else
      var v := HexNumber(s3[..n]);
      Some((if signed && s1[0] == '-' then (0x1_0000_0000 - v) % 0x1_0000_0000 else v, s3[n..]))
  }

  /** What follows the last slash. */
  function AfterLastSlash(s: string): string {
    if s == "" || s[|s| - 1] == '/' then "" else AfterLastSlash(s[..|s| - 1]) + [s[|s| - 1]]
  }

  const SIZEOF_SOCKADDR_IN: nat := 16
  const SIZEOF_SOCKADDR_IN6: nat := 28

  /** convert_un_in; len is the room the caller has for the address. */
  function ConvertUnIn(path: string, len: nat): Result<SockAddr> {
    var p := AfterLastSlash(path);
    if p == "" then Err(EINVAL)
    else match ScanHex(p[1..], 2)
         case None => Err(EINVAL)
         case Some((iface, rest)) =>
           match ScanHex(rest, 4)
           case None => Err(EINVAL)
           case Some((port, _)) =>
             if iface == 0 || iface > MAX_WRAPPED_INTERFACES || port > 0xFFFF then Err(EINVAL)
             else if p[0] == 'T' || p[0] == 'U' then
               if len < SIZEOF_SOCKADDR_IN then Err(EINVAL) else Ok(Wrapped4(iface, port))
             else if p[0] == 'X' || p[0] == 'Y' then
               if len < SIZEOF_SOCKADDR_IN6 then Err(EINVAL) else Ok(Wrapped6(iface, port))
             else Err(EINVAL)
  }

  // ------------------------------------------------------------------ addresses to paths

  /** convert_in_un_remote: the path of a peer address, and whether it was a broadcast address. dflt is
      the default interface. */
  function ConvertRemote(dir: string, dflt: nat, stype: SockType, a: SockAddr): Result<(string, nat)> {
    if a.In? && a.family == Inet then
      if stype == Dgram && a.addr == 0xFFFF_FFFF then RemotePath(dir, 'U', dflt, a.port, 2)
      else if stype == Dgram && a.addr == 0x7FFF_FFFF then RemotePath(dir, 'U', dflt, a.port, 1)
      else if a.addr / 256 == 0x7F_0000 then RemotePath(dir, TypeChar(Inet, stype), a.addr % 256, a.port, 0)
      else Err(ENETUNREACH)
    else if a.In6? then
      if |a.addr6| == 16 && a.addr6[..15] == SWRAP_PREFIX then
        RemotePath(dir, TypeChar(Inet6, stype), a.addr6[15], a.port, 0)
      else Err(ENETUNREACH)
    else Err(ENETUNREACH)
  }

  function RemotePath(dir: string, kind: char, iface: nat, port: nat, bcast: nat): Result<(string, nat)> {
    if port == 0 then Err(EINVAL)
    else if bcast != 0 then Ok((InvalidPath(dir), bcast))
    else Ok((SunPath(dir, kind, iface, port), 0))
  }

  /** What is put in sun_path for a broadcast address: the caller does more processing. */
  function InvalidPath(dir: string): string {
    var full := dir + "/EINVAL";
    if |full| > SUN_PATH_MAX then full[..SUN_PATH_MAX] else full
  }

  /** The interface convert_in_un_alloc chooses for a local address, and whether it was a broadcast one. */
  function LocalIface(dflt: nat, stype: SockType, a: SockAddr): Result<(nat, nat)> {
    match a
    case In(_, addr, _) =>
      if addr == 0 then Ok((dflt, 0))
      else if stype == Dgram && addr == 0xFFFF_FFFF then Ok((dflt, 2))
      else if stype == Dgram && addr == 0x7FFF_FFFF then Ok((dflt, 1))
      else if addr / 256 == 0x7F_0000 then Ok((addr % 256, 0))
      else Err(EADDRNOTAVAIL)
    case In6(addr6, _) =>
      if |addr6| == 16 && forall i :: 0 <= i < 16 ==> addr6[i] == 0 then Ok((dflt, 0))
      else if |addr6| == 16 && addr6[..15] == SWRAP_PREFIX then Ok((addr6[15], 0))
      else Err(EADDRNOTAVAIL)
  }

  // ------------------------------------------------------------------ printing and parsing agree

  function Pow16(w: nat): nat {
    if w == 0 then 1 else 16 * Pow16(w - 1)
  }

  predicate PlainDigits(s: string) {
    forall i :: 0 <= i < |s| ==> '0' <= s[i] <= '9' || 'A' <= s[i] <= 'F'
  }

  /** A number that fits the width is printed in exactly that many digits, which read as the number. */
  lemma {:induction false} HexPadReads(n: nat, width: nat)
    requires n < Pow16(width)
    ensures |HexPad(n, width)| == width && PlainDigits(HexPad(n, width))
    ensures HexNumber(HexPad(n, width)) == n
    decreases width
  {
    if width > 0 {
      HexPadReads(n / 16, width - 1);
      var front, digit := HexPad(n / 16, width - 1), HexDigit(n % 16);
      assert HexPad(n, width) == front + [digit];
      assert (front + [digit])[..width - 1] == front;
      assert HexValue(digit) == n % 16;
    }
  }

  lemma {:induction false} FullRun(digits: string, rest: string)
    requires PlainDigits(digits)
    ensures DigitRun(digits + rest, |digits|) == |digits|
    decreases |digits|
  {
    if digits != "" {
      assert (digits + rest)[1..] == digits[1..] + rest;
      FullRun(digits[1..], rest);
    }
  }

  /** Scanning a number printed in full width reads exactly its digits. */
  lemma ScanPrinted(n: nat, width: nat, rest: string)
    requires width >= 2 && n < Pow16(width)
    ensures ScanHex(HexPad(n, width) + rest, width) == Some((n, rest))
  {
    hide HexPad, HexNumber, DigitRun, Pow16;
    HexPadReads(n, width);
    var digits := HexPad(n, width);
    var s := digits + rest;
    FullRun(digits, rest);
    assert s[0] == digits[0] && s[1] == digits[1];
    assert s[..width] == digits && s[width..] == rest;
  }

  lemma ScanIface(n: nat, rest: string)
    requires n <= 0xFF
    ensures ScanHex(HexPad(n, 2) + rest, 2) == Some((n, rest))
  {
    Powers();
    ScanPrinted(n, 2, rest);
  }

  lemma ScanPort(n: nat)
    requires n <= 0xFFFF
    ensures ScanHex(HexPad(n, 4), 4) == Some((n, ""))
  {
    Powers();
    ScanPrinted(n, 4, "");
    assert HexPad(n, 4) + "" == HexPad(n, 4);
  }

  lemma {:induction false} AfterSlash(dir: string, name: string)
    requires '/' !in name
    ensures AfterLastSlash(dir + "/" + name) == name
    decreases |name|
  {
    var s := dir + "/" + name;
    if name != "" {
      assert s[..|s| - 1] == dir + "/" + name[..|name| - 1];
      AfterSlash(dir, name[..|name| - 1]);
    }
  }

  lemma NameShape(kind: char, iface: nat, port: nat)
    requires kind != '/' && iface <= 0xFF && port <= 0xFFFF
    ensures |SocketName(kind, iface, port)| == 7 && '/' !in SocketName(kind, iface, port)
    ensures SocketName(kind, iface, port)[0] == kind
    ensures SocketName(kind, iface, port)[1..] == HexPad(iface, 2) + HexPad(port, 4)
  {
    hide HexPad, HexNumber, PlainDigits, Pow16;
    Powers();
    HexPadReads(iface, 2);
    HexPadReads(port, 4);
    NoSlash(HexPad(iface, 2));
    NoSlash(HexPad(port, 4));
  }

  lemma Powers()
    ensures Pow16(2) == 256 && Pow16(4) == 65536
  {
    assert Pow16(2) == 256;
  }

  lemma NoSlash(s: string)
    requires PlainDigits(s)
    ensures '/' !in s
  {
  }

  /** A printed path, taken apart as convert_un_in does. */
  lemma PathParts(dir: string, kind: char, iface: nat, port: nat)
    requires Fits(dir) && kind != '/' && iface <= 0xFF && port <= 0xFFFF
    ensures var p := AfterLastSlash(SunPath(dir, kind, iface, port));
            p != "" && p[0] == kind
            && ScanHex(p[1..], 2) == Some((iface, HexPad(port, 4)))
            && ScanHex(HexPad(port, 4), 4) == Some((port, ""))
  {
    hide ScanHex, HexPad, SocketName, AfterLastSlash;
    NameShape(kind, iface, port);
    AfterSlash(dir, SocketName(kind, iface, port));
    ScanIface(iface, HexPad(port, 4));
    ScanPort(port);
  }

  /** A printed path is taken for an endpoint exactly when its first letter is one of T, U, X and Y, its interface
      one of 1..64, and there is room for an address of the letter's family. */
  lemma ParseExactly(dir: string, kind: char, iface: nat, port: nat, len: nat)
    requires Fits(dir) && kind != '/' && iface <= 0xFF && port <= 0xFFFF
    ensures ConvertUnIn(SunPath(dir, kind, iface, port), len) ==
            if iface == 0 || iface > 64 then Err(EINVAL)
            else if kind in {'T', 'U'} && len >= 16 then Ok(In(Inet, 0x7F00_0000 + iface, port))
            else if kind in {'X', 'Y'} && len >= 28 then
              Ok(In6([0xFD, 0, 0, 0, 0, 0, 0, 0, 0, 0, 0, 0, 0x53, 0x57, 0x5F, iface], port))
            else Err(EINVAL)
  {
    hide ScanHex, HexPad, SunPath, AfterLastSlash;
    PathParts(dir, kind, iface, port);
    assert SWRAP_PREFIX + [iface] == [0xFD, 0, 0, 0, 0, 0, 0, 0, 0, 0, 0, 0, 0x53, 0x57, 0x5F, iface];
  }

  /** A path spelled out: a letter for family and type, two digits of interface and four of port. */
  lemma PathSpelled(dir: string, family: Family, stype: SockType, iface: nat, port: nat)
    requires Fits(dir) && family != Unspec && iface <= 0xFF && port <= 0xFFFF
    ensures var d, letter := "0123456789ABCDEF", if family == Inet then "TU" else "XY";
            SunPath(dir, TypeChar(family, stype), iface, port) ==
              dir + "/" + [letter[if stype == Stream then 0 else 1], d[iface / 16], d[iface % 16],
                           d[port / 4096], d[port / 256 % 16], d[port / 16 % 16], d[port % 16]]
  {
    hide HexPad;
    TwoDigits(iface);
    FourDigits(port);
  }

  lemma TwoDigits(n: nat)
    requires n <= 0xFF
    ensures HexPad(n, 2) == [HexDigit(n / 16), HexDigit(n % 16)]
  {
    assert HexPad(n / 16, 1) == HexPad(n / 16 / 16, 0) + [HexDigit(n / 16)];
  }

  lemma FourDigits(n: nat)
    requires n <= 0xFFFF
    ensures HexPad(n, 4) == [HexDigit(n / 4096), HexDigit(n / 256 % 16), HexDigit(n / 16 % 16), HexDigit(n % 16)]
  {
    TwoDigits(n / 256);
    assert HexPad(n, 4) == HexPad(n / 16, 3) + [HexDigit(n % 16)];
    assert HexPad(n / 16, 3) == HexPad(n / 16 / 16, 2) + [HexDigit(n / 16 % 16)];
    assert n / 16 / 16 == n / 256 && n / 256 / 16 == n / 4096;
  }

  /** Parsing a printed path gives back the endpoint, whatever slashes the directory contains. */
  lemma ParsePrinted(dir: string, family: Family, stype: SockType, iface: nat, port: nat, len: nat)
    requires Fits(dir) && family != Unspec && 1 <= iface <= MAX_WRAPPED_INTERFACES && port <= 0xFFFF
    requires len >= if family == Inet then SIZEOF_SOCKADDR_IN else SIZEOF_SOCKADDR_IN6
    ensures ConvertUnIn(SunPath(dir, TypeChar(family, stype), iface, port), len) == Ok(Wrapped(family, iface, port))
  {
    hide ScanHex, HexPad, SunPath, AfterLastSlash;
    PathParts(dir, TypeChar(family, stype), iface, port);
  }

  /** Different endpoints have different paths, even on interfaces that cannot be parsed back. */
  lemma PathsDiffer(dir: string, kind: char, iface: nat, port: nat, kind': char, iface': nat, port': nat)
    requires Fits(dir) && kind != '/' && kind' != '/'
    requires iface <= 0xFF && port <= 0xFFFF && iface' <= 0xFF && port' <= 0xFFFF
    requires SunPath(dir, kind, iface, port) == SunPath(dir, kind', iface', port')
    ensures kind == kind' && iface == iface' && port == port'
  {
    hide ScanHex, HexPad, SunPath, AfterLastSlash;
    PathParts(dir, kind, iface, port);
    PathParts(dir, kind', iface', port');
  }
}
