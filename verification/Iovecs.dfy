/** What swrap_sendmsg_before leaves of a stream caller's buffers, and what swrap_sendmsg_after captures. */
module Iovecs {
  import opened Words

  /** The caller's byte stream. */
  function Flat<T>(iov: seq<seq<T>>): seq<T> {
    if iov == [] then [] else Flat(iov[..|iov| - 1]) + iov[|iov| - 1]
  }

  /** How many buffers there are before the first that is longer than the MTU. */
  function Short<T>(iov: seq<seq<T>>, mtu: nat): (n: nat)
    ensures n <= |iov|
  {
    if iov == [] || |iov[0]| > mtu then 0 else 1 + Short(iov[1..], mtu)
  }

  /** The buffers that are handed on. */
  function Kept<T>(iov: seq<seq<T>>, mtu: nat): seq<seq<T>> {
    var n := Short(iov, mtu);
    if n == 0 && iov != [] then [iov[0][..mtu]] else iov[..n]
  }

  lemma {:induction false} ShortIsFirst<T>(iov: seq<seq<T>>, mtu: nat)
    ensures var n := Short(iov, mtu);
            (forall k :: 0 <= k < n ==> |iov[k]| <= mtu) && (n < |iov| ==> |iov[n]| > mtu)
    decreases |iov|
  {
    if iov != [] && |iov[0]| <= mtu {
      ShortIsFirst(iov[1..], mtu);
      var n := Short(iov[1..], mtu);
      forall k | 0 <= k < 1 + n ensures |iov[k]| <= mtu {
        if k > 0 {
          assert iov[k] == iov[1..][k - 1];
        }
      }
      assert 1 + n < |iov| ==> iov[1 + n] == iov[1..][n];
    }
  }

  lemma {:induction false} FlatPrefix<T>(iov: seq<seq<T>>, n: nat)
    requires n <= |iov|
    ensures Flat(iov[..n]) <= Flat(iov)
    decreases |iov|
  {
    if n == |iov| {
      assert iov[..n] == iov;
    } else {
      var front := iov[..|iov| - 1];
      FlatPrefix(front, n);
      assert front[..n] == iov[..n];
    }
  }

  lemma {:induction false} FlatEmpty<T>(iov: seq<seq<T>>)
    ensures Flat(iov) == [] <==> forall k :: 0 <= k < |iov| ==> iov[k] == []
    decreases |iov|
  {
    if iov != [] {
      var front := iov[..|iov| - 1];
      FlatEmpty(front);
      assert forall k :: 0 <= k < |front| ==> front[k] == iov[k];
      if forall k :: 0 <= k < |iov| ==> iov[k] == [] {
        assert forall k :: 0 <= k < |front| ==> front[k] == [];
      }
    }
  }

  lemma FlatOne<T>(piece: seq<T>)
    ensures Flat([piece]) == piece
  {
    assert [piece][..0] == [];
  }

  predicate CutAt<T(==)>(iov: seq<seq<T>>, mtu: nat, k: nat) {
    k < |iov| && |iov[k]| > mtu && (forall j :: 0 <= j < k ==> |iov[j]| <= mtu)
    && Kept(iov, mtu) == if k == 0 then [iov[0][..mtu]] else iov[..k]
  }

  /** What is handed on is a prefix of the caller's stream, in pieces of at most the MTU, and no less of it
      than up to the first longer piece. */
  lemma KeptIsPrefix<T>(iov: seq<seq<T>>, mtu: nat)
    ensures Flat(Kept(iov, mtu)) <= Flat(iov)
    ensures forall k :: 0 <= k < |Kept(iov, mtu)| ==> |Kept(iov, mtu)[k]| <= mtu
    ensures Kept(iov, mtu) == iov || exists k :: CutAt(iov, mtu, k)
  {
    hide Short, Flat;
    var n := Short(iov, mtu);
    ShortIsFirst(iov, mtu);
    if n == 0 && iov != [] {
      FlatPrefix(iov, 1);
      assert iov[..1] == [iov[0]];
      FlatOne(iov[0]);
      FlatOne(iov[0][..mtu]);
      assert CutAt(iov, mtu, 0);
    } else {
      FlatPrefix(iov, n);
      assert n == |iov| ==> iov[..n] == iov;
      assert n < |iov| ==> CutAt(iov, mtu, n);
    }
  }

  /** The first buffer with anything in it, or |iov|. */
  function FirstFull<T>(iov: seq<seq<T>>): (n: nat)
    ensures n <= |iov| && (forall k :: 0 <= k < n ==> iov[k] == []) && (n < |iov| ==> iov[n] != [])
  {
    if iov == [] || iov[0] != [] then 0
    else
      var n := FirstFull(iov[1..]);
      assert forall k :: 0 < k < 1 + n ==> iov[k] == iov[1..][k - 1];
      1 + n
  }

  /** A stream with something in it is trimmed to nothing, so that send() returns 0, exactly when its
      first non-empty buffer is longer than the MTU and does not come first. */
  lemma TrimmedToNothing<T>(iov: seq<seq<T>>, mtu: nat)
    requires Flat(iov) != [] && mtu >= 1
    ensures FirstFull(iov) < |iov|
    ensures Flat(Kept(iov, mtu)) == [] <==> FirstFull(iov) >= 1 && |iov[FirstFull(iov)]| > mtu
  {
    hide Short, Flat, FirstFull;
    var n, full := Short(iov, mtu), FirstFull(iov);
    ShortIsFirst(iov, mtu);
    FlatEmpty(iov);
    FlatEmpty(Kept(iov, mtu));
    if n == 0 {
      assert Kept(iov, mtu)[0] == iov[0][..mtu] != [];
    } else {
      assert forall k :: 0 <= k < n ==> Kept(iov, mtu)[k] == iov[k];
      if |iov[full]| <= mtu {
        assert full < n ==> Kept(iov, mtu)[full] != [];
      }
    }
  }

  /** There is no bound on the total: any number of full pieces is handed on as it is. */
  lemma {:induction false} TotalIsUnbounded<T>(piece: seq<T>, count: nat)
    ensures Kept(seq(count, i => piece), |piece|) == seq(count, i => piece)
    ensures |Flat(seq(count, i => piece))| == count * |piece|
    decreases count
  {
    var iov := seq(count, i => piece);
    ShortIsFirst(iov, |piece|);
    if count > 0 {
      assert iov[..count - 1] == seq(count - 1, i => piece);
      TotalIsUnbounded(piece, count - 1);
      assert (count - 1) * |piece| + |piece| == count * |piece|;
    }
  }

  // ------------------------------------------------------------------ as they are written

  /** The stream case of swrap_sendmsg_before. */
  method Trim<T>(iov: seq<seq<T>>, mtu: nat) returns (kept: seq<seq<T>>)
    ensures kept == Kept(iov, mtu)
  {
    if |iov| == 0 {
      return iov;
    }
    var i, len := 0, 0;
    while i < |iov|
      invariant i <= |iov| && i + Short(iov[i..], mtu) == Short(iov, mtu) && len == 0
    {
      var nlen := len + |iov[i]|;
      if nlen > mtu {
        break;
      }
      assert iov[i..][1..] == iov[i + 1..];
      i := i + 1;
    }
    kept := iov[..i];
    if |kept| == 0 {
      kept := [iov[0][..Min(|iov[0]|, mtu)]];
    }
  }

  function CapturedLength<T>(iov: seq<seq<T>>, ret: int): int {
    if ret == -1 then Min(80, |Flat(iov)|) else ret
  }

  lemma {:induction false} FlatAppend<T>(iov: seq<seq<T>>, i: nat)
    requires i < |iov|
    ensures Flat(iov[..i + 1]) == Flat(iov[..i]) + iov[i]
  {
    assert iov[..i + 1][..i] == iov[..i];
  }

  /** swrap_sendmsg_after, up to the dump: ret is what the system says was sent, -1 for a failure. */
  method Gather<T(0)>(iov: seq<seq<T>>, ret: int) returns (buf: array<T>)
    requires -1 <= ret <= |Flat(iov)|
    ensures fresh(buf) && buf.Length == CapturedLength(iov, ret)
    ensures buf.Length == if ret == -1 then Min(80, |Flat(iov)|) else ret
    ensures buf[..] == Flat(iov)[..CapturedLength(iov, ret)]
  {
    hide Flat;
    var avail, i := 0, 0;
    assert Flat(iov[..0]) == [] by { FlatEmpty(iov[..0]); }
    while i < |iov|
      invariant i <= |iov| && avail == |Flat(iov[..i])|
    {
      FlatAppend(iov, i);
      avail := avail + |iov[i]|;
      i := i + 1;
    }
    assert iov[..i] == iov;
    var remain := if ret == -1 then Min(80, avail) else ret;
    ghost var total := remain;
    buf := new T[remain];
    var ofs := 0;
    i := 0;
    while i < |iov|
      invariant i <= |iov| && 0 <= ofs <= total == buf.Length && remain == total - ofs
      invariant ofs == Min(|Flat(iov[..i])|, total)
      invariant buf[..ofs] == Flat(iov[..i])[..ofs]
    {
      FlatAppend(iov, i);
      var thisTime := Min(remain, |iov[i]|);
      Copy(buf, ofs, iov[i][..thisTime]);
      Extend(Flat(iov[..i]), iov[i], ofs, thisTime, total);
      ofs := ofs + thisTime;
      remain := remain - thisTime;
      i := i + 1;
    }
    assert iov[..i] == iov;
    assert buf[..] == buf[..ofs];
  }

  lemma Extend<T>(a: seq<T>, b: seq<T>, ofs: nat, n: nat, total: nat)
    requires ofs == Min(|a|, total) && n == Min(total - ofs, |b|)
    ensures ofs + n == Min(|a + b|, total)
    ensures a[..ofs] + b[..n] == (a + b)[..ofs + n]
  {
  }

  /** memcpy. */
  method Copy<T>(buf: array<T>, ofs: nat, bytes: seq<T>)
    requires ofs + |bytes| <= buf.Length
    modifies buf
    ensures buf[..ofs + |bytes|] == old(buf[..ofs]) + bytes
  {
    forall k | 0 <= k < |bytes| {
      buf[ofs + k] := bytes[k];
    }
  }

  /** One send() on a stream: what is captured is what the caller's stream starts with, and, unless the send
      fails, as much of it as the system took. */
  lemma CaptureIsWhatWasSent<T>(iov: seq<seq<T>>, mtu: nat, ret: int)
    requires -1 <= ret <= |Flat(Kept(iov, mtu))|
    ensures var n := CapturedLength(Kept(iov, mtu), ret);
            0 <= n <= |Flat(Kept(iov, mtu))| <= |Flat(iov)| && Flat(Kept(iov, mtu))[..n] == Flat(iov)[..n]
            && n == if ret == -1 then Min(80, |Flat(Kept(iov, mtu))|) else ret
  {
    hide Kept, Flat;
    KeptIsPrefix(iov, mtu);
  }

  // ------------------------------------------------------------------ sending a stream bit by bit

  /** One attempt to send: the buffers, and what the system took of them, -1 for a failure. */
  datatype Sent<T> = Sent(iov: seq<seq<T>>, ret: int)

  predicate SentOk<T>(s: Sent<T>, mtu: nat) {
    -1 <= s.ret <= |Flat(Kept(s.iov, mtu))|
  }

  function Taken<T>(s: Sent<T>): (n: nat)
    requires s.ret >= -1
  {
    if s.ret == -1 then 0 else s.ret
  }

  predicate AllOk<T>(sends: seq<Sent<T>>, mtu: nat) {
    forall i :: 0 <= i < |sends| ==> SentOk(sends[i], mtu)
  }

  /** A caller that sends a stream: each attempt hands over some start of what has not been taken yet. */
  ghost predicate Resends<T>(stream: seq<T>, sends: seq<Sent<T>>, mtu: nat)
    decreases |sends|
  {
    sends == []
    || (SentOk(sends[0], mtu) && Flat(sends[0].iov) <= stream && Taken(sends[0]) <= |stream|
        && Resends(stream[Taken(sends[0])..], sends[1..], mtu))
  }

  /** What swrap_sendmsg_after captures of one attempt. */
  function Shown<T>(s: Sent<T>, mtu: nat): (r: seq<T>)
    requires SentOk(s, mtu)
    ensures |r| == CapturedLength(Kept(s.iov, mtu), s.ret)
  {
    Flat(Kept(s.iov, mtu))[..CapturedLength(Kept(s.iov, mtu), s.ret)]
  }

  function Captured<T>(sends: seq<Sent<T>>, mtu: nat): seq<T>
    requires AllOk(sends, mtu)
  {
    if sends == [] then [] else Shown(sends[0], mtu) + Captured(sends[1..], mtu)
  }

  function TotalSent<T>(sends: seq<Sent<T>>): nat
    requires forall i :: 0 <= i < |sends| ==> sends[i].ret >= -1
  {
    if sends == [] then 0 else Taken(sends[0]) + TotalSent(sends[1..])
  }

  /** How much is captured of attempts that fail. */
  function Repeated<T>(sends: seq<Sent<T>>, mtu: nat): nat
    requires AllOk(sends, mtu)
  {
    if sends == [] then 0 else (if sends[0].ret == -1 then |Shown(sends[0], mtu)| else 0) + Repeated(sends[1..], mtu)
  }

  lemma {:induction false} ResendsOk<T>(stream: seq<T>, sends: seq<Sent<T>>, mtu: nat)
    requires Resends(stream, sends, mtu)
    ensures AllOk(sends, mtu) && TotalSent(sends) <= |stream|
    decreases |sends|
  {
    hide SentOk;
    if sends != [] {
      assert SentOk(sends[0], mtu) && sends[0].ret >= -1 by { RetOk(sends[0], mtu); }
      ResendsOk(stream[Taken(sends[0])..], sends[1..], mtu);
      forall i | 0 <= i < |sends| ensures SentOk(sends[i], mtu) && sends[i].ret >= -1 {
        if i > 0 {
          assert sends[i] == sends[1..][i - 1];
        }
        RetOk(sends[i], mtu);
      }
    }
  }

  lemma RetOk<T>(s: Sent<T>, mtu: nat)
    ensures SentOk(s, mtu) ==> s.ret >= -1
  {
  }

  lemma {:induction false} CapturedLengthTotal<T>(sends: seq<Sent<T>>, mtu: nat)
    requires AllOk(sends, mtu)
    ensures |Captured(sends, mtu)| == TotalSent(sends) + Repeated(sends, mtu)
    decreases |sends|
  {
    hide Kept, Flat;
    if sends != [] {
      CapturedLengthTotal(sends[1..], mtu);
    }
  }

  lemma {:induction false} NothingRepeated<T>(sends: seq<Sent<T>>, mtu: nat)
    requires AllOk(sends, mtu)
    ensures Repeated(sends, mtu) == 0 <==>
              forall i :: 0 <= i < |sends| && sends[i].ret == -1 ==> Flat(Kept(sends[i].iov, mtu)) == []
    decreases |sends|
  {
    hide Kept, Flat;
    if sends != [] {
      NothingRepeated(sends[1..], mtu);
      assert forall i :: 0 < i < |sends| ==> sends[i] == sends[1..][i - 1];
      assert sends[0].ret == -1 ==> |Shown(sends[0], mtu)| == Min(80, |Flat(Kept(sends[0].iov, mtu))|);
      if forall i :: 0 <= i < |sends| && sends[i].ret == -1 ==> Flat(Kept(sends[i].iov, mtu)) == [] {
        assert forall i :: 0 <= i < |sends[1..]| ==> sends[1..][i] == sends[i + 1];
      }
    }
  }

  lemma {:induction false} CaptureWithoutRepeats<T>(stream: seq<T>, sends: seq<Sent<T>>, mtu: nat)
    requires Resends(stream, sends, mtu) && AllOk(sends, mtu) && Repeated(sends, mtu) == 0
    ensures TotalSent(sends) <= |stream| && Captured(sends, mtu) == stream[..TotalSent(sends)]
    decreases |sends|
  {
    hide Kept, Flat;
    ResendsOk(stream, sends, mtu);
    if sends != [] {
      var s := sends[0];
      var rest := stream[Taken(s)..];
      CaptureWithoutRepeats(rest, sends[1..], mtu);
      CaptureIsWhatWasSent(s.iov, mtu, s.ret);
      assert Shown(s, mtu) == stream[..Taken(s)];
      assert stream[..Taken(s)] + rest[..TotalSent(sends[1..])] == stream[..TotalSent(sends)];
    }
  }

  /** However the stream is cut up, and whichever attempts fail: the captured payloads joined together are the
      part of it that was sent, if and only if no failed attempt had anything to hand on. */
  lemma CaptureFollowsStream<T>(stream: seq<T>, sends: seq<Sent<T>>, mtu: nat)
    requires Resends(stream, sends, mtu)
    ensures AllOk(sends, mtu) && TotalSent(sends) <= |stream|
    ensures |Captured(sends, mtu)| == TotalSent(sends) + Repeated(sends, mtu)
    ensures Captured(sends, mtu) == stream[..TotalSent(sends)] <==>
              forall i :: 0 <= i < |sends| && sends[i].ret == -1 ==> Flat(Kept(sends[i].iov, mtu)) == []
  {
    hide Kept, Flat, Captured, Repeated;
    ResendsOk(stream, sends, mtu);
    CapturedLengthTotal(sends, mtu);
    NothingRepeated(sends, mtu);
    if Repeated(sends, mtu) == 0 {
      CaptureWithoutRepeats(stream, sends, mtu);
    }
  }

  /** It does come out otherwise: one byte, tried in vain and then sent, is captured twice. */
  lemma FailedSendIsCapturedTwice(b: int)
    ensures var sends := [Sent([[b]], -1), Sent([[b]], 1)];
            Resends([b], sends, 1500) && AllOk(sends, 1500) && TotalSent(sends) == 1 && Captured(sends, 1500) == [b, b]
  {
    FlatOne([b]);
    var failed, sent := Sent([[b]], -1), Sent([[b]], 1);
    assert Kept([[b]], 1500) == [[b]];
    assert Shown(failed, 1500) == [b] == Shown(sent, 1500);
    var sends, last := [failed, sent], [sent];
    assert sends[1..] == last && last[1..] == [] && [b][0..] == [b];
    assert TotalSent(last) == 1 + TotalSent(last[1..]) == 1 && TotalSent(sends) == TotalSent(last);
    assert Captured(last, 1500) == Shown(sent, 1500) + Captured(last[1..], 1500) == [b];
    assert Captured(sends, 1500) == Shown(failed, 1500) + Captured(last, 1500);
  }
}
