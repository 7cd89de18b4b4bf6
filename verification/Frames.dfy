/** Packet frames: 2048-byte chunks of the shared packet memory, named by any address inside them. */
module Frames {
  import opened Words

  const FRAME_SIZE: nat := 2048
  const NUM_FRAMES: nat := 131072
  const NUM_DESCS: nat := 1024
  const BATCH_SIZE: nat := 16

  /** `addr >> FRAME_SHIFT`. */
  function FrameOf(addr: nat): nat {
    addr / FRAME_SIZE
  }

  /** `(id + i) << FRAME_SHIFT`, in 32 bits. */
  function TxAddress(id: u32, i: nat): nat {
    Wrap(Wrap(id + i) * FRAME_SIZE)
  }

  /** What xq_enq_tx_only puts in n slots. */
  function TxAddresses(id: u32, n: nat): (s: seq<nat>)
    ensures |s| == n
  {
    seq(n, (i: nat) => TxAddress(id, i))
  }

  /** How many of these addresses lie in frame f. */
  function Count(s: seq<nat>, f: nat): nat {
    if s == [] then 0 else Count(s[..|s| - 1], f) + (if FrameOf(s[|s| - 1]) == f then 1 else 0)
  }

  lemma CountNone(f: nat)
    ensures Count([], f) == 0
  {
  }

  lemma {:induction false} CountAppend(a: seq<nat>, b: seq<nat>, f: nat)
    ensures Count(a + b, f) == Count(a, f) + Count(b, f)
    decreases |b|
  {
    if b == [] {
      assert a + b == a;
    } else {
      assert (a + b)[..|a + b| - 1] == a + b[..|b| - 1];
      CountAppend(a, b[..|b| - 1], f);
    }
  }

  lemma CountHead(s: seq<nat>, f: nat)
    requires s != []
    ensures Count(s, f) == Count([s[0]], f) + Count(s[1..], f)
  {
    assert s == [s[0]] + s[1..];
    CountAppend([s[0]], s[1..], f);
  }

  lemma CountSame(a: nat, b: nat, f: nat)
    requires FrameOf(a) == FrameOf(b)
    ensures Count([a], f) == Count([b], f)
  {
  }

  /** Removing the i-th address takes away one from its frame. */
  lemma CountRemove(s: seq<nat>, i: nat, f: nat)
    requires i < |s|
    ensures Count(s, f) == Count(s[..i] + s[i + 1..], f) + Count([s[i]], f)
  {
    assert s == s[..i] + ([s[i]] + s[i + 1..]);
    CountAppend(s[..i], [s[i]] + s[i + 1..], f);
    CountAppend([s[i]], s[i + 1..], f);
    CountAppend(s[..i], s[i + 1..], f);
  }

  /** The addresses xsk_configure puts in the fill ring: the start of each of the first n frames. */
  function FrameStarts(n: nat): (s: seq<nat>)
    ensures |s| == n
  {
    seq(n, i => i * FRAME_SIZE)
  }

  lemma {:induction false} CountFrameStarts(n: nat, f: nat)
    ensures Count(FrameStarts(n), f) == if f < n then 1 else 0
  {
    if n > 0 {
      assert FrameStarts(n)[..n - 1] == FrameStarts(n - 1);
      CountFrameStarts(n - 1, f);
    }
  }
}
