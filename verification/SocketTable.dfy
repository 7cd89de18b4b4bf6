/** The table of wrapped sockets: an array from descriptors to entries, reference counts, and a free
    list threaded through the unused entries. Each operation runs as one step. */
module SocketTable {
  import opened Words
  import opened TableSpec

  /** `struct socket_info_container`, without its mutex. */
  datatype Entry<I> = Entry(info: I, refcount: u32, nextFree: int)

  /** How many descriptors map to entry i. */
  function Uses(fds: seq<int>, i: int): nat {
    if fds == [] then 0 else Uses(fds[..|fds| - 1], i) + (if fds[|fds| - 1] == i then 1 else 0)
  }

  lemma {:induction false} UsesUpdate(fds: seq<int>, fd: nat, v: int, i: int)
    requires fd < |fds|
    ensures Uses(fds[fd := v], i)
         == Uses(fds, i) - (if fds[fd] == i then 1 else 0) + (if v == i then 1 else 0)
    decreases |fds|
  {
    if fd == |fds| - 1 {
      assert fds[fd := v][..fd] == fds[..fd];
    } else {
      assert fds[fd := v][..|fds| - 1] == fds[..|fds| - 1][fd := v];
      UsesUpdate(fds[..|fds| - 1], fd, v, i);
    }
  }

  /** A count is positive exactly when some descriptor maps there, and it is at most their number. */
  lemma {:induction false} UsesMeans(fds: seq<int>, i: int)
    ensures Uses(fds, i) > 0 <==> exists fd :: 0 <= fd < |fds| && fds[fd] == i
    ensures Uses(fds, i) <= |fds|
    decreases |fds|
  {
    if fds != [] {
      UsesMeans(fds[..|fds| - 1], i);
    }
  }

  /** The descriptors that map to entry i. */
  function Users(fds: seq<int>, i: int): set<int> {
    set fd | 0 <= fd < |fds| && fds[fd] == i
  }

  /** The count is the number of descriptors, as a set, that map to entry i. */
  lemma {:induction false} UsesIsCardinality(fds: seq<int>, i: int)
    ensures Uses(fds, i) == |Users(fds, i)|
    decreases |fds|
  {
    if fds != [] {
      var n := |fds| - 1;
      UsesIsCardinality(fds[..n], i);
      UsersGrow(fds, i);
    }
  }

  lemma UsersGrow(fds: seq<int>, i: int)
    requires fds != []
    ensures |Users(fds, i)| == |Users(fds[..|fds| - 1], i)| + if fds[|fds| - 1] == i then 1 else 0
  {
    var n := |fds| - 1;
    var front := Users(fds[..n], i);
    assert Users(fds, i) == if fds[n] == i then front + {n} else front;
  }

  predicate Free<I>(e: Entry<I>) {
    e.refcount == 0
  }

  /** The k-th entry of the list, or the end mark. */
  function Link(chain: seq<nat>, k: nat): int {
    if k < |chain| then chain[k] else -1
  }

  /** The listed entries are unreferenced ones ... */
  predicate OnList<I>(sockets: seq<Entry<I>>, chain: seq<nat>) {
    forall k :: 0 <= k < |chain| ==> chain[k] < |sockets| && Free(sockets[chain[k]])
  }

  /** ... each listed once ... */
  predicate Distinct(chain: seq<nat>) {
    forall j, k :: 0 <= j < k < |chain| ==> chain[j] != chain[k]
  }

  /** ... and all of them are. */
  predicate Covered<I>(sockets: seq<Entry<I>>, chain: seq<nat>) {
    forall i :: 0 <= i < |sockets| && Free(sockets[i]) ==> i in chain
  }

  predicate Linked<I>(sockets: seq<Entry<I>>, chain: seq<nat>, k: nat) {
    k < |chain| && chain[k] < |sockets| && sockets[chain[k]].nextFree == Link(chain, k + 1)
  }

  predicate Chained<I>(sockets: seq<Entry<I>>, chain: seq<nat>) {
    forall k :: 0 <= k < |chain| ==> Linked(sockets, chain, k)
  }

  /** The free list: from first along nextFree, ending in -1, through each unreferenced entry once. */
  ghost predicate ListOk<I>(sockets: seq<Entry<I>>, first: int, chain: seq<nat>) {
    OnList(sockets, chain) && Distinct(chain) && Covered(sockets, chain)
    && first == Link(chain, 0) && Chained(sockets, chain)
  }

  /** Each count is the number of descriptors mapped to the entry, plus one for the entry an operation
      in progress is holding on to (-1: none). */
  ghost predicate CountsOk<I>(fds: seq<int>, sockets: seq<Entry<I>>, held: int) {
    (forall fd :: 0 <= fd < |fds| ==> -1 <= fds[fd] < |sockets|)
    && (forall i :: 0 <= i < |sockets| ==> sockets[i].refcount == Uses(fds, i) + (if i == held then 1 else 0))
  }

  /** Taking the first entry off the free list. */
  lemma TakeFirst<I>(sockets: seq<Entry<I>>, first: int, chain: seq<nat>, info: I)
    requires ListOk(sockets, first, chain) && first != -1
    ensures 0 <= first < |sockets| && Free(sockets[first]) && chain != []
    ensures ListOk(sockets[first := Entry(info, 1, sockets[first].nextFree)], sockets[first].nextFree, chain[1..])
  {
    hide Distinct, Covered, Chained;
    assert Linked(sockets, chain, 0) by { FirstLinked(sockets, chain); }
    var sockets' := sockets[first := Entry(info, 1, sockets[first].nextFree)];
    DistinctRest(chain);
    CoveredRest(sockets, chain, sockets');
    ChainedRest(sockets, chain, sockets');
    assert forall k :: 0 <= k < |chain[1..]| ==> chain[1..][k] == chain[k + 1] != first;
  }

  lemma FirstLinked<I>(sockets: seq<Entry<I>>, chain: seq<nat>)
    requires chain != [] && Chained(sockets, chain)
    ensures Linked(sockets, chain, 0)
  {
  }

  lemma DistinctRest(chain: seq<nat>)
    requires Distinct(chain) && chain != []
    ensures Distinct(chain[1..]) && forall k :: 0 < k < |chain| ==> chain[k] != chain[0]
  {
  }

  lemma CoveredRest<I>(sockets: seq<Entry<I>>, chain: seq<nat>, sockets': seq<Entry<I>>)
    requires Covered(sockets, chain) && chain != [] && chain[0] < |sockets'| == |sockets| && !Free(sockets'[chain[0]])
    requires forall i :: 0 <= i < |sockets| && i != chain[0] ==> sockets'[i] == sockets[i]
    ensures Covered(sockets', chain[1..])
  {
    forall i | 0 <= i < |sockets'| && Free(sockets'[i]) ensures i in chain[1..] {
      assert i in chain;
    }
  }

  lemma ChainedRest<I>(sockets: seq<Entry<I>>, chain: seq<nat>, sockets': seq<Entry<I>>)
    requires Chained(sockets, chain) && Distinct(chain) && chain != [] && |sockets'| == |sockets|
    requires forall i :: 0 <= i < |sockets| && i != chain[0] ==> sockets'[i] == sockets[i]
    ensures Chained(sockets', chain[1..])
  {
    hide Distinct;
    DistinctRest(chain);
    forall k | 0 <= k < |chain[1..]| ensures Linked(sockets', chain[1..], k) {
      assert Linked(sockets, chain, k + 1);
      assert chain[1..][k] == chain[k + 1] != chain[0];
    }
  }

  /** Putting an entry nobody refers to any more back in front of the list. */
  lemma PutFirst<I>(sockets: seq<Entry<I>>, first: int, chain: seq<nat>, i: nat)
    requires ListOk(sockets, first, chain) && i < |sockets| && !Free(sockets[i])
    ensures ListOk(sockets[i := sockets[i].(refcount := 0, nextFree := first)], i, [i] + chain)
  {
    hide Distinct, Covered, Chained;
    var sockets' := sockets[i := sockets[i].(refcount := 0, nextFree := first)];
    assert i !in chain;
    PutDistinct(chain, i);
    PutCovered(sockets, chain, sockets', i);
    PutChained(sockets, chain, sockets', i);
  }

  lemma PutDistinct(chain: seq<nat>, i: nat)
    requires Distinct(chain) && i !in chain
    ensures Distinct([i] + chain)
  {
    var chain' := [i] + chain;
    forall j, k | 0 <= j < k < |chain'| ensures chain'[j] != chain'[k] {
      assert chain'[k] == chain[k - 1];
      assert j > 0 ==> chain'[j] == chain[j - 1];
    }
  }

  lemma PutCovered<I>(sockets: seq<Entry<I>>, chain: seq<nat>, sockets': seq<Entry<I>>, i: nat)
    requires Covered(sockets, chain) && |sockets'| == |sockets|
    requires forall j :: 0 <= j < |sockets| && j != i ==> sockets'[j] == sockets[j]
    ensures Covered(sockets', [i] + chain)
  {
    forall j | 0 <= j < |sockets'| && Free(sockets'[j]) ensures j in [i] + chain {
      assert j == i || j in chain;
    }
  }

  lemma PutChained<I>(sockets: seq<Entry<I>>, chain: seq<nat>, sockets': seq<Entry<I>>, i: nat)
    requires Chained(sockets, chain) && i !in chain && i < |sockets'| == |sockets|
    requires sockets'[i].nextFree == Link(chain, 0)
    requires forall j :: 0 <= j < |sockets| && j != i ==> sockets'[j] == sockets[j]
    ensures Chained(sockets', [i] + chain)
  {
    var chain' := [i] + chain;
    forall k | 0 <= k < |chain'| ensures Linked(sockets', chain', k) {
      if k > 0 {
        assert Linked(sockets, chain, k - 1);
        assert chain'[k] == chain[k - 1];
      }
    }
  }

  /** The entries in use are no business of the list. */
  lemma ListStays<I>(sockets: seq<Entry<I>>, first: int, chain: seq<nat>, i: nat, e: Entry<I>)
    requires ListOk(sockets, first, chain) && i < |sockets| && !Free(sockets[i]) && !Free(e)
    ensures ListOk(sockets[i := e], first, chain)
  {
    hide Distinct;
    forall k | 0 <= k < |chain| ensures chain[k] != i && Linked(sockets[i := e], chain, k) {
      assert Linked(sockets, chain, k);
    }
  }

  lemma Allocate<I>(fds: seq<int>, sockets: seq<Entry<I>>, i: nat, e: Entry<I>)
    requires CountsOk(fds, sockets, -1) && i < |sockets| && Free(sockets[i]) && e.refcount == 1
    ensures CountsOk(fds, sockets[i := e], i)
    ensures forall fd :: 0 <= fd < |fds| ==> fds[fd] != i
  {
    UsesMeans(fds, i);
  }

  lemma MapTo<I>(fds: seq<int>, sockets: seq<Entry<I>>, fd: nat, i: nat)
    requires CountsOk(fds, sockets, i) && fd < |fds| && fds[fd] == -1 && i < |sockets|
    ensures CountsOk(fds[fd := i], sockets, -1)
  {
    forall j | 0 <= j < |sockets| ensures sockets[j].refcount == Uses(fds[fd := i], j) {
      UsesUpdate(fds, fd, i, j);
    }
  }

  /** Mapping a descriptor that is mapped elsewhere leaves the other entry counted once too often. */
  lemma OverwriteLeaks<I>(fds: seq<int>, sockets: seq<Entry<I>>, fd: nat, i: nat)
    requires CountsOk(fds, sockets, i) && fd < |fds| && fds[fd] != -1 && fds[fd] != i && i < |sockets|
    ensures sockets[fds[fd]].refcount == Uses(fds[fd := i], fds[fd]) + 1
    ensures !CountsOk(fds[fd := i], sockets, -1)
  {
    UsesUpdate(fds, fd, i, fds[fd]);
  }

  /** An unreferenced entry is no descriptor's. */
  /** The objects are the entries that are not free. */
  lemma InUse<I>(fds: seq<int>, sockets: seq<Entry<I>>)
    requires CountsOk(fds, sockets, -1)
    ensures forall i :: 0 <= i < |sockets| ==> (i in Meaning(fds, sockets).objects <==> !Free(sockets[i]))
  {
    hide Uses;
    forall i | 0 <= i < |sockets| ensures i in Meaning(fds, sockets).objects <==> !Free(sockets[i]) {
      UsesMeans(fds, i);
      var open := Meaning(fds, sockets).open;
      if fd :| 0 <= fd < |fds| && fds[fd] == i {
        assert open[fd as nat] == i;
      }
    }
  }

  lemma UsesMeansAll<I>(fds: seq<int>, sockets: seq<Entry<I>>)
    requires CountsOk(fds, sockets, -1)
    ensures forall fd :: 0 <= fd < |fds| && fds[fd] != -1 ==> !Free(sockets[fds[fd]])
  {
    forall fd | 0 <= fd < |fds| && fds[fd] != -1 ensures !Free(sockets[fds[fd]]) {
      UsesMeans(fds, fds[fd]);
    }
  }

  lemma Unmap<I>(fds: seq<int>, sockets: seq<Entry<I>>, held: int, fd: nat, e: Entry<I>)
    requires CountsOk(fds, sockets, held) && fd < |fds| && fds[fd] != -1
    requires e.refcount == sockets[fds[fd]].refcount - 1
    ensures sockets[fds[fd]].refcount > if fds[fd] == held then 1 else 0
    ensures CountsOk(fds[fd := -1], sockets[fds[fd] := e], held)
  {
    UsesMeans(fds, fds[fd]);
    var fds', sockets' := fds[fd := -1], sockets[fds[fd] := e];
    forall j | 0 <= j < |sockets'| ensures sockets'[j].refcount == Uses(fds', j) + (if j == held then 1 else 0) {
      UsesUpdate(fds, fd, -1, j);
    }
  }

  // ------------------------------------------------------------------ what the table stands for

  /** The descriptors that are wrapped, and the objects they refer to. */
  function Meaning<I>(fds: seq<int>, sockets: seq<Entry<I>>): World<I> {
    var open := map fd: nat | fd < |fds| && 0 <= fds[fd] :: fds[fd] as nat;
    World(open, map o | o in open.Values && o < |sockets| :: sockets[o].info)
  }

  lemma MeaningOk<I>(fds: seq<int>, sockets: seq<Entry<I>>, held: int)
    requires CountsOk(fds, sockets, held)
    ensures WorldOk(Meaning(fds, sockets))
    ensures forall fd: nat :: fd < |fds| ==> (fd in Meaning(fds, sockets).open <==> fds[fd] != -1)
  {
  }

  lemma MeaningUnmapped<I>(fds: seq<int>, sockets: seq<Entry<I>>, fd: nat, e: Entry<I>)
    requires fd < |fds| && 0 <= fds[fd] < |sockets| && e.info == sockets[fds[fd]].info
    requires forall f :: 0 <= f < |fds| ==> -1 <= fds[f] < |sockets|
    ensures Meaning(fds[fd := -1], sockets[fds[fd] := e]) == Closed(Meaning(fds, sockets), fd)
  {
    var w, w' := Meaning(fds, sockets), Meaning(fds[fd := -1], sockets[fds[fd] := e]);
    assert w'.open == w.open - {fd};
    forall o | o in w'.open.Values ensures o in w.open.Values {
      var f :| f in w'.open && w'.open[f] == o;
      assert w.open[f] == o;
    }
  }

  lemma MeaningMapped<I>(fds: seq<int>, sockets: seq<Entry<I>>, fd: nat, i: nat)
    requires fd < |fds| && i < |sockets|
    requires forall f :: 0 <= f < |fds| ==> -1 <= fds[f] < |sockets|
    ensures var w, w' := Meaning(fds, sockets), Meaning(fds[fd := i], sockets);
            w'.open == w.open[fd := i]
            && w'.objects == Referenced(w'.open, w.objects[i := sockets[i].info])
  {
    var w, w' := Meaning(fds, sockets), Meaning(fds[fd := i], sockets);
    forall o | o in w'.open.Values ensures o == i || o in w.open.Values {
      var f :| f in w'.open && w'.open[f] == o;
      if f != fd { assert w.open[f] == o; }
    }
  }

  /** Mapping an unmapped descriptor to an entry just handed out. */
  lemma MapFresh<I>(fds: seq<int>, sockets: seq<Entry<I>>, fd: nat, i: nat)
    requires CountsOk(fds, sockets, i) && fd < |fds| && fds[fd] == -1 && i < |sockets|
    requires forall f :: 0 <= f < |fds| ==> fds[f] != i
    ensures CountsOk(fds[fd := i], sockets, -1)
    ensures fd !in Meaning(fds, sockets).open && i !in Meaning(fds, sockets).objects
    ensures Meaning(fds[fd := i], sockets) == Created(Meaning(fds, sockets), fd, i, sockets[i].info)
  {
    hide Uses;
    MapTo(fds, sockets, fd, i);
    MeaningMapped(fds, sockets, fd, i);
  }

  lemma MeaningUpdated<I>(fds: seq<int>, sockets: seq<Entry<I>>, fd: nat, e: Entry<I>)
    requires fd < |fds| && 0 <= fds[fd] < |sockets|
    ensures fd in Meaning(fds, sockets).open
    ensures Meaning(fds, sockets[fds[fd] := e]) == Updated(Meaning(fds, sockets), fd, e.info)
  {
    MeaningAt(fds, sockets, fd);
  }

  /** Entries no descriptor maps to do not matter. */
  lemma MeaningIgnores<I>(fds: seq<int>, sockets: seq<Entry<I>>, i: nat, e: Entry<I>)
    requires i < |sockets| && (e.info == sockets[i].info || forall fd :: 0 <= fd < |fds| ==> fds[fd] != i)
    ensures Meaning(fds, sockets[i := e]) == Meaning(fds, sockets)
  {
    var w := Meaning(fds, sockets);
    forall o | o in w.open.Values && o < |sockets| ensures sockets[i := e][o].info == sockets[o].info {
    }
  }

  // ------------------------------------------------------------------ the free list as a list

  /** Where n steps along nextFree lead. */
  function Walk<I>(sockets: seq<Entry<I>>, i: int, n: nat): int
    decreases n
  {
    if n == 0 || i < 0 || i >= |sockets| then i else Walk(sockets, sockets[i].nextFree, n - 1)
  }

  lemma {:induction false} WalkFollows<I>(sockets: seq<Entry<I>>, first: int, chain: seq<nat>, k: nat, n: nat)
    requires ListOk(sockets, first, chain) && k + n <= |chain|
    ensures Walk(sockets, Link(chain, k), n) == Link(chain, k + n)
    decreases n
  {
    if n > 0 {
      assert Linked(sockets, chain, k);
      WalkFollows(sockets, first, chain, k + 1, n - 1);
    }
  }

  lemma {:induction false} DistinctIsShort(chain: seq<nat>, bound: nat)
    requires Distinct(chain) && forall k :: 0 <= k < |chain| ==> chain[k] < bound
    ensures |chain| <= bound
    decreases bound
  {
    assert chain == [] || chain[0] < bound;
    if bound == 0 {
    } else if bound - 1 in chain {
      var k :| 0 <= k < |chain| && chain[k] == bound - 1;
      var rest := chain[..k] + chain[k + 1..];
      forall j | 0 <= j < |rest| ensures rest[j] == chain[if j < k then j else j + 1] < bound - 1 {}
      DistinctIsShort(rest, bound - 1);
    } else {
      forall k | 0 <= k < |chain| ensures chain[k] < bound - 1 {
        assert chain[k] in chain;
      }
      DistinctIsShort(chain, bound - 1);
    }
  }

  /** Entry i is met within the first len steps. */
  ghost predicate Met<I>(sockets: seq<Entry<I>>, first: int, len: nat, i: int) {
    exists n :: 0 <= n < len && Walk(sockets, first, n) == i
  }

  /** Following nextFree from the head ends, at -1, after at most as many steps as there are entries, and
      on the way meets exactly the entries with reference count 0. */
  lemma FreeListEnds<I>(sockets: seq<Entry<I>>, first: int, chain: seq<nat>)
    requires ListOk(sockets, first, chain)
    ensures |chain| <= |sockets| && Walk(sockets, first, |chain|) == -1
    ensures forall i :: 0 <= i < |sockets| ==> (Free(sockets[i]) <==> Met(sockets, first, |chain|, i))
  {
    hide Walk;
    DistinctIsShort(chain, |sockets|);
    forall n | 0 <= n <= |chain|
      ensures Walk(sockets, first, n) == Link(chain, n)
      ensures n < |chain| ==> Link(chain, n) == chain[n] < |sockets| && Free(sockets[chain[n]])
    {
      WalkFollows(sockets, first, chain, 0, n);
    }
    forall i | 0 <= i < |sockets|
      ensures Free(sockets[i]) <==> Met(sockets, first, |chain|, i)
    {
      if Free(sockets[i]) {
        var n :| 0 <= n < |chain| && chain[n] == i;
        assert Walk(sockets, first, n) == i;
      }
    }
  }

  // ------------------------------------------------------------------ the operations

  const MAX_SOCKETS: nat := 262140

  class Table<I(0,!new)> {
    const fdsIdx: array<int>
    const sockets: array<Entry<I>>
    var firstFree: int
    /** The entries on the free list, in order. */
    ghost var chain: seq<nat>
    /** Everything that ever happened to the table. */
    ghost var events: seq<Event<I>>

    ghost function World(): World<I>
      reads this, fdsIdx, sockets
    {
      Meaning(fdsIdx[..], sockets[..])
    }

    /** held is the entry whose count an operation in progress has already raised, or -1. */
    ghost predicate Valid(held: int)
      reads this, fdsIdx, sockets
    {
      0 < sockets.Length <= MAX_SOCKETS && fdsIdx.Length <= MAX_SOCKETS
      && CountsOk(fdsIdx[..], sockets[..], held)
      && ListOk(sockets[..], firstFree, chain)
      && PossibleRun(NoSockets(), events) && Outcome(NoSockets(), events) == World()
    }

    /** socket_wrapper_init_sockets. */
    constructor (maxSockets: nat, maxFds: nat, blank: I)
      requires 0 < maxSockets <= MAX_SOCKETS && maxFds <= MAX_SOCKETS
      ensures Valid(-1) && World() == NoSockets() && fresh(fdsIdx) && fresh(sockets)
      ensures fdsIdx.Length == maxFds && sockets.Length == maxSockets
    {
      fdsIdx := new int[maxFds](_ => -1);
      sockets := new Entry<I>[maxSockets](i => Entry(blank, 0, i + 1));
      firstFree := 0;
      chain := seq(maxSockets, i => i);
      events := [];
      new;
      hide ListOk, CountsOk, Meaning, Uses;
      // the end of the free list
      sockets[maxSockets - 1] := sockets[maxSockets - 1].(nextFree := -1);
      NothingYet(fdsIdx[..], sockets[..], chain);
    }

    /** find_socket_info_index. */
    function FindIndex(fd: int): int
      reads this, fdsIdx
    {
      if 0 <= fd < fdsIdx.Length then fdsIdx[fd] else -1
    }

    /** swrap_add_socket_info: fails with ENFILE only when no entry is unused. */
    method AddSocketInfo(info: I) returns (idx: int)
      requires Valid(-1)
      modifies this`firstFree, this`chain, sockets
      ensures idx == old(firstFree)
      ensures idx == -1 ==> Valid(-1) && forall i :: 0 <= i < sockets.Length ==> !Free(sockets[i])
      ensures idx != -1 ==> 0 <= idx < sockets.Length && Valid(idx) && old(Free(sockets[idx]))
      ensures idx != -1 ==> 0 <= idx < sockets.Length && sockets[idx].info == info
      ensures World() == old(World())
    {
      hide ListOk, CountsOk, Meaning, Uses;
      if firstFree == -1 {
        NoneFree(sockets[..], chain);
        return -1;
      }
      idx := firstFree;
      TakeFirst(sockets[..], firstFree, chain, info);
      ghost var e := Entry(info, 1, sockets[idx].nextFree);
      Allocate(fdsIdx[..], sockets[..], idx, e);
      MeaningIgnores(fdsIdx[..], sockets[..], idx, e);
      chain := chain[1..];
      firstFree := sockets[idx].nextFree;
      sockets[idx] := sockets[idx].(info := info);
      sockets[idx] := sockets[idx].(refcount := Plus(sockets[idx].refcount, 1));
      assert sockets[..] == old(sockets[..])[idx := e];
    }

    /** swrap_create_socket. If the descriptor is wrapped already, its mapping is overwritten: the counts are
        right afterwards exactly if it was not. */
    method CreateSocket(info: I, fd: nat) returns (idx: int)
      requires Valid(-1)
      modifies this`firstFree, this`chain, this`events, sockets, fdsIdx
      ensures idx == -1 <==> fd >= fdsIdx.Length || forall i :: 0 <= i < sockets.Length ==> !old(Free(sockets[i]))
      ensures idx == -1 ==> Valid(-1) && World() == old(World()) && events == old(events)
      ensures idx != -1 ==> FindIndex(fd) == idx
      ensures idx != -1 ==> (CountsOk(fdsIdx[..], sockets[..], -1) <==> old(FindIndex(fd)) == -1)
      ensures idx != -1 && old(FindIndex(fd)) == -1 ==> Valid(-1)
      ensures idx != -1 && old(FindIndex(fd)) == -1 ==> 0 <= idx && World() == Created(old(World()), fd, idx, info)
      ensures idx != -1 && old(FindIndex(fd)) == -1 ==> 0 <= idx && events == old(events) + [Create(fd, idx, info)]
    {
      hide ListOk, Meaning, Uses;
      if fd >= fdsIdx.Length {
        return -1;
      }
      UsesMeansAll(fdsIdx[..], sockets[..]);
      idx := AddSocketInfo(info);
      if idx == -1 {
        return;
      }
      if fdsIdx[fd] == -1 {
        MapFresh(fdsIdx[..], sockets[..], fd, idx);
        fdsIdx[fd] := idx;
        events := events + [Create(fd, idx, info)];
      } else {
        OverwriteLeaks(fdsIdx[..], sockets[..], fd, idx);
        fdsIdx[fd] := idx;
      }
    }

    /** What any call does that changes a wrapped socket's data. */
    method UpdateInfo(fd: int, info: I)
      requires Valid(-1) && FindIndex(fd) != -1
      modifies this`events, sockets
      ensures Valid(-1) && fd >= 0 && fd in old(World()).open && World() == Updated(old(World()), fd, info)
      ensures events == old(events) + [Update(fd, info)]
    {
      hide ListOk, CountsOk, Meaning, Uses;
      var idx := FindIndex(fd);
      InRange(fdsIdx[..], sockets[..], -1);
      MeaningAt(fdsIdx[..], sockets[..], fd);
      ghost var e := sockets[idx].(info := info);
      ListStays(sockets[..], firstFree, chain, idx, e);
      LinkDoesNotCount(fdsIdx[..], sockets[..], -1, idx, e);
      MeaningUpdated(fdsIdx[..], sockets[..], fd, e);
      sockets[idx] := sockets[idx].(info := info);
      assert sockets[..] == old(sockets[..])[idx := e];
      events := events + [Update(fd, info)];
    }

    /** swrap_remove_stale, and what swrap_close does to the table. last tells whether the object ended,
        which is when its socket file is unlinked. */
    method RemoveStale(fd: int, ghost held: int) returns (last: bool)
      requires Valid(held)
      modifies this`firstFree, this`chain, this`events, sockets, fdsIdx
      ensures Valid(held) && FindIndex(fd) == -1
      ensures old(FindIndex(fd)) == -1 ==> !last && World() == old(World()) && events == old(events)
      ensures old(FindIndex(fd)) != -1 ==> fd >= 0 && World() == Closed(old(World()), fd)
      ensures old(FindIndex(fd)) != -1 ==> fd >= 0 && events == old(events) + [Close(fd)]
      ensures last <==> old(FindIndex(fd)) != -1 && Free(sockets[old(FindIndex(fd))])
      ensures held != -1 && old(FindIndex(fd)) == held ==> !last
      ensures firstFree == if last then old(FindIndex(fd)) else old(firstFree)
      ensures forall f :: 0 <= f < fdsIdx.Length && f != fd ==> fdsIdx[f] == old(fdsIdx[f])
    {
      hide ListOk, CountsOk, Meaning, Uses;
      var idx := FindIndex(fd);
      if idx == -1 {
        return false;
      }
      InRange(fdsIdx[..], sockets[..], held);
      ghost var e := sockets[idx].(refcount := Minus(sockets[idx].refcount, 1));
      Unmap(fdsIdx[..], sockets[..], held, fd, e);
      MeaningUnmapped(fdsIdx[..], sockets[..], fd, e);
      ghost var fds', sockets' := fdsIdx[..][fd := -1], sockets[..][idx := e];
      fdsIdx[fd] := -1;
      sockets[idx] := sockets[idx].(refcount := Minus(sockets[idx].refcount, 1));
      last := sockets[idx].refcount == 0;
      if last {
        PutFirst(old(sockets[..]), firstFree, chain, idx);
        LinkDoesNotCount(fds', sockets', held, idx, e.(nextFree := firstFree));
        MeaningIgnores(fds', sockets', idx, e.(nextFree := firstFree));
        sockets[idx] := sockets[idx].(nextFree := firstFree);
        firstFree := idx;
        chain := [idx] + chain;
        assert sockets[..] == sockets'[idx := e.(nextFree := old(firstFree))];
        ghost var e' := old(sockets[..])[idx].(refcount := 0, nextFree := old(firstFree));
        assert sockets[..] == old(sockets[..])[idx := e'];
      } else {
        ListStays(old(sockets[..]), firstFree, chain, idx, e);
        assert sockets[..] == sockets';
      }
      events := events + [Close(fd)];
    }

    /** swrap_close, with what libc_close returned: the table changes whatever that is. */
    method CloseFd(fd: int, libc: int) returns (ret: int, last: bool)
      requires Valid(-1)
      modifies this`firstFree, this`chain, this`events, sockets, fdsIdx
      ensures Valid(-1) && ret == libc
      ensures old(FindIndex(fd)) == -1 ==> !last && World() == old(World()) && events == old(events)
      ensures old(FindIndex(fd)) != -1 ==> fd >= 0 && World() == Closed(old(World()), fd)
      ensures old(FindIndex(fd)) != -1 ==> fd >= 0 && events == old(events) + [Close(fd)]
      ensures last <==> old(FindIndex(fd)) != -1 && Free(sockets[old(FindIndex(fd))])
      ensures FindIndex(fd) == -1 && forall f :: 0 <= f < fdsIdx.Length && f != fd ==> fdsIdx[f] == old(fdsIdx[f])
      ensures firstFree == if last then old(FindIndex(fd)) else old(firstFree)
    {
      last := RemoveStale(fd, -1);
      ret := libc;
    }

    /** swrap_inc_refcount, on an entry in use: the caller now holds on to it. */
    method IncRefcount(idx: int, ghost fd: int)
      requires Valid(-1) && 0 <= fd < fdsIdx.Length && idx == fdsIdx[fd] != -1
      modifies sockets
      ensures Valid(idx) && World() == old(World())
    {
      hide ListOk, CountsOk, Meaning, Uses;
      InRange(fdsIdx[..], sockets[..], -1);
      ghost var e := sockets[idx].(refcount := Plus(sockets[idx].refcount, 1));
      Hold(fdsIdx[..], sockets[..], idx, e);
      ListStays(sockets[..], firstFree, chain, idx, e);
      MeaningIgnores(fdsIdx[..], sockets[..], idx, e);
      sockets[idx] := sockets[idx].(refcount := Plus(sockets[idx].refcount, 1));
      assert sockets[..] == old(sockets[..])[idx := e];
    }

    /** set_socket_info_index, giving a held entry to a descriptor that is not wrapped. */
    method GiveHeld(fd: int, idx: int, newfd: nat)
      requires Valid(idx) && 0 <= fd < fdsIdx.Length && idx == fdsIdx[fd] != -1
      requires newfd < fdsIdx.Length && fdsIdx[newfd] == -1
      modifies this`events, fdsIdx
      ensures Valid(-1) && fd in old(World()).open && World() == Shared(old(World()), fd, newfd)
      ensures events == old(events) + [Share(fd, newfd)]
    {
      hide ListOk, CountsOk, Meaning, Uses;
      InRange(fdsIdx[..], sockets[..], idx);
      MeaningAt(fdsIdx[..], sockets[..], fd);
      MapTo(fdsIdx[..], sockets[..], newfd, idx);
      MeaningMapped(fdsIdx[..], sockets[..], newfd, idx);
      assert World().objects[idx as nat := sockets[idx].info] == World().objects;
      fdsIdx[newfd] := idx;
      events := events + [Share(fd, newfd)];
    }

    /** The common tail of swrap_dup, swrap_dup2 and F_DUPFD: raise the count, drop a stale mapping of the
        new descriptor, map it. */
    method MapDuplicate(fd: int, idx: int, newfd: nat)
      requires Valid(-1) && 0 <= fd < fdsIdx.Length && idx == fdsIdx[fd] != -1
      requires newfd < fdsIdx.Length && newfd != fd
      modifies this`firstFree, this`chain, this`events, sockets, fdsIdx
      ensures Valid(-1) && fd in old(World()).open && World() == Shared(old(World()), fd, newfd)
      ensures events == old(events) + (if old(FindIndex(newfd)) == -1 then [] else [Close(newfd)]) + [Share(fd, newfd)]
    {
      hide ListOk, CountsOk, Meaning, Uses;
      ghost var w := World();
      MeaningOk(fdsIdx[..], sockets[..], -1);
      SharedOverClosed(w, fd, newfd);
      IncRefcount(idx, fd);
      var last := RemoveStale(newfd, idx);
      GiveHeld(fd, idx, newfd);
    }

    /** swrap_dup and fcntl(F_DUPFD), with the new descriptor libc returned, or -1. A descriptor libc
        returns is not the one it was given, and the code relies on it being within the table. */
    method Dup(fd: int, libc: int) returns (ret: int)
      requires Valid(-1) && -1 <= libc < fdsIdx.Length && libc != fd
      modifies this`firstFree, this`chain, this`events, sockets, fdsIdx
      ensures Valid(-1) && ret == libc
      ensures old(FindIndex(fd)) == -1 || libc == -1 ==> World() == old(World())
      ensures old(FindIndex(fd)) != -1 && libc != -1 ==>
        fd >= 0 && fd in old(World()).open && World() == Shared(old(World()), fd, libc)
    {
      var idx := FindIndex(fd);
      if idx == -1 {
        return libc;
      }
      InRange(fdsIdx[..], sockets[..], -1);
      MeaningAt(fdsIdx[..], sockets[..], fd);
      if libc == -1 {
        return -1;
      }
      MapDuplicate(fd, idx, libc);
      return libc;
    }

    /** swrap_dup2, with what libc_dup2 returns: newfd or -1. The descriptor to be replaced is closed
        first, and stays closed when libc_dup2 then fails. */
    method Dup2(fd: int, newfd: int, libc: int) returns (ret: int)
      requires Valid(-1) && (libc == -1 || libc == newfd) && -1 <= libc < fdsIdx.Length
      modifies this`firstFree, this`chain, this`events, sockets, fdsIdx
      ensures Valid(-1)
      ensures ret == if old(FindIndex(fd)) != -1 && fd == newfd then newfd else libc
      ensures old(FindIndex(fd)) != -1 ==> fd >= 0 && fd in old(World()).open
      ensures old(FindIndex(fd)) == -1 || fd == newfd ==> World() == old(World())
      ensures old(FindIndex(fd)) != -1 && fd != newfd && libc != -1 ==>
        fd >= 0 && fd in old(World()).open && newfd >= 0 && World() == Shared(old(World()), fd, newfd)
      ensures old(FindIndex(fd)) != -1 && fd != newfd && libc == -1 ==>
        World() == if newfd >= 0 then Closed(old(World()), newfd) else old(World())
    {
      var idx := FindIndex(fd);
      if idx == -1 {
        return libc;
      }
      InRange(fdsIdx[..], sockets[..], -1);
      MeaningAt(fdsIdx[..], sockets[..], fd);
      MeaningOk(fdsIdx[..], sockets[..], -1);
      if fd == newfd {
        return newfd;
      }
      if newfd >= 0 { SharedOverClosed(World(), fd, newfd); }
      if FindIndex(newfd) != -1 {
        var r, last := CloseFd(newfd, 0);
      }
      if libc == -1 {
        return -1;
      }
      MapDuplicate(fd, idx, libc);
      return libc;
    }

    /** What swrap_socket does to the table once libc_socket has returned fd. */
    method Socket(fd: nat, info: I) returns (idx: int)
      requires Valid(-1)
      modifies this`firstFree, this`chain, this`events, sockets, fdsIdx
      ensures Valid(-1)
      ensures idx == -1 <==> fd >= fdsIdx.Length
                             || forall i :: 0 <= i < sockets.Length ==> i in Closed(old(World()), fd).objects
      ensures idx != -1 ==> 0 <= idx && idx !in Closed(old(World()), fd).objects
      ensures World() == if idx < 0 then Closed(old(World()), fd) else Created(Closed(old(World()), fd), fd, idx, info)
    {
      hide ListOk, CountsOk, Uses, Closed;
      MeaningOk(fdsIdx[..], sockets[..], -1);
      CloseNone(World(), fd);
      var last := RemoveStale(fd, -1);
      ghost var w := World();
      ghost var es := events;
      InUse(fdsIdx[..], sockets[..]);
      idx := CreateSocket(info, fd);
      if idx != -1 { LastWasPossible(es, Create(fd, idx, info)); }
    }

    /** swrap_destructor, up to freeing the arrays: every entry ends up on the free list. */
    method Destroy()
      requires Valid(-1)
      modifies this`firstFree, this`chain, this`events, sockets, fdsIdx
      ensures Valid(-1) && World().open == map[]
      ensures forall i :: 0 <= i < sockets.Length ==> Free(sockets[i])
    {
      var i := 0;
      while i < fdsIdx.Length
        invariant 0 <= i <= fdsIdx.Length && Valid(-1)
        invariant forall fd :: 0 <= fd < i ==> fdsIdx[fd] == -1
      {
        if fdsIdx[i] != -1 {
          var r, last := CloseFd(i, 0);
        }
        i := i + 1;
      }
      NothingMapped(fdsIdx[..], sockets[..]);
    }
  }

  lemma NothingMapped<I>(fds: seq<int>, sockets: seq<Entry<I>>)
    requires CountsOk(fds, sockets, -1) && forall fd :: 0 <= fd < |fds| ==> fds[fd] == -1
    ensures Meaning(fds, sockets).open == map[] && forall i :: 0 <= i < |sockets| ==> Free(sockets[i])
  {
    forall i | 0 <= i < |sockets| ensures Free(sockets[i]) { UsesMeans(fds, i); }
  }

  lemma Hold<I>(fds: seq<int>, sockets: seq<Entry<I>>, i: nat, e: Entry<I>)
    requires CountsOk(fds, sockets, -1) && i < |sockets| && e.refcount == sockets[i].refcount + 1
    ensures CountsOk(fds, sockets[i := e], i)
  {
  }

  lemma MeaningAt<I>(fds: seq<int>, sockets: seq<Entry<I>>, fd: nat)
    requires fd < |fds| && 0 <= fds[fd] < |sockets|
    ensures var w := Meaning(fds, sockets);
            fd in w.open && w.open[fd] == fds[fd] && w.open[fd] in w.objects
            && w.objects[w.open[fd]] == sockets[fds[fd]].info
  {
    var w := Meaning(fds, sockets);
    assert w.open[fd] in w.open.Values;
  }

  /** Sharing over a descriptor is closing it and then sharing. */
  lemma SharedOverClosed<I>(w: World<I>, fd: nat, newfd: nat)
    requires WorldOk(w) && fd in w.open && newfd != fd
    ensures fd in Closed(w, newfd).open && Shared(Closed(w, newfd), fd, newfd) == Shared(w, fd, newfd)
    ensures newfd !in w.open ==> Closed(w, newfd) == w
  {
    var c := Closed(w, newfd);
    var open := w.open[newfd := w.open[fd]];
    assert c.open[newfd := c.open[fd]] == open;
    assert c.open[fd] in c.open.Values;
    forall o | o in open.Values ensures o in c.open.Values {
      var f :| f in open && open[f] == o;
      assert c.open[if f == newfd then fd else f] == o;
    }
    CloseNone(w, newfd);
  }

  lemma CloseNone<I>(w: World<I>, fd: nat)
    requires WorldOk(w)
    ensures fd !in w.open ==> Closed(w, fd) == w
  {
    if fd !in w.open { assert w.open - {fd} == w.open; }
  }

  lemma LastWasPossible<I>(es: seq<Event<I>>, e: Event<I>)
    requires PossibleRun(NoSockets(), es + [e])
    ensures PossibleRun(NoSockets(), es) && Possible(Outcome(NoSockets(), es), e)
  {
    assert (es + [e])[..|es|] == es;
  }

  lemma InRange<I>(fds: seq<int>, sockets: seq<Entry<I>>, held: int)
    requires CountsOk(fds, sockets, held)
    ensures forall fd :: 0 <= fd < |fds| ==> -1 <= fds[fd] < |sockets|
    ensures forall fd :: 0 <= fd < |fds| && fds[fd] != -1 ==> 0 < sockets[fds[fd]].refcount <= |fds| + 1
  {
    forall fd | 0 <= fd < |fds| && fds[fd] != -1 ensures 0 < sockets[fds[fd]].refcount <= |fds| + 1 {
      UsesMeans(fds, fds[fd]);
    }
  }

  lemma LinkDoesNotCount<I>(fds: seq<int>, sockets: seq<Entry<I>>, held: int, i: nat, e: Entry<I>)
    requires CountsOk(fds, sockets, held) && i < |sockets| && e.refcount == sockets[i].refcount
    ensures CountsOk(fds, sockets[i := e], held)
  {
  }

  lemma NothingYet<I>(fds: seq<int>, sockets: seq<Entry<I>>, chain: seq<nat>)
    requires forall fd :: 0 <= fd < |fds| ==> fds[fd] == -1
    requires |chain| == |sockets| > 0 && forall i :: 0 <= i < |sockets| ==> chain[i] == i
    requires forall i :: 0 <= i < |sockets| ==> Free(sockets[i]) && sockets[i].nextFree == Link(chain, i + 1)
    ensures CountsOk(fds, sockets, -1) && ListOk(sockets, 0, chain) && Meaning(fds, sockets) == NoSockets()
  {
    forall i | 0 <= i < |sockets| ensures Uses(fds, i) == 0 && i in chain {
      UsesMeans(fds, i);
      assert chain[i] == i;
    }
  }

  lemma NoneFree<I>(sockets: seq<Entry<I>>, chain: seq<nat>)
    requires ListOk(sockets, -1, chain)
    ensures forall i :: 0 <= i < |sockets| ==> !Free(sockets[i])
  {
  }
}
