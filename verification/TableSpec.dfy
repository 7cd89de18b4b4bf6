/** What the table of wrapped sockets means: open file descriptors, and the socket objects behind them. */
module TableSpec {

  /** open: which object each wrapped descriptor refers to; objects: the live objects' data.
      Objects are named by numbers that may be used again once the object is gone. */
  datatype World<I> = World(open: map<nat, nat>, objects: map<nat, I>)

  function NoSockets<I>(): World<I> {
    World(map[], map[])
  }

  /** The objects some descriptor still refers to. */
  function Referenced<I>(open: map<nat, nat>, objects: map<nat, I>): map<nat, I> {
    map o | o in open.Values && o in objects :: objects[o]
  }

  /** fd refers to a new object, named o. */
  function Created<I>(w: World<I>, fd: nat, o: nat, info: I): World<I> {
    var open := w.open[fd := o];
    World(open, Referenced(open, w.objects[o := info]))
  }

  /** fd is no longer wrapped. */
  function Closed<I>(w: World<I>, fd: nat): World<I> {
    var open := w.open - {fd};
    World(open, Referenced(open, w.objects))
  }

  /** newfd refers to what fd refers to. */
  function Shared<I>(w: World<I>, fd: nat, newfd: nat): World<I>
    requires fd in w.open
  {
    var open := w.open[newfd := w.open[fd]];
    World(open, Referenced(open, w.objects))
  }

  /** The data of the object fd refers to is now info. */
  function Updated<I>(w: World<I>, fd: nat, info: I): World<I>
    requires fd in w.open
  {
    w.(objects := w.objects[w.open[fd] := info])
  }

  predicate WorldOk<I>(w: World<I>) {
    w.objects.Keys == w.open.Values
  }

  /** Closing a descriptor affects no other one, changes no object's data, and ends its object exactly
      when no other descriptor refers to it. */
  lemma CloseIsLocal<I>(w: World<I>, fd: nat)
    requires WorldOk(w) && fd in w.open
    ensures var w' := Closed(w, fd);
            WorldOk(w') && fd !in w'.open
            && (forall f :: f in w.open && f != fd ==> f in w'.open && w'.open[f] == w.open[f])
            && (forall o :: o in w'.objects ==> o in w.objects && w'.objects[o] == w.objects[o])
            && (w.open[fd] !in w'.objects <==> forall f :: f in w.open && f != fd ==> w.open[f] != w.open[fd])
  {
    var w' := Closed(w, fd);
    forall f | f in w.open && f != fd ensures w'.open[f] in w'.objects {
      assert w'.open[f] in w'.open.Values;
    }
    forall o | o in w'.open.Values ensures o in w'.objects {
      var f :| f in w'.open && w'.open[f] == o;
      assert w.open[f] in w.open.Values;
    }
  }

  // ------------------------------------------------------------------ whole runs of operations

  /** What happens to the table, with the numbers the system and the table picked. */
  datatype Event<I> =
    | Create(fd: nat, o: nat, info: I)
    | Close(fd: nat)
    | Share(fd: nat, newfd: nat)
    | Update(fd: nat, info: I)

  /** An object a new socket gets is none of those in use; only a wrapped descriptor is shared or reached. */
  predicate Possible<I>(w: World<I>, e: Event<I>) {
    match e
    case Create(fd, o, _) => fd !in w.open && o !in w.objects
    case Close(_) => true
    case Share(fd, _) => fd in w.open
    case Update(fd, _) => fd in w.open
  }

  function After<I>(w: World<I>, e: Event<I>): World<I>
    requires Possible(w, e)
  {
    match e
    case Create(fd, o, info) => Created(w, fd, o, info)
    case Close(fd) => Closed(w, fd)
    case Share(fd, newfd) => Shared(w, fd, newfd)
    case Update(fd, info) => Updated(w, fd, info)
  }

  predicate PossibleRun<I>(w: World<I>, es: seq<Event<I>>)
    decreases |es|, 0
  {
    es == [] || (PossibleRun(w, es[..|es| - 1]) && Possible(Outcome(w, es[..|es| - 1]), es[|es| - 1]))
  }

  function Outcome<I>(w: World<I>, es: seq<Event<I>>): World<I>
    requires PossibleRun(w, es)
    decreases |es|, 1
  {
    if es == [] then w else After(Outcome(w, es[..|es| - 1]), es[|es| - 1])
  }

  /** An independent account: which event of the run created the socket a descriptor stands for. Events
      are numbered, so unlike object names these are never used twice. */
  function Births<I>(es: seq<Event<I>>): (b: map<nat, nat>)
    ensures forall fd :: fd in b ==> b[fd] < |es| && es[b[fd]].Create?
    decreases |es|
  {
    if es == [] then map[] else
    var b := Births(es[..|es| - 1]);
    match es[|es| - 1]
    case Create(fd, _, _) => b[fd := |es| - 1]
    case Close(fd) => b - {fd}
    case Share(fd, newfd) => if fd in b then b[newfd := b[fd]] else b
    case Update(_, _) => b
  }

  /** ... and what was last stored of that socket, through whatever descriptor. */
  function Latest<I>(es: seq<Event<I>>): map<nat, I>
    decreases |es|
  {
    if es == [] then map[] else
    var front := es[..|es| - 1];
    match es[|es| - 1]
    case Create(_, _, info) => Latest(front)[|es| - 1 := info]
    case Update(fd, info) => if fd in Births(front) then Latest(front)[Births(front)[fd] := info] else Latest(front)
    case _ => Latest(front)
  }

  /** Two descriptors refer to the same object just when they stem from the same creation. */
  predicate Agree(open: map<nat, nat>, b: map<nat, nat>, f: nat, g: nat) {
    f in open && g in open && f in b && g in b && (open[f] == open[g] <==> b[f] == b[g])
  }

  ghost predicate Accounted<I>(w: World<I>, n: nat, b: map<nat, nat>, l: map<nat, I>) {
    WorldOk(w)
    && w.open.Keys == b.Keys
    && (forall fd :: fd in b ==> b[fd] < n && b[fd] in l && w.open[fd] in w.objects)
    && (forall f, g :: f in b && g in b ==> Agree(w.open, b, f, g))
    && (forall fd :: fd in b ==> w.objects[w.open[fd]] == l[b[fd]])
  }

  /** Dropping what is not referenced leaves exactly the referenced objects, unchanged. */
  lemma ReferencedExactly<I>(open: map<nat, nat>, objects: map<nat, I>)
    requires forall f :: f in open ==> open[f] in objects
    ensures Referenced(open, objects).Keys == open.Values
    ensures forall f :: f in open ==> open[f] in Referenced(open, objects)
    ensures forall o :: o in Referenced(open, objects) ==> Referenced(open, objects)[o] == objects[o]
  {
    forall f | f in open ensures open[f] in open.Values {}
  }

  lemma CreateAccounted<I>(w: World<I>, n: nat, b: map<nat, nat>, l: map<nat, I>, e: Event<I>)
    requires Accounted(w, n, b, l) && Possible(w, e) && e.Create?
    ensures Accounted(After(w, e), n + 1, b[e.fd := n], l[n := e.info])
  {
    hide Referenced;
    var open, b' := w.open[e.fd := e.o], b[e.fd := n];
    ReferencedExactly(open, w.objects[e.o := e.info]);
    forall f, g | f in b' && g in b' ensures Agree(open, b', f, g) {
      assert f != e.fd && g != e.fd ==> Agree(w.open, b, f, g);
    }
  }

  lemma CloseAccounted<I>(w: World<I>, n: nat, b: map<nat, nat>, l: map<nat, I>, e: Event<I>)
    requires Accounted(w, n, b, l) && e.Close?
    ensures Accounted(After(w, e), n + 1, b - {e.fd}, l)
  {
    hide Referenced;
    var open, b' := w.open - {e.fd}, b - {e.fd};
    ReferencedExactly(open, w.objects);
    forall f, g | f in b' && g in b' ensures Agree(open, b', f, g) {
      assert Agree(w.open, b, f, g);
    }
    forall fd | fd in b' ensures b'[fd] == b[fd] && open[fd] == w.open[fd] {}
  }

  lemma ShareAccounted<I>(w: World<I>, n: nat, b: map<nat, nat>, l: map<nat, I>, e: Event<I>)
    requires Accounted(w, n, b, l) && Possible(w, e) && e.Share?
    ensures Accounted(After(w, e), n + 1, b[e.newfd := b[e.fd]], l)
  {
    hide Referenced;
    var open, b' := w.open[e.newfd := w.open[e.fd]], b[e.newfd := b[e.fd]];
    ReferencedExactly(open, w.objects);
    forall f, g | f in b' && g in b' ensures Agree(open, b', f, g) {
      assert Agree(w.open, b, if f == e.newfd then e.fd else f, if g == e.newfd then e.fd else g);
    }
  }

  lemma UpdateAccounted<I>(w: World<I>, n: nat, b: map<nat, nat>, l: map<nat, I>, e: Event<I>)
    requires Accounted(w, n, b, l) && Possible(w, e) && e.Update?
    ensures Accounted(After(w, e), n + 1, b, l[b[e.fd] := e.info])
  {
    forall f | f in b ensures w.open[f] == w.open[e.fd] <==> b[f] == b[e.fd] {
      assert Agree(w.open, b, f, e.fd);
    }
  }

  lemma NothingAccounted<I>()
    ensures Accounted(NoSockets<I>(), 0, map[], map[])
  {
  }

  lemma {:induction false} RunAccounted<I>(es: seq<Event<I>>)
    requires PossibleRun(NoSockets(), es)
    ensures Accounted(Outcome(NoSockets(), es), |es|, Births(es), Latest(es))
    decreases |es|
  {
    hide Accounted, After;
    if es == [] {
      NothingAccounted<I>();
    } else {
      var es', e := es[..|es| - 1], es[|es| - 1];
      RunAccounted(es');
      var w, b, l, n := Outcome(NoSockets(), es'), Births(es'), Latest(es'), |es'|;
      KeysAgree(w, n, b, l);
      match e {
        case Create(_, _, _) => CreateAccounted(w, n, b, l, e);
        case Close(_) => CloseAccounted(w, n, b, l, e);
        case Share(_, _) => ShareAccounted(w, n, b, l, e);
        case Update(_, _) => UpdateAccounted(w, n, b, l, e);
      }
    }
  }

  lemma KeysAgree<I>(w: World<I>, n: nat, b: map<nat, nat>, l: map<nat, I>)
    requires Accounted(w, n, b, l)
    ensures w.open.Keys == b.Keys && forall fd :: fd in w.open <==> fd in b
  {
    assert forall fd :: fd in w.open <==> fd in w.open.Keys;
  }

  /** Over every run: two descriptors refer to the same object exactly when they stem from the same
      creation by sharing, and an object's data is what was last stored of that socket. In particular a new
      socket never aliases a live one, although object names are used again. */
  lemma DescriptorsKnowTheirSocket<I>(es: seq<Event<I>>)
    requires PossibleRun(NoSockets(), es)
    ensures var w := Outcome(NoSockets(), es);
            var b := Births(es);
            w.open.Keys == b.Keys && WorldOk(w)
            && (forall f, g :: f in b && g in b ==> Agree(w.open, b, f, g))
            && (forall fd :: fd in b ==> b[fd] in Latest(es) && w.open[fd] in w.objects
                                         && w.objects[w.open[fd]] == Latest(es)[b[fd]])
  {
    hide Outcome, PossibleRun, Births, Latest;
    RunAccounted(es);
  }

  /** What a descriptor's object holds. */
  function Data<I>(w: World<I>, fd: nat): I
    requires WorldOk(w) && fd in w.open
  {
    assert w.open[fd] in w.open.Values;
    w.objects[w.open[fd]]
  }

  /** What is stored through one descriptor is seen through exactly those that share its creation. */
  lemma UpdateSeenBySharers<I>(es: seq<Event<I>>, fd: nat, info: I)
    requires PossibleRun(NoSockets(), es) && fd in Outcome(NoSockets(), es).open
    ensures var w, b := Outcome(NoSockets(), es), Births(es);
            var w' := Updated(w, fd, info);
            w'.open == w.open && w.open.Keys == b.Keys && WorldOk(w) && WorldOk(w')
            && forall g :: g in w.open ==> Data(w', g) == if b[g] == b[fd] then info else Data(w, g)
  {
    hide Outcome, PossibleRun, Births, Latest;
    DescriptorsKnowTheirSocket(es);
    var w, b := Outcome(NoSockets(), es), Births(es);
    assert Updated(w, fd, info).objects.Keys == w.objects.Keys;
    forall g | g in b ensures w.open[g] == w.open[fd] <==> b[g] == b[fd] {
      assert Agree(w.open, b, g, fd);
    }
  }
}
