/** What the accounting law says about whole owned trees: they exist, a completed
    teardown removes all of them, a deep clone is accounted for, and clone followed by
    teardown of the clone is the identity on the store. */
module Ownership {
  import opened Heap
  import opened Cascade
  import opened Tree

  // ---- Every owned edge leads to a finite tree ----

  /** Removing the blocks of the forest `ss` from `h` leaves exactly `rest`. */
  ghost predicate CutOff(h: Store, ss: seq<Slot>, rest: Store) {
    && In(h, ss) && PartOf(rest, h)
    && Distinct(Offs(ss)) && rest.Keys !! Range(Offs(ss)) && h.Keys == rest.Keys + Range(Offs(ss))
  }

  ghost predicate SlotCutOff(h: Store, s: Slot, rest: Store) {
    && SlotIn(h, s) && PartOf(rest, h)
    && Distinct(SlotOffs(s)) && rest.Keys !! Range(SlotOffs(s)) && h.Keys == rest.Keys + Range(SlotOffs(s))
  }

  lemma CutOffNext(h: Store, s: Slot, mid: Store, tail: seq<Slot>, rest: Store)
    requires SlotCutOff(h, s, mid) && CutOff(mid, tail, rest)
    ensures CutOff(h, [s] + tail, rest)
  {
    var ss := [s] + tail;
    assert ss[0] == s && ss[1..] == tail;
    InLarger(mid, h, tail);
    DistinctConcat(SlotOffs(s), Offs(tail));
  }

  lemma CutOffRoot(h: Store, n: Node, rest: Store)
    requires n.off in h && h[n.off] == Image(n) && CutOff(h - {n.off}, n.slots, rest)
    ensures SlotCutOff(h, Child(n), rest)
  {
    InLarger(h - {n.off}, h, n.slots);
    assert Range([n.off]) == {n.off};
    DistinctConcat(Offs(n.slots), [n.off]);
  }

  /** Below any held fields hangs a forest of distinct blocks; cutting it off leaves a
      store that is accounted for by the forest's shared edges.  In particular ownership
      below a held handle is never cyclic. */
  lemma {:induction false} OwnedForest(h: Store, held: multiset<Edge>, fs: seq<Field>)
    returns (ss: seq<Slot>, rest: Store)
    requires Accounted(h, held + Edges(fs))
    ensures Fields(ss) == fs && WellFormed(ss) && CutOff(h, ss, rest)
    ensures Accounted(rest, held + multiset(Shared(ss)))
    decreases |h|, fs, 0
  {
    hide Accounted, CutOff, SlotCutOff;
    if fs == [] {
      ss, rest := [], h;
      assert held + Edges(fs) == held + multiset(Shared(ss));
      assert CutOff(h, ss, rest) by { EmptyCutOff(h); }
    } else {
      hide FieldEdges, SlotField, WellFormed, WellFormedSlot, Fields, Shared, SlotShared;
      assert held + Edges(fs) == (held + Edges(fs[1..])) + FieldEdges(fs[0]);
      var s, mid := OwnedSlot(h, held + Edges(fs[1..]), fs[0]);
      var mine := multiset(SlotShared(s));
      assert (held + Edges(fs[1..])) + mine == (held + mine) + Edges(fs[1..]);
      SmallerAfterCut(h, s, mid);
      var tail;
      tail, rest := OwnedForest(mid, held + mine, fs[1..]);
      ss := [s] + tail;
      CutOffNext(h, s, mid, tail, rest);
      OneMoreSlot(s, tail);
      assert (held + mine) + multiset(Shared(tail)) == held + multiset(Shared(ss));
      assert fs == [fs[0]] + fs[1..];
    }
  }

  lemma OneMoreSlot(s: Slot, tail: seq<Slot>)
    ensures multiset(Shared([s] + tail)) == multiset(SlotShared(s)) + multiset(Shared(tail))
    ensures Fields([s] + tail) == [SlotField(s)] + Fields(tail)
    ensures WellFormed([s] + tail) == (WellFormedSlot(s) && WellFormed(tail))
  {
    var ss := [s] + tail;
    assert ss[0] == s && ss[1..] == tail;
    Unfold(ss);
  }

  lemma EmptyCutOff(h: Store)
    ensures CutOff(h, [], h)
  {}

  lemma SmallerAfterCut(h: Store, s: Slot, rest: Store)
    requires SlotCutOff(h, s, rest)
    ensures |rest| <= |h|
  {
    SmallerPart(rest, h);
  }

  lemma SmallerPart(g: Store, h: Store)
    requires PartOf(g, h)
    ensures |g| <= |h|
  {
    assert g.Keys <= h.Keys;
    SubsetSize(g.Keys, h.Keys);
  }

  lemma {:induction false} OwnedSlot(h: Store, held: multiset<Edge>, f: Field) returns (s: Slot, rest: Store)
    requires Accounted(h, held + FieldEdges(f))
    ensures SlotField(s) == f && WellFormedSlot(s) && SlotCutOff(h, s, rest)
    ensures Accounted(rest, held + multiset(SlotShared(s)))
    decreases |h|, f, 1
  {
    hide Accounted;
    if OwnsNoBlock(f) {
      s, rest := Leaf(f), h;
      SlotEdges(s);
    } else if f.Embed? {
      var ss;
      ss, rest := OwnedForest(h, held, f.inner);
      s := Inline(ss);
    } else {
      hide SlotCutOff;
      var n;
      if f.VecOf? {
        n, rest := OwnedNode(h, held, VecTo(f.off));
      } else {
        n, rest := OwnedNode(h, held, OwnTo(f.off));
      }
      s := Child(n);
    }
  }

  lemma {:induction false} OwnedNode(h: Store, held: multiset<Edge>, e: Edge) returns (n: Node, rest: Store)
    requires Accounted(h, held + multiset{e}) && (e.OwnTo? || e.VecTo?)
    ensures Handle(n) == e && WellFormedSlot(Child(n)) && SlotCutOff(h, Child(n), rest)
    ensures Accounted(rest, held + multiset(Shared(n.slots)))
    decreases |h|, if e.VecTo? then VecOf(e.off) else Own(e.off), 0
  {
    hide Accounted, CutOff, SlotCutOff;
    CutRoot(h, held, e);
    var fields := if e.VecTo? then h[e.off].elems else h[e.off].fields;
    var ss;
    ss, rest := OwnedForest(h - {e.off}, held, fields);
    n := Node(e.off, if e.VecTo? then Vector(h[e.off].cap, h[e.off].rows) else Record, ss);
    CutOffRoot(h, n, rest);
  }

  lemma CutRoot(h: Store, held: multiset<Edge>, e: Edge)
    requires Accounted(h, held + multiset{e}) && (e.OwnTo? || e.VecTo?)
    ensures e.off in h && e.off != 0 && if e.OwnTo? then h[e.off].Plain? else h[e.off].VecData?
    ensures Accounted(h - {e.off}, held + BlockEdges(h[e.off]))
    ensures |h - {e.off}| < |h|
  {
    ReleaseAccounted(h, held, e);
    assert (h - {e.off}).Keys == h.Keys - {e.off};
    assert |h.Keys - {e.off}| == |h.Keys| - 1;
  }

  // ---- What a completed teardown removes ----

  lemma LiveIsHeld(g: Store, held: multiset<Edge>, e: Edge)
    requires Accounted(g, held) && e.off in g
    requires (e.OwnTo? && g[e.off].Plain?) || (e.VecTo? && g[e.off].VecData?)
    ensures (AllEdges(g) + held)[e] == 1
  {
    assert BlockOk(g, AllEdges(g) + held, e.off);
  }

  /** No block of an owned tree survives once its root is released. */
  lemma {:induction false} NodeGone(h: Store, heldH: multiset<Edge>, g: Store, heldG: multiset<Edge>, n: Node)
    requires Accounted(h, heldH) && Accounted(g, heldG) && heldG <= heldH && SubStore(g, h)
    requires SlotIn(h, Child(n)) && (AllEdges(g) + heldG)[Handle(n)] == 0
    ensures forall o <- SlotOffs(Child(n)) :: o !in g
    decreases n, 1
  {
    hide Accounted, BlockOk, Balanced;
    if n.off in g {
      LiveIsHeld(g, heldG, Handle(n));
      assert false;
    }
    assert BlockEdges(h[n.off]) == Edges(Fields(n.slots));
    SlotsGone(h, heldH, g, heldG, n.off, n.slots);
  }

  lemma {:induction false} SlotsGone(h: Store, heldH: multiset<Edge>, g: Store, heldG: multiset<Edge>, p: Off, ss: seq<Slot>)
    requires Accounted(h, heldH) && Accounted(g, heldG) && heldG <= heldH && SubStore(g, h)
    requires p in h && p !in g && In(h, ss) && Edges(Fields(ss)) <= BlockEdges(h[p])
    ensures forall o <- Offs(ss) :: o !in g
    decreases ss, 0
  {
    hide Accounted, Balanced, BlockOk;
    if ss != [] {
      Unfold(ss);
      SlotGone(h, heldH, g, heldG, p, ss[0]);
      SlotsGone(h, heldH, g, heldG, p, ss[1..]);
    }
  }

  lemma {:induction false} SlotGone(h: Store, heldH: multiset<Edge>, g: Store, heldG: multiset<Edge>, p: Off, s: Slot)
    requires Accounted(h, heldH) && Accounted(g, heldG) && heldG <= heldH && SubStore(g, h)
    requires p in h && p !in g && SlotIn(h, s) && FieldEdges(SlotField(s)) <= BlockEdges(h[p])
    ensures forall o <- SlotOffs(s) :: o !in g
    decreases s, 1
  {
    hide Accounted, Balanced, BlockOk;
    match s
    case Leaf(_) =>
    case Inline(ss) => SlotsGone(h, heldH, g, heldG, p, ss);
    case Child(n) =>
      if n.off == 0 {
        NullNotLive(h, heldH);
      } else {
        assert Handle(n) in multiset{Handle(n)};
        OnlyOwnerGone(h, heldH, g, heldG, p, Handle(n));
        NodeGone(h, heldH, g, heldG, n);
      }
  }

  lemma NullNotLive(h: Store, held: multiset<Edge>)
    requires Accounted(h, held)
    ensures 0 !in h
  {}

  /** With its only owner gone, an owned block has no holder left. */
  lemma OnlyOwnerGone(h: Store, heldH: multiset<Edge>, g: Store, heldG: multiset<Edge>, p: Off, e: Edge)
    requires Accounted(h, heldH) && SubStore(g, h) && heldG <= heldH
    requires p in h && p !in g && e in BlockEdges(h[p]) && (e.OwnTo? || e.VecTo?)
    ensures (AllEdges(g) + heldG)[e] == 0
  {
    hide Accounted, Balanced, BlockEdges, SubStore;
    AllEdgesSplit(h, p);
    OneOwner(h, heldH, e);
    assert SubStore(g, h - {p}) by { SubStoreWithout(g, h, p); }
    AllEdgesMonotone(g, h - {p});
  }

  lemma OneOwner(h: Store, held: multiset<Edge>, e: Edge)
    requires Accounted(h, held) && e in AllEdges(h) && (e.OwnTo? || e.VecTo?)
    ensures (AllEdges(h) + held)[e] == 1
  {
    var all := AllEdges(h) + held;
    assert e in all;
    assert BlockOk(h, all, e.off);
  }

  lemma SubStoreWithout(g: Store, h: Store, p: Off)
    requires SubStore(g, h) && p !in g
    ensures SubStore(g, h - {p})
  {}

  /** As long as its root is held, a whole owned tree stays, byte for byte. */
  lemma {:induction false} NodeStays(g: Store, h: Store, held: multiset<Edge>, n: Node)
    requires Accounted(g, held) && SubStore(g, h) && 0 !in h && SlotIn(h, Child(n))
    requires Handle(n) in AllEdges(g) + held
    ensures SlotIn(g, Child(n))
    decreases n, 1
  {
    HeldIsLive(g, held, Handle(n));
    assert SameButCounts(g[n.off], h[n.off]);
    AllEdgesSplit(g, n.off);
    assert BlockEdges(g[n.off]) == Edges(Fields(n.slots));
    SlotsStay(g, h, held, n.slots);
  }

  lemma HeldIsLive(g: Store, held: multiset<Edge>, e: Edge)
    requires Accounted(g, held) && e in AllEdges(g) + held
    ensures e.off in g
  {}

  lemma {:induction false} SlotsStay(g: Store, h: Store, held: multiset<Edge>, ss: seq<Slot>)
    requires Accounted(g, held) && SubStore(g, h) && 0 !in h && In(h, ss)
    requires forall e <- Edges(Fields(ss)) :: e in AllEdges(g) + held
    ensures In(g, ss)
    decreases ss, 0
  {
    hide Accounted, SubStore;
    if ss != [] {
      Unfold(ss);
      SlotStays(g, h, held, ss[0]);
      SlotsStay(g, h, held, ss[1..]);
    }
  }

  lemma {:induction false} SlotStays(g: Store, h: Store, held: multiset<Edge>, s: Slot)
    requires Accounted(g, held) && SubStore(g, h) && 0 !in h && SlotIn(h, s)
    requires forall e <- FieldEdges(SlotField(s)) :: e in AllEdges(g) + held
    ensures SlotIn(g, s)
    decreases s, 1
  {
    hide Accounted, SubStore;
    match s
    case Leaf(_) =>
    case Inline(ss) => SlotsStay(g, h, held, ss);
    case Child(n) =>
      assert Handle(n) in FieldEdges(SlotField(s));
      NodeStays(g, h, held, n);
  }

  /** A completed teardown of the owner of a tree frees every block of the tree. */
  lemma OwnedTreeFreed(h: Store, held: multiset<Edge>, n: Node, sched: seq<Edge>, h': Store)
    requires Accounted(h, held + multiset{Handle(n)}) && SlotIn(h, Child(n))
    requires Runs(h, multiset{Handle(n)}, sched, h', multiset{})
    ensures forall o <- SlotOffs(Child(n)) :: o !in h'
  {
    RunsAccounted(h, held, multiset{Handle(n)}, sched, h', multiset{});
    assert held + multiset{} == held;
    var all := AllEdges(h) + (held + multiset{Handle(n)});
    assert BlockOk(h, all, n.off);
    AllEdgesMonotone(h', h);
    NodeGone(h, held + multiset{Handle(n)}, h', held, n);
  }

  /** Exactly the blocks that some accounted part of the store contains survive. */
  lemma SurvivorsExactly(h: Store, held: multiset<Edge>, debts: multiset<Edge>, sched: seq<Edge>, h': Store, y: Off)
    requires Accounted(h, held + debts) && Runs(h, debts, sched, h', multiset{})
    ensures y in h' <==> exists k :: SubStore(k, h) && Accounted(k, held) && y in k
  {
    if y in h' {
      RunsAccounted(h, held, debts, sched, h', multiset{});
      assert held + multiset{} == held;
    }
    if k :| SubStore(k, h) && Accounted(k, held) && y in k {
      RunsGreatest(h, held, debts, sched, h', k);
    }
  }
}
