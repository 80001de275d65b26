/** Reference counters as a deep clone bumps them, and the two global facts about a
    finished clone: it is accounted for, and tearing it down undoes it. */
module Sharing {
  import opened Heap
  import opened Cascade
  import opened Tree
  import opened Ownership

  /** An on-disk counter: an inline refcount, or a field of a control block. */
  datatype Counter = CountAt(data: Off) | StrongAt(ctrl: Off) | WeakAt(ctrl: Off)

  /** `e` is a shared edge whose target carries a counter. */
  predicate Countable(h: Store, e: Edge) {
    e.off in h &&
    match e
    case StrongTo(x) => h[x].Rc? || h[x].Data?
    case WeakTo(c) => h[c].Ctrl?
    case _ => false
  }

  /** The counter that holding one more `e` must raise. */
  function CounterOf(h: Store, e: Edge): Counter
    requires Countable(h, e)
  {
    if e.WeakTo? then WeakAt(e.off) else if h[e.off].Rc? then CountAt(e.off) else StrongAt(h[e.off].ctrl)
  }

  function Counters(h: Store, es: seq<Edge>): (cs: seq<Counter>)
    requires forall e <- es :: Countable(h, e)
    ensures |cs| == |es|
  {
    if es == [] then [] else [CounterOf(h, es[0])] + Counters(h, es[1..])
  }

  /** One block with every one of its counters raised by its multiplicity in `m`. */
  function BumpBlock(x: Off, b: Block, m: multiset<Counter>): Block {
    match b
    case Rc(n, fs) => Rc(n + m[CountAt(x)], fs)
    case Ctrl(s, w, d) => Ctrl(s + m[StrongAt(x)], w + m[WeakAt(x)], d)
    case _ => b
  }

  function Bumped(h: Store, m: multiset<Counter>): Store {
    map x | x in h :: BumpBlock(x, h[x], m)
  }

  /** The clone's commit refuses to wrap a counter. */
  predicate Overflows(x: Off, b: Block, m: multiset<Counter>) {
    match b
    case Rc(n, _) => n + m[CountAt(x)] > U64_MAX
    case Ctrl(s, w, _) => s + m[StrongAt(x)] > U64_MAX || w + m[WeakAt(x)] > U64_MAX
    case _ => false
  }

  lemma BumpedEdges(h: Store, m: multiset<Counter>)
    ensures SubStore(h, Bumped(h, m)) && SubStore(Bumped(h, m), h)
    ensures AllEdges(Bumped(h, m)) == AllEdges(h)
  {
    AllEdgesMonotone(h, Bumped(h, m));
    AllEdgesMonotone(Bumped(h, m), h);
  }

  /** In an accounted store distinct shared edges have distinct counters: a control block
      serves one data block only. */
  lemma CounterInjective(h: Store, held: multiset<Edge>, e: Edge, f: Edge)
    requires Accounted(h, held) && Countable(h, e) && Countable(h, f)
    requires CounterOf(h, e) == CounterOf(h, f)
    ensures e == f
  {
    var all := AllEdges(h) + held;
    assert BlockOk(h, all, e.off) && BlockOk(h, all, f.off);
  }

  lemma {:induction false} CountersCount(h: Store, held: multiset<Edge>, es: seq<Edge>, e: Edge)
    requires Accounted(h, held) && Countable(h, e)
    requires forall f <- es :: Countable(h, f)
    ensures multiset(Counters(h, es))[CounterOf(h, e)] == multiset(es)[e]
  {
    hide Accounted;
    if es != [] {
      CountersCount(h, held, es[1..], e);
      assert es == [es[0]] + es[1..];
      if CounterOf(h, es[0]) == CounterOf(h, e) { CounterInjective(h, held, es[0], e); }
    }
  }

  /** A counter that is bumped belongs to some edge of the list. */
  lemma {:induction false} CountersOnly(h: Store, es: seq<Edge>, c: Counter) returns (e: Edge)
    requires forall f <- es :: Countable(h, f)
    requires c in Counters(h, es)
    ensures e in es && CounterOf(h, e) == c
  {
    if CounterOf(h, es[0]) == c { e := es[0]; } else { e := CountersOnly(h, es[1..], c); }
  }

  /** The bump law: raising each target's counter once per listed edge makes exactly
      those edges holdable in addition. */
  lemma BumpedAccounted(h: Store, held: multiset<Edge>, es: seq<Edge>)
    requires Accounted(h, held) && forall e <- es :: Countable(h, e)
    ensures Accounted(Bumped(h, multiset(Counters(h, es))), held + multiset(es))
  {
    var m := multiset(Counters(h, es));
    var g := Bumped(h, m);
    BumpedEdges(h, m);
    var all, more := AllEdges(h) + held, AllEdges(g) + (held + multiset(es));
    assert more == all + multiset(es);
    forall x <- g ensures BlockOk(g, more, x) {
      assert BlockOk(h, all, x);
      BumpedBlockOk(h, held, es, x);
    }
    forall e <- more ensures e.off in g {
      if e !in all { assert e in es; }
    }
  }

  lemma BumpedBlockOk(h: Store, held: multiset<Edge>, es: seq<Edge>, x: Off)
    requires Accounted(h, held) && x in h && forall e <- es :: Countable(h, e)
    ensures BlockOk(Bumped(h, multiset(Counters(h, es))), AllEdges(h) + held + multiset(es), x)
  {
    match h[x]
    case Ctrl(_, _, _) => BumpedCtrlOk(h, held, es, x);
    case _ => BumpedDataOk(h, held, es, x);
  }

  /** How many holders of each kind the listed edges add. */
  lemma BumpedDataOk(h: Store, held: multiset<Edge>, es: seq<Edge>, x: Off)
    requires Accounted(h, held) && x in h && !h[x].Ctrl? && forall e <- es :: Countable(h, e)
    ensures BlockOk(Bumped(h, multiset(Counters(h, es))), AllEdges(h) + held + multiset(es), x)
  {
    hide BlockOk, Bumped, Counters;
    NotCounted(es, x, h);
    if h[x].Rc? || h[x].Data? { CountersCount(h, held, es, StrongTo(x)); }
    DataRaised(h, AllEdges(h) + held, multiset(es), multiset(Counters(h, es)), x);
  }

  lemma DataRaised(h: Store, all: multiset<Edge>, more: multiset<Edge>, m: multiset<Counter>, x: Off)
    requires x in h && !h[x].Ctrl? && BlockOk(h, all, x)
    requires more[OwnTo(x)] == more[VecTo(x)] == more[WeakTo(x)] == 0
    requires more[StrongTo(x)] == match h[x] case Rc(_, _) => m[CountAt(x)] case Data(c, _) => m[StrongAt(c)] case _ => 0
    ensures BlockOk(Bumped(h, m), all + more, x)
  {
    MoreHolders(all, more, x);
  }

  lemma MoreHolders(all: multiset<Edge>, more: multiset<Edge>, x: Off)
    ensures var a, b, c := HoldersOf(all, x), HoldersOf(more, x), HoldersOf(all + more, x);
      c == Holders(a.own + b.own, a.vec + b.vec, a.strong + b.strong, a.weak + b.weak)
  {}

  lemma BumpedCtrlOk(h: Store, held: multiset<Edge>, es: seq<Edge>, x: Off)
    requires Accounted(h, held) && x in h && h[x].Ctrl? && forall e <- es :: Countable(h, e)
    ensures BlockOk(Bumped(h, multiset(Counters(h, es))), AllEdges(h) + held + multiset(es), x)
  {
    hide BlockOk, Bumped, Counters;
    NotCounted(es, x, h);
    CountersCount(h, held, es, WeakTo(x));
    StrongBumpMeansLive(h, held, es, x);
    CtrlRaised(h, AllEdges(h) + held, multiset(es), multiset(Counters(h, es)), x);
  }

  lemma CtrlRaised(h: Store, all: multiset<Edge>, more: multiset<Edge>, m: multiset<Counter>, x: Off)
    requires x in h && h[x].Ctrl? && BlockOk(h, all, x)
    requires more[OwnTo(x)] == more[VecTo(x)] == more[StrongTo(x)] == 0 && more[WeakTo(x)] == m[WeakAt(x)]
    requires m[StrongAt(x)] > 0 ==> h[x].strong > 0
    ensures BlockOk(Bumped(h, m), all + more, x)
  {
    MoreHolders(all, more, x);
  }

  /** A strong count that is bumped was positive. */
  lemma StrongBumpMeansLive(h: Store, held: multiset<Edge>, es: seq<Edge>, x: Off)
    requires Accounted(h, held) && x in h && h[x].Ctrl? && forall e <- es :: Countable(h, e)
    ensures multiset(Counters(h, es))[StrongAt(x)] > 0 ==> h[x].strong > 0
  {
    if StrongAt(x) in Counters(h, es) {
      var e := CountersOnly(h, es, StrongAt(x));
      assert BlockOk(h, AllEdges(h) + held, e.off);
    }
  }

  lemma NotCounted(es: seq<Edge>, x: Off, h: Store)
    requires forall e <- es :: Countable(h, e)
    requires x in h
    ensures multiset(es)[OwnTo(x)] == 0 && multiset(es)[VecTo(x)] == 0
    ensures !h[x].Ctrl? ==> multiset(es)[WeakTo(x)] == 0
    ensures !h[x].Rc? && !h[x].Data? ==> multiset(es)[StrongTo(x)] == 0
  {
    assert OwnTo(x) !in es && VecTo(x) !in es;
    if !h[x].Ctrl? { assert WeakTo(x) !in es; }
    if !h[x].Rc? && !h[x].Data? { assert StrongTo(x) !in es; }
  }

  // ---- A finished clone ----

  /** The shared edges of a tree in an accounted store are countable. */
  lemma {:induction false} SharedCountable(h: Store, held: multiset<Edge>, e: Edge)
    requires Accounted(h, held) && e in AllEdges(h) + held && (e.StrongTo? || e.WeakTo?)
    ensures Countable(h, e)
  {
    assert BlockOk(h, AllEdges(h) + held, e.off);
  }

  lemma {:induction false} SharedEdgesLive(h: Store, ss: seq<Slot>, e: Edge)
    requires In(h, ss) && e in Shared(ss)
    ensures e in AllEdges(h) + Edges(Fields(ss)) && (e.StrongTo? || e.WeakTo?)
    decreases ss, 0
  {
    Unfold(ss);
    if e in SlotShared(ss[0]) {
      SlotSharedEdgesLive(h, ss[0], e);
    } else {
      SharedEdgesLive(h, ss[1..], e);
    }
  }

  lemma {:induction false} SlotSharedEdgesLive(h: Store, s: Slot, e: Edge)
    requires SlotIn(h, s) && e in SlotShared(s)
    ensures e in AllEdges(h) + FieldEdges(SlotField(s)) && (e.StrongTo? || e.WeakTo?)
    decreases s, 1
  {
    match s
    case Leaf(_) => SharedLeaf(s, e);
    case Inline(ss) => SharedEdgesLive(h, ss, e);
    case Child(n) =>
      SharedEdgesLive(h, n.slots, e);
      ChildEdgesLive(h, n);
  }

  lemma SharedLeaf(s: Slot, e: Edge)
    requires s.Leaf? && e in SlotShared(s)
    ensures e in FieldEdges(SlotField(s)) && (e.StrongTo? || e.WeakTo?)
  {}

  lemma ChildEdgesLive(h: Store, n: Node)
    requires SlotIn(h, Child(n))
    ensures Edges(Fields(n.slots)) <= AllEdges(h)
  {
    AllEdgesSplit(h, n.off);
    assert BlockEdges(h[n.off]) == Edges(Fields(n.slots));
  }

  /** The store after a clone of the tree `n` to the fresh offsets `at`. */
  function Cloned(h: Store, n: Node, at: seq<Off>): Store
    requires |at| == Count(n.slots) + 1
    requires forall e <- Shared(n.slots) :: Countable(h, e)
  {
    GraftSlot(Bumped(h, multiset(Counters(h, Shared(n.slots)))), Child(MoveNode(n, at)))
  }

  lemma TreeCountable(h: Store, held: multiset<Edge>, n: Node)
    requires Accounted(h, held) && SlotIn(h, Child(n))
    ensures forall e <- Shared(n.slots) :: Countable(h, e)
  {
    forall e <- Shared(n.slots) ensures Countable(h, e) {
      SharedEdgesLive(h, n.slots, e);
      ChildEdgesLive(h, n);
      SharedCountable(h, held, e);
    }
  }

  /** Everything a deep clone promises: the copy has the source's value, lies entirely at
      the fresh offsets, leaves every old block as it was up to counts, and the law holds
      with one more handle. */
  lemma CloneCorrect(h: Store, held: multiset<Edge>, n: Node, at: seq<Off>)
    requires Accounted(h, held) && WellFormedSlot(Child(n)) && SlotIn(h, Child(n))
    requires |at| == Count(n.slots) + 1 && Fresh(h, at)
    ensures forall e <- Shared(n.slots) :: Countable(h, e)
    ensures var m, g := MoveNode(n, at), Cloned(h, n, at);
      && EraseSlot(Child(m)) == EraseSlot(Child(n))
      && SlotOffs(Child(m)) == at && SlotIn(g, Child(m))
      && g.Keys == h.Keys + Range(at) && SubStore(h, g)
      && Accounted(g, held + multiset{Handle(m)})
  {
    hide Accounted;
    TreeCountable(h, held, n);
    var m, es := MoveNode(n, at), Shared(n.slots);
    var c := multiset(Counters(h, es));
    var b := Bumped(h, c);
    MoveSlotSame(Child(n), at);
    assert MoveSlot(Child(n), at) == Child(m);
    assert SlotShared(Child(m)) == es;
    FreshNonZero(h, at);
    BumpedAccounted(h, held, es);
    FreshSame(h, b, at);
    GraftSlotAccounted(b, held, Child(m));
    GraftSlotIn(b, Child(m));
    BumpedEdges(h, c);
    assert SubStore(h, GraftSlot(b, Child(m)));
  }

  lemma FreshSame(h: Store, g: Store, at: seq<Off>)
    requires Fresh(h, at) && g.Keys == h.Keys
    ensures Fresh(g, at)
  {}

  lemma FreshNonZero(h: Store, at: seq<Off>)
    requires Fresh(h, at)
    ensures 0 !in at
  {}

  lemma SameBlocks(h: Store, g: Store, h': Store, at: seq<Off>)
    requires SubStore(h, h') && SubStore(h', g) && g.Keys == h.Keys + Range(at)
    requires forall o <- at :: o !in h'
    ensures h.Keys == h'.Keys
  {}

  /** Round trip: however the teardown of a fresh clone is scheduled, it restores the
      store exactly, every image and every counter. */
  lemma CloneThenTeardown(h: Store, held: multiset<Edge>, n: Node, at: seq<Off>, sched: seq<Edge>, h': Store)
    requires Accounted(h, held) && WellFormedSlot(Child(n)) && SlotIn(h, Child(n))
    requires |at| == Count(n.slots) + 1 && Fresh(h, at)
    requires forall e <- Shared(n.slots) :: Countable(h, e)
    requires Runs(Cloned(h, n, at), multiset{Handle(MoveNode(n, at))}, sched, h', multiset{})
    ensures h' == h
  {
    hide Accounted, Runs, Cloned, SubStore, Range, Fresh;
    var m, g := MoveNode(n, at), Cloned(h, n, at);
    CloneCorrect(h, held, n, at);
    RunsGreatest(g, held, multiset{Handle(m)}, sched, h', h);
    OwnedTreeFreed(g, held, m, sched, h');
    RunsAccounted(g, held, multiset{Handle(m)}, sched, h', multiset{});
    assert held + multiset{} == held;
    SameBlocks(h, g, h', at);
    CountsDetermined(h, h', held);
  }
}
