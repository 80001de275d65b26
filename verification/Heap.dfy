/** The persistent object heap: typed block images, the edges they hold, and the
    accounting law every operation of the generated code keeps.

    An offset is a natural number and offset 0 is the null niche ("none").  A block
    image lists its fields in on-disk order; inline arrays, tuples and the active
    payload of an enum are flattened into that list. */
module Heap {

  type Off = nat

  /** The largest value an on-disk counter can hold. */
  const U64_MAX: nat := 0xFFFF_FFFF_FFFF_FFFF

  datatype Field =
    | Pod(bytes: seq<int>)       // inline plain data
    | Own(off: Off)              // #[bstack_owned]
    | Strong(off: Off)           // #[bstack_strong]: offset of a shared data block
    | Weak(off: Off)             // #[bstack_weak]: offset of a control block
    | Ref(off: Off)              // #[bstack_ref]: borrowed, owns nothing
    | Embed(inner: seq<Field>)   // #[embed]: the child's image, stored inline
    | VecOf(off: Off)            // Vec descriptor: offset of an owned data block

  datatype Block =
    | Plain(fields: seq<Field>)
    | Rc(count: nat, fields: seq<Field>)               // inline refcount
    | Data(ctrl: Off, fields: seq<Field>)              // (rc, weak) data block
    | Ctrl(strong: nat, weak: nat, data: Off)          // its control block
    | VecData(cap: nat, rows: bool, elems: seq<Field>) // out-of-line vector storage; `rows`: of arrays
    | Raw(size: nat)                                   // allocated, not yet written

  /** One unit of ownership debt: what the holder must release exactly once. */
  datatype Edge = OwnTo(off: Off) | VecTo(off: Off) | StrongTo(off: Off) | WeakTo(off: Off)

  type Store = map<Off, Block>

  function Range(s: seq<Off>): set<Off> { set x <- s }

  ghost predicate Distinct(s: seq<Off>) {
    forall i, j :: 0 <= i < j < |s| ==> s[i] != s[j]
  }

  lemma DistinctConcat(a: seq<Off>, b: seq<Off>)
    ensures Range(a + b) == Range(a) + Range(b)
    ensures Distinct(a) && Distinct(b) && Range(a) !! Range(b) ==> Distinct(a + b)
  {
    var c := a + b;
    forall o ensures o in c <==> o in a || o in b {}
    if Distinct(a) && Distinct(b) && Range(a) !! Range(b) {
      forall i, j | 0 <= i < j < |c| ensures c[i] != c[j] {
        assert c[i] in (if i < |a| then Range(a) else Range(b));
        assert c[j] in (if j < |a| then Range(a) else Range(b));
      }
    }
  }

  lemma {:induction false} SubsetSize(a: set<Off>, b: set<Off>)
    requires a <= b
    ensures |a| <= |b|
  {
    if a != {} {
      var x :| x in a;
      SubsetSize(a - {x}, b - {x});
    }
  }

  // ---- The edges an image holds ----

  function FieldEdges(f: Field): multiset<Edge>
    decreases f, 1
  {
    match f
    case Own(o) => if o == 0 then multiset{} else multiset{OwnTo(o)}
    case VecOf(o) => if o == 0 then multiset{} else multiset{VecTo(o)}
    case Strong(o) => if o == 0 then multiset{} else multiset{StrongTo(o)}
    case Weak(o) => if o == 0 then multiset{} else multiset{WeakTo(o)}
    case Embed(inner) => Edges(inner)
    case Pod(_) => multiset{}
    case Ref(_) => multiset{}
  }

  function Edges(fs: seq<Field>): multiset<Edge>
    decreases fs, 0
  {
    if fs == [] then multiset{} else FieldEdges(fs[0]) + Edges(fs[1..])
  }

  /** An `(rc, weak)` data block also holds the phantom weak reference that its strong
      owners share. */
  function BlockEdges(b: Block): multiset<Edge> {
    match b
    case Plain(fs) => Edges(fs)
    case Rc(_, fs) => Edges(fs)
    case Data(c, fs) => Edges(fs) + multiset{WeakTo(c)}
    case VecData(_, _, es) => Edges(es)
    case Ctrl(_, _, _) => multiset{}
    case Raw(_) => multiset{}
  }

  /** Every edge held by a block of `h`. */
  ghost function AllEdges(h: Store): multiset<Edge>
    decreases |h|
  {
    if h == map[] then multiset{} else
      var x :| x in h;
      BlockEdges(h[x]) + AllEdges(h - {x})
  }

  lemma {:induction false} AllEdgesSplit(h: Store, x: Off)
    requires x in h
    ensures AllEdges(h) == BlockEdges(h[x]) + AllEdges(h - {x})
    decreases |h|
  {
    hide BlockEdges;
    var y :| y in h && AllEdges(h) == BlockEdges(h[y]) + AllEdges(h - {y});
    if y != x {
      AllEdgesSplit(h - {y}, x);
      AllEdgesSplit(h - {x}, y);
      assert h - {y} - {x} == h - {x} - {y};
    }
  }

  /** Adding a block at a fresh offset adds exactly its edges. */
  lemma AllEdgesInsert(h: Store, x: Off, b: Block)
    requires x !in h
    ensures AllEdges(h[x := b]) == AllEdges(h) + BlockEdges(b)
  {
    AllEdgesSplit(h[x := b], x);
    assert h[x := b] - {x} == h;
  }

  /** Changing only counters moves no edge. */
  lemma AllEdgesRecount(h: Store, x: Off, b: Block)
    requires x in h && SameButCounts(h[x], b)
    ensures AllEdges(h[x := b]) == AllEdges(h)
  {
    AllEdgesSplit(h, x);
    AllEdgesSplit(h[x := b], x);
    assert h[x := b] - {x} == h - {x};
  }

  // ---- The accounting law ----

  /** How many edges of each kind end at one block. */
  datatype Holders = Holders(own: nat, vec: nat, strong: nat, weak: nat)

  ghost function HoldersOf(all: multiset<Edge>, x: Off): Holders {
    Holders(all[OwnTo(x)], all[VecTo(x)], all[StrongTo(x)], all[WeakTo(x)])
  }

  lemma HoldersElsewhere(all: multiset<Edge>, rest: multiset<Edge>, e: Edge, y: Off)
    requires all == rest + multiset{e} && y != e.off
    ensures HoldersOf(all, y) == HoldersOf(rest, y)
  {}

  /** `x` is exactly as held as its image says, where `all` are all outstanding edges. */
  ghost predicate BlockOk(h: Store, all: multiset<Edge>, x: Off)
    requires x in h
  {
    var held := HoldersOf(all, x);
    match h[x]
    case Plain(_) => held == Holders(1, 0, 0, 0)
    case VecData(_, _, _) => held == Holders(0, 1, 0, 0)
    case Rc(n, _) => 0 < n && held == Holders(0, 0, n, 0)
    case Data(c, _) =>
      && c in h && h[c].Ctrl? && h[c].data == x
      && 0 < h[c].strong && held == Holders(0, 0, h[c].strong, 0)
    case Ctrl(s, w, d) =>
      && 0 < w && held == Holders(0, 0, 0, w)
      && (0 < s ==> d in h && h[d].Data? && h[d].ctrl == x)
    case Raw(_) => false
  }

  /** The law on a total of outstanding edges.  Every plain block and vector has exactly
      one owner, every count equals its number of holders and is positive, data and
      control blocks point at each other while the data lives, and nothing dangles. */
  ghost predicate Balanced(h: Store, all: multiset<Edge>) {
    && 0 !in h
    && (forall x <- h :: BlockOk(h, all, x))
    && (forall e <- all :: e.off in h)
  }

  /** The global law, where `held` are the handles the program holds. */
  ghost predicate Accounted(h: Store, held: multiset<Edge>) {
    Balanced(h, AllEdges(h) + held)
  }

  /** Two images that differ at most in their counters. */
  predicate SameButCounts(a: Block, b: Block) {
    match (a, b)
    case (Rc(_, fs), Rc(_, gs)) => fs == gs
    case (Ctrl(_, _, d), Ctrl(_, _, e)) => d == e
    case _ => a == b
  }

  /** `g` is `h` with some blocks removed and counters possibly changed. */
  ghost predicate SubStore(g: Store, h: Store) {
    forall x <- g :: x in h && SameButCounts(g[x], h[x])
  }

  ghost predicate PartOf(g: Store, h: Store) {
    forall x <- g :: x in h && g[x] == h[x]
  }

  lemma {:induction false} AllEdgesMonotone(g: Store, h: Store)
    requires SubStore(g, h)
    ensures AllEdges(g) <= AllEdges(h)
    decreases |g|
  {
    if g != map[] {
      var x :| x in g;
      AllEdgesSplit(g, x);
      AllEdgesSplit(h, x);
      assert BlockEdges(g[x]) == BlockEdges(h[x]);
      AllEdgesMonotone(g - {x}, h - {x});
    } else {
      assert AllEdges(g) == multiset{};
    }
  }

  /** The law determines the counters: two accounted stores with the same blocks up to
      counts are equal. */
  lemma CountsDetermined(g: Store, h: Store, held: multiset<Edge>)
    requires Accounted(g, held) && Accounted(h, held)
    requires SubStore(g, h) && g.Keys == h.Keys
    ensures g == h
  {
    AllEdgesMonotone(g, h);
    assert SubStore(h, g);
    AllEdgesMonotone(h, g);
    assert AllEdges(g) == AllEdges(h);
    forall x <- g ensures g[x] == h[x] {
      if g[x].Ctrl? {
        CtrlDetermined(g, h, held, x);
      }
    }
  }

  lemma CtrlDetermined(g: Store, h: Store, held: multiset<Edge>, x: Off)
    requires Accounted(g, held) && Accounted(h, held)
    requires SubStore(g, h) && g.Keys == h.Keys && AllEdges(g) == AllEdges(h)
    requires x in g && g[x].Ctrl?
    ensures g[x] == h[x]
  {
    var all := AllEdges(g) + held;
    var d := g[x].data;
    assert BlockOk(g, all, x) && BlockOk(h, all, x);
    if d in g {
      assert BlockOk(g, all, d) && BlockOk(h, all, d);
    }
  }

  // ---- Releasing one edge ----

  /** Whether releasing `e` finds the block it expects. */
  predicate CanRelease(h: Store, e: Edge) {
    e.off in h &&
    match e
    case OwnTo(x) => h[x].Plain?
    case VecTo(x) => h[x].VecData?
    case StrongTo(x) =>
      || (h[x].Rc? && 0 < h[x].count)
      || (h[x].Data? && h[x].ctrl in h && h[h[x].ctrl].Ctrl? && 0 < h[h[x].ctrl].strong)
    case WeakTo(c) => h[c].Ctrl? && 0 < h[c].weak
  }

  /** Paying one debt: free an owned block, or decrement a count and free at its first
      zero.  The second result is what the freed block owed in turn. */
  function Release(h: Store, e: Edge): (Store, multiset<Edge>)
    requires CanRelease(h, e)
  {
    match e
    case OwnTo(x) => (h - {x}, BlockEdges(h[x]))
    case VecTo(x) => (h - {x}, BlockEdges(h[x]))
    case StrongTo(x) =>
      (match h[x]
       case Rc(n, fs) =>
         if n == 1 then (h - {x}, Edges(fs)) else (h[x := Rc(n - 1, fs)], multiset{})
       case Data(c, fs) =>
         var k := h[c].(strong := h[c].strong - 1);
         if k.strong == 0 then ((h - {x})[c := k], BlockEdges(h[x])) else (h[c := k], multiset{})
       case _ => assert false; (h, multiset{}))
    case WeakTo(c) =>
      if h[c].weak == 1 then (h - {c}, multiset{})
      else (h[c := h[c].(weak := h[c].weak - 1)], multiset{})
  }

  /** Conservation: a release turns edges of freed blocks into debts, one for one. */
  lemma ReleaseConserves(h: Store, e: Edge)
    requires CanRelease(h, e)
    ensures AllEdges(Release(h, e).0) + Release(h, e).1 == AllEdges(h)
    ensures SubStore(Release(h, e).0, h)
  {
    ReleaseOnlyRemoves(h, e);
    match e
    case OwnTo(x) => AllEdgesSplit(h, x);
    case VecTo(x) => AllEdgesSplit(h, x);
    case WeakTo(c) => ReleaseWeakConserves(h, c);
    case StrongTo(x) => if h[x].Rc? { ReleaseRcConserves(h, x); } else { ReleaseDataConserves(h, x); }
  }

  lemma ReleaseOnlyRemoves(h: Store, e: Edge)
    requires CanRelease(h, e)
    ensures SubStore(Release(h, e).0, h)
  {
    var g := Release(h, e).0;
    forall x <- g ensures x in h && SameButCounts(g[x], h[x]) {}
  }

  lemma ReleaseWeakConserves(h: Store, c: Off)
    requires CanRelease(h, WeakTo(c))
    ensures AllEdges(Release(h, WeakTo(c)).0) + Release(h, WeakTo(c)).1 == AllEdges(h)
  {
    if h[c].weak == 1 {
      AllEdgesSplit(h, c);
    } else {
      AllEdgesRecount(h, c, h[c].(weak := h[c].weak - 1));
    }
  }

  lemma ReleaseRcConserves(h: Store, x: Off)
    requires CanRelease(h, StrongTo(x)) && h[x].Rc?
    ensures AllEdges(Release(h, StrongTo(x)).0) + Release(h, StrongTo(x)).1 == AllEdges(h)
  {
    if h[x].count == 1 {
      AllEdgesSplit(h, x);
    } else {
      AllEdgesRecount(h, x, Rc(h[x].count - 1, h[x].fields));
    }
  }

  lemma ReleaseDataConserves(h: Store, x: Off)
    requires CanRelease(h, StrongTo(x)) && h[x].Data?
    ensures AllEdges(Release(h, StrongTo(x)).0) + Release(h, StrongTo(x)).1 == AllEdges(h)
  {
    var c := h[x].ctrl;
    var k := h[c].(strong := h[c].strong - 1);
    if k.strong == 0 {
      AllEdgesSplit(h, x);
      AllEdgesRecount(h - {x}, c, k);
    } else {
      AllEdgesRecount(h, c, k);
    }
  }

  /** A held edge can always be released: nothing dangles and no count underflows. */
  lemma HeldCanRelease(h: Store, held: multiset<Edge>, e: Edge)
    requires Accounted(h, held) && e in held
    ensures CanRelease(h, e)
  {
    var all := AllEdges(h) + held;
    assert e in all;
    assert BlockOk(h, all, e.off);
  }

  /** Releasing one held edge keeps the law, with the freed block's edges now held. */
  lemma ReleaseAccounted(h: Store, held: multiset<Edge>, e: Edge)
    requires Accounted(h, held + multiset{e})
    ensures CanRelease(h, e)
    ensures Accounted(Release(h, e).0, held + Release(h, e).1)
  {
    HeldCanRelease(h, held + multiset{e}, e);
    ReleaseConserves(h, e);
    var (g, extra) := Release(h, e);
    var all := AllEdges(h) + (held + multiset{e});
    var rest := AllEdges(g) + (held + extra);
    assert all == rest + multiset{e};
    match e {
      case OwnTo(_) => ReleaseOwned(h, all, e, g, rest);
      case VecTo(_) => ReleaseOwned(h, all, e, g, rest);
      case WeakTo(_) =>
        LastWeakHasNoData(h, held + multiset{e}, e.off);
        ReleaseWeak(h, all, e, g, rest);
      case StrongTo(_) =>
        if h[e.off].Rc? {
          ReleaseRc(h, all, e, g, rest);
        } else {
          ReleaseData(h, all, e, g, rest);
        }
    }
  }

  /** Nothing dangles after a release if nothing still points at what it freed. */
  lemma NoneDangles(h: Store, all: multiset<Edge>, e: Edge, g: Store, rest: multiset<Edge>)
    requires Balanced(h, all) && all == rest + multiset{e}
    requires forall y <- h :: y in g || (y == e.off && HoldersOf(rest, y) == Holders(0, 0, 0, 0))
    ensures forall f <- rest :: f.off in g
  {
    forall f <- rest ensures f.off in g {
      assert f in all;
      assert HoldersOf(rest, f.off) != Holders(0, 0, 0, 0);
    }
  }

  lemma ReleaseOwned(h: Store, all: multiset<Edge>, e: Edge, g: Store, rest: multiset<Edge>)
    requires e.OwnTo? || e.VecTo?
    requires Balanced(h, all) && CanRelease(h, e) && g == h - {e.off}
    requires all == rest + multiset{e}
    ensures Balanced(g, rest)
  {
    assert HoldersOf(rest, e.off) == Holders(0, 0, 0, 0) by { assert BlockOk(h, all, e.off); }
    hide BlockOk;
    NoneDangles(h, all, e, g, rest);
    forall y <- g ensures BlockOk(g, rest, y) {
      ReleaseOwnedAt(h, all, e, rest, y);
    }
  }

  lemma ReleaseOwnedAt(h: Store, all: multiset<Edge>, e: Edge, rest: multiset<Edge>, y: Off)
    requires (e.OwnTo? || e.VecTo?) && CanRelease(h, e) && y in h && y != e.off
    requires BlockOk(h, all, y) && all == rest + multiset{e}
    ensures BlockOk(h - {e.off}, rest, y)
  {
    HoldersElsewhere(all, rest, e, y);
  }

  lemma ReleaseWeak(h: Store, all: multiset<Edge>, e: Edge, g: Store, rest: multiset<Edge>)
    requires Balanced(h, all) && e.WeakTo? && CanRelease(h, e) && Release(h, e).0 == g
    requires all == rest + multiset{e}
    requires h[e.off].weak == 1 ==> h[e.off].strong == 0
    ensures Balanced(g, rest)
  {
    assert e.off !in g ==> HoldersOf(rest, e.off) == Holders(0, 0, 0, 0) by { assert BlockOk(h, all, e.off); }
    hide BlockOk;
    NoneDangles(h, all, e, g, rest);
    forall y <- g ensures BlockOk(g, rest, y) {
      ReleaseWeakAt(h, all, e, rest, y);
    }
  }

  lemma ReleaseWeakAt(h: Store, all: multiset<Edge>, e: Edge, rest: multiset<Edge>, y: Off)
    requires e.WeakTo? && CanRelease(h, e) && y in Release(h, e).0
    requires h[e.off].weak == 1 ==> h[e.off].strong == 0
    requires BlockOk(h, all, e.off) && BlockOk(h, all, y) && all == rest + multiset{e}
    ensures BlockOk(Release(h, e).0, rest, y)
  {
    if y != e.off { HoldersElsewhere(all, rest, e, y); }
  }

  lemma ReleaseRc(h: Store, all: multiset<Edge>, e: Edge, g: Store, rest: multiset<Edge>)
    requires Balanced(h, all) && e.StrongTo? && CanRelease(h, e) && h[e.off].Rc? && Release(h, e).0 == g
    requires all == rest + multiset{e}
    ensures Balanced(g, rest)
  {
    hide BlockOk, Release;
    LastStrongGone(h, all, e, rest);
    NoneDangles(h, all, e, g, rest);
    forall y <- g ensures BlockOk(g, rest, y) {
      ReleaseRcAt(h, all, e, rest, y);
    }
  }

  /** A shared block is freed only with its last strong edge. */
  lemma LastStrongGone(h: Store, all: multiset<Edge>, e: Edge, rest: multiset<Edge>)
    requires CanRelease(h, e) && e.StrongTo? && BlockOk(h, all, e.off) && all == rest + multiset{e}
    ensures var g := Release(h, e).0;
      && (e.off !in g ==> HoldersOf(rest, e.off) == Holders(0, 0, 0, 0))
      && (forall y <- h :: y in g || y == e.off) && (forall y <- g :: y in h)
  {}

  lemma ReleaseRcAt(h: Store, all: multiset<Edge>, e: Edge, rest: multiset<Edge>, y: Off)
    requires e.StrongTo? && CanRelease(h, e) && h[e.off].Rc? && y in Release(h, e).0
    requires BlockOk(h, all, y) && all == rest + multiset{e}
    ensures BlockOk(Release(h, e).0, rest, y)
  {
    if y != e.off { HoldersElsewhere(all, rest, e, y); }
  }

  lemma ReleaseData(h: Store, all: multiset<Edge>, e: Edge, g: Store, rest: multiset<Edge>)
    requires Balanced(h, all) && e.StrongTo? && CanRelease(h, e) && h[e.off].Data? && Release(h, e).0 == g
    requires all == rest + multiset{e}
    ensures Balanced(g, rest)
  {
    hide BlockOk, Release, HoldersOf;
    LastStrongGone(h, all, e, rest);
    NoneDangles(h, all, e, g, rest);
    forall y <- g ensures BlockOk(g, rest, y) {
      ReleaseDataAt(h, all, e, rest, y);
    }
  }

  lemma ReleaseDataAt(h: Store, all: multiset<Edge>, e: Edge, rest: multiset<Edge>, y: Off)
    requires e.StrongTo? && CanRelease(h, e) && h[e.off].Data? && y in Release(h, e).0
    requires BlockOk(h, all, e.off) && BlockOk(h, all, h[e.off].ctrl) && BlockOk(h, all, y)
    requires all == rest + multiset{e}
    ensures BlockOk(Release(h, e).0, rest, y)
  {
    if y != e.off { HoldersElsewhere(all, rest, e, y); }
  }

  /** While the data lives its block holds a weak edge besides any held one, so a
      control block is never freed under a live data block. */
  lemma LastWeakHasNoData(h: Store, held: multiset<Edge>, c: Off)
    requires Accounted(h, held) && WeakTo(c) in held
    ensures c in h && h[c].Ctrl?
    ensures h[c].weak == 1 ==> h[c].strong == 0
  {
    var all := AllEdges(h) + held;
    assert WeakTo(c) in all;
    assert BlockOk(h, all, c);
    if h[c].strong > 0 {
      AllEdgesSplit(h, h[c].data);
    }
  }

  // ---- Rewriting the fields of one block ----

  /** Two images of the same block that differ at most in their fields. */
  predicate SameShell(a: Block, b: Block) {
    match (a, b)
    case (Plain(_), Plain(_)) => true
    case (Rc(n, _), Rc(m, _)) => n == m
    case (Data(c, _), Data(d, _)) => c == d
    case (VecData(_, _, _), VecData(_, _, _)) => true
    case _ => false
  }

  lemma {:induction false} EdgesUpdate(fs: seq<Field>, i: nat, f: Field)
    requires i < |fs|
    ensures Edges(fs[i := f]) + FieldEdges(fs[i]) == Edges(fs) + FieldEdges(f)
  {
    hide FieldEdges;
    if i == 0 {
      assert fs[0 := f][1..] == fs[1..];
    } else {
      var rest := fs[1..];
      EdgesUpdate(rest, i - 1, f);
      assert fs[i := f][1..] == rest[i - 1 := f];
      var head, tail := FieldEdges(fs[0]), Edges(rest[i - 1 := f]);
      assert Edges(fs[i := f]) + FieldEdges(fs[i]) == head + (tail + FieldEdges(rest[i - 1]));
      assert Edges(fs) + FieldEdges(f) == head + (Edges(rest) + FieldEdges(f));
    }
  }

  /** Storing the handles `take` in a block that gives the handles `give` in exchange. */
  lemma RewriteAccounted(h: Store, held: multiset<Edge>, x: Off, b: Block, take: multiset<Edge>, give: multiset<Edge>)
    requires Accounted(h, held + take) && x in h && SameShell(h[x], b)
    requires BlockEdges(b) + give == BlockEdges(h[x]) + take
    ensures Accounted(h[x := b], held + give)
  {
    var g := h[x := b];
    RewriteTotals(h, held, x, b, take, give);
    var all := AllEdges(g) + (held + give);
    forall y <- g ensures BlockOk(g, all, y) {
      hide BlockOk;
      RewriteBlockOk(h, all, x, b, y);
    }
    hide BlockOk;
  }

  lemma RewriteBlockOk(h: Store, all: multiset<Edge>, x: Off, b: Block, y: Off)
    requires Balanced(h, all) && x in h && SameShell(h[x], b) && y in h
    ensures BlockOk(h[x := b], all, y)
  {
    assert BlockOk(h, all, y);
  }

  predicate HasFields(b: Block) { b.Plain? || b.Rc? || b.Data? }

  /** The same exchange, stated on the fields. */
  lemma RewriteFieldsAccounted(h: Store, held: multiset<Edge>, x: Off, b: Block, take: multiset<Edge>, give: multiset<Edge>)
    requires Accounted(h, held + take) && x in h && SameShell(h[x], b) && HasFields(h[x]) && HasFields(b)
    requires Edges(b.fields) + give == Edges(h[x].fields) + take
    ensures Accounted(h[x := b], held + give)
  {
    hide Accounted;
    if b.Data? {
      var p := multiset{WeakTo(b.ctrl)};
      assert BlockEdges(b) + give == (Edges(b.fields) + give) + p;
      assert BlockEdges(h[x]) + take == (Edges(h[x].fields) + take) + p;
    }
    RewriteAccounted(h, held, x, b, take, give);
  }

  lemma RewriteTotals(h: Store, held: multiset<Edge>, x: Off, b: Block, take: multiset<Edge>, give: multiset<Edge>)
    requires x in h && BlockEdges(b) + give == BlockEdges(h[x]) + take
    ensures AllEdges(h[x := b]) + (held + give) == AllEdges(h) + (held + take)
  {
    hide BlockEdges;
    AllEdgesSplit(h, x);
    AllEdgesSplit(h[x := b], x);
    assert h[x := b] - {x} == h - {x};
    var rest := AllEdges(h - {x}) + held;
    assert AllEdges(h) + (held + take) == rest + (BlockEdges(h[x]) + take);
    assert AllEdges(h[x := b]) + (held + give) == rest + (BlockEdges(b) + give);
  }

  // ---- The allocator's side ----

  datatype Option<T> = None | Some(value: T)

  /** An abstract source of fresh non-zero offsets. */
  method FreshOffset(used: set<Off>) returns (off: Off)
    ensures off != 0 && off !in used
  {
    off := 1;
    var rest := used;
    while rest != {}
      invariant off >= 1 && rest <= used
      invariant forall x <- used :: x in rest || x < off
      decreases rest
    {
      var x :| x in rest;
      if x >= off { off := x + 1; }
      rest := rest - {x};
    }
  }

  /** The allocator: a fresh non-zero offset, or a failure. */
  method Allocate(h: Store, size: nat) returns (r: Option<Off>, g: Store)
    ensures r.Some? ==> r.value != 0 && r.value !in h && g == h[r.value := Raw(size)]
    ensures r.None? ==> g == h
  {
    if * { return None, h; }
    var off := FreshOffset(h.Keys);
    return Some(off), h[off := Raw(size)];
  }
}
