/** Uniquely owned trees inside the store: their shape, their footprint, relocation to
    fresh offsets, and how the accounting law behaves when a whole tree is added. */
module Tree {
  import opened Heap
  import opened Cascade

  /** What kind of block a node is: a record, or the out-of-line storage of a vector. */
  datatype Form = Record | Vector(cap: nat, rows: bool)

  function WithCap(f: Form, cap: nat): Form { if f.Vector? then f.(cap := cap) else f }

  /** A block of an owned tree at its offset. */
  datatype Node = Node(off: Off, form: Form, slots: seq<Slot>)

  datatype Slot =
    | Leaf(field: Field)         // a field that owns no block
    | Child(node: Node)          // an owned block or a vector's storage
    | Inline(inner: seq<Slot>)   // an embedded child

  /** A field that owns no block: plain data, a borrowed or shared reference, a null. */
  predicate OwnsNoBlock(f: Field) {
    !f.Embed? && (f.Own? || f.VecOf? ==> f.off == 0)
  }

  // ---- From trees to images ----

  function SlotField(s: Slot): Field
    decreases s, 1
  {
    match s
    case Leaf(f) => f
    case Child(n) => if n.form.Vector? then VecOf(n.off) else Own(n.off)
    case Inline(ss) => Embed(Fields(ss))
  }

  function Fields(ss: seq<Slot>): (fs: seq<Field>)
    ensures |fs| == |ss|
    decreases ss, 0
  {
    if ss == [] then [] else [SlotField(ss[0])] + Fields(ss[1..])
  }

  function Image(n: Node): Block {
    match n.form
    case Record => Plain(Fields(n.slots))
    case Vector(cap, rows) => VecData(cap, rows, Fields(n.slots))
  }

  function Handle(n: Node): Edge {
    if n.form.Vector? then VecTo(n.off) else OwnTo(n.off)
  }

  predicate WellFormedSlot(s: Slot)
    decreases s, 1
  {
    match s
    case Leaf(f) => OwnsNoBlock(f)
    case Child(n) => n.off != 0 && WellFormed(n.slots)
    case Inline(ss) => WellFormed(ss)
  }

  predicate WellFormed(ss: seq<Slot>)
    decreases ss, 0
  {
    ss == [] || (WellFormedSlot(ss[0]) && WellFormed(ss[1..]))
  }

  /** The offsets of a tree in post-order: children first, the root last. */
  function SlotOffs(s: Slot): seq<Off>
    decreases s, 1
  {
    match s
    case Leaf(_) => []
    case Child(n) => Offs(n.slots) + [n.off]
    case Inline(ss) => Offs(ss)
  }

  function Offs(ss: seq<Slot>): seq<Off>
    decreases ss, 0
  {
    if ss == [] then [] else SlotOffs(ss[0]) + Offs(ss[1..])
  }

  /** The shared edges a tree holds, all levels together. */
  function SlotShared(s: Slot): seq<Edge>
    decreases s, 1
  {
    match s
    case Leaf(Strong(o)) => if o == 0 then [] else [StrongTo(o)]
    case Leaf(Weak(o)) => if o == 0 then [] else [WeakTo(o)]
    case Leaf(_) => []
    case Child(n) => Shared(n.slots)
    case Inline(ss) => Shared(ss)
  }

  function Shared(ss: seq<Slot>): seq<Edge>
    decreases ss, 0
  {
    if ss == [] then [] else SlotShared(ss[0]) + Shared(ss[1..])
  }

  /** The tree is in the store, every block at its offset. */
  predicate SlotIn(h: Store, s: Slot)
    decreases s, 1
  {
    match s
    case Leaf(_) => true
    case Child(n) => n.off in h && h[n.off] == Image(n) && In(h, n.slots)
    case Inline(ss) => In(h, ss)
  }

  predicate In(h: Store, ss: seq<Slot>)
    decreases ss, 0
  {
    ss == [] || (SlotIn(h, ss[0]) && In(h, ss[1..]))
  }

  /** The store with the blocks of a tree written in post-order. */
  function GraftSlot(h: Store, s: Slot): Store
    decreases s, 1
  {
    match s
    case Leaf(_) => h
    case Child(n) => Graft(h, n.slots)[n.off := Image(n)]
    case Inline(ss) => Graft(h, ss)
  }

  function Graft(h: Store, ss: seq<Slot>): Store
    decreases ss, 0
  {
    if ss == [] then h else Graft(GraftSlot(h, ss[0]), ss[1..])
  }

  // ---- The abstract value of a tree, and relocation ----

  /** The value of a tree: everything except where its blocks are and how much spare
      capacity its vectors have. */
  function EraseSlot(s: Slot): Slot
    decreases s, 1
  {
    match s
    case Leaf(_) => s
    case Child(n) => Child(Node(0, WithCap(n.form, 0), Erase(n.slots)))
    case Inline(ss) => Inline(Erase(ss))
  }

  function Erase(ss: seq<Slot>): seq<Slot>
    decreases ss, 0
  {
    if ss == [] then [] else [EraseSlot(ss[0])] + Erase(ss[1..])
  }

  lemma EraseAt(ss: seq<Slot>)
    ensures |Erase(ss)| == |ss|
    ensures forall i :: 0 <= i < |ss| ==> Erase(ss)[i] == EraseSlot(ss[i])
  {
    if ss != [] { EraseAt(ss[1..]); }
  }

  /** Equal values: the same fields in the same places, the same kinds of blocks below them,
      and so on down; only offsets and spare capacity may differ. */
  lemma SameValue(s: Slot, t: Slot)
    requires EraseSlot(s) == EraseSlot(t)
    ensures s.Leaf? || t.Leaf? ==> s == t
    ensures s.Inline? ==>
      && t.Inline? && |s.inner| == |t.inner|
      && forall i :: 0 <= i < |s.inner| ==> EraseSlot(s.inner[i]) == EraseSlot(t.inner[i])
    ensures s.Child? ==>
      && t.Child? && |s.node.slots| == |t.node.slots|
      && (s.node.form.Record? <==> t.node.form.Record?)
      && (s.node.form.Vector? ==> s.node.form.rows == t.node.form.rows)
      && forall i :: 0 <= i < |s.node.slots| ==> EraseSlot(s.node.slots[i]) == EraseSlot(t.node.slots[i])
  {
    ErasedKind(s, t);
    hide Erase, EraseSlot;
    match s
    case Leaf(_) =>
    case Inline(ss) => SameErased(ss, t.inner);
    case Child(n) => SameErased(n.slots, t.node.slots);
  }

  lemma ErasedKind(s: Slot, t: Slot)
    requires EraseSlot(s) == EraseSlot(t)
    ensures s.Leaf? || t.Leaf? ==> s == t
    ensures s.Inline? ==> t.Inline? && Erase(s.inner) == Erase(t.inner)
    ensures s.Child? ==>
      && t.Child? && Erase(s.node.slots) == Erase(t.node.slots)
      && WithCap(s.node.form, 0) == WithCap(t.node.form, 0)
  {
    hide Erase;
  }

  lemma SameErased(ss: seq<Slot>, ts: seq<Slot>)
    requires Erase(ss) == Erase(ts)
    ensures |ss| == |ts| && forall i :: 0 <= i < |ss| ==> EraseSlot(ss[i]) == EraseSlot(ts[i])
  {
    hide Erase, EraseSlot;
    EraseAt(ss);
    EraseAt(ts);
    assert forall i :: 0 <= i < |ss| ==> Erase(ss)[i] == Erase(ts)[i];
  }

  function FieldWidth(f: Field): nat
    decreases f, 1
  {
    match f
    case Pod(b) => |b|
    case Own(_) => 8
    case Strong(_) => 8
    case Weak(_) => 8
    case Ref(_) => 8
    case Embed(inner) => 16 + Width(inner)
    case VecOf(_) => 16
  }

  function Width(fs: seq<Field>): nat
    decreases fs, 0
  {
    if fs == [] then 0 else FieldWidth(fs[0]) + Width(fs[1..])
  }

  /** The size of the block an image occupies: 16 bytes of header, then the payload. */
  function BlockSize(b: Block): nat {
    match b
    case Plain(fs) => 16 + Width(fs)
    case Rc(_, fs) => 24 + Width(fs)
    case Data(_, fs) => 24 + Width(fs)
    case Ctrl(_, _, _) => 40
    case VecData(cap, _, _) => 16 + cap
    case Raw(n) => n
  }

  /** A reference to one block. */
  predicate IsReference(f: Field) { f.Own? || f.Strong? || f.Weak? || f.Ref? }

  predicate AllReferences(fs: seq<Field>) { forall f <- fs :: IsReference(f) }

  /** A reference takes eight bytes, a vector's descriptor sixteen, plain data its bytes, and
      an embedded block its own sixteen-byte header before its fields. */
  lemma WidthOfOne(f: Field)
    ensures IsReference(f) ==> Width([f]) == 8
    ensures f.VecOf? ==> Width([f]) == 16
    ensures f.Pod? ==> Width([f]) == |f.bytes|
    ensures f.Embed? ==> Width([f]) == 16 + Width(f.inner)
  {
    var fs := [f];
    assert fs[1..] == [];
  }

  lemma {:induction false} WidthConcat(a: seq<Field>, b: seq<Field>)
    ensures Width(a + b) == Width(a) + Width(b)
  {
    hide FieldWidth;
    var ab := a + b;
    if a == [] {
      assert ab == b;
    } else {
      assert ab[0] == a[0] && ab[1..] == a[1..] + b;
      WidthConcat(a[1..], b);
    }
  }

  /** A list of references is eight bytes an element, whatever they refer to. */
  lemma {:induction false} ReferencesWidth(fs: seq<Field>)
    requires AllReferences(fs)
    ensures Width(fs) == 8 * |fs|
  {
    if fs != [] {
      assert fs[0] in fs && IsReference(fs[0]);
      ReferencesWidth(fs[1..]);
    }
  }

  /** The block of a record of references, and of a vector of them. */
  lemma BlockSizes(b: Block)
    ensures b.Plain? && AllReferences(b.fields) ==> BlockSize(b) == 16 + 8 * |b.fields|
    ensures (b.Rc? || b.Data?) && AllReferences(b.fields) ==> BlockSize(b) == 24 + 8 * |b.fields|
    ensures b.VecData? ==> BlockSize(b) == 16 + b.cap
    ensures b.Ctrl? ==> BlockSize(b) == 40
    ensures b.Raw? ==> BlockSize(b) == b.size
  {
    if HasFields(b) && AllReferences(b.fields) { ReferencesWidth(b.fields); }
  }

  function SlotCount(s: Slot): nat
    decreases s, 1
  {
    match s
    case Leaf(_) => 0
    case Child(n) => Count(n.slots) + 1
    case Inline(ss) => Count(ss)
  }

  /** The number of blocks below a list of slots. */
  function Count(ss: seq<Slot>): nat
    decreases ss, 0
  {
    if ss == [] then 0 else SlotCount(ss[0]) + Count(ss[1..])
  }

  /** The same tree at other offsets, given in post-order; vectors lose spare capacity. */
  function MoveSlot(s: Slot, at: seq<Off>): Slot
    requires |at| == SlotCount(s)
    decreases s, 1
  {
    match s
    case Leaf(_) => s
    case Child(n) => Child(MoveNode(n, at))
    case Inline(ss) => Inline(Move(ss, at))
  }

  function MoveNode(n: Node, at: seq<Off>): Node
    requires |at| == Count(n.slots) + 1
    decreases n, 2
  {
    var ss := Move(n.slots, at[..|at| - 1]);
    Node(at[|at| - 1], WithCap(n.form, Width(Fields(ss))), ss)
  }

  function Move(ss: seq<Slot>, at: seq<Off>): seq<Slot>
    requires |at| == Count(ss)
    decreases ss, 0
  {
    if ss == [] then [] else
      var k := SlotCount(ss[0]);
      [MoveSlot(ss[0], at[..k])] + Move(ss[1..], at[k..])
  }

  /** Relocation changes no value, holds the same shared edges, occupies exactly the
      given offsets and keeps every width. */
  lemma {:induction false} MoveSlotSame(s: Slot, at: seq<Off>)
    requires |at| == SlotCount(s)
    ensures EraseSlot(MoveSlot(s, at)) == EraseSlot(s)
    ensures SlotShared(MoveSlot(s, at)) == SlotShared(s)
    ensures SlotOffs(MoveSlot(s, at)) == at
    ensures FieldWidth(SlotField(MoveSlot(s, at))) == FieldWidth(SlotField(s))
    ensures WellFormedSlot(s) && 0 !in at ==> WellFormedSlot(MoveSlot(s, at))
    decreases s, 1
  {
    match s
    case Leaf(_) =>
    case Inline(ss) => MoveSame(ss, at);
    case Child(n) =>
      MoveSame(n.slots, at[..|at| - 1]);
      assert at == at[..|at| - 1] + [at[|at| - 1]];
  }

  lemma {:induction false} MoveSame(ss: seq<Slot>, at: seq<Off>)
    requires |at| == Count(ss)
    ensures Erase(Move(ss, at)) == Erase(ss)
    ensures Shared(Move(ss, at)) == Shared(ss)
    ensures Offs(Move(ss, at)) == at
    ensures Width(Fields(Move(ss, at))) == Width(Fields(ss))
    ensures WellFormed(ss) && 0 !in at ==> WellFormed(Move(ss, at))
    decreases ss, 0
  {
    if ss != [] {
      var k := SlotCount(ss[0]);
      MoveSlotSame(ss[0], at[..k]);
      MoveSame(ss[1..], at[k..]);
      assert at == at[..k] + at[k..];
      var moved := Move(ss, at);
      assert moved[0] == MoveSlot(ss[0], at[..k]) && moved[1..] == Move(ss[1..], at[k..]);
    }
  }

  /** Well-formed but for its offsets. */
  predicate Placeable(s: Slot)
    decreases s, 1
  {
    match s
    case Leaf(f) => OwnsNoBlock(f)
    case Child(n) => AllPlaceable(n.slots)
    case Inline(ss) => AllPlaceable(ss)
  }

  predicate AllPlaceable(ss: seq<Slot>)
    decreases ss, 0
  {
    ss == [] || (Placeable(ss[0]) && AllPlaceable(ss[1..]))
  }

  lemma {:induction false} PlacedWellFormed(s: Slot, at: seq<Off>)
    requires |at| == SlotCount(s) && Placeable(s) && 0 !in at
    ensures WellFormedSlot(MoveSlot(s, at))
    decreases s, 1
  {
    match s
    case Leaf(_) =>
    case Inline(ss) => AllPlacedWellFormed(ss, at);
    case Child(n) =>
      assert at[|at| - 1] in at;
      AllPlacedWellFormed(n.slots, at[..|at| - 1]);
  }

  lemma {:induction false} AllPlacedWellFormed(ss: seq<Slot>, at: seq<Off>)
    requires |at| == Count(ss) && AllPlaceable(ss) && 0 !in at
    ensures WellFormed(Move(ss, at))
    decreases ss, 0
  {
    if ss != [] {
      var k := SlotCount(ss[0]);
      PlacedWellFormed(ss[0], at[..k]);
      AllPlacedWellFormed(ss[1..], at[k..]);
      var x, y := MoveSlot(ss[0], at[..k]), Move(ss[1..], at[k..]);
      assert Move(ss, at) == [x] + y && ([x] + y)[1..] == y;
    }
  }

  // ---- Adding a tree to an accounted store ----

  /** An old block is as held as before if its holders are the same. */
  lemma StillOk(h: Store, g: Store, before: multiset<Edge>, after: multiset<Edge>, y: Off)
    requires y in h && BlockOk(h, before, y) && HoldersOf(after, y) == HoldersOf(before, y)
    requires forall z <- h :: z in g && g[z] == h[z]
    ensures BlockOk(g, after, y)
  {}

  /** The constructor law: writing an image at a fresh offset trades the edges it holds
      for the one handle on the new block. */
  lemma AllocAccounted(h: Store, held: multiset<Edge>, x: Off, b: Block)
    requires x != 0 && x !in h && (b.Plain? || b.VecData?)
    requires Accounted(h, held + BlockEdges(b))
    ensures Accounted(h[x := b], held + multiset{if b.Plain? then OwnTo(x) else VecTo(x)})
  {
    var g := h[x := b];
    var e := if b.Plain? then OwnTo(x) else VecTo(x);
    var before, after := AllEdges(h) + (held + BlockEdges(b)), AllEdges(g) + (held + multiset{e});
    AllEdgesInsert(h, x, b);
    assert after == before + multiset{e};
    AllocBalanced(h, before, after, x, b, e);
  }

  lemma AllocBalanced(h: Store, before: multiset<Edge>, after: multiset<Edge>, x: Off, b: Block, e: Edge)
    requires Balanced(h, before) && x != 0 && x !in h && after == before + multiset{e}
    requires (b.Plain? && e == OwnTo(x)) || (b.VecData? && e == VecTo(x))
    ensures Balanced(h[x := b], after)
  {
    var g := h[x := b];
    FreshHasNoHolders(h, before, x);
    assert BlockOk(g, after, x);
    forall y <- h ensures BlockOk(g, after, y) {
      hide BlockOk;
      HoldersElsewhere(after, before, e, y);
      StillOk(h, g, before, after, y);
    }
  }

  lemma FreshHasNoHolders(h: Store, all: multiset<Edge>, x: Off)
    requires Balanced(h, all) && x !in h
    ensures HoldersOf(all, x) == Holders(0, 0, 0, 0)
  {
    assert forall e <- all :: e.off != x;
  }

  predicate Fresh(h: Store, offs: seq<Off>) {
    && (forall i :: 0 <= i < |offs| ==> offs[i] != 0 && offs[i] !in h)
    && (forall i, j :: 0 <= i < j < |offs| ==> offs[i] != offs[j])
  }

  lemma {:induction false} SlotEdges(s: Slot)
    requires WellFormedSlot(s)
    ensures s.Leaf? ==> FieldEdges(SlotField(s)) == multiset(SlotShared(s))
    ensures s.Child? ==> FieldEdges(SlotField(s)) == multiset{Handle(s.node)}
  {}

  lemma Unfold(ss: seq<Slot>)
    requires ss != []
    ensures multiset(Shared(ss)) == multiset(SlotShared(ss[0])) + multiset(Shared(ss[1..]))
    ensures Offs(ss) == SlotOffs(ss[0]) + Offs(ss[1..])
    ensures Edges(Fields(ss)) == FieldEdges(SlotField(ss[0])) + Edges(Fields(ss[1..]))
    ensures WellFormed(ss) ==> WellFormedSlot(ss[0]) && WellFormed(ss[1..])
    ensures forall h :: Graft(h, ss) == Graft(GraftSlot(h, ss[0]), ss[1..])
  {
    assert Fields(ss)[0] == SlotField(ss[0]) && Fields(ss)[1..] == Fields(ss[1..]);
  }

  /** Adding a whole tree at fresh offsets trades its shared edges for the edges of its
      top-level fields. */
  lemma {:induction false} GraftAccounted(h: Store, held: multiset<Edge>, ss: seq<Slot>)
    requires WellFormed(ss) && Fresh(h, Offs(ss))
    requires Accounted(h, held + multiset(Shared(ss)))
    ensures Accounted(Graft(h, ss), held + Edges(Fields(ss)))
    decreases ss, 0
  {
    hide Accounted, Fresh;
    if ss == [] {
      assert held + multiset(Shared(ss)) == held + Edges(Fields(ss));
    } else {
      hide Shared, Offs, Edges, Fields, WellFormed, Graft;
      Unfold(ss);
      var s, rest := ss[0], ss[1..];
      var mine, theirs := multiset(SlotShared(s)), multiset(Shared(rest));
      var f := FieldEdges(SlotField(s));
      FreshSplit(h, SlotOffs(s), Offs(rest));
      assert held + multiset(Shared(ss)) == (held + theirs) + mine;
      GraftSlotAccounted(h, held + theirs, s);
      GraftSlotIn(h, s);
      FreshAfter(h, GraftSlot(h, s), SlotOffs(s), Offs(rest));
      assert (held + theirs) + f == (held + f) + theirs;
      GraftAccounted(GraftSlot(h, s), held + f, rest);
      assert (held + f) + Edges(Fields(rest)) == held + Edges(Fields(ss));
    }
  }

  lemma {:induction false} GraftSlotAccounted(h: Store, held: multiset<Edge>, s: Slot)
    requires WellFormedSlot(s) && Fresh(h, SlotOffs(s))
    requires Accounted(h, held + multiset(SlotShared(s)))
    ensures Accounted(GraftSlot(h, s), held + FieldEdges(SlotField(s)))
    decreases s, 1
  {
    hide Accounted, Fresh;
    match s
    case Leaf(_) => SlotEdges(s);
    case Inline(ss) => GraftAccounted(h, held, ss);
    case Child(n) =>
      hide Graft, Offs, Shared, Fields, FieldEdges, BlockEdges;
      RootShared(n);
      var g := Graft(h, n.slots);
      FreshSplit(h, Offs(n.slots), [n.off]);
      GraftAccounted(h, held, n.slots);
      GraftIn(h, n.slots);
      FreshAfter(h, g, Offs(n.slots), [n.off]);
      FreshRoot(g, n.off);
      AllocAccounted(g, held, n.off, Image(n));
  }

  lemma RootShared(n: Node)
    ensures SlotShared(Child(n)) == Shared(n.slots) && SlotOffs(Child(n)) == Offs(n.slots) + [n.off]
    ensures n.off != 0 ==> FieldEdges(SlotField(Child(n))) == multiset{Handle(n)}
    ensures BlockEdges(Image(n)) == Edges(Fields(n.slots))
  {}

  lemma FreshRoot(h: Store, x: Off)
    requires Fresh(h, [x])
    ensures x != 0 && x !in h
  {
    assert x == [x][0];
  }

  lemma FreshSplit(h: Store, a: seq<Off>, b: seq<Off>)
    requires Fresh(h, a + b)
    ensures Fresh(h, a) && Fresh(h, b) && (forall o <- a :: o !in b)
  {
    var c := a + b;
    forall i | 0 <= i < |a| ensures a[i] != 0 && a[i] !in h { assert c[i] == a[i]; }
    forall i | 0 <= i < |b| ensures b[i] != 0 && b[i] !in h { assert c[|a| + i] == b[i]; }
    forall i, j | 0 <= i < j < |a| ensures a[i] != a[j] { assert c[i] == a[i] && c[j] == a[j]; }
    forall i, j | 0 <= i < j < |b| ensures b[i] != b[j] { assert c[|a| + i] == b[i] && c[|a| + j] == b[j]; }
    forall i, j | 0 <= i < |a| && 0 <= j < |b| ensures a[i] != b[j] {
      assert c[i] == a[i] && c[|a| + j] == b[j];
    }
  }

  lemma FreshAfter(h: Store, g: Store, a: seq<Off>, b: seq<Off>)
    requires Fresh(h, b) && g.Keys == h.Keys + Range(a) && forall o <- a :: o !in b
    ensures Fresh(g, b)
  {}

  /** After grafting, the tree is in the store. */
  lemma {:induction false} GraftIn(h: Store, ss: seq<Slot>)
    requires Fresh(h, Offs(ss))
    ensures In(Graft(h, ss), ss)
    ensures Graft(h, ss).Keys == h.Keys + Range(Offs(ss))
    ensures forall x <- h :: Graft(h, ss)[x] == h[x]
    decreases ss, 0
  {
    if ss != [] {
      var s, rest := ss[0], ss[1..];
      FreshSplit(h, SlotOffs(s), Offs(rest));
      GraftSlotIn(h, s);
      var g := GraftSlot(h, s);
      FreshAfter(h, g, SlotOffs(s), Offs(rest));
      GraftIn(g, rest);
      SlotInLarger(g, Graft(g, rest), s);
      assert Range(Offs(ss)) == Range(SlotOffs(s)) + Range(Offs(rest)) by {
        forall o ensures o in Offs(ss) <==> o in SlotOffs(s) || o in Offs(rest) {}
      }
    }
  }

  lemma {:induction false} GraftSlotIn(h: Store, s: Slot)
    requires Fresh(h, SlotOffs(s))
    ensures SlotIn(GraftSlot(h, s), s)
    ensures GraftSlot(h, s).Keys == h.Keys + Range(SlotOffs(s))
    ensures forall x <- h :: GraftSlot(h, s)[x] == h[x]
    decreases s, 1
  {
    match s
    case Leaf(_) =>
    case Inline(ss) => GraftIn(h, ss);
    case Child(n) =>
      var a := Offs(n.slots);
      FreshSplit(h, a, [n.off]);
      GraftIn(h, n.slots);
      var g := Graft(h, n.slots);
      FreshAfter(h, g, a, [n.off]);
      assert n.off == [n.off][0];
      InLarger(g, g[n.off := Image(n)], n.slots);
      assert Range(a + [n.off]) == Range(a) + {n.off} by {
        forall o ensures o in a + [n.off] <==> o in a || o == n.off {}
      }
  }

  lemma {:induction false} SlotInLarger(h: Store, g: Store, s: Slot)
    requires SlotIn(h, s) && forall x <- h :: x in g && g[x] == h[x]
    ensures SlotIn(g, s)
    decreases s, 1
  {
    match s
    case Leaf(_) =>
    case Child(n) => InLarger(h, g, n.slots);
    case Inline(ss) => InLarger(h, g, ss);
  }

  lemma {:induction false} InLarger(h: Store, g: Store, ss: seq<Slot>)
    requires In(h, ss) && forall x <- h :: x in g && g[x] == h[x]
    ensures In(g, ss)
    decreases ss, 0
  {
    if ss != [] {
      SlotInLarger(h, g, ss[0]);
      InLarger(h, g, ss[1..]);
    }
  }
}
