/** Construction of a block from the handles of its fields: the images a constructor
    writes, and the law it keeps at every step. */
module Construct {
  import opened Heap
  import opened Cascade
  import opened Laws
  import opened Tree

  datatype Shape = PlainBlock | RcBlock | RcWeakBlock

  /** What a constructor is given for one field, and what a move returns for it: a value
      or handle stored as it is, or an owned block whose image lives inline. */
  datatype Arg = Stored(field: Field) | Inlined(child: Off)

  /** How an operation ends for its caller: with a handle, with the handles of the fields,
      with an error that returns nothing, or with an error before anything was freed. */
  datatype Outcome = Done(handle: Edge) | Handed(args: seq<Arg>) | Lost | Stuck

  /** Weak fields start unset; vectors are built by their own constructor. */
  predicate Takes(a: Arg) {
    match a
    case Stored(f) => !f.Embed? && !f.VecOf? && (f.Weak? ==> f.off == 0)
    case Inlined(c) => c != 0
  }

  predicate AllTaken(args: seq<Arg>) { forall a <- args :: Takes(a) }

  /** What an image can be built from: the laws below hold for vector handles and set weak
      fields as well. */
  predicate Places(a: Arg) {
    match a
    case Stored(f) => !f.Embed?
    case Inlined(c) => c != 0
  }

  predicate AllPlaced(args: seq<Arg>) { forall a <- args :: Places(a) }

  /** A constructor takes values, owned and borrowed references, strong handles and embedded
      children. */
  lemma NewTakes(f: Field, c: Off)
    ensures f.Pod? || f.Own? || f.Strong? || f.Ref? ==> Takes(Stored(f))
    ensures f == Weak(0) ==> Takes(Stored(f))
    ensures c != 0 ==> Takes(Inlined(c))
  {}

  lemma TakenPlaces(args: seq<Arg>)
    requires AllTaken(args)
    ensures AllPlaced(args)
  {}

  // ---- The handles among the arguments ----

  function ArgHandle(a: Arg): seq<Edge> {
    match a
    case Inlined(c) => [OwnTo(c)]
    case Stored(Own(o)) => if o == 0 then [] else [OwnTo(o)]
    case Stored(VecOf(o)) => if o == 0 then [] else [VecTo(o)]
    case Stored(Strong(o)) => if o == 0 then [] else [StrongTo(o)]
    case Stored(Weak(o)) => if o == 0 then [] else [WeakTo(o)]
    case Stored(_) => []
  }

  /** The handles of the arguments that satisfy `keep`, in order. */
  function HandlesOf(args: seq<Arg>, keep: Arg -> bool): seq<Edge> {
    if args == [] then [] else
      (if keep(args[0]) then ArgHandle(args[0]) else []) + HandlesOf(args[1..], keep)
  }

  predicate Any(a: Arg) { true }
  predicate IsStored(a: Arg) { a.Stored? }
  predicate IsInlined(a: Arg) { a.Inlined? }

  /** Strong and weak handles release their count when dropped; the handle of an owned block
      or of a vector is only forgotten. */
  predicate Releases(a: Arg) { a.Stored? && (a.field.Strong? || a.field.Weak?) }

  function ArgsEdges(args: seq<Arg>): multiset<Edge> { multiset(HandlesOf(args, Any)) }

  /** The handles that become edges of the new image at once. */
  function StoredEdges(args: seq<Arg>): multiset<Edge> { multiset(HandlesOf(args, IsStored)) }

  /** The handles on the blocks that are to be embedded. */
  function InlinedEdges(args: seq<Arg>): multiset<Edge> { multiset(HandlesOf(args, IsInlined)) }

  /** The handles that release themselves when dropped. */
  function ReleasingEdges(args: seq<Arg>): multiset<Edge> { multiset(HandlesOf(args, Releases)) }

  function Children(args: seq<Arg>): set<Off> {
    set a <- args | a.Inlined? :: a.child
  }

  lemma {:induction false} HandlesConcat(a: seq<Arg>, b: seq<Arg>, keep: Arg -> bool)
    ensures HandlesOf(a + b, keep) == HandlesOf(a, keep) + HandlesOf(b, keep)
  {
    hide ArgHandle;
    var ab := a + b;
    if a == [] {
      assert ab == b;
    } else {
      assert ab[0] == a[0] && ab[1..] == a[1..] + b;
      HandlesConcat(a[1..], b, keep);
      ConcatAssociates(if keep(a[0]) then ArgHandle(a[0]) else [], HandlesOf(a[1..], keep), HandlesOf(b, keep));
    }
  }

  lemma {:induction false} EdgesSplit(args: seq<Arg>)
    ensures ArgsEdges(args) == StoredEdges(args) + InlinedEdges(args)
    ensures ReleasingEdges(args) <= ArgsEdges(args)
  {
    if args != [] { EdgesSplit(args[1..]); }
  }

  lemma NoneInlinedLeft(args: seq<Arg>)
    requires args == []
    ensures InlinedEdges(args) == multiset{}
  {}

  lemma {:induction false} InlinedHeld(args: seq<Arg>, c: Off)
    ensures Inlined(c) in args <==> OwnTo(c) in InlinedEdges(args)
  {
    if args != [] {
      InlinedHeld(args[1..], c);
      assert args == [args[0]] + args[1..];
    }
  }

  // ---- The images of a block under construction ----

  /** The all-zero image of a child's type. */
  function ZeroField(f: Field): Field
    decreases f, 1
  {
    match f
    case Pod(b) => Pod(seq(|b|, _ => 0))
    case Own(_) => Own(0)
    case Strong(_) => Strong(0)
    case Weak(_) => Weak(0)
    case Ref(_) => Ref(0)
    case VecOf(_) => VecOf(0)
    case Embed(inner) => Embed(Zeroed(inner))
  }

  function Zeroed(fs: seq<Field>): seq<Field>
    decreases fs, 0
  {
    if fs == [] then [] else [ZeroField(fs[0])] + Zeroed(fs[1..])
  }

  lemma {:induction false} ZeroedHoldsNothing(fs: seq<Field>)
    ensures Edges(Zeroed(fs)) == multiset{}
    decreases fs, 0
  {
    if fs != [] {
      ZeroHoldsNothing(fs[0]);
      ZeroedHoldsNothing(fs[1..]);
      assert Zeroed(fs)[1..] == Zeroed(fs[1..]);
    }
  }

  lemma {:induction false} ZeroHoldsNothing(f: Field)
    ensures FieldEdges(ZeroField(f)) == multiset{}
    decreases f, 1
  {
    if f.Embed? { ZeroedHoldsNothing(f.inner); }
  }

  /** Nothing but zeros: no byte set and no reference. */
  predicate AllZero(f: Field)
    decreases f, 1
  {
    match f
    case Pod(b) => forall x <- b :: x == 0
    case Embed(inner) => AllZeros(inner)
    case _ => f.off == 0
  }

  predicate AllZeros(fs: seq<Field>)
    decreases fs, 0
  {
    fs == [] || (AllZero(fs[0]) && AllZeros(fs[1..]))
  }

  /** The zero image reserves exactly the room of the child's. */
  lemma {:induction false} ZeroedFits(fs: seq<Field>)
    ensures Width(Zeroed(fs)) == Width(fs) && AllZeros(Zeroed(fs))
    decreases fs, 0
  {
    if fs != [] {
      ZeroFits(fs[0]);
      ZeroedFits(fs[1..]);
      assert Zeroed(fs)[1..] == Zeroed(fs[1..]);
    }
  }

  lemma {:induction false} ZeroFits(f: Field)
    ensures FieldWidth(ZeroField(f)) == FieldWidth(f) && AllZero(ZeroField(f))
    decreases f, 1
  {
    if f.Embed? { ZeroedFits(f.inner); }
  }

  predicate ChildrenPlain(h: Store, args: seq<Arg>) {
    forall a <- args | a.Inlined? :: a.child in h && h[a.child].Plain?
  }

  function ArgField(h: Store, a: Arg, copied: bool): Field
    requires a.Inlined? ==> a.child in h && h[a.child].Plain?
  {
    match a
    case Stored(f) => f
    case Inlined(c) => Embed(if copied then h[c].fields else Zeroed(h[c].fields))
  }

  function ArgFields(h: Store, args: seq<Arg>, copied: bool): (fs: seq<Field>)
    requires ChildrenPlain(h, args)
    ensures |fs| == |args|
    ensures forall i :: 0 <= i < |args| ==> fs[i] == ArgField(h, args[i], copied)
  {
    if args == [] then [] else [ArgField(h, args[0], copied)] + ArgFields(h, args[1..], copied)
  }

  function NewImage(shape: Shape, fs: seq<Field>, c: Off): Block {
    match shape
    case PlainBlock => Plain(fs)
    case RcBlock => Rc(1, fs)
    case RcWeakBlock => Data(c, fs)
  }

  function NewHandle(shape: Shape, x: Off): Edge {
    if shape.PlainBlock? then OwnTo(x) else StrongTo(x)
  }

  /** The store with `gone` freed and the new block, paired with a control block or not. */
  function Around(h: Store, gone: set<Off>, x: Off, b: Block, paired: bool, c: Off): Store {
    var g := (h - gone)[x := b];
    if paired then g[c := Ctrl(1, 1, x)] else g
  }

  /** The store after the image is committed and the first `i` arguments are in place:
      embedded children among them are copied in and their shells are free. */
  function BuiltUpTo(h: Store, shape: Shape, args: seq<Arg>, i: nat, x: Off, c: Off): Store
    requires i <= |args| && ChildrenPlain(h, args)
  {
    var fs := ArgFields(h, args[..i], true) + ArgFields(h, args[i..], false);
    Around(h, Children(args[..i]), x, NewImage(shape, fs, c), shape.RcWeakBlock?, c)
  }

  lemma {:induction false} CopiedWidth(h: Store, args: seq<Arg>)
    requires ChildrenPlain(h, args)
    ensures Width(ArgFields(h, args, true)) == Width(ArgFields(h, args, false))
  {
    if args != [] {
      var fs, gs := ArgFields(h, args, true), ArgFields(h, args, false);
      assert fs[1..] == ArgFields(h, args[1..], true) && gs[1..] == ArgFields(h, args[1..], false);
      CopiedWidth(h, args[1..]);
      if args[0].Inlined? { ZeroedFits(h[args[0].child].fields); }
    }
  }

  /** The block keeps the size it was allocated with while children are copied in. */
  lemma BuiltFits(h: Store, shape: Shape, args: seq<Arg>, i: nat, x: Off, c: Off)
    requires i <= |args| && ChildrenPlain(h, args) && x !in h && (shape.RcWeakBlock? ==> c != x)
    ensures x in BuiltUpTo(h, shape, args, i, x, c)
    ensures BlockSize(BuiltUpTo(h, shape, args, i, x, c)[x])
            == (if shape.PlainBlock? then 16 else 24) + Width(ArgFields(h, args, false))
  {
    hide ArgFields, Width;
    BuiltWidth(h, args, i);
  }

  lemma BuiltWidth(h: Store, args: seq<Arg>, i: nat)
    requires i <= |args| && ChildrenPlain(h, args)
    ensures Width(ArgFields(h, args[..i], true) + ArgFields(h, args[i..], false)) == Width(ArgFields(h, args, false))
  {
    hide ArgFields, Width, ArgField;
    var todo := ArgFields(h, args[i..], false);
    CopiedWidth(h, args[..i]);
    WidthConcat(ArgFields(h, args[..i], true), todo);
    WidthConcat(ArgFields(h, args[..i], false), todo);
    assert ArgFields(h, args, false) == ArgFields(h, args[..i], false) + todo;
  }

  // ---- The construction law ----

  lemma InitEdge(h: Store, a: Arg)
    requires if a.Inlined? then a.child in h && h[a.child].Plain? else !a.field.Embed?
    ensures FieldEdges(ArgField(h, a, false)) == multiset(if a.Stored? then ArgHandle(a) else [])
  {
    if a.Inlined? { ZeroedHoldsNothing(h[a.child].fields); }
  }

  lemma {:induction false} InitEdges(h: Store, args: seq<Arg>)
    requires ChildrenPlain(h, args) && forall a <- args | a.Stored? :: !a.field.Embed?
    ensures Edges(ArgFields(h, args, false)) == StoredEdges(args)
  {
    if args != [] {
      hide FieldEdges, ArgField, ArgHandle;
      var fs := ArgFields(h, args, false);
      assert fs[1..] == ArgFields(h, args[1..], false);
      assert forall a <- args[1..] :: a in args;
      InitEdges(h, args[1..]);
      InitEdge(h, args[0]);
    }
  }

  lemma ChildrenAreLive(h: Store, held: multiset<Edge>, args: seq<Arg>)
    requires Accounted(h, held + ArgsEdges(args))
    ensures ChildrenPlain(h, args)
  {
    forall a <- args | a.Inlined? ensures a.child in h && h[a.child].Plain? {
      EdgesSplit(args);
      InlinedHeld(args, a.child);
      HeldCanRelease(h, held + ArgsEdges(args), OwnTo(a.child));
    }
  }

  /** Writing an image with an inline count of one. */
  lemma AllocRcAccounted(h: Store, held: multiset<Edge>, x: Off, fs: seq<Field>)
    requires x != 0 && x !in h && Accounted(h, held + Edges(fs))
    ensures Accounted(h[x := Rc(1, fs)], held + multiset{StrongTo(x)})
  {
    var g, e := h[x := Rc(1, fs)], StrongTo(x);
    var before, after := AllEdges(h) + (held + Edges(fs)), AllEdges(g) + (held + multiset{e});
    AllEdgesInsert(h, x, Rc(1, fs));
    assert after == before + multiset{e};
    RcBalanced(h, before, after, x, fs);
  }

  lemma RcBalanced(h: Store, before: multiset<Edge>, after: multiset<Edge>, x: Off, fs: seq<Field>)
    requires Balanced(h, before) && x != 0 && x !in h && after == before + multiset{StrongTo(x)}
    ensures Balanced(h[x := Rc(1, fs)], after)
  {
    var g := h[x := Rc(1, fs)];
    FreshHasNoHolders(h, before, x);
    assert BlockOk(g, after, x);
    forall y <- h ensures BlockOk(g, after, y) {
      hide BlockOk;
      HoldersElsewhere(after, before, StrongTo(x), y);
      StillOk(h, g, before, after, y);
    }
  }

  /** Writing a data block and its control block in one commit. */
  lemma AllocPairAccounted(h: Store, held: multiset<Edge>, x: Off, c: Off, fs: seq<Field>)
    requires x != 0 && c != 0 && x != c && x !in h && c !in h && Accounted(h, held + Edges(fs))
    ensures Accounted(h[x := Data(c, fs)][c := Ctrl(1, 1, x)], held + multiset{StrongTo(x)})
  {
    hide Balanced, BlockOk, Edges, FieldEdges, AllEdges;
    var d := h[x := Data(c, fs)];
    var g := d[c := Ctrl(1, 1, x)];
    var before, after := AllEdges(h) + (held + Edges(fs)), AllEdges(g) + (held + multiset{StrongTo(x)});
    AllEdgesInsert(h, x, Data(c, fs));
    AllEdgesInsert(d, c, Ctrl(1, 1, x));
    assert BlockEdges(Data(c, fs)) == Edges(fs) + multiset{WeakTo(c)};
    assert after == before + multiset{WeakTo(c), StrongTo(x)};
    PairBalanced(h, g, before, after, x, c, fs);
  }

  lemma PairBalanced(h: Store, g: Store, before: multiset<Edge>, after: multiset<Edge>, x: Off, c: Off,
                     fs: seq<Field>)
    requires Balanced(h, before) && x != 0 && c != 0 && x != c && x !in h && c !in h
    requires g == h[x := Data(c, fs)][c := Ctrl(1, 1, x)]
    requires after == before + multiset{WeakTo(c), StrongTo(x)}
    ensures Balanced(g, after)
  {
    hide BlockOk;
    PairOk(h, g, before, after, x, c, fs);
    forall y <- h ensures BlockOk(g, after, y) {
      assert HoldersOf(after, y) == HoldersOf(before, y);
      StillOk(h, g, before, after, y);
    }
  }

  lemma PairOk(h: Store, g: Store, before: multiset<Edge>, after: multiset<Edge>, x: Off, c: Off, fs: seq<Field>)
    requires Balanced(h, before) && x != c && x !in h && c !in h
    requires g == h[x := Data(c, fs)][c := Ctrl(1, 1, x)] && after == before + multiset{WeakTo(c), StrongTo(x)}
    ensures BlockOk(g, after, x) && BlockOk(g, after, c)
  {
    FreshHasNoHolders(h, before, x);
    FreshHasNoHolders(h, before, c);
  }

  lemma NothingInPlace(h: Store, shape: Shape, args: seq<Arg>, x: Off, c: Off)
    requires ChildrenPlain(h, args)
    ensures BuiltUpTo(h, shape, args, 0, x, c)
            == Around(h, {}, x, NewImage(shape, ArgFields(h, args, false), c), shape.RcWeakBlock?, c)
  {
    assert args[..0] == [] && args[0..] == args;
    var none, fs: seq<Field> := [], ArgFields(h, args, false);
    assert none + fs == fs;
    assert Children(args[..0]) == {};
  }

  /** Committing the image trades the stored handles for the one on the new block. */
  lemma CommitAccounted(h: Store, held: multiset<Edge>, shape: Shape, args: seq<Arg>, x: Off, c: Off)
    requires Accounted(h, held + ArgsEdges(args)) && ChildrenPlain(h, args) && AllPlaced(args)
    requires x != 0 && x !in h && (shape.RcWeakBlock? ==> c != 0 && c != x && c !in h)
    ensures Accounted(BuiltUpTo(h, shape, args, 0, x, c), held + InlinedEdges(args) + multiset{NewHandle(shape, x)})
  {
    hide Accounted, BuiltUpTo, ArgFields, ArgsEdges, InlinedEdges, Edges;
    var fs, rest := ArgFields(h, args, false), held + InlinedEdges(args);
    InitEdges(h, args);
    EdgesSplit(args);
    assert held + ArgsEdges(args) == rest + Edges(fs);
    NothingInPlace(h, shape, args, x, c);
    assert h - {} == h;
    match shape
    case PlainBlock => AllocAccounted(h, rest, x, Plain(fs));
    case RcBlock => AllocRcAccounted(h, rest, x, fs);
    case RcWeakBlock => AllocPairAccounted(h, rest, x, c, fs);
  }

  function BlockFields(b: Block): seq<Field>
    requires HasFields(b)
  {
    b.fields
  }

  predicate HasField(b: Block, i: nat) { HasFields(b) && i < |b.fields| }

  /** The block with one of its fields overwritten in place. */
  function WithField(b: Block, i: nat, f: Field): Block
    requires HasField(b, i)
  {
    b.(fields := b.fields[i := f])
  }

  lemma EmbedHandles(f: Field)
    requires f.Embed?
    ensures FieldEdges(f) == Edges(f.inner)
  {}

  /** Copying a child's image into its zeroed slot and freeing the child's shell. */
  lemma EmbedAccounted(g: Store, held: multiset<Edge>, x: Off, i: nat, k: Off)
    requires Accounted(g, held + multiset{OwnTo(k)}) && x in g && k in g && x != k && g[k].Plain?
    requires HasField(g[x], i) && FieldEdges(g[x].fields[i]) == multiset{}
    ensures Accounted((g - {k})[x := WithField(g[x], i, Embed(g[k].fields))], held)
  {
    hide Accounted, FieldEdges, Edges;
    var inner := g[k].fields;
    var b := WithField(g[x], i, Embed(inner));
    ReleaseAccounted(g, held, OwnTo(k));
    EdgesUpdate(g[x].fields, i, Embed(inner));
    assert FieldEdges(Embed(inner)) == Edges(inner) by { EmbedHandles(Embed(inner)); }
    assert held + multiset{} == held;
    assert (g - {k})[x] == g[x] && BlockEdges(g[k]) == Edges(inner);
    assert Edges(b.fields) + multiset{} == Edges(g[x].fields) + Edges(inner);
    RewriteFieldsAccounted(g - {k}, held, x, b, Edges(inner), multiset{});
  }

  lemma PlacedNext(h: Store, args: seq<Arg>, i: nat)
    requires ChildrenPlain(h, args) && i < |args|
    ensures ArgFields(h, args[..i + 1], true) == ArgFields(h, args[..i], true) + [ArgField(h, args[i], true)]
  {
    hide ArgFields, ArgField;
  }

  lemma PendingNext(h: Store, args: seq<Arg>, i: nat)
    requires ChildrenPlain(h, args) && i < |args|
    ensures ArgFields(h, args[i..], false) == [ArgField(h, args[i], false)] + ArgFields(h, args[i + 1..], false)
  {
    hide ArgFields, ArgField;
  }

  lemma FieldsStep(h: Store, args: seq<Arg>, i: nat)
    requires ChildrenPlain(h, args) && i < |args|
    ensures var done, next := ArgFields(h, args[..i], true) + ArgFields(h, args[i..], false),
                              ArgFields(h, args[..i + 1], true) + ArgFields(h, args[i + 1..], false);
      && |done| == |next| == |args| && done[i] == ArgField(h, args[i], false)
      && next == done[i := ArgField(h, args[i], true)]
      && (args[i].Stored? ==> next == done)
  {
    hide ArgFields;
    var old0, todo := ArgFields(h, args[..i], true), ArgFields(h, args[i..], false);
    var old1, rest := ArgFields(h, args[..i + 1], true), ArgFields(h, args[i + 1..], false);
    PlacedNext(h, args, i);
    PendingNext(h, args, i);
  }

  /** A stored argument needs no post-write step. */
  lemma StoredInPlace(h: Store, shape: Shape, args: seq<Arg>, i: nat, x: Off, c: Off)
    requires i < |args| && ChildrenPlain(h, args) && args[i].Stored?
    ensures BuiltUpTo(h, shape, args, i + 1, x, c) == BuiltUpTo(h, shape, args, i, x, c)
  {
    hide ArgFields, ArgField, NewImage, Around;
    FieldsStep(h, args, i);
    assert Children(args[..i + 1]) == Children(args[..i]) by { ChildrenNext(args, i); }
  }

  lemma ChildrenNext(args: seq<Arg>, i: nat)
    requires i < |args|
    ensures Children(args[..i + 1]) == Children(args[..i]) + (if args[i].Inlined? then {args[i].child} else {})
  {
    assert args[..i + 1] == args[..i] + [args[i]];
  }

  lemma AroundStep(h: Store, gone: set<Off>, x: Off, a: Block, b: Block, paired: bool, c: Off, k: Off)
    requires k in h && k !in gone && x !in h && (paired ==> c !in h && c != x)
    ensures var g := Around(h, gone, x, a, paired, c);
      && x in g && g[x] == a && k in g && k != x && g[k] == h[k]
      && Around(h, gone + {k}, x, b, paired, c) == (g - {k})[x := b]
  {}

  /** An embedded child is copied into its slot and its shell freed. */
  lemma ChildInPlace(h: Store, shape: Shape, args: seq<Arg>, i: nat, x: Off, c: Off)
    requires i < |args| && ChildrenPlain(h, args) && x !in h
    requires args[i].Inlined? && args[i].child !in Children(args[..i])
    requires shape.RcWeakBlock? ==> c !in h && c != x
    ensures var k, g := args[i].child, BuiltUpTo(h, shape, args, i, x, c);
      && x in g && HasField(g[x], i) && g[x].fields[i] == ArgField(h, args[i], false)
      && k in g && k != x && g[k] == h[k]
      && BuiltUpTo(h, shape, args, i + 1, x, c) == (g - {k})[x := WithField(g[x], i, Embed(g[k].fields))]
  {
    hide ArgFields;
    var k := args[i].child;
    FieldsStep(h, args, i);
    ChildrenNext(args, i);
    assert args[i] in args;
    var fs := ArgFields(h, args[..i], true) + ArgFields(h, args[i..], false);
    var a, b := NewImage(shape, fs, c), NewImage(shape, fs[i := Embed(h[k].fields)], c);
    AroundStep(h, Children(args[..i]), x, a, b, shape.RcWeakBlock?, c, k);
    assert b == WithField(a, i, Embed(h[k].fields));
  }

  /** No owned block is held twice. */
  lemma HeldOnce(h: Store, held: multiset<Edge>, k: Off)
    requires Accounted(h, held) && OwnTo(k) in held
    ensures held[OwnTo(k)] == 1
  {
    var all := AllEdges(h) + held;
    assert OwnTo(k) in all;
    assert BlockOk(h, all, k);
  }

  lemma ChildrenDistinct(h: Store, held: multiset<Edge>, args: seq<Arg>, i: nat)
    requires Accounted(h, held + ArgsEdges(args)) && i < |args| && args[i].Inlined?
    ensures args[i].child !in Children(args[..i])
  {
    hide Accounted;
    var k := args[i].child;
    HandlesConcat(args[..i], args[i..], Any);
    assert args == args[..i] + args[i..];
    EdgesSplit(args[..i]);
    InlinedHeld(args[..i], k);
    assert OwnTo(k) in HandlesOf(args[i..], Any);
    HeldOnce(h, held + ArgsEdges(args), k);
  }

  lemma InlinedNext(args: seq<Arg>, j: nat)
    requires j < |args|
    ensures InlinedEdges(args[j..]) ==
            (if args[j].Inlined? then multiset{OwnTo(args[j].child)} else multiset{}) + InlinedEdges(args[j + 1..])
  {
    var todo := args[j..];
    assert todo[0] == args[j] && todo[1..] == args[j + 1..];
  }

  /** The law after the first `i` arguments are in place: only the children still to be
      embedded are held besides the new block. */
  lemma {:induction false} BuiltAccounted(h: Store, held: multiset<Edge>, shape: Shape, args: seq<Arg>, i: nat, x: Off, c: Off)
    requires Accounted(h, held + ArgsEdges(args)) && ChildrenPlain(h, args) && AllPlaced(args) && i <= |args|
    requires x != 0 && x !in h && (shape.RcWeakBlock? ==> c != 0 && c != x && c !in h)
    ensures Accounted(BuiltUpTo(h, shape, args, i, x, c), held + InlinedEdges(args[i..]) + multiset{NewHandle(shape, x)})
    decreases i
  {
    hide Accounted, BuiltUpTo;
    if i == 0 {
      assert args[0..] == args;
      CommitAccounted(h, held, shape, args, x, c);
    } else {
      hide InlinedEdges, ArgsEdges, HandlesOf, Places, NewHandle;
      var j := i - 1;
      BuiltAccounted(h, held, shape, args, j, x, c);
      InlinedNext(args, j);
      if args[j].Stored? {
        StoredInPlace(h, shape, args, j, x, c);
        assert InlinedEdges(args[j..]) == InlinedEdges(args[i..]);
      } else {
        ChildrenDistinct(h, held, args, j);
        var k, rest := args[j].child, held + InlinedEdges(args[i..]) + multiset{NewHandle(shape, x)};
        assert held + InlinedEdges(args[j..]) + multiset{NewHandle(shape, x)} == rest + multiset{OwnTo(k)};
        ChildAccounted(h, rest, shape, args, j, x, c);
      }
    }
  }

  /** One embedded child put in place. */
  lemma ChildAccounted(h: Store, rest: multiset<Edge>, shape: Shape, args: seq<Arg>, j: nat, x: Off, c: Off)
    requires j < |args| && ChildrenPlain(h, args) && x !in h
    requires args[j].Inlined? && args[j].child !in Children(args[..j])
    requires shape.RcWeakBlock? ==> c !in h && c != x
    requires Accounted(BuiltUpTo(h, shape, args, j, x, c), rest + multiset{OwnTo(args[j].child)})
    ensures Accounted(BuiltUpTo(h, shape, args, j + 1, x, c), rest)
  {
    hide Accounted, BuiltUpTo, ArgField, FieldEdges, Children;
    assert args[j] in args;
    InitEdge(h, args[j]);
    ChildInPlace(h, shape, args, j, x, c);
    EmbedAccounted(BuiltUpTo(h, shape, args, j, x, c), rest, x, j, args[j].child);
  }

  // ---- Handing arguments back ----

  /** Rebuilding this handle re-reads the target's control pointer, and so can fail. */
  predicate NeedsControl(h: Store, a: Arg) {
    a.Stored? && a.field.Strong? && a.field.off in h && h[a.field.off].Data? && a.field.off != 0
  }

  /** Handles are rebuilt in order.  If the `k`-th cannot be, those before it are dropped:
      those that release a count do so, everything else is lost. */
  ghost predicate Rebuilt(h: Store, args: seq<Arg>, k: nat, dropped: multiset<Edge>, lost: multiset<Edge>) {
    if k == |args| then dropped == lost == multiset{} else
    && k < |args| && NeedsControl(h, args[k])
    && dropped == ReleasingEdges(args[..k])
    && dropped + lost == ArgsEdges(args)
  }

  lemma HeadHandle(args: seq<Arg>)
    requires args != []
    ensures forall e <- ArgHandle(args[0]) :: e in HandlesOf(args, Any)
  {}

  lemma RebuildLoses(h: Store, args: seq<Arg>, k: nat) returns (lost: multiset<Edge>)
    requires k < |args| && NeedsControl(h, args[k])
    ensures Rebuilt(h, args, k, ReleasingEdges(args[..k]), lost) && lost != multiset{}
  {
    hide HandlesOf;
    var released, e := ReleasingEdges(args[..k]), StrongTo(args[k].field.off);
    lost := ArgsEdges(args) - released;
    HandlesConcat(args[..k], args[k..], Any);
    assert args == args[..k] + args[k..];
    EdgesSplit(args[..k]);
    HeadHandle(args[k..]);
    assert e in ArgHandle(args[k]);
    assert ArgsEdges(args)[e] == ArgsEdges(args[..k])[e] + ArgsEdges(args[k..])[e];
    assert e in lost;
  }

  function Kept(r: Outcome): multiset<Edge> {
    match r
    case Done(e) => multiset{e}
    case Handed(args) => ArgsEdges(args)
    case _ => multiset{}
  }

  /** The post-write copy of the `k`-th child failed: the new block and the children still
      outside it are lost to the caller. */
  ghost predicate CopyBroke(h: Store, g: Store, shape: Shape, args: seq<Arg>, k: nat, x: Off, c: Off, lost: multiset<Edge>) {
    && k < |args| && args[k].Inlined? && ChildrenPlain(h, args) && NewPlace(h, shape, x, c)
    && g == BuiltUpTo(h, shape, args, k, x, c)
    && lost == InlinedEdges(args[k..]) + multiset{NewHandle(shape, x)}
  }

  /** Where the block, and for `(rc, weak)` its control block, can be allocated. */
  predicate NewPlace(h: Store, shape: Shape, x: Off, c: Off) {
    x != 0 && x !in h && (shape.RcWeakBlock? ==> c != 0 && c != x && c !in h)
  }

  /** How a construction can lose handles: in the hand-back, or at a post-write copy. */
  ghost predicate LosesHandles(h: Store, g: Store, shape: Shape, args: seq<Arg>, k: nat, x: Off, c: Off,
                               dropped: multiset<Edge>, lost: multiset<Edge>) {
    || (g == h && k < |args| && Rebuilt(h, args, k, dropped, lost))
    || (dropped == multiset{} && CopyBroke(h, g, shape, args, k, x, c, lost))
  }

  lemma FailedBefore(h: Store, args: seq<Arg>, k: nat, dropped: multiset<Edge>, lost: multiset<Edge>)
    requires Rebuilt(h, args, k, dropped, lost) && lost != multiset{}
    ensures k < |args|
  {}

  /** A hand-back, of a constructor or of a move, can lose a handle if and only if some
      handle in it is rebuilt from a control pointer. */
  lemma RebuildLosesIff(h: Store, args: seq<Arg>)
    ensures (exists k: nat, dropped, lost :: Rebuilt(h, args, k, dropped, lost) && lost != multiset{})
            <==> exists i :: 0 <= i < |args| && HoldsPaired(h, args[i])
  {
    assert forall a :: NeedsControl(h, a) <==> HoldsPaired(h, a);
    hide NeedsControl, HoldsPaired;
    if i: nat :| i < |args| && NeedsControl(h, args[i]) {
      var lost := RebuildLoses(h, args, i);
    }
  }

  /** The argument is a strong handle on a live `(rc, weak)` block. */
  predicate HoldsPaired(h: Store, a: Arg) {
    exists o :: o in h && o != 0 && h[o].Data? && a == Stored(Strong(o))
  }

  /** A constructor can lose a handle if and only if one of its handles is rebuilt from a
      control pointer or one of its fields is an embedded child. */
  lemma NewLosesIff(h: Store, shape: Shape, args: seq<Arg>, x: Off, c: Off)
    requires AllTaken(args) && ChildrenPlain(h, args) && NewPlace(h, shape, x, c)
    ensures (exists g, k: nat, dropped, lost :: LosesHandles(h, g, shape, args, k, x, c, dropped, lost) && lost != multiset{})
            <==> exists i :: 0 <= i < |args| && (HoldsPaired(h, args[i]) || args[i].Inlined?)
  {
    assert forall a :: NeedsControl(h, a) <==> HoldsPaired(h, a);
    hide NeedsControl, HoldsPaired, BuiltUpTo, InlinedEdges, ChildrenPlain, NewPlace;
    if i: nat :| i < |args| && NeedsControl(h, args[i]) {
      var lost := RebuildLoses(h, args, i);
      assert LosesHandles(h, h, shape, args, i, x, c, ReleasingEdges(args[..i]), lost);
    } else if i: nat :| i < |args| && args[i].Inlined? {
      var lost := InlinedEdges(args[i..]) + multiset{NewHandle(shape, x)};
      assert LosesHandles(h, BuiltUpTo(h, shape, args, i, x, c), shape, args, i, x, c, multiset{}, lost);
      assert NewHandle(shape, x) in lost;
    }
  }

  /** What was rebuilt before the failure and counts has released its count; the handles of
      owned blocks and vectors, and the one that failed, are lost. */
  lemma EarlierReleased(h: Store, args: seq<Arg>, k: nat, i: nat, o: Off, dropped: multiset<Edge>, lost: multiset<Edge>)
    requires k < |args| && Rebuilt(h, args, k, dropped, lost) && i < |args| && o != 0
    ensures i < k && args[i] == Stored(Strong(o)) ==> StrongTo(o) in dropped
    ensures i < k && args[i] == Stored(Weak(o)) ==> WeakTo(o) in dropped
    ensures args[i] == Stored(Own(o)) || args[i] == Inlined(o) ==> OwnTo(o) in lost
    ensures args[i] == Stored(VecOf(o)) ==> VecTo(o) in lost
    ensures i == k && args[i] == Stored(Strong(o)) ==> StrongTo(o) in lost
  {
    hide HandlesOf, Rebuilt;
    OwnersLost(h, args, k, i, dropped, lost);
    if i < k && Releases(args[i]) { ReleasedBefore(h, args, k, i, dropped, lost); }
    if i == k { FailedLost(h, args, k, dropped, lost); }
  }

  lemma FailedLost(h: Store, args: seq<Arg>, k: nat, dropped: multiset<Edge>, lost: multiset<Edge>)
    requires k < |args| && Rebuilt(h, args, k, dropped, lost)
    ensures forall e <- ArgHandle(args[k]) :: e in lost
  {
    hide ArgHandle, HandlesOf;
    HandlesConcat(args[..k], args[k..], Any);
    assert args == args[..k] + args[k..];
    EdgesSplit(args[..k]);
    HeadHandle(args[k..]);
    forall e <- ArgHandle(args[k]) ensures e in lost {
      assert ArgsEdges(args)[e] == ArgsEdges(args[..k])[e] + ArgsEdges(args[k..])[e];
      assert (dropped + lost)[e] == dropped[e] + lost[e] && dropped[e] <= ArgsEdges(args[..k])[e];
    }
  }

  lemma OwnersLost(h: Store, args: seq<Arg>, k: nat, i: nat, dropped: multiset<Edge>, lost: multiset<Edge>)
    requires k < |args| && Rebuilt(h, args, k, dropped, lost) && i < |args|
    ensures forall e <- ArgHandle(args[i]) :: !e.StrongTo? && !e.WeakTo? ==> e in lost
  {
    hide ArgHandle, HandlesOf;
    OnlyCounts(args[..k]);
    InHandles(args, i);
    forall e <- ArgHandle(args[i]) ensures !e.StrongTo? && !e.WeakTo? ==> e in lost {
      assert e in dropped + lost;
    }
  }

  lemma {:induction false} OnlyCounts(args: seq<Arg>)
    ensures forall e <- ReleasingEdges(args) :: e.StrongTo? || e.WeakTo?
  {
    if args != [] { OnlyCounts(args[1..]); }
  }

  lemma {:induction false} InHandles(args: seq<Arg>, i: nat)
    requires i < |args|
    ensures forall e <- ArgHandle(args[i]) :: e in ArgsEdges(args)
  {
    if i == 0 {
      HeadHandle(args);
    } else {
      InHandles(args[1..], i - 1);
    }
  }

  lemma ReleasedBefore(h: Store, args: seq<Arg>, k: nat, i: nat, dropped: multiset<Edge>, lost: multiset<Edge>)
    requires k < |args| && Rebuilt(h, args, k, dropped, lost) && i < k && Releases(args[i])
    ensures forall e <- ArgHandle(args[i]) :: e in dropped
  {
    hide ArgHandle, HandlesOf;
    var done, one, rest := args[..i], [args[i]], args[i + 1..k];
    assert args[..k] == done + one + rest;
    HandlesConcat(done + one, rest, Releases);
    HandlesConcat(done, one, Releases);
    OneHandle(args[i], Releases);
  }

  /** A constructor given an owned block and a strong handle on an `(rc, weak)` block: when
      the hand-back cannot read the control pointer, both are lost. */
  lemma LossWitness() returns (h: Store, args: seq<Arg>)
    ensures |args| == 2 && AllTaken(args) && Accounted(h, ArgsEdges(args)) && NeedsControl(h, args[1])
    ensures Rebuilt(h, args, 1, multiset{}, ArgsEdges(args)) && ArgsEdges(args) == multiset{OwnTo(4), StrongTo(1)}
  {
    hide Accounted, Edges, FieldEdges, ArgsEdges, ReleasingEdges, HandlesOf;
    var none: Store, nothing: seq<Field> := map[], [];
    NoneHeld(none);
    assert multiset{} + Edges(nothing) == multiset{};
    AllocPairAccounted(none, multiset{}, 1, 2, nothing);
    var pair := none[1 := Data(2, nothing)][2 := Ctrl(1, 1, 1)];
    var held := multiset{} + multiset{StrongTo(1)};
    assert held + BlockEdges(Plain(nothing)) == held;
    AllocAccounted(pair, held, 4, Plain(nothing));
    h := pair[4 := Plain(nothing)];
    args := [Stored(Own(4)), Stored(Strong(1))];
    WitnessHandles(args);
    assert held + multiset{OwnTo(4)} == ArgsEdges(args);
  }

  lemma NoneHeld(h: Store)
    requires h == map[]
    ensures Accounted(h, multiset{}) && Edges([]) == multiset{}
  {
    assert AllEdges(h) == multiset{};
  }

  lemma WitnessHandles(args: seq<Arg>)
    requires args == [Stored(Own(4)), Stored(Strong(1))]
    ensures ArgsEdges(args) == multiset{OwnTo(4), StrongTo(1)} && ReleasingEdges(args[..1]) == multiset{}
  {
    hide HandlesOf;
    var first, last := [Stored(Own(4))], [Stored(Strong(1))];
    assert args == first + last && args[..1] == first;
    HandlesConcat(first, last, Any);
    OneHandle(first[0], Any);
    OneHandle(last[0], Any);
    OneHandle(first[0], Releases);
    assert multiset([OwnTo(4)] + [StrongTo(1)]) == multiset{OwnTo(4), StrongTo(1)};
  }

  lemma OneHandle(a: Arg, keep: Arg -> bool)
    ensures HandlesOf([a], keep) == if keep(a) then ArgHandle(a) else []
  {
    var args := [a];
    assert args[1..] == [] && HandlesOf(args[1..], keep) == [];
  }
}
