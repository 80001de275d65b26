/** Two independent recursions over a field's type: the block macro lowers it to an on-disk
    slot, and the class macro describes it as a schema shape.  The interpreters trust that
    the shape is as wide as the slot. */
module Schema {
  import opened Laws
  import Heap
  import Tree

  /** `Plain` is any plain-data type; `niche` says its `Option` has the same bytes. */
  datatype Ty =
    | Plain(id: nat, niche: bool)
    | Block(id: nat)
    | Foreign(target: nat)
    | Opt(inner: Ty)
    | Vector(elem: Ty)
    | Text
    | Array(elem: Ty, n: nat)
    | Tuple(elems: seq<Ty>)

  datatype Kind = Pod | Owned | Strong | Weak | Ref | Embed

  datatype Shape =
    | PodShape(width: nat)
    | RefShape(kind: Kind, id: nat)
    | EmbedShape(id: nat)
    | ForeignShape(target: nat, kind: Kind)
    | OptionShape(inner: Shape)
    | VecShape(inner: Shape)
    | ArrayShape(n: nat, inner: Shape)
    | TupleShape(items: seq<Shape>)

  datatype Described = Shaped(shape: Shape) | Undescribed

  datatype Lowered = Slot(width: nat) | Rejected

  const VEC_DESC: nat := 16
  const WIDE_PTR: nat := 16
  const OFFSET: nat := 8

  /** What the language promises about sizes. */
  ghost predicate SizeLaw(size: Ty -> nat) {
    && (forall e: Ty, n: nat :: size(Array(e, n)) == n * size(e))
    && (forall id: nat :: size(Opt(Plain(id, true))) == size(Plain(id, true)))
  }

  predicate IsVec(t: Ty) { t.Vector? || t.Text? }

  function Peeled(t: Ty): Ty { if t.Opt? then t.inner else t }

  predicate Referring(kind: Kind) { kind != Pod && kind != Embed }

  predicate IsPod(t: Ty) {
    match t
    case Plain(_, _) => true
    case Array(e, _) => IsPod(e)
    case Opt(Plain(_, niche)) => niche
    case _ => false
  }

  // ---- Arrays ----

  function Dims(t: Ty): seq<nat> { if t.Array? then [t.n] + Dims(t.elem) else [] }

  function Core(t: Ty): Ty { if t.Array? then Core(t.elem) else t }

  function Prod(dims: seq<nat>): nat { if dims == [] then 1 else dims[0] * Prod(dims[1..]) }

  /** A zero dimension, or an `Option` around a whole sub-array, is refused. */
  predicate ArrayOk(t: Ty) { 0 !in Dims(t) && !Peeled(Core(t)).Array? }

  // ---- The schema ----

  function Mapped(d: Described, kind: Kind): Described {
    match d case Shaped(s) => Shaped(OptionShape(s)) case Undescribed => Undescribed
  }

  function LeafShape(size: Ty -> nat, t: Ty, kind: Kind): Described
    decreases t
  {
    match t
    case Text => Shaped(VecShape(PodShape(1)))
    case Vector(e) =>
      (match LeafShape(size, e, kind) case Shaped(s) => Shaped(VecShape(s)) case Undescribed => Undescribed)
    case Foreign(target) => if Referring(kind) then Shaped(ForeignShape(target, kind)) else Undescribed
    case Tuple(es) =>
      if HasForeign(es) && !Referring(kind) then Undescribed else Shaped(TupleShape(TupleItems(size, es, kind)))
    case _ =>
      if kind == Pod then Shaped(PodShape(size(t)))
      else if t.Block? then Shaped(if kind == Embed then EmbedShape(t.id) else RefShape(kind, t.id))
      else Undescribed
  }

  predicate HasForeign(es: seq<Ty>) { exists e <- es :: Peeled(e).Foreign? }

  function TupleItems(size: Ty -> nat, es: seq<Ty>, kind: Kind): seq<Shape> {
    if es == [] then [] else
      [if Peeled(es[0]).Foreign? then
         (if es[0].Opt? then OptionShape(ForeignShape(Peeled(es[0]).target, kind)) else ForeignShape(es[0].target, kind))
       else PodShape(size(es[0]))] + TupleItems(size, es[1..], kind)
  }

  function Nested(dims: seq<nat>, s: Shape): Shape {
    if dims == [] then s else ArrayShape(dims[0], Nested(dims[1..], s))
  }

  function ContainerShape(size: Ty -> nat, t: Ty, kind: Kind): Described {
    if t.Array? then
      if !ArrayOk(t) then Undescribed else
        (match LeafShape(size, Peeled(Core(t)), kind)
         case Shaped(s) => Shaped(Nested(Dims(t), if Core(t).Opt? && kind != Pod then OptionShape(s) else s))
         case Undescribed => Undescribed)
    else LeafShape(size, t, kind)
  }

  function FieldShape(size: Ty -> nat, t: Ty, kind: Kind): Described {
    if t.Opt? then
      if kind == Pod && !IsVec(t.inner) then Shaped(PodShape(size(t)))
      else Mapped(ContainerShape(size, t.inner, kind), kind)
    else ContainerShape(size, t, kind)
  }

  /** The width the interpreters give a shape. */
  function Stride(disk: nat -> nat, s: Shape): nat
    decreases s, 0
  {
    match s
    case PodShape(w) => w
    case RefShape(_, _) => OFFSET
    case EmbedShape(id) => disk(id)
    case ForeignShape(_, _) => WIDE_PTR
    case OptionShape(i) => Stride(disk, i)
    case VecShape(_) => VEC_DESC
    case ArrayShape(n, i) => n * Stride(disk, i)
    case TupleShape(items) => Strides(disk, items)
  }

  function Strides(disk: nat -> nat, items: seq<Shape>): nat
    decreases items, 1
  {
    if items == [] then 0 else Stride(disk, items[0]) + Strides(disk, items[1..])
  }

  // ---- The lowering ----

  /** A vector's element: one leaf, an array of leaves, at most one `Option`. */
  predicate ElemOk(e: Ty) {
    !IsVec(Peeled(Core(e))) && !Peeled(Core(e)).Tuple? && !(Core(e).Opt? && Core(e).inner.Opt?)
  }

  predicate NestingOk(t: Ty) {
    && !(t.Opt? && t.inner.Opt?)
    && (Peeled(t).Vector? ==> ElemOk(Peeled(t).elem))
  }

  function VecSlot(t: Ty, kind: Kind): Lowered
    requires IsVec(t)
  {
    if t.Text? then (if kind == Pod then Slot(VEC_DESC) else Rejected) else
    if Peeled(t.elem).Foreign? then (if Referring(kind) then Slot(VEC_DESC) else Rejected) else
    if kind == Embed then Rejected else
    if kind == Pod then (if IsPod(t.elem) then Slot(VEC_DESC) else Rejected) else
    if t.elem.Array? then (if ArrayOk(t.elem) && Peeled(Core(t.elem)).Block? then Slot(VEC_DESC) else Rejected) else
    if t.elem.Block? then Slot(VEC_DESC) else Rejected
  }

  /** Arrays of vectors, of cross-file pointers and of block references; any other array
      falls through to plain data. */
  function ArraySlot(disk: nat -> nat, t: Ty, kind: Kind, nullable: bool): Lowered
    requires t.Array? && ArrayOk(t)
  {
    var core, leaf, total := Core(t), Peeled(Core(t)), Prod(Dims(t));
    if nullable then Rejected else
    if IsVec(leaf) then
      (if leaf.Vector? && !(if kind == Pod then IsPod(leaf.elem) else leaf.elem.Block?) then Rejected
       else if VecSlot(leaf, kind).Slot? then Slot(total * VEC_DESC) else Rejected)
    else if leaf.Foreign? then (if Referring(kind) then Slot(total * WIDE_PTR) else Rejected)
    else if !leaf.Block? then Rejected
    else if kind == Embed then (if core.Opt? then Rejected else Slot(total * disk(leaf.id)))
    else Slot(total * OFFSET)
  }

  function TupleSlot(size: Ty -> nat, es: seq<Ty>, kind: Kind, nullable: bool): Lowered {
    if nullable then Rejected else
    if HasForeign(es) then
      (if Referring(kind) && MembersOk(es) then Slot(TupleWidth(size, es)) else Rejected)
    else if kind == Pod && MembersOk(es) then Slot(TupleWidth(size, es)) else Rejected
  }

  predicate MembersOk(es: seq<Ty>) { forall e <- es :: Peeled(e).Foreign? || IsPod(e) }

  /** The packed wrapper of a tuple's members. */
  function TupleWidth(size: Ty -> nat, es: seq<Ty>): nat {
    if es == [] then 0 else (if Peeled(es[0]).Foreign? then WIDE_PTR else size(es[0])) + TupleWidth(size, es[1..])
  }

  /** The order of the lowering: `Foreign`, vectors, arrays of vectors, of `Foreign` and of
      blocks, tuples, embedded blocks, and last plain data and single references. */
  function Lower(size: Ty -> nat, disk: nat -> nat, t: Ty, kind: Kind): Lowered {
    var inner, nullable := Peeled(t), t.Opt?;
    if !NestingOk(t) then Rejected else
    if inner.Foreign? then (if Referring(kind) then Slot(WIDE_PTR) else Rejected) else
    if IsVec(inner) then VecSlot(inner, kind) else
    if inner.Array? && !ArrayOk(inner) then Rejected else
    if inner.Array? && (kind != Pod || IsVec(Peeled(Core(inner))) || Peeled(Core(inner)).Foreign?) then
      ArraySlot(disk, inner, kind, nullable)
    else
      var stored := if kind == Pod then t else inner;
      if stored.Tuple? then TupleSlot(size, stored.elems, kind, kind != Pod && nullable) else
      if kind == Pod then (if IsPod(stored) then Slot(size(stored)) else Rejected) else
      if !stored.Block? then Rejected else
      if kind == Embed then (if nullable then Rejected else Slot(disk(stored.id))) else Slot(OFFSET)
  }

  // ---- They agree ----

  lemma {:induction false} NestedStride(disk: nat -> nat, dims: seq<nat>, s: Shape)
    ensures Stride(disk, Nested(dims, s)) == Prod(dims) * Stride(disk, s)
  {
    if dims != [] {
      NestedStride(disk, dims[1..], s);
      ProductAssociates(dims[0], Prod(dims[1..]), Stride(disk, s));
    }
  }

  lemma {:induction false} ArraySize(size: Ty -> nat, t: Ty)
    requires SizeLaw(size)
    ensures size(t) == Prod(Dims(t)) * size(Core(t))
  {
    if t.Array? {
      ArraySize(size, t.elem);
      assert Dims(t)[1..] == Dims(t.elem);
      ProductAssociates(t.n, Prod(Dims(t.elem)), size(Core(t.elem)));
    }
  }

  lemma {:induction false} PodCore(t: Ty)
    ensures IsPod(t) <==> IsPod(Core(t))
  {
    if t.Array? { PodCore(t.elem); }
  }

  lemma {:induction false} TupleStride(size: Ty -> nat, disk: nat -> nat, es: seq<Ty>, kind: Kind)
    ensures Strides(disk, TupleItems(size, es, kind)) == TupleWidth(size, es)
  {
    if es != [] {
      TupleStride(size, disk, es[1..], kind);
      var items := TupleItems(size, es, kind);
      assert items[1..] == TupleItems(size, es[1..], kind);
      assert Stride(disk, items[0]) == if Peeled(es[0]).Foreign? then WIDE_PTR else size(es[0]) by {
        assert forall f: Shape :: f.ForeignShape? ==> Stride(disk, OptionShape(f)) == Stride(disk, f);
      }
    }
  }

  lemma ArraysAgree(size: Ty -> nat, disk: nat -> nat, t: Ty, kind: Kind, w: nat, s: Shape)
    requires SizeLaw(size) && t.Array? && Lower(size, disk, t, kind) == Slot(w)
    requires ContainerShape(size, t, kind) == Shaped(s)
    ensures Stride(disk, s) == w
  {
    var leaf := LeafShape(size, Peeled(Core(t)), kind).shape;
    NestedStride(disk, Dims(t), if Core(t).Opt? && kind != Pod then OptionShape(leaf) else leaf);
    ArraySize(size, t);
    PodCore(t);
  }

  /** Every field type that both macros take: the schema shape is as wide as the slot. */
  lemma WidthsAgree(size: Ty -> nat, disk: nat -> nat, t: Ty, kind: Kind, w: nat, s: Shape)
    requires SizeLaw(size) && Lower(size, disk, t, kind) == Slot(w) && FieldShape(size, t, kind) == Shaped(s)
    ensures Stride(disk, s) == w
  {
    if Peeled(t).Array? && !t.Opt? {
      ArraysAgree(size, disk, t, kind, w, s);
    } else if Peeled(t).Tuple? {
      TupleStride(size, disk, Peeled(t).elems, kind);
    }
  }

  // ---- The slot and the fields the store keeps in it ----

  /** One leaf of a field: a reference, an embedded block, a vector's descriptor, the sixteen
      bytes of a cross-file pointer. */
  predicate LeafHolds(disk: nat -> nat, t: Ty, kind: Kind, f: Heap.Field) {
    match t
    case Block(id) =>
      (match kind
       case Owned => f.Own?
       case Strong => f.Strong?
       case Weak => f.Weak?
       case Ref => f.Ref?
       case Embed => f.Embed? && disk(id) == 16 + Tree.Width(f.inner)
       case Pod => false)
    case Vector(_) => f.VecOf?
    case Text => f.VecOf?
    case Foreign(_) => f.Pod? && |f.bytes| == 16
    case _ => false
  }

  /** The fields in the slot of a declared field: plain data in one piece, a tuple member by
      member, an array leaf by leaf. */
  predicate Stores(size: Ty -> nat, disk: nat -> nat, t: Ty, kind: Kind, fs: seq<Heap.Field>) {
    var inner, leaf := Peeled(t), Peeled(Core(Peeled(t)));
    if inner.Tuple? then
      |fs| == |inner.elems| && forall i :: 0 <= i < |fs| ==>
        fs[i].Pod? && |fs[i].bytes| == if Peeled(inner.elems[i]).Foreign? then 16 else size(inner.elems[i])
    else if kind == Pod && !IsVec(leaf) && !leaf.Foreign? then |fs| == 1 && fs[0].Pod? && |fs[0].bytes| == size(t)
    else if inner.Array? then |fs| == Prod(Dims(inner)) && forall f <- fs :: LeafHolds(disk, leaf, kind, f)
    else |fs| == 1 && LeafHolds(disk, inner, kind, fs[0])
  }

  lemma {:induction false} UniformWidth(fs: seq<Heap.Field>, w: nat)
    requires forall f <- fs :: Tree.FieldWidth(f) == w
    ensures Tree.Width(fs) == |fs| * w
  {
    if fs != [] {
      assert fs[0] in fs;
      UniformWidth(fs[1..], w);
      OneMore(|fs|, w);
    }
  }

  lemma OneMore(n: nat, w: nat)
    requires n > 0
    ensures n * w == w + (n - 1) * w
  {}

  lemma {:induction false} TupleHolds(size: Ty -> nat, es: seq<Ty>, fs: seq<Heap.Field>)
    requires |fs| == |es|
    requires forall i :: 0 <= i < |fs| ==>
      fs[i].Pod? && |fs[i].bytes| == if Peeled(es[i]).Foreign? then 16 else size(es[i])
    ensures Tree.Width(fs) == TupleWidth(size, es)
    decreases |fs|
  {
    if fs != [] { TupleHolds(size, es[1..], fs[1..]); }
  }

  /** The slot the block macro reserves is exactly as wide as the fields kept in it. */
  lemma LoweredHolds(size: Ty -> nat, disk: nat -> nat, t: Ty, kind: Kind, w: nat, fs: seq<Heap.Field>)
    requires Lower(size, disk, t, kind) == Slot(w) && Stores(size, disk, t, kind, fs)
    ensures Tree.Width(fs) == w
  {
    var inner := Peeled(t);
    if inner.Tuple? {
      TupleHolds(size, inner.elems, fs);
    } else if |fs| == 1 && !inner.Array? {
      UniformWidth(fs, Tree.FieldWidth(fs[0]));
    } else if inner.Array? {
      ArrayHolds(size, disk, t, kind, w, fs);
    }
  }

  lemma ArrayHolds(size: Ty -> nat, disk: nat -> nat, t: Ty, kind: Kind, w: nat, fs: seq<Heap.Field>)
    requires Lower(size, disk, t, kind) == Slot(w) && Stores(size, disk, t, kind, fs) && Peeled(t).Array?
    ensures Tree.Width(fs) == w
  {
    var leaf := Peeled(Core(Peeled(t)));
    if kind == Pod && !IsVec(leaf) && !leaf.Foreign? {
      UniformWidth(fs, Tree.FieldWidth(fs[0]));
    } else {
      var one := if IsVec(leaf) || leaf.Foreign? then 16 else if kind == Embed then disk(leaf.id) else 8;
      UniformWidth(fs, one);
    }
  }

  /** An annotated vector of nullable cross-file pointers, or of arrays. */
  predicate SchemaGap(t: Ty, kind: Kind) {
    kind != Pod && Peeled(t).Vector? && (Peeled(t).elem.Opt? || Peeled(t).elem.Array?)
  }

  /** The class macro describes every type the block macro lowers, except that gap: there
      the element's ownership is taken for that of a block, which it is not. */
  lemma DescribedUnlessGap(size: Ty -> nat, disk: nat -> nat, t: Ty, kind: Kind)
    requires Lower(size, disk, t, kind).Slot?
    ensures FieldShape(size, t, kind).Shaped? <==> !SchemaGap(t, kind)
  {
    var inner := Peeled(t);
    PodCore(inner);
    if inner.Vector? {
      VectorDescribed(size, inner, kind);
    } else if inner.Array? && IsVec(Peeled(Core(inner))) && !t.Opt? {
      VectorLeafDescribed(size, Peeled(Core(inner)), kind);
    }
  }

  lemma VectorDescribed(size: Ty -> nat, t: Ty, kind: Kind)
    requires t.Vector? && ElemOk(t.elem) && VecSlot(t, kind).Slot?
    ensures LeafShape(size, t, kind).Shaped? <==> kind == Pod || !(t.elem.Opt? || t.elem.Array?)
  {
    assert t.elem.Array? ==> Core(t.elem) == Core(t.elem.elem);
  }

  lemma VectorLeafDescribed(size: Ty -> nat, t: Ty, kind: Kind)
    requires IsVec(t) && (t.Vector? ==> if kind == Pod then IsPod(t.elem) else t.elem.Block?)
    ensures LeafShape(size, t, kind).Shaped?
  {}

  predicate IsReference(kind: Kind) { kind == Owned || kind == Strong || kind == Weak || kind == Ref }

  /** What the block macro takes for a single field, and what each form costs: eight bytes a
      reference, nullable or not; the whole block for an embedded one, which cannot be null;
      sixteen bytes for a cross-file pointer and for a vector's descriptor. */
  lemma SingleSlots(size: Ty -> nat, disk: nat -> nat, id: nat, kind: Kind)
    ensures IsReference(kind) ==>
      && Lower(size, disk, Block(id), kind) == Lower(size, disk, Opt(Block(id)), kind) == Slot(8)
      && Lower(size, disk, Foreign(id), kind) == Lower(size, disk, Opt(Foreign(id)), kind) == Slot(16)
      && Lower(size, disk, Vector(Block(id)), kind) == Lower(size, disk, Opt(Vector(Block(id))), kind) == Slot(16)
      && Lower(size, disk, Vector(Foreign(id)), kind) == Slot(16)
      && Lower(size, disk, Text, kind) == Rejected
    ensures Lower(size, disk, Block(id), Embed) == Slot(disk(id)) && Lower(size, disk, Opt(Block(id)), Embed) == Rejected
    ensures Lower(size, disk, Vector(Block(id)), Embed) == Lower(size, disk, Foreign(id), Embed) == Rejected
    ensures forall n, niche :: Lower(size, disk, Plain(n, niche), Pod) == Slot(size(Plain(n, niche)))
    ensures forall n, niche :: Lower(size, disk, Vector(Plain(n, niche)), Pod) == Slot(16)
    ensures Lower(size, disk, Text, Pod) == Slot(16) && Lower(size, disk, Foreign(id), Pod) == Rejected
    ensures Lower(size, disk, Block(id), Pod) == Rejected && Lower(size, disk, Vector(Block(id)), Pod) == Rejected
  {}

  /** An array of references, of embedded blocks, of cross-file pointers or of vectors is as
      many single slots as its dimensions multiply to; a zero dimension is refused, and so is
      a null in place of the whole array, unless it is plain data. */
  lemma ArraySlots(size: Ty -> nat, disk: nat -> nat, t: Ty, kind: Kind, id: nat)
    requires t.Array? && (Core(t) == Block(id) || Core(t) == Foreign(id) || Core(t) == Vector(Block(id)))
    ensures 0 in Dims(t) ==> Lower(size, disk, t, kind) == Rejected
    ensures 0 !in Dims(t) && IsReference(kind) ==>
      Lower(size, disk, t, kind) == Slot(Prod(Dims(t)) * if Core(t).Block? then 8 else 16)
    ensures 0 !in Dims(t) && kind == Embed && Core(t).Block? ==>
      Lower(size, disk, t, kind) == Slot(Prod(Dims(t)) * disk(id))
    ensures kind != Pod ==> Lower(size, disk, Opt(t), kind) == Rejected
  {}

  /** A tuple is its members side by side: plain values, and cross-file pointers if the field
      is a reference. */
  lemma TupleSlots(size: Ty -> nat, disk: nat -> nat, a: nat, b: nat, f: nat, kind: Kind)
    ensures Lower(size, disk, Tuple([Plain(a, true), Plain(b, false)]), Pod)
            == Slot(size(Plain(a, true)) + size(Plain(b, false)))
    ensures IsReference(kind) ==>
      Lower(size, disk, Tuple([Foreign(f), Plain(a, true)]), kind) == Slot(16 + size(Plain(a, true)))
    ensures Lower(size, disk, Tuple([Foreign(f), Plain(a, true)]), Pod) == Rejected
    ensures Lower(size, disk, Opt(Plain(a, true)), Pod) == Slot(size(Opt(Plain(a, true))))
    ensures Lower(size, disk, Opt(Plain(a, false)), Pod) == Rejected
  {
    PairWidth(size, Plain(a, true), Plain(b, false));
    PairWidth(size, Foreign(f), Plain(a, true));
    var es, ps := [Foreign(f), Plain(a, true)], [Plain(a, true), Plain(b, false)];
    assert Peeled(es[0]).Foreign? && HasForeign(es) && MembersOk(es);
    assert !HasForeign(ps) && MembersOk(ps);
  }

  lemma PairWidth(size: Ty -> nat, s: Ty, t: Ty)
    ensures TupleWidth(size, [s, t])
            == (if Peeled(s).Foreign? then 16 else size(s)) + if Peeled(t).Foreign? then 16 else size(t)
  {
    var es, last := [s, t], [t];
    assert es[1..] == last && last[1..] == [];
    assert TupleWidth(size, last) == (if Peeled(t).Foreign? then 16 else size(t)) + TupleWidth(size, []);
  }

  /** The shape the class macro gives to what `SingleSlots` lists. */
  lemma SingleShapes(size: Ty -> nat, id: nat, kind: Kind)
    ensures IsReference(kind) ==>
      && FieldShape(size, Block(id), kind) == Shaped(RefShape(kind, id))
      && FieldShape(size, Opt(Block(id)), kind) == Shaped(OptionShape(RefShape(kind, id)))
      && FieldShape(size, Foreign(id), kind) == Shaped(ForeignShape(id, kind))
      && FieldShape(size, Opt(Foreign(id)), kind) == Shaped(OptionShape(ForeignShape(id, kind)))
      && FieldShape(size, Vector(Block(id)), kind) == Shaped(VecShape(RefShape(kind, id)))
      && FieldShape(size, Vector(Foreign(id)), kind) == Shaped(VecShape(ForeignShape(id, kind)))
    ensures FieldShape(size, Block(id), Embed) == Shaped(EmbedShape(id))
    ensures FieldShape(size, Text, Pod) == Shaped(VecShape(PodShape(1)))
    ensures forall n, niche :: FieldShape(size, Plain(n, niche), Pod) == Shaped(PodShape(size(Plain(n, niche))))
    ensures forall n, niche ::
      FieldShape(size, Vector(Plain(n, niche)), Pod) == Shaped(VecShape(PodShape(size(Plain(n, niche)))))
  {}

  /** Containers: the null of an element stays with the element, the null of a vector with
      the vector, and a tuple names its members. */
  lemma ContainerShapes(size: Ty -> nat, id: nat, n: nat, a: nat, kind: Kind)
    requires IsReference(kind) && n > 0
    ensures FieldShape(size, Array(Plain(a, true), n), Pod) == Shaped(ArrayShape(n, PodShape(size(Plain(a, true)))))
    ensures FieldShape(size, Array(Opt(Plain(a, true)), n), Pod) == Shaped(ArrayShape(n, PodShape(size(Plain(a, true)))))
    ensures FieldShape(size, Array(Block(id), n), kind) == Shaped(ArrayShape(n, RefShape(kind, id)))
    ensures FieldShape(size, Array(Opt(Block(id)), n), kind) == Shaped(ArrayShape(n, OptionShape(RefShape(kind, id))))
    ensures FieldShape(size, Opt(Vector(Block(id))), kind) == Shaped(OptionShape(VecShape(RefShape(kind, id))))
    ensures FieldShape(size, Tuple([Opt(Foreign(id)), Plain(a, true)]), kind)
            == Shaped(TupleShape([OptionShape(ForeignShape(id, kind)), PodShape(size(Plain(a, true)))]))
    ensures FieldShape(size, Tuple([Foreign(id), Plain(a, true)]), Pod) == Undescribed
  {
    OneDimension(Block(id), n);
    OneDimension(Opt(Block(id)), n);
    OneDimension(Plain(a, true), n);
    OneDimension(Opt(Plain(a, true)), n);
    var es, fs, last := [Opt(Foreign(id)), Plain(a, true)], [Foreign(id), Plain(a, true)], [Plain(a, true)];
    assert es[1..] == last && last[1..] == [];
    assert TupleItems(size, last, kind) == [PodShape(size(Plain(a, true)))] + TupleItems(size, [], kind);
    assert Peeled(es[0]).Foreign? && Peeled(fs[0]).Foreign?;
    assert TupleItems(size, es, kind) == [OptionShape(ForeignShape(id, kind))] + TupleItems(size, last, kind);
    assert TupleItems(size, [], kind) == [];
    assert TupleItems(size, es, kind) == [OptionShape(ForeignShape(id, kind)), PodShape(size(Plain(a, true)))];
  }

  lemma OneDimension(t: Ty, n: nat)
    requires !t.Array? && n > 0
    ensures Dims(Array(t, n)) == [n] && Core(Array(t, n)) == t
    ensures forall s: Shape :: Nested([n], s) == ArrayShape(n, s)
  {
    assert [n][1..] == [];
  }

  lemma GapExists(size: Ty -> nat, disk: nat -> nat)
    ensures Lower(size, disk, Vector(Array(Block(0), 2)), Owned).Slot?
    ensures FieldShape(size, Vector(Array(Block(0), 2)), Owned).Undescribed?
    ensures Lower(size, disk, Vector(Opt(Foreign(0))), Owned).Slot?
    ensures FieldShape(size, Vector(Opt(Foreign(0))), Owned).Undescribed?
  {
    var t := Array(Block(0), 2);
    assert Dims(t) == [2] + Dims(Block(0));
    assert Core(t) == Block(0);
  }
}
