/** In-place replacement of owned, strong and borrowed slots: one element of an array by
    its flat index, a whole array, or a scalar field (an array of one). */
module Replace {
  import opened Heap
  import opened Cascade
  import opened Construct
  import opened Tree

  datatype Kind = OwnedKind | StrongKind | RefKind

  function Cell(kind: Kind, o: Off): Field {
    match kind
    case OwnedKind => Own(o)
    case StrongKind => Strong(o)
    case RefKind => Ref(o)
  }

  function Cells(kind: Kind, offs: seq<Off>): (fs: seq<Field>)
    ensures |fs| == |offs|
    ensures forall i :: 0 <= i < |offs| ==> fs[i] == Cell(kind, offs[i])
  {
    if offs == [] then [] else [Cell(kind, offs[0])] + Cells(kind, offs[1..])
  }

  function CellEdges(kind: Kind, offs: seq<Off>): multiset<Edge> { Edges(Cells(kind, offs)) }

  /** The field's slots are the `|offs|` cells from `base` on, and hold `offs`. */
  predicate Region(h: Store, x: Off, base: nat, kind: Kind, offs: seq<Off>) {
    && x in h && HasFields(h[x]) && base + |offs| <= |h[x].fields|
    && h[x].fields[base..base + |offs|] == Cells(kind, offs)
  }

  function WithRegion(b: Block, base: nat, kind: Kind, offs: seq<Off>): Block
    requires HasFields(b) && base + |offs| <= |b.fields|
  {
    b.(fields := b.fields[..base] + Cells(kind, offs) + b.fields[base + |offs|..])
  }

  datatype Reply =
    | Swapped(taken: seq<Off>)         // what was displaced
    | Recovered(value: seq<Off>)       // the new value, handed back
    | RawOld(raw: Off)                 // displaced, but its handle could not be rebuilt

  /** The fate of the call that replied so, where `k` is the element that broke it. */
  function FateOf(r: Reply, k: nat): Fate {
    match r case Swapped(_) => Committed case Recovered(_) => Refused case RawOld(_) => Broken(k)
  }

  /** What the caller holds after the call on account of it. */
  function ReplyEdges(kind: Kind, r: Reply): multiset<Edge> {
    match r
    case Swapped(os) => CellEdges(kind, os)
    case Recovered(os) => CellEdges(kind, os)
    case RawOld(o) => multiset{StrongTo(o)}
  }

  // ---- Every slot write is one exchange ----

  lemma {:induction false} FieldsConcat(a: seq<Field>, b: seq<Field>)
    ensures Edges(a + b) == Edges(a) + Edges(b)
  {
    hide FieldEdges;
    if a == [] {
      assert a + b == b;
    } else {
      FieldsConcat(a[1..], b);
      assert (a + b)[1..] == a[1..] + b;
    }
  }

  lemma CellsConcat(kind: Kind, a: seq<Off>, b: seq<Off>)
    ensures CellEdges(kind, a + b) == CellEdges(kind, a) + CellEdges(kind, b)
  {
    hide Edges, Cells;
    FieldsConcat(Cells(kind, a), Cells(kind, b));
    assert Cells(kind, a + b) == Cells(kind, a) + Cells(kind, b);
  }

  /** Storing new offsets in a region trades the new handles for the displaced ones. */
  lemma ExchangeAccounted(h: Store, held: multiset<Edge>, x: Off, base: nat, kind: Kind, olds: seq<Off>, news: seq<Off>)
    requires Region(h, x, base, kind, olds) && |news| == |olds|
    requires Accounted(h, held + CellEdges(kind, news))
    ensures Accounted(h[x := WithRegion(h[x], base, kind, news)], held + CellEdges(kind, olds))
    ensures Region(h[x := WithRegion(h[x], base, kind, news)], x, base, kind, news)
  {
    hide Accounted, Edges, Cells;
    var fs, b := h[x].fields, WithRegion(h[x], base, kind, news);
    var pre, post := fs[..base], fs[base + |olds|..];
    assert fs == pre + Cells(kind, olds) + post;
    AroundCells(pre, Cells(kind, olds), post);
    AroundCells(pre, Cells(kind, news), post);
    var frame, mine, theirs := Edges(pre) + Edges(post), CellEdges(kind, olds), CellEdges(kind, news);
    assert Edges(b.fields) + mine == (frame + theirs) + mine == (frame + mine) + theirs;
    RewriteFieldsAccounted(h, held, x, b, theirs, mine);
  }

  lemma AroundCells(pre: seq<Field>, mid: seq<Field>, post: seq<Field>)
    ensures Edges(pre + mid + post) == Edges(pre) + Edges(post) + Edges(mid)
  {
    FieldsConcat(pre + mid, post);
    FieldsConcat(pre, mid);
  }

  // ---- Conservation over any interleaving ----

  /** How one replacement by some thread goes: an index or offset check or the commit
      refuses it, or it commits; after a commit the handle of the `k`-th displaced element
      may turn out not to be rebuildable. */
  datatype Fate = Refused | Committed | Broken(k: nat)

  datatype Op = At(index: nat, value: Off, fate: Fate) | Whole(values: seq<Off>, fate: Fate)

  function Given(op: Op): seq<Off> {
    match op
    case At(_, v, _) => [v]
    case Whole(vs, _) => vs
  }

  /** The slots afterwards, what was handed back, and which displaced handles were released
      or lost instead. */
  datatype Result = Result(slots: seq<Off>, back: seq<Off>, dropped: seq<Off>, lost: seq<Off>)

  /** A null slot has no handle to rebuild. */
  predicate Breaks(slots: seq<Off>, op: Op) {
    op.Whole? && op.fate.Broken? && |op.values| == |slots| && op.fate.k < |slots| && slots[op.fate.k] != 0
  }

  function Step(slots: seq<Off>, op: Op): (r: Result)
    ensures |r.slots| == |slots|
  {
    if Breaks(slots, op) then
      Result(op.values, [slots[op.fate.k]], slots[..op.fate.k], slots[op.fate.k + 1..])
    else match op
    case At(i, v, fate) =>
      if i < |slots| && !fate.Refused? then Result(slots[i := v], [slots[i]], [], []) else Result(slots, [v], [], [])
    case Whole(vs, fate) =>
      if |vs| == |slots| && !fate.Refused? then Result(vs, slots, [], []) else Result(slots, vs, [], [])
  }

  function Then(a: Result, b: Result): Result {
    Result(b.slots, a.back + b.back, a.dropped + b.dropped, a.lost + b.lost)
  }

  function RunSlots(slots: seq<Off>, ops: seq<Op>): (r: Result)
    ensures |r.slots| == |slots|
    decreases |ops|
  {
    if ops == [] then Result(slots, [], [], []) else
      var first := Step(slots, ops[0]);
      Then(first, RunSlots(first.slots, ops[1..]))
  }

  function AllGiven(ops: seq<Op>): seq<Off> {
    if ops == [] then [] else Given(ops[0]) + AllGiven(ops[1..])
  }

  /** Everything a result accounts for. */
  function Total(r: Result): multiset<Off> {
    multiset(r.slots) + multiset(r.back) + multiset(r.dropped) + multiset(r.lost)
  }

  lemma StepConserves(slots: seq<Off>, op: Op)
    ensures Total(Step(slots, op)) == multiset(slots) + multiset(Given(op))
  {
    hide Total;
    var r := Step(slots, op);
    if Breaks(slots, op) {
      BrokenTotal(slots, op.fate.k, op.values);
    } else {
      PlainTotal(r.slots, r.back);
      if op.At? && op.index < |slots| && !op.fate.Refused? { SwapConserves(slots, op.index, op.value); }
    }
  }

  lemma PlainTotal(slots: seq<Off>, back: seq<Off>)
    ensures Total(Result(slots, back, [], [])) == multiset(slots) + multiset(back)
  {}

  lemma BrokenTotal(slots: seq<Off>, k: nat, values: seq<Off>)
    requires k < |slots|
    ensures Total(Result(values, [slots[k]], slots[..k], slots[k + 1..])) == multiset(slots) + multiset(values)
  {
    ThreeParts(slots, k);
    SumParts(multiset(values), multiset([slots[k]]), multiset(slots[..k]), multiset(slots[k + 1..]));
  }

  lemma SumParts(a: multiset<Off>, b: multiset<Off>, c: multiset<Off>, d: multiset<Off>)
    ensures a + b + c + d == (b + c + d) + a
  {}

  lemma ThreeParts(slots: seq<Off>, k: nat)
    requires k < |slots|
    ensures multiset(slots) == multiset([slots[k]]) + multiset(slots[..k]) + multiset(slots[k + 1..])
  {
    assert slots == slots[..k] + [slots[k]] + slots[k + 1..];
  }

  lemma SwapConserves(slots: seq<Off>, i: nat, v: Off)
    requires i < |slots|
    ensures multiset(slots[i := v]) + multiset([slots[i]]) == multiset(slots) + multiset([v])
  {
    assert slots == slots[..i] + [slots[i]] + slots[i + 1..];
    assert slots[i := v] == slots[..i] + [v] + slots[i + 1..];
  }

  lemma ThenTotal(a: Result, b: Result, slots: multiset<Off>, given: multiset<Off>, more: multiset<Off>)
    requires Total(a) == slots + given && Total(b) == multiset(a.slots) + more
    ensures Total(Then(a, b)) == slots + given + more
  {
    var gone := multiset(a.back) + multiset(a.dropped) + multiset(a.lost);
    assert Total(a) == multiset(a.slots) + gone;
    assert Total(Then(a, b)) == Total(b) + gone;
  }

  /** However any number of replacements by any threads interleave and fail: what is in the
      slots, was handed back, was released and was lost is together exactly what was there
      and what was given. */
  lemma {:induction false} RunConserves(slots: seq<Off>, ops: seq<Op>)
    ensures Total(RunSlots(slots, ops)) == multiset(slots) + multiset(AllGiven(ops))
    decreases |ops|
  {
    if ops != [] {
      hide Step, Total;
      var op, rest := ops[0], ops[1..];
      var first := Step(slots, op);
      StepConserves(slots, op);
      RunConserves(first.slots, rest);
      ThenTotal(first, RunSlots(first.slots, rest), multiset(slots), multiset(Given(op)), multiset(AllGiven(rest)));
      assert multiset(AllGiven(ops)) == multiset(Given(op)) + multiset(AllGiven(rest));
    } else {
      NothingRun(slots, ops);
    }
  }

  lemma NothingRun(slots: seq<Off>, ops: seq<Op>)
    requires ops == []
    ensures Total(RunSlots(slots, ops)) == multiset(slots) + multiset(AllGiven(ops))
  {}

  /** So no block gains a second owner: distinct handles stay distinct. */
  lemma EachOwnedOnce(slots: seq<Off>, ops: seq<Op>, o: Off)
    requires (multiset(slots) + multiset(AllGiven(ops)))[o] == 1
    ensures var r := RunSlots(slots, ops);
      Once(o in r.slots) + Once(o in r.back) + Once(o in r.dropped) + Once(o in r.lost) == 1
  {
    RunConserves(slots, ops);
    var r := RunSlots(slots, ops);
    assert multiset(r.slots)[o] + multiset(r.back)[o] + multiset(r.dropped)[o] + multiset(r.lost)[o] == 1;
  }

  function Once(b: bool): nat { if b then 1 else 0 }

  /** A rebuild breaks while another displaced slot holds a handle. */
  predicate Spills(slots: seq<Off>, op: Op) {
    Breaks(slots, op) && exists i :: 0 <= i < |slots| && i != op.fate.k && slots[i] != 0
  }

  predicate AllNull(offs: seq<Off>) { forall o <- offs :: o == 0 }

  lemma StepSpills(slots: seq<Off>, op: Op)
    ensures AllNull(Step(slots, op).dropped) && AllNull(Step(slots, op).lost) <==> !Spills(slots, op)
  {
    if Breaks(slots, op) {
      var k := op.fate.k;
      forall i | 0 <= i < |slots| && i != k ensures slots[i] in slots[..k] || slots[i] in slots[k + 1..] {
        if i < k { assert slots[i] == slots[..k][i]; } else { assert slots[i] == slots[k + 1..][i - k - 1]; }
      }
    }
  }

  predicate NeverSpills(slots: seq<Off>, ops: seq<Op>)
    decreases |ops|
  {
    ops == [] || (!Spills(slots, ops[0]) && NeverSpills(Step(slots, ops[0]).slots, ops[1..]))
  }

  /** A run releases or loses a handle if and only if some rebuild in it broke while another
      displaced slot held one. */
  lemma {:induction false} NothingGoneIff(slots: seq<Off>, ops: seq<Op>)
    ensures AllNull(RunSlots(slots, ops).dropped) && AllNull(RunSlots(slots, ops).lost) <==> NeverSpills(slots, ops)
    decreases |ops|
  {
    if ops != [] {
      hide Step, Spills, AllNull;
      var first := Step(slots, ops[0]);
      var rest := RunSlots(first.slots, ops[1..]);
      StepSpills(slots, ops[0]);
      NothingGoneIff(first.slots, ops[1..]);
      NullConcat(first.dropped, rest.dropped);
      NullConcat(first.lost, rest.lost);
    }
  }

  lemma NullConcat(a: seq<Off>, b: seq<Off>)
    ensures AllNull(a + b) <==> AllNull(a) && AllNull(b)
  {
    assert forall o <- a :: o in a + b;
    assert forall o <- b :: o in a + b;
  }

  /** The handle of a displaced strong element is rebuilt from its control pointer. */
  predicate Rereads(h: Store, kind: Kind, o: Off) {
    kind.StrongKind? && o != 0 && o in h && h[o].Data?
  }

  function Targets(fs: seq<Field>): seq<Off> {
    if fs == [] then [] else
      [match fs[0] case Own(o) => o case Strong(o) => o case Ref(o) => o case _ => 0] + Targets(fs[1..])
  }

  lemma {:induction false} TargetsOf(kind: Kind, offs: seq<Off>)
    ensures Targets(Cells(kind, offs)) == offs
  {
    if offs != [] {
      assert Cells(kind, offs)[1..] == Cells(kind, offs[1..]);
      TargetsOf(kind, offs[1..]);
    }
  }

  lemma NoCells(kind: Kind)
    ensures CellEdges(kind, []) == multiset{}
  {}

  lemma OneCell(kind: Kind, o: Off)
    ensures CellEdges(kind, [o]) == FieldEdges(Cell(kind, o))
  {
    var fs := Cells(kind, [o]);
    assert fs == [Cell(kind, o)] && Edges(fs[1..]) == multiset{};
  }

  lemma RegionCell(h: Store, x: Off, base: nat, kind: Kind, offs: seq<Off>, i: nat)
    requires Region(h, x, base, kind, offs) && i < |offs|
    ensures Region(h, x, base + i, kind, [offs[i]])
  {
    assert h[x].fields[base + i] == h[x].fields[base..base + |offs|][i];
  }

  lemma RegionHasFields(h: Store, x: Off, base: nat, kind: Kind, offs: seq<Off>)
    requires Region(h, x, base, kind, offs)
    ensures x in h && HasFields(h[x]) && base + |offs| <= |h[x].fields|
  {}

  lemma CellInRegion(h: Store, x: Off, base: nat, kind: Kind, offs: seq<Off>, i: nat, o: Off)
    requires Region(h, x, base, kind, offs) && i < |offs|
    ensures Region(h[x := WithRegion(h[x], base + i, kind, [o])], x, base, kind, offs[i := o])
  {
    hide Cells, Cell;
    var fs := h[x].fields;
    assert Cells(kind, [o]) == [Cell(kind, o)];
    assert WithRegion(h[x], base + i, kind, [o]).fields == fs[base + i := Cell(kind, o)];
    WindowUpdate(fs, base, |offs|, i, Cell(kind, o));
    assert Cells(kind, offs[i := o]) == Cells(kind, offs)[i := Cell(kind, o)];
  }

  lemma WindowUpdate(fs: seq<Field>, base: nat, n: nat, i: nat, f: Field)
    requires base + n <= |fs| && i < n
    ensures fs[base + i := f][base..base + n] == fs[base..base + n][i := f]
  {}

  lemma {:induction false} CellsNull(kind: Kind, offs: seq<Off>)
    requires !kind.RefKind?
    ensures CellEdges(kind, offs) == multiset{} <==> forall i :: 0 <= i < |offs| ==> offs[i] == 0
  {
    if offs != [] {
      var first, rest := [offs[0]], offs[1..];
      CellsNull(kind, rest);
      assert offs == first + rest;
      CellsConcat(kind, first, rest);
      OneCell(kind, offs[0]);
      if offs[0] != 0 {
        var e := if kind.OwnedKind? then OwnTo(offs[0]) else StrongTo(offs[0]);
        assert e in FieldEdges(Cell(kind, offs[0]));
        assert e in CellEdges(kind, offs);
      } else {
        assert forall i :: 0 < i < |offs| ==> offs[i] == rest[i - 1];
        assert CellEdges(kind, offs) == CellEdges(kind, rest);
      }
    }
  }

  /** The displaced handles around the one that cannot be rebuilt. */
  lemma ThreeWays(kind: Kind, offs: seq<Off>, k: nat)
    requires kind.StrongKind? && k < |offs| && offs[k] != 0
    ensures CellEdges(kind, offs)
            == CellEdges(kind, offs[..k]) + multiset{StrongTo(offs[k])} + CellEdges(kind, offs[k + 1..])
  {
    assert offs == offs[..k] + [offs[k]] + offs[k + 1..];
    CellsConcat(kind, offs[..k] + [offs[k]], offs[k + 1..]);
    CellsConcat(kind, offs[..k], [offs[k]]);
    OneCell(kind, offs[k]);
  }

  /** The failed rebuild of the `k`-th displaced handle is fully recoverable exactly when
      every other displaced slot was null. */
  lemma RecoverableIff(kind: Kind, offs: seq<Off>, k: nat)
    requires kind.StrongKind? && k < |offs| && offs[k] != 0
    ensures CellEdges(kind, offs[..k]) + CellEdges(kind, offs[k + 1..]) == multiset{}
            <==> forall i :: 0 <= i < |offs| && i != k ==> offs[i] == 0
  {
    CellsNull(kind, offs[..k]);
    CellsNull(kind, offs[k + 1..]);
    var pre, post := CellEdges(kind, offs[..k]), CellEdges(kind, offs[k + 1..]);
    assert pre + post == multiset{} <==> pre == multiset{} && post == multiset{} by {
      assert |pre + post| == |pre| + |post|;
    }
    assert forall i :: 0 <= i < k ==> offs[..k][i] == offs[i];
    assert forall i :: k < i < |offs| ==> offs[k + 1..][i - k - 1] == offs[i];
  }

  /** An accounted block with two strong slots on `(rc, weak)` blocks: replacing both and
      failing to rebuild one of the displaced handles releases or loses the other. */
  lemma BrokenWitness(k: nat) returns (h: Store, slots: seq<Off>)
    requires k < 2
    ensures |slots| == 2 && slots[0] != 0 && slots[1] != 0
    ensures Accounted(h, multiset{OwnTo(5)}) && Region(h, 5, 0, StrongKind, slots)
    ensures Rereads(h, StrongKind, slots[k]) && Spills(slots, Whole([0, 0], Broken(k)))
    ensures var r := Step(slots, Whole([0, 0], Broken(k)));
      r.slots == [0, 0] && r.dropped + r.lost == [slots[1 - k]]
  {
    hide Accounted, Edges, Step, Spills;
    var none: Store, nothing: seq<Field> := map[], [];
    slots := [1, 3];
    var fs := Cells(StrongKind, slots);
    assert fs == [Strong(1), Strong(3)];
    NoneHeld(none);
    assert multiset{} + Edges(nothing) == multiset{};
    AllocPairAccounted(none, multiset{}, 1, 2, nothing);
    var one := none[1 := Data(2, nothing)][2 := Ctrl(1, 1, 1)];
    var held := multiset{} + multiset{StrongTo(1)};
    assert held + Edges(nothing) == held;
    AllocPairAccounted(one, held, 3, 4, nothing);
    var two := one[3 := Data(4, nothing)][4 := Ctrl(1, 1, 3)];
    TwoCells(1, 3);
    assert held + multiset{StrongTo(3)} == multiset{} + BlockEdges(Plain(fs));
    AllocAccounted(two, multiset{}, 5, Plain(fs));
    h := two[5 := Plain(fs)];
    assert multiset{} + multiset{OwnTo(5)} == multiset{OwnTo(5)};
    assert h[5].fields[0..2] == fs;
    BrokenStep(slots, k);
  }

  lemma BrokenStep(slots: seq<Off>, k: nat)
    requires k < 2 && slots == [1, 3]
    ensures Spills(slots, Whole([0, 0], Broken(k)))
    ensures var r := Step(slots, Whole([0, 0], Broken(k)));
      r.slots == [0, 0] && r.dropped + r.lost == [slots[1 - k]]
  {
    assert slots[1 - k] != 0;
    if k == 0 {
      assert slots[..k] == [] && slots[k + 1..] == [3];
    } else {
      assert slots[..k] == [1] && slots[k + 1..] == [];
    }
  }

  lemma TwoCells(o: Off, p: Off)
    requires o != 0 && p != 0
    ensures Edges([Strong(o), Strong(p)]) == multiset{StrongTo(o), StrongTo(p)}
  {
    var fs, last := [Strong(o), Strong(p)], [Strong(p)];
    assert fs[1..] == last && last[1..] == [];
    assert Edges(last) == FieldEdges(Strong(p)) + Edges([]);
  }

  /** The two stores differ in the `i`-th field of `x` only, which is `f` in the second. */
  predicate OneCellDiffers(h: Store, g: Store, x: Off, i: nat, f: Field) {
    && x in h && HasFields(h[x]) && i < |h[x].fields|
    && g == h[x := h[x].(fields := h[x].fields[i := f])]
  }

  /** The two stores differ in `n` fields of `x` from `base` on only. */
  predicate OnlyRegionDiffers(h: Store, g: Store, x: Off, base: nat, n: nat) {
    && x in h && HasFields(h[x]) && base + n <= |h[x].fields|
    && x in g && HasFields(g[x]) && |g[x].fields| == |h[x].fields|
    && g == h[x := h[x].(fields := g[x].fields)]
    && g[x].fields[..base] == h[x].fields[..base] && g[x].fields[base + n..] == h[x].fields[base + n..]
  }

  lemma OneCellWritten(h: Store, x: Off, i: nat, kind: Kind, o: Off)
    requires x in h && HasFields(h[x]) && i < |h[x].fields|
    ensures OneCellDiffers(h, h[x := WithRegion(h[x], i, kind, [o])], x, i, Cell(kind, o))
  {
    hide Cell;
    assert WithRegion(h[x], i, kind, [o]).fields == h[x].fields[i := Cell(kind, o)];
  }

  lemma RegionWritten(h: Store, x: Off, base: nat, kind: Kind, offs: seq<Off>)
    requires x in h && HasFields(h[x]) && base + |offs| <= |h[x].fields|
    ensures OnlyRegionDiffers(h, h[x := WithRegion(h[x], base, kind, offs)], x, base, |offs|)
  {
    hide Cells;
  }

  /** A handle per element that is not null: an owned one, a strong one, or none at all. */
  lemma {:induction false} CellEdgesAre(kind: Kind, offs: seq<Off>, o: Off)
    ensures o != 0 ==> CellEdges(kind, offs)[OwnTo(o)] == if kind.OwnedKind? then multiset(offs)[o] else 0
    ensures o != 0 ==> CellEdges(kind, offs)[StrongTo(o)] == if kind.StrongKind? then multiset(offs)[o] else 0
    ensures forall e <- CellEdges(kind, offs) :: e.off != 0 && (e.OwnTo? || e.StrongTo?)
  {
    if offs != [] {
      var first, rest := [offs[0]], offs[1..];
      assert offs == first + rest;
      CellsConcat(kind, first, rest);
      OneCell(kind, offs[0]);
      CellEdgesAre(kind, rest, o);
    } else {
      NoCells(kind);
    }
  }

  class Mutator {
    var blocks: Store

    constructor (file: Store)
      ensures blocks == file
    {
      blocks := file;
    }

    /** One atomic exchange of a run of slots: it happens whole or not at all. */
    method Swap(x: Off, base: nat, kind: Kind, ghost olds: seq<Off>, news: seq<Off>)
      returns (ok: bool, displaced: seq<Off>)
      requires Region(blocks, x, base, kind, olds) && |news| == |olds|
      modifies this
      ensures ok ==> displaced == olds && blocks == old(blocks)[x := WithRegion(old(blocks)[x], base, kind, news)]
      ensures !ok ==> blocks == old(blocks)
    {
      if * { return false, []; }
      displaced := Targets(blocks[x].fields[base..base + |news|]);
      TargetsOf(kind, olds);
      blocks := blocks[x := WithRegion(blocks[x], base, kind, news)];
      return true, displaced;
    }

    /** `replace_<field>_at`, and `replace_<field>` of a scalar field. */
    method ReplaceAt(x: Off, base: nat, kind: Kind, total: nat, index: nat, value: Off,
                     ghost slots: seq<Off>, ghost held: multiset<Edge>)
      returns (r: Reply)
      requires Region(blocks, x, base, kind, slots) && |slots| == total
      requires Accounted(blocks, held + CellEdges(kind, [value]))
      modifies this
      ensures var next := Step(slots, At(index, value, FateOf(r, 0)));
        && Region(blocks, x, base, kind, next.slots)
        && match r
           case Swapped(os) => os == next.back
           case Recovered(os) => os == next.back == [value] && blocks == old(blocks)
           case RawOld(o) => next.back == [o] && Rereads(blocks, kind, o)
      ensures index >= total ==> r.Recovered?
      ensures r.Recovered? ==> r.value == [value] && blocks == old(blocks)
      ensures r.Swapped? ==> r.taken == [slots[index]]
      ensures r.RawOld? ==> r.raw == slots[index]
      ensures r.RawOld? ==> kind.StrongKind? && r.raw != 0 && r.raw in blocks && blocks[r.raw].Data?
      ensures !r.Recovered? ==>
        && Region(blocks, x, base, kind, slots[index := value])
        && OneCellDiffers(old(blocks), blocks, x, base + index, Cell(kind, value))
      ensures Accounted(blocks, held + ReplyEdges(kind, r))
    {
      hide Accounted, Region, WithRegion, CellEdges, Edges;
      if index >= total { return Recovered([value]); }
      if * { return Recovered([value]); }  // the slot's offset does not fit
      RegionCell(blocks, x, base, kind, slots, index);
      ghost var h := blocks;
      var ok, displaced := Swap(x, base + index, kind, [slots[index]], [value]);
      if !ok { return Recovered([value]); }
      ExchangeAccounted(h, held, x, base + index, kind, [slots[index]], [value]);
      RegionHasFields(h, x, base, kind, slots);
      CellInRegion(h, x, base, kind, slots, index, value);
      OneCellWritten(h, x, base + index, kind, value);
      r := Swapped(displaced);
      var readFails: bool := *;
      if Rereads(blocks, kind, displaced[0]) && readFails {
        r := RawOld(displaced[0]);
      }
      assert CellEdges(kind, [slots[index]]) == ReplyEdges(kind, r) by { OneCell(kind, slots[index]); }
    }

    /** `replace_<field>` of a whole array: one exchange of the region, then the displaced
        handles are rebuilt in order.  If the `k`-th cannot be, only its offset comes back:
        the handles before it are dropped, which releases them, and those after it are
        lost. */
    method ReplaceWhole(x: Off, base: nat, kind: Kind, values: seq<Off>, ghost slots: seq<Off>, ghost held: multiset<Edge>)
      returns (r: Reply, ghost k: nat, ghost dropped: multiset<Edge>, ghost lost: multiset<Edge>)
      requires Region(blocks, x, base, kind, slots) && |slots| == |values|
      requires Accounted(blocks, held + CellEdges(kind, values))
      modifies this
      ensures var next := Step(slots, Whole(values, FateOf(r, k)));
        && Region(blocks, x, base, kind, next.slots)
        && dropped == CellEdges(kind, next.dropped) && lost == CellEdges(kind, next.lost)
        && match r
           case Swapped(os) => os == next.back == slots
           case Recovered(os) => os == next.back == values && blocks == old(blocks)
           case RawOld(o) => k < |slots| && [o] == next.back == [slots[k]] && Rereads(blocks, kind, o)
      ensures r.Recovered? ==> r.value == values && blocks == old(blocks)
      ensures r.Swapped? ==> r.taken == slots && dropped == lost == multiset{}
      ensures r.RawOld? ==>
        && k < |slots| && r.raw == slots[k]
        && kind.StrongKind? && r.raw != 0 && r.raw in blocks && blocks[r.raw].Data?
        && dropped == CellEdges(kind, slots[..k]) && lost == CellEdges(kind, slots[k + 1..])
      ensures !r.Recovered? ==>
        && Region(blocks, x, base, kind, values)
        && OnlyRegionDiffers(old(blocks), blocks, x, base, |values|)
      ensures Accounted(blocks, held + ReplyEdges(kind, r) + dropped + lost)
    {
      hide Accounted, Region, CellEdges;
      assert CellEdges(kind, []) == multiset{} by { NoCells(kind); }
      k, dropped, lost := 0, multiset{}, multiset{};
      ghost var h := blocks;
      var ok, displaced := Swap(x, base, kind, slots, values);
      if !ok {
        r := Recovered(values);
        assert held + ReplyEdges(kind, r) + dropped + lost == held + CellEdges(kind, values);
        return;
      }
      ExchangeAccounted(h, held, x, base, kind, slots, values);
      RegionHasFields(h, x, base, kind, slots);
      RegionWritten(h, x, base, kind, values);
      var i := 0;
      while i < |displaced|
        invariant 0 <= i <= |displaced|
      {
        var readFails: bool := *;
        if Rereads(blocks, kind, displaced[i]) && readFails {
          r, k := RawOld(displaced[i]), i;
          dropped, lost := CellEdges(kind, slots[..i]), CellEdges(kind, slots[i + 1..]);
          ThreeWays(kind, slots, i);
          assert held + ReplyEdges(kind, r) + dropped + lost == held + CellEdges(kind, slots);
          return;
        }
        i := i + 1;
      }
      r := Swapped(displaced);
      assert held + ReplyEdges(kind, r) + dropped + lost == held + CellEdges(kind, slots);
    }
  }
}
