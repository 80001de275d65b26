/** Moving a block out into the handles of its fields: what is re-homed, what is freed, and
    what a move that fails halfway leaves behind. */
module MoveOut {
  import opened Heap
  import opened Cascade
  import opened Tree
  import opened Construct

  function Embeds(fs: seq<Field>): nat {
    if fs == [] then 0 else (if fs[0].Embed? then 1 else 0) + Embeds(fs[1..])
  }

  /** What a move returns for the fields `fs` when the embedded ones go to `at`. */
  function Outs(fs: seq<Field>, at: seq<Off>): seq<Arg>
    requires |at| == Embeds(fs)
  {
    if fs == [] then [] else
    if fs[0].Embed? then [Inlined(at[0])] + Outs(fs[1..], at[1..]) else [Stored(fs[0])] + Outs(fs[1..], at)
  }

  /** The store with each embedded image copied to a block of its own. */
  function Rehomed(h: Store, fs: seq<Field>, at: seq<Off>): Store
    requires |at| == Embeds(fs)
    decreases |fs|
  {
    if fs == [] then h else
    if fs[0].Embed? then Rehomed(h[at[0] := Plain(fs[0].inner)], fs[1..], at[1..]) else Rehomed(h, fs[1..], at)
  }

  lemma {:induction false} RehomedNext(h: Store, fs: seq<Field>, at: seq<Off>, f: Field, o: Off)
    requires |at| == Embeds(fs)
    ensures var more := if f.Embed? then at + [o] else at;
      && |more| == Embeds(fs + [f])
      && Outs(fs + [f], more) == Outs(fs, at) + [if f.Embed? then Inlined(o) else Stored(f)]
      && Rehomed(h, fs + [f], more) == if f.Embed? then Rehomed(h, fs, at)[o := Plain(f.inner)] else Rehomed(h, fs, at)
    decreases |fs|
  {
    if fs == [] {
      assert fs + [f] == [f] && at + [o] == [o];
    } else {
      assert (fs + [f])[1..] == fs[1..] + [f];
      if fs[0].Embed? {
        assert (at + [o])[1..] == at[1..] + [o];
        RehomedNext(h[at[0] := Plain(fs[0].inner)], fs[1..], at[1..], f, o);
      } else {
        RehomedNext(h, fs[1..], at, f, o);
      }
    }
  }

  lemma {:induction false} RehomedKeys(h: Store, fs: seq<Field>, at: seq<Off>)
    requires |at| == Embeds(fs) && Fresh(h, at)
    ensures Rehomed(h, fs, at).Keys == h.Keys + Range(at)
    ensures forall y <- h :: Rehomed(h, fs, at)[y] == h[y]
    decreases |fs|
  {
    if fs != [] {
      if fs[0].Embed? {
        FreshHead(h, at, Plain(fs[0].inner));
        RehomedKeys(h[at[0] := Plain(fs[0].inner)], fs[1..], at[1..]);
        assert at == [at[0]] + at[1..];
      } else {
        RehomedKeys(h, fs[1..], at);
      }
    }
  }

  lemma FreshHead(h: Store, at: seq<Off>, b: Block)
    requires Fresh(h, at) && at != []
    ensures at[0] != 0 && at[0] !in h && Fresh(h[at[0] := b], at[1..]) && Fresh(h, at[1..])
  {}

  lemma StoredHandle(f: Field)
    requires !f.Embed?
    ensures multiset(ArgHandle(Stored(f))) == FieldEdges(f)
  {}

  lemma OutsHead(fs: seq<Field>, at: seq<Off>)
    requires fs != [] && |at| == Embeds(fs)
    ensures fs[0].Embed? ==>
      && at != [] && |at[1..]| == Embeds(fs[1..])
      && ArgsEdges(Outs(fs, at)) == multiset{OwnTo(at[0])} + ArgsEdges(Outs(fs[1..], at[1..]))
    ensures !fs[0].Embed? ==>
      && |at| == Embeds(fs[1..])
      && ArgsEdges(Outs(fs, at)) == FieldEdges(fs[0]) + ArgsEdges(Outs(fs[1..], at))
  {
    if fs[0].Embed? {
      assert Outs(fs, at)[1..] == Outs(fs[1..], at[1..]);
    } else {
      StoredHandle(fs[0]);
      hide ArgHandle, FieldEdges;
      assert Outs(fs, at)[1..] == Outs(fs[1..], at);
    }
  }

  /** Moving the fields of a released shell out: their edges become handles one for one. */
  lemma {:induction false} RehomeAccounted(h: Store, held: multiset<Edge>, fs: seq<Field>, at: seq<Off>)
    requires Accounted(h, held + Edges(fs)) && |at| == Embeds(fs) && Fresh(h, at)
    ensures Accounted(Rehomed(h, fs, at), held + ArgsEdges(Outs(fs, at)))
    decreases |fs|
  {
    hide Accounted, Fresh, FieldEdges, ArgsEdges;
    if fs == [] {
      assert held + Edges(fs) == held + ArgsEdges(Outs(fs, at)) by { EmptyOuts(); }
    } else {
      hide Outs, Embeds;
      OutsHead(fs, at);
      var f, rest, theirs := fs[0], fs[1..], Edges(fs[1..]);
      if f.Embed? {
        var mine, tail := multiset{OwnTo(at[0])}, at[1..];
        assert FieldEdges(f) == Edges(f.inner) by { EmbedHandles(f); }
        assert held + Edges(fs) == (held + theirs) + Edges(f.inner);
        FreshHead(h, at, Plain(f.inner));
        AllocAccounted(h, held + theirs, at[0], Plain(f.inner));
        assert held + theirs + mine == (held + mine) + theirs;
        RehomeAccounted(h[at[0] := Plain(f.inner)], held + mine, rest, tail);
        assert held + mine + ArgsEdges(Outs(rest, tail)) == held + ArgsEdges(Outs(fs, at));
      } else {
        assert held + Edges(fs) == (held + FieldEdges(f)) + theirs;
        RehomeAccounted(h, held + FieldEdges(f), rest, at);
        assert held + FieldEdges(f) + ArgsEdges(Outs(rest, at)) == held + ArgsEdges(Outs(fs, at));
      }
    }
  }

  lemma EmptyOuts()
    ensures ArgsEdges([]) == multiset{}
  {}

  lemma {:induction false} RehomedWithout(h: Store, fs: seq<Field>, at: seq<Off>, x: Off)
    requires |at| == Embeds(fs) && Fresh(h, at) && x in h
    ensures Rehomed(h, fs, at) - {x} == Rehomed(h - {x}, fs, at)
    decreases |fs|
  {
    if fs != [] {
      if fs[0].Embed? {
        FreshHead(h, at, Plain(fs[0].inner));
        var g := h[at[0] := Plain(fs[0].inner)];
        RehomedWithout(g, fs[1..], at[1..], x);
        assert g - {x} == (h - {x})[at[0] := Plain(fs[0].inner)];
      } else {
        RehomedWithout(h, fs[1..], at, x);
      }
    }
  }

  /** The store after a completed move: embedded children re-homed, the shell freed. */
  function MovedOut(h: Store, x: Off, at: seq<Off>): Store
    requires x in h && HasFields(h[x]) && |at| == Embeds(BlockFields(h[x]))
  {
    Rehomed(h, BlockFields(h[x]), at) - {x}
  }

  lemma MovedAccounted(h: Store, held: multiset<Edge>, x: Off, at: seq<Off>)
    requires x in h && HasFields(h[x]) && |at| == Embeds(BlockFields(h[x])) && Fresh(h, at)
    requires Accounted(h - {x}, held + Edges(BlockFields(h[x])))
    ensures Accounted(MovedOut(h, x, at), held + ArgsEdges(Outs(BlockFields(h[x]), at)))
  {
    hide Accounted;
    RehomedWithout(h, BlockFields(h[x]), at, x);
    RehomeAccounted(h - {x}, held, BlockFields(h[x]), at);
  }

  // ---- A move that fails halfway ----

  /** A re-home failed at the `j`-th field: the shell is live, and so are the copies made
      for the embedded fields before it. */
  ghost predicate StuckAt(h: Store, g: Store, x: Off, j: nat, at: seq<Off>) {
    && x in h && HasFields(h[x]) && j < |BlockFields(h[x])|
    && var done := BlockFields(h[x])[..j];
       BlockFields(h[x])[j].Embed? && |at| == Embeds(done) && Fresh(h, at) && g == Rehomed(h, done, at)
  }

  /** The store is untouched exactly when the failing field is the first embedded one. */
  lemma StuckUnchanged(h: Store, g: Store, x: Off, j: nat, at: seq<Off>)
    requires StuckAt(h, g, x, j, at)
    ensures g == h <==> forall i :: 0 <= i < j ==> !BlockFields(h[x])[i].Embed?
  {
    var done := BlockFields(h[x])[..j];
    NoEmbeds(done);
    RehomedKeys(h, done, at);
    if at != [] {
      assert at[0] in Range(at) && at[0] !in h;
    } else {
      RehomedNone(h, done);
    }
  }

  lemma {:induction false} NoEmbeds(fs: seq<Field>)
    ensures Embeds(fs) == 0 <==> forall i :: 0 <= i < |fs| ==> !fs[i].Embed?
  {
    if fs != [] {
      NoEmbeds(fs[1..]);
      assert forall i :: 0 < i < |fs| ==> fs[i] == fs[1..][i - 1];
    }
  }

  lemma {:induction false} RehomedNone(h: Store, fs: seq<Field>)
    requires Embeds(fs) == 0
    ensures Rehomed(h, fs, []) == h
    decreases |fs|
  {
    if fs != [] { RehomedNone(h, fs[1..]); }
  }

  /** The edges that re-homed copies hold a second time. */
  function CopiedEdges(fs: seq<Field>): multiset<Edge> {
    if fs == [] then multiset{} else (if fs[0].Embed? then Edges(fs[0].inner) else multiset{}) + CopiedEdges(fs[1..])
  }

  lemma {:induction false} CopiedHeldTwice(h: Store, fs: seq<Field>, at: seq<Off>)
    requires |at| == Embeds(fs) && Fresh(h, at)
    ensures AllEdges(Rehomed(h, fs, at)) == AllEdges(h) + CopiedEdges(fs)
    decreases |fs|
  {
    hide Fresh;
    if fs != [] {
      if fs[0].Embed? {
        var b := Plain(fs[0].inner);
        FreshHead(h, at, b);
        AllEdgesInsert(h, at[0], b);
        CopiedHeldTwice(h[at[0] := b], fs[1..], at[1..]);
      } else {
        CopiedHeldTwice(h, fs[1..], at);
      }
    }
  }

  lemma {:induction false} CopiedInBlock(fs: seq<Field>, j: nat)
    requires j <= |fs|
    ensures CopiedEdges(fs[..j]) <= Edges(fs)
  {
    var done := fs[..j];
    if j > 0 {
      CopiedInBlock(fs[1..], j - 1);
      assert done[0] == fs[0] && done[1..] == fs[1..][..j - 1];
      var mine := if fs[0].Embed? then Edges(fs[0].inner) else multiset{};
      SumMonotone(mine, CopiedEdges(done[1..]), FieldEdges(fs[0]), Edges(fs[1..]));
    }
  }

  lemma SumMonotone(a: multiset<Edge>, b: multiset<Edge>, c: multiset<Edge>, d: multiset<Edge>)
    requires a <= c && b <= d
    ensures a + b <= c + d
  {}

  /** Two totals that both balance give a shared block the same holders. */
  lemma CountPinned(h: Store, g: Store, a: multiset<Edge>, b: multiset<Edge>, e: Edge)
    requires Balanced(h, a) && Balanced(g, b) && e in a && e in b
    requires forall y <- h :: y in g && g[y] == h[y]
    ensures a[e] == b[e]
  {
    assert BlockOk(h, a, e.off) && BlockOk(g, b, e.off);
  }

  function Owners(at: seq<Off>): multiset<Edge> {
    if at == [] then multiset{} else multiset{OwnTo(at[0])} + Owners(at[1..])
  }

  lemma {:induction false} EmptyCopiesAccounted(h: Store, held: multiset<Edge>, fs: seq<Field>, at: seq<Off>)
    requires Accounted(h, held) && |at| == Embeds(fs) && Fresh(h, at) && CopiedEdges(fs) == multiset{}
    ensures Accounted(Rehomed(h, fs, at), held + Owners(at))
    decreases |fs|
  {
    hide Accounted, Fresh;
    if fs == [] {
      assert held + Owners(at) == held;
    } else if fs[0].Embed? {
      var b, e := Plain(fs[0].inner), OwnTo(at[0]);
      FreshHead(h, at, b);
      assert BlockEdges(b) == multiset{};
      assert held + BlockEdges(b) == held;
      AllocAccounted(h, held, at[0], b);
      EmptyCopiesAccounted(h[at[0] := b], held + multiset{e}, fs[1..], at[1..]);
      assert held + multiset{e} + Owners(at[1..]) == held + Owners(at);
    } else {
      EmptyCopiesAccounted(h, held, fs[1..], at);
    }
  }

  /** A failed move of an owned block leaves an accountable store exactly when the copies
      it leaves behind hold nothing: then they are merely lost, else every edge they hold
      has two holders and one count. */
  lemma StuckAccountable(h: Store, held: multiset<Edge>, g: Store, x: Off, j: nat, at: seq<Off>)
    requires Accounted(h, held) && StuckAt(h, g, x, j, at)
    ensures (exists lost :: Accounted(g, held + lost)) <==> CopiedEdges(BlockFields(h[x])[..j]) == multiset{}
  {
    var fs := BlockFields(h[x]);
    var copied := CopiedEdges(fs[..j]);
    if copied == multiset{} {
      EmptyCopiesAccounted(h, held, fs[..j], at);
    } else if lost :| Accounted(g, held + lost) {
      hide Rehomed, CopiedEdges, Edges;
      var e :| e in copied;
      CopiedHeldTwice(h, fs[..j], at);
      CopiedInBlock(fs, j);
      AllEdgesSplit(h, x);
      RehomedKeys(h, fs[..j], at);
      CountPinned(h, g, AllEdges(h) + held, AllEdges(g) + (held + lost), e);
    }
  }

  /** A block with two embedded children, the first of which owns a block: when re-homing
      the second fails, two images hold the one edge. */
  lemma StuckWitness() returns (h: Store, g: Store)
    ensures Accounted(h, multiset{OwnTo(1)}) && StuckAt(h, g, 1, 1, [3])
    ensures forall lost :: !Accounted(g, multiset{OwnTo(1)} + lost)
  {
    hide Accounted;
    var first, second := Embed([Own(2)]), Embed([]);
    var fs, done := [first, second], [first];
    h := WitnessStore(first, second);
    g := h[3 := Plain([Own(2)])];
    assert fs[..1] == done && done[1..] == [];
    WitnessRehomed(h, g, done);
    StuckAccountable(h, multiset{OwnTo(1)}, g, 1, 1, [3]);
  }

  lemma WitnessRehomed(h: Store, g: Store, fs: seq<Field>)
    requires fs == [Embed([Own(2)])] && g == h[3 := Plain([Own(2)])]
    ensures Embeds(fs) == 1 && Rehomed(h, fs, [3]) == g && CopiedEdges(fs) != multiset{}
  {
    assert fs[1..] == [] && [3][1..] == [];
    WitnessEdges(fs[0], Embed([]));
    assert CopiedEdges(fs) == Edges([Own(2)]) + CopiedEdges([]);
  }

  lemma WitnessStore(first: Field, second: Field) returns (h: Store)
    requires first == Embed([Own(2)]) && second == Embed([])
    ensures Accounted(h, multiset{OwnTo(1)}) && h.Keys == {1, 2} && h[1] == Plain([first, second])
  {
    hide Accounted, Edges, FieldEdges;
    var none: Store, leaf, fs := map[], Plain([]), [first, second];
    WitnessEdges(first, second);
    NoneHeld(none);
    assert multiset{} + BlockEdges(leaf) == multiset{};
    AllocAccounted(none, multiset{}, 2, leaf);
    var one := none[2 := leaf];
    assert multiset{} + multiset{OwnTo(2)} == multiset{} + BlockEdges(Plain(fs));
    AllocAccounted(one, multiset{}, 1, Plain(fs));
    h := one[1 := Plain(fs)];
    assert multiset{} + multiset{OwnTo(1)} == multiset{OwnTo(1)};
  }

  lemma WitnessEdges(first: Field, second: Field)
    requires first == Embed([Own(2)]) && second == Embed([])
    ensures Edges([Own(2)]) == multiset{OwnTo(2)} && Edges([first, second]) == multiset{OwnTo(2)} && Edges([]) == multiset{}
  {
    var own, fs, last := [Own(2)], [first, second], [second];
    assert own[1..] == [] && fs[1..] == last && last[1..] == [];
    assert FieldEdges(first) == Edges(own) && FieldEdges(second) == Edges([]);
    assert Edges(fs) == FieldEdges(first) + Edges(last) && Edges(last) == FieldEdges(second) + Edges([]);
  }

  // ---- Moving a shared block out ----

  /** A block with fields, and for `(rc, weak)` with its control block. */
  predicate Movable(h: Store, x: Off) {
    x in h && HasFields(h[x])
    && (h[x].Data? ==> h[x].ctrl != x && h[x].ctrl in h && h[h[x].ctrl].Ctrl? && 0 < h[h[x].ctrl].weak)
  }

  predicate SoleOwner(h: Store, x: Off)
    requires Movable(h, x)
  {
    match h[x] case Rc(n, _) => n == 1 case Data(c, _) => h[c].strong == 1 case _ => true
  }

  /** The compare-and-swap of the strong count from one to zero. */
  function Claimed(h: Store, x: Off): Store
    requires Movable(h, x)
  {
    match h[x]
    case Rc(_, fs) => h[x := Rc(0, fs)]
    case Data(c, _) => h[c := h[c].(strong := 0)]
    case _ => h
  }

  /** The phantom weak reference released: the control block goes with the last one. */
  function WithoutPhantom(h: Store, c: Off): Store
    requires c in h && h[c].Ctrl? && 0 < h[c].weak
  {
    if h[c].weak == 1 then h - {c} else h[c := h[c].(weak := h[c].weak - 1)]
  }

  lemma SharedMovable(h: Store, held: multiset<Edge>, x: Off)
    requires Accounted(h, held + multiset{StrongTo(x)})
    ensures Movable(h, x) && (h[x].Rc? || h[x].Data?) && CanRelease(h, StrongTo(x))
  {
    HeldCanRelease(h, held + multiset{StrongTo(x)}, StrongTo(x));
    var all := AllEdges(h) + (held + multiset{StrongTo(x)});
    assert BlockOk(h, all, x);
    if h[x].Data? { assert BlockOk(h, all, h[x].ctrl); }
  }

  /** A move of a shared block can get stuck if and only if the block has an embedded
      field, and then no multiset of handles accounts for what is left: the sole owner has
      already given its count up. */
  lemma SharedStuckIff(h: Store, held: multiset<Edge>, x: Off)
    requires Accounted(h, held + multiset{StrongTo(x)}) && Movable(h, x) && SoleOwner(h, x)
    ensures (exists g, j: nat, at :: StuckAt(Claimed(h, x), g, x, j, at)) <==> Embeds(BlockFields(h[x])) > 0
    ensures forall g, j: nat, at, m :: StuckAt(Claimed(h, x), g, x, j, at) ==> !Accounted(g, m)
  {
    hide Accounted;
    SharedMovable(h, held, x);
    var k, fs := Claimed(h, x), BlockFields(h[x]);
    NoEmbeds(fs);
    if Embeds(fs) > 0 {
      var j: nat := FirstEmbed(fs);
      NoEmbeds(fs[..j]);
      RehomedNone(k, fs[..j]);
      assert StuckAt(k, k, x, j, []);
    }
    forall g, j: nat, at, m | StuckAt(k, g, x, j, at) ensures !Accounted(g, m) {
      StuckUnaccounted(h, g, x, j, at);
    }
  }

  lemma StuckUnaccounted(h: Store, g: Store, x: Off, j: nat, at: seq<Off>)
    requires Movable(h, x) && (h[x].Rc? || h[x].Data?) && StuckAt(Claimed(h, x), g, x, j, at)
    ensures forall m :: !Accounted(g, m)
  {
    hide Accounted, StuckAt;
    var k := Claimed(h, x);
    StuckKeeps(k, g, x, j, at, x);
    if h[x].Data? { StuckKeeps(k, g, x, j, at, h[x].ctrl); }
    ZeroCountUnaccounted(g, x);
  }

  lemma FirstEmbed(fs: seq<Field>) returns (j: nat)
    requires exists i :: 0 <= i < |fs| && fs[i].Embed?
    ensures j < |fs| && fs[j].Embed? && forall i :: 0 <= i < j ==> !fs[i].Embed?
  {
    j := 0;
    while !fs[j].Embed?
      invariant j < |fs| && forall i :: 0 <= i < j ==> !fs[i].Embed?
      decreases |fs| - j
    {
      j := j + 1;
    }
  }

  lemma StuckHasEmbed(h: Store, g: Store, x: Off, j: nat, at: seq<Off>)
    requires StuckAt(h, g, x, j, at)
    ensures Embeds(BlockFields(h[x])) > 0
  {
    NoEmbeds(BlockFields(h[x]));
  }

  /** The sole strong owner claims an `(rc, weak)` block: with the count at zero, what the
      block still owes is its fields and the phantom weak reference. */
  lemma LastOwner(h: Store, g: Store, held: multiset<Edge>, x: Off)
    requires Accounted(h, held + multiset{StrongTo(x)}) && x in h && h[x].Data?
    requires h[x].ctrl in h && h[h[x].ctrl].Ctrl? && h[h[x].ctrl].strong == 1
    requires var c := h[x].ctrl; g == h[c := h[c].(strong := 0)]
    ensures x in g && g[x] == h[x] && h[x].ctrl != x
    ensures Accounted(g - {x}, held + multiset{WeakTo(h[x].ctrl)} + Edges(h[x].fields))
  {
    hide Accounted;
    ReleaseAccounted(h, held, StrongTo(x));
    assert g - {x} == Release(h, StrongTo(x)).0;
    assert held + BlockEdges(h[x]) == held + multiset{WeakTo(h[x].ctrl)} + Edges(h[x].fields);
  }

  lemma CountsArePositive(h: Store, held: multiset<Edge>, x: Off)
    requires Accounted(h, held) && x in h
    ensures h[x].Rc? ==> h[x].count > 0
    ensures h[x].Data? ==> h[x].ctrl in h && h[h[x].ctrl].Ctrl? && h[h[x].ctrl].strong > 0
  {
    assert BlockOk(h, AllEdges(h) + held, x);
  }

  /** A count of zero on a live block is no state the law allows. */
  lemma ZeroCountUnaccounted(h: Store, x: Off)
    requires x in h
    requires (h[x].Rc? && h[x].count == 0)
             || (h[x].Data? && h[x].ctrl in h && h[h[x].ctrl].Ctrl? && h[h[x].ctrl].strong == 0)
    ensures forall m :: !Accounted(h, m)
  {
    forall m ensures !Accounted(h, m) {
      if Accounted(h, m) { CountsArePositive(h, m, x); }
    }
  }

  lemma StuckKeeps(h: Store, g: Store, x: Off, j: nat, at: seq<Off>, y: Off)
    requires StuckAt(h, g, x, j, at) && y in h
    ensures y in g && g[y] == h[y]
  {
    RehomedKeys(h, BlockFields(h[x])[..j], at);
  }

  lemma MovedKeeps(h: Store, x: Off, at: seq<Off>, y: Off)
    requires x in h && HasFields(h[x]) && |at| == Embeds(BlockFields(h[x])) && Fresh(h, at)
    requires y in h && y != x
    ensures y in MovedOut(h, x, at) && MovedOut(h, x, at)[y] == h[y] && x !in MovedOut(h, x, at)
  {
    RehomedKeys(h, BlockFields(h[x]), at);
  }

  lemma FreshElsewhere(h: Store, g: Store, at: seq<Off>)
    requires Fresh(g, at) && g.Keys == h.Keys
    ensures Fresh(h, at)
  {}

  // ---- Move inverts construction ----

  /** The arguments with every embedded child at its new place. */
  function Relocate(args: seq<Arg>, at: seq<Off>): (r: seq<Arg>)
    requires |at| == Inlines(args)
    ensures |r| == |args|
  {
    if args == [] then [] else
    if args[0].Inlined? then [Inlined(at[0])] + Relocate(args[1..], at[1..]) else [args[0]] + Relocate(args[1..], at)
  }

  function Inlines(args: seq<Arg>): nat {
    if args == [] then 0 else (if args[0].Inlined? then 1 else 0) + Inlines(args[1..])
  }

  /** The store with the block of each embedded child, as it was in `h`, at its new place. */
  function Placed(g: Store, h: Store, args: seq<Arg>, at: seq<Off>): Store
    requires |at| == Inlines(args) && ChildrenPlain(h, args)
    decreases |args|
  {
    if args == [] then g else
    if args[0].Inlined? then Placed(g[at[0] := h[args[0].child]], h, args[1..], at[1..]) else Placed(g, h, args[1..], at)
  }

  lemma {:induction false} BuiltOuts(g: Store, h: Store, args: seq<Arg>, at: seq<Off>)
    requires ChildrenPlain(h, args) && AllPlaced(args) && |at| == Inlines(args)
    ensures Embeds(ArgFields(h, args, true)) == |at|
    ensures Outs(ArgFields(h, args, true), at) == Relocate(args, at)
    ensures Rehomed(g, ArgFields(h, args, true), at) == Placed(g, h, args, at)
    decreases |args|
  {
    if args != [] {
      var fs := ArgFields(h, args, true);
      assert fs[1..] == ArgFields(h, args[1..], true);
      assert Places(args[0]);
      if args[0].Inlined? {
        var c := args[0].child;
        BuiltOuts(g[at[0] := h[c]], h, args[1..], at[1..]);
        assert h[c] == Plain(fs[0].inner);
      } else {
        BuiltOuts(g, h, args[1..], at);
      }
    }
  }

  /** What the last strong owner takes back and leaves behind: the sole count is claimed,
      the block moved out, and for `(rc, weak)` the phantom weak reference released. */
  function Unwrapped(h: Store, x: Off, at: seq<Off>): Store
    requires Movable(h, x) && |at| == Embeds(BlockFields(h[x])) && Fresh(h, at)
  {
    RehomedKeys(Claimed(h, x), BlockFields(h[x]), at);
    var g := MovedOut(Claimed(h, x), x, at);
    if h[x].Data? then WithoutPhantom(g, h[x].ctrl) else g
  }

  /** The last strong owner's move keeps the law. */
  lemma UnwrappedAccounted(h: Store, held: multiset<Edge>, x: Off, at: seq<Off>)
    requires Accounted(h, held + multiset{StrongTo(x)}) && Movable(h, x) && SoleOwner(h, x)
    requires |at| == Embeds(BlockFields(h[x])) && Fresh(h, at)
    ensures Accounted(Unwrapped(h, x, at), held + ArgsEdges(Outs(BlockFields(h[x]), at)))
  {
    hide Accounted, Rehomed, Outs, ArgsEdges, Fresh;
    SharedMovable(h, held, x);
    var k, fs := Claimed(h, x), BlockFields(h[x]);
    FreshElsewhere(k, h, at);
    if h[x].Rc? {
      ReleaseAccounted(h, held, StrongTo(x));
      assert k - {x} == Release(h, StrongTo(x)).0;
      MovedAccounted(k, held, x, at);
    } else {
      var phantom, outs := multiset{WeakTo(h[x].ctrl)}, ArgsEdges(Outs(fs, at));
      LastOwner(h, k, held, x);
      MovedAccounted(k, held + phantom, x, at);
      assert held + phantom + outs == held + outs + phantom;
      ReleaseAccounted(MovedOut(k, x, at), held + outs, WeakTo(h[x].ctrl));
      RehomedKeys(k, fs, at);
      assert held + outs + multiset{} == held + outs;
    }
  }

  /** The sole owner of a shared block took its fields out. */
  ghost predicate TakenOut(h: Store, g: Store, x: Off, at: seq<Off>, args: seq<Arg>) {
    && Movable(h, x) && |at| == Embeds(BlockFields(h[x])) && Fresh(h, at)
    && g == Unwrapped(h, x, at) && args == Outs(BlockFields(h[x]), at)
  }

  /** It was moved, but a handle could not be rebuilt: the phantom is lost with the rest. */
  ghost predicate LostPhantom(h: Store, g: Store, x: Off, at: seq<Off>, k: nat, dropped: multiset<Edge>, lost: multiset<Edge>) {
    && Movable(h, x) && h[x].Data? && |at| == Embeds(BlockFields(h[x])) && Fresh(h, at)
    && g == MovedOut(Claimed(h, x), x, at) && k < |BlockFields(h[x])|
    && exists rest :: lost == rest + multiset{WeakTo(h[x].ctrl)} && Rebuilt(g, Outs(BlockFields(h[x]), at), k, dropped, rest)
  }

  /** A move that lost its phantom still accounts for everything. */
  lemma LostPhantomAccounted(h: Store, held: multiset<Edge>, g: Store, x: Off, at: seq<Off>, k: nat,
                             dropped: multiset<Edge>, lost: multiset<Edge>)
    requires Accounted(h, held + multiset{StrongTo(x)}) && LostPhantom(h, g, x, at, k, dropped, lost) && SoleOwner(h, x)
    ensures Accounted(g, held + (dropped + lost))
  {
    hide Accounted, Rehomed, Outs, ArgsEdges, Fresh;
    var fs, c, p := BlockFields(h[x]), Claimed(h, x), multiset{WeakTo(h[x].ctrl)};
    var rest :| lost == rest + p && Rebuilt(g, Outs(fs, at), k, dropped, rest);
    OutsLength(fs, at);
    FreshElsewhere(c, h, at);
    LastOwner(h, c, held, x);
    MovedAccounted(c, held + p, x, at);
    assert held + p + (dropped + rest) == held + (dropped + lost);
  }

  lemma {:induction false} OutsLength(fs: seq<Field>, at: seq<Off>)
    requires |at| == Embeds(fs)
    ensures |Outs(fs, at)| == |fs|
  {
    if fs != [] {
      OutsLength(fs[1..], if fs[0].Embed? then at[1..] else at);
    }
  }

  lemma BuiltWhole(h: Store, shape: Shape, args: seq<Arg>, x: Off, c: Off)
    requires ChildrenPlain(h, args)
    ensures BuiltUpTo(h, shape, args, |args|, x, c)
            == Around(h, Children(args), x, NewImage(shape, ArgFields(h, args, true), c), shape.RcWeakBlock?, c)
  {
    var none, fs: seq<Field> := [], ArgFields(h, args, true);
    assert args[..|args|] == args && ArgFields(h, args[|args|..], false) == none;
    assert fs + none == fs;
  }

  /** Moving a freshly constructed block out, whatever its kind, returns the values and
      handles put in; its handle is the sole one; embedded children come back with equal
      contents at fresh offsets, and shell and control block are gone. */
  lemma NewThenMove(h: Store, shape: Shape, args: seq<Arg>, x: Off, c: Off, at: seq<Off>)
    requires ChildrenPlain(h, args) && AllPlaced(args) && x !in h && |at| == Inlines(args)
    requires shape.RcWeakBlock? ==> c != x && c !in h
    requires Fresh(BuiltUpTo(h, shape, args, |args|, x, c), at)
    ensures var g := BuiltUpTo(h, shape, args, |args|, x, c);
      && Movable(g, x) && SoleOwner(g, x) && |at| == Embeds(BlockFields(g[x]))
      && Outs(BlockFields(g[x]), at) == Relocate(args, at)
      && Unwrapped(g, x, at) == Placed(h - Children(args), h, args, at)
  {
    hide Rehomed, Outs, Relocate, Placed, ArgFields, Fresh, BuiltUpTo;
    var fs, base := ArgFields(h, args, true), h - Children(args);
    BuiltWhole(h, shape, args, x, c);
    var g := Around(h, Children(args), x, NewImage(shape, fs, c), shape.RcWeakBlock?, c);
    var k := Claimed(g, x);
    FreshElsewhere(k, g, at);
    BuiltOuts(base, h, args, at);
    RehomedWithout(k, fs, at, x);
    FreshWithout(k, at, x);
    if shape.RcWeakBlock? {
      assert k - {x} - {c} == base;
      RehomedKeys(k, fs, at);
      RehomedWithout(k - {x}, fs, at, c);
    } else {
      assert k - {x} == base;
    }
  }

  lemma FreshWithout(h: Store, at: seq<Off>, x: Off)
    requires Fresh(h, at)
    ensures Fresh(h - {x}, at)
  {}

  /** Without embedded children the round trip is the identity on store and handles. */
  lemma NewThenMoveExactly(h: Store, shape: Shape, args: seq<Arg>, x: Off, c: Off)
    requires ChildrenPlain(h, args) && AllPlaced(args) && x !in h && forall a <- args :: a.Stored?
    requires shape.RcWeakBlock? ==> c != x && c !in h
    ensures var g := BuiltUpTo(h, shape, args, |args|, x, c);
      && Movable(g, x) && Embeds(BlockFields(g[x])) == 0
      && Outs(BlockFields(g[x]), []) == args && Unwrapped(g, x, []) == h
  {
    hide BuiltUpTo, Unwrapped;
    NoneInlined(h, args);
    NewThenMove(h, shape, args, x, c, []);
    assert Children(args) == {};
    assert h - {} == h;
  }

  lemma {:induction false} NoneInlined(h: Store, args: seq<Arg>)
    requires ChildrenPlain(h, args) && forall a <- args :: a.Stored?
    ensures Inlines(args) == 0 && Relocate(args, []) == args
    ensures forall g :: Placed(g, h, args, []) == g
    decreases |args|
  {
    if args != [] {
      assert args[0] in args && forall a <- args[1..] :: a in args;
      NoneInlined(h, args[1..]);
    }
  }

  lemma RehomedNothing(h: Store)
    ensures Embeds([]) == 0 && Rehomed(h, [], []) == h && Outs([], []) == []
  {}
}
