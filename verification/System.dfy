/** Whole runs of a program over the heap: every operation keeps the accounting law, and
    once all handles are given back nothing is left unless ownership was cyclic. */
module System {
  import opened Heap
  import opened Cascade
  import opened Tree
  import opened Sharing
  import opened Construct
  import opened MoveOut
  import Replace

  /** An operation of the program, completed or failed in a way that leaves something. */
  datatype Act =
    | Build(shape: Shape, args: seq<Arg>, x: Off, c: Off)
    | BuildVec(elems: seq<Field>, x: Off, cap: nat, rows: bool)
    | Share(from: Edge, e: Edge)                 // clone a handle, downgrade, upgrade
    | Duplicate(n: Node, at: seq<Off>)           // deep clone
    | Drop(e: Edge, sched: seq<Edge>)            // teardown, or a shared handle going out of scope
    | Move(x: Off, at: seq<Off>)                 // of an owned block
    | Unwrap(x: Off, at: seq<Off>)               // of a shared block, by its sole owner
    | Put(x: Off, i: nat, f: Field)              // a field swapped, a weak field set, also inside an embedded child
    | Refill(x: Off, elems: seq<Field>)          // a vector's elements changed within its capacity
    | Grow(x: Off, y: Off, cap: nat)             // a vector moved to a larger data block
    | Exchange(x: Off, base: nat, kind: Replace.Kind, olds: seq<Off>, news: seq<Off>)
    | Lose(es: multiset<Edge>)                   // a hand-back or rebuild that failed
    | BreakBuild(shape: Shape, args: seq<Arg>, k: nat, x: Off, c: Off, lost: multiset<Edge>)  // a post-write copy failed
    | LosePhantom(x: Off, at: seq<Off>, k: nat, dropped: multiset<Edge>, lost: multiset<Edge>) // an unwrap's hand-back failed
    | Strand(x: Off, j: nat, at: seq<Off>)       // a move that failed after re-homing empty children

  /** A world: the store, the handles the program holds, and those nobody can use again. */
  datatype World = World(h: Store, held: multiset<Edge>, leaked: multiset<Edge>)

  ghost predicate Lawful(w: World) { Accounted(w.h, w.held + w.leaked) }

  /** Which edge a handle gives rise to: itself, its weak side, or its strong side while
      the data lives. */
  ghost predicate Shares(h: Store, from: Edge, e: Edge) {
    && Countable(h, e)
    && (|| e == from
        || (from.StrongTo? && from.off in h && h[from.off].Data? && e == WeakTo(h[from.off].ctrl))
        || (from.WeakTo? && from.off in h && h[from.off].Ctrl? && h[from.off].strong > 0 && e == StrongTo(h[from.off].data)))
  }

  /** The world after `give` was handed over for `take`. */
  ghost predicate Trades(w: World, h: Store, give: multiset<Edge>, take: multiset<Edge>, w': World) {
    give <= w.held && w' == World(h, w.held - give + take, w.leaked)
  }

  ghost predicate Builds(w: World, shape: Shape, args: seq<Arg>, x: Off, c: Off, w': World) {
    && AllPlaced(args) && ChildrenPlain(w.h, args)
    && x != 0 && x !in w.h && (shape.RcWeakBlock? ==> c != 0 && c != x && c !in w.h)
    && Trades(w, BuiltUpTo(w.h, shape, args, |args|, x, c), ArgsEdges(args), multiset{NewHandle(shape, x)}, w')
  }

  ghost predicate BuildsVec(w: World, elems: seq<Field>, x: Off, cap: nat, rows: bool, w': World) {
    x != 0 && x !in w.h && Trades(w, w.h[x := VecData(cap, rows, elems)], Edges(elems), multiset{VecTo(x)}, w')
  }

  ghost predicate SharesHandle(w: World, from: Edge, e: Edge, w': World) {
    && from in w.held && Shares(w.h, from, e)
    && Trades(w, Bumped(w.h, multiset{CounterOf(w.h, e)}), multiset{}, multiset{e}, w')
  }

  ghost predicate Duplicates(w: World, n: Node, at: seq<Off>, w': World) {
    && Handle(n) in w.held && SlotIn(w.h, Child(n)) && WellFormedSlot(Child(n))
    && |at| == Count(n.slots) + 1 && Fresh(w.h, at) && (forall e <- Shared(n.slots) :: Countable(w.h, e))
    && Trades(w, Cloned(w.h, n, at), multiset{}, multiset{Handle(MoveNode(n, at))}, w')
  }

  ghost predicate Drops(w: World, e: Edge, sched: seq<Edge>, w': World) {
    Runs(w.h, multiset{e}, sched, w'.h, multiset{}) && Trades(w, w'.h, multiset{e}, multiset{}, w')
  }

  ghost predicate Moves(w: World, x: Off, at: seq<Off>, w': World) {
    && x in w.h && w.h[x].Plain? && |at| == Embeds(BlockFields(w.h[x])) && Fresh(w.h, at)
    && Trades(w, MovedOut(w.h, x, at), multiset{OwnTo(x)}, ArgsEdges(Outs(BlockFields(w.h[x]), at)), w')
  }

  ghost predicate Unwraps(w: World, x: Off, at: seq<Off>, w': World) {
    && Movable(w.h, x) && SoleOwner(w.h, x) && |at| == Embeds(BlockFields(w.h[x])) && Fresh(w.h, at)
    && Trades(w, Unwrapped(w.h, x, at), multiset{StrongTo(x)}, ArgsEdges(Outs(BlockFields(w.h[x]), at)), w')
  }

  ghost predicate Puts(w: World, x: Off, i: nat, f: Field, w': World) {
    && x in w.h && HasField(w.h[x], i)
    && (exists give, take :: FieldEdges(f) + take == FieldEdges(w.h[x].fields[i]) + give
                             && Trades(w, w.h[x := WithField(w.h[x], i, f)], give, take, w'))
  }

  ghost predicate Refills(w: World, x: Off, elems: seq<Field>, w': World) {
    && x in w.h && w.h[x].VecData?
    && (exists give, take :: Edges(elems) + take == Edges(w.h[x].elems) + give
                             && Trades(w, w.h[x := w.h[x].(elems := elems)], give, take, w'))
  }

  ghost predicate Grows(w: World, x: Off, y: Off, cap: nat, w': World) {
    && x in w.h && w.h[x].VecData? && y != 0 && y !in w.h
    && Trades(w, (w.h - {x})[y := w.h[x].(cap := cap)], multiset{VecTo(x)}, multiset{VecTo(y)}, w')
  }

  ghost predicate Exchanges(w: World, x: Off, base: nat, kind: Replace.Kind, olds: seq<Off>, news: seq<Off>, w': World) {
    && Replace.Region(w.h, x, base, kind, olds) && |news| == |olds|
    && Trades(w, w.h[x := Replace.WithRegion(w.h[x], base, kind, news)],
              Replace.CellEdges(kind, news), Replace.CellEdges(kind, olds), w')
  }

  ghost predicate Loses(w: World, es: multiset<Edge>, w': World) {
    es <= w.held && w' == World(w.h, w.held - es, w.leaked + es)
  }

  ghost predicate BreaksBuild(w: World, shape: Shape, args: seq<Arg>, k: nat, x: Off, c: Off, lost: multiset<Edge>, w': World) {
    && AllPlaced(args) && ArgsEdges(args) <= w.held && CopyBroke(w.h, w'.h, shape, args, k, x, c, lost)
    && w'.held == w.held - ArgsEdges(args) && w'.leaked == w.leaked + lost
  }

  ghost predicate LosesPhantom(w: World, x: Off, at: seq<Off>, k: nat, dropped: multiset<Edge>, lost: multiset<Edge>, w': World) {
    && StrongTo(x) in w.held && LostPhantom(w.h, w'.h, x, at, k, dropped, lost) && SoleOwner(w.h, x)
    && w'.held == w.held - multiset{StrongTo(x)} + dropped && w'.leaked == w.leaked + lost
  }

  ghost predicate Strands(w: World, x: Off, j: nat, at: seq<Off>, w': World) {
    && StuckAt(w.h, w'.h, x, j, at) && CopiedEdges(BlockFields(w.h[x])[..j]) == multiset{}
    && w'.held == w.held && w'.leaked == w.leaked + Owners(at)
  }

  ghost predicate Next(w: World, a: Act, w': World) {
    match a
    case Build(shape, args, x, c) => Builds(w, shape, args, x, c, w')
    case BuildVec(elems, x, cap, rows) => BuildsVec(w, elems, x, cap, rows, w')
    case Share(from, e) => SharesHandle(w, from, e, w')
    case Duplicate(n, at) => Duplicates(w, n, at, w')
    case Drop(e, sched) => Drops(w, e, sched, w')
    case Move(x, at) => Moves(w, x, at, w')
    case Unwrap(x, at) => Unwraps(w, x, at, w')
    case Put(x, i, f) => Puts(w, x, i, f, w')
    case Refill(x, elems) => Refills(w, x, elems, w')
    case Grow(x, y, cap) => Grows(w, x, y, cap, w')
    case Exchange(x, base, kind, olds, news) => Exchanges(w, x, base, kind, olds, news, w')
    case Lose(es) => Loses(w, es, w')
    case BreakBuild(shape, args, k, x, c, lost) => BreaksBuild(w, shape, args, k, x, c, lost, w')
    case LosePhantom(x, at, k, dropped, lost) => LosesPhantom(w, x, at, k, dropped, lost, w')
    case Strand(x, j, at) => Strands(w, x, j, at, w')
  }

  /** A trade leaves the rest of the handles, usable or not, alone. */
  lemma TradeRest(w: World, h: Store, give: multiset<Edge>, take: multiset<Edge>, w': World) returns (rest: multiset<Edge>)
    requires Trades(w, h, give, take, w')
    ensures w.held + w.leaked == rest + give && w'.held + w'.leaked == rest + take && w'.h == h
  {
    rest := w.held - give + w.leaked;
  }

  /** Building a block or a vector, and moving one out. */
  lemma BlockKeeps(w: World, a: Act, w': World)
    requires a.Build? || a.BuildVec? || a.Move? || a.Unwrap?
    requires Lawful(w) && Next(w, a, w')
    ensures Lawful(w')
  {
    hide Accounted;
    match a
    case Build(shape, args, x, c) =>
      hide BuiltUpTo;
      var rest := TradeRest(w, BuiltUpTo(w.h, shape, args, |args|, x, c), ArgsEdges(args),
                            multiset{NewHandle(shape, x)}, w');
      BuiltAccounted(w.h, rest, shape, args, |args|, x, c);
      assert args[|args|..] == [];
      assert rest + InlinedEdges(args[|args|..]) == rest;
    case BuildVec(elems, x, cap, rows) =>
      hide Edges;
      var b := VecData(cap, rows, elems);
      var rest := TradeRest(w, w.h[x := b], Edges(elems), multiset{VecTo(x)}, w');
      AllocAccounted(w.h, rest, x, b);
    case Move(x, at) =>
      hide Outs, ArgsEdges, Fresh, MovedOut;
      var outs := ArgsEdges(Outs(BlockFields(w.h[x]), at));
      var rest := TradeRest(w, MovedOut(w.h, x, at), multiset{OwnTo(x)}, outs, w');
      ReleaseAccounted(w.h, rest, OwnTo(x));
      MovedAccounted(w.h, rest, x, at);
    case Unwrap(x, at) =>
      hide Outs, ArgsEdges, Fresh, Unwrapped, SoleOwner;
      var outs := ArgsEdges(Outs(BlockFields(w.h[x]), at));
      var rest := TradeRest(w, Unwrapped(w.h, x, at), multiset{StrongTo(x)}, outs, w');
      UnwrappedAccounted(w.h, rest, x, at);
  }

  /** Making and giving back handles. */
  lemma HandleKeeps(w: World, a: Act, w': World)
    requires a.Share? || a.Duplicate? || a.Drop?
    requires Lawful(w) && Next(w, a, w')
    ensures Lawful(w')
  {
    hide Accounted;
    match a
    case Share(from, e) =>
      var rest := TradeRest(w, Bumped(w.h, multiset{CounterOf(w.h, e)}), multiset{}, multiset{e}, w');
      assert rest + multiset{} == rest;
      BumpedAccounted(w.h, rest, [e]);
      assert Counters(w.h, [e]) == [CounterOf(w.h, e)];
    case Duplicate(n, at) =>
      hide Cloned, MoveNode;
      var rest := TradeRest(w, Cloned(w.h, n, at), multiset{}, multiset{Handle(MoveNode(n, at))}, w');
      assert rest + multiset{} == rest;
      CloneCorrect(w.h, rest, n, at);
    case Drop(e, sched) =>
      hide Runs;
      var rest := TradeRest(w, w'.h, multiset{e}, multiset{}, w');
      RunsAccounted(w.h, rest, multiset{e}, sched, w'.h, multiset{});
  }

  /** Swapping a field. */
  lemma FieldKeeps(w: World, a: Act, w': World)
    requires a.Put? && Lawful(w) && Next(w, a, w')
    ensures Lawful(w')
  {
    hide Accounted, FieldEdges, Edges;
    var Put(x, i, f) := a;
    var b, g := w.h[x], w.h[x := WithField(w.h[x], i, f)];
    var give, take :| FieldEdges(f) + take == FieldEdges(b.fields[i]) + give && Trades(w, g, give, take, w');
    var rest := TradeRest(w, g, give, take, w');
    EdgesUpdate(b.fields, i, f);
    PutTotals(Edges(b.fields), Edges(b.fields[i := f]), FieldEdges(b.fields[i]), FieldEdges(f), give, take);
    RewriteFieldsAccounted(w.h, rest, x, WithField(b, i, f), give, take);
  }

  lemma PutTotals(before: multiset<Edge>, after: multiset<Edge>, mine: multiset<Edge>, theirs: multiset<Edge>,
                  give: multiset<Edge>, take: multiset<Edge>)
    requires after + mine == before + theirs && theirs + take == mine + give
    ensures after + take == before + give
  {
    assert after + take + mine == (after + mine) + take == before + (theirs + take);
    assert before + (mine + give) == before + give + mine;
    CancelRight(after + take, before + give, mine);
  }

  lemma CancelRight(a: multiset<Edge>, b: multiset<Edge>, c: multiset<Edge>)
    requires a + c == b + c
    ensures a == b
  {
    forall e ensures a[e] == b[e] { assert (a + c)[e] == (b + c)[e]; }
  }

  /** Moving a vector to a larger block. */
  lemma GrowKeeps(w: World, x: Off, y: Off, cap: nat, w': World)
    requires Lawful(w) && Grows(w, x, y, cap, w')
    ensures Lawful(w')
  {
    hide Accounted, Edges;
    var b := w.h[x].(cap := cap);
    var rest := TradeRest(w, (w.h - {x})[y := b], multiset{VecTo(x)}, multiset{VecTo(y)}, w');
    ReleaseAccounted(w.h, rest, VecTo(x));
    AllocAccounted(w.h - {x}, rest, y, b);
  }

  /** Refilling a vector. */
  lemma RefillKeeps(w: World, x: Off, elems: seq<Field>, w': World)
    requires Lawful(w) && Refills(w, x, elems, w')
    ensures Lawful(w')
  {
    hide Accounted, Edges;
    var b := w.h[x].(elems := elems);
    var give, take :| Edges(elems) + take == Edges(w.h[x].elems) + give && Trades(w, w.h[x := b], give, take, w');
    var rest := TradeRest(w, w.h[x := b], give, take, w');
    RewriteAccounted(w.h, rest, x, b, give, take);
  }

  /** Exchanging a run of slots. */
  lemma ExchangeKeeps(w: World, x: Off, base: nat, kind: Replace.Kind, olds: seq<Off>, news: seq<Off>, w': World)
    requires Lawful(w) && Exchanges(w, x, base, kind, olds, news, w')
    ensures Lawful(w')
  {
    hide Accounted, Edges, FieldEdges, Replace.CellEdges, Replace.Region, Replace.WithRegion;
    Replace.RegionHasFields(w.h, x, base, kind, olds);
    var give, take := Replace.CellEdges(kind, news), Replace.CellEdges(kind, olds);
    var rest := TradeRest(w, w.h[x := Replace.WithRegion(w.h[x], base, kind, news)], give, take, w');
    Replace.ExchangeAccounted(w.h, rest, x, base, kind, olds, news);
  }

  /** Losing handles, and a move that leaves empty copies behind. */
  lemma FailureKeeps(w: World, a: Act, w': World)
    requires a.Lose? || a.Strand?
    requires Lawful(w) && Next(w, a, w')
    ensures Lawful(w')
  {
    hide Accounted;
    match a
    case Lose(es) =>
      assert w'.held + w'.leaked == w.held + w.leaked;
    case Strand(x, j, at) =>
      hide CopiedEdges, Rehomed, Edges, FieldEdges;
      EmptyCopiesAccounted(w.h, w.held + w.leaked, BlockFields(w.h[x])[..j], at);
      assert w'.held + w'.leaked == w.held + w.leaked + Owners(at);
  }

  /** A constructor that stops at a post-write copy. */
  lemma BreakBuildKeeps(w: World, shape: Shape, args: seq<Arg>, k: nat, x: Off, c: Off, lost: multiset<Edge>, w': World)
    requires Lawful(w) && BreaksBuild(w, shape, args, k, x, c, lost, w')
    ensures Lawful(w')
  {
    hide Accounted, BuiltUpTo, ArgsEdges, InlinedEdges, ChildrenPlain;
    var rest := w.held - ArgsEdges(args) + w.leaked;
    assert w.held + w.leaked == rest + ArgsEdges(args);
    BuiltAccounted(w.h, rest, shape, args, k, x, c);
    assert w'.held + w'.leaked == rest + InlinedEdges(args[k..]) + multiset{NewHandle(shape, x)};
  }

  /** A move that loses its phantom. */
  lemma LosePhantomKeeps(w: World, x: Off, at: seq<Off>, k: nat, dropped: multiset<Edge>, lost: multiset<Edge>, w': World)
    requires Lawful(w) && LosesPhantom(w, x, at, k, dropped, lost, w')
    ensures Lawful(w')
  {
    hide Accounted, LostPhantom, SoleOwner;
    var rest := w.held - multiset{StrongTo(x)} + w.leaked;
    assert w.held + w.leaked == rest + multiset{StrongTo(x)};
    assert w'.held + w'.leaked == rest + (dropped + lost);
    LostPhantomAccounted(w.h, rest, w'.h, x, at, k, dropped, lost);
  }

  lemma NextKeeps(w: World, a: Act, w': World)
    requires Lawful(w) && Next(w, a, w')
    ensures Lawful(w')
  {
    hide Lawful, Builds, BuildsVec, SharesHandle, Duplicates, Drops, Moves, Unwraps, Puts, Refills, Grows, Exchanges, Loses;
    hide BreaksBuild, LosesPhantom, Strands;
    if a.Build? || a.BuildVec? || a.Move? || a.Unwrap? {
      BlockKeeps(w, a, w');
    } else if a.Share? || a.Duplicate? || a.Drop? {
      HandleKeeps(w, a, w');
    } else if a.Put? {
      FieldKeeps(w, a, w');
    } else if a.Lose? || a.Strand? {
      FailureKeeps(w, a, w');
    } else {
      match a
      case Refill(x, elems) => RefillKeeps(w, x, elems, w');
      case Exchange(x, base, kind, olds, news) => ExchangeKeeps(w, x, base, kind, olds, news, w');
      case Grow(x, y, cap) => GrowKeeps(w, x, y, cap, w');
      case BreakBuild(shape, args, k, x, c, lost) => BreakBuildKeeps(w, shape, args, k, x, c, lost, w');
      case LosePhantom(x, at, k, dropped, lost) => LosePhantomKeeps(w, x, at, k, dropped, lost, w');
    }
  }

  /** A run from an empty file. */
  ghost predicate IsRun(ws: seq<World>, acts: seq<Act>) {
    && |ws| == |acts| + 1 && ws[0] == World(map[], multiset{}, multiset{})
    && forall i :: 0 <= i < |acts| ==> Next(ws[i], acts[i], ws[i + 1])
  }

  /** In every reachable world every block has exactly the holders its image claims,
      nothing dangles, and data and control blocks point at each other. */
  lemma {:induction false} RunKeeps(ws: seq<World>, acts: seq<Act>, i: nat)
    requires IsRun(ws, acts) && i < |ws|
    ensures Lawful(ws[i])
  {
    hide Lawful, Next;
    if i == 0 {
      EmptyLawful(ws[0]);
    } else {
      var j := i - 1;
      RunKeeps(ws, acts, j);
      assert Next(ws[j], acts[j], ws[j + 1]);
      NextKeeps(ws[j], acts[j], ws[i]);
    }
  }

  lemma EmptyLawful(w: World)
    requires w == World(map[], multiset{}, multiset{})
    ensures Lawful(w)
  {
    assert AllEdges(w.h) == multiset{};
    assert w.held + w.leaked == multiset{};
  }

  /** So in every reachable world every handle the program holds can be released. */
  lemma RunsCanRelease(ws: seq<World>, acts: seq<Act>, i: nat, e: Edge)
    requires IsRun(ws, acts) && i < |ws| && e in ws[i].held
    ensures CanRelease(ws[i].h, e)
  {
    hide IsRun;
    RunKeeps(ws, acts, i);
    HeldCanRelease(ws[i].h, ws[i].held + ws[i].leaked, e);
  }

  /** What the calls of a program are steps of: handing over arguments for a block, a
      vector's elements for a vector, or an unwanted handle for its teardown; duplicating a
      tree; taking a block's fields out. */
  lemma CallsAreSteps(w: World, shape: Shape, args: seq<Arg>, elems: seq<Field>, x: Off, c: Off, cap: nat, rows: bool)
    requires NewPlace(w.h, shape, x, c)
    ensures AllPlaced(args) && ChildrenPlain(w.h, args) && ArgsEdges(args) <= w.held ==>
      Next(w, Build(shape, args, x, c), World(BuiltUpTo(w.h, shape, args, |args|, x, c),
        w.held - ArgsEdges(args) + multiset{NewHandle(shape, x)}, w.leaked))
    ensures Edges(elems) <= w.held ==>
      Next(w, BuildVec(elems, x, cap, rows), World(w.h[x := VecData(cap, rows, elems)],
        w.held - Edges(elems) + multiset{VecTo(x)}, w.leaked))
  {
    hide BuiltUpTo, ArgsEdges, Edges, ChildrenPlain, AllPlaced;
  }

  lemma HandleCallsAreSteps(w: World, e: Edge, sched: seq<Edge>, h: Store)
    ensures e in w.held && Runs(w.h, multiset{e}, sched, h, multiset{}) ==>
      Next(w, Drop(e, sched), World(h, w.held - multiset{e}, w.leaked))
    ensures e in w.held && Countable(w.h, e) ==>
      Next(w, Share(e, e), World(Bumped(w.h, multiset{CounterOf(w.h, e)}), w.held + multiset{e}, w.leaked))
  {
    hide Runs, Bumped;
    assert w.held - multiset{} == w.held;
  }

  lemma CloneCallsAreSteps(w: World, n: Node, at: seq<Off>)
    requires Lawful(w)
    ensures Handle(n) in w.held && SlotIn(w.h, Child(n)) && WellFormedSlot(Child(n))
            && |at| == Count(n.slots) + 1 && Fresh(w.h, at) ==>
      && (forall f <- Shared(n.slots) :: Countable(w.h, f))
      && Next(w, Duplicate(n, at), World(Cloned(w.h, n, at), w.held + multiset{Handle(MoveNode(n, at))}, w.leaked))
  {
    hide Cloned, MoveNode, Fresh, WellFormedSlot, Accounted, SlotIn, Count;
    assert w.held - multiset{} == w.held;
    if SlotIn(w.h, Child(n)) { TreeCountable(w.h, w.held + w.leaked, n); }
  }

  lemma MoveCallsAreSteps(w: World, x: Off, at: seq<Off>)
    requires x in w.h && HasFields(w.h[x]) && |at| == Embeds(BlockFields(w.h[x])) && Fresh(w.h, at)
    ensures w.h[x].Plain? && OwnTo(x) in w.held ==>
      Next(w, Move(x, at), World(MovedOut(w.h, x, at),
        w.held - multiset{OwnTo(x)} + ArgsEdges(Outs(BlockFields(w.h[x]), at)), w.leaked))
    ensures Movable(w.h, x) && SoleOwner(w.h, x) && StrongTo(x) in w.held ==>
      Next(w, Unwrap(x, at), World(Unwrapped(w.h, x, at),
        w.held - multiset{StrongTo(x)} + ArgsEdges(Outs(BlockFields(w.h[x]), at)), w.leaked))
  {
    hide MovedOut, Unwrapped, Outs, ArgsEdges, Fresh, Embeds, Movable, SoleOwner;
  }

  lemma FieldCallsAreSteps(w: World, x: Off, i: nat, f: Field, base: nat, kind: Replace.Kind, olds: seq<Off>, news: seq<Off>)
    ensures x in w.h && HasField(w.h[x], i) && FieldEdges(f) <= w.held ==>
      Next(w, Put(x, i, f), World(w.h[x := WithField(w.h[x], i, f)],
        w.held - FieldEdges(f) + FieldEdges(w.h[x].fields[i]), w.leaked))
    ensures Replace.Region(w.h, x, base, kind, olds) && |news| == |olds| && Replace.CellEdges(kind, news) <= w.held ==>
      Next(w, Exchange(x, base, kind, olds, news), World(w.h[x := Replace.WithRegion(w.h[x], base, kind, news)],
        w.held - Replace.CellEdges(kind, news) + Replace.CellEdges(kind, olds), w.leaked))
  {
    hide FieldEdges, Replace.CellEdges, Replace.WithRegion;
    if x in w.h && HasField(w.h[x], i) && FieldEdges(f) <= w.held {
      var take := FieldEdges(w.h[x].fields[i]);
      var w' := World(w.h[x := WithField(w.h[x], i, f)], w.held - FieldEdges(f) + take, w.leaked);
      assert FieldEdges(f) + take == take + FieldEdges(f);
      assert Trades(w, w'.h, FieldEdges(f), take, w');
    }
  }

  lemma VectorCallsAreSteps(w: World, x: Off, y: Off, cap: nat, elems: seq<Field>)
    requires x in w.h && w.h[x].VecData?
    ensures VecTo(x) in w.held && y != 0 && y !in w.h ==>
      Next(w, Grow(x, y, cap), World((w.h - {x})[y := w.h[x].(cap := cap)],
        w.held - multiset{VecTo(x)} + multiset{VecTo(y)}, w.leaked))
    ensures Edges(elems) <= w.held ==>
      Next(w, Refill(x, elems), World(w.h[x := w.h[x].(elems := elems)],
        w.held - Edges(elems) + Edges(w.h[x].elems), w.leaked))
  {
    hide Edges;
    var give, take := Edges(elems), Edges(w.h[x].elems);
    var w' := World(w.h[x := w.h[x].(elems := elems)], w.held - give + take, w.leaked);
    assert give + take == take + give;
    if give <= w.held { assert Trades(w, w'.h, give, take, w'); }
  }

  /** A whole run: a shared block is built, its handle cloned, and both handles dropped. */
  lemma SharedLife(none: World, one: World, two: World, e: Edge, f: Field)
    requires none == World(map[], multiset{}, multiset{}) && e == StrongTo(1) && f == Pod([7])
    requires one == World(map[1 := Rc(1, [f])], multiset{e}, multiset{})
    requires two == World(map[1 := Rc(2, [f])], multiset{e, e}, multiset{})
    ensures IsRun([none, one, two, one, none], [Build(RcBlock, [Stored(f)], 1, 0), Share(e, e), Drop(e, [e]), Drop(e, [e])])
  {
    hide Next;
    var fs := [f];
    LifeBuilt(none, one, fs);
    LifeShared(one, two, fs);
    LifeDropped(two, one, fs);
    LifeDropped(one, none, fs);
    hide *;
    FourSteps([none, one, two, one, none], [Build(RcBlock, [Stored(f)], 1, 0), Share(e, e), Drop(e, [e]), Drop(e, [e])]);
  }

  lemma FourSteps(ws: seq<World>, acts: seq<Act>)
    requires |acts| == 4 && |ws| == 5 && ws[0] == World(map[], multiset{}, multiset{})
    requires Next(ws[0], acts[0], ws[1]) && Next(ws[1], acts[1], ws[2])
    requires Next(ws[2], acts[2], ws[3]) && Next(ws[3], acts[3], ws[4])
    ensures IsRun(ws, acts)
  {
    hide Next;
  }

  lemma LifeBuilt(none: World, one: World, fs: seq<Field>)
    requires fs == [Pod([7])] && none == World(map[], multiset{}, multiset{})
    requires one == World(map[1 := Rc(1, fs)], multiset{StrongTo(1)}, multiset{})
    ensures Next(none, Build(RcBlock, [Stored(fs[0])], 1, 0), one)
  {
    var args := [Stored(fs[0])];
    BuiltWhole(none.h, RcBlock, args, 1, 0);
    assert ArgFields(none.h, args, true) == fs;
    assert Children(args) == {} && none.h - {} == none.h;
    OneHandle(args[0], Any);
    assert ArgsEdges(args) == multiset{};
    hide BuiltUpTo, ArgFields, ArgsEdges;
    CallsAreSteps(none, RcBlock, args, [], 1, 0, 0, false);
    assert none.held - multiset{} + multiset{StrongTo(1)} == one.held;
  }

  lemma LifeShared(one: World, two: World, fs: seq<Field>)
    requires fs == [Pod([7])] && one == World(map[1 := Rc(1, fs)], multiset{StrongTo(1)}, multiset{})
    requires two == World(map[1 := Rc(2, fs)], multiset{StrongTo(1), StrongTo(1)}, multiset{})
    ensures Next(one, Share(StrongTo(1), StrongTo(1)), two)
  {
    assert Bumped(one.h, multiset{CountAt(1)}) == two.h;
  }

  lemma LifeDropped(w: World, w': World, fs: seq<Field>)
    requires fs == [Pod([7])] && 1 in w.h && w.h.Keys == {1} && w.h[1].Rc? && w.h[1].fields == fs && w.leaked == w'.leaked
    requires if w.h[1].count == 2 then w'.h == map[1 := Rc(1, fs)] else w.h[1].count == 1 && w'.h == map[]
    requires StrongTo(1) in w.held && w'.held == w.held - multiset{StrongTo(1)}
    ensures Next(w, Drop(StrongTo(1), [StrongTo(1)]), w')
  {
    var e := StrongTo(1);
    assert Edges(fs) == multiset{} by { assert fs[1..] == []; }
    assert w.h - {1} == map[];
    assert w.h[1 := Rc(1, fs)] == map[1 := Rc(1, fs)];
    assert Release(w.h, e) == (w'.h, multiset{});
    assert [e][1..] == [];
    assert multiset{e} - multiset{e} + multiset{} == multiset{};
    assert w.held - multiset{e} + multiset{} == w'.held;
  }

  // ---- What can be left over ----

  /** `rank` bounds how deeply owned and strong edges nest below each block. */
  ghost predicate Ranked(h: Store, rank: Off -> nat) {
    forall x <- h, e <- BlockEdges(h[x]) :: !e.WeakTo? ==> rank(e.off) < rank(x)
  }

  /** In a store nobody holds, every block but a control block is held by another block. */
  lemma HeldByBlock(h: Store, x: Off) returns (y: Off, e: Edge)
    requires Accounted(h, multiset{}) && x in h
    ensures y in h && e in BlockEdges(h[y]) && e.off == x && (e.WeakTo? <==> h[x].Ctrl?)
  {
    assert BlockOk(h, AllEdges(h) + multiset{}, x);
    e := match h[x] case Plain(_) => OwnTo(x) case VecData(_, _, _) => VecTo(x) case Ctrl(_, _, _) => WeakTo(x) case _ => StrongTo(x);
    assert e in AllEdges(h);
    y := EdgeHolder(h, e);
  }

  lemma {:induction false} EdgeHolder(h: Store, e: Edge) returns (y: Off)
    requires e in AllEdges(h)
    ensures y in h && e in BlockEdges(h[y])
    decreases |h|
  {
    var z :| z in h && AllEdges(h) == BlockEdges(h[z]) + AllEdges(h - {z});
    if e in BlockEdges(h[z]) { y := z; } else { y := EdgeHolder(h - {z}, e); }
  }

  /** Some block has the highest rank. */
  lemma {:induction false} HighestRank(s: set<Off>, rank: Off -> nat) returns (x: Off)
    requires s != {}
    ensures x in s && forall y <- s :: rank(y) <= rank(x)
    decreases |s|
  {
    var z :| z in s;
    if s == {z} { return z; }
    x := HighestRank(s - {z}, rank);
    if rank(z) > rank(x) { x := z; }
  }

  /** With every handle given back, nothing is left exactly when owned and strong edges are
      acyclic: only cycles leak. */
  lemma OnlyCyclesLeak(h: Store)
    requires Accounted(h, multiset{})
    ensures h == map[] <==> exists rank: Off -> nat :: Ranked(h, rank)
  {
    if h == map[] {
      assert Ranked(h, _ => 0);
    } else if rank: Off -> nat :| Ranked(h, rank) {
      var owners := set x | x in h && !h[x].Ctrl?;
      var x0 :| x0 in h;
      var y0, e0 := HeldByBlock(h, x0);
      assert y0 in owners;
      var top := HighestRank(owners, rank);
      var y := HigherHolder(h, rank, owners, top);
    }
  }

  lemma HigherHolder(h: Store, rank: Off -> nat, owners: set<Off>, x: Off) returns (y: Off)
    requires Accounted(h, multiset{}) && Ranked(h, rank) && owners == (set z | z in h && !h[z].Ctrl?) && x in owners
    ensures y in owners && rank(x) < rank(y)
  {
    var e;
    y, e := HeldByBlock(h, x);
  }

  /** And a cycle of strong references does leak: nobody holds it, and the law is content. */
  lemma StrongCycleLeaks(p: Off, q: Off)
    requires p != 0 && q != 0 && p != q
    ensures Accounted(map[p := Rc(1, [Strong(q)]), q := Rc(1, [Strong(p)])], multiset{})
  {
    hide Balanced, Edges, FieldEdges;
    var a, b := Rc(1, [Strong(q)]), Rc(1, [Strong(p)]);
    var none: Store := map[];
    var one := none[p := a];
    var h := one[q := b];
    AllEdgesInsert(none, p, a);
    AllEdgesInsert(one, q, b);
    OneStrong(q);
    OneStrong(p);
    var all := multiset{StrongTo(p), StrongTo(q)};
    assert AllEdges(h) + multiset{} == all;
    assert h == map[p := a, q := b];
    CycleBalanced(h, all, p, q);
  }

  lemma CycleBalanced(h: Store, all: multiset<Edge>, p: Off, q: Off)
    requires p != 0 && q != 0 && p != q && all == multiset{StrongTo(p), StrongTo(q)}
    requires h == map[p := Rc(1, [Strong(q)]), q := Rc(1, [Strong(p)])]
    ensures Balanced(h, all)
  {
    hide Edges, FieldEdges;
  }

  lemma OneStrong(o: Off)
    requires o != 0
    ensures Edges([Strong(o)]) == multiset{StrongTo(o)}
  {
    var fs := [Strong(o)];
    assert fs[1..] == [];
  }
}
