/** The generated teardown code: recursive drops over the fields of a block, the
    thread-local sink that defers the frees of a logged teardown, the depth guard, and
    the batched commit of the collected frees. */
module Teardowns {
  import opened Heap
  import opened Cascade
  import opened Laws
  import opened Walks
  import Depths
  import Tree

  datatype Sink = NoSink | Collecting(ranges: seq<Off>)

  datatype State = State(blocks: Store, sink: Sink, depth: nat)

  /** The state after the steps `ts`. */
  function Perform(s: State, ts: seq<Step>): State {
    State(Replay(s.blocks, ts, s.sink.Collecting?),
          if s.sink.Collecting? then Collecting(s.sink.ranges + Frees(ts)) else NoSink, s.depth)
  }

  /** A drop with the walk `w`, bounded: it fails at the first step that is too deep, and
      otherwise what it leaves to the law is on disk. */
  ghost predicate Bounded(s: State, t: State, w: Walk, ok: bool) {
    && (ok <==> Fits(w.steps)) && t == Perform(s, Done(w.steps)) && (ok ==> PartOf(w.rest, t.blocks))
  }

  lemma PerformNothing(s: State)
    ensures Perform(s, []) == s
  {
    if s.sink.Collecting? { assert s.sink.ranges + [] == s.sink.ranges; }
  }

  lemma PerformThen(s: State, ts: seq<Step>, us: seq<Step>)
    ensures Perform(s, ts + us) == Perform(Perform(s, ts), us)
  {
    hide Replay, Frees;
    ReplayConcat(s.blocks, ts, us, s.sink.Collecting?);
    PaysConcat(ts, us);
    if s.sink.Collecting? { assert s.sink.ranges + Frees(ts) + Frees(us) == s.sink.ranges + (Frees(ts) + Frees(us)); }
  }

  lemma BoundedKeeps(s: State, t: State, w: Walk, ok: bool)
    requires Bounded(s, t, w, ok)
    ensures ok ==> PartOf(w.rest, t.blocks)
    ensures t.depth == s.depth
  {}

  lemma BoundedOutcome(s: State, t: State, w: Walk, ok: bool)
    requires Bounded(s, t, w, ok) && (s.sink == NoSink || s.sink == Collecting([]))
    ensures ok <==> Fits(w.steps)
    ensures t.depth == s.depth && t.blocks == Replay(s.blocks, Done(w.steps), s.sink.Collecting?)
    ensures ok ==> Done(w.steps) == w.steps && (s.sink.Collecting? ==> t.sink == Collecting(Frees(w.steps)))
    ensures s.sink.NoSink? ==> t.sink.NoSink?
  {
    hide Replay;
    DoneWhenFits(w.steps);
    assert [] + Frees(w.steps) == Frees(w.steps);
  }

  lemma PartOfItself(h: Store)
    ensures PartOf(h, h)
  {}

  lemma BoundedNothing(s: State, h: Store)
    requires PartOf(h, s.blocks)
    ensures Bounded(s, s, Walk([], h), true)
  {
    PerformNothing(s);
  }

  /** One bounded drop after another. */
  lemma BoundedThen(s: State, t: State, u: State, a: Walk, b: Walk, ok: bool)
    requires Bounded(s, t, a, true) && Bounded(t, u, b, ok)
    ensures Bounded(s, u, Walk(a.steps + b.steps, b.rest), ok)
  {
    hide Perform, Fits, Done;
    DoneConcat(a.steps, b.steps);
    DoneWhenFits(a.steps);
    PerformThen(s, a.steps, Done(b.steps));
  }

  /** What follows a drop that failed is not reached. */
  lemma BoundedFailed(s: State, t: State, a: Walk, steps: seq<Step>, rest: Store)
    requires Bounded(s, t, a, false)
    ensures Bounded(s, t, Walk(a.steps + steps, rest), false)
  {
    hide Perform, Fits, Done;
    DoneConcat(a.steps, steps);
  }

  /** One step that is let through. */
  lemma BoundedStep(s: State, t: State, st: Step, h: Store, g: Store)
    requires !TooDeep(st) && t == Perform(s, [st]) && PartOf(h, s.blocks)
    requires if st.Pay? then CanRelease(h, st.edge) && g == Release(h, st.edge).0 else st.off !in h && g == h
    ensures Bounded(s, t, Walk([st], g), true)
  {
    hide Release, CanRelease, PartOf, Replay;
    var ts := [st];
    assert ts[1..] == [] && Done([]) == [];
    assert Fits(ts) && Done(ts) == ts;
    ReplayOne(s.blocks, st, s.sink.Collecting?);
    EffectPart(h, s.blocks, st, s.sink.Collecting?);
  }

  lemma PerformOne(s: State, st: Step)
    ensures Perform(s, [st]) == State(Effect(s.blocks, st, s.sink.Collecting?),
                                      if s.sink.Collecting? then Collecting(s.sink.ranges + FreeOf(st)) else NoSink, s.depth)
  {
    hide Effect;
    var ts := [st];
    ReplayOne(s.blocks, st, s.sink.Collecting?);
    assert ts[1..] == [] && Frees(ts[1..]) == [];
    assert Frees(ts) == FreeOf(st);
  }

  lemma ReplayOne(b: Store, st: Step, logged: bool)
    ensures Replay(b, [st], logged) == Effect(b, st, logged)
  {
    var ts := [st];
    assert ts[1..] == [];
  }

  /** A step that is refused. */
  lemma BoundedRefused(s: State, st: Step, more: seq<Step>, rest: Store)
    requires TooDeep(st)
    ensures Bounded(s, s, Walk([st] + more, rest), false)
  {
    var ts := [st] + more;
    assert ts[0] == st && st in ts;
    PerformNothing(s);
  }

  /** The guard of a level only shifts the depth. */
  lemma BoundedDepth(s: State, t: State, w: Walk, ok: bool, d: nat)
    requires Bounded(s, t, w, ok)
    ensures Bounded(s.(depth := d), t.(depth := d), w, ok) && t.depth == s.depth
  {}

  lemma HeldLive(live: Store, blocks: Store, held: multiset<Edge>, e: Edge)
    requires Accounted(live, held + multiset{e}) && PartOf(live, blocks)
    ensures CanRelease(live, e) && e.off in blocks && blocks[e.off] == live[e.off]
    ensures e.StrongTo? && blocks[e.off].Data? ==>
      var c := blocks[e.off].ctrl; c in live && c in blocks && blocks[c] == live[c]
  {
    HeldCanRelease(live, held + multiset{e}, e);
  }

  /** What is accounted for once a block has begun to be released. */
  lemma Owes(live: Store, held: multiset<Edge>, e: Edge)
    requires Accounted(live, held + multiset{e}) && CanRelease(live, e)
    ensures var g := Release(live, e).0;
      && |g| <= |live| && (e.off !in g ==> |g| < |live| && Accounted(g, held + BlockEdges(live[e.off])))
  {
    ReleaseAccounted(live, held, e);
    ReleasedOwes(live, e);
    ReleaseShrinks(live, e);
  }

  lemma PaidOwner(s: State, e: Edge, level: nat)
    requires !Counted(e)
    ensures Perform(s, [Pay(e, level)]) == s
  {
    PerformOne(s, Pay(e, level));
    if s.sink.Collecting? { assert s.sink.ranges + [] == s.sink.ranges; }
  }

  lemma PaidCount(s: State, t: State, e: Edge, level: nat)
    requires Counted(e) && CanRelease(s.blocks, e) && t == s.(blocks := Lowered(s.blocks, e))
    ensures Perform(s, [Pay(e, level)]) == t
  {
    hide Lowered;
    PerformOne(s, Pay(e, level));
    if s.sink.Collecting? { assert s.sink.ranges + [] == s.sink.ranges; }
  }

  /** The walk of an edge, from the walk of the block it releases. */
  lemma WalkLast(h: Store, e: Edge, level: nat, direct: bool)
    requires CanRelease(h, e) && e.off !in Release(h, e).0 && !e.WeakTo?
    ensures var g, inner := Release(h, e).0, Inner(e, level, direct);
      var w := WalkFields(g, Content(h[e.off]), inner, e.VecTo? && !h[e.off].rows);
      var block := [Pay(e, inner)] + (w.steps + [Free(e.off)]);
      if !h[e.off].Data? then WalkEdge(h, e, level, direct) == Walk(block, w.rest) else
      var p := WalkEdge(w.rest, WeakTo(h[e.off].ctrl), inner, false);
      WalkEdge(h, e, level, direct) == Walk([Pay(e, inner)] + (w.steps + [Free(e.off)] + p.steps), p.rest)
  {
    hide WalkFields, Release;
    var g, inner := Release(h, e).0, Inner(e, level, direct);
    var w := WalkFields(g, Content(h[e.off]), inner, e.VecTo? && !h[e.off].rows);
    ConcatAssociates([Pay(e, inner)], w.steps, [Free(e.off)]);
    if h[e.off].Data? {
      var p := WalkEdge(w.rest, WeakTo(h[e.off].ctrl), inner, false);
      ConcatAssociates([Pay(e, inner)], w.steps + [Free(e.off)], p.steps);
    }
  }

  lemma WalkShared(h: Store, e: Edge, level: nat, direct: bool)
    requires CanRelease(h, e) && e.off in Release(h, e).0
    ensures WalkEdge(h, e, level, direct) == Walk([Pay(e, Inner(e, level, direct))], Release(h, e).0)
  {}

  lemma WalkTooDeep(h: Store, e: Edge, level: nat, direct: bool) returns (more: seq<Step>)
    requires CanRelease(h, e)
    ensures WalkEdge(h, e, level, direct).steps == [Pay(e, Inner(e, level, direct))] + more
  {
    var ts := WalkEdge(h, e, level, direct).steps;
    assert ts[0] == Pay(e, Inner(e, level, direct));
    more := ts[1..];
    assert ts == [ts[0]] + more;
  }

  lemma WalkWeak(h: Store, c: Off, level: nat, direct: bool)
    requires CanRelease(h, WeakTo(c))
    ensures var e := WeakTo(c);
      var g := Release(h, e).0;
      WalkEdge(h, e, level, direct) == Walk([Pay(e, level)] + if c in g then [] else [Free(c)], g)
  {
    assert WalkFields(Release(h, WeakTo(c)).0, Content(h[c]), level, false) == Walk([], Release(h, WeakTo(c)).0);
    assert [Pay(WeakTo(c), level)] + [] == [Pay(WeakTo(c), level)];
  }

  /** An edge whose block was released and dropped. */
  lemma BlockDropped(s: State, s1: State, t: State, live: Store, e: Edge, level: nat, direct: bool, ok: bool)
    requires CanRelease(live, e) && e.off !in Release(live, e).0 && !e.WeakTo? && !live[e.off].Data?
    requires Bounded(s, s1, Walk([Pay(e, Inner(e, level, direct))], Release(live, e).0), true)
    requires var w := WalkFields(Release(live, e).0, Content(live[e.off]), Inner(e, level, direct), e.VecTo? && !live[e.off].rows);
      Bounded(s1, t, Walk(w.steps + [Free(e.off)], w.rest), ok)
    ensures Bounded(s, t, WalkEdge(live, e, level, direct), ok)
  {
    hide Bounded, Release, WalkFields, WalkEdge;
    var g, inner := Release(live, e).0, Inner(e, level, direct);
    var w := WalkFields(g, Content(live[e.off]), inner, e.VecTo? && !live[e.off].rows);
    WalkLast(live, e, level, direct);
    BoundedThen(s, s1, t, Walk([Pay(e, inner)], g), Walk(w.steps + [Free(e.off)], w.rest), ok);
  }

  /** The same for a data block, with its phantom. */
  lemma PairDropped(s: State, s1: State, t: State, live: Store, e: Edge, level: nat, direct: bool, ok: bool)
    requires CanRelease(live, e) && e.off !in Release(live, e).0 && !e.WeakTo? && live[e.off].Data?
    requires Bounded(s, s1, Walk([Pay(e, Inner(e, level, direct))], Release(live, e).0), true)
    requires var w := WalkFields(Release(live, e).0, Content(live[e.off]), Inner(e, level, direct), false);
      var p := WalkEdge(w.rest, WeakTo(live[e.off].ctrl), Inner(e, level, direct), false);
      Bounded(s1, t, Walk(w.steps + [Free(e.off)] + p.steps, p.rest), ok)
    ensures Bounded(s, t, WalkEdge(live, e, level, direct), ok)
  {
    hide Bounded, Release, WalkFields, WalkEdge;
    var g, inner := Release(live, e).0, Inner(e, level, direct);
    var w := WalkFields(g, Content(live[e.off]), inner, false);
    var p := WalkEdge(w.rest, WeakTo(live[e.off].ctrl), inner, false);
    WalkLast(live, e, level, direct);
    BoundedThen(s, s1, t, Walk([Pay(e, inner)], g), Walk(w.steps + [Free(e.off)] + p.steps, p.rest), ok);
  }

  class Disk {
    var blocks: Store        // what is physically on disk
    var sink: Sink           // TEARDOWN_SINK
    var depth: nat           // TEARDOWN_DEPTH

    constructor (initial: Store)
      ensures Now() == State(initial, NoSink, 0)
    {
      blocks, sink, depth := initial, NoSink, 0;
    }

    function Now(): State
      reads this
    {
      State(blocks, sink, depth)
    }

    /** Free one range: into the sink of a logged teardown, or at once. */
    method DeallocRange(x: Off)
      modifies this`blocks, this`sink
      ensures Now() == Perform(old(Now()), [Free(x)])
    {
      PerformOne(Now(), Free(x));
      match sink {
        case Collecting(r) => sink := Collecting(r + [x]);
        case NoSink => blocks := blocks - {x};
      }
    }

    /** The generated teardown statements of one block, field by field; `live` is what the
        law still sees of the disk. */
    method DropFields(fields: seq<Field>, direct: bool, ghost live: Store, ghost held: multiset<Edge>)
      returns (ok: bool)
      requires depth <= MAX_TEARDOWN_DEPTH
      requires PartOf(live, blocks) && Accounted(live, held + Edges(fields))
      modifies this
      ensures Bounded(old(Now()), Now(), WalkFields(live, fields, old(depth), direct), ok)
      decreases |live|, fields, 1
    {
      hide Accounted, PartOf, Bounded, WalkField, FieldEdges;
      ghost var s, d := Now(), depth;
      if fields == [] {
        BoundedNothing(s, live);
        return true;
      }
      var f, rest := fields[0], fields[1..];
      assert held + Edges(fields) == (held + Edges(rest)) + FieldEdges(f);
      ghost var first := WalkField(live, f, d, direct);
      ghost var more := WalkFields(first.rest, rest, d, direct);
      ok := DropField(f, direct, live, held + Edges(rest));
      ghost var t := Now();
      BoundedKeeps(s, t, first, ok);
      if !ok {
        BoundedFailed(s, t, first, more.steps, more.rest);
        return;
      }
      FieldRuns(live, held + Edges(rest), f, d, direct);
      ok := DropFields(rest, direct, first.rest, held);
      BoundedThen(s, t, Now(), first, more, ok);
    }

    method DropField(f: Field, direct: bool, ghost live: Store, ghost held: multiset<Edge>)
      returns (ok: bool)
      requires depth <= MAX_TEARDOWN_DEPTH
      requires PartOf(live, blocks) && Accounted(live, held + FieldEdges(f))
      modifies this
      ensures Bounded(old(Now()), Now(), WalkField(live, f, old(depth), direct), ok)
      decreases |live|, f, 2
    {
      hide Accounted, PartOf, Bounded, WalkFields, WalkEdge;
      BoundedNothing(Now(), live);
      match f {
        case Embed(inner) => ok := DropFields(inner, false, live, held);
        case Own(x) =>
          if x == 0 { return true; }
          ok := DropOwned(x, direct, live, held);
        case VecOf(x) =>
          if x == 0 { return true; }
          ok := DropVec(x, direct, live, held);
        case Strong(x) =>
          if x == 0 { return true; }
          ok := DropStrong(x, direct, live, held);
        case Weak(c) =>
          if c == 0 { return true; }
          ReleaseWeakRef(c, direct, live, held);
          ok := true;
        case Pod(_) => return true;
        case Ref(_) => return true;
      }
    }

    /** `drop_block`: recurse into the content of a block whose release has begun, then
        free it. */
    method DropBlock(x: Off, fields: seq<Field>, direct: bool, ghost live: Store, ghost held: multiset<Edge>)
      returns (ok: bool)
      requires depth <= MAX_TEARDOWN_DEPTH && x !in live
      requires PartOf(live, blocks) && Accounted(live, held + Edges(fields))
      modifies this
      ensures var w := WalkFields(live, fields, old(depth), direct);
        Bounded(old(Now()), Now(), Walk(w.steps + [Free(x)], w.rest), ok)
      decreases |live|, fields, 2
    {
      hide Accounted, PartOf, Bounded, WalkFields, Perform;
      ghost var s, w := Now(), WalkFields(live, fields, depth, direct);
      ok := DropFields(fields, direct, live, held);
      ghost var t := Now();
      if !ok {
        BoundedFailed(s, t, w, [Free(x)], w.rest);
        return;
      }
      DeallocRange(x);
      FieldsLead(live, fields, s.depth, direct);
      LeadsSub(live, w.steps, w.rest);
      BoundedKeeps(s, t, w, ok);
      BoundedStep(t, Now(), Free(x), w.rest, w.rest);
      BoundedThen(s, t, Now(), w, Walk([Free(x)], w.rest), true);
    }

    /** `OwnedRef`: one guarded level, then the whole block.  A plain vector drops its
        elements without the guard. */
    method DropOwned(x: Off, direct: bool, ghost live: Store, ghost held: multiset<Edge>)
      returns (ok: bool)
      requires depth <= MAX_TEARDOWN_DEPTH
      requires PartOf(live, blocks) && Accounted(live, held + multiset{OwnTo(x)})
      modifies this
      ensures Bounded(old(Now()), Now(), WalkEdge(live, OwnTo(x), old(depth), direct), ok)
      decreases |live|, Own(x), 0
    {
      hide Accounted, PartOf, Bounded, WalkFields, WalkEdge, Perform;
      ghost var s, e := Now(), OwnTo(x);
      HeldLive(live, blocks, held, e);
      if !direct {
        if depth + 1 > MAX_TEARDOWN_DEPTH {
          ghost var more := WalkTooDeep(live, e, depth, direct);
          BoundedRefused(s, Pay(e, depth + 1), more, WalkEdge(live, e, depth, direct).rest);
          return false;
        }
        depth := depth + 1;
      }
      Owes(live, held, e);
      ghost var g, s1 := Release(live, e).0, Now();
      PaidOwner(s1, e, depth);
      BoundedStep(s1, s1, Pay(e, depth), live, g);
      BoundedKeeps(s1, s1, Walk([Pay(e, depth)], g), true);
      assert Content(live[x]) == blocks[x].fields;
      ok := DropBlock(x, blocks[x].fields, false, g, held);
      BlockDropped(s1, s1, Now(), live, e, s.depth, direct, ok);
      BoundedDepth(s1, Now(), WalkEdge(live, e, s.depth, direct), ok, s.depth);
      if !direct { depth := depth - 1; }
    }

    /** A vector's storage: its elements, then the data block; no guarded level of its own,
        and none for the elements of a plain vector. */
    method DropVec(x: Off, direct: bool, ghost live: Store, ghost held: multiset<Edge>)
      returns (ok: bool)
      requires depth <= MAX_TEARDOWN_DEPTH
      requires PartOf(live, blocks) && Accounted(live, held + multiset{VecTo(x)})
      modifies this
      ensures Bounded(old(Now()), Now(), WalkEdge(live, VecTo(x), old(depth), direct), ok)
      decreases |live|, VecOf(x), 0
    {
      hide Accounted, PartOf, Bounded, WalkFields, WalkEdge, Perform;
      ghost var s, e := Now(), VecTo(x);
      HeldLive(live, blocks, held, e);
      Owes(live, held, e);
      ghost var g := Release(live, e).0;
      PaidOwner(s, e, depth);
      BoundedStep(s, s, Pay(e, depth), live, g);
      BoundedKeeps(s, s, Walk([Pay(e, depth)], g), true);
      assert Content(live[x]) == blocks[x].elems;
      ok := DropBlock(x, blocks[x].elems, !blocks[x].rows, g, held);
      BlockDropped(s, s, Now(), live, e, s.depth, direct, ok);
    }

    /** A strong reference: `StrongRef` for an inline count, the two-phase release for an
        `(rc, weak)` block. */
    method DropStrong(x: Off, ghost direct: bool, ghost live: Store, ghost held: multiset<Edge>)
      returns (ok: bool)
      requires depth <= MAX_TEARDOWN_DEPTH
      requires PartOf(live, blocks) && Accounted(live, held + multiset{StrongTo(x)})
      modifies this
      ensures Bounded(old(Now()), Now(), WalkEdge(live, StrongTo(x), old(depth), direct), ok)
      decreases |live|, Strong(x), 1
    {
      hide Accounted, PartOf, Bounded, WalkFields, WalkEdge, Perform;
      ghost var s, e := Now(), StrongTo(x);
      HeldLive(live, blocks, held, e);
      if depth + 1 > MAX_TEARDOWN_DEPTH {
        ghost var more := WalkTooDeep(live, e, depth, direct);
        BoundedRefused(s, Pay(e, depth + 1), more, WalkEdge(live, e, depth, direct).rest);
        return false;
      }
      depth := depth + 1;
      ghost var s1 := Now();
      if blocks[x].Rc? {
        ok := DropRc(x, s.depth, direct, live, held);
      } else {
        ok := DropData(x, s.depth, direct, live, held);
      }
      BoundedDepth(s1, Now(), WalkEdge(live, e, s.depth, direct), ok, s.depth);
      depth := depth - 1;
    }

    method DropRc(x: Off, ghost level: nat, ghost direct: bool, ghost live: Store, ghost held: multiset<Edge>)
      returns (ok: bool)
      requires depth == level + 1 <= MAX_TEARDOWN_DEPTH && x in live && live[x].Rc?
      requires PartOf(live, blocks) && Accounted(live, held + multiset{StrongTo(x)})
      modifies this
      ensures Bounded(old(Now()), Now(), WalkEdge(live, StrongTo(x), level, direct), ok)
      decreases |live|, Strong(x), 0
    {
      hide Accounted, PartOf, Bounded, WalkFields, WalkEdge, Perform;
      ghost var s, e := Now(), StrongTo(x);
      HeldLive(live, blocks, held, e);
      Owes(live, held, e);
      ghost var g := Release(live, e).0;
      var Rc(prev, fields) := blocks[x];
      blocks := blocks[x := Rc(prev - 1, fields)];  // fetch_sub
      ghost var s1 := Now();
      PaidCount(s, s1, e, depth);
      BoundedStep(s, s1, Pay(e, depth), live, g);
      BoundedKeeps(s, s1, Walk([Pay(e, depth)], g), true);
      if prev == 1 {
        assert BlockEdges(live[x]) == Edges(fields);
        ok := DropBlock(x, fields, false, g, held);
        BlockDropped(s, s1, Now(), live, e, level, direct, ok);
      } else {
        WalkShared(live, e, level, direct);
        ok := true;
      }
    }

    method DropData(x: Off, ghost level: nat, ghost direct: bool, ghost live: Store, ghost held: multiset<Edge>)
      returns (ok: bool)
      requires depth == level + 1 <= MAX_TEARDOWN_DEPTH && x in live && live[x].Data?
      requires PartOf(live, blocks) && Accounted(live, held + multiset{StrongTo(x)})
      modifies this
      ensures Bounded(old(Now()), Now(), WalkEdge(live, StrongTo(x), level, direct), ok)
      decreases |live|, Strong(x), 0
    {
      hide Accounted, PartOf, Bounded, WalkFields, WalkEdge, Perform;
      ghost var s, e := Now(), StrongTo(x);
      HeldLive(live, blocks, held, e);
      Owes(live, held, e);
      ghost var g := Release(live, e).0;
      var Data(c, fields) := blocks[x];
      var prev := blocks[c].strong;
      blocks := blocks[c := blocks[c].(strong := prev - 1)];  // fetch_sub
      ghost var s1 := Now();
      PaidCount(s, s1, e, depth);
      BoundedStep(s, s1, Pay(e, depth), live, g);
      BoundedKeeps(s, s1, Walk([Pay(e, depth)], g), true);
      if prev == 1 {
        ok := DropDataBlock(x, fields, c, g, held);
        PairDropped(s, s1, Now(), live, e, level, direct, ok);
      } else {
        WalkShared(live, e, level, direct);
        ok := true;
      }
    }

    /** The last strong owner: the data block, then the phantom weak reference. */
    method DropDataBlock(x: Off, fields: seq<Field>, c: Off, ghost live: Store, ghost held: multiset<Edge>)
      returns (ok: bool)
      requires depth <= MAX_TEARDOWN_DEPTH && x !in live
      requires PartOf(live, blocks) && Accounted(live, held + (Edges(fields) + multiset{WeakTo(c)}))
      modifies this
      ensures var w := WalkFields(live, fields, old(depth), false);
        var p := WalkEdge(w.rest, WeakTo(c), old(depth), false);
        Bounded(old(Now()), Now(), Walk(w.steps + [Free(x)] + p.steps, p.rest), ok)
      decreases |live|, fields, 3
    {
      hide Accounted, PartOf, Bounded, WalkFields, WalkEdge, Perform, Edges;
      ghost var s, phantom := Now(), multiset{WeakTo(c)};
      ghost var w := WalkFields(live, fields, depth, false);
      ghost var p := WalkEdge(w.rest, WeakTo(c), depth, false);
      assert held + (Edges(fields) + phantom) == held + phantom + Edges(fields);
      ok := DropBlock(x, fields, false, live, held + phantom);
      ghost var t, block := Now(), Walk(w.steps + [Free(x)], w.rest);
      BoundedKeeps(s, t, block, ok);
      if !ok {
        BoundedFailed(s, t, block, p.steps, p.rest);
        return;
      }
      FieldsRun(live, held + phantom, fields, depth, false);
      ReleaseWeakRef(c, false, w.rest, held);
      BoundedThen(s, t, Now(), block, p, true);
    }

    /** Pay one weak debt on a control block, freeing it at the last one. */
    method ReleaseWeakRef(c: Off, ghost direct: bool, ghost live: Store, ghost held: multiset<Edge>)
      requires depth <= MAX_TEARDOWN_DEPTH
      requires PartOf(live, blocks) && Accounted(live, held + multiset{WeakTo(c)})
      modifies this
      ensures Bounded(old(Now()), Now(), WalkEdge(live, WeakTo(c), old(depth), direct), true)
    {
      hide Accounted, PartOf, Bounded, WalkFields, WalkEdge, Perform;
      ghost var s, e := Now(), WeakTo(c);
      HeldLive(live, blocks, held, e);
      ghost var g := Release(live, e).0;
      var prev := blocks[c].weak;
      blocks := blocks[c := blocks[c].(weak := prev - 1)];  // fetch_sub
      ghost var s1, paid := Now(), Walk([Pay(e, depth)], g);
      PaidCount(s, s1, e, depth);
      BoundedStep(s, s1, Pay(e, depth), live, g);
      BoundedKeeps(s, s1, paid, true);
      WalkWeak(live, c, depth, direct);
      if prev == 1 {
        DeallocRange(c);
        BoundedStep(s1, Now(), Free(c), g, g);
        BoundedThen(s, s1, Now(), paid, Walk([Free(c)], g), true);
      } else {
        assert paid.steps + [] == paid.steps;
      }
    }

    /** Free every collected range; each one is still allocated and is freed once. */
    method CommitFrees(ranges: seq<Off>)
      requires Distinct(ranges) && Range(ranges) <= blocks.Keys
      modifies this`blocks
      ensures blocks == old(blocks) - Range(ranges)
    {
      var i := 0;
      while i < |ranges|
        invariant 0 <= i <= |ranges|
        invariant blocks == old(blocks) - Range(ranges[..i])
      {
        assert ranges[i] in Range(ranges) && ranges[i] !in Range(ranges[..i]);
        assert ranges[..i + 1] == ranges[..i] + [ranges[i]];
        assert Range(ranges[..i + 1]) == Range(ranges[..i]) + {ranges[i]};
        blocks := blocks - {ranges[i]};
        i := i + 1;
      }
      assert ranges[..|ranges|] == ranges;
    }

    /** Drop a shared handle the program holds: no log covers it, and a strong one is itself
        a guarded level. */
    method DropHandle(e: Edge, ghost held: multiset<Edge>) returns (ok: bool)
      requires sink == NoSink && depth == 0 && Counted(e)
      requires Accounted(blocks, held + multiset{e})
      modifies this
      ensures sink == NoSink && depth == 0
      ensures var w := HandleDrop(old(blocks), e);
        && (ok <==> Fits(w.steps))
        && (ok ==> blocks == w.rest && Runs(old(blocks), multiset{e}, Pays(w.steps), blocks, multiset{}))
        && (!ok ==> blocks == Replay(old(blocks), Done(w.steps), false))
      ensures ok ==> Accounted(blocks, held)
    {
      hide Accounted, PartOf, Bounded, WalkFields, WalkEdge, Runs, Distinct, Range, Replay, Fits, Done;
      ghost var h, w, s := blocks, HandleDrop(blocks, e), Now();
      assert PartOf(h, blocks) by { PartOfItself(h); }
      match e {
        case StrongTo(x) => ok := DropStrong(x, false, h, held);
        case WeakTo(c) =>
          ReleaseWeakRef(c, false, h, held);
          ok := true;
      }
      BoundedOutcome(s, Now(), w, ok);
      EdgeRuns(h, held, e, 0, false);
      if ok {
        EdgeLeads(h, e, 0, false);
        EdgeFrees(h, e, 0, false);
        ReplayAll(h, w, false);
      }
    }

    /** Tear down an owned handle.  With a log anchor every free is collected and committed
        as one batch after the walk; without one the frees happen along the way.  The walk
        succeeds exactly when none of its steps is too deep, and then leaves what the law
        sees; a walk that fails leaves the steps before the refused one done, and under an
        anchor its frees discarded. */
    method BstackDrop(x: Off, anchored: bool, ghost held: multiset<Edge>) returns (ok: bool)
      requires sink == NoSink && depth == 0
      requires Accounted(blocks, held + multiset{OwnTo(x)})
      modifies this
      ensures sink == NoSink && depth == 0
      ensures var w := Teardown(old(blocks), x);
        && (ok <==> Fits(w.steps))
        && (ok ==> blocks == w.rest && Runs(old(blocks), multiset{OwnTo(x)}, Pays(w.steps), blocks, multiset{}))
        && (!ok ==> blocks == Replay(old(blocks), Done(w.steps), anchored))
      ensures ok ==> Accounted(blocks, held)
      ensures forall n: Tree.Node | Depths.PlainTree(old(blocks), x, n) :: ok <==> Depths.Depth(n.slots, false) <= 500
    {
      hide Accounted, PartOf, Bounded, WalkFields, WalkEdge, Runs, Distinct, Range, Replay, Fits, Done, Depths.PlainTree;
      ghost var h, e, w := blocks, OwnTo(x), Teardown(blocks, x);
      forall n: Tree.Node | Depths.PlainTree(h, x, n) ensures Fits(w.steps) <==> Depths.Depth(n.slots, false) <= 500 {
        Depths.PlainTreeFits(h, held, x, n);
      }
      if anchored { sink := Collecting([]); }
      ghost var s := Now();
      assert PartOf(h, blocks) by { PartOfItself(h); }
      ok := DropOwned(x, true, h, held);
      BoundedOutcome(s, Now(), w, ok);
      EdgeRuns(h, held, e, 0, true);
      if ok {
        EdgeLeads(h, e, 0, true);
        EdgeFrees(h, e, 0, true);
        ReplayAll(h, w, anchored);
        if anchored { CommitFrees(sink.ranges); }
      }
      sink := NoSink;
    }
  }
}
