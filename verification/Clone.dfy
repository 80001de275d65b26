/** The deep-clone plan: one descent over the source, run eagerly (`Direct`) or twice
    (`Measure`, then `Build` over a pool allocated in one go), followed by one atomic
    commit of every counter bump and every staged image. */
module Clone {
  import opened Heap
  import opened Tree
  import opened Ownership
  import opened Sharing

  datatype Mode = Direct | Measure | Build

  /** An allocated range. */
  datatype Extent = Extent(start: Off, len: nat)

  datatype Plan = Plan(
    blocks: Store,             // the file being cloned in
    mode: Mode,
    pool: seq<Extent>,    // eagerly allocated blocks, or the pool of the build pass
    sizes: seq<nat>,           // what the measure pass asked for
    cursor: nat,               // next unused range of the pool
    fakeNext: nat,             // next placeholder offset of the measure pass
    writes: seq<(Off, Block)>,
    bumps: seq<Counter>)

  // ---- What a descent over a tree must ask for, write and bump ----

  /** The block sizes a clone of the tree requests, in post-order. */
  function SlotSizes(s: Slot): (r: seq<nat>)
    ensures |r| == SlotCount(s)
    decreases s, 1
  {
    match s
    case Leaf(_) => []
    case Child(n) => Sizes(n.slots) + [16 + Width(Fields(n.slots))]
    case Inline(ss) => Sizes(ss)
  }

  function Sizes(ss: seq<Slot>): (r: seq<nat>)
    ensures |r| == Count(ss)
    decreases ss, 0
  {
    if ss == [] then [] else SlotSizes(ss[0]) + Sizes(ss[1..])
  }

  /** The images of a tree at its offsets, in post-order. */
  function SlotWrites(s: Slot): seq<(Off, Block)>
    decreases s, 1
  {
    match s
    case Leaf(_) => []
    case Child(n) => Writes(n.slots) + [(n.off, Image(n))]
    case Inline(ss) => Writes(ss)
  }

  function Writes(ss: seq<Slot>): seq<(Off, Block)>
    decreases ss, 0
  {
    if ss == [] then [] else SlotWrites(ss[0]) + Writes(ss[1..])
  }

  function Starts(rs: seq<Extent>): (r: seq<Off>)
    ensures |r| == |rs|
    ensures forall i :: 0 <= i < |rs| ==> r[i] == rs[i].start
  {
    if rs == [] then [] else [rs[0].start] + Starts(rs[1..])
  }

  function Lens(rs: seq<Extent>): (r: seq<nat>)
    ensures |r| == |rs|
    ensures forall i :: 0 <= i < |rs| ==> r[i] == rs[i].len
  {
    if rs == [] then [] else [rs[0].len] + Lens(rs[1..])
  }

  /** The store with freshly allocated, unwritten blocks. */
  function WithRaw(h: Store, rs: seq<Extent>): Store
    decreases |rs|
  {
    if rs == [] then h else WithRaw(h[rs[0].start := Raw(rs[0].len)], rs[1..])
  }

  function ApplyWrites(h: Store, ws: seq<(Off, Block)>): Store
    decreases |ws|
  {
    if ws == [] then h else ApplyWrites(h[ws[0].0 := ws[0].1], ws[1..])
  }

  /** The pool answers the first `|sizes|` requests exactly. */
  predicate Fits(pool: seq<Extent>, sizes: seq<nat>) {
    |sizes| <= |pool| && forall i :: 0 <= i < |sizes| ==> pool[i].len == sizes[i]
  }

  // ---- Facts about these functions ----

  lemma {:induction false} ApplyConcat(h: Store, a: seq<(Off, Block)>, b: seq<(Off, Block)>)
    ensures ApplyWrites(h, a + b) == ApplyWrites(ApplyWrites(h, a), b)
    decreases |a|
  {
    if a == [] {
      assert a + b == b;
    } else {
      ApplyConcat(h[a[0].0 := a[0].1], a[1..], b);
      assert (a + b)[1..] == a[1..] + b;
    }
  }

  lemma {:induction false} WithRawConcat(h: Store, a: seq<Extent>, b: seq<Extent>)
    ensures WithRaw(h, a + b) == WithRaw(WithRaw(h, a), b)
    decreases |a|
  {
    if a == [] {
      assert a + b == b;
    } else {
      WithRawConcat(h[a[0].start := Raw(a[0].len)], a[1..], b);
      assert (a + b)[1..] == a[1..] + b;
    }
  }

  /** Flushing the staged images of a tree puts the tree in the store. */
  lemma {:induction false} WritesGraft(h: Store, ss: seq<Slot>)
    ensures ApplyWrites(h, Writes(ss)) == Graft(h, ss)
    decreases ss, 0
  {
    if ss != [] {
      ApplyConcat(h, SlotWrites(ss[0]), Writes(ss[1..]));
      SlotWritesGraft(h, ss[0]);
      WritesGraft(GraftSlot(h, ss[0]), ss[1..]);
    }
  }

  lemma {:induction false} SlotWritesGraft(h: Store, s: Slot)
    ensures ApplyWrites(h, SlotWrites(s)) == GraftSlot(h, s)
    decreases s, 1
  {
    match s
    case Leaf(_) =>
    case Inline(ss) => WritesGraft(h, ss);
    case Child(n) =>
      ApplyConcat(h, Writes(n.slots), [(n.off, Image(n))]);
      WritesGraft(h, n.slots);
      var g := Graft(h, n.slots);
      assert [(n.off, Image(n))][1..] == [];
      assert ApplyWrites(g, [(n.off, Image(n))]) == ApplyWrites(g[n.off := Image(n)], []);
  }

  /** Each staged write goes to its own block and has that block's size. */
  ghost predicate Sized(ws: seq<(Off, Block)>, at: seq<Off>, sizes: seq<nat>) {
    |ws| == |at| == |sizes| && forall i :: 0 <= i < |ws| ==> ws[i].0 == at[i] && BlockSize(ws[i].1) == sizes[i]
  }

  lemma SizedConcat(w1: seq<(Off, Block)>, a1: seq<Off>, s1: seq<nat>, w2: seq<(Off, Block)>, a2: seq<Off>, s2: seq<nat>)
    requires Sized(w1, a1, s1) && Sized(w2, a2, s2)
    ensures Sized(w1 + w2, a1 + a2, s1 + s2)
  {}

  /** Every staged image has exactly the size that was requested for its block, so no
      write leaves its block. */
  lemma {:induction false} WritesFit(ss: seq<Slot>, at: seq<Off>)
    requires |at| == Count(ss)
    ensures Sized(Writes(Move(ss, at)), at, Sizes(ss))
    decreases ss, 0
  {
    hide Sized;
    if ss == [] {
      assert Sized(Writes(Move(ss, at)), at, Sizes(ss)) by { NothingSized(); }
    } else {
      var k := SlotCount(ss[0]);
      SlotWritesFit(ss[0], at[..k]);
      WritesFit(ss[1..], at[k..]);
      var x, y := MoveSlot(ss[0], at[..k]), Move(ss[1..], at[k..]);
      assert Move(ss, at) == [x] + y && ([x] + y)[1..] == y;
      assert at == at[..k] + at[k..];
      SizedConcat(SlotWrites(x), at[..k], SlotSizes(ss[0]), Writes(y), at[k..], Sizes(ss[1..]));
    }
  }

  lemma NothingSized()
    ensures Sized([], [], [])
  {}

  lemma {:induction false} SlotWritesFit(s: Slot, at: seq<Off>)
    requires |at| == SlotCount(s)
    ensures Sized(SlotWrites(MoveSlot(s, at)), at, SlotSizes(s))
    decreases s, 1
  {
    hide Sized;
    match s
    case Leaf(_) => NothingSized();
    case Inline(ss) => WritesFit(ss, at);
    case Child(n) =>
      var m := |at| - 1;
      WritesFit(n.slots, at[..m]);
      RootFits(n, at);
      assert at == at[..m] + [at[m]];
      var node := MoveNode(n, at);
      SizedConcat(Writes(node.slots), at[..m], Sizes(n.slots), [(at[m], Image(node))], [at[m]], [16 + Width(Fields(n.slots))]);
  }

  lemma RootFits(n: Node, at: seq<Off>)
    requires |at| == Count(n.slots) + 1
    ensures Sized([(at[|at| - 1], Image(MoveNode(n, at)))], [at[|at| - 1]], [16 + Width(Fields(n.slots))])
  {
    MoveSame(n.slots, at[..|at| - 1]);
  }

  /** Two stores that agree outside `gap`. */
  ghost predicate AgreeOutside(h: Store, g: Store, gap: set<Off>) {
    forall x | x !in gap :: (x in h <==> x in g) && (x in h ==> h[x] == g[x])
  }

  lemma {:induction false} GraftCloses(h: Store, g: Store, gap: set<Off>, ss: seq<Slot>)
    requires AgreeOutside(h, g, gap)
    ensures AgreeOutside(Graft(h, ss), Graft(g, ss), gap - Range(Offs(ss)))
    decreases ss, 0
  {
    if ss != [] {
      GraftSlotCloses(h, g, gap, ss[0]);
      GraftCloses(GraftSlot(h, ss[0]), GraftSlot(g, ss[0]), gap - Range(SlotOffs(ss[0])), ss[1..]);
      DistinctConcat(SlotOffs(ss[0]), Offs(ss[1..]));
      assert gap - Range(SlotOffs(ss[0])) - Range(Offs(ss[1..])) == gap - Range(Offs(ss));
    }
  }

  lemma {:induction false} GraftSlotCloses(h: Store, g: Store, gap: set<Off>, s: Slot)
    requires AgreeOutside(h, g, gap)
    ensures AgreeOutside(GraftSlot(h, s), GraftSlot(g, s), gap - Range(SlotOffs(s)))
    decreases s, 1
  {
    match s
    case Leaf(_) =>
    case Inline(ss) => GraftCloses(h, g, gap, ss);
    case Child(n) =>
      GraftCloses(h, g, gap, n.slots);
      DistinctConcat(Offs(n.slots), [n.off]);
      assert Range([n.off]) == {n.off};
  }

  lemma {:induction false} RawAgrees(h: Store, rs: seq<Extent>, m: multiset<Counter>)
    requires Fresh(h, Starts(rs))
    ensures PartOf(h, WithRaw(h, rs)) && WithRaw(h, rs).Keys == h.Keys + Range(Starts(rs))
    ensures AgreeOutside(Bumped(h, m), Bumped(WithRaw(h, rs), m), Range(Starts(rs)))
    decreases |rs|
  {
    if rs != [] {
      var g := h[rs[0].start := Raw(rs[0].len)];
      assert Starts(rs)[0] == rs[0].start && Starts(rs)[1..] == Starts(rs[1..]);
      assert Fresh(g, Starts(rs[1..])) by { FreshTail(h, rs); }
      RawAgrees(g, rs[1..], m);
      assert Starts(rs) == [rs[0].start] + Starts(rs[1..]);
      DistinctConcat([rs[0].start], Starts(rs[1..]));
      assert Range([rs[0].start]) == {rs[0].start};
    }
  }

  lemma FreshTail(h: Store, rs: seq<Extent>)
    requires rs != [] && Fresh(h, Starts(rs))
    ensures Fresh(h[rs[0].start := Raw(rs[0].len)], Starts(rs[1..]))
  {
    var g, tail := h[rs[0].start := Raw(rs[0].len)], Starts(rs[1..]);
    forall i | 0 <= i < |tail| ensures tail[i] != 0 && tail[i] !in g {
      assert tail[i] == Starts(rs)[i + 1] && Starts(rs)[0] != Starts(rs)[i + 1];
    }
    forall i, j | 0 <= i < j < |tail| ensures tail[i] != tail[j] {
      assert tail[i] == Starts(rs)[i + 1] && tail[j] == Starts(rs)[j + 1];
    }
  }

  // ---- What a descent does to the plan ----

  /** The plan after a descent that requested `sizes`, received `at`, staged `ws` and
      recorded `cs`.  A measure pass only records sizes; a build pass hands out the pool in
      order and succeeds exactly when the pool answers every request; a direct pass
      allocates fresh blocks, and if it fails it has done nothing but allocate. */
  ghost predicate Descended(p: Plan, q: Plan, sizes: seq<nat>, ws: seq<(Off, Block)>, cs: seq<Counter>,
                            ok: bool, at: seq<Off>, rs: seq<Extent>)
  {
    && q.mode == p.mode
    && (ok ==> |at| == |sizes|)
    && match p.mode
       case Measure => ok && q == p.(sizes := p.sizes + sizes, fakeNext := q.fakeNext)
       case Build =>
         && p.cursor <= |p.pool| && q.blocks == p.blocks && q.pool == p.pool
         && (ok <==> Fits(p.pool[p.cursor..], sizes))
         && (ok ==> q == p.(writes := p.writes + ws, bumps := p.bumps + cs, cursor := p.cursor + |sizes|))
         && (ok ==> at == Starts(p.pool[p.cursor..p.cursor + |sizes|]))
       case Direct =>
         && q.pool == p.pool + rs && q.blocks == WithRaw(p.blocks, rs) && Fresh(p.blocks, Starts(rs))
         && (ok ==> q == p.(writes := p.writes + ws, bumps := p.bumps + cs, blocks := q.blocks, pool := q.pool))
         && (ok ==> at == Starts(rs) && Lens(rs) == sizes)
  }

  lemma DescendedNothing(p: Plan)
    requires p.mode == Build ==> p.cursor <= |p.pool|
    ensures Descended(p, p, [], [], [], true, [], [])
  {
    assert p.pool + [] == p.pool && p.writes + [] == p.writes && p.bumps + [] == p.bumps && p.sizes + [] == p.sizes;
  }

  /** One descent after another. */
  lemma DescendedThen(p: Plan, q: Plan, r: Plan,
                      s1: seq<nat>, w1: seq<(Off, Block)>, c1: seq<Counter>, a1: seq<Off>, r1: seq<Extent>,
                      s2: seq<nat>, w2: seq<(Off, Block)>, c2: seq<Counter>, ok: bool, a2: seq<Off>, r2: seq<Extent>)
    requires Descended(p, q, s1, w1, c1, true, a1, r1) && Descended(q, r, s2, w2, c2, ok, a2, r2)
    ensures Descended(p, r, s1 + s2, w1 + w2, c1 + c2, ok, a1 + a2, r1 + r2)
  {
    hide Descended;
    match p.mode
    case Measure => MeasuredThen(p, q, r, s1, w1, c1, a1, r1, s2, w2, c2, ok, a2, r2);
    case Build => BuiltThen(p, q, r, s1, w1, c1, a1, r1, s2, w2, c2, ok, a2, r2);
    case Direct => AllocatedThen(p, q, r, s1, w1, c1, a1, r1, s2, w2, c2, ok, a2, r2);
  }

  lemma MeasuredThen(p: Plan, q: Plan, r: Plan,
                      s1: seq<nat>, w1: seq<(Off, Block)>, c1: seq<Counter>, a1: seq<Off>, r1: seq<Extent>,
                      s2: seq<nat>, w2: seq<(Off, Block)>, c2: seq<Counter>, ok: bool, a2: seq<Off>, r2: seq<Extent>)
    requires Descended(p, q, s1, w1, c1, true, a1, r1) && Descended(q, r, s2, w2, c2, ok, a2, r2)
    requires p.mode == Measure
    ensures Descended(p, r, s1 + s2, w1 + w2, c1 + c2, ok, a1 + a2, r1 + r2)
  {
    assert p.sizes + s1 + s2 == p.sizes + (s1 + s2);
  }

  lemma BuiltThen(p: Plan, q: Plan, r: Plan,
                      s1: seq<nat>, w1: seq<(Off, Block)>, c1: seq<Counter>, a1: seq<Off>, r1: seq<Extent>,
                      s2: seq<nat>, w2: seq<(Off, Block)>, c2: seq<Counter>, ok: bool, a2: seq<Off>, r2: seq<Extent>)
    requires Descended(p, q, s1, w1, c1, true, a1, r1) && Descended(q, r, s2, w2, c2, ok, a2, r2)
    requires p.mode == Build
    ensures Descended(p, r, s1 + s2, w1 + w2, c1 + c2, ok, a1 + a2, r1 + r2)
  {
    hide Fits, Starts;
    BuildThen(p.pool, p.cursor, s1, s2);
    assert p.writes + w1 + w2 == p.writes + (w1 + w2) && p.bumps + c1 + c2 == p.bumps + (c1 + c2);
  }

  lemma AllocatedThen(p: Plan, q: Plan, r: Plan,
                      s1: seq<nat>, w1: seq<(Off, Block)>, c1: seq<Counter>, a1: seq<Off>, r1: seq<Extent>,
                      s2: seq<nat>, w2: seq<(Off, Block)>, c2: seq<Counter>, ok: bool, a2: seq<Off>, r2: seq<Extent>)
    requires Descended(p, q, s1, w1, c1, true, a1, r1) && Descended(q, r, s2, w2, c2, ok, a2, r2)
    requires p.mode == Direct
    ensures Descended(p, r, s1 + s2, w1 + w2, c1 + c2, ok, a1 + a2, r1 + r2)
  {
    hide Fresh, WithRaw, Starts, Lens;
    WithRawConcat(p.blocks, r1, r2);
    StartsConcat(r1, r2);
    FreshConcat(p.blocks, r1, r2);
    assert r.pool == p.pool + (r1 + r2);
    assert r.blocks == WithRaw(p.blocks, r1 + r2);
    if ok {
      assert p.writes + w1 + w2 == p.writes + (w1 + w2) && p.bumps + c1 + c2 == p.bumps + (c1 + c2);
    }
  }

  lemma BuildThen(pool: seq<Extent>, cursor: nat, s1: seq<nat>, s2: seq<nat>)
    requires cursor <= |pool| && Fits(pool[cursor..], s1)
    ensures Fits(pool[cursor..], s1 + s2) <==> Fits(pool[cursor + |s1|..], s2)
    ensures Fits(pool[cursor + |s1|..], s2) ==>
      Starts(pool[cursor..cursor + |s1|]) + Starts(pool[cursor + |s1|..cursor + |s1| + |s2|])
      == Starts(pool[cursor..cursor + |s1 + s2|])
  {
    hide Starts;
    var p, k, n := pool[cursor..], cursor + |s1|, cursor + |s1 + s2|;
    assert p[|s1|..] == pool[k..];
    FitsSplit(p, s1, s2);
    if Fits(pool[k..], s2) { StartsSplit(pool, cursor, k, n); }
  }

  lemma StartsSplit(pool: seq<Extent>, i: nat, j: nat, k: nat)
    requires i <= j <= k <= |pool|
    ensures Starts(pool[i..j]) + Starts(pool[j..k]) == Starts(pool[i..k])
  {
    assert pool[i..j] + pool[j..k] == pool[i..k];
    StartsConcat(pool[i..j], pool[j..k]);
  }

  lemma FitsSplit(pool: seq<Extent>, a: seq<nat>, b: seq<nat>)
    requires |a| <= |pool|
    ensures Fits(pool, a + b) <==> Fits(pool, a) && Fits(pool[|a|..], b)
  {
    if Fits(pool, a + b) {
      forall i | 0 <= i < |a| ensures pool[i].len == a[i] { assert (a + b)[i] == a[i]; }
      forall i | 0 <= i < |b| ensures pool[|a|..][i].len == b[i] { assert (a + b)[|a| + i] == b[i]; }
    }
    if Fits(pool, a) && Fits(pool[|a|..], b) {
      forall i | 0 <= i < |a + b| ensures pool[i].len == (a + b)[i] {
        if i >= |a| { assert pool[|a|..][i - |a|].len == b[i - |a|]; }
      }
    }
  }

  lemma StartsConcat(a: seq<Extent>, b: seq<Extent>)
    ensures Starts(a + b) == Starts(a) + Starts(b) && Lens(a + b) == Lens(a) + Lens(b)
  {
    hide Starts, Lens;
  }

  lemma StartsNext(pool: seq<Extent>, i: nat)
    requires i < |pool|
    ensures Range(Starts(pool[..i + 1])) == Range(Starts(pool[..i])) + {pool[i].start}
  {
    assert pool[..i + 1] == pool[..i] + [pool[i]];
    StartsConcat(pool[..i], [pool[i]]);
    assert Starts([pool[i]]) == [pool[i].start];
    DistinctConcat(Starts(pool[..i]), [pool[i].start]);
    assert Range([pool[i].start]) == {pool[i].start};
  }

  lemma FreshConcat(h: Store, a: seq<Extent>, b: seq<Extent>)
    requires Fresh(h, Starts(a)) && Fresh(WithRaw(h, a), Starts(b))
    ensures Fresh(h, Starts(a + b))
  {
    hide Starts, WithRaw, Fresh;
    StartsConcat(a, b);
    RawAgrees(h, a, multiset{});
    FreshMore(h, WithRaw(h, a), Starts(a), Starts(b));
  }

  lemma RawNone(h: Store, pool: seq<Extent>)
    requires pool == []
    ensures WithRaw(h, pool) == h && Lens(pool) == [] && Fresh(h, Starts(pool))
  {}

  /** One more range allocated. */
  lemma RawNext(h: Store, pool: seq<Extent>, x: Extent)
    requires Fresh(h, Starts(pool)) && x.start != 0 && x.start !in WithRaw(h, pool)
    ensures WithRaw(h, pool + [x]) == WithRaw(h, pool)[x.start := Raw(x.len)]
    ensures Lens(pool + [x]) == Lens(pool) + [x.len] && Fresh(h, Starts(pool + [x]))
  {
    var g, one := WithRaw(h, pool), [x];
    assert one[1..] == [] && Starts(one) == [x.start];
    assert WithRaw(g, one) == g[x.start := Raw(x.len)];
    WithRawConcat(h, pool, one);
    StartsConcat(pool, one);
    FreshConcat(h, pool, one);
  }

  lemma FreshMore(h: Store, g: Store, a: seq<Off>, b: seq<Off>)
    requires Fresh(h, a) && Fresh(g, b) && h.Keys + Range(a) <= g.Keys
    ensures Fresh(h, a + b)
  {
    var c := a + b;
    forall i | 0 <= i < |c| ensures c[i] != 0 && c[i] !in h {
      assert c[i] == if i < |a| then a[i] else b[i - |a|];
    }
    forall i, j | 0 <= i < j < |c| ensures c[i] != c[j] {
      if i < |a| <= j { assert a[i] in Range(a) && b[j - |a|] !in g; }
    }
  }

  /** A failed descent stays failed whatever else was to follow. */
  lemma DescendedFailed(p: Plan, q: Plan, s1: seq<nat>, w1: seq<(Off, Block)>, c1: seq<Counter>, at: seq<Off>,
                        rs: seq<Extent>, s2: seq<nat>, w2: seq<(Off, Block)>, c2: seq<Counter>)
    requires Descended(p, q, s1, w1, c1, false, at, rs)
    ensures Descended(p, q, s1 + s2, w2, c2, false, at, rs)
  {
    if p.mode == Build && |s1| <= |p.pool[p.cursor..]| {
      FitsSplit(p.pool[p.cursor..], s1, s2);
    }
  }

  lemma DescendedAnyAt(p: Plan, q: Plan, sizes: seq<nat>, ws: seq<(Off, Block)>, cs: seq<Counter>, at: seq<Off>,
                       at': seq<Off>, rs: seq<Extent>)
    requires Descended(p, q, sizes, ws, cs, false, at, rs)
    ensures Descended(p, q, sizes, ws, cs, false, at', rs)
  {}

  lemma DescendedAnyWrites(p: Plan, q: Plan, sizes: seq<nat>, ws: seq<(Off, Block)>, ws': seq<(Off, Block)>,
                           cs: seq<Counter>, at: seq<Off>, rs: seq<Extent>)
    requires Descended(p, q, sizes, ws, cs, false, at, rs)
    ensures Descended(p, q, sizes, ws', cs, false, at, rs)
  {}

  lemma StillBuildable(p: Plan, q: Plan, sizes: seq<nat>, ws: seq<(Off, Block)>, cs: seq<Counter>, at: seq<Off>, rs: seq<Extent>)
    requires Descended(p, q, sizes, ws, cs, true, at, rs)
    ensures q.mode == p.mode && (q.mode == Build ==> q.cursor <= |q.pool|)
  {}

  lemma InParts(h: Store, ss: seq<Slot>)
    requires ss != [] && In(h, ss)
    ensures SlotIn(h, ss[0]) && In(h, ss[1..])
  {}

  lemma {:induction false} CountersConcat(h: Store, a: seq<Edge>, b: seq<Edge>)
    requires forall e <- a + b :: Countable(h, e)
    ensures (forall e <- a :: Countable(h, e)) && (forall e <- b :: Countable(h, e))
    ensures Counters(h, a + b) == Counters(h, a) + Counters(h, b)
    decreases |a|
  {
    hide Countable, CounterOf;
    var ab := a + b;
    assert (forall e <- a :: e in ab) && (forall e <- b :: e in ab);
    if a == [] {
      assert ab == b;
    } else {
      assert ab[0] == a[0] && ab[1..] == a[1..] + b;
      assert forall e <- a[1..] + b :: e in ab;
      CountersConcat(h, a[1..], b);
    }
  }

  lemma SourceBlock(src: Store, h: Store, n: Node)
    requires WellFormedSlot(Child(n)) && SlotIn(src, Child(n)) && PartOf(src, h)
    ensures WellFormed(n.slots) && In(src, n.slots) && n.off in h && h[n.off] == Image(n)
  {}

  /** The last write of a cloned block is its own image. */
  lemma RootWrites(n: Node, a: seq<Off>, off: Off)
    requires |a| == Count(n.slots)
    ensures var out := Fields(Move(n.slots, a));
      SlotWrites(Child(MoveNode(n, a + [off])))
      == Writes(Move(n.slots, a)) + [(off, if n.form.Vector? then VecData(Width(out), n.form.rows, out) else Plain(out))]
  {
    var at := a + [off];
    assert at[..|at| - 1] == a && at[|at| - 1] == off;
  }

  ghost predicate AllCountable(src: Store, ss: seq<Slot>) { forall e <- Shared(ss) :: Countable(src, e) }
  ghost predicate SlotCountable(src: Store, s: Slot) { forall e <- SlotShared(s) :: Countable(src, e) }

  ghost function CountersOf(src: Store, ss: seq<Slot>): seq<Counter>
    requires AllCountable(src, ss)
  {
    Counters(src, Shared(ss))
  }

  /** How the tree functions split at the first slot. */
  lemma FirstSlot(src: Store, ss: seq<Slot>, a: seq<Off>, b: seq<Off>)
    requires ss != [] && AllCountable(src, ss) && |a| == SlotCount(ss[0]) && |b| == Count(ss[1..])
    ensures SlotCountable(src, ss[0]) && AllCountable(src, ss[1..])
    ensures Counters(src, Shared(ss)) == Counters(src, SlotShared(ss[0])) + Counters(src, Shared(ss[1..]))
    ensures |a + b| == Count(ss)
    ensures Writes(Move(ss, a + b)) == SlotWrites(MoveSlot(ss[0], a)) + Writes(Move(ss[1..], b))
    ensures Fields(Move(ss, a + b)) == [SlotField(MoveSlot(ss[0], a))] + Fields(Move(ss[1..], b))
  {
    CountersConcat(src, SlotShared(ss[0]), Shared(ss[1..]));
    assert (a + b)[..|a|] == a && (a + b)[|a|..] == b;
    var x, y := MoveSlot(ss[0], a), Move(ss[1..], b);
    assert Move(ss, a + b) == [x] + y;
    assert ([x] + y)[0] == x && ([x] + y)[1..] == y;
  }

  // ---- The phases of a whole clone ----

  predicate FitsU64(b: Block) {
    match b
    case Rc(n, _) => n <= 0xFFFF_FFFF_FFFF_FFFF
    case Ctrl(s, w, _) => s <= 0xFFFF_FFFF_FFFF_FFFF && w <= 0xFFFF_FFFF_FFFF_FFFF
    case _ => true
  }

  /** A commit is refused for exactly the counters that the raise would take past 64 bits. */
  lemma OverflowsIff(x: Off, b: Block, m: multiset<Counter>)
    ensures Overflows(x, b, m) <==> !FitsU64(BumpBlock(x, b, m))
  {}

  ghost predicate CountersFit(h: Store) { forall x <- h :: FitsU64(h[x]) }

  ghost predicate RootDescended(h: Store, p: Plan, q: Plan, n: Node, ok: bool, at: seq<Off>, rs: seq<Extent>) {
    && AllCountable(h, n.slots) && |at| == Count(n.slots) + 1
    && Descended(p, q, SlotSizes(Child(n)), SlotWrites(Child(MoveNode(n, at))), CountersOf(h, n.slots), ok, at, rs)
  }

  /** The measure pass cannot fail and touches nothing but the size list. */
  lemma Measured(h: Store, p: Plan, q: Plan, n: Node, at: seq<Off>, ok: bool, rs: seq<Extent>)
    requires p == Plan(h, Measure, [], [], 0, 1, [], []) && RootDescended(h, p, q, n, ok, at, rs)
    ensures q == Plan(h, Measure, [], SlotSizes(Child(n)), 0, q.fakeNext, [], [])
  {
    assert [] + SlotSizes(Child(n)) == SlotSizes(Child(n));
  }

  /** Two passes agree: over the pool allocated for the measured sizes the build pass never
      runs out, never mismatches, and uses every range exactly once. */
  lemma BuildSucceeds(h: Store, p: Plan, q: Plan, n: Node, at: seq<Off>, ok: bool, rs: seq<Extent>)
    requires p.mode == Build && p.cursor == 0 && p.writes == [] && p.bumps == [] && Lens(p.pool) == SlotSizes(Child(n))
    requires RootDescended(h, p, q, n, ok, at, rs)
    ensures ok && q.cursor == |q.pool| && q.pool == p.pool && q.blocks == p.blocks && at == Starts(p.pool)
    ensures q.writes == SlotWrites(Child(MoveNode(n, at))) && q.bumps == CountersOf(h, n.slots)
  {
    var sizes := SlotSizes(Child(n));
    assert p.pool[0..] == p.pool && p.pool[0..0 + |sizes|] == p.pool;
    assert Fits(p.pool, sizes) by {
      forall i | 0 <= i < |sizes| ensures p.pool[i].len == sizes[i] { assert Lens(p.pool)[i] == sizes[i]; }
    }
  }

  /** The eager pass stages the same writes and bumps, over the blocks it allocated. */
  lemma DirectDone(h: Store, p: Plan, q: Plan, n: Node, at: seq<Off>, ok: bool, rs: seq<Extent>)
    requires p == Plan(h, Direct, [], [], 0, 1, [], []) && RootDescended(h, p, q, n, ok, at, rs)
    ensures q.blocks == WithRaw(h, q.pool) && Fresh(h, Starts(q.pool))
    ensures ok ==> at == Starts(q.pool) && q.writes == SlotWrites(Child(MoveNode(n, at))) && q.bumps == CountersOf(h, n.slots)
    ensures ok ==> Lens(q.pool) == SlotSizes(Child(n))
  {
    hide WithRaw, Starts, Lens, Fresh, Fits, SlotSizes, SlotWrites, MoveNode, CountersOf;
    assert [] + rs == rs;
    if ok {
      var w, c := SlotWrites(Child(MoveNode(n, at))), CountersOf(h, n.slots);
      assert [] + w == w && [] + c == c;
    }
  }

  /** Everything is staged for the commit: the pool is allocated and unwritten, and the
      writes and bumps are those of the tree `n` copied to `at`. */
  ghost predicate Staged(h: Store, q: Plan, n: Node, at: seq<Off>) {
    && AllCountable(h, n.slots) && |at| == Count(n.slots) + 1 && at == Starts(q.pool)
    && q.blocks == WithRaw(h, q.pool) && Fresh(h, Starts(q.pool))
    && q.writes == SlotWrites(Child(MoveNode(n, at))) && q.bumps == CountersOf(h, n.slots)
    && Lens(q.pool) == SlotSizes(Child(n))
  }

  /** The block fills the `len` bytes requested for it; a vector has no spare capacity. */
  predicate Tight(b: Block, len: nat) {
    && BlockSize(b) == len
    && (b.VecData? ==> b.cap == Width(b.elems))
    && (b.VecData? && AllReferences(b.elems) ==> b.cap == 8 * |b.elems|)
    && (b.Plain? && AllReferences(b.fields) ==> len == 16 + 8 * |b.fields|)
  }

  lemma {:induction false} WritesIn(h: Store, ss: seq<Slot>)
    requires In(h, ss)
    ensures forall w <- Writes(ss) :: w.0 in h && h[w.0] == w.1
    decreases ss, 0
  {
    if ss != [] {
      SlotWritesIn(h, ss[0]);
      WritesIn(h, ss[1..]);
    }
  }

  lemma {:induction false} SlotWritesIn(h: Store, s: Slot)
    requires SlotIn(h, s)
    ensures forall w <- SlotWrites(s) :: w.0 in h && h[w.0] == w.1
    decreases s, 1
  {
    match s
    case Leaf(_) =>
    case Inline(ss) => WritesIn(h, ss);
    case Child(n) => WritesIn(h, n.slots);
  }

  ghost predicate NoSpare(ws: seq<(Off, Block)>) {
    forall w <- ws :: w.1.VecData? ==> w.1.cap == Width(w.1.elems)
  }

  lemma {:induction false} MovedNoSpare(ss: seq<Slot>, at: seq<Off>)
    requires |at| == Count(ss)
    ensures NoSpare(Writes(Move(ss, at)))
    decreases ss, 0
  {
    if ss != [] {
      var k := SlotCount(ss[0]);
      SlotMovedNoSpare(ss[0], at[..k]);
      MovedNoSpare(ss[1..], at[k..]);
      var x, y := MoveSlot(ss[0], at[..k]), Move(ss[1..], at[k..]);
      assert Move(ss, at) == [x] + y && ([x] + y)[1..] == y;
    }
  }

  lemma {:induction false} SlotMovedNoSpare(s: Slot, at: seq<Off>)
    requires |at| == SlotCount(s)
    ensures NoSpare(SlotWrites(MoveSlot(s, at)))
    decreases s, 1
  {
    match s
    case Leaf(_) =>
    case Inline(ss) => MovedNoSpare(ss, at);
    case Child(n) =>
      var m := |at| - 1;
      MovedNoSpare(n.slots, at[..m]);
      MoveSame(n.slots, at[..m]);
  }

  /** Every block of a committed clone fills its range. */
  lemma ClonedTight(h: Store, held: multiset<Edge>, n: Node, pool: seq<Extent>)
    requires Accounted(h, held) && WellFormedSlot(Child(n)) && SlotIn(h, Child(n)) && AllCountable(h, n.slots)
    requires |pool| == Count(n.slots) + 1 && Fresh(h, Starts(pool)) && Lens(pool) == SlotSizes(Child(n))
    ensures var g, m := Cloned(h, n, Starts(pool)), Child(MoveNode(n, Starts(pool)));
      && (forall x <- pool :: x.start in g && Tight(g[x.start], x.len))
      && SlotIn(g, m) && EraseSlot(m) == EraseSlot(Child(n))
  {
    hide Accounted, Fresh, Cloned, SlotWrites, MoveNode, SlotSizes, WellFormedSlot, SlotIn, Width, BlockSize;
    var at := Starts(pool);
    var g, copy := Cloned(h, n, at), Child(MoveNode(n, at));
    CloneCorrect(h, held, n, at);
    SlotWritesIn(g, copy);
    assert copy == MoveSlot(Child(n), at);
    SlotWritesFit(Child(n), at);
    SlotMovedNoSpare(Child(n), at);
    var ws := SlotWrites(copy);
    forall x <- pool ensures x.start in g && Tight(g[x.start], x.len) {
      var i :| 0 <= i < |pool| && pool[i] == x;
      assert ws[i].0 == at[i] == x.start && BlockSize(ws[i].1) == Lens(pool)[i] == x.len;
      assert ws[i] in ws && g[x.start] == ws[i].1;
      var b := ws[i].1;
      BlockSizes(b);
      if b.VecData? && AllReferences(b.elems) { ReferencesWidth(b.elems); }
    }
  }

  lemma SourceCountable(h: Store, held: multiset<Edge>, n: Node)
    requires Accounted(h, held) && SlotIn(h, Child(n))
    ensures AllCountable(h, n.slots)
  {
    TreeCountable(h, held, n);
  }

  lemma UndoRaw(h: Store, rs: seq<Extent>)
    requires Fresh(h, Starts(rs))
    ensures WithRaw(h, rs) - Range(Starts(rs)) == h
  {
    RawAgrees(h, rs, multiset{});
    var g := WithRaw(h, rs) - Range(Starts(rs));
    forall x <- h ensures x in g && g[x] == h[x] {
      assert x !in Starts(rs);
    }
    assert g.Keys == h.Keys;
  }

  /** The committed store does not depend on how the blocks came to be allocated. */
  lemma Committed(h: Store, held: multiset<Edge>, n: Node, pool: seq<Extent>, g: Store)
    requires Accounted(h, held) && WellFormedSlot(Child(n)) && SlotIn(h, Child(n)) && AllCountable(h, n.slots)
    requires |pool| == Count(n.slots) + 1 && Fresh(h, Starts(pool))
    requires var m := multiset(CountersOf(h, n.slots)); var raw := WithRaw(h, pool);
      && (forall x <- raw :: !Overflows(x, raw[x], m))
      && g == ApplyWrites(Bumped(raw, m), SlotWrites(Child(MoveNode(n, Starts(pool)))))
    ensures g == Cloned(h, n, Starts(pool)) && CountersFit(g)
    ensures Accounted(g, held + multiset{Handle(MoveNode(n, Starts(pool)))})
  {
    hide Accounted, Fresh, Bumped, WithRaw, Starts, SlotWrites, ApplyWrites, Overflows, CountersFit;
    var at := Starts(pool);
    var m := multiset(CountersOf(h, n.slots));
    FlushedGraft(h, n, pool, m);
    CloneCorrect(h, held, n, at);
    BumpedFits(h, pool, m);
    GraftFits(Bumped(h, m), Child(MoveNode(n, at)));
  }

  /** Bumping and flushing over the preallocated blocks is grafting onto the bumped store. */
  lemma FlushedGraft(h: Store, n: Node, pool: seq<Extent>, m: multiset<Counter>)
    requires |pool| == Count(n.slots) + 1 && Fresh(h, Starts(pool))
    ensures var copy := Child(MoveNode(n, Starts(pool)));
      ApplyWrites(Bumped(WithRaw(h, pool), m), SlotWrites(copy)) == GraftSlot(Bumped(h, m), copy)
  {
    hide Fresh, Bumped, WithRaw, GraftSlot, SlotWrites, ApplyWrites, AgreeOutside, SlotOffs;
    var at := Starts(pool);
    var copy := Child(MoveNode(n, at));
    RawAgrees(h, pool, m);
    var b, r := Bumped(h, m), Bumped(WithRaw(h, pool), m);
    SlotWritesGraft(r, copy);
    GraftSlotCloses(b, r, Range(at), copy);
    MoveSlotSame(Child(n), at);
    assert Range(at) - Range(SlotOffs(copy)) == {};
    AgreeEverywhere(GraftSlot(b, copy), GraftSlot(r, copy));
  }

  lemma AgreeEverywhere(h: Store, g: Store)
    requires AgreeOutside(h, g, {})
    ensures h == g
  {}

  lemma BumpedFits(h: Store, pool: seq<Extent>, m: multiset<Counter>)
    requires Fresh(h, Starts(pool))
    requires forall x <- WithRaw(h, pool) :: !Overflows(x, WithRaw(h, pool)[x], m)
    ensures CountersFit(Bumped(h, m))
  {
    RawAgrees(h, pool, m);
    forall x <- h ensures FitsU64(BumpBlock(x, h[x], m)) {
      assert !Overflows(x, WithRaw(h, pool)[x], m);
    }
  }

  lemma {:induction false} GraftFits(h: Store, s: Slot)
    requires CountersFit(h)
    ensures CountersFit(GraftSlot(h, s))
    decreases s, 1
  {
    match s
    case Leaf(_) =>
    case Inline(ss) => GraftsFit(h, ss);
    case Child(n) => GraftsFit(h, n.slots);
  }

  lemma {:induction false} GraftsFit(h: Store, ss: seq<Slot>)
    requires CountersFit(h)
    ensures CountersFit(Graft(h, ss))
    decreases ss, 0
  {
    if ss != [] {
      GraftFits(h, ss[0]);
      GraftsFit(GraftSlot(h, ss[0]), ss[1..]);
    }
  }

  class ClonePlan {
    var blocks: Store
    var mode: Mode
    var pool: seq<Extent>
    var sizes: seq<nat>
    var cursor: nat
    var fakeNext: nat
    var writes: seq<(Off, Block)>
    var bumps: seq<Counter>

    constructor (file: Store)
      ensures Now() == Plan(file, Direct, [], [], 0, 1, [], [])
    {
      blocks, mode, pool, sizes, cursor, fakeNext, writes, bumps := file, Direct, [], [], 0, 1, [], [];
    }

    ghost function Now(): Plan
      reads this
    {
      Plan(blocks, mode, pool, sizes, cursor, fakeNext, writes, bumps)
    }

    /** The single funnel of every allocation of a clone. */
    method AllocRaw(size: nat) returns (ok: bool, off: Off, ghost rs: seq<Extent>)
      requires mode == Build ==> cursor <= |pool|
      modifies this
      ensures Descended(old(Now()), Now(), [size], [], [], ok, [off], rs)
      ensures PartOf(old(blocks), blocks)
      ensures old(mode) == Measure ==>
        && off == old(fakeNext)
        && (old(fakeNext) + size <= 0xFFFF_FFFF_FFFF_FFFF && size > 0 ==> fakeNext == off + size)
        && (off <= 0xFFFF_FFFF_FFFF_FFFF ==> off <= fakeNext <= 0xFFFF_FFFF_FFFF_FFFF)
    {
      ghost var p := Now();
      assert p.writes + [] == p.writes && p.bumps + [] == p.bumps;
      match mode {
        case Measure =>
          sizes := sizes + [size];
          off := fakeNext;
          var step := if size > 1 then size else 1;
          fakeNext := if fakeNext + step > U64_MAX then U64_MAX else fakeNext + step;
          return true, off, [];
        case Build =>
          if cursor >= |pool| { return false, 0, []; }
          var range := pool[cursor];
          ghost var next := p.pool[p.cursor..p.cursor + 1];
          assert |next| == 1 && next[0] == range;
          assert next == [range];
          cursor := cursor + 1;
          if range.len != size {
            assert !Fits(p.pool[p.cursor..], [size]) by { assert p.pool[p.cursor..][0] == range; }
            return false, 0, [];
          }
          assert Starts([range]) == [range.start];
          return true, range.start, [];
        case Direct =>
          var r;
          r, blocks := Allocate(blocks, size);
          match r {
            case None =>
              assert p.pool + [] == p.pool;
              return false, 0, [];
            case Some(o) =>
              var x := Extent(o, size);
              pool := pool + [x];
              assert Starts([x]) == [o] && Lens([x]) == [size] && [x][1..] == [];
              return true, o, [x];
          }
      }
    }

    /** Stage an image; a no-op while measuring. */
    method Write(off: Off, b: Block)
      requires mode == Build ==> cursor <= |pool|
      modifies this`writes
      ensures Descended(old(Now()), Now(), [], [(off, b)], [], true, [], [])
    {
      ghost var p := Now();
      if mode != Measure { writes := writes + [(off, b)]; }
      assert p.pool + [] == p.pool && p.bumps + [] == p.bumps && p.sizes + [] == p.sizes;
    }

    /** Record that a counter must be raised; a no-op while measuring. */
    method Bump(ghost src: Store, e: Edge)
      requires Countable(src, e) && PartOf(src, blocks)
      requires mode == Build ==> cursor <= |pool|
      modifies this`bumps
      ensures Descended(old(Now()), Now(), [], [], [CounterOf(src, e)], true, [], [])
    {
      ghost var p := Now();
      if mode != Measure {
        var c := if e.WeakTo? then WeakAt(e.off)
                 else if blocks[e.off].Rc? then CountAt(e.off)
                 else StrongAt(blocks[e.off].ctrl);
        bumps := bumps + [c];
      }
      assert p.pool + [] == p.pool && p.writes + [] == p.writes && p.sizes + [] == p.sizes;
    }

    /** Clone the children of a block image in place, field by field. */
    method CloneFields(ghost src: Store, fs: seq<Field>, ghost ss: seq<Slot>)
      returns (ok: bool, out: seq<Field>, ghost at: seq<Off>, ghost rs: seq<Extent>)
      requires fs == Fields(ss) && WellFormed(ss) && In(src, ss) && AllCountable(src, ss)
      requires PartOf(src, blocks) && (mode == Build ==> cursor <= |pool|)
      modifies this
      ensures PartOf(src, blocks) && |at| == Count(ss)
      ensures Descended(old(Now()), Now(), Sizes(ss), Writes(Move(ss, at)), CountersOf(src, ss), ok, at, rs)
      ensures ok ==> out == Fields(Move(ss, at))
      decreases ss, 0
    {
      hide Descended, In;
      ghost var p := Now();
      if fs == [] {
        DescendedNothing(p);
        return true, [], [], [];
      }
      assert In(src, ss) && SlotIn(src, ss[0]) && In(src, ss[1..]) by { InParts(src, ss); }
      ghost var a, b := seq(SlotCount(ss[0]), _ => 0), seq(Count(ss[1..]), _ => 0);
      FirstSlot(src, ss, a, b);
      assert Fields(ss)[0] == SlotField(ss[0]) && Fields(ss)[1..] == Fields(ss[1..]);
      var f;
      ghost var r1;
      ok, f, a, r1 := CloneField(src, fs[0], ss[0]);
      ghost var q := Now();
      FirstSlot(src, ss, a, b);
      if !ok {
        DescendedFailed(p, q, SlotSizes(ss[0]), SlotWrites(MoveSlot(ss[0], a)), Counters(src, SlotShared(ss[0])), a, r1,
                        Sizes(ss[1..]), Writes(Move(ss, a + b)), Counters(src, Shared(ss)));
        DescendedAnyAt(p, q, Sizes(ss), Writes(Move(ss, a + b)), Counters(src, Shared(ss)), a, a + b, r1);
        return false, [], a + b, r1;
      }
      StillBuildable(p, q, SlotSizes(ss[0]), SlotWrites(MoveSlot(ss[0], a)), Counters(src, SlotShared(ss[0])), a, r1);
      var rest;
      ghost var r2;
      ok, rest, b, r2 := CloneFields(src, fs[1..], ss[1..]);
      FirstSlot(src, ss, a, b);
      DescendedThen(p, q, Now(), SlotSizes(ss[0]), SlotWrites(MoveSlot(ss[0], a)), Counters(src, SlotShared(ss[0])), a, r1,
                    Sizes(ss[1..]), Writes(Move(ss[1..], b)), Counters(src, Shared(ss[1..])), ok, b, r2);
      out, at, rs := [f] + rest, a + b, r1 + r2;
    }

    /** One clone statement: deep-copy an owned child or vector, bump a shared target, fold
        an embedded child in place, copy anything else verbatim. */
    method CloneField(ghost src: Store, f: Field, ghost s: Slot)
      returns (ok: bool, out: Field, ghost at: seq<Off>, ghost rs: seq<Extent>)
      requires f == SlotField(s) && WellFormedSlot(s) && SlotIn(src, s) && SlotCountable(src, s)
      requires PartOf(src, blocks) && (mode == Build ==> cursor <= |pool|)
      modifies this
      ensures PartOf(src, blocks) && |at| == SlotCount(s)
      ensures Descended(old(Now()), Now(), SlotSizes(s), SlotWrites(MoveSlot(s, at)), Counters(src, SlotShared(s)), ok, at, rs)
      ensures ok ==> out == SlotField(MoveSlot(s, at))
      ensures ok && (f.Pod? || f.Ref? || f.Strong? || f.Weak?) ==> out == f
      ensures ok && (f.Own? || f.VecOf?) && f.off == 0 ==> out == f
      ensures ok && f.Own? && f.off != 0 ==> |at| > 0 && out == Own(at[|at| - 1])
      ensures ok && f.VecOf? && f.off != 0 ==> |at| > 0 && out == VecOf(at[|at| - 1])
      decreases s, 1
    {
      hide Descended;
      DescendedNothing(Now());
      match f {
        case Embed(inner) =>
          var fields;
          ok, fields, at, rs := CloneFields(src, inner, s.inner);
          out := Embed(fields);
        case Own(x) =>
          if x == 0 { return true, f, [], []; }
          var o;
          ok, o, at, rs := CloneBlock(src, x, s.node);
          out := Own(o);
        case VecOf(x) =>
          if x == 0 { return true, f, [], []; }
          var o;
          ok, o, at, rs := CloneBlock(src, x, s.node);
          out := VecOf(o);
        case Strong(x) =>
          if x == 0 { return true, f, [], []; }
          assert StrongTo(x) in SlotShared(s) && SlotShared(s)[1..] == [];
          assert Counters(src, SlotShared(s)) == [CounterOf(src, StrongTo(x))];
          Bump(src, StrongTo(x));
          return true, f, [], [];
        case Weak(c) =>
          if c == 0 { return true, f, [], []; }
          assert WeakTo(c) in SlotShared(s) && SlotShared(s)[1..] == [];
          assert Counters(src, SlotShared(s)) == [CounterOf(src, WeakTo(c))];
          Bump(src, WeakTo(c));
          return true, f, [], [];
        case Pod(_) => return true, f, [], [];
        case Ref(_) => return true, f, [], [];
      }
    }

    /** Allocate the block of a finished image and stage the image. */
    method Place(size: nat, image: Block) returns (ok: bool, off: Off, ghost rs: seq<Extent>)
      requires mode == Build ==> cursor <= |pool|
      modifies this
      ensures Descended(old(Now()), Now(), [size], [(off, image)], [], ok, [off], rs)
      ensures PartOf(old(blocks), blocks)
    {
      hide Descended;
      ghost var p := Now();
      ok, off, rs := AllocRaw(size);
      ghost var q := Now();
      if !ok {
        DescendedAnyWrites(p, q, [size], [], [(off, image)], [], [off], rs);
        return;
      }
      StillBuildable(p, q, [size], [], [], [off], rs);
      Write(off, image);
      ghost var noWrites: seq<(Off, Block)>, noBumps: seq<Counter>, noSizes: seq<nat> := [], [], [];
      ghost var noOffs: seq<Off>, noRanges: seq<Extent> := [], [];
      DescendedThen(p, q, Now(), [size], noWrites, noBumps, [off], rs, noSizes, [(off, image)], noBumps, true, noOffs, noRanges);
      assert [size] + noSizes == [size] && [off] + noOffs == [off] && rs + noRanges == rs;
      assert noWrites + [(off, image)] == [(off, image)] && noBumps + noBumps == noBumps;
    }

    /** Clone a whole block: its children first, then its own image in a fresh block. */
    method CloneBlock(ghost src: Store, x: Off, ghost n: Node)
      returns (ok: bool, off: Off, ghost at: seq<Off>, ghost rs: seq<Extent>)
      requires n.off == x && WellFormedSlot(Child(n)) && SlotIn(src, Child(n)) && AllCountable(src, n.slots)
      requires PartOf(src, blocks) && (mode == Build ==> cursor <= |pool|)
      modifies this
      ensures PartOf(src, blocks) && |at| == Count(n.slots) + 1
      ensures Descended(old(Now()), Now(), SlotSizes(Child(n)), SlotWrites(Child(MoveNode(n, at))),
                        CountersOf(src, n.slots), ok, at, rs)
      ensures ok ==> off == at[|at| - 1]
      decreases n, 2
    {
      hide Descended, In, WellFormed, AllCountable, Sizes, Writes, Move, Fields, SlotIn, MoveNode, Width, CountersOf;
      ghost var p, ss := Now(), n.slots;
      SourceBlock(src, blocks, n);
      var isVec, rows := blocks[x].VecData?, blocks[x].VecData? && blocks[x].rows;
      var fields := if isVec then blocks[x].elems else blocks[x].fields;
      var out;
      ghost var a, r1;
      ok, out, a, r1 := CloneFields(src, fields, ss);
      ghost var q := Now();
      ghost var s1, w1, c1 := Sizes(ss), Writes(Move(ss, a)), CountersOf(src, ss);
      ghost var size: nat := 16 + Width(Fields(ss));
      if !ok {
        at, rs := a + [0], r1;
        DescendedFailed(p, q, s1, w1, c1, a, r1, [size], SlotWrites(Child(MoveNode(n, at))), c1);
        DescendedAnyAt(p, q, s1 + [size], SlotWrites(Child(MoveNode(n, at))), c1, a, at, r1);
        return false, 0, at, rs;
      }
      StillBuildable(p, q, s1, w1, c1, a, r1);
      var image := if isVec then VecData(Width(out), rows, out) else Plain(out);
      ghost var r2;
      assert Width(out) == Width(Fields(ss)) by { MoveSame(ss, a); }
      ok, off, r2 := Place(16 + Width(out), image);
      DescendedThen(p, q, Now(), s1, w1, c1, a, r1, [size], [(off, image)], [], ok, [off], r2);
      at, rs := a + [off], r1 + r2;
      RootWrites(n, a, off);
      assert c1 + [] == c1;
    }

    /** Free every range of the pool. */
    method Reclaim()
      modifies this`blocks
      ensures blocks == old(blocks) - Range(Starts(pool))
    {
      var i := 0;
      while i < |pool|
        invariant 0 <= i <= |pool|
        invariant blocks == old(blocks) - Range(Starts(pool[..i]))
      {
        StartsNext(pool, i);
        blocks := blocks - {pool[i].start};
        i := i + 1;
      }
      assert pool[..|pool|] == pool;
    }

    /** Allocate every measured block, all or none. */
    method AllocMany() returns (ok: bool)
      requires pool == []
      modifies this`blocks, this`pool
      ensures ok ==> blocks == WithRaw(old(blocks), pool) && Lens(pool) == sizes && Fresh(old(blocks), Starts(pool))
      ensures !ok ==> blocks == old(blocks)
    {
      hide WithRaw, Starts, Fresh, Lens;
      ghost var h := blocks;
      RawNone(h, pool);
      var i := 0;
      while i < |sizes|
        invariant 0 <= i <= |sizes|
        invariant blocks == WithRaw(h, pool) && Lens(pool) == sizes[..i] && Fresh(h, Starts(pool))
      {
        var r;
        r, blocks := Allocate(blocks, sizes[i]);
        if r.None? {
          Reclaim();
          UndoRaw(h, pool);
          return false;
        }
        var x := Extent(r.value, sizes[i]);
        RawNext(h, pool, x);
        pool := pool + [x];
        i := i + 1;
        assert sizes[..i] == sizes[..i - 1] + [sizes[i - 1]];
      }
      assert sizes[..i] == sizes;
      return true;
    }

    /** Apply every bump and flush every staged image as one unit, or do nothing: a counter
        that would overflow, like an I/O failure, commits nothing. */
    method Commit() returns (ok: bool, full: bool)
      modifies this`blocks
      ensures full <==> exists x <- old(blocks) :: !FitsU64(BumpBlock(x, old(blocks)[x], multiset(bumps)))
      ensures full ==> !ok
      ensures ok ==> blocks == ApplyWrites(Bumped(old(blocks), multiset(bumps)), writes)
      ensures ok ==> forall x <- old(blocks) :: !Overflows(x, old(blocks)[x], multiset(bumps))
      ensures !ok ==> blocks == old(blocks)
    {
      var m := multiset(bumps);
      forall x ensures x in blocks ==> (Overflows(x, blocks[x], m) <==> !FitsU64(BumpBlock(x, blocks[x], m))) {
        if x in blocks { OverflowsIff(x, blocks[x], m); }
      }
      full := exists x | x in blocks :: Overflows(x, blocks[x], m);
      if full { return false, full; }
      if * { return false, full; }
      ghost var h := Bumped(blocks, m);
      blocks := Bumped(blocks, m);
      var i := 0;
      while i < |writes|
        invariant 0 <= i <= |writes|
        invariant blocks == ApplyWrites(h, writes[..i])
      {
        assert writes[..i + 1] == writes[..i] + [writes[i]];
        ghost var one := [writes[i]];
        ApplyConcat(h, writes[..i], one);
        assert ApplyWrites(blocks[one[0].0 := one[0].1], one[1..]) == blocks[one[0].0 := one[0].1];
        blocks := blocks[writes[i].0 := writes[i].1];
        i := i + 1;
      }
      assert writes[..|writes|] == writes;
      return true, full;
    }

    /** Stage a clone eagerly: one descent that allocates as it goes. */
    method StageDirect(x: Off, ghost n: Node) returns (ok: bool, off: Off, ghost at: seq<Off>)
      requires Now() == Plan(blocks, Direct, [], [], 0, 1, [], [])
      requires n.off == x && WellFormedSlot(Child(n)) && SlotIn(blocks, Child(n)) && AllCountable(blocks, n.slots)
      modifies this
      ensures blocks == WithRaw(old(blocks), pool) && Fresh(old(blocks), Starts(pool))
      ensures ok ==> Staged(old(blocks), Now(), n, at) && off == at[|at| - 1]
    {
      hide Fresh, Descended, In;
      ghost var h, p, rs := blocks, Now(), [];
      ok, off, at, rs := CloneBlock(h, x, n);
      DirectDone(h, p, Now(), n, at, ok, rs);
    }

    /** Stage a clone in bulk: measure, allocate every block at once, build. */
    method StageBulk(x: Off, ghost n: Node) returns (ok: bool, off: Off, ghost at: seq<Off>)
      requires Now() == Plan(blocks, Direct, [], [], 0, 1, [], [])
      requires n.off == x && WellFormedSlot(Child(n)) && SlotIn(blocks, Child(n)) && AllCountable(blocks, n.slots)
      modifies this
      ensures ok ==> Staged(old(blocks), Now(), n, at) && off == at[|at| - 1]
      ensures !ok ==> blocks == old(blocks)
    {
      hide Descended, In, Fits;
      ghost var h, rs := blocks, [];
      mode := Measure;
      ghost var p := Now();
      ok, off, at, rs := CloneBlock(h, x, n);
      Measured(h, p, Now(), n, at, ok, rs);
      ok := AllocMany();
      if !ok { return; }
      cursor, mode := 0, Build;
      p := Now();
      RawAgrees(h, pool, multiset{});
      ok, off, at, rs := CloneBlock(h, x, n);
      BuildSucceeds(h, p, Now(), n, at, ok, rs);
    }

    /** A whole deep clone of the owned block `x`.  Whatever the strategy, it either leaves
        the file exactly as it was or yields the same function of the source tree and of the
        fresh offsets. */
    method RunClone(x: Off, bulk: bool, ghost held: multiset<Edge>)
      returns (ok: bool, off: Off, ghost n: Node, ghost at: seq<Off>)
      requires Accounted(blocks, held + multiset{OwnTo(x)})
      requires Now() == Plan(blocks, Direct, [], [], 0, 1, [], [])
      modifies this
      ensures Handle(n) == OwnTo(x) && SlotIn(old(blocks), Child(n)) && AllCountable(old(blocks), n.slots)
      ensures !ok ==> blocks == old(blocks)
      ensures ok ==>
        && |at| == Count(n.slots) + 1 && Fresh(old(blocks), at) && off == at[|at| - 1]
        && blocks == Cloned(old(blocks), n, at)
        && CountersFit(blocks)
        && Accounted(blocks, held + multiset{OwnTo(x)} + multiset{OwnTo(off)})
      ensures ok ==>
        && SlotIn(blocks, Child(MoveNode(n, at))) && EraseSlot(Child(MoveNode(n, at))) == EraseSlot(Child(n))
        && Starts(pool) == at && forall r <- pool :: r.start in blocks && Tight(blocks[r.start], r.len)
    {
      hide Accounted, In, Fresh, AllCountable, Writes, SlotWrites, Cloned, CountersFit, WithRaw, Starts, ApplyWrites;
      ghost var h, all := blocks, held + multiset{OwnTo(x)};
      ghost var rest;
      n, rest := OwnedNode(h, held, OwnTo(x));
      SourceCountable(h, all, n);
      if bulk {
        ok, off, at := StageBulk(x, n);
        if !ok { return; }
      } else {
        ok, off, at := StageDirect(x, n);
      }
      if ok {
        var full;
        ok, full := Commit();
      }
      if !ok {
        Reclaim();
        UndoRaw(h, pool);
        return;
      }
      Committed(h, all, n, pool, blocks);
      ClonedTight(h, all, n, pool);
    }
  }
}
