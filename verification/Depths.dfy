/** What the depth guard means for owned trees: which of them can be torn down, what a
    teardown that it stops leaves behind, and when that is still a state the accounting law
    allows. */
module Depths {
  import opened Heap
  import opened Cascade
  import opened Tree
  import opened Ownership
  import opened Walks
  import Construct

  /** The guarded levels below a slot: one for each owned block and each strong reference
      on the way, none for vectors and none for the elements of plain vectors. */
  function SlotDepth(s: Slot, direct: bool): nat
    decreases s, 1
  {
    match s
    case Leaf(f) => if f.Strong? && f.off != 0 then 1 else 0
    case Inline(ss) => Depth(ss, false)
    case Child(n) => Inner(Handle(n), Depth(n.slots, n.form.Vector? && !n.form.rows), direct)
  }

  function Depth(ss: seq<Slot>, direct: bool): nat
    decreases ss, 0
  {
    if ss == [] then 0 else
      var first, rest := SlotDepth(ss[0], direct), Depth(ss[1..], direct);
      if first < rest then rest else first
  }

  /** What takes a level: an owned record, unless it is an element of a plain vector, and a
      strong reference. */
  lemma LevelsTaken(n: Node, direct: bool)
    ensures n.form.Record? ==> SlotDepth(Child(n), false) == 1 + Depth(n.slots, false)
    ensures n.form.Record? ==> SlotDepth(Child(n), true) == Depth(n.slots, false)
    ensures n.form.Vector? && !n.form.rows ==> SlotDepth(Child(n), direct) == Depth(n.slots, true)
    ensures n.form.Vector? && n.form.rows ==> SlotDepth(Child(n), direct) == Depth(n.slots, false)
    ensures forall o: Off :: SlotDepth(Leaf(Strong(o)), direct) == if o == 0 then 0 else 1
    ensures forall f: Field :: !f.Strong? ==> SlotDepth(Leaf(f), direct) == 0
    ensures forall ss :: SlotDepth(Inline(ss), direct) == Depth(ss, false)
  {}

  /** The depth of a list of slots is that of its deepest slot. */
  lemma {:induction false} DeepestSlot(ss: seq<Slot>, direct: bool)
    ensures forall s <- ss :: SlotDepth(s, direct) <= Depth(ss, direct)
    ensures ss != [] ==> exists s <- ss :: SlotDepth(s, direct) == Depth(ss, direct)
  {
    hide SlotDepth;
    if ss != [] {
      DeepestSlot(ss[1..], direct);
      assert ss == [ss[0]] + ss[1..] && ss[0] in ss;
      if ss[1..] != [] {
        var s :| s in ss[1..] && SlotDepth(s, direct) == Depth(ss[1..], direct);
        assert s in ss;
      }
    }
  }

  /** The level at which the walk pays an edge, and the levels at which it is stopped. */
  lemma LevelPaid(h: Store, e: Edge, level: nat, direct: bool)
    requires CanRelease(h, e)
    ensures var steps := WalkEdge(h, e, level, direct).steps;
      && steps != []
      && (e.OwnTo? ==> steps[0] == Pay(e, if direct then level else level + 1))
      && (e.StrongTo? ==> steps[0] == Pay(e, level + 1))
      && (e.VecTo? || e.WeakTo? ==> steps[0] == Pay(e, level))
      && (!Fits([steps[0]]) <==> steps[0].level >= 501)
  {
    hide Release, CanRelease, WalkFields;
    var t := Pay(e, Inner(e, level, direct));
    OneStepFits(t);
    ReleaseShrinks(h, e);
    assert WalkEdge(h, e, level, direct).steps[0] == t;
  }

  // ---- A tree while it is walked ----

  /** The slots after the first are still there after it was walked. */
  lemma TailStays(h: Store, held: multiset<Edge>, ss: seq<Slot>, level: nat, direct: bool)
    requires ss != [] && In(h, ss) && WellFormed(ss) && Accounted(h, held + Edges(Fields(ss)))
    ensures var tail := ss[1..];
      var first := WalkField(h, SlotField(ss[0]), level, direct);
      var more := WalkFields(first.rest, Fields(tail), level, direct);
      && WalkFields(h, Fields(ss), level, direct) == Walk(first.steps + more.steps, more.rest)
      && In(first.rest, tail) && WellFormed(tail) && Accounted(first.rest, held + Edges(Fields(tail)))
      && SubStore(more.rest, first.rest)
    ensures SlotIn(h, ss[0]) && WellFormedSlot(ss[0])
    ensures Accounted(h, held + Edges(Fields(ss[1..])) + FieldEdges(SlotField(ss[0])))
  {
    hide Accounted, SubStore, WalkField, FieldEdges, WellFormedSlot, SlotIn;
    Unfold(ss);
    InFirst(h, ss);
    var tail, f := ss[1..], SlotField(ss[0]);
    var theirs := Edges(Fields(tail));
    assert held + Edges(Fields(ss)) == held + theirs + FieldEdges(f);
    var first := WalkField(h, f, level, direct);
    var more := WalkFields(first.rest, Fields(tail), level, direct);
    FieldRuns(h, held + theirs, f, level, direct);
    FieldLeads(h, f, level, direct);
    LeadsSub(h, first.steps, first.rest);
    NullNotLive(h, held + Edges(Fields(ss)));
    assert forall e <- theirs :: e in AllEdges(first.rest) + (held + theirs);
    SlotsStay(first.rest, h, held + theirs, tail);
    FieldsLead(first.rest, Fields(tail), level, direct);
    LeadsSub(first.rest, more.steps, more.rest);
    assert Fields(ss)[0] == f && Fields(ss)[1..] == Fields(tail);
  }

  lemma InFirst(h: Store, ss: seq<Slot>)
    requires ss != [] && In(h, ss)
    ensures SlotIn(h, ss[0]) && In(h, ss[1..])
  {}

  /** Releasing the root of a tree leaves its slots in the store. */
  lemma ContentStays(h: Store, held: multiset<Edge>, n: Node, level: nat, direct: bool)
    requires SlotIn(h, Child(n)) && WellFormedSlot(Child(n)) && Accounted(h, held + multiset{Handle(n)})
    ensures var e := Handle(n);
      var g, inner, vec := h - {n.off}, Inner(e, level, direct), n.form.Vector? && !n.form.rows;
      var w := WalkFields(g, Fields(n.slots), inner, vec);
      && WalkEdge(h, e, level, direct) == Walk([Pay(e, inner)] + w.steps + [Free(n.off)], w.rest)
      && In(g, n.slots) && WellFormed(n.slots) && Accounted(g, held + Edges(Fields(n.slots)))
  {
    hide Accounted, SubStore, WalkFields, FieldEdges;
    var e, fs := Handle(n), Fields(n.slots);
    var g := h - {n.off};
    ReleaseAccounted(h, held, e);
    assert Content(h[n.off]) == fs && Release(h, e) == (g, Edges(fs));
    ReleaseOnlyRemoves(h, e);
    NullNotLive(h, held + multiset{e});
    assert forall f <- Edges(fs) :: f in AllEdges(g) + (held + Edges(fs));
    SlotsStay(g, h, held + Edges(fs), n.slots);
  }

  // ---- Which trees can be torn down ----

  /** Every block a strong reference of the tree leads to survives. */
  ghost predicate Quiet(es: seq<Edge>, rest: Store) {
    forall e <- es :: e.StrongTo? ==> e.off in rest
  }

  lemma QuietSub(es: seq<Edge>, more: seq<Edge>, rest: Store, sup: Store)
    requires Quiet(es + more, rest) && SubStore(rest, sup)
    ensures Quiet(es, sup) && Quiet(more, rest)
  {
    forall e <- es ensures e.StrongTo? ==> e.off in sup { assert e in es + more; }
    forall e <- more ensures e.StrongTo? ==> e.off in rest { assert e in es + more; }
  }

  /** The walk over a tree fits under the guard only if the tree does, and if no strong
      reference in it is the last one to its target, exactly then. */
  lemma {:induction false} SlotsFit(h: Store, held: multiset<Edge>, ss: seq<Slot>, level: nat, direct: bool)
    requires In(h, ss) && WellFormed(ss) && Accounted(h, held + Edges(Fields(ss))) && level <= MAX_TEARDOWN_DEPTH
    ensures var w := WalkFields(h, Fields(ss), level, direct);
      && (Fits(w.steps) ==> level + Depth(ss, direct) <= MAX_TEARDOWN_DEPTH)
      && (Quiet(Shared(ss), w.rest) && level + Depth(ss, direct) <= MAX_TEARDOWN_DEPTH ==> Fits(w.steps))
    decreases ss, 0
  {
    hide Accounted, SlotDepth, WalkField, Fits, SlotShared, SlotField, SlotIn, WellFormedSlot, Quiet, SubStore;
    var w := WalkFields(h, Fields(ss), level, direct);
    if ss == [] {
      assert Fits([]) by { NothingFits(); }
    } else {
      TailStays(h, held, ss, level, direct);
      var tail := ss[1..];
      var first := WalkField(h, SlotField(ss[0]), level, direct);
      var more := WalkFields(first.rest, Fields(tail), level, direct);
      SlotFits(h, held + Edges(Fields(tail)), ss[0], level, direct);
      SlotsFit(first.rest, held, tail, level, direct);
      DoneConcat(first.steps, more.steps);
      if Quiet(Shared(ss), w.rest) { QuietSub(SlotShared(ss[0]), Shared(tail), w.rest, first.rest); }
    }
  }

  lemma NothingFits()
    ensures Fits([])
  {}

  lemma {:induction false} SlotFits(h: Store, held: multiset<Edge>, s: Slot, level: nat, direct: bool)
    requires SlotIn(h, s) && WellFormedSlot(s) && Accounted(h, held + FieldEdges(SlotField(s)))
    requires level <= MAX_TEARDOWN_DEPTH
    ensures var w := WalkField(h, SlotField(s), level, direct);
      && (Fits(w.steps) ==> level + SlotDepth(s, direct) <= MAX_TEARDOWN_DEPTH)
      && (Quiet(SlotShared(s), w.rest) && level + SlotDepth(s, direct) <= MAX_TEARDOWN_DEPTH ==> Fits(w.steps))
    decreases s, 1
  {
    hide Accounted, WalkFields, WalkEdge, Fits, Quiet;
    match s
    case Inline(ss) => SlotsFit(h, held, ss, level, false);
    case Child(n) => NodeFits(h, held, n, level, direct);
    case Leaf(f) =>
      assert Fits([]) by { NothingFits(); }
      if (f.Strong? || f.Weak?) && f.off != 0 {
        var e := if f.Strong? then StrongTo(f.off) else WeakTo(f.off);
        assert FieldEdges(f) == multiset{e} && SlotShared(s) == [e];
        LeafFits(h, held, e, level, direct);
      }
  }

  lemma LeafFits(h: Store, held: multiset<Edge>, e: Edge, level: nat, direct: bool)
    requires Counted(e) && Accounted(h, held + multiset{e}) && level <= MAX_TEARDOWN_DEPTH
    ensures var w, inner := WalkEdge(h, e, level, direct), Inner(e, level, direct);
      && w.steps != [] && w.steps[0] == Pay(e, inner)
      && (Fits(w.steps) ==> inner <= MAX_TEARDOWN_DEPTH)
      && (e.WeakTo? || (Quiet([e], w.rest) && inner <= MAX_TEARDOWN_DEPTH) ==> Fits(w.steps))
  {
    hide Accounted;
    HeldCanRelease(h, held + multiset{e}, e);
    var w := WalkEdge(h, e, level, direct);
    assert w.steps[0] == Pay(e, Inner(e, level, direct)) && w.steps[0] in w.steps;
    if e.WeakTo? {
      assert WalkFields(Release(h, e).0, [], level, false).steps == [];
    } else if Quiet([e], w.rest) {
      assert e in [e];
      if e.off !in Release(h, e).0 { LastLeaves(h, e, level, direct); }
    }
  }

  /** A strong target that is freed is gone for good. */
  lemma LastLeaves(h: Store, e: Edge, level: nat, direct: bool)
    requires CanRelease(h, e) && e.off !in Release(h, e).0
    ensures e.off !in WalkEdge(h, e, level, direct).rest
  {
    hide WalkFields, Release;
    var g, inner := Release(h, e).0, Inner(e, level, direct);
    ReleaseShrinks(h, e);
    var vec := e.VecTo? && h[e.off].VecData? && !h[e.off].rows;
    var w := WalkFields(g, Content(h[e.off]), inner, vec);
    FieldsLead(g, Content(h[e.off]), inner, vec);
    LeadsSub(g, w.steps, w.rest);
    if h[e.off].Data? {
      var c := WeakTo(h[e.off].ctrl);
      EdgeLeads(w.rest, c, inner, false);
      LeadsSub(w.rest, WalkEdge(w.rest, c, inner, false).steps, WalkEdge(w.rest, c, inner, false).rest);
    }
  }

  lemma {:induction false} NodeFits(h: Store, held: multiset<Edge>, n: Node, level: nat, direct: bool)
    requires SlotIn(h, Child(n)) && WellFormedSlot(Child(n)) && Accounted(h, held + multiset{Handle(n)})
    requires level <= MAX_TEARDOWN_DEPTH
    ensures var w := WalkEdge(h, Handle(n), level, direct);
      && (Fits(w.steps) ==> level + SlotDepth(Child(n), direct) <= MAX_TEARDOWN_DEPTH)
      && (Quiet(Shared(n.slots), w.rest) && level + SlotDepth(Child(n), direct) <= MAX_TEARDOWN_DEPTH ==> Fits(w.steps))
    decreases n, 1
  {
    hide Accounted, WalkFields, WalkEdge, Fits, Quiet, In, WellFormed, Depth;
    ContentStays(h, held, n, level, direct);
    var e := Handle(n);
    var inner, vec := Inner(e, level, direct), n.form.Vector? && !n.form.rows;
    var w := WalkFields(h - {n.off}, Fields(n.slots), inner, vec);
    assert Fits([Pay(e, inner)]) <==> inner <= MAX_TEARDOWN_DEPTH by { OneStepFits(Pay(e, inner)); }
    assert Fits([Free(n.off)]) by { OneStepFits(Free(n.off)); }
    DoneConcat([Pay(e, inner)] + w.steps, [Free(n.off)]);
    DoneConcat([Pay(e, inner)], w.steps);
    if inner <= MAX_TEARDOWN_DEPTH {
      SlotsFit(h - {n.off}, held, n.slots, inner, vec);
    }
  }

  lemma OneStepFits(t: Step)
    ensures Fits([t]) <==> !TooDeep(t)
  {
    assert t in [t];
  }

  /** The teardown of an owned tree succeeds only if the tree nests no deeper than the bound,
      and exactly then if every block its strong references lead to survives the teardown;
      in particular if it has no strong references. */
  lemma TeardownFits(h: Store, held: multiset<Edge>, n: Node)
    requires SlotIn(h, Child(n)) && WellFormedSlot(Child(n)) && n.form.Record? && Accounted(h, held + multiset{Handle(n)})
    ensures var w := Teardown(h, n.off);
      && (Fits(w.steps) ==> Depth(n.slots, false) <= 500)
      && (Quiet(Shared(n.slots), w.rest) ==> (Fits(w.steps) <==> Depth(n.slots, false) <= 500))
  {
    hide Accounted, WalkEdge, Quiet, Fits;
    NodeFits(h, held, n, 0, true);
  }

  /** The tree at `x`, which holds no strong reference. */
  predicate PlainTree(h: Store, x: Off, n: Node) {
    && n.off == x && n.form.Record? && SlotIn(h, Child(n)) && WellFormedSlot(Child(n))
    && forall e <- Shared(n.slots) :: !e.StrongTo?
  }

  /** A tree without strong references can be torn down if and only if at most 500 guarded
      levels nest below its root. */
  lemma PlainTreeFits(h: Store, held: multiset<Edge>, x: Off, n: Node)
    requires PlainTree(h, x, n) && Accounted(h, held + multiset{OwnTo(x)})
    ensures Fits(Teardown(h, x).steps) <==> Depth(n.slots, false) <= 500
  {
    hide Accounted, WalkEdge, Fits, Depth, SlotIn, WellFormedSlot;
    assert Handle(n) == OwnTo(x);
    TeardownFits(h, held, n);
  }

  /** A strong target the program holds as well survives. */
  lemma HeldSurvives(h: Store, held: multiset<Edge>, n: Node)
    requires n.form.Record? && Accounted(h, held + multiset{Handle(n)})
    requires forall e <- Shared(n.slots) :: e.StrongTo? ==> e in held
    ensures Quiet(Shared(n.slots), Teardown(h, n.off).rest)
  {
    EdgeRuns(h, held, OwnTo(n.off), 0, true);
    var g := Teardown(h, n.off).rest;
    forall e <- Shared(n.slots) ensures e.StrongTo? ==> e.off in g {
      if e.StrongTo? { HeldCanRelease(g, held, e); }
    }
  }

  // ---- What a refused teardown leaves behind ----

  /** What a walk meets first: nothing of note, a step that changes what the law sees on
      disk, or a step that is refused. */
  datatype Finding = Clear | Changes | Refused

  /** Lowering a count does, and so does freeing a block, unless the frees are logged. */
  predicate Alters(t: Step, logged: bool) { if t.Pay? then Counted(t.edge) else !logged }

  function Verdict(ts: seq<Step>, logged: bool): Finding {
    if ts == [] then Clear else
    if TooDeep(ts[0]) then Refused else
    if Alters(ts[0], logged) then Changes else Verdict(ts[1..], logged)
  }

  /** The same read off the tree, in field order. */
  function SlotFinds(s: Slot, level: nat, direct: bool, logged: bool): Finding
    decreases s, 1
  {
    match s
    case Leaf(f) =>
      if f.Strong? && f.off != 0 then (if level + 1 > MAX_TEARDOWN_DEPTH then Refused else Changes) else
      if f.Weak? && f.off != 0 then Changes else Clear
    case Inline(ss) => Finds(ss, level, false, logged)
    case Child(n) =>
      var inner := Inner(Handle(n), level, direct);
      if inner > MAX_TEARDOWN_DEPTH then Refused else
        match Finds(n.slots, inner, n.form.Vector? && !n.form.rows, logged)
        case Clear => if logged then Clear else Changes
        case f => f
  }

  function Finds(ss: seq<Slot>, level: nat, direct: bool, logged: bool): Finding
    decreases ss, 0
  {
    if ss == [] then Clear else
      match SlotFinds(ss[0], level, direct, logged)
      case Clear => Finds(ss[1..], level, direct, logged)
      case f => f
  }

  lemma {:induction false} VerdictConcat(a: seq<Step>, b: seq<Step>, logged: bool)
    ensures Verdict(a + b, logged) == if Verdict(a, logged).Clear? then Verdict(b, logged) else Verdict(a, logged)
  {
    hide Alters, TooDeep;
    var ab := a + b;
    if a == [] {
      assert ab == b;
    } else {
      assert ab[0] == a[0] && ab[1..] == a[1..] + b;
      VerdictConcat(a[1..], b, logged);
    }
  }

  lemma OneVerdict(t: Step, logged: bool)
    ensures Verdict([t], logged) == if TooDeep(t) then Refused else if Alters(t, logged) then Changes else Clear
  {
    var ts := [t];
    assert ts[1..] == [];
  }

  lemma {:induction false} SlotsVerdict(h: Store, held: multiset<Edge>, ss: seq<Slot>,
                                        level: nat, direct: bool, logged: bool)
    requires In(h, ss) && WellFormed(ss) && Accounted(h, held + Edges(Fields(ss))) && level <= MAX_TEARDOWN_DEPTH
    ensures Verdict(WalkFields(h, Fields(ss), level, direct).steps, logged) == Finds(ss, level, direct, logged)
    decreases ss, 0
  {
    hide Accounted, SlotFinds, WalkField, SlotField, SlotIn, WellFormedSlot, SubStore;
    if ss != [] {
      TailStays(h, held, ss, level, direct);
      var tail := ss[1..];
      var first := WalkField(h, SlotField(ss[0]), level, direct);
      var more := WalkFields(first.rest, Fields(tail), level, direct);
      SlotVerdict(h, held + Edges(Fields(tail)), ss[0], level, direct, logged);
      SlotsVerdict(first.rest, held, tail, level, direct, logged);
      VerdictConcat(first.steps, more.steps, logged);
    }
  }

  lemma {:induction false} SlotVerdict(h: Store, held: multiset<Edge>, s: Slot, level: nat, direct: bool, logged: bool)
    requires SlotIn(h, s) && WellFormedSlot(s) && Accounted(h, held + FieldEdges(SlotField(s)))
    requires level <= MAX_TEARDOWN_DEPTH
    ensures Verdict(WalkField(h, SlotField(s), level, direct).steps, logged) == SlotFinds(s, level, direct, logged)
    decreases s, 1
  {
    hide Accounted, WalkFields, WalkEdge;
    match s
    case Inline(ss) => SlotsVerdict(h, held, ss, level, false, logged);
    case Child(n) => NodeVerdict(h, held, n, level, direct, logged);
    case Leaf(f) =>
      if (f.Strong? || f.Weak?) && f.off != 0 {
        var e := if f.Strong? then StrongTo(f.off) else WeakTo(f.off);
        assert FieldEdges(f) == multiset{e};
        LeafFits(h, held, e, level, direct);
      }
  }

  lemma {:induction false} NodeVerdict(h: Store, held: multiset<Edge>, n: Node, level: nat, direct: bool, logged: bool)
    requires SlotIn(h, Child(n)) && WellFormedSlot(Child(n)) && Accounted(h, held + multiset{Handle(n)})
    requires level <= MAX_TEARDOWN_DEPTH
    ensures Verdict(WalkEdge(h, Handle(n), level, direct).steps, logged) == SlotFinds(Child(n), level, direct, logged)
    decreases n, 1
  {
    hide Accounted, WalkFields, WalkEdge, In, WellFormed, Finds, Verdict;
    ContentStays(h, held, n, level, direct);
    var e := Handle(n);
    var inner, vec := Inner(e, level, direct), n.form.Vector? && !n.form.rows;
    var w := WalkFields(h - {n.off}, Fields(n.slots), inner, vec);
    OneVerdict(Pay(e, inner), logged);
    OneVerdict(Free(n.off), logged);
    VerdictConcat([Pay(e, inner)] + w.steps, [Free(n.off)], logged);
    VerdictConcat([Pay(e, inner)], w.steps, logged);
    if inner <= MAX_TEARDOWN_DEPTH {
      SlotsVerdict(h - {n.off}, held, n.slots, inner, vec, logged);
    }
  }

  /** Nothing is altered before the refused step exactly if that step is met first. */
  lemma {:induction false} RefusedFirst(ts: seq<Step>, logged: bool)
    ensures Verdict(ts, logged).Refused? <==> !Fits(ts) && forall t <- Done(ts) :: !Alters(t, logged)
  {
    if ts != [] && !TooDeep(ts[0]) {
      RefusedFirst(ts[1..], logged);
      FitsFirst(ts);
      assert Done(ts) == [ts[0]] + Done(ts[1..]);
    }
  }

  // ---- What altered steps leave on disk ----

  lemma {:induction false} NothingAltered(b: Store, ts: seq<Step>, logged: bool)
    requires forall t <- ts :: !Alters(t, logged)
    ensures Replay(b, ts, logged) == b
    decreases |ts|
  {
    if ts != [] {
      assert ts[0] in ts && forall t <- ts[1..] :: t in ts;
      NothingAltered(b, ts[1..], logged);
    }
  }

  function CountIn(b: Store, x: Off): nat {
    if x !in b then 0 else match b[x] case Rc(n, _) => n case Ctrl(s, w, _) => s + w case _ => 0
  }

  ghost predicate NoneRaised(b: Store, c: Store) { forall x :: CountIn(c, x) <= CountIn(b, x) }

  lemma EffectLowers(b: Store, t: Step, logged: bool) returns (x: Off)
    ensures NoneRaised(b, Effect(b, t, logged))
    ensures t.Pay? && Counted(t.edge) && CanRelease(b, t.edge) ==> CountIn(Effect(b, t, logged), x) < CountIn(b, x)
  {
    x := 0;
    if t.Pay? && Counted(t.edge) && CanRelease(b, t.edge) {
      x := if t.edge.StrongTo? && b[t.edge.off].Data? then b[t.edge.off].ctrl else t.edge.off;
    }
  }

  /** A lowered count stays lowered. */
  lemma {:induction false} CountsStayLow(h: Store, b: Store, ts: seq<Step>, g: Store, logged: bool) returns (x: Off)
    requires Leads(h, ts, g) && PartOf(h, b)
    ensures NoneRaised(b, Replay(b, ts, logged))
    ensures (exists t <- ts :: t.Pay? && Counted(t.edge)) ==> CountIn(Replay(b, ts, logged), x) < CountIn(b, x)
    decreases |ts|
  {
    hide Effect, Release, Alters;
    if ts == [] {
      x := 0;
    } else {
      var first := ts[0];
      var c := Effect(b, first, logged);
      x := EffectLowers(b, first, logged);
      EffectPart(h, b, first, logged);
      var y := CountsStayLow(if first.Pay? then Release(h, first.edge).0 else h, c, ts[1..], g, logged);
      if !(first.Pay? && Counted(first.edge)) {
        x := y;
      } else {
        assert CanRelease(b, first.edge) by { PartCanRelease(h, b, first.edge); }
      }
      assert NoneRaised(b, Replay(b, ts, logged));
      assert forall t <- ts :: t == first || t in ts[1..];
    }
  }

  lemma PartCanRelease(h: Store, b: Store, e: Edge)
    requires PartOf(h, b) && CanRelease(h, e)
    ensures CanRelease(b, e)
  {}

  // ---- A part of the store nothing outside leads into is not reached ----

  /** No edge leads into `part`. */
  ghost predicate Avoids(es: multiset<Edge>, part: set<Off>) { forall e <- es :: e.off !in part }

  ghost predicate Island(h: Store, part: set<Off>) {
    forall z <- h :: z !in part ==> Avoids(BlockEdges(h[z]), part)
  }

  lemma IslandSub(g: Store, h: Store, part: set<Off>)
    requires SubStore(g, h) && Island(h, part)
    ensures Island(g, part)
  {
    hide BlockEdges, Avoids;
    forall z <- g | z !in part ensures Avoids(BlockEdges(g[z]), part) { SameButCountsEdges(g[z], h[z]); }
  }

  lemma {:induction false} IslandStays(h: Store, debts: multiset<Edge>, ts: seq<Step>, us: seq<Step>, k: Store,
                                       g: Store, part: set<Off>)
    requires Leads(h, ts, g) && Runs(h, debts, Pays(ts + us), k, multiset{})
    requires Island(h, part) && Avoids(debts, part)
    ensures forall y <- part :: y in h ==> y in g
    decreases |ts|
  {
    hide Release, CanRelease, Island, Avoids, BlockEdges;
    if ts != [] {
      var first, rest := ts[0], ts[1..];
      assert (ts + us)[0] == first && (ts + us)[1..] == rest + us;
      if first.Free? {
        assert Pays(ts + us) == [] + Pays(rest + us) == Pays(rest + us);
        IslandStays(h, debts, rest, us, k, g, part);
      } else {
        var e := first.edge;
        assert Pays(ts + us) == [e] + Pays(rest + us) && Pays(ts + us)[1..] == Pays(rest + us);
        var (h1, due) := Release(h, e);
        ReleaseOnlyRemoves(h, e);
        IslandSub(h1, h, part);
        ReleasedOwes(h, e);
        ReleaseKeys(h, e);
        DueAvoids(h, e, debts, part);
        IslandStays(h1, debts - multiset{e} + due, rest, us, k, g, part);
      }
    }
  }

  lemma ReleaseKeys(h: Store, e: Edge)
    requires CanRelease(h, e)
    ensures h.Keys - {e.off} <= Release(h, e).0.Keys && e.off in h
  {}

  lemma DueAvoids(h: Store, e: Edge, debts: multiset<Edge>, part: set<Off>)
    requires CanRelease(h, e) && e in debts && Island(h, part) && Avoids(debts, part)
    ensures e.off !in part && Avoids(debts - multiset{e} + Release(h, e).1, part)
  {
    hide BlockEdges;
    ReleasedOwes(h, e);
  }

  /** What is missing from an accounted part of the store is an island. */
  lemma MissingIsIsland(b: Store, h: Store, all: multiset<Edge>, d: multiset<Edge>)
    requires Accounted(b, all + d) && SubStore(b, h)
    ensures Island(h, h.Keys - b.Keys) && Avoids(d, h.Keys - b.Keys)
  {
    hide BlockEdges, BlockOk;
    var part := h.Keys - b.Keys;
    forall z <- h | z !in part ensures Avoids(BlockEdges(h[z]), part) {
      SameButCountsEdges(b[z], h[z]);
      AllEdgesSplit(b, z);
      assert forall e <- BlockEdges(b[z]) :: e in AllEdges(b) + (all + d);
    }
    assert forall e <- d :: e in AllEdges(b) + (all + d);
  }

  // ---- The theorem ----

  /** If some step altered the disk, the law no longer holds for the same handles. */
  lemma AlteredBreaks(h: Store, held: multiset<Edge>, x: Off, logged: bool)
    requires Accounted(h, held + multiset{OwnTo(x)})
    requires exists t <- Done(Teardown(h, x).steps) :: Alters(t, logged)
    ensures !Accounted(Replay(h, Done(Teardown(h, x).steps), logged), held + multiset{OwnTo(x)})
  {
    hide Accounted, WalkEdge, Runs, Replay, Leads, SubStore;
    var w, e := Teardown(h, x), OwnTo(x);
    var ts := Done(w.steps);
    var b := Replay(h, ts, logged);
    EdgeLeads(h, e, 0, true);
    var mid := DoneLeads(h, w.steps, w.rest);
    var z := CountsStayLow(h, h, ts, mid, logged);
    ReplayShape(h, ts, logged);
    if Accounted(b, held + multiset{e}) {
      if b.Keys == h.Keys {
        CountsDetermined(b, h, held + multiset{e});
        assert forall t <- ts :: !(t.Pay? && Counted(t.edge));
        var t :| t in ts && Alters(t, logged);
        FreedIsGone(h, held, x, t.off, logged);
      } else {
        MissingIsIsland(b, h, held, multiset{e});
        EdgeRuns(h, held, e, 0, true);
        var more := DoneIsPrefix(w.steps);
        IslandStays(h, multiset{e}, ts, more, w.rest, mid, h.Keys - b.Keys);
        var y :| y in h.Keys - b.Keys;
        assert y in Range(Frees(ts));
        FreedNotLive(h, ts, mid, y);
      }
    }
  }

  lemma {:induction false} FreedNotLive(h: Store, ts: seq<Step>, g: Store, y: Off)
    requires Leads(h, ts, g) && y in Frees(ts)
    ensures y !in g
    decreases |ts|
  {
    hide Release, CanRelease;
    if ts != [] {
      if ts[0] == Free(y) {
        LeadsSub(h, ts[1..], g);
      } else {
        FreedNotLive(if ts[0].Pay? then Release(h, ts[0].edge).0 else h, ts[1..], g, y);
      }
    }
  }

  /** Every free of an unlogged teardown removes a block that was there. */
  lemma FreedIsGone(h: Store, held: multiset<Edge>, x: Off, y: Off, logged: bool)
    requires Free(y) in Done(Teardown(h, x).steps)
    ensures y in h && (!logged ==> y !in Replay(h, Done(Teardown(h, x).steps), logged))
  {
    hide WalkEdge, Replay;
    var w := Teardown(h, x);
    var ts := Done(w.steps);
    EdgeFrees(h, OwnTo(x), 0, true);
    var more := DoneIsPrefix(w.steps);
    PaysConcat(ts, more);
    FreeListed(ts, y);
    assert y in Frees(w.steps);
    ReplayShape(h, ts, logged);
    assert y in Range(Frees(ts)) && y in Range(Frees(w.steps));
  }

  lemma {:induction false} FreeListed(ts: seq<Step>, y: Off)
    requires Free(y) in ts
    ensures y in Frees(ts)
  {
    if ts[0] != Free(y) {
      assert Free(y) in ts[1..];
      FreeListed(ts[1..], y);
    }
  }

  /** A teardown that the guard refuses leaves a state the law allows for the same handles
      if and only if, in field order, the walk over the tree meets the refused level before
      any shared reference and, without a log, before it has finished any block. */
  lemma RefusalKeepsLaw(h: Store, held: multiset<Edge>, n: Node, logged: bool)
    requires SlotIn(h, Child(n)) && WellFormedSlot(Child(n)) && n.form.Record? && Accounted(h, held + multiset{Handle(n)})
    ensures var w := Teardown(h, n.off);
      var b := Replay(h, Done(w.steps), logged);
      SlotFinds(Child(n), 0, true, logged).Refused? <==> !Fits(w.steps) && Accounted(b, held + multiset{Handle(n)})
  {
    hide Accounted, WalkEdge, Replay, Fits, Alters, SlotFinds;
    var w := Teardown(h, n.off);
    NodeVerdict(h, held, n, 0, true, logged);
    RefusedFirst(w.steps, logged);
    if forall t <- Done(w.steps) :: !Alters(t, logged) {
      NothingAltered(h, Done(w.steps), logged);
    } else {
      AlteredBreaks(h, held, n.off, logged);
    }
  }

  // ---- Inputs on both sides of these conditions ----

  /** `n + 1` records, each owned by the one before. */
  function Link(first: Off, n: nat): Node
    decreases n
  {
    Node(first, Record, if n == 0 then [] else [Child(Link(first + 1, n - 1))])
  }

  predicate Descends(offs: seq<Off>, lo: Off) {
    (forall o <- offs :: lo <= o) && forall i, j :: 0 <= i < j < |offs| ==> offs[j] < offs[i]
  }

  lemma DescendsMore(offs: seq<Off>, lo: Off, o: Off)
    requires Descends(offs, lo) && o < lo
    ensures Descends(offs + [o], o)
  {
    var all := offs + [o];
    forall i, j | 0 <= i < j < |all| ensures all[j] < all[i] { assert all[i] == offs[i] && all[i] in offs; }
  }

  lemma DescendsFresh(h: Store, offs: seq<Off>, lo: Off)
    requires Descends(offs, lo) && lo > 0 && forall o <- offs :: o !in h
    ensures Fresh(h, offs)
  {
    forall i | 0 <= i < |offs| ensures offs[i] != 0 && offs[i] !in h { assert offs[i] in offs; }
  }

  lemma OneSlot(s: Slot)
    ensures WellFormed([s]) == WellFormedSlot(s) && Offs([s]) == SlotOffs(s) && Shared([s]) == SlotShared(s)
    ensures forall direct :: Depth([s], direct) == SlotDepth(s, direct)
    ensures forall level, direct, logged :: Finds([s], level, direct, logged) == SlotFinds(s, level, direct, logged)
  {
    var ss := [s];
    assert ss[1..] == [];
  }

  lemma {:induction false} LinkShape(first: Off, n: nat)
    requires first > 0
    ensures var s := Child(Link(first, n));
      WellFormedSlot(s) && SlotShared(s) == [] && SlotDepth(s, false) == n + 1 && Descends(SlotOffs(s), first)
    decreases n
  {
    if n > 0 {
      var next := Child(Link(first + 1, n - 1));
      LinkShape(first + 1, n - 1);
      OneSlot(next);
      DescendsMore(SlotOffs(next), first + 1, first);
    }
  }

  lemma {:induction false} LinkFinds(first: Off, n: nat, level: nat, logged: bool)
    requires level <= MAX_TEARDOWN_DEPTH < level + n + 1
    ensures SlotFinds(Child(Link(first, n)), level, false, logged) == Refused
    decreases n
  {
    if level + 1 <= MAX_TEARDOWN_DEPTH {
      LinkFinds(first + 1, n - 1, level + 1, logged);
      OneSlot(Child(Link(first + 1, n - 1)));
    }
  }

  /** A root with a strong reference and a chain of records just too long. */
  function TooLong(strongFirst: bool, n: nat): Node {
    var strong, chain := Leaf(Strong(2)), Child(Link(3, n));
    Node(1, Record, if strongFirst then [strong] + [chain] else [chain] + [strong])
  }

  lemma TwoSlots(s: Slot, t: Slot, level: nat, logged: bool)
    ensures WellFormed([s] + [t]) == (WellFormedSlot(s) && WellFormedSlot(t))
    ensures Offs([s] + [t]) == SlotOffs(s) + SlotOffs(t) && Shared([s] + [t]) == SlotShared(s) + SlotShared(t)
    ensures SlotDepth(s, false) <= Depth([s] + [t], false) && SlotDepth(t, false) <= Depth([s] + [t], false)
    ensures SlotFinds(s, level, false, logged) != Clear ==>
      Finds([s] + [t], level, false, logged) == SlotFinds(s, level, false, logged)
  {
    var ss := [s] + [t];
    assert ss[0] == s && ss[1..] == [t];
    OneSlot(t);
  }

  lemma TooLongShape(strongFirst: bool, n: nat, logged: bool)
    requires n == 500
    ensures var r := TooLong(strongFirst, n);
      && WellFormedSlot(Child(r)) && Shared(r.slots) == [StrongTo(2)] && Depth(r.slots, false) > 500
      && Fresh(map[2 := Rc(1, [])], SlotOffs(Child(r)))
      && SlotFinds(Child(r), 0, true, logged) == if strongFirst then Changes else Refused
  {
    hide Link, Offs, Depth, Finds, WellFormed, WellFormedSlot, Shared, SlotOffs, SlotDepth, SlotFinds, Descends, Fresh;
    var strong, chain := Leaf(Strong(2)), Child(Link(3, n));
    LinkShape(3, n);
    LinkFinds(3, n, 0, logged);
    StrongShape(strong, logged);
    TwoSlots(strong, chain, 0, logged);
    TwoSlots(chain, strong, 0, logged);
    var r, none: seq<Off> := TooLong(strongFirst, n), [];
    assert none + SlotOffs(chain) == SlotOffs(chain) == SlotOffs(chain) + none;
    assert [] + SlotShared(strong) == SlotShared(strong) == SlotShared(strong) + [];
    RootShape(r, 0, logged);
    DescendsMore(SlotOffs(chain), 3, 1);
    SkipsTwo(SlotOffs(chain));
    DescendsFresh(map[2 := Rc(1, [])], SlotOffs(chain) + [1], 1);
  }

  lemma StrongShape(s: Slot, logged: bool)
    requires s == Leaf(Strong(2))
    ensures WellFormedSlot(s) && SlotOffs(s) == [] && SlotShared(s) == [StrongTo(2)]
    ensures SlotFinds(s, 0, false, logged) == Changes
  {}

  lemma RootShape(r: Node, level: nat, logged: bool)
    requires r.form == Record && r.off == 1 && level <= MAX_TEARDOWN_DEPTH
    ensures WellFormedSlot(Child(r)) == WellFormed(r.slots) && SlotOffs(Child(r)) == Offs(r.slots) + [1]
    ensures Finds(r.slots, level, false, logged) != Clear ==>
      SlotFinds(Child(r), level, true, logged) == Finds(r.slots, level, false, logged)
  {}

  lemma SkipsTwo(offs: seq<Off>)
    requires Descends(offs, 3)
    ensures forall o <- offs + [1] :: o !in map[2 := Rc(1, [])]
  {}

  /** The blocks from `first` to `last` are records, each owning the next, the last one
      empty. */
  predicate ChainIn(h: Store, first: Off, last: Off) {
    && first <= last
    && (forall x | first <= x < last :: x in h && h[x] == Plain([Own(x + 1)]))
    && last in h && h[last] == Plain([])
  }

  ghost predicate Spans(xs: set<Off>, lo: Off, hi: Off) { forall o :: o in xs <==> lo <= o <= hi }

  lemma {:induction false} LinkIsChain(h: Store, first: Off, n: nat)
    requires SlotIn(h, Child(Link(first, n)))
    ensures ChainIn(h, first, first + n)
    ensures Spans(Range(SlotOffs(Child(Link(first, n)))), first, first + n)
    decreases n
  {
    if n > 0 {
      var next := Link(first + 1, n - 1);
      var ss := [Child(next)];
      assert In(h, ss) && SlotIn(h, ss[0]);
      LinkIsChain(h, first + 1, n - 1);
      OneSlot(Child(next));
      assert ss[1..] == [] && Fields(ss) == [Own(first + 1)];
      var inner := SlotOffs(Child(next));
      assert SlotOffs(Child(Link(first, n))) == inner + [first];
      RangeLast(inner, first);
    } else {
      RangeLast([], first);
    }
  }

  lemma RangeLast(offs: seq<Off>, o: Off)
    ensures Range(offs + [o]) == Range(offs) + {o}
  {
    forall x ensures x in offs + [o] <==> x in offs || x == o {}
  }

  /** A root over a chain of `n` owned records can be torn down exactly up to 500 of them. */
  lemma ChainFits(n: nat) returns (h: Store)
    ensures ChainIn(h, 1, n + 1) && |h| == n + 1 && Accounted(h, multiset{OwnTo(1)})
    ensures Fits(Teardown(h, 1).steps) <==> n <= 500
  {
    hide *;
    var first: Off := 1;
    h := ChainStore(first, n);
    assert multiset{} + multiset{OwnTo(first)} == multiset{OwnTo(first)};
    PlainTreeFits(h, multiset{}, first, Link(first, n));
    LinkShape(first, n);
    LinkRoot(first, n);
  }

  lemma ChainStore(first: Off, n: nat) returns (h: Store)
    requires first == 1
    ensures ChainIn(h, first, first + n) && |h| == n + 1 && Accounted(h, multiset{OwnTo(first)})
    ensures PlainTree(h, first, Link(first, n))
  {
    hide Accounted, Depth, GraftSlot, Link, SlotIn, WellFormedSlot, Fresh, ChainIn, SlotOffs, Descends, Spans, BlockEdges, Edges;
    var none: Store, r := map[], Link(first, n);
    LinkShape(first, n);
    LinkRoot(first, n);
    Construct.NoneHeld(none);
    assert multiset{} + multiset(SlotShared(Child(r))) == multiset{};
    DescendsFresh(none, SlotOffs(Child(r)), first);
    GraftSlotAccounted(none, multiset{}, Child(r));
    GraftSlotIn(none, Child(r));
    h := GraftSlot(none, Child(r));
    LinkIsChain(h, first, n);
    assert h.Keys == Range(SlotOffs(Child(r)));
    IntervalSize(h.Keys, first, first + n);
    SlotEdges(Child(r));
    assert multiset{} + FieldEdges(SlotField(Child(r))) == multiset{} + multiset{OwnTo(first)} == multiset{OwnTo(first)};
  }

  lemma LinkRoot(first: Off, n: nat)
    ensures var r := Link(first, n);
      && r.off == first && r.form == Record && SlotDepth(Child(r), false) == 1 + Depth(r.slots, false)
      && SlotShared(Child(r)) == Shared(r.slots)
      && (first > 0 ==> Handle(r) == OwnTo(first))
  {}

  lemma {:induction false} IntervalSize(xs: set<Off>, lo: Off, hi: Off)
    requires lo <= hi && Spans(xs, lo, hi)
    ensures |xs| == hi - lo + 1
    decreases hi
  {
    var rest := xs - {hi};
    if lo == hi { assert rest == {}; } else { IntervalSize(rest, lo, hi - 1); }
    assert xs == rest + {hi};
  }

  /** A root with a strong reference and a chain of 501 records cannot be torn down; whether
      the attempt leaves a state the law allows is decided by which of the two fields comes
      first. */
  lemma FieldOrderDecides(strongFirst: bool, logged: bool) returns (h: Store)
    ensures Spans(h.Keys, 1, 503)
    ensures h[1] == Plain(if strongFirst then [Strong(2), Own(3)] else [Own(3), Strong(2)])
    ensures h[2] == Rc(1, []) && ChainIn(h, 3, 503)
    ensures Accounted(h, multiset{OwnTo(1)}) && !Fits(Teardown(h, 1).steps)
    ensures Accounted(Replay(h, Done(Teardown(h, 1).steps), logged), multiset{OwnTo(1)}) <==> !strongFirst
  {
    hide *;
    var n: nat, r, none := 500, TooLong(strongFirst, 500), multiset{};
    TooLongShape(strongFirst, n, logged);
    TooLongRoot(strongFirst, n);
    h := TooLongStore(strongFirst, n);
    assert none + multiset{OwnTo(1)} == multiset{OwnTo(1)};
    TeardownFits(h, none, r);
    RefusalKeepsLaw(h, none, r, logged);
    TooLongInStore(h, strongFirst, n);
  }

  lemma TooLongStore(strongFirst: bool, n: nat) returns (h: Store)
    requires n == 500
    ensures SlotIn(h, Child(TooLong(strongFirst, n))) && Accounted(h, multiset{OwnTo(1)})
    ensures Spans(h.Keys, 1, 503) && h[2] == Rc(1, [])
  {
    hide Accounted, Depth, SlotFinds, GraftSlot, TooLong, Fresh, SlotIn, SlotOffs, Link;
    var none: Store := map[];
    var r, base := TooLong(strongFirst, n), none[2 := Rc(1, [])];
    TooLongShape(strongFirst, n, true);
    Construct.NoneHeld(none);
    assert multiset{} + Edges([]) == multiset{};
    Construct.AllocRcAccounted(none, multiset{}, 2, []);
    assert base == map[2 := Rc(1, [])];
    assert multiset{} + multiset(SlotShared(Child(r))) == multiset{} + multiset{StrongTo(2)};
    GraftSlotAccounted(base, multiset{}, Child(r));
    GraftSlotIn(base, Child(r));
    h := GraftSlot(base, Child(r));
    assert Handle(r) == OwnTo(1) by { TooLongRoot(strongFirst, n); }
    SlotEdges(Child(r));
    assert multiset{} + FieldEdges(SlotField(Child(r))) == multiset{} + multiset{OwnTo(1)} == multiset{OwnTo(1)};
    TooLongInStore(h, strongFirst, n);
    TooLongOffs(h, strongFirst, n);
  }

  lemma TooLongInStore(h: Store, strongFirst: bool, n: nat)
    requires SlotIn(h, Child(TooLong(strongFirst, n)))
    ensures 1 in h && h[1] == Plain(if strongFirst then [Strong(2), Own(3)] else [Own(3), Strong(2)])
    ensures ChainIn(h, 3, 3 + n) && SlotIn(h, Child(Link(3, n)))
  {
    hide Link, Fields, In, ChainIn;
    var strong, chain := Leaf(Strong(2)), Child(Link(3, n));
    LinkRoot(3, n);
    if strongFirst { InBoth(h, strong, chain); } else { InBoth(h, chain, strong); }
    LinkIsChain(h, 3, n);
  }

  lemma TooLongOffs(h: Store, strongFirst: bool, n: nat)
    requires SlotIn(h, Child(Link(3, n)))
    ensures forall o :: o in Range(SlotOffs(Child(TooLong(strongFirst, n)))) <==> o == 1 || 3 <= o <= 3 + n
  {
    hide Link, Range, SlotIn;
    var strong, chain := Leaf(Strong(2)), Child(Link(3, n));
    LinkIsChain(h, 3, n);
    TwoSlots(strong, chain, 0, false);
    TwoSlots(chain, strong, 0, false);
    assert SlotOffs(strong) == [] && [] + SlotOffs(chain) == SlotOffs(chain) == SlotOffs(chain) + [];
    assert SlotOffs(Child(TooLong(strongFirst, n))) == SlotOffs(chain) + [1];
    RangeLast(SlotOffs(chain), 1);
  }

  lemma InBoth(h: Store, s: Slot, t: Slot)
    requires In(h, [s] + [t])
    ensures SlotIn(h, s) && SlotIn(h, t) && Fields([s] + [t]) == [SlotField(s), SlotField(t)]
  {
    var ss := [s] + [t];
    var last := [t];
    assert ss[0] == s && ss[1..] == last && last[0] == t && last[1..] == [];
  }

  lemma TooLongRoot(strongFirst: bool, n: nat)
    ensures var r := TooLong(strongFirst, n); r.off == 1 && r.form == Record && Handle(r) == OwnTo(1)
  {}

  /** Records owned through plain vectors: `2 * n + 1` nested blocks. */
  function VecLink(first: Off, n: nat): Node
    decreases n
  {
    Node(first, Record, if n == 0 then [] else [Child(VecOfOne(first + 1, VecLink(first + 2, n - 1)))])
  }

  function VecOfOne(off: Off, elem: Node): Node { Node(off, Vector(8, false), [Child(elem)]) }

  lemma {:induction false} VecLinkShape(first: Off, n: nat)
    requires first > 0
    ensures var s := Child(VecLink(first, n));
      && WellFormedSlot(s) && SlotShared(s) == [] && SlotDepth(s, true) == 0
      && Descends(SlotOffs(s), first) && |SlotOffs(s)| == 2 * n + 1
    decreases n
  {
    if n > 0 {
      var inner := VecLink(first + 2, n - 1);
      VecLinkShape(first + 2, n - 1);
      OneSlot(Child(inner));
      OneSlot(Child(VecOfOne(first + 1, inner)));
      var offs := SlotOffs(Child(inner));
      DescendsMore(offs, first + 2, first + 1);
      DescendsMore(offs + [first + 1], first + 1, first);
    }
  }

  /** The guard does not bound nesting through plain owned vectors: a tree of any number of
      nested blocks passes it. */
  lemma VectorsUnbounded(n: nat) returns (h: Store, x: Off)
    ensures Accounted(h, multiset{OwnTo(x)}) && |h| == 2 * n + 1 && Fits(Teardown(h, x).steps)
    ensures Teardown(h, x).rest == map[]
  {
    hide Accounted, WalkEdge, Fits, Depth, GraftSlot, VecLink, Runs;
    var none: Store, r := map[], VecLink(1, n);
    x := 1;
    VecLinkShape(1, n);
    assert r.off == 1 && r.form == Record by { VecLinkRoot(n); }
    Construct.NoneHeld(none);
    assert multiset{} + multiset(SlotShared(Child(r))) == multiset{};
    DescendsFresh(none, SlotOffs(Child(r)), 1);
    GraftSlotAccounted(none, multiset{}, Child(r));
    GraftSlotIn(none, Child(r));
    h := GraftSlot(none, Child(r));
    assert h.Keys == Range(SlotOffs(Child(r)));
    DistinctSize(SlotOffs(Child(r)));
    SlotEdges(Child(r));
    assert multiset{} + FieldEdges(SlotField(Child(r))) == multiset{} + multiset{OwnTo(1)} == multiset{OwnTo(1)};
    TeardownFits(h, multiset{}, r);
    EdgeRuns(h, multiset{}, OwnTo(1), 0, true);
    OwnedTreeFreed(h, multiset{}, r, Pays(Teardown(h, 1).steps), Teardown(h, 1).rest);
    RunsAccounted(h, multiset{}, multiset{OwnTo(1)}, Pays(Teardown(h, 1).steps), Teardown(h, 1).rest, multiset{});
    NothingLeft(h, Teardown(h, 1).rest, SlotOffs(Child(r)));
  }

  lemma NothingLeft(h: Store, g: Store, offs: seq<Off>)
    requires SubStore(g, h) && h.Keys == Range(offs) && forall o <- offs :: o !in g
    ensures g == map[]
  {}

  lemma VecLinkRoot(n: nat)
    ensures VecLink(1, n).off == 1 && VecLink(1, n).form == Record
  {}

  lemma RangeFirst(o: Off, rest: seq<Off>)
    requires o !in rest
    ensures Range([o] + rest) == {o} + Range(rest) && |Range([o] + rest)| == 1 + |Range(rest)|
  {
    assert Range([o] + rest) == {o} + Range(rest) && o !in Range(rest);
  }

  lemma {:induction false} DistinctSize(offs: seq<Off>)
    requires forall i, j :: 0 <= i < j < |offs| ==> offs[j] < offs[i]
    ensures |Range(offs)| == |offs|
  {
    if offs != [] {
      var rest := offs[1..];
      DistinctSize(rest);
      assert offs[0] !in rest;
      assert offs == [offs[0]] + rest;
      RangeFirst(offs[0], rest);
    }
  }
}
