/** What a teardown does, step by step: the depth-first walk over the owned, strong and weak
    edges of a block as if nesting had no bound, the part of it that a bounded walk gets
    through, and the effect of either on the disk. */
module Walks {
  import opened Heap
  import opened Cascade
  import opened Laws

  /** Bound on the nesting of guarded drops. */
  const MAX_TEARDOWN_DEPTH: nat := 500

  /** Beginning to pay an edge with `level` guards held, or freeing a block. */
  datatype Step = Pay(edge: Edge, level: nat) | Free(off: Off)

  /** The steps of a walk, and what the accounting law still sees after it. */
  datatype Walk = Walk(steps: seq<Step>, rest: Store)

  function AsField(e: Edge): Field {
    match e
    case OwnTo(x) => Own(x)
    case VecTo(x) => VecOf(x)
    case StrongTo(x) => Strong(x)
    case WeakTo(x) => Weak(x)
  }

  /** What the teardown of a block walks over. */
  function Content(b: Block): seq<Field> {
    match b
    case Plain(fs) => fs
    case Rc(_, fs) => fs
    case Data(_, fs) => fs
    case VecData(_, _, es) => es
    case Ctrl(_, _, _) => []
    case Raw(_) => []
  }

  /** The guards held while an edge is paid: owned and strong references take one more; a
      vector's storage, a weak reference and an element of a plain vector do not. */
  function Inner(e: Edge, level: nat, direct: bool): nat {
    if (e.OwnTo? && !direct) || e.StrongTo? then level + 1 else level
  }

  lemma ReleaseShrinks(h: Store, e: Edge)
    requires CanRelease(h, e)
    ensures |Release(h, e).0| <= |h|
    ensures e.off !in Release(h, e).0 ==> |Release(h, e).0| < |h|
  {
    hide BlockEdges, Edges;
    var g := Release(h, e).0;
    assert g.Keys == if e.off in g then h.Keys else h.Keys - {e.off};
    assert |h.Keys - {e.off}| == |h.Keys| - 1;
  }

  /** `direct` marks the elements of a plain owned vector. */
  function WalkFields(h: Store, fs: seq<Field>, level: nat, direct: bool): (w: Walk)
    ensures |w.rest| <= |h|
    decreases |h|, fs, 1
  {
    if fs == [] then Walk([], h) else
      var first := WalkField(h, fs[0], level, direct);
      var more := WalkFields(first.rest, fs[1..], level, direct);
      Walk(first.steps + more.steps, more.rest)
  }

  function WalkField(h: Store, f: Field, level: nat, direct: bool): (w: Walk)
    ensures |w.rest| <= |h|
    decreases |h|, f, 2
  {
    match f
    case Embed(inner) => WalkFields(h, inner, level, false)
    case Own(x) => if x == 0 then Walk([], h) else WalkEdge(h, OwnTo(x), level, direct)
    case VecOf(x) => if x == 0 then Walk([], h) else WalkEdge(h, VecTo(x), level, direct)
    case Strong(x) => if x == 0 then Walk([], h) else WalkEdge(h, StrongTo(x), level, direct)
    case Weak(x) => if x == 0 then Walk([], h) else WalkEdge(h, WeakTo(x), level, direct)
    case Pod(_) => Walk([], h)
    case Ref(_) => Walk([], h)
  }

  function WalkEdge(h: Store, e: Edge, level: nat, direct: bool): (w: Walk)
    ensures |w.rest| <= |h|
    decreases |h|, AsField(e), 0
  {
    if !CanRelease(h, e) then Walk([], h) else
      ReleaseShrinks(h, e);
      var g, inner := Release(h, e).0, Inner(e, level, direct);
      if e.off in g then Walk([Pay(e, inner)], g) else
        var w := WalkFields(g, Content(h[e.off]), inner, e.VecTo? && !h[e.off].rows);
        var block := [Pay(e, inner)] + w.steps + [Free(e.off)];
        if !h[e.off].Data? then Walk(block, w.rest) else
          var phantom := WalkEdge(w.rest, WeakTo(h[e.off].ctrl), inner, false);
          Walk(block + phantom.steps, phantom.rest)
  }

  /** The teardown of an owned handle: its block is not itself a guarded level. */
  function Teardown(h: Store, x: Off): Walk {
    var level: nat, direct := 0, true;
    WalkEdge(h, OwnTo(x), level, direct)
  }

  /** The drop of a shared handle. */
  function HandleDrop(h: Store, e: Edge): Walk {
    var level: nat, direct := 0, false;
    WalkEdge(h, e, level, direct)
  }

  // ---- The walk is a schedule of releases ----

  function PayOf(t: Step): seq<Edge> { if t.Pay? then [t.edge] else [] }

  function FreeOf(t: Step): seq<Off> { if t.Free? then [t.off] else [] }

  function Pays(ts: seq<Step>): seq<Edge> {
    if ts == [] then [] else PayOf(ts[0]) + Pays(ts[1..])
  }

  function Frees(ts: seq<Step>): seq<Off> {
    if ts == [] then [] else FreeOf(ts[0]) + Frees(ts[1..])
  }

  lemma {:induction false} PaysConcat(a: seq<Step>, b: seq<Step>)
    ensures Pays(a + b) == Pays(a) + Pays(b) && Frees(a + b) == Frees(a) + Frees(b)
  {
    hide PayOf, FreeOf;
    var ab := a + b;
    if a == [] {
      assert ab == b;
    } else {
      assert ab[0] == a[0] && ab[1..] == a[1..] + b;
      PaysConcat(a[1..], b);
      ConcatAssociates(PayOf(a[0]), Pays(a[1..]), Pays(b));
      ConcatAssociates(FreeOf(a[0]), Frees(a[1..]), Frees(b));
    }
  }

  lemma BlockPays(ts: seq<Step>, x: Off)
    ensures Pays(ts + [Free(x)]) == Pays(ts)
  {
    PaysConcat(ts, [Free(x)]);
    OneFree(x);
  }

  lemma OnePay(e: Edge, level: nat)
    ensures Pays([Pay(e, level)]) == [e] && Frees([Pay(e, level)]) == []
  {
    var ts := [Pay(e, level)];
    assert ts[1..] == [];
  }

  lemma OneFree(x: Off)
    ensures Pays([Free(x)]) == [] && Frees([Free(x)]) == [x]
  {
    var ts := [Free(x)];
    assert ts[1..] == [];
  }

  lemma ContentEdges(b: Block)
    ensures BlockEdges(b) == Edges(Content(b)) + if b.Data? then multiset{WeakTo(b.ctrl)} else multiset{}
  {
    assert Edges([]) == multiset{};
  }

  /** A released shared block owes its content, and an `(rc, weak)` block its phantom. */
  lemma ReleasedOwes(h: Store, e: Edge)
    requires CanRelease(h, e)
    ensures Release(h, e).1 == if e.off in Release(h, e).0 then multiset{} else BlockEdges(h[e.off])
  {
    ContentEdges(h[e.off]);
  }

  /** The walk over held fields pays every edge, each to its end. */
  lemma {:induction false} FieldsRun(h: Store, held: multiset<Edge>, fs: seq<Field>, level: nat, direct: bool)
    requires Accounted(h, held + Edges(fs))
    ensures var w := WalkFields(h, fs, level, direct);
      Runs(h, Edges(fs), Pays(w.steps), w.rest, multiset{}) && Accounted(w.rest, held)
    decreases |h|, fs, 1
  {
    hide Accounted, FieldEdges, Runs;
    if fs == [] {
      assert Runs(h, Edges(fs), [], h, multiset{}) by { RunsNothing(h, Edges(fs)); }
      assert held + Edges(fs) == held;
    } else {
      var more := Edges(fs[1..]);
      assert held + Edges(fs) == (held + more) + FieldEdges(fs[0]);
      FieldRuns(h, held + more, fs[0], level, direct);
      var first := WalkField(h, fs[0], level, direct);
      FieldsRun(first.rest, held, fs[1..], level, direct);
      var rest := WalkFields(first.rest, fs[1..], level, direct);
      RunsSequence(h, FieldEdges(fs[0]), Pays(first.steps), first.rest, more, Pays(rest.steps), rest.rest);
      PaysConcat(first.steps, rest.steps);
    }
  }

  lemma RunsNothing(h: Store, debts: multiset<Edge>)
    requires debts == multiset{}
    ensures Runs(h, debts, [], h, multiset{})
  {}

  lemma {:induction false} FieldRuns(h: Store, held: multiset<Edge>, f: Field, level: nat, direct: bool)
    requires Accounted(h, held + FieldEdges(f))
    ensures var w := WalkField(h, f, level, direct);
      Runs(h, FieldEdges(f), Pays(w.steps), w.rest, multiset{}) && Accounted(w.rest, held)
    decreases |h|, f, 2
  {
    hide Accounted, Runs, WalkFields, WalkEdge;
    if FieldEdges(f) == multiset{} {
      RunsNothing(h, FieldEdges(f));
      assert held + FieldEdges(f) == held;
    }
    match f
    case Embed(inner) => FieldsRun(h, held, inner, level, false);
    case Own(x) => if x != 0 { EdgeRuns(h, held, OwnTo(x), level, direct); }
    case VecOf(x) => if x != 0 { EdgeRuns(h, held, VecTo(x), level, direct); }
    case Strong(x) => if x != 0 { EdgeRuns(h, held, StrongTo(x), level, direct); }
    case Weak(x) => if x != 0 { EdgeRuns(h, held, WeakTo(x), level, direct); }
    case Pod(_) =>
    case Ref(_) =>
  }

  lemma {:induction false} EdgeRuns(h: Store, held: multiset<Edge>, e: Edge, level: nat, direct: bool)
    requires Accounted(h, held + multiset{e})
    ensures var w := WalkEdge(h, e, level, direct);
      Runs(h, multiset{e}, Pays(w.steps), w.rest, multiset{}) && Accounted(w.rest, held)
    decreases |h|, AsField(e), 0
  {
    hide Accounted, Runs, Release, CanRelease, WalkFields, BlockEdges, Edges, Pays;
    ReleaseAccounted(h, held, e);
    ReleaseShrinks(h, e);
    ReleasedOwes(h, e);
    var (g, due) := Release(h, e);
    var inner := Inner(e, level, direct);
    if e.off in g {
      RunsNothing(g, due);
      var none: seq<Step> := [];
      assert Pays(none) == [] by { NoPays(none); }
      PaysFirst(h, e, g, due, inner, none, g);
      assert held + multiset{} == held;
      assert [Pay(e, inner)] + none == [Pay(e, inner)];
    } else {
      var b, vec := h[e.off], e.VecTo? && !h[e.off].rows;
      var w := WalkFields(g, Content(b), inner, vec);
      ContentEdges(b);
      BlockPays(w.steps, e.off);
      if b.Data? {
        var p := multiset{WeakTo(b.ctrl)};
        var phantom := WalkEdge(w.rest, WeakTo(b.ctrl), inner, false);
        Reorder(held, Edges(Content(b)), p);
        FieldsRun(g, held + p, Content(b), inner, vec);
        EdgeRuns(w.rest, held, WeakTo(b.ctrl), inner, false);
        RunsSequence(g, Edges(Content(b)), Pays(w.steps), w.rest, p, Pays(phantom.steps), phantom.rest);
        PaysConcat(w.steps + [Free(e.off)], phantom.steps);
        PaysFirst(h, e, g, due, inner, w.steps + [Free(e.off)] + phantom.steps, phantom.rest);
        ConcatAssociates([Pay(e, inner)], w.steps, [Free(e.off)]);
        ConcatAssociates([Pay(e, inner)], w.steps + [Free(e.off)], phantom.steps);
      } else {
        assert Edges(Content(b)) + multiset{} == Edges(Content(b));
        FieldsRun(g, held, Content(b), inner, vec);
        PaysFirst(h, e, g, due, inner, w.steps + [Free(e.off)], w.rest);
        ConcatAssociates([Pay(e, inner)], w.steps, [Free(e.off)]);
      }
    }
  }

  lemma Reorder(held: multiset<Edge>, a: multiset<Edge>, b: multiset<Edge>)
    ensures held + (a + b) == (held + b) + a
  {}

  lemma NoPays(ts: seq<Step>)
    requires ts == []
    ensures Pays(ts) == []
  {}

  lemma PaysFirst(h: Store, e: Edge, g: Store, due: multiset<Edge>, level: nat, ts: seq<Step>, rest: Store)
    requires CanRelease(h, e) && Release(h, e) == (g, due) && Runs(g, due, Pays(ts), rest, multiset{})
    ensures Runs(h, multiset{e}, Pays([Pay(e, level)] + ts), rest, multiset{})
  {
    hide Runs, Release, CanRelease;
    PaysConcat([Pay(e, level)], ts);
    OnePay(e, level);
    assert multiset{e} - multiset{e} + due == due;
    RunsPrepend(h, multiset{e}, e, Pays(ts), rest, multiset{});
  }

  // ---- The walk as steps on what the law sees ----

  /** The steps lead from live store `h` to live store `g`: every edge paid can be paid, and
      no block is freed before its release has begun. */
  ghost predicate Leads(h: Store, ts: seq<Step>, g: Store)
    decreases |ts|
  {
    if ts == [] then h == g else
    match ts[0]
    case Pay(e, _) => CanRelease(h, e) && Leads(Release(h, e).0, ts[1..], g)
    case Free(x) => x !in h && Leads(h, ts[1..], g)
  }

  lemma {:induction false} LeadsConcat(h: Store, a: seq<Step>, g: Store, b: seq<Step>, k: Store)
    requires Leads(h, a, g) && Leads(g, b, k)
    ensures Leads(h, a + b, k)
    decreases |a|
  {
    hide CanRelease, Release;
    var ab := a + b;
    if a == [] {
      assert ab == b;
    } else {
      assert ab[0] == a[0] && ab[1..] == a[1..] + b;
      LeadsConcat(if a[0].Pay? then Release(h, a[0].edge).0 else h, a[1..], g, b, k);
    }
  }

  lemma {:induction false} LeadsSub(h: Store, ts: seq<Step>, g: Store)
    requires Leads(h, ts, g)
    ensures SubStore(g, h)
    decreases |ts|
  {
    hide CanRelease, Release, SubStore;
    if ts == [] {
      SubStoreRefl(h);
    } else if ts[0].Pay? {
      var k := Release(h, ts[0].edge).0;
      LeadsSub(k, ts[1..], g);
      ReleaseOnlyRemoves(h, ts[0].edge);
      SubStoreTrans(g, k, h);
    } else {
      LeadsSub(h, ts[1..], g);
    }
  }

  lemma OnePayLeads(h: Store, e: Edge, level: nat)
    requires CanRelease(h, e)
    ensures Leads(h, [Pay(e, level)], Release(h, e).0)
  {
    hide Release, CanRelease;
    assert [Pay(e, level)][1..] == [];
  }

  lemma OneFreeLeads(h: Store, x: Off)
    requires x !in h
    ensures Leads(h, [Free(x)], h)
  {
    assert [Free(x)][1..] == [];
  }

  lemma {:induction false} FieldsLead(h: Store, fs: seq<Field>, level: nat, direct: bool)
    ensures var w := WalkFields(h, fs, level, direct); Leads(h, w.steps, w.rest)
    decreases |h|, fs, 1
  {
    if fs != [] {
      hide Leads;
      var first := WalkField(h, fs[0], level, direct);
      var more := WalkFields(first.rest, fs[1..], level, direct);
      FieldLeads(h, fs[0], level, direct);
      FieldsLead(first.rest, fs[1..], level, direct);
      LeadsConcat(h, first.steps, first.rest, more.steps, more.rest);
    }
  }

  lemma {:induction false} FieldLeads(h: Store, f: Field, level: nat, direct: bool)
    ensures var w := WalkField(h, f, level, direct); Leads(h, w.steps, w.rest)
    decreases |h|, f, 2
  {
    hide WalkFields, WalkEdge;
    match f
    case Embed(inner) => FieldsLead(h, inner, level, false);
    case Own(x) => EdgeLeads(h, OwnTo(x), level, direct);
    case VecOf(x) => EdgeLeads(h, VecTo(x), level, direct);
    case Strong(x) => EdgeLeads(h, StrongTo(x), level, direct);
    case Weak(x) => EdgeLeads(h, WeakTo(x), level, direct);
    case Pod(_) =>
    case Ref(_) =>
  }

  lemma {:induction false} EdgeLeads(h: Store, e: Edge, level: nat, direct: bool)
    ensures var w := WalkEdge(h, e, level, direct); Leads(h, w.steps, w.rest)
    decreases |h|, AsField(e), 0
  {
    if CanRelease(h, e) {
      hide Leads, WalkFields, Release, CanRelease;
      ReleaseShrinks(h, e);
      var g, inner := Release(h, e).0, Inner(e, level, direct);
      OnePayLeads(h, e, inner);
      if e.off !in g {
        var vec := e.VecTo? && !h[e.off].rows;
        var w := WalkFields(g, Content(h[e.off]), inner, vec);
        FieldsLead(g, Content(h[e.off]), inner, vec);
        LeadsSub(g, w.steps, w.rest);
        LeadsConcat(h, [Pay(e, inner)], g, w.steps, w.rest);
        OneFreeLeads(w.rest, e.off);
        LeadsConcat(h, [Pay(e, inner)] + w.steps, w.rest, [Free(e.off)], w.rest);
        if h[e.off].Data? {
          var phantom := WalkEdge(w.rest, WeakTo(h[e.off].ctrl), inner, false);
          EdgeLeads(w.rest, WeakTo(h[e.off].ctrl), inner, false);
          LeadsConcat(h, [Pay(e, inner)] + w.steps + [Free(e.off)], w.rest, phantom.steps, phantom.rest);
        }
      }
    }
  }

  /** Every block whose release begins is freed, once, and no other. */
  ghost predicate FreesAll(h: Store, w: Walk) {
    && Distinct(Frees(w.steps)) && w.rest.Keys <= h.Keys
    && Range(Frees(w.steps)) == h.Keys - w.rest.Keys
  }

  lemma FreesThen(h: Store, a: Walk, b: Walk)
    requires FreesAll(h, a) && FreesAll(a.rest, b)
    ensures FreesAll(h, Walk(a.steps + b.steps, b.rest))
  {
    PaysConcat(a.steps, b.steps);
    DistinctConcat(Frees(a.steps), Frees(b.steps));
  }

  lemma {:induction false} FieldsFree(h: Store, fs: seq<Field>, level: nat, direct: bool)
    ensures FreesAll(h, WalkFields(h, fs, level, direct))
    decreases |h|, fs, 1
  {
    if fs != [] {
      hide FreesAll;
      FieldFrees(h, fs[0], level, direct);
      var first := WalkField(h, fs[0], level, direct);
      FieldsFree(first.rest, fs[1..], level, direct);
      FreesThen(h, first, WalkFields(first.rest, fs[1..], level, direct));
    }
  }

  lemma {:induction false} FieldFrees(h: Store, f: Field, level: nat, direct: bool)
    ensures FreesAll(h, WalkField(h, f, level, direct))
    decreases |h|, f, 2
  {
    hide WalkFields, WalkEdge;
    match f
    case Embed(inner) => FieldsFree(h, inner, level, false);
    case Own(x) => EdgeFrees(h, OwnTo(x), level, direct);
    case VecOf(x) => EdgeFrees(h, VecTo(x), level, direct);
    case Strong(x) => EdgeFrees(h, StrongTo(x), level, direct);
    case Weak(x) => EdgeFrees(h, WeakTo(x), level, direct);
    case Pod(_) =>
    case Ref(_) =>
  }

  lemma PaidBlock(h: Store, e: Edge, w: Walk, level: nat)
    requires CanRelease(h, e) && e.off !in Release(h, e).0 && FreesAll(Release(h, e).0, w)
    ensures FreesAll(h, Walk([Pay(e, level)] + w.steps + [Free(e.off)], w.rest))
  {
    hide Release, Frees, Pays;
    var x, none: seq<Off> := e.off, [];
    PaysConcat([Pay(e, level)] + w.steps, [Free(x)]);
    PaysConcat([Pay(e, level)], w.steps);
    OnePay(e, level);
    OneFree(x);
    assert none + Frees(w.steps) == Frees(w.steps);
    ReleaseRemoves(h, e);
    OneMoreFreed(Frees(w.steps), x);
  }

  lemma ReleaseRemoves(h: Store, e: Edge)
    requires CanRelease(h, e) && e.off !in Release(h, e).0
    ensures e.off in h && Release(h, e).0.Keys == h.Keys - {e.off}
  {
    hide BlockEdges, Edges;
  }

  lemma OneMoreFreed(offs: seq<Off>, x: Off)
    requires Distinct(offs) && x !in Range(offs)
    ensures Distinct(offs + [x]) && Range(offs + [x]) == Range(offs) + {x}
  {
    assert Range([x]) == {x};
    DistinctConcat(offs, [x]);
  }

  lemma PaidOnly(h: Store, e: Edge, level: nat)
    requires CanRelease(h, e) && e.off in Release(h, e).0
    ensures FreesAll(h, Walk([Pay(e, level)], Release(h, e).0))
  {
    OnePay(e, level);
    assert Release(h, e).0.Keys == h.Keys;
  }

  lemma {:induction false} EdgeFrees(h: Store, e: Edge, level: nat, direct: bool)
    ensures FreesAll(h, WalkEdge(h, e, level, direct))
    decreases |h|, AsField(e), 0
  {
    if CanRelease(h, e) {
      hide FreesAll, WalkFields, Release, CanRelease;
      ReleaseShrinks(h, e);
      var g, inner := Release(h, e).0, Inner(e, level, direct);
      if e.off in g {
        PaidOnly(h, e, inner);
      } else {
        var vec := e.VecTo? && !h[e.off].rows;
        var w := WalkFields(g, Content(h[e.off]), inner, vec);
        FieldsFree(g, Content(h[e.off]), inner, vec);
        PaidBlock(h, e, w, inner);
        if h[e.off].Data? {
          var phantom := WalkEdge(w.rest, WeakTo(h[e.off].ctrl), inner, false);
          EdgeFrees(w.rest, WeakTo(h[e.off].ctrl), inner, false);
          FreesThen(h, Walk([Pay(e, inner)] + w.steps + [Free(e.off)], w.rest), phantom);
        }
      }
    }
  }

  // ---- The bounded walk ----

  predicate TooDeep(t: Step) { t.Pay? && t.level > MAX_TEARDOWN_DEPTH }

  predicate Fits(ts: seq<Step>) { forall t <- ts :: !TooDeep(t) }

  /** What is done before the first step that is refused. */
  function Done(ts: seq<Step>): seq<Step> {
    if ts == [] || TooDeep(ts[0]) then [] else [ts[0]] + Done(ts[1..])
  }

  lemma {:induction false} DoneConcat(a: seq<Step>, b: seq<Step>)
    ensures Done(a + b) == if Fits(a) then a + Done(b) else Done(a)
    ensures Fits(a + b) <==> Fits(a) && Fits(b)
  {
    var ab := a + b;
    if a == [] {
      assert ab == b && [] + Done(b) == Done(b) && Fits([]);
    } else {
      hide Fits, TooDeep;
      var head, tail := [a[0]], a[1..];
      assert ab[0] == a[0] && ab[1..] == tail + b && a == head + tail;
      DoneConcat(tail, b);
      FitsFirst(a);
      FitsFirst(ab);
      ConcatAssociates(head, tail, Done(b));
    }
  }

  lemma FitsFirst(ts: seq<Step>)
    requires ts != []
    ensures Fits(ts) <==> !TooDeep(ts[0]) && Fits(ts[1..])
  {
    assert ts == [ts[0]] + ts[1..];
  }

  lemma {:induction false} DoneWhenFits(ts: seq<Step>)
    ensures Fits(ts) ==> Done(ts) == ts
    ensures Fits(Done(ts))
  {
    if ts != [] && !TooDeep(ts[0]) {
      DoneWhenFits(ts[1..]);
      FitsFirst(ts);
      FitsFirst(Done(ts));
      assert Done(ts)[1..] == Done(ts[1..]);
    }
  }

  lemma {:induction false} DoneIsPrefix(ts: seq<Step>) returns (more: seq<Step>)
    ensures ts == Done(ts) + more
    ensures !Fits(ts) ==> more != [] && TooDeep(more[0])
  {
    if ts == [] || TooDeep(ts[0]) {
      more := ts;
    } else {
      more := DoneIsPrefix(ts[1..]);
      FitsFirst(ts);
      assert ts == [ts[0]] + ts[1..];
      ConcatAssociates([ts[0]], Done(ts[1..]), more);
    }
  }

  lemma {:induction false} DoneLeads(h: Store, ts: seq<Step>, g: Store) returns (mid: Store)
    requires Leads(h, ts, g)
    ensures Leads(h, Done(ts), mid)
    decreases |ts|
  {
    hide CanRelease, Release;
    if ts == [] || TooDeep(ts[0]) {
      mid := h;
    } else {
      mid := DoneLeads(if ts[0].Pay? then Release(h, ts[0].edge).0 else h, ts[1..], g);
      assert Done(ts)[1..] == Done(ts[1..]);
    }
  }

  // ---- The effect on the disk ----

  predicate Counted(e: Edge) { e.StrongTo? || e.WeakTo? }

  /** A count lowered on disk. */
  function Lowered(h: Store, e: Edge): Store
    requires CanRelease(h, e) && Counted(e)
  {
    match e
    case WeakTo(c) => h[c := h[c].(weak := h[c].weak - 1)]
    case StrongTo(x) =>
      if h[x].Rc? then h[x := h[x].(count := h[x].count - 1)]
      else h[h[x].ctrl := h[h[x].ctrl].(strong := h[h[x].ctrl].strong - 1)]
    case _ => assert false; h
  }

  /** Paying an owner changes nothing on disk by itself, paying a count lowers it; a free
      happens at once unless the teardown is logged. */
  function Effect(b: Store, t: Step, logged: bool): Store {
    match t
    case Free(x) => if logged then b else b - {x}
    case Pay(e, _) => if Counted(e) && CanRelease(b, e) then Lowered(b, e) else b
  }

  function Replay(b: Store, ts: seq<Step>, logged: bool): Store
    decreases |ts|
  {
    if ts == [] then b else Replay(Effect(b, ts[0], logged), ts[1..], logged)
  }

  lemma {:induction false} ReplayConcat(b: Store, ts: seq<Step>, us: seq<Step>, logged: bool)
    ensures Replay(b, ts + us, logged) == Replay(Replay(b, ts, logged), us, logged)
    decreases |ts|
  {
    hide Effect;
    var all := ts + us;
    if ts == [] {
      assert all == us;
    } else {
      assert all[0] == ts[0] && all[1..] == ts[1..] + us;
      ReplayConcat(Effect(b, ts[0], logged), ts[1..], us, logged);
    }
  }

  lemma EffectShape(b: Store, t: Step, logged: bool)
    ensures SubStore(Effect(b, t, logged), b)
    ensures Effect(b, t, logged).Keys == if t.Free? && !logged then b.Keys - {t.off} else b.Keys
  {}

  /** A replay only removes blocks or lowers counts, and removes what it frees. */
  lemma {:induction false} ReplayShape(b: Store, ts: seq<Step>, logged: bool)
    ensures SubStore(Replay(b, ts, logged), b)
    ensures Replay(b, ts, logged).Keys == if logged then b.Keys else b.Keys - Range(Frees(ts))
    decreases |ts|
  {
    hide Effect, SubStore;
    if ts == [] {
      SubStoreRefl(b);
      assert Range([]) == {};
    } else {
      var k := Effect(b, ts[0], logged);
      EffectShape(b, ts[0], logged);
      ReplayShape(k, ts[1..], logged);
      SubStoreTrans(Replay(b, ts, logged), k, b);
      FreesFirst(ts);
    }
  }

  lemma FreesFirst(ts: seq<Step>)
    requires ts != []
    ensures Range(Frees(ts)) == (if ts[0].Free? then {ts[0].off} else {}) + Range(Frees(ts[1..]))
  {}

  lemma EffectPart(h: Store, b: Store, t: Step, logged: bool)
    requires PartOf(h, b) && if t.Pay? then CanRelease(h, t.edge) else t.off !in h
    ensures PartOf(if t.Pay? then Release(h, t.edge).0 else h, Effect(b, t, logged))
  {
    hide BlockEdges, Edges;
  }

  /** The law's view stays part of what is on disk. */
  lemma {:induction false} ReplayPart(h: Store, b: Store, ts: seq<Step>, g: Store, logged: bool)
    requires Leads(h, ts, g) && PartOf(h, b)
    ensures PartOf(g, Replay(b, ts, logged))
    decreases |ts|
  {
    hide Effect, Release, CanRelease, PartOf;
    if ts != [] {
      EffectPart(h, b, ts[0], logged);
      ReplayPart(if ts[0].Pay? then Release(h, ts[0].edge).0 else h, Effect(b, ts[0], logged), ts[1..], g, logged);
    }
  }

  /** A completed walk leaves on disk exactly what the law sees, besides collected blocks. */
  lemma ReplayAll(h: Store, w: Walk, logged: bool)
    requires Leads(h, w.steps, w.rest) && FreesAll(h, w)
    ensures var b := Replay(h, w.steps, logged);
      && Distinct(Frees(w.steps)) && Range(Frees(w.steps)) <= h.Keys
      && if logged then b.Keys == h.Keys && b - Range(Frees(w.steps)) == w.rest else b == w.rest
  {
    hide Leads, Replay;
    var b := Replay(h, w.steps, logged);
    ReplayPart(h, h, w.steps, w.rest, logged);
    ReplayShape(h, w.steps, logged);
    SameStore(w.rest, if logged then b - Range(Frees(w.steps)) else b);
  }

  lemma SameStore(g: Store, h: Store)
    requires g.Keys == h.Keys && forall x <- g :: x in h ==> h[x] == g[x]
    ensures g == h
  {}

  /** The walk fits under the bound if ranks decrease along the owned and strong edges of a
      part of the store that those edges do not leave; cycles elsewhere do not matter. */
  ghost predicate RankedIn(h: Store, part: set<Off>, rank: Off -> nat) {
    forall x <- part | x in h :: forall e <- BlockEdges(h[x]) :: !e.WeakTo? ==> e.off in part && rank(e.off) < rank(x)
  }

  ghost predicate Below(debts: multiset<Edge>, part: set<Off>, rank: Off -> nat, bound: int) {
    forall e <- debts :: !e.WeakTo? ==> e.off in part && rank(e.off) < bound
  }

  lemma RankedSub(g: Store, h: Store, part: set<Off>, rank: Off -> nat)
    requires SubStore(g, h) && RankedIn(h, part, rank)
    ensures RankedIn(g, part, rank)
  {
    hide BlockEdges;
    forall x <- part | x in g ensures BlockEdges(g[x]) == BlockEdges(h[x]) { SameButCountsEdges(g[x], h[x]); }
  }

  lemma SameButCountsEdges(a: Block, b: Block)
    requires SameButCounts(a, b)
    ensures BlockEdges(a) == BlockEdges(b)
  {}

  lemma {:induction false} RankedFieldsFit(h: Store, fs: seq<Field>,
                                           level: nat, direct: bool, part: set<Off>, rank: Off -> nat)
    requires RankedIn(h, part, rank) && Below(Edges(fs), part, rank, MAX_TEARDOWN_DEPTH - level)
    requires level <= MAX_TEARDOWN_DEPTH
    ensures Fits(WalkFields(h, fs, level, direct).steps)
    decreases |h|, fs, 1
  {
    if fs != [] {
      hide RankedIn, FieldEdges, Fits;
      var first := WalkField(h, fs[0], level, direct);
      var more := WalkFields(first.rest, fs[1..], level, direct);
      assert Below(FieldEdges(fs[0]), part, rank, MAX_TEARDOWN_DEPTH - level);
      RankedFieldFits(h, fs[0], level, direct, part, rank);
      FieldLeads(h, fs[0], level, direct);
      LeadsSub(h, first.steps, first.rest);
      RankedSub(first.rest, h, part, rank);
      assert Below(Edges(fs[1..]), part, rank, MAX_TEARDOWN_DEPTH - level);
      RankedFieldsFit(first.rest, fs[1..], level, direct, part, rank);
      DoneConcat(first.steps, more.steps);
    }
  }

  lemma {:induction false} RankedFieldFits(h: Store, f: Field,
                                           level: nat, direct: bool, part: set<Off>, rank: Off -> nat)
    requires RankedIn(h, part, rank) && Below(FieldEdges(f), part, rank, MAX_TEARDOWN_DEPTH - level)
    requires level <= MAX_TEARDOWN_DEPTH
    ensures Fits(WalkField(h, f, level, direct).steps)
    decreases |h|, f, 2
  {
    hide RankedIn, WalkFields, WalkEdge;
    match f
    case Embed(inner) => RankedFieldsFit(h, inner, level, false, part, rank);
    case Own(x) => if x != 0 { assert OwnTo(x) in FieldEdges(f); RankedEdgeFits(h, OwnTo(x), level, direct, part, rank); }
    case VecOf(x) => if x != 0 { assert VecTo(x) in FieldEdges(f); RankedEdgeFits(h, VecTo(x), level, direct, part, rank); }
    case Strong(x) => if x != 0 { assert StrongTo(x) in FieldEdges(f); RankedEdgeFits(h, StrongTo(x), level, direct, part, rank); }
    case Weak(x) => if x != 0 { RankedEdgeFits(h, WeakTo(x), level, direct, part, rank); }
    case Pod(_) =>
    case Ref(_) =>
  }

  lemma {:induction false} RankedEdgeFits(h: Store, e: Edge, level: nat, direct: bool, part: set<Off>, rank: Off -> nat)
    requires RankedIn(h, part, rank) && level <= MAX_TEARDOWN_DEPTH
    requires !e.WeakTo? ==> e.off in part && rank(e.off) + Inner(e, level, direct) <= MAX_TEARDOWN_DEPTH
    ensures Fits(WalkEdge(h, e, level, direct).steps)
    decreases |h|, AsField(e), 0
  {
    if CanRelease(h, e) {
      hide RankedIn, Release, CanRelease, WalkFields, BlockEdges, Fits;
      ReleaseShrinks(h, e);
      ReleaseOnlyRemoves(h, e);
      var g, inner := Release(h, e).0, Inner(e, level, direct);
      RankedSub(g, h, part, rank);
      assert Fits([Pay(e, inner)]) by { OneFits(Pay(e, inner)); }
      if e.off !in g {
        var b := h[e.off];
        var vec := e.VecTo? && !b.rows;
        var w := WalkFields(g, Content(b), inner, vec);
        RankedContent(h, e, inner, part, rank);
        RankedFieldsFit(g, Content(b), inner, vec, part, rank);
        DoneConcat([Pay(e, inner)], w.steps);
        assert Fits([Free(e.off)]) by { OneFits(Free(e.off)); }
        DoneConcat([Pay(e, inner)] + w.steps, [Free(e.off)]);
        if b.Data? {
          var phantom := WalkEdge(w.rest, WeakTo(b.ctrl), inner, false);
          FieldsLead(g, Content(b), inner, vec);
          LeadsSub(g, w.steps, w.rest);
          RankedSub(w.rest, g, part, rank);
          RankedEdgeFits(w.rest, WeakTo(b.ctrl), inner, false, part, rank);
          DoneConcat([Pay(e, inner)] + w.steps + [Free(e.off)], phantom.steps);
        }
      }
    }
  }

  lemma RankedTeardownFits(h: Store, x: Off, part: set<Off>, rank: Off -> nat)
    requires RankedIn(h, part, rank) && x in part && rank(x) <= 500
    ensures Fits(Teardown(h, x).steps)
  {
    hide RankedIn, WalkEdge, Fits;
    RankedEdgeFits(h, OwnTo(x), 0, true, part, rank);
  }

  lemma OneFits(t: Step)
    requires !TooDeep(t)
    ensures Fits([t])
  {}

  lemma RankedContent(h: Store, e: Edge, inner: nat, part: set<Off>, rank: Off -> nat)
    requires RankedIn(h, part, rank) && e.off in h && (e.WeakTo? ==> h[e.off].Ctrl?)
    requires !e.WeakTo? ==> e.off in part && rank(e.off) <= MAX_TEARDOWN_DEPTH - inner
    ensures Below(Edges(Content(h[e.off])), part, rank, MAX_TEARDOWN_DEPTH - inner)
  {
    ContentEdges(h[e.off]);
    assert forall f <- Edges(Content(h[e.off])) :: f in BlockEdges(h[e.off]);
    if e.WeakTo? { assert Edges([]) == multiset{}; }
  }
}
