/** Cascading release as an abstract machine: any schedule of paying debts, in any
    order.  The machine always terminates, keeps the accounting law, and every complete
    run ends in the same store: the greatest part of the store that is accounted for by
    the handles that remain. */
module Cascade {
  import opened Heap

  /** From store `h` owing `debts`, paying the debts listed in `sched` one after another
      reaches store `h'` owing `debts'`. */
  ghost predicate Runs(h: Store, debts: multiset<Edge>, sched: seq<Edge>, h': Store, debts': multiset<Edge>)
    decreases |sched|
  {
    if sched == [] then h == h' && debts == debts'
    else
      var e := sched[0];
      e in debts && CanRelease(h, e) &&
      Runs(Release(h, e).0, debts - multiset{e} + Release(h, e).1, sched[1..], h', debts')
  }

  /** Debts nobody pays do not disturb a run. */
  lemma {:induction false} RunsFrame(h: Store, debts: multiset<Edge>, sched: seq<Edge>, h': Store,
                                     debts': multiset<Edge>, more: multiset<Edge>)
    requires Runs(h, debts, sched, h', debts')
    ensures Runs(h, debts + more, sched, h', debts' + more)
    decreases |sched|
  {
    if sched != [] {
      var e := sched[0];
      var (g, extra) := Release(h, e);
      RunsFrame(g, debts - multiset{e} + extra, sched[1..], h', debts', more);
      assert debts + more - multiset{e} + extra == debts - multiset{e} + extra + more;
    }
  }

  lemma RunsPrepend(h: Store, d: multiset<Edge>, e: Edge, s: seq<Edge>, h': Store, d': multiset<Edge>)
    requires e in d && CanRelease(h, e) && Runs(Release(h, e).0, d - multiset{e} + Release(h, e).1, s, h', d')
    ensures Runs(h, d, [e] + s, h', d')
  {
    hide Release, CanRelease;
    assert ([e] + s)[1..] == s;
  }

  lemma RunsFirst(h: Store, d: multiset<Edge>, s: seq<Edge>, h': Store, d': multiset<Edge>)
    requires s != [] && Runs(h, d, s, h', d')
    ensures s[0] in d && CanRelease(h, s[0])
    ensures Runs(Release(h, s[0]).0, d - multiset{s[0]} + Release(h, s[0]).1, s[1..], h', d')
  {
    hide Release, CanRelease;
  }

  lemma {:induction false} RunsConcat(h: Store, d: multiset<Edge>, s: seq<Edge>, h': Store, d': multiset<Edge>,
                                      s': seq<Edge>, h'': Store, d'': multiset<Edge>)
    requires Runs(h, d, s, h', d') && Runs(h', d', s', h'', d'')
    ensures Runs(h, d, s + s', h'', d'')
    decreases |s|
  {
    hide Release, CanRelease, Runs;
    var all := s + s';
    if s == [] {
      assert all == s';
      RunsEmpty(h, d, s, h', d');
    } else {
      assert all[0] == s[0] && all[1..] == s[1..] + s';
      RunsFirst(h, d, s, h', d');
      var (g, extra) := Release(h, s[0]);
      RunsConcat(g, d - multiset{s[0]} + extra, s[1..], h', d', s', h'', d'');
      RunsBack(h, d, all, h'', d'');
    }
  }

  lemma RunsEmpty(h: Store, d: multiset<Edge>, s: seq<Edge>, h': Store, d': multiset<Edge>)
    requires s == [] && Runs(h, d, s, h', d')
    ensures h == h' && d == d'
  {}

  lemma RunsBack(h: Store, d: multiset<Edge>, s: seq<Edge>, h': Store, d': multiset<Edge>)
    requires s != [] && s[0] in d && CanRelease(h, s[0])
    requires Runs(Release(h, s[0]).0, d - multiset{s[0]} + Release(h, s[0]).1, s[1..], h', d')
    ensures Runs(h, d, s, h', d')
  {
    hide Release, CanRelease;
  }

  /** Paying `a` to the end and then `b` to the end pays both. */
  lemma RunsSequence(h: Store, a: multiset<Edge>, s: seq<Edge>, h': Store,
                     b: multiset<Edge>, s': seq<Edge>, h'': Store)
    requires Runs(h, a, s, h', multiset{}) && Runs(h', b, s', h'', multiset{})
    ensures Runs(h, a + b, s + s', h'', multiset{})
  {
    RunsFrame(h, a, s, h', multiset{}, b);
    assert multiset{} + b == b;
    RunsConcat(h, a + b, s, h', b, s', h'', multiset{});
  }

  lemma SubStoreRefl(h: Store)
    ensures SubStore(h, h)
  {}

  lemma SubStoreTrans(f: Store, g: Store, h: Store)
    requires SubStore(f, g) && SubStore(g, h)
    ensures SubStore(f, h)
  {}

  /** Every run keeps the accounting law and only removes blocks or lowers counts. */
  lemma {:induction false} RunsAccounted(h: Store, held: multiset<Edge>, debts: multiset<Edge>, sched: seq<Edge>,
                                         h': Store, debts': multiset<Edge>)
    requires Accounted(h, held + debts) && Runs(h, debts, sched, h', debts')
    ensures Accounted(h', held + debts') && SubStore(h', h)
    decreases |sched|
  {
    if sched != [] {
      var e := sched[0];
      var (g, extra) := Release(h, e);
      StepAccounted(h, held, debts, e);
      RunsAccounted(g, held, debts - multiset{e} + extra, sched[1..], h', debts');
      SubStoreTrans(h', g, h);
    }
  }

  lemma StepAccounted(h: Store, held: multiset<Edge>, debts: multiset<Edge>, e: Edge)
    requires Accounted(h, held + debts) && e in debts
    ensures CanRelease(h, e)
    ensures Accounted(Release(h, e).0, held + (debts - multiset{e} + Release(h, e).1))
    ensures SubStore(Release(h, e).0, h)
    ensures AllEdges(Release(h, e).0) + Release(h, e).1 == AllEdges(h)
  {
    hide Balanced, BlockOk, Release, CanRelease;
    var others := held + (debts - multiset{e});
    assert held + debts == others + multiset{e};
    ReleaseAccounted(h, others, e);
    ReleaseConserves(h, e);
    assert others + Release(h, e).1 == held + (debts - multiset{e} + Release(h, e).1);
  }

  /** Termination.  From any accounted store the debts can all be paid, and the number
      of steps is the number of edges that disappear. */
  lemma {:induction false} RunsToCompletion(h: Store, held: multiset<Edge>, debts: multiset<Edge>)
    returns (sched: seq<Edge>, h': Store)
    requires Accounted(h, held + debts)
    ensures Runs(h, debts, sched, h', multiset{})
    ensures Accounted(h', held) && SubStore(h', h)
    ensures |sched| == |AllEdges(h) + debts| - |AllEdges(h')|
    decreases |AllEdges(h) + debts|
  {
    hide Accounted, SubStore, Release, CanRelease;
    if debts == multiset{} {
      sched, h' := [], h;
      assert SubStore(h, h) by { SubStoreRefl(h); }
      assert held + debts == held;
      assert AllEdges(h) + debts == AllEdges(h);
    } else {
      var e :| e in debts;
      StepAccounted(h, held, debts, e);
      var (g, extra) := Release(h, e);
      var debts' := debts - multiset{e} + extra;
      assert AllEdges(h) + debts == AllEdges(g) + debts' + multiset{e};
      var s;
      s, h' := RunsToCompletion(g, held, debts');
      sched := [e] + s;
      RunsPrepend(h, debts, e, s, h', multiset{});
      SubStoreTrans(h', g, h);
    }
  }

  /** A block whose last outstanding edge is being paid is not accounted for by the
      remaining handles, so no accounted part of the store contains it. */
  lemma LastEdge(k: Store, mine: multiset<Edge>, h: Store, all: multiset<Edge>, e: Edge)
    requires Balanced(h, all) && Balanced(k, mine) && SubStore(k, h)
    requires e in all && mine[e] < all[e]
    ensures CanRelease(h, e)
    ensures e.off !in Release(h, e).0 ==> e.off !in k
  {
    assert BlockOk(h, all, e.off);
    if e.off in k {
      assert BlockOk(k, mine, e.off);
    }
  }

  /** A block that the remaining handles can account for is never freed: one step. */
  lemma StepKeeps(k: Store, h: Store, held: multiset<Edge>, debts: multiset<Edge>, e: Edge)
    requires Accounted(h, held + debts) && e in debts
    requires SubStore(k, h) && Accounted(k, held)
    ensures CanRelease(h, e) && SubStore(k, Release(h, e).0)
  {
    AllEdgesMonotone(k, h);
    LastEdge(k, AllEdges(k) + held, h, AllEdges(h) + (held + debts), e);
    var g := Release(h, e).0;
    forall y <- k ensures y in g && SameButCounts(k[y], g[y]) {
      assert y in h && SameButCounts(k[y], h[y]);
      ReleaseTouches(h, e, y);
    }
  }

  /** A release removes at most its own target and rewrites only counters. */
  lemma ReleaseTouches(h: Store, e: Edge, y: Off)
    requires CanRelease(h, e) && y in h
    ensures y in Release(h, e).0 || y == e.off
    ensures y in Release(h, e).0 ==> SameButCounts(h[y], Release(h, e).0[y])
  {}

  /** A complete run ends in the greatest accounted part of the store: nothing that the
      remaining handles account for is freed, and nothing else survives. */
  lemma {:induction false} RunsGreatest(h: Store, held: multiset<Edge>, debts: multiset<Edge>, sched: seq<Edge>,
                                        h': Store, k: Store)
    requires Accounted(h, held + debts) && Runs(h, debts, sched, h', multiset{})
    requires SubStore(k, h) && Accounted(k, held)
    ensures Accounted(h', held) && SubStore(k, h')
    decreases |sched|
  {
    if sched == [] {
      assert held + debts == held;
    } else {
      var e := sched[0];
      var (g, extra) := Release(h, e);
      StepAccounted(h, held, debts, e);
      StepKeeps(k, h, held, debts, e);
      RunsGreatest(g, held, debts - multiset{e} + extra, sched[1..], h', k);
    }
  }

  /** Order does not matter: any two complete runs from the same state end in the very
      same store, counters included. */
  lemma RunsConfluent(h: Store, held: multiset<Edge>, debts: multiset<Edge>,
                      s1: seq<Edge>, h1: Store, s2: seq<Edge>, h2: Store)
    requires Accounted(h, held + debts)
    requires Runs(h, debts, s1, h1, multiset{}) && Runs(h, debts, s2, h2, multiset{})
    ensures h1 == h2
  {
    hide Accounted, Runs, SubStore;
    RunsAccounted(h, held, debts, s1, h1, multiset{});
    RunsAccounted(h, held, debts, s2, h2, multiset{});
    assert held + multiset{} == held;
    RunsGreatest(h, held, debts, s1, h1, h2);
    RunsGreatest(h, held, debts, s2, h2, h1);
    SameKeys(h1, h2);
    CountsDetermined(h1, h2, held);
  }

  lemma SameKeys(g: Store, h: Store)
    requires SubStore(g, h) && SubStore(h, g)
    ensures g.Keys == h.Keys
  {}
}
