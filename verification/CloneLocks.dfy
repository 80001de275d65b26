/** The per-file locks of clones and log transactions, for any number of threads and files.
    A thread keeps the list of files whose lock it holds: asking again for one of them is an
    error, asking for another one never blocks, and only a thread that holds nothing waits. */
module CloneLocks {

  type Thread = nat
  type File = nat

  /** Why a thread waits or holds: for a clone or log transaction, recorded in its list, or
      for the short critical section of a weak-field access, which is not recorded. */
  datatype Purpose = Transaction | WeakField

  datatype Wait = Wait(file: File, purpose: Purpose)

  datatype State = State(
    owner: map<File, Thread>,       // who holds each locked mutex
    held: map<Thread, seq<File>>,   // the thread-local lists
    inside: map<Thread, File>,      // threads inside a weak-field section
    waiting: map<Thread, Wait>)

  function HeldBy(s: State, t: Thread): seq<File> { if t in s.held then s.held[t] else [] }

  datatype Answer = Granted | Reentry | Contended | Blocked

  /** What asking for `f` answers. */
  function Ask(s: State, t: Thread, f: File): Answer {
    if f in HeldBy(s, t) then Reentry
    else if f !in s.owner then Granted
    else if HeldBy(s, t) != [] then Contended
    else Blocked
  }

  datatype Act =
    | Acquire(t: Thread, f: File)   // clone, teardown commit or recovery asks for a lock
    | Release(t: Thread, f: File)
    | Enter(t: Thread, f: File)     // weak-field access
    | Leave(t: Thread)
    | Wake(t: Thread)               // a waiter finds its mutex free

  /** A running thread may do anything but wait twice; weak-field accesses are made by code
      outside any clone. */
  predicate Enabled(s: State, a: Act) {
    match a
    case Acquire(t, _) => t !in s.waiting && t !in s.inside
    case Release(t, f) => t !in s.waiting && f in HeldBy(s, t)
    case Enter(t, _) => t !in s.waiting && t !in s.inside && HeldBy(s, t) == []
    case Leave(t) => t in s.inside
    case Wake(t) => t in s.waiting && s.waiting[t].file !in s.owner
  }

  /** Removing an entry by moving the last one into its place. */
  function SwapRemove(v: seq<File>, i: nat): (w: seq<File>)
    requires i < |v|
    ensures |w| == |v| - 1
  {
    if i == |v| - 1 then v[..i] else v[i := v[|v| - 1]][..|v| - 1]
  }

  lemma SwapRemoveTakes(v: seq<File>, i: nat)
    requires i < |v|
    ensures multiset(SwapRemove(v, i)) == multiset(v) - multiset{v[i]}
  {
    var n := |v| - 1;
    if i == n {
      assert v == v[..n] + [v[n]];
    } else {
      var a, b := v[..i], v[i + 1..n];
      assert SwapRemove(v, i) == a + [v[n]] + b;
      assert v == a + [v[i]] + b + [v[n]];
      Rearranged(multiset(a), multiset(b), v[i], v[n]);
    }
  }

  lemma Rearranged(a: multiset<File>, b: multiset<File>, x: File, y: File)
    ensures a + multiset{y} + b == a + multiset{x} + b + multiset{y} - multiset{x}
  {}

  function LastIndexOf(v: seq<File>, f: File): (i: nat)
    requires f in v
    ensures i < |v| && v[i] == f
  {
    if v[|v| - 1] == f then |v| - 1 else LastIndexOf(v[..|v| - 1], f)
  }

  function Grant(s: State, t: Thread, w: Wait): State {
    var locked := s.(owner := s.owner[w.file := t]);
    match w.purpose
    case Transaction => locked.(held := s.held[t := HeldBy(s, t) + [w.file]])
    case WeakField => locked.(inside := s.inside[t := w.file])
  }

  function Step(s: State, a: Act): State
    requires Enabled(s, a)
  {
    match a
    case Acquire(t, f) =>
      (match Ask(s, t, f)
       case Granted => Grant(s, t, Wait(f, Transaction))
       case Blocked => s.(waiting := s.waiting[t := Wait(f, Transaction)])
       case _ => s)
    case Release(t, f) =>
      s.(owner := s.owner - {f}, held := s.held[t := SwapRemove(s.held[t], LastIndexOf(s.held[t], f))])
    case Enter(t, f) =>
      if f in s.owner then s.(waiting := s.waiting[t := Wait(f, WeakField)]) else Grant(s, t, Wait(f, WeakField))
    case Leave(t) =>
      s.(owner := s.owner - {s.inside[t]}, inside := s.inside - {t})
    case Wake(t) =>
      Grant(s.(waiting := s.waiting - {t}), t, s.waiting[t])
  }

  // ---- What every reachable state satisfies ----

  ghost predicate Holds(s: State, t: Thread, f: File) {
    f in HeldBy(s, t) || (t in s.inside && s.inside[t] == f)
  }

  ghost predicate NoRepeats(v: seq<File>) { forall i, j :: 0 <= i < j < |v| ==> v[i] != v[j] }

  ghost predicate Inv(s: State) {
    && (forall t: Thread, f: File :: Holds(s, t, f) <==> f in s.owner && s.owner[f] == t)
    && (forall t: Thread :: NoRepeats(HeldBy(s, t)))
    && (forall t <- s.waiting :: HeldBy(s, t) == [] && t !in s.inside)
    && (forall t <- s.inside :: HeldBy(s, t) == [])
  }

  lemma SwapRemoved(v: seq<File>, f: File)
    requires f in v && NoRepeats(v)
    ensures var w := SwapRemove(v, LastIndexOf(v, f));
      NoRepeats(w) && forall g :: g in w <==> g in v && g != f
  {
    var i := LastIndexOf(v, f);
    var w := SwapRemove(v, i);
    forall g | g in v && g != f ensures g in w {
      var j :| 0 <= j < |v| && v[j] == g;
      if j == |v| - 1 { assert w[i] == g; } else { assert w[j] == g; }
    }
  }

  lemma StepInv(s: State, a: Act)
    requires Inv(s) && Enabled(s, a)
    ensures Inv(Step(s, a))
  {
    match a
    case Release(t, f) => ReleaseInv(s, t, f);
    case Leave(t) => LeaveInv(s, t);
    case Acquire(t, f) =>
      match Ask(s, t, f) {
        case Granted => GrantInv(s, t, Wait(f, Transaction));
        case Blocked => WaitInv(s, t, Wait(f, Transaction));
        case _ =>
      }
    case Enter(t, f) => if f in s.owner { WaitInv(s, t, Wait(f, WeakField)); } else { GrantInv(s, t, Wait(f, WeakField)); }
    case Wake(t) =>
      AwakeInv(s, t);
      GrantInv(s.(waiting := s.waiting - {t}), t, s.waiting[t]);
  }

  lemma WaitInv(s: State, t: Thread, w: Wait)
    requires Inv(s) && HeldBy(s, t) == [] && t !in s.inside
    ensures Inv(s.(waiting := s.waiting[t := w]))
  {
    SameHolds(s, s.(waiting := s.waiting[t := w]));
  }

  lemma AwakeInv(s: State, t: Thread)
    requires Inv(s)
    ensures Inv(s.(waiting := s.waiting - {t}))
  {
    SameHolds(s, s.(waiting := s.waiting - {t}));
  }

  lemma SameHolds(s: State, s': State)
    requires Inv(s) && s'.owner == s.owner && s'.held == s.held && s'.inside == s.inside
    ensures forall u: Thread, g: File :: Holds(s', u, g) <==> g in s'.owner && s'.owner[g] == u
    ensures forall u: Thread :: NoRepeats(HeldBy(s', u))
  {
    forall u: Thread, g: File ensures Holds(s', u, g) <==> g in s'.owner && s'.owner[g] == u {
      assert Holds(s, u, g) <==> g in s.owner && s.owner[g] == u;
    }
    forall u: Thread ensures NoRepeats(HeldBy(s', u)) { assert HeldBy(s', u) == HeldBy(s, u); }
  }

  lemma GrantInv(s: State, t: Thread, w: Wait)
    requires Inv(s) && t !in s.waiting && t !in s.inside && w.file !in s.owner
    requires w.purpose.WeakField? ==> HeldBy(s, t) == []
    ensures Inv(Grant(s, t, w))
  {
    var s' := Grant(s, t, w);
    assert !Holds(s, t, w.file);
    forall u: Thread, g: File ensures Holds(s', u, g) <==> g in s'.owner && s'.owner[g] == u {
      assert Holds(s, u, g) <==> g in s.owner && s.owner[g] == u;
      assert u != t ==> HeldBy(s', u) == HeldBy(s, u);
    }
    forall u: Thread ensures NoRepeats(HeldBy(s', u)) {
      assert NoRepeats(HeldBy(s, u));
    }
  }

  lemma ReleaseInv(s: State, t: Thread, f: File)
    requires Inv(s) && Enabled(s, Release(t, f))
    ensures Inv(Step(s, Release(t, f)))
  {
    hide SwapRemove, LastIndexOf;
    var s' := Step(s, Release(t, f));
    assert NoRepeats(HeldBy(s, t)) && Holds(s, t, f);
    SwapRemoved(s.held[t], f);
    assert t !in s.inside;
    forall u: Thread ensures NoRepeats(HeldBy(s', u)) && (u != t ==> HeldBy(s', u) == HeldBy(s, u)) {
      assert NoRepeats(HeldBy(s, u));
    }
    forall u: Thread, g: File ensures Holds(s', u, g) <==> g in s'.owner && s'.owner[g] == u {
      assert Holds(s, u, g) <==> g in s.owner && s.owner[g] == u;
      assert Holds(s', u, g) <==> Holds(s, u, g) && (u != t || g != f);
    }
  }

  lemma LeaveInv(s: State, t: Thread)
    requires Inv(s) && Enabled(s, Leave(t))
    ensures Inv(Step(s, Leave(t)))
  {
    var s' := Step(s, Leave(t));
    assert Holds(s, t, s.inside[t]);
    forall u: Thread, g: File ensures Holds(s', u, g) <==> g in s'.owner && s'.owner[g] == u {
      assert Holds(s, u, g) <==> g in s.owner && s.owner[g] == u;
    }
    forall u: Thread ensures NoRepeats(HeldBy(s', u)) { assert HeldBy(s', u) == HeldBy(s, u); }
  }

  // ---- Deadlock freedom ----

  ghost predicate Reaches(s: State, acts: seq<Act>, s': State)
    decreases |acts|
  {
    if acts == [] then s' == s else Enabled(s, acts[0]) && Reaches(Step(s, acts[0]), acts[1..], s')
  }

  lemma {:induction false} ReachableInv(s: State, acts: seq<Act>, s': State)
    requires Inv(s) && Reaches(s, acts, s')
    ensures Inv(s')
    decreases |acts|
  {
    hide Inv, Step, Enabled;
    if acts != [] {
      StepInv(s, acts[0]);
      ReachableInv(Step(s, acts[0]), acts[1..], s');
    }
  }

  lemma NobodyHoldsYet(s: State)
    requires s == State(map[], map[], map[], map[])
    ensures Inv(s)
  {}

  /** `t` waits for a lock that `u` holds. */
  ghost predicate WaitsFor(s: State, t: Thread, u: Thread) {
    t in s.waiting && s.waiting[t].file in s.owner && s.owner[s.waiting[t].file] == u
  }

  /** A chain of waiting threads never goes past one step, so in particular never closes. */
  lemma NoWaitChain(s: State, t: Thread, u: Thread)
    requires Inv(s) && WaitsFor(s, t, u)
    ensures u !in s.waiting && t != u && forall v: Thread :: !WaitsFor(s, u, v)
  {
    assert Holds(s, u, s.waiting[t].file);
  }

  function Around(ts: seq<Thread>, i: nat): Thread
    requires i < |ts|
  {
    if i + 1 < |ts| then ts[i + 1] else ts[0]
  }

  ghost predicate WaitCycle(s: State, ts: seq<Thread>) {
    |ts| > 0 && forall i :: 0 <= i < |ts| ==> WaitsFor(s, ts[i], Around(ts, i))
  }

  lemma NoDeadlock(s: State, acts: seq<Act>, s': State, ts: seq<Thread>)
    requires s == State(map[], map[], map[], map[]) && Reaches(s, acts, s')
    ensures !WaitCycle(s', ts)
  {
    NobodyHoldsYet(s);
    ReachableInv(s, acts, s');
    if WaitCycle(s', ts) {
      NoWaitChain(s', ts[0], Around(ts, 0));
      OnCycle(s', ts);
    }
  }

  lemma OnCycle(s: State, ts: seq<Thread>)
    requires WaitCycle(s, ts)
    ensures Around(ts, 0) in s.waiting
  {
    var j := if 1 < |ts| then 1 else 0;
    assert WaitsFor(s, ts[j], Around(ts, j));
  }

  /** Whenever a thread waits, some thread can go on: the waiter itself, which then holds the
      lock, or a thread that holds the lock and does not wait, which by giving it back lets
      the waiter go on. */
  lemma SomeoneCanStep(s: State, t: Thread) returns (a: Act)
    requires Inv(s) && t in s.waiting
    ensures Enabled(s, a)
    ensures a == Wake(t) || (exists u :: WaitsFor(s, t, u) && (a == Release(u, s.waiting[t].file) || a == Leave(u)))
    ensures var f, s' := s.waiting[t].file, Step(s, a);
      && (a == Wake(t) ==> t !in s'.waiting && Holds(s', t, f) && f in s'.owner && s'.owner[f] == t)
      && (a != Wake(t) ==> s'.waiting == s.waiting && f !in s'.owner && Enabled(s', Wake(t)))
  {
    hide SwapRemove, LastIndexOf;
    var f := s.waiting[t].file;
    if f !in s.owner {
      Woken(s, t);
      return Wake(t);
    }
    var u := s.owner[f];
    assert WaitsFor(s, t, u) && Holds(s, u, f);
    NoWaitChain(s, t, u);
    a := if f in HeldBy(s, u) then Release(u, f) else Leave(u);
  }

  lemma Woken(s: State, t: Thread)
    requires Inv(s) && t in s.waiting && s.waiting[t].file !in s.owner
    ensures var f, s' := s.waiting[t].file, Step(s, Wake(t));
      && t !in s'.waiting && Holds(s', t, f) && f in s'.owner && s'.owner[f] == t
  {
    var f, s' := s.waiting[t].file, Step(s, Wake(t));
    if s.waiting[t].purpose.Transaction? { assert HeldBy(s', t)[|HeldBy(s', t)| - 1] == f; }
  }

  /** What the steps of a weak-field access do: it takes a free lock without recording it, or
      waits, and gives it back; and what a waiter gets when it wakes. */
  lemma AccessSteps(s: State, t: Thread, f: File)
    ensures t !in s.waiting && t !in s.inside ==> Enabled(s, Acquire(t, f))
    ensures t !in s.waiting && t !in s.inside && HeldBy(s, t) == [] ==> Enabled(s, Enter(t, f))
    ensures Enabled(s, Enter(t, f)) ==>
      Step(s, Enter(t, f)) == if f in s.owner then s.(waiting := s.waiting[t := Wait(f, WeakField)])
                              else s.(owner := s.owner[f := t], inside := s.inside[t := f])
    ensures Enabled(s, Leave(t)) ==>
      Step(s, Leave(t)) == s.(owner := s.owner - {s.inside[t]}, inside := s.inside - {t})
    ensures Enabled(s, Wake(t)) && s.waiting[t] == Wait(f, WeakField) ==>
      Step(s, Wake(t)) == s.(owner := s.owner[f := t], inside := s.inside[t := f], waiting := s.waiting - {t})
    ensures Enabled(s, Wake(t)) && s.waiting[t] == Wait(f, Transaction) ==>
      Step(s, Wake(t)) == s.(owner := s.owner[f := t], held := s.held[t := HeldBy(s, t) + [f]], waiting := s.waiting - {t})
  {}

  /** Only a thread that holds nothing is ever made to wait, and asking twice for the same
      file is always an error. */
  lemma AskNeverHoldsAndWaits(s: State, t: Thread, f: File)
    requires Inv(s) && Enabled(s, Acquire(t, f))
    ensures Ask(s, t, f) == Granted <==> f !in s.owner
    ensures Ask(s, t, f) == Blocked <==> HeldBy(s, t) == [] && f in s.owner
    ensures f in HeldBy(s, t) <==> Ask(s, t, f) == Reentry
    ensures Ask(s, t, f) == Contended <==> HeldBy(s, t) != [] && f in s.owner && s.owner[f] != t
  {
    assert Holds(s, t, f) <==> f in s.owner && s.owner[f] == t;
  }

  // ---- The lock table ----

  class LockTable {
    var owner: map<File, Thread>
    var held: map<Thread, seq<File>>
    var inside: map<Thread, File>
    var waiting: map<Thread, Wait>

    constructor ()
      ensures Now() == State(map[], map[], map[], map[])
    {
      owner, held, inside, waiting := map[], map[], map[], map[];
    }

    ghost function Now(): State
      reads this
    {
      State(owner, held, inside, waiting)
    }

    /** `HeldLock::acquire`. */
    method AcquireLock(t: Thread, f: File) returns (a: Answer)
      requires Enabled(Now(), Acquire(t, f))
      modifies this
      ensures a == Ask(old(Now()), t, f) && Now() == Step(old(Now()), Acquire(t, f))
      ensures var mine := if t in old(held) then old(held)[t] else [];
        && (a == Reentry <==> f in mine)
        && (a == Contended <==> f !in mine && mine != [] && f in old(owner))
        && (a == Blocked <==> mine == [] && f in old(owner))
        && (a == Granted ==> owner == old(owner)[f := t] && held == old(held)[t := mine + [f]] && waiting == old(waiting))
        && (a != Granted ==> owner == old(owner) && held == old(held))
        && (a == Blocked ==> waiting == old(waiting)[t := Wait(f, Transaction)])
        && (a == Reentry || a == Contended ==> waiting == old(waiting))
        && inside == old(inside)
    {
      var mine := if t in held then held[t] else [];
      if f in mine { return Reentry; }
      if mine != [] {
        if f in owner { return Contended; }  // try_lock
      } else if f in owner {
        waiting := waiting[t := Wait(f, Transaction)];
        return Blocked;
      }
      owner := owner[f := t];
      held := held[t := mine + [f]];
      a := Granted;
    }

    /** Dropping a `HeldLock`. */
    method ReleaseLock(t: Thread, f: File)
      requires Enabled(Now(), Release(t, f))
      modifies this
      ensures Now() == Step(old(Now()), Release(t, f))
      ensures owner == old(owner) - {f} && inside == old(inside) && waiting == old(waiting)
      ensures t in held && held == old(held)[t := held[t]] && multiset(held[t]) == multiset(old(held)[t]) - multiset{f}
    {
      owner := owner - {f};
      var v := held[t];
      SwapRemoveTakes(v, LastIndexOf(v, f));
      held := held[t := SwapRemove(v, LastIndexOf(v, f))];
    }
  }
}
