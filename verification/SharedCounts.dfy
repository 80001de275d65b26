/** On-disk counters, and the life of one `(rc, weak)` block under any number of threads.
    Every counter access is one atomic read-modify-write; between two of them any other
    thread may run. */
module SharedCounts {
  import Heap

  /** An attempted update of a counter: it took effect, seeing `prev`, or was refused and
      left the counter alone. */
  datatype Update = Updated(prev: nat, next: nat) | Refused

  /** What `increment_if_nonzero` answers: the new value, that the counter is zero, or that
      it is full. */
  datatype Increment = Raised(now: nat) | Zero | Full

  function Raise(v: nat, d: nat): Update {
    if v + d > Heap.U64_MAX then Refused else Updated(v, v + d)
  }

  function Lower(v: nat, d: nat): Update {
    if v < d then Refused else Updated(v, v - d)
  }

  class Counter {
    var value: nat

    constructor (v: nat)
      ensures value == v
    {
      value := v;
    }

    method FetchAdd(d: nat) returns (r: Update)
      modifies this
      ensures r == Raise(old(value), d)
      ensures r.Refused? <==> old(value) + d > 0xFFFF_FFFF_FFFF_FFFF
      ensures r.Updated? ==> r.prev == old(value) && r.next == value == old(value) + d
      ensures r.Refused? ==> value == old(value)
    {
      var overflow := value + d > Heap.U64_MAX;
      var prev := value;
      if !overflow { value := prev + d; }
      r := if overflow then Refused else Updated(prev, prev + d);
    }

    method FetchSub(d: nat) returns (r: Update)
      modifies this
      ensures r == Lower(old(value), d)
      ensures r.Refused? <==> old(value) < d
      ensures r.Updated? ==> r.prev == old(value) && r.next == value == old(value) - d
      ensures r.Refused? ==> value == old(value)
    {
      var underflow := value < d;
      var prev := value;
      if !underflow { value := prev - d; }
      r := if underflow then Refused else Updated(prev, prev - d);
    }

    method Cas(expected: nat, to: nat) returns (swapped: bool)
      modifies this
      ensures swapped <==> old(value) == expected
      ensures value == if swapped then to else old(value)
    {
      swapped := value == expected;
      if swapped { value := to; }
    }

    /** The locked half of `increment_if_nonzero`: zero is left alone. */
    method IncrementIfNonzero() returns (r: Increment)
      modifies this
      ensures r.Zero? <==> old(value) == 0
      ensures r.Full? <==> old(value) >= 0xFFFF_FFFF_FFFF_FFFF
      ensures r.Raised? ==> r.now == value == old(value) + 1
      ensures !r.Raised? ==> value == old(value)
    {
      if value == 0 { return Zero; }
      var full := value + 1 > Heap.U64_MAX;
      var prev := value;
      if !full { value := prev + 1; }
      r := if full then Full else Raised(prev + 1);
    }
  }

  // ---- The protocol ----

  /** A handle, or an operation in flight on behalf of one. */
  datatype Agent =
    | Strong       // a strong handle
    | Weak         // a weak handle
    | Checked      // an upgrade that saw a non-zero strong count
    | Claimed      // an upgrade that raised the strong count, about to read the data pointer
    | Failed       // an upgrade whose read failed, about to take its claim back
    | Retrying     // it took the count to zero, and now re-reads the data pointer
    | Releasing    // the re-read worked; about to run the strong release
    | LastStrong   // a strong release that saw one: about to free the data block
    | Phantom      // data freed, the phantom weak reference still to be released
    | LastWeak     // a weak release that saw one: about to free the control block

  /** `released` counts releases of the phantom weak reference; `stranded` records that an
      upgrade gave up between lowering the strong count to zero and freeing the data. */
  datatype Object = Object(strong: nat, weak: nat, agents: multiset<Agent>,
                           dataFreed: nat, ctrlFreed: nat, released: nat, stranded: bool)

  /** Right after construction: one strong handle, and the phantom weak reference. */
  predicate Initial(o: Object) {
    && o.strong == 1 && o.weak == 1 && o.agents == multiset{Strong}
    && o.dataFreed == o.ctrlFreed == o.released == 0 && !o.stranded
  }

  datatype Action =
    | TryClone | CloneWeak | Downgrade
    | UpgradeLoad | UpgradeClaim | UpgradeRead(ok: bool) | Rollback | Reread(ok: bool) | Rerelease
    | DropStrong | TryMove | FreeData | ReleasePhantom | DropWeak | FreeCtrl

  /** Whose turn an action is. */
  function Actor(a: Action): Agent {
    match a
    case TryClone => Strong
    case CloneWeak => Weak
    case Downgrade => Strong
    case UpgradeLoad => Weak
    case UpgradeClaim => Checked
    case UpgradeRead(_) => Claimed
    case Rollback => Failed
    case Reread(_) => Retrying
    case Rerelease => Releasing
    case DropStrong => Strong
    case TryMove => Strong
    case FreeData => LastStrong
    case ReleasePhantom => Phantom
    case DropWeak => Weak
    case FreeCtrl => LastWeak
  }

  predicate Enabled(o: Object, a: Action) { Actor(a) in o.agents }

  function More(m: multiset<Agent>, x: Agent): multiset<Agent> { m[x := m[x] + 1] }

  function Less(m: multiset<Agent>, x: Agent): multiset<Agent>
    requires x in m
  {
    m[x := m[x] - 1]
  }

  /** The actor is done, or goes on as something else. */
  function Gone(o: Object, a: Action): multiset<Agent>
    requires Enabled(o, a)
  {
    Less(o.agents, Actor(a))
  }

  function Becomes(o: Object, a: Action, x: Agent): multiset<Agent>
    requires Enabled(o, a)
  {
    More(Gone(o, a), x)
  }

  /** One atomic step.  A refused update is an error for its caller, whose handle stays
      what it was. */
  function Step(o: Object, a: Action): Object
    requires Enabled(o, a)
  {
    match a
    case TryClone =>
      (match Raise(o.strong, 1)
       case Updated(_, n) => o.(strong := n, agents := More(o.agents, Strong))
       case Refused => o)
    case CloneWeak =>
      (match Raise(o.weak, 1)
       case Updated(_, n) => o.(weak := n, agents := More(o.agents, Weak))
       case Refused => o)
    case Downgrade =>
      (match Raise(o.weak, 1)
       case Updated(_, n) => o.(weak := n, agents := More(o.agents, Weak))
       case Refused => o)
    case UpgradeLoad =>
      if o.strong == 0 then o else o.(agents := Becomes(o, a, Checked))
    case UpgradeClaim =>
      if o.strong == 0 then o.(agents := Becomes(o, a, Weak)) else
      (match Raise(o.strong, 1)
       case Updated(_, n) => o.(strong := n, agents := Becomes(o, a, Claimed))
       case Refused => o.(agents := Becomes(o, a, Weak)))
    case UpgradeRead(ok) =>
      o.(agents := if ok then More(Becomes(o, a, Weak), Strong) else Becomes(o, a, Failed))
    case Rollback =>
      (match Lower(o.strong, 1)
       case Updated(p, n) => o.(strong := n, agents := Becomes(o, a, if p == 1 then Retrying else Weak))
       case Refused => o.(agents := Becomes(o, a, Weak)))
    case Reread(ok) =>
      if ok then o.(agents := Becomes(o, a, Releasing))
      else o.(agents := Becomes(o, a, Weak), stranded := true)
    case Rerelease =>
      (match Lower(o.strong, 1)
       case Updated(p, n) =>
         o.(strong := n, agents := if p == 1 then More(Becomes(o, a, Weak), LastStrong) else Becomes(o, a, Weak))
       case Refused => o.(agents := Becomes(o, a, Weak), stranded := true))
    case DropStrong =>
      (match Lower(o.strong, 1)
       case Updated(p, n) => o.(strong := n, agents := if p == 1 then Becomes(o, a, LastStrong) else Gone(o, a))
       case Refused => o.(agents := Gone(o, a)))
    case TryMove =>
      if o.strong == 1 then o.(strong := 0, agents := Becomes(o, a, LastStrong)) else o
    case FreeData =>
      o.(dataFreed := o.dataFreed + 1, agents := Becomes(o, a, Phantom))
    case ReleasePhantom =>
      (match Lower(o.weak, 1)
       case Updated(p, n) =>
         o.(weak := n, released := o.released + 1, agents := if p == 1 then Becomes(o, a, LastWeak) else Gone(o, a))
       case Refused => o.(agents := Gone(o, a)))
    case DropWeak =>
      (match Lower(o.weak, 1)
       case Updated(p, n) => o.(weak := n, agents := if p == 1 then Becomes(o, a, LastWeak) else Gone(o, a))
       case Refused => o.(agents := Gone(o, a)))
    case FreeCtrl =>
      o.(ctrlFreed := o.ctrlFreed + 1, agents := Gone(o, a))
  }

  /** The action is open exactly to agents of one kind, and then leads to `next`. */
  predicate Turn(o: Object, a: Action, who: Agent, next: Object) {
    && (Enabled(o, a) <==> who in o.agents)
    && (who in o.agents ==> Step(o, a) == next)
  }

  /** Cloning and downgrading add a holder and raise its count, unless the count is full. */
  lemma HoldersAdded(o: Object)
    ensures Turn(o, TryClone, Strong,
      if o.strong >= 0xFFFF_FFFF_FFFF_FFFF then o else o.(strong := o.strong + 1, agents := o.agents + multiset{Strong}))
    ensures Turn(o, CloneWeak, Weak,
      if o.weak >= 0xFFFF_FFFF_FFFF_FFFF then o else o.(weak := o.weak + 1, agents := o.agents + multiset{Weak}))
    ensures Turn(o, Downgrade, Strong,
      if o.weak >= 0xFFFF_FFFF_FFFF_FFFF then o else o.(weak := o.weak + 1, agents := o.agents + multiset{Weak}))
  {
    hide More;
    Joins(o.agents, Strong);
    Joins(o.agents, Weak);
  }

  lemma Leaves(o: Object, a: Action, x: Agent)
    requires Enabled(o, a)
    ensures Gone(o, a) == o.agents - multiset{Actor(a)}
    ensures Becomes(o, a, x) == o.agents - multiset{Actor(a)} + multiset{x}
  {}

  lemma Joins(m: multiset<Agent>, x: Agent)
    ensures More(m, x) == m + multiset{x}
  {}

  /** An upgrade: it gives up on a zero count and claims a unit of a positive one. */
  lemma UpgradeStarts(o: Object)
    ensures var rest := o.agents - multiset{Weak};
      Turn(o, UpgradeLoad, Weak, if o.strong == 0 then o else o.(agents := rest + multiset{Checked}))
    ensures var rest := o.agents - multiset{Checked};
      Turn(o, UpgradeClaim, Checked,
        if 0 < o.strong < 0xFFFF_FFFF_FFFF_FFFF then o.(strong := o.strong + 1, agents := rest + multiset{Claimed})
        else o.(agents := rest + multiset{Weak}))
  {
    hide More, Less, Gone, Becomes;
    if Weak in o.agents { Leaves(o, UpgradeLoad, Checked); }
    if Checked in o.agents {
      Leaves(o, UpgradeClaim, Claimed);
      Leaves(o, UpgradeClaim, Weak);
    }
  }

  /** The claim becomes a strong handle beside the weak one if the data pointer can be read. */
  lemma UpgradeEnds(o: Object)
    ensures var rest := o.agents - multiset{Claimed};
      && Turn(o, UpgradeRead(true), Claimed, o.(agents := rest + multiset{Weak} + multiset{Strong}))
      && Turn(o, UpgradeRead(false), Claimed, o.(agents := rest + multiset{Failed}))
  {
    hide More, Less, Gone, Becomes;
    if Claimed in o.agents {
      Leaves(o, UpgradeRead(true), Weak);
      Joins(Becomes(o, UpgradeRead(true), Weak), Strong);
      Leaves(o, UpgradeRead(false), Failed);
    }
  }

  /** A failed upgrade takes its claim back; if it was the last it tries to run the strong
      release itself, which finds the count at zero and refuses. */
  lemma UpgradeUndone(o: Object)
    ensures var rest := o.agents - multiset{Failed};
      Turn(o, Rollback, Failed,
        if o.strong == 0 then o.(agents := rest + multiset{Weak})
        else o.(strong := o.strong - 1, agents := rest + multiset{if o.strong == 1 then Retrying else Weak}))
    ensures var rest := o.agents - multiset{Retrying};
      && Turn(o, Reread(true), Retrying, o.(agents := rest + multiset{Releasing}))
      && Turn(o, Reread(false), Retrying, o.(agents := rest + multiset{Weak}, stranded := true))
  {
    hide More, Less, Gone, Becomes;
    if Failed in o.agents {
      Leaves(o, Rollback, Retrying);
      Leaves(o, Rollback, Weak);
    }
    if Retrying in o.agents {
      Leaves(o, Reread(true), Releasing);
      Leaves(o, Reread(false), Weak);
    }
  }

  lemma ReleasedAgain(o: Object)
    ensures var rest := o.agents - multiset{Releasing} + multiset{Weak};
      Turn(o, Rerelease, Releasing,
        if o.strong == 0 then o.(agents := rest, stranded := true)
        else o.(strong := o.strong - 1, agents := if o.strong == 1 then rest + multiset{LastStrong} else rest))
  {
    hide More, Less, Gone, Becomes;
    if Releasing in o.agents {
      Leaves(o, Rerelease, Weak);
      Joins(Becomes(o, Rerelease, Weak), LastStrong);
    }
  }

  /** A strong release lowers the count; the one that takes it to zero, like a move out by
      the sole owner, goes on to free the data, which leaves the phantom to be released. */
  lemma StrongReleases(o: Object)
    ensures var rest := o.agents - multiset{Strong};
      && Turn(o, DropStrong, Strong,
           if o.strong == 0 then o.(agents := rest)
           else o.(strong := o.strong - 1, agents := if o.strong == 1 then rest + multiset{LastStrong} else rest))
      && Turn(o, TryMove, Strong, if o.strong != 1 then o else o.(strong := 0, agents := rest + multiset{LastStrong}))
  {
    hide More, Less, Gone, Becomes;
    if Strong in o.agents {
      Leaves(o, DropStrong, LastStrong);
      Leaves(o, TryMove, LastStrong);
    }
  }

  lemma DataFreed(o: Object)
    ensures var rest := o.agents - multiset{LastStrong};
      Turn(o, FreeData, LastStrong, o.(dataFreed := o.dataFreed + 1, agents := rest + multiset{Phantom}))
  {
    hide More, Less, Gone, Becomes;
    if LastStrong in o.agents { Leaves(o, FreeData, Phantom); }
  }

  /** Releasing the phantom lowers the weak count, and a release that takes it to zero goes
      on to free the control block; so does the last weak handle. */
  lemma WeakReleases(o: Object)
    ensures var rest := o.agents - multiset{Phantom};
      Turn(o, ReleasePhantom, Phantom,
        if o.weak == 0 then o.(agents := rest)
        else o.(weak := o.weak - 1, released := o.released + 1,
                agents := if o.weak == 1 then rest + multiset{LastWeak} else rest))
    ensures var rest := o.agents - multiset{LastWeak};
      Turn(o, FreeCtrl, LastWeak, o.(ctrlFreed := o.ctrlFreed + 1, agents := rest))
  {
    hide More, Less, Gone, Becomes;
    if Phantom in o.agents { Leaves(o, ReleasePhantom, LastWeak); }
    if LastWeak in o.agents { Leaves(o, FreeCtrl, LastWeak); }
  }

  lemma WeakDropped(o: Object)
    ensures var rest := o.agents - multiset{Weak};
      Turn(o, DropWeak, Weak,
        if o.weak == 0 then o.(agents := rest)
        else o.(weak := o.weak - 1, agents := if o.weak == 1 then rest + multiset{LastWeak} else rest))
  {
    hide More, Less, Gone, Becomes;
    if Weak in o.agents { Leaves(o, DropWeak, LastWeak); }
  }

  function One(b: bool): nat { if b then 1 else 0 }

  /** Agents that hold a unit of the strong count, ... */
  function Strongs(m: multiset<Agent>): nat { m[Strong] + m[Claimed] + m[Failed] }

  /** ... a unit of the weak count, ... */
  function Weaks(m: multiset<Agent>): nat {
    m[Weak] + m[Checked] + m[Claimed] + m[Failed] + m[Retrying] + m[Releasing]
  }

  /** ... or are in the middle of the last strong release. */
  function Ending(m: multiset<Agent>): nat { m[Retrying] + m[Releasing] + m[LastStrong] + m[Phantom] }

  /** Who is responsible for the phantom weak reference: the strong owners together, or one
      unfinished last release, or nobody any more. */
  function PhantomUnits(o: Object): nat { One(o.strong > 0) + Ending(o.agents) + One(o.stranded) }

  /** What holds in every reachable state. */
  ghost predicate Inv(o: Object) {
    && o.strong == Strongs(o.agents)
    && o.weak == Weaks(o.agents) + PhantomUnits(o)
    && PhantomUnits(o) + o.released == 1
    && o.dataFreed == o.agents[Phantom] + o.released
    && o.ctrlFreed + o.agents[LastWeak] == One(o.weak == 0)
    && o.strong <= Heap.U64_MAX && o.weak <= Heap.U64_MAX
  }

  predicate Tallied(m: multiset<Agent>, n: multiset<Agent>, x: Agent) {
    && Strongs(n) == Strongs(m) + One(x.Strong? || x.Claimed? || x.Failed?)
    && Weaks(n) == Weaks(m) + One(x.Weak? || x.Checked? || x.Claimed? || x.Failed? || x.Retrying? || x.Releasing?)
    && Ending(n) == Ending(m) + One(x.Retrying? || x.Releasing? || x.LastStrong? || x.Phantom?)
    && n[Phantom] == m[Phantom] + One(x.Phantom?) && n[LastWeak] == m[LastWeak] + One(x.LastWeak?)
    && n[Retrying] == m[Retrying] + One(x.Retrying?) && n[Releasing] == m[Releasing] + One(x.Releasing?)
  }

  lemma MoreTally(m: multiset<Agent>, x: Agent)
    ensures Tallied(m, More(m, x), x)
  {}

  lemma LessTally(m: multiset<Agent>, x: Agent)
    requires x in m
    ensures Tallied(Less(m, x), m, x)
  {}

  /** The tallies of every state the actor can step to. */
  lemma Tallies(o: Object, a: Action)
    requires Enabled(o, a)
    ensures Tallied(Gone(o, a), o.agents, Actor(a))
    ensures forall x :: Tallied(Gone(o, a), Becomes(o, a, x), x) && Tallied(o.agents, More(o.agents, x), x)
    ensures forall x :: Tallied(Becomes(o, a, Weak), More(Becomes(o, a, Weak), x), x)
  {
    LessTally(o.agents, Actor(a));
    forall x ensures Tallied(Gone(o, a), Becomes(o, a, x), x) && Tallied(o.agents, More(o.agents, x), x) {
      MoreTally(Gone(o, a), x);
      MoreTally(o.agents, x);
    }
    forall x ensures Tallied(Becomes(o, a, Weak), More(Becomes(o, a, Weak), x), x) {
      MoreTally(Becomes(o, a, Weak), x);
    }
  }

  lemma InitialInv(o: Object)
    requires Initial(o)
    ensures Inv(o)
  {
    hide More, Strongs, Weaks, Ending;
    MoreTally(multiset{}, Strong);
    OneAgent();
    NoAgents();
  }

  lemma OneAgent()
    ensures More(multiset{}, Strong) == multiset{Strong}
  {}

  lemma NoAgents()
    ensures Strongs(multiset{}) == Weaks(multiset{}) == Ending(multiset{}) == 0
  {}

  lemma StepInv(o: Object, a: Action)
    requires Inv(o) && Enabled(o, a)
    ensures Inv(Step(o, a))
  {
    if a.DropStrong? || a.TryMove? || a.FreeData? || a.ReleasePhantom? || a.DropWeak? || a.FreeCtrl? {
      ReleaseStepInv(o, a);
    } else {
      ShareStepInv(o, a);
    }
  }

  lemma ReleaseStepInv(o: Object, a: Action)
    requires Inv(o) && Enabled(o, a)
    requires a.DropStrong? || a.TryMove? || a.FreeData? || a.ReleasePhantom? || a.DropWeak? || a.FreeCtrl?
    ensures Inv(Step(o, a))
  {
    hide More, Less, Becomes, Gone, Strongs, Weaks, Ending;
    Tallies(o, a);
  }

  lemma ShareStepInv(o: Object, a: Action)
    requires Inv(o) && Enabled(o, a)
    requires !(a.DropStrong? || a.TryMove? || a.FreeData? || a.ReleasePhantom? || a.DropWeak? || a.FreeCtrl?)
    ensures Inv(Step(o, a))
  {
    hide More, Less, Becomes, Gone, Strongs, Weaks, Ending;
    Tallies(o, a);
  }

  // ---- Whole runs: any number of threads, any interleaving ----

  ghost predicate CanRun(o: Object, acts: seq<Action>)
    decreases |acts|
  {
    acts == [] || (Enabled(o, acts[0]) && CanRun(Step(o, acts[0]), acts[1..]))
  }

  function After(o: Object, acts: seq<Action>): Object
    requires CanRun(o, acts)
    decreases |acts|
  {
    if acts == [] then o else After(Step(o, acts[0]), acts[1..])
  }

  /** In every reachable state `strong` equals the strong holders and `weak` the weak
      holders plus one while the phantom is outstanding. */
  lemma {:induction false} RunInv(o: Object, acts: seq<Action>)
    requires Inv(o) && CanRun(o, acts)
    ensures Inv(After(o, acts))
    decreases |acts|
  {
    hide Inv, Step, Enabled;
    if acts != [] {
      StepInv(o, acts[0]);
      RunInv(Step(o, acts[0]), acts[1..]);
    }
  }

  lemma Reachable(o: Object, acts: seq<Action>)
    requires Initial(o) && CanRun(o, acts)
    ensures Inv(After(o, acts))
  {
    InitialInv(o);
    RunInv(o, acts);
  }

  /** The safety consequences, in any reachable state. */
  lemma Safe(o: Object)
    requires Inv(o)
    ensures o.dataFreed <= 1 && o.ctrlFreed <= 1
    ensures o.strong > 0 ==> o.dataFreed == 0 && LastStrong !in o.agents
    ensures Strongs(o.agents) > 0 ==> o.dataFreed == 0
    ensures o.agents[LastStrong] > 0 ==> o.agents[LastStrong] == 1 && o.dataFreed == 0
    ensures Weaks(o.agents) > 0 || o.dataFreed == 0 ==> o.ctrlFreed == 0 && LastWeak !in o.agents
  {
    hide Strongs, Weaks;
  }

  /** No release of a held count is ever refused; the release after a failed upgrade's
      re-read always is. */
  lemma Refusals(o: Object)
    requires Inv(o)
    ensures Enabled(o, DropStrong) || Enabled(o, Rollback) ==> Lower(o.strong, 1).Updated?
    ensures Enabled(o, DropWeak) || Enabled(o, ReleasePhantom) ==> Lower(o.weak, 1).Updated?
    ensures Enabled(o, Rerelease) ==> Lower(o.strong, 1).Refused?
  {
    assert o.strong == 0 ==> Strong !in o.agents && Failed !in o.agents;
    assert o.weak == 0 ==> Weak !in o.agents && Phantom !in o.agents;
  }

  /** Zero is terminal: no clone, no upgrade, no read of the data pointer after it. */
  lemma {:induction false} ZeroIsTerminal(o: Object, acts: seq<Action>)
    requires Inv(o) && CanRun(o, acts) && o.strong == 0
    ensures var o' := After(o, acts);
      o'.strong == 0 && forall a :: Enabled(o', a) ==> !a.UpgradeRead? && !a.TryClone?
    decreases |acts|
  {
    hide Step, CanRun, After;
    if acts == [] {
      assert After(o, acts) == o by { EmptyRun(o); }
    } else {
      NextRun(o, acts);
      StepInv(o, acts[0]);
      ZeroStep(o, acts[0]);
      ZeroIsTerminal(Step(o, acts[0]), acts[1..]);
    }
  }

  lemma EmptyRun(o: Object)
    ensures CanRun(o, []) && After(o, []) == o
  {}

  lemma NextRun(o: Object, acts: seq<Action>)
    requires acts != [] && CanRun(o, acts)
    ensures Enabled(o, acts[0]) && CanRun(Step(o, acts[0]), acts[1..])
    ensures After(o, acts) == After(Step(o, acts[0]), acts[1..])
  {}

  lemma ZeroStep(o: Object, a: Action)
    requires Inv(o) && Enabled(o, a) && o.strong == 0
    ensures Step(o, a).strong == 0
  {}

  // ---- When everything is reclaimed ----

  /** An upgrade gave up its claim as the last holder of the strong count. */
  predicate Doomed(o: Object) { o.stranded || Retrying in o.agents || Releasing in o.agents }

  predicate LastRollback(o: Object, a: Action) { a.Rollback? && o.strong == 1 }

  lemma DoomedStep(o: Object, a: Action)
    requires Inv(o) && Enabled(o, a)
    ensures Doomed(Step(o, a)) <==> Doomed(o) || LastRollback(o, a)
  {
    hide Strongs, Weaks, Ending, More, Less, Becomes, Gone;
    Refusals(o);
    Tallies(o, a);
  }

  /** The action at which a run was doomed. */
  ghost predicate RolledBackAt(o: Object, acts: seq<Action>, i: nat) {
    i < |acts| && CanRun(o, acts[..i]) && LastRollback(After(o, acts[..i]), acts[i])
  }

  lemma RolledBackLater(o: Object, acts: seq<Action>, i: nat)
    requires acts != [] && CanRun(o, acts)
    ensures RolledBackAt(o, acts, i + 1) <==> RolledBackAt(Step(o, acts[0]), acts[1..], i)
  {
    hide Step, LastRollback, Enabled;
    if i + 1 < |acts| { assert acts[..i + 1][1..] == acts[1..][..i] && acts[..i + 1][0] == acts[0]; }
  }

  lemma RolledBackFirst(o: Object, acts: seq<Action>)
    requires acts != []
    ensures RolledBackAt(o, acts, 0) <==> LastRollback(o, acts[0])
  {
    assert acts[..0] == [];
    EmptyRun(o);
  }

  lemma {:induction false} DoomedRun(o: Object, acts: seq<Action>)
    requires Inv(o) && CanRun(o, acts)
    ensures Doomed(After(o, acts)) <==> Doomed(o) || exists i: nat :: RolledBackAt(o, acts, i)
    decreases |acts|
  {
    hide Step, Inv, Doomed, LastRollback, Enabled, RolledBackAt;
    if acts == [] {
      assert forall i: nat :: !RolledBackAt(o, acts, i) by { NeverRolledBack(o); }
    } else {
      var a, rest := acts[0], acts[1..];
      var next := Step(o, a);
      StepInv(o, a);
      DoomedStep(o, a);
      DoomedRun(next, rest);
      RolledBackFirst(o, acts);
      if i: nat :| RolledBackAt(next, rest, i) { RolledBackLater(o, acts, i); }
      if i: nat :| RolledBackAt(o, acts, i) {
        if i > 0 { RolledBackLater(o, acts, i - 1); }
      }
    }
  }

  lemma NeverRolledBack(o: Object)
    ensures forall i: nat :: !RolledBackAt(o, [], i)
  {}

  /** Once every handle is dropped and every operation is over, data and control block have
      each been freed exactly once, unless some failed upgrade took its claim back as the
      last holder of the strong count; then neither is ever freed. */
  lemma Reclaimed(o: Object, acts: seq<Action>)
    requires Initial(o) && CanRun(o, acts) && After(o, acts).agents == multiset{}
    ensures var end := After(o, acts);
      && (end.dataFreed == 1 <==> !exists i: nat :: RolledBackAt(o, acts, i))
      && end.ctrlFreed == end.dataFreed && end.strong == 0 && end.weak == 1 - end.dataFreed
  {
    hide Step, Enabled, CanRun, After, Initial, RolledBackAt;
    Reachable(o, acts);
    assert !Doomed(o) by { NotDoomed(o); }
    InitialInv(o);
    DoomedRun(o, acts);
    NoAgents();
  }

  lemma NotDoomed(o: Object)
    requires Initial(o)
    ensures !Doomed(o)
  {}

  /** One more step of a run that has come to `s`. */
  lemma {:induction false} Extend(o: Object, acts: seq<Action>, s: Object, a: Action)
    requires CanRun(o, acts) && After(o, acts) == s && Enabled(s, a)
    ensures CanRun(o, acts + [a]) && After(o, acts + [a]) == Step(s, a)
    decreases |acts|
  {
    hide Step, Enabled;
    var all := acts + [a];
    if acts == [] {
      assert all == [a];
    } else {
      Extend(Step(o, acts[0]), acts[1..], s, a);
      assert all[0] == acts[0] && all[1..] == acts[1..] + [a];
    }
  }

  lemma Turns(m: multiset<Agent>, x: Agent, y: Agent)
    requires x in m
    ensures Less(m, x) == m - multiset{x} && More(m, y) == m + multiset{y}
    ensures More(Less(m, x), y) == m - multiset{x} + multiset{y}
  {}

  lemma Upgrading(o: Object, s1: Object, s2: Object, s3: Object)
    requires Initial(o) && s1 == Object(1, 2, multiset{Strong, Weak}, 0, 0, 0, false)
    requires s2 == s1.(agents := multiset{Strong, Checked}) && s3 == Object(2, 2, multiset{Strong, Claimed}, 0, 0, 0, false)
    ensures Enabled(o, Downgrade) && Step(o, Downgrade) == s1
    ensures Enabled(s1, UpgradeLoad) && Step(s1, UpgradeLoad) == s2
    ensures Enabled(s2, UpgradeClaim) && Step(s2, UpgradeClaim) == s3
  {
    Turns(o.agents, Strong, Weak);
    Turns(s1.agents, Weak, Checked);
    Turns(s2.agents, Checked, Claimed);
    hide More, Less;
  }

  lemma RollingBack(s3: Object, s4: Object, s5: Object, s6: Object)
    requires s3 == Object(2, 2, multiset{Strong, Claimed}, 0, 0, 0, false) && s4 == Object(1, 2, multiset{Claimed}, 0, 0, 0, false)
    requires s5 == s4.(agents := multiset{Failed}) && s6 == Object(0, 2, multiset{Retrying}, 0, 0, 0, false)
    ensures Enabled(s3, DropStrong) && Step(s3, DropStrong) == s4
    ensures Enabled(s4, UpgradeRead(false)) && Step(s4, UpgradeRead(false)) == s5
    ensures Enabled(s5, Rollback) && Step(s5, Rollback) == s6
  {
    Turns(s3.agents, Strong, Weak);
    Turns(s4.agents, Claimed, Failed);
    Turns(s5.agents, Failed, Retrying);
    hide More, Less;
  }

  lemma GivingUp(s: Object, r: Object, t: Object, end: Object)
    requires s == Object(0, 2, multiset{Retrying}, 0, 0, 0, false) && r == s.(agents := multiset{Releasing})
    requires t == s.(agents := multiset{Weak}, stranded := true) && end == Object(0, 1, multiset{}, 0, 0, 0, true)
    ensures Enabled(s, Reread(true)) && Step(s, Reread(true)) == r
    ensures Enabled(s, Reread(false)) && Step(s, Reread(false)) == t
    ensures Enabled(r, Rerelease) && Step(r, Rerelease) == t
    ensures Enabled(t, DropWeak) && Step(t, DropWeak) == end
  {
    Turns(s.agents, Retrying, Releasing);
    Turns(s.agents, Retrying, Weak);
    Turns(r.agents, Releasing, Weak);
    Turns(t.agents, Weak, Weak);
    hide More, Less;
  }

  lemma WitnessEnd(s: Object, ok: bool) returns (ends: seq<Action>)
    requires s == Object(0, 2, multiset{Retrying}, 0, 0, 0, false)
    ensures CanRun(s, ends) && After(s, ends) == Object(0, 1, multiset{}, 0, 0, 0, true)
  {
    hide Step, Enabled;
    var t := s.(agents := multiset{Weak}, stranded := true);
    var r := s.(agents := multiset{Releasing});
    GivingUp(s, r, t, Object(0, 1, multiset{}, 0, 0, 0, true));
    EmptyRun(s);
    if ok {
      Extend(s, [], s, Reread(true));
      Extend(s, [] + [Reread(true)], r, Rerelease);
      Extend(s, [] + [Reread(true)] + [Rerelease], t, DropWeak);
      ends := [] + [Reread(true)] + [Rerelease] + [DropWeak];
    } else {
      Extend(s, [], s, Reread(false));
      Extend(s, [] + [Reread(false)], t, DropWeak);
      ends := [] + [Reread(false)] + [DropWeak];
    }
  }

  /** The plain life of a block: its one handle is dropped, and everything is freed. */
  lemma PlainRun(o: Object)
    requires Initial(o)
    ensures var acts := [DropStrong, FreeData, ReleasePhantom, FreeCtrl];
      && CanRun(o, acts) && After(o, acts) == Object(0, 0, multiset{}, 1, 1, 1, false)
  {
    var s1, s2 := Object(0, 1, multiset{LastStrong}, 0, 0, 0, false), Object(0, 1, multiset{Phantom}, 1, 0, 0, false);
    var s3 := Object(0, 0, multiset{LastWeak}, 1, 0, 1, false);
    StrongReleases(o);
    DataFreed(s1);
    WeakReleases(s2);
    WeakReleases(s3);
    hide Step, Enabled;
    assert Step(o, DropStrong) == s1 && Step(s1, FreeData) == s2 && Step(s2, ReleasePhantom) == s3;
    EmptyRun(o);
    Extend(o, [], o, DropStrong);
    Extend(o, [] + [DropStrong], s1, FreeData);
    Extend(o, [] + [DropStrong] + [FreeData], s2, ReleasePhantom);
    Extend(o, [] + [DropStrong] + [FreeData] + [ReleasePhantom], s3, FreeCtrl);
    assert [] + [DropStrong] + [FreeData] + [ReleasePhantom] + [FreeCtrl] == [DropStrong, FreeData, ReleasePhantom, FreeCtrl];
  }

  /** A run that strands a block: a weak handle is taken and upgraded, the strong handle
      goes while the upgrade holds its claim, and the pointer read fails.  Whether the
      re-read then works or not, nothing is ever freed. */
  lemma StrandedRun(o: Object, rereadWorks: bool) returns (acts: seq<Action>)
    requires Initial(o)
    ensures CanRun(o, acts) && After(o, acts).agents == multiset{} && RolledBackAt(o, acts, 5)
    ensures After(o, acts).dataFreed == After(o, acts).ctrlFreed == 0
  {
    hide Step, Enabled, Initial;
    var s1, s3 := Object(1, 2, multiset{Strong, Weak}, 0, 0, 0, false), Object(2, 2, multiset{Strong, Claimed}, 0, 0, 0, false);
    var s4, s6 := Object(1, 2, multiset{Claimed}, 0, 0, 0, false), Object(0, 2, multiset{Retrying}, 0, 0, 0, false);
    var s2, s5 := s1.(agents := multiset{Strong, Checked}), s4.(agents := multiset{Failed});
    Upgrading(o, s1, s2, s3);
    RollingBack(s3, s4, s5, s6);
    EmptyRun(o);
    var a1 := [] + [Downgrade];
    var a2 := a1 + [UpgradeLoad];
    var a3 := a2 + [UpgradeClaim];
    var a4 := a3 + [DropStrong];
    var a5 := a4 + [UpgradeRead(false)];
    var a6 := a5 + [Rollback];
    Extend(o, [], o, Downgrade);
    Extend(o, a1, s1, UpgradeLoad);
    Extend(o, a2, s2, UpgradeClaim);
    Extend(o, a3, s3, DropStrong);
    Extend(o, a4, s4, UpgradeRead(false));
    Extend(o, a5, s5, Rollback);
    var ends := WitnessEnd(s6, rereadWorks);
    RunsOn(o, a6, s6, ends);
    acts := a6 + ends;
    assert acts[..5] == a5 && acts[5] == Rollback;
  }

  lemma {:induction false} RunsOn(o: Object, acts: seq<Action>, s: Object, more: seq<Action>)
    requires CanRun(o, acts) && After(o, acts) == s && CanRun(s, more)
    ensures CanRun(o, acts + more) && After(o, acts + more) == After(s, more)
    decreases |acts|
  {
    hide Step, Enabled;
    var all := acts + more;
    if acts == [] {
      assert all == more;
    } else {
      RunsOn(Step(o, acts[0]), acts[1..], s, more);
      assert all[0] == acts[0] && all[1..] == acts[1..] + more;
    }
  }
}
