/** The write-ahead log: a persistent block reached through an anchor, the transaction
    status that decides which logged blocks are orphans, and recovery.  The process may
    crash before any single disk write; `fuse` counts the writes that still happen. */
module Wal {
  import opened Heap

  const WAL_MIN_CAP: nat := 8
  const WAL_MAX_CAP: nat := 0x10_0000

  /** `Idle` is the source's `None`. */
  datatype Status = Idle | Pending | Complete | Abandon

  datatype Polarity = AllocEntry | DeallocEntry | CorruptEntry

  datatype Entry = Entry(status: Status, op: Polarity, slice: Off)

  /** The log block; its capacity is the number of its slots, of which `count` are live. */
  datatype Log = Log(status: Status, count: nat, slots: seq<Entry>)

  datatype Disk = Disk(live: set<Off>, anchor: Off, logs: map<Off, Log>)

  // ---- Which entries recovery acts on ----

  /** A committed transaction orphaned the blocks it logged as freed, any other one the
      blocks it logged as made; an entry is acted on once. */
  predicate Target(l: Log, j: nat) {
    && j < l.count && j < |l.slots| && l.status != Idle && l.slots[j].status == Pending
    && l.slots[j].op == if l.status == Complete then DeallocEntry else AllocEntry
  }

  function Slices(l: Log, n: nat): set<Off> {
    set j: nat | j < n && Target(l, j) :: l.slots[j].slice
  }

  /** Every orphan the log names. */
  function Orphans(l: Log): set<Off> { Slices(l, l.count) }

  ghost predicate DistinctTargets(l: Log) {
    forall i: nat, j: nat | i < j && Target(l, i) && Target(l, j) :: l.slots[i].slice != l.slots[j].slice
  }

  /** The first `n` slots with their targets marked done. */
  function Marked(l: Log, n: nat): Log {
    l.(slots := seq(|l.slots|, j requires 0 <= j < |l.slots| =>
      if j < n && Target(l, j) then l.slots[j].(status := Complete) else l.slots[j]))
  }

  ghost predicate LogOk(d: Disk, l: Log) {
    && l.count <= |l.slots|
    && DistinctTargets(l) && Orphans(l) <= d.live && d.anchor !in Orphans(l)
  }

  ghost predicate Valid(d: Disk) {
    && 0 !in d.live
    && (d.anchor != 0 ==> d.anchor in d.live && d.anchor in d.logs && LogOk(d, d.logs[d.anchor]))
  }

  function Current(d: Disk): Log
    requires d.anchor in d.logs
  {
    d.logs[d.anchor]
  }

  function WithLog(d: Disk, l: Log): Disk { d.(logs := d.logs[d.anchor := l]) }

  // ---- What recovery does ----

  /** An uninterrupted recovery: every orphan is freed and the log is idle. */
  function Finished(d: Disk): Disk {
    if d.anchor == 0 || d.anchor !in d.logs || Current(d).status == Idle then d else
      var l := Current(d);
      WithLog(d, Marked(l, l.count).(status := Idle)).(live := d.live - Orphans(l))
  }

  lemma MarkedTargets(l: Log, n: nat)
    ensures forall j: nat :: Target(Marked(l, n), j) <==> Target(l, j) && j >= n
  {}

  lemma MarkedStep(l: Log, n: nat)
    requires n < |l.slots|
    ensures Marked(l, n + 1) == if Target(l, n) then Marked(l, n).(slots := Marked(l, n).slots[n := l.slots[n].(status := Complete)])
                                else Marked(l, n)
    ensures Slices(l, n + 1) == Slices(l, n) + if Target(l, n) then {l.slots[n].slice} else {}
    ensures Target(Marked(l, n), n) <==> Target(l, n)
    ensures Marked(l, n).slots[n] == l.slots[n]
  {
  }

  /** The next target's block has not been freed yet. */
  lemma NextIsLive(l: Log, n: nat)
    requires DistinctTargets(l) && Target(l, n)
    ensures l.slots[n].slice !in Slices(l, n)
  {}

  lemma NothingMarked(l: Log)
    ensures Marked(l, 0) == l && Slices(l, 0) == {}
  {
    assert Marked(l, 0).slots == l.slots;
  }

  // ---- Crashes and re-runs ----

  /** Recovery stopped after marking the first `n` slots; the blocks of the marked targets
      are freed, except for `lost`. */
  ghost predicate StoppedAt(d: Disk, d': Disk, n: nat, lost: set<Off>) {
    && d.anchor != 0 && d.anchor in d.logs && Current(d).status != Idle
    && n <= Current(d).count && lost <= Slices(Current(d), n)
    && d' == WithLog(d, Marked(Current(d), n)).(live := d.live - (Slices(Current(d), n) - lost))
  }

  lemma StillTargets(l: Log, n: nat)
    requires n <= l.count
    ensures Orphans(Marked(l, n)) + Slices(l, n) == Orphans(l)
    ensures DistinctTargets(l) ==> DistinctTargets(Marked(l, n)) && Orphans(Marked(l, n)) !! Slices(l, n)
    ensures Marked(Marked(l, n), l.count) == Marked(l, l.count)
  {
    MarkedTargets(l, n);
    assert Marked(Marked(l, n), l.count).slots == Marked(l, l.count).slots;
  }

  /** A crash in recovery leaves a valid log, and what the next uninterrupted recovery
      frees is exactly what remained: only the blocks in the crash gap stay behind. */
  lemma StoppedThenFinished(d: Disk, d': Disk, n: nat, lost: set<Off>)
    requires Valid(d) && StoppedAt(d, d', n, lost)
    ensures Valid(d')
    ensures Finished(d') == Finished(d).(live := Finished(d).live + lost)
    ensures d.live - d'.live <= Orphans(Current(d))
    ensures Orphans(Current(d')) <= Orphans(Current(d)) && Orphans(Current(d')) !! lost
    ensures Current(d').status == Current(d).status && d'.anchor == d.anchor
  {
    var l := Current(d);
    StillTargets(l, n);
    var l' := Current(d');
    assert l' == Marked(l, n) && l'.count == l.count;
    assert WithLog(d', Marked(l', l'.count).(status := Idle)).logs == WithLog(d, Marked(l, l.count).(status := Idle)).logs;
    assert d'.live - Orphans(l') == (d.live - Orphans(l)) + lost;
  }

  /** Any number of recoveries, each crashing somewhere, from `d` to `d'`; `lost` are the
      blocks their crash gaps left behind. */
  ghost predicate Crashes(d: Disk, d': Disk, gaps: seq<set<Off>>, lost: set<Off>)
    decreases |gaps|
  {
    if gaps == [] then d' == d && lost == {}
    else exists mid, n :: StoppedAt(d, mid, n, gaps[0]) && gaps[0] <= lost && Crashes(mid, d', gaps[1..], lost - gaps[0])
  }

  /** Whatever the crashes: only orphans are ever freed, none of them twice, and a final
      uninterrupted recovery frees everything that remains except the crash gaps. */
  lemma {:induction false} CrashesThenFinished(d: Disk, d': Disk, gaps: seq<set<Off>>, lost: set<Off>)
    requires Valid(d) && d.anchor != 0 && Crashes(d, d', gaps, lost)
    ensures Valid(d') && d'.anchor == d.anchor && d'.anchor in d'.logs
    ensures Finished(d').live == Finished(d).live + lost && Finished(d').logs == Finished(d).logs
    ensures lost <= Orphans(Current(d)) && d.live - d'.live <= Orphans(Current(d))
    decreases |gaps|
  {
    if gaps != [] {
      var mid, n :| StoppedAt(d, mid, n, gaps[0]) && gaps[0] <= lost && Crashes(mid, d', gaps[1..], lost - gaps[0]);
      StoppedThenFinished(d, mid, n, gaps[0]);
      CrashesThenFinished(mid, d', gaps[1..], lost - gaps[0]);
      SlicesGrow(Current(d), n);
    }
  }

  lemma SlicesGrow(l: Log, n: nat)
    requires n <= l.count
    ensures Slices(l, n) <= Orphans(l)
  {}

  /** Recovering a recovered log frees nothing. */
  lemma FinishedTwice(d: Disk)
    ensures Finished(Finished(d)) == Finished(d)
    ensures Valid(d) ==> Valid(Finished(d))
  {
    if d.anchor != 0 && d.anchor in d.logs && Current(d).status != Idle {
      var l := Current(Finished(d));
      assert l.status == Idle;
      assert Orphans(l) == {};
    }
  }

  /** The block is logged as `op` in an entry that has not been acted on yet. */
  predicate Logged(l: Log, x: Off, op: Polarity)
    requires l.count <= |l.slots|
  {
    exists j: nat :: j < l.count && l.slots[j] == Entry(Pending, op, x)
  }

  /** The outcome decides the polarity: an idle log frees nothing, a committed one exactly
      the blocks it logged as freed, and one that is pending or abandoned exactly those it
      logged as made; a corrupt entry is never acted on. */
  lemma OutcomeDecides(l: Log, x: Off)
    requires l.count <= |l.slots|
    ensures l.status == Idle ==> x !in Orphans(l)
    ensures l.status == Complete ==> (x in Orphans(l) <==> Logged(l, x, DeallocEntry))
    ensures l.status == Pending || l.status == Abandon ==> (x in Orphans(l) <==> Logged(l, x, AllocEntry))
  {
    if x in Orphans(l) {
      var j: nat :| j < l.count && Target(l, j) && l.slots[j].slice == x;
      assert l.slots[j] == Entry(Pending, l.slots[j].op, x);
    }
    if j: nat :| j < l.count && l.slots[j].slice == x && Target(l, j) { assert x in Orphans(l); }
    assert forall j: nat :: Target(l, j) && l.slots[j].slice == x ==> x in Orphans(l);
  }

  function MarkSlot(l: Log, i: nat): Log
    requires i < |l.slots|
  {
    l.(slots := l.slots[i := l.slots[i].(status := Complete)])
  }

  lemma StopsNowhere(d: Disk)
    requires Valid(d) && d.anchor != 0 && Current(d).status != Idle
    ensures StoppedAt(d, d, 0, {}) && Slices(Current(d), 0) == {}
  {
    NothingMarked(Current(d));
    assert WithLog(d, Current(d)) == d && d.live - ({} - {}) == d.live;
  }

  lemma StopShape(d: Disk, e: Disk, n: nat, lost: set<Off>)
    requires Valid(d) && StoppedAt(d, e, n, lost)
    ensures e.anchor in e.logs && |Current(e).slots| == |Current(d).slots| && Current(d).count <= |Current(d).slots|
  {}

  /** Marking the next target opens a gap of one block. */
  lemma StopMark(d: Disk, e: Disk, i: nat, lost: set<Off>)
    requires Valid(d) && StoppedAt(d, e, i, lost) && i < Current(d).count && Target(Current(d), i)
    ensures var x := Current(d).slots[i].slice;
      && |Current(e).slots| == |Current(d).slots|
      && StoppedAt(d, WithLog(e, MarkSlot(Current(e), i)), i + 1, lost + {x})
      && x in e.live && x !in Slices(Current(d), i)
      && Slices(Current(d), i + 1) == Slices(Current(d), i) + {x}
  {
    var l := Current(d);
    MarkedStep(l, i);
    NextIsLive(l, i);
    assert l.slots[i].slice in Orphans(l);
    assert MarkSlot(Current(e), i) == Marked(l, i + 1);
    assert WithLog(e, Marked(l, i + 1)).logs == WithLog(d, Marked(l, i + 1)).logs;
    assert Slices(l, i + 1) - (lost + {l.slots[i].slice}) == Slices(l, i) - lost;
  }

  lemma StopSkip(d: Disk, e: Disk, i: nat, lost: set<Off>)
    requires Valid(d) && StoppedAt(d, e, i, lost) && i < Current(d).count && !Target(Current(d), i)
    ensures StoppedAt(d, e, i + 1, lost) && Slices(Current(d), i + 1) == Slices(Current(d), i)
  {
    MarkedStep(Current(d), i);
  }

  /** Freeing blocks closes their part of the gap; each is still made. */
  lemma StopFree(d: Disk, e: Disk, n: nat, lost: set<Off>, xs: set<Off>)
    requires Valid(d) && StoppedAt(d, e, n, lost) && xs <= lost
    ensures xs <= e.live && StoppedAt(d, e.(live := e.live - xs), n, lost - xs)
  {
    SlicesGrow(Current(d), n);
    assert d.live - (Slices(Current(d), n) - (lost - xs)) == d.live - (Slices(Current(d), n) - lost) - xs;
  }

  // ---- Staging a transaction ----

  /** The least power of two, from `p` on, that is at least `n`. */
  function NextPow2(p: nat, n: nat): (r: nat)
    requires p > 0
    ensures n <= r && 0 < r
    decreases n - p
  {
    if n <= p then p else NextPow2(2 * p, n)
  }

  /** How many slots a new log block for `needed` entries gets. */
  function LogCap(needed: nat): (r: nat)
    ensures needed <= r
  {
    var first: nat := 1;
    NextPow2(first, if needed > WAL_MIN_CAP then needed else WAL_MIN_CAP)
  }

  function Pow2(k: nat): (r: nat)
    ensures r > 0
  {
    if k == 0 then 1 else 2 * Pow2(k - 1)
  }

  lemma {:induction false} Pow2Grows(j: nat, k: nat)
    requires j <= k
    ensures Pow2(j) <= Pow2(k)
    decreases k
  {
    if j < k { Pow2Grows(j, k - 1); }
  }

  lemma {:induction false} NextIsPow2(j: nat, n: nat) returns (k: nat)
    ensures j <= k && NextPow2(Pow2(j), n) == Pow2(k) && n <= Pow2(k)
    ensures k > j ==> Pow2(k - 1) < n
    decreases n - Pow2(j)
  {
    if n <= Pow2(j) {
      k := j;
    } else {
      assert Pow2(j + 1) == 2 * Pow2(j);
      k := NextIsPow2(j + 1, n);
    }
  }

  /** The capacity of a new log block is the least power of two that holds the entries, but
      no less than eight. */
  lemma CapIsPow2(needed: nat) returns (k: nat)
    ensures LogCap(needed) == Pow2(k) && 8 <= Pow2(k) && needed <= Pow2(k)
    ensures needed > 8 ==> Pow2(k) < 2 * needed
    ensures needed <= 8 ==> Pow2(k) == 8
  {
    var first: nat := 0;
    k := NextIsPow2(first, if needed > WAL_MIN_CAP then needed else WAL_MIN_CAP);
    assert k > 0 ==> Pow2(k) == 2 * Pow2(k - 1);
    if needed <= 8 {
      var three: nat := 3;
      PowersOfTwo(three);
      if k > three { Pow2Grows(three, k - 1); }
      if k < three { Pow2Grows(k, three - 1); }
    }
  }

  lemma PowersOfTwo(three: nat)
    requires three == 3
    ensures Pow2(three) == 8 && Pow2(three - 1) == 4
  {
    assert Pow2(three) == 2 * Pow2(three - 1) && Pow2(three - 1) == 2 * Pow2(three - 2);
    assert Pow2(three - 2) == 2 * Pow2(three - 3) && Pow2(three - 3) == 1;
  }

  lemma Sixteenfold(k: nat)
    ensures Pow2(k + 4) == 16 * Pow2(k)
  {
    assert Pow2(k + 4) == 2 * Pow2(k + 3) && Pow2(k + 3) == 2 * Pow2(k + 2);
    assert Pow2(k + 2) == 2 * Pow2(k + 1) && Pow2(k + 1) == 2 * Pow2(k);
  }

  /** The trusted capacity is a power of two, so a new block exceeds it exactly when what
      is to be logged does. */
  lemma CapTrustedIff(needed: nat)
    ensures LogCap(needed) <= WAL_MAX_CAP <==> needed <= 0x10_0000
    ensures WAL_MAX_CAP == 0x10_0000
  {
    var n: nat := 20;
    Sixteenfold(n - 4);
    Sixteenfold(n - 8);
    Sixteenfold(n - 12);
    Sixteenfold(n - 16);
    Sixteenfold(n - 20);
    assert Pow2(n - 20) == 1 && Pow2(n) == 0x10_0000;
    var k := CapIsPow2(needed);
    if needed <= 0x10_0000 {
      if k > n {
        Pow2Grows(n, k - 1);
        assert Pow2(k) == 2 * Pow2(k - 1);
      } else {
        Pow2Grows(k, n);
      }
    }
  }

  /** What a log block for `needed` entries may look like. */
  ghost predicate CapFor(needed: nat, cap: nat) {
    && (exists k :: cap == Pow2(k))
    && 8 <= cap && needed <= cap && (needed > 8 ==> cap < 2 * needed) && (needed <= 8 ==> cap == 8)
  }

  /** No log block yet, or one whose capacity is within the trusted bound. */
  predicate Trusted(d: Disk) {
    d.anchor != 0 ==> d.anchor in d.logs && |d.logs[d.anchor].slots| <= WAL_MAX_CAP
  }

  /** The capacity of the block a batch is staged in. */
  lemma StagedCap(d: Disk, o: Off, blank: Log, entries: seq<Entry>, status: Status)
    requires Trusted(d) && |blank.slots| == LogCap(|entries|)
    ensures var e := Staged(d, o, blank, entries, status);
      e.anchor in e.logs && (|Current(e).slots| > WAL_MAX_CAP <==> |entries| > WAL_MAX_CAP)
  {
    CapTrustedIff(|entries|);
  }

  predicate Roomy(d: Disk, needed: nat) {
    d.anchor != 0 && d.anchor in d.logs && needed <= |Current(d).slots|
  }

  /** Growing the log block, after `k` of its writes: allocate, write the idle header,
      repoint the anchor, free the old block. */
  function GrowSteps(d: Disk, o: Off, blank: Log, k: nat): Disk {
    var live := if k >= 1 then d.live + {o} else d.live;
    Disk(if k >= 4 then live - {d.anchor} else live,
         if k >= 3 then o else d.anchor,
         if k >= 2 then d.logs[o := blank] else d.logs)
  }

  function GrowWrites(d: Disk): nat { if d.anchor != 0 then 4 else 3 }

  function Image(l: Log, entries: seq<Entry>, status: Status): Log
    requires |entries| <= |l.slots|
  {
    Log(status, |entries|, entries + l.slots[|entries|..])
  }

  function StageWrites(d: Disk, n: nat): nat { 1 + if Roomy(d, n) then 0 else GrowWrites(d) }

  /** The staged transaction. */
  function Staged(d: Disk, o: Off, blank: Log, entries: seq<Entry>, status: Status): Disk
    requires |entries| <= |blank.slots|
  {
    if Roomy(d, |entries|) then WithLog(d, Image(Current(d), entries, status))
    else WithLog(GrowSteps(d, o, blank, 4), Image(blank, entries, status))
  }

  function AllocEntries(xs: seq<Off>): (es: seq<Entry>)
    ensures |es| == |xs|
    ensures forall i :: 0 <= i < |xs| ==> es[i] == Entry(Pending, AllocEntry, xs[i])
  {
    seq(|xs|, i requires 0 <= i < |xs| => Entry(Pending, AllocEntry, xs[i]))
  }

  /** A clone's descent has logged exactly `made`; before the first allocation no
      transaction is open. */
  ghost predicate Logging(d: Disk, made: seq<Off>) {
    if d.anchor == 0 then made == [] else
    && d.anchor in d.logs
    && if made == [] then Current(d).status == Idle else
       && Current(d).status == Pending && Current(d).count == |made| <= |Current(d).slots|
       && Current(d).slots[..|made|] == AllocEntries(made)
  }

  /** Whether logging one more allocation fits the open transaction's block. */
  predicate HasRoom(d: Disk, made: seq<Off>) {
    made != [] && d.anchor in d.logs && |made| < |Current(d).slots|
  }

  function LogWrites(d: Disk, made: seq<Off>): nat {
    if HasRoom(d, made) then 3 else 1 + StageWrites(d, |made| + 1)
  }

  /** Allocating `x` and logging it, after `k` disk writes. */
  function LogSteps(d: Disk, made: seq<Off>, x: Off, o: Off, blank: Log, k: nat): Disk
    requires |made| < |blank.slots|
  {
    if k == 0 then d else
      var e := d.(live := d.live + {x});
      var n := |made|;
      if HasRoom(d, made) then
        var l := Current(d);
        var written := l.(slots := l.slots[n := Entry(Pending, AllocEntry, x)]);
        if k == 1 then e else if k == 2 then WithLog(e, written) else WithLog(e, written.(count := n + 1))
      else if k > StageWrites(d, n + 1) then Staged(e, o, blank, AllocEntries(made + [x]), Pending)
      else if Roomy(d, n + 1) then e
      else GrowSteps(e, o, blank, k - 1)
  }

  lemma StillValid(d: Disk, x: Off)
    requires Valid(d) && x != 0 && x !in d.live
    ensures Valid(d.(live := d.live + {x}))
  {}

  // ---- What a crash during a clone's descent leaves ----

  function OrphansOf(d: Disk): set<Off> {
    if d.anchor == 0 || d.anchor !in d.logs then {} else Orphans(Current(d))
  }

  lemma LoggedAreOrphans(d: Disk, made: seq<Off>)
    requires Valid(d) && Logging(d, made)
    ensures OrphansOf(d) == Range(made) && Range(made) <= d.live && d.anchor !in made
  {
    if made != [] {
      var l := Current(d);
      assert forall i :: 0 <= i < |made| ==> l.slots[i] == l.slots[..|made|][i];
      forall y <- made ensures y in Orphans(l) {
        var i: nat :| i < |made| && made[i] == y;
        assert Target(l, i);
      }
    }
  }

  /** The log block is being replaced, and the anchor already names the new, idle one. */
  predicate InWindow(d: Disk, made: seq<Off>, k: nat) {
    !HasRoom(d, made) && !Roomy(d, |made| + 1) && 4 <= k < LogWrites(d, made)
  }

  lemma {:induction false} StagedAllocs(l: Log, made: seq<Off>)
    requires |made| <= |l.slots|
    requires forall i, j :: 0 <= i < j < |made| ==> made[i] != made[j]
    ensures var m := Image(l, AllocEntries(made), Pending);
      && m.count == |made| <= |m.slots| && Orphans(m) == Range(made) && DistinctTargets(m)
      && m.slots[..|made|] == AllocEntries(made)
  {
    var m := Image(l, AllocEntries(made), Pending);
    forall i | 0 <= i < |made| ensures Target(m, i) && m.slots[i].slice == made[i] {
      assert m.slots[i] == AllocEntries(made)[i];
    }
  }

  lemma LoggedDistinct(d: Disk, made: seq<Off>, x: Off)
    requires Valid(d) && Logging(d, made) && x !in d.live
    ensures forall i, j :: 0 <= i < j < |made + [x]| ==> (made + [x])[i] != (made + [x])[j]
  {
    LoggedAreOrphans(d, made);
    if made != [] {
      var l := Current(d);
      assert forall i :: 0 <= i < |made| ==> l.slots[i] == l.slots[..|made|][i];
      assert forall i: nat :: i < |made| ==> Target(l, i) && l.slots[i].slice == made[i];
      assert forall i :: 0 <= i < |made| ==> made[i] in Range(made);
    }
  }

  /** With room in the block: the entry counts only once the count is raised. */
  lemma AppendSteps(d: Disk, made: seq<Off>, x: Off, o: Off, blank: Log, k: nat)
    requires Valid(d) && Logging(d, made) && HasRoom(d, made) && x != 0 && x !in d.live && |made| < |blank.slots|
    ensures var e := LogSteps(d, made, x, o, blank, k);
      && Valid(e) && OrphansOf(e) == Range(if k >= 3 then made + [x] else made)
      && (k >= 3 ==> Logging(e, made + [x]))
  {
    LoggedAreOrphans(d, made);
    LoggedDistinct(d, made, x);
    var l, n := Current(d), |made|;
    var written := l.(slots := l.slots[n := Entry(Pending, AllocEntry, x)]);
    assert forall j: nat :: Target(written, j) <==> Target(l, j);
    assert forall j: nat :: j < n ==> written.slots[j] == l.slots[j];
    assert Orphans(written) == Orphans(l);
    var more := written.(count := n + 1);
    var all := made + [x];
    assert written.slots[..n + 1] == AllocEntries(all);
    assert more == Image(more, AllocEntries(all), Pending);
    StagedAllocs(more, all);
  }

  /** Beginning the transaction, or growing its block. */
  lemma RestageSteps(d: Disk, made: seq<Off>, x: Off, o: Off, blank: Log, k: nat)
    requires Valid(d) && Logging(d, made) && !HasRoom(d, made) && x != 0 && x !in d.live
    requires o != 0 && o !in d.live + {x} && blank.status == Idle && blank.count == 0 && |made| < |blank.slots|
    ensures var e := LogSteps(d, made, x, o, blank, k);
      && Valid(e)
      && OrphansOf(e) == (if k >= LogWrites(d, made) then Range(made + [x]) else if InWindow(d, made, k) then {} else Range(made))
      && (k >= LogWrites(d, made) ==> Logging(e, made + [x]))
  {
    LoggedAreOrphans(d, made);
    LoggedDistinct(d, made, x);
    var e := LogSteps(d, made, x, o, blank, k);
    if k >= LogWrites(d, made) {
      StagedAllocs(if Roomy(d, |made| + 1) then Current(d) else blank, made + [x]);
    } else if InWindow(d, made, k) {
      assert Orphans(blank) == {};
    } else if d.anchor != 0 && d.anchor in d.logs {
      assert e.anchor == d.anchor && e.anchor in e.logs && Current(e) == Current(d);
    }
  }

  /** A crash while a clone logs an allocation: recovery reclaims every block logged so far
      exactly when the crash did not fall into the growth window, where the anchor names
      the new block before the transaction is staged in it again. */
  lemma DescentCrash(d: Disk, made: seq<Off>, x: Off, o: Off, blank: Log, k: nat)
    requires Valid(d) && Logging(d, made) && x != 0 && x !in d.live && k < LogWrites(d, made)
    requires o != 0 && o !in d.live + {x} && blank.status == Idle && blank.count == 0 && |made| < |blank.slots|
    ensures var e := LogSteps(d, made, x, o, blank, k);
      && Valid(e) && Range(made) <= e.live
      && (Range(made) !! Finished(e).live <==> made == [] || !InWindow(d, made, k))
      && (InWindow(d, made, k) ==> Finished(e) == e)
  {
    var e := LogSteps(d, made, x, o, blank, k);
    LoggedAreOrphans(d, made);
    if HasRoom(d, made) { AppendSteps(d, made, x, o, blank, k); } else { RestageSteps(d, made, x, o, blank, k); }
    FinishedLive(e);
    if made != [] { assert made[0] in Range(made); }
  }

  lemma FinishedLive(d: Disk)
    requires Valid(d)
    ensures Finished(d).live == d.live - OrphansOf(d)
    ensures d.anchor != 0 && Current(d).status == Idle ==> OrphansOf(d) == {}
  {}

  /** The growth window exists and loses everything logged: a full minimum-size block. */
  lemma WindowExists(d: Disk, made: seq<Off>, x: Off, o: Off, blank: Log)
    requires Valid(d) && Logging(d, made) && d.anchor in d.logs && |made| == |Current(d).slots| && made != []
    requires x != 0 && x !in d.live && o != 0 && o !in d.live + {x}
    requires blank.status == Idle && blank.count == 0 && |made| < |blank.slots|
    ensures var e := LogSteps(d, made, x, o, blank, 4);
      4 < LogWrites(d, made) && Range(made) <= Finished(e).live
  {
    assert made[0] in made;
    LoggedAreOrphans(d, made);
    assert d.anchor != 0;
    DescentCrash(d, made, x, o, blank, 4);
  }

  /** The commit of a clone flips the status in the same atomic batch as its writes, so a
      crash keeps either none of its blocks or all of them. */
  lemma CloneAllOrNothing(d: Disk, made: seq<Off>)
    requires Valid(d) && Logging(d, made) && made != []
    ensures var committed := WithLog(d, Current(d).(status := Complete));
      && Finished(d).live == d.live - Range(made)
      && Valid(committed) && Finished(committed).live == d.live
    ensures var abandoned := WithLog(d, Current(d).(status := Abandon));
      Valid(abandoned) && Finished(abandoned).live == d.live - Range(made)
  {
    var l, m := Current(d).(status := Complete), Current(d).(status := Abandon);
    LoggedAreOrphans(d, made);
    assert forall i :: 0 <= i < |made| ==> l.slots[i] == Current(d).slots[..|made|][i];
    assert Orphans(l) == {};
    assert forall j: nat :: Target(m, j) <==> Target(Current(d), j);
    assert Orphans(m) == Orphans(Current(d));
  }

  // ---- A batch of frees ----

  function DeallocEntries(xs: seq<Off>): (es: seq<Entry>)
    ensures |es| == |xs|
    ensures forall i :: 0 <= i < |xs| ==> es[i] == Entry(Pending, DeallocEntry, xs[i])
  {
    seq(|xs|, i requires 0 <= i < |xs| => Entry(Pending, DeallocEntry, xs[i]))
  }

  /** A staged batch of frees orphans nothing until it is committed, and then all of it. */
  lemma StagedFrees(l: Log, xs: seq<Off>)
    requires |xs| <= |l.slots| && Distinct(xs)
    ensures var m := Image(l, DeallocEntries(xs), Pending);
      && Orphans(m) == {} && DistinctTargets(m)
      && Orphans(m.(status := Complete)) == Range(xs) && DistinctTargets(m.(status := Complete))
  {
    var m := Image(l, DeallocEntries(xs), Pending);
    var c := m.(status := Complete);
    forall i | 0 <= i < |xs| ensures m.slots[i] == DeallocEntries(xs)[i] && Target(c, i) && c.slots[i].slice == xs[i] {}
  }

  /** The disk holds the batch, staged but not committed. */
  ghost predicate HoldsBatch(d: Disk, xs: seq<Off>) {
    && Valid(d) && d.anchor != 0 && OrphansOf(d) == {} && |xs| <= |Current(d).slots|
    && Current(d).status == Pending
    && Valid(WithLog(d, Current(d).(status := Complete)))
    && Orphans(Current(d).(status := Complete)) == Range(xs)
  }

  lemma BatchStaged(d: Disk, xs: seq<Off>, o: Off, blank: Log)
    requires Valid(d) && Distinct(xs) && Range(xs) <= d.live && d.anchor !in xs
    requires o != 0 && o !in d.live && blank.status == Idle && blank.count == 0 && |xs| <= |blank.slots|
    ensures var e := Staged(d, o, blank, DeallocEntries(xs), Pending);
      HoldsBatch(e, xs) && d.live - {d.anchor} <= e.live
  {
    StagedFrees(if Roomy(d, |xs|) then Current(d) else blank, xs);
  }

  lemma BatchCommits(d: Disk, xs: seq<Off>)
    requires HoldsBatch(d, xs)
    ensures Valid(d) && d.anchor != 0 && OrphansOf(d) == {}
    ensures var e := WithLog(d, Current(d).(status := Complete));
      Valid(e) && OrphansOf(e) == Range(xs) && e.live == d.live && Finished(e).live == d.live - Range(xs)
  {}

  /** A batch of one block more than the trusted capacity: it commits like any other, and
      then no recovery acts on it. */
  lemma OversizedBatch(o: Off, blank: Log) returns (d: Disk, xs: seq<Off>)
    requires o == 1 && blank.status == Idle && blank.count == 0 && |blank.slots| == LogCap(WAL_MAX_CAP + 1)
    ensures Valid(d) && Trusted(d) && Distinct(xs) && Range(xs) == d.live && o !in d.live && |xs| == 0x10_0001
    ensures var e := Staged(d, o, blank, DeallocEntries(xs), Pending);
      var c := WithLog(e, Current(e).(status := Complete));
      Valid(c) && OrphansOf(c) == Range(xs) && !Trusted(c)
  {
    hide Target, Slices, HoldsBatch, NextPow2;
    xs := seq(WAL_MAX_CAP + 1, i requires 0 <= i < WAL_MAX_CAP + 1 => i + 2);
    d := Disk(Range(xs), 0, map[]);
    assert forall x <- xs :: x >= 2;
    BatchStaged(d, xs, o, blank);
    StagedCap(d, o, blank, DeallocEntries(xs), Pending);
    BatchCommits(Staged(d, o, blank, DeallocEntries(xs), Pending), xs);
  }

  lemma GapWithin(d: Disk, e: Disk, n: nat, lost: set<Off>)
    requires Valid(d) && StoppedAt(d, e, n, lost)
    ensures lost <= OrphansOf(d)
  {
    SlicesGrow(Current(d), n);
  }

  lemma BulkFreed(d: Disk, xs: seq<Off>)
    requires Valid(d) && OrphansOf(d) == {} && d.anchor !in xs
    ensures Valid(d.(live := d.live - Range(xs)))
  {}

  lemma GrowingKeeps(d: Disk, n: nat, o: Off, blank: Log, k: nat)
    requires Valid(d) && OrphansOf(d) == {} && o != 0 && o !in d.live && blank.status == Idle && blank.count == 0
    ensures var e := if Roomy(d, n) then d else GrowSteps(d, o, blank, k);
      k <= GrowWrites(d) ==> Valid(e) && OrphansOf(e) == {} && d.live - {d.anchor} <= e.live
  {
    assert Orphans(blank) == {};
  }

  /** Growing the log block makes at most one block. */
  lemma GrowsByOne(d: Disk, o: Off, blank: Log, k: nat, entries: seq<Entry>)
    requires |entries| <= |blank.slots|
    ensures |GrowSteps(d, o, blank, k).live - d.live| <= 1
    ensures |Staged(d, o, blank, entries, Pending).live - d.live| <= 1
  {
    SubsetSize(GrowSteps(d, o, blank, k).live - d.live, {o});
    SubsetSize(Staged(d, o, blank, entries, Pending).live - d.live, {o});
  }

  lemma {:induction false} DistinctCount(xs: seq<Off>)
    requires Distinct(xs)
    ensures |Range(xs)| == |xs|
  {
    if xs != [] {
      var n := |xs| - 1;
      DistinctCount(xs[..n]);
      assert xs == xs[..n] + [xs[n]];
      assert Range(xs) == Range(xs[..n]) + {xs[n]} && xs[n] !in Range(xs[..n]);
    }
  }

  datatype Outcome = Done(freed: nat) | Crashed | Refused

  /** A committed batch: done, all of `xs` is freed; crashed, recovery frees all of it but
      at most one block; refused, nothing is freed at all. */
  ghost predicate Carried(d: Disk, e: Disk, xs: seq<Off>, r: Outcome, lost: set<Off>) {
    match r
    case Done(_) => e.live == d.live - Range(xs) && lost == {}
    case Crashed => lost <= Range(xs) && |lost| <= 1 && Finished(e).live == (d.live - Range(xs)) + lost
    case Refused => e.live == d.live && d.anchor in d.logs && |Current(d).slots| > WAL_MAX_CAP
  }

  class WalFile {
    var disk: Disk
    var fuse: nat       // disk writes left before the process dies
    const bulk: bool    // the allocator frees a whole batch in one atomic step

    constructor (d: Disk, writes: nat, atomicBulk: bool)
      ensures disk == d && fuse == writes && bulk == atomicBulk
    {
      disk, fuse, bulk := d, writes, atomicBulk;
    }

    method Tick() returns (alive: bool)
      modifies this`fuse
      ensures alive <==> old(fuse) > 0
      ensures fuse == if alive then old(fuse) - 1 else 0
    {
      alive := fuse > 0;
      if alive { fuse := fuse - 1; }
    }

    /** Free a block: it must still be made. */
    method Free(x: Off) returns (alive: bool)
      requires x in disk.live
      modifies this`disk, this`fuse
      ensures (alive <==> old(fuse) > 0) && fuse == if alive then old(fuse) - 1 else 0
      ensures disk == if alive then old(disk).(live := old(disk).live - {x}) else old(disk)
    {
      alive := Tick();
      if alive { disk := disk.(live := disk.live - {x}); }
    }

    method SetLog(l: Log) returns (alive: bool)
      requires disk.anchor in disk.logs
      modifies this`disk, this`fuse
      ensures (alive <==> old(fuse) > 0) && fuse == if alive then old(fuse) - 1 else 0
      ensures disk == if alive then WithLog(old(disk), l) else old(disk)
    {
      alive := Tick();
      if alive { disk := WithLog(disk, l); }
    }

    /** Complete a crash-left transaction: free what its outcome orphaned, marking each
        entry before its block is freed, then set the log idle. */
    method Finish() returns (r: Outcome, ghost n: nat, ghost lost: set<Off>)
      requires Valid(disk)
      modifies this`disk, this`fuse
      ensures r.Refused? <==> old(disk).anchor != 0 && |Current(old(disk)).slots| > WAL_MAX_CAP
      ensures r.Refused? ==> disk == old(disk)
      ensures r.Done? ==> disk == Finished(old(disk)) && lost == {}
      ensures r.Done? && old(disk).anchor != 0 ==> r.freed == |Orphans(Current(old(disk)))|
      ensures r.Done? && old(disk).anchor != 0 ==>
        var l := Current(old(disk));
        && disk.anchor == old(disk).anchor && disk.live == old(disk).live - Orphans(l)
        && disk.anchor in disk.logs && Current(disk).status == Idle
        && Current(disk).count == l.count && |Current(disk).slots| == |l.slots|
        && forall j :: 0 <= j < |l.slots| ==>
             Current(disk).slots[j] == if Target(l, j) then l.slots[j].(status := Complete) else l.slots[j]
      ensures r.Crashed? ==> StoppedAt(old(disk), disk, n, lost)
      ensures r.Crashed? && !bulk ==> |lost| <= 1
      ensures r.Crashed? && bulk ==> lost == {} || disk.live == old(disk).live
    {
      n, lost := 0, {};
      if disk.anchor == 0 { return Done(0), n, lost; }
      var l := Current(disk);
      if |l.slots| > WAL_MAX_CAP { return Refused, n, lost; }
      if l.status == Idle {
        assert Orphans(l) == {};
        return Done(0), n, lost;
      }
      var alive, done;
      if bulk {
        alive, done, n, lost := RecoverBulk(l);
      } else {
        alive, done, n, lost := RecoverOneByOne(l);
      }
      if !alive { return Crashed, n, lost; }
      ghost var before := disk;
      alive := SetLog(Current(disk).(status := Idle));
      if !alive { return Crashed, n, lost; }
      r := Done(done);
    }

    method RecoverOneByOne(l: Log) returns (alive: bool, done: nat, ghost n: nat, ghost lost: set<Off>)
      requires Valid(disk) && disk.anchor != 0 && l == Current(disk) && l.status != Idle
      modifies this`disk, this`fuse
      ensures StoppedAt(old(disk), disk, n, lost) && |lost| <= 1
      ensures alive ==> n == l.count && lost == {} && done == |Orphans(l)|
    {
      hide StoppedAt, Valid, Marked, Target, Slices;
      ghost var d := disk;
      var i := 0;
      done := 0;
      StopsNowhere(d);
      while i < l.count
        invariant 0 <= i <= l.count && StoppedAt(d, disk, i, {}) && done == |Slices(l, i)|
      {
        StopShape(d, disk, i, {});
        if Target(l, i) {
          var x := l.slots[i].slice;
          StopMark(d, disk, i, {});
          alive := SetLog(MarkSlot(Current(disk), i));
          if !alive { return false, done, i, {}; }
          StopFree(d, disk, i + 1, {x}, {x});
          alive := Free(x);
          if !alive { return false, done, i + 1, {x}; }
          done := done + 1;
        } else {
          StopSkip(d, disk, i, {});
        }
        i := i + 1;
      }
      return true, done, i, {};
    }

    /** Mark everything first, then free all of it in one atomic step. */
    method RecoverBulk(l: Log) returns (alive: bool, done: nat, ghost n: nat, ghost lost: set<Off>)
      requires Valid(disk) && disk.anchor != 0 && l == Current(disk) && l.status != Idle
      modifies this`disk, this`fuse
      ensures StoppedAt(old(disk), disk, n, lost) && (lost == {} || disk.live == old(disk).live)
      ensures alive ==> n == l.count && lost == {} && done == |Orphans(l)|
    {
      hide StoppedAt, Valid, Marked, Target, Slices;
      ghost var d := disk;
      var i, batch := 0, [];
      StopsNowhere(d);
      while i < l.count
        invariant 0 <= i <= l.count && StoppedAt(d, disk, i, Slices(l, i)) && disk.live == d.live
        invariant Range(batch) == Slices(l, i) && |batch| == |Slices(l, i)|
      {
        StopShape(d, disk, i, Slices(l, i));
        if Target(l, i) {
          StopMark(d, disk, i, Slices(l, i));
          alive := SetLog(MarkSlot(Current(disk), i));
          if !alive { return false, |batch|, i, Slices(l, i); }
          batch := batch + [l.slots[i].slice];
        } else {
          StopSkip(d, disk, i, Slices(l, i));
        }
        i := i + 1;
      }
      alive := Tick();
      if !alive { return false, |batch|, i, Slices(l, i); }
      StopFree(d, disk, i, Slices(l, i), Slices(l, i));
      disk := disk.(live := disk.live - Range(batch));
      assert Slices(l, i) - Slices(l, i) == {};
      return true, |batch|, i, {};
    }

    /** Make the anchor name a log block with at least `needed` slots: reuse it, or allocate
        a larger idle one, repoint the anchor, and only then free the old one. */
    method EnsureBlock(needed: nat) returns (r: Outcome, ghost o: Off, ghost blank: Log)
      requires Valid(disk)
      modifies this`disk, this`fuse
      ensures o != 0 && o !in old(disk).live && blank.status == Idle && blank.count == 0 && |blank.slots| == LogCap(needed)
      ensures CapFor(needed, |blank.slots|)
      ensures old(disk).anchor != 0 && |Current(old(disk)).slots| > 0x10_0000 ==> r.Refused?
      ensures !Trusted(old(disk)) ==> r.Refused?
      ensures r.Done? ==>
        && disk.anchor != 0 && disk.anchor in disk.logs && needed <= |Current(disk).slots|
        && (!Roomy(old(disk), needed) ==>
              && Current(disk) == blank && disk.anchor == o
              && disk.live == old(disk).live + {o} - {old(disk).anchor})
      ensures r.Refused? ==> disk == old(disk)
      ensures r.Done? && Roomy(old(disk), needed) ==> disk == old(disk) && fuse == old(fuse)
      ensures r.Done? && !Roomy(old(disk), needed) ==>
        disk == GrowSteps(old(disk), o, blank, 4) && fuse == old(fuse) - GrowWrites(old(disk))
      ensures r.Crashed? ==> !Roomy(old(disk), needed) && old(fuse) < GrowWrites(old(disk))
      ensures r.Crashed? ==> disk == GrowSteps(old(disk), o, blank, old(fuse))
    {
      var cap := LogCap(needed);
      ghost var k := CapIsPow2(needed);
      var at := FreshOffset(disk.live);
      var idle := Log(Idle, 0, seq(cap, _ => Entry(Idle, CorruptEntry, 0)));
      o, blank := at, idle;
      var was := disk.anchor;
      if was != 0 {
        if |Current(disk).slots| > WAL_MAX_CAP { return Refused, o, blank; }
        if needed <= |Current(disk).slots| { return Done(0), o, blank; }
      }
      if * { return Refused, o, blank; }  // the allocator has no space
      var alive := Tick();
      if !alive { return Crashed, o, blank; }
      disk := disk.(live := disk.live + {at});
      alive := Tick();
      if !alive { return Crashed, o, blank; }
      disk := disk.(logs := disk.logs[at := idle]);
      alive := Tick();
      if !alive { return Crashed, o, blank; }
      disk := disk.(anchor := at);
      if was != 0 {
        alive := Free(was);
        if !alive { return Crashed, o, blank; }
      }
      r := Done(0);
    }

    /** Stage a transaction: one atomic write of header and entries over the block. */
    method Persist(entries: seq<Entry>, status: Status) returns (r: Outcome, ghost o: Off, ghost blank: Log)
      requires Valid(disk)
      modifies this`disk, this`fuse
      ensures o != 0 && o !in old(disk).live && blank.status == Idle && blank.count == 0 && |blank.slots| == LogCap(|entries|)
      ensures CapFor(|entries|, |blank.slots|)
      ensures !Trusted(old(disk)) ==> r.Refused?
      ensures r.Done? ==>
        && disk.anchor != 0 && disk.anchor in disk.logs
        && Current(disk).status == status && Current(disk).count == |entries| <= |Current(disk).slots|
        && Current(disk).slots[..|entries|] == entries
        && (Roomy(old(disk), |entries|) ==>
              && disk.anchor == old(disk).anchor && disk.live == old(disk).live
              && |Current(disk).slots| == |Current(old(disk)).slots|)
        && (!Roomy(old(disk), |entries|) ==>
              && disk.anchor == o && disk.live == old(disk).live + {o} - {old(disk).anchor}
              && |Current(disk).slots| == |blank.slots|)
      ensures r.Refused? ==> disk == old(disk)
      ensures r.Done? ==> disk == Staged(old(disk), o, blank, entries, status) && fuse == old(fuse) - StageWrites(old(disk), |entries|)
      ensures r.Crashed? ==> old(fuse) < StageWrites(old(disk), |entries|)
      ensures r.Crashed? ==> disk == if Roomy(old(disk), |entries|) then old(disk) else GrowSteps(old(disk), o, blank, old(fuse))
    {
      r, o, blank := EnsureBlock(|entries|);
      if !r.Done? { return; }
      var l := Current(disk);
      var alive := SetLog(Log(status, |entries|, entries + l.slots[|entries|..]));
      if !alive { r := Crashed; }
    }

    /** Allocate a block of a deep clone and log it the instant it exists. */
    method LogAlloc(made: seq<Off>) returns (r: Outcome, x: Off, ghost o: Off, ghost blank: Log)
      requires Valid(disk) && Logging(disk, made)
      modifies this`disk, this`fuse
      ensures x != 0 && x !in old(disk).live && o != 0 && o !in old(disk).live + {x}
      ensures blank.status == Idle && blank.count == 0 && |made| < |blank.slots|
      ensures r.Refused? ==> disk == old(disk)
      ensures r.Done? ==> disk == LogSteps(old(disk), made, x, o, blank, 6)
      ensures r.Done? ==> Valid(disk) && Logging(disk, made + [x]) && OrphansOf(disk) == Range(made + [x])
      ensures r.Crashed? ==> disk == LogSteps(old(disk), made, x, o, blank, old(fuse))
      ensures r.Crashed? ==> old(fuse) < LogWrites(old(disk), made)
    {
      ghost var d := disk;
      var at := FreshOffset(disk.live);
      x := at;
      var spare := FreshOffset(disk.live + {at});
      o, blank := spare, Log(Idle, 0, seq(|made| + 1, _ => Entry(Idle, CorruptEntry, 0)));
      if * { return Refused, x, o, blank; }
      var alive := Tick();
      if !alive { return Crashed, x, o, blank; }
      disk := disk.(live := disk.live + {at});
      var n := |made|;
      if n > 0 && n < |Current(disk).slots| {
        var l := Current(disk);
        var entry := Entry(Pending, AllocEntry, at);
        alive := SetLog(l.(slots := l.slots[n := entry]));
        if !alive { return Crashed, x, o, blank; }
        l := Current(disk);
        alive := SetLog(l.(count := n + 1));
        if !alive { return Crashed, x, o, blank; }
        AppendSteps(d, made, x, o, blank, 6);
        return Done(0), x, o, blank;
      }
      StillValid(d, at);
      r, o, blank := Persist(AllocEntries(made + [at]), Pending);
      if r.Refused? { disk := disk.(live := disk.live - {at}); assert disk == d; }
      if r.Done? { RestageSteps(d, made, x, o, blank, 6); }
    }

    /** Flip the staged batch to committed and carry it out. */
    method CarryOut(xs: seq<Off>) returns (r: Outcome, ghost committed: bool, ghost lost: set<Off>)
      requires HoldsBatch(disk, xs) && !bulk
      modifies this`disk, this`fuse
      ensures Valid(disk)
      ensures !committed ==> r.Crashed? && disk == old(disk)
      ensures committed ==> Carried(old(disk), disk, xs, r, lost)
      ensures committed ==> (r.Refused? <==> |Current(old(disk)).slots| > WAL_MAX_CAP)
      ensures committed && r.Done? ==> r.freed == |Range(xs)|
    {
      hide HoldsBatch, Target, Slices, StoppedAt;
      ghost var d := disk;
      BatchCommits(d, xs);
      var alive := SetLog(Current(disk).(status := Complete));
      if !alive { return Crashed, false, {}; }
      committed := true;
      ghost var e, n := disk, 0;
      r, n, lost := Finish();
      FinishedLive(e);
      if r.Crashed? {
        StoppedThenFinished(e, disk, n, lost);
        GapWithin(e, disk, n, lost);
      } else if r.Done? {
        FinishedTwice(e);
      }
    }

    /** Free a batch as one unit.  Until the commit nothing is freed, now or by recovery;
        after it a crash loses at most the one block in the crash gap, and recovery frees
        the rest.  A batch so large that its log block exceeds the trusted capacity commits
        but is never carried out. */
    method CommitFrees(xs: seq<Off>) returns (r: Outcome, ghost committed: bool, ghost lost: set<Off>, ghost base: Disk)
      requires Valid(disk) && OrphansOf(disk) == {}
      requires Distinct(xs) && Range(xs) <= disk.live && disk.anchor !in xs
      modifies this`disk, this`fuse
      ensures Valid(disk) && old(disk).live - {old(disk).anchor} <= base.live
      ensures !committed ==> !r.Done? && disk == base && OrphansOf(disk) == {}
      ensures committed ==> Carried(base, disk, xs, r, lost)
      ensures |base.live - old(disk).live| <= 1
      ensures committed && r.Done? ==> r.freed == |xs| && disk.live == base.live - Range(xs)
      ensures committed && r.Crashed? ==> |lost| <= 1 && Finished(disk).live == (base.live - Range(xs)) + lost
      ensures committed && r.Refused? ==> disk.live == base.live
      ensures !Trusted(old(disk)) && !bulk && xs != [] ==> !committed
      ensures committed && !bulk ==> (r.Refused? <==> |xs| > 0x10_0000)
      ensures bulk ==> !r.Refused?
    {
      hide HoldsBatch, Target, Slices;
      committed, lost, base := false, {}, disk;
      DistinctCount(xs);
      assert disk.live - disk.live == {};
      if bulk || xs == [] {
        if xs == [] { return Done(0), true, lost, base; }
        var alive := Tick();
        if !alive { return Crashed, false, lost, base; }
        disk := disk.(live := disk.live - Range(xs));
        BulkFreed(base, xs);
        return Done(|xs|), true, lost, base;
      }
      ghost var d, f := disk, fuse;
      ghost var o, blank;
      r, o, blank := Persist(DeallocEntries(xs), Pending);
      base := disk;
      GrowsByOne(d, o, blank, f, DeallocEntries(xs));
      if !r.Done? {
        if r.Crashed? { GrowingKeeps(d, |xs|, o, blank, f); }
        return;
      }
      BatchStaged(d, xs, o, blank);
      StagedCap(d, o, blank, DeallocEntries(xs), Pending);
      CapTrustedIff(|xs|);
      r, committed, lost := CarryOut(xs);
      if !committed { assert OrphansOf(disk) == {} by { BatchCommits(disk, xs); } }
    }
  }
}
