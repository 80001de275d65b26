/** A logged clone as seen from outside: the heap and the log block of one file together.
    Whatever moment the process dies at between two allocations, recovery leaves either
    the heap as it was or the heap with the complete clone. */
module CloneLog {
  import opened Heap
  import opened Tree
  import opened Sharing
  import Wal

  /** The allocated blocks of the file are those of the heap and the log's own. */
  ghost predicate Holds(d: Wal.Disk, h: Store) {
    d.anchor !in h && d.live == h.Keys + if d.anchor == 0 then {} else {d.anchor}
  }

  /** The descent of a clone has allocated and logged the first `k` of its blocks. */
  ghost predicate Descending(d: Wal.Disk, h: Store, at: seq<Off>, k: nat) {
    && k <= |at| && Fresh(h, at) && Wal.Valid(d) && Wal.Logging(d, at[..k])
    && d.anchor !in h && d.anchor !in at
    && d.live == h.Keys + Range(at[..k]) + if d.anchor == 0 then {} else {d.anchor}
  }

  /** A descent starts over an idle log, or over none. */
  lemma DescentStarts(d: Wal.Disk, h: Store, at: seq<Off>)
    requires Fresh(h, at) && Wal.Valid(d) && Holds(d, h) && d.anchor !in at
    requires d.anchor != 0 ==> Wal.Current(d).status == Wal.Idle
    ensures Descending(d, h, at, 0)
  {
    assert at[..0] == [] && Range([]) == {};
  }

  /** Logging the next block, with or without growing the log, goes on with the descent. */
  lemma DescentGoesOn(d: Wal.Disk, h: Store, at: seq<Off>, k: nat, o: Off, blank: Wal.Log)
    requires Descending(d, h, at, k) && k < |at|
    requires o != 0 && o !in d.live && o !in at && blank.status == Wal.Idle && blank.count == 0 && k < |blank.slots|
    ensures Descending(Wal.LogSteps(d, at[..k], at[k], o, blank, 6), h, at, k + 1)
  {
    hide Wal.Target, Wal.Slices, Wal.OrphansOf;
    var made := at[..k];
    assert at[..k + 1] == made + [at[k]];
    assert at[k] !in d.live;
    if Wal.HasRoom(d, made) {
      Wal.AppendSteps(d, made, at[k], o, blank, 6);
    } else {
      Wal.RestageSteps(d, made, at[k], o, blank, 6);
    }
    NextLive(d, made, at[k], o, blank);
    assert Range(at[..k + 1]) == Range(made) + {at[k]};
  }

  lemma NextLive(d: Wal.Disk, made: seq<Off>, x: Off, o: Off, blank: Wal.Log)
    requires Wal.Valid(d) && |made| < |blank.slots| && o != 0 && o !in d.live && x != 0 && x !in d.live
    ensures var e := Wal.LogSteps(d, made, x, o, blank, 6);
      && (e.anchor == d.anchor || e.anchor == o)
      && e.live == d.live + {x} + (if e.anchor == d.anchor then {} else {o}) - if e.anchor == d.anchor || d.anchor == 0 then {} else {d.anchor}
  {}

  /** Dying before the commit: recovery frees every block of the clone and no other. */
  lemma DiedBeforeCommit(d: Wal.Disk, h: Store, at: seq<Off>, k: nat)
    requires Descending(d, h, at, k) && k > 0
    ensures Holds(Wal.Finished(d), h)
  {
    Wal.CloneAllOrNothing(d, at[..k]);
  }

  /** Dying after it: recovery keeps the clone, and the law holds with its handle. */
  lemma DiedAfterCommit(d: Wal.Disk, h: Store, held: multiset<Edge>, n: Node, at: seq<Off>)
    requires Accounted(h, held) && WellFormedSlot(Child(n)) && SlotIn(h, Child(n))
    requires |at| == Count(n.slots) + 1 && Descending(d, h, at, |at|)
    ensures forall e <- Shared(n.slots) :: Countable(h, e)
    ensures var g, m := Cloned(h, n, at), MoveNode(n, at);
      && Holds(Wal.Finished(Wal.WithLog(d, Wal.Current(d).(status := Wal.Complete))), g)
      && Accounted(g, held + multiset{Handle(m)})
  {
    hide Accounted, Cloned;
    assert at[..|at|] == at;
    CloneCorrect(h, held, n, at);
    Wal.CloneAllOrNothing(d, at);
  }
}
