# bstack_raii: a verified model

bstack_raii stores an object graph in one file: blocks own, embed, share, observe or borrow
other blocks by offset, and generated code constructs, tears down, clones, moves out and
replaces them. This project models that generated code and its runtime in Dafny and proves
the conservation laws behind it, for every store, every field list and every run.

`dafny verify dfyconfig.toml` checks everything.

## The model

| file | what it models |
|---|---|
| `Laws.dfy` | two laws of arithmetic and sequences used throughout |
| `Heap.dfy` | block images, the references they hold, the global accounting law, one release |
| `Cascade.dfy` | cascading release as an abstract machine: termination, confluence, its exact result |
| `Walks.dfy` | the steps of a teardown as if nesting had no bound, the part of them a bound lets through, and their effect on the disk |
| `Teardowns.dfy` | the generated teardown over a disk with a free sink and a depth guard, proved to perform exactly that part of that walk |
| `Depths.dfy` | which owned trees pass the guard, and what a refused teardown leaves behind |
| `Tree.dfy`, `Ownership.dfy` | owned trees in the store: existence, relocation, survival, removal |
| `Sharing.dfy`, `Clone.dfy` | reference counters, the clone plan with its measure, build and direct passes, its commit, and the clone/teardown round trip |
| `Construct.dfy`, `MoveOut.dfy`, `Arenas.dfy` | constructors, moves, their failure hand-back, and the round trip between them |
| `Replace.dfy` | in-place replacement of scalar, array element and whole-array slots |
| `System.dfy` | whole runs of a program over the heap, and what can be left over at the end |
| `SharedCounts.dfy` | the counters of one `(rc, weak)` block under any interleaving of any number of threads |
| `Wal.dfy` | the write-ahead log, its recovery, and crashes before any single disk write |
| `CloneLog.dfy` | a logged clone with heap and log block together |
| `CloneLocks.dfy` | the per-file locks of clones and log transactions |
| `Discriminants.dfy`, `EnumPayload.dfy`, `Schema.dfy`, `Arrays.dfy` | the layout compiler and the schema that must describe it |
| `Expr.dfy` | the expression-tree example: evaluation and printing over the store |

The law (`Heap.Accounted`) says, for a store and the handles a program holds: every plain
block and every vector's storage has exactly one owner, every inline, strong and weak count
is positive where it must be and equals its number of holders, a live data block and its
control block point at each other, and no reference dangles. The phantom weak reference that
the strong owners share is an edge of the data block. Offset 0 is "none".

Code that works step by step is a class or a loop here: `Teardowns.Disk`, `Clone.ClonePlan`,
`Arenas.Arena`, `Replace.Mutator`, `SharedCounts.Counter`, `Wal.WalFile`,
`CloneLocks.LockTable`, and the loops of the layout modules. Each is tied by its contract to
functions and relations whose properties are the lemmas. Steps that may fail for outside
reasons (allocation, a write, a re-read) fail nondeterministically. Every counter access,
slot swap and batched write is one atomic step.

## Where the code and its own text disagree

The model follows the code. In these places a documented promise does not hold in general;
the named member gives the exact condition under which it does.

- A weak upgrade whose pointer read fails takes its claim back, and if that was the last one
  tries to finish the release (`src/types/compiled/rc.rs:535-549`). That second release is
  always refused, because the count is already zero, so data and control block are never
  freed, even when the re-read succeeds: `SharedCounts.Refusals`, `SharedCounts.Reclaimed`,
  and `SharedCounts.StrandedRun` for a run that gets there.
- The depth guard is called the chokepoint of the whole owned recursion
  (`src/types/compiled/owned.rs:125-127`). Plain owned vectors drop their elements past it, so
  any number of blocks nested through them is walked: `Depths.VectorsUnbounded`.
- A logged teardown that the guard stops is said to leave the structure intact apart from
  lowered counts (`src/io_core/teardown.rs:232-239`). Which trees that concerns is read off
  the tree before the call: `Depths.RefusalKeepsLaw`, and `Depths.FieldOrderDecides` for a
  pair of trees on either side.
- A crash during a clone is said to lose at most one block (`src/io_core/clone.rs:40`). While
  a full log block is replaced, the anchor already names the new idle block before the
  transaction is staged in it, and a crash there loses every block logged so far:
  `Wal.DescentCrash`, `Wal.WindowExists`.
- A failed re-home during a move is said to leave the object recoverable
  (`derive/src/emit.rs:4701-4707`). With several embedded children, copies already made stay
  behind, and unless they hold nothing they hold references a second time:
  `MoveOut.StuckUnchanged`, `MoveOut.StuckAccountable`, `MoveOut.StuckWitness`. On a shared
  block the count has already been lowered to zero, so any block with an embedded field can
  end in a state no handles account for, and no other can: `MoveOut.SharedStuckIff`.
- A strong whole-array replace whose displaced handles cannot all be rebuilt is said to leave
  them recoverable (`src/handback/replace.rs:46-56`). Only the failing one is; earlier ones
  are released and later ones are lost: `Replace.Mutator.ReplaceWhole`,
  `Replace.RecoverableIff`, `Replace.NothingGoneIff`, and `Replace.BrokenWitness` for a block
  where it happens.
- Generated constructors are said to recover their children infallibly
  (`src/handback/construct.rs:46-51`). Their hand-back rebuilds strong handles from control
  pointers, and a post-write copy hands nothing back: a constructor can lose a handle if and
  only if one of its handles needs its control pointer or one of its fields is an embedded
  child (`Construct.NewLosesIff`; for the hand-back alone, which moves share,
  `Construct.RebuildLosesIff`; `Construct.LossWitness` for an input).
- The inferred discriminant type is said to hold every value
  (`derive/src/util.rs:1151-1153`). The widest candidate is not checked:
  `Discriminants.Assign`, `Discriminants.UncheckedWidth`. This concerns the inference alone:
  the value goes on into a literal suffixed with the inferred type, which the Rust compiler's
  default lints refuse; unless they are silenced no compiled enum has such a discriminant.
- A batch of frees with more entries than the trusted capacity is committed and then refused
  by recovery, and no other batch is: `Wal.WalFile.CommitFrees`, `Wal.CapTrustedIff`,
  `Wal.OversizedBatch`.
- The class macro has no shape for two vector types the block macro lowers:
  `Schema.DescribedUnlessGap`.

## Model

| member | source | states |
|---|---|---|
| Heap.ReleaseConserves | src/types/compiled/rc.rs:123-136 | releasing one reference turns the edges of every block it frees into debts, one for one, and otherwise only lowers counts |
| Heap.HeldCanRelease | src/types/compiled/rc.rs:250-257 | a held reference can always be released: its target is there, of the right kind, and its count does not underflow |
| Heap.ReleaseAccounted | src/types/compiled/rc.rs:265-285 | releasing a held reference keeps the global law: one owner per owned block, every count equal to its holders, data and control blocks pointing at each other, nothing dangling |
| Heap.LastWeakHasNoData | src/types/compiled/rc.rs:239-257 | a control block whose weak count is one has no live data, so it is never freed under a data block |
| Heap.CountsDetermined | src/types/compiled/rc.rs:41-68 | the law determines every counter: two accounted stores with the same blocks up to counts are equal |
| Heap.RewriteAccounted | derive/src/emit.rs:1046-1062 | storing handles in a block in exchange for those it held keeps the law |
| Cascade.RunsAccounted | derive/src/block.rs:836-856 | every schedule of cascading releases keeps the law and only removes blocks or lowers counts |
| Cascade.RunsToCompletion | derive/src/emit.rs:2086-2131 | teardown terminates from every accounted store, in exactly as many steps as edges disappear |
| Cascade.RunsGreatest | derive/src/block.rs:836-856 | a completed teardown frees nothing the remaining handles account for and keeps nothing else: it ends in the greatest accounted part of the store |
| Cascade.RunsConfluent | derive/src/block.rs:836-856 | the order of field teardown does not matter: all complete schedules end in the same store, counters included |
| Cascade.RunsFrame | src/types/compiled/rc.rs:265-285 | debts nobody pays do not disturb a cascade |
| Cascade.RunsSequence | derive/src/block.rs:853-854 | dropping one field to the end and then the next pays both |
| Walks.FieldsRun | derive/src/block.rs:842-856 | the walk over held fields, in field order, is a complete schedule of the release machine: every edge is paid, each to its end |
| Walks.EdgeFrees | src/types/compiled/rc.rs:265-285 | a walk frees exactly the blocks that disappear, each once |
| Walks.EdgeLeads | src/types/traits/drop.rs:74-80 | every paid edge can be paid at that moment, and no block is freed before its release has begun |
| Walks.ReplayAll | src/io_core/teardown.rs:214-244 | after a completed walk the disk holds exactly what the law sees, besides the collected blocks of a logged one |
| Walks.RankedTeardownFits | src/io_core/teardown.rs:164-194 | a teardown passes the guard if ranks up to 500 decrease along the owned and strong edges of a part of the store those edges do not leave; cycles elsewhere do not matter |
| Teardowns.Disk.DropFields | derive/src/block.rs:842-856 | the field-by-field teardown performs exactly the steps of the unbounded walk before the first too deep one, and succeeds if and only if there is none |
| Teardowns.Disk.DropField | derive/src/emit.rs:4792-4808 | each field kind takes its own part of the walk; plain, borrowed and null fields do nothing |
| Teardowns.Disk.DropOwned | src/types/compiled/owned.rs:123-136 | one guarded level: the block's children, then the block, or a refusal before anything is touched; an element of a plain vector takes no level |
| Teardowns.Disk.DropVec | src/types/compiled/vec.rs:579-590 | a vector drops its elements and then its data block, without a guarded level of its own; only arrays of elements are guarded |
| Teardowns.Disk.DropBlock | src/types/traits/drop.rs:74-80 | the content of a block, then the block itself |
| Teardowns.Disk.DropRc | src/types/compiled/rc.rs:123-136 | an inline count is lowered and only the last owner frees the block |
| Teardowns.Disk.DropData | src/types/compiled/rc.rs:265-285 | the two-phase release of an (rc, weak) block: decrement, free the data, release the phantom weak reference |
| Teardowns.Disk.ReleaseWeakRef | src/types/compiled/rc.rs:250-257 | a weak release lowers the weak count and frees the control block at zero, never the data |
| Teardowns.Disk.DeallocRange | src/io_core/teardown.rs:113-125 | a free inside a logged teardown is collected, outside it happens at once |
| Teardowns.Disk.CommitFrees | src/io_core/teardown.rs:241-243 | the collected ranges are distinct and live, and exactly they are freed |
| Teardowns.Disk.BstackDrop | src/io_core/teardown.rs:214-244 | a teardown succeeds if and only if no step of the walk is too deep, for a tree without strong references exactly up to 500 guarded levels, and then is a complete run that keeps the law; otherwise, logged or not, the disk is left exactly as the steps before the refused one leave it |
| Teardowns.Disk.DropHandle | src/types/compiled/rc.rs:299-322 | dropping a shared handle: no log covers it, a strong handle is itself a guarded level, and success, result and failure follow the walk as above |
| Depths.TeardownFits | src/types/compiled/owned.rs:123-136 | an owned tree can be torn down only if it nests at most 500 levels, and exactly then if every block its strong references lead to survives, in particular without strong references |
| Depths.PlainTreeFits | src/io_core/teardown.rs:164-194 | an owned tree without strong references can be torn down if and only if at most 500 guarded levels nest below its root |
| Depths.ChainFits | src/io_core/teardown.rs:170-190 | a root over a chain of n owned records, written out block by block, can be torn down if and only if n is at most 500 |
| Depths.LevelsTaken | src/types/compiled/owned.rs:123-136 | an owned record takes one level, as an element of a plain vector none; a strong reference takes one; vectors, weak references and embedded children take none |
| Depths.LevelPaid | src/io_core/teardown.rs:175-190 | the walk meets an owned edge one level further in unless it is an element of a plain vector, a strong one always, and the guard refuses levels from 501 on |
| Depths.HeldSurvives | src/types/compiled/rc.rs:123-136 | a strong target the program holds as well survives the teardown |
| Depths.RefusalKeepsLaw | src/io_core/teardown.rs:232-239 | a refused teardown leaves a lawful state if and only if, in field order, the walk meets the too deep level before any shared reference and, without a log, before it has finished a block |
| Depths.FieldOrderDecides | src/io_core/teardown.rs:232-239 | of two roots that differ in the order of a strong field and a chain of 501 blocks, written out block by block, neither can be torn down, and only the one with the chain first stays lawful |
| Depths.VectorsUnbounded | src/types/compiled/vec.rs:579-590 | a tree of any number of blocks nested through plain owned vectors passes the guard |
| Ownership.OwnedForest | README.md:138-145 | below any held fields hangs a finite forest of distinct blocks: ownership is never cyclic below a handle |
| Ownership.OwnedTreeFreed | derive/src/emit.rs:2086-2108 | a completed teardown of an owner frees every block of its owned, embedded and vector closure |
| Ownership.NodeStays | derive/src/emit.rs:2086-2108 | a tree whose root stays held survives any teardown of other handles, byte for byte |
| Ownership.SurvivorsExactly | derive/src/block.rs:836-856 | a block survives a completed teardown if and only if some part of the store accounted for by the remaining handles contains it |
| Tree.AllocAccounted | derive/src/emit.rs:1983-2014 | writing an image at a fresh offset trades the edges it holds for the one handle on the new block |
| Tree.GraftAccounted | derive/src/block.rs:695-706 | adding a whole tree at fresh offsets trades its shared edges for the edges of its top-level fields |
| Tree.MoveSlotSame | derive/src/block.rs:685-694 | a relocated tree has the same value, the same shared edges and the same widths, and occupies exactly the given offsets |
| Tree.SameValue | derive/src/block.rs:685-694 | what the value of a tree determines: every plain, borrowed or shared field, the kind of every block and the shape below it; all but offsets and spare capacity |
| Tree.WidthOfOne | src/types/compiled/vec.rs:80-100 | a reference is eight bytes wide, a vector's descriptor sixteen, plain data its bytes, an embedded block its header and fields |
| Tree.ReferencesWidth | src/types/compiled/vec.rs:69-78 | a list of owned, strong, weak or borrowed references is eight bytes an element |
| Tree.BlockSizes | src/types/compiled/rc.rs:30-70 | a record of n references occupies 16 + 8n bytes, with a count or a control pointer 24 + 8n, a control block 40, a vector's data block its capacity and 16 |
| Sharing.BumpedAccounted | src/io_core/clone.rs:458-466 | raising each target's counter by its number of recorded bumps makes exactly those edges holdable in addition |
| Sharing.CloneCorrect | derive/src/emit.rs:2139-2190 | a deep clone has the source's value, lies on fresh blocks only, leaves every old block as it was up to counts, and is accounted for with one more handle |
| Sharing.CloneThenTeardown | derive/src/emit.rs:2139-2190 | a deep clone followed by any teardown of it restores the store exactly, every image and every counter |
| Clone.WritesFit | src/io_core/clone.rs:228-246 | every staged image has exactly the size requested for its block |
| Clone.ClonedTight | src/io_core/clone.rs:271-300 | every block of a committed clone fills the range requested for it: a record of n references 16 + 8n bytes, a vector of n references a capacity of 8n, with no spare |
| Clone.OverflowsIff | src/io_core/clone.rs:510-524 | the commit counts as overflowing exactly the counters that the raise would take past 64 bits |
| Clone.WritesGraft | src/io_core/clone.rs:539-547 | flushing the staged images puts the cloned tree in the store |
| Clone.BuildSucceeds | src/io_core/clone.rs:361-372 | over the pool allocated for the measured sizes the build pass never runs out, never mismatches and uses each range once |
| Clone.Measured | src/io_core/clone.rs:215-227 | the measure pass touches nothing and records exactly the sizes the tree needs |
| Clone.Committed | src/io_core/clone.rs:443-592 | the committed store is the same function of source tree and offsets whichever way the blocks were allocated; it satisfies the law and no counter wrapped |
| Clone.ClonePlan.AllocRaw | src/io_core/clone.rs:210-259 | measure records a size and hands out placeholders one block after another, build hands out the next range and refuses an overrun or a different size, direct allocates |
| Clone.ClonePlan.Bump | src/io_core/clone.rs:302-326 | a shared reference records one raise of its target's own counter, and nothing while measuring |
| Clone.ClonePlan.CloneFields | derive/src/block.rs:685-694 | the field-by-field descent requests, stages and bumps exactly what the tree needs; in a build pass it succeeds if and only if the pool answers every request |
| Clone.ClonePlan.CloneField | derive/src/emit.rs:2139-2190 | owned fields are cloned and repointed to the copy, shared ones bumped and kept, embedded ones folded in place, the rest copied verbatim |
| Clone.ClonePlan.CloneBlock | derive/src/block.rs:695-706 | a block's children first, then its own image in a block of its own |
| Clone.ClonePlan.AllocMany | src/io_core/clone.rs:390-392 | every measured block is allocated, or none |
| Clone.ClonePlan.Commit | src/io_core/clone.rs:443-592 | all bumps and writes at once, or nothing; it reports an overflow if and only if some counter would exceed 64 bits |
| Clone.ClonePlan.RunClone | src/io_core/clone.rs:344-381 | a whole clone, bulk or direct: it fails leaving the file as it was, or yields the clone function of the source, a tree of equal value whose blocks fill exactly the ranges requested for them, and accounts for one more handle |
| Construct.AllocPairAccounted | derive/src/emit.rs:2022-2078 | data and control block appear together, pointing at each other, with both counts one |
| Construct.EmbedAccounted | derive/src/emit.rs:4690-4699 | copying a child's image into its slot and freeing its shell keeps the law |
| Construct.ZeroedFits | derive/src/emit.rs:4690-4699 | the zero image an embedded child starts from holds only zeros and reserves exactly the child's room |
| Construct.BuiltFits | derive/src/emit.rs:1983-2014 | the block keeps the size it was allocated with while its children are copied in |
| Construct.BuiltAccounted | derive/src/emit.rs:1983-2014 | after any number of post-write steps the law holds with the new handle and the children still to be embedded |
| Arenas.Arena.New | derive/src/emit.rs:1869-2081 | a constructor trades exactly the given handles for one, or hands back those same handles with the store unchanged, or reports them lost; every handle is accounted for, as kept, dropped or lost |
| Construct.NewTakes | derive/src/emit.rs:1869-1900 | a constructor takes values, owned and borrowed references, strong handles, unset weak fields and embedded children |
| Arenas.Arena.HandBack | derive/src/emit.rs:1916-1940 | handles are rebuilt in order; if one needs a control pointer that cannot be read, the strong and weak handles before it are released and the rest is lost |
| Construct.RebuildLosesIff | derive/src/emit.rs:1916-1940 | a hand-back can lose a handle if and only if it contains a strong handle on a live (rc, weak) block |
| Construct.NewLosesIff | derive/src/emit.rs:1869-2081 | a constructor can lose a handle if and only if it was given a strong handle on a live (rc, weak) block or an embedded child |
| Construct.LossWitness | derive/src/emit.rs:1916-1940 | an accounted store and two arguments whose hand-back, broken at the second, loses both |
| Construct.EarlierReleased | derive/src/emit.rs:1738-1795 | when a rebuild fails, strong and weak handles before it release their counts, and it and every owned block, vector and embedded child are lost |
| Arenas.Arena.Commit | derive/src/emit.rs:2037-2068 | allocation and image write are all or nothing, for one block or for the pair, and each image has exactly the size requested |
| Arenas.Arena.EmbedChildren | derive/src/emit.rs:4690-4699 | the post-write loop embeds the children in order and stops only at a failed copy |
| MoveOut.RehomeAccounted | derive/src/emit.rs:4708-4724 | moving the fields of a released shell out turns its edges into handles one for one |
| MoveOut.StuckUnchanged | derive/src/block.rs:653-654 | a failed re-home leaves the store untouched if and only if it was the first embedded field |
| MoveOut.StuckAccountable | derive/src/block.rs:653-654 | a failed move leaves an accountable store if and only if the copies left behind hold no references |
| MoveOut.StuckWitness | derive/src/emit.rs:4701-4724 | a block with two embedded children, the first owning a block, stuck at the second: no handles account for what is left |
| MoveOut.SharedStuckIff | src/types/compiled/rc.rs:450-462 | the move of a shared block can get stuck if and only if it has an embedded field, and then no handles account for what is left |
| MoveOut.UnwrappedAccounted | src/types/compiled/rc.rs:445-471 | moving a shared block out by its sole owner trades the strong handle for the handles of its fields |
| MoveOut.LostPhantomAccounted | src/types/compiled/rc.rs:445-471 | a move whose hand-back fails still accounts for every handle, the phantom weak reference among the lost |
| MoveOut.NewThenMove | derive/src/block.rs:634-660 | moving a freshly built block of any kind out returns the values and handles put in; its handle is the sole one; embedded children come back equal at fresh offsets; shell and control block are gone |
| MoveOut.NewThenMoveExactly | derive/src/block.rs:634-660 | without embedded children the round trip is the identity on store and handles, for every kind of block |
| MoveOut.ZeroCountUnaccounted | src/types/compiled/rc.rs:450-462 | a live shared block with a count of zero satisfies the law for no handles at all |
| Arenas.Arena.Rehome | derive/src/emit.rs:4708-4724 | every embedded child is copied to its own block while the shell is live; a failure frees its own block only |
| Arenas.Arena.MoveOwned | derive/src/block.rs:641-657 | moving an owned block out frees only the shell and leaves every edge with exactly one holder, unless it fails before the free or while rebuilding |
| Arenas.Arena.TryMoveRc | src/types/compiled/rc.rs:445-462 | only the sole owner moves a shared block out; it can get stuck only with an embedded field, and then leaves a count of zero on a live block |
| Arenas.Arena.TryMoveData | src/types/compiled/rc.rs:445-471 | as above for (rc, weak), with the exact store afterwards: the phantom weak reference is released last and takes the control block with it if no weak handle remains; a failed hand-back loses the phantom |
| Arenas.Arena.ReleasePhantom | src/types/compiled/rc.rs:464-470 | releasing the phantom keeps the law and touches the control block only |
| Replace.ExchangeAccounted | derive/src/emit.rs:1318-1350 | one exchange of a run of slots trades the new handles for the displaced ones |
| Replace.CellEdgesAre | derive/src/emit.rs:1318-1350 | a run of slots holds one owned or one strong handle for each element that is not null, and borrowed slots hold none |
| Replace.StepConserves | derive/src/emit.rs:1224-1242 | one replacement, whether refused, committed or with a rebuild that fails, conserves slots, handed-back, released and lost handles together |
| Replace.RunConserves | derive/src/emit.rs:933-1027 | over any interleaving of element, whole-array and scalar replacements with any failures, slots plus handed-back, released and lost handles stay the same multiset |
| Replace.NothingGoneIff | src/handback/replace.rs:46-56 | such a run releases or loses a handle if and only if some rebuild in it failed while another displaced slot held one |
| Replace.EachOwnedOnce | derive/src/emit.rs:1307-1350 | a handle that existed once is, after any such run, in exactly one of the slots, the handed-back, the released and the lost |
| Replace.RecoverableIff | src/handback/replace.rs:46-56 | a failed rebuild of one displaced strong handle loses or releases nothing else if and only if every other displaced slot was null |
| Replace.BrokenWitness | src/handback/replace.rs:46-56 | an accounted block with two strong slots on (rc, weak) blocks: whichever rebuild fails, the other handle is released or lost |
| Replace.Mutator.ReplaceAt | derive/src/emit.rs:1169-1242 | an index out of bounds, a bad offset or a failed commit hands the value back with nothing changed; otherwise exactly the indexed slot holds the value, every other field of the block is as before, and what was in that slot comes back as a handle or, if its control pointer cannot be read, as its raw offset |
| Replace.Mutator.ReplaceWhole | derive/src/emit.rs:1307-1350 | a whole-array exchange leaves exactly the new values in the slots and returns all displaced handles, or on a failed rebuild one raw offset, with those before it dropped and those after it lost |
| System.NextKeeps | GUIDELINES.md:9-11 | building blocks and vectors, sharing, cloning, dropping, moving and unwrapping, swapping fields also inside embedded children, refilling and growing vectors, and every failure that loses or strands handles within the law, all keep it |
| System.RunKeeps | GUIDELINES.md:9-11 | in every world such operations reach from an empty file the law holds for the held and the leaked handles together |
| System.SharedLife | GUIDELINES.md:9-11 | a whole run: a shared block is built, its handle cloned, both handles dropped, and the file is empty again |
| System.HandleCallsAreSteps | GUIDELINES.md:9-11 | every completed teardown and every clone of a handle the program holds is a step |
| System.CloneCallsAreSteps | GUIDELINES.md:9-11 | every deep clone of an owned tree the program holds is a step |
| System.MoveCallsAreSteps | GUIDELINES.md:9-11 | every move of a held owned block, and of a shared one by its sole owner, is a step |
| System.VectorCallsAreSteps | GUIDELINES.md:9-11 | growing a held vector, and refilling one with held handles, is a step |
| System.CallsAreSteps | GUIDELINES.md:9-11 | every block and vector built from held handles is a step |
| System.FieldCallsAreSteps | GUIDELINES.md:9-11 | every field swap and every exchange of slots paid for with held handles is a step |
| System.RunsCanRelease | GUIDELINES.md:9-11 | in every such world every handle the program holds can be released |
| System.OnlyCyclesLeak | GUIDELINES.md:9-11 | with every handle given back the store is empty if and only if its owned and strong edges are acyclic |
| System.StrongCycleLeaks | GUIDELINES.md:9-11 | a cycle of strong references that nobody holds satisfies the law |
| SharedCounts.Counter.FetchAdd | src/io_core/refcount.rs:45-65 | adds and returns the previous value, or refuses exactly when the sum exceeds 64 bits and leaves the counter alone |
| SharedCounts.Counter.FetchSub | src/io_core/refcount.rs:67-87 | subtracts and returns the previous value, or refuses exactly when it would underflow and leaves the counter alone |
| SharedCounts.Counter.Cas | src/io_core/refcount.rs:31-33 | swaps if and only if the value is the expected one |
| SharedCounts.Counter.IncrementIfNonzero | src/io_core/refcount.rs:99-125 | raises a positive counter by one and returns the new value; says so if it is zero, or full |
| SharedCounts.HoldersAdded | src/types/compiled/rc.rs:408-432 | cloning a strong or weak handle and downgrading add one holder and raise its count by one, unless the count is full |
| SharedCounts.UpgradeStarts | src/types/compiled/rc.rs:521-532 | an upgrade gives up on a zero count and otherwise claims one unit of it |
| SharedCounts.UpgradeEnds | src/types/compiled/rc.rs:533-556 | a claim becomes a strong handle beside the weak one exactly if the data pointer can be read |
| SharedCounts.UpgradeUndone | src/types/compiled/rc.rs:535-549 | a failed upgrade takes its claim back, and only the one that takes the count to zero reads again |
| SharedCounts.ReleasedAgain | src/types/compiled/rc.rs:541-547 | the release it then attempts refuses a zero count and leaves the block stranded |
| SharedCounts.StrongReleases | src/types/compiled/rc.rs:265-285 | a strong release lowers the count by one, and the one that takes it to zero goes on to free the data; a move out happens exactly at a count of one |
| SharedCounts.DataFreed | src/types/compiled/rc.rs:265-285 | freeing the data leaves the phantom to be released |
| SharedCounts.WeakReleases | src/types/compiled/rc.rs:250-257 | releasing the phantom lowers the weak count by one, and at zero goes on to free the control block |
| SharedCounts.WeakDropped | src/types/compiled/rc.rs:250-257 | so does the drop of a weak handle, and at zero it goes on to free the control block |
| SharedCounts.PlainRun | src/tests.rs:273-332 | the plain life of a block: its one handle is dropped, and data and control block are freed once each |
| SharedCounts.Reachable | src/tests.rs:273-409 | in every reachable state of any interleaving, strong equals the strong holders and weak the weak holders plus one while the phantom is outstanding |
| SharedCounts.Safe | src/tests.rs:273-332 | data and control are each freed at most once, the data never under a strong holder, the control never under a weak holder or live data |
| SharedCounts.ZeroIsTerminal | src/io_core/refcount.rs:88-98 | once the strong count is zero it stays zero and no upgrade or clone ever succeeds again |
| SharedCounts.Refusals | src/types/compiled/rc.rs:535-549 | no release of a held count underflows, but the release an upgrade attempts after rolling back its last claim always does |
| SharedCounts.Reclaimed | src/types/compiled/rc.rs:521-556 | when all handles and operations are gone, data and control were freed exactly once if and only if no failed upgrade rolled back as the last strong holder; otherwise neither ever is |
| SharedCounts.StrandedRun | src/types/compiled/rc.rs:535-549 | a run of an upgrade, a last strong drop and a failed read that ends with data and control block never freed |
| Wal.WalFile.Finish | src/io_core/wal.rs:791-868 | uninterrupted recovery marks the entries it acts on, frees exactly the orphans and idles the log; a crash leaves at most one marked and unfreed block, or with bulk frees the marked batch |
| Wal.WalFile.RecoverOneByOne | src/io_core/wal.rs:844-864 | each entry is marked before its block is freed, and each freed block is still allocated |
| Wal.WalFile.RecoverBulk | src/io_core/wal.rs:810-843 | every entry is marked first, then all blocks are freed in one step |
| Wal.CrashesThenFinished | src/tests.rs:5478-5535 | after any number of crashing recoveries only orphans were freed, none twice, and a final recovery frees all that remains except the crash gaps |
| Wal.FinishedTwice | src/tests.rs:3170-3198 | recovering a recovered log frees nothing |
| Wal.OutcomeDecides | src/io_core/wal.rs:781-790 | a committed log frees exactly the blocks logged as freed and not yet dealt with, a pending or abandoned one exactly those logged as allocated, an idle one none |
| Wal.WalFile.EnsureBlock | src/io_core/wal.rs:560-622 | the log block is kept if it is large enough, and otherwise replaced by one whose capacity is the least power of two, from eight on, that holds the entries; the exact disk after each write, on which the anchor never names a freed block |
| Wal.WalFile.Persist | src/io_core/wal.rs:630-640 | staging writes status, count and entries in one step and keeps the capacity of the block |
| Wal.WalFile.LogAlloc | src/io_core/wal.rs:921-944 | the exact disk after each write of allocating and logging a block, which recovery of the open transaction then frees with the others |
| Wal.DescentCrash | src/io_core/clone.rs:33-41 | after a crash while logging, recovery reclaims every logged block if and only if the log block was not being replaced |
| Wal.WindowExists | src/io_core/wal.rs:931-941 | a crash while a full log block is replaced loses every block the clone had logged |
| Wal.CloneAllOrNothing | src/io_core/clone.rs:548-558 | recovery keeps none or all of a clone's blocks, depending on the commit alone, also when the transaction is abandoned |
| Wal.WalFile.CarryOut | src/io_core/wal.rs:1073-1078 | flipping the status is the commit point of a batch of frees |
| Wal.WalFile.CommitFrees | src/io_core/wal.rs:1051-1081 | before the commit nothing is freed, now or by recovery; after it all is, up to one block per crash; a committed batch is refused if and only if it has more than 0x100000 blocks |
| Wal.CapTrustedIff | src/io_core/wal.rs:601-601 | a new log block exceeds the trusted capacity if and only if what it must hold does |
| Wal.CapIsPow2 | src/io_core/wal.rs:601-601 | the capacity of a new log block is a power of two, at least eight, holds the entries, and is less than twice their number if they are more than eight |
| Wal.OversizedBatch | src/io_core/wal.rs:664-666 | a batch one block over the trusted capacity, committed and out of reach of recovery |
| CloneLog.DescentStarts | src/io_core/clone.rs:210-259 | a descent can start over any idle log, or over none |
| CloneLog.DescentGoesOn | src/io_core/clone.rs:210-259 | allocating and logging the next block keeps heap, clone blocks and log in step |
| CloneLog.DiedBeforeCommit | src/io_core/clone.rs:33-41 | a crash between two logged allocations leaves, after recovery, exactly the heap before the clone |
| CloneLog.DiedAfterCommit | src/io_core/clone.rs:548-558 | a crash after the commit leaves, after recovery, exactly the heap with the clone, accounted for with its handle |
| CloneLocks.StepInv | src/io_core/wal.rs:468-530 | each lock has one owner, the thread lists and the lock table agree, and a waiting thread holds nothing |
| CloneLocks.NoDeadlock | src/io_core/wal.rs:481-505 | no reachable state has a waits-for cycle |
| CloneLocks.SomeoneCanStep | src/tests.rs:7755-7800 | whenever a thread waits, it can take the lock and then holds it, or the owner can give it back and the waiter can take it |
| CloneLocks.AskNeverHoldsAndWaits | src/tests.rs:1686-1702 | a free lock is granted; asking again for a held file is an error, contention while holding another file is an error, and exactly a thread holding nothing blocks |
| CloneLocks.AccessSteps | src/types/compiled/rc.rs:705-727 | a weak-field access takes a free lock without listing it, or waits, and gives it back; a thread that neither waits nor is inside may always ask |
| CloneLocks.LockTable.AcquireLock | src/io_core/wal.rs:468-517 | the answer is a re-entry, a grant, an error or a wait, each under its own condition; a grant records owner and list entry, a wait the waiter, and nothing else changes |
| CloneLocks.LockTable.ReleaseLock | src/io_core/wal.rs:520-530 | dropping a lock frees it and removes one matching list entry, the last, by moving the final one into its place |
| Discriminants.Assign | derive/src/layout.rs:27-88 | accepted exactly when the values are distinct, in range and fit a given repr, where an explicit value stands and any other is one more than its predecessor, the first one zero; without a repr they fit the inferred type if and only if some candidate holds them; an error is that of the first variant that has one |
| Discriminants.InferType | derive/src/util.rs:1154-1167 | the narrowest type of its sign that holds both bounds, or unchecked the widest |
| Discriminants.IntTypes | derive/src/util.rs:1137-1149 | the bounds and widths of the eight integer types |
| Discriminants.FollowsUnique | derive/src/layout.rs:31-53 | explicit value, or predecessor plus one, or zero: the rule leaves no choice |
| Discriminants.NarrowAgrees | derive/src/class.rs:246-248 | the schema's 64-bit value agrees with the stored discriminant modulo two to the width |
| Discriminants.AcceptedStaysDistinct | derive/src/class.rs:246-248 | values that fit their type stay distinct on disk and in the schema, also above the signed maximum |
| Discriminants.UncheckedWidth | derive/src/util.rs:1166-1167 | two accepted discriminants that fit no type narrow to the same schema value |
| EnumPayload.PayloadConst | derive/src/layout.rs:93-114 | the payload constant is the least bound of all variant sizes |
| EnumPayload.Windows | derive/src/emit.rs:4942-4948 | field windows follow one another without overlap inside the variant's size |
| EnumPayload.FlatAt | derive/src/emit.rs:4950-4956 | each field lies in its own window of the packed fields |
| EnumPayload.Write | derive/src/emit.rs:4950-4956 | each field lies at the sum of the sizes before it, and the rest of the area is zero |
| EnumPayload.Read | derive/src/emit.rs:4957-4966 | succeeds exactly for a known discriminant and returns the packed windows |
| EnumPayload.UnpackFlat | derive/src/emit.rs:4950-4966 | unpacking packed fields gives them back |
| EnumPayload.RoundTrip | derive/src/emit.rs:5002-5011 | writing and reading any value of any variant gives it back |
| EnumPayload.SchemaOffsets | derive/src/class.rs:273-306 | the schema's offsets are the packed ones: the first is zero and each next one the preceding size further |
| EnumPayload.SchemaSeesField | derive/src/class.rs:273-306 | reading at the schema's offset gives the field the generated reader gives |
| Schema.WidthsAgree | derive/src/class.rs:404-602 | for every type both macros take, the schema shape is as wide as the on-disk slot |
| Schema.LoweredHolds | derive/src/block.rs:381-477 | the slot the block macro reserves is exactly as wide as the fields the store keeps in it |
| Schema.SingleSlots | derive/src/block.rs:381-477 | what the block macro takes for a single field of each kind, with the bytes it reserves, and what it refuses |
| Schema.ArraySlots | derive/src/block.rs:404-437 | an array is as many single slots as its dimensions multiply to; a zero dimension and a null whole array are refused |
| Schema.TupleSlots | derive/src/block.rs:452-468 | a tuple is its members side by side, cross-file pointers only under a reference annotation; a nullable plain value needs a niche |
| Schema.SingleShapes | derive/src/class.rs:404-500 | the shape the class macro gives to each of these |
| Schema.ContainerShapes | derive/src/class.rs:404-602 | the shapes of arrays, nullable elements, nullable vectors and tuples |
| Schema.DescribedUnlessGap | derive/src/class.rs:438-461 | the class macro describes every type the block macro lowers, except annotated vectors of nullable cross-file pointers or of arrays |
| Schema.GapExists | derive/src/class.rs:438-461 | the two vector types that one macro lowers and the other refuses |
| Schema.NestedStride | derive/src/class.rs:487-493 | a nested array's stride is the product of its dimensions times the leaf's |
| Schema.TupleStride | derive/src/class.rs:536-584 | a tuple shape is as wide as the packed wrapper |
| Arrays.WalkIsFlat | derive/src/class.rs:477-495 | walking the nested shape reaches the row-major flat index times the leaf width |
| Arrays.SlotsDisjoint | derive/src/emit.rs:3250-3262 | distinct multi-indices have disjoint slots inside the field |
| Arrays.FlatIndexInjective | derive/src/emit.rs:5797-5802 | distinct multi-indices have distinct flat indices |
| Arrays.FlatAllLength | derive/src/emit.rs:2906-2926 | the flat length is the number of arrays times the product of the dimensions |
| Arrays.FlatAt | derive/src/util.rs:640-666 | the leaves of an array are stored in row-major order, each at its flat index |
| Arrays.ListFlatAt | derive/src/emit.rs:2906-2926 | in a list of arrays the element at an index of the i-th one follows i whole arrays |
| Arrays.ThreeLevels | derive/src/emit.rs:5797-5802 | row-major order spelled out for three dimensions |
| Arrays.RebuiltFlatAll | derive/src/emit.rs:2842-2849 | cutting a flattened list gives the list back |
| Arrays.Consume | derive/src/util.rs:640-666 | one loop per level pushes the leaves in row-major order |
| Arrays.Build | derive/src/util.rs:599-635 | one loop per level builds the array from consecutive slots |
| Arrays.Chunk | derive/src/emit.rs:2842-2849 | groups of the product's size become one array each; a product of zero aborts the read |
| Arrays.ZeroStoresNothing | derive/src/util.rs:529-537 | with a zero dimension a list of arrays is stored as nothing at all |
| Arrays.StoreAndLoad | derive/src/emit.rs:2842-2926 | storing a list of nested arrays and reading it back is the identity, null slots included, if and only if no dimension is zero |
| Expr.EveryExpressionStored | examples/expr.rs:71-86 | every expression can be stored: written at fresh offsets it is represented by its root block, and the law holds with the one handle on it |
| Expr.OpBytes | examples/expr.rs:26-27 | the operator byte is the operator's character |
| Expr.EvalExact | examples/expr.rs:43-56 | evaluation gives the integer value of the expression, or nothing exactly when some subexpression leaves the 64-bit range |
| Expr.WordReadBack | examples/expr.rs:34-39 | a literal is eight bytes, and reading them gives it back |
| Expr.EvalAt | examples/expr.rs:42-55 | evaluating by walking the store gives the value of the expression stored there |
| Expr.RenderAt | examples/expr.rs:58-68 | printing by walking the store gives the rendering of the expression stored there |
| Expr.LiteralReads | examples/expr.rs:59-62 | a literal is printed as its decimal number without leading zeros, after a minus sign if negative |
| Expr.OperationReads | examples/expr.rs:63-67 | an operation is printed in parentheses with its operator between spaces |
| Expr.RenderInjective | examples/expr.rs:58-68 | equal text means equal expressions, hence equal values |
| Expr.CloneMeansTheSame | examples/expr.rs:100-108 | a deep clone represents the same expression, and so does the original afterwards |
| Expr.SurvivesTeardown | examples/expr.rs:124-130 | an expression still held survives the teardown of any other tree |

## Left out

- Clone.ClonePlan.CloneFields: a read that fails during a descent is not modelled; it ends the descent as a failed allocation does.
- Clone.ClonePlan.Bump: re-reading a strong target's control pointer cannot fail here.
- Clone.ClonePlan.RunClone: the plan itself writes no log; the log is joined to the heap by the offsets of the clone's blocks in `CloneLog.dfy`. An unmodified source is assumed, as the code demands.
- Clone.ClonePlan.Commit: sorting bumps into runs is modelled by their multiset.
- Teardowns.Disk.BstackDrop: the batch commit is modelled as succeeding; its crash behaviour is `Wal.WalFile.CommitFrees`. Frees themselves do not fail.
- Arenas.Arena.New: constructors of vector fields, and their own hand-back, are not modelled; an allocation or free that reports an error after taking effect is not either.
- SharedCounts.Reclaimed: only the pointer reads of an upgrade may fail; a counter update that fails for outside reasons is not modelled.
- System.RunKeeps: a failure that leaves the law broken is not a step; those are the subject of the members named above. Growing a vector that sits in a field is the three steps of taking it out, growing it and putting it back.
- Wal.WalFile.CommitFrees: entries for other files, corrupt headers other than an untrusted capacity, and a transaction staged over an unrecovered one are not modelled.
- Wal.WalFile.LogAlloc: the free that undoes an allocation whose logging is refused is taken as one step that does not crash.
- CloneLocks.StepInv: a weak-field access is made by code outside any clone, as the generated accessors are; poisoned locks are left out.
- Schema.WidthsAgree: types are those both macros accept; a leading `&`, generic parameters and the narrowing of widths to 32 bits are left out.
- Expr.EvalAt: stops where checked arithmetic would; a build without overflow checks wraps instead.
- EnumPayload.Write: variants that hold references store an 8- or 16-byte window at payload offset 0 and are covered as single fields.
- Cross-file `Foreign` pointers at run time: their clone, teardown and resolution go through a registry that is not part of this model; in particular that cross-file effects of a two-pass clone happen once.
- Setting a weak field: a swap followed by one weak release, both modelled, under the lock of `CloneLocks.dfy`.
- Run-time type information beyond the schema shape: encoding, decoding and the interpreters.
- The allocator, file I/O, flushing, and the byte-level atomicity of single steps.
- The standard collections, tags, casts and token handling.
