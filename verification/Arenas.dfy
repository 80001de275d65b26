/** The generated `new`, `bstack_move` and `try_move`.  A constructor either trades the
    handles it was given for one handle on the new block or hands every one of them back; a
    move frees the shell only. */
module Arenas {
  import opened Heap
  import opened Cascade
  import opened Tree
  import opened Construct
  import opened MoveOut

  class Arena {
    var blocks: Store

    constructor (file: Store)
      ensures blocks == file
    {
      blocks := file;
    }

    /** Rebuild the handles of a list of arguments. */
    method HandBack(args: seq<Arg>) returns (r: Outcome, ghost k: nat, ghost dropped: multiset<Edge>, ghost lost: multiset<Edge>)
      ensures Rebuilt(blocks, args, k, dropped, lost)
      ensures if k == |args| then r == Handed(args) else r.Lost?
      ensures r.Lost? ==> k < |args| && dropped + lost == ArgsEdges(args)
      ensures !r.Lost? ==> dropped == lost == multiset{}
      ensures r.Lost? <==> lost != multiset{}
    {
      var i := 0;
      while i < |args|
        invariant 0 <= i <= |args|
      {
        var readFails: bool := *;
        if NeedsControl(blocks, args[i]) && readFails {
          lost := RebuildLoses(blocks, args, i);
          return Lost, i, ReleasingEdges(args[..i]), lost;
        }
        i := i + 1;
      }
      return Handed(args), i, multiset{}, multiset{};
    }

    /** Write the image of a freshly allocated block, which has exactly its size. */
    method WriteBlock(x: Off, b: Block)
      requires x in blocks && blocks[x] == Raw(BlockSize(b))
      modifies this
      ensures blocks == old(blocks)[x := b]
    {
      blocks := blocks[x := b];
    }

    /** Allocate the block, or the pair, and commit its image: all or nothing. */
    method Commit(shape: Shape, fs: seq<Field>) returns (ok: bool, x: Off, c: Off)
      modifies this
      ensures ok ==>
        && x != 0 && x !in old(blocks)
        && (shape.RcWeakBlock? ==> c != 0 && c != x && c !in old(blocks))
        && blocks == Around(old(blocks), {}, x, NewImage(shape, fs, c), shape.RcWeakBlock?, c)
      ensures !ok ==> blocks == old(blocks)
    {
      var a;
      a, blocks := Allocate(blocks, BlockSize(NewImage(shape, fs, 0)));
      if a.None? { return false, 0, 0; }
      x, c := a.value, 0;
      if shape.RcWeakBlock? {
        var b;
        b, blocks := Allocate(blocks, 40);
        if b.None? {
          blocks := blocks - {x};
          return false, 0, 0;
        }
        c := b.value;
      }
      if * {  // the write, or the batched write, fails
        blocks := blocks - if shape.RcWeakBlock? then {x, c} else {x};
        return false, 0, 0;
      }
      WriteBlock(x, NewImage(shape, fs, c));
      if shape.RcWeakBlock? { WriteBlock(c, Ctrl(1, 1, x)); }
      assert old(blocks) - {} == old(blocks);
      return true, x, c;
    }

    /** The post-write steps: copy each embedded child into its slot, then free its shell. */
    method EmbedChildren(ghost h: Store, shape: Shape, args: seq<Arg>, x: Off, ghost c: Off, ghost held: multiset<Edge>)
      returns (ok: bool, ghost k: nat)
      requires Accounted(h, held + ArgsEdges(args)) && ChildrenPlain(h, args) && AllPlaced(args)
      requires x != 0 && x !in h && (shape.RcWeakBlock? ==> c != 0 && c != x && c !in h)
      requires blocks == BuiltUpTo(h, shape, args, 0, x, c)
      modifies this
      ensures k <= |args| && blocks == BuiltUpTo(h, shape, args, k, x, c)
      ensures ok <==> k == |args|
      ensures !ok ==> args[k].Inlined?
    {
      hide Accounted, BuiltUpTo, ArgFields;
      var i := 0;
      while i < |args|
        invariant 0 <= i <= |args| && blocks == BuiltUpTo(h, shape, args, i, x, c)
      {
        match args[i] {
          case Stored(_) => StoredInPlace(h, shape, args, i, x, c);
          case Inlined(child) =>
            if * { return false, i; }
            ChildrenDistinct(h, held, args, i);
            ChildInPlace(h, shape, args, i, x, c);
            blocks := blocks[x := WithField(blocks[x], i, Embed(blocks[child].fields))];
            blocks := blocks - {child};
        }
        i := i + 1;
      }
      return true, i;
    }

    /** The generated `new`.  Whatever fails, every handle is accounted for; nothing is
        lost unless a child's control pointer cannot be re-read during the hand-back, or a
        post-write copy fails. */
    method New(shape: Shape, args: seq<Arg>, ghost held: multiset<Edge>)
      returns (r: Outcome, ghost x: Off, ghost c: Off, ghost k: nat, ghost dropped: multiset<Edge>, ghost lost: multiset<Edge>)
      requires AllTaken(args) && Accounted(blocks, held + ArgsEdges(args))
      modifies this
      ensures ChildrenPlain(old(blocks), args)
      ensures match r
        case Done(e) =>
          && e == NewHandle(shape, x) && x !in old(blocks) && dropped == lost == multiset{}
          && blocks == BuiltUpTo(old(blocks), shape, args, |args|, x, c)
          && x in blocks && BlockSize(blocks[x]) == (if shape.PlainBlock? then 16 else 24) + Width(ArgFields(old(blocks), args, false))
        case Handed(back) => back == args && blocks == old(blocks) && dropped == lost == multiset{}
        case Lost => LosesHandles(old(blocks), blocks, shape, args, k, x, c, dropped, lost)
        case Stuck => false
      ensures r.Lost? <==> lost != multiset{}
      ensures Accounted(blocks, held + Kept(r) + dropped + lost)
    {
      hide Accounted, BuiltUpTo, ArgFields, Rebuilt, Around, ArgsEdges, Takes, Places, InlinedEdges, NewImage, ArgField, ChildrenPlain;
      hide NewHandle, HandlesOf;
      ghost var h := blocks;
      assert AllPlaced(args) by { TakenPlaces(args); }
      ChildrenAreLive(h, held, args);
      dropped, lost, k := multiset{}, multiset{}, 0;
      var ok, off, ctrl := Commit(shape, ArgFields(blocks, args, false));
      x, c := off, ctrl;
      if !ok {
        r, k, dropped, lost := HandBack(args);
        assert held + Kept(r) + dropped + lost == held + ArgsEdges(args);
        return;
      }
      NothingInPlace(h, shape, args, x, c);
      ok, k := EmbedChildren(h, shape, args, off, c, held);
      BuiltAccounted(h, held, shape, args, k, x, c);
      ghost var e := NewHandle(shape, x);
      if ok {
        r := Done(NewHandle(shape, off));
        BuiltFits(h, shape, args, k, x, c);
        NoneInlinedLeft(args[k..]);
        assert held + Kept(r) + dropped + lost == held + InlinedEdges(args[k..]) + multiset{e};
      } else {
        r, lost := Lost, InlinedEdges(args[k..]) + multiset{e};
        assert held + Kept(r) + dropped + lost == held + InlinedEdges(args[k..]) + multiset{e};
      }
    }

    /** Copy every embedded child to a block of its own, while the shell is still live. */
    method Rehome(x: Off) returns (ok: bool, args: seq<Arg>, ghost at: seq<Off>, ghost j: nat)
      requires x in blocks && HasFields(blocks[x])
      modifies this
      ensures var fs := BlockFields(old(blocks)[x]);
        && j <= |fs| && |at| == Embeds(fs[..j]) && Fresh(old(blocks), at)
        && blocks == Rehomed(old(blocks), fs[..j], at)
        && (if ok then j == |fs| && |at| == Embeds(fs) && args == Outs(fs, at) else j < |fs| && fs[j].Embed?)
    {
      hide Rehomed, Outs, Embeds;
      ghost var h := blocks;
      var fs, i := BlockFields(blocks[x]), 0;
      RehomedNothing(h);
      args, at := [], [];
      assert fs[..0] == [];
      while i < |fs|
        invariant 0 <= i <= |fs| && |at| == Embeds(fs[..i]) && Fresh(h, at)
        invariant blocks == Rehomed(h, fs[..i], at) && args == Outs(fs[..i], at)
      {
        assert fs[..i + 1] == fs[..i] + [fs[i]];
        RehomedKeys(h, fs[..i], at);
        match fs[i] {
          case Embed(inner) =>
            var r;
            r, blocks := Allocate(blocks, BlockSize(Plain(inner)));
            if r.None? { return false, [], at, i; }
            if * {  // the write fails; its block is freed again
              blocks := blocks - {r.value};
              return false, [], at, i;
            }
            WriteBlock(r.value, Plain(inner));
            RehomedNext(h, fs[..i], at, fs[i], r.value);
            args, at := args + [Inlined(r.value)], at + [r.value];
          case _ =>
            RehomedNext(h, fs[..i], at, fs[i], 0);
            args := args + [Stored(fs[i])];
        }
        i := i + 1;
      }
      assert fs[..i] == fs;
      return true, args, at, i;
    }

    /** The generated `bstack_move` on a shell: re-home, free the shell, rebuild handles. */
    method MoveShell(x: Off)
      returns (r: Outcome, ghost at: seq<Off>, ghost j: nat, ghost k: nat, ghost dropped: multiset<Edge>, ghost lost: multiset<Edge>)
      requires x in blocks && HasFields(blocks[x])
      modifies this
      ensures !r.Done?
      ensures r.Stuck? ==> StuckAt(old(blocks), blocks, x, j, at)
      ensures !r.Stuck? ==>
        && |at| == Embeds(BlockFields(old(blocks)[x])) && Fresh(old(blocks), at)
        && blocks == MovedOut(old(blocks), x, at)
        && var args := Outs(BlockFields(old(blocks)[x]), at);
           && Rebuilt(blocks, args, k, dropped, lost) && dropped + lost + Kept(r) == ArgsEdges(args)
           && (r.Handed? ==> r.args == args)
      ensures r.Lost? <==> lost != multiset{}
    {
      hide Rebuilt, Rehomed, Outs, ArgsEdges, Fresh;
      var ok, args;
      k, dropped, lost := 0, multiset{}, multiset{};
      ok, args, at, j := Rehome(x);
      if !ok { return Stuck, at, j, k, dropped, lost; }
      assert BlockFields(old(blocks)[x])[..j] == BlockFields(old(blocks)[x]);
      blocks := blocks - {x};
      r, k, dropped, lost := HandBack(args);
    }

    /** Moving an owned block out. */
    method MoveOwned(x: Off, ghost held: multiset<Edge>)
      returns (r: Outcome, ghost at: seq<Off>, ghost j: nat, ghost k: nat, ghost dropped: multiset<Edge>, ghost lost: multiset<Edge>)
      requires Accounted(blocks, held + multiset{OwnTo(x)})
      modifies this
      ensures x in old(blocks) && old(blocks)[x].Plain? && !r.Done?
      ensures r.Stuck? ==> StuckAt(old(blocks), blocks, x, j, at)
      ensures !r.Stuck? ==>
        && |at| == Embeds(old(blocks)[x].fields) && Fresh(old(blocks), at)
        && blocks == MovedOut(old(blocks), x, at)
        && Rebuilt(blocks, Outs(old(blocks)[x].fields, at), k, dropped, lost)
        && (r.Handed? ==> r.args == Outs(old(blocks)[x].fields, at))
        && Accounted(blocks, held + Kept(r) + dropped + lost)
      ensures r.Lost? <==> lost != multiset{}
    {
      hide Accounted, Rebuilt, Outs, ArgsEdges, Fresh, StuckAt, Rehomed;
      ghost var h := blocks;
      HeldCanRelease(h, held + multiset{OwnTo(x)}, OwnTo(x));
      ReleaseAccounted(h, held, OwnTo(x));
      r, at, j, k, dropped, lost := MoveShell(x);
      if !r.Stuck? {
        MovedAccounted(h, held, x, at);
        assert held + Kept(r) + dropped + lost == held + (dropped + lost + Kept(r));
      }
    }

    /** `try_move` on a shared block with an inline count: only the sole owner may move it
        out.  A re-home that fails here has already lowered the count to zero, so no handle
        accounts for the block any more. */
    method TryMoveRc(x: Off, ghost held: multiset<Edge>)
      returns (r: Outcome, ghost at: seq<Off>, ghost j: nat, ghost k: nat, ghost dropped: multiset<Edge>, ghost lost: multiset<Edge>)
      requires Accounted(blocks, held + multiset{StrongTo(x)}) && x in blocks && blocks[x].Rc?
      modifies this
      ensures Movable(old(blocks), x)
      ensures r.Done? <==> old(blocks)[x].count > 1
      ensures r.Done? ==> r == Done(StrongTo(x)) && blocks == old(blocks)
      ensures r.Handed? || r.Lost? ==>
        && |at| == Embeds(old(blocks)[x].fields) && Fresh(old(blocks), at)
        && blocks == Unwrapped(old(blocks), x, at)
        && Rebuilt(blocks, Outs(old(blocks)[x].fields, at), k, dropped, lost)
        && (r.Handed? ==> r.args == Outs(old(blocks)[x].fields, at))
        && Accounted(blocks, held + Kept(r) + dropped + lost)
      ensures r.Stuck? ==> StuckAt(Claimed(old(blocks), x), blocks, x, j, at) && forall m :: !Accounted(blocks, m)
      ensures Embeds(old(blocks)[x].fields) == 0 ==> !r.Stuck?
    {
      hide Accounted, Rebuilt, Outs, ArgsEdges, Fresh, Rehomed, StuckAt;
      ghost var h, e := blocks, StrongTo(x);
      at, j, k, dropped, lost := [], 0, 0, multiset{}, multiset{};
      SharedMovable(h, held, x);
      if blocks[x].count != 1 { return Done(StrongTo(x)), at, j, k, dropped, lost; }
      blocks := blocks[x := Rc(0, blocks[x].fields)];  // compare-and-swap 1 -> 0
      ghost var g: Store := blocks;
      ReleaseAccounted(h, held, e);
      assert g == Claimed(h, x) && g - {x} == Release(h, e).0;
      r, at, j, k, dropped, lost := MoveShell(x);
      if r.Stuck? {
        StuckUnaccounted(h, blocks, x, j, at);
        StuckHasEmbed(g, blocks, x, j, at);
      } else {
        MovedAccounted(g, held, x, at);
        FreshElsewhere(h, g, at);
        assert held + Kept(r) + dropped + lost == held + (dropped + lost + Kept(r));
      }
    }

    /** Release the weak reference the strong owners shared. */
    method ReleasePhantom(c: Off, ghost rest: multiset<Edge>)
      requires Accounted(blocks, rest + multiset{WeakTo(c)})
      modifies this
      ensures Accounted(blocks, rest)
      ensures c in old(blocks) && old(blocks)[c].Ctrl? && 0 < old(blocks)[c].weak
      ensures blocks == WithoutPhantom(old(blocks), c)
    {
      hide Accounted;
      ReleaseAccounted(blocks, rest, WeakTo(c));
      var prev := blocks[c].weak;
      blocks := if prev == 1 then blocks - {c} else blocks[c := blocks[c].(weak := prev - 1)];
      assert rest + multiset{} == rest;
    }

    /** `try_move` on an `(rc, weak)` block: after the move the phantom weak reference is
        released, which frees the control block if no weak handle remains.  A hand-back that
        fails loses the phantom too. */
    method TryMoveData(x: Off, ghost held: multiset<Edge>)
      returns (r: Outcome, ghost at: seq<Off>, ghost j: nat, ghost k: nat, ghost dropped: multiset<Edge>, ghost lost: multiset<Edge>)
      requires Accounted(blocks, held + multiset{StrongTo(x)})
      requires x in blocks && blocks[x].Data? && blocks[x].ctrl in blocks && blocks[blocks[x].ctrl].Ctrl?
      modifies this
      ensures Movable(old(blocks), x)
      ensures r.Done? <==> old(blocks)[old(blocks)[x].ctrl].strong > 1
      ensures r.Done? ==> r == Done(StrongTo(x)) && blocks == old(blocks)
      ensures r.Handed? || r.Lost? ==> Accounted(blocks, held + Kept(r) + dropped + lost)
      ensures r.Handed? ==> TakenOut(old(blocks), blocks, x, at, r.args) && dropped == lost == multiset{}
      ensures r.Lost? ==> LostPhantom(old(blocks), blocks, x, at, k, dropped, lost)
      ensures r.Stuck? ==> StuckAt(Claimed(old(blocks), x), blocks, x, j, at) && forall m :: !Accounted(blocks, m)
      ensures Embeds(old(blocks)[x].fields) == 0 ==> !r.Stuck?
    {
      hide Accounted, Rebuilt, Outs, ArgsEdges, Fresh, Rehomed, MovedOut, StuckAt;
      ghost var h := blocks;
      var c := blocks[x].ctrl;
      ghost var phantom := multiset{WeakTo(c)};
      at, j, k, dropped, lost := [], 0, 0, multiset{}, multiset{};
      SharedMovable(h, held, x);
      if blocks[c].strong != 1 { return Done(StrongTo(x)), at, j, k, dropped, lost; }
      blocks := blocks[c := blocks[c].(strong := 0)];  // compare-and-swap 1 -> 0
      ghost var g: Store := blocks;
      LastOwner(h, g, held, x);
      r, at, j, k, dropped, lost := MoveShell(x);
      if r.Stuck? {
        StuckUnaccounted(h, blocks, x, j, at);
        StuckHasEmbed(g, blocks, x, j, at);
        return;
      }
      MovedAccounted(g, held + phantom, x, at);
      FreshElsewhere(h, g, at);
      MovedKeeps(g, x, at, c);
      if r.Lost? {
        assert held + phantom + (dropped + lost + Kept(r)) == held + Kept(r) + dropped + (lost + phantom);
        OutsLength(BlockFields(h[x]), at);
        FailedBefore(blocks, Outs(BlockFields(h[x]), at), k, dropped, lost);
        lost := lost + phantom;
        return;
      }
      ghost var rest := held + Kept(r) + dropped + lost;
      assert held + phantom + (dropped + lost + Kept(r)) == rest + phantom;
      ReleasePhantom(c, rest);
    }
  }
}
