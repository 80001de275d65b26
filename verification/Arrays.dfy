/** Nested fixed-size arrays stored flat: where an element is, and the way lists of nested
    arrays are flattened to slots and cut into arrays again. */
module Arrays {
  import opened Laws
  import opened Schema

  // ---- Row-major addressing ----

  /** A multi-index inside the dimensions. */
  predicate InBounds(dims: seq<nat>, idx: seq<nat>) {
    |idx| == |dims| && forall i :: 0 <= i < |dims| ==> idx[i] < dims[i]
  }

  /** The flat index the generated accessors count up. */
  function FlatIndex(dims: seq<nat>, idx: seq<nat>): nat
    requires |idx| == |dims|
  {
    if dims == [] then 0 else idx[0] * Prod(dims[1..]) + FlatIndex(dims[1..], idx[1..])
  }

  /** Where a schema walk finds the element: one stride per level. */
  function WalkTo(disk: nat -> nat, s: Shape, idx: seq<nat>): nat
    decreases |idx|
  {
    if idx == [] || !s.ArrayShape? then 0
    else idx[0] * Stride(disk, s.inner) + WalkTo(disk, s.inner, idx[1..])
  }

  /** Both ways of addressing agree. */
  lemma {:induction false} WalkIsFlat(disk: nat -> nat, dims: seq<nat>, leaf: Shape, idx: seq<nat>)
    requires |idx| == |dims| && !leaf.ArrayShape?
    ensures WalkTo(disk, Nested(dims, leaf), idx) == FlatIndex(dims, idx) * Stride(disk, leaf)
    decreases |dims|
  {
    if dims != [] {
      WalkIsFlat(disk, dims[1..], leaf, idx[1..]);
      NestedStride(disk, dims[1..], leaf);
      var i, p, f, w := idx[0], Prod(dims[1..]), FlatIndex(dims[1..], idx[1..]), Stride(disk, leaf);
      Distribute(i, p, f, w);
    }
  }

  lemma Distribute(i: nat, p: nat, f: nat, w: nat)
    ensures i * (p * w) + f * w == (i * p + f) * w
  {}

  lemma {:induction false} FlatIndexBound(dims: seq<nat>, idx: seq<nat>)
    requires InBounds(dims, idx)
    ensures FlatIndex(dims, idx) < Prod(dims)
  {
    if dims != [] {
      FlatIndexBound(dims[1..], idx[1..]);
      BelowRow(idx[0], dims[0], Prod(dims[1..]), FlatIndex(dims[1..], idx[1..]));
    }
  }

  lemma BelowRow(i: nat, n: nat, p: nat, f: nat)
    requires i < n && f < p
    ensures i * p + f < n * p
  {
    Scaled(i + 1, n, p);
  }

  /** Distinct multi-indices have distinct flat indices. */
  lemma {:induction false} FlatIndexInjective(dims: seq<nat>, a: seq<nat>, b: seq<nat>)
    requires InBounds(dims, a) && InBounds(dims, b) && FlatIndex(dims, a) == FlatIndex(dims, b)
    ensures a == b
  {
    if dims != [] {
      var p := Prod(dims[1..]);
      FlatIndexBound(dims[1..], a[1..]);
      FlatIndexBound(dims[1..], b[1..]);
      SameRow(a[0], b[0], p, FlatIndex(dims[1..], a[1..]), FlatIndex(dims[1..], b[1..]));
      FlatIndexInjective(dims[1..], a[1..], b[1..]);
      assert a == [a[0]] + a[1..] && b == [b[0]] + b[1..];
    }
  }

  lemma Scaled(a: nat, b: nat, p: nat)
    ensures a <= b ==> a * p <= b * p
  {}

  lemma SameRow(i: nat, j: nat, p: nat, f: nat, g: nat)
    requires f < p && g < p && i * p + f == j * p + g
    ensures i == j && f == g
  {
    Scaled(i + 1, j, p);
    Scaled(j + 1, i, p);
  }

  /** The slots of distinct elements are disjoint and lie inside the field. */
  lemma SlotsDisjoint(disk: nat -> nat, dims: seq<nat>, leaf: Shape, a: seq<nat>, b: seq<nat>)
    requires InBounds(dims, a) && InBounds(dims, b) && a != b && !leaf.ArrayShape?
    ensures var w, x, y := Stride(disk, leaf), WalkTo(disk, Nested(dims, leaf), a), WalkTo(disk, Nested(dims, leaf), b);
      && (x + w <= y || y + w <= x)
      && x + w <= Stride(disk, Nested(dims, leaf)) && y + w <= Stride(disk, Nested(dims, leaf))
  {
    var w, i, j := Stride(disk, leaf), FlatIndex(dims, a), FlatIndex(dims, b);
    if i == j { FlatIndexInjective(dims, a, b); }
    WalkIsFlat(disk, dims, leaf, a);
    WalkIsFlat(disk, dims, leaf, b);
    NestedStride(disk, dims, leaf);
    FlatIndexBound(dims, a);
    FlatIndexBound(dims, b);
    Apart(i, j, w);
    Apart(j, i, w);
    Apart(i, Prod(dims), w);
    Apart(j, Prod(dims), w);
  }

  lemma Apart(i: nat, j: nat, w: nat)
    ensures i < j ==> i * w + w <= j * w
  {
    Scaled(i + 1, j, w);
  }

  // ---- Lists of nested arrays ----

  /** A nested array of handles; a null slot is `0`. */
  datatype Nest = Handle(off: nat) | Row(items: seq<Nest>)

  predicate WellShaped(dims: seq<nat>, n: Nest)
    decreases dims
  {
    match n
    case Handle(_) => dims == []
    case Row(items) => dims != [] && |items| == dims[0] && forall i :: 0 <= i < |items| ==> WellShaped(dims[1..], items[i])
  }

  function Flat(n: Nest): seq<nat>
    decreases n, 0
  {
    match n
    case Handle(o) => [o]
    case Row(items) => FlatAll(items)
  }

  function FlatAll(list: seq<Nest>): seq<nat>
    decreases list, 1
  {
    if list == [] then [] else Flat(list[0]) + FlatAll(list[1..])
  }

  function Rebuilt(dims: seq<nat>, flat: seq<nat>): Nest
    requires |flat| == Prod(dims)
    decreases |dims|, 0
  {
    if dims == [] then Handle(flat[0]) else Row(RebuiltAll(dims[1..], dims[0], flat))
  }

  function RebuiltAll(dims: seq<nat>, n: nat, flat: seq<nat>): (list: seq<Nest>)
    requires |flat| == n * Prod(dims)
    ensures |list| == n
    decreases |dims|, n + 1
  {
    if n == 0 then [] else
      var p := Prod(dims);
      assert flat != [] || p == 0;
      assert n * p == p + (n - 1) * p;
      [Rebuilt(dims, flat[..p])] + RebuiltAll(dims, n - 1, flat[p..])
  }

  lemma {:induction false} FlatLength(dims: seq<nat>, n: Nest)
    requires WellShaped(dims, n)
    ensures |Flat(n)| == Prod(dims)
    decreases n, 0
  {
    if n.Row? { FlatAllLength(dims[1..], n.items); }
  }

  /** The flat length is a multiple of the product of the dimensions. */
  lemma {:induction false} FlatAllLength(dims: seq<nat>, list: seq<Nest>)
    requires forall i :: 0 <= i < |list| ==> WellShaped(dims, list[i])
    ensures |FlatAll(list)| == |list| * Prod(dims)
    decreases list, 1
  {
    if list != [] {
      FlatLength(dims, list[0]);
      FlatAllLength(dims, list[1..]);
      OneMore(|list|, Prod(dims));
    }
  }

  lemma {:induction false} RebuiltFlat(dims: seq<nat>, n: Nest)
    requires WellShaped(dims, n)
    ensures |Flat(n)| == Prod(dims) && Rebuilt(dims, Flat(n)) == n
    decreases n, 0
  {
    FlatLength(dims, n);
    if n.Row? { RebuiltFlatAll(dims[1..], n.items); }
  }

  /** Cutting a flattened list gives the list back, null slots included. */
  lemma {:induction false} RebuiltFlatAll(dims: seq<nat>, list: seq<Nest>)
    requires forall i :: 0 <= i < |list| ==> WellShaped(dims, list[i])
    ensures |FlatAll(list)| == |list| * Prod(dims) && RebuiltAll(dims, |list|, FlatAll(list)) == list
    decreases list, 1
  {
    FlatAllLength(dims, list);
    if list != [] {
      var p, flat := Prod(dims), FlatAll(list);
      RebuiltFlat(dims, list[0]);
      RebuiltFlatAll(dims, list[1..]);
      assert flat[..p] == Flat(list[0]) && flat[p..] == FlatAll(list[1..]);
    }
  }

  lemma {:induction false} FlatConcat(a: seq<Nest>, b: seq<Nest>)
    ensures FlatAll(a + b) == FlatAll(a) + FlatAll(b)
  {
    hide Flat;
    var ab := a + b;
    if a == [] {
      assert ab == b;
    } else {
      FlatConcat(a[1..], b);
      assert ab[0] == a[0] && ab[1..] == a[1..] + b;
      ConcatAssociates(Flat(a[0]), FlatAll(a[1..]), FlatAll(b));
    }
  }

  // ---- Where an element is stored ----

  /** The handle at a multi-index. */
  function ElementAt(dims: seq<nat>, n: Nest, idx: seq<nat>): nat
    requires WellShaped(dims, n) && InBounds(dims, idx)
    decreases dims
  {
    match n
    case Handle(o) => o
    case Row(items) => ElementAt(dims[1..], items[idx[0]], idx[1..])
  }

  /** The leaves of the `i`-th array of a list follow those of the arrays before it. */
  lemma {:induction false} FlatAllAt(dims: seq<nat>, list: seq<Nest>, i: nat, j: nat)
    requires i < |list| && forall k :: 0 <= k < |list| ==> WellShaped(dims, list[k])
    requires j < Prod(dims)
    ensures |Flat(list[i])| == Prod(dims) && i * Prod(dims) + j < |FlatAll(list)|
    ensures FlatAll(list)[i * Prod(dims) + j] == Flat(list[i])[j]
    decreases list, 1
  {
    var p := Prod(dims);
    FlatLength(dims, list[0]);
    FlatLength(dims, list[i]);
    FlatAllLength(dims, list);
    if i > 0 {
      FlatAllAt(dims, list[1..], i - 1, j);
      OneMore(i, p);
    }
  }

  /** An array's leaves are stored in row-major order: each element at its flat index. */
  lemma {:induction false} FlatAt(dims: seq<nat>, n: Nest, idx: seq<nat>)
    requires WellShaped(dims, n) && InBounds(dims, idx)
    ensures FlatIndex(dims, idx) < |Flat(n)| == Prod(dims) && Flat(n)[FlatIndex(dims, idx)] == ElementAt(dims, n, idx)
    decreases n, 0
  {
    FlatLength(dims, n);
    FlatIndexBound(dims, idx);
    if n.Row? {
      FlatAt(dims[1..], n.items[idx[0]], idx[1..]);
      FlatAllAt(dims[1..], n.items, idx[0], FlatIndex(dims[1..], idx[1..]));
    }
  }

  /** In a list of arrays the element at `idx` of the `i`-th is at the flat index of both. */
  lemma ListFlatAt(dims: seq<nat>, list: seq<Nest>, i: nat, idx: seq<nat>)
    requires i < |list| && InBounds(dims, idx) && forall k :: 0 <= k < |list| ==> WellShaped(dims, list[k])
    ensures var at: nat := FlatIndex(dims, idx) + i * Prod(dims);
      at < |FlatAll(list)| && FlatAll(list)[at] == ElementAt(dims, list[i], idx)
  {
    hide Prod, FlatIndex, Flat, FlatAll;
    FlatIndexBound(dims, idx);
    FlatAt(dims, list[i], idx);
    FlatAllAt(dims, list, i, FlatIndex(dims, idx));
  }

  /** Row-major, spelled out for three dimensions. */
  lemma ThreeLevels(a: nat, b: nat, c: nat, i: nat, j: nat, k: nat)
    ensures Prod([a, b, c]) == a * (b * c) && FlatIndex([a, b, c], [i, j, k]) == i * (b * c) + (j * c + k)
  {
    var dims, idx := [a, b, c], [i, j, k];
    var dims2, idx2 := [b, c], [j, k];
    var dims1, idx1 := [c], [k];
    assert dims[1..] == dims2 && dims2[1..] == dims1 && dims1[1..] == [];
    assert idx[1..] == idx2 && idx2[1..] == idx1 && idx1[1..] == [];
    assert Prod(dims1) == c * Prod([]) == c && Prod(dims2) == b * c;
    assert FlatIndex(dims1, idx1) == k * Prod([]) + 0 == k;
  }

  // ---- The generated loops ----

  /** `nested_consume`: one loop per level, pushing every leaf. */
  method Consume(n: Nest, flat: seq<nat>) returns (out: seq<nat>)
    ensures out == flat + Flat(n)
    decreases n
  {
    match n {
      case Handle(o) => out := flat + [o];
      case Row(items) =>
        out := flat;
        for i := 0 to |items|
          invariant out == flat + FlatAll(items[..i])
        {
          assert items[..i + 1] == items[..i] + [items[i]];
          FlatConcat(items[..i], [items[i]]);
          assert FlatAll([items[i]]) == Flat(items[i]) + FlatAll([]);
          out := Consume(items[i], out);
        }
        assert items[..|items|] == items;
    }
  }

  /** `nested_build`: one loop per level, the flat position advancing at every leaf. */
  method Build(dims: seq<nat>, group: seq<nat>, k: nat) returns (n: Nest, next: nat)
    requires k + Prod(dims) <= |group|
    ensures next == k + Prod(dims) && n == Rebuilt(dims, group[k..next])
    decreases |dims|
  {
    if dims == [] {
      return Handle(group[k]), k + 1;
    }
    var rest, p := dims[1..], Prod(dims[1..]);
    var rows: seq<Nest> := [];
    next := k;
    for i := 0 to dims[0]
      invariant next == k + i * p && next <= |group|
      invariant |group[k..next]| == i * p && rows == RebuiltAll(rest, i, group[k..next])
    {
      RowFits(i, dims[0], p);
      var row, after := Build(rest, group, next);
      RebuiltNext(rest, i, group[k..next], group[next..after]);
      assert group[k..next] + group[next..after] == group[k..after];
      rows := rows + [row];
      next := after;
    }
    return Row(rows), next;
  }

  lemma RowFits(i: nat, n: nat, p: nat)
    requires i < n
    ensures i * p + p <= n * p && (i + 1) * p == i * p + p
  {
    Scaled(i + 1, n, p);
  }

  lemma {:induction false} RebuiltNext(dims: seq<nat>, n: nat, flat: seq<nat>, last: seq<nat>)
    requires |flat| == n * Prod(dims) && |last| == Prod(dims)
    ensures |flat + last| == (n + 1) * Prod(dims)
    ensures RebuiltAll(dims, n + 1, flat + last) == RebuiltAll(dims, n, flat) + [Rebuilt(dims, last)]
    decreases n
  {
    hide Rebuilt, Prod;
    var p, all := Prod(dims), flat + last;
    OneMore(n + 1, p);
    if n == 0 {
      assert flat == [] && all == last;
      OneRebuilt(dims, n + 1, all);
      assert RebuiltAll(dims, n, flat) == [];
    } else {
      hide RebuiltAll;
      OneMore(n, p);
      CutFirst(flat, last, p);
      RebuiltNext(dims, n - 1, flat[p..], last);
      FirstRebuilt(dims, n, flat);
      FirstRebuilt(dims, n + 1, all);
      ConcatAssociates([Rebuilt(dims, flat[..p])], RebuiltAll(dims, n - 1, flat[p..]), [Rebuilt(dims, last)]);
    }
  }

  lemma CutFirst(flat: seq<nat>, last: seq<nat>, p: nat)
    requires p <= |flat|
    ensures (flat + last)[..p] == flat[..p] && (flat + last)[p..] == flat[p..] + last
  {}

  lemma FirstRebuilt(dims: seq<nat>, n: nat, flat: seq<nat>)
    requires n > 0 && |flat| == n * Prod(dims)
    ensures var p := Prod(dims);
      p <= |flat| && |flat[p..]| == (n - 1) * p
      && RebuiltAll(dims, n, flat) == [Rebuilt(dims, flat[..p])] + RebuiltAll(dims, n - 1, flat[p..])
  {
    hide Rebuilt, Prod;
    OneMore(n, Prod(dims));
  }

  lemma OneRebuilt(dims: seq<nat>, n: nat, flat: seq<nat>)
    requires n == 1 && |flat| == Prod(dims)
    ensures |flat| == n * Prod(dims) && RebuiltAll(dims, n, flat) == [Rebuilt(dims, flat)]
  {
    hide Rebuilt, Prod;
    assert flat[..|flat|] == flat;
  }

  /** The accessor of a vector of arrays: cut the flat slots into groups of the product and
      build one array from each.  A product of zero, which only a dimension that is not a
      literal can bring about, aborts the read, whatever the vector holds. */
  method Chunk(dims: seq<nat>, flat: seq<nat>, count: nat) returns (ok: bool, out: seq<Nest>)
    requires |flat| == count * Prod(dims)
    ensures ok <==> 0 < Prod(dims)
    ensures ok ==> out == RebuiltAll(dims, count, flat)
  {
    var p, k := Prod(dims), 0;
    ok, out := p != 0, [];
    if !ok { return; }
    while k < |flat|
      invariant k == |out| * p <= |flat|
      invariant |flat[..k]| == |out| * p && out == RebuiltAll(dims, |out|, flat[..k])
      decreases |flat| - k
    {
      NotLast(|out|, count, p);
      var group := flat[k..k + p];
      var n, next := Build(dims, group, 0);
      assert group[0..next] == group;
      RebuiltNext(dims, |out|, flat[..k], group);
      assert flat[..k] + group == flat[..k + p];
      out := out + [n];
      k := k + p;
    }
    assert flat[..k] == flat;
    SameCount(|out|, count, p);
  }

  lemma NotLast(i: nat, count: nat, p: nat)
    requires i * p < count * p
    ensures i * p + p <= count * p
  {
    Scaled(count, i, p);
    Scaled(i + 1, count, p);
  }

  lemma SameCount(i: nat, count: nat, p: nat)
    requires p > 0 && i * p == count * p
    ensures i == count
  {
    Scaled(i + 1, count, p);
    Scaled(count + 1, i, p);
  }

  /** With a zero dimension nothing is stored, so no reader could tell two lists apart. */
  lemma ZeroStoresNothing(dims: seq<nat>, list: seq<Nest>)
    requires Prod(dims) == 0 && forall i :: 0 <= i < |list| ==> WellShaped(dims, list[i])
    ensures FlatAll(list) == []
  {
    FlatAllLength(dims, list);
    Scaled(|list|, |list|, 0);
  }

  /** Storing a list of nested arrays and reading it back: the identity, unless a dimension
      is zero. */
  method StoreAndLoad(dims: seq<nat>, list: seq<Nest>) returns (ok: bool, back: seq<Nest>)
    requires forall i :: 0 <= i < |list| ==> WellShaped(dims, list[i])
    ensures ok <==> 0 < Prod(dims)
    ensures ok ==> back == list
  {
    var flat: seq<nat> := [];
    for i := 0 to |list|
      invariant flat == FlatAll(list[..i])
    {
      assert list[..i + 1] == list[..i] + [list[i]];
      FlatConcat(list[..i], [list[i]]);
      assert FlatAll([list[i]]) == Flat(list[i]) + FlatAll([]);
      flat := Consume(list[i], flat);
    }
    assert list[..|list|] == list;
    RebuiltFlatAll(dims, list);
    ok, back := Chunk(dims, flat, |list|);
  }
}
