/** Discriminants of an enum: the value of each variant, the integer type they are stored
    in, and the narrowing to the schema's 64-bit signed field. */
module Discriminants {
  import opened Heap
  import opened Laws

  const I128_MAX: int := 0x7FFF_FFFF_FFFF_FFFF_FFFF_FFFF_FFFF_FFFF
  const TWO_63: int := 0x8000_0000_0000_0000
  const TWO_64: int := 0x1_0000_0000_0000_0000

  datatype IntType = U8 | U16 | U32 | U64 | I8 | I16 | I32 | I64

  datatype Problem = NotAnI128 | AssignedTwice | NextOverflows | OutOfRange

  datatype Result = Ok(values: seq<int>, ty: IntType) | Err(problem: Problem)

  function Lo(t: IntType): int {
    match t
    case I8 => -0x80
    case I16 => -0x8000
    case I32 => -0x8000_0000
    case I64 => -TWO_63
    case _ => 0
  }

  function Hi(t: IntType): int {
    match t
    case U8 => 0xFF
    case U16 => 0xFFFF
    case U32 => 0xFFFF_FFFF
    case U64 => TWO_64 - 1
    case I8 => 0x7F
    case I16 => 0x7FFF
    case I32 => 0x7FFF_FFFF
    case I64 => TWO_63 - 1
  }

  function Modulus(t: IntType): int {
    match t
    case U8 => 0x100
    case I8 => 0x100
    case U16 => 0x1_0000
    case I16 => 0x1_0000
    case U32 => 0x1_0000_0000
    case I32 => 0x1_0000_0000
    case U64 => TWO_64
    case I64 => TWO_64
  }

  /** The integer types: bounds and widths. */
  lemma IntTypes(t: IntType)
    ensures t.U8? || t.I8? ==> Modulus(t) == 256
    ensures t.U16? || t.I16? ==> Modulus(t) == 65536
    ensures t.U32? || t.I32? ==> Modulus(t) == 4294967296
    ensures t.U64? || t.I64? ==> Modulus(t) == 18446744073709551616
    ensures t.U8? || t.U16? || t.U32? || t.U64? ==> Lo(t) == 0 && Hi(t) == Modulus(t) - 1
    ensures t.I8? || t.I16? || t.I32? || t.I64? ==> 2 * Lo(t) == -Modulus(t) && 2 * Hi(t) == Modulus(t) - 2
  {}

  predicate Fits(t: IntType, v: int) { Lo(t) <= v <= Hi(t) }

  predicate AllFit(t: IntType, vs: seq<int>) { forall v <- vs :: Fits(t, v) }

  predicate NoRepeats(vs: seq<int>) { forall i, j :: 0 <= i < j < |vs| ==> vs[i] != vs[j] }

  /** The rule: an explicit value, or one more than the predecessor, or zero. */
  function ByRule(variants: seq<Option<int>>, vs: seq<int>, i: nat): int
    requires i < |variants| && i <= |vs|
  {
    match variants[i]
    case Some(v) => v
    case None => if i == 0 then 0 else vs[i - 1] + 1
  }

  predicate Follows(variants: seq<Option<int>>, vs: seq<int>) {
    |vs| == |variants| && forall i :: 0 <= i < |vs| ==> vs[i] == ByRule(variants, vs, i)
  }

  predicate InI128(v: int) { -I128_MAX <= v < I128_MAX }

  lemma FollowsPrefix(variants: seq<Option<int>>, vs: seq<int>, k: nat)
    requires Follows(variants, vs) && k <= |vs|
    ensures Follows(variants[..k], vs[..k])
  {
    forall i | 0 <= i < k ensures vs[..k][i] == ByRule(variants[..k], vs[..k], i) {
      assert vs[i] == ByRule(variants, vs, i);
    }
  }

  lemma FollowsNext(variants: seq<Option<int>>, vs: seq<int>)
    requires |vs| < |variants| && Follows(variants[..|vs|], vs)
    ensures Follows(variants[..|vs| + 1], vs + [ByRule(variants, vs, |vs|)])
  {
    var n := |vs|;
    var ws := vs + [ByRule(variants, vs, n)];
    forall i | 0 <= i < n + 1 ensures ws[i] == ByRule(variants[..n + 1], ws, i) {
      if i < n { assert vs[i] == ByRule(variants[..n], vs, i); }
    }
  }

  /** The rule leaves no choice. */
  lemma {:induction false} FollowsUnique(variants: seq<Option<int>>, vs: seq<int>, ws: seq<int>)
    requires Follows(variants, vs) && Follows(variants, ws)
    ensures vs == ws
    decreases |vs|
  {
    if vs != [] {
      var n := |vs| - 1;
      FollowsPrefix(variants, vs, n);
      FollowsPrefix(variants, ws, n);
      FollowsUnique(variants[..n], vs[..n], ws[..n]);
      assert vs == vs[..n] + [vs[n]] && ws == ws[..n] + [ws[n]];
      assert n > 0 ==> vs[n - 1] == vs[..n][n - 1] && ws[n - 1] == ws[..n][n - 1];
    }
  }

  predicate Signed(t: IntType) { Lo(t) < 0 }

  function Candidate(signed: bool, i: nat): IntType {
    if signed then (if i == 0 then I8 else if i == 1 then I16 else if i == 2 then I32 else I64)
    else (if i == 0 then U8 else if i == 1 then U16 else if i == 2 then U32 else U64)
  }

  predicate Holds(t: IntType, lo: int, hi: int) { Fits(t, lo) && Fits(t, hi) }

  /** `t` holds both values, and every narrower type of the same kind does not. */
  predicate Narrowest(t: IntType, lo: int, hi: int) {
    Holds(t, lo, hi) && forall u: IntType :: Signed(u) == Signed(t) && Holds(u, lo, hi) ==> Hi(t) <= Hi(u)
  }

  lemma FirstIsNarrowest(signed: bool, i: nat, lo: int, hi: int)
    requires i < 4 && Holds(Candidate(signed, i), lo, hi)
    requires forall j :: 0 <= j < i ==> !Holds(Candidate(signed, j), lo, hi)
    ensures Narrowest(Candidate(signed, i), lo, hi)
  {
    forall u: IntType | Signed(u) == signed && Holds(u, lo, hi) ensures Hi(Candidate(signed, i)) <= Hi(u) {
      var k := if u.U8? || u.I8? then 0 else if u.U16? || u.I16? then 1 else if u.U32? || u.I32? then 2 else 3;
      assert Candidate(signed, k) == u;
    }
  }

  /** The inferred type: the narrowest that holds every value, signed only if one is
      negative; the widest of its kind when none does, unchecked. */
  method InferType(lo: int, hi: int) returns (t: IntType)
    requires lo <= hi
    ensures Signed(t) <==> lo < 0
    ensures Holds(t, lo, hi) <==>
      if lo < 0 then -9223372036854775808 <= lo && hi < 9223372036854775808 else hi < 18446744073709551616
    ensures Holds(t, lo, hi) ==> Narrowest(t, lo, hi)
    ensures !Holds(t, lo, hi) ==> t == if lo < 0 then I64 else U64
  {
    var signed, i := lo < 0, 0;
    while i < 4
      invariant 0 <= i <= 4
      invariant forall j :: 0 <= j < i ==> !Holds(Candidate(signed, j), lo, hi)
    {
      if Holds(Candidate(signed, i), lo, hi) {
        FirstIsNarrowest(signed, i, lo, hi);
        return Candidate(signed, i);
      }
      i := i + 1;
    }
    assert !Holds(Candidate(signed, 3), lo, hi);
    return Candidate(signed, 3);
  }

  predicate Bounds(vs: seq<int>, lo: int, hi: int) {
    if vs == [] then lo == hi == 0 else lo in vs && hi in vs && forall v <- vs :: lo <= v <= hi
  }

  method MinMax(vs: seq<int>) returns (lo: int, hi: int)
    ensures Bounds(vs, lo, hi) && lo <= hi
  {
    if vs == [] { return 0, 0; }
    lo, hi := vs[0], vs[0];
    var i := 1;
    while i < |vs|
      invariant 1 <= i <= |vs| && lo in vs && hi in vs && lo <= hi
      invariant forall j :: 0 <= j < i ==> lo <= vs[j] <= hi
    {
      if vs[i] < lo { lo := vs[i]; }
      if vs[i] > hi { hi := vs[i]; }
      i := i + 1;
    }
  }

  /** Whether some integer type holds all of the values: what the inferred width needs and
      nobody checks. */
  predicate Representable(vs: seq<int>) {
    if exists v <- vs :: v < 0 then forall v <- vs :: -TWO_63 <= v < TWO_63 else forall v <- vs :: v < TWO_64
  }

  predicate Sound(vs: seq<int>) { NoRepeats(vs) && forall v <- vs :: InI128(v) }

  /** A prefix that breaks a rule rules out every assignment. */
  lemma NoSuchValues(variants: seq<Option<int>>, k: nat, more: seq<int>)
    requires k <= |variants| && Follows(variants[..k], more) && !Sound(more)
    ensures forall vs :: Follows(variants, vs) ==> !Sound(vs)
  {
    forall vs | Follows(variants, vs) ensures !Sound(vs) {
      FollowsPrefix(variants, vs, k);
      FollowsUnique(variants[..k], vs[..k], more);
      assert forall v <- vs[..k] :: v in vs;
    }
  }

  lemma OnlyValues(variants: seq<Option<int>>, out: seq<int>)
    requires Follows(variants, out)
    ensures forall vs :: Follows(variants, vs) ==> vs == out
  {
    forall vs | Follows(variants, vs) ensures vs == out { FollowsUnique(variants, vs, out); }
  }

  lemma BoundsFit(vs: seq<int>, lo: int, hi: int, t: IntType)
    requires Bounds(vs, lo, hi)
    ensures AllFit(t, vs) <==> Lo(t) <= lo && hi <= Hi(t)
  {
    if AllFit(t, vs) && vs != [] { assert Fits(t, lo) && Fits(t, hi); }
  }

  lemma BoundsRepresentable(vs: seq<int>, lo: int, hi: int)
    requires Bounds(vs, lo, hi)
    ensures Representable(vs) <==> if lo < 0 then -TWO_63 <= lo && hi < TWO_63 else hi < TWO_64
  {}

  /** What is wrong with the last of some discriminants, the others being sound: it was
      written as a number that is no 128-bit one, an earlier variant has it, or nothing can
      follow it. */
  predicate LastIs(vs: seq<int>, p: Problem) {
    vs != [] &&
    var d, others := vs[|vs| - 1], vs[..|vs| - 1];
    match p
    case NotAnI128 => d < -0x7FFF_FFFF_FFFF_FFFF_FFFF_FFFF_FFFF_FFFF || d > 0x7FFF_FFFF_FFFF_FFFF_FFFF_FFFF_FFFF_FFFF
    case AssignedTwice => d in others
    case NextOverflows => d == 0x7FFF_FFFF_FFFF_FFFF_FFFF_FFFF_FFFF_FFFF && d !in others
    case OutOfRange => false
  }

  /** The problem reported is that of the first discriminant that has one; only if none has
      is a value outside the given type reported. */
  ghost predicate Justified(variants: seq<Option<int>>, repr: Option<IntType>, p: Problem) {
    if p.OutOfRange? then repr.Some? && exists vs :: Follows(variants, vs) && Sound(vs) && !AllFit(repr.value, vs)
    else exists vs :: 0 < |vs| <= |variants| && Follows(variants[..|vs|], vs) && Sound(vs[..|vs| - 1]) && LastIs(vs, p)
  }

  lemma FirstProblem(variants: seq<Option<int>>, repr: Option<IntType>, vs: seq<int>, d: int, p: Problem)
    requires |vs| < |variants| && Follows(variants[..|vs| + 1], vs + [d]) && Sound(vs) && LastIs(vs + [d], p)
    ensures Justified(variants, repr, p)
  {
    var more := vs + [d];
    assert more[..|more| - 1] == vs;
  }

  /** Assign, check and size the discriminants: an explicit value stands, and any other is
      one more than its predecessor, the first one zero. */
  method Assign(variants: seq<Option<int>>, repr: Option<IntType>) returns (r: Result)
    ensures r.Ok? ==> |r.values| == |variants|
    ensures r.Ok? ==> forall i :: 0 <= i < |variants| && variants[i].Some? ==> r.values[i] == variants[i].value
    ensures r.Ok? && |variants| > 0 && variants[0].None? ==> r.values[0] == 0
    ensures r.Ok? ==> forall i :: 0 < i < |variants| && variants[i].None? ==> r.values[i] == r.values[i - 1] + 1
    ensures r.Err? ==> Justified(variants, repr, r.problem)
    ensures r.Ok? ==> Follows(variants, r.values) && Sound(r.values)
    ensures r.Ok? <==> exists vs :: Follows(variants, vs) && Sound(vs) && (repr.Some? ==> AllFit(repr.value, vs))
    ensures r.Ok? && repr.Some? ==> r.ty == repr.value && AllFit(r.ty, r.values)
    ensures r.Ok? && repr.None? ==> (AllFit(r.ty, r.values) <==> Representable(r.values))
  {
    var out, next, i := [], 0, 0;
    while i < |variants|
      invariant 0 <= i <= |variants| && Follows(variants[..i], out) && NoRepeats(out)
      invariant forall v <- out :: InI128(v)
      invariant next == if out == [] then 0 else out[|out| - 1] + 1
      invariant -I128_MAX <= next <= I128_MAX
    {
      var d := match variants[i] case Some(v) => v case None => next;
      ghost var more := out + [d];
      FollowsNext(variants, out);
      assert more[|out|] == d && d in more;
      if d < -I128_MAX || d > I128_MAX {
        NoSuchValues(variants, i + 1, more);
        FirstProblem(variants, repr, out, d, NotAnI128);
        return Err(NotAnI128);
      }
      if d in out {
        ghost var j :| 0 <= j < |out| && out[j] == d;
        assert more[j] == more[|out|];
        NoSuchValues(variants, i + 1, more);
        FirstProblem(variants, repr, out, d, AssignedTwice);
        return Err(AssignedTwice);
      }
      ghost var before := out;
      out := out + [d];
      if d == I128_MAX {
        NoSuchValues(variants, i + 1, more);
        FirstProblem(variants, repr, before, d, NextOverflows);
        return Err(NextOverflows);
      }
      next := d + 1;
      i := i + 1;
    }
    assert variants[..i] == variants;
    OnlyValues(variants, out);
    var lo, hi := MinMax(out);
    match repr {
      case Some(t) =>
        BoundsFit(out, lo, hi, t);
        if lo < Lo(t) || hi > Hi(t) { return Err(OutOfRange); }
        return Ok(out, t);
      case None =>
        var t := InferType(lo, hi);
        BoundsFit(out, lo, hi, t);
        BoundsRepresentable(out, lo, hi);
        return Ok(out, t);
    }
  }

  // ---- Narrowing to the schema ----

  /** `value as i64`. */
  function ToI64(v: int): (r: int)
    ensures -TWO_63 <= r < TWO_63 && (r - v) % TWO_64 == 0
  {
    var m := v % TWO_64;
    if m >= TWO_63 then m - TWO_64 else m
  }

  /** The bits on disk: the value modulo two to the width. */
  function Stored(t: IntType, v: int): (r: int)
    ensures 0 <= r < Modulus(t) && (v - r) % Modulus(t) == 0
  {
    RemainderFits(v, Modulus(t));
    v % Modulus(t)
  }

  lemma RemainderFits(v: int, m: int)
    requires m > 0
    ensures 0 <= v % m < m && (v - v % m) % m == 0
  {
    RemainderUnique(v - v % m, v / m, 0, m);
  }

  /** The schema's value and the stored discriminant agree modulo two to the width, for
      every value whatsoever. */
  lemma NarrowAgrees(t: IntType, v: int)
    ensures ToI64(v) % Modulus(t) == Stored(t, v)
  {
    var k := (ToI64(v) - v) / TWO_64;
    assert ToI64(v) == v + k * TWO_64;
    var q := TWO_64 / Modulus(t);
    assert TWO_64 == q * Modulus(t);
    assert ToI64(v) == v + (k * q) * Modulus(t) by { ProductAssociates(k, q, Modulus(t)); }
    ModMultiple(v, k * q, Modulus(t));
  }

  lemma ModMultiple(v: int, k: int, m: int)
    requires m > 0
    ensures (v + k * m) % m == v % m
  {
    var r, d := v % m, v / m;
    assert v + k * m == (d + k) * m + r;
    RemainderUnique(v + k * m, d + k, r, m);
  }

  lemma RemainderUnique(x: int, d: int, r: int, m: int)
    requires m > 0 && 0 <= r < m && x == d * m + r
    ensures x % m == r
  {
    var e, q := x / m, x % m;
    assert x == e * m + q;
    assert (e - d) * m == r - q;
    SmallMultiple(e - d, m);
  }

  /** A multiple of `m` strictly between `-m` and `m` is zero. */
  lemma SmallMultiple(k: int, m: int)
    requires m > 0
    ensures k > 0 ==> k * m >= m
    ensures k < 0 ==> k * m <= -m
  {
    if k > 0 { Grows(k - 1, m); }
    if k < 0 { Grows(-k - 1, m); }
  }

  lemma Grows(k: nat, m: nat)
    ensures (k + 1) * m >= m
  {}

  /** Fitting values keep distinct bits and distinct schema values, also above the signed
      maximum. */
  lemma FittingStaysDistinct(t: IntType, v: int, w: int)
    requires Fits(t, v) && Fits(t, w) && v != w
    ensures Stored(t, v) != Stored(t, w) && ToI64(v) != ToI64(w)
  {
    if Stored(t, v) == Stored(t, w) { SameRemainder(v, w, Modulus(t)); }
    if ToI64(v) == ToI64(w) { SameNarrow(v, w); }
  }

  lemma SameNarrow(v: int, w: int)
    requires ToI64(v) == ToI64(w)
    ensures v == w || v - w >= TWO_64 || w - v >= TWO_64
  {
    assert v % TWO_64 == w % TWO_64;
    SameRemainder(v, w, TWO_64);
  }

  lemma SameRemainder(v: int, w: int, m: int)
    requires m > 0 && v % m == w % m
    ensures v == w || v - w >= m || w - v >= m
  {
    var a, b, r := v / m, w / m, v % m;
    assert v == a * m + r && w == b * m + r;
    assert v - w == (a - b) * m;
    SmallMultiple(a - b, m);
  }

  /** Accepted discriminants whose type was given, or whose inferred type really holds them,
      stay distinct on disk and in the schema. */
  lemma AcceptedStaysDistinct(t: IntType, vs: seq<int>, i: nat, j: nat)
    requires NoRepeats(vs) && AllFit(t, vs) && i < j < |vs|
    ensures Stored(t, vs[i]) != Stored(t, vs[j]) && ToI64(vs[i]) != ToI64(vs[j])
  {
    FittingStaysDistinct(t, vs[i], vs[j]);
  }

  /** Inference does not check its last candidate: these two discriminants are accepted,
      fit no type, and narrow to the same schema value. */
  lemma UncheckedWidth()
    ensures Sound([-1, TWO_64 - 1]) && !Representable([-1, TWO_64 - 1])
    ensures ToI64(-1) == ToI64(TWO_64 - 1) && Stored(I64, -1) == Stored(I64, TWO_64 - 1)
  {
    var vs := [-1, TWO_64 - 1];
    assert -1 in vs && TWO_64 - 1 in vs;
  }
}
