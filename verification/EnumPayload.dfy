/** The payload of an enum block: the area is as large as the largest variant, each variant
    packs its fields one after the other, and the discriminant says which one is there. */
module EnumPayload {
  import opened Laws

  type Byte = b: int | 0 <= b < 0x100

  /** A variant: the value of its discriminant and the sizes of its fields. */
  datatype Variant = Variant(disc: int, sizes: seq<nat>)

  /** What a caller stores: one of the variants, with a value per field. */
  datatype Data = Data(index: nat, fields: seq<seq<Byte>>)

  function Sum(sizes: seq<nat>): nat {
    if sizes == [] then 0 else sizes[0] + Sum(sizes[1..])
  }

  /** Where the `j`-th field starts. */
  function Offset(sizes: seq<nat>, j: nat): nat
    requires j <= |sizes|
  {
    Sum(sizes[..j])
  }

  function Flat(fields: seq<seq<Byte>>): seq<Byte> {
    if fields == [] then [] else fields[0] + Flat(fields[1..])
  }

  function Zeros(n: nat): (z: seq<Byte>)
    ensures |z| == n
  {
    seq(n, _ => 0)
  }

  predicate Shaped(sizes: seq<nat>, fields: seq<seq<Byte>>) {
    |fields| == |sizes| && forall j :: 0 <= j < |sizes| ==> |fields[j]| == sizes[j]
  }

  lemma {:induction false} SumSplit(a: seq<nat>, b: seq<nat>)
    ensures Sum(a + b) == Sum(a) + Sum(b)
  {
    if a == [] {
      assert a + b == b;
    } else {
      SumSplit(a[1..], b);
      assert (a + b)[1..] == a[1..] + b;
    }
  }

  lemma OffsetNext(sizes: seq<nat>, j: nat)
    requires j < |sizes|
    ensures Offset(sizes, j + 1) == Offset(sizes, j) + sizes[j]
  {
    assert sizes[..j + 1] == sizes[..j] + [sizes[j]];
    SumSplit(sizes[..j], [sizes[j]]);
    assert Sum([sizes[j]]) == sizes[j] + Sum([]);
  }

  /** Field windows are in order, disjoint, and inside the variant's size. */
  lemma {:induction false} Windows(sizes: seq<nat>, i: nat, j: nat)
    requires i < j <= |sizes|
    ensures Offset(sizes, i) + sizes[i] <= Offset(sizes, j) <= Sum(sizes)
    decreases j
  {
    OffsetNext(sizes, j - 1);
    if i < j - 1 { Windows(sizes, i, j - 1); }
    assert sizes == sizes[..j] + sizes[j..];
    SumSplit(sizes[..j], sizes[j..]);
  }

  lemma {:induction false} FlatSplit(a: seq<seq<Byte>>, b: seq<seq<Byte>>)
    ensures Flat(a + b) == Flat(a) + Flat(b)
  {
    if a == [] {
      assert a + b == b;
    } else {
      FlatSplit(a[1..], b);
      var ab := a + b;
      assert ab[0] == a[0] && ab[1..] == a[1..] + b;
      ConcatAssociates(a[0], Flat(a[1..]), Flat(b));
    }
  }

  lemma FlatNext(fields: seq<seq<Byte>>, j: nat)
    requires j < |fields|
    ensures Flat(fields[..j + 1]) == Flat(fields[..j]) + fields[j]
    ensures |Flat(fields[..j + 1])| <= |Flat(fields)|
  {
    assert fields[..j + 1] == fields[..j] + [fields[j]];
    FlatSplit(fields[..j], [fields[j]]);
    assert Flat([fields[j]]) == fields[j] + Flat([]) == fields[j];
    assert fields == fields[..j + 1] + fields[j + 1..];
    FlatSplit(fields[..j + 1], fields[j + 1..]);
  }

  lemma {:induction false} FlatLength(sizes: seq<nat>, fields: seq<seq<Byte>>)
    requires Shaped(sizes, fields)
    ensures |Flat(fields)| == Sum(sizes)
    decreases |fields|
  {
    if fields != [] { FlatLength(sizes[1..], fields[1..]); }
  }

  // ---- The payload constant ----

  predicate Bounds(variants: seq<Variant>, payload: nat) {
    forall v <- variants :: Sum(v.sizes) <= payload
  }

  /** The maximum over all variants, and no more; the list starts with a zero so that an
      enum without payload has one too. */
  method PayloadConst(variants: seq<Variant>) returns (m: nat)
    ensures Bounds(variants, m)
    ensures forall bound: nat :: Bounds(variants, bound) ==> m <= bound
  {
    var s := [0] + seq(|variants|, k requires 0 <= k < |variants| => Sum(variants[k].sizes));
    m := 0;
    var i := 0;
    while i < |s|
      invariant 0 <= i <= |s| && m in s
      invariant forall j :: 0 <= j < i ==> s[j] <= m
    {
      if s[i] > m { m := s[i]; }
      i := i + 1;
    }
    forall k | 0 <= k < |variants| ensures Sum(variants[k].sizes) <= m {
      assert s[k + 1] == Sum(variants[k].sizes);
    }
    assert m == 0 || exists k :: 0 <= k < |variants| && m == Sum(variants[k].sizes);
  }

  // ---- Writing and reading ----

  predicate Stores(variants: seq<Variant>, d: Data) {
    d.index < |variants| && Shaped(variants[d.index].sizes, d.fields)
  }

  /** The payload bytes of a value: its fields packed, the rest zero. */
  function Packed(payload: nat, fields: seq<seq<Byte>>): (p: seq<Byte>)
    requires |Flat(fields)| <= payload
    ensures |p| == payload
  {
    Flat(fields) + Zeros(payload - |Flat(fields)|)
  }

  /** Each field lies in its own window of the packed fields. */
  lemma {:induction false} FlatAt(sizes: seq<nat>, fields: seq<seq<Byte>>, j: nat)
    requires Shaped(sizes, fields) && j < |sizes|
    ensures Offset(sizes, j) + sizes[j] <= |Flat(fields)| == Sum(sizes)
    ensures Flat(fields)[Offset(sizes, j)..Offset(sizes, j) + sizes[j]] == fields[j]
  {
    FlatLength(sizes, fields);
    Windows(sizes, j, j + 1);
    FlatLength(sizes[..j], fields[..j]);
    assert fields == fields[..j] + fields[j..] && fields[j..] == [fields[j]] + fields[j + 1..];
    FlatSplit(fields[..j], fields[j..]);
    assert Flat(fields[j..]) == fields[j] + Flat(fields[j + 1..]);
  }

  /** The area holds each field at the sum of the sizes before it, and zeros after the last. */
  predicate Laid(sizes: seq<nat>, fields: seq<seq<Byte>>, area: seq<Byte>) {
    && |fields| == |sizes| && Sum(sizes) <= |area|
    && (forall j :: 0 <= j < |sizes| ==>
          Offset(sizes, j) + sizes[j] <= |area| && area[Offset(sizes, j)..Offset(sizes, j) + sizes[j]] == fields[j])
    && (forall t :: Sum(sizes) <= t < |area| ==> area[t] == 0)
  }

  lemma PackedIsLaid(payload: nat, sizes: seq<nat>, fields: seq<seq<Byte>>)
    requires Shaped(sizes, fields) && |Flat(fields)| <= payload
    ensures Laid(sizes, fields, Packed(payload, fields))
  {
    hide Flat, Offset;
    FlatLength(sizes, fields);
    var area := Packed(payload, fields);
    forall j | 0 <= j < |sizes|
      ensures Offset(sizes, j) + sizes[j] <= |area| && area[Offset(sizes, j)..Offset(sizes, j) + sizes[j]] == fields[j]
    {
      FlatAt(sizes, fields, j);
      assert area[Offset(sizes, j)..Offset(sizes, j) + sizes[j]] == Flat(fields)[Offset(sizes, j)..Offset(sizes, j) + sizes[j]];
    }
  }

  method Write(variants: seq<Variant>, payload: nat, d: Data) returns (disc: int, area: array<Byte>)
    requires Bounds(variants, payload) && Stores(variants, d)
    ensures disc == variants[d.index].disc
    ensures |Flat(d.fields)| <= payload && area[..] == Packed(payload, d.fields)
    ensures Laid(variants[d.index].sizes, d.fields, area[..])
  {
    ghost var sizes := variants[d.index].sizes;
    FlatLength(sizes, d.fields);
    assert variants[d.index] in variants;
    disc := variants[d.index].disc;
    area := new Byte[payload](_ => 0);
    var j, off := 0, 0;
    while j < |d.fields|
      invariant 0 <= j <= |d.fields| && off == |Flat(d.fields[..j])| <= payload
      invariant area[..off] == Flat(d.fields[..j])
      invariant forall t :: off <= t < payload ==> area[t] == 0
    {
      var bytes := d.fields[j];
      FlatNext(d.fields, j);
      ghost var before := area[..off];
      forall t | 0 <= t < |bytes| { area[off + t] := bytes[t]; }
      assert area[..off + |bytes|] == before + bytes;
      off := off + |bytes|;
      j := j + 1;
    }
    assert d.fields[..j] == d.fields;
    assert area[..] == area[..off] + area[off..];
    PackedIsLaid(payload, sizes, d.fields);
  }

  /** The field windows of a payload. */
  function Unpacked(area: seq<Byte>, sizes: seq<nat>): seq<seq<Byte>>
    requires Sum(sizes) <= |area|
  {
    if sizes == [] then [] else [area[..sizes[0]]] + Unpacked(area[sizes[0]..], sizes[1..])
  }

  lemma SumNext(sizes: seq<nat>, n: nat)
    ensures Sum(sizes + [n]) == Sum(sizes) + n
  {
    SumSplit(sizes, [n]);
    assert Sum([n]) == n + Sum([]);
  }

  lemma Window(area: seq<Byte>, first: nat, start: nat, n: nat)
    requires first + start + n <= |area|
    ensures area[first..][start..start + n] == area[first + start..first + start + n]
  {}

  lemma {:induction false} UnpackedNext(area: seq<Byte>, sizes: seq<nat>, n: nat)
    requires Sum(sizes) + n <= |area|
    ensures Sum(sizes + [n]) == Sum(sizes) + n
    ensures Unpacked(area, sizes + [n]) == Unpacked(area, sizes) + [area[Sum(sizes)..Sum(sizes) + n]]
    decreases |sizes|
  {
    SumNext(sizes, n);
    if sizes == [] {
      var one := sizes + [n];
      assert one[0] == n && one[1..] == [];
    } else {
      var first, more, rest := sizes[0], sizes[1..], area[sizes[0]..];
      UnpackedNext(rest, more, n);
      var all := sizes + [n];
      assert all[0] == first && all[1..] == more + [n];
      Window(area, first, Sum(more), n);
    }
  }

  /** Reading: the arm whose discriminant matches, each field at its cumulative offset. */
  method Read(variants: seq<Variant>, payload: nat, disc: int, area: seq<Byte>) returns (ok: bool, d: Data)
    requires Bounds(variants, payload) && |area| == payload
    ensures ok <==> exists v <- variants :: v.disc == disc
    ensures ok ==> d.index < |variants| && variants[d.index].disc == disc
    ensures ok ==> Sum(variants[d.index].sizes) <= payload && d.fields == Unpacked(area, variants[d.index].sizes)
  {
    var i := 0;
    while i < |variants| && variants[i].disc != disc
      invariant 0 <= i <= |variants| && forall k :: 0 <= k < i ==> variants[k].disc != disc
    {
      i := i + 1;
    }
    if i == |variants| { return false, Data(0, []); }
    var sizes := variants[i].sizes;
    assert variants[i] in variants;
    var fields, j, off := [], 0, 0;
    assert sizes[..0] == [];
    while j < |sizes|
      invariant 0 <= j <= |sizes| && off == Sum(sizes[..j]) <= |area|
      invariant fields == Unpacked(area, sizes[..j])
    {
      OffsetNext(sizes, j);
      Windows(sizes, j, j + 1);
      UnpackedNext(area, sizes[..j], sizes[j]);
      assert sizes[..j + 1] == sizes[..j] + [sizes[j]];
      fields := fields + [area[off..off + sizes[j]]];
      off := off + sizes[j];
      j := j + 1;
    }
    assert sizes[..j] == sizes;
    return true, Data(i, fields);
  }

  /** Reading what was written gives it back, whatever follows it in the area. */
  lemma {:induction false} UnpackFlat(sizes: seq<nat>, fields: seq<seq<Byte>>, tail: seq<Byte>)
    requires Shaped(sizes, fields)
    ensures Sum(sizes) <= |Flat(fields) + tail|
    ensures Unpacked(Flat(fields) + tail, sizes) == fields
    decreases |sizes|
  {
    FlatLength(sizes, fields);
    if sizes != [] {
      var area, rest := Flat(fields) + tail, Flat(fields[1..]) + tail;
      UnpackFlat(sizes[1..], fields[1..], tail);
      assert area == fields[0] + rest;
      assert area[..sizes[0]] == fields[0] && area[sizes[0]..] == rest;
    }
  }

  method RoundTrip(variants: seq<Variant>, payload: nat, d: Data) returns (ok: bool, back: Data)
    requires Bounds(variants, payload) && Stores(variants, d)
    requires forall i, j :: 0 <= i < j < |variants| ==> variants[i].disc != variants[j].disc
    ensures ok && back == d
  {
    var disc, area := Write(variants, payload, d);
    assert variants[d.index] in variants;
    ok, back := Read(variants, payload, disc, area[..]);
    UnpackFlat(variants[d.index].sizes, d.fields, Zeros(payload - |Flat(d.fields)|));
  }

  // ---- The schema's view ----

  /** The offsets the schema records: for each field the sizes of the preceding ones. */
  method SchemaOffsets(sizes: seq<nat>) returns (offsets: seq<nat>)
    ensures |offsets| == |sizes| && forall j :: 0 <= j < |sizes| ==> offsets[j] == Offset(sizes, j)
    ensures sizes != [] ==> offsets[0] == 0
    ensures forall j :: 0 < j < |sizes| ==> offsets[j] == offsets[j - 1] + sizes[j - 1]
  {
    var preceding: seq<nat> := [];
    offsets := [];
    while |offsets| < |sizes|
      invariant |offsets| <= |sizes| && preceding == sizes[..|offsets|]
      invariant forall j :: 0 <= j < |offsets| ==> offsets[j] == Offset(sizes, j)
    {
      var j := |offsets|;
      offsets := offsets + [if preceding == [] then 0 else Sum(preceding)];
      preceding := preceding + [sizes[j]];
    }
    forall j | 0 < j < |sizes| ensures offsets[j] == offsets[j - 1] + sizes[j - 1] { OffsetNext(sizes, j - 1); }
  }

  /** A schema-driven reader sees the same fields as the generated one. */
  lemma {:induction false} SchemaSeesField(area: seq<Byte>, sizes: seq<nat>, j: nat)
    requires Sum(sizes) <= |area| && j < |sizes|
    ensures |Unpacked(area, sizes)| == |sizes| && Offset(sizes, j) + sizes[j] <= |area|
    ensures Unpacked(area, sizes)[j] == area[Offset(sizes, j)..Offset(sizes, j) + sizes[j]]
    decreases |sizes|
  {
    Windows(sizes, j, j + 1);
    UnpackedLength(area, sizes);
    if j > 0 {
      var rest := area[sizes[0]..];
      SchemaSeesField(rest, sizes[1..], j - 1);
      assert sizes[..j][1..] == sizes[1..][..j - 1];
      assert Offset(sizes, j) == sizes[0] + Offset(sizes[1..], j - 1);
      assert rest[Offset(sizes[1..], j - 1)..Offset(sizes[1..], j - 1) + sizes[j]] == area[Offset(sizes, j)..Offset(sizes, j) + sizes[j]];
    }
  }

  lemma {:induction false} UnpackedLength(area: seq<Byte>, sizes: seq<nat>)
    requires Sum(sizes) <= |area|
    ensures |Unpacked(area, sizes)| == |sizes|
    decreases |sizes|
  {
    if sizes != [] { UnpackedLength(area[sizes[0]..], sizes[1..]); }
  }
}
