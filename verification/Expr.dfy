/** A persistent expression tree: evaluation and printing by walking the store, what a deep
    clone and the teardown of either copy leave of them, and why the printed form is
    unambiguous. */
module Expr {
  import opened Heap
  import opened Cascade
  import opened Tree
  import opened Ownership
  import opened Sharing
  import Discriminants

  const I64_MIN: int := -0x8000_0000_0000_0000
  const I64_MAX: int := 0x7FFF_FFFF_FFFF_FFFF

  type I64 = v: int | I64_MIN <= v <= I64_MAX witness 0

  datatype Operator = Plus | Times

  datatype E = Lit(value: I64) | Op(op: Operator, lhs: E, rhs: E)

  // ---- Meaning and printing ----

  /** Checked 64-bit arithmetic; `None` where the original panics. */
  function Checked(v: int): Option<int> { if I64_MIN <= v <= I64_MAX then Some(v) else None }

  function Combine(op: Operator, a: Option<int>, b: Option<int>): Option<int> {
    if a.None? || b.None? then None
    else Checked(match op case Plus => a.value + b.value case Times => a.value * b.value)
  }

  function Eval(e: E): Option<int> {
    match e
    case Lit(v) => Some(v)
    case Op(op, l, r) => Combine(op, Eval(l), Eval(r))
  }

  function Digit(d: nat): char
    requires d < 10
  {
    "0123456789"[d]
  }

  function Digits(n: nat): string { if n < 10 then [Digit(n)] else Digits(n / 10) + [Digit(n % 10)] }

  function Decimal(v: int): string { if v < 0 then "-" + Digits(-v) else Digits(v) }

  function Symbol(op: Operator): char { match op case Plus => '+' case Times => '*' }

  function Render(e: E): string {
    match e
    case Lit(v) => Decimal(v)
    case Op(op, l, r) => "(" + Render(l) + " " + [Symbol(op)] + " " + Render(r) + ")"
  }

  /** The value over the integers, without bounds. */
  function Value(e: E): int {
    match e
    case Lit(v) => v
    case Op(Plus, l, r) => Value(l) + Value(r)
    case Op(Times, l, r) => Value(l) * Value(r)
  }

  predicate InRange(e: E) {
    -0x8000_0000_0000_0000 <= Value(e) <= 0x7FFF_FFFF_FFFF_FFFF
    && (e.Op? ==> InRange(e.lhs) && InRange(e.rhs))
  }

  /** Evaluation gives the integer value, or nothing exactly when some subexpression leaves
      the 64-bit range. */
  lemma {:induction false} EvalExact(e: E)
    ensures Eval(e) == if InRange(e) then Some(Value(e)) else None
  {
    if e.Op? {
      EvalExact(e.lhs);
      EvalExact(e.rhs);
    }
  }

  /** The number a string of decimal digits denotes. */
  function Number(s: string): int {
    if s == "" then 0 else 10 * Number(s[..|s| - 1]) + (s[|s| - 1] as int - '0' as int)
  }

  lemma {:induction false} DigitsDenote(n: nat)
    ensures Number(Digits(n)) == n
    ensures n > 0 ==> Digits(n) != "" && Digits(n)[0] != '0'
  {
    var s := Digits(n);
    if n >= 10 {
      DigitsDenote(n / 10);
      assert s[..|s| - 1] == Digits(n / 10) && s[|s| - 1] == Digit(n % 10);
    } else {
      assert s[..|s| - 1] == "";
    }
  }

  /** A literal is printed as a decimal number without leading zeros, after a minus sign if
      it is negative. */
  lemma LiteralReads(v: int)
    requires I64_MIN <= v <= I64_MAX
    ensures v >= 0 ==> Number(Render(Lit(v))) == v
    ensures v < 0 ==> exists s :: Render(Lit(v)) == "-" + s && Number(s) == -v && s[0] != '0'
    ensures v > 0 ==> Render(Lit(v))[0] != '0'
  {
    if v < 0 {
      DigitsDenote(-v);
      assert Render(Lit(v)) == "-" + Digits(-v);
    } else {
      DigitsDenote(v);
    }
  }

  /** An operation is printed in parentheses, with the operator between spaces. */
  lemma OperationReads(l: E, r: E)
    ensures Render(Op(Plus, l, r)) == "(" + Render(l) + " + " + Render(r) + ")"
    ensures Render(Op(Times, l, r)) == "(" + Render(l) + " * " + Render(r) + ")"
  {
    hide Decimal;
    Joined("(" + Render(l), ['+'], Render(r));
    Joined("(" + Render(l), ['*'], Render(r));
  }

  lemma Joined(a: string, c: string, b: string)
    ensures a + " " + c + " " + b + ")" == a + (" " + c + " ") + b + ")"
  {}

  // ---- The printed form is unambiguous ----

  predicate InNumber(c: char) { c == '-' || '0' <= c <= '9' }

  lemma {:induction false} DigitsAreDigits(n: nat)
    ensures Digits(n) != "" && forall c <- Digits(n) :: '0' <= c <= '9'
  {
    if n >= 10 { DigitsAreDigits(n / 10); }
  }

  lemma {:induction false} DigitsInjective(n: nat, m: nat)
    requires Digits(n) == Digits(m)
    ensures n == m
  {
    DigitsAreDigits(n / 10);
    DigitsAreDigits(m / 10);
    var s, t := Digits(n), Digits(m);
    if n >= 10 && m >= 10 {
      assert s[..|s| - 1] == Digits(n / 10) && t[..|t| - 1] == Digits(m / 10);
      DigitsInjective(n / 10, m / 10);
      assert s[|s| - 1] == Digit(n % 10) && t[|t| - 1] == Digit(m % 10);
    } else {
      assert |s| == 1 <==> n < 10;
      assert |t| == 1 <==> m < 10;
    }
  }

  lemma FirstDigit(n: nat)
    ensures Digits(n) != "" && Digits(n)[0] != '-'
  {
    DigitsAreDigits(n);
    assert Digits(n)[0] in Digits(n);
  }

  lemma DecimalInjective(v: int, w: int)
    ensures Decimal(v) != "" && forall c <- Decimal(v) :: InNumber(c)
    ensures Decimal(v) == Decimal(w) ==> v == w
  {
    DigitsAreDigits(if v < 0 then -v else v);
    DigitsAreDigits(if w < 0 then -w else w);
    if Decimal(v) == Decimal(w) {
      FirstDigit(if v < 0 then -v else v);
      FirstDigit(if w < 0 then -w else w);
      assert v < 0 <==> Decimal(v)[0] == '-';
      assert w < 0 <==> Decimal(w)[0] == '-';
      if v < 0 {
        assert Decimal(v)[1..] == Digits(-v) && Decimal(w)[1..] == Digits(-w);
        DigitsInjective(-v, -w);
      } else {
        DigitsInjective(v, w);
      }
    }
  }

  /** What may follow a complete expression: nothing, or a character of no number. */
  predicate Ends(s: string) { s == "" || !InNumber(s[0]) }

  /** A run of number characters is cut off at the first other character. */
  lemma {:induction false} NumberEnds(a: string, s: string, b: string, t: string)
    requires (forall c <- a :: InNumber(c)) && (forall c <- b :: InNumber(c)) && Ends(s) && Ends(t)
    requires a + s == b + t
    ensures a == b && s == t
    decreases |a|
  {
    var none: string := "";
    assert none + s == s && none + t == t;
    if a != none && b != none {
      assert (a + s)[1..] == a[1..] + s && (b + t)[1..] == b[1..] + t;
      NumberEnds(a[1..], s, b[1..], t);
      assert a == [(a + s)[0]] + a[1..] && b == [(b + t)[0]] + b[1..];
    } else if a != none {
      StartsWith(a, s);
    } else if b != none {
      StartsWith(b, t);
    }
  }

  lemma StartsWith(a: string, s: string)
    requires a != ""
    ensures a + s != "" && (a + s)[0] == a[0] && a[0] in a
  {}

  lemma RenderStarts(e: E)
    ensures Render(e) != "" && (Render(e)[0] == '(' <==> e.Op?)
  {
    if e.Lit? {
      DecimalInjective(e.value, e.value);
      assert Render(e)[0] in Render(e);
    }
  }

  /** What follows the left operand, and what follows the right one. */
  function AfterLeft(e: E, s: string): string
    requires e.Op?
  {
    " " + [Symbol(e.op)] + " " + Render(e.rhs) + AfterRight(s)
  }

  function AfterRight(s: string): string { ")" + s }

  lemma RenderOp(e: E, s: string)
    requires e.Op?
    ensures Render(e) + s == "(" + (Render(e.lhs) + AfterLeft(e, s))
    ensures Ends(AfterLeft(e, s)) && Ends(AfterRight(s))
    ensures AfterLeft(e, s)[1] == Symbol(e.op) && AfterLeft(e, s)[3..] == Render(e.rhs) + AfterRight(s)
  {
    var x := Render(e) + s;
    assert x == "(" + Render(e.lhs) + " " + [Symbol(e.op)] + " " + Render(e.rhs) + ")" + s;
  }

  /** The rendering of an expression says where it ends and what it is. */
  lemma {:induction false} RenderPrefix(a: E, s: string, b: E, t: string)
    requires Ends(s) && Ends(t) && Render(a) + s == Render(b) + t
    ensures a == b && s == t
  {
    RenderStarts(a);
    RenderStarts(b);
    assert (Render(a) + s)[0] == Render(a)[0] && (Render(b) + t)[0] == Render(b)[0];
    if a.Lit? {
      DecimalInjective(a.value, b.value);
      DecimalInjective(b.value, a.value);
      NumberEnds(Render(a), s, Render(b), t);
    } else {
      RenderOp(a, s);
      RenderOp(b, t);
      var x, y := Render(a.lhs) + AfterLeft(a, s), Render(b.lhs) + AfterLeft(b, t);
      assert x == ("(" + x)[1..] && y == ("(" + y)[1..];
      RenderPrefix(a.lhs, AfterLeft(a, s), b.lhs, AfterLeft(b, t));
      RenderPrefix(a.rhs, AfterRight(s), b.rhs, AfterRight(t));
      assert s == AfterRight(s)[1..] && t == AfterRight(t)[1..];
    }
  }

  /** Equal text means equal expressions, hence equal values. */
  lemma RenderInjective(a: E, b: E)
    requires Render(a) == Render(b)
    ensures a == b && Eval(a) == Eval(b)
  {
    var none: string := "";
    assert Render(a) + none == Render(a) && Render(b) + none == Render(b);
    RenderPrefix(a, none, b, none);
  }

  // ---- Expressions on disk ----

  function OpByte(op: Operator): int { match op case Plus => 43 case Times => 42 }

  /** The operator byte is the character. */
  lemma OpBytes()
    ensures OpByte(Plus) == '+' as int && OpByte(Times) == '*' as int
  {}

  /** The `k` low bytes of a number, lowest first. */
  function LowBytes(k: nat, u: nat): (bs: seq<int>)
    ensures |bs| == k && forall b <- bs :: 0 <= b < 0x100
  {
    if k == 0 then [] else [u % 0x100] + LowBytes(k - 1, u / 0x100)
  }

  function FromBytes(bs: seq<int>): int {
    if bs == [] then 0 else bs[0] + 0x100 * FromBytes(bs[1..])
  }

  function Power256(k: nat): (p: nat)
    ensures p > 0
  {
    if k == 0 then 1 else 0x100 * Power256(k - 1)
  }

  lemma {:induction false} BytesReadBack(k: nat, u: nat)
    requires u < Power256(k)
    ensures FromBytes(LowBytes(k, u)) == u
  {
    if k > 0 { BytesReadBack(k - 1, u / 0x100); }
  }

  /** A literal on disk: its eight bytes in two's complement, lowest first. */
  function Word(v: int): seq<int> {
    var k: nat := 8;
    LowBytes(k, v % Discriminants.TWO_64)
  }

  function ReadWord(bs: seq<int>): int { Discriminants.ToI64(FromBytes(bs)) }

  lemma WordReadBack(v: I64)
    ensures |Word(v)| == 8 && ReadWord(Word(v)) == v
  {
    hide Power256, LowBytes, FromBytes, Discriminants.ToI64;
    var k: nat := 8;
    EightBytes(k);
    BytesReadBack(k, v % Discriminants.TWO_64);
    SignRestored(v);
  }

  lemma SignRestored(v: I64)
    ensures Discriminants.ToI64(v % Discriminants.TWO_64) == v
  {
    if v < 0 { assert v % Discriminants.TWO_64 == v + Discriminants.TWO_64; }
  }

  lemma EightBytes(k: nat)
    requires k == 8
    ensures Power256(k) == 0x1_0000_0000_0000_0000
  {
    var none: nat := k - 8;
    FourBytes(none + 4);
    FourBytes(none);
    assert Power256(none) == 1;
  }

  lemma FourBytes(k: nat)
    ensures Power256(k + 4) == 0x1_0000_0000 * Power256(k)
  {
    assert Power256(k + 4) == 0x100 * Power256(k + 3) && Power256(k + 3) == 0x100 * Power256(k + 2);
    assert Power256(k + 2) == 0x100 * Power256(k + 1) && Power256(k + 1) == 0x100 * Power256(k);
  }

  /** The blocks of an expression, without their offsets: a discriminant and a payload, and
      for an operation the node with its two operands. */
  function ShapeOf(e: E): Slot {
    match e
    case Lit(v) => Child(Node(0, Record, [Leaf(Pod([0])), Leaf(Pod(Word(v)))]))
    case Op(op, l, r) =>
      Child(Node(0, Record, [Leaf(Pod([1])),
                               Child(Node(0, Record, [Leaf(Pod([OpByte(op)])), ShapeOf(l), ShapeOf(r)]))]))
  }

  predicate Represents(n: Node, e: E) { EraseSlot(Child(n)) == ShapeOf(e) }

  lemma OneShape(s: Slot)
    ensures Erase([s]) == [EraseSlot(s)] && Shared([s]) == SlotShared(s) && AllPlaceable([s]) == Placeable(s)
  {
    assert [s][1..] == [];
  }

  lemma FirstShape(s: Slot, rest: seq<Slot>)
    ensures Erase([s] + rest) == [EraseSlot(s)] + Erase(rest) && Shared([s] + rest) == SlotShared(s) + Shared(rest)
    ensures AllPlaceable([s] + rest) == (Placeable(s) && AllPlaceable(rest))
  {
    assert ([s] + rest)[1..] == rest;
  }

  /** The shape of an expression has nothing left to forget, shares nothing, and can be put
      at any offsets. */
  lemma {:induction false} ShapeIsPlain(e: E)
    ensures EraseSlot(ShapeOf(e)) == ShapeOf(e) && SlotShared(ShapeOf(e)) == [] && Placeable(ShapeOf(e))
  {
    hide Erase, Shared, AllPlaceable, Word;
    match e
    case Lit(v) =>
      var tag, word := Leaf(Pod([0])), Leaf(Pod(Word(v)));
      OneShape(word);
      FirstShape(tag, [word]);
      assert [tag] + [word] == [tag, word];
    case Op(op, l, r) =>
      var tag, byte, left, right := Leaf(Pod([1])), Leaf(Pod([OpByte(op)])), ShapeOf(l), ShapeOf(r);
      ShapeIsPlain(l);
      ShapeIsPlain(r);
      OneShape(right);
      FirstShape(left, [right]);
      FirstShape(byte, [left] + [right]);
      assert [byte] + ([left] + [right]) == [byte, left, right];
      var node := Child(Node(0, Record, [byte, left, right]));
      assert EraseSlot(node) == node && SlotShared(node) == [] && Placeable(node);
      OneShape(node);
      FirstShape(tag, [node]);
      assert [tag] + [node] == [tag, node];
  }

  /** Every expression can be stored: written at fresh offsets it is represented by its root,
      and the law holds with the one handle on it. */
  lemma EveryExpressionStored(h: Store, held: multiset<Edge>, e: E, at: seq<Off>) returns (g: Store, n: Node)
    requires Accounted(h, held) && |at| == SlotCount(ShapeOf(e)) && Fresh(h, at)
    ensures Represents(n, e) && SlotIn(g, Child(n)) && Handle(n) == OwnTo(at[|at| - 1])
    ensures g.Keys == h.Keys + Range(at) && Accounted(g, held + multiset{Handle(n)})
  {
    hide Accounted, Erase, Move, Fields;
    ShapeIsPlain(e);
    ShapeIsBlock(e);
    n := MoveNode(ShapeOf(e).node, at);
    assert Child(n) == MoveSlot(ShapeOf(e), at);
    FreshNonZero(h, at);
    MoveSlotSame(ShapeOf(e), at);
    PlacedWellFormed(ShapeOf(e), at);
    g := GraftSlot(h, Child(n));
    assert held + multiset(SlotShared(Child(n))) == held;
    GraftSlotAccounted(h, held, Child(n));
    GraftSlotIn(h, Child(n));
    SlotEdges(Child(n));
  }

  lemma FieldsAt(ss: seq<Slot>)
    ensures forall i :: 0 <= i < |ss| ==> Fields(ss)[i] == SlotField(ss[i])
  {
    if ss != [] { FieldsAt(ss[1..]); }
  }

  lemma LitNode(n: Node, e: E)
    requires Represents(n, e) && e.Lit?
    ensures n.form.Record? && n.slots == [Leaf(Pod([0])), Leaf(Pod(Word(e.value)))]
  {
    EraseAt(n.slots);
  }

  lemma ShapeIsBlock(e: E)
    ensures ShapeOf(e).Child? && ShapeOf(e).node.form.Record?
  {}

  lemma OpNode(n: Node, e: E) returns (b: Node, l: Node, r: Node)
    requires Represents(n, e) && e.Op?
    ensures n.form.Record? && n.slots == [Leaf(Pod([1])), Child(b)]
    ensures b.form.Record? && b.slots == [Leaf(Pod([OpByte(e.op)])), Child(l), Child(r)]
    ensures Represents(l, e.lhs) && Represents(r, e.rhs)
  {
    EraseAt(n.slots);
    b := n.slots[1].node;
    EraseAt(b.slots);
    ShapeIsBlock(e.lhs);
    ShapeIsBlock(e.rhs);
    assert EraseSlot(b.slots[1]) == ShapeOf(e.lhs) && EraseSlot(b.slots[2]) == ShapeOf(e.rhs);
    l, r := b.slots[1].node, b.slots[2].node;
  }

  /** A block of the tree with a leading plain field, and its children. */
  lemma BlockInStore(h: Store, n: Node, tag: Field, kids: seq<Slot>)
    requires SlotIn(h, Child(n)) && n.form.Record? && n.slots == [Leaf(tag)] + kids
    ensures n.off in h && h[n.off] == Plain([tag] + Fields(kids)) && In(h, kids)
  {
    assert n.slots[1..] == kids;
    assert Fields(n.slots) == [SlotField(n.slots[0])] + Fields(kids);
  }

  lemma KidsInStore(h: Store, kids: seq<Slot>)
    requires In(h, kids)
    ensures forall i :: 0 <= i < |kids| ==> SlotIn(h, kids[i]) && Fields(kids)[i] == SlotField(kids[i])
  {
    if kids != [] { KidsInStore(h, kids[1..]); }
  }

  lemma OpInStore(h: Store, n: Node, b: Node, l: Node, r: Node, op: Operator)
    requires SlotIn(h, Child(n)) && n.form.Record? && b.form.Record? && l.form.Record? && r.form.Record?
    requires n.slots == [Leaf(Pod([1])), Child(b)] && b.slots == [Leaf(Pod([OpByte(op)])), Child(l), Child(r)]
    ensures n.off in h && h[n.off] == Plain([Pod([1]), Own(b.off)])
    ensures b.off in h && h[b.off] == Plain([Pod([OpByte(op)]), Own(l.off), Own(r.off)])
    ensures SlotIn(h, Child(l)) && SlotIn(h, Child(r))
  {
    hide In, SlotIn, Fields;
    BlockInStore(h, n, Pod([1]), [Child(b)]);
    KidsInStore(h, [Child(b)]);
    assert Fields([Child(b)]) == [Own(b.off)];
    assert SlotIn(h, [Child(b)][0]);
    var kids := [Child(l), Child(r)];
    BlockInStore(h, b, Pod([OpByte(op)]), kids);
    KidsInStore(h, kids);
    assert Fields(kids) == [Own(l.off), Own(r.off)];
    assert SlotIn(h, kids[0]) && SlotIn(h, kids[1]);
  }

  lemma NotAVector(n: Node, e: E)
    requires Represents(n, e)
    ensures n.form.Record?
  {}

  /** Evaluation by walking the store. */
  method EvalAt(h: Store, x: Off, ghost n: Node, ghost e: E) returns (r: Option<int>)
    requires n.off == x && SlotIn(h, Child(n)) && Represents(n, e)
    ensures r == Eval(e)
    decreases e
  {
    NotAVector(n, e);
    FieldsAt(n.slots);
    var fs := h[x].fields;
    if e.Lit? { LitNode(n, e); }
    ghost var b, left, right := n, n, n;
    if e.Op? {
      b, left, right := OpNode(n, e);
      NotAVector(left, e.lhs);
      NotAVector(right, e.rhs);
      OpInStore(h, n, b, left, right, e.op);
    }
    if fs[0] == Pod([0]) {
      WordReadBack(e.value);
      return Some(ReadWord(fs[1].bytes));
    }
    var node := h[fs[1].off].fields;
    var lhs := EvalAt(h, node[1].off, left, e.lhs);
    var rhs := EvalAt(h, node[2].off, right, e.rhs);
    r := Combine(if node[0].bytes[0] == 43 then Plus else Times, lhs, rhs);
  }

  /** Printing by walking the store. */
  method RenderAt(h: Store, x: Off, ghost n: Node, ghost e: E) returns (r: string)
    requires n.off == x && SlotIn(h, Child(n)) && Represents(n, e)
    ensures r == Render(e)
    decreases e
  {
    NotAVector(n, e);
    FieldsAt(n.slots);
    var fs := h[x].fields;
    if e.Lit? { LitNode(n, e); }
    ghost var b, left, right := n, n, n;
    if e.Op? {
      b, left, right := OpNode(n, e);
      NotAVector(left, e.lhs);
      NotAVector(right, e.rhs);
      OpInStore(h, n, b, left, right, e.op);
    }
    if fs[0] == Pod([0]) {
      WordReadBack(e.value);
      return Decimal(ReadWord(fs[1].bytes));
    }
    var node := h[fs[1].off].fields;
    var lhs := RenderAt(h, node[1].off, left, e.lhs);
    var rhs := RenderAt(h, node[2].off, right, e.rhs);
    r := "(" + lhs + " " + [if node[0].bytes[0] == 43 then '+' else '*'] + " " + rhs + ")";
  }

  // ---- Clones and teardown ----

  /** Raising counters and adding blocks leaves an owned tree where it is. */
  lemma {:induction false} StaysInGrown(h: Store, g: Store, ss: seq<Slot>)
    requires In(h, ss) && SubStore(h, g)
    ensures In(g, ss)
    decreases ss, 0
  {
    if ss != [] {
      SlotStaysInGrown(h, g, ss[0]);
      StaysInGrown(h, g, ss[1..]);
    }
  }

  lemma {:induction false} SlotStaysInGrown(h: Store, g: Store, s: Slot)
    requires SlotIn(h, s) && SubStore(h, g)
    ensures SlotIn(g, s)
    decreases s, 1
  {
    match s
    case Leaf(_) =>
    case Inline(ss) => StaysInGrown(h, g, ss);
    case Child(n) =>
      assert SameButCounts(h[n.off], g[n.off]);
      StaysInGrown(h, g, n.slots);
  }

  /** A deep clone means and prints the same, and so does the original afterwards. */
  lemma CloneMeansTheSame(h: Store, held: multiset<Edge>, n: Node, at: seq<Off>, e: E)
    requires Accounted(h, held) && WellFormedSlot(Child(n)) && SlotIn(h, Child(n)) && Represents(n, e)
    requires |at| == Count(n.slots) + 1 && Fresh(h, at)
    ensures forall f <- Shared(n.slots) :: Countable(h, f)
    ensures var g, m := Cloned(h, n, at), MoveNode(n, at);
      && SlotIn(g, Child(m)) && Represents(m, e) && SlotIn(g, Child(n))
      && Accounted(g, held + multiset{Handle(m)})
  {
    hide Accounted, Cloned;
    CloneCorrect(h, held, n, at);
    SlotStaysInGrown(h, Cloned(h, n, at), Child(n));
  }

  /** Whichever of several held trees is torn down, and in whatever order, the expression of
      another one is untouched. */
  lemma SurvivesTeardown(g: Store, held: multiset<Edge>, gone: Edge, kept: Node, e: E, sched: seq<Edge>, g': Store)
    requires Accounted(g, held + multiset{gone}) && Handle(kept) in held
    requires SlotIn(g, Child(kept)) && Represents(kept, e)
    requires Runs(g, multiset{gone}, sched, g', multiset{})
    ensures SlotIn(g', Child(kept)) && Accounted(g', held)
  {
    RunsAccounted(g, held, multiset{gone}, sched, g', multiset{});
    assert held + multiset{} == held;
    NullNotLive(g, held + multiset{gone});
    NodeStays(g', g, held, kept);
  }
}
