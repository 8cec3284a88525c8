/** The test "some leaf is NULL". */
module Tier1Nulls {
  import opened Cfg
  import opened Tier1Expr
  import opened Tier1Machine
  import opened Tier1Emit
  import opened Tier1Value

  /** Is element i0 NULL: guarded load of its flag, then a phi. */
  function EmitElemNull(b: Code, a: nat, i0: Opnd): (r: (Code, Opnd))
    requires Open(b)
    ensures Frame(b, r.0)
  {
    var b1 := Put(b, HasNulls(a));
    var fork := Fork(b1, R(b.next), true);
    var r := Meet(b1, R(b.next), true, Put(fork, NullFlag(a, i0)), R(fork.next));
    FrameTrans(b, b1, r.0);
    r
  }

  /** Subscript x lies below the lower bound lb, or the value is not one-dimensional. */
  function EmitBelow(b: Code, x: Opnd, len: Opnd, lb: Opnd): (r: (Code, Opnd))
    requires Open(b)
    ensures Frame(b, r.0)
  {
    var b1 := Put(b, Compare(Lt, len, K(0)));
    var b2 := Put(b1, Compare(Lt, x, lb));
    FrameTrans(b, b1, b2);
    var b3 := Put(b2, OrI(R(b.next), R(b1.next)));
    FrameTrans(b, b2, b3);
    (b3, R(b2.next))
  }

  /** Subscript x lies past lb + len - 1. */
  function EmitAbove(b: Code, x: Opnd, len: Opnd, lb: Opnd): (r: (Code, Opnd))
    requires Open(b)
    ensures Frame(b, r.0)
  {
    var b1 := Put(b, AddI32(lb, len));
    var b2 := Put(b1, SubI32(R(b.next), K(1)));
    FrameTrans(b, b1, b2);
    var b3 := Put(b2, Compare(Gt, x, R(b1.next)));
    FrameTrans(b, b2, b3);
    (b3, R(b2.next))
  }

  /** Subscript x lies outside array a, or the array is not one-dimensional. */
  function EmitOutside(b: Code, a: nat, x: Opnd): (r: (Code, Opnd))
    requires Open(b)
    ensures Frame(b, r.0)
  {
    var b1 := Put(b, LenOf(a));
    var b2 := Put(b1, LbOf(a));
    FrameTrans(b, b1, b2);
    var r := EmitBounds(b2, x, R(b.next), R(b1.next));
    FrameTrans(b, b2, r.0);
    r
  }

  /** The same with the array's length and lower bound already loaded. */
  function EmitBounds(b: Code, x: Opnd, len: Opnd, lb: Opnd): (r: (Code, Opnd))
    requires Open(b)
    ensures Frame(b, r.0)
  {
    var (b1, below) := EmitBelow(b, x, len, lb);
    var (b2, above) := EmitAbove(b1, x, len, lb);
    FrameTrans(b, b1, b2);
    var b3 := Put(b2, OrI(below, above));
    FrameTrans(b, b2, b3);
    (b3, R(b2.next))
  }

  /** The flag test for the slot of subscript x. */
  function EmitSlotNull(b: Code, a: nat, x: Opnd): (r: (Code, Opnd))
    requires Open(b)
    ensures Frame(b, r.0)
  {
    var b1 := Put(b, LbOf(a));
    var b2 := Put(b1, SubI32(x, R(b.next)));
    FrameTrans(b, b1, b2);
    var r := EmitElemNull(b2, a, R(b1.next));
    FrameTrans(b, b2, r.0);
    r
  }

  /** Subscript x of array a reads as NULL: not one-dimensional, out of bounds, or a NULL element. */
  function EmitReadNull(b: Code, a: nat, x: Opnd): (r: (Code, Opnd))
    requires Open(b)
    ensures Frame(b, r.0)
  {
    var (b1, oob) := EmitOutside(b, a, x);
    var (b2, flag) := EmitSlotNull(b1, a, x);
    FrameTrans(b, b1, b2);
    var b3 := Put(b2, OrI(oob, flag));
    FrameTrans(b, b2, b3);
    (b3, R(b2.next))
  }

  /** OR of two optional flags; None means "never NULL". */
  function EmitOr(b: Code, x: Option<Opnd>, y: Option<Opnd>): (r: (Code, Option<Opnd>))
    requires Open(b)
    ensures Frame(b, r.0)
  {
    if x.None? then (b, y) else if y.None? then (b, x)
    else (Put(b, OrI(x.value, y.value)), Some(R(b.next)))
  }

  /** The test "some leaf of e is NULL", or None when no leaf can be. */
  function EmitAnyNull(b: Code, e: Expr): (r: (Code, Option<Opnd>))
    requires Open(b) && Classify(e) != Unknown
    ensures Frame(b, r.0)
    decreases e
  {
    match e
    case Const(_, _, _) => (b, None)
    case Param(d, _, _) => (Put(b, NullOf(d)), Some(R(b.next)))
    case Unary(_, a) => EmitAnyNull(b, a)
    case Relabel(a) => EmitAnyNull(b, a)
    case Binary(_, l, r) =>
      var (b1, x) := EmitAnyNull(b, l);
      var (b2, y) := EmitAnyNull(b1, r);
      FrameTrans(b, b1, b2);
      var r := EmitOr(b2, x, y);
      FrameTrans(b, b2, r.0);
      r
    case Elem(a, i, _) =>
      var (b1, acc) := EmitAnyNull(b, i);
      var (b2, x) := EmitInt(b1, i);
      FrameTrans(b, b1, b2);
      var (b3, oob) := EmitReadNull(b2, a, x);
      FrameTrans(b, b2, b3);
      var r := EmitOr(b3, acc, Some(oob));
      FrameTrans(b, b3, r.0);
      r
  }

  /** Straight code that leaves the bit `val` in o and performs no range-checked arithmetic. */
  ghost predicate Flags(p: Prog, b: Code, c: Code, o: Opnd, s: State, t: State, val: bool) {
    Sofar(p, b, c, s, t) && Live(o, c.next, t) && Get(o, t) == Bit(val) && t.ops == s.ops
  }

  lemma BelowRuns(p: Prog, b0: Code, b: Code, x: Opnd, len: Opnd, lb: Opnd, s0: State, s: State) returns (t: State)
    requires Sofar(p, b0, b, s0, s) && s.ops == s0.ops && Grows(EmitBelow(b, x, len, lb).0.blocks, p)
    requires Live(x, b.next, s) && Live(len, b.next, s) && Live(lb, b.next, s)
    ensures var (c, o) := EmitBelow(b, x, len, lb);
      Flags(p, b0, c, o, s0, t, Get(len, s) < 0 || Get(x, s) < Get(lb, s)) && Keeps(b.next, s, t)
  {
    hide Grows, Frame, Reaches;
    var b1 := Put(b, Compare(Lt, len, K(0)));
    var b2 := Put(b1, Compare(Lt, x, lb));
    Back(b2, Put(b2, OrI(R(b.next), R(b1.next))), p); Back(b1, b2, p);
    t := PutNext(p, b0, b, Compare(Lt, len, K(0)), s0, s);
    t := PutNext(p, b0, b1, Compare(Lt, x, lb), s0, t);
    t := PutNext(p, b0, b2, OrI(R(b.next), R(b1.next)), s0, t);
  }

  lemma AboveRuns(p: Prog, b0: Code, b: Code, x: Opnd, len: Opnd, lb: Opnd, s0: State, s: State) returns (t: State)
    requires Sofar(p, b0, b, s0, s) && s.ops == s0.ops && Grows(EmitAbove(b, x, len, lb).0.blocks, p)
    requires Live(x, b.next, s) && Live(len, b.next, s) && Live(lb, b.next, s)
    ensures var (c, o) := EmitAbove(b, x, len, lb);
      Flags(p, b0, c, o, s0, t, Get(x, s) > Wrap(W4, Wrap(W4, Get(lb, s) + Get(len, s)) - 1)) && Keeps(b.next, s, t)
  {
    hide Grows, Frame, Reaches;
    var b1 := Put(b, AddI32(lb, len));
    var b2 := Put(b1, SubI32(R(b.next), K(1)));
    Back(b2, Put(b2, Compare(Gt, x, R(b1.next))), p); Back(b1, b2, p);
    t := PutNext(p, b0, b, AddI32(lb, len), s0, s);
    t := PutNext(p, b0, b1, SubI32(R(b.next), K(1)), s0, t);
    t := PutNext(p, b0, b2, Compare(Gt, x, R(b1.next)), s0, t);
  }

  /** The byte the flag test sees: a flag inside the buffer, a stray byte outside it. */
  function SeenFlag(env: Env, a: nat, i: int): bool {
    var f := env.arrays(a);
    f.hasNulls && if 0 <= i < |f.nulls| then f.nulls[i] else env.stray(a, i)
  }

  lemma ElemNullRuns(p: Prog, b0: Code, b: Code, a: nat, i0: Opnd, s0: State, s: State) returns (t: State)
    requires Sofar(p, b0, b, s0, s) && s.ops == s0.ops && Grows(EmitElemNull(b, a, i0).0.blocks, p)
    requires Live(i0, b.next, s)
    ensures var (c, o) := EmitElemNull(b, a, i0);
      Flags(p, b0, c, o, s0, t, SeenFlag(s.env, a, Get(i0, s))) && Keeps(b.next, s, t)
  {
    hide Grows, Reaches, Meet;
    var b1 := Put(b, HasNulls(a));
    var fork := Fork(b1, R(b.next), true);
    var mid := Put(fork, NullFlag(a, i0));
    var (c, o) := Meet(b1, R(b.next), true, mid, R(fork.next));
    Back(b1, c, p);
    var s1 := PutNext(p, b0, b, HasNulls(a), s0, s);
    t := ForkRuns(p, b1, R(b.next), true, mid, R(fork.next), s1);
    if s.env.arrays(a).hasNulls {
      var s2 := t;
      var s3 := PutRuns(p, fork, NullFlag(a, i0), s2);
      t := MeetRuns(p, b1, R(b.next), true, mid, R(fork.next), s3);
      ReachesTrans(p, s1, s2, s3);
      ReachesTrans(p, s1, s3, t);
    }
    ReachesTrans(p, s0, s1, t);
    FrameTrans(b0, b, b1);
    FrameTrans(b0, b1, c);
  }

  predicate Outside(f: Flat, i: int) { f.len < 0 || i < f.lb || i > f.lb + f.len - 1 }

  lemma OutsideRuns(p: Prog, b: Code, a: nat, x: Opnd, s: State) returns (t: State)
    requires Here(b, s) && Grows(EmitOutside(b, a, x).0.blocks, p) && Live(x, b.next, s)
    requires FlatOk(s.env.arrays(a))
    ensures var (c, o) := EmitOutside(b, a, x); Flags(p, b, c, o, s, t, Outside(s.env.arrays(a), Get(x, s)))
  {
    hide Grows, Frame, Reaches, EmitBounds, Wrap;
    var b1 := Put(b, LenOf(a));
    var b2 := Put(b1, LbOf(a));
    Back(b2, EmitBounds(b2, x, R(b.next), R(b1.next)).0, p); Back(b1, b2, p);
    Start(p, b, s);
    t := PutNext(p, b, b, LenOf(a), s, s);
    t := PutNext(p, b, b1, LbOf(a), s, t);
    OutsideIs(s.env.arrays(a), Get(x, s));
    t := BoundsRun(p, b, b2, x, R(b.next), R(b1.next), s, t);
  }

  /** The wrapping bound test is the plain one. */
  lemma OutsideIs(f: Flat, i: int)
    requires FlatOk(f)
    ensures Outside(f, i) <==> f.len < 0 || i < f.lb || i > Wrap(W4, Wrap(W4, f.lb + f.len) - 1)
  {
  }

  lemma BoundsRun(p: Prog, b0: Code, b: Code, x: Opnd, len: Opnd, lb: Opnd, s0: State, s: State) returns (t: State)
    requires Sofar(p, b0, b, s0, s) && s.ops == s0.ops && Grows(EmitBounds(b, x, len, lb).0.blocks, p)
    requires Live(x, b.next, s) && Live(len, b.next, s) && Live(lb, b.next, s)
    ensures var (c, o) := EmitBounds(b, x, len, lb);
      Flags(p, b0, c, o, s0, t, Get(len, s) < 0 || Get(x, s) < Get(lb, s) ||
        Get(x, s) > Wrap(W4, Wrap(W4, Get(lb, s) + Get(len, s)) - 1))
  {
    hide Grows, Frame, Reaches, EmitBelow, EmitAbove, Wrap;
    var (b1, below) := EmitBelow(b, x, len, lb);
    Opens(b, b1);
    var (b2, above) := EmitAbove(b1, x, len, lb);
    Opens(b1, b2);
    Back(b2, Put(b2, OrI(below, above)), p); Back(b1, b2, p);
    t := BelowRuns(p, b0, b, x, len, lb, s0, s);
    t := AboveRuns(p, b0, b1, x, len, lb, s0, t);
    t := PutNext(p, b0, b2, OrI(below, above), s0, t);
  }

  lemma ReadNullIs(env: Env, a: nat, i: int)
    requires FlatOk(env.arrays(a)) && InRange(W4, i)
    ensures ReadElem(env.arrays(a), i).Null? <==>
      Outside(env.arrays(a), i) || SeenFlag(env, a, Wrap(W4, i - env.arrays(a).lb))
  {
  }

  lemma SlotNullRuns(p: Prog, b: Code, a: nat, x: Opnd, s: State) returns (t: State)
    requires Here(b, s) && Grows(EmitSlotNull(b, a, x).0.blocks, p) && Live(x, b.next, s)
    ensures var (c, o) := EmitSlotNull(b, a, x);
      Flags(p, b, c, o, s, t, SeenFlag(s.env, a, Wrap(W4, Get(x, s) - s.env.arrays(a).lb)))
  {
    hide Grows, Frame, Reaches, EmitElemNull, Wrap, SeenFlag;
    var b1 := Put(b, LbOf(a));
    var b2 := Put(b1, SubI32(x, R(b.next)));
    Back(b2, EmitElemNull(b2, a, R(b1.next)).0, p); Back(b1, b2, p);
    Start(p, b, s);
    t := PutNext(p, b, b, LbOf(a), s, s);
    t := PutNext(p, b, b1, SubI32(x, R(b.next)), s, t);
    t := ElemNullRuns(p, b, b2, a, R(b1.next), s, t);
  }

  lemma ReadNullRuns(p: Prog, b: Code, a: nat, x: Opnd, s: State) returns (t: State)
    requires Here(b, s) && Grows(EmitReadNull(b, a, x).0.blocks, p) && Live(x, b.next, s)
    requires FlatOk(s.env.arrays(a))
    ensures var (c, o) := EmitReadNull(b, a, x);
      Flags(p, b, c, o, s, t,
        Outside(s.env.arrays(a), Get(x, s)) || SeenFlag(s.env, a, Wrap(W4, Get(x, s) - s.env.arrays(a).lb)))
  {
    hide Grows, Frame, Reaches, EmitSlotNull, EmitOutside, Wrap, Outside, SeenFlag, FlatOk;
    var (b1, oob) := EmitOutside(b, a, x);
    Opens(b, b1);
    var (b2, flag) := EmitSlotNull(b1, a, x);
    Opens(b1, b2);
    Back(b2, Put(b2, OrI(oob, flag)), p); Back(b1, b2, p);
    var s1 := OutsideRuns(p, b, a, x, s);
    var s2 := SlotNullRuns(p, b1, a, x, s1);
    SofarTrans(p, b, b1, b2, s, s1, s2);
    t := PutNext(p, b, b2, OrI(oob, flag), s, s2);
  }

  /** A variable or constant subscript is loaded whether or not the variable is NULL. */
  lemma PlainRuns(p: Prog, b: Code, e: Expr, s: State) returns (t: State)
    requires (e.Const? || e.Param?) && Classify(e) == C4 && Here(b, s) && Grows(EmitInt(b, e).0.blocks, p)
    requires Fits(e, s.env)
    ensures var (c, o) := EmitInt(b, e);
      && Sofar(p, b, c, s, t) && Live(o, c.next, t) && t.ops == s.ops && InRange(W4, Get(o, t))
      && (!NullLeaf(e, s.env) ==> Eval(e, s.env) == Ok(V(Get(o, t))))
  {
    hide Grows, Frame, Reaches;
    Start(p, b, s);
    t := s;
    if e.Param? {
      var b1 := Put(b, Bits(e.dno));
      Back(b1, Put(b1, Low32(R(b.next))), p);
      t := PutNext(p, b, b, Bits(e.dno), s, s);
      t := PutNext(p, b, b1, Low32(R(b.next)), s, t);
    }
  }

  /** The NULL test computes "some leaf is NULL"; where it is omitted no leaf is. */
  ghost predicate Tests(p: Prog, b: Code, c: Code, o: Option<Opnd>, s: State, t: State, val: bool) {
    match o
    case Some(x) => Flags(p, b, c, x, s, t, val)
    case None => !val && Sofar(p, b, c, s, t) && t.ops == s.ops
  }

  lemma OrRuns(p: Prog, b0: Code, b: Code, x: Option<Opnd>, y: Option<Opnd>, s0: State, s: State, u: bool,
               v: bool) returns (t: State)
    requires Sofar(p, b0, b, s0, s) && s.ops == s0.ops && Grows(EmitOr(b, x, y).0.blocks, p)
    requires if x.Some? then Live(x.value, b.next, s) && Get(x.value, s) == Bit(u) else !u
    requires if y.Some? then Live(y.value, b.next, s) && Get(y.value, s) == Bit(v) else !v
    ensures var (c, o) := EmitOr(b, x, y); Tests(p, b0, c, o, s0, t, u || v)
  {
    hide Grows, Frame, Reaches;
    t := s;
    if x.Some? && y.Some? { t := PutNext(p, b0, b, OrI(x.value, y.value), s0, s); }
  }

  lemma {:induction false} AnyNullRuns(p: Prog, b: Code, e: Expr, s: State) returns (t: State)
    requires Here(b, s) && Classify(e) != Unknown && PlainSubscripts(e) && Fits(e, s.env)
    requires Grows(EmitAnyNull(b, e).0.blocks, p)
    ensures var (c, o) := EmitAnyNull(b, e); Tests(p, b, c, o, s, t, NullLeaf(e, s.env))
    decreases e
  {
    hide Grows, Frame, Reaches, EmitReadNull;
    match e
    case Const(_, _, _) => Start(p, b, s); t := s;
    case Param(d, _, _) => Start(p, b, s); t := PutNext(p, b, b, NullOf(d), s, s);
    case Unary(_, a) => t := AnyNullRuns(p, b, a, s);
    case Relabel(a) => t := AnyNullRuns(p, b, a, s);
    case Binary(_, l, r) => t := AnyNullBinaryRuns(p, b, e, s);
    case Elem(_, _, _) => t := AnyNullElemRuns(p, b, e, s);
  }

  lemma {:induction false} AnyNullBinaryRuns(p: Prog, b: Code, e: Expr, s: State) returns (t: State)
    requires e.Binary? && Here(b, s) && Classify(e) != Unknown && PlainSubscripts(e) && Fits(e, s.env)
    requires Grows(EmitAnyNull(b, e).0.blocks, p)
    ensures var (c, o) := EmitAnyNull(b, e); Tests(p, b, c, o, s, t, NullLeaf(e, s.env))
    decreases e, 0
  {
    hide Grows, Frame, Reaches, EmitOr;
    var (b1, x) := EmitAnyNull(b, e.left);
    Opens(b, b1);
    var (b2, y) := EmitAnyNull(b1, e.right);
    Opens(b1, b2);
    var (c, o) := EmitOr(b2, x, y);
    Back(b2, c, p); Back(b1, b2, p);
    var s1 := AnyNullRuns(p, b, e.left, s);
    var s2 := AnyNullRuns(p, b1, e.right, s1);
    SofarTrans(p, b, b1, b2, s, s1, s2);
    t := OrRuns(p, b, b2, x, y, s, s2, NullLeaf(e.left, s.env), NullLeaf(e.right, s.env));
  }

  lemma {:induction false} AnyNullElemRuns(p: Prog, b: Code, e: Expr, s: State) returns (t: State)
    requires e.Elem? && Here(b, s) && Classify(e) != Unknown && PlainSubscripts(e) && Fits(e, s.env)
    requires Grows(EmitAnyNull(b, e).0.blocks, p)
    ensures var (c, o) := EmitAnyNull(b, e); Tests(p, b, c, o, s, t, NullLeaf(e, s.env))
    decreases e, 0
  {
    hide Grows, Frame, Reaches, EmitOr, EmitReadNull, EmitInt;
    var (b1, acc) := EmitAnyNull(b, e.index);
    Opens(b, b1);
    var (b2, x) := EmitInt(b1, e.index);
    Opens(b1, b2);
    var (b3, oob) := EmitReadNull(b2, e.arr, x);
    Opens(b2, b3);
    var (c, o) := EmitOr(b3, acc, Some(oob));
    Back(b3, c, p); Back(b2, b3, p); Back(b1, b2, p);
    var s1 := AnyNullRuns(p, b, e.index, s);
    var s2 := PlainRuns(p, b1, e.index, s1);
    ReadNullIs(s.env, e.arr, Get(x, s2));
    var s3 := ReadNullRuns(p, b2, e.arr, x, s2);
    SofarTrans(p, b, b1, b2, s, s1, s2); SofarTrans(p, b, b2, b3, s, s2, s3);
    t := OrRuns(p, b, b3, acc, Some(oob), s, s3, NullLeaf(e.index, s.env),
        ReadElem(s.env.arrays(e.arr), Get(x, s2)).Null?);
  }
}
