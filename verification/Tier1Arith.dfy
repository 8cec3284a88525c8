/** Range-checked integer arithmetic. */
module Tier1Arith {
  import opened Cfg
  import opened Tier1Expr
  import opened Tier1Machine
  import opened Tier1Emit

  function EmitChecked(b: Code, w: Width, op: ArithOp, x: Opnd, y: Opnd): (r: (Code, Opnd))
    requires Open(b)
    ensures Frame(b, r.0)
  {
    var b1 := Put(b, Wrapped(w, op, x, y));
    var b2 := Put(b1, Overflows(w, op, x, y));
    FrameTrans(b, b1, b2);
    var b3 := FailIf(b2, R(b1.next), OutOfRange);
    FrameTrans(b, b2, b3);
    (b3, R(b.next))
  }

  /** Raise e when x equals k. */
  function FailWhen(b: Code, x: Opnd, k: int, e: Error): (c: Code)
    requires Open(b)
    ensures Frame(b, c)
  {
    var b1 := Put(b, Compare(Eq, x, K(k)));
    var b2 := FailIf(b1, R(b.next), e);
    FrameTrans(b, b1, b2);
    b2
  }

  /** Raise when x is the minimum and y is -1. */
  function MinGuard(b: Code, w: Width, x: Opnd, y: Opnd): (c: Code)
    requires Open(b)
    ensures Frame(b, c)
  {
    var b1 := Put(b, Compare(Eq, x, K(MinOf(w))));
    var b2 := Put(b1, Compare(Eq, y, K(-1)));
    FrameTrans(b, b1, b2);
    var b3 := Put(b2, AndI(R(b.next), R(b1.next)));
    FrameTrans(b, b2, b3);
    var b4 := FailIf(b3, R(b2.next), OutOfRange);
    FrameTrans(b, b3, b4);
    b4
  }

  /** Remainder against a divisor that is never -1, then 0 selected when it was. */
  function SafeRem(b: Code, w: Width, x: Opnd, y: Opnd): (r: (Code, Opnd))
    requires Open(b)
    ensures Frame(b, r.0)
  {
    var b1 := Put(b, Compare(Eq, y, K(-1)));
    var b2 := Put(b1, Select(R(b.next), K(1), y));
    FrameTrans(b, b1, b2);
    var b3 := Put(b2, SRem(w, x, R(b1.next)));
    FrameTrans(b, b2, b3);
    var b4 := Put(b3, Select(R(b.next), K(0), R(b2.next)));
    FrameTrans(b, b3, b4);
    (b4, R(b3.next))
  }

  /** Branch to a new block and take v through a single-predecessor phi. */
  function EmitJoin(b: Code, v: Opnd): (r: (Code, Opnd))
    requires Open(b)
    ensures Frame(b, r.0)
  {
    var ok := |b.blocks|;
    var b1 := At(Close(NewBlock(b), Br(ok)), ok);
    (Put(b1, Phi(b.cur, v, b.cur, v)), R(b1.next))
  }

  function EmitDiv(b: Code, w: Width, x: Opnd, y: Opnd): (r: (Code, Opnd))
    requires Open(b)
    ensures Frame(b, r.0)
  {
    var b1 := FailWhen(b, y, 0, DivisionByZero);
    var b2 := MinGuard(b1, w, x, y);
    FrameTrans(b, b1, b2);
    var b3 := Put(b2, SDiv(w, x, y));
    FrameTrans(b, b2, b3);
    var r := EmitJoin(b3, R(b2.next));
    FrameTrans(b, b3, r.0);
    r
  }

  function EmitMod(b: Code, w: Width, x: Opnd, y: Opnd): (r: (Code, Opnd))
    requires Open(b)
    ensures Frame(b, r.0)
  {
    var b1 := FailWhen(b, y, 0, DivisionByZero);
    var (b2, v) := SafeRem(b1, w, x, y);
    FrameTrans(b, b1, b2);
    var r := EmitJoin(b2, v);
    FrameTrans(b, b2, r.0);
    r
  }

  function EmitNeg(b: Code, w: Width, x: Opnd): (r: (Code, Opnd))
    requires Open(b)
    ensures Frame(b, r.0)
  {
    var b1 := FailWhen(b, x, MinOf(w), OutOfRange);
    var b2 := Put(b1, Negate(w, x));
    FrameTrans(b, b1, b2);
    (b2, R(b1.next))
  }

  function EmitAbs(b: Code, w: Width, x: Opnd): (r: (Code, Opnd))
    requires Open(b)
    ensures Frame(b, r.0)
  {
    var (b1, neg) := EmitNeg(b, w, x);
    var b2 := Put(b1, Compare(Ge, x, K(0)));
    FrameTrans(b, b1, b2);
    var b3 := Put(b2, Select(R(b1.next), x, neg));
    FrameTrans(b, b2, b3);
    (b3, R(b2.next))
  }

  function EmitArith(b: Code, w: Width, op: ArithOp, x: Opnd, y: Opnd): (r: (Code, Opnd))
    requires Open(b)
    ensures Frame(b, r.0)
  {
    match op
    case Div => EmitDiv(b, w, x, y)
    case Mod => EmitMod(b, w, x, y)
    case _ => EmitChecked(b, w, op, x, y)
  }

  /** What a piece of code that computes `res` by `ops` operations must do: reach its end with the value, or raise. */
  ghost predicate Delivers(p: Prog, b: Code, c: Code, o: Opnd, s: State, t: State, res: Res, ops: nat) {
    match res
    case Ok(V(n)) => Sofar(p, b, c, s, t) && Live(o, c.next, t) && Get(o, t) == n && t.ops == s.ops + ops
    case Ok(Null) => false
    case Err(e) => Reaches(p, s, t) && t.Raised? && t.error == e
  }

  /** A piece of code that comes after b1 delivers for the whole. */
  lemma DeliversAfter(p: Prog, b: Code, b1: Code, c: Code, o: Opnd, s: State, s1: State, t: State, res: Res, k: nat,
                      ops: nat)
    requires Sofar(p, b, b1, s, s1) && s1.ops == s.ops + k && Delivers(p, b1, c, o, s1, t, res, ops)
    requires Frame(b, b1) && Frame(b1, c)
    ensures Delivers(p, b, c, o, s, t, res, k + ops)
  {
    ReachesTrans(p, s, s1, t);
    FrameTrans(b, b1, c);
  }

  lemma CheckedRuns(p: Prog, b: Code, w: Width, op: ArithOp, x: Opnd, y: Opnd, s: State) returns (t: State)
    requires op.Add? || op.Sub? || op.Mul?
    requires Here(b, s) && Grows(EmitChecked(b, w, op, x, y).0.blocks, p)
    requires Live(x, b.next, s) && Live(y, b.next, s)
    ensures var (c, o) := EmitChecked(b, w, op, x, y);
      Delivers(p, b, c, o, s, t, ArithRes(w, op, Get(x, s), Get(y, s)), 1)
  {
    hide Grows, Frame, Reaches;
    var b1 := Put(b, Wrapped(w, op, x, y));
    var b2 := Put(b1, Overflows(w, op, x, y));
    Back(b2, FailIf(b2, R(b1.next), OutOfRange), p);
    Back(b1, b2, p);
    Start(p, b, s);
    var s1 := PutNext(p, b, b, Wrapped(w, op, x, y), s, s);
    var s2 := PutNext(p, b, b1, Overflows(w, op, x, y), s, s1);
    t := FailIfNext(p, b, b2, R(b1.next), OutOfRange, s, s2);
  }

  lemma FailWhenNext(p: Prog, b0: Code, b: Code, x: Opnd, k: int, e: Error, s0: State, s: State) returns (t: State)
    requires Sofar(p, b0, b, s0, s) && Grows(FailWhen(b, x, k, e).blocks, p) && Live(x, b.next, s)
    ensures Get(x, s) == k ==> Reaches(p, s0, t) && t == Raised(e, s.ops)
    ensures Get(x, s) != k ==> Sofar(p, b0, FailWhen(b, x, k, e), s0, t) && Keeps(b.next, s, t) && t.ops == s.ops
  {
    hide Grows, Frame, Reaches;
    var b1 := Put(b, Compare(Eq, x, K(k)));
    Back(b1, FailIf(b1, R(b.next), e), p);
    var s1 := PutNext(p, b0, b, Compare(Eq, x, K(k)), s0, s);
    t := FailIfNext(p, b0, b1, R(b.next), e, s0, s1);
  }

  lemma MinGuardNext(p: Prog, b0: Code, b: Code, w: Width, x: Opnd, y: Opnd, s0: State, s: State) returns (t: State)
    requires Sofar(p, b0, b, s0, s) && Grows(MinGuard(b, w, x, y).blocks, p)
    requires Live(x, b.next, s) && Live(y, b.next, s)
    ensures Get(x, s) == MinOf(w) && Get(y, s) == -1 ==> Reaches(p, s0, t) && t == Raised(OutOfRange, s.ops)
    ensures !(Get(x, s) == MinOf(w) && Get(y, s) == -1) ==>
      Sofar(p, b0, MinGuard(b, w, x, y), s0, t) && Keeps(b.next, s, t) && t.ops == s.ops
  {
    hide Grows, Frame, Reaches;
    var b1 := Put(b, Compare(Eq, x, K(MinOf(w))));
    var b2 := Put(b1, Compare(Eq, y, K(-1)));
    var b3 := Put(b2, AndI(R(b.next), R(b1.next)));
    Back(b3, FailIf(b3, R(b2.next), OutOfRange), p); Back(b2, b3, p); Back(b1, b2, p);
    var s1 := PutNext(p, b0, b, Compare(Eq, x, K(MinOf(w))), s0, s);
    var s2 := PutNext(p, b0, b1, Compare(Eq, y, K(-1)), s0, s1);
    var s3 := PutNext(p, b0, b2, AndI(R(b.next), R(b1.next)), s0, s2);
    t := FailIfNext(p, b0, b3, R(b2.next), OutOfRange, s0, s3);
  }

  lemma SafeRemNext(p: Prog, b0: Code, b: Code, w: Width, x: Opnd, y: Opnd, s0: State, s: State) returns (t: State)
    requires Sofar(p, b0, b, s0, s) && Grows(SafeRem(b, w, x, y).0.blocks, p)
    requires Live(x, b.next, s) && Live(y, b.next, s) && Get(y, s) != 0
    ensures var (c, v) := SafeRem(b, w, x, y);
      Sofar(p, b0, c, s0, t) && Live(v, c.next, t) && Get(v, t) == TruncRem(Get(x, s), Get(y, s)) && t.ops == s.ops + 1
  {
    hide Grows, Frame, Reaches;
    var b1 := Put(b, Compare(Eq, y, K(-1)));
    var b2 := Put(b1, Select(R(b.next), K(1), y));
    var b3 := Put(b2, SRem(w, x, R(b1.next)));
    Back(b3, SafeRem(b, w, x, y).0, p); Back(b2, b3, p); Back(b1, b2, p);
    var s1 := PutNext(p, b0, b, Compare(Eq, y, K(-1)), s0, s);
    var s2 := PutNext(p, b0, b1, Select(R(b.next), K(1), y), s0, s1);
    var s3 := PutNext(p, b0, b2, SRem(w, x, R(b1.next)), s0, s2);
    t := PutNext(p, b0, b3, Select(R(b.next), K(0), R(b2.next)), s0, s3);
  }

  lemma JoinNext(p: Prog, b0: Code, b: Code, v: Opnd, s0: State, s: State) returns (t: State)
    requires Sofar(p, b0, b, s0, s) && Grows(EmitJoin(b, v).0.blocks, p) && Live(v, b.next, s) && s0.ops <= s.ops
    ensures var (c, o) := EmitJoin(b, v); Delivers(p, b0, c, o, s0, t, Ok(V(Get(v, s))), s.ops - s0.ops)
  {
    var ok := |b.blocks|;
    var b1 := At(Close(NewBlock(b), Br(ok)), ok);
    var b2 := Put(b1, Phi(b.cur, v, b.cur, v));
    assert b2.blocks[b.cur] == BB(b.blocks[b.cur].code, Some(Br(ok)));
    assert p[b.cur] == b2.blocks[b.cur];
    var s1 := Step(p, s);
    OneStep(p, s);
    t := PutRuns(p, b1, Phi(b.cur, v, b.cur, v), s1);
    ReachesTrans(p, s0, s, s1);
    ReachesTrans(p, s0, s1, t);
    FrameTrans(b0, b, b2);
  }

  lemma DivRuns(p: Prog, b: Code, w: Width, x: Opnd, y: Opnd, s: State) returns (t: State)
    requires Here(b, s) && Grows(EmitDiv(b, w, x, y).0.blocks, p)
    requires Live(x, b.next, s) && Live(y, b.next, s) && InRange(w, Get(x, s)) && InRange(w, Get(y, s))
    ensures var (c, o) := EmitDiv(b, w, x, y);
      Delivers(p, b, c, o, s, t, ArithRes(w, Div, Get(x, s), Get(y, s)), 1)
  {
    hide Grows, Frame, Reaches;
    var b1 := FailWhen(b, y, 0, DivisionByZero);
    var b2 := MinGuard(b1, w, x, y);
    var b3 := Put(b2, SDiv(w, x, y));
    Back(b3, EmitJoin(b3, R(b2.next)).0, p); Back(b2, b3, p); Back(b1, b2, p);
    Start(p, b, s);
    t := FailWhenNext(p, b, b, y, 0, DivisionByZero, s, s);
    if Get(y, s) != 0 {
      DivRange(w, Get(x, s), Get(y, s));
      t := MinGuardNext(p, b, b1, w, x, y, s, t);
      if !(Get(x, s) == MinOf(w) && Get(y, s) == -1) {
        t := PutNext(p, b, b2, SDiv(w, x, y), s, t);
        t := JoinNext(p, b, b3, R(b2.next), s, t);
      }
    }
  }

  lemma ModRuns(p: Prog, b: Code, w: Width, x: Opnd, y: Opnd, s: State) returns (t: State)
    requires Here(b, s) && Grows(EmitMod(b, w, x, y).0.blocks, p)
    requires Live(x, b.next, s) && Live(y, b.next, s)
    ensures var (c, o) := EmitMod(b, w, x, y);
      Delivers(p, b, c, o, s, t, ArithRes(w, Mod, Get(x, s), Get(y, s)), 1)
  {
    hide Grows, Frame, Reaches;
    var b1 := FailWhen(b, y, 0, DivisionByZero);
    var (b2, v) := SafeRem(b1, w, x, y);
    Back(b2, EmitJoin(b2, v).0, p); Back(b1, b2, p);
    Start(p, b, s);
    t := FailWhenNext(p, b, b, y, 0, DivisionByZero, s, s);
    if Get(y, s) != 0 {
      t := SafeRemNext(p, b, b1, w, x, y, s, t);
      t := JoinNext(p, b, b2, v, s, t);
    }
  }

  lemma NegRuns(p: Prog, b: Code, w: Width, x: Opnd, s: State) returns (t: State)
    requires Here(b, s) && Grows(EmitNeg(b, w, x).0.blocks, p)
    requires Live(x, b.next, s) && InRange(w, Get(x, s))
    ensures var (c, o) := EmitNeg(b, w, x); Delivers(p, b, c, o, s, t, ApplyUn(Neg(w), Get(x, s)), 1)
  {
    hide Grows, Frame, Reaches;
    var b1 := FailWhen(b, x, MinOf(w), OutOfRange);
    Back(b1, Put(b1, Negate(w, x)), p);
    Start(p, b, s);
    t := FailWhenNext(p, b, b, x, MinOf(w), OutOfRange, s, s);
    if Get(x, s) != MinOf(w) {
      t := PutNext(p, b, b1, Negate(w, x), s, t);
    }
  }

  lemma AbsRuns(p: Prog, b: Code, w: Width, x: Opnd, s: State) returns (t: State)
    requires Here(b, s) && Grows(EmitAbs(b, w, x).0.blocks, p)
    requires Live(x, b.next, s) && InRange(w, Get(x, s))
    ensures var (c, o) := EmitAbs(b, w, x); Delivers(p, b, c, o, s, t, ApplyUn(Abs(w), Get(x, s)), 1)
  {
    hide Grows, Frame, Reaches;
    var (b1, neg) := EmitNeg(b, w, x);
    var b2 := Put(b1, Compare(Ge, x, K(0)));
    Back(b2, Put(b2, Select(R(b1.next), x, neg)), p); Back(b1, b2, p);
    t := NegRuns(p, b, w, x, s);
    if Get(x, s) != MinOf(w) {
      t := PutNext(p, b, b1, Compare(Ge, x, K(0)), s, t);
      t := PutNext(p, b, b2, Select(R(b1.next), x, neg), s, t);
    }
  }

  lemma ArithRuns(p: Prog, b: Code, w: Width, op: ArithOp, x: Opnd, y: Opnd, s: State) returns (t: State)
    requires Here(b, s) && Grows(EmitArith(b, w, op, x, y).0.blocks, p)
    requires Live(x, b.next, s) && Live(y, b.next, s) && InRange(w, Get(x, s)) && InRange(w, Get(y, s))
    ensures var (c, o) := EmitArith(b, w, op, x, y);
      Delivers(p, b, c, o, s, t, ArithRes(w, op, Get(x, s), Get(y, s)), 1)
  {
    hide Grows, Frame, Reaches, EmitDiv, EmitMod, EmitChecked;
    match op
    case Div => t := DivRuns(p, b, w, x, y, s);
    case Mod => t := ModRuns(p, b, w, x, y, s);
    case _ => t := CheckedRuns(p, b, w, op, x, y, s);
  }
}
