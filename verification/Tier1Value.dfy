/** Values of int4 and int8 trees. */
module Tier1Value {
  import opened Cfg
  import opened Tier1Expr
  import opened Tier1Machine
  import opened Tier1Emit
  import opened Tier1Arith

  predicate IsInt(c: Class) { c.C4? || c.C8? }

  /** Native value of an int4 or int8 tree; reads no NULL flag. */
  function EmitInt(b: Code, e: Expr): (r: (Code, Opnd))
    requires Open(b) && IsInt(Classify(e))
    ensures Frame(b, r.0)
    decreases e
  {
    match e
    case Const(_, _, v) => (b, K(v))
    case Param(d, ty, _) =>
      var b1 := Put(b, Bits(d));
      if ty.Int8? then (b1, R(b.next)) else
      var b2 := Put(b1, Low32(R(b.next)));
      FrameTrans(b, b1, b2);
      (b2, R(b1.next))
    case Unary(f, a) =>
      var (b1, x) := EmitInt(b, a);
      var r := if f.Neg? then EmitNeg(b1, f.w, x) else EmitAbs(b1, f.w, x);
      FrameTrans(b, b1, r.0);
      r
    case Binary(f, l, r) =>
      var (b1, x) := EmitInt(b, l);
      var (b2, y) := EmitInt(b1, r);
      FrameTrans(b, b1, b2);
      var r := EmitArith(b2, if f.Arith? then f.w else W8, f.op, x, y);
      FrameTrans(b, b2, r.0);
      r
    case Relabel(a) => EmitInt(b, a)
    case Elem(a, i, _) =>
      var (b1, x) := EmitInt(b, i);
      var r := EmitLoad(b1, a, x);
      FrameTrans(b, b1, r.0);
      r
  }

  /** Flat load of the element at subscript x, relative to the lower bound; no bounds check. */
  function EmitLoad(b: Code, a: nat, x: Opnd): (r: (Code, Opnd))
    requires Open(b)
    ensures Frame(b, r.0)
  {
    var b1 := Put(b, LbOf(a));
    var b2 := Put(b1, SubI32(x, R(b.next)));
    FrameTrans(b, b1, b2);
    var b3 := Put(b2, LoadElem(a, R(b1.next)));
    FrameTrans(b, b2, b3);
    (b3, R(b2.next))
  }

  lemma LoadRuns(p: Prog, b: Code, a: nat, x: Opnd, s: State) returns (t: State)
    requires Here(b, s) && Grows(EmitLoad(b, a, x).0.blocks, p) && Live(x, b.next, s)
    requires FlatOk(s.env.arrays(a)) && InRange(W4, Get(x, s)) && ReadElem(s.env.arrays(a), Get(x, s)).V?
    ensures var (c, o) := EmitLoad(b, a, x);
      Delivers(p, b, c, o, s, t, Ok(ReadElem(s.env.arrays(a), Get(x, s))), 0)
  {
    hide Grows, Frame, Reaches;
    var b1 := Put(b, LbOf(a));
    var b2 := Put(b1, SubI32(x, R(b.next)));
    Back(b2, Put(b2, LoadElem(a, R(b1.next))), p); Back(b1, b2, p);
    Start(p, b, s);
    t := PutNext(p, b, b, LbOf(a), s, s);
    t := PutNext(p, b, b1, SubI32(x, R(b.next)), s, t);
    t := PutNext(p, b, b2, LoadElem(a, R(b1.next)), s, t);
  }

  /** With no NULL leaf the value code gives what strict evaluation gives, and raises what it raises. */
  lemma {:induction false} IntRuns(p: Prog, b: Code, e: Expr, s: State) returns (t: State)
    requires Here(b, s) && IsInt(Classify(e)) && Grows(EmitInt(b, e).0.blocks, p)
    requires Fits(e, s.env) && !NullLeaf(e, s.env)
    ensures var (c, o) := EmitInt(b, e); Delivers(p, b, c, o, s, t, Eval(e, s.env), OpsIn(e))
    decreases e
  {
    hide Grows, Frame, Reaches, Put;
    match e
    case Const(_, _, v) => Start(p, b, s); t := s;
    case Param(d, ty, _) => t := IntParamRuns(p, b, e, s);
    case Unary(f, a) => t := IntUnaryRuns(p, b, e, s);
    case Binary(f, l, r) => t := IntBinaryRuns(p, b, e, s);
    case Relabel(a) => t := IntRuns(p, b, a, s);
    case Elem(a, i, _) => t := IntElemRuns(p, b, e, s);
  }

  lemma IntParamRuns(p: Prog, b: Code, e: Expr, s: State) returns (t: State)
    requires e.Param? && Here(b, s) && IsInt(Classify(e)) && Grows(EmitInt(b, e).0.blocks, p)
    requires Fits(e, s.env) && !NullLeaf(e, s.env)
    ensures var (c, o) := EmitInt(b, e); Delivers(p, b, c, o, s, t, Eval(e, s.env), OpsIn(e))
  {
    hide Grows, Frame, Reaches;
    Start(p, b, s);
    var b1 := Put(b, Bits(e.dno));
    if e.ty.Int8? {
      t := PutNext(p, b, b, Bits(e.dno), s, s);
    } else {
      Back(b1, Put(b1, Low32(R(b.next))), p);
      t := PutNext(p, b, b, Bits(e.dno), s, s);
      t := PutNext(p, b, b1, Low32(R(b.next)), s, t);
    }
  }

  lemma {:induction false} IntUnaryRuns(p: Prog, b: Code, e: Expr, s: State) returns (t: State)
    requires e.Unary? && Here(b, s) && IsInt(Classify(e)) && Grows(EmitInt(b, e).0.blocks, p)
    requires Fits(e, s.env) && !NullLeaf(e, s.env)
    ensures var (c, o) := EmitInt(b, e); Delivers(p, b, c, o, s, t, Eval(e, s.env), OpsIn(e))
    decreases e, 0
  {
    hide Grows, Reaches, EmitNeg, EmitAbs;
    var f := e.f;
    var (b1, x) := EmitInt(b, e.arg);
    var (c, o) := if f.Neg? then EmitNeg(b1, f.w, x) else EmitAbs(b1, f.w, x);
    Back(b1, c, p);
    t := IntRuns(p, b, e.arg, s);
    if Eval(e.arg, s.env).Ok? {
      ResultInRange(e.arg, s.env, f.w);
      var s1 := t;
      if f.Neg? { t := NegRuns(p, b1, f.w, x, s1); } else { t := AbsRuns(p, b1, f.w, x, s1); }
      DeliversAfter(p, b, b1, c, o, s, s1, t, Eval(e, s.env), OpsIn(e.arg), 1);
    }
  }

  lemma {:induction false} IntElemRuns(p: Prog, b: Code, e: Expr, s: State) returns (t: State)
    requires e.Elem? && Here(b, s) && IsInt(Classify(e)) && Grows(EmitInt(b, e).0.blocks, p)
    requires Fits(e, s.env) && !NullLeaf(e, s.env)
    ensures var (c, o) := EmitInt(b, e); Delivers(p, b, c, o, s, t, Eval(e, s.env), OpsIn(e))
    decreases e, 0
  {
    hide Grows, Reaches, EmitLoad;
    var (b1, x) := EmitInt(b, e.index);
    var (c, o) := EmitLoad(b1, e.arr, x);
    Back(b1, c, p);
    NullExactlyFromLeaves(e.index, s.env);
    ResultInRange(e.index, s.env, W4);
    t := IntRuns(p, b, e.index, s);
    if Eval(e.index, s.env).Ok? {
      var s1 := t;
      t := LoadRuns(p, b1, e.arr, x, s1);
      DeliversAfter(p, b, b1, c, o, s, s1, t, Eval(e, s.env), OpsIn(e.index), 0);
    }
  }

  lemma {:induction false} IntBinaryRuns(p: Prog, b: Code, e: Expr, s: State) returns (t: State)
    requires e.Binary? && Here(b, s) && IsInt(Classify(e)) && Grows(EmitInt(b, e).0.blocks, p)
    requires Fits(e, s.env) && !NullLeaf(e, s.env)
    ensures var (c, o) := EmitInt(b, e); Delivers(p, b, c, o, s, t, Eval(e, s.env), OpsIn(e))
    decreases e, 0
  {
    hide Grows, Frame, Reaches, EmitArith;
    var f := e.fn;
    var w := if f.Arith? then f.w else W8;
    var (b1, x) := EmitInt(b, e.left);
    Opens(b, b1);
    var (b2, y) := EmitInt(b1, e.right);
    Opens(b1, b2);
    var (c, o) := EmitArith(b2, w, f.op, x, y);
    Back(b2, c, p); Back(b1, b2, p);
    t := IntRuns(p, b, e.left, s);
    if Eval(e.left, s.env).Ok? {
      NullExactlyFromLeaves(e.left, s.env);
      ResultInRange(e.left, s.env, if f.Arith? then f.w else f.left);
      var s1 := t;
      t := IntRuns(p, b1, e.right, s1);
      DeliversAfter(p, b, b1, b2, y, s, s1, t, Eval(e.right, s.env), OpsIn(e.left), OpsIn(e.right));
      if Eval(e.right, s.env).Ok? {
        NullExactlyFromLeaves(e.right, s.env);
        ResultInRange(e.right, s.env, if f.Arith? then f.w else Other(f.left));
        var s2 := t;
        assert Live(x, b2.next, s2) && Get(x, s2) == Get(x, s1);
        t := ArithRuns(p, b2, w, f.op, x, y, s2);
        DeliversAfter(p, b, b2, c, o, s, s2, t, Eval(e, s.env), OpsIn(e.left) + OpsIn(e.right), 1);
      }
    }
  }
}
