/** The instruction set the expression compiler emits, and its execution. */
module Tier1Machine {
  import opened Cfg
  import opened Tier1Expr

  /** SSA operands: constants and registers.  Sign extension is the identity on signed values. */
  datatype Opnd = K(k: int) | R(r: nat)

  datatype Rhs =
    | Bits(dno: nat) | NullOf(dno: nat)
    | Low32(a: Opnd) | Low1(a: Opnd)
    | Wrapped(w: Width, op: ArithOp, a: Opnd, b: Opnd)     // value of llvm.s*.with.overflow
    | Overflows(w: Width, op: ArithOp, a: Opnd, b: Opnd)   // its flag
    | SDiv(w: Width, a: Opnd, b: Opnd) | SRem(w: Width, a: Opnd, b: Opnd) | Negate(w: Width, a: Opnd)
    | Compare(rel: Rel, a: Opnd, b: Opnd)
    | AndI(a: Opnd, b: Opnd) | OrI(a: Opnd, b: Opnd) | NotI(a: Opnd) | Select(c: Opnd, a: Opnd, b: Opnd)
    | AddI32(a: Opnd, b: Opnd) | SubI32(a: Opnd, b: Opnd)
    | LenOf(arr: nat) | LbOf(arr: nat) | HasNulls(arr: nat) | NullFlag(arr: nat, a: Opnd) | LoadElem(arr: nat, a: Opnd)
    | Phi(b0: nat, a: Opnd, b1: nat, b: Opnd)

  datatype Instr = Let(dst: nat, rhs: Rhs) | StoreVal(dno: nat, v: Opnd) | StoreNull(dno: nat)

  datatype Term = Br(target: nat) | CondBr(c: Opnd, yes: nat, no: nat) | Fail(e: Error)

  type Code = Builder<Instr, Term>
  type Prog = seq<BB<Instr, Term>>

  /** `ops` counts the range-checked arithmetic performed so far.  Stuck is undefined behaviour. */
  datatype State =
    | Run(blk: nat, pc: nat, prev: nat, regs: map<nat, int>, env: Env, ops: nat)
    | Raised(error: Error, ops: nat)
    | Stuck

  predicate Def(o: Opnd, s: State)
    requires s.Run?
  {
    o.R? ==> o.r in s.regs
  }

  function Get(o: Opnd, s: State): int
    requires s.Run? && Def(o, s)
  {
    match o case K(k) => k case R(r) => s.regs[r]
  }

  predicate DefAll(r: Rhs, s: State)
    requires s.Run?
  {
    match r
    case Bits(_) => true case NullOf(_) => true
    case Low32(a) => Def(a, s) case Low1(a) => Def(a, s)
    case Wrapped(_, _, a, b) => Def(a, s) && Def(b, s) case Overflows(_, _, a, b) => Def(a, s) && Def(b, s)
    case SDiv(_, a, b) => Def(a, s) && Def(b, s) case SRem(_, a, b) => Def(a, s) && Def(b, s)
    case Negate(_, a) => Def(a, s)
    case Compare(_, a, b) => Def(a, s) && Def(b, s)
    case AndI(a, b) => Def(a, s) && Def(b, s) case OrI(a, b) => Def(a, s) && Def(b, s)
    case NotI(a) => Def(a, s)
    case Select(c, a, b) => Def(c, s) && Def(a, s) && Def(b, s)
    case AddI32(a, b) => Def(a, s) && Def(b, s) case SubI32(a, b) => Def(a, s) && Def(b, s)
    case LenOf(_) => true case LbOf(_) => true case HasNulls(_) => true
    case NullFlag(_, a) => Def(a, s) case LoadElem(_, a) => Def(a, s)
    case Phi(b0, a, b1, b) => (s.prev == b0 ==> Def(a, s)) && (s.prev != b0 ==> s.prev == b1 && Def(b, s))
  }

  function Raw(op: ArithOp, a: int, b: int): int {
    match op case Add => a + b case Sub => a - b case Mul => a * b case _ => 0
  }

  /** The value of a right-hand side; None where LLVM leaves the behaviour undefined. */
  function Value(r: Rhs, s: State): Option<int>
    requires s.Run?
  {
    if !DefAll(r, s) then None else
    match r
    case Bits(d) => Some(s.env.vars(d).bits)
    case NullOf(d) => Some(Bit(s.env.vars(d).isnull))
    case Low32(a) => Some(Wrap(W4, Get(a, s)))
    case Low1(a) => Some(Get(a, s) % 2)
    case Wrapped(w, op, a, b) => Some(Wrap(w, Raw(op, Get(a, s), Get(b, s))))
    case Overflows(w, op, a, b) => Some(Bit(!InRange(w, Raw(op, Get(a, s), Get(b, s)))))
    case SDiv(w, a, b) =>
      var x, y := Get(a, s), Get(b, s);
      if y == 0 || (x == MinOf(w) && y == -1) then None else Some(TruncDiv(x, y))
    case SRem(w, a, b) =>
      var x, y := Get(a, s), Get(b, s);
      if y == 0 || (x == MinOf(w) && y == -1) then None else Some(TruncRem(x, y))
    case Negate(w, a) => Some(Wrap(w, -Get(a, s)))
    case Compare(rel, a, b) => Some(Bit(Holds(rel, Get(a, s), Get(b, s))))
    case AndI(a, b) => Some(Bit(Get(a, s) == 1 && Get(b, s) == 1))
    case OrI(a, b) => Some(Bit(Get(a, s) == 1 || Get(b, s) == 1))
    case NotI(a) => Some(Bit(Get(a, s) == 0))
    case Select(c, a, b) => Some(if Get(c, s) == 1 then Get(a, s) else Get(b, s))
    case AddI32(a, b) => Some(Wrap(W4, Get(a, s) + Get(b, s)))
    case SubI32(a, b) => Some(Wrap(W4, Get(a, s) - Get(b, s)))
    case LenOf(d) => Some(s.env.arrays(d).len)
    case LbOf(d) => Some(s.env.arrays(d).lb)
    case HasNulls(d) => Some(Bit(s.env.arrays(d).hasNulls))
    case NullFlag(d, a) =>
      var f, i := s.env.arrays(d), Get(a, s);
      Some(Bit(if 0 <= i < |f.nulls| then f.nulls[i] else s.env.stray(d, i)))
    case LoadElem(d, a) =>
      var f, i := s.env.arrays(d), Get(a, s);
      if 0 <= i < |f.data| then Some(f.data[i]) else None
    case Phi(b0, a, _, b) => Some(if s.prev == b0 then Get(a, s) else Get(b, s))
  }

  /** Division and remainder are undefined exactly for a zero divisor and for the minimum divided by -1. */
  lemma UndefinedExactly(w: Width, a: Opnd, b: Opnd, s: State)
    requires s.Run? && Def(a, s) && Def(b, s)
    ensures var x, y, min := Get(a, s), Get(b, s), if w.W4? then -0x8000_0000 else -0x8000_0000_0000_0000;
      (Value(SDiv(w, a, b), s).None? <==> y == 0 || (x == min && y == -1)) &&
      (Value(SRem(w, a, b), s).None? <==> y == 0 || (x == min && y == -1))
  {
  }

  function Cost(r: Rhs): nat {
    if r.Wrapped? || r.SDiv? || r.SRem? || r.Negate? then 1 else 0
  }

  function SetVar(env: Env, d: nat, slot: Slot): Env {
    var vars := env.vars;
    env.(vars := (x: nat) => if x == d then slot else vars(x))
  }

  function Exec(i: Instr, s: State): State
    requires s.Run?
  {
    match i
    case Let(d, r) =>
      var v := Value(r, s);
      if v.None? then Stuck else s.(pc := s.pc + 1, regs := s.regs[d := v.value], ops := s.ops + Cost(r))
    case StoreVal(d, o) =>
      if !Def(o, s) then Stuck else s.(pc := s.pc + 1, env := SetVar(s.env, d, Slot(false, Get(o, s))))
    case StoreNull(d) => s.(pc := s.pc + 1, env := SetVar(s.env, d, Slot(true, 0)))
  }

  function Goto(s: State, t: nat): State
    requires s.Run?
  {
    s.(blk := t, pc := 0, prev := s.blk)
  }

  function Jump(t: Term, s: State): State
    requires s.Run?
  {
    match t
    case Br(b) => Goto(s, b)
    case CondBr(c, y, n) => if !Def(c, s) then Stuck else Goto(s, if Get(c, s) == 1 then y else n)
    case Fail(e) => Raised(e, s.ops)
  }

  function Step(p: Prog, s: State): State {
    if !s.Run? then s
    else if s.blk >= |p| then Stuck
    else if s.pc < |p[s.blk].code| then Exec(p[s.blk].code[s.pc], s)
    else if p[s.blk].term.None? then Stuck
    else Jump(p[s.blk].term.value, s)
  }

  function Steps(p: Prog, s: State, n: nat): State
    decreases n
  {
    if n == 0 then s else Steps(p, Step(p, s), n - 1)
  }

  ghost predicate Reaches(p: Prog, s: State, t: State) {
    exists n: nat :: Steps(p, s, n) == t
  }

  lemma {:induction false} StepsAdd(p: Prog, s: State, n: nat, k: nat)
    ensures Steps(p, s, n + k) == Steps(p, Steps(p, s, n), k)
    decreases n
  {
    if n > 0 { StepsAdd(p, Step(p, s), n - 1, k); }
  }

  lemma ReachesTrans(p: Prog, s: State, t: State, u: State)
    requires Reaches(p, s, t) && Reaches(p, t, u)
    ensures Reaches(p, s, u)
  {
    var n: nat :| Steps(p, s, n) == t;
    var k: nat :| Steps(p, t, k) == u;
    StepsAdd(p, s, n, k);
  }

  lemma OneStep(p: Prog, s: State)
    ensures Reaches(p, s, Step(p, s))
  {
    assert Steps(p, s, 1) == Steps(p, Step(p, s), 0) == Step(p, s);
  }

  lemma NoStep(p: Prog, s: State)
    ensures Reaches(p, s, s)
  {
    assert Steps(p, s, 0) == s;
  }
}
