/** Integer expressions as the compiler sees them, and what PostgreSQL says they mean. */
module Tier1Expr {

  datatype Width = W4 | W8
  datatype ArithOp = Add | Sub | Mul | Div | Mod
  datatype Rel = Eq | Ne | Lt | Le | Gt | Ge

  /** Column types of leaves; OtherTy stands for everything outside int4, int8 and bool. */
  datatype Ty = Int4 | Int8 | Bool | OtherTy

  /** Two-argument operators.  Arith is int4xx/int8xx; CrossArith(W8, op) is int84xx and
      CrossArith(W4, op) is int48xx; Cmp(l, r, rel) covers int4, int8, int84 and int48. */
  datatype BinFn =
    | Arith(w: Width, op: ArithOp)
    | CrossArith(left: Width, op: ArithOp)
    | Cmp(l: Width, r: Width, rel: Rel)
    | BoolCmp(equal: bool)
    | OtherBin

  datatype UnFn = Neg(w: Width) | Abs(w: Width) | OtherUn

  datatype Expr =
    | Const(ty: Ty, isnull: bool, val: int)
    | Param(dno: nat, ty: Ty, extern: bool)
    | Unary(f: UnFn, arg: Expr)
    | Binary(fn: BinFn, left: Expr, right: Expr)
    | Relabel(inner: Expr)
    | Elem(arr: nat, index: Expr, elemTy: Ty)
    | BoolExpr(args: seq<Expr>)
    | OtherExpr

  datatype Class = C4 | C8 | CB | Unknown

  function TyClass(t: Ty): Class {
    match t case Int4 => C4 case Int8 => C8 case Bool => CB case OtherTy => Unknown
  }

  function WidthClass(w: Width): Class { if w.W4? then C4 else C8 }

  /** Which trees the compiler takes, and the class of their result. */
  function Classify(e: Expr): Class {
    match e
    case Const(ty, isnull, _) => if isnull then Unknown else TyClass(ty)
    case Param(_, ty, extern) => if extern then TyClass(ty) else Unknown
    case Unary(Neg(w), a) => if Classify(a) == WidthClass(w) then WidthClass(w) else Unknown
    case Unary(Abs(w), a) => if Classify(a) == WidthClass(w) then WidthClass(w) else Unknown
    case Unary(OtherUn, _) => Unknown
    case Binary(Arith(w, _), l, r) =>
      if Classify(l) == WidthClass(w) && Classify(r) == WidthClass(w) then WidthClass(w) else Unknown
    case Binary(CrossArith(lw, op), l, r) =>
      // there is no cross-type modulo operator
      if op != Mod && Classify(l) == WidthClass(lw) && Classify(r) == WidthClass(Other(lw)) then C8 else Unknown
    case Binary(Cmp(lw, rw, _), l, r) =>
      if Classify(l) == WidthClass(lw) && Classify(r) == WidthClass(rw) then CB else Unknown
    case Binary(BoolCmp(_), l, r) =>
      if Classify(l) == CB && Classify(r) == CB then CB else Unknown
    case Binary(OtherBin, _, _) => Unknown
    case Relabel(a) => Classify(a)
    case Elem(_, i, t) => if Classify(i) == C4 then TyClass(t) else Unknown
    case BoolExpr(_) => Unknown
    case OtherExpr => Unknown
  }

  function Other(w: Width): Width { if w.W4? then W8 else W4 }

  /** An operator is accepted exactly on operands of its declared argument types, and its result has its declared
      type: int48xx takes int4 and int8, int84xx the reverse, both give int8 and have no modulo. */
  lemma SignaturesKept(l: Expr, r: Expr, op: ArithOp, rel: Rel)
    ensures Classify(Binary(Arith(W4, op), l, r)) == if Classify(l) == C4 && Classify(r) == C4 then C4 else Unknown
    ensures Classify(Binary(Arith(W8, op), l, r)) == if Classify(l) == C8 && Classify(r) == C8 then C8 else Unknown
    ensures Classify(Binary(CrossArith(W4, op), l, r)) ==
      if op != Mod && Classify(l) == C4 && Classify(r) == C8 then C8 else Unknown
    ensures Classify(Binary(CrossArith(W8, op), l, r)) ==
      if op != Mod && Classify(l) == C8 && Classify(r) == C4 then C8 else Unknown
    ensures Classify(Binary(Cmp(W4, W8, rel), l, r)) == if Classify(l) == C4 && Classify(r) == C8 then CB else Unknown
    ensures Classify(Binary(Cmp(W8, W4, rel), l, r)) == if Classify(l) == C8 && Classify(r) == C4 then CB else Unknown
    ensures Classify(Unary(Neg(W4), l)) == Classify(Unary(Abs(W4), l)) == if Classify(l) == C4 then C4 else Unknown
    ensures Classify(Unary(Neg(W8), l)) == Classify(Unary(Abs(W8), l)) == if Classify(l) == C8 then C8 else Unknown
  {
  }

  /** Subscripts are variables or constants. */
  predicate PlainSubscripts(e: Expr) {
    match e
    case Unary(_, a) => PlainSubscripts(a)
    case Binary(_, l, r) => PlainSubscripts(l) && PlainSubscripts(r)
    case Relabel(a) => PlainSubscripts(a)
    case Elem(_, i, _) => i.Const? || i.Param?
    case _ => true
  }

  // ---- machine integers ----

  const MIN4 := -0x8000_0000
  const MAX4 := 0x7fff_ffff
  const MIN8 := -0x8000_0000_0000_0000
  const MAX8 := 0x7fff_ffff_ffff_ffff

  function MinOf(w: Width): int { if w.W4? then MIN4 else MIN8 }
  function MaxOf(w: Width): int { if w.W4? then MAX4 else MAX8 }
  predicate InRange(w: Width, x: int) { MinOf(w) <= x <= MaxOf(w) }

  /** Two's complement wrap-around to the width. */
  function Wrap(w: Width, x: int): (r: int)
    ensures InRange(w, r)
    ensures InRange(w, x) ==> r == x
    ensures (x - r) % (if w.W4? then 0x1_0000_0000 else 0x1_0000_0000_0000_0000) == 0
  {
    if w.W4? then (x - MIN4) % 0x1_0000_0000 + MIN4
    else (x - MIN8) % 0x1_0000_0000_0000_0000 + MIN8
  }

  /** Division and remainder truncating toward zero, as in C. */
  function TruncDiv(a: int, b: int): int
    requires b != 0
  {
    if a >= 0 then (if b > 0 then a / b else -(a / -b))
    else (if b > 0 then -(-a / b) else -a / -b)
  }

  function TruncRem(a: int, b: int): int
    requires b != 0
  {
    var m := if b > 0 then b else -b;
    if a >= 0 then a % m else -(-a % m)
  }

  /** q and r are the quotient of a by b, truncated toward zero, and what it leaves. */
  predicate Truncates(a: int, b: int, q: int, r: int) {
    a == q * b + r && (if b > 0 then -b < r < b else b < r < -b) && (r == 0 || (r > 0 <==> a > 0))
  }

  lemma TruncMeans(a: int, b: int)
    requires b != 0
    ensures Truncates(a, b, TruncDiv(a, b), TruncRem(a, b))
  {
    var n, m := if a >= 0 then a else -a, if b > 0 then b else -b;
    Divided(n, m);
    Signs(n / m, m);
  }

  lemma Divided(n: nat, m: nat)
    requires m > 0
    ensures n == n / m * m + n % m && 0 <= n % m < m
  {
  }

  lemma Signs(q: int, m: int)
    ensures -q * m == -(q * m) && q * -m == -(q * m) && -q * -m == q * m
  {
  }

  /** There is only one such pair. */
  lemma TruncOnce(a: int, b: int, q: int, r: int, q': int, r': int)
    requires b != 0 && Truncates(a, b, q, r) && Truncates(a, b, q', r')
    ensures q == q' && r == r'
  {
    var m, d := if b > 0 then b else -b, q - q';
    assert -m < r' - r < m;
    Distribute(q, q', b);
    Signs(d, m);
    if d > 0 { AtLeast(d, m); } else if d < 0 { AtLeast(-d, m); Signs(-d, m); }
  }

  lemma Distribute(q: int, q': int, b: int)
    ensures (q - q') * b == q * b - q' * b
  {
  }

  lemma AtLeast(d: int, m: int)
    requires d >= 1 && m >= 1
    ensures d * m >= m
  {
  }

  lemma QuotientBound(a: int, d: int)
    requires a >= 0 && d > 0
    ensures 0 <= a / d <= a
    ensures a / d == a ==> d == 1 || a == 0
  {
    if d >= 2 && a >= 1 {
      assert (a / d) * d <= a;
      assert a * 2 <= a * d;
    }
  }

  lemma DivRange(w: Width, a: int, b: int)
    requires InRange(w, a) && InRange(w, b) && b != 0
    ensures InRange(w, TruncDiv(a, b)) <==> !(a == MinOf(w) && b == -1)
  {
    QuotientBound(if a >= 0 then a else -a, if b > 0 then b else -b);
  }

  lemma RemRange(w: Width, a: int, b: int)
    requires InRange(w, a) && InRange(w, b) && b != 0
    ensures InRange(w, TruncRem(a, b))
  {
  }

  // ---- reference semantics ----

  datatype Error = OutOfRange | DivisionByZero
  datatype Val = Null | V(n: int)
  datatype Res = Ok(v: Val) | Err(e: Error)

  /** A variable's slot; the bits behind a NULL are arbitrary. */
  datatype Slot = Slot(isnull: bool, bits: int)

  /** Flat mirror of a local array: len < 0 marks a value that is not one-dimensional. */
  datatype Flat = Flat(len: int, lb: int, data: seq<int>, nulls: seq<bool>, hasNulls: bool)

  /** `stray` gives the byte found when a NULL flag is read outside the flag buffer. */
  datatype Env = Env(vars: nat -> Slot, arrays: nat -> Flat, stray: (nat, int) -> bool)

  predicate FlatOk(f: Flat) {
    && InRange(W4, f.len) && InRange(W4, f.lb)
    && (f.len >= 0 ==> f.len <= |f.data| && InRange(W4, f.lb + f.len - 1)
                       && (f.hasNulls ==> f.len <= |f.nulls|))
  }

  predicate ElementsFit(w: Width, f: Flat) {
    forall i :: 0 <= i < |f.data| ==> InRange(w, f.data[i])
  }

  /** The leaves of e hold values of their declared types. */
  ghost predicate Fits(e: Expr, env: Env) {
    match e
    case Const(ty, _, v) =>
      (ty.Int4? ==> InRange(W4, v)) && (ty.Int8? ==> InRange(W8, v)) && (ty.Bool? ==> v == 0 || v == 1)
    case Param(d, ty, _) =>
      InRange(W8, env.vars(d).bits) &&
      (ty.Bool? && !env.vars(d).isnull ==> env.vars(d).bits == 0 || env.vars(d).bits == 1)
    case Unary(_, a) => Fits(a, env)
    case Binary(_, l, r) => Fits(l, env) && Fits(r, env)
    case Relabel(a) => Fits(a, env)
    case Elem(a, i, t) =>
      Fits(i, env) && FlatOk(env.arrays(a)) && ElementsFit(if t.Int4? then W4 else W8, env.arrays(a))
    case _ => true
  }

  function ReadVar(s: Slot, t: Ty): Val {
    if s.isnull then Null
    else if t.Int4? then V(Wrap(W4, s.bits))
    else if t.Bool? then V(if s.bits != 0 then 1 else 0)
    else V(s.bits)
  }

  /** One-dimensional read: NULL outside the bounds and for a value of another dimension. */
  function ReadElem(f: Flat, i: int): Val
    requires FlatOk(f)
  {
    if f.len < 0 || i < f.lb || i > f.lb + f.len - 1 then Null
    else if f.hasNulls && f.nulls[i - f.lb] then Null
    else V(f.data[i - f.lb])
  }

  function Checked(w: Width, x: int): Res {
    if InRange(w, x) then Ok(V(x)) else Err(OutOfRange)
  }

  function ArithRes(w: Width, op: ArithOp, a: int, b: int): Res {
    match op
    case Add => Checked(w, a + b)
    case Sub => Checked(w, a - b)
    case Mul => Checked(w, a * b)
    case Div => if b == 0 then Err(DivisionByZero) else Checked(w, TruncDiv(a, b))
    case Mod => if b == 0 then Err(DivisionByZero) else Ok(V(TruncRem(a, b)))
  }

  predicate Holds(rel: Rel, a: int, b: int) {
    match rel case Eq => a == b case Ne => a != b case Lt => a < b
    case Le => a <= b case Gt => a > b case Ge => a >= b
  }

  function Bit(b: bool): int { if b then 1 else 0 }

  function ApplyUn(f: UnFn, a: int): Res {
    match f
    case Neg(w) => Checked(w, -a)
    case Abs(w) => Checked(w, if a >= 0 then a else -a)
    case OtherUn => Ok(V(a))
  }

  function ApplyBin(f: BinFn, a: int, b: int): Res {
    match f
    case Arith(w, op) => ArithRes(w, op, a, b)
    case CrossArith(_, op) => ArithRes(W8, op, a, b)
    case Cmp(_, _, rel) => Ok(V(Bit(Holds(rel, a, b))))
    case BoolCmp(equal) => Ok(V(Bit((a == b) == equal)))
    case OtherBin => Ok(V(a))
  }

  /** Strict evaluation: arguments left to right, then NULL if any is NULL, else the operator. */
  function Eval(e: Expr, env: Env): Res
    requires Fits(e, env)
  {
    match e
    case Const(_, isnull, v) => Ok(if isnull then Null else V(v))
    case Param(d, t, _) => Ok(ReadVar(env.vars(d), t))
    case Unary(f, a) =>
      var x := Eval(a, env);
      if x.Err? || x.v.Null? then x else ApplyUn(f, x.v.n)
    case Binary(f, l, r) =>
      var x := Eval(l, env);
      if x.Err? then x else
      var y := Eval(r, env);
      if y.Err? then y
      else if x.v.Null? || y.v.Null? then Ok(Null) else ApplyBin(f, x.v.n, y.v.n)
    case Relabel(a) => Eval(a, env)
    case Elem(a, i, _) =>
      var x := Eval(i, env);
      if x.Err? || x.v.Null? then x else Ok(ReadElem(env.arrays(a), x.v.n))
    case BoolExpr(_) => Ok(Null)
    case OtherExpr => Ok(Null)
  }

  /** Division truncates toward zero and the remainder is what it leaves, with the sign of the dividend; a zero
      divisor is an error of both, a quotient out of range one of division. */
  ghost predicate Divides(w: Width, a: int, b: int, div: Res, mod: Res) {
    if b == 0 then div == mod == Err(DivisionByZero)
    else
      exists q, m :: Truncates(a, b, q, m) && mod == Ok(V(m)) &&
        div == if MinOf(w) <= q <= MaxOf(w) then Ok(V(q)) else Err(OutOfRange)
  }

  lemma ArithDivides(w: Width, a: int, b: int)
    ensures Divides(w, a, b, ArithRes(w, Div, a, b), ArithRes(w, Mod, a, b))
  {
    if b != 0 {
      TruncMeans(a, b);
      hide Truncates, TruncDiv, TruncRem;
      var q, m := TruncDiv(a, b), TruncRem(a, b);
      assert Truncates(a, b, q, m) && ArithRes(w, Mod, a, b) == Ok(V(m));
    }
  }

  /** So do the values of a / b and a % b. */
  lemma DivMeans(w: Width, l: Expr, r: Expr, env: Env)
    requires Fits(l, env) && Eval(l, env).Ok? && Eval(l, env).v.V?
    requires Fits(r, env) && Eval(r, env).Ok? && Eval(r, env).v.V?
    ensures Divides(w, Eval(l, env).v.n, Eval(r, env).v.n, Eval(Binary(Arith(w, Div), l, r), env),
        Eval(Binary(Arith(w, Mod), l, r), env))
  {
    hide Divides, ArithRes;
    ArithDivides(w, Eval(l, env).v.n, Eval(r, env).v.n);
  }

  /** The comparisons, told by equality and "less than" and these by the difference. */
  lemma HoldsMeans(a: int, b: int)
    ensures Holds(Eq, a, b) <==> a - b == 0
    ensures Holds(Lt, a, b) <==> b - a > 0
    ensures Holds(Ne, a, b) <==> !Holds(Eq, a, b)
    ensures Holds(Le, a, b) <==> Holds(Lt, a, b) || Holds(Eq, a, b)
    ensures Holds(Gt, a, b) <==> Holds(Lt, b, a)
    ensures Holds(Ge, a, b) <==> !Holds(Lt, a, b)
  {
  }

  /** Some leaf is NULL; an array read counts as a leaf, its subscript as another. */
  predicate NullLeaf(e: Expr, env: Env)
    requires Fits(e, env)
  {
    match e
    case Const(_, isnull, _) => isnull
    case Param(d, _, _) => env.vars(d).isnull
    case Unary(_, a) => NullLeaf(a, env)
    case Binary(_, l, r) => NullLeaf(l, env) || NullLeaf(r, env)
    case Relabel(a) => NullLeaf(a, env)
    case Elem(a, i, _) =>
      NullLeaf(i, env) || (Eval(i, env).Ok? && Eval(i, env).v.V? && ReadElem(env.arrays(a), Eval(i, env).v.n).Null?)
    case _ => true
  }

  /** Arithmetic operations in a tree. */
  function OpsIn(e: Expr): nat {
    match e
    case Unary(_, a) => OpsIn(a) + 1
    case Binary(f, l, r) => OpsIn(l) + OpsIn(r) + if f.Arith? || f.CrossArith? then 1 else 0
    case Relabel(a) => OpsIn(a)
    case Elem(_, i, _) => OpsIn(i)
    case _ => 0
  }

  /** Strictness: an evaluation that does not raise is NULL exactly when some leaf is. */
  lemma {:induction false} NullExactlyFromLeaves(e: Expr, env: Env)
    requires Fits(e, env) && Classify(e) != Unknown
    ensures Eval(e, env).Ok? ==> (Eval(e, env).v.Null? <==> NullLeaf(e, env))
  {
    match e
    case Unary(f, a) => NullExactlyFromLeaves(a, env);
    case Binary(f, l, r) =>
      NullExactlyFromLeaves(l, env);
      NullExactlyFromLeaves(r, env);
    case Relabel(a) => NullExactlyFromLeaves(a, env);
    case Elem(a, i, _) => NullExactlyFromLeaves(i, env);
    case _ =>
  }

  /** An integer result lies in the range of its class. */
  lemma {:induction false} ResultInRange(e: Expr, env: Env, w: Width)
    requires Fits(e, env) && Classify(e) == WidthClass(w)
    ensures Eval(e, env).Ok? && Eval(e, env).v.V? ==> InRange(w, Eval(e, env).v.n)
  {
    match e
    case Unary(f, a) => ResultInRange(a, env, w);
    case Binary(Arith(_, op), l, r) =>
      ResultInRange(l, env, w);
      ResultInRange(r, env, w);
      var x, y := Eval(l, env), Eval(r, env);
      if x.Ok? && x.v.V? && y.Ok? && y.v.V? && op.Mod? && y.v.n != 0 { RemRange(w, x.v.n, y.v.n); }
    case Relabel(a) => ResultInRange(a, env, w);
    case _ =>
  }
}
