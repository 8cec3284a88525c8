/** Comparisons, guarded values, assignments and conditions. */
module Tier1Stmts {
  import opened Cfg
  import opened Tier1Expr
  import opened Tier1Machine
  import opened Tier1Emit
  import opened Tier1Arith
  import opened Tier1Value
  import opened Tier1Nulls

  /** Boolean trees the emitter has a case for; it stops compilation on any other. */
  predicate BoolTree(e: Expr) {
    match e
    case Const(_, _, _) => true
    case Param(_, _, _) => true
    case Binary(f, l, r) => f.Cmp? || (f.BoolCmp? && BoolTree(l) && BoolTree(r))
    case _ => false
  }

  function EmitBool(b: Code, e: Expr): (r: (Code, Opnd))
    requires Open(b) && Classify(e) == CB && BoolTree(e)
    ensures Frame(b, r.0)
    decreases e
  {
    match e
    case Const(_, _, v) => (b, K(v))
    case Param(d, _, _) =>
      var b1 := Put(b, Bits(d));
      var b2 := Put(b1, Low1(R(b.next)));
      FrameTrans(b, b1, b2);
      (b2, R(b1.next))
    case Binary(f, l, r) =>
      var (b1, x) := if f.Cmp? then EmitInt(b, l) else EmitBool(b, l);
      var (b2, y) := if f.Cmp? then EmitInt(b1, r) else EmitBool(b1, r);
      FrameTrans(b, b1, b2);
      var b3 := Put(b2, Compare(if f.Cmp? then f.rel else if f.equal then Eq else Ne, x, y));
      FrameTrans(b, b2, b3);
      (b3, R(b2.next))
  }

  lemma {:induction false} BoolRuns(p: Prog, b: Code, e: Expr, s: State) returns (t: State)
    requires Here(b, s) && Classify(e) == CB && BoolTree(e) && Grows(EmitBool(b, e).0.blocks, p)
    requires Fits(e, s.env) && !NullLeaf(e, s.env)
    ensures var (c, o) := EmitBool(b, e); Delivers(p, b, c, o, s, t, Eval(e, s.env), OpsIn(e))
    decreases e
  {
    hide Grows, Frame, Reaches, EmitInt;
    Start(p, b, s);
    t := s;
    if e.Param? {
      var b1 := Put(b, Bits(e.dno));
      Back(b1, Put(b1, Low1(R(b.next))), p);
      t := PutNext(p, b, b, Bits(e.dno), s, s);
      t := PutNext(p, b, b1, Low1(R(b.next)), s, t);
    } else if e.Binary? {
      if e.fn.Cmp? { t := CmpRuns(p, b, e, s); } else { t := BoolCmpRuns(p, b, e, s); }
    }
  }

  lemma CmpRuns(p: Prog, b: Code, e: Expr, s: State) returns (t: State)
    requires e.Binary? && e.fn.Cmp? && Here(b, s) && Classify(e) == CB && Grows(EmitBool(b, e).0.blocks, p)
    requires Fits(e, s.env) && !NullLeaf(e, s.env)
    ensures var (c, o) := EmitBool(b, e); Delivers(p, b, c, o, s, t, Eval(e, s.env), OpsIn(e))
  {
    hide Grows, Frame, Reaches, EmitInt;
    var (b1, x) := EmitInt(b, e.left);
    Opens(b, b1);
    var (b2, y) := EmitInt(b1, e.right);
    Opens(b1, b2);
    var cmp := Compare(e.fn.rel, x, y);
    Back(b2, Put(b2, cmp), p); Back(b1, b2, p);
    t := IntRuns(p, b, e.left, s);
    if Eval(e.left, s.env).Ok? {
      var s1 := t;
      t := IntRuns(p, b1, e.right, s1);
      DeliversAfter(p, b, b1, b2, y, s, s1, t, Eval(e.right, s.env), OpsIn(e.left), OpsIn(e.right));
      if Eval(e.right, s.env).Ok? { t := PutNext(p, b, b2, cmp, s, t); }
    }
  }

  /** How a boolean comparison is taken apart. */
  lemma BoolCmpIs(b: Code, e: Expr)
    requires e.Binary? && !e.fn.Cmp? && Open(b) && Classify(e) == CB && BoolTree(e)
    ensures e.fn.BoolCmp? && Classify(e.left) == CB && Classify(e.right) == CB && BoolTree(e.left) && BoolTree(e.right)
    ensures var (b1, x) := EmitBool(b, e.left);
      && Open(b1)
      && var (b2, y) := EmitBool(b1, e.right);
      Open(b2) && EmitBool(b, e) == (Put(b2, Compare(if e.fn.equal then Eq else Ne, x, y)), R(b2.next))
  {
  }

  lemma {:induction false} BoolCmpRuns(p: Prog, b: Code, e: Expr, s: State) returns (t: State)
    requires e.Binary? && !e.fn.Cmp? && Here(b, s) && Classify(e) == CB && BoolTree(e)
    requires Grows(EmitBool(b, e).0.blocks, p)
    requires Fits(e, s.env) && !NullLeaf(e, s.env)
    ensures var (c, o) := EmitBool(b, e); Delivers(p, b, c, o, s, t, Eval(e, s.env), OpsIn(e))
    decreases e, 0
  {
    hide Grows, Frame, Reaches, EmitInt, EmitBool, Classify, BoolTree;
    BoolCmpIs(b, e);
    var (b1, x) := EmitBool(b, e.left);
    Opens(b, b1);
    var (b2, y) := EmitBool(b1, e.right);
    Opens(b1, b2);
    var cmp := Compare(if e.fn.equal then Eq else Ne, x, y);
    Back(b2, Put(b2, cmp), p); Back(b1, b2, p);
    t := BoolRuns(p, b, e.left, s);
    if Eval(e.left, s.env).Ok? {
      var s1 := t;
      t := BoolRuns(p, b1, e.right, s1);
      DeliversAfter(p, b, b1, b2, y, s, s1, t, Eval(e.right, s.env), OpsIn(e.left), OpsIn(e.right));
      if Eval(e.right, s.env).Ok? { t := PutNext(p, b, b2, cmp, s, t); }
    }
  }

  // ---- tier1_compile_value_guarded ----

  /** Value of e and its NULL flag, the value computed only on the path where no leaf is NULL. */
  function EmitGuarded(b: Code, e: Expr): (r: (Code, Opnd, Option<Opnd>))
    requires Open(b) && IsInt(Classify(e))
    ensures Frame(b, r.0)
  {
    var (b1, flag) := EmitAnyNull(b, e);
    if flag.None? then
      var (c, v) := EmitInt(b1, e);
      FrameTrans(b, b1, c);
      (c, v, None)
    else
      var fork := Fork(b1, flag.value, false);
      var (mid, v) := EmitInt(fork, e);
      var (c, o) := Meet(b1, flag.value, false, mid, v);
      FrameTrans(b, b1, c);
      (c, o, flag)
  }

  /** The NULL flag delivered with a value, false when the code has none. */
  ghost predicate FlagIs(flag: Option<Opnd>, c: Code, t: State, val: bool) {
    if flag.None? then !val else Live(flag.value, c.next, t) && Get(flag.value, t) == Bit(val)
  }

  /** Guarded code: NULL with no arithmetic performed if some leaf is NULL,
      otherwise the strict value or the strict error. */
  lemma GuardedCorrect(p: Prog, b: Code, e: Expr, s: State) returns (t: State)
    requires Here(b, s) && IsInt(Classify(e)) && PlainSubscripts(e) && Fits(e, s.env)
    requires Grows(EmitGuarded(b, e).0.blocks, p)
    ensures var (c, o, flag) := EmitGuarded(b, e);
      if NullLeaf(e, s.env) then Sofar(p, b, c, s, t) && FlagIs(flag, c, t, true) && t.ops == s.ops
      else Delivers(p, b, c, o, s, t, Eval(e, s.env), OpsIn(e)) && (t.Run? ==> FlagIs(flag, c, t, false))
  {
    hide Grows, Frame, Reaches, EmitInt, EmitAnyNull, Meet, Put;
    var (b1, flag) := EmitAnyNull(b, e);
    Opens(b, b1);
    if flag.None? {
      var (c, v) := EmitInt(b1, e);
      Back(b1, c, p);
      var s1 := AnyNullRuns(p, b, e, s);
      t := IntRuns(p, b1, e, s1);
      DeliversAfter(p, b, b1, c, v, s, s1, t, Eval(e, s.env), 0, OpsIn(e));
    } else {
      var fork := Fork(b1, flag.value, false);
      var (mid, v) := EmitInt(fork, e);
      var (c, o) := Meet(b1, flag.value, false, mid, v);
      Back(b1, c, p);
      var s1 := AnyNullRuns(p, b, e, s);
      var s2 := ForkRuns(p, b1, flag.value, false, mid, v, s1);
      t := s2;
      if !NullLeaf(e, s.env) {
        var s3 := IntRuns(p, fork, e, s2);
        ReachesTrans(p, s1, s2, s3);
        t := s3;
        if Eval(e, s.env).Ok? {
          Opens(fork, mid);
          t := MeetRuns(p, b1, flag.value, false, mid, v, s3);
          ReachesTrans(p, s1, s3, t);
        }
      }
      Opens(b1, c);
      if t.Run? {
        assert Sofar(p, b1, c, s1, t);
        SofarTrans(p, b, b1, c, s, s1, t);
      } else {
        ReachesTrans(p, s, s1, t);
      }
    }
  }

  // ---- uplpgsql_try_compile_assign, uplpgsql_try_compile_bool (Tier 1 parts) ----

  /** Branch on the flag: NULL path, value path, merge block; the builder stands in the value path. */
  function Split(b: Code, flag: Opnd): (c: Code)
    requires Open(b)
    ensures Open(c) && c.cur == |b.blocks| && End(c) == 0 && c.next == b.next && |c.blocks| == |b.blocks| + 3
  {
    var value, nul, merge := |b.blocks|, |b.blocks| + 1, |b.blocks| + 2;
    At(Close(NewBlock(NewBlock(NewBlock(b))), CondBr(flag, nul, value)), value)
  }

  /** Finish both paths (onNull runs on the NULL path) and stand in the merge block. */
  function Merge(b: Code, flag: Opnd, mid: Code, onNull: seq<Instr>): (c: Code)
    requires Open(b) && Frame(Split(b, flag), mid) && |onNull| <= 1
    ensures Frame(b, c) && c.next == mid.next && End(c) == 0
  {
    var value, nul, merge := |b.blocks|, |b.blocks| + 1, |b.blocks| + 2;
    var c1 := At(Close(mid, Br(merge)), nul);
    var c2 := if onNull == [] then c1 else Emit(c1, onNull[0]);
    At(Close(c2, Br(merge)), merge)
  }

  lemma SplitRuns(p: Prog, b: Code, flag: Opnd, mid: Code, onNull: seq<Instr>, s: State) returns (t: State)
    requires Here(b, s) && Frame(Split(b, flag), mid) && |onNull| <= 1 && Live(flag, b.next, s)
    requires onNull != [] ==> onNull[0].StoreNull?
    requires Grows(Merge(b, flag, mid, onNull).blocks, p)
    ensures Grows(mid.blocks, p) && Reaches(p, s, t) && t.Run? && t.regs == s.regs && t.ops == s.ops
    ensures Get(flag, s) != 1 ==> Here(Split(b, flag), t) && t.env == s.env
    ensures Get(flag, s) == 1 ==> Here(Merge(b, flag, mid, onNull), t) && t.prev == |b.blocks| + 1
    ensures Get(flag, s) == 1 ==> t.env == if onNull == [] then s.env else SetVar(s.env, onNull[0].dno, Slot(true, 0))
  {
    hide Reaches, SetVar;
    var nul, merge := |b.blocks| + 1, |b.blocks| + 2;
    var c := Merge(b, flag, mid, onNull);
    GrowsTrans(mid.blocks, c.blocks, p);
    assert p[b.cur] == Split(b, flag).blocks[b.cur];
    t := Step(p, s);
    OneStep(p, s);
    if Get(flag, s) == 1 {
      assert c.blocks[nul] == BB(onNull, Some(Br(merge)));
      assert p[nul] == c.blocks[nul];
      if onNull != [] {
        OneStep(p, t);
        ReachesTrans(p, s, t, Step(p, t));
        t := Step(p, t);
      }
      OneStep(p, t);
      ReachesTrans(p, s, t, Step(p, t));
      t := Step(p, t);
    }
  }

  lemma MergeRuns(p: Prog, b: Code, flag: Opnd, mid: Code, onNull: seq<Instr>, s: State) returns (t: State)
    requires Open(b) && Frame(Split(b, flag), mid) && |onNull| <= 1 && Here(mid, s)
    requires Grows(Merge(b, flag, mid, onNull).blocks, p)
    ensures Reaches(p, s, t) && Here(Merge(b, flag, mid, onNull), t)
    ensures t == Goto(s, |b.blocks| + 2)
  {
    var c := Merge(b, flag, mid, onNull);
    assert c.blocks[mid.cur] == BB(mid.blocks[mid.cur].code, Some(Br(|b.blocks| + 2)));
    assert p[mid.cur] == c.blocks[mid.cur];
    t := Step(p, s);
    OneStep(p, s);
  }

  /** Compute an int4/int8 tree and store it. */
  function EmitStore(b: Code, d: nat, e: Expr): (c: Code)
    requires Open(b) && IsInt(Classify(e))
    ensures Frame(b, c)
  {
    var (b1, v) := EmitInt(b, e);
    var c := Emit(b1, StoreVal(d, v));
    assert Frame(b1, c);
    FrameTrans(b, b1, c);
    c
  }

  /** Assignment of an int4/int8 tree to a variable of that type. */
  function EmitAssign(b: Code, d: nat, e: Expr): (c: Code)
    requires Open(b) && IsInt(Classify(e))
    ensures Frame(b, c)
  {
    var (b1, flag) := EmitAnyNull(b, e);
    var c := if flag.None? then EmitStore(b1, d, e)
             else Merge(b1, flag.value, EmitStore(Split(b1, flag.value), d, e), [StoreNull(d)]);
    FrameTrans(b, b1, c);
    c
  }

  lemma StoreRuns(p: Prog, b: Code, d: nat, v: Opnd, s: State) returns (t: State)
    requires Here(b, s) && Live(v, b.next, s) && Grows(Emit(b, StoreVal(d, v)).blocks, p)
    ensures Reaches(p, s, t) && Here(Emit(b, StoreVal(d, v)), t)
    ensures t.Run? && t.env == SetVar(s.env, d, Slot(false, Get(v, s))) && t.ops == s.ops
  {
    assert Emit(b, StoreVal(d, v)).blocks[b.cur].code[s.pc] == StoreVal(d, v);
    assert p[b.cur].code[s.pc] == StoreVal(d, v);
    t := Step(p, s);
    OneStep(p, s);
  }

  lemma StoreGrows(b: Code, b1: Code, d: nat, v: Opnd, p: Prog)
    requires Frame(b, b1) && Grows(Emit(b1, StoreVal(d, v)).blocks, p)
    ensures Grows(b1.blocks, p) && Open(b1)
  {
    assert Frame(b1, Emit(b1, StoreVal(d, v)));
    Back(b1, Emit(b1, StoreVal(d, v)), p);
  }

  lemma StoreIntRuns(p: Prog, b: Code, d: nat, e: Expr, s: State) returns (t: State)
    requires Here(b, s) && IsInt(Classify(e)) && Fits(e, s.env) && !NullLeaf(e, s.env)
    requires Grows(EmitStore(b, d, e).blocks, p)
    ensures Reaches(p, s, t)
    ensures match Eval(e, s.env)
      case Ok(v) =>
        v.V? && Here(EmitStore(b, d, e), t) && t.env == SetVar(s.env, d, Slot(false, v.n)) && t.ops == s.ops + OpsIn(e)
      case Err(k) => t.Raised? && t.error == k
  {
    hide Grows, Frame, Reaches, EmitInt, Emit, SetVar;
    var (b1, v) := EmitInt(b, e);
    StoreGrows(b, b1, d, v, p);
    NullExactlyFromLeaves(e, s.env);
    t := IntRuns(p, b, e, s);
    if Eval(e, s.env).Ok? {
      var s1 := t;
      t := StoreRuns(p, b1, d, v, s1);
      ReachesTrans(p, s, s1, t);
    }
  }

  /** No variable but d, and no array, changed. */
  ghost predicate OnlyChanged(was: Env, now: Env, d: nat) {
    now.arrays == was.arrays && now.stray == was.stray && forall x :: x != d ==> now.vars(x) == was.vars(x)
  }

  lemma SetVarIs(env: Env, d: nat, slot: Slot)
    ensures OnlyChanged(env, SetVar(env, d, slot), d) && SetVar(env, d, slot).vars(d) == slot
  {
  }

  /** The compiled assignment stores what strict evaluation yields whenever that does not raise;
      with no NULL leaf it raises the same error; with one it stores NULL and performs no arithmetic. */
  lemma AssignCorrect(p: Prog, b: Code, d: nat, e: Expr, s: State) returns (t: State)
    requires Here(b, s) && IsInt(Classify(e)) && PlainSubscripts(e) && Fits(e, s.env)
    requires Grows(EmitAssign(b, d, e).blocks, p)
    ensures Reaches(p, s, t)
    ensures NullLeaf(e, s.env) ==>
      Here(EmitAssign(b, d, e), t) && t.env == SetVar(s.env, d, Slot(true, 0)) && t.ops == s.ops
    ensures !NullLeaf(e, s.env) ==>
      match Eval(e, s.env)
      case Ok(v) =>
        v.V? && Here(EmitAssign(b, d, e), t) && t.env == SetVar(s.env, d, Slot(false, v.n)) && t.ops == s.ops + OpsIn(e)
      case Err(k) => t.Raised? && t.error == k
    ensures Eval(e, s.env).Ok? ==> t.Run? && t.env.vars(d).isnull == Eval(e, s.env).v.Null?
    ensures t.Run? ==> OnlyChanged(s.env, t.env, d)
    ensures t.Run? && !t.env.vars(d).isnull ==> Eval(e, s.env) == Ok(V(t.env.vars(d).bits))
  {
    hide Grows, Frame, Reaches, EmitStore, EmitAnyNull, Merge, Put, SetVar;
    NullExactlyFromLeaves(e, s.env);
    forall slot ensures OnlyChanged(s.env, SetVar(s.env, d, slot), d) && SetVar(s.env, d, slot).vars(d) == slot {
      SetVarIs(s.env, d, slot);
    }
    var (b1, flag) := EmitAnyNull(b, e);
    Opens(b, b1);
    Back(b1, EmitAssign(b, d, e), p);
    var s1 := AnyNullRuns(p, b, e, s);
    if flag.None? {
      t := StoreIntRuns(p, b1, d, e, s1);
    } else {
      var split := Split(b1, flag.value);
      var mid := EmitStore(split, d, e);
      t := SplitRuns(p, b1, flag.value, mid, [StoreNull(d)], s1);
      if !NullLeaf(e, s.env) {
        var s2 := t;
        t := StoreIntRuns(p, split, d, e, s2);
        ReachesTrans(p, s1, s2, t);
        if t.Run? {
          var s3 := t;
          t := MergeRuns(p, b1, flag.value, mid, [StoreNull(d)], s3);
          ReachesTrans(p, s1, s3, t);
        }
      }
    }
    ReachesTrans(p, s, s1, t);
  }

  /** How an assignment ends. */
  datatype Assigned = Stored(env: Env) | NullRefused | Failed(error: Error)

  /** The interpreter's assignment: evaluate strictly, refuse NULL for a variable declared NOT NULL, store. */
  function Interpreted(e: Expr, env: Env, d: nat, notnull: bool): Assigned
    requires Fits(e, env)
  {
    match Eval(e, env)
    case Err(k) => Failed(k)
    case Ok(Null) => if notnull then NullRefused else Stored(SetVar(env, d, Slot(true, 0)))
    case Ok(V(n)) => Stored(SetVar(env, d, Slot(false, n)))
  }

  /** The compiled assignment ends as the interpreter's exactly unless some leaf is NULL and either the variable is
      declared NOT NULL, which compiled code does not test, or evaluation raises before it comes to the NULL. */
  lemma AssignExact(p: Prog, b: Code, d: nat, e: Expr, s: State, notnull: bool) returns (t: State)
    requires Here(b, s) && IsInt(Classify(e)) && PlainSubscripts(e) && Fits(e, s.env)
    requires Grows(EmitAssign(b, d, e).blocks, p)
    ensures Reaches(p, s, t) && (t.Run? || t.Raised?)
    ensures (if t.Run? then Stored(t.env) else Failed(t.error)) == Interpreted(e, s.env, d, notnull) <==>
      !(NullLeaf(e, s.env) && (notnull || Eval(e, s.env).Err?))
  {
    hide EmitAssign, Grows, Reaches, SetVar;
    NullExactlyFromLeaves(e, s.env);
    t := AssignCorrect(p, b, d, e, s);
  }

  /** x NULL: the compiled x assigned to a NOT NULL variable makes it NULL, where the interpreter refuses. */
  lemma NullStored(p: Prog, b: Code, d: nat, x: nat, s: State) returns (t: State)
    requires Here(b, s) && s.env.vars(x).isnull && InRange(W8, s.env.vars(x).bits)
    requires Grows(EmitAssign(b, d, Param(x, Int4, true)).blocks, p)
    ensures Reaches(p, s, t) && t.Run? && t.env.vars(d).isnull
    ensures Interpreted(Param(x, Int4, true), s.env, d, true) == NullRefused
  {
    hide EmitAssign, Grows, Reaches;
    t := AssignCorrect(p, b, d, Param(x, Int4, true), s);
  }

  /** 1 / 0 + x. */
  function ErrorBefore(x: nat): (e: Expr)
    ensures IsInt(Classify(e))
  {
    Binary(Arith(W4, Add), ByZero(), Param(x, Int4, true))
  }

  function ByZero(): (e: Expr)
    ensures Classify(e) == C4
  {
    Binary(Arith(W4, Div), Const(Int4, false, 1), Const(Int4, false, 0))
  }

  lemma ErrorFirst(x: nat, env: Env)
    requires env.vars(x).isnull && Fits(ErrorBefore(x), env)
    ensures PlainSubscripts(ErrorBefore(x)) && NullLeaf(ErrorBefore(x), env)
    ensures Eval(ErrorBefore(x), env) == Err(DivisionByZero)
  {
    assert Eval(ByZero(), env) == Err(DivisionByZero);
    assert PlainSubscripts(ByZero());
  }

  /** x NULL: the compiled 1 / 0 + x is NULL, the interpreted one an error. */
  lemma ErrorPassedOver(p: Prog, b: Code, d: nat, x: nat, s: State) returns (t: State)
    requires Here(b, s) && s.env.vars(x).isnull && Fits(ErrorBefore(x), s.env)
    requires Grows(EmitAssign(b, d, ErrorBefore(x)).blocks, p)
    ensures Reaches(p, s, t) && t.Run? && t.env.vars(d).isnull
    ensures Interpreted(ErrorBefore(x), s.env, d, false) == Failed(DivisionByZero)
  {
    hide EmitAssign, Grows, Reaches, ErrorBefore, Fits, NullLeaf, Eval, Classify, PlainSubscripts;
    ErrorFirst(x, s.env);
    t := AssignCorrect(p, b, d, ErrorBefore(x), s);
  }

  /** A condition whose NULL test is already emitted: false on the NULL path. */
  function EmitMaybe(b: Code, flag: Option<Opnd>, e: Expr): (r: (Code, Opnd))
    requires Open(b) && Classify(e) == CB && BoolTree(e)
    ensures Frame(b, r.0)
  {
    if flag.None? then EmitBool(b, e)
    else
      var (mid, v) := EmitBool(Split(b, flag.value), e);
      var c := Merge(b, flag.value, mid, []);
      var r := Put(c, Phi(mid.cur, v, |b.blocks| + 1, K(0)));
      FrameTrans(b, c, r);
      (r, R(c.next))
  }

  /** Condition of IF, WHILE and EXIT WHEN. */
  function EmitCond(b: Code, e: Expr): (r: (Code, Opnd))
    requires Open(b) && Classify(e) == CB && BoolTree(e)
    ensures Frame(b, r.0)
  {
    var (b1, flag) := EmitAnyNull(b, e);
    var r := EmitMaybe(b1, flag, e);
    FrameTrans(b, b1, r.0);
    r
  }

  /** The condition is true exactly when strict evaluation gives true; a NULL leaf makes it false. */
  lemma CondCorrect(p: Prog, b: Code, e: Expr, s: State) returns (t: State)
    requires Here(b, s) && Classify(e) == CB && BoolTree(e) && PlainSubscripts(e) && Fits(e, s.env)
    requires Grows(EmitCond(b, e).0.blocks, p)
    ensures Reaches(p, s, t)
    ensures NullLeaf(e, s.env) ==> t.Run? && t.ops == s.ops
    ensures !NullLeaf(e, s.env) && Eval(e, s.env).Err? ==> t.Raised? && t.error == Eval(e, s.env).e
    ensures t.Run? ==> var (c, o) := EmitCond(b, e);
      Here(c, t) && t.env == s.env && Live(o, c.next, t) &&
      (Get(o, t) == 1 <==> Eval(e, s.env) == Ok(V(1)) && !NullLeaf(e, s.env))
    ensures Eval(e, s.env).Ok? ==> t.Run?
  {
    hide Grows, Frame, Reaches, EmitBool, EmitAnyNull, Merge, Put;
    NullExactlyFromLeaves(e, s.env);
    var (b1, flag) := EmitAnyNull(b, e);
    Opens(b, b1);
    Back(b1, EmitMaybe(b1, flag, e).0, p);
    var s1 := AnyNullRuns(p, b, e, s);
    if flag.None? {
      t := BoolRuns(p, b1, e, s1);
    } else {
      t := CondGuardedRuns(p, b1, flag.value, e, s1);
    }
    ReachesTrans(p, s, s1, t);
  }

  lemma CondGuardedRuns(p: Prog, b: Code, flag: Opnd, e: Expr, s: State) returns (t: State)
    requires Here(b, s) && Classify(e) == CB && BoolTree(e) && Fits(e, s.env)
    requires Live(flag, b.next, s) && Get(flag, s) == Bit(NullLeaf(e, s.env))
    requires Grows(EmitMaybe(b, Some(flag), e).0.blocks, p)
    ensures Reaches(p, s, t)
    ensures NullLeaf(e, s.env) ==> t.Run? && t.ops == s.ops
    ensures !NullLeaf(e, s.env) ==> Eval(e, s.env) != Ok(Null)
    ensures !NullLeaf(e, s.env) && Eval(e, s.env).Err? ==> t.Raised? && t.error == Eval(e, s.env).e
    ensures !NullLeaf(e, s.env) && Eval(e, s.env).Ok? ==> t.Run?
    ensures t.Run? ==> var (c, o) := EmitMaybe(b, Some(flag), e);
      Here(c, t) && t.env == s.env && Live(o, c.next, t) &&
      Get(o, t) == if NullLeaf(e, s.env) then 0 else Eval(e, s.env).v.n
  {
    hide Grows, Frame, Reaches, EmitBool, Merge;
    var split := Split(b, flag);
    var (mid, v) := EmitBool(split, e);
    Opens(split, mid);
    var c := Merge(b, flag, mid, []);
    Opens(b, c);
    var phi := Phi(mid.cur, v, |b.blocks| + 1, K(0));
    Back(c, Put(c, phi), p);
    NullExactlyFromLeaves(e, s.env);
    t := SplitRuns(p, b, flag, mid, [], s);
    if !NullLeaf(e, s.env) {
      var s2 := t;
      t := BoolRuns(p, split, e, s2);
      ReachesTrans(p, s, s2, t);
      if t.Run? {
        var s3 := t;
        t := MergeRuns(p, b, flag, mid, [], s3);
        ReachesTrans(p, s, s3, t);
      }
    }
    if t.Run? {
      MidIsNotNullBlock(b, flag, mid);
      var s4 := t;
      t := PutRuns(p, c, phi, s4);
      ReachesTrans(p, s, s4, t);
    }
  }

  lemma MidIsNotNullBlock(b: Code, flag: Opnd, mid: Code)
    requires Open(b) && Frame(Split(b, flag), mid)
    ensures mid.cur != |b.blocks| + 1
  {
  }
}
