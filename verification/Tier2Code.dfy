/** Straight-line code for Tier 2 and the machine that runs it. */
module Tier2Code {
  import opened Cfg
  import opened Tier2Expr

  /** Every instruction defines the register with its own number.  CallFn stores the arguments and calls;
      RetNull reads the callee's NULL flag back.  CondBr goes to the skip block when its register is set, else to
      the call block; InCall(i) is an instruction of the call block; both blocks lead to the one with the phis,
      which take the constant from the skip block and the register from the call block. */
  datatype Instr =
    | Lit(n: nat) | LoadDatum(dno: nat) | LoadNull(dno: nat)
    | Trunc(r: nat) | Not1(r: nat) | And1(r: nat, s: nat) | Or1(r: nat, s: nat)
    | CallFn(fn: Fn, vals: seq<nat>, nulls: seq<nat>) | RetNull
    | CondBr(r: nat) | InCall(i: Instr) | Phi(skip: nat, r: nat)
    | Enter | Leave
    | StoreByVal(target: nat, p: Pair) | StoreCopy(target: nat, p: Pair) | StoreCopyLeave(target: nat, p: Pair)

  /** Registers of a value and of its NULL flag. */
  datatype Pair = Pair(val: nat, nul: nat)

  type Code = seq<Instr>

  datatype Home = Durable | Scope

  /** Registers, the last call's NULL flag, whether the last branch went to the skip block, the current memory
      context, scopes entered minus left, the context each variable's Datum was allocated in, the arrays
      marshalled and the values stored.  `misused` records that a strict function was called with a NULL, `raised`
      that a function raised: nothing is executed after that. */
  datatype State = State(regs: seq<nat>, ret: nat, skipped: bool, cur: Home, depth: int, homes: map<nat, Home>,
                         marshalled: set<nat>, stored: map<nat, Value>, misused: bool, raised: bool)

  function Reg(s: State, r: nat): nat { if r < |s.regs| then s.regs[r] else 0 }

  function Bit(b: bool): nat { if b then 1 else 0 }

  function Args(s: State, vals: seq<nat>, nulls: seq<nat>): (vs: seq<Value>)
    ensures |vs| == |vals|
  {
    seq(|vals|, k requires 0 <= k < |vals| => Value(Reg(s, vals[k]), k < |nulls| && Reg(s, nulls[k]) == 1))
  }

  /** The context a variable's Datum lies in. */
  function HomeOf(s: State, d: nat): Home { if d in s.homes then s.homes[d] else Durable }

  /** Resetting the scope strands every Datum allocated in it. */
  ghost predicate Dangling(s: State) { exists d :: HomeOf(s, d) == Scope }

  function ValueIn(s: State, p: Pair): Value { Value(Reg(s, p.val), Reg(s, p.nul) == 1) }

  function Put(s: State, n: nat): State { s.(regs := s.regs + [n]) }

  /** A native array is marshalled in the current context, and its variable points there. */
  function Synced(s: State, d: nat, natives: set<nat>): State {
    if d in natives then s.(homes := s.homes[d := s.cur], marshalled := s.marshalled + {d}) else s
  }

  function Step(i: Instr, s: State, env: Env, natives: set<nat>): (t: State)
    ensures |t.regs| == |s.regs| + 1
    ensures s.raised ==> t == Put(s, 0)
  {
    if s.raised then Put(s, 0) else
    match i
    case Lit(n) => Put(s, n)
    case LoadDatum(d) => Put(Synced(s, d, natives), env(d).bits)
    case LoadNull(d) => Put(Synced(s, d, natives), Bit(env(d).isnull))
    case Trunc(r) => Put(s, Reg(s, r) % 2)
    case Not1(r) => Put(s, 1 - Reg(s, r) % 2)
    case And1(r, t) => Put(s, Bit(Reg(s, r) == 1 && Reg(s, t) == 1))
    case Or1(r, t) => Put(s, Bit(Reg(s, r) == 1 || Reg(s, t) == 1))
    case CallFn(fn, vals, nulls) =>
      var vs := Args(s, vals, nulls);
      var r, t := fn.apply(vs), s.(misused := s.misused || (fn.strict && AnyNull(vs)));
      if r.Raises? then Put(t.(raised := true), 0) else Put(t.(ret := Bit(r.v.isnull)), r.v.bits)
    case RetNull => Put(s, s.ret)
    case CondBr(r) => Put(s.(skipped := Reg(s, r) == 1), 0)
    case InCall(i') => if s.skipped then Put(s, 0) else Step(i', s, env, natives)
    case Phi(k, r) => Put(s, if s.skipped then k else Reg(s, r))
    case Enter => Put(s.(cur := Scope, depth := s.depth + 1), 0)
    case Leave => Put(s.(cur := Durable, depth := s.depth - 1), 0)
    case StoreByVal(d, p) => Put(s.(stored := s.stored[d := ValueIn(s, p)]), 0)
    case StoreCopy(d, p) => Put(s.(homes := s.homes[d := s.cur], stored := s.stored[d := ValueIn(s, p)]), 0)
    case StoreCopyLeave(d, p) =>
      Put(s.(cur := Durable, depth := s.depth - 1, homes := s.homes[d := Durable],
             stored := s.stored[d := ValueIn(s, p)]), 0)
  }

  function Run(code: Code, s: State, env: Env, natives: set<nat>): State {
    if code == [] then s else Step(code[|code| - 1], Run(code[..|code| - 1], s, env, natives), env, natives)
  }

  lemma RunLast(code: Code, i: Instr, s: State, env: Env, natives: set<nat>)
    ensures Run(code + [i], s, env, natives) == Step(i, Run(code, s, env, natives), env, natives)
  {
    assert (code + [i])[..|code|] == code;
  }

  lemma {:induction false} RegCount(code: Code, s: State, env: Env, natives: set<nat>)
    ensures |Run(code, s, env, natives).regs| == |s.regs| + |code|
    decreases |code|
  {
    hide Step;
    if code != [] { RegCount(code[..|code| - 1], s, env, natives); }
  }

  // ---- the compiler ----

  /** Code so far, and the result if compilation did not give up. */
  datatype Emitted<T> = Emitted(code: Code, result: Option<T>)

  function Compile(e: Expr, code: Code): (r: Emitted<Pair>)
    ensures code <= r.code
    decreases e
  {
    var n := |code|;
    match e
    case Const(v) => Emitted(code + [Lit(Bit(v.isnull))] + [Lit(if v.isnull then 0 else v.bits)], Some(Pair(n + 1, n)))
    case Param(d) => Emitted(code + [LoadNull(d)] + [LoadDatum(d)], Some(Pair(n + 1, n)))
    case Relabel(a) => Compile(a, code)
    case Call(fn, args) =>
      if fn.poly then Emitted(code, None)
      else
        var r := CompileArgs(args, code);
        if r.result.None? then Emitted(r.code, None)
        else
          var (more, p) := CallCode(fn, |r.code|, r.result.value);
          Emitted(r.code + more, Some(p))
    case Bool(op, args) => CompileBool(op, args, code)
    case Other => Emitted(code, None)
  }

  function Vals(ps: seq<Pair>): (r: seq<nat>)
    ensures |r| == |ps|
  {
    seq(|ps|, k requires 0 <= k < |ps| => ps[k].val)
  }

  function Nulls(ps: seq<Pair>): (r: seq<nat>)
    ensures |r| == |ps|
  {
    seq(|ps|, k requires 0 <= k < |ps| => ps[k].nul)
  }

  /** OR of the NULL flags nuls into register acc, from register n on. */
  function OrCode(n: nat, acc: nat, nuls: seq<nat>): (more: Code)
    ensures |more| == |nuls|
    decreases |nuls|
  {
    if nuls == [] then [] else [Or1(acc, nuls[0])] + OrCode(n + 1, n, nuls[1..])
  }

  /** The call of fn on arguments in registers ps, from register n on: a strict function with arguments is
      branched around when one of them is NULL. */
  function CallCode(fn: Fn, n: nat, ps: seq<Pair>): (Code, Pair) {
    if !fn.strict || ps == [] then ([CallFn(fn, Vals(ps), Nulls(ps))] + [RetNull], Pair(n, n + 1))
    else
      var any := n + |ps|;
      ([Lit(0)] + OrCode(n + 1, n, Nulls(ps)) + [CondBr(any)] + StrictCode(fn, any, ps), Pair(any + 4, any + 5))
  }

  /** The call block, and the phis behind it; the branch is instruction any + 1. */
  function StrictCode(fn: Fn, any: nat, ps: seq<Pair>): Code {
    [InCall(CallFn(fn, Vals(ps), Nulls(ps)))] + [InCall(RetNull)] + [Phi(0, any + 2)] + [Phi(1, any + 3)]
  }

  function CompileArgs(es: Exprs, code: Code): (r: Emitted<seq<Pair>>)
    ensures code <= r.code
    decreases es, 0
  {
    if es.Nil? then Emitted(code, Some([]))
    else
      var h := Compile(es.head, code);
      if h.result.None? then Emitted(h.code, None)
      else
        var t := CompileArgs(es.tail, h.code);
        Emitted(t.code, if t.result.None? then None else Some([h.result.value] + t.result.value))
  }

  function CompileBool(op: Op, es: Exprs, code: Code): (r: Emitted<Pair>)
    ensures code <= r.code
    decreases es, 1
  {
    if op.NotOp? then
      if es.Nil? then Emitted(code, None)
      else
        var h := Compile(es.head, code);
        if h.result.None? then Emitted(h.code, None)
        else
          var m := |h.code|;
          Emitted(h.code + [Trunc(h.result.value.val)] + [Not1(m)], Some(Pair(m + 1, h.result.value.nul)))
    else
      var n := |code|;
      var r := Fold(op, es, code + [Lit(Bit(op.AndOp?))] + [Lit(0)] + [Lit(0)], Acc(n, n + 1, n + 2));
      if r.result.None? then Emitted(r.code, None)
      else
        var m := |r.code|;
        Emitted(r.code + [Not1(r.result.value.decided)] + [And1(r.result.value.anyNull, m)],
            Some(Pair(r.result.value.bits, m + 1)))
  }

  /** Registers of the running fold: the bitwise result, "some input was NULL", "some input decides". */
  datatype Acc = Acc(bits: nat, anyNull: nat, decided: nat)

  /** Combine one compiled operand into the running fold. */
  function FoldOne(op: Op, code: Code, p: Pair, a: Acc): (r: (Code, Acc))
    ensures code <= r.0
  {
    var n := |code|;
    var combine := if op.AndOp? then And1(a.bits, n) else Or1(a.bits, n);
    var decides := if op.AndOp? then Not1(n) else Trunc(n);
    (code + [Trunc(p.val)] + [combine] + [Or1(a.anyNull, p.nul)] +
     [Not1(p.nul)] + [decides] + [And1(n + 3, n + 4)] + [Or1(a.decided, n + 5)],
     Acc(n + 1, n + 2, n + 6))
  }

  function Fold(op: Op, es: Exprs, code: Code, a: Acc): (r: Emitted<Acc>)
    ensures code <= r.code
    decreases es, 0
  {
    if es.Nil? then Emitted(code, Some(a))
    else
      var h := Compile(es.head, code);
      if h.result.None? then Emitted(h.code, None)
      else
        var (code1, a1) := FoldOne(op, h.code, h.result.value, a);
        Fold(op, es.tail, code1, a1)
  }

  // ---- which trees compile ----

  /** NOT has one operand. */
  predicate Unary(n: Expr) { n.Bool? && n.op.NotOp? ==> n.operands.Cons? && n.operands.tail.Nil? }

  /** A node compilation gives up on. */
  predicate GivesUp(n: Expr) { n.Other? || (n.Call? && n.fn.poly) }

  ghost predicate AllUnary(ns: seq<Expr>) { forall n <- ns :: Unary(n) }
  ghost predicate NoneGivesUp(ns: seq<Expr>) { forall n <- ns :: !GivesUp(n) }

  lemma Both(ns: seq<Expr>, ms: seq<Expr>)
    ensures AllUnary(ns + ms) <==> AllUnary(ns) && AllUnary(ms)
    ensures NoneGivesUp(ns + ms) <==> NoneGivesUp(ns) && NoneGivesUp(ms)
  {
    assert forall n :: n in ns + ms <==> n in ns || n in ms;
  }

  lemma Single(e: Expr)
    ensures (AllUnary([e]) <==> Unary(e)) && (NoneGivesUp([e]) <==> !GivesUp(e))
  {
    assert e in [e];
  }

  /** Compilation succeeds exactly for trees without a polymorphic function and without unknown nodes. */
  lemma {:induction false} CompilesExactly(e: Expr, code: Code)
    requires AllUnary(Nodes(e))
    ensures Compile(e, code).result.Some? <==> NoneGivesUp(Nodes(e))
    decreases e, 1
  {
    hide AllUnary, NoneGivesUp, FoldOne, CallCode;
    Single(e);
    assert [e] + [] == [e];
    match e
    case Relabel(a) => Both([e], Nodes(a)); CompilesExactly(a, code);
    case Call(fn, args) => Both([e], AllNodes(args)); ArgsCompileExactly(args, code);
    case Bool(op, args) =>
      Both([e], AllNodes(args));
      if op.NotOp? {
        assert AllNodes(args.tail) == [];
        assert AllNodes(args) == Nodes(args.head) + [] == Nodes(args.head);
        CompilesExactly(args.head, code);
      } else {
        var n := |code|;
        FoldCompilesExactly(op, args, code + [Lit(Bit(op.AndOp?))] + [Lit(0)] + [Lit(0)], Acc(n, n + 1, n + 2));
      }
    case _ =>
  }

  lemma {:induction false} ArgsCompileExactly(es: Exprs, code: Code)
    requires AllUnary(AllNodes(es))
    ensures CompileArgs(es, code).result.Some? <==> NoneGivesUp(AllNodes(es))
    decreases es, 0
  {
    hide Compile, Nodes;
    if es.Cons? {
      Both(Nodes(es.head), AllNodes(es.tail));
      CompilesExactly(es.head, code);
      ArgsCompileExactly(es.tail, Compile(es.head, code).code);
    }
  }

  lemma {:induction false} FoldCompilesExactly(op: Op, es: Exprs, code: Code, a: Acc)
    requires AllUnary(AllNodes(es))
    ensures Fold(op, es, code, a).result.Some? <==> NoneGivesUp(AllNodes(es))
    decreases es, 0
  {
    hide Compile, Nodes, FoldOne;
    if es.Cons? {
      Both(Nodes(es.head), AllNodes(es.tail));
      CompilesExactly(es.head, code);
      var h := Compile(es.head, code);
      if h.result.Some? {
        var (code1, a1) := FoldOne(op, h.code, h.result.value, a);
        FoldCompilesExactly(op, es.tail, code1, a1);
      }
    }
  }

  // ---- the code computes the meaning ----

  /** Registers p show v, whatever bits a NULL comes with. */
  ghost predicate Shows(s: State, p: Pair, v: Value) {
    p.val < |s.regs| && p.nul < |s.regs| && s.regs[p.nul] == Bit(v.isnull) && (v.isnull || s.regs[p.val] == v.bits)
  }

  ghost predicate AllShow(s: State, ps: seq<Pair>, vs: seq<Value>) {
    |ps| == |vs| && forall k :: 0 <= k < |ps| ==> Shows(s, ps[k], vs[k])
  }

  /** The code raised as v says, or registers p show what v yields. */
  ghost predicate Yields(s: State, p: Pair, v: Ev<Value>) {
    if v.Raises? then s.raised else !s.raised && Shows(s, p, v.v)
  }

  /** u goes on from t: registers keep their values, and no strict function was called on a NULL. */
  ghost predicate Onward(t: State, u: State) { t.regs <= u.regs && u.misused == t.misused && (t.raised ==> u.raised) }

  /** A machine that has run code, registers numbered from 0. */
  function After(code: Code, s: State, env: Env, natives: set<nat>): (t: State)
    requires s.regs == []
    ensures |t.regs| == |code|
  {
    RegCount(code, s, env, natives);
    Run(code, s, env, natives)
  }

  lemma AfterLast(code: Code, i: Instr, s: State, env: Env, natives: set<nat>)
    requires s.regs == []
    ensures After(code + [i], s, env, natives) == Step(i, After(code, s, env, natives), env, natives)
  {
    RunLast(code, i, s, env, natives);
  }

  /** After an error nothing happens. */
  lemma {:induction false} NothingAfter(code: Code, more: Code, s: State, env: Env, natives: set<nat>)
    requires s.regs == [] && code <= more && After(code, s, env, natives).raised
    ensures var t, u := After(code, s, env, natives), After(more, s, env, natives);
      t.regs <= u.regs && u == t.(regs := u.regs)
    decreases |more|
  {
    hide Step, Run, After;
    if code != more {
      var c, i := more[..|more| - 1], more[|more| - 1];
      assert more == c + [i];
      NothingAfter(code, c, s, env, natives);
      AfterLast(c, i, s, env, natives);
    }
  }

  lemma {:induction false} CompileRuns(e: Expr, code: Code, s: State, env: Env, natives: set<nat>)
    requires s.regs == [] && Typed(e, env) && !After(code, s, env, natives).raised
    ensures var r := Compile(e, code);
      var t := After(r.code, s, env, natives);
      Onward(After(code, s, env, natives), t) && (r.result.Some? ==> Yields(t, r.result.value, Eval(false, e, env)))
    decreases e
  {
    match e
    case Const(v) =>
      AfterLast(code, Lit(Bit(v.isnull)), s, env, natives);
      AfterLast(code + [Lit(Bit(v.isnull))], Lit(if v.isnull then 0 else v.bits), s, env, natives);
    case Param(d) =>
      AfterLast(code, LoadNull(d), s, env, natives);
      AfterLast(code + [LoadNull(d)], LoadDatum(d), s, env, natives);
    case Relabel(a) => CompileRuns(a, code, s, env, natives);
    case Call(_, _) => CallRuns(e, code, s, env, natives);
    case Bool(op, args) => BoolRuns(op, args, code, s, env, natives);
    case Other =>
  }

  lemma {:induction false} CallRuns(e: Expr, code: Code, s: State, env: Env, natives: set<nat>)
    requires e.Call? && s.regs == [] && Typed(e, env) && !After(code, s, env, natives).raised
    ensures var r := Compile(e, code);
      var t := After(r.code, s, env, natives);
      Onward(After(code, s, env, natives), t) && (r.result.Some? ==> Yields(t, r.result.value, Eval(false, e, env)))
    decreases e, 0
  {
    hide Run, After, CompileArgs, EvalAll, AllTyped, CallCode, Apply;
    if !e.fn.poly {
      ArgsRun(e.args, code, s, env, natives);
      var r, vs := CompileArgs(e.args, code), EvalAll(false, e.args, env);
      if r.result.Some? {
        if vs.Raises? { NothingAfter(r.code, Compile(e, code).code, s, env, natives); }
        else { CallEnds(e.fn, r.code, r.result.value, vs.v, s, env, natives); }
      }
    }
  }

  /** The call itself, on arguments already in registers. */
  lemma CallEnds(fn: Fn, code: Code, ps: seq<Pair>, vs: seq<Value>, s: State, env: Env, natives: set<nat>)
    requires s.regs == [] && Blind(fn) && AllShow(After(code, s, env, natives), ps, vs)
    requires !After(code, s, env, natives).raised
    ensures var (more, p) := CallCode(fn, |code|, ps);
      var t := After(code + more, s, env, natives);
      Onward(After(code, s, env, natives), t) && Yields(t, p, Apply(fn, vs))
  {
    hide Run, After, Args, Alike, Blind, Apply, OrCode;
    if !fn.strict || ps == [] {
      var i := CallFn(fn, Vals(ps), Nulls(ps));
      assert code + CallCode(fn, |code|, ps).0 == code + [i] + [RetNull];
      PlainCall(fn, code, ps, vs, s, env, natives);
    } else {
      StrictCall(fn, code, ps, vs, s, env, natives);
    }
  }

  /** A call that is not branched around. */
  lemma PlainCall(fn: Fn, code: Code, ps: seq<Pair>, vs: seq<Value>, s: State, env: Env, natives: set<nat>)
    requires s.regs == [] && Blind(fn) && AllShow(After(code, s, env, natives), ps, vs) && (!fn.strict || ps == [])
    requires !After(code, s, env, natives).raised
    ensures var t := After(code + [CallFn(fn, Vals(ps), Nulls(ps))] + [RetNull], s, env, natives);
      Onward(After(code, s, env, natives), t) && Yields(t, Pair(|code|, |code| + 1), Apply(fn, vs))
  {
    hide Run, After, Args, Alike, Blind, AllShow;
    var t := After(code, s, env, natives);
    var i := CallFn(fn, Vals(ps), Nulls(ps));
    AfterLast(code, i, s, env, natives);
    AfterLast(code + [i], RetNull, s, env, natives);
    ArgsAlike(t, ps, vs);
    ApplyAlike(fn, Args(t, Vals(ps), Nulls(ps)), vs);
  }

  /** Flags are OR-ed one after the other. */
  lemma {:induction false} OrRuns(code: Code, acc: nat, ps: seq<Pair>, vs: seq<Value>, seen: bool, s: State, env: Env,
                                  natives: set<nat>)
    requires s.regs == [] && acc < |code| && AllShow(After(code, s, env, natives), ps, vs)
    requires After(code, s, env, natives).regs[acc] == Bit(seen) && !After(code, s, env, natives).raised
    ensures var t := After(code + OrCode(|code|, acc, Nulls(ps)), s, env, natives);
      && Onward(After(code, s, env, natives), t) && !t.raised
      && t.regs[if ps == [] then acc else |code| + |ps| - 1] == Bit(seen || AnyNull(vs))
    decreases |ps|
  {
    hide Run, After, Step, AllShow, Nulls, OrCode, AnyNull;
    if ps == [] {
      OrNone(code, acc, ps, vs);
      NoneShown(After(code, s, env, natives), vs);
    } else {
      var i, t := Or1(acc, ps[0].nul), After(code, s, env, natives);
      ShowRest(t, ps, vs);
      BitLast(code, i, s, env, natives, t.regs);
      OrFirst(code, acc, ps);
      ShowOn(t, After(code + [i], s, env, natives), ps[1..], vs[1..]);
      OrRuns(code + [i], |code|, ps[1..], vs[1..], seen || vs[0].isnull, s, env, natives);
      AnyNullCons(vs);
    }
  }

  lemma NoneShown(t: State, vs: seq<Value>)
    requires AllShow(t, [], vs)
    ensures vs == []
  {
  }

  lemma OrNone(code: Code, acc: nat, ps: seq<Pair>, vs: seq<Value>)
    requires ps == []
    ensures code + OrCode(|code|, acc, Nulls(ps)) == code && (|vs| == |ps| ==> !AnyNull(vs))
  {
  }

  lemma OrFirst(code: Code, acc: nat, ps: seq<Pair>)
    requires ps != []
    ensures code + OrCode(|code|, acc, Nulls(ps)) ==
      code + [Or1(acc, ps[0].nul)] + OrCode(|code| + 1, |code|, Nulls(ps[1..]))
  {
    NullsRest(ps);
    var n, nuls := |code|, Nulls(ps);
    OrIs(n, acc, nuls);
    hide Nulls, OrCode;
    Regroup(code, [Or1(acc, nuls[0])], OrCode(n + 1, n, nuls[1..]));
  }

  lemma NullsRest(ps: seq<Pair>)
    requires ps != []
    ensures Nulls(ps)[0] == ps[0].nul && Nulls(ps)[1..] == Nulls(ps[1..])
  {
  }

  lemma OrIs(n: nat, acc: nat, nuls: seq<nat>)
    requires nuls != []
    ensures OrCode(n, acc, nuls) == [Or1(acc, nuls[0])] + OrCode(n + 1, n, nuls[1..])
  {
  }

  lemma Regroup(a: Code, b: Code, c: Code)
    ensures a + (b + c) == a + b + c
  {
  }

  lemma AnyNullCons(vs: seq<Value>)
    requires vs != []
    ensures AnyNull(vs) <==> vs[0].isnull || AnyNull(vs[1..])
  {
    if AnyNull(vs) { var k :| 0 <= k < |vs| && vs[k].isnull; assert k > 0 ==> vs[1..][k - 1].isnull; }
    if AnyNull(vs[1..]) { var k :| 0 <= k < |vs[1..]| && vs[1..][k].isnull; assert vs[k + 1].isnull; }
  }

  /** A strict call is made exactly when no argument is NULL; the phis give its result, or NULL. */
  lemma StrictCall(fn: Fn, code: Code, ps: seq<Pair>, vs: seq<Value>, s: State, env: Env, natives: set<nat>)
    requires s.regs == [] && Blind(fn) && AllShow(After(code, s, env, natives), ps, vs) && fn.strict && ps != []
    requires !After(code, s, env, natives).raised
    ensures var (more, p) := CallCode(fn, |code|, ps);
      var t := After(code + more, s, env, natives);
      Onward(After(code, s, env, natives), t) && Yields(t, p, Apply(fn, vs))
  {
    hide Run, After, Args, Alike, Blind, OrCode, Apply, Vals, Nulls;
    var n, any := |code|, |code| + |ps|;
    var c0 := code + [Lit(0)];
    AfterLast(code, Lit(0), s, env, natives);
    OrRuns(c0, n, ps, vs, false, s, env, natives);
    var c1 := c0 + OrCode(n + 1, n, Nulls(ps));
    var t1 := After(c1, s, env, natives);
    assert AllShow(t1, ps, vs);
    StrictTail(fn, c1, any, ps, vs, s, env, natives);
    assert code + CallCode(fn, n, ps).0 == c1 + [CondBr(any)] + StrictCode(fn, any, ps);
  }

  lemma StrictTail(fn: Fn, c: Code, any: nat, ps: seq<Pair>, vs: seq<Value>, s: State, env: Env, natives: set<nat>)
    requires s.regs == [] && Blind(fn) && AllShow(After(c, s, env, natives), ps, vs) && fn.strict && |c| == any + 1
    requires After(c, s, env, natives).regs[any] == Bit(AnyNull(vs)) && !After(c, s, env, natives).raised
    ensures var t := After(c + [CondBr(any)] + StrictCode(fn, any, ps), s, env, natives);
      Onward(After(c, s, env, natives), t) && Yields(t, Pair(any + 4, any + 5), Apply(fn, vs))
  {
    hide Run, After, Args, Alike, Blind, AllShow, Vals, Nulls, AnyNull, Apply;
    var t, c0 := After(c, s, env, natives), c + [CondBr(any)];
    AfterLast(c, CondBr(any), s, env, natives);
    ShowOn(t, After(c0, s, env, natives), ps, vs);
    CallBlock(fn, any, ps, vs, After(c0, s, env, natives), env, natives);
    BlockRuns(fn, any, ps, c0, s, env, natives);
  }

  /** The machine after the call block and the phis. */
  function Joined(fn: Fn, any: nat, ps: seq<Pair>, t: State, env: Env, natives: set<nat>): State {
    var u := Step(InCall(CallFn(fn, Vals(ps), Nulls(ps))), t, env, natives);
    var v := Step(InCall(RetNull), u, env, natives);
    Step(Phi(1, any + 3), Step(Phi(0, any + 2), v, env, natives), env, natives)
  }

  lemma BlockRuns(fn: Fn, any: nat, ps: seq<Pair>, c: Code, s: State, env: Env, natives: set<nat>)
    requires s.regs == []
    ensures After(c + StrictCode(fn, any, ps), s, env, natives) ==
      Joined(fn, any, ps, After(c, s, env, natives), env, natives)
  {
    hide Run, After, Step, Vals, Nulls;
    var c1 := c + [InCall(CallFn(fn, Vals(ps), Nulls(ps)))];
    var c2 := c1 + [InCall(RetNull)];
    var c3 := c2 + [Phi(0, any + 2)];
    AfterLast(c, InCall(CallFn(fn, Vals(ps), Nulls(ps))), s, env, natives);
    AfterLast(c1, InCall(RetNull), s, env, natives);
    AfterLast(c2, Phi(0, any + 2), s, env, natives);
    AfterLast(c3, Phi(1, any + 3), s, env, natives);
    assert c + StrictCode(fn, any, ps) == c3 + [Phi(1, any + 3)];
  }

  lemma CallBlock(fn: Fn, any: nat, ps: seq<Pair>, vs: seq<Value>, t: State, env: Env, natives: set<nat>)
    requires fn.strict && Blind(fn) && AllShow(t, ps, vs) && |t.regs| == any + 2
    requires !t.raised && t.skipped == AnyNull(vs)
    ensures var u := Joined(fn, any, ps, t, env, natives);
      Onward(t, u) && Yields(u, Pair(any + 4, any + 5), Apply(fn, vs))
  {
    hide Args, Alike, Blind, AllShow, Vals, Nulls, AnyNull;
    var i := CallFn(fn, Vals(ps), Nulls(ps));
    InCallIs(i, t, env, natives);
    InCallIs(RetNull, Step(InCall(i), t, env, natives), env, natives);
    ArgsAlike(t, ps, vs);
    ApplyAlike(fn, Args(t, Vals(ps), Nulls(ps)), vs);
  }

  lemma InCallIs(i: Instr, t: State, env: Env, natives: set<nat>)
    ensures Step(InCall(i), t, env, natives) == if t.raised || t.skipped then Put(t, 0) else Step(i, t, env, natives)
  {
  }

  /** What registers show they go on showing. */
  lemma ShowOn(t: State, u: State, ps: seq<Pair>, vs: seq<Value>)
    requires AllShow(t, ps, vs) && t.regs <= u.regs
    ensures AllShow(u, ps, vs)
  {
  }

  /** The first argument, and the others. */
  lemma ShowRest(t: State, ps: seq<Pair>, vs: seq<Value>)
    requires AllShow(t, ps, vs) && ps != []
    ensures |ps| == |vs| && ps[0].nul < |t.regs| && t.regs[ps[0].nul] == Bit(vs[0].isnull)
    ensures AllShow(t, ps[1..], vs[1..])
  {
    assert Shows(t, ps[0], vs[0]);
  }

  lemma ArgsAlike(t: State, ps: seq<Pair>, vs: seq<Value>)
    requires AllShow(t, ps, vs)
    ensures Alike(Args(t, Vals(ps), Nulls(ps)), vs)
  {
  }

  lemma ApplyAlike(fn: Fn, ws: seq<Value>, vs: seq<Value>)
    requires Blind(fn) && Alike(ws, vs)
    ensures Apply(fn, ws) == Apply(fn, vs) && AnyNull(ws) == AnyNull(vs) && fn.apply(ws) == fn.apply(vs)
  {
    if AnyNull(vs) { var k :| 0 <= k < |vs| && vs[k].isnull; assert ws[k].isnull; }
    if AnyNull(ws) { var k :| 0 <= k < |ws| && ws[k].isnull; assert vs[k].isnull; }
  }

  lemma {:induction false} ArgsRun(es: Exprs, code: Code, s: State, env: Env, natives: set<nat>)
    requires s.regs == [] && AllTyped(es, env) && !After(code, s, env, natives).raised
    ensures var r, vs := CompileArgs(es, code), EvalAll(false, es, env);
      var t := After(r.code, s, env, natives);
      && Onward(After(code, s, env, natives), t)
      && (r.result.Some? ==> if vs.Raises? then t.raised else !t.raised && AllShow(t, r.result.value, vs.v))
    decreases es, 0
  {
    hide Run, After, Compile, Eval;
    if es.Cons? {
      CompileRuns(es.head, code, s, env, natives);
      var h := Compile(es.head, code);
      if h.result.Some? {
        if After(h.code, s, env, natives).raised {
          NothingAfter(h.code, CompileArgs(es, code).code, s, env, natives);
        } else {
          ArgsRun(es.tail, h.code, s, env, natives);
        }
      }
    }
  }

  // ---- three-valued logic without branches ----

  /** The three registers stand for the truth value acc: decided when an input settles it, NULL when
      one was NULL and none settles it. */
  ghost predicate Stands(op: Op, regs: seq<nat>, a: Acc, acc: Option<bool>) {
    && a.bits < |regs| && a.anyNull < |regs| && a.decided < |regs|
    && regs[a.bits] < 2 && regs[a.anyNull] < 2
    && regs[a.decided] == Bit(acc == Some(op.OrOp?))
    && (acc == None ==> regs[a.anyNull] == 1)
    && (acc == Some(op.AndOp?) ==> regs[a.anyNull] == 0)
    && (acc.Some? ==> regs[a.bits] == Bit(acc.value))
  }

  /** An operand's bit, the combined bits and the NULL seen so far, after registers regs. */
  function HalfRegs(op: Op, regs: seq<nat>, p: Pair, a: Acc): (r: seq<nat>)
    requires p.val < |regs| && p.nul < |regs| && a.bits < |regs| && a.anyNull < |regs| && a.decided < |regs|
    ensures |r| == |regs| + 3 && regs <= r
  {
    var b := regs[p.val] % 2;
    regs + [b] + [if op.AndOp? then Bit(regs[a.bits] == 1 && b == 1) else Bit(regs[a.bits] == 1 || b == 1)] +
    [Bit(regs[a.anyNull] == 1 || regs[p.nul] == 1)]
  }

  /** Whether the operand whose bit is in register n decides, and whether one has. */
  function RestRegs(op: Op, r: seq<nat>, n: nat, nul: nat, decided: nat): (t: seq<nat>)
    requires |r| == n + 3 && nul < n && decided < n
    ensures |t| == n + 7 && r <= t
  {
    var known, settles := 1 - r[nul] % 2, if op.AndOp? then 1 - r[n] % 2 else r[n] % 2;
    var d := Bit(known == 1 && settles == 1);
    r + [known] + [settles] + [d] + [Bit(r[decided] == 1 || d == 1)]
  }

  /** The registers after FoldOne. */
  function FoldRegs(op: Op, regs: seq<nat>, p: Pair, a: Acc): seq<nat>
    requires p.val < |regs| && p.nul < |regs| && a.bits < |regs| && a.anyNull < |regs| && a.decided < |regs|
  {
    RestRegs(op, HalfRegs(op, regs, p, a), |regs|, p.nul, a.decided)
  }

  lemma FoldStands(op: Op, regs: seq<nat>, p: Pair, a: Acc, v: Value, acc: Option<bool>)
    requires !op.NotOp? && (v.isnull || v.bits < 2) && Stands(op, regs, a, acc)
    requires p.val < |regs| && p.nul < |regs| && regs[p.nul] == Bit(v.isnull) && (v.isnull || regs[p.val] == v.bits)
    ensures regs <= FoldRegs(op, regs, p, a)
    ensures Stands(op, FoldRegs(op, regs, p, a), Acc(|regs| + 1, |regs| + 2, |regs| + 6), Combine(op, acc, Truth(v)))
  {
  }

  /** The register a bit instruction defines. */
  function Defines(i: Instr, regs: seq<nat>): nat
    requires i.Trunc? || i.Not1? ==> i.r < |regs|
    requires i.And1? || i.Or1? ==> i.r < |regs| && i.s < |regs|
  {
    match i
    case Trunc(r) => regs[r] % 2
    case Not1(r) => 1 - regs[r] % 2
    case And1(r, t) => Bit(regs[r] == 1 && regs[t] == 1)
    case Or1(r, t) => Bit(regs[r] == 1 || regs[t] == 1)
    case _ => 0
  }

  /** Neither misused a function nor raised meanwhile. */
  ghost predicate Unmoved(t: State, u: State) { u.misused == t.misused && !u.raised }

  lemma BitLast(code: Code, i: Instr, s: State, env: Env, natives: set<nat>, regs: seq<nat>)
    requires s.regs == [] && After(code, s, env, natives).regs == regs && (i.Trunc? || i.Not1? || i.And1? || i.Or1?)
    requires i.Trunc? || i.Not1? ==> i.r < |regs|
    requires i.And1? || i.Or1? ==> i.r < |regs| && i.s < |regs|
    requires !After(code, s, env, natives).raised
    ensures After(code + [i], s, env, natives).regs == regs + [Defines(i, regs)]
    ensures Unmoved(After(code, s, env, natives), After(code + [i], s, env, natives))
  {
    AfterLast(code, i, s, env, natives);
  }

  /** The first half of FoldOne: operand bit, combined bits, NULL seen. */
  lemma FoldHalfRuns(op: Op, code: Code, p: Pair, a: Acc, s: State, env: Env, natives: set<nat>)
    requires !op.NotOp? && s.regs == [] && p.val < |code| && p.nul < |code| && a.bits < |code| && a.anyNull < |code|
    requires a.decided < |code| && !After(code, s, env, natives).raised
    ensures var combine := if op.AndOp? then And1(a.bits, |code|) else Or1(a.bits, |code|);
      var t := After(code, s, env, natives);
      var u := After(code + [Trunc(p.val)] + [combine] + [Or1(a.anyNull, p.nul)], s, env, natives);
      u.regs == HalfRegs(op, t.regs, p, a) && Unmoved(t, u)
  {
    hide Run, After, Step;
    var r0 := After(code, s, env, natives).regs;
    var combine := if op.AndOp? then And1(a.bits, |code|) else Or1(a.bits, |code|);
    var r1 := r0 + [r0[p.val] % 2];
    BitLast(code, Trunc(p.val), s, env, natives, r0);
    BitLast(code + [Trunc(p.val)], combine, s, env, natives, r1);
    BitLast(code + [Trunc(p.val)] + [combine], Or1(a.anyNull, p.nul), s, env, natives, r1 + [Defines(combine, r1)]);
  }

  /** The second half: does this operand decide, has one decided. */
  lemma FoldRestRuns(op: Op, c: Code, n: nat, nul: nat, decided: nat, s: State, env: Env, natives: set<nat>)
    requires !op.NotOp? && s.regs == [] && |c| == n + 3 && nul < n && decided < n && !After(c, s, env, natives).raised
    ensures var decides := if op.AndOp? then Not1(n) else Trunc(n);
      var t := After(c, s, env, natives);
      var u := After(c + [Not1(nul)] + [decides] + [And1(n + 3, n + 4)] + [Or1(decided, n + 5)], s, env, natives);
      u.regs == RestRegs(op, t.regs, n, nul, decided) && Unmoved(t, u)
  {
    hide Run, After, Step;
    var r, decides := After(c, s, env, natives).regs, if op.AndOp? then Not1(n) else Trunc(n);
    var known, settles := 1 - r[nul] % 2, if op.AndOp? then 1 - r[n] % 2 else r[n] % 2;
    BitLast(c, Not1(nul), s, env, natives, r);
    BitLast(c + [Not1(nul)], decides, s, env, natives, r + [known]);
    FoldLastRuns(c + [Not1(nul)] + [decides], n, decided, s, env, natives, r + [known] + [settles]);
  }

  lemma FoldLastRuns(c: Code, n: nat, decided: nat, s: State, env: Env, natives: set<nat>, r: seq<nat>)
    requires s.regs == [] && |c| == n + 5 && decided < n && After(c, s, env, natives).regs == r
    requires !After(c, s, env, natives).raised
    ensures var d := Bit(r[n + 3] == 1 && r[n + 4] == 1);
      var u := After(c + [And1(n + 3, n + 4)] + [Or1(decided, n + 5)], s, env, natives);
      u.regs == r + [d] + [Bit(r[decided] == 1 || d == 1)] && Unmoved(After(c, s, env, natives), u)
  {
    hide Run, After, Step;
    var d := Bit(r[n + 3] == 1 && r[n + 4] == 1);
    BitLast(c, And1(n + 3, n + 4), s, env, natives, r);
    BitLast(c + [And1(n + 3, n + 4)], Or1(decided, n + 5), s, env, natives, r + [d]);
  }

  lemma FoldOneRuns(op: Op, code: Code, p: Pair, a: Acc, s: State, env: Env, natives: set<nat>)
    requires !op.NotOp? && s.regs == [] && p.val < |code| && p.nul < |code| && a.bits < |code| && a.anyNull < |code|
    requires a.decided < |code| && !After(code, s, env, natives).raised
    ensures var t, u := After(code, s, env, natives), After(FoldOne(op, code, p, a).0, s, env, natives);
      u.regs == FoldRegs(op, t.regs, p, a) && Unmoved(t, u)
  {
    hide Run, After, Step, HalfRegs, RestRegs;
    var combine := if op.AndOp? then And1(a.bits, |code|) else Or1(a.bits, |code|);
    FoldHalfRuns(op, code, p, a, s, env, natives);
    FoldRestRuns(op, code + [Trunc(p.val)] + [combine] + [Or1(a.anyNull, p.nul)], |code|, p.nul, a.decided, s, env,
        natives);
  }

  /** Combining an operand that shows v. */
  lemma FoldOneStands(op: Op, code: Code, p: Pair, a: Acc, v: Value, acc: Option<bool>, s: State, env: Env,
                      natives: set<nat>)
    requires !op.NotOp? && s.regs == [] && (v.isnull || v.bits < 2) && !After(code, s, env, natives).raised
    requires Shows(After(code, s, env, natives), p, v) && Stands(op, After(code, s, env, natives).regs, a, acc)
    ensures var (code1, a1) := FoldOne(op, code, p, a);
      var t, u := After(code, s, env, natives), After(code1, s, env, natives);
      Onward(t, u) && !u.raised && Stands(op, u.regs, a1, Combine(op, acc, Truth(v)))
  {
    hide Run, After, FoldRegs, Stands, Combine, Truth;
    var regs := After(code, s, env, natives).regs;
    InRange(op, regs, a, acc);
    FoldOneRuns(op, code, p, a, s, env, natives);
    FoldStands(op, regs, p, a, v, acc);
  }

  lemma StandsLonger(op: Op, regs: seq<nat>, more: seq<nat>, a: Acc, acc: Option<bool>)
    requires Stands(op, regs, a, acc) && regs <= more
    ensures Stands(op, more, a, acc)
  {
  }

  lemma InRange(op: Op, regs: seq<nat>, a: Acc, acc: Option<bool>)
    requires Stands(op, regs, a, acc)
    ensures a.bits < |regs| && a.anyNull < |regs| && a.decided < |regs|
  {
  }

  lemma CombineAssoc(op: Op, a: Option<bool>, b: Option<bool>, c: Option<bool>)
    ensures Combine(op, Combine(op, a, b), c) == Combine(op, a, Combine(op, b, c))
  {
  }

  lemma {:induction false} FoldRuns(op: Op, es: Exprs, code: Code, a: Acc, acc: Option<bool>, s: State, env: Env,
                                    natives: set<nat>)
    requires !op.NotOp? && s.regs == [] && AllTyped(es, env) && AllBool(es, env)
    requires Stands(op, After(code, s, env, natives).regs, a, acc) && !After(code, s, env, natives).raised
    ensures var r, x := Fold(op, es, code, a), Folded(false, op, es, env);
      var t := After(r.code, s, env, natives);
      Onward(After(code, s, env, natives), t) &&
      (r.result.Some? ==>
        if x.Raises? then t.raised else !t.raised && Stands(op, t.regs, r.result.value, Combine(op, acc, x.v)))
    decreases es, 0
  {
    hide Run, After, Compile, Eval, FoldOne, Stands, Combine, Truth, Folded, Typed;
    if es.Nil? {
      FoldedNil(op, es, env);
      CombineNone(op, acc);
    } else {
      CompileRuns(es.head, code, s, env, natives);
      var h, ev := Compile(es.head, code), Eval(false, es.head, env);
      FoldedIs(op, es, env);
      if h.result.Some? && ev.Raises? {
        NothingAfter(h.code, Fold(op, es, code, a).code, s, env, natives);
      } else if h.result.Some? {
        var v, p := ev.v, h.result.value;
        StandsLonger(op, After(code, s, env, natives).regs, After(h.code, s, env, natives).regs, a, acc);
        var (code1, a1) := FoldOne(op, h.code, p, a);
        FoldOneStands(op, h.code, p, a, v, acc, s, env, natives);
        FoldRuns(op, es.tail, code1, a1, Combine(op, acc, Truth(v)), s, env, natives);
        var rest := Folded(false, op, es.tail, env);
        if rest.Done? { CombineAssoc(op, acc, Truth(v), rest.v); }
      }
    }
  }

  lemma CombineNone(op: Op, acc: Option<bool>)
    requires !op.NotOp?
    ensures Combine(op, acc, Some(op.AndOp?)) == acc
  {
    match acc
    case None =>
    case Some(b) => assert b == true || b == false;
  }

  lemma FoldedNil(op: Op, es: Exprs, env: Env)
    requires es.Nil?
    ensures Folded(false, op, es, env) == Done(Some(op.AndOp?))
  {
  }

  lemma FoldedIs(op: Op, es: Exprs, env: Env)
    requires es.Cons?
    ensures var h, r := Eval(false, es.head, env), Folded(false, op, es.tail, env);
      Folded(false, op, es, env) ==
        if h.Raises? || r.Raises? then Raises else Done(Combine(op, Truth(h.v), r.v))
  {
  }

  lemma {:induction false} BoolRuns(op: Op, es: Exprs, code: Code, s: State, env: Env, natives: set<nat>)
    requires s.regs == [] && AllTyped(es, env) && AllBool(es, env) && (op.NotOp? ==> es.Cons?)
    requires !After(code, s, env, natives).raised
    ensures var r, x := CompileBool(op, es, code), Logic(false, op, es, env);
      var t := After(r.code, s, env, natives);
      Onward(After(code, s, env, natives), t) &&
      (r.result.Some? ==> Yields(t, r.result.value, if x.Raises? then Raises else Done(OfTruth(x.v))))
    decreases es, 2
  {
    hide Run, After, Compile, Eval, Fold, Folded, Yields, Onward;
    if op.NotOp? { NotRuns(es, code, s, env, natives); } else { AndOrRuns(op, es, code, s, env, natives); }
  }

  lemma {:induction false} NotRuns(es: Exprs, code: Code, s: State, env: Env, natives: set<nat>)
    requires s.regs == [] && AllTyped(es, env) && AllBool(es, env) && es.Cons? && !After(code, s, env, natives).raised
    ensures var r, x := CompileBool(NotOp, es, code), Logic(false, NotOp, es, env);
      var t := After(r.code, s, env, natives);
      Onward(After(code, s, env, natives), t) &&
      (r.result.Some? ==> Yields(t, r.result.value, if x.Raises? then Raises else Done(OfTruth(x.v))))
    decreases es, 1
  {
    hide Run, After, Compile, Eval;
    CompileRuns(es.head, code, s, env, natives);
    var h, v := Compile(es.head, code), Eval(false, es.head, env);
    if h.result.Some? && v.Raises? { NothingAfter(h.code, CompileBool(NotOp, es, code).code, s, env, natives); }
    else if h.result.Some? { NotEnds(h.code, h.result.value, v.v, s, env, natives); }
  }

  lemma {:induction false} AndOrRuns(op: Op, es: Exprs, code: Code, s: State, env: Env, natives: set<nat>)
    requires s.regs == [] && AllTyped(es, env) && AllBool(es, env) && !op.NotOp? && !After(code, s, env, natives).raised
    ensures var r, x := CompileBool(op, es, code), Folded(false, op, es, env);
      var t := After(r.code, s, env, natives);
      Onward(After(code, s, env, natives), t) &&
      (r.result.Some? ==> Yields(t, r.result.value, if x.Raises? then Raises else Done(OfTruth(x.v))))
    decreases es, 1
  {
    hide Run, After, Fold, Folded, Stands, AllTyped, AllBool;
    var n := |code|;
    var c := code + [Lit(Bit(op.AndOp?))] + [Lit(0)] + [Lit(0)];
    FoldStarts(op, code, s, env, natives);
    FoldRuns(op, es, c, Acc(n, n + 1, n + 2), Some(op.AndOp?), s, env, natives);
    var r, x := Fold(op, es, c, Acc(n, n + 1, n + 2)), Folded(false, op, es, env);
    if r.result.Some? && x.Raises? { NothingAfter(r.code, CompileBool(op, es, code).code, s, env, natives); }
    else if r.result.Some? {
      UnitCombines(op, x.v);
      FoldEnds(op, r.code, r.result.value, x.v, s, env, natives);
    }
  }

  lemma UnitCombines(op: Op, x: Option<bool>)
    requires !op.NotOp?
    ensures Combine(op, Some(op.AndOp?), x) == x
  {
    match x
    case None =>
    case Some(b) => assert b == true || b == false;
  }

  lemma NotEnds(code: Code, p: Pair, v: Value, s: State, env: Env, natives: set<nat>)
    requires s.regs == [] && (v.isnull || v.bits < 2) && Shows(After(code, s, env, natives), p, v)
    requires !After(code, s, env, natives).raised
    ensures var t := After(code + [Trunc(p.val)] + [Not1(|code|)], s, env, natives);
      Onward(After(code, s, env, natives), t) && Yields(t, Pair(|code| + 1, p.nul), Done(OfTruth(Not3(Truth(v)))))
  {
    hide Run, After;
    AfterLast(code, Trunc(p.val), s, env, natives);
    AfterLast(code + [Trunc(p.val)], Not1(|code|), s, env, natives);
  }

  lemma FoldStarts(op: Op, code: Code, s: State, env: Env, natives: set<nat>)
    requires !op.NotOp? && s.regs == [] && !After(code, s, env, natives).raised
    ensures var t := After(code + [Lit(Bit(op.AndOp?))] + [Lit(0)] + [Lit(0)], s, env, natives);
      && Onward(After(code, s, env, natives), t) && !t.raised
      && Stands(op, t.regs, Acc(|code|, |code| + 1, |code| + 2), Some(op.AndOp?))
  {
    hide Run, After;
    var c1 := code + [Lit(Bit(op.AndOp?))];
    AfterLast(code, Lit(Bit(op.AndOp?)), s, env, natives);
    AfterLast(c1, Lit(0), s, env, natives);
    AfterLast(c1 + [Lit(0)], Lit(0), s, env, natives);
  }

  /** The NULL flag is "some input NULL and none decides". */
  lemma FoldEnds(op: Op, code: Code, a: Acc, acc: Option<bool>, s: State, env: Env, natives: set<nat>)
    requires !op.NotOp? && s.regs == [] && Stands(op, After(code, s, env, natives).regs, a, acc)
    requires !After(code, s, env, natives).raised
    ensures var t := After(code + [Not1(a.decided)] + [And1(a.anyNull, |code|)], s, env, natives);
      Onward(After(code, s, env, natives), t) && Yields(t, Pair(a.bits, |code| + 1), Done(OfTruth(acc)))
  {
    hide Run, After;
    AfterLast(code, Not1(a.decided), s, env, natives);
    AfterLast(code + [Not1(a.decided)], And1(a.anyNull, |code|), s, env, natives);
  }

  /** A compiled condition: the value bit and not the NULL flag. */
  function Condition(code: Code, p: Pair): Code { code + [Trunc(p.val)] + [Not1(p.nul)] + [And1(|code|, |code| + 1)] }

  /** The condition raises exactly when evaluating the whole tree does, and else holds exactly when the three-valued
      result is true. */
  lemma ConditionRuns(e: Expr, s: State, env: Env, natives: set<nat>)
    requires s.regs == [] && !s.raised && Typed(e, env) && Boolean(e, env) && Compile(e, []).result.Some?
    ensures var r, v := Compile(e, []), Eval(false, e, env);
      var t := After(Condition(r.code, r.result.value), s, env, natives);
      if v.Raises? then t.raised else !t.raised && (t.regs[|r.code| + 2] == 1 <==> Truth(v.v) == Some(true))
  {
    assert After([], s, env, natives) == s;
    hide Run, After, Compile, Eval;
    CompileRuns(e, [], s, env, natives);
    var r, v := Compile(e, []), Eval(false, e, env);
    if v.Raises? { NothingAfter(r.code, Condition(r.code, r.result.value), s, env, natives); }
    else { ConditionEnds(r.code, r.result.value, v.v, s, env, natives); }
  }

  /** A compiled condition ends as the interpreted one exactly when that raises, or comes to every operand that
      does. */
  lemma ConditionExact(e: Expr, s: State, env: Env, natives: set<nat>)
    requires s.regs == [] && !s.raised && Typed(e, env) && Boolean(e, env) && Compile(e, []).result.Some?
    ensures var r, v := Compile(e, []), Eval(true, e, env);
      var t := After(Condition(r.code, r.result.value), s, env, natives);
      var compiled := if t.raised then Raises else Done(t.regs[|r.code| + 2] == 1);
      var interpreted := if v.Raises? then Raises else Done(Truth(v.v) == Some(true));
      compiled == interpreted <==> v.Raises? || !Hides(e, env)
  {
    hide Run, After, Compile, Eval, Hides;
    ConditionRuns(e, s, env, natives);
    EvalDeparts(e, env);
  }

  lemma ConditionEnds(code: Code, p: Pair, v: Value, s: State, env: Env, natives: set<nat>)
    requires s.regs == [] && (v.isnull || v.bits < 2) && Shows(After(code, s, env, natives), p, v)
    requires !After(code, s, env, natives).raised
    ensures var t := After(Condition(code, p), s, env, natives);
      !t.raised && (t.regs[|code| + 2] == 1 <==> Truth(v) == Some(true))
  {
    hide Run, After, Step;
    var n, r0 := |code|, After(code, s, env, natives).regs;
    var r1 := r0 + [r0[p.val] % 2];
    var r2 := r1 + [1 - r1[p.nul] % 2];
    BitLast(code, Trunc(p.val), s, env, natives, r0);
    BitLast(code + [Trunc(p.val)], Not1(p.nul), s, env, natives, r1);
    BitLast(code + [Trunc(p.val)] + [Not1(p.nul)], And1(n, n + 1), s, env, natives, r2);
  }
}
