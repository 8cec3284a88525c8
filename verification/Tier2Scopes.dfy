/** Allocation scopes around Tier 2 statements, and native arrays marshalled inside them. */
module Tier2Scopes {
  import opened Cfg
  import opened Tier2Expr
  import opened Tier2Code

  /** Native arrays an expression mentions. */
  function NativesIn(e: Expr, natives: set<nat>): set<nat> {
    match e
    case Param(d) => if d in natives then {d} else {}
    case Relabel(a) => NativesIn(a, natives)
    case Call(_, args) => AllNatives(args, natives)
    case Bool(op, args) => AllNatives(args, natives)
    case _ => {}
  }

  function AllNatives(es: Exprs, natives: set<nat>): set<nat> {
    if es.Nil? then {} else NativesIn(es.head, natives) + AllNatives(es.tail, natives)
  }

  lemma {:induction false} ReadsIsSome(e: Expr, natives: set<nat>)
    ensures ReadsNative(e, natives) <==> NativesIn(e, natives) != {}
    decreases e
  {
    match e
    case Param(d) => assert d in natives ==> d in NativesIn(e, natives);
    case Relabel(a) => ReadsIsSome(a, natives);
    case Call(_, args) => AnyReadsIsSome(args, natives);
    case Bool(_, args) => AnyReadsIsSome(args, natives);
    case _ =>
  }

  lemma {:induction false} AnyReadsIsSome(es: Exprs, natives: set<nat>)
    ensures AnyReadsNative(es, natives) <==> AllNatives(es, natives) != {}
    decreases es
  {
    if es.Cons? { ReadsIsSome(es.head, natives); AnyReadsIsSome(es.tail, natives); }
  }

  /** NOT has one operand. */
  predicate Shaped(e: Expr) {
    match e
    case Relabel(a) => Shaped(a)
    case Call(_, args) => AllShaped(args)
    case Bool(op, args) => AllShaped(args) && (op.NotOp? ==> args.Cons? && args.tail.Nil?)
    case _ => true
  }

  predicate AllShaped(es: Exprs) { es.Cons? ==> Shaped(es.head) && AllShaped(es.tail) }

  /** Evaluation from t to u marshals arrays among ds and nothing else, all of ds if it completes;
      what it marshals is allocated in the context current at t. */
  ghost predicate Marshals(t: State, u: State, ds: set<nat>, complete: bool) {
    && u.cur == t.cur && u.depth == t.depth && u.stored == t.stored
    && t.marshalled <= u.marshalled <= t.marshalled + ds && (complete ==> u.marshalled == t.marshalled + ds)
    && (forall d :: HomeOf(u, d) == HomeOf(t, d) || (d in ds && HomeOf(u, d) == t.cur))
    && (complete ==> forall d <- ds :: HomeOf(u, d) == t.cur)
  }

  lemma MarshalsTrans(t: State, u: State, v: State, ds: set<nat>, es: set<nat>, complete: bool)
    requires Marshals(t, u, ds, true) && Marshals(u, v, es, complete)
    ensures Marshals(t, v, ds + es, complete)
  {
  }

  lemma MarshalsMore(t: State, u: State, ds: set<nat>, es: set<nat>)
    requires Marshals(t, u, ds, false) && ds <= es
    ensures Marshals(t, u, es, false)
  {
  }

  /** Instructions that neither load nor move between contexts. */
  predicate Plain(i: Instr) {
    || i.Lit? || i.Trunc? || i.Not1? || i.And1? || i.Or1?
    || i.CallFn? || i.RetNull? || i.CondBr? || i.Phi? || (i.InCall? && (i.i.CallFn? || i.i.RetNull?))
  }

  lemma PlainLast(code: Code, i: Instr, s: State, env: Env, natives: set<nat>)
    requires s.regs == [] && Plain(i)
    ensures Marshals(After(code, s, env, natives), After(code + [i], s, env, natives), {}, true)
  {
    AfterLast(code, i, s, env, natives);
  }

  /** Two plain instructions after an evaluation change nothing. */
  lemma ThenPlain(t: State, code: Code, more: seq<Instr>, s: State, env: Env, natives: set<nat>, ds: set<nat>,
                  complete: bool)
    requires s.regs == [] && (forall k :: 0 <= k < |more| ==> Plain(more[k]))
    requires Marshals(t, After(code, s, env, natives), ds, complete)
    ensures Marshals(t, After(code + more, s, env, natives), ds, complete)
    decreases |more|
  {
    if more == [] {
      assert code + more == code;
    } else {
      PlainLast(code, more[0], s, env, natives);
      assert code + more == code + [more[0]] + more[1..];
      ThenPlain(t, code + [more[0]], more[1..], s, env, natives, ds, complete);
    }
  }

  lemma {:induction false} OrPlain(n: nat, acc: nat, nuls: seq<nat>)
    ensures forall k :: 0 <= k < |nuls| ==> Plain(OrCode(n, acc, nuls)[k])
    decreases |nuls|
  {
    if nuls != [] {
      var rest := OrCode(n + 1, n, nuls[1..]);
      OrPlain(n + 1, n, nuls[1..]);
      assert forall k :: 0 < k < |nuls| ==> OrCode(n, acc, nuls)[k] == rest[k - 1];
    }
  }

  lemma CallPlain(fn: Fn, n: nat, ps: seq<Pair>)
    ensures forall k :: 0 <= k < |CallCode(fn, n, ps).0| ==> Plain(CallCode(fn, n, ps).0[k])
  {
    OrPlain(n + 1, n, Nulls(ps));
  }

  /** Compiled evaluation marshals exactly the native arrays the tree mentions; an evaluation cut
      short by a bail-out or an error marshals some of them. */
  lemma {:induction false} ExprMarshals(e: Expr, code: Code, s: State, env: Env, natives: set<nat>)
    requires s.regs == [] && Shaped(e) && !After(code, s, env, natives).raised
    ensures var r := Compile(e, code);
      var u := After(r.code, s, env, natives);
      Marshals(After(code, s, env, natives), u, NativesIn(e, natives), r.result.Some? && !u.raised)
    decreases e, 0
  {
    hide Run, After;
    var t := After(code, s, env, natives);
    match e
    case Const(v) => ThenPlain(t, code, [Lit(Bit(v.isnull)), Lit(if v.isnull then 0 else v.bits)], s, env, natives, {},
        true);
      assert code + [Lit(Bit(v.isnull)), Lit(if v.isnull then 0 else v.bits)] == Compile(e, code).code;
    case Param(d) =>
      AfterLast(code, LoadNull(d), s, env, natives);
      AfterLast(code + [LoadNull(d)], LoadDatum(d), s, env, natives);
    case Relabel(a) => ExprMarshals(a, code, s, env, natives);
    case Call(fn, args) =>
      if !fn.poly {
        ArgsMarshal(args, code, s, env, natives);
        var r := CompileArgs(args, code);
        if r.result.Some? {
          var more, u := CallCode(fn, |r.code|, r.result.value).0, After(r.code, s, env, natives);
          CallPlain(fn, |r.code|, r.result.value);
          ThenPlain(t, r.code, more, s, env, natives, AllNatives(args, natives), !u.raised);
          if u.raised { NothingAfter(r.code, r.code + more, s, env, natives); }
        }
      }
    case Bool(op, args) => BoolMarshals(op, args, code, s, env, natives);
    case Other =>
  }

  lemma {:induction false} ArgsMarshal(es: Exprs, code: Code, s: State, env: Env, natives: set<nat>)
    requires s.regs == [] && AllShaped(es) && !After(code, s, env, natives).raised
    ensures var r := CompileArgs(es, code);
      var u := After(r.code, s, env, natives);
      Marshals(After(code, s, env, natives), u, AllNatives(es, natives), r.result.Some? && !u.raised)
    decreases es, 0
  {
    hide Run, After, Marshals;
    var t := After(code, s, env, natives);
    if es.Nil? {
      Stays(t);
    } else {
      var h := Compile(es.head, code);
      var u := After(h.code, s, env, natives);
      ExprMarshals(es.head, code, s, env, natives);
      if h.result.Some? && !u.raised {
        ArgsMarshal(es.tail, h.code, s, env, natives);
        var r := CompileArgs(es.tail, h.code);
        var v := After(r.code, s, env, natives);
        MarshalsTrans(t, u, v, NativesIn(es.head, natives), AllNatives(es.tail, natives), r.result.Some? && !v.raised);
      } else {
        MarshalsMore(t, u, NativesIn(es.head, natives), AllNatives(es, natives));
        if u.raised { MarshalsNoMore(t, h.code, CompileArgs(es, code).code, s, env, natives, AllNatives(es, natives)); }
      }
    }
  }

  /** An error cuts the evaluation short. */
  lemma MarshalsNoMore(t: State, code: Code, more: Code, s: State, env: Env, natives: set<nat>, ds: set<nat>)
    requires s.regs == [] && code <= more && After(code, s, env, natives).raised
    requires Marshals(t, After(code, s, env, natives), ds, false)
    ensures After(more, s, env, natives).raised && Marshals(t, After(more, s, env, natives), ds, false)
  {
    hide Run, After;
    NothingAfter(code, more, s, env, natives);
    var u, v := After(code, s, env, natives), After(more, s, env, natives);
    assert forall d :: HomeOf(v, d) == HomeOf(u, d);
  }

  lemma Stays(t: State)
    ensures Marshals(t, t, {}, true)
  {
  }

  lemma {:induction false} FoldMarshals(op: Op, es: Exprs, code: Code, a: Acc, s: State, env: Env, natives: set<nat>)
    requires s.regs == [] && AllShaped(es) && !After(code, s, env, natives).raised
    ensures var r := Fold(op, es, code, a);
      var u := After(r.code, s, env, natives);
      Marshals(After(code, s, env, natives), u, AllNatives(es, natives), r.result.Some? && !u.raised)
    decreases es, 0
  {
    hide Run, After, Marshals;
    var t := After(code, s, env, natives);
    if es.Nil? {
      Stays(t);
    } else {
      var h := Compile(es.head, code);
      ExprMarshals(es.head, code, s, env, natives);
      var u := After(h.code, s, env, natives);
      if h.result.Some? && !u.raised {
        var (code1, a1) := FoldOne(op, h.code, h.result.value, a);
        var more := FoldCode(op, h.code, h.result.value, a);
        ThenPlain(t, h.code, more, s, env, natives, NativesIn(es.head, natives), true);
        BitsRun(h.code, more, s, env, natives);
        FoldMarshals(op, es.tail, code1, a1, s, env, natives);
        var r := Fold(op, es.tail, code1, a1);
        var v := After(r.code, s, env, natives);
        MarshalsTrans(t, After(code1, s, env, natives), v, NativesIn(es.head, natives), AllNatives(es.tail, natives),
            r.result.Some? && !v.raised);
      } else {
        MarshalsMore(t, u, NativesIn(es.head, natives), AllNatives(es, natives));
        if u.raised { MarshalsNoMore(t, h.code, Fold(op, es, code, a).code, s, env, natives, AllNatives(es, natives)); }
      }
    }
  }

  /** Instructions on bits raise nothing. */
  predicate BitOp(i: Instr) { i.Lit? || i.Trunc? || i.Not1? || i.And1? || i.Or1? }

  lemma {:induction false} BitsRun(code: Code, more: Code, s: State, env: Env, natives: set<nat>)
    requires s.regs == [] && !After(code, s, env, natives).raised && (forall k :: 0 <= k < |more| ==> BitOp(more[k]))
    ensures !After(code + more, s, env, natives).raised
    decreases |more|
  {
    if more == [] {
      assert code + more == code;
    } else {
      AfterLast(code, more[0], s, env, natives);
      assert code + more == code + [more[0]] + more[1..];
      BitsRun(code + [more[0]], more[1..], s, env, natives);
    }
  }

  /** The instructions FoldOne appends. */
  function FoldCode(op: Op, code: Code, p: Pair, a: Acc): (more: seq<Instr>)
    ensures code + more == FoldOne(op, code, p, a).0
    ensures forall k :: 0 <= k < |more| ==> Plain(more[k]) && BitOp(more[k])
  {
    var n := |code|;
    [Trunc(p.val), if op.AndOp? then And1(a.bits, n) else Or1(a.bits, n), Or1(a.anyNull, p.nul), Not1(p.nul),
     if op.AndOp? then Not1(n) else Trunc(n), And1(n + 3, n + 4), Or1(a.decided, n + 5)]
  }

  lemma ThenBits(t: State, code: Code, more: Code, s: State, env: Env, natives: set<nat>, ds: set<nat>)
    requires s.regs == [] && (forall k :: 0 <= k < |more| ==> Plain(more[k]))
    requires Marshals(t, After(code, s, env, natives), ds, !After(code, s, env, natives).raised)
    ensures var u := After(code + more, s, env, natives); Marshals(t, u, ds, !u.raised)
  {
    hide Run, After, Marshals;
    ThenPlain(t, code, more, s, env, natives, ds, !After(code, s, env, natives).raised);
    if After(code, s, env, natives).raised { NothingAfter(code, code + more, s, env, natives); }
    else { MarshalsLess(t, After(code + more, s, env, natives), ds); }
  }

  lemma MarshalsLess(t: State, u: State, ds: set<nat>)
    requires Marshals(t, u, ds, true)
    ensures Marshals(t, u, ds, false)
  {
  }

  lemma {:induction false} BoolMarshals(op: Op, es: Exprs, code: Code, s: State, env: Env, natives: set<nat>)
    requires s.regs == [] && AllShaped(es) && (op.NotOp? ==> es.Cons? && es.tail.Nil?)
    requires !After(code, s, env, natives).raised
    ensures var r := CompileBool(op, es, code);
      var u := After(r.code, s, env, natives);
      Marshals(After(code, s, env, natives), u, AllNatives(es, natives), r.result.Some? && !u.raised)
    decreases es, 2
  {
    hide Run, After, Marshals, CompileBool;
    if op.NotOp? { NotMarshals(es, code, s, env, natives); } else { AndOrMarshals(op, es, code, s, env, natives); }
  }

  lemma {:induction false} NotMarshals(es: Exprs, code: Code, s: State, env: Env, natives: set<nat>)
    requires s.regs == [] && AllShaped(es) && es.Cons? && es.tail.Nil? && !After(code, s, env, natives).raised
    ensures var r := CompileBool(NotOp, es, code);
      var u := After(r.code, s, env, natives);
      Marshals(After(code, s, env, natives), u, AllNatives(es, natives), r.result.Some? && !u.raised)
    decreases es, 1
  {
    hide Run, After, Marshals;
    var t, h := After(code, s, env, natives), Compile(es.head, code);
    assert AllNatives(es.tail, natives) == {};
    assert AllNatives(es, natives) == NativesIn(es.head, natives);
    ExprMarshals(es.head, code, s, env, natives);
    if h.result.Some? {
      var more := [Trunc(h.result.value.val), Not1(|h.code|)];
      assert h.code + more == CompileBool(NotOp, es, code).code;
      ThenBits(t, h.code, more, s, env, natives, NativesIn(es.head, natives));
    }
  }

  lemma {:induction false} AndOrMarshals(op: Op, es: Exprs, code: Code, s: State, env: Env, natives: set<nat>)
    requires s.regs == [] && AllShaped(es) && !op.NotOp? && !After(code, s, env, natives).raised
    ensures var r := CompileBool(op, es, code);
      var u := After(r.code, s, env, natives);
      Marshals(After(code, s, env, natives), u, AllNatives(es, natives), r.result.Some? && !u.raised)
    decreases es, 1
  {
    hide Run, After, Marshals, AllShaped, AllNatives, Fold;
    var t, n, ds := After(code, s, env, natives), |code|, AllNatives(es, natives);
    var more := [Lit(Bit(op.AndOp?)), Lit(0), Lit(0)];
    var c := code + [Lit(Bit(op.AndOp?))] + [Lit(0)] + [Lit(0)];
    assert code + more == c;
    Stays(t);
    ThenPlain(t, code, more, s, env, natives, {}, true);
    BitsRun(code, more, s, env, natives);
    FoldMarshals(op, es, c, Acc(n, n + 1, n + 2), s, env, natives);
    var r := Fold(op, es, c, Acc(n, n + 1, n + 2));
    var v := After(r.code, s, env, natives);
    MarshalsTrans(t, After(c, s, env, natives), v, {}, ds, r.result.Some? && !v.raised);
    assert {} + ds == ds;
    if r.result.Some? {
      var js := [Not1(r.result.value.decided), And1(r.result.value.anyNull, |r.code|)];
      assert r.code + js == CompileBool(op, es, code).code;
      ThenBits(t, r.code, js, s, env, natives, ds);
    }
  }

  // ---- statements ----

  /** What becomes of the value: stored in a by-value variable, copied into a by-reference one, or
      kept in a register (a condition, or a native array element). */
  datatype Use = ByValue(v: nat) | ByReference(w: nat) | InRegister

  function Opening(scoped: bool): Code { if scoped then [Enter] else [] }
  function Closing(scoped: bool): Code { if scoped then [Leave] else [] }

  function CopyCode(scoped: bool, v: nat, p: Pair): Instr {
    if scoped then StoreCopyLeave(v, p) else StoreCopy(v, p)
  }

  function TargetOf(u: Use): nat
    requires !u.InRegister?
  {
    if u.ByValue? then u.v else u.w
  }

  /** What is done with the value; on a bail-out the scope is left before Tier 3 takes over. */
  function UseCode(p: Option<Pair>, u: Use, scoped: bool): Code {
    if p.None? then Closing(scoped)
    else match u
      case ByValue(v) => [StoreByVal(v, p.value)] + Closing(scoped)
      case ByReference(v) => [CopyCode(scoped, v, p.value)]
      case InRegister => Closing(scoped)
  }

  /** Code of a Tier 2 statement. */
  function Statement(e: Expr, u: Use, natives: set<nat>): Code {
    var scoped := WantsScope(e, natives);
    var r := Compile(e, Opening(scoped));
    r.code + UseCode(r.result, u, scoped)
  }

  /** Before and after a statement: outside any scope, and no variable points into one. */
  ghost predicate Settled(s: State) { s.cur == Durable && s.depth == 0 && !Dangling(s) && !s.raised }

  lemma Opened(scoped: bool, s: State, env: Env, natives: set<nat>)
    requires s.regs == [] && Settled(s)
    ensures var t := After(Opening(scoped), s, env, natives);
      t.cur == (if scoped then Scope else Durable) && t.depth == (if scoped then 1 else 0) && !Dangling(t) &&
      t.homes == s.homes && t.marshalled == s.marshalled && t.stored == s.stored &&
      !t.raised
  {
    assert [Enter][..0] == [];
    assert scoped ==> Run([], s, env, natives) == s;
    var t := After(Opening(scoped), s, env, natives);
    assert forall d :: HomeOf(t, d) == HomeOf(s, d);
  }

  lemma Closed(code: Code, scoped: bool, s: State, env: Env, natives: set<nat>)
    requires s.regs == []
    requires var t := After(code, s, env, natives);
      !Dangling(t) && t.cur == (if scoped then Scope else Durable) && t.depth == (if scoped then 1 else 0) && !t.raised
    ensures Settled(After(code + Closing(scoped), s, env, natives))
    ensures var t, u := After(code, s, env, natives), After(code + Closing(scoped), s, env, natives);
      u.marshalled == t.marshalled && u.stored == t.stored
  {
    if scoped {
      AfterLast(code, Leave, s, env, natives);
      assert forall d :: HomeOf(After(code + [Leave], s, env, natives), d) == HomeOf(After(code, s, env, natives), d);
    } else {
      assert code + Closing(scoped) == code;
    }
  }

  /** Every Tier 2 statement, completed or given up half way, leaves as many scopes as it enters and
      leaves no variable pointing into one, unless a function raises, when no variable is stored to; it marshals a
      native array exactly when the tree reads one. */
  lemma StatementSettles(e: Expr, u: Use, s: State, env: Env, natives: set<nat>)
    requires s.regs == [] && Settled(s) && s.marshalled == {} && Shaped(e)
    ensures var t := After(Statement(e, u, natives), s, env, natives);
      && t.marshalled <= NativesIn(e, natives) && (if t.raised then t.stored == s.stored else Settled(t))
      && (Compile(e, Opening(WantsScope(e, natives))).result.Some? && !t.raised ==>
            (t.marshalled != {} <==> ReadsNative(e, natives)))
  {
    hide Run, After, Compile;
    var scoped := WantsScope(e, natives);
    var r := Compile(e, Opening(scoped));
    Opened(scoped, s, env, natives);
    ExprMarshals(e, Opening(scoped), s, env, natives);
    ReadsIsSome(e, natives);
    var t := After(r.code, s, env, natives);
    if t.raised { NothingAfter(r.code, Statement(e, u, natives), s, env, natives); }
    else { UseSettles(r.code, r.result, u, scoped, s, env, natives); }
  }

  /** From the value on. */
  lemma UseSettles(code: Code, p: Option<Pair>, u: Use, scoped: bool, s: State, env: Env, natives: set<nat>)
    requires s.regs == []
    requires var t := After(code, s, env, natives);
      !Dangling(t) && t.cur == (if scoped then Scope else Durable) && t.depth == (if scoped then 1 else 0) && !t.raised
    ensures var t, v := After(code, s, env, natives), After(code + UseCode(p, u, scoped), s, env, natives);
      && Settled(v) && v.marshalled == t.marshalled
      && v.stored == if p.None? || u.InRegister? then t.stored else t.stored[TargetOf(u) := ValueIn(t, p.value)]
  {
    hide Run, After;
    var t := After(code, s, env, natives);
    if p.None? || u.InRegister? {
      Closed(code, scoped, s, env, natives);
    } else if u.ByValue? {
      var i := StoreByVal(u.v, p.value);
      AfterLast(code, i, s, env, natives);
      assert forall d :: HomeOf(After(code + [i], s, env, natives), d) == HomeOf(t, d);
      Closed(code + [i], scoped, s, env, natives);
      assert code + UseCode(p, u, scoped) == code + [i] + Closing(scoped);
    } else {
      var i := CopyCode(scoped, u.w, p.value);
      AfterLast(code, i, s, env, natives);
      assert forall d :: HomeOf(After(code + [i], s, env, natives), d) == if d == u.w then Durable else HomeOf(t, d);
    }
  }

  /** What a variable is seen to hold. */
  function Content(v: Value): Option<nat> { if v.isnull then None else Some(v.bits) }

  /** How an assignment ends. */
  datatype Kept = Kept(content: Option<nat>) | Refused | Failed

  /** The interpreter's assignment refuses NULL for a variable declared NOT NULL. */
  function InterpretedStore(e: Expr, env: Env, notnull: bool): Kept {
    var r := Eval(true, e, env);
    if r.Raises? then Failed else if notnull && r.v.isnull then Refused else Kept(Content(r.v))
  }

  /** How the compiled assignment to d ended. */
  function CompiledStore(t: State, d: nat): Kept
    requires !t.raised ==> d in t.stored
  {
    if t.raised then Failed else Kept(Content(t.stored[d]))
  }

  /** Both Tier 2 stores, scoped or not, leave in their target what the expression yields and in no other variable
      anything.  They end as the interpreter's assignment exactly unless the interpreter does not come to some
      operand of an AND or OR that raises, or the target is declared NOT NULL, which they do not test, and the
      expression yields NULL. */
  lemma StoreExact(e: Expr, u: Use, s: State, env: Env, natives: set<nat>, notnull: bool)
    requires s.regs == [] && Settled(s) && Shaped(e) && Typed(e, env) && !u.InRegister?
    requires Compile(e, Opening(WantsScope(e, natives))).result.Some?
    ensures var t, d, v := After(Statement(e, u, natives), s, env, natives), TargetOf(u), Eval(true, e, env);
      && (if t.raised then t.stored == s.stored else d in t.stored && t.stored == s.stored[d := t.stored[d]])
      && (CompiledStore(t, d) == InterpretedStore(e, env, notnull) <==>
            v.Raises? || !(Hides(e, env) || (notnull && v.v.isnull)))
  {
    hide Run, After, Compile, Eval, Dangling, Marshals, Hides, Settled, UseCode;
    StoreRuns(e, u, s, env, natives);
    EvalDeparts(e, env);
  }

  lemma StoreRuns(e: Expr, u: Use, s: State, env: Env, natives: set<nat>)
    requires s.regs == [] && Settled(s) && Shaped(e) && Typed(e, env) && !u.InRegister?
    requires Compile(e, Opening(WantsScope(e, natives))).result.Some?
    ensures var t, d, v := After(Statement(e, u, natives), s, env, natives), TargetOf(u), Eval(false, e, env);
      if v.Raises? then t.raised && t.stored == s.stored
      else
        && !t.raised && d in t.stored && t.stored == s.stored[d := t.stored[d]]
        && Content(t.stored[d]) == Content(v.v)
  {
    hide Run, After, Compile, Eval, Dangling, UseCode, HomeOf;
    var scoped := WantsScope(e, natives);
    var r, v := Compile(e, Opening(scoped)), Eval(false, e, env);
    Opened(scoped, s, env, natives);
    ExprMarshals(e, Opening(scoped), s, env, natives);
    CompileRuns(e, Opening(scoped), s, env, natives);
    var t := After(r.code, s, env, natives);
    StoredKept(After(Opening(scoped), s, env, natives), t, NativesIn(e, natives), r.result.Some? && !t.raised);
    if t.raised { NothingAfter(r.code, Statement(e, u, natives), s, env, natives); }
    else {
      ReadsIsSome(e, natives);
      NotDangling(scoped, After(Opening(scoped), s, env, natives), t, NativesIn(e, natives));
      UseSettles(r.code, r.result, u, scoped, s, env, natives);
    }
  }

  lemma NotDangling(scoped: bool, t: State, u: State, ds: set<nat>)
    requires !Dangling(t) && t.cur == (if scoped then Scope else Durable) && Marshals(t, u, ds, true)
    requires scoped ==> ds == {}
    ensures !Dangling(u)
  {
  }

  lemma StoredKept(t: State, u: State, ds: set<nat>, complete: bool)
    requires Marshals(t, u, ds, complete)
    ensures u.stored == t.stored
  {
  }

  /** A variable assigned a NULL variable: declared NOT NULL or not, it becomes NULL. */
  lemma NullKept(x: nat, u: Use, s: State, env: Env, natives: set<nat>)
    requires s.regs == [] && Settled(s) && !u.InRegister? && env(x).isnull
    ensures var t, d := After(Statement(Param(x), u, natives), s, env, natives), TargetOf(u);
      && !t.raised && d in t.stored && t.stored[d].isnull && InterpretedStore(Param(x), env, true) == Refused
  {
    hide Run, After, Statement;
    StoreRuns(Param(x), u, s, env, natives);
  }

  /** x AND f() with x false, or x OR f() with x true, and f raising: the compiled assignment raises, the interpreter's
      stores x. */
  lemma HiddenRaises(op: Op, x: nat, f: Fn, u: Use, s: State, env: Env, natives: set<nat>)
    requires s.regs == [] && Settled(s) && !u.InRegister? && !op.NotOp?
    requires env(x) == Value(if op == OrOp then 1 else 0, false) && !f.poly && f.apply([]) == Raises && Blind(f)
    ensures var e := Bool(op, Cons(Param(x), Cons(Call(f, Nil), Nil)));
      && After(Statement(e, u, natives), s, env, natives).raised
      && InterpretedStore(e, env, false) == Kept(Some(if op == OrOp then 1 else 0))
  {
    hide Run, After, Statement, Compile;
    var fs := Cons(Call(f, Nil), Nil);
    var es := Cons(Param(x), fs);
    var e := Bool(op, es);
    CallRaises(op, f, env);
    assert Shaped(Param(x)) && Typed(Param(x), env) && Boolean(Param(x), env);
    assert AllShaped(es) && AllTyped(es, env) && AllBool(es, env);
    FoldCompiles(op, x, f, Opening(WantsScope(e, natives)));
    StoreRuns(e, u, s, env, natives);
    assert Eval(true, Param(x), env) == Done(env(x)) == Eval(false, Param(x), env);
    assert Folded(true, op, es, env) == Done(Some(op == OrOp)) && Folded(false, op, es, env) == Raises;
    assert Eval(true, e, env) == Done(env(x));
  }

  lemma CallRaises(op: Op, f: Fn, env: Env)
    requires f.apply([]) == Raises && Blind(f)
    ensures var fs := Cons(Call(f, Nil), Nil);
      && Folded(false, op, fs, env) == Raises && AllShaped(fs) && AllTyped(fs, env) && AllBool(fs, env)
  {
    assert EvalAll(false, Nil, env) == Done([]);
    assert Eval(false, Call(f, Nil), env) == Raises;
    assert Shaped(Call(f, Nil)) && Typed(Call(f, Nil), env);
    assert AllShaped(Nil) && AllTyped(Nil, env) && AllBool(Nil, env);
  }

  lemma FoldCompiles(op: Op, x: nat, f: Fn, code: Code)
    requires !f.poly && !op.NotOp?
    ensures Compile(Bool(op, Cons(Param(x), Cons(Call(f, Nil), Nil))), code).result.Some?
  {
    var n, c := |code|, code + [Lit(Bit(op.AndOp?))] + [Lit(0)] + [Lit(0)];
    var h := Compile(Param(x), c);
    var (c1, a1) := FoldOne(op, h.code, h.result.value, Acc(n, n + 1, n + 2));
    assert CompileArgs(Nil, c1) == Emitted(c1, Some([]));
    var k := Compile(Call(f, Nil), c1);
    assert k.result.Some?;
    var (c2, a2) := FoldOne(op, k.code, k.result.value, a1);
    assert Fold(op, Nil, c2, a2).result.Some?;
    assert Fold(op, Cons(Call(f, Nil), Nil), c1, a1).result.Some?;
    assert Fold(op, Cons(Param(x), Cons(Call(f, Nil), Nil)), c, Acc(n, n + 1, n + 2)).result.Some?;
  }

  /** Withholding the scope is needed: a tree that reads a native array inside a scope always leaves
      that array's variable pointing into memory the scope's reset frees. */
  lemma ScopeWouldDangle(e: Expr, s: State, env: Env, natives: set<nat>)
    requires s.regs == [] && Settled(s) && Shaped(e) && Compile(e, [Enter]).result.Some? && ReadsNative(e, natives)
    ensures var t := After(Compile(e, [Enter]).code + [Leave], s, env, natives); t.raised || Dangling(t)
  {
    hide Run, After, Compile;
    Opened(true, s, env, natives);
    ExprMarshals(e, [Enter], s, env, natives);
    ReadsIsSome(e, natives);
    var c := Compile(e, [Enter]).code;
    AfterLast(c, Leave, s, env, natives);
    if !After(c, s, env, natives).raised {
      var d :| d in NativesIn(e, natives);
      assert HomeOf(After(c + [Leave], s, env, natives), d) == HomeOf(After(c, s, env, natives), d);
    }
  }
}
