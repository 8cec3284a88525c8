/** Tier 2 expressions: direct calls of built-in functions and three-valued AND/OR/NOT. */
module Tier2Expr {
  import opened Cfg

  /** Datums are bit patterns; a boolean is 0 or 1.  A NULL comes with arbitrary bits. */
  datatype Value = Value(bits: nat, isnull: bool)

  /** A result, or an error. */
  datatype Ev<T> = Done(v: T) | Raises

  /** What the compiler knows of a function, and what the function does.  `poly` is found out only
      while compiling. */
  datatype Fn = Fn(builtin: bool, poly: bool, strict: bool, byref: bool, isBool: bool, apply: seq<Value> -> Ev<Value>)

  datatype Op = AndOp | OrOp | NotOp

  datatype Expr =
    | Const(value: Value)
    | Param(dno: nat)
    | Relabel(arg: Expr)
    | Call(fn: Fn, args: Exprs)
    | Bool(op: Op, operands: Exprs)
    | Other

  datatype Exprs = Nil | Cons(head: Expr, tail: Exprs)

  /** The test that admits a tree. */
  predicate CanCompile(e: Expr) {
    match e
    case Const(_) => true
    case Param(_) => true
    case Relabel(a) => CanCompile(a)
    case Call(fn, args) => fn.builtin && AllCompile(args)
    case Bool(_, args) => AllCompile(args)
    case Other => false
  }

  predicate AllCompile(es: Exprs) { es.Cons? ==> CanCompile(es.head) && AllCompile(es.tail) }

  /** Some function in the tree returns a freshly allocated value. */
  predicate Allocates(e: Expr) {
    match e
    case Relabel(a) => Allocates(a)
    case Call(fn, args) => fn.byref || AnyAllocates(args)
    case Bool(_, args) => AnyAllocates(args)
    case _ => false
  }

  predicate AnyAllocates(es: Exprs) { es.Cons? && (Allocates(es.head) || AnyAllocates(es.tail)) }

  /** Some parameter in the tree is a native array. */
  predicate ReadsNative(e: Expr, natives: set<nat>) {
    match e
    case Param(d) => d in natives
    case Relabel(a) => ReadsNative(a, natives)
    case Call(_, args) => AnyReadsNative(args, natives)
    case Bool(_, args) => AnyReadsNative(args, natives)
    case _ => false
  }

  predicate AnyReadsNative(es: Exprs, natives: set<nat>) {
    es.Cons? && (ReadsNative(es.head, natives) || AnyReadsNative(es.tail, natives))
  }

  predicate WantsScope(e: Expr, natives: set<nat>) { Allocates(e) && !ReadsNative(e, natives) }

  /** The nodes of a tree. */
  function Nodes(e: Expr): seq<Expr>
    decreases e, 1
  {
    [e] + match e
      case Relabel(a) => Nodes(a)
      case Call(_, args) => AllNodes(args)
      case Bool(_, args) => AllNodes(args)
      case _ => []
  }

  function AllNodes(es: Exprs): seq<Expr>
    decreases es, 0
  {
    if es.Nil? then [] else Nodes(es.head) + AllNodes(es.tail)
  }

  /** The test admits exactly the trees of the known kinds of node that call built-in functions only; a scope is
      wanted exactly when some function in the tree returns a freshly allocated value and no native array is read. */
  lemma {:induction false} AdmitsExactly(e: Expr, natives: set<nat>)
    ensures CanCompile(e) <==> forall n <- Nodes(e) :: !n.Other? && (n.Call? ==> n.fn.builtin)
    ensures Allocates(e) <==> exists n :: n in Nodes(e) && n.Call? && n.fn.byref
    ensures ReadsNative(e, natives) <==> exists n :: n in Nodes(e) && n.Param? && n.dno in natives
    decreases e, 1
  {
    assert e in Nodes(e);
    match e
    case Relabel(a) => AdmitsExactly(a, natives);
    case Call(_, args) => AllAdmitExactly(args, natives);
    case Bool(_, args) => AllAdmitExactly(args, natives);
    case _ =>
  }

  lemma {:induction false} AllAdmitExactly(es: Exprs, natives: set<nat>)
    ensures AllCompile(es) <==> forall n <- AllNodes(es) :: !n.Other? && (n.Call? ==> n.fn.builtin)
    ensures AnyAllocates(es) <==> exists n :: n in AllNodes(es) && n.Call? && n.fn.byref
    ensures AnyReadsNative(es, natives) <==> exists n :: n in AllNodes(es) && n.Param? && n.dno in natives
    decreases es, 0
  {
    if es.Cons? { AdmitsExactly(es.head, natives); AllAdmitExactly(es.tail, natives); }
  }

  // ---- what an expression means ----

  type Env = nat -> Value

  /** Truth values; NULL is None. */
  function And3(a: Option<bool>, b: Option<bool>): Option<bool> {
    if a == Some(false) || b == Some(false) then Some(false) else if a == None || b == None then None else Some(true)
  }
  function Or3(a: Option<bool>, b: Option<bool>): Option<bool> {
    if a == Some(true) || b == Some(true) then Some(true) else if a == None || b == None then None else Some(false)
  }
  function Not3(a: Option<bool>): Option<bool> { if a == None then None else Some(!a.value) }

  function Truth(v: Value): Option<bool> { if v.isnull then None else Some(v.bits == 1) }
  function OfTruth(t: Option<bool>): Value { Value(if t == Some(true) then 1 else 0, t.None?) }

  function AnyNull(vs: seq<Value>): bool { exists k :: 0 <= k < |vs| && vs[k].isnull }

  /** Strict functions answer NULL on a NULL argument without being called. */
  function Apply(fn: Fn, vs: seq<Value>): Ev<Value> {
    if fn.strict && AnyNull(vs) then Done(Value(0, true)) else fn.apply(vs)
  }

  function Combine(op: Op, a: Option<bool>, b: Option<bool>): Option<bool> {
    if op.AndOp? then And3(a, b) else Or3(a, b)
  }

  /** The operand settles the result: false for AND, true for OR. */
  predicate Decides(op: Op, t: Option<bool>) { t == Some(op.OrOp?) }

  /** What an expression yields.  The interpreter (`short`) stops AND and OR at the first operand that decides;
      compiled code evaluates all of them. */
  function Eval(short: bool, e: Expr, env: Env): Ev<Value>
    decreases e
  {
    match e
    case Const(v) => Done(if v.isnull then Value(0, true) else v)
    case Param(d) => Done(env(d))
    case Relabel(a) => Eval(short, a, env)
    case Call(fn, args) =>
      var vs := EvalAll(short, args, env);
      if vs.Raises? then Raises else Apply(fn, vs.v)
    case Bool(op, args) =>
      var t := Logic(short, op, args, env);
      if t.Raises? then Raises else Done(OfTruth(t.v))
    case Other => Done(Value(0, true))
  }

  function EvalAll(short: bool, es: Exprs, env: Env): Ev<seq<Value>>
    decreases es, 0
  {
    if es.Nil? then Done([])
    else
      var h := Eval(short, es.head, env);
      if h.Raises? then Raises
      else
        var r := EvalAll(short, es.tail, env);
        if r.Raises? then Raises else Done([h.v] + r.v)
  }

  /** AND and OR over any number of operands; NOT of the first. */
  function Logic(short: bool, op: Op, es: Exprs, env: Env): Ev<Option<bool>>
    decreases es, 1
  {
    if !op.NotOp? then Folded(short, op, es, env)
    else if es.Nil? then Done(None)
    else
      var h := Eval(short, es.head, env);
      if h.Raises? then Raises else Done(Not3(Truth(h.v)))
  }

  function Folded(short: bool, op: Op, es: Exprs, env: Env): Ev<Option<bool>>
    decreases es, 0
  {
    if es.Nil? then Done(Some(op.AndOp?))
    else
      var h := Eval(short, es.head, env);
      if h.Raises? then Raises
      else if short && Decides(op, Truth(h.v)) then Done(Truth(h.v))
      else
        var r := Folded(short, op, es.tail, env);
        if r.Raises? then Raises else Done(Combine(op, Truth(h.v), r.v))
  }

  // ---- operands the interpreter does not come to ----

  /** Some AND or OR in the tree has an operand that raises behind one that decides. */
  predicate Hides(e: Expr, env: Env)
    decreases e
  {
    match e
    case Relabel(a) => Hides(a, env)
    case Call(_, args) => AnyHides(args, env)
    case Bool(op, args) => if op.NotOp? then args.Cons? && Hides(args.head, env) else FoldHides(op, args, env)
    case _ => false
  }

  predicate AnyHides(es: Exprs, env: Env)
    decreases es, 0
  {
    es.Cons? && (Hides(es.head, env) || AnyHides(es.tail, env))
  }

  predicate FoldHides(op: Op, es: Exprs, env: Env)
    decreases es, 0
  {
    if es.Nil? then false
    else if Hides(es.head, env) then true
    else if Stops(op, es.head, env) then AnyRaises(es.tail, env)
    else FoldHides(op, es.tail, env)
  }

  predicate Stops(op: Op, e: Expr, env: Env) {
    Eval(true, e, env).Done? && Decides(op, Truth(Eval(true, e, env).v))
  }

  predicate AnyRaises(es: Exprs, env: Env) {
    es.Cons? && (Eval(false, es.head, env).Raises? || AnyRaises(es.tail, env))
  }

  /** Evaluating everything raises exactly when the interpreter raises or something is hidden from it; if it does
      not, it yields what the interpreter does. */
  ghost predicate Departs<T>(all: Ev<T>, short: Ev<T>, hidden: bool) {
    (all.Raises? <==> short.Raises? || hidden) && (all.Done? ==> all == short)
  }

  lemma {:induction false} EvalDeparts(e: Expr, env: Env)
    ensures Departs(Eval(false, e, env), Eval(true, e, env), Hides(e, env))
    decreases e, 1
  {
    match e
    case Relabel(a) => EvalDeparts(a, env);
    case Call(_, args) => AllDeparts(args, env);
    case Bool(op, args) =>
      if !op.NotOp? { FoldDeparts(op, args, env); } else if args.Cons? { EvalDeparts(args.head, env); }
    case _ =>
  }

  lemma {:induction false} AllDeparts(es: Exprs, env: Env)
    ensures Departs(EvalAll(false, es, env), EvalAll(true, es, env), AnyHides(es, env))
    decreases es, 0
  {
    if es.Cons? { EvalDeparts(es.head, env); AllDeparts(es.tail, env); }
  }

  lemma {:induction false} FoldDeparts(op: Op, es: Exprs, env: Env)
    requires !op.NotOp?
    ensures Departs(Folded(false, op, es, env), Folded(true, op, es, env), FoldHides(op, es, env))
    decreases es, 0
  {
    if es.Cons? {
      EvalDeparts(es.head, env);
      FoldDeparts(op, es.tail, env);
      FoldRaises(op, es.tail, env);
    }
  }

  lemma {:induction false} FoldRaises(op: Op, es: Exprs, env: Env)
    ensures Folded(false, op, es, env).Raises? <==> AnyRaises(es, env)
    decreases es
  {
    if es.Cons? { FoldRaises(op, es.tail, env); }
  }

  /** The same values, whatever bits lie behind the NULLs. */
  ghost predicate Alike(vs: seq<Value>, ws: seq<Value>) {
    && |vs| == |ws| && (forall k :: 0 <= k < |vs| ==> vs[k].isnull == ws[k].isnull)
    && (forall k :: 0 <= k < |vs| ==> vs[k].isnull || vs[k].bits == ws[k].bits)
  }

  /** Functions do not look behind a NULL. */
  ghost predicate Blind(fn: Fn) { forall vs, ws :: Alike(vs, ws) ==> fn.apply(vs) == fn.apply(ws) }

  /** Operands of AND/OR/NOT are boolean, and NOT has one. */
  ghost predicate Typed(e: Expr, env: Env) {
    match e
    case Relabel(a) => Typed(a, env)
    case Call(fn, args) => Blind(fn) && AllTyped(args, env)
    case Bool(op, args) => AllTyped(args, env) && AllBool(args, env) && (op.NotOp? ==> args.Cons?)
    case _ => true
  }

  ghost predicate AllTyped(es: Exprs, env: Env) { es.Cons? ==> Typed(es.head, env) && AllTyped(es.tail, env) }

  /** A non-NULL result is 0 or 1. */
  ghost predicate Boolean(e: Expr, env: Env) {
    var r := Eval(false, e, env); r.Done? ==> r.v.isnull || r.v.bits < 2
  }

  ghost predicate AllBool(es: Exprs, env: Env) { es.Cons? ==> Boolean(es.head, env) && AllBool(es.tail, env) }
}
