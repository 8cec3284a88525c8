/** Local assignment targets.

    An assignment v := f(.., v, ..) may hand v's value away before f is evaluated, leaving v without
    a value if f raises.  The marking walk licenses this only for targets declared inside the
    exception block closest to the assignment. */
module Marking {

  /** A declared variable and the variables its default reads. */
  datatype Decl = Decl(v: nat, uses: seq<nat>)

  /** Variables are datum numbers; `uses` lists an expression's references in evaluation order;
      `id` numbers the source expressions of assignments. */
  datatype Stmt =
    | Eval(uses: seq<nat>)                                   // any statement that only reads
    | Assign(id: nat, target: nat, uses: seq<nat>)
    | If(cond: seq<nat>, thn: Stmts, els: Stmts)
    | Loop(cond: seq<nat>, body: Stmts)
    | Leave(isExit: bool, depth: nat)                        // EXIT/CONTINUE, by enclosing construct
    | Return(value: seq<nat>)
    | Block(decls: seq<Decl>, inner: Stmts)
    | Try(vars: seq<Decl>, protected: Stmts, handlers: Handlers)

  datatype Stmts = Nil | Cons(head: Stmt, tail: Stmts)
  datatype Handlers = NoMore | When(codes: set<int>, action: Stmts, rest: Handlers)

  function Vars(ds: seq<Decl>): (r: set<nat>)
    ensures forall v :: v in r <==> exists k :: 0 <= k < |ds| && ds[k].v == v
  {
    set k | 0 <= k < |ds| :: ds[k].v
  }

  function Elements(xs: seq<nat>): set<nat> { set x <- xs }

  // ---- the marking walk ----

  /** Source expressions of the assignments in a statement. */
  function Ids(s: Stmt): set<nat> {
    match s
    case Assign(id, _, _) => {id}
    case If(_, t, e) => AllIds(t) + AllIds(e)
    case Loop(_, b) => AllIds(b)
    case Block(_, b) => AllIds(b)
    case Try(_, b, hs) => AllIds(b) + HandlerIds(hs)
    case _ => {}
  }

  function AllIds(ss: Stmts): set<nat> { if ss.Nil? then {} else Ids(ss.head) + AllIds(ss.tail) }
  function HandlerIds(hs: Handlers): set<nat> { if hs.NoMore? then {} else AllIds(hs.action) + HandlerIds(hs.rest) }

  /** Every expression object belongs to one statement, and its flag lies below n. */
  predicate Tree(s: Stmt, n: nat) {
    match s
    case Assign(id, _, _) => id < n
    case If(_, t, e) => AllTree(t, n) && AllTree(e, n) && AllIds(t) !! AllIds(e)
    case Loop(_, b) => AllTree(b, n)
    case Block(_, b) => AllTree(b, n)
    case Try(_, b, hs) => AllTree(b, n) && HandlersTree(hs, n) && AllIds(b) !! HandlerIds(hs)
    case _ => true
  }

  predicate AllTree(ss: Stmts, n: nat) {
    ss.Cons? ==> Tree(ss.head, n) && AllTree(ss.tail, n) && Ids(ss.head) !! AllIds(ss.tail)
  }

  predicate HandlersTree(hs: Handlers, n: nat) {
    hs.When? ==> AllTree(hs.action, n) && HandlersTree(hs.rest, n) && AllIds(hs.action) !! HandlerIds(hs.rest)
  }

  type Flags = seq<bool>

  function Flag(f: Flags, id: nat): bool { id < |f| && f[id] }

  /** Flags say which targets are declared within the closest exception block, given those known to be. */
  predicate Marked(s: Stmt, locals: set<nat>, f: Flags) {
    match s
    case Assign(id, v, _) => Flag(f, id) <==> v in locals
    case If(_, t, e) => AllMarked(t, locals, f) && AllMarked(e, locals, f)
    case Loop(_, b) => AllMarked(b, locals, f)
    case Block(ds, b) => AllMarked(b, locals + Vars(ds), f)
    case Try(_, b, hs) => AllMarked(b, {}, f) && HandlersMarked(hs, f)
    case _ => true
  }

  predicate AllMarked(ss: Stmts, locals: set<nat>, f: Flags) {
    ss.Cons? ==> Marked(ss.head, locals, f) && AllMarked(ss.tail, locals, f)
  }

  predicate HandlersMarked(hs: Handlers, f: Flags) {
    hs.When? ==> AllMarked(hs.action, {}, f) && HandlersMarked(hs.rest, f)
  }

  ghost predicate SameOn(ids: set<nat>, f: Flags, g: Flags) { forall id <- ids :: Flag(f, id) == Flag(g, id) }

  /** Marks depend only on the flags of a statement's own expressions. */
  lemma {:induction false} MarkedKeeps(s: Stmt, locals: set<nat>, f: Flags, g: Flags)
    requires Marked(s, locals, f) && SameOn(Ids(s), f, g)
    ensures Marked(s, locals, g)
    decreases s
  {
    match s
    case If(_, t, e) => AllMarkedKeeps(t, locals, f, g); AllMarkedKeeps(e, locals, f, g);
    case Loop(_, b) => AllMarkedKeeps(b, locals, f, g);
    case Block(ds, b) => AllMarkedKeeps(b, locals + Vars(ds), f, g);
    case Try(_, b, hs) => AllMarkedKeeps(b, {}, f, g); HandlersMarkedKeep(hs, f, g);
    case _ =>
  }

  lemma {:induction false} AllMarkedKeeps(ss: Stmts, locals: set<nat>, f: Flags, g: Flags)
    requires AllMarked(ss, locals, f) && SameOn(AllIds(ss), f, g)
    ensures AllMarked(ss, locals, g)
    decreases ss
  {
    if ss.Cons? { MarkedKeeps(ss.head, locals, f, g); AllMarkedKeeps(ss.tail, locals, f, g); }
  }

  lemma {:induction false} HandlersMarkedKeep(hs: Handlers, f: Flags, g: Flags)
    requires HandlersMarked(hs, f) && SameOn(HandlerIds(hs), f, g)
    ensures HandlersMarked(hs, g)
    decreases hs
  {
    if hs.When? { AllMarkedKeeps(hs.action, {}, f, g); HandlersMarkedKeep(hs.rest, f, g); }
  }

  /** The walk: flags live on the expressions and are set in place. */
  class Marker {
    var isLocal: array<bool>

    constructor (n: nat)
      ensures fresh(isLocal) && isLocal.Length == n
    {
      isLocal := new bool[n];
    }

    method MarkExpr(id: nat, target: nat, locals: set<nat>)
      requires id < isLocal.Length
      modifies isLocal
      ensures isLocal[..] == old(isLocal[..])[id := target in locals]
    {
      isLocal[id] := target in locals;
    }

    method MarkStmt(s: Stmt, locals: set<nat>)
      requires Tree(s, isLocal.Length)
      modifies isLocal
      ensures Marked(s, locals, isLocal[..])
      ensures forall id :: 0 <= id < isLocal.Length && id !in Ids(s) ==> isLocal[id] == old(isLocal[id])
      decreases s, 1
    {
      match s
      case Assign(id, v, _) => MarkExpr(id, v, locals);
      case If(_, t, e) =>
        MarkAll(t, locals);
        ghost var f := isLocal[..];
        MarkAll(e, locals);
        AllMarkedKeeps(t, locals, f, isLocal[..]);
      case Loop(_, b) => MarkAll(b, locals);
      case Block(ds, b) =>
        var here := locals;
        for i := 0 to |ds|
          invariant here == locals + Vars(ds[..i])
        {
          assert ds[..i + 1] == ds[..i] + [ds[i]];
          here := here + {ds[i].v};
        }
        assert ds[..|ds|] == ds;
        MarkAll(b, here);
      case Try(_, b, hs) =>
        MarkAll(b, {});
        ghost var f := isLocal[..];
        MarkHandlers(hs);
        AllMarkedKeeps(b, {}, f, isLocal[..]);
      case _ =>
    }

    method MarkAll(ss: Stmts, locals: set<nat>)
      requires AllTree(ss, isLocal.Length)
      modifies isLocal
      ensures AllMarked(ss, locals, isLocal[..])
      ensures forall id :: 0 <= id < isLocal.Length && id !in AllIds(ss) ==> isLocal[id] == old(isLocal[id])
      decreases ss, 0
    {
      if ss.Cons? {
        MarkStmt(ss.head, locals);
        ghost var f := isLocal[..];
        MarkAll(ss.tail, locals);
        MarkedKeeps(ss.head, locals, f, isLocal[..]);
      }
    }

    method MarkHandlers(hs: Handlers)
      requires HandlersTree(hs, isLocal.Length)
      modifies isLocal
      ensures HandlersMarked(hs, isLocal[..])
      ensures forall id :: 0 <= id < isLocal.Length && id !in HandlerIds(hs) ==> isLocal[id] == old(isLocal[id])
      decreases hs, 0
    {
      if hs.When? {
        MarkAll(hs.action, {});
        ghost var f := isLocal[..];
        MarkHandlers(hs.rest);
        AllMarkedKeeps(hs.action, {}, f, isLocal[..]);
      }
    }

    /** Parameters count as local at the outer level. */
    method MarkFunction(args: seq<nat>, body: Stmt)
      requires Tree(body, isLocal.Length)
      modifies isLocal
      ensures Marked(body, Elements(args), isLocal[..])
    {
      var locals: set<nat> := {};
      for i := 0 to |args|
        invariant locals == Elements(args[..i])
      {
        assert args[..i + 1] == args[..i] + [args[i]];
        locals := locals + {args[i]};
      }
      assert args[..|args|] == args;
      MarkStmt(body, locals);
    }
  }
}
