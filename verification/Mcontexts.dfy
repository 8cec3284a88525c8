/** Statement memory contexts and the error data of running handlers. */
module Mcontexts {
  import opened Cfg

  /** Contexts form a tree: every context but 0, the function's own, has an older parent. */
  type Tree = map<nat, nat>

  ghost predicate IsTree(up: Tree) {
    0 in up && up[0] == 0 && forall c <- up :: c > 0 ==> up[c] < c && up[c] in up
  }

  /** a is c or an ancestor of c. */
  predicate Above(up: Tree, a: nat, c: nat)
    decreases c
  {
    a == c || (c in up && up[c] < c && Above(up, a, up[c]))
  }

  lemma {:induction false} AboveOlder(up: Tree, a: nat, c: nat)
    requires Above(up, a, c)
    ensures a <= c
    decreases c
  {
    if a != c { AboveOlder(up, a, up[c]); }
  }

  lemma {:induction false} AboveTrans(up: Tree, a: nat, b: nat, c: nat)
    requires Above(up, a, b) && Above(up, b, c)
    ensures Above(up, a, c)
    decreases c
  {
    if b != c { AboveTrans(up, a, b, up[c]); }
  }

  lemma {:induction false} AboveIn(up: Tree, a: nat, c: nat)
    requires IsTree(up) && c in up && Above(up, a, c)
    ensures a in up
    decreases c
  {
    if a != c { AboveIn(up, a, up[c]); }
  }

  /** Deleting the contexts below c. */
  function Pruned(up: Tree, c: nat): Tree {
    map x | x in up && (x == c || !Above(up, c, x)) :: up[x]
  }

  lemma PrunedTree(up: Tree, c: nat)
    requires IsTree(up)
    ensures IsTree(Pruned(up, c))
  {
    forall x | x in Pruned(up, c) && x > 0 ensures up[x] in Pruned(up, c) {
      if Above(up, c, up[x]) && up[x] != c {
        assert Above(up, c, x);
        AboveOlder(up, c, up[x]);
      }
    }
    if c != 0 && Above(up, c, 0) { AboveOlder(up, c, 0); }
  }

  /** Memory: the tree of contexts, and pieces of error data by identity with the context holding each. */
  datatype Mem = Mem(up: Tree, next: nat, errors: map<nat, nat>, nextError: nat)

  ghost predicate MemOk(m: Mem) {
    && IsTree(m.up) && (forall c <- m.up :: c < m.next)
    && (forall d <- m.errors :: d < m.nextError && m.errors[d] in m.up)
  }

  function NewChild(m: Mem, p: nat): Mem { m.(up := m.up[m.next := p], next := m.next + 1) }

  /** Reset: what c and the contexts below it hold is freed, the contexts below it are deleted. */
  function Reset(m: Mem, c: nat): Mem {
    m.(up := Pruned(m.up, c), errors := map d | d in m.errors && !Above(m.up, c, m.errors[d]) :: m.errors[d])
  }

  /** The contexts below c are deleted; what c itself holds stays. */
  function DeleteChildren(m: Mem, c: nat): Mem {
    m.(up := Pruned(m.up, c),
       errors := map d | d in m.errors && (m.errors[d] == c || !Above(m.up, c, m.errors[d])) :: m.errors[d])
  }

  function CopyError(m: Mem, c: nat): Mem { m.(errors := m.errors[m.nextError := c], nextError := m.nextError + 1) }

  /** Contexts at or above p, and the data they hold, survive from m to n. */
  ghost predicate Spared(m: Mem, p: nat, n: Mem) {
    && m.next <= n.next && m.nextError <= n.nextError
    && (forall c <- m.up :: Above(m.up, c, p) ==> c in n.up && n.up[c] == m.up[c])
    && (forall d <- m.errors :: Above(m.up, m.errors[d], p) ==> d in n.errors && n.errors[d] == m.errors[d])
  }

  lemma {:induction false} SamePath(m: Mem, p: nat, n: Mem, a: nat, x: nat)
    requires MemOk(m) && Spared(m, p, n) && p in m.up && Above(m.up, x, p)
    ensures Above(n.up, a, x) == Above(m.up, a, x) && x in n.up
    decreases x
  {
    AboveIn(m.up, x, p);
    if x > 0 {
      AboveTrans(m.up, m.up[x], x, p);
      SamePath(m, p, n, a, m.up[x]);
    }
  }

  lemma SparedTrans(m: Mem, p: nat, n: Mem, q: nat, o: Mem)
    requires MemOk(m) && MemOk(n) && p in m.up && Spared(m, p, n) && q in n.up && Above(n.up, p, q) && Spared(n, q, o)
    ensures Spared(m, p, o)
  {
    forall c | c in m.up && Above(m.up, c, p) ensures Above(n.up, c, q) {
      SamePath(m, p, n, c, p);
      AboveTrans(n.up, c, p, q);
    }
    forall d | d in m.errors && Above(m.up, m.errors[d], p) ensures Above(n.up, m.errors[d], q) {
      SamePath(m, p, n, m.errors[d], p);
      AboveTrans(n.up, m.errors[d], p, q);
    }
  }

  lemma NewChildOk(m: Mem, p: nat)
    requires MemOk(m) && p in m.up
    ensures MemOk(NewChild(m, p)) && Spared(m, p, NewChild(m, p))
  {
  }

  /** Work on a child of p spares everything at or above p. */
  lemma ResetOk(m: Mem, p: nat, c: nat)
    requires MemOk(m) && c in m.up && c > 0 && m.up[c] == p
    ensures MemOk(Reset(m, c)) && Spared(m, p, Reset(m, c)) && c in Reset(m, c).up && Reset(m, c).up[c] == p
  {
    PrunedTree(m.up, c);
    forall x | Above(m.up, x, p) ensures !Above(m.up, c, x) { NotBelow(m.up, p, c, x); }
  }

  lemma NotBelow(up: Tree, p: nat, c: nat, x: nat)
    requires p < c && Above(up, x, p)
    ensures !Above(up, c, x)
  {
    AboveOlder(up, x, p);
    if Above(up, c, x) { AboveOlder(up, c, x); }
  }

  lemma CaughtOk(m: Mem, p: nat, c: nat)
    requires MemOk(m) && c in m.up && c > 0 && m.up[c] == p
    ensures var n := DeleteChildren(CopyError(m, c), c);
      MemOk(n) && Spared(m, p, n) && c in n.up && n.up[c] == p && m.nextError in n.errors && n.errors[m.nextError] == c
  {
    var k := CopyError(m, c);
    PrunedTree(k.up, c);
    forall x | Above(m.up, x, p) ensures !Above(m.up, c, x) { NotBelow(m.up, p, c, x); }
  }

  // ---- what is left behind ----

  /** From m to n: contexts and data that exist in both are the same; new ones lie at or below root. */
  ghost predicate Grown(m: Mem, n: Mem, root: nat) {
    && m.next <= n.next && m.nextError <= n.nextError
    && (forall x <- n.up :: if x in m.up then n.up[x] == m.up[x] else m.next <= x && Above(n.up, root, x))
    && (forall d <- n.errors ::
          if d in m.errors then n.errors[d] == m.errors[d] else m.nextError <= d && Above(n.up, root, n.errors[d]))
  }

  /** Nothing is left behind but perhaps the context c. */
  ghost predicate Tidy(m: Mem, n: Mem, c: Option<nat>) {
    (forall x <- n.up :: x in m.up || c == Some(x)) && (forall d <- n.errors :: d in m.errors)
  }

  lemma {:induction false} PathKept(m: Mem, n: Mem, root: nat, a: nat, x: nat)
    requires IsTree(m.up) && IsTree(n.up) && Grown(m, n, root) && x in m.up && x in n.up
    ensures Above(n.up, a, x) == Above(m.up, a, x)
    decreases x
  {
    if x > 0 { PathKept(m, n, root, a, m.up[x]); }
  }

  lemma GrownTrans(m: Mem, n: Mem, o: Mem, root: nat, inner: nat)
    requires MemOk(m) && MemOk(n) && MemOk(o) && Grown(m, n, root) && Grown(n, o, inner)
    requires Above(o.up, root, inner)
    ensures Grown(m, o, root)
  {
    forall x | x in o.up && x !in m.up ensures m.next <= x && Above(o.up, root, x) {
      if x in n.up { PathKept(n, o, inner, root, x); } else { AboveTrans(o.up, root, inner, x); }
    }
    forall x | x in o.up && x in m.up ensures o.up[x] == m.up[x] {
      assert x < m.next;
      assert x in n.up;
    }
    forall d | d in o.errors && d !in m.errors ensures m.nextError <= d && Above(o.up, root, o.errors[d]) {
      if d in n.errors { PathKept(n, o, inner, root, o.errors[d]); }
      else { AboveTrans(o.up, root, inner, o.errors[d]); }
    }
    forall d | d in o.errors && d in m.errors ensures o.errors[d] == m.errors[d] {
      assert d < m.nextError;
      assert d in n.errors;
    }
  }

  lemma TidyTrans(m: Mem, n: Mem, o: Mem, b: Option<nat>, c: Option<nat>)
    requires Tidy(m, n, b) && Tidy(n, o, c) && (b.Some? ==> b == c)
    ensures Tidy(m, o, c)
  {
  }

  lemma NewChildGrown(m: Mem, p: nat)
    requires MemOk(m) && p in m.up
    ensures var n := NewChild(m, p); Grown(m, n, p) && Tidy(m, n, Some(m.next))
  {
    assert NewChild(m, p).up[m.next] == p;
    assert Above(NewChild(m, p).up, p, m.next);
  }

  lemma NotGrown(m: Mem, root: nat, c: Option<nat>)
    ensures Grown(m, m, root) && Tidy(m, m, c)
  {
  }

  /** Resetting c removes whatever has grown below it. */
  lemma ResetTidies(m: Mem, n: Mem, c: nat)
    requires MemOk(m) && MemOk(n) && Grown(m, n, c)
    ensures Tidy(m, Reset(n, c), Some(c)) && Grown(n, Reset(n, c), c)
  {
  }

  /** Catching at c keeps what has grown below it there, and only the error data. */
  lemma CaughtGrown(m: Mem, n: Mem, c: nat)
    requires MemOk(m) && MemOk(n) && Grown(m, n, c) && c in n.up && c in m.up
    ensures Grown(m, DeleteChildren(CopyError(n, c), c), c)
  {
  }

  /** What a run did: each step either finishes, leaves its construct or raises. */
  datatype Step =
    | Scratch(raises: bool)                                  // uses stmt_mcontext, then resets it
    | Inspect(reraises: bool)                                // reads the error being handled
    | LeaveStep                                              // EXIT, CONTINUE or RETURN
    | ForEach(passes: Steps, stops: bool)                    // keeps data across its body
    | TryBlock(body: Steps, matched: bool, handler: Steps)

  datatype Steps = Done | Then(first: Step, rest: Steps)

  datatype Outcome = Fine | Left | Raised

  /** What a piece of a run comes to: how it ends, how many errors are caught, and which piece of error data each
      Inspect reads. */
  datatype Tale = Tale(out: Outcome, caught: nat, read: seq<Option<nat>>)

  function Plus(a: Tale, b: Tale): Tale { Tale(b.out, a.caught + b.caught, a.read + b.read) }

  /** With `cur` the error being handled; the next error caught is number `next`. */
  function Tell(s: Step, cur: Option<nat>, next: nat): Tale {
    match s
    case Scratch(raises) => Tale(if raises then Raised else Fine, 0, [])
    case Inspect(reraises) => Tale(if reraises then Raised else Fine, 0, [cur])
    case LeaveStep => Tale(Left, 0, [])
    case ForEach(passes, stops) =>
      var t := TellAll(passes, cur, next);
      if t.out == Left && stops then t.(out := Fine) else t
    case TryBlock(body, matched, handler) =>
      var b := TellAll(body, cur, next);
      if b.out != Raised then b
      else
        var c := Tale(Raised, b.caught + 1, b.read);
        if matched then Plus(c, TellAll(handler, Some(next + b.caught), next + c.caught)) else c
  }

  function TellAll(ss: Steps, cur: Option<nat>, next: nat): Tale {
    if ss.Done? then Tale(Fine, 0, [])
    else
      var f := Tell(ss.first, cur, next);
      if f.out == Fine then Plus(f, TellAll(ss.rest, cur, next + f.caught)) else f
  }

  /** Where new memory goes: the statement context, or it is made under the parent. */
  function Root(c: Option<nat>, p: nat): nat { if c.Some? then c.value else p }

  lemma SavedKept(m: Mem, p: nat, n: Mem, d: nat)
    requires MemOk(m) && p in m.up && Spared(m, p, n) && d in m.errors && Above(m.up, m.errors[d], p)
    ensures d in n.errors && Above(n.up, n.errors[d], p)
  {
    assert Above(m.up, p, p);
    SamePath(m, p, n, m.errors[d], p);
  }

  lemma ParentAbove(m: Mem, c: nat)
    requires MemOk(m) && c in m.up
    ensures Above(m.up, m.up[c], c) && Above(m.up, c, c) && m.up[c] in m.up && Above(m.up, m.up[c], m.up[c])
  {
  }

  lemma NoneSpared(m: Mem, p: nat)
    ensures Spared(m, p, m)
  {
  }

  /** Growth in one statement after another. */
  lemma GrownAlong(m: Mem, n: Mem, o: Mem, was: Option<nat>, c: Option<nat>, p: nat)
    requires MemOk(m) && MemOk(n) && MemOk(o) && Grown(m, n, Root(was, p)) && Grown(n, o, Root(c, p))
    requires (was.Some? ==> was == c) && (c.Some? ==> c.value in o.up && c.value > 0 && o.up[c.value] == p)
    ensures Grown(m, o, Root(was, p))
  {
    if c.Some? { GrownOn(m, n, o, was, p, c.value); } else { assert Above(o.up, p, p); GrownTrans(m, n, o, p, p); }
  }

  /** What catching an error adds to a block's tale: the next error is number `next`. */
  function Handled(s: Step, next: nat): Tale
    requires s.TryBlock?
  {
    if s.matched then Plus(Tale(Raised, 1, []), TellAll(s.handler, Some(next), next + 1)) else Tale(Raised, 1, [])
  }

  /** Growth below c, the statement context, after growth that may have made it. */
  lemma GrownOn(m: Mem, n: Mem, o: Mem, was: Option<nat>, p: nat, c: nat)
    requires MemOk(m) && MemOk(n) && MemOk(o) && Grown(m, n, Root(was, p)) && Grown(n, o, c)
    requires c in o.up && c > 0 && o.up[c] == p && (was.Some? ==> was.value == c)
    ensures Grown(m, o, Root(was, p))
  {
    assert Above(o.up, p, p) && Above(o.up, p, c) && Above(o.up, c, c);
    GrownTrans(m, n, o, Root(was, p), c);
  }

  class Estate {
    var mem: Mem
    var stmtMcontext: Option<nat>
    var parent: nat
    var curError: Option<nat>
    ghost var read: seq<Option<nat>>      // the error data read so far

    ghost predicate Valid()
      reads this
    {
      MemOk(mem) && parent in mem.up && (stmtMcontext.Some? ==> Child(stmtMcontext.value))
    }

    ghost predicate Child(c: nat)
      reads this
    {
      c in mem.up && c > 0 && mem.up[c] == parent
    }

    /** The error being handled is intact, in a context that has been pushed down. */
    ghost predicate Handling()
      reads this
    {
      curError.Some? ==> curError.value in mem.errors && Above(mem.up, mem.errors[curError.value], parent)
    }

    /** What a piece of a run came to. */
    twostate predicate Did(t: Tale)
      reads this
    {
      mem.nextError == old(mem.nextError) + t.caught && read == old(read) + t.read
    }

    /** What every piece of a run keeps.  Pushed-down contexts and their data survive, and so does the current
        context; new memory lies below it.  Without an error the pair and the error being handled are those of
        before, and nothing is left behind but perhaps the statement context itself. */
    twostate predicate Kept(out: Outcome)
      reads this
    {
      && Valid() && Spared(old(mem), old(parent), mem)
      && Grown(old(mem), mem, Root(old(stmtMcontext), old(parent)))
      && (out != Raised ==> Tidy(old(mem), mem, stmtMcontext))
      && (old(stmtMcontext).Some? ==>
            old(stmtMcontext).value in mem.up && mem.up[old(stmtMcontext).value] == old(parent))
      && (out != Raised ==>
            && parent == old(parent) && curError == old(curError) && Handling()
            && (old(stmtMcontext).Some? ==> stmtMcontext == old(stmtMcontext)))
    }

    constructor ()
      ensures Valid() && Handling() && curError == None && stmtMcontext == None && parent == 0
    {
      mem, stmtMcontext, parent, curError := Mem(map[0 := 0], 1, map[], 0), None, 0, None;
      read := [];
    }

    method GetStmtMcontext() returns (c: nat)
      requires Valid() && Handling()
      modifies this`mem, this`stmtMcontext
      ensures Kept(Fine) && stmtMcontext == Some(c) && Child(c)
      ensures mem == if old(stmtMcontext).None? then NewChild(old(mem), parent) else old(mem)
    {
      NotGrown(mem, Root(stmtMcontext, parent), stmtMcontext);
      if stmtMcontext.None? {
        NewChildOk(mem, parent);
        NewChildGrown(mem, parent);
        HandlingSpared(NewChild(mem, parent));
        c := mem.next;
        mem := NewChild(mem, parent);
        stmtMcontext := Some(c);
      }
      c := stmtMcontext.value;
    }

    /** Memory that spares the pushed contexts keeps the handled error reachable. */
    lemma HandlingSpared(n: Mem)
      requires Valid() && Handling() && Spared(mem, parent, n)
      ensures curError.Some? ==> curError.value in n.errors && Above(n.up, n.errors[curError.value], parent)
    {
      if curError.Some? { SamePath(mem, parent, n, mem.errors[curError.value], parent); }
    }

    method PushStmtMcontext()
      requires Valid() && Handling() && stmtMcontext.Some?
      modifies this`stmtMcontext, this`parent
      ensures Valid() && Handling() && stmtMcontext == None && Some(parent) == old(stmtMcontext)
    {
      assert Above(mem.up, parent, stmtMcontext.value);
      if curError.Some? { AboveTrans(mem.up, mem.errors[curError.value], parent, stmtMcontext.value); }
      parent := stmtMcontext.value;
      stmtMcontext := None;
    }

    method PopStmtMcontext()
      requires Valid() && parent > 0
      modifies this`stmtMcontext, this`parent
      ensures Valid() && stmtMcontext == Some(old(parent)) && parent == mem.up[old(parent)]
    {
      stmtMcontext := Some(parent);
      parent := mem.up[parent];
    }

    method ResetContext(c: nat)
      requires Valid() && Child(c) && Handling() && stmtMcontext == Some(c)
      modifies this`mem
      ensures Kept(Fine) && stmtMcontext == Some(c) && mem == Reset(old(mem), c)
    {
      NotGrown(mem, c, None);
      ResetTidies(mem, mem, c);
      ResetOk(mem, parent, c);
      HandlingSpared(Reset(mem, c));
      mem := Reset(mem, c);
    }

    /** One statement of a run. */
    method ExecStep(s: Step) returns (out: Outcome)
      requires Valid() && Handling()
      modifies this
      ensures Kept(out) && out == Tell(s, old(curError), old(mem.nextError)).out
      ensures Did(Tell(s, old(curError), old(mem.nextError)))
      decreases s, 2
    {
      NotGrown(mem, Root(stmtMcontext, parent), stmtMcontext);
      match s
      case Scratch(raises) => out := ExecScratch(raises);
      case Inspect(reraises) =>
        // the error being handled is still there to be read
        assert curError.Some? ==> curError.value in mem.errors;
        read := read + [curError];
        out := if reraises then Raised else Fine;
      case LeaveStep => out := Left;
      case ForEach(_, _) => out := ExecForEach(s);
      case TryBlock(_, _, _) => out := ExecTry(s);
    }

    method ExecScratch(raises: bool) returns (out: Outcome)
      requires Valid() && Handling()
      modifies this
      ensures Kept(out) && out == (if raises then Raised else Fine) && Did(Tale(out, 0, []))
    {
      var c := GetStmtMcontext();
      if raises { return Raised; }
      ghost var m := mem;
      ResetContext(c);
      SparedTrans(old(mem), parent, m, parent, mem);
      GrownOn(old(mem), m, mem, old(stmtMcontext), parent, c);
      TidyTrans(old(mem), m, mem, Some(c), Some(c));
      return Fine;
    }

    method ExecForEach(s: Step) returns (out: Outcome)
      requires Valid() && Handling() && s.ForEach?
      modifies this
      ensures Kept(out) && out == Tell(s, old(curError), old(mem.nextError)).out
      ensures Did(Tell(s, old(curError), old(mem.nextError)))
      decreases s, 0
    {
      hide TellAll, Above, IsTree, Grown, Tidy, Spared, Pruned;
      var c := GetStmtMcontext();
      ghost var m, p := mem, parent;
      PushStmtMcontext();
      ParentAbove(m, c);
      out := ExecSteps(s.passes);
      SparedTrans(old(mem), p, m, c, mem);
      Survives(m, c);
      GrownOn(old(mem), m, mem, old(stmtMcontext), p, c);
      if out == Raised { return; }
      PopStmtMcontext();
      HandlingOutside(m, p, c);
      ghost var n := mem;
      ResetTidies(m, n, c);
      ResetContext(c);
      SparedTrans(old(mem), p, n, p, mem);
      GrownOn(old(mem), n, mem, old(stmtMcontext), p, c);
      TidyTrans(old(mem), m, mem, Some(c), Some(c));
      if out == Left && s.stops { out := Fine; }
    }

    /** A pushed context outlives the statements run under it. */
    lemma Survives(m: Mem, c: nat)
      requires MemOk(m) && c in m.up && c > 0 && Spared(m, c, mem)
      ensures c in mem.up && mem.up[c] == m.up[c]
    {
    }

    /** The handled error is no lower than p, so it is still reachable once c, a child of p, is popped. */
    lemma HandlingOutside(m: Mem, p: nat, c: nat)
      requires MemOk(m) && c in m.up && c > 0 && m.up[c] == p && Spared(m, c, mem)
      requires curError.Some? ==> curError.value in m.errors && Above(m.up, m.errors[curError.value], p)
      ensures curError.Some? ==> curError.value in mem.errors && Above(mem.up, mem.errors[curError.value], p)
    {
      if curError.Some? {
        assert Above(m.up, p, c);
        AboveTrans(m.up, m.errors[curError.value], p, c);
        SamePath(m, c, mem, m.errors[curError.value], p);
      }
    }

    /** An exception block.  The error is copied into the block's own context, which is then pushed
        down while a handler runs. */
    method ExecTry(s: Step) returns (out: Outcome)
      requires Valid() && Handling() && s.TryBlock?
      modifies this
      ensures Kept(out) && (out != Raised ==> stmtMcontext.Some?)
      ensures out == Tell(s, old(curError), old(mem.nextError)).out
      ensures Did(Tell(s, old(curError), old(mem.nextError)))
      decreases s, 1
    {
      hide Above, IsTree, TellAll, Grown, Tidy, Spared;
      var saved := curError;
      var c := GetStmtMcontext();
      ghost var p, m := parent, mem;
      out := ExecSteps(s.body);
      SparedTrans(old(mem), p, m, p, mem);
      GrownOn(old(mem), m, mem, old(stmtMcontext), p, c);
      if out != Raised { TidyTrans(old(mem), m, mem, Some(c), Some(c)); return; }
      out := Catch(c, saved, s, p, m);
      SparedTrans(old(mem), p, m, p, mem);
      GrownOn(old(mem), m, mem, old(stmtMcontext), p, c);
      if out != Raised { TidyTrans(old(mem), m, mem, Some(c), Some(c)); }
    }

    /** From the longjmp on, with the block's saved context and error. */
    method Catch(c: nat, saved: Option<nat>, s: Step, ghost p: nat, ghost m: Mem) returns (out: Outcome)
      requires Valid() && s.TryBlock? && MemOk(m) && p in m.up && Spared(m, p, mem)
      requires c in mem.up && c > 0 && mem.up[c] == p && c in m.up && Grown(m, mem, c)
      requires saved.Some? ==> saved.value in m.errors && Above(m.up, m.errors[saved.value], p)
      modifies this
      ensures Valid() && Spared(m, p, mem) && c in mem.up && mem.up[c] == p && Grown(m, mem, c)
      ensures out != Raised ==> parent == p && stmtMcontext == Some(c) && curError == saved && Handling()
      ensures out != Raised ==> Tidy(m, mem, Some(c))
      ensures out == Handled(s, old(mem.nextError)).out && Did(Handled(s, old(mem.nextError)))
      decreases s, 0
    {
      hide TellAll, Above, IsTree, Grown, Tidy, Spared, Reset, CopyError, DeleteChildren;
      var edata := Capture(c, p, m);
      ghost var n := mem;
      ParentAbove(n, c);
      if s.matched {
        curError := Some(edata);
        out := ExecSteps(s.handler);
        SparedTrans(m, p, n, c, mem);
        Survives(n, c);
        ParentAbove(mem, c);
        GrownTrans(m, n, mem, c, c);
        if out == Raised { return; }
        Release(c, saved, p, m);
      } else {
        curError := saved;
        return Raised;
      }
    }

    /** Copy the error into c, push c down and delete the contexts below it. */
    method Capture(c: nat, ghost p: nat, ghost m: Mem) returns (edata: nat)
      requires Valid() && MemOk(m) && p in m.up && Spared(m, p, mem)
      requires c in mem.up && c > 0 && mem.up[c] == p && c in m.up && Grown(m, mem, c)
      modifies this`mem, this`parent, this`stmtMcontext
      ensures Valid() && parent == c && stmtMcontext == None && mem == DeleteChildren(CopyError(old(mem), c), c)
      ensures edata == old(mem.nextError) == mem.nextError - 1 && edata in mem.errors && mem.errors[edata] == c
      ensures Spared(m, p, mem) && Grown(m, mem, c) && mem.up[c] == p
    {
      hide Above, IsTree, Grown, Spared;
      CaughtGrown(m, mem, c);
      CaughtOk(mem, p, c);
      ParentAbove(mem, c);
      SamePath(m, p, mem, p, p);
      SparedTrans(m, p, mem, p, DeleteChildren(CopyError(mem, c), c));
      edata := mem.nextError;
      mem := CopyError(mem, c);
      parent := c;
      stmtMcontext := None;
      mem := DeleteChildren(mem, c);
    }

    /** The handler is done: restore the error handled before, pop c and free what it holds. */
    method Release(c: nat, saved: Option<nat>, ghost p: nat, ghost m: Mem)
      requires Valid() && MemOk(m) && p in m.up && Spared(m, p, mem) && Grown(m, mem, c) && parent == c && c > 0
      requires c in m.up && mem.up[c] == p
      requires saved.Some? ==> saved.value in m.errors && Above(m.up, m.errors[saved.value], p)
      modifies this
      ensures Valid() && Spared(m, p, mem) && Grown(m, mem, c) && Tidy(m, mem, Some(c)) && c in mem.up && mem.up[c] == p
      ensures parent == p && stmtMcontext == Some(c) && curError == saved && Handling()
      ensures mem.nextError == old(mem.nextError) && read == old(read)
    {
      hide Above, IsTree, Grown, Tidy, Spared;
      curError := saved;
      PopStmtMcontext();
      ParentAbove(mem, c);
      if saved.Some? { SavedKept(m, p, mem, saved.value); }
      ghost var k := mem;
      ResetTidies(m, k, c);
      ResetContext(c);
      ParentAbove(mem, c);
      SamePath(m, p, k, p, p);
      SparedTrans(m, p, k, p, mem);
      GrownTrans(m, k, mem, c, c);
    }

    method ExecSteps(ss: Steps) returns (out: Outcome)
      requires Valid() && Handling()
      modifies this
      ensures Kept(out) && out == TellAll(ss, old(curError), old(mem.nextError)).out
      ensures Did(TellAll(ss, old(curError), old(mem.nextError)))
      decreases ss, 0
    {
      hide Tell, Above, IsTree, Grown, Tidy, Spared;
      NotGrown(mem, Root(stmtMcontext, parent), stmtMcontext);
      if ss.Done? { NoneSpared(mem, parent); return Fine; }
      out := ExecStep(ss.first);
      if out == Fine {
        ghost var m, c := mem, stmtMcontext;
        out := ExecSteps(ss.rest);
        SparedTrans(old(mem), old(parent), m, old(parent), mem);
        GrownAlong(old(mem), m, mem, old(stmtMcontext), c, old(parent));
        if out != Raised { TidyTrans(old(mem), m, mem, c, stmtMcontext); }
      }
    }
  }
}
