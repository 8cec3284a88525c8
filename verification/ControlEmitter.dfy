/** The statement compiler as it runs: one context whose stacks are pushed and popped and whose
    return block is redirected and restored, with a builder that moves through the graph. */
module ControlEmitter {
  import opened Cfg
  import opened ControlRef
  import opened ControlMachine
  import opened ControlCompile

  predicate Matches(t: Target, lab: Option<string>) { if lab.None? then t.isLoop else t.lab == lab }

  /** Targets that do not match are passed over. */
  lemma {:induction false} ResolveSkips(g: seq<Target>, lab: Option<string>, i: nat)
    requires i <= |g| && forall k :: 0 <= k < i ==> !Matches(g[k], lab)
    ensures Resolve(g, lab) == var r := Resolve(g[i..], lab); if r.None? then None else Some(r.value + i)
    decreases i
  {
    if i == 0 {
      assert g[0..] == g;
    } else {
      assert g[1..][i - 1..] == g[i..];
      ResolveSkips(g[1..], lab, i - 1);
    }
  }

  lemma FrameOpen(b: Code, c: Code)
    requires Frame(b, c)
    ensures Open(c)
  {
  }

  class StmtCompiler {
    var code: Code
    var loops: seq<LoopInfo>
    var cleanups: seq<Cleanup>
    var returnTo: nat

    constructor (code: Code, returnTo: nat)
      ensures this.code == code && Context() == Ctx([], [], returnTo)
    {
      this.code, loops, cleanups, this.returnTo := code, [], [], returnTo;
    }

    function Context(): Ctx
      reads this
    {
      Ctx(loops, cleanups, returnTo)
    }

    ghost predicate Ready()
      reads this
    {
      Open(code) && CtxOk(Context(), code)
    }

    method PushLoop(lab: Option<string>, continueTo: nat, exitTo: nat)
      modifies this`loops
      ensures Context() == InLoop(old(Context()), lab, continueTo, exitTo)
    {
      loops := [LoopInfo(Target(lab, true), continueTo, exitTo, |cleanups|)] + loops;
    }

    method PushBlockLabel(lab: Option<string>, exitTo: nat)
      modifies this`loops
      ensures Context() == InBlock(old(Context()), lab, exitTo)
    {
      if lab.Some? { loops := [LoopInfo(Target(lab, false), exitTo, exitTo, |cleanups|)] + loops; }
    }

    method PopLoop()
      requires loops != []
      modifies this`loops
      ensures loops == old(loops)[1..]
    {
      loops := loops[1..];
    }

    method PushCleanup(c: Cleanup)
      modifies this`cleanups
      ensures cleanups == [c] + old(cleanups)
    {
      cleanups := [c] + cleanups;
    }

    method PopCleanup()
      requires cleanups != []
      modifies this`cleanups
      ensures cleanups == old(cleanups)[1..]
    {
      cleanups := cleanups[1..];
    }

    /** The innermost loop, or the innermost construct with the label. */
    method FindLoop(lab: Option<string>) returns (r: Option<nat>)
      ensures r == Resolve(Targets(loops), lab)
    {
      for i := 0 to |loops|
        invariant forall k :: 0 <= k < i ==> !Matches(loops[k].target, lab)
      {
        if (if lab.None? then loops[i].target.isLoop else loops[i].target.lab == lab) {
          ResolveSkips(Targets(loops), lab, i);
          return Some(i);
        }
      }
      ResolveSkips(Targets(loops), lab, |loops|);
      return None;
    }

    /** Release everything above a depth, innermost first. */
    method EmitCleanupUnwind(depth: nat)
      requires Open(code) && depth <= |cleanups|
      modifies this`code
      ensures code == EmitUnwind(old(code), cleanups[..|cleanups| - depth])
    {
      var n := |cleanups| - depth;
      ghost var all := cleanups[..n];
      for i := 0 to n
        invariant Open(code) && EmitUnwind(code, all[i..]) == EmitUnwind(old(code), all)
      {
        assert all[i] == cleanups[i] && all[i..][1..] == all[i + 1..];
        code := Emit(code, Release(cleanups[i]));
      }
      assert all[n..] == [];
    }

    /** Compiling a statement extends the graph as specified and leaves the stacks as they were. */
    method CompileStmt(s: Stmt)
      requires Ready() && Ok(s, Targets(loops))
      modifies this
      ensures code == Compile(s, old(Context()), old(code)) && Context() == old(Context())
      decreases s, 2
    {
      match s
      case Do(id) => code := Emit(code, CallDo(id));
      case Return =>
        var dead := |code.blocks|;
        code := Then(NewBlock(Emit(code, CallReturn)), Br(returnTo), dead);
      case Leave(_, _, _) => CompileLeaving(s);
      case If(_, _) => CompileBranch(s);
      case Loop(_, _, _) => CompileLooping(s);
      case Block(_, _, _) => CompilePlainBlock(s);
      case Try(_, _, _, _) => CompileExceptionBlock(s);
    }

    method CompileStmts(ss: Stmts)
      requires Ready() && AllOk(ss, Targets(loops))
      modifies this
      ensures code == CompileAll(ss, old(Context()), old(code)) && Context() == old(Context())
      decreases ss, 0
    {
      if ss.Cons? {
        CompileStmt(ss.head);
        CtxGrows(Context(), old(code), code);
        CompileStmts(ss.tail);
      }
    }

    method CompileLeaving(s: Stmt)
      requires s.Leave? && Ready() && Ok(s, Targets(loops))
      modifies this`code
      ensures code == CompileLeave(s, Context(), old(code))
    {
      hide CtxOk, EmitUnwind, Grows;
      LoopDepths(Context(), code);
      var found := FindLoop(s.lab);
      var target := loops[found.value];
      var goal := if s.isExit then target.exitTo else target.continueTo;
      if !s.cond {
        EmitCleanupUnwind(target.depth);
        var dead := |code.blocks|;
        code := Then(NewBlock(code), Br(goal), dead);
      } else if target.depth < |cleanups| {
        var unwind, skip := |code.blocks|, |code.blocks| + 1;
        code := Then(Blocks(code, 2), ControlMachine.Ask(unwind, skip), unwind);
        EmitCleanupUnwind(target.depth);
        code := Then(code, Br(goal), skip);
      } else {
        var skip := |code.blocks|;
        code := Then(NewBlock(code), ControlMachine.Ask(goal, skip), skip);
      }
    }

    method CompileBranch(s: Stmt)
      requires s.If? && Ready() && Ok(s, Targets(loops))
      modifies this
      ensures code == CompileIf(s, old(Context()), old(code)) && Context() == old(Context())
      decreases s, 0
    {
      hide CtxOk, CompileAll, Grows;
      ghost var b := code;
      var merge := |code.blocks|;
      CtxGrows(Context(), code, IfThen(code));
      code := Then(Blocks(code, 3), ControlMachine.Ask(merge + 1, merge + 2), merge + 1);
      CompileStmts(s.thn);
      ghost var b1 := code;
      CtxGrows(Context(), b, IfElse(b, b1));
      code := Then(code, Br(merge), merge + 2);
      CompileStmts(s.els);
      code := Then(code, Br(merge), merge);
    }

    /** A row loop redirects RETURN to the pad that closes its portal, and guards the portal. */
    method CompileLooping(s: Stmt)
      requires s.Loop? && Ready() && Ok(s, Targets(loops))
      modifies this
      ensures code == Compile(s, old(Context()), old(code)) && Context() == old(Context())
      decreases s, 0
    {
      hide CtxOk, CompileAll, LoopBody, LoopHead, LoopEnd, Frame, Grows;
      var b, saved := code, returnTo;
      LoopCtxOk(s.kind, s.lab, Context(), b);
      code := LoopBody(s.kind, b);
      if s.kind.Rows? {
        returnTo := LoopReturnOf(b);
        PushCleanup(UnPortal(b.next));
      }
      PushLoop(s.lab, HeadOf(b), ExitOf(s.kind, b));
      CompileStmts(s.body);
      PopLoop();
      if s.kind.Rows? {
        PopCleanup();
        returnTo := saved;
      }
      code := LoopEnd(s.kind, Context(), b, code);
    }

    method CompilePlainBlock(s: Stmt)
      requires s.Block? && Ready() && Ok(s, Targets(loops))
      modifies this
      ensures code == CompileBlock(s, old(Context()), old(code)) && Context() == old(Context())
      decreases s, 0
    {
      var after := |code.blocks|;
      CtxGrows(Context(), code, EmitInits(code, s.inits));
      code := EmitInits(code, s.inits);
      if s.lab.None? {
        CompileStmts(s.body);
      } else {
        code := NewBlock(code);
        TargetsCons(LoopInfo(Target(s.lab, false), after, after, |cleanups|), loops);
        PushBlockLabel(s.lab, after);
        CompileStmts(s.body);
        PopLoop();
        code := Then(code, Br(after), after);
      }
    }

    /** The body and every handler are compiled with the frame guarded and RETURN redirected. */
    method CompileExceptionBlock(s: Stmt)
      requires s.Try? && Ready() && Ok(s, Targets(loops))
      modifies this
      ensures code == CompileTry(s, old(Context()), old(code)) && Context() == old(Context())
      decreases s, 1
    {
      hide CtxOk, CompileAll, CompileHandlers, Frame, Grows, TryBody, Pads, Untouched, Beside, Ok, HandlersOk;
      ghost var b, ctx := code, Context();
      var n, slot, saved := |code.blocks|, code.next, returnTo;
      TryCtxOk(s, ctx, b);
      TryParts(s, Targets(loops));
      FrameOpen(TryEnter(code), TryBody(code, s.inits));
      code := TryBody(code, s.inits);
      returnTo := n + 3;
      PushCleanup(UnTry(slot));
      PushBlockLabel(s.lab, n + 2);
      CompileStmts(s.body);
      if s.lab.Some? { PopLoop(); }
      PopCleanup();
      returnTo := saved;
      assert Context() == ctx;
      TryMid(b, s.inits, code);
      CompileCatch(s, n, slot, b, code);
    }

    lemma TryParts(s: Stmt, g: seq<Target>)
      requires s.Try? && Ok(s, g)
      ensures AllOk(s.body, Inside(g, s.lab)) && HandlersOk(s.handlers, Inside(g, s.lab))
    {
    }

    /** Landing pads, handlers and dispatch, once the body is compiled. */
    method CompileCatch(s: Stmt, n: nat, slot: nat, ghost b: Code, ghost mid: Code)
      requires s.Try? && Open(b) && CtxOk(Context(), b) && Ok(s, Targets(loops)) && n == |b.blocks| && slot == b.next
      requires code == mid && Frame(TryBody(b, s.inits), mid) && Untouched(mid, n + 1, n + 8) && b.next < mid.next
      requires forall i :: 0 <= i < |b.blocks| ==> mid.blocks[i] == TryEnter(b).blocks[i]
      modifies this
      ensures Context() == old(Context())
      ensures var pads := Pads(slot, returnTo, n, mid);
        CtxOk(HandlerCtx(s.lab, Context(), b), pads) &&
        HandlersOk(s.handlers, Targets(HandlerCtx(s.lab, Context(), b).loops))
      ensures var (c, cases) := CompileHandlers(s.handlers, HandlerCtx(s.lab, Context(), b),
          Pads(slot, returnTo, n, mid), slot);
        Open(c) && n + 1 < |c.blocks| && c.cur != n + 1 && c.blocks[n + 1] == BB([], None) &&
        code == Fill(c, n + 1, [], Dispatch(slot, cases, n + 6))
      decreases s, 0
    {
      hide CtxOk, CompileAll, CompileHandlers, Frame, Grows, TryBody, Pads, Untouched, Beside, Ok, HandlersOk, TryEnter;
      ghost var ctx := Context();
      var saved := returnTo;
      TryParts(s, Targets(loops));
      FrameOpen(TryBody(b, s.inits), mid);
      code := Pads(slot, returnTo, n, code);
      ghost var pads := code;
      HandlerCtxOk(s, ctx, b, pads);
      returnTo := n + 4;
      PushCleanup(UnHandler(slot));
      var cases := CompileWhens(s.handlers, s.lab, n + 5, slot);
      PopCleanup();
      returnTo := saved;
      TryFrame(ctx, b, s.inits, mid, code);
      FrameOpen(b, code);
      code := Fill(code, n + 1, [], Dispatch(slot, cases, n + 6));
    }

    /** Each handler in a block of its own; the builder returns to where it was. */
    method CompileWhens(hs: Handlers, lab: Option<string>, exitTo: nat, slot: nat) returns (cases: seq<(set<int>, nat)>)
      requires Open(code) && CtxOk(InBlock(Context(), lab, exitTo), code)
      requires HandlersOk(hs, Targets(InBlock(Context(), lab, exitTo).loops))
      modifies this
      ensures (code, cases) == CompileHandlers(hs, InBlock(old(Context()), lab, exitTo), old(code), slot)
      ensures Context() == old(Context())
      decreases hs, 0
    {
      hide CtxOk, CompileAll, Grows;
      if hs.NoMore? { return []; }
      ghost var ctx := InBlock(Context(), lab, exitTo);
      var here, h := code.cur, |code.blocks|;
      CtxGrows(ctx, code, At(NewBlock(code), h));
      code := At(NewBlock(code), h);
      PushBlockLabel(lab, exitTo);
      CompileStmts(hs.action);
      if lab.Some? { PopLoop(); }
      code := At(Close(Emit(code, Done(slot)), Br(here)), here);
      CtxGrows(ctx, old(code), code);
      var rest := CompileWhens(hs.rest, lab, exitTo, slot);
      return [(hs.codes, h)] + rest;
    }
  }
}
