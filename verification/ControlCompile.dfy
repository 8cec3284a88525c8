/** The statement compiler: loop and cleanup stacks, return redirection, block graph. */
module ControlCompile {
  import opened Cfg
  import opened ControlRef
  import opened ControlMachine

  /** An EXIT/CONTINUE target with the cleanup depth at which it was pushed. */
  datatype LoopInfo = LoopInfo(target: Target, continueTo: nat, exitTo: nat, depth: nat)

  /** What must be released when a jump crosses a construct. */
  datatype Cleanup = UnTry(slot: nat) | UnHandler(slot: nat) | UnPortal(slot: nat)

  /** Stacks, innermost first, and the block a RETURN branches to. */
  datatype Ctx = Ctx(loops: seq<LoopInfo>, cleanups: seq<Cleanup>, returnTo: nat)

  function Targets(loops: seq<LoopInfo>): (g: seq<Target>)
    ensures |g| == |loops|
    ensures forall i :: 0 <= i < |g| ==> g[i] == loops[i].target
  {
    seq(|loops|, i requires 0 <= i < |loops| => loops[i].target)
  }

  function Release(c: Cleanup): Instr {
    match c case UnTry(x) => TryExit(x) case UnHandler(x) => Done(x) case UnPortal(x) => ClosePortal(x)
  }

  /** The cleanups above the target's depth. */
  function Crossed(ctx: Ctx, k: nat): seq<Cleanup>
    requires k < |ctx.loops| && ctx.loops[k].depth <= |ctx.cleanups|
  {
    ctx.cleanups[..|ctx.cleanups| - ctx.loops[k].depth]
  }

  function EmitUnwind(b: Code, cs: seq<Cleanup>): (c: Code)
    requires Open(b)
    ensures Frame(b, c) && c.next == b.next && c.cur == b.cur && |c.blocks| == |b.blocks|
    decreases |cs|
  {
    if cs == [] then b
    else
      var b1 := Emit(b, Release(cs[0]));
      var c := EmitUnwind(b1, cs[1..]);
      FrameTrans(b, b1, c);
      c
  }

  function EmitInits(b: Code, ds: seq<VarInit>): (c: Code)
    requires Open(b)
    ensures Frame(b, c) && c.next == b.next && c.cur == b.cur && |c.blocks| == |b.blocks|
    decreases |ds|
  {
    if ds == [] then b
    else
      var b1 := Emit(b, CallInit(ds[0]));
      var c := EmitInits(b1, ds[1..]);
      FrameTrans(b, b1, c);
      c
  }

  function Blocks(b: Code, n: nat): (c: Code)
    ensures |c.blocks| == |b.blocks| + n && c.cur == b.cur && c.next == b.next
    ensures forall i :: 0 <= i < |b.blocks| ==> c.blocks[i] == b.blocks[i]
    ensures forall i :: |b.blocks| <= i < |c.blocks| ==> c.blocks[i] == BB([], None)
    decreases n
  {
    if n == 0 then b else Blocks(NewBlock(b), n - 1)
  }

  /** Close the current block with t and continue in block i, which is still empty. */
  function Then(b: Code, t: Term, i: nat): (c: Code)
    requires Open(b) && i < |b.blocks| && i != b.cur && b.blocks[i] == BB([], None)
    ensures Open(c) && End(c) == 0 && c.cur == i && c.next == b.next && |c.blocks| == |b.blocks|
    ensures Grows(b.blocks, c.blocks)
    ensures c.blocks == b.blocks[b.cur := BB(b.blocks[b.cur].code, Some(t))]
  {
    At(Close(b, t), i)
  }

  /** Write a whole block that is still empty, away from the builder's position. */
  function Fill(b: Code, i: nat, code: seq<Instr>, t: Term): (c: Code)
    requires Open(b) && i < |b.blocks| && i != b.cur && b.blocks[i] == BB([], None)
    ensures c == b.(blocks := b.blocks[i := BB(code, Some(t))]) && Open(c)
    ensures Grows(b.blocks, c.blocks)
  {
    At(Close(b.(blocks := b.blocks[i := BB(code, None)], cur := i), t), b.cur)
  }

  ghost predicate CtxOk(ctx: Ctx, b: Code) {
    && ctx.returnTo < |b.blocks|
    && (forall k :: 0 <= k < |ctx.loops| ==>
          ctx.loops[k].continueTo < |b.blocks| && ctx.loops[k].exitTo < |b.blocks| &&
          ctx.loops[k].depth <= |ctx.cleanups|)
    && (forall k :: 0 <= k < |ctx.cleanups| ==> ctx.cleanups[k].slot < b.next)
  }

  lemma LoopDepths(ctx: Ctx, b: Code)
    requires CtxOk(ctx, b)
    ensures forall k :: 0 <= k < |ctx.loops| ==> ctx.loops[k].depth <= |ctx.cleanups|
  {
  }

  function InBlock(ctx: Ctx, lab: Option<string>, exitTo: nat): Ctx {
    if lab.None? then ctx
    else ctx.(loops := [LoopInfo(Target(lab, false), exitTo, exitTo, |ctx.cleanups|)] + ctx.loops)
  }

  function InLoop(ctx: Ctx, lab: Option<string>, continueTo: nat, exitTo: nat): Ctx {
    ctx.(loops := [LoopInfo(Target(lab, true), continueTo, exitTo, |ctx.cleanups|)] + ctx.loops)
  }

  function Guarding(ctx: Ctx, c: Cleanup, returnTo: nat): Ctx {
    ctx.(cleanups := [c] + ctx.cleanups, returnTo := returnTo)
  }

  // ---- loops ----

  /** Block numbers of a loop that starts at builder b. */
  function HeadOf(b: Code): nat { |b.blocks| }
  function BodyOf(kind: LoopKind, b: Code): nat { if kind.Plain? then |b.blocks| else |b.blocks| + 1 }
  function ExitOf(kind: LoopKind, b: Code): nat { BodyOf(kind, b) + 1 }
  function LoopReturnOf(b: Code): nat { |b.blocks| + 3 }
  function ContOf(b: Code): nat { |b.blocks| + 4 }

  /** Context of the body; a row loop also guards its portal, held in slot b.next. */
  function LoopCtx(kind: LoopKind, lab: Option<string>, ctx: Ctx, b: Code): Ctx {
    var c := if kind.Rows? then Guarding(ctx, UnPortal(b.next), LoopReturnOf(b)) else ctx;
    InLoop(c, lab, HeadOf(b), ExitOf(kind, b))
  }

  /** Open the portal if there is one and go to the loop head, which is still empty. */
  function LoopHead(kind: LoopKind, b: Code): (c: Code)
    requires Open(b)
    ensures Open(c) && End(c) == 0 && c.cur == HeadOf(b) && Grows(b.blocks, c.blocks)
    ensures b.next <= c.next && (kind.Rows? ==> c.next == b.next + 1)
    ensures |c.blocks| == |b.blocks| + (match kind case Plain => 2 case While => 3 case Rows => 5)
    ensures forall i :: 0 <= i < |b.blocks| && i != b.cur ==> c.blocks[i] == b.blocks[i]
    ensures forall i :: |b.blocks| <= i < |c.blocks| ==> c.blocks[i] == BB([], None)
  {
    var b1 := if kind.Rows? then Bump(Emit(Emit(b, OpenPortal(b.next)), ClearRow(b.next)), 1) else b;
    var b2 := Blocks(b1, match kind case Plain => 2 case While => 3 case Rows => 5);
    Then(b2, Br(HeadOf(b)), HeadOf(b))
  }

  /** The head of WHILE and of a row loop asks whether to go on; a row loop's body notes the row. */
  function LoopBody(kind: LoopKind, b: Code): (c: Code)
    requires Open(b)
    ensures Open(c) && c.cur == BodyOf(kind, b) && Grows(LoopHead(kind, b).blocks, c.blocks)
    ensures |c.blocks| == |LoopHead(kind, b).blocks| && c.next == LoopHead(kind, b).next
    ensures forall i ::
      0 <= i < |c.blocks| && i != HeadOf(b) && i != BodyOf(kind, b) ==> c.blocks[i] == LoopHead(kind, b).blocks[i]
  {
    var h := LoopHead(kind, b);
    if kind.Plain? then h
    else
      var c := Then(h, Ask(BodyOf(kind, b), ExitOf(kind, b)), BodyOf(kind, b));
      if kind.Rows? then Emit(c, GotRow(b.next)) else c
  }

  /** Back to the head; then the landing pads of a row loop. */
  function LoopEnd(kind: LoopKind, ctx: Ctx, b: Code, mid: Code): (c: Code)
    requires Open(b) && Frame(LoopBody(kind, b), mid)
    ensures Frame(b, c)
  {
    var c1 := LoopBack(kind, b, mid);
    if !kind.Rows? then c1
    else
      RowEndFrame(b, b.next, ctx.returnTo, c1);
      RowEnd(b.next, ctx.returnTo, c1)
  }

  /** From the end of the body back to the head; the builder goes to the exit block. */
  function LoopBack(kind: LoopKind, b: Code, mid: Code): (c: Code)
    requires Open(b) && Frame(LoopBody(kind, b), mid)
    ensures Frame(b, c) && c.cur == ExitOf(kind, b) && End(c) == 0
    ensures kind.Rows? ==> c.cur + 2 < |c.blocks| && c.blocks[c.cur + 1] == c.blocks[c.cur + 2] == BB([], None)
  {
    Then(mid, Br(HeadOf(b)), ExitOf(kind, b))
  }

  /** The exit block of a row loop, where the builder stands, and its block for RETURN, next to it: both close the
      portal in slot x, the first then sets FOUND. */
  function RowEnd(x: nat, returnTo: nat, b: Code): (c: Code)
    requires Open(b) && b.cur + 2 < |b.blocks| && b.blocks[b.cur + 1] == b.blocks[b.cur + 2] == BB([], None)
    ensures Open(c) && End(c) == 0 && c.cur == b.cur + 2 && c.next == b.next && |c.blocks| == |b.blocks|
    ensures Grows(b.blocks, c.blocks)
    ensures forall i :: 0 <= i < |b.blocks| && i != b.cur && i != b.cur + 1 ==> c.blocks[i] == b.blocks[i]
  {
    var c := Then(Emit(Emit(b, ClosePortal(x)), SetFound(x)), Br(b.cur + 2), b.cur + 1);
    Then(Emit(c, ClosePortal(x)), Br(returnTo), b.cur + 2)
  }

  lemma RowEndFrame(b: Code, x: nat, returnTo: nat, c: Code)
    requires Frame(b, c) && |b.blocks| <= c.cur && c.cur + 2 < |c.blocks|
    requires c.blocks[c.cur + 1] == c.blocks[c.cur + 2] == BB([], None)
    ensures Frame(b, RowEnd(x, returnTo, c))
  {
    hide RowEnd;
    GrowsTrans(b.blocks, c.blocks, RowEnd(x, returnTo, c).blocks);
  }

  // ---- exception blocks ----

  function TryEnterOf(b: Code): nat { |b.blocks| }
  function CatchOf(b: Code): nat { |b.blocks| + 1 }
  function TryExitOf(b: Code): nat { |b.blocks| + 2 }
  function TryReturnOf(b: Code): nat { |b.blocks| + 3 }
  function HandlerReturnOf(b: Code): nat { |b.blocks| + 4 }
  function HandlerExitOf(b: Code): nat { |b.blocks| + 5 }
  function RethrowOf(b: Code): nat { |b.blocks| + 6 }
  function AfterOf(b: Code): nat { |b.blocks| + 7 }

  /** The cleanup is pushed before the block's own label. */
  function BodyCtx(lab: Option<string>, ctx: Ctx, b: Code): Ctx {
    InBlock(Guarding(ctx, UnTry(b.next), TryReturnOf(b)), lab, TryExitOf(b))
  }

  function HandlerCtx(lab: Option<string>, ctx: Ctx, b: Code): Ctx {
    InBlock(Guarding(ctx, UnHandler(b.next), HandlerReturnOf(b)), lab, HandlerExitOf(b))
  }

  /** Push the frame and enter the try block (the first return of sigsetjmp). */
  function TryEnter(b: Code): (c: Code)
    requires Open(b)
    ensures Open(c) && End(c) == 0 && c.cur == TryEnterOf(b) && c.next == b.next + 1 && |c.blocks| == |b.blocks| + 8
    ensures Grows(b.blocks, c.blocks)
    ensures forall i :: 0 <= i < |b.blocks| && i != b.cur ==> c.blocks[i] == b.blocks[i]
    ensures forall i :: |b.blocks| <= i < |c.blocks| ==> c.blocks[i] == BB([], None)
  {
    Then(Blocks(Bump(Emit(b, PushFrame(b.next)), 1), 8), Br(TryEnterOf(b)), TryEnterOf(b))
  }

  /** Arm the frame, then initialise the block's variables. */
  function TryBody(b: Code, inits: seq<VarInit>): (c: Code)
    requires Open(b)
    ensures Frame(TryEnter(b), c) && c.cur == TryEnterOf(b) && c.next == b.next + 1 && |c.blocks| == |b.blocks| + 8
  {
    var b1 := Emit(TryEnter(b), Arm(b.next, CatchOf(b)));
    var c := EmitInits(b1, inits);
    FrameTrans(TryEnter(b), b1, c);
    c
  }

  /** Blocks lo to hi - 1 have not been written yet. */
  ghost predicate Untouched(b: Code, lo: nat, hi: nat) {
    hi <= |b.blocks| && !(lo <= b.cur < hi) && forall i :: lo <= i < hi ==> b.blocks[i] == BB([], None)
  }

  /** Leave the body; fill the landing pads of both contexts; rest in the block after.
      The frame is in slot x, the construct's blocks start at n. */
  function Pads(x: nat, returnTo: nat, n: nat, mid: Code): (c: Code)
    requires Open(mid) && Untouched(mid, n + 1, n + 8)
    ensures c.cur == n + 7 && c.next == mid.next && |c.blocks| == |mid.blocks|
    ensures Open(c) && End(c) == 0
  {
    mid.(cur := n + 7, blocks :=
      mid.blocks[mid.cur := BB(mid.blocks[mid.cur].code, Some(Br(n + 2)))]  // fall through to try_exit
        [n + 2 := BB([TryExit(x)], Some(Br(n + 7)))]                        // try_exit
        [n + 3 := BB([TryExit(x)], Some(Br(returnTo)))]                     // RETURN in the body
        [n + 4 := BB([Done(x)], Some(Br(returnTo)))]                        // RETURN in a handler
        [n + 5 := BB([Done(x)], Some(Br(n + 7)))]                           // EXIT label in a handler
        [n + 6 := BB([], Some(Rethrow(x)))])                                // no handler matched
  }

  lemma PadsGrow(x: nat, returnTo: nat, n: nat, mid: Code)
    requires Open(mid) && Untouched(mid, n + 1, n + 8)
    ensures Grows(mid.blocks, Pads(x, returnTo, n, mid).blocks)
    ensures Grows(Close(mid, Br(n + 2)).blocks, Pads(x, returnTo, n, mid).blocks)
    ensures forall i :: 0 <= i < |mid.blocks| && i != mid.cur && !(n + 2 <= i < n + 7) ==>
      Pads(x, returnTo, n, mid).blocks[i] == mid.blocks[i]
  {
  }

  // ---- statements ----

  lemma TargetsCons(i: LoopInfo, loops: seq<LoopInfo>)
    ensures Targets([i] + loops) == [i.target] + Targets(loops)
  {
  }

  function Compile(s: Stmt, ctx: Ctx, b: Code): (c: Code)
    requires Open(b) && Ok(s, Targets(ctx.loops)) && CtxOk(ctx, b)
    ensures Frame(b, c)
    decreases s, 1
  {
    match s
    case Do(id) => Emit(b, CallDo(id))
    case Return =>
      var dead := |b.blocks|;
      Then(NewBlock(Emit(b, CallReturn)), Br(ctx.returnTo), dead)
    case Leave(isExit, lab, cond) => CompileLeave(s, ctx, b)
    case If(_, _) => CompileIf(s, ctx, b)
    case Loop(kind, lab, body) =>
      LoopCtxOk(kind, lab, ctx, b);
      LoopEnd(kind, ctx, b, CompileAll(body, LoopCtx(kind, lab, ctx, b), LoopBody(kind, b)))
    case Block(_, _, _) => CompileBlock(s, ctx, b)
    case Try(_, _, _, _) => CompileTry(s, ctx, b)
  }

  lemma CtxGrows(ctx: Ctx, b: Code, c: Code)
    requires CtxOk(ctx, b) && |b.blocks| <= |c.blocks| && b.next <= c.next
    ensures CtxOk(ctx, c)
  {
  }

  /** Builder at the start of the THEN arm; the merge block is the first of the three new ones. */
  function IfThen(b: Code): (c: Code)
    requires Open(b)
    ensures Open(c) && End(c) == 0 && c.cur == |b.blocks| + 1 && c.next == b.next && |c.blocks| == |b.blocks| + 3
    ensures Untouched(c, |b.blocks| + 2, |b.blocks| + 3) && c.blocks[|b.blocks|] == BB([], None)
    ensures Grows(b.blocks, c.blocks)
    ensures forall i :: 0 <= i < |b.blocks| && i != b.cur ==> c.blocks[i] == b.blocks[i]
  {
    Then(Blocks(b, 3), Ask(|b.blocks| + 1, |b.blocks| + 2), |b.blocks| + 1)
  }

  function IfElse(b: Code, mid: Code): (c: Code)
    requires Open(b) && Frame(IfThen(b), mid)
    ensures Open(c) && End(c) == 0 && c.cur == |b.blocks| + 2 && c.next == mid.next && |c.blocks| == |mid.blocks|
    ensures c.blocks[|b.blocks|] == BB([], None) && Grows(mid.blocks, c.blocks)
    ensures forall i :: 0 <= i < |b.blocks| ==> c.blocks[i] == IfThen(b).blocks[i]
  {
    Then(mid, Br(|b.blocks|), |b.blocks| + 2)
  }

  function CompileIf(s: Stmt, ctx: Ctx, b: Code): (c: Code)
    requires s.If? && Open(b) && Ok(s, Targets(ctx.loops)) && CtxOk(ctx, b)
    ensures Frame(b, c)
    decreases s, 0
  {
    CtxGrows(ctx, b, IfThen(b));
    var b1 := CompileAll(s.thn, ctx, IfThen(b));
    var b2 := IfElse(b, b1);
    CtxGrows(ctx, b, b2);
    var b3 := CompileAll(s.els, ctx, b2);
    Then(b3, Br(|b.blocks|), |b.blocks|)
  }

  function CompileBlock(s: Stmt, ctx: Ctx, b: Code): (c: Code)
    requires s.Block? && Open(b) && Ok(s, Targets(ctx.loops)) && CtxOk(ctx, b)
    ensures Frame(b, c)
    decreases s, 0
  {
    var b1 := EmitInits(b, s.inits);
    CtxGrows(ctx, b, b1);
    if s.lab.None? then
      var c := CompileAll(s.body, ctx, b1);
      FrameTrans(b, b1, c);
      c
    else
      var inner := InBlock(ctx, s.lab, |b.blocks|);
      TargetsCons(inner.loops[0], ctx.loops);
      var b2 := CompileAll(s.body, inner, NewBlock(b1));
      var c := Then(b2, Br(|b.blocks|), |b.blocks|);
      FrameTrans(b, b1, c);
      c
  }

  function CompileLeave(s: Stmt, ctx: Ctx, b: Code): (c: Code)
    requires s.Leave? && Open(b) && Ok(s, Targets(ctx.loops)) && CtxOk(ctx, b)
    ensures Frame(b, c)
  {
    var k := Resolve(Targets(ctx.loops), s.lab).value;
    var goal := if s.isExit then ctx.loops[k].exitTo else ctx.loops[k].continueTo;
    if !s.cond then
      var b1 := EmitUnwind(b, Crossed(ctx, k));
      var dead := |b.blocks|;
      Then(NewBlock(b1), Br(goal), dead)
    else if ctx.loops[k].depth < |ctx.cleanups| then
      var unwind, skip := |b.blocks|, |b.blocks| + 1;
      var b1 := Then(Blocks(b, 2), Ask(unwind, skip), unwind);
      Then(EmitUnwind(b1, Crossed(ctx, k)), Br(goal), skip)
    else
      var skip := |b.blocks|;
      Then(NewBlock(b), Ask(goal, skip), skip)
  }

  function CompileAll(ss: Stmts, ctx: Ctx, b: Code): (c: Code)
    requires Open(b) && AllOk(ss, Targets(ctx.loops)) && CtxOk(ctx, b)
    ensures Frame(b, c)
    decreases ss, 0
  {
    if ss.Nil? then b
    else
      var b1 := Compile(ss.head, ctx, b);
      var c := CompileAll(ss.tail, ctx, b1);
      FrameTrans(b, b1, c);
      c
  }

  lemma LoopCtxOk(kind: LoopKind, lab: Option<string>, ctx: Ctx, b: Code)
    requires Open(b) && CtxOk(ctx, b)
    ensures CtxOk(LoopCtx(kind, lab, ctx, b), LoopBody(kind, b))
    ensures Targets(LoopCtx(kind, lab, ctx, b).loops) == [Target(lab, true)] + Targets(ctx.loops)
  {
    TargetsCons(LoopCtx(kind, lab, ctx, b).loops[0], ctx.loops);
  }

  /** Handlers go into new blocks; the builder stays where it is. */
  ghost predicate Beside(b: Code, c: Code) {
    && Open(b) && c.cur == b.cur && b.next <= c.next && |b.blocks| <= |c.blocks|
    && forall i :: 0 <= i < |b.blocks| ==> c.blocks[i] == b.blocks[i]
  }

  function CompileHandlers(hs: Handlers, ctx: Ctx, b: Code, x: nat): (r: (Code, seq<(set<int>, nat)>))
    requires Open(b) && HandlersOk(hs, Targets(ctx.loops)) && CtxOk(ctx, b)
    ensures Beside(b, r.0)
    decreases hs
  {
    if hs.NoMore? then (b, [])
    else
      var h := |b.blocks|;
      var b1 := At(NewBlock(b), h);
      var b2 := CompileAll(hs.action, ctx, b1);
      var b3 := At(Close(Emit(b2, Done(x)), Br(b.cur)), b.cur);
      var (c, cases) := CompileHandlers(hs.rest, ctx, b3, x);
      (c, [(hs.codes, h)] + cases)
  }

  function CompileTry(s: Stmt, ctx: Ctx, b: Code): (c: Code)
    requires s.Try? && Open(b) && Ok(s, Targets(ctx.loops)) && CtxOk(ctx, b)
    ensures Frame(b, c)
    decreases s, 0
  {
    TryCtxOk(s, ctx, b);
    var mid := CompileAll(s.body, BodyCtx(s.lab, ctx, b), TryBody(b, s.inits));
    TryMid(b, s.inits, mid);
    var c1 := Pads(b.next, ctx.returnTo, |b.blocks|, mid);
    HandlerCtxOk(s, ctx, b, c1);
    var (c2, cases) := CompileHandlers(s.handlers, HandlerCtx(s.lab, ctx, b), c1, b.next);
    TryFrame(ctx, b, s.inits, mid, c2);
    Fill(c2, CatchOf(b), [], Dispatch(b.next, cases, RethrowOf(b)))
  }

  lemma TryCtxOk(s: Stmt, ctx: Ctx, b: Code)
    requires s.Try? && Open(b) && CtxOk(ctx, b)
    ensures CtxOk(BodyCtx(s.lab, ctx, b), TryBody(b, s.inits))
    ensures Targets(BodyCtx(s.lab, ctx, b).loops) == Inside(Targets(ctx.loops), s.lab)
  {
    if s.lab.Some? { TargetsCons(BodyCtx(s.lab, ctx, b).loops[0], ctx.loops); }
  }

  lemma HandlerCtxOk(s: Stmt, ctx: Ctx, b: Code, c: Code)
    requires s.Try? && Open(b) && CtxOk(ctx, b) && |b.blocks| + 8 <= |c.blocks| && b.next < c.next
    ensures CtxOk(HandlerCtx(s.lab, ctx, b), c)
    ensures Targets(HandlerCtx(s.lab, ctx, b).loops) == Inside(Targets(ctx.loops), s.lab)
  {
    if s.lab.Some? { TargetsCons(HandlerCtx(s.lab, ctx, b).loops[0], ctx.loops); }
  }

  lemma TryMid(b: Code, inits: seq<VarInit>, mid: Code)
    requires Open(b) && Frame(TryBody(b, inits), mid)
    ensures Untouched(mid, |b.blocks| + 1, |b.blocks| + 8) && b.next < mid.next
    ensures forall i :: 0 <= i < |b.blocks| ==> mid.blocks[i] == TryEnter(b).blocks[i]
  {
    FrameTrans(TryEnter(b), TryBody(b, inits), mid);
  }

  lemma TryFrame(ctx: Ctx, b: Code, inits: seq<VarInit>, mid: Code, c: Code)
    requires Open(b) && Frame(TryBody(b, inits), mid) && Untouched(mid, |b.blocks| + 1, |b.blocks| + 8)
    requires forall i :: 0 <= i < |b.blocks| ==> mid.blocks[i] == TryEnter(b).blocks[i]
    requires Beside(Pads(b.next, ctx.returnTo, |b.blocks|, mid), c)
    ensures Frame(b, c) && c.cur == AfterOf(b) && c.blocks[CatchOf(b)] == BB([], None)
  {
    hide Pads, TryBody;
    var pads := Pads(b.next, ctx.returnTo, |b.blocks|, mid);
    PadsGrow(b.next, ctx.returnTo, |b.blocks|, mid);
    GrowsTrans(TryEnter(b).blocks, TryBody(b, inits).blocks, mid.blocks);
    GrowsTrans(b.blocks, TryEnter(b).blocks, mid.blocks);
    GrowsTrans(b.blocks, mid.blocks, pads.blocks);
  }
}
