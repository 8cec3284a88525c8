/** The compiled graph does what the structured semantics does. */
module ControlSim {
  import opened Cfg
  import opened ControlRef
  import opened ControlMachine
  import opened ControlCompile

  /** The enclosing constructs hold what their cleanups will release, armed frames innermost first. */
  ghost predicate Guarded(cs: seq<Cleanup>, slots: map<nat, nat>, armed: seq<Armed>)
    decreases |cs|
  {
    cs == [] || (cs[0].slot in slots &&
      if cs[0].UnTry? then armed != [] && armed[0].frame == slots[cs[0].slot] && Guarded(cs[1..], slots, armed[1..])
      else Guarded(cs[1..], slots, armed))
  }

  /** Slots below n keep their contents. */
  ghost predicate Keeps(n: nat, s: map<nat, nat>, t: map<nat, nat>) {
    forall x :: x < n && x in s ==> x in t && t[x] == s[x]
  }

  function ReleaseEvent(c: Cleanup, slots: map<nat, nat>): Event
    requires c.slot in slots
  {
    match c
    case UnTry(x) => TryExited(slots[x])
    case UnHandler(x) => HandlerDone(slots[x])
    case UnPortal(x) => Closed(slots[x])
  }

  /** The world after releasing cs, innermost first. */
  function Released(w: World, cs: seq<Cleanup>, slots: map<nat, nat>): World
    decreases |cs|
  {
    if cs == [] || cs[0].slot !in slots then w
    else Released(Log(w, ReleaseEvent(cs[0], slots)), cs[1..], slots)
  }

  /** The exception stack after releasing cs. */
  function Disarmed(armed: seq<Armed>, cs: seq<Cleanup>): seq<Armed>
    decreases |cs|
  {
    if cs == [] then armed
    else Disarmed(if cs[0].UnTry? && armed != [] then armed[1..] else armed, cs[1..])
  }

  /** n is where the compiled code for a construct brings the machine from m when the construct's
      structured outcome is out in world w: past the code, at the return block, at the target of a
      jump with every crossed construct released, or at the innermost armed catch block. */
  ghost predicate Lands(p: Prog, o: Oracle, ctx: Ctx, b: Code, c: Code, m: State, out: Outcome, w: World, n: State) {
    m.Run? &&
    match out
    case OutOfFuel(k) => Lives(p, o, m, k)
    case Raise(code) =>
      Reaches(p, o, m, n) &&
      if m.armed == [] then n == Escaped(w, code)
      else
        && n.Run? && n.blk == m.armed[0].catch && n.pc == 0 && n.w == w && n.armed == m.armed[1..] && n.code == code
        && Keeps(b.next, m.slots, n.slots)
    case Fall => Reaches(p, o, m, n) && Here(c, n) && n.w == w && n.armed == m.armed && Keeps(b.next, m.slots, n.slots)
    case Ret =>
      Reaches(p, o, m, n) && n.Run? && n.blk == ctx.returnTo && n.pc == 0 && n.w == w && n.armed == m.armed &&
      Keeps(b.next, m.slots, n.slots)
    case JumpTo(isExit, k) =>
      Reaches(p, o, m, n) && Reaches1(p, o, m, n) && n.Run? && k < |ctx.loops| &&
      ctx.loops[k].depth <= |ctx.cleanups| &&
      n.blk == (if isExit then ctx.loops[k].exitTo else ctx.loops[k].continueTo) && n.pc == 0 &&
      n.w == Released(w, Crossed(ctx, k), m.slots) && n.armed == Disarmed(m.armed, Crossed(ctx, k)) &&
      Keeps(b.next, m.slots, n.slots)
  }

  /** Facts every construct starts from. */
  ghost predicate Ready(ctx: Ctx, b: Code, m: State) {
    Here(b, m) && CtxOk(ctx, b) && Guarded(ctx.cleanups, m.slots, m.armed)
  }

  lemma KeepsTrans(n: nat, k: nat, r: map<nat, nat>, s: map<nat, nat>, t: map<nat, nat>)
    requires Keeps(n, r, s) && Keeps(k, s, t) && n <= k
    ensures Keeps(n, r, t)
  {
  }

  lemma {:induction false} GuardedKeeps(cs: seq<Cleanup>, n: nat, s: map<nat, nat>, t: map<nat, nat>, armed: seq<Armed>)
    requires Guarded(cs, s, armed) && Keeps(n, s, t) && forall k :: 0 <= k < |cs| ==> cs[k].slot < n
    ensures Guarded(cs, t, armed)
    decreases |cs|
  {
    if cs != [] { GuardedKeeps(cs[1..], n, s, t, if cs[0].UnTry? then armed[1..] else armed); }
  }

  lemma {:induction false} GuardedPrefix(cs: seq<Cleanup>, k: nat, s: map<nat, nat>, armed: seq<Armed>)
    requires Guarded(cs, s, armed) && k <= |cs|
    ensures Guarded(cs[..k], s, armed)
    decreases k
  {
    if k > 0 {
      assert cs[..k][1..] == cs[1..][..k - 1];
      GuardedPrefix(cs[1..], k - 1, s, if cs[0].UnTry? then armed[1..] else armed);
    }
  }

  lemma {:induction false} ReleasedKeeps(w: World, cs: seq<Cleanup>, n: nat, s: map<nat, nat>, t: map<nat, nat>,
                                         armed: seq<Armed>)
    requires Guarded(cs, s, armed) && Keeps(n, s, t) && forall k :: 0 <= k < |cs| ==> cs[k].slot < n
    ensures Released(w, cs, s) == Released(w, cs, t)
    decreases |cs|
  {
    if cs != [] {
      ReleasedKeeps(Log(w, ReleaseEvent(cs[0], s)), cs[1..], n, s, t, if cs[0].UnTry? then armed[1..] else armed);
    }
  }

  /** Code b..b1 ran from m to m1; what follows lands for the whole. */
  lemma LandsAfter(p: Prog, o: Oracle, ctx: Ctx, b: Code, b1: Code, c: Code, m: State, m1: State, out: Outcome,
                   w: World, n: State)
    requires Ready(ctx, b, m) && Reaches(p, o, m, m1) && m1.Run? && m1.armed == m.armed
    requires Keeps(b.next, m.slots, m1.slots)
    requires b.next <= b1.next && Lands(p, o, ctx, b1, c, m1, out, w, n)
    ensures Lands(p, o, ctx, b, c, m, out, w, n)
  {
    if !out.OutOfFuel? {
      ReachesTrans(p, o, m, m1, n);
      if out.JumpTo? {
        var cs := Crossed(ctx, out.depth);
        GuardedPrefix(ctx.cleanups, |cs|, m.slots, m.armed);
        ReleasedKeeps(w, cs, b.next, m.slots, m1.slots, m.armed);
      }
      if n.Run? { KeepsTrans(b.next, b1.next, m.slots, m1.slots, n.slots); }
    } else {
      LivesAfter(p, o, m, m1, out.passes);
    }
  }

  lemma {:induction false} UnwindRuns(p: Prog, o: Oracle, b: Code, cs: seq<Cleanup>, m: State) returns (n: State)
    requires Here(b, m) && Guarded(cs, m.slots, m.armed) && Grows(EmitUnwind(b, cs).blocks, p)
    ensures Reaches(p, o, m, n) && Here(EmitUnwind(b, cs), n)
    ensures n.Run? && n.w == Released(m.w, cs, m.slots) && n.armed == Disarmed(m.armed, cs) && n.slots == m.slots
    decreases |cs|
  {
    if cs == [] {
      NoStep(p, o, m);
      n := m;
    } else {
      var b1 := Emit(b, Release(cs[0]));
      GrowsTrans(b1.blocks, EmitUnwind(b1, cs[1..]).blocks, p);
      InstrRuns(p, o, b, Release(cs[0]), m);
      var m1 := Step1(Release(cs[0]), m, o);
      n := UnwindRuns(p, o, b1, cs[1..], m1);
      ReachesTrans(p, o, m, m1, n);
    }
  }

  lemma {:induction false} InitsRun(p: Prog, o: Oracle, ctx: Ctx, b: Code, ds: seq<VarInit>,
                                    m: State) returns (n: State)
    requires Here(b, m) && Grows(EmitInits(b, ds).blocks, p)
    ensures var (out, w) := Inits(ds, m.w, o); Lands(p, o, ctx, b, EmitInits(b, ds), m, out, w, n)
    decreases |ds|
  {
    if ds == [] {
      NoStep(p, o, m);
      n := m;
    } else {
      var b1 := Emit(b, CallInit(ds[0]));
      GrowsTrans(b1.blocks, EmitInits(b1, ds[1..]).blocks, p);
      InstrRuns(p, o, b, CallInit(ds[0]), m);
      n := Step1(CallInit(ds[0]), m, o);
      if ds[0].NullInit? || !o(m.w.pos).Fails? {
        var m1 := n;
        n := InitsRun(p, o, ctx, b1, ds[1..], m1);
        ReachesTrans(p, o, m, m1, n);
      }
    }
  }

  // ---- jumps ----

  lemma NothingCrossed(m: State)
    requires m.Run?
    ensures forall w: World :: Released(w, [], m.slots) == w
    ensures Disarmed(m.armed, []) == m.armed
  {
  }

  lemma LeaveRuns(p: Prog, o: Oracle, s: Stmt, ctx: Ctx, b: Code, m: State, fuel: nat) returns (n: State)
    requires s.Leave? && Ready(ctx, b, m) && Ok(s, Targets(ctx.loops)) && Grows(CompileLeave(s, ctx, b).blocks, p)
    ensures var (out, w) := Exec(true, s, Targets(ctx.loops), m.w, o, fuel);
      Lands(p, o, ctx, b, CompileLeave(s, ctx, b), m, out, w, n)
  {
    hide Reaches, Reaches1, Lives, Guarded, EmitUnwind, CtxOk, Released, Disarmed;
    LoopDepths(ctx, b);
    var k := Resolve(Targets(ctx.loops), s.lab).value;
    var goal := if s.isExit then ctx.loops[k].exitTo else ctx.loops[k].continueTo;
    var cs := Crossed(ctx, k);
    GuardedPrefix(ctx.cleanups, |cs|, m.slots, m.armed);
    if !s.cond {
      var b1 := EmitUnwind(b, cs);
      var b2 := NewBlock(b1);
      assert Grows(b1.blocks, CompileLeave(s, ctx, b).blocks);
      GrowsTrans(b1.blocks, CompileLeave(s, ctx, b).blocks, p);
      var m1 := UnwindRuns(p, o, b, cs, m);
      TermRuns(p, o, b2, Br(goal), m1);
      n := Jump(Br(goal), m1, o);
      ReachesTrans(p, o, m, m1, n);
    } else if ctx.loops[k].depth < |ctx.cleanups| {
      n := LeaveUnwinding(p, o, s, ctx, b, m, fuel, k);
    } else {
      var t := Term.Ask(goal, |b.blocks|);
      TermRuns(p, o, NewBlock(b), t, m);
      n := Jump(t, m, o);
      assert cs == [];
      NothingCrossed(m);
    }
  }

  lemma UnwindGrows(b: Code, b1: Code, b2: Code, goal: nat, p: Prog)
    requires Open(b) && b1 == Then(Blocks(b, 2), Term.Ask(|b.blocks|, |b.blocks| + 1), |b.blocks|)
    requires Frame(b1, b2) && b2.cur == b1.cur && |b2.blocks| == |b1.blocks|
    requires Grows(Then(b2, Br(goal), |b.blocks| + 1).blocks, p)
    ensures Grows(b2.blocks, p) && Grows(b1.blocks, p) && Grows(Close(b2, Br(goal)).blocks, p)
    ensures Grows(Close(Blocks(b, 2), Term.Ask(|b.blocks|, |b.blocks| + 1)).blocks, p)
  {
    var c := Then(b2, Br(goal), |b.blocks| + 1);
    GrowsTrans(b2.blocks, c.blocks, p);
    GrowsTrans(b1.blocks, b2.blocks, p);
  }

  /** The conditional jump that crosses something: the releases run only on the taken edge. */
  lemma LeaveUnwinding(p: Prog, o: Oracle, s: Stmt, ctx: Ctx, b: Code, m: State, fuel: nat, k: nat) returns (n: State)
    requires s.Leave? && s.cond && Ready(ctx, b, m) && Ok(s, Targets(ctx.loops))
    requires Grows(CompileLeave(s, ctx, b).blocks, p)
    requires Some(k) == Resolve(Targets(ctx.loops), s.lab) && ctx.loops[k].depth < |ctx.cleanups|
    ensures var (out, w) := Exec(true, s, Targets(ctx.loops), m.w, o, fuel);
      Lands(p, o, ctx, b, CompileLeave(s, ctx, b), m, out, w, n)
  {
    hide Reaches, Reaches1, Lives, Guarded, Released, Disarmed, EmitUnwind, Resolve, CtxOk;
    LoopDepths(ctx, b);
    var goal := if s.isExit then ctx.loops[k].exitTo else ctx.loops[k].continueTo;
    var cs := Crossed(ctx, k);
    var unwind, skip := |b.blocks|, |b.blocks| + 1;
    var t := Term.Ask(unwind, skip);
    var b1 := Then(Blocks(b, 2), t, unwind);
    var b2 := EmitUnwind(b1, cs);
    UnwindGrows(b, b1, b2, goal, p);
    hide Grows, Frame;
    TermRuns(p, o, Blocks(b, 2), t, m);
    n := Jump(t, m, o);
    if o(m.w.pos) == Answer(true) {
      var m1 := n;
      GuardedPrefix(ctx.cleanups, |cs|, m.slots, m.armed);
      var m2 := UnwindRuns(p, o, b1, cs, m1);
      TermRuns(p, o, b2, Br(goal), m2);
      n := Jump(Br(goal), m2, o);
      ReachesTrans(p, o, m, m1, m2);
      ReachesTrans(p, o, m, m2, n);
    }
  }

  // ---- statements ----

  lemma {:induction false} Sim(p: Prog, o: Oracle, s: Stmt, ctx: Ctx, b: Code, m: State, fuel: nat) returns (n: State)
    requires Ready(ctx, b, m) && Ok(s, Targets(ctx.loops)) && Grows(Compile(s, ctx, b).blocks, p)
    ensures var (out, w) := Exec(true, s, Targets(ctx.loops), m.w, o, fuel);
      Lands(p, o, ctx, b, Compile(s, ctx, b), m, out, w, n)
    decreases fuel, s, 4
  {
    hide Lands, Guarded, Grows;
    match s
    case Do(_) => n := DoRuns(p, o, s, ctx, b, m, fuel);
    case Return => n := ReturnRuns(p, o, s, ctx, b, m, fuel);
    case Leave(_, _, _) => n := LeaveRuns(p, o, s, ctx, b, m, fuel);
    case If(_, _) => n := IfRuns(p, o, s, ctx, b, m, fuel);
    case Loop(_, _, _) => n := LoopRuns(p, o, s, ctx, b, m, fuel);
    case Block(_, _, _) => n := BlockRuns(p, o, s, ctx, b, m, fuel);
    case Try(_, _, _, _) => n := TryRuns(p, o, s, ctx, b, m, fuel);
  }

  lemma DoRuns(p: Prog, o: Oracle, s: Stmt, ctx: Ctx, b: Code, m: State, fuel: nat) returns (n: State)
    requires s.Do? && Ready(ctx, b, m) && Grows(Compile(s, ctx, b).blocks, p)
    ensures var (out, w) := Exec(true, s, Targets(ctx.loops), m.w, o, fuel);
      Lands(p, o, ctx, b, Compile(s, ctx, b), m, out, w, n)
  {
    InstrRuns(p, o, b, CallDo(s.id), m);
    n := Step1(CallDo(s.id), m, o);
  }

  lemma ReturnRuns(p: Prog, o: Oracle, s: Stmt, ctx: Ctx, b: Code, m: State, fuel: nat) returns (n: State)
    requires s.Return? && Ready(ctx, b, m) && Grows(Compile(s, ctx, b).blocks, p)
    ensures var (out, w) := Exec(true, s, Targets(ctx.loops), m.w, o, fuel);
      Lands(p, o, ctx, b, Compile(s, ctx, b), m, out, w, n)
  {
    var b1 := Emit(b, CallReturn);
    var b2 := NewBlock(b1);
    GrowsTrans(b1.blocks, Compile(s, ctx, b).blocks, p);
    InstrRuns(p, o, b, CallReturn, m);
    n := Step1(CallReturn, m, o);
    if !o(m.w.pos).Fails? {
      var m1 := n;
      TermRuns(p, o, b2, Br(ctx.returnTo), m1);
      n := Jump(Br(ctx.returnTo), m1, o);
      ReachesTrans(p, o, m, m1, n);
    }
  }

  lemma {:induction false} SimAll(p: Prog, o: Oracle, ss: Stmts, ctx: Ctx, b: Code, m: State,
                                  fuel: nat) returns (n: State)
    requires Ready(ctx, b, m) && AllOk(ss, Targets(ctx.loops)) && Grows(CompileAll(ss, ctx, b).blocks, p)
    ensures var (out, w) := ExecAll(true, ss, Targets(ctx.loops), m.w, o, fuel);
      Lands(p, o, ctx, b, CompileAll(ss, ctx, b), m, out, w, n)
    decreases fuel, ss, 0
  {
    if ss.Nil? {
      NoStep(p, o, m);
      n := m;
    } else {
      var b1 := Compile(ss.head, ctx, b);
      GrowsTrans(b1.blocks, CompileAll(ss.tail, ctx, b1).blocks, p);
      n := Sim(p, o, ss.head, ctx, b, m, fuel);
      var (out, w) := Exec(true, ss.head, Targets(ctx.loops), m.w, o, fuel);
      if out.Fall? {
        var m1 := n;
        GuardedKeeps(ctx.cleanups, b.next, m.slots, m1.slots, m.armed);
        CtxGrows(ctx, b, b1);
        n := SimAll(p, o, ss.tail, ctx, b1, m1, fuel);
        var (out', w') := ExecAll(true, ss.tail, Targets(ctx.loops), w, o, fuel);
        LandsAfter(p, o, ctx, b, b1, CompileAll(ss.tail, ctx, b1), m, m1, out', w', n);
      }
    }
  }

  /** Fall-through of a construct whose code ends by a branch to block i, where the builder goes on. */
  lemma FallTo(p: Prog, o: Oracle, ctx: Ctx, b: Code, mid: Code, t: nat, c: Code, m: State, out: Outcome, w: World,
               n: State) returns (r: State)
    requires Lands(p, o, ctx, b, mid, m, out, w, n) && Open(mid) && Open(c) && c.cur == t && End(c) == 0
    requires Grows(Close(mid, Br(t)).blocks, p)
    ensures Lands(p, o, ctx, b, c, m, out, w, r) && (out.Fall? ==> Reaches1(p, o, m, r))
  {
    r := n;
    if out.Fall? {
      TermRuns(p, o, mid, Br(t), n);
      r := Jump(Br(t), n, o);
      ReachesTrans(p, o, m, n, r);
    }
  }

  lemma {:induction false} IfRuns(p: Prog, o: Oracle, s: Stmt, ctx: Ctx, b: Code, m: State,
                                  fuel: nat) returns (n: State)
    requires s.If? && Ready(ctx, b, m) && Ok(s, Targets(ctx.loops)) && Grows(CompileIf(s, ctx, b).blocks, p)
    ensures var (out, w) := Exec(true, s, Targets(ctx.loops), m.w, o, fuel);
      Lands(p, o, ctx, b, CompileIf(s, ctx, b), m, out, w, n)
    decreases fuel, s, 1
  {
    hide Reaches, Reaches1, Lives, Guarded, CompileAll;
    var b0 := IfThen(b);
    CtxGrows(ctx, b, b0);
    var b1 := CompileAll(s.thn, ctx, b0);
    var b2 := IfElse(b, b1);
    CtxGrows(ctx, b, b2);
    var b3 := CompileAll(s.els, ctx, b2);
    var c := CompileIf(s, ctx, b);
    GrowsTrans(b3.blocks, c.blocks, p); GrowsTrans(b2.blocks, b3.blocks, p);
    GrowsTrans(b1.blocks, b2.blocks, p); GrowsTrans(b0.blocks, b1.blocks, p);
    var t := Term.Ask(|b.blocks| + 1, |b.blocks| + 2);
    TermRuns(p, o, Blocks(b, 3), t, m);
    var m1 := Jump(t, m, o);
    n := m1;
    if !o(m.w.pos).Fails? {
      var yes := o(m.w.pos).yes;
      var start, end := if yes then b0 else b2, if yes then b1 else b3;
      var ss := if yes then s.thn else s.els;
      var (out, w) := ExecAll(true, ss, Targets(ctx.loops), m1.w, o, fuel);
      n := SimAll(p, o, ss, ctx, start, m1, fuel);
      n := FallTo(p, o, ctx, start, end, |b.blocks|, c, m1, out, w, n);
      LandsAfter(p, o, ctx, b, start, c, m, m1, out, w, n);
    }
  }

  lemma {:induction false} BlockRuns(p: Prog, o: Oracle, s: Stmt, ctx: Ctx, b: Code, m: State,
                                     fuel: nat) returns (n: State)
    requires s.Block? && Ready(ctx, b, m) && Ok(s, Targets(ctx.loops)) && Grows(CompileBlock(s, ctx, b).blocks, p)
    ensures var (out, w) := Exec(true, s, Targets(ctx.loops), m.w, o, fuel);
      Lands(p, o, ctx, b, CompileBlock(s, ctx, b), m, out, w, n)
    decreases fuel, s, 1
  {
    hide Reaches, Reaches1, Lives, CompileAll, Guarded, EmitInits;
    var b1 := EmitInits(b, s.inits);
    CtxGrows(ctx, b, b1);
    var c := CompileBlock(s, ctx, b);
    GrowsTrans(b1.blocks, c.blocks, p);
    var (ini, w1) := Inits(s.inits, m.w, o);
    n := InitsRun(p, o, ctx, b, s.inits, m);
    if ini.Fall? {
      var m1 := n;
      GuardedKeeps(ctx.cleanups, b.next, m.slots, m1.slots, m.armed);
      if s.lab.None? {
        var (out, w) := ExecAll(true, s.body, Targets(ctx.loops), w1, o, fuel);
        n := SimAll(p, o, s.body, ctx, b1, m1, fuel);
        LandsAfter(p, o, ctx, b, b1, c, m, m1, out, w, n);
      } else {
        var inner := InBlock(ctx, s.lab, |b.blocks|);
        TargetsCons(inner.loops[0], ctx.loops);
        var b2 := NewBlock(b1);
        var b3 := CompileAll(s.body, inner, b2);
        GrowsTrans(b3.blocks, c.blocks, p);
        var (out, w) := ExecAll(true, s.body, Targets(inner.loops), w1, o, fuel);
        n := SimAll(p, o, s.body, inner, b2, m1, fuel);
        n := FallTo(p, o, inner, b2, b3, |b.blocks|, c, m1, out, w, n);
        LabelSeen(p, o, s.lab, ctx, |b.blocks|, b2, c, m1, out, w, n);
        LandsAfter(p, o, ctx, b, b2, c, m, m1, OutwardOf(s.lab, out), w, n);
      }
    }
  }

  /** A jump to the block's own label lands where the block ends; an outer one is unaffected. */
  lemma LabelSeen(p: Prog, o: Oracle, lab: Option<string>, ctx: Ctx, end: nat, b: Code, c: Code, m: State,
                  out: Outcome, w: World, n: State)
    requires lab.Some? && Lands(p, o, InBlock(ctx, lab, end), b, c, m, out, w, n)
    requires Open(c) && c.cur == end && End(c) == 0 && (out.JumpTo? && out.depth == 0 ==> out.isExit)
    requires forall k :: 0 <= k < |ctx.loops| ==> ctx.loops[k].depth <= |ctx.cleanups|
    ensures Lands(p, o, ctx, b, c, m, Outward(out), w, n)
  {
    if out.JumpTo? {
      var inner := InBlock(ctx, lab, end);
      if out.depth == 0 {
        assert Crossed(inner, 0) == [];
      } else {
        assert inner.loops[out.depth] == ctx.loops[out.depth - 1];
      }
    }
  }

  // ---- loops ----

  /** An outcome of a loop as its body's context numbers it. */
  function Inward(out: Outcome): Outcome {
    if out.JumpTo? then out.(depth := out.depth + 1) else out
  }

  /** The portal a loop runs on, if it is a row loop. */
  function PortalOf(kind: LoopKind, b: Code, m: State): nat
    requires m.Run?
  {
    if kind.Rows? && b.next in m.slots then m.slots[b.next] else 0
  }

  /** Intermediate graphs of a loop are completed by the final one. */
  lemma LoopGrows(s: Stmt, ctx: Ctx, b: Code, mid: Code, p: Prog)
    requires s.Loop? && Open(b) && Frame(LoopBody(s.kind, b), mid) && Grows(LoopEnd(s.kind, ctx, b, mid).blocks, p)
    ensures Grows(LoopHead(s.kind, b).blocks, p) && Grows(LoopBody(s.kind, b).blocks, p) && Grows(mid.blocks, p)
    ensures mid.cur != ExitOf(s.kind, b) && mid.blocks[ExitOf(s.kind, b)] == BB([], None)
    ensures Grows(Close(mid, Br(HeadOf(b))).blocks, p)
  {
    var c1 := Then(mid, Br(HeadOf(b)), ExitOf(s.kind, b));
    var c := LoopEnd(s.kind, ctx, b, mid);
    assert Grows(c1.blocks, c.blocks);
    hide Grows;
    GrowsTrans(c1.blocks, c.blocks, p);
    GrowsTrans(mid.blocks, c1.blocks, p);
    GrowsTrans(LoopBody(s.kind, b).blocks, mid.blocks, p);
    GrowsTrans(LoopHead(s.kind, b).blocks, LoopBody(s.kind, b).blocks, p);
  }

  /** Leaving the loop's own body: EXIT of this loop falls out of it. */
  function Leaving(out: Outcome): Outcome { if out == JumpTo(true, 0) then Fall else out }

  predicate Repeats(out: Outcome) { out.Fall? || out == JumpTo(false, 0) }

  /** One pass through the body: back at the head, or out of the loop. */
  lemma {:induction false} PassRuns(p: Prog, o: Oracle, s: Stmt, ctx: Ctx, b: Code, m: State,
                                    fuel: nat) returns (n: State)
    requires s.Loop? && Open(b) && CtxOk(ctx, b) && Ok(s, Targets(ctx.loops)) && Grows(Compile(s, ctx, b).blocks, p)
    requires Ready(LoopCtx(s.kind, s.lab, ctx, b), LoopBody(s.kind, b), m)
    ensures var inner, head := LoopCtx(s.kind, s.lab, ctx, b), LoopHead(s.kind, b);
      var (out, w) := ExecAll(true, s.body, [Target(s.lab, true)] + Targets(ctx.loops), m.w, o, fuel);
      && Lands(p, o, inner, head, if Repeats(out) then head else At(LoopBody(s.kind, b), ExitOf(s.kind, b)), m,
          if Repeats(out) then Fall else Leaving(out), w, n)
      && (Repeats(out) ==> Reaches1(p, o, m, n))
    decreases fuel, s, 0
  {
    hide Reaches, Reaches1, Lives, Guarded, CompileAll, Grows, LoopEnd, CtxOk, ExecAll;
    LoopCtxOk(s.kind, s.lab, ctx, b);
    var inner, head, body := LoopCtx(s.kind, s.lab, ctx, b), LoopHead(s.kind, b), LoopBody(s.kind, b);
    var mid := CompileAll(s.body, inner, body);
    LoopGrows(s, ctx, b, mid, p);
    n := SimAll(p, o, s.body, inner, body, m, fuel);
    var (out, w) := ExecAll(true, s.body, Targets(inner.loops), m.w, o, fuel);
    assert Crossed(inner, 0) == [];
    if out.Fall? { n := FallTo(p, o, inner, body, mid, HeadOf(b), head, m, out, w, n); }
  }

  /** The test at the loop head. */
  lemma HeadRuns(p: Prog, o: Oracle, s: Stmt, ctx: Ctx, b: Code, m: State) returns (n: State)
    requires s.Loop? && Open(b) && CtxOk(ctx, b) && Ok(s, Targets(ctx.loops)) && Grows(Compile(s, ctx, b).blocks, p)
    requires Ready(LoopCtx(s.kind, s.lab, ctx, b), LoopHead(s.kind, b), m)
    ensures Reaches(p, o, m, n)
    ensures var inner, head := LoopCtx(s.kind, s.lab, ctx, b), LoopHead(s.kind, b);
      var exit, asked := At(LoopBody(s.kind, b), ExitOf(s.kind, b)), ControlRef.Ask(m.w);
      if !s.kind.Plain? && o(m.w.pos).Fails? then Lands(p, o, inner, head, exit, m, Raise(o(m.w.pos).code), asked, n)
      else if !s.kind.Plain? && !o(m.w.pos).yes then Lands(p, o, inner, head, exit, m, Fall, asked, n)
      else
        && Ready(inner, LoopBody(s.kind, b), n) && n.armed == m.armed && n.slots == m.slots
        && n.w == Passing(s.kind, PortalOf(s.kind, b, m), m.w)
  {
    LoopCtxOk(s.kind, s.lab, ctx, b);
    LoopGrows(s, ctx, b, CompileAll(s.body, LoopCtx(s.kind, s.lab, ctx, b), LoopBody(s.kind, b)), p);
    n := HeadAsks(p, o, s.kind, s.lab, ctx, b, m);
  }

  /** The same, given the pieces of the graph it needs. */
  lemma HeadAsks(p: Prog, o: Oracle, kind: LoopKind, lab: Option<string>, ctx: Ctx, b: Code,
                 m: State) returns (n: State)
    requires Open(b) && CtxOk(LoopCtx(kind, lab, ctx, b), LoopBody(kind, b))
    requires Grows(LoopHead(kind, b).blocks, p) && Grows(LoopBody(kind, b).blocks, p)
    requires Ready(LoopCtx(kind, lab, ctx, b), LoopHead(kind, b), m)
    ensures Reaches(p, o, m, n)
    ensures var inner, head := LoopCtx(kind, lab, ctx, b), LoopHead(kind, b);
      var exit, asked := At(LoopBody(kind, b), ExitOf(kind, b)), ControlRef.Ask(m.w);
      if !kind.Plain? && o(m.w.pos).Fails? then Lands(p, o, inner, head, exit, m, Raise(o(m.w.pos).code), asked, n)
      else if !kind.Plain? && !o(m.w.pos).yes then Lands(p, o, inner, head, exit, m, Fall, asked, n)
      else
        && Ready(inner, LoopBody(kind, b), n) && n.armed == m.armed && n.slots == m.slots
        && n.w == Passing(kind, PortalOf(kind, b, m), m.w)
  {
    hide CtxOk, Reaches, Reaches1, Lives;
    n := m;
    if kind.Plain? {
      NoStep(p, o, m);
    } else {
      var head, t := LoopHead(kind, b), Term.Ask(BodyOf(kind, b), ExitOf(kind, b));
      var c := Then(head, t, BodyOf(kind, b));
      if kind.Rows? {
        assert Grows(c.blocks, LoopBody(kind, b).blocks);
        GrowsTrans(c.blocks, LoopBody(kind, b).blocks, p);
      }
      TermRuns(p, o, head, t, m);
      n := Jump(t, m, o);
      if kind.Rows? && o(m.w.pos) == Answer(true) {
        var m1 := n;
        InstrRuns(p, o, c, GotRow(b.next), m1);
        n := Step1(GotRow(b.next), m1, o);
        ReachesTrans(p, o, m, m1, n);
      }
    }
  }

  /** From the loop head the graph iterates as the loop does; falling out means reaching the exit block. */
  lemma {:induction false} IterateRuns(p: Prog, o: Oracle, s: Stmt, ctx: Ctx, b: Code, m: State,
                                       fuel: nat) returns (n: State)
    requires s.Loop? && Open(b) && CtxOk(ctx, b) && Ok(s, Targets(ctx.loops)) && Grows(Compile(s, ctx, b).blocks, p)
    requires Ready(LoopCtx(s.kind, s.lab, ctx, b), LoopHead(s.kind, b), m)
    ensures var portal, g := PortalOf(s.kind, b, m), Targets(ctx.loops);
      var (out, w) := Iterate(true, s.kind, s.lab, s.body, g, portal, m.w, o, fuel);
      var inner, head, exit := LoopCtx(s.kind, s.lab, ctx, b), LoopHead(s.kind, b), ExitOf(s.kind, b);
      Lands(p, o, inner, head, At(LoopBody(s.kind, b), exit), m, Inward(out), w, n)
    decreases fuel, s, 1
  {
    hide Reaches, Reaches1, Lives, Guarded, Compile, CompileAll, Grows, Released, Disarmed, CtxOk, LoopCtx, LoopBody,
         LoopHead, Ok, ExecAll, Open, Keeps;
    n := m;
    if fuel == 0 {
      AtOnce(p, o, m);
    } else {
      var inner, head := LoopCtx(s.kind, s.lab, ctx, b), LoopHead(s.kind, b);
      var exit := At(LoopBody(s.kind, b), ExitOf(s.kind, b));
      n := HeadRuns(p, o, s, ctx, b, m);
      if s.kind.Plain? || o(m.w.pos) == Answer(true) {
        var m1 := n;
        n := PassRuns(p, o, s, ctx, b, m1, fuel);
        var (out, w) := ExecAll(true, s.body, [Target(s.lab, true)] + Targets(ctx.loops), m1.w, o, fuel);
        if Repeats(out) {
          var m2 := n;
          SlotsBound(inner, head);
          GuardedKeeps(inner.cleanups, head.next, m1.slots, m2.slots, m1.armed);
          PortalKept(s.kind, s.lab, ctx, b, m1, m2);
          n := IterateRuns(p, o, s, ctx, b, m2, fuel - 1);
          var portal := PortalOf(s.kind, b, m);
          var (out', w') := Iterate(true, s.kind, s.lab, s.body, Targets(ctx.loops), portal, w, o, fuel - 1);
          ReachesTrans(p, o, m, m1, m2);
          if out'.OutOfFuel? {
            LivesAfter(p, o, m, m2, out'.passes);
          } else {
            LandsAfter(p, o, inner, head, head, exit, m, m2, Inward(out'), w', n);
          }
        } else {
          LandsAfter(p, o, inner, head, head, exit, m, m1, Leaving(out), w, n);
        }
      }
    }
  }

  lemma PortalKept(kind: LoopKind, lab: Option<string>, ctx: Ctx, b: Code, m: State, n: State)
    requires Open(b) && m.Run? && n.Run? && Guarded(LoopCtx(kind, lab, ctx, b).cleanups, m.slots, m.armed)
    requires Keeps(LoopHead(kind, b).next, m.slots, n.slots)
    ensures PortalOf(kind, b, n) == PortalOf(kind, b, m)
  {
  }

  lemma AtOnce(p: Prog, o: Oracle, m: State)
    requires m.Run?
    ensures Lives(p, o, m, 0)
  {
  }

  lemma SlotsBound(ctx: Ctx, b: Code)
    requires CtxOk(ctx, b)
    ensures forall k :: 0 <= k < |ctx.cleanups| ==> ctx.cleanups[k].slot < b.next
  {
  }

  /** Outcome of a loop without a portal, seen from outside. */
  lemma OutOfLoop(p: Prog, o: Oracle, s: Stmt, ctx: Ctx, b: Code, c: Code, m: State, out: Outcome, w: World, n: State)
    requires s.Loop? && !s.kind.Rows? && Open(b) && CtxOk(ctx, b)
    requires Lands(p, o, LoopCtx(s.kind, s.lab, ctx, b), LoopHead(s.kind, b),
        At(LoopBody(s.kind, b), ExitOf(s.kind, b)), m, Inward(out), w, n)
    requires out.JumpTo? ==> out.depth < |ctx.loops|
    requires Open(c) && c.cur == ExitOf(s.kind, b) && End(c) == 0
    ensures Lands(p, o, ctx, b, c, m, out, w, n)
  {
    if out.JumpTo? {
      assert LoopCtx(s.kind, s.lab, ctx, b).loops[out.depth + 1] == ctx.loops[out.depth];
    }
  }

  lemma {:induction false} LoopRuns(p: Prog, o: Oracle, s: Stmt, ctx: Ctx, b: Code, m: State,
                                    fuel: nat) returns (n: State)
    requires s.Loop? && Ready(ctx, b, m) && Ok(s, Targets(ctx.loops)) && Grows(Compile(s, ctx, b).blocks, p)
    ensures var (out, w) := Exec(true, s, Targets(ctx.loops), m.w, o, fuel);
      Lands(p, o, ctx, b, Compile(s, ctx, b), m, out, w, n)
    decreases fuel, s, 3
  {
    if s.kind.Rows? {
      n := RowsRuns(p, o, s, ctx, b, m, fuel);
    } else {
      LoopCtxOk(s.kind, s.lab, ctx, b);
      var head := LoopHead(s.kind, b);
      LoopGrows(s, ctx, b, CompileAll(s.body, LoopCtx(s.kind, s.lab, ctx, b), LoopBody(s.kind, b)), p);
      TermRuns(p, o, Blocks(b, if s.kind.Plain? then 2 else 3), Br(HeadOf(b)), m);
      var m1 := Jump(Br(HeadOf(b)), m, o);
      var c := Compile(s, ctx, b);
      hide Reaches, Reaches1, Lives, Guarded, CompileAll, Grows, LoopBody;
      n := IterateRuns(p, o, s, ctx, b, m1, fuel);
      var (out, w) := Iterate(true, s.kind, s.lab, s.body, Targets(ctx.loops), 0, m.w, o, fuel);
      OutOfLoop(p, o, s, ctx, b, c, m1, out, w, n);
      LandsAfter(p, o, ctx, b, b, c, m, m1, out, w, n);
    }
  }

  // ---- row loops ----

  /** The row loop's blocks in the final graph. */
  lemma RowPads(s: Stmt, ctx: Ctx, b: Code, mid: Code, p: Prog)
    requires s.Loop? && s.kind.Rows? && Open(b) && Frame(LoopBody(s.kind, b), mid)
    requires Grows(LoopEnd(s.kind, ctx, b, mid).blocks, p)
    ensures var x := b.next;
      && |b.blocks| + 5 <= |p|
      && p[ExitOf(s.kind, b)] == BB([ClosePortal(x), SetFound(x)], Some(Br(ContOf(b))))
      && p[LoopReturnOf(b)] == BB([ClosePortal(x)], Some(Br(ctx.returnTo)))
  {
    var x, c := b.next, LoopEnd(s.kind, ctx, b, mid);
    var back := LoopBack(s.kind, b, mid);
    assert c == RowEnd(x, ctx.returnTo, back);
    hide LoopEnd, LoopBack, LoopBody, Frame;
    RowEndIs(x, ctx.returnTo, back);
    assert p[ExitOf(s.kind, b)] == c.blocks[ExitOf(s.kind, b)] && p[LoopReturnOf(b)] == c.blocks[LoopReturnOf(b)];
  }

  lemma RowEndIs(x: nat, returnTo: nat, b: Code)
    requires Open(b) && b.cur + 2 < |b.blocks| && b.blocks[b.cur + 1] == b.blocks[b.cur + 2] == BB([], None)
    ensures var c := RowEnd(x, returnTo, b);
      && c.blocks[b.cur] == BB(b.blocks[b.cur].code + [ClosePortal(x), SetFound(x)], Some(Br(b.cur + 2)))
      && c.blocks[b.cur + 1] == BB([ClosePortal(x)], Some(Br(returnTo)))
  {
  }

  /** A landing pad: one runtime call, then a branch. */
  lemma PadRuns(p: Prog, o: Oracle, m: State, i: Instr, t: nat)
    requires m.Run? && m.blk < |p| && m.pc == 0 && p[m.blk] == BB([i], Some(Br(t)))
    requires Step1(i, m, o).Run? && Step1(i, m, o).blk == m.blk && Step1(i, m, o).pc == 1
    ensures Reaches(p, o, m, Goto(Step1(i, m, o), t))
  {
    OneStep(p, o, m);
    var m1 := Step1(i, m, o);
    assert Step(p, o, m) == m1;
    OneStep(p, o, m1);
    ReachesTrans(p, o, m, m1, Step(p, o, m1));
  }

  /** The exit block of a row loop closes the portal and sets FOUND. */
  lemma ExitPadRuns(p: Prog, o: Oracle, m: State, x: nat, t: nat) returns (n: State)
    requires m.Run? && m.blk < |p| && m.pc == 0 && p[m.blk] == BB([ClosePortal(x), SetFound(x)], Some(Br(t)))
    requires x in m.slots
    ensures Reaches(p, o, m, n)
    ensures n == m.(blk := t, pc := 0, w := Log(Log(m.w, Closed(m.slots[x])), Found(m.slots[x] in m.w.rows)))
  {
    var m1 := Step(p, o, m);
    var m2 := Step(p, o, m1);
    n := Step(p, o, m2);
    OneStep(p, o, m);
    OneStep(p, o, m1);
    OneStep(p, o, m2);
    ReachesTrans(p, o, m, m1, m2);
    ReachesTrans(p, o, m, m2, n);
  }

  /** Opening the portal and reaching the loop head. */
  lemma RowsEnter(p: Prog, o: Oracle, s: Stmt, ctx: Ctx, b: Code, c: Code, m: State) returns (n: State)
    requires s.Loop? && s.kind.Rows? && Ready(ctx, b, m) && Grows(LoopHead(s.kind, b).blocks, p)
    ensures Reaches(p, o, m, n)
    ensures if o(m.w.pos).Fails? then Lands(p, o, ctx, b, c, m, Raise(o(m.w.pos).code), ControlRef.Ask(m.w), n)
      else
        && Here(LoopHead(s.kind, b), n) && n.armed == m.armed && n.slots == m.slots[b.next := m.w.next]
        && n.w == Opening(m.w)
  {
    hide Reaches, Reaches1, Lives, CtxOk;
    var x, head := b.next, LoopHead(s.kind, b);
    var b1 := Emit(b, OpenPortal(x));
    var b2 := Bump(Emit(b1, ClearRow(x)), 1);
    assert Grows(b1.blocks, b2.blocks) && Grows(b2.blocks, head.blocks);
    GrowsTrans(b2.blocks, head.blocks, p);
    GrowsTrans(b1.blocks, b2.blocks, p);
    InstrRuns(p, o, b, OpenPortal(x), m);
    n := Step1(OpenPortal(x), m, o);
    if !o(m.w.pos).Fails? {
      var m1 := n;
      InstrRuns(p, o, b1, ClearRow(x), m1);
      var m2 := Step1(ClearRow(x), m1, o);
      TermRuns(p, o, Blocks(b2, 5), Br(HeadOf(b)), m2);
      n := Jump(Br(HeadOf(b)), m2, o);
      ReachesTrans(p, o, m, m1, m2);
      ReachesTrans(p, o, m, m2, n);
    }
  }

  lemma {:induction false} RowsRuns(p: Prog, o: Oracle, s: Stmt, ctx: Ctx, b: Code, m: State,
                                    fuel: nat) returns (n: State)
    requires s.Loop? && s.kind.Rows? && Ready(ctx, b, m) && Ok(s, Targets(ctx.loops))
    requires Grows(Compile(s, ctx, b).blocks, p)
    ensures var (out, w) := Exec(true, s, Targets(ctx.loops), m.w, o, fuel);
      Lands(p, o, ctx, b, Compile(s, ctx, b), m, out, w, n)
    decreases fuel, s, 2, 1
  {
    hide Reaches, Reaches1, Lives, Compile, CompileAll, Grows, LoopBody, LoopHead, CtxOk, Ok, Exec, Iterate, Lands,
         Guarded, LoopCtx, RowsLeft, Resolve, AllOk, Targets;
    RowsFacts(s, ctx, b, p);
    RowsIs(s, Targets(ctx.loops), m.w, o, fuel);
    var c := Compile(s, ctx, b);
    n := RowsEnter(p, o, s, ctx, b, c, m);
    if !o(m.w.pos).Fails? {
      var m1 := n;
      RowsGuard(s, ctx, b, m, m1);
      n := RowsRest(p, o, s, ctx, b, m1, fuel);
      var (out, w) := Iterate(true, s.kind, s.lab, s.body, Targets(ctx.loops), m.w.next, m1.w, o, fuel);
      LandsAfter(p, o, ctx, b, b, c, m, m1, out, RowsLeft(true, out, m.w.next, w), n);
    }
  }

  lemma RowsGuard(s: Stmt, ctx: Ctx, b: Code, m: State, m1: State)
    requires s.Loop? && s.kind.Rows? && Ready(ctx, b, m) && m1.Run? && m1.armed == m.armed
    requires m1.slots == m.slots[b.next := m.w.next]
    ensures Guarded(LoopCtx(s.kind, s.lab, ctx, b).cleanups, m1.slots, m1.armed)
  {
    GuardedKeeps(ctx.cleanups, b.next, m.slots, m1.slots, m.armed);
    assert LoopCtx(s.kind, s.lab, ctx, b).cleanups[1..] == ctx.cleanups;
  }

  lemma {:induction false} RowsRest(p: Prog, o: Oracle, s: Stmt, ctx: Ctx, b: Code, m: State,
                                    fuel: nat) returns (n: State)
    requires s.Loop? && s.kind.Rows? && Open(b) && CtxOk(ctx, b) && Ok(s, Targets(ctx.loops))
    requires Grows(Compile(s, ctx, b).blocks, p)
    requires Ready(LoopCtx(s.kind, s.lab, ctx, b), LoopHead(s.kind, b), m) && b.next in m.slots
    ensures var (out, w) := Iterate(true, s.kind, s.lab, s.body, Targets(ctx.loops), m.slots[b.next], m.w, o, fuel);
      Lands(p, o, ctx, b, Compile(s, ctx, b), m, out, RowsLeft(true, out, m.slots[b.next], w), n)
    decreases fuel, s, 2, 0
  {
    RowsFacts(s, ctx, b, p);
    hide Reaches, Reaches1, Lives, Compile, CompileAll, Grows, LoopBody, LoopHead, CtxOk, Guarded, Iterate, Lands,
         LoopCtx;
    n := IterateRuns(p, o, s, ctx, b, m, fuel);
    var (out, w) := Iterate(true, s.kind, s.lab, s.body, Targets(ctx.loops), m.slots[b.next], m.w, o, fuel);
    n := OutOfRows(p, o, s, ctx, b, Compile(s, ctx, b), m, out, w, n);
  }

  lemma RowsIs(s: Stmt, g: seq<Target>, w: World, o: Oracle, fuel: nat)
    requires s.Loop? && s.kind.Rows?
    ensures Exec(true, s, g, w, o, fuel) ==
      if o(w.pos).Fails? then (Raise(o(w.pos).code), ControlRef.Ask(w))
      else
        var (out, w1) := Iterate(true, s.kind, s.lab, s.body, g, w.next, Opening(w), o, fuel);
        (out, RowsLeft(true, out, w.next, w1))
    ensures Ok(s, g) ==> AllOk(s.body, [Target(s.lab, true)] + g)
  {
  }

  lemma RowsFacts(s: Stmt, ctx: Ctx, b: Code, p: Prog)
    requires s.Loop? && s.kind.Rows? && Open(b) && CtxOk(ctx, b) && Ok(s, Targets(ctx.loops))
    requires Grows(Compile(s, ctx, b).blocks, p)
    ensures var c := Compile(s, ctx, b); Open(c) && c.cur == ContOf(b) && End(c) == 0
    ensures CtxOk(LoopCtx(s.kind, s.lab, ctx, b), LoopHead(s.kind, b)) && Grows(LoopHead(s.kind, b).blocks, p)
    ensures |b.blocks| + 5 <= |p|
    ensures p[ExitOf(s.kind, b)] == BB([ClosePortal(b.next), SetFound(b.next)], Some(Br(ContOf(b))))
    ensures p[LoopReturnOf(b)] == BB([ClosePortal(b.next)], Some(Br(ctx.returnTo)))
  {
    LoopCtxOk(s.kind, s.lab, ctx, b);
    var mid := CompileAll(s.body, LoopCtx(s.kind, s.lab, ctx, b), LoopBody(s.kind, b));
    LoopGrows(s, ctx, b, mid, p);
    RowPads(s, ctx, b, mid, p);
  }

  /** Outcome of a row loop, seen from outside: its portal is closed on every way out but an error. */
  lemma OutOfRows(p: Prog, o: Oracle, s: Stmt, ctx: Ctx, b: Code, c: Code, m: State, out: Outcome, w: World,
                  n: State) returns (r: State)
    requires s.Loop? && s.kind.Rows? && Open(b) && CtxOk(ctx, b) && |b.blocks| + 5 <= |p|
    requires p[ExitOf(s.kind, b)] == BB([ClosePortal(b.next), SetFound(b.next)], Some(Br(ContOf(b))))
    requires p[LoopReturnOf(b)] == BB([ClosePortal(b.next)], Some(Br(ctx.returnTo)))
    requires Lands(p, o, LoopCtx(s.kind, s.lab, ctx, b), LoopHead(s.kind, b),
        At(LoopBody(s.kind, b), ExitOf(s.kind, b)), m, Inward(out), w, n)
    requires b.next in m.slots && (out.JumpTo? ==> out.depth < |ctx.loops|)
    requires Open(c) && c.cur == ContOf(b) && End(c) == 0
    ensures Lands(p, o, ctx, b, c, m, out, RowsLeft(true, out, m.slots[b.next], w), r)
  {
    hide Reaches, Reaches1, Lives, CtxOk;
    LoopDepths(ctx, b);
    var x := b.next;
    r := n;
    if out.Fall? {
      r := ExitPadRuns(p, o, n, x, ContOf(b));
      ReachesTrans(p, o, m, n, r);
    } else if out.Ret? {
      PadRuns(p, o, n, ClosePortal(x), ctx.returnTo);
      r := Goto(Step1(ClosePortal(x), n, o), ctx.returnTo);
      ReachesTrans(p, o, m, n, r);
    } else if out.JumpTo? {
      var inner := LoopCtx(s.kind, s.lab, ctx, b);
      assert inner.loops[out.depth + 1] == ctx.loops[out.depth];
      var cs := Crossed(inner, out.depth + 1);
      assert cs[0] == UnPortal(x) && cs[1..] == Crossed(ctx, out.depth);
    }
  }

  // ---- exception blocks ----

  /** Where a handler's code for `code` starts, if there is one, agrees with the first matching clause. */
  lemma {:induction false} CasesMatch(hs: Handlers, ctx: Ctx, b: Code, x: nat, code: int)
    requires Open(b) && HandlersOk(hs, Targets(ctx.loops)) && CtxOk(ctx, b)
    ensures FirstCase(CompileHandlers(hs, ctx, b, x).1, code).Some? <==> FirstMatch(hs, code).Some?
    decreases hs
  {
    if hs.When? {
      var b1 := At(NewBlock(b), |b.blocks|);
      var b2 := CompileAll(hs.action, ctx, b1);
      var b3 := At(Close(Emit(b2, Done(x)), Br(b.cur)), b.cur);
      var (c, cases) := CompileHandlers(hs.rest, ctx, b3, x);
      assert ([(hs.codes, |b.blocks|)] + cases)[1..] == cases;
      CasesMatch(hs.rest, ctx, b3, x, code);
    }
  }

  /** World and place after a handler: falling out of it runs the handler-done call. */
  function AfterHandler(out: Outcome, w: World, f: nat): World {
    if out.Fall? then Log(w, HandlerDone(f)) else w
  }

  /** One handler from its block: its statements, then handler-done and the branch to the block after. */
  lemma {:induction false} HandlerRuns(p: Prog, o: Oracle, ss: Stmts, ctx: Ctx, b: Code, x: nat, m: State,
                                       fuel: nat) returns (n: State)
    requires Open(b) && End(b) == 0 && AllOk(ss, Targets(ctx.loops)) && CtxOk(ctx, b) && x < b.next
    requires m.Run? && m.blk == |b.blocks| && m.pc == 0 && Guarded(ctx.cleanups, m.slots, m.armed) && x in m.slots
    requires CtxOk(ctx, At(NewBlock(b), |b.blocks|))
    requires Grows(Close(Emit(CompileAll(ss, ctx, At(NewBlock(b), |b.blocks|)), Done(x)), Br(b.cur)).blocks, p)
    ensures var (out, w) := ExecAll(true, ss, Targets(ctx.loops), m.w, o, fuel);
      Lands(p, o, ctx, b, b, m, out, AfterHandler(out, w, m.slots[x]), n)
    decreases fuel, ss, 1
  {
    hide Guarded, CompileAll, Grows, Reaches, Reaches1, Lives, CtxOk;
    var b1 := At(NewBlock(b), |b.blocks|);
    var b2 := CompileAll(ss, ctx, b1);
    var b3 := Emit(b2, Done(x));
    EndGrows(b2, x, b.cur, p);
    n := SimAll(p, o, ss, ctx, b1, m, fuel);
    var (out, w) := ExecAll(true, ss, Targets(ctx.loops), m.w, o, fuel);
    if out.Fall? {
      var m1 := n;
      InstrRuns(p, o, b2, Done(x), m1);
      var m2 := Step1(Done(x), m1, o);
      TermRuns(p, o, b3, Br(b.cur), m2);
      n := Jump(Br(b.cur), m2, o);
      ReachesTrans(p, o, m, m1, m2);
      ReachesTrans(p, o, m, m2, n);
    }
  }

  lemma EndGrows(b: Code, x: nat, t: nat, p: Prog)
    requires Open(b) && Grows(Close(Emit(b, Done(x)), Br(t)).blocks, p)
    ensures Grows(b.blocks, p) && Grows(Emit(b, Done(x)).blocks, p)
  {
    var b1 := Emit(b, Done(x));
    var c := Close(b1, Br(t));
    assert Grows(b1.blocks, c.blocks) && Grows(b.blocks, b1.blocks);
    GrowsTrans(b1.blocks, c.blocks, p);
    GrowsTrans(b.blocks, b1.blocks, p);
  }

  /** Builder after the first WHEN clause, back where it was. */
  function PastClause(hs: Handlers, ctx: Ctx, b: Code, x: nat): (c: Code)
    requires hs.When? && Open(b) && HandlersOk(hs, Targets(ctx.loops)) && CtxOk(ctx, b)
    ensures Open(c) && End(c) == End(b) && c.cur == b.cur && b.next <= c.next && CtxOk(ctx, c)
  {
    At(Close(Emit(CompileAll(hs.action, ctx, At(NewBlock(b), |b.blocks|)), Done(x)), Br(b.cur)), b.cur)
  }

  lemma ClauseFacts(hs: Handlers, ctx: Ctx, b: Code, x: nat, code: int, p: Prog)
    requires hs.When? && Open(b) && HandlersOk(hs, Targets(ctx.loops)) && CtxOk(ctx, b)
    requires Grows(CompileHandlers(hs, ctx, b, x).0.blocks, p)
    ensures CtxOk(ctx, At(NewBlock(b), |b.blocks|))
    ensures Grows(Close(Emit(CompileAll(hs.action, ctx, At(NewBlock(b), |b.blocks|)), Done(x)), Br(b.cur)).blocks, p)
    ensures Grows(CompileHandlers(hs.rest, ctx, PastClause(hs, ctx, b, x), x).0.blocks, p)
    ensures var rest := CompileHandlers(hs.rest, ctx, PastClause(hs, ctx, b, x), x).1;
      FirstCase(CompileHandlers(hs, ctx, b, x).1, code) ==
        if code in hs.codes then Some(|b.blocks|) else FirstCase(rest, code)
  {
    var b3 := PastClause(hs, ctx, b, x);
    var (c, cases) := CompileHandlers(hs.rest, ctx, b3, x);
    assert ([(hs.codes, |b.blocks|)] + cases)[1..] == cases;
    assert Grows(b3.blocks, c.blocks);
    GrowsTrans(b3.blocks, c.blocks, p);
  }

  lemma ClauseMatch(hs: Handlers, code: int)
    requires hs.When? && FirstMatch(hs, code).Some?
    ensures code in hs.codes ==> Action(hs, FirstMatch(hs, code).value) == hs.action
    ensures code !in hs.codes ==> FirstMatch(hs.rest, code).Some?
    ensures code !in hs.codes ==>
      Action(hs, FirstMatch(hs, code).value) == Action(hs.rest, FirstMatch(hs.rest, code).value)
  {
  }

  /** The handler the switch selects runs as the first matching clause does. */
  lemma {:induction false} HandlersRun(p: Prog, o: Oracle, hs: Handlers, ctx: Ctx, b: Code, x: nat, code: int,
                                       m: State, fuel: nat) returns (n: State)
    requires Open(b) && End(b) == 0 && HandlersOk(hs, Targets(ctx.loops)) && CtxOk(ctx, b) && x < b.next
    requires Grows(CompileHandlers(hs, ctx, b, x).0.blocks, p) && FirstMatch(hs, code).Some?
    requires m.Run? && Some(m.blk) == FirstCase(CompileHandlers(hs, ctx, b, x).1, code) && m.pc == 0
    requires Guarded(ctx.cleanups, m.slots, m.armed) && x in m.slots
    ensures var (out, w) := ExecAll(true, Action(hs, FirstMatch(hs, code).value), Targets(ctx.loops), m.w, o, fuel);
      Lands(p, o, ctx, b, b, m, out, AfterHandler(out, w, m.slots[x]), n)
    decreases fuel, hs
  {
    ClauseFacts(hs, ctx, b, x, code, p);
    ClauseMatch(hs, code);
    var b3 := PastClause(hs, ctx, b, x);
    hide Grows, Guarded, Lands, CompileAll, ExecAll, CompileHandlers, CtxOk, FirstCase, Action, AfterHandler,
         PastClause;
    if code in hs.codes {
      n := HandlerRuns(p, o, hs.action, ctx, b, x, m, fuel);
    } else {
      n := HandlersRun(p, o, hs.rest, ctx, b3, x, code, m, fuel);
      var (out, w) := ExecAll(true, Action(hs, FirstMatch(hs, code).value), Targets(ctx.loops), m.w, o, fuel);
      LandsElsewhere(p, o, ctx, b, b3, m, out, AfterHandler(out, w, m.slots[x]), n);
    }
  }

  lemma LandsElsewhere(p: Prog, o: Oracle, ctx: Ctx, b: Code, b1: Code, m: State, out: Outcome, w: World, n: State)
    requires Lands(p, o, ctx, b1, b1, m, out, w, n) && Open(b) && b.next <= b1.next
    requires Open(b1) && b.cur == b1.cur && End(b) == End(b1)
    ensures Lands(p, o, ctx, b, b, m, out, w, n)
  {
  }

  /** Builder after arming the frame. */
  function ArmedAt(b: Code): (c: Code)
    requires Open(b)
    ensures Frame(TryEnter(b), c) && c.next == b.next + 1 && |c.blocks| == |b.blocks| + 8
  {
    Emit(TryEnter(b), Arm(b.next, CatchOf(b)))
  }

  /** Builder after the body of an exception block. */
  function MidOf(s: Stmt, ctx: Ctx, b: Code): (mid: Code)
    requires s.Try? && Open(b) && CtxOk(ctx, b) && Ok(s, Targets(ctx.loops))
    ensures Frame(TryBody(b, s.inits), mid) && Untouched(mid, |b.blocks| + 1, |b.blocks| + 8) && b.next < mid.next
  {
    TryCtxOk(s, ctx, b);
    var mid := CompileAll(s.body, BodyCtx(s.lab, ctx, b), TryBody(b, s.inits));
    TryMid(b, s.inits, mid);
    mid
  }

  /** Builder with the landing pads written, resting in the block after. */
  function PadsOf(s: Stmt, ctx: Ctx, b: Code): (c: Code)
    requires s.Try? && Open(b) && CtxOk(ctx, b) && Ok(s, Targets(ctx.loops))
    ensures Open(c) && End(c) == 0 && c.cur == AfterOf(b) && b.next < c.next && |b.blocks| + 8 <= |c.blocks|
  {
    Pads(b.next, ctx.returnTo, |b.blocks|, MidOf(s, ctx, b))
  }

  /** The landing pads of the exception block that starts at builder b. */
  ghost predicate PadsIn(returnTo: nat, b: Code, p: Prog) {
    && |b.blocks| + 8 <= |p|
    && p[TryExitOf(b)] == BB([TryExit(b.next)], Some(Br(AfterOf(b))))
    && p[TryReturnOf(b)] == BB([TryExit(b.next)], Some(Br(returnTo)))
    && p[HandlerReturnOf(b)] == BB([Done(b.next)], Some(Br(returnTo)))
    && p[HandlerExitOf(b)] == BB([Done(b.next)], Some(Br(AfterOf(b))))
    && p[RethrowOf(b)] == BB([], Some(Rethrow(b.next)))
  }

  /** Graph and dispatch table once the handlers are compiled. */
  function HandlersOf(s: Stmt, ctx: Ctx, b: Code): (r: (Code, seq<(set<int>, nat)>))
    requires s.Try? && Open(b) && CtxOk(ctx, b) && Ok(s, Targets(ctx.loops))
    ensures Beside(PadsOf(s, ctx, b), r.0)
  {
    HandlerCtxOk(s, ctx, b, PadsOf(s, ctx, b));
    CompileHandlers(s.handlers, HandlerCtx(s.lab, ctx, b), PadsOf(s, ctx, b), b.next)
  }

  lemma HandlersAre(s: Stmt, ctx: Ctx, b: Code)
    requires s.Try? && Open(b) && CtxOk(ctx, b) && Ok(s, Targets(ctx.loops))
    ensures var inner := HandlerCtx(s.lab, ctx, b);
      && CtxOk(inner, PadsOf(s, ctx, b)) && Targets(inner.loops) == Inside(Targets(ctx.loops), s.lab)
      && HandlersOf(s, ctx, b) == CompileHandlers(s.handlers, inner, PadsOf(s, ctx, b), b.next)
  {
    HandlerCtxOk(s, ctx, b, PadsOf(s, ctx, b));
  }

  lemma TryIsFill(s: Stmt, ctx: Ctx, b: Code)
    requires s.Try? && Open(b) && CtxOk(ctx, b) && Ok(s, Targets(ctx.loops))
    ensures var (c, cases) := HandlersOf(s, ctx, b);
      && Open(c) && c.cur == AfterOf(b) && AfterOf(b) < |c.blocks| && c.blocks[CatchOf(b)] == BB([], None)
      && CompileTry(s, ctx, b) == Fill(c, CatchOf(b), [], Dispatch(b.next, cases, RethrowOf(b)))
      && Grows(c.blocks, CompileTry(s, ctx, b).blocks)
      && End(CompileTry(s, ctx, b)) == 0
  {
    var mid := MidOf(s, ctx, b);
    HandlersAre(s, ctx, b);
    TryMid(b, s.inits, mid);
    TryFrame(ctx, b, s.inits, mid, HandlersOf(s, ctx, b).0);
  }

  /** What the final graph contains of an exception block. */
  lemma TryFacts(s: Stmt, ctx: Ctx, b: Code, p: Prog)
    requires s.Try? && Open(b) && CtxOk(ctx, b) && Ok(s, Targets(ctx.loops)) && Grows(CompileTry(s, ctx, b).blocks, p)
    ensures Grows(TryEnter(b).blocks, p) && Grows(ArmedAt(b).blocks, p) && Grows(TryBody(b, s.inits).blocks, p)
    ensures Grows(MidOf(s, ctx, b).blocks, p) && Grows(Close(MidOf(s, ctx, b), Br(TryExitOf(b))).blocks, p)
    ensures Grows(HandlersOf(s, ctx, b).0.blocks, p)
    ensures PadsIn(ctx.returnTo, b, p)
    ensures p[CatchOf(b)] == BB([], Some(Dispatch(b.next, HandlersOf(s, ctx, b).1, RethrowOf(b))))
  {
    var mid, pads := MidOf(s, ctx, b), PadsOf(s, ctx, b);
    var b1, b2 := ArmedAt(b), TryBody(b, s.inits);
    assert b2 == EmitInits(b1, s.inits);
    hide Grows, Frame, Beside, CompileAll, CompileHandlers, CompileTry, HandlersOf, PadsOf, MidOf, TryBody, EmitInits,
         ArmedAt, TryEnter, Untouched, CtxOk, PadsIn;
    var c2 := HandlersOf(s, ctx, b).0;
    TryIsFill(s, ctx, b);
    PadsInFill(s, ctx, b, p);
    PadsOfGrows(s, ctx, b);
    FrameGrows(b2, mid);
    FrameGrows(b1, b2);
    FrameGrows(TryEnter(b), b1);
    GrowsTrans(c2.blocks, CompileTry(s, ctx, b).blocks, p);
    GrowsTrans(pads.blocks, c2.blocks, p);
    GrowsTrans(mid.blocks, pads.blocks, p);
    GrowsTrans(Close(mid, Br(TryExitOf(b))).blocks, pads.blocks, p);
    GrowsTrans(b2.blocks, mid.blocks, p);
    GrowsTrans(b1.blocks, b2.blocks, p);
    GrowsTrans(TryEnter(b).blocks, b1.blocks, p);
  }

  lemma FrameGrows(b: Code, c: Code)
    requires Frame(b, c)
    ensures Grows(b.blocks, c.blocks) && b.next <= c.next && Open(c)
  {
  }

  lemma PadsOfGrows(s: Stmt, ctx: Ctx, b: Code)
    requires s.Try? && Open(b) && CtxOk(ctx, b) && Ok(s, Targets(ctx.loops))
    ensures Grows(MidOf(s, ctx, b).blocks, PadsOf(s, ctx, b).blocks)
    ensures Grows(Close(MidOf(s, ctx, b), Br(TryExitOf(b))).blocks, PadsOf(s, ctx, b).blocks)
    ensures Grows(PadsOf(s, ctx, b).blocks, HandlersOf(s, ctx, b).0.blocks)
  {
    hide MidOf, HandlersOf, CompileAll, CompileHandlers;
    PadsGrow(b.next, ctx.returnTo, |b.blocks|, MidOf(s, ctx, b));
  }

  lemma PadsInFill(s: Stmt, ctx: Ctx, b: Code, p: Prog)
    requires s.Try? && Open(b) && CtxOk(ctx, b) && Ok(s, Targets(ctx.loops)) && Grows(CompileTry(s, ctx, b).blocks, p)
    ensures PadsIn(ctx.returnTo, b, p)
    ensures p[CatchOf(b)] == BB([], Some(Dispatch(b.next, HandlersOf(s, ctx, b).1, RethrowOf(b))))
  {
    hide MidOf, CompileAll, HandlersOf, CompileTry, CompileHandlers, Frame, CtxOk, Grows, Ok, PadsOf;
    TryIsFill(s, ctx, b);
    PadBlocks(s, ctx, b);
    var c2 := HandlersOf(s, ctx, b).0;
    var c, n := CompileTry(s, ctx, b), |b.blocks|;
    forall i | n + 1 <= i <= n + 6 ensures i < |p| && p[i] == c.blocks[i] {
      assert c.blocks[i].term.Some?;
      ClosedStays(c, p, i);
    }
    ClosedStays(c, p, n + 1);
    assert n + 8 <= |p| by { GrownSize(c, p); }
  }

  lemma GrownSize(c: Code, p: Prog)
    requires Grows(c.blocks, p)
    ensures |c.blocks| <= |p|
  {
  }

  /** A closed block is final. */
  lemma ClosedStays(c: Code, p: Prog, i: nat)
    requires Grows(c.blocks, p) && i < |c.blocks| && c.blocks[i].term.Some?
    ensures i < |p| && p[i] == c.blocks[i]
  {
  }

  /** The landing pads are closed blocks with one call each. */
  lemma PadBlocks(s: Stmt, ctx: Ctx, b: Code)
    requires s.Try? && Open(b) && CtxOk(ctx, b) && Ok(s, Targets(ctx.loops))
    ensures var pads, n, x := PadsOf(s, ctx, b).blocks, |b.blocks|, b.next;
      && pads[n + 2] == BB([TryExit(x)], Some(Br(n + 7))) && pads[n + 3] == BB([TryExit(x)], Some(Br(ctx.returnTo)))
      && pads[n + 4] == BB([Done(x)], Some(Br(ctx.returnTo))) && pads[n + 5] == BB([Done(x)], Some(Br(n + 7)))
      && pads[n + 6] == BB([], Some(Rethrow(x)))
  {
    hide MidOf;
    var mid := MidOf(s, ctx, b);
    assert PadsOf(s, ctx, b) == Pads(b.next, ctx.returnTo, |b.blocks|, mid);
  }

  // running an exception block

  /** Pushing the frame and arming it. */
  lemma TryEnterRuns(p: Prog, o: Oracle, b: Code, m: State) returns (n: State)
    requires Here(b, m) && Grows(TryEnter(b).blocks, p) && Grows(ArmedAt(b).blocks, p)
    ensures Reaches(p, o, m, n) && Here(ArmedAt(b), n) && n.w == Log(m.w.(next := m.w.next + 1), Pushed(m.w.next))
    ensures n.slots == m.slots[b.next := m.w.next] && n.armed == [Armed(m.w.next, CatchOf(b))] + m.armed
  {
    var b1 := Bump(Emit(b, PushFrame(b.next)), 1);
    var b2 := TryEnter(b);
    assert Grows(b1.blocks, b2.blocks);
    GrowsTrans(b1.blocks, b2.blocks, p);
    InstrRuns(p, o, b, PushFrame(b.next), m);
    var m1 := Step1(PushFrame(b.next), m, o);
    TermRuns(p, o, Blocks(b1, 8), Br(TryEnterOf(b)), m1);
    var m2 := Jump(Br(TryEnterOf(b)), m1, o);
    InstrRuns(p, o, b2, Arm(b.next, CatchOf(b)), m2);
    n := Step1(Arm(b.next, CatchOf(b)), m2, o);
    ReachesTrans(p, o, m, m1, m2);
    ReachesTrans(p, o, m, m2, n);
  }

  lemma ProtectedFacts(s: Stmt, ctx: Ctx, b: Code)
    requires s.Try? && Open(b) && CtxOk(ctx, b) && Ok(s, Targets(ctx.loops))
    ensures var inner, b1, b2 := BodyCtx(s.lab, ctx, b), ArmedAt(b), TryBody(b, s.inits);
      && Open(b1) && Open(b2) && b2 == EmitInits(b1, s.inits) && b2.next == b1.next
      && CtxOk(inner, b1) && CtxOk(inner, b2) && Targets(inner.loops) == Inside(Targets(ctx.loops), s.lab)
      && MidOf(s, ctx, b) == CompileAll(s.body, inner, b2)
  {
    TryCtxOk(s, ctx, b);
  }

  /** Initialisation and body, under the armed frame. */
  lemma {:induction false} ProtectedRuns(p: Prog, o: Oracle, s: Stmt, ctx: Ctx, b: Code, m: State,
                                         fuel: nat) returns (n: State)
    requires s.Try? && Open(b) && CtxOk(ctx, b) && Ok(s, Targets(ctx.loops)) && Grows(CompileTry(s, ctx, b).blocks, p)
    requires Here(ArmedAt(b), m) && Guarded(BodyCtx(s.lab, ctx, b).cleanups, m.slots, m.armed)
    ensures var (out, w) := Protected(true, s, Targets(ctx.loops), m.w, o, fuel);
      Lands(p, o, BodyCtx(s.lab, ctx, b), ArmedAt(b), MidOf(s, ctx, b), m, out, w, n)
    decreases fuel, s, 1
  {
    TryFacts(s, ctx, b, p);
    ProtectedFacts(s, ctx, b);
    var inner, b1, b2, mid := BodyCtx(s.lab, ctx, b), ArmedAt(b), TryBody(b, s.inits), MidOf(s, ctx, b);
    hide Reaches, Reaches1, Lives, CompileAll, CompileTry, Guarded, EmitInits, Grows, Frame, TryBody, MidOf, ArmedAt,
         BodyCtx, CtxOk, PadsIn, HandlersOf, ExecAll;
    n := InitsRun(p, o, inner, b1, s.inits, m);
    var (ini, w1) := Inits(s.inits, m.w, o);
    if ini.Fall? {
      var m1 := n;
      SlotsBound(inner, b1);
      GuardedKeeps(inner.cleanups, b1.next, m.slots, m1.slots, m.armed);
      n := SimAll(p, o, s.body, inner, b2, m1, fuel);
      var (out, w) := ExecAll(true, s.body, Targets(inner.loops), w1, o, fuel);
      LandsAfter(p, o, inner, b1, b2, mid, m, m1, out, w, n);
    }
  }

  /** Context inside a frame: cl must be released, RETURN goes to ret, the block's label to exit. */
  function FrameCtx(ctx: Ctx, cl: Cleanup, lab: Option<string>, ret: nat, exit: nat): Ctx {
    InBlock(Guarding(ctx, cl, ret), lab, exit)
  }

  /** A landing pad that releases a frame. */
  lemma ReleasePad(p: Prog, o: Oracle, m: State, cl: Cleanup, t: nat) returns (n: State)
    requires m.Run? && m.blk < |p| && m.pc == 0 && p[m.blk] == BB([Release(cl)], Some(Br(t))) && cl.slot in m.slots
    requires cl.UnTry? ==> m.armed != [] && m.armed[0].frame == m.slots[cl.slot]
    ensures Reaches(p, o, m, n)
    ensures n == m.(blk := t, pc := 0, w := Log(m.w, ReleaseEvent(cl, m.slots)),
                    armed := if cl.UnTry? then m.armed[1..] else m.armed)
  {
    PadRuns(p, o, m, Release(cl), t);
    n := Goto(Step1(Release(cl), m, o), t);
  }

  /** Leaving a frame other than by an error releases it once, before anything outside it. */
  lemma OutOfFrame(p: Prog, o: Oracle, lab: Option<string>, ctx: Ctx, cl: Cleanup, ret: nat, exit: nat, b: Code,
                   b1: Code, e: Code, c: Code, m: State, m1: State, out: Outcome, w: World, n: State) returns (r: State)
    requires Ready(ctx, b, m) && cl.slot == b.next < b1.next && !cl.UnPortal? && ret < |p| && exit < |p|
    requires p[ret] == BB([Release(cl)], Some(Br(ctx.returnTo))) && p[exit] == BB([Release(cl)], Some(Br(c.cur)))
    requires Lands(p, o, FrameCtx(ctx, cl, lab, ret, exit), b1, e, m1, out, w, n) && !out.Raise? && !out.OutOfFuel?
    requires out.JumpTo? && lab.Some? && out.depth == 0 ==> out.isExit
    requires out.Fall? ==> Open(e) && e.cur == exit && End(e) == 0
    requires Reaches(p, o, m, m1) && b.next in m1.slots && Keeps(b.next, m.slots, m1.slots)
    requires cl.UnTry? ==> m1.armed != [] && m1.armed[0].frame == m1.slots[b.next] && m1.armed[1..] == m.armed
    requires !cl.UnTry? ==> m1.armed == m.armed
    requires Open(c) && End(c) == 0
    ensures Lands(p, o, ctx, b, c, m, OutwardOf(lab, out), Log(w, ReleaseEvent(cl, m1.slots)), r)
  {
    hide Reaches, Reaches1, Lives, Guarded, CtxOk;
    var inner := FrameCtx(ctx, cl, lab, ret, exit);
    r := n;
    ReachesTrans(p, o, m, m1, n);
    if out.Ret? {
      r := ReleasePad(p, o, n, cl, ctx.returnTo);
      ReachesTrans(p, o, m, n, r);
    } else if out.Fall? || (out.depth == 0 && lab.Some?) {
      if out.JumpTo? { assert Crossed(inner, 0) == []; }
      r := ReleasePad(p, o, n, cl, c.cur);
      ReachesTrans(p, o, m, n, r);
    } else {
      CrossesFrame(lab, ctx, cl, ret, exit, out.depth, w, b, m, m1);
    }
  }

  lemma CrossesFrame(lab: Option<string>, ctx: Ctx, cl: Cleanup, ret: nat, exit: nat, k: nat, w: World, b: Code,
                     m: State, m1: State)
    requires Ready(ctx, b, m) && m1.Run? && cl.slot == b.next && b.next in m1.slots && Keeps(b.next, m.slots, m1.slots)
    requires if cl.UnTry? then m1.armed != [] && m1.armed[1..] == m.armed else m1.armed == m.armed
    requires k < |FrameCtx(ctx, cl, lab, ret, exit).loops| && (lab.Some? ==> k > 0)
    ensures var inner, j := FrameCtx(ctx, cl, lab, ret, exit), if lab.Some? then k - 1 else k;
      && inner.loops[k] == ctx.loops[j] && inner.loops[k].depth <= |ctx.cleanups|
      && Released(w, Crossed(inner, k), m1.slots) ==
           Released(Log(w, ReleaseEvent(cl, m1.slots)), Crossed(ctx, j), m.slots)
      && Disarmed(m1.armed, Crossed(inner, k)) == Disarmed(m.armed, Crossed(ctx, j))
  {
    var inner, j := FrameCtx(ctx, cl, lab, ret, exit), if lab.Some? then k - 1 else k;
    var cs := Crossed(inner, k);
    assert cs[0] == cl && cs[1..] == Crossed(ctx, j);
    GuardedPrefix(ctx.cleanups, |Crossed(ctx, j)|, m.slots, m.armed);
    ReleasedKeeps(Log(w, ReleaseEvent(cl, m1.slots)), Crossed(ctx, j), b.next, m.slots, m1.slots, m.armed);
  }

  /** The body left without an error: its frame is popped. */
  lemma TryLeft(p: Prog, o: Oracle, s: Stmt, ctx: Ctx, b: Code, c: Code, m: State, m1: State, out: Outcome, w: World,
                n: State) returns (r: State)
    requires s.Try? && Ready(ctx, b, m) && Ok(s, Targets(ctx.loops)) && Grows(CompileTry(s, ctx, b).blocks, p)
    requires Reaches(p, o, m, m1) && m1.Run? && m1.slots == m.slots[b.next := m.w.next]
    requires m1.armed == [Armed(m.w.next, CatchOf(b))] + m.armed
    requires Lands(p, o, BodyCtx(s.lab, ctx, b), ArmedAt(b), MidOf(s, ctx, b), m1, out, w, n) && !out.Raise?
    requires !out.OutOfFuel?
    requires out.JumpTo? && s.lab.Some? && out.depth == 0 ==> out.isExit
    requires Open(c) && c.cur == AfterOf(b) && End(c) == 0
    ensures Lands(p, o, ctx, b, c, m, OutwardOf(s.lab, out), Log(w, TryExited(m.w.next)), r)
  {
    hide Lands, Grows, CompileTry, MidOf, Reaches, Reaches1, Lives, HandlersOf, Guarded, Frame, ArmedAt, CtxOk, Ok,
         PadsOf, TryBody;
    TryFacts(s, ctx, b, p);
    var inner, e := BodyCtx(s.lab, ctx, b), At(TryEnter(b), TryExitOf(b));
    FrameGrows(TryBody(b, s.inits), MidOf(s, ctx, b));
    r := FallTo(p, o, inner, ArmedAt(b), MidOf(s, ctx, b), TryExitOf(b), e, m1, out, w, n);
    r := OutOfFrame(p, o, s.lab, ctx, UnTry(b.next), TryReturnOf(b), TryExitOf(b), b, ArmedAt(b), e, c, m, m1, out, w,
        r);
  }

  /** An error arrives at the catch block, which records it and picks a handler. */
  lemma CatchRuns(p: Prog, o: Oracle, s: Stmt, ctx: Ctx, b: Code, m: State) returns (n: State)
    requires s.Try? && Open(b) && CtxOk(ctx, b) && Ok(s, Targets(ctx.loops)) && Grows(CompileTry(s, ctx, b).blocks, p)
    requires m.Run? && m.blk == CatchOf(b) && m.pc == 0 && b.next in m.slots
    ensures Reaches(p, o, m, n) && n.Run? && n.pc == 0
    ensures n.w == Log(m.w, Caught(m.slots[b.next])) && n.slots == m.slots && n.armed == m.armed && n.code == m.code
    ensures FirstMatch(s.handlers, m.code).Some? <==> FirstCase(HandlersOf(s, ctx, b).1, m.code).Some?
    ensures n.blk ==
      if FirstMatch(s.handlers, m.code).Some? then FirstCase(HandlersOf(s, ctx, b).1, m.code).value else RethrowOf(b)
  {
    hide Reaches, Reaches1, Lives, Grows, CompileTry, HandlersOf, CompileHandlers, CtxOk, PadsOf;
    PadsInFill(s, ctx, b, p);
    HandlersAre(s, ctx, b);
    CasesMatch(s.handlers, HandlerCtx(s.lab, ctx, b), PadsOf(s, ctx, b), b.next, m.code);
    OneStep(p, o, m);
    n := Step(p, o, m);
  }

  /** From the catch block: the matching handler runs and its frame ends, or the error goes on. */
  lemma {:induction false} HandleRuns(p: Prog, o: Oracle, s: Stmt, ctx: Ctx, b: Code, c: Code, m: State, n: State,
                                      fuel: nat) returns (r: State)
    requires s.Try? && Ready(ctx, b, m) && Ok(s, Targets(ctx.loops)) && Grows(CompileTry(s, ctx, b).blocks, p)
    requires Reaches(p, o, m, n) && n.Run? && n.blk == CatchOf(b) && n.pc == 0 && n.armed == m.armed
    requires Keeps(b.next, m.slots, n.slots) && b.next in n.slots
    requires Open(c) && c.cur == AfterOf(b) && End(c) == 0
    ensures var (out, w) := Handle(true, s, n.slots[b.next], n.code, Targets(ctx.loops),
        Log(n.w, Caught(n.slots[b.next])), o, fuel);
      Lands(p, o, ctx, b, c, m, out, w, r)
    decreases fuel, s, 1
  {
    hide Lands, Grows, CompileTry, Reaches, Reaches1, Lives, HandlersOf, Guarded, CtxOk, ExecAll;
    var n1 := CatchRuns(p, o, s, ctx, b, n);
    ReachesTrans(p, o, m, n, n1);
    if FirstMatch(s.handlers, n.code).None? {
      r := RethrowRuns(p, o, s, ctx, b, c, m, n1);
    } else {
      r := HandlerLeft(p, o, s, ctx, b, c, m, n1, fuel);
    }
  }

  lemma RethrowRuns(p: Prog, o: Oracle, s: Stmt, ctx: Ctx, b: Code, c: Code, m: State, n: State) returns (r: State)
    requires s.Try? && Ready(ctx, b, m) && Ok(s, Targets(ctx.loops)) && Grows(CompileTry(s, ctx, b).blocks, p)
    requires Reaches(p, o, m, n) && n.Run? && n.blk == RethrowOf(b) && n.pc == 0 && n.armed == m.armed
    requires Keeps(b.next, m.slots, n.slots) && b.next in n.slots
    ensures Lands(p, o, ctx, b, c, m, Raise(n.code), Log(n.w, Rethrown(n.slots[b.next])), r)
  {
    hide Reaches, Reaches1, Lives, Grows, CompileTry, HandlersOf, CtxOk, Guarded, Ok;
    PadsInFill(s, ctx, b, p);
    OneStep(p, o, n);
    r := Step(p, o, n);
    ReachesTrans(p, o, m, n, r);
  }

  lemma {:induction false} HandlerLeft(p: Prog, o: Oracle, s: Stmt, ctx: Ctx, b: Code, c: Code, m: State, n: State,
                                       fuel: nat) returns (r: State)
    requires s.Try? && Ready(ctx, b, m) && Ok(s, Targets(ctx.loops)) && Grows(CompileTry(s, ctx, b).blocks, p)
    requires Reaches(p, o, m, n) && n.Run? && n.pc == 0 && n.armed == m.armed && FirstMatch(s.handlers, n.code).Some?
    requires Some(n.blk) == FirstCase(HandlersOf(s, ctx, b).1, n.code)
    requires Keeps(b.next, m.slots, n.slots) && b.next in n.slots
    requires Open(c) && c.cur == AfterOf(b) && End(c) == 0
    ensures var (out, w) := Handle(true, s, n.slots[b.next], n.code, Targets(ctx.loops), n.w, o, fuel);
      Lands(p, o, ctx, b, c, m, out, w, r)
    decreases fuel, s, 0
  {
    TryFacts(s, ctx, b, p);
    HandlersAre(s, ctx, b);
    HandlerGuard(s, ctx, b, m, n);
    var inner, pads := HandlerCtx(s.lab, ctx, b), PadsOf(s, ctx, b);
    hide Lands, Grows, CompileTry, Reaches, Reaches1, Lives, HandlersOf, Guarded, CtxOk, CompileHandlers, ExecAll,
         PadsOf, FirstCase, Keeps;
    r := HandlersRun(p, o, s.handlers, inner, pads, b.next, n.code, n, fuel);
    var (out, w) := ExecAll(true, Action(s.handlers, FirstMatch(s.handlers, n.code).value), Targets(inner.loops), n.w,
        o, fuel);
    if out.Raise? || out.OutOfFuel? || out.Fall? {
      HandlerStays(p, o, inner, ctx, b, pads, c, m, n, out, AfterHandler(out, w, n.slots[b.next]), r);
    } else {
      r := OutOfFrame(p, o, s.lab, ctx, UnHandler(b.next), HandlerReturnOf(b), HandlerExitOf(b), b, pads, pads, c, m,
          n, out, w, r);
    }
  }

  lemma HandlerGuard(s: Stmt, ctx: Ctx, b: Code, m: State, n: State)
    requires s.Try? && Ready(ctx, b, m) && n.Run? && n.armed == m.armed && Keeps(b.next, m.slots, n.slots)
    requires b.next in n.slots
    ensures Guarded(HandlerCtx(s.lab, ctx, b).cleanups, n.slots, n.armed)
  {
    GuardedKeeps(ctx.cleanups, b.next, m.slots, n.slots, m.armed);
    assert HandlerCtx(s.lab, ctx, b).cleanups[1..] == ctx.cleanups;
  }

  /** Outcomes whose landing does not depend on the frame's context. */
  lemma HandlerStays(p: Prog, o: Oracle, inner: Ctx, ctx: Ctx, b: Code, pads: Code, c: Code, m: State, n: State,
                     out: Outcome, w: World, r: State)
    requires Lands(p, o, inner, pads, pads, n, out, w, r) && (out.Raise? || out.OutOfFuel? || out.Fall?) && Open(b)
    requires m.Run? && Reaches(p, o, m, n) && n.Run? && n.armed == m.armed && Keeps(b.next, m.slots, n.slots)
    requires Open(pads) && Open(c) && c.cur == pads.cur && End(c) == End(pads) && b.next <= pads.next
    ensures Lands(p, o, ctx, b, c, m, out, w, r)
  {
    if out.OutOfFuel? { LivesAfter(p, o, m, n, out.passes); } else { ReachesTrans(p, o, m, n, r); }
  }

  lemma {:induction false} TryRuns(p: Prog, o: Oracle, s: Stmt, ctx: Ctx, b: Code, m: State,
                                   fuel: nat) returns (n: State)
    requires s.Try? && Ready(ctx, b, m) && Ok(s, Targets(ctx.loops)) && Grows(CompileTry(s, ctx, b).blocks, p)
    ensures var (out, w) := Exec(true, s, Targets(ctx.loops), m.w, o, fuel);
      Lands(p, o, ctx, b, CompileTry(s, ctx, b), m, out, w, n)
    decreases fuel, s, 3
  {
    hide Exec, Grows, CompileTry, Reaches, Reaches1, Lives, HandlersOf, Guarded, CtxOk, ExecAll, MidOf, PadsIn,
         Protected, Handle, Lands, Frame, ArmedAt, Keeps, TryBody, TryEnter, Ok, Targets, OutwardOf, PadsOf, BodyCtx,
         Inside, AfterBody;
    TryFacts(s, ctx, b, p);
    TryIsFill(s, ctx, b);
    TryIs(true, s, Targets(ctx.loops), m.w, o, fuel);
    var m1 := TryEnterRuns(p, o, b, m);
    BodyGuard(s, ctx, b, m, m1);
    n := TryRest(p, o, s, ctx, b, CompileTry(s, ctx, b), m, m1, fuel);
  }

  /** A body can only EXIT its own block. */
  lemma OwnLabel(s: Stmt, g: seq<Target>, w: World, o: Oracle, fuel: nat)
    requires s.Try? && Ok(s, g)
    ensures var (out, _) := Protected(true, s, g, w, o, fuel);
      out.JumpTo? && s.lab.Some? && out.depth == 0 ==> out.isExit
  {
  }

  lemma {:induction false} TryRest(p: Prog, o: Oracle, s: Stmt, ctx: Ctx, b: Code, c: Code, m: State, m1: State,
                                   fuel: nat) returns (n: State)
    requires s.Try? && Ready(ctx, b, m) && Ok(s, Targets(ctx.loops)) && Grows(CompileTry(s, ctx, b).blocks, p)
    requires Reaches(p, o, m, m1) && m1.Run? && m1.slots == m.slots[b.next := m.w.next]
    requires m1.armed == [Armed(m.w.next, CatchOf(b))] + m.armed
    requires Here(ArmedAt(b), m1) && Guarded(BodyCtx(s.lab, ctx, b).cleanups, m1.slots, m1.armed)
    requires Open(c) && c.cur == AfterOf(b) && End(c) == 0
    ensures var r := Protected(true, s, Targets(ctx.loops), m1.w, o, fuel);
      var (out, w) := AfterBody(true, s, m.w.next, Targets(ctx.loops), r, o, fuel);
      Lands(p, o, ctx, b, c, m, out, w, n)
    decreases fuel, s, 2
  {
    var (out, w) := Protected(true, s, Targets(ctx.loops), m1.w, o, fuel);
    OwnLabel(s, Targets(ctx.loops), m1.w, o, fuel);
    hide Exec, Grows, CompileTry, Reaches, Reaches1, Lives, HandlersOf, Guarded, CtxOk, ExecAll, MidOf, PadsIn,
         Protected, Handle, Lands, Frame, ArmedAt, Keeps, TryBody, TryEnter, Ok, Targets, OutwardOf, PadsOf, BodyCtx,
         Inside;
    n := ProtectedRuns(p, o, s, ctx, b, m1, fuel);
    if out.Raise? {
      Thrown(p, o, s, ctx, b, m, m1, out, w, n);
      n := HandleRuns(p, o, s, ctx, b, c, m, n, fuel);
    } else if out.OutOfFuel? {
      CutShort(p, o, BodyCtx(s.lab, ctx, b), ctx, b, ArmedAt(b), MidOf(s, ctx, b), c, m, m1, out, w, n);
    } else {
      n := TryLeft(p, o, s, ctx, b, c, m, m1, out, w, n);
    }
  }

  /** An error in the body reaches the block's own catch block, the frame still in its slot. */
  lemma Thrown(p: Prog, o: Oracle, s: Stmt, ctx: Ctx, b: Code, m: State, m1: State, out: Outcome, w: World, n: State)
    requires s.Try? && Ready(ctx, b, m) && Ok(s, Targets(ctx.loops)) && out.Raise?
    requires Reaches(p, o, m, m1) && m1.Run? && m1.slots == m.slots[b.next := m.w.next]
    requires m1.armed == [Armed(m.w.next, CatchOf(b))] + m.armed
    requires Lands(p, o, BodyCtx(s.lab, ctx, b), ArmedAt(b), MidOf(s, ctx, b), m1, out, w, n)
    ensures Reaches(p, o, m, n) && n.Run? && n.blk == CatchOf(b) && n.pc == 0 && n.armed == m.armed && n.w == w
    ensures n.code == out.code
    ensures Keeps(b.next, m.slots, n.slots) && b.next in n.slots && n.slots[b.next] == m.w.next
  {
    hide Reaches, Reaches1, Lives, MidOf, Guarded, CtxOk, Ok;
    ReachesTrans(p, o, m, m1, n);
    KeepsTrans(b.next, b.next + 1, m.slots, m1.slots, n.slots);
  }

  lemma CutShort(p: Prog, o: Oracle, inner: Ctx, ctx: Ctx, b: Code, b1: Code, mid: Code, c: Code, m: State, m1: State,
                 out: Outcome, w: World, n: State)
    requires m.Run? && Reaches(p, o, m, m1) && Lands(p, o, inner, b1, mid, m1, out, w, n) && out.OutOfFuel?
    ensures Lands(p, o, ctx, b, c, m, out, w, n)
  {
    LivesAfter(p, o, m, m1, out.passes);
  }

  lemma BodyGuard(s: Stmt, ctx: Ctx, b: Code, m: State, n: State)
    requires s.Try? && Ready(ctx, b, m) && n.Run? && n.slots == m.slots[b.next := m.w.next]
    requires n.armed == [Armed(m.w.next, CatchOf(b))] + m.armed
    ensures Guarded(BodyCtx(s.lab, ctx, b).cleanups, n.slots, n.armed)
  {
    GuardedKeeps(ctx.cleanups, b.next, m.slots, n.slots, m.armed);
    assert BodyCtx(s.lab, ctx, b).cleanups[1..] == ctx.cleanups;
    assert n.armed[1..] == m.armed;
  }
}
