/** Whole functions: the compiled graph against the structured semantics and the interpreter. */
module ControlTheorem {
  import opened Cfg
  import opened ControlRef
  import opened ControlMachine
  import opened ControlCompile
  import opened ControlSim
  import opened ControlEmitter
  import opened ControlEffects
  import opened ControlAgree

  /** Entry block 0, return block 1. */
  function Outermost(): (ctx: Ctx) { Ctx([], [], 1) }

  function Entry(): (b: Code)
    ensures Open(b) && CtxOk(Outermost(), b)
  {
    Builder([BB([], None), BB([], None)], 0, 0)
  }

  /** The body, then a fall-through to the return block. */
  function CompileFunction(body: Stmt): (p: Prog)
    requires Ok(body, [])
  {
    assert Targets(Outermost().loops) == [];
    var c := Compile(body, Outermost(), Entry());
    Fill(Then(NewBlock(c), Br(1), |c.blocks|), 1, [], Exit).blocks
  }

  /** The compiler run on a whole function emits that graph. */
  method EmitFunction(body: Stmt) returns (p: Prog)
    requires Ok(body, [])
    ensures p == CompileFunction(body)
  {
    hide Compile, CtxOk;
    var compiler := new StmtCompiler(Entry(), 1);
    assert Targets(compiler.loops) == [];
    compiler.CompileStmt(body);
    var c := compiler.code;
    p := Fill(Then(NewBlock(c), Br(1), |c.blocks|), 1, [], Exit).blocks;
  }

  const Start: World := World(0, 0, [], {})

  function Initial(): State { Run(0, 0, Start, map[], [], 0) }

  /** How a run of the machine ends when the function's structured outcome is out. */
  function Ending(out: Outcome, w: World): State {
    if out.Raise? then Escaped(w, out.code) else Finished(w)
  }

  /** The function, followed for `fuel` loop passes, ends, and the machine's t is that ending. */
  ghost predicate EndsAs(late: bool, body: Stmt, o: Oracle, fuel: nat, t: State) {
    var (out, w) := Exec(late, body, [], Start, o, fuel);
    !out.OutOfFuel? && t == Ending(out, w)
  }

  lemma FunctionGrows(body: Stmt)
    requires Ok(body, []) && Ok(body, Targets(Outermost().loops))
    ensures var c, p := Compile(body, Outermost(), Entry()), CompileFunction(body);
      && Frame(Entry(), c) && Grows(c.blocks, p) && Grows(Close(c, Br(1)).blocks, p) && 1 < |p|
      && p[1] == BB([], Some(Exit))
  {
    hide Compile;
  }

  /** The compiled function ends as the function means: normally in the same world, or with the
      same error escaping; and it is still running for as long as the function can be followed. */
  lemma CompiledRuns(body: Stmt, o: Oracle, fuel: nat)
    requires Ok(body, [])
    ensures var (out, w) := Exec(true, body, [], Start, o, fuel);
      if out.OutOfFuel? then Lives(CompileFunction(body), o, Initial(), fuel)
      else Reaches(CompileFunction(body), o, Initial(), Ending(out, w))
  {
    hide Reaches, Reaches1, Lives, Grows, Compile, CompileFunction, Exec;
    var ctx, b, m := Outermost(), Entry(), Initial();
    assert Targets(ctx.loops) == [];
    FunctionGrows(body);
    var c, p := Compile(body, ctx, b), CompileFunction(body);
    CutExec(true, body, [], Start, o, fuel);
    var n := Sim(p, o, body, ctx, b, m, fuel);
    var (out, w) := Exec(true, body, [], Start, o, fuel);
    if out.Fall? {
      TermRuns(p, o, c, Br(1), n);
      ReachesTrans(p, o, m, n, Goto(n, 1));
      n := Goto(n, 1);
    }
    if out.Fall? || out.Ret? {
      OneStep(p, o, n);
      ReachesTrans(p, o, m, n, Step(p, o, n));
    }
  }

  /** The compiled function ends exactly when the function does, and then as the function does;
      it runs on for ever exactly when the function does. */
  lemma CompiledEndsExactly(body: Stmt, o: Oracle, t: State)
    requires Ok(body, []) && !t.Run?
    ensures Reaches(CompileFunction(body), o, Initial(), t) <==>
      exists fuel: nat :: EndsAs(true, body, o, fuel, t)
  {
    hide CompileFunction, Exec;
    var p := CompileFunction(body);
    if Reaches(p, o, Initial(), t) {
      var n: nat :| Steps(p, o, Initial(), n) == t;
      CompiledRuns(body, o, n);
      var (out, w) := Exec(true, body, [], Start, o, n);
      assert !Lives(p, o, Initial(), n);
      EndsOnce(p, o, Initial(), t, Ending(out, w));
      assert EndsAs(true, body, o, n, t);
    }
    if fuel: nat :| EndsAs(true, body, o, fuel, t) {
      CompiledRuns(body, o, fuel);
    }
  }

  /** However the compiled function is left without an error, every frame and portal it acquired has
      been released, each release finding its resource innermost; and it never gets stuck. */
  lemma CompiledReleases(body: Stmt, o: Oracle, t: State)
    requires Ok(body, []) && !t.Run? && Reaches(CompileFunction(body), o, Initial(), t)
    ensures t.Finished? || t.Escaped?
    ensures Replay(t.final.trace).Some?
    ensures t.Finished? ==> Replay(t.final.trace) == Some([])
  {
    hide CompileFunction, Reaches, Exec;
    CompiledEndsExactly(body, o, t);
    var fuel: nat :| EndsAs(true, body, o, fuel, t);
    assert Holds(Start, []);
    Balanced(true, body, [], Start, o, fuel, []);
  }

  /** The machine's ending t is the one of outcome out, with the effects of world w; at a normal end, if
      `lasting`, also with its changes, and no subtransaction is open.  An error undoes them all. */
  ghost predicate SameEnding(lasting: bool, t: State, out: Outcome, w: World) {
    match t
    case Finished(final) =>
      && (out.Fall? || out.Ret?) && Effects(final.trace) == Effects(w.trace)
      && (lasting ==> Levels(final.trace) == Levels(w.trace) == [Lasting(w.trace)])
    case Escaped(final, code) => out == Raise(code) && Effects(final.trace) == Effects(w.trace)
    case _ => false
  }

  /** Agreeing readings end the machine alike. */
  lemma SameAtEnd(lasting: bool, body: Stmt, o: Oracle, fuel: nat)
    requires Ok(body, []) && Calm(lasting, body, [], Start, o, fuel)
    ensures var (out, w), (out', w') := Exec(true, body, [], Start, o, fuel), Exec(false, body, [], Start, o, fuel);
      out == out' && !out.JumpTo? && (!out.OutOfFuel? ==> SameEnding(lasting, Ending(out, w), out', w'))
  {
    Unjumped(body, o, fuel);
    assert Levels(Start.trace) == [[]];
    hide Exec, Calm, Effects, Levels;
    CalmAgrees(lasting, body, [], Start, Start, o, fuel);
    var r, q := Exec(true, body, [], Start, o, fuel), Exec(false, body, [], Start, o, fuel);
    if lasting && Normal(r.0) {
      var d :| Adds(Start, r.1, d) && Adds(Start, q.1, d);
    }
  }

  /** Every function, on every run in which no initialiser of an exception block raises an error its own handlers
      match and no row loop is left by RETURN or for a construct outside: the compiled function ends as the
      interpreted one does, having done and returned the same and set FOUND the same; and runs on while the
      interpreted one does.  If moreover no exception block that evaluated an initialiser handled an error
      (`lasting`), the same changes last in the database. */
  lemma CompiledAsInterpreted(lasting: bool, body: Stmt, o: Oracle, fuel: nat)
    requires Ok(body, []) && Calm(lasting, body, [], Start, o, fuel)
    ensures var (out, w) := Exec(false, body, [], Start, o, fuel);
      if out.OutOfFuel? then Lives(CompileFunction(body), o, Initial(), fuel)
      else exists t :: Reaches(CompileFunction(body), o, Initial(), t) && SameEnding(lasting, t, out, w)
  {
    hide CompileFunction, Reaches, Exec, Calm, Lives, SameEnding;
    SameAtEnd(lasting, body, o, fuel);
    CompiledRuns(body, o, fuel);
  }

  /** A function without row loops whose exception blocks evaluate no initialiser: on every run the compiled
      function ends exactly as the interpreted one does, with the same effects and lasting changes, or neither ends. */
  lemma SimpleAsInterpreted(body: Stmt, o: Oracle, t: State)
    requires Ok(body, []) && Simple(body) && !t.Run?
    ensures Reaches(CompileFunction(body), o, Initial(), t) ==>
      exists fuel: nat :: var (out, w) := Exec(false, body, [], Start, o, fuel); SameEnding(true, t, out, w)
    ensures forall fuel: nat :: var (out, w) := Exec(false, body, [], Start, o, fuel);
      !out.OutOfFuel? ==>
        exists t' :: Reaches(CompileFunction(body), o, Initial(), t') && SameEnding(true, t', out, w)
  {
    hide CompileFunction, Reaches, Exec, Calm, SameEnding, Lives;
    forall fuel: nat ensures Calm(true, body, [], Start, o, fuel) { SimpleCalm(true, body, [], Start, o, fuel); }
    if Reaches(CompileFunction(body), o, Initial(), t) { InterpretedAsCompiled(true, body, o, t); }
    forall fuel: nat
      ensures var (out, w) := Exec(false, body, [], Start, o, fuel);
        !out.OutOfFuel? ==>
          exists t' :: Reaches(CompileFunction(body), o, Initial(), t') && SameEnding(true, t', out, w)
    {
      CompiledAsInterpreted(true, body, o, fuel);
    }
  }

  /** No jump leaves a function. */
  lemma Unjumped(body: Stmt, o: Oracle, fuel: nat)
    requires Ok(body, [])
    ensures !Exec(true, body, [], Start, o, fuel).0.JumpTo?
  {
  }

  /** Conversely, where every prefix of the interpreted run is like that, an ending of the compiled function is
      an ending of the interpreted one. */
  lemma InterpretedAsCompiled(lasting: bool, body: Stmt, o: Oracle, t: State)
    requires Ok(body, []) && (forall fuel :: Calm(lasting, body, [], Start, o, fuel))
    requires !t.Run? && Reaches(CompileFunction(body), o, Initial(), t)
    ensures exists fuel: nat ::
      var (out, w) := Exec(false, body, [], Start, o, fuel); SameEnding(lasting, t, out, w)
  {
    hide CompileFunction, Reaches, Exec, Calm, SameEnding;
    CompiledEndsExactly(body, o, t);
    var fuel: nat :| EndsAs(true, body, o, fuel, t);
    SameAtEnd(lasting, body, o, fuel);
    var (out, w) := Exec(false, body, [], Start, o, fuel);
    assert SameEnding(lasting, t, out, w);
  }
}
