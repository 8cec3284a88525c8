/** The interpreter's return-code propagation, proved against the structured semantics. */
module ControlInterp {
  import opened Cfg
  import opened ControlRef

  /** Return codes; Thrown is a longjmp out of the statement, Cut an exhausted step budget. */
  datatype Rc = RcOk | RcExit | RcReturn | RcContinue | Thrown(code: int) | Cut

  /** A return code with the pending exit label says what the structured outcome says:
      a pending EXIT or CONTINUE names the very construct the outcome jumps to. */
  ghost predicate Says(rc: Rc, exitlabel: Option<string>, out: Outcome, g: seq<Target>) {
    match out
    case Fall => rc == RcOk && exitlabel == None
    case Ret => rc == RcReturn && exitlabel == None
    case Raise(c) => rc == Thrown(c) && exitlabel == None
    case JumpTo(isExit, k) => rc == (if isExit then RcExit else RcContinue) && Resolve(g, exitlabel) == Some(k)
    case OutOfFuel(_) => rc == Cut
  }

  lemma ResolveCons(t: Target, g: seq<Target>, lab: Option<string>)
    ensures Resolve([t] + g, lab) ==
      if (if lab.None? then t.isLoop else t.lab == lab) then Some(0)
      else var r := Resolve(g, lab); if r.None? then None else Some(r.value + 1)
  {
    assert ([t] + g)[1..] == g;
  }

  class Estate {
    var exitlabel: Option<string>
    var world: World
    const o: Oracle

    constructor (o: Oracle)
      ensures exitlabel == None && world == World(0, 0, [], {}) && this.o == o
    {
      exitlabel, world := None, World(0, 0, [], {});
      this.o := o;
    }

    /** One consultation of the oracle. */
    method Consult() returns (c: Choice)
      modifies this`world
      ensures c == o(old(world.pos)) && world == Ask(old(world))
    {
      c := o(world.pos);
      world := Ask(world);
    }

    method ExecStmts(ss: Stmts, ghost g: seq<Target>, fuel: nat) returns (rc: Rc)
      requires exitlabel == None && AllOk(ss, g)
      modifies this
      ensures var (out, w) := ExecAll(false, ss, g, old(world), o, fuel); world == w && Says(rc, exitlabel, out, g)
      decreases fuel, ss, 0
    {
      rc := RcOk;
      var rest := ss;
      while rest.Cons?
        invariant exitlabel == None && AllOk(rest, g) && rc == RcOk
        invariant rest == ss || rest < ss
        invariant ExecAll(false, ss, g, old(world), o, fuel) == ExecAll(false, rest, g, world, o, fuel)
        decreases rest
      {
        rc := ExecStmt(rest.head, g, fuel);
        if rc != RcOk { return; }
        rest := rest.tail;
      }
    }

    method ExecStmt(s: Stmt, ghost g: seq<Target>, fuel: nat) returns (rc: Rc)
      requires exitlabel == None && Ok(s, g)
      modifies this
      ensures var (out, w) := Exec(false, s, g, old(world), o, fuel); world == w && Says(rc, exitlabel, out, g)
      decreases fuel, s, 2
    {
      match s
      case Do(id) =>
        var c := Consult();
        if c.Fails? { return Thrown(c.code); }
        world := Log(world, Did(id));
        rc := RcOk;
      case Return =>
        var c := Consult();
        if c.Fails? { return Thrown(c.code); }
        world := Log(world, Returned);
        rc := RcReturn;
      case Leave(isExit, lab, cond) =>
        if cond {
          var c := Consult();
          if c.Fails? { return Thrown(c.code); }
          if !c.yes { return RcOk; }
        }
        exitlabel := lab;
        rc := if isExit then RcExit else RcContinue;
      case If(t, e) =>
        var c := Consult();
        if c.Fails? { return Thrown(c.code); }
        rc := ExecStmts(if c.yes then t else e, g, fuel);
      case Loop(kind, _, _) =>
        if kind.Rows? { rc := ExecForQuery(s, g, fuel); } else { rc := ExecLoop(s, g, 0, fuel); }
      case Block(_, _, _) => rc := ExecBlock(s, g, fuel);
      case Try(_, _, _, _) => rc := ExecBlock(s, g, fuel);
    }

    /** LOOP and WHILE, with the macro that interprets the body's return code inlined. */
    method ExecLoop(s: Stmt, ghost g: seq<Target>, portal: nat, fuel: nat) returns (rc: Rc)
      requires s.Loop? && exitlabel == None && Ok(s, g)
      modifies this
      ensures var (out, w) := Iterate(false, s.kind, s.lab, s.body, g, portal, old(world), o, fuel);
        world == w && Says(rc, exitlabel, out, g)
      decreases fuel, s, 0
    {
      hide Resolve, ExecAll, AllOk, Iterate;
      var left: nat := fuel;
      ghost var inner := [Target(s.lab, true)] + g;
      while true
        invariant exitlabel == None && left <= fuel
        invariant Alike(Iterate(false, s.kind, s.lab, s.body, g, portal, old(world), o, fuel),
                        Iterate(false, s.kind, s.lab, s.body, g, portal, world, o, left))
        decreases left
      {
        IterateIs(s.kind, s.lab, s.body, g, portal, world, o, left);
        if left == 0 { return Cut; }
        if !s.kind.Plain? {
          var c := Consult();
          if c.Fails? { return Thrown(c.code); }
          if !c.yes { return RcOk; }
          if s.kind.Rows? { world := world.(rows := world.rows + {portal}); }
        }
        rc := ExecStmts(s.body, inner, left);
        ResolveCons(Target(s.lab, true), g, exitlabel);
        if rc == RcReturn || rc.Thrown? || rc == Cut {
          return;
        } else if rc == RcExit {
          if exitlabel == None {
            rc := RcOk;
          } else if s.lab.Some? && s.lab == exitlabel {
            exitlabel := None;
            rc := RcOk;
          }
          return;
        } else if rc == RcContinue {
          if exitlabel == None {
            rc := RcOk;
          } else if s.lab.Some? && s.lab == exitlabel {
            exitlabel := None;
            rc := RcOk;
          } else {
            return;
          }
        }
        left := left - 1;
      }
    }

    /** FOR over rows: open the portal, loop, set FOUND, close it; an error leaves the portal to the abort. */
    method ExecForQuery(s: Stmt, ghost g: seq<Target>, fuel: nat) returns (rc: Rc)
      requires s.Loop? && s.kind.Rows? && exitlabel == None && Ok(s, g)
      modifies this
      ensures var (out, w) := Exec(false, s, g, old(world), o, fuel); world == w && Says(rc, exitlabel, out, g)
      decreases fuel, s, 1
    {
      var c := Consult();
      if c.Fails? { return Thrown(c.code); }
      var portal := world.next;
      world := Log(world.(next := portal + 1), Opened(portal)).(rows := world.rows - {portal});
      rc := ExecLoop(s, g, portal, fuel);
      if !rc.Thrown? && rc != Cut {
        world := Log(world, Found(portal in world.rows));
        world := Log(world, Closed(portal));
      }
    }

    method ExecInits(ds: seq<VarInit>) returns (rc: Rc)
      requires exitlabel == None
      modifies this`world
      ensures var (out, w) := Inits(ds, old(world), o); world == w && Says(rc, exitlabel, out, [])
    {
      rc := RcOk;
      var i := 0;
      while i < |ds|
        invariant i <= |ds| && Inits(ds, old(world), o) == Inits(ds[i..], world, o)
      {
        assert ds[i..][1..] == ds[i + 1..];
        if ds[i].Evaluated? {
          var k := world.pos;
          var c := Consult();
          if c.Fails? { return Thrown(c.code); }
          world := Log(world, Initialised(k));
        }
        i := i + 1;
      }
    }

    /** exec_stmt_block: initialise, run the body (inside a subtransaction if there are handlers),
        then match the return code against the block's label. */
    method ExecBlock(s: Stmt, ghost g: seq<Target>, fuel: nat) returns (rc: Rc)
      requires (s.Block? || s.Try?) && exitlabel == None && Ok(s, g)
      modifies this
      ensures var (out, w) := Exec(false, s, g, old(world), o, fuel); world == w && Says(rc, exitlabel, out, g)
      decreases fuel, s, 1
    {
      BlockIs(s, g, world, o, fuel);
      hide Exec, ExecAll, Inits;
      rc := ExecInits(s.inits);
      if rc != RcOk { return; }
      if s.Block? {
        rc := ExecStmts(s.body, Inside(g, s.lab), fuel);
      } else {
        rc := ExecTry(s, g, fuel);
      }
      if s.lab.Some? { ResolveCons(Target(s.lab, false), g, exitlabel); }
      if rc == RcExit {
        if exitlabel == None || s.lab.None? || s.lab != exitlabel { return; }
        exitlabel := None;
        rc := RcOk;
      }
    }

    /** The PG_TRY part: the outcome is the one before the block's own label is considered. */
    method ExecTry(s: Stmt, ghost g: seq<Target>, fuel: nat) returns (rc: Rc)
      requires s.Try? && exitlabel == None && Ok(s, g)
      modifies this
      ensures var (out, w) := TryOutcome(s, g, old(world), o, fuel);
        world == w && Says(rc, exitlabel, out, Inside(g, s.lab))
      decreases fuel, s, 0
    {
      var frame := world.next;
      world := Log(world.(next := frame + 1), Pushed(frame));
      rc := ExecStmts(s.body, Inside(g, s.lab), fuel);
      if rc == Cut { return; }
      if !rc.Thrown? {
        world := Log(world, TryExited(frame));
        return;
      }
      var code := rc.code;
      world := Log(world, Caught(frame));
      var hs := s.handlers;
      while hs.When? && code !in hs.codes
        invariant hs == s.handlers || hs < s.handlers
        invariant HandlersOk(hs, Inside(g, s.lab))
        invariant FirstMatch(s.handlers, code).None? <==> FirstMatch(hs, code).None?
        invariant FirstMatch(hs, code).Some? ==>
          Action(s.handlers, FirstMatch(s.handlers, code).value) == Action(hs, FirstMatch(hs, code).value)
        decreases hs
      {
        hs := hs.rest;
      }
      if hs.NoMore? {
        world := Log(world, Rethrown(frame));
        return;
      }
      rc := ExecStmts(hs.action, Inside(g, s.lab), fuel);
      if !rc.Thrown? && rc != Cut { world := Log(world, HandlerDone(frame)); }
    }

    /** A function body: every pending EXIT or CONTINUE has been consumed inside it. */
    method ExecFunction(body: Stmt, fuel: nat) returns (rc: Rc)
      requires exitlabel == None && Ok(body, [])
      modifies this
      ensures rc == RcOk || rc == RcReturn || rc.Thrown? || rc == Cut
      ensures rc != Cut ==> exitlabel == None
      ensures var (out, w) := Exec(false, body, [], old(world), o, fuel); world == w && Says(rc, exitlabel, out, [])
    {
      rc := ExecStmt(body, [], fuel);
    }
  }

  /** The same ending in the same world; a cut may come after any number of passes. */
  predicate Alike(a: (Outcome, World), b: (Outcome, World)) {
    a.1 == b.1 && (a.0 == b.0 || (a.0.OutOfFuel? && b.0.OutOfFuel?))
  }

  /** A loop is a test, a pass and the loop again. */
  lemma IterateIs(kind: LoopKind, lab: Option<string>, body: Stmts, g: seq<Target>, p: nat, w: World, o: Oracle,
                  fuel: nat)
    ensures var r := Iterate(false, kind, lab, body, g, p, w, o, fuel);
      if fuel == 0 then r.0.OutOfFuel? && r.1 == w
      else if !kind.Plain? && o(w.pos).Fails? then r == (Raise(o(w.pos).code), Ask(w))
      else if !kind.Plain? && !o(w.pos).yes then r == (Fall, Ask(w))
      else
        var (out, w1) := ExecAll(false, body, [Target(lab, true)] + g, Passing(kind, p, w), o, fuel);
        if out.Fall? || out == JumpTo(false, 0) then Alike(r, Iterate(false, kind, lab, body, g, p, w1, o, fuel - 1))
        else r == (Outward(out), w1)
  {
  }

  /** A block is its initialisers, then its body or protected part, then its own label. */
  lemma BlockIs(s: Stmt, g: seq<Target>, w: World, o: Oracle, fuel: nat)
    requires s.Block? || s.Try?
    ensures Exec(false, s, g, w, o, fuel) ==
      var (ini, w0) := Inits(s.inits, w, o);
      if !ini.Fall? then (ini, w0)
      else
        var (out, w1) := if s.Block? then ExecAll(false, s.body, Inside(g, s.lab), w0, o, fuel)
                         else TryOutcome(s, g, w0, o, fuel);
        (OutwardOf(s.lab, out), w1)
  {
  }

  /** The outcome of an initialised exception block before its own label is considered. */
  function TryOutcome(s: Stmt, g: seq<Target>, w: World, o: Oracle, fuel: nat): (Outcome, World)
    requires s.Try?
  {
    var f := w.next;
    var inner := Inside(g, s.lab);
    var (out, w1) := ExecAll(false, s.body, inner, Log(w.(next := f + 1), Pushed(f)), o, fuel);
    if out.OutOfFuel? then (out, w1)
    else if !out.Raise? then (out, Log(w1, TryExited(f)))
    else
      var w2 := Log(w1, Caught(f));
      var i := FirstMatch(s.handlers, out.code);
      if i.None? then (out, Log(w2, Rethrown(f)))
      else
        var (out', w3) := ExecAll(false, Action(s.handlers, i.value), inner, w2, o, fuel);
        (out', if out'.Raise? || out'.OutOfFuel? then w3 else Log(w3, HandlerDone(f)))
  }
}
