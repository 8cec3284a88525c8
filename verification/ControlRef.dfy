/** Statements with labelled exits, row loops and exception blocks, and their structured meaning.

    The reference semantics fixes the target of every EXIT and CONTINUE lexically and lets each
    construct release what it holds when control leaves it.  Conditions, row fetches and errors
    come from an oracle; the trace records what the program did and what it acquired and released. */
module ControlRef {
  import opened Cfg

  datatype LoopKind = Plain | While | Rows

  /** A declared variable starts as NULL, or its default or domain check is evaluated and may raise. */
  datatype VarInit = NullInit | Evaluated

  datatype Stmt =
    | Do(id: nat)
    | Return
    | Leave(isExit: bool, lab: Option<string>, cond: bool)      // EXIT/CONTINUE [lab] [WHEN ...]
    | If(thn: Stmts, els: Stmts)
    | Loop(kind: LoopKind, lab: Option<string>, body: Stmts)
    | Block(lab: Option<string>, inits: seq<VarInit>, body: Stmts)
    | Try(lab: Option<string>, inits: seq<VarInit>, body: Stmts, handlers: Handlers)

  datatype Stmts = Nil | Cons(head: Stmt, tail: Stmts)

  /** WHEN clauses: the error codes a clause matches, and its statements. */
  datatype Handlers = NoMore | When(codes: set<int>, action: Stmts, rest: Handlers)

  datatype Choice = Answer(yes: bool) | Fails(code: int)
  type Oracle = nat -> Choice

  /** Frames and portals are numbered in the order they are created; Initialised(k) is a declaration whose
      evaluation the k-th answer let succeed. */
  datatype Event =
    | Did(id: nat) | Initialised(k: nat) | Returned | Found(yes: bool)
    | Pushed(f: nat) | TryExited(f: nat) | Caught(f: nat) | HandlerDone(f: nat) | Rethrown(f: nat)
    | Opened(p: nat) | Closed(p: nat)

  /** `rows` are the row loops, by portal, that have had a row. */
  datatype World = World(pos: nat, next: nat, trace: seq<Event>, rows: set<nat>)

  function Log(w: World, e: Event): World { w.(trace := w.trace + [e]) }
  function Ask(w: World): World { w.(pos := w.pos + 1) }

  /** An enclosing construct an EXIT or CONTINUE can name, innermost first in a context. */
  datatype Target = Target(lab: Option<string>, isLoop: bool)

  /** Unlabelled: the innermost loop.  Labelled: the innermost construct with that lab. */
  function Resolve(g: seq<Target>, lab: Option<string>): (r: Option<nat>)
    ensures r.Some? ==> r.value < |g|
  {
    if g == [] then None
    else if (if lab.None? then g[0].isLoop else g[0].lab == lab) then Some(0)
    else var r := Resolve(g[1..], lab); if r.None? then None else Some(r.value + 1)
  }

  predicate Resolves(g: seq<Target>, lab: Option<string>, isExit: bool) {
    var r := Resolve(g, lab);
    r.Some? && (isExit || g[r.value].isLoop)
  }

  function Inside(g: seq<Target>, lab: Option<string>): seq<Target> {
    if lab.None? then g else [Target(lab, false)] + g
  }

  /** Every EXIT and CONTINUE names an enclosing construct, CONTINUE a loop. */
  predicate Ok(s: Stmt, g: seq<Target>) {
    match s
    case Do(_) => true
    case Return => true
    case Leave(isExit, lab, _) => Resolves(g, lab, isExit)
    case If(t, e) => AllOk(t, g) && AllOk(e, g)
    case Loop(_, lab, body) => AllOk(body, [Target(lab, true)] + g)
    case Block(lab, _, body) => AllOk(body, Inside(g, lab))
    case Try(lab, _, body, hs) => AllOk(body, Inside(g, lab)) && HandlersOk(hs, Inside(g, lab))
  }

  predicate AllOk(ss: Stmts, g: seq<Target>) {
    ss.Cons? ==> Ok(ss.head, g) && AllOk(ss.tail, g)
  }

  predicate HandlersOk(hs: Handlers, g: seq<Target>) {
    hs.When? ==> AllOk(hs.action, g) && HandlersOk(hs.rest, g)
  }

  /** How a statement ends.  OutOfFuel: it was cut, after that many loop passes. */
  datatype Outcome = Fall | JumpTo(isExit: bool, depth: nat) | Ret | Raise(code: int) | OutOfFuel(passes: nat)

  /** Leaving a construct that is itself a target: depth 0 was this construct. */
  function Outward(out: Outcome): Outcome {
    if out.JumpTo? then (if out.depth == 0 then Fall else out.(depth := out.depth - 1)) else out
  }

  /** One loop pass more. */
  function Counted(r: (Outcome, World)): (Outcome, World) {
    if r.0.OutOfFuel? then (OutOfFuel(r.0.passes + 1), r.1) else r
  }

  function OutwardOf(lab: Option<string>, out: Outcome): Outcome {
    if lab.None? then out else Outward(out)
  }

  function Count(hs: Handlers): nat { if hs.NoMore? then 0 else 1 + Count(hs.rest) }

  /** The first WHEN clause that matches. */
  function FirstMatch(hs: Handlers, code: int): (r: Option<nat>)
    ensures r.Some? ==> r.value < Count(hs)
  {
    if hs.NoMore? then None
    else if code in hs.codes then Some(0)
    else var r := FirstMatch(hs.rest, code); if r.None? then None else Some(r.value + 1)
  }

  function Action(hs: Handlers, i: nat): (r: Stmts)
    requires i < Count(hs)
    ensures r < hs
    ensures forall g :: HandlersOk(hs, g) ==> AllOk(r, g)
  {
    if i == 0 then hs.action else Action(hs.rest, i - 1)
  }

  function Inits(ds: seq<VarInit>, w: World, o: Oracle): (r: (Outcome, World))
    ensures r.0.Fall? || r.0.Raise?
    ensures r.1 == w.(pos := r.1.pos, trace := r.1.trace) && w.pos <= r.1.pos && |w.trace| <= |r.1.trace|
    decreases |ds|
  {
    if ds == [] then (Fall, w)
    else if ds[0].NullInit? then Inits(ds[1..], w, o)
    else if o(w.pos).Fails? then (Raise(o(w.pos).code), Ask(w))
    else Inits(ds[1..], Log(Ask(w), Initialised(w.pos)), o)
  }

  /** A row loop starts: its portal is open and has had no row. */
  function Opening(w: World): World {
    Log(Ask(w).(next := w.next + 1), Opened(w.next)).(rows := w.rows - {w.next})
  }

  /** A pass of a loop starts; of a row loop, with a row. */
  function Passing(kind: LoopKind, p: nat, w: World): World {
    match kind case Plain => w case While => Ask(w) case Rows => Ask(w).(rows := w.rows + {p})
  }

  /** A row loop is left.  The interpreter sets FOUND on every way out but an error; compiled code does so
      only in the loop's exit block, which an outward jump and RETURN do not pass. */
  function RowsLeft(late: bool, out: Outcome, p: nat, w: World): World {
    if out.Raise? || out.OutOfFuel? then w
    else if !late then Log(Log(w, Found(p in w.rows)), Closed(p))
    else if out.Fall? then Log(Log(w, Closed(p)), Found(p in w.rows))
    else Log(w, Closed(p))
  }

  /** `late` is the compiled reading: an exception block initialises its variables inside its own frame,
      and a row loop left for outside does not set FOUND. */
  function Exec(late: bool, s: Stmt, g: seq<Target>, w: World, o: Oracle, fuel: nat): (r: (Outcome, World))
    ensures Ok(s, g) && r.0.JumpTo? ==> r.0.depth < |g| && (r.0.isExit || g[r.0.depth].isLoop)
    ensures |w.trace| <= |r.1.trace|
    decreases fuel, s, 2
  {
    match s
    case Do(id) =>
      if o(w.pos).Fails? then (Raise(o(w.pos).code), Ask(w)) else (Fall, Log(Ask(w), Did(id)))
    case Return =>
      if o(w.pos).Fails? then (Raise(o(w.pos).code), Ask(w)) else (Ret, Log(Ask(w), Returned))
    case Leave(isExit, lab, cond) =>
      if cond && o(w.pos).Fails? then (Raise(o(w.pos).code), Ask(w))
      else if cond && !o(w.pos).yes then (Fall, Ask(w))
      else
        var k := Resolve(g, lab);
        (if k.None? then Fall else JumpTo(isExit, k.value), if cond then Ask(w) else w)
    case If(t, e) =>
      if o(w.pos).Fails? then (Raise(o(w.pos).code), Ask(w))
      else ExecAll(late, if o(w.pos).yes then t else e, g, Ask(w), o, fuel)
    case Loop(kind, lab, body) =>
      if !kind.Rows? then Iterate(late, kind, lab, body, g, 0, w, o, fuel)
      else if o(w.pos).Fails? then (Raise(o(w.pos).code), Ask(w))
      else
        var (out, w1) := Iterate(late, kind, lab, body, g, w.next, Opening(w), o, fuel);
        (out, RowsLeft(late, out, w.next, w1))
    case Block(lab, n, body) =>
      var (ini, w1) := Inits(n, w, o);
      if !ini.Fall? then (ini, w1) else
      var (out, w2) := ExecAll(late, body, Inside(g, lab), w1, o, fuel);
      (OutwardOf(lab, out), w2)
    case Try(lab, n, body, hs) =>
      var (ini, w0) := if late then (Fall, w) else Inits(n, w, o);
      if !ini.Fall? then (ini, w0) else
      var f := w0.next;
      var (out, w1) := Protected(late, s, g, Log(w0.(next := f + 1), Pushed(f)), o, fuel);
      if out.OutOfFuel? then (out, w1)
      else if !out.Raise? then (OutwardOf(lab, out), Log(w1, TryExited(f)))
      else Handle(late, s, f, out.code, g, Log(w1, Caught(f)), o, fuel)
  }

  /** What runs inside the frame of an exception block. */
  function Protected(late: bool, s: Stmt, g: seq<Target>, w: World, o: Oracle, fuel: nat): (r: (Outcome, World))
    requires s.Try?
    ensures Ok(s, g) && r.0.JumpTo? ==>
      r.0.depth < |Inside(g, s.lab)| && (r.0.isExit || Inside(g, s.lab)[r.0.depth].isLoop)
    ensures |w.trace| <= |r.1.trace|
    decreases fuel, s, 1
  {
    var (ini, w1) := if late then Inits(s.inits, w, o) else (Fall, w);
    if ini.Fall? then ExecAll(late, s.body, Inside(g, s.lab), w1, o, fuel) else (ini, w1)
  }

  /** After an error was caught: run the matching handler or rethrow. */
  function Handle(late: bool, s: Stmt, f: nat, code: int, g: seq<Target>, w: World, o: Oracle,
                  fuel: nat): (r: (Outcome, World))
    requires s.Try?
    ensures Ok(s, g) && r.0.JumpTo? ==> r.0.depth < |g| && (r.0.isExit || g[r.0.depth].isLoop)
    ensures |w.trace| <= |r.1.trace|
    decreases fuel, s, 1
  {
    var i := FirstMatch(s.handlers, code);
    if i.None? then (Raise(code), Log(w, Rethrown(f)))
    else
      var (out, w1) := ExecAll(late, Action(s.handlers, i.value), Inside(g, s.lab), w, o, fuel);
      if out.Raise? || out.OutOfFuel? then (out, w1)
      else (OutwardOf(s.lab, out), Log(w1, HandlerDone(f)))
  }

  function ExecAll(late: bool, ss: Stmts, g: seq<Target>, w: World, o: Oracle, fuel: nat): (r: (Outcome, World))
    ensures AllOk(ss, g) && r.0.JumpTo? ==> r.0.depth < |g| && (r.0.isExit || g[r.0.depth].isLoop)
    ensures |w.trace| <= |r.1.trace|
    decreases fuel, ss, 0
  {
    if ss.Nil? then (Fall, w)
    else
      var (out, w1) := Exec(late, ss.head, g, w, o, fuel);
      if out.Fall? then ExecAll(late, ss.tail, g, w1, o, fuel) else (out, w1)
  }

  /** Passes of a loop; p is the portal of a row loop. */
  function Iterate(late: bool, kind: LoopKind, lab: Option<string>, body: Stmts, g: seq<Target>, p: nat, w: World,
                   o: Oracle, fuel: nat): (r: (Outcome, World))
    ensures AllOk(body, [Target(lab, true)] + g) && r.0.JumpTo? ==>
      r.0.depth < |g| && (r.0.isExit || g[r.0.depth].isLoop)
    ensures |w.trace| <= |r.1.trace|
    decreases fuel, body, 1
  {
    if fuel == 0 then (OutOfFuel(0), w)
    else if !kind.Plain? && o(w.pos).Fails? then (Raise(o(w.pos).code), Ask(w))
    else if !kind.Plain? && !o(w.pos).yes then (Fall, Ask(w))
    else
      var (out, w1) := ExecAll(late, body, [Target(lab, true)] + g, Passing(kind, p, w), o, fuel);
      if out.Fall? || out == JumpTo(false, 0) then Counted(Iterate(late, kind, lab, body, g, p, w1, o, fuel - 1))
      else (Outward(out), w1)
  }

  /** What becomes of the outcome of an exception block's protected part. */
  function AfterBody(late: bool, s: Stmt, f: nat, g: seq<Target>, r: (Outcome, World), o: Oracle,
                     fuel: nat): (Outcome, World)
    requires s.Try?
  {
    if r.0.OutOfFuel? then r
    else if !r.0.Raise? then (OutwardOf(s.lab, r.0), Log(r.1, TryExited(f)))
    else Handle(late, s, f, r.0.code, g, Log(r.1, Caught(f)), o, fuel)
  }

  /** The world in which frame w.next has just been pushed. */
  function Framed(w: World): World { Log(w.(next := w.next + 1), Pushed(w.next)) }

  lemma TryIs(late: bool, s: Stmt, g: seq<Target>, w: World, o: Oracle, fuel: nat)
    requires s.Try?
    ensures var (ini, w0) := if late then (Fall, w) else Inits(s.inits, w, o);
      Exec(late, s, g, w, o, fuel) ==
        if !ini.Fall? then (ini, w0)
        else AfterBody(late, s, w.next, g, Protected(late, s, g, Framed(w0), o, fuel), o, fuel)
  {
  }

  // ---- cuts ----

  /** A statement is cut only after as many loop passes as it had fuel. */
  ghost predicate CutAt(r: (Outcome, World), fuel: nat) { r.0.OutOfFuel? ==> r.0.passes == fuel }

  lemma {:induction false} CutExec(late: bool, s: Stmt, g: seq<Target>, w: World, o: Oracle, fuel: nat)
    ensures CutAt(Exec(late, s, g, w, o, fuel), fuel)
    decreases fuel, s, 2
  {
    match s
    case If(t, e) => CutAll(late, t, g, Ask(w), o, fuel); CutAll(late, e, g, Ask(w), o, fuel);
    case Loop(kind, lab, body) =>
      CutIterate(late, kind, lab, body, g, 0, w, o, fuel);
      CutIterate(late, kind, lab, body, g, w.next, Opening(w), o, fuel);
    case Block(lab, n, body) => CutAll(late, body, Inside(g, lab), Inits(n, w, o).1, o, fuel);
    case Try(_, _, _, _) => CutTry(late, s, g, w, o, fuel);
    case _ =>
  }

  lemma {:induction false} CutTry(late: bool, s: Stmt, g: seq<Target>, w: World, o: Oracle, fuel: nat)
    requires s.Try?
    ensures CutAt(Exec(late, s, g, w, o, fuel), fuel)
    decreases fuel, s, 1
  {
    var (ini, w0) := if late then (Fall, w) else Inits(s.inits, w, o);
    if ini.Fall? {
      var f := w0.next;
      var w1 := Log(w0.(next := f + 1), Pushed(f));
      CutAll(late, s.body, Inside(g, s.lab), if late then Inits(s.inits, w1, o).1 else w1, o, fuel);
      var (out, w2) := Protected(late, s, g, w1, o, fuel);
      if out.Raise? {
        var i := FirstMatch(s.handlers, out.code);
        if i.Some? { CutAll(late, Action(s.handlers, i.value), Inside(g, s.lab), Log(w2, Caught(f)), o, fuel); }
      }
    }
  }

  lemma {:induction false} CutAll(late: bool, ss: Stmts, g: seq<Target>, w: World, o: Oracle, fuel: nat)
    ensures CutAt(ExecAll(late, ss, g, w, o, fuel), fuel)
    decreases fuel, ss, 0
  {
    if ss.Cons? {
      CutExec(late, ss.head, g, w, o, fuel);
      CutAll(late, ss.tail, g, Exec(late, ss.head, g, w, o, fuel).1, o, fuel);
    }
  }

  lemma {:induction false} CutIterate(late: bool, kind: LoopKind, lab: Option<string>, body: Stmts, g: seq<Target>,
                                      p: nat, w: World, o: Oracle, fuel: nat)
    ensures CutAt(Iterate(late, kind, lab, body, g, p, w, o, fuel), fuel)
    decreases fuel, body, 1
  {
    if fuel > 0 {
      var w0, g1 := Passing(kind, p, w), [Target(lab, true)] + g;
      CutAll(late, body, g1, w0, o, fuel);
      CutIterate(late, kind, lab, body, g, p, ExecAll(late, body, g1, w0, o, fuel).1, o, fuel - 1);
    }
  }

  // ---- what is held ----

  /** A frame protecting a body, a frame whose handler runs, an open portal. */
  datatype Held = InBody(f: nat) | InHandler(f: nat) | Portal(p: nat)

  function IdOf(h: Held): nat { match h case InBody(f) => f case InHandler(f) => f case Portal(p) => p }

  /** Catching at f drops whatever the aborted body still held above f. */
  function Unwound(held: seq<Held>, f: nat): Option<seq<Held>> {
    if held == [] then None
    else if held[0] == InBody(f) then Some([InHandler(f)] + held[1..])
    else Unwound(held[1..], f)
  }

  function Pop(held: seq<Held>, h: Held): Option<seq<Held>> {
    if held != [] && held[0] == h then Some(held[1..]) else None
  }

  /** One event on the stack of held resources; None if it releases anything but the top. */
  function Apply(held: seq<Held>, e: Event): Option<seq<Held>> {
    match e
    case Did(_) => Some(held)
    case Initialised(_) => Some(held)
    case Returned => Some(held)
    case Found(_) => Some(held)
    case Pushed(f) => Some([InBody(f)] + held)
    case Opened(p) => Some([Portal(p)] + held)
    case TryExited(f) => Pop(held, InBody(f))
    case HandlerDone(f) => Pop(held, InHandler(f))
    case Rethrown(f) => Pop(held, InHandler(f))
    case Closed(p) => Pop(held, Portal(p))
    case Caught(f) => Unwound(held, f)
  }

  function Replay(t: seq<Event>): Option<seq<Held>> {
    if t == [] then Some([])
    else var h := Replay(t[..|t| - 1]); if h.None? then None else Apply(h.value, t[|t| - 1])
  }

  lemma ReplayLog(w: World, e: Event)
    ensures Replay(Log(w, e).trace) ==
      if Replay(w.trace).None? then None else Apply(Replay(w.trace).value, e)
  {
    assert (w.trace + [e])[..|w.trace|] == w.trace;
  }

  /** Held resources are numbered below next. */
  ghost predicate Below(held: seq<Held>, n: nat) {
    forall i :: 0 <= i < |held| ==> IdOf(held[i]) < n
  }

  ghost predicate Holds(w: World, held: seq<Held>) {
    Replay(w.trace) == Some(held) && Below(held, w.next)
  }

  /** h is held with resources numbered from n on piled on top. */
  ghost predicate Covers(h: seq<Held>, held: seq<Held>, n: nat) {
    && |held| <= |h| && h[|h| - |held|..] == held
    && forall i :: 0 <= i < |h| - |held| ==> n <= IdOf(h[i])
  }

  ghost predicate Piled(w: World, held: seq<Held>, n: nat) {
    Replay(w.trace).Some? && Below(Replay(w.trace).value, w.next) && Covers(Replay(w.trace).value, held, n)
  }

  /** Control left normally: exactly `held` is held again.  An error or a cut may leave younger ones on top. */
  ghost predicate Leaves(out: Outcome, w0: World, w: World, held: seq<Held>) {
    w0.next <= w.next && if out.Raise? || out.OutOfFuel? then Piled(w, held, w0.next) else Holds(w, held)
  }

  lemma HoldsPiled(w: World, held: seq<Held>)
    requires Holds(w, held)
    ensures Piled(w, held, w.next)
  {
  }

  lemma LeavesFrom(out: Outcome, w0: World, w1: World, w: World, held: seq<Held>)
    requires w0.next <= w1.next && Leaves(out, w1, w, held)
    ensures Leaves(out, w0, w, held)
  {
  }

  lemma CoversMore(h: seq<Held>, x: Held, held: seq<Held>, n: nat, m: nat)
    requires Covers(h, [x] + held, n) && m <= n && m <= IdOf(x)
    ensures Covers(h, held, m)
  {
    assert h[|h| - |held|..] == h[|h| - |held| - 1..][1..];
    assert h[|h| - |held| - 1] == h[|h| - |held| - 1..][0] == x;
  }

  lemma UnwoundAt(h: seq<Held>, f: nat, held: seq<Held>)
    requires Covers(h, [InBody(f)] + held, f + 1)
    ensures Unwound(h, f) == Some([InHandler(f)] + held)
  {
    if |h| == |held| + 1 {
      assert h[0..] == h;
    } else {
      assert h[1..][|h| - 1 - |held| - 1..] == h[|h| - |held| - 1..];
      UnwoundAt(h[1..], f, held);
    }
  }

  lemma {:induction false} InitsHold(ds: seq<VarInit>, w: World, o: Oracle, held: seq<Held>)
    requires Holds(w, held)
    ensures Holds(Inits(ds, w, o).1, held) && Piled(Inits(ds, w, o).1, held, w.next)
    decreases |ds|
  {
    hide Replay, Below, Covers;
    HoldsPiled(w, held);
    HoldsPiled(Ask(w), held);
    if ds != [] {
      ReplayLog(Ask(w), Initialised(w.pos));
      if ds[0].NullInit? { InitsHold(ds[1..], w, o, held); }
      else if !o(w.pos).Fails? { InitsHold(ds[1..], Log(Ask(w), Initialised(w.pos)), o, held); }
    }
  }

  /** Every statement gives back what it acquires: on every way out that is not an error,
      the resources held afterwards are exactly those held before. */
  lemma {:induction false} Balanced(late: bool, s: Stmt, g: seq<Target>, w: World, o: Oracle, fuel: nat,
                                    held: seq<Held>)
    requires Holds(w, held)
    ensures var (out, w1) := Exec(late, s, g, w, o, fuel); Leaves(out, w, w1, held)
    decreases fuel, s, 2
  {
    hide Replay, Below, Covers;
    match s
    case Do(id) => ReplayLog(Ask(w), Did(id)); HoldsPiled(w, held);
    case Return => ReplayLog(Ask(w), Returned); HoldsPiled(w, held);
    case Leave(_, _, _) => HoldsPiled(w, held);
    case If(t, e) =>
      HoldsPiled(w, held);
      if !o(w.pos).Fails? { BalancedAll(late, if o(w.pos).yes then t else e, g, Ask(w), o, fuel, held); }
    case Loop(kind, lab, body) =>
      HoldsPiled(w, held);
      if !kind.Rows? { BalancedIterate(late, kind, lab, body, g, 0, w, o, fuel, held); }
      else if !o(w.pos).Fails? { BalancedRows(late, s, g, w, o, fuel, held); }
    case Block(lab, n, body) =>
      InitsHold(n, w, o, held);
      BalancedAll(late, body, Inside(g, lab), Inits(n, w, o).1, o, fuel, held);
    case Try(_, _, _, _) => BalancedTry(late, s, g, w, o, fuel, held);
  }

  lemma {:induction false} BalancedAll(late: bool, ss: Stmts, g: seq<Target>, w: World, o: Oracle, fuel: nat,
                                       held: seq<Held>)
    requires Holds(w, held)
    ensures var (out, w1) := ExecAll(late, ss, g, w, o, fuel); Leaves(out, w, w1, held)
    decreases fuel, ss, 0
  {
    hide Replay, Below, Covers;
    if ss.Cons? {
      Balanced(late, ss.head, g, w, o, fuel, held);
      var (out, w1) := Exec(late, ss.head, g, w, o, fuel);
      if out.Fall? {
        BalancedAll(late, ss.tail, g, w1, o, fuel, held);
        var (out', w2) := ExecAll(late, ss.tail, g, w1, o, fuel);
        LeavesFrom(out', w, w1, w2, held);
      }
    }
  }

  lemma {:induction false} BalancedIterate(late: bool, kind: LoopKind, lab: Option<string>, body: Stmts, g: seq<Target>,
                                           p: nat, w: World, o: Oracle, fuel: nat, held: seq<Held>)
    requires Holds(w, held)
    ensures var (out, w1) := Iterate(late, kind, lab, body, g, p, w, o, fuel); Leaves(out, w, w1, held)
    decreases fuel, body, 1
  {
    hide Replay, Below, Covers;
    HoldsPiled(w, held);
    if fuel > 0 && (kind.Plain? || o(w.pos) == Answer(true)) {
      var w0 := Passing(kind, p, w);
      BalancedAll(late, body, [Target(lab, true)] + g, w0, o, fuel, held);
      var (out, w1) := ExecAll(late, body, [Target(lab, true)] + g, w0, o, fuel);
      if out.Fall? || out == JumpTo(false, 0) {
        BalancedIterate(late, kind, lab, body, g, p, w1, o, fuel - 1, held);
        var (out', w2) := Iterate(late, kind, lab, body, g, p, w1, o, fuel - 1);
        LeavesFrom(out', w, w1, w2, held);
      }
    }
  }

  lemma {:induction false} BalancedRows(late: bool, s: Stmt, g: seq<Target>, w: World, o: Oracle, fuel: nat,
                                        held: seq<Held>)
    requires s.Loop? && s.kind.Rows? && !o(w.pos).Fails? && Holds(w, held)
    ensures var (out, w1) := Exec(late, s, g, w, o, fuel); Leaves(out, w, w1, held)
    decreases fuel, s, 1
  {
    hide Replay, Covers;
    var p := w.next;
    var w0 := Opening(w);
    ReplayLog(Ask(w).(next := p + 1), Opened(p));
    BalancedIterate(late, s.kind, s.lab, s.body, g, p, w0, o, fuel, [Portal(p)] + held);
    var (out, w1) := Iterate(late, s.kind, s.lab, s.body, g, p, w0, o, fuel);
    if out.Raise? || out.OutOfFuel? {
      CoversMore(Replay(w1.trace).value, Portal(p), held, w0.next, w.next);
    } else {
      var found := Found(p in w1.rows);
      ReplayLog(w1, Closed(p));
      ReplayLog(Log(w1, Closed(p)), found);
      ReplayLog(w1, found);
      ReplayLog(Log(w1, found), Closed(p));
      assert ([Portal(p)] + held)[1..] == held;
    }
  }

  lemma {:induction false} BalancedTry(late: bool, s: Stmt, g: seq<Target>, w: World, o: Oracle, fuel: nat,
                                       held: seq<Held>)
    requires s.Try? && Holds(w, held)
    ensures var (out, w1) := Exec(late, s, g, w, o, fuel); Leaves(out, w, w1, held)
    decreases fuel, s, 1
  {
    hide Replay, Covers, Unwound, Protected, Handle;
    InitsHold(s.inits, w, o, held);
    var (ini, w0) := if late then (Fall, w) else Inits(s.inits, w, o);
    if ini.Fall? {
      var f := w0.next;
      var w1 := Log(w0.(next := f + 1), Pushed(f));
      ReplayLog(w0.(next := f + 1), Pushed(f));
      var under := [InBody(f)] + held;
      BalancedProtected(late, s, g, w1, o, fuel, under);
      var (out, w2) := Protected(late, s, g, w1, o, fuel);
      if out.Raise? || out.OutOfFuel? {
        CoversMore(Replay(w2.trace).value, InBody(f), held, w1.next, w.next);
        if out.Raise? {
          UnwoundAt(Replay(w2.trace).value, f, held);
          ReplayLog(w2, Caught(f));
          BalancedHandle(late, s, f, out.code, g, Log(w2, Caught(f)), o, fuel, held);
        }
      } else {
        ReplayLog(w2, TryExited(f));
        assert under[1..] == held;
      }
    }
  }

  lemma {:induction false} BalancedProtected(late: bool, s: Stmt, g: seq<Target>, w: World, o: Oracle, fuel: nat,
                                             held: seq<Held>)
    requires s.Try? && Holds(w, held)
    ensures var (out, w1) := Protected(late, s, g, w, o, fuel); Leaves(out, w, w1, held)
    decreases fuel, s, 0
  {
    var (ini, w1) := if late then Inits(s.inits, w, o) else (Fall, w);
    InitsHold(s.inits, w, o, held);
    BalancedAll(late, s.body, Inside(g, s.lab), w1, o, fuel, held);
  }

  lemma {:induction false} BalancedHandle(late: bool, s: Stmt, f: nat, code: int, g: seq<Target>, w: World, o: Oracle,
                                          fuel: nat, held: seq<Held>)
    requires s.Try? && f < w.next && Below(held, f) && Replay(w.trace) == Some([InHandler(f)] + held)
    ensures var (out, w1) := Handle(late, s, f, code, g, w, o, fuel);
      && w.next <= w1.next
      && if out.Raise? || out.OutOfFuel? then Piled(w1, held, f) else Holds(w1, held)
    decreases fuel, s, 0
  {
    hide Replay, Covers, Unwound;
    var under := [InHandler(f)] + held;
    assert under[1..] == held;
    var i := FirstMatch(s.handlers, code);
    if i.None? {
      ReplayLog(w, Rethrown(f));
      HoldsPiled(Log(w, Rethrown(f)), held);
      LeavesFrom(Raise(code), w.(next := f), w, Log(w, Rethrown(f)), held);
    } else {
      BalancedAll(late, Action(s.handlers, i.value), Inside(g, s.lab), w, o, fuel, under);
      var (out, w1) := ExecAll(late, Action(s.handlers, i.value), Inside(g, s.lab), w, o, fuel);
      if out.Raise? || out.OutOfFuel? {
        CoversMore(Replay(w1.trace).value, InHandler(f), held, w.next, f);
      } else {
        ReplayLog(w1, HandlerDone(f));
      }
    }
  }
}
