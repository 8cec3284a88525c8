/** Marked runs against their own log, and against the control flow of statements. */
module MarkedControl {
  import opened Cfg
  import opened Marking
  import opened MarkedRuns
  import C = ControlRef

  // ---- the log ----

  /** Before act n of the log, v's value was handed away and v was given none since. */
  ghost predicate Lost(log: seq<Act>, n: nat, v: nat)
    requires n <= |log|
  {
    exists j :: 0 <= j < n && log[j] == Gave(v) && forall k :: j < k < n ==> log[k] != Got(v)
  }

  /** Some variable was read without a value. */
  ghost predicate ReadsLost(log: seq<Act>) {
    exists i :: 0 <= i < |log| && log[i].Read? && Lost(log, i, log[i].v)
  }

  /** The bookkeeping says what the log says. */
  ghost predicate Tracks(w: World) {
    (forall v :: v in w.gone <==> Lost(w.log, |w.log|, v)) && (w.bad <==> ReadsLost(w.log))
  }

  lemma LostPrefix(log: seq<Act>, x: Act, n: nat, v: nat)
    requires n <= |log|
    ensures Lost(log + [x], n, v) <==> Lost(log, n, v)
  {
    if j :| 0 <= j < n && log[j] == Gave(v) && forall k :: j < k < n ==> log[k] != Got(v) {
      assert (log + [x])[j] == Gave(v);
    }
    if j :| 0 <= j < n && (log + [x])[j] == Gave(v) && forall k :: j < k < n ==> (log + [x])[k] != Got(v) {
      assert log[j] == Gave(v);
      assert forall k :: j < k < n ==> log[k] == (log + [x])[k];
    }
  }

  lemma LostNext(log: seq<Act>, x: Act, v: nat)
    ensures Lost(log + [x], |log| + 1, v) <==> x == Gave(v) || (x != Got(v) && Lost(log, |log|, v))
  {
    var n, more := |log|, log + [x];
    if x == Gave(v) { assert more[n] == Gave(v); }
    if x != Got(v) && Lost(log, n, v) {
      var j :| 0 <= j < n && log[j] == Gave(v) && forall k :: j < k < n ==> log[k] != Got(v);
      assert more[j] == Gave(v);
    }
    if j :| 0 <= j < n + 1 && more[j] == Gave(v) && forall k :: j < k < n + 1 ==> more[k] != Got(v) {
      if j < n {
        assert more[n] != Got(v) && log[j] == Gave(v);
        assert forall k :: j < k < n ==> log[k] == more[k];
      }
    }
  }

  lemma ReadsLostNext(log: seq<Act>, x: Act)
    ensures ReadsLost(log + [x]) <==> ReadsLost(log) || (x.Read? && Lost(log, |log|, x.v))
  {
    var n, more := |log|, log + [x];
    if i :| 0 <= i < n && log[i].Read? && Lost(log, i, log[i].v) {
      LostPrefix(log, x, i, log[i].v);
      assert more[i] == log[i];
    }
    if x.Read? && Lost(log, n, x.v) { LostPrefix(log, x, n, x.v); assert more[n] == x; }
    if i :| 0 <= i < n + 1 && more[i].Read? && Lost(more, i, more[i].v) { LostPrefix(log, x, i, more[i].v); }
  }

  lemma ActTracks(w: World, v: nat)
    requires Tracks(w)
    ensures Tracks(DoRead(w, v)) && Tracks(DoGive(w, v)) && Tracks(DoGet(w, v))
  {
    hide Lost, ReadsLost;
    ReadsLostNext(w.log, Read(v));
    ReadsLostNext(w.log, Gave(v));
    ReadsLostNext(w.log, Got(v));
    forall u ensures u in DoRead(w, v).gone <==> Lost(DoRead(w, v).log, |w.log| + 1, u) { LostNext(w.log, Read(v), u); }
    forall u ensures u in DoGive(w, v).gone <==> Lost(DoGive(w, v).log, |w.log| + 1, u) { LostNext(w.log, Gave(v), u); }
    forall u ensures u in DoGet(w, v).gone <==> Lost(DoGet(w, v).log, |w.log| + 1, u) { LostNext(w.log, Got(v), u); }
  }

  lemma {:induction false} ReadsTrack(uses: seq<nat>, give: Option<nat>, w: World)
    requires Tracks(w)
    ensures Tracks(Reads(uses, give, w))
    decreases |uses|
  {
    hide Tracks;
    if uses != [] {
      var u := uses[0];
      ActTracks(w, u);
      ActTracks(DoRead(w, u), u);
      ReadsTrack(uses[1..], give, if give == Some(u) then DoGive(DoRead(w, u), u) else DoRead(w, u));
    }
  }

  lemma EvaluateTracks(uses: seq<nat>, give: Option<nat>, w: World, o: Oracle)
    requires Tracks(w)
    ensures Tracks(Evaluate(uses, give, w, o).1)
  {
    var f := o(w.pos);
    var n := if f.raisesAfter.Some? && f.raisesAfter.value < |uses| then f.raisesAfter.value else |uses|;
    ReadsTrack(uses[..n], give, w.(pos := w.pos + 1));
  }

  lemma {:induction false} DeclareTracks(ds: seq<Decl>, w: World, o: Oracle)
    requires Tracks(w)
    ensures Tracks(Declare(ds, w, o).1)
    decreases |ds|
  {
    hide Tracks;
    if ds != [] {
      ActTracks(w, ds[0].v);
      var w0 := DoGet(w, ds[0].v);
      EvaluateTracks(ds[0].uses, None, w0, o);
      DeclareTracks(ds[1..], Evaluate(ds[0].uses, None, w0, o).1, o);
    }
  }

  lemma {:induction false} ExecTracks(late: bool, s: Stmt, f: Flags, w: World, o: Oracle, fuel: nat)
    requires Tracks(w)
    ensures Tracks(Exec(late, s, f, w, o, fuel).1)
    decreases fuel, s, 1
  {
    hide Tracks, Evaluate, Declare;
    match s
    case Eval(uses) => EvaluateTracks(uses, None, w, o);
    case Assign(_, v, uses) =>
      EvaluateTracks(uses, Gives(s, f), w, o);
      ActTracks(Evaluate(uses, Gives(s, f), w, o).1, v);
    case If(cond, t, e) =>
      EvaluateTracks(cond, None, w, o);
      AllTrack(late, if o(w.pos).yes then t else e, f, Evaluate(cond, None, w, o).1, o, fuel);
    case Loop(cond, b) => IterateTracks(late, cond, b, f, w, o, fuel);
    case Leave(_, _) =>
    case Return(uses) => EvaluateTracks(uses, None, w, o);
    case Block(ds, b) => DeclareTracks(ds, w, o); AllTrack(late, b, f, Declare(ds, w, o).1, o, fuel);
    case Try(ds, b, hs) =>
      DeclareTracks(ds, w, o);
      var (raised, w1) := Declare(ds, w, o);
      AllTrack(late, b, f, w1, o, fuel);
      var (out, w2) := if raised.Some? then (Raised(raised.value), w1) else ExecAll(late, b, f, w1, o, fuel);
      if out.Raised? { HandleTracks(late, hs, out.code, f, w2, o, fuel); }
  }

  lemma {:induction false} HandleTracks(late: bool, hs: Handlers, code: int, f: Flags, w: World, o: Oracle, fuel: nat)
    requires Tracks(w)
    ensures Tracks(Handle(late, hs, code, f, w, o, fuel).1)
    decreases fuel, hs, 0
  {
    hide Tracks;
    if hs.When? {
      if code in hs.codes { AllTrack(late, hs.action, f, w, o, fuel); }
      else { HandleTracks(late, hs.rest, code, f, w, o, fuel); }
    }
  }

  lemma {:induction false} AllTrack(late: bool, ss: Stmts, f: Flags, w: World, o: Oracle, fuel: nat)
    requires Tracks(w)
    ensures Tracks(ExecAll(late, ss, f, w, o, fuel).1)
    decreases fuel, ss, 0
  {
    hide Tracks, Exec;
    if ss.Cons? {
      ExecTracks(late, ss.head, f, w, o, fuel);
      AllTrack(late, ss.tail, f, Exec(late, ss.head, f, w, o, fuel).1, o, fuel);
    }
  }

  lemma {:induction false} IterateTracks(late: bool, cond: seq<nat>, b: Stmts, f: Flags, w: World, o: Oracle, fuel: nat)
    requires Tracks(w)
    ensures Tracks(Iterate(late, cond, b, f, w, o, fuel).1)
    decreases fuel, b, 1
  {
    hide Tracks, Evaluate, ExecAll;
    if fuel > 0 {
      EvaluateTracks(cond, None, w, o);
      var w1 := Evaluate(cond, None, w, o).1;
      AllTrack(late, b, f, w1, o, fuel);
      IterateTracks(late, cond, b, f, ExecAll(late, b, f, w1, o, fuel).1, o, fuel - 1);
    }
  }

  /** In every run of a marked function: between any handing away of a variable's value and any later reading of it,
      it is given a value. */
  lemma NothingLost(late: bool, body: Stmt, f: Flags, o: Oracle, fuel: nat, args: set<nat>, others: set<nat>,
                    kept: set<nat>)
    requires WellFormed(body, args, others, kept) && Marked(body, args, f)
    ensures var log := Exec(late, body, f, Start, o, fuel).1.log;
      forall i, j :: 0 <= i < j < |log| && log[i].Gave? && log[j] == Read(log[i].v) ==>
        exists k :: i < k < j && log[k] == Got(log[i].v)
  {
    NoLostRead(late, body, f, o, fuel, args, others, kept);
    assert Tracks(Start);
    ExecTracks(late, body, f, Start, o, fuel);
    var log := Exec(late, body, f, Start, o, fuel).1.log;
    forall i, j | 0 <= i < j < |log| && log[i].Gave? && log[j] == Read(log[i].v)
      ensures exists k :: i < k < j && log[k] == Got(log[i].v)
    {
      assert !Lost(log, j, log[j].v);
    }
  }

  /** The variables read, in order. */
  function ReadsOf(log: seq<Act>): seq<nat> {
    if log == [] then []
    else ReadsOf(log[..|log| - 1]) + if log[|log| - 1].Read? then [log[|log| - 1].v] else []
  }

  lemma ReadsOfNext(log: seq<Act>, x: Act)
    ensures ReadsOf(log + [x]) == ReadsOf(log) + if x.Read? then [x.v] else []
  {
    assert (log + [x])[..|log|] == log;
  }

  lemma {:induction false} ReadsLogged(uses: seq<nat>, give: Option<nat>, w: World)
    ensures ReadsOf(Reads(uses, give, w).log) == ReadsOf(w.log) + uses
    ensures Reads(uses, give, w).gone == w.gone + if give.Some? && give.value in uses then {give.value} else {}
    decreases |uses|
  {
    if uses != [] {
      var u := uses[0];
      var w1 := DoRead(w, u);
      ReadsOfNext(w.log, Read(u));
      ReadsOfNext(w1.log, Gave(u));
      ReadsLogged(uses[1..], give, if give == Some(u) then DoGive(w1, u) else w1);
      assert uses == [u] + uses[1..];
    }
  }

  /** An expression that does not raise reads all its variables, in order; one that raises, as many as it comes to.
      What is handed away is handed away exactly if it was read. */
  lemma EvaluateLogs(uses: seq<nat>, give: Option<nat>, w: World, o: Oracle)
    ensures var (raised, w1) := Evaluate(uses, give, w, o);
      var after := o(w.pos).raisesAfter;
      var n := if after.Some? && after.value < |uses| then after.value else |uses|;
      && (raised.Some? <==> after.Some?) && ReadsOf(w1.log) == ReadsOf(w.log) + uses[..n]
      && w1.gone == w.gone + if give.Some? && give.value in uses[..n] then {give.value} else {}
  {
    var after := o(w.pos).raisesAfter;
    var n := if after.Some? && after.value < |uses| then after.value else |uses|;
    ReadsLogged(uses[..n], give, w.(pos := w.pos + 1));
  }

  // ---- control flow ----

  /** Labels by nesting depth. */
  function Name(n: nat): string { seq(n, _ => 'x') }

  /** The statement without its variables: what is evaluated becomes an action, enclosing constructs get labels. */
  function Erase(s: Stmt, level: nat): C.Stmt {
    match s
    case Eval(_) => C.Do(0)
    case Assign(_, _, _) => C.Do(0)
    case If(_, t, e) => C.If(EraseAll(t, level), EraseAll(e, level))
    case Loop(_, b) => C.Loop(C.While, Some(Name(level)), EraseAll(b, level + 1))
    case Leave(isExit, d) => C.Leave(isExit, if d < level then Some(Name(level - 1 - d)) else None, false)
    case Return(_) => C.Return
    case Block(ds, b) => C.Block(Some(Name(level)), Inits(ds), EraseAll(b, level + 1))
    case Try(ds, b, hs) =>
      C.Try(Some(Name(level)), Inits(ds), EraseAll(b, level + 1), EraseHandlers(hs, level + 1))
  }

  function EraseAll(ss: Stmts, level: nat): C.Stmts {
    if ss.Nil? then C.Nil else C.Cons(Erase(ss.head, level), EraseAll(ss.tail, level))
  }

  function EraseHandlers(hs: Handlers, level: nat): C.Handlers {
    if hs.NoMore? then C.NoMore else C.When(hs.codes, EraseAll(hs.action, level), EraseHandlers(hs.rest, level))
  }

  function Inits(ds: seq<Decl>): seq<C.VarInit> { seq(|ds|, _ => C.Evaluated) }

  /** EXIT and CONTINUE name an enclosing construct. */
  predicate Enclosed(s: Stmt, level: nat) {
    match s
    case If(_, t, e) => AllEnclosed(t, level) && AllEnclosed(e, level)
    case Loop(_, b) => AllEnclosed(b, level + 1)
    case Leave(_, d) => d < level
    case Block(_, b) => AllEnclosed(b, level + 1)
    case Try(_, b, hs) => AllEnclosed(b, level + 1) && HandlersEnclosed(hs, level + 1)
    case _ => true
  }

  predicate AllEnclosed(ss: Stmts, level: nat) {
    ss.Cons? ==> Enclosed(ss.head, level) && AllEnclosed(ss.tail, level)
  }

  predicate HandlersEnclosed(hs: Handlers, level: nat) {
    hs.When? ==> AllEnclosed(hs.action, level) && HandlersEnclosed(hs.rest, level)
  }

  /** The answers, without the reads before an error. */
  function Answers(o: Oracle): C.Oracle {
    (k: nat) => if o(k).raisesAfter.Some? then C.Fails(o(k).code) else C.Answer(o(k).yes)
  }

  /** The labels of the enclosing constructs, innermost first. */
  ghost predicate Named(g: seq<C.Target>, level: nat) {
    |g| == level && forall i :: 0 <= i < level ==> g[i].lab == Some(Name(level - 1 - i))
  }

  /** The same ending at the same answer. */
  predicate Matched(r: (Outcome, World), q: (C.Outcome, C.World)) {
    && r.1.pos == q.1.pos
    && match r.0
       case Fall => q.0.Fall?
       case Out(d) => q.0 == C.JumpTo(true, d)
       case Again(d) => q.0 == C.JumpTo(false, d)
       case Ret => q.0.Ret?
       case Raised(c) => q.0 == C.Raise(c)
       case OutOfFuel => q.0.OutOfFuel?
  }

  lemma {:induction false} ResolveNamed(g: seq<C.Target>, level: nat, d: nat)
    requires Named(g, level) && d < level
    ensures C.Resolve(g, Some(Name(level - 1 - d))) == Some(d)
    decreases d
  {
    assert |Name(level - 1 - d)| == level - 1 - d && |Name(level - 1)| == level - 1;
    if d > 0 { ResolveNamed(g[1..], level - 1, d - 1); }
  }

  lemma NamedInside(g: seq<C.Target>, level: nat, isLoop: bool)
    requires Named(g, level)
    ensures Named([C.Target(Some(Name(level)), isLoop)] + g, level + 1)
  {
  }

  lemma {:induction false} ReadsPos(uses: seq<nat>, give: Option<nat>, w: World)
    ensures Reads(uses, give, w).pos == w.pos
    decreases |uses|
  {
    if uses != [] {
      var w1 := DoRead(w, uses[0]);
      ReadsPos(uses[1..], give, if give == Some(uses[0]) then DoGive(w1, uses[0]) else w1);
    }
  }

  lemma EvaluateIs(uses: seq<nat>, give: Option<nat>, w: World, o: Oracle)
    ensures var (raised, w1) := Evaluate(uses, give, w, o);
      w1.pos == w.pos + 1 && raised == if o(w.pos).raisesAfter.Some? then Some(o(w.pos).code) else None
  {
    var f := o(w.pos);
    var n := if f.raisesAfter.Some? && f.raisesAfter.value < |uses| then f.raisesAfter.value else |uses|;
    ReadsPos(uses[..n], give, w.(pos := w.pos + 1));
  }

  lemma {:induction false} DeclareMatches(ds: seq<Decl>, w: World, v: C.World, o: Oracle)
    requires w.pos == v.pos
    ensures var (raised, w1) := Declare(ds, w, o);
      var (out, v1) := C.Inits(Inits(ds), v, Answers(o));
      w1.pos == v1.pos && out == if raised.Some? then C.Raise(raised.value) else C.Fall
    decreases |ds|
  {
    if ds != [] {
      var w0 := DoGet(w, ds[0].v);
      EvaluateIs(ds[0].uses, None, w0, o);
      assert Inits(ds)[1..] == Inits(ds[1..]);
      DeclareMatches(ds[1..], Evaluate(ds[0].uses, None, w0, o).1, C.Log(C.Ask(v), C.Initialised(v.pos)), o);
    }
  }

  /** A run of a marked function goes as the control flow of its statements says: the same ending after as many
      answers, under either order of initialisation. */
  lemma {:induction false} ExecMatches(late: bool, s: Stmt, f: Flags, w: World, o: Oracle, fuel: nat, level: nat,
                                       g: seq<C.Target>, v: C.World)
    requires Enclosed(s, level) && Named(g, level) && w.pos == v.pos
    ensures Matched(Exec(late, s, f, w, o, fuel), C.Exec(late, Erase(s, level), g, v, Answers(o), fuel))
    decreases fuel, s, 2
  {
    hide Evaluate, Declare, Named, Name, C.Iterate, C.ExecAll, C.Resolve;
    match s
    case Eval(uses) => EvaluateIs(uses, None, w, o);
    case Assign(_, _, uses) => EvaluateIs(uses, Gives(s, f), w, o);
    case If(cond, t, e) =>
      EvaluateIs(cond, None, w, o);
      AllMatch(late, if o(w.pos).yes then t else e, f, Evaluate(cond, None, w, o).1, o, fuel, level, g, C.Ask(v));
    case Loop(cond, b) => IterateMatches(late, cond, b, f, w, o, fuel, level, g, v);
    case Leave(_, d) => ResolveNamed(g, level, d);
    case Return(uses) => EvaluateIs(uses, None, w, o);
    case Block(ds, b) =>
      DeclareMatches(ds, w, v, o);
      NamedInside(g, level, false);
      var (raised, w1) := Declare(ds, w, o);
      var v1 := C.Inits(Inits(ds), v, Answers(o)).1;
      AllMatch(late, b, f, w1, o, fuel, level + 1, C.Inside(g, Some(Name(level))), v1);
    case Try(_, _, _) => TryMatches(late, s, f, w, o, fuel, level, g, v);
  }

  lemma {:induction false} AllMatch(late: bool, ss: Stmts, f: Flags, w: World, o: Oracle, fuel: nat, level: nat,
                                    g: seq<C.Target>, v: C.World)
    requires AllEnclosed(ss, level) && Named(g, level) && w.pos == v.pos
    ensures Matched(ExecAll(late, ss, f, w, o, fuel), C.ExecAll(late, EraseAll(ss, level), g, v, Answers(o), fuel))
    decreases fuel, ss, 0
  {
    hide Exec, C.Exec, Named, Answers;
    if ss.Cons? {
      ExecMatches(late, ss.head, f, w, o, fuel, level, g, v);
      var w1 := Exec(late, ss.head, f, w, o, fuel).1;
      AllMatch(late, ss.tail, f, w1, o, fuel, level, g, C.Exec(late, Erase(ss.head, level), g, v, Answers(o), fuel).1);
    }
  }

  lemma {:induction false} IterateMatches(late: bool, cond: seq<nat>, b: Stmts, f: Flags, w: World, o: Oracle,
                                          fuel: nat, level: nat, g: seq<C.Target>, v: C.World)
    requires AllEnclosed(b, level + 1) && Named(g, level) && w.pos == v.pos
    ensures Matched(Iterate(late, cond, b, f, w, o, fuel),
        C.Iterate(late, C.While, Some(Name(level)), EraseAll(b, level + 1), g, 0, v, Answers(o), fuel))
    decreases fuel, b, 1
  {
    hide Evaluate, ExecAll, C.ExecAll, Named, Name;
    if fuel > 0 {
      EvaluateIs(cond, None, w, o);
      NamedInside(g, level, true);
      var w1, g1 := Evaluate(cond, None, w, o).1, [C.Target(Some(Name(level)), true)] + g;
      AllMatch(late, b, f, w1, o, fuel, level + 1, g1, C.Ask(v));
      var w2 := ExecAll(late, b, f, w1, o, fuel).1;
      var v2 := C.ExecAll(late, EraseAll(b, level + 1), g1, C.Ask(v), Answers(o), fuel).1;
      IterateMatches(late, cond, b, f, w2, o, fuel - 1, level, g, v2);
    }
  }

  /** The protected part, with the declarations where the reading has them. */
  lemma {:induction false} TryMatches(late: bool, s: Stmt, f: Flags, w: World, o: Oracle, fuel: nat, level: nat,
                                      g: seq<C.Target>, v: C.World)
    requires s.Try? && Enclosed(s, level) && Named(g, level) && w.pos == v.pos
    ensures Matched(Exec(late, s, f, w, o, fuel), C.Exec(late, Erase(s, level), g, v, Answers(o), fuel))
    decreases fuel, s, 1
  {
    hide Declare, ExecAll, Handle, Named, Name, C.Exec, C.ExecAll, C.Inits, C.FirstMatch, Answers, C.AfterBody, Exec,
         Erase, Afterwards, Matched;
    TryParts(late, s, f, w, o, fuel, level);
    var e, co := Erase(s, level), Answers(o);
    C.TryIs(late, e, g, v, co, fuel);
    DeclareMatches(s.vars, w, v, o);
    var (raised, w1) := Declare(s.vars, w, o);
    if !late && raised.Some? {
      Raises(raised.value, w1, C.Inits(e.inits, v, co).1);
    } else {
      var v0 := if late then v else C.Inits(e.inits, v, co).1;
      ProtectedMatches(late, s, f, w, o, fuel, level, g, v, v0);
      AfterMatches(late, s, f, v.next, level, g, Inner(late, s, f, w, o, fuel),
          C.Protected(late, e, g, C.Framed(v0), co, fuel), o, fuel);
    }
  }

  lemma Raises(code: int, w: World, v: C.World)
    requires w.pos == v.pos
    ensures Matched((Raised(code), w), (C.Raise(code), v))
  {
  }

  /** The declarations and the body of an exception block. */
  function Inner(late: bool, s: Stmt, f: Flags, w: World, o: Oracle, fuel: nat): (Outcome, World)
    requires s.Try?
  {
    var (raised, w1) := Declare(s.vars, w, o);
    if raised.Some? then (Raised(raised.value), w1) else ExecAll(late, s.protected, f, w1, o, fuel)
  }

  function Afterwards(late: bool, s: Stmt, f: Flags, r: (Outcome, World), o: Oracle, fuel: nat): (Outcome, World)
    requires s.Try?
  {
    if !r.0.Raised? then (Outward(r.0), r.1)
    else var (out, w) := Handle(late, s.handlers, r.0.code, f, r.1, o, fuel); (Outward(out), w)
  }

  lemma TryParts(late: bool, s: Stmt, f: Flags, w: World, o: Oracle, fuel: nat, level: nat)
    requires s.Try?
    ensures var (raised, w1) := Declare(s.vars, w, o);
      Exec(late, s, f, w, o, fuel) ==
        if raised.Some? && !late then (Raised(raised.value), w1)
        else Afterwards(late, s, f, Inner(late, s, f, w, o, fuel), o, fuel)
    ensures var e := Erase(s, level);
      && e.Try? && e.lab == Some(Name(level)) && e.inits == Inits(s.vars) && e.body == EraseAll(s.protected, level + 1)
      && e.handlers == EraseHandlers(s.handlers, level + 1)
  {
  }

  lemma {:induction false} ProtectedMatches(late: bool, s: Stmt, f: Flags, w: World, o: Oracle, fuel: nat, level: nat,
                                            g: seq<C.Target>, v: C.World, v0: C.World)
    requires s.Try? && Enclosed(s, level) && Named(g, level) && w.pos == v.pos
    requires v0 == if late then v else C.Inits(Inits(s.vars), v, Answers(o)).1
    requires late || Declare(s.vars, w, o).0.None?
    ensures Matched(Inner(late, s, f, w, o, fuel),
        C.Protected(late, Erase(s, level), g, C.Framed(v0), Answers(o), fuel))
    decreases fuel, s, 0
  {
    hide Declare, ExecAll, Named, Name, C.ExecAll, C.Inits, Answers;
    DeclareMatches(s.vars, w, v, o);
    DeclareMatches(s.vars, w, C.Framed(v), o);
    NamedInside(g, level, false);
    var (raised, w1) := Declare(s.vars, w, o);
    var v1 := if late then C.Inits(Inits(s.vars), C.Framed(v0), Answers(o)).1 else C.Framed(v0);
    if raised.None? { AllMatch(late, s.protected, f, w1, o, fuel, level + 1, C.Inside(g, Some(Name(level))), v1); }
  }

  lemma {:induction false} AfterMatches(late: bool, s: Stmt, f: Flags, frame: nat, level: nat, g: seq<C.Target>,
                                        r: (Outcome, World), q: (C.Outcome, C.World), o: Oracle, fuel: nat)
    requires s.Try? && Enclosed(s, level) && Named(g, level) && Matched(r, q)
    ensures Matched(Afterwards(late, s, f, r, o, fuel),
        C.AfterBody(late, Erase(s, level), frame, g, q, Answers(o), fuel))
    decreases fuel, s, 0
  {
    hide Handle, Named, Name, C.ExecAll, C.FirstMatch, Answers;
    NamedInside(g, level, false);
    if r.0.Raised? {
      var g1, v := C.Inside(g, Some(Name(level))), C.Log(q.1, C.Caught(frame));
      HandleMatches(late, s.handlers, r.0.code, f, r.1, o, fuel, level + 1, g1, v);
    }
  }

  lemma {:induction false} HandleMatches(late: bool, hs: Handlers, code: int, f: Flags, w: World, o: Oracle,
                                         fuel: nat, level: nat, g: seq<C.Target>, v: C.World)
    requires HandlersEnclosed(hs, level) && Named(g, level) && w.pos == v.pos
    ensures var es := EraseHandlers(hs, level);
      var i := C.FirstMatch(es, code);
      if i.None? then Handle(late, hs, code, f, w, o, fuel) == (Raised(code), w)
      else Matched(Handle(late, hs, code, f, w, o, fuel),
          C.ExecAll(late, C.Action(es, i.value), g, v, Answers(o), fuel))
    decreases fuel, hs, 0
  {
    hide ExecAll, C.ExecAll, Named, Answers;
    if hs.When? {
      if code in hs.codes { AllMatch(late, hs.action, f, w, o, fuel, level, g, v); }
      else { HandleMatches(late, hs.rest, code, f, w, o, fuel, level, g, v); }
    }
  }
}
