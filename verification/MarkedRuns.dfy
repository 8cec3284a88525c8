/** Runs of marked functions. */
module MarkedRuns {
  import opened Cfg
  import opened Marking

  /** One evaluation: it may raise, after some number of variable reads; else it gives a truth value. */
  datatype Fate = Fate(raisesAfter: Option<nat>, code: int, yes: bool)
  type Oracle = nat -> Fate

  /** What happens to variables: one is read, its value is handed away, it is given a value. */
  datatype Act = Read(v: nat) | Gave(v: nat) | Got(v: nat)

  /** `gone` are the variables whose value was handed away and not replaced; `bad` records that one was read;
      `log` is all that happened. */
  datatype World = World(pos: nat, gone: set<nat>, bad: bool, log: seq<Act>)

  datatype Outcome = Fall | Out(depth: nat) | Again(depth: nat) | Ret | Raised(code: int) | OutOfFuel

  function DoRead(w: World, v: nat): World { w.(bad := w.bad || v in w.gone, log := w.log + [Read(v)]) }
  function DoGive(w: World, v: nat): World { w.(gone := w.gone + {v}, log := w.log + [Gave(v)]) }
  function DoGet(w: World, v: nat): World { w.(gone := w.gone - {v}, log := w.log + [Got(v)]) }

  /** Read variables in order; reading `give`, if any, hands its value away. */
  function Reads(uses: seq<nat>, give: Option<nat>, w: World): (r: World)
    decreases |uses|
  {
    if uses == [] then w
    else
      var w1 := DoRead(w, uses[0]);
      Reads(uses[1..], give, if give == Some(uses[0]) then DoGive(w1, uses[0]) else w1)
  }

  function Occurrences(uses: seq<nat>, v: nat): nat {
    if uses == [] then 0 else (if uses[0] == v then 1 else 0) + Occurrences(uses[1..], v)
  }

  /** Evaluate an expression: the result is the error it raised, if any. */
  function Evaluate(uses: seq<nat>, give: Option<nat>, w: World, o: Oracle): (Option<int>, World) {
    var f := o(w.pos);
    var n := if f.raisesAfter.Some? && f.raisesAfter.value < |uses| then f.raisesAfter.value else |uses|;
    (if f.raisesAfter.Some? then Some(f.code) else None, Reads(uses[..n], give, w.(pos := w.pos + 1)))
  }

  /** Handing away is allowed for a local target that the source mentions exactly once. */
  function Gives(s: Stmt, f: Flags): Option<nat>
    requires s.Assign?
  {
    if Flag(f, s.id) && Occurrences(s.uses, s.target) == 1 then Some(s.target) else None
  }

  /** A flagged target is handed away exactly when it occurs at exactly one position of the source. */
  lemma GivesExactly(s: Stmt, f: Flags)
    requires s.Assign?
    ensures Gives(s, f) != None <==> Flag(f, s.id) && exists k :: OnlyAt(s.uses, s.target, k)
    ensures Gives(s, f).Some? ==> Gives(s, f).value == s.target
  {
    if Occurrences(s.uses, s.target) == 1 { var k := OnceAt(s.uses, s.target); }
    if k :| OnlyAt(s.uses, s.target, k) { OccursOnce(s.uses, s.target, k); }
  }

  ghost predicate OnlyAt(uses: seq<nat>, v: nat, k: nat) {
    k < |uses| && uses[k] == v && forall j :: 0 <= j < |uses| && uses[j] == v ==> j == k
  }

  lemma {:induction false} OnceAt(uses: seq<nat>, v: nat) returns (k: nat)
    requires Occurrences(uses, v) == 1
    ensures OnlyAt(uses, v, k)
    decreases |uses|
  {
    assert forall j :: 0 < j < |uses| ==> uses[1..][j - 1] == uses[j];
    if uses[0] == v { NoOccurrence(uses[1..], v); k := 0; } else { k := OnceAt(uses[1..], v); k := k + 1; }
  }

  lemma {:induction false} OccursOnce(uses: seq<nat>, v: nat, k: nat)
    requires OnlyAt(uses, v, k)
    ensures Occurrences(uses, v) == 1
    decreases |uses|
  {
    assert forall j :: 0 < j < |uses| ==> uses[1..][j - 1] == uses[j];
    if k == 0 { NoOccurrence(uses[1..], v); } else { OccursOnce(uses[1..], v, k - 1); }
  }

  /** Entering a block drops each variable's old value, then evaluates its default. */
  function Declare(ds: seq<Decl>, w: World, o: Oracle): (Option<int>, World)
    decreases |ds|
  {
    if ds == [] then (None, w)
    else
      var (raised, w1) := Evaluate(ds[0].uses, None, DoGet(w, ds[0].v), o);
      if raised.Some? then (raised, w1) else Declare(ds[1..], w1, o)
  }

  function Outward(out: Outcome): Outcome {
    match out
    case Out(d) => if d == 0 then Fall else Out(d - 1)
    case Again(d) => if d == 0 then Fall else Again(d - 1)
    case _ => out
  }

  /** `late`: an exception block evaluates its defaults inside its own frame, as compiled code does. */
  function Exec(late: bool, s: Stmt, f: Flags, w: World, o: Oracle, fuel: nat): (r: (Outcome, World))
    decreases fuel, s, 1
  {
    match s
    case Eval(uses) =>
      var (raised, w1) := Evaluate(uses, None, w, o);
      (if raised.Some? then Raised(raised.value) else Fall, w1)
    case Assign(_, v, uses) =>
      var (raised, w1) := Evaluate(uses, Gives(s, f), w, o);
      if raised.Some? then (Raised(raised.value), w1) else (Fall, DoGet(w1, v))
    case If(cond, t, e) =>
      var (raised, w1) := Evaluate(cond, None, w, o);
      if raised.Some? then (Raised(raised.value), w1) else ExecAll(late, if o(w.pos).yes then t else e, f, w1, o, fuel)
    case Loop(cond, b) => Iterate(late, cond, b, f, w, o, fuel)
    case Leave(isExit, d) => (if isExit then Out(d) else Again(d), w)
    case Return(uses) =>
      var (raised, w1) := Evaluate(uses, None, w, o);
      (if raised.Some? then Raised(raised.value) else Ret, w1)
    case Block(ds, b) =>
      var (raised, w1) := Declare(ds, w, o);
      if raised.Some? then (Raised(raised.value), w1)
      else var (out, w2) := ExecAll(late, b, f, w1, o, fuel); (Outward(out), w2)
    case Try(ds, b, hs) =>
      var (raised, w1) := Declare(ds, w, o);
      if raised.Some? && !late then (Raised(raised.value), w1)
      else
        var (out, w2) := if raised.Some? then (Raised(raised.value), w1) else ExecAll(late, b, f, w1, o, fuel);
        if !out.Raised? then (Outward(out), w2)
        else var (out', w3) := Handle(late, hs, out.code, f, w2, o, fuel); (Outward(out'), w3)
  }

  /** The first handler that names the error. */
  function Handle(late: bool, hs: Handlers, code: int, f: Flags, w: World, o: Oracle, fuel: nat): (r: (Outcome, World))
    decreases fuel, hs, 0
  {
    if hs.NoMore? then (Raised(code), w)
    else if code in hs.codes then ExecAll(late, hs.action, f, w, o, fuel)
    else Handle(late, hs.rest, code, f, w, o, fuel)
  }

  function ExecAll(late: bool, ss: Stmts, f: Flags, w: World, o: Oracle, fuel: nat): (r: (Outcome, World))
    decreases fuel, ss, 0
  {
    if ss.Nil? then (Fall, w)
    else
      var (out, w1) := Exec(late, ss.head, f, w, o, fuel);
      if out.Fall? then ExecAll(late, ss.tail, f, w1, o, fuel) else (out, w1)
  }

  function Iterate(late: bool, cond: seq<nat>, b: Stmts, f: Flags, w: World, o: Oracle,
                   fuel: nat): (r: (Outcome, World))
    decreases fuel, b, 1
  {
    if fuel == 0 then (OutOfFuel, w)
    else
      var (raised, w1) := Evaluate(cond, None, w, o);
      if raised.Some? then (Raised(raised.value), w1)
      else if !o(w.pos).yes then (Fall, w1)
      else
        var (out, w2) := ExecAll(late, b, f, w1, o, fuel);
        if out.Fall? || out == Again(0) then Iterate(late, cond, b, f, w2, o, fuel - 1)
        else (Outward(out), w2)
  }

  // ---- scoping ----

  predicate Sees(uses: seq<nat>, scope: set<nat>) { forall k :: 0 <= k < |uses| ==> uses[k] in scope }

  /** A default reads what was in scope before its variable; a declared variable is a new one. */
  predicate DeclsScoped(ds: seq<Decl>, scope: set<nat>)
    decreases |ds|
  {
    ds == [] || (ds[0].v !in scope && Sees(ds[0].uses, scope) && DeclsScoped(ds[1..], scope + {ds[0].v}))
  }

  /** Every variable read or assigned is in scope. */
  predicate Scoped(s: Stmt, scope: set<nat>) {
    match s
    case Eval(uses) => Sees(uses, scope)
    case Assign(_, v, uses) => v in scope && Sees(uses, scope)
    case If(c, t, e) => Sees(c, scope) && AllScoped(t, scope) && AllScoped(e, scope)
    case Loop(c, b) => Sees(c, scope) && AllScoped(b, scope)
    case Leave(_, _) => true
    case Return(uses) => Sees(uses, scope)
    case Block(ds, b) => DeclsScoped(ds, scope) && AllScoped(b, scope + Vars(ds))
    case Try(ds, b, hs) =>
      DeclsScoped(ds, scope) && AllScoped(b, scope + Vars(ds)) && HandlersScoped(hs, scope + Vars(ds))
  }

  predicate AllScoped(ss: Stmts, scope: set<nat>) {
    ss.Cons? ==> Scoped(ss.head, scope) && AllScoped(ss.tail, scope)
  }

  predicate HandlersScoped(hs: Handlers, scope: set<nat>) {
    hs.When? ==> AllScoped(hs.action, scope) && HandlersScoped(hs.rest, scope)
  }

  // ---- no handed-away value is read ----

  /** Nothing in scope lacks its value, and none lacking it was read. */
  predicate Sound(w: World, scope: set<nat>) { !w.bad && w.gone !! scope }

  /** After a statement: as before it, except that an error may leave locals without a value. */
  predicate Leaves(out: Outcome, w: World, scope: set<nat>, locals: set<nat>) {
    !w.bad && if out.Raised? then w.gone * scope <= locals else w.gone !! scope
  }

  lemma {:induction false} ReadsSound(uses: seq<nat>, give: Option<nat>, w: World, scope: set<nat>)
    requires Sees(uses, scope) && !w.bad && w.gone !! (set u <- uses)
    requires give.Some? ==> Occurrences(uses, give.value) <= 1
    ensures var r := Reads(uses, give, w);
      !r.bad && w.gone <= r.gone <= w.gone + (if give.Some? then {give.value} else {})
    decreases |uses|
  {
    if uses != [] {
      var w1 := if give == Some(uses[0]) then DoGive(DoRead(w, uses[0]), uses[0]) else DoRead(w, uses[0]);
      assert forall k :: 0 <= k < |uses[1..]| ==> uses[1..][k] == uses[k + 1];
      if give == Some(uses[0]) { NoOccurrence(uses[1..], uses[0]); }
      assert uses[0] in uses;
      ReadsSound(uses[1..], give, w1, scope);
    }
  }

  lemma {:induction false} NoOccurrence(uses: seq<nat>, v: nat)
    ensures Occurrences(uses, v) == 0 <==> v !in uses
  {
    if uses != [] { NoOccurrence(uses[1..], v); }
  }

  lemma {:induction false} PrefixOccurrences(uses: seq<nat>, n: nat, v: nat)
    requires n <= |uses|
    ensures Occurrences(uses[..n], v) <= Occurrences(uses, v)
  {
    if n > 0 {
      assert uses[..n][1..] == uses[1..][..n - 1];
      PrefixOccurrences(uses[1..], n - 1, v);
    }
  }

  lemma EvaluateSound(uses: seq<nat>, give: Option<nat>, w: World, o: Oracle, scope: set<nat>)
    requires Sees(uses, scope) && Sound(w, scope) && (give.Some? ==> Occurrences(uses, give.value) <= 1)
    ensures var (_, r) := Evaluate(uses, give, w, o);
      !r.bad && w.gone <= r.gone <= w.gone + (if give.Some? then {give.value} else {})
  {
    var f := o(w.pos);
    var n := if f.raisesAfter.Some? && f.raisesAfter.value < |uses| then f.raisesAfter.value else |uses|;
    if give.Some? { PrefixOccurrences(uses, n, give.value); }
    ReadsSound(uses[..n], give, w.(pos := w.pos + 1), scope);
  }

  lemma {:induction false} DeclareSound(ds: seq<Decl>, w: World, o: Oracle, scope: set<nat>)
    requires DeclsScoped(ds, scope) && Sound(w, scope)
    ensures var (raised, r) := Declare(ds, w, o); Sound(r, if raised.Some? then scope else scope + Vars(ds))
    ensures Vars(ds) !! scope
    decreases |ds|
  {
    if ds != [] {
      var d := ds[0];
      assert Vars(ds) == {d.v} + Vars(ds[1..]) by {
        assert forall k :: 0 <= k < |ds[1..]| ==> ds[1..][k] == ds[k + 1];
      }
      var w0 := DoGet(w, d.v);
      EvaluateSound(d.uses, None, w0, o, scope);
      var (raised, w1) := Evaluate(d.uses, None, w0, o);
      DeclareSound(ds[1..], if raised.Some? then w0 else w1, o, scope + {d.v});
      assert scope + Vars(ds) == scope + {d.v} + Vars(ds[1..]);
    }
  }

  lemma {:induction false} DeclareShrinks(ds: seq<Decl>, w: World, o: Oracle, scope: set<nat>)
    requires DeclsScoped(ds, scope) && Sound(w, scope)
    ensures Declare(ds, w, o).1.gone <= w.gone
    decreases |ds|
  {
    if ds != [] {
      var w0 := DoGet(w, ds[0].v);
      EvaluateSound(ds[0].uses, None, w0, o, scope);
      var (raised, w1) := Evaluate(ds[0].uses, None, w0, o);
      if raised.None? { DeclareShrinks(ds[1..], w1, o, scope + {ds[0].v}); }
    }
  }

  /** Variables declared by exception blocks are those in kept; no other block declares one. */
  predicate Apart(s: Stmt, kept: set<nat>) {
    match s
    case If(_, t, e) => AllApart(t, kept) && AllApart(e, kept)
    case Loop(_, b) => AllApart(b, kept)
    case Block(ds, b) => Vars(ds) !! kept && AllApart(b, kept)
    case Try(ds, b, hs) => Vars(ds) <= kept && AllApart(b, kept) && HandlersApart(hs, kept)
    case _ => true
  }

  predicate AllApart(ss: Stmts, kept: set<nat>) { ss.Cons? ==> Apart(ss.head, kept) && AllApart(ss.tail, kept) }
  predicate HandlersApart(hs: Handlers, kept: set<nat>) {
    hs.When? ==> AllApart(hs.action, kept) && HandlersApart(hs.rest, kept)
  }

  /** What a statement may rely on. */
  predicate Context(scope: set<nat>, locals: set<nat>, kept: set<nat>, w: World) {
    Sound(w, scope) && locals <= scope && locals !! kept && w.gone !! kept
  }

  lemma {:induction false} ExecSound(late: bool, s: Stmt, f: Flags, w: World, o: Oracle, fuel: nat, scope: set<nat>,
                                     locals: set<nat>, kept: set<nat>)
    requires Scoped(s, scope) && Marked(s, locals, f) && Apart(s, kept) && Context(scope, locals, kept, w)
    ensures var (out, r) := Exec(late, s, f, w, o, fuel); Leaves(out, r, scope, locals) && r.gone !! kept
    decreases fuel, s, 1
  {
    match s
    case Eval(uses) => EvaluateSound(uses, None, w, o, scope);
    case Assign(_, v, uses) => EvaluateSound(uses, Gives(s, f), w, o, scope);
    case If(cond, t, e) =>
      EvaluateSound(cond, None, w, o, scope);
      var (raised, w1) := Evaluate(cond, None, w, o);
      if raised.None? { AllSound(late, if o(w.pos).yes then t else e, f, w1, o, fuel, scope, locals, kept); }
    case Loop(cond, b) => IterateSound(late, cond, b, f, w, o, fuel, scope, locals, kept);
    case Leave(_, _) =>
    case Return(uses) => EvaluateSound(uses, None, w, o, scope);
    case Block(ds, b) =>
      DeclareSound(ds, w, o, scope);
      DeclareShrinks(ds, w, o, scope);
      var (raised, w1) := Declare(ds, w, o);
      if raised.None? { AllSound(late, b, f, w1, o, fuel, scope + Vars(ds), locals + Vars(ds), kept); }
    case Try(_, _, _) => TrySound(late, s, f, w, o, fuel, scope, locals, kept);
  }

  lemma {:induction false} TrySound(late: bool, s: Stmt, f: Flags, w: World, o: Oracle, fuel: nat, scope: set<nat>,
                                    locals: set<nat>, kept: set<nat>)
    requires s.Try? && Scoped(s, scope) && Marked(s, locals, f) && Apart(s, kept) && Context(scope, locals, kept, w)
    ensures var (out, r) := Exec(late, s, f, w, o, fuel); Leaves(out, r, scope, locals) && r.gone !! kept
    decreases fuel, s, 0
  {
    var inner := scope + Vars(s.vars);
    DeclareSound(s.vars, w, o, scope);
    DeclareShrinks(s.vars, w, o, scope);
    var (raised, w1) := Declare(s.vars, w, o);
    if !(raised.Some? && !late) {
      var (out, w2) := if raised.Some? then (Raised(raised.value), w1) else ExecAll(late, s.protected, f, w1, o, fuel);
      if raised.None? { AllSound(late, s.protected, f, w1, o, fuel, inner, {}, kept); }
      if out.Raised? {
        HandleSound(late, s.handlers, out.code, f, w2, o, fuel, inner, kept);
        var (out', r) := Handle(late, s.handlers, out.code, f, w2, o, fuel);
        assert r.gone * scope <= r.gone * inner;
        assert Exec(late, s, f, w, o, fuel) == (Outward(out'), r);
      }
    }
  }

  lemma {:induction false} HandleSound(late: bool, hs: Handlers, code: int, f: Flags, w: World, o: Oracle, fuel: nat,
                                       scope: set<nat>, kept: set<nat>)
    requires HandlersScoped(hs, scope) && HandlersMarked(hs, f) && HandlersApart(hs, kept)
    requires Context(scope, {}, kept, w)
    ensures var (out, r) := Handle(late, hs, code, f, w, o, fuel); Leaves(out, r, scope, {}) && r.gone !! kept
    decreases fuel, hs, 0
  {
    if hs.When? {
      if code in hs.codes { AllSound(late, hs.action, f, w, o, fuel, scope, {}, kept); }
      else { HandleSound(late, hs.rest, code, f, w, o, fuel, scope, kept); }
    }
  }

  lemma {:induction false} AllSound(late: bool, ss: Stmts, f: Flags, w: World, o: Oracle, fuel: nat, scope: set<nat>,
                                    locals: set<nat>, kept: set<nat>)
    requires AllScoped(ss, scope) && AllMarked(ss, locals, f) && AllApart(ss, kept) && Context(scope, locals, kept, w)
    ensures var (out, r) := ExecAll(late, ss, f, w, o, fuel); Leaves(out, r, scope, locals) && r.gone !! kept
    decreases fuel, ss, 0
  {
    if ss.Cons? {
      ExecSound(late, ss.head, f, w, o, fuel, scope, locals, kept);
      var (out, w1) := Exec(late, ss.head, f, w, o, fuel);
      if out.Fall? { AllSound(late, ss.tail, f, w1, o, fuel, scope, locals, kept); }
    }
  }

  lemma {:induction false} IterateSound(late: bool, cond: seq<nat>, b: Stmts, f: Flags, w: World, o: Oracle, fuel: nat,
                                        scope: set<nat>, locals: set<nat>, kept: set<nat>)
    requires Sees(cond, scope) && AllScoped(b, scope) && AllMarked(b, locals, f) && AllApart(b, kept)
    requires Context(scope, locals, kept, w)
    ensures var (out, r) := Iterate(late, cond, b, f, w, o, fuel); Leaves(out, r, scope, locals) && r.gone !! kept
    decreases fuel, b, 1
  {
    if fuel > 0 {
      EvaluateSound(cond, None, w, o, scope);
      var (raised, w1) := Evaluate(cond, None, w, o);
      if raised.None? && o(w.pos).yes {
        AllSound(late, b, f, w1, o, fuel, scope, locals, kept);
        var (out, w2) := ExecAll(late, b, f, w1, o, fuel);
        if out.Fall? || out == Again(0) { IterateSound(late, cond, b, f, w2, o, fuel - 1, scope, locals, kept); }
      }
    }
  }

  /** A function over its parameters and the variables known everywhere in it. */
  predicate WellFormed(body: Stmt, args: set<nat>, others: set<nat>, kept: set<nat>) {
    Scoped(body, args + others) && Apart(body, kept) && args !! kept
  }

  const Start: World := World(0, {}, false, [])

  /** In every run of a marked function no variable is read between having its value handed away and
      being given one again; and unless the function raises, its parameters and the outer variables
      have their values at the end. */
  lemma NoLostRead(late: bool, body: Stmt, f: Flags, o: Oracle, fuel: nat, args: set<nat>, others: set<nat>,
                   kept: set<nat>)
    requires WellFormed(body, args, others, kept) && Marked(body, args, f)
    ensures var (out, w) := Exec(late, body, f, Start, o, fuel); !w.bad && (!out.Raised? ==> w.gone !! args + others)
  {
    ExecSound(late, body, f, Start, o, fuel, args + others, args, kept);
  }

  // ---- functions without exception blocks ----

  predicate NoTry(s: Stmt) {
    match s
    case If(_, t, e) => AllNoTry(t) && AllNoTry(e)
    case Loop(_, b) => AllNoTry(b)
    case Block(_, b) => AllNoTry(b)
    case Try(_, _, _) => false
    case _ => true
  }

  predicate AllNoTry(ss: Stmts) { ss.Cons? ==> NoTry(ss.head) && AllNoTry(ss.tail) }

  /** With every flag set, as parsing leaves them, all targets count as local. */
  ghost predicate AllSet(f: Flags, ids: set<nat>) { forall id <- ids :: Flag(f, id) }

  lemma {:induction false} UnmarkedIsMarked(s: Stmt, scope: set<nat>, f: Flags)
    requires NoTry(s) && Scoped(s, scope) && AllSet(f, Ids(s))
    ensures Marked(s, scope, f) && Apart(s, {})
    decreases s
  {
    match s
    case If(_, t, e) => AllUnmarked(t, scope, f); AllUnmarked(e, scope, f);
    case Loop(_, b) => AllUnmarked(b, scope, f);
    case Block(ds, b) => AllUnmarked(b, scope + Vars(ds), f);
    case _ =>
  }

  lemma {:induction false} AllUnmarked(ss: Stmts, scope: set<nat>, f: Flags)
    requires AllNoTry(ss) && AllScoped(ss, scope) && AllSet(f, AllIds(ss))
    ensures AllMarked(ss, scope, f) && AllApart(ss, {})
    decreases ss
  {
    if ss.Cons? { UnmarkedIsMarked(ss.head, scope, f); AllUnmarked(ss.tail, scope, f); }
  }

  /** A function without exception blocks needs no marking walk. */
  lemma NoLostReadUnmarked(late: bool, body: Stmt, f: Flags, o: Oracle, fuel: nat, scope: set<nat>)
    requires NoTry(body) && Scoped(body, scope) && AllSet(f, Ids(body))
    ensures !Exec(late, body, f, Start, o, fuel).1.bad
  {
    UnmarkedIsMarked(body, scope, f);
    ExecSound(late, body, f, Start, o, fuel, scope, scope, {});
  }

  /** Leaving the flags as parsed is wrong as soon as an exception block assigns an outer variable
      from itself and its handler reads it. */
  lemma MarkingNeeded(late: bool, v: nat, f: Flags)
    requires Flag(f, 0)
    ensures var body := Try([], Cons(Assign(0, v, [v]), Nil), When({0}, Cons(Eval([v]), Nil), NoMore));
      exists o: Oracle :: Exec(late, body, f, Start, o, 0).1.bad
  {
    var t, h := Assign(0, v, [v]), Eval([v]);
    var o: Oracle := p => Fate(if p == 0 then Some(1) else None, 0, true);
    var body := Try([], Cons(t, Nil), When({0}, Cons(h, Nil), NoMore));
    assert Occurrences([v], v) == 1;
    assert [v][..1] == [v] && [v][1..] == [];
    var w1 := DoGive(DoRead(World(1, {}, false, []), v), v);
    assert Reads([v], Some(v), World(1, {}, false, [])) == Reads([], Some(v), w1) == w1;
    assert Exec(late, t, f, Start, o, 0) == (Raised(0), w1);
    assert ExecAll(late, Cons(t, Nil), f, Start, o, 0) == (Raised(0), w1);
    assert v in w1.gone;
    assert Reads([v], None, w1.(pos := 2)) == Reads([], None, DoRead(w1.(pos := 2), v));
    assert Exec(late, h, f, w1, o, 0).1.bad;
    assert ExecAll(late, Cons(h, Nil), f, w1, o, 0).1.bad;
    assert Handle(late, body.handlers, 0, f, w1, o, 0).1.bad;
    assert Exec(late, body, f, Start, o, 0).1.bad;
  }
}
