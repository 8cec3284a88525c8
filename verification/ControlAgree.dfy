/** The compiled and the interpreted reading of a function: where they agree, and where they part. */
module ControlAgree {
  import opened Cfg
  import opened ControlRef
  import opened ControlEffects

  /** Left by RETURN or for a construct outside. */
  predicate Outgoing(out: Outcome) { out.Ret? || out.JumpTo? }

  // ---- row loops further out ----

  /** Row loops opened before w have had a row in w1 exactly if they had in w; but for loop `own`. */
  ghost predicate KeepsRows(w: World, w1: World, own: Option<nat>) {
    w.next <= w1.next && forall p :: p < w.next && own != Some(p) ==> (p in w1.rows <==> p in w.rows)
  }

  lemma {:induction false} RowsKept(late: bool, s: Stmt, g: seq<Target>, w: World, o: Oracle, fuel: nat)
    ensures KeepsRows(w, Exec(late, s, g, w, o, fuel).1, None)
    decreases fuel, s, 2
  {
    hide ExecAll, Iterate, Inits;
    match s
    case If(t, e) =>
      if !o(w.pos).Fails? { AllRowsKept(late, if o(w.pos).yes then t else e, g, Ask(w), o, fuel); }
    case Loop(kind, lab, body) =>
      if !kind.Rows? { IterateRowsKept(late, kind, lab, body, g, 0, w, o, fuel); }
      else { IterateRowsKept(late, kind, lab, body, g, w.next, Opening(w), o, fuel); }
    case Block(lab, ds, body) => AllRowsKept(late, body, Inside(g, lab), Inits(ds, w, o).1, o, fuel);
    case Try(_, _, _, _) => TryRowsKept(late, s, g, w, o, fuel);
    case _ =>
  }

  lemma {:induction false} TryRowsKept(late: bool, s: Stmt, g: seq<Target>, w: World, o: Oracle, fuel: nat)
    requires s.Try?
    ensures KeepsRows(w, Exec(late, s, g, w, o, fuel).1, None)
    decreases fuel, s, 1
  {
    hide Exec, ExecAll, Inits;
    TryIs(late, s, g, w, o, fuel);
    var (ini, w0) := if late then (Fall, w) else Inits(s.inits, w, o);
    var w1 := if late then Inits(s.inits, Framed(w0), o).1 else Framed(w0);
    AllRowsKept(late, s.body, Inside(g, s.lab), w1, o, fuel);
    var (out, w2) := Protected(late, s, g, Framed(w0), o, fuel);
    if out.Raise? && FirstMatch(s.handlers, out.code).Some? {
      var action := Action(s.handlers, FirstMatch(s.handlers, out.code).value);
      AllRowsKept(late, action, Inside(g, s.lab), Log(w2, Caught(w.next)), o, fuel);
    }
  }

  lemma {:induction false} AllRowsKept(late: bool, ss: Stmts, g: seq<Target>, w: World, o: Oracle, fuel: nat)
    ensures KeepsRows(w, ExecAll(late, ss, g, w, o, fuel).1, None)
    decreases fuel, ss, 0
  {
    hide Exec;
    if ss.Cons? {
      RowsKept(late, ss.head, g, w, o, fuel);
      AllRowsKept(late, ss.tail, g, Exec(late, ss.head, g, w, o, fuel).1, o, fuel);
    }
  }

  lemma {:induction false} IterateRowsKept(late: bool, kind: LoopKind, lab: Option<string>, body: Stmts,
                                           g: seq<Target>, p: nat, w: World, o: Oracle, fuel: nat)
    ensures KeepsRows(w, Iterate(late, kind, lab, body, g, p, w, o, fuel).1, if kind.Rows? then Some(p) else None)
    decreases fuel, body, 1
  {
    hide ExecAll;
    if fuel > 0 {
      var w0, g1 := Passing(kind, p, w), [Target(lab, true)] + g;
      AllRowsKept(late, body, g1, w0, o, fuel);
      IterateRowsKept(late, kind, lab, body, g, p, ExecAll(late, body, g1, w0, o, fuel).1, o, fuel - 1);
    }
  }

  // ---- calm runs ----

  /** In the interpreted run no initialiser of an exception block raises an error the block's own handlers match,
      and no row loop is left by RETURN or for a construct outside it.  If `lasting`, moreover no exception block
      that evaluated an initialiser handles an error of its body and ends normally. */
  predicate Calm(lasting: bool, s: Stmt, g: seq<Target>, w: World, o: Oracle, fuel: nat)
    decreases fuel, s, 2
  {
    match s
    case If(t, e) => o(w.pos).Fails? || CalmAll(lasting, if o(w.pos).yes then t else e, g, Ask(w), o, fuel)
    case Loop(kind, lab, body) =>
      if !kind.Rows? then CalmIterate(lasting, kind, lab, body, g, 0, w, o, fuel)
      else if o(w.pos).Fails? then true
      else
        && CalmIterate(lasting, kind, lab, body, g, w.next, Opening(w), o, fuel)
        && !Outgoing(Iterate(false, kind, lab, body, g, w.next, Opening(w), o, fuel).0)
    case Block(lab, ds, body) =>
      Inits(ds, w, o).0.Fall? ==> CalmAll(lasting, body, Inside(g, lab), Inits(ds, w, o).1, o, fuel)
    case Try(_, _, _, _) => CalmTry(lasting, s, g, w, o, fuel)
    case _ => true
  }

  predicate CalmTry(lasting: bool, s: Stmt, g: seq<Target>, w: World, o: Oracle, fuel: nat)
    requires s.Try?
    decreases fuel, s, 1
  {
    var (ini, w0) := Inits(s.inits, w, o);
    if !ini.Fall? then FirstMatch(s.handlers, ini.code).None?
    else
      var (out, w2) := ExecAll(false, s.body, Inside(g, s.lab), Framed(w0), o, fuel);
      && CalmAll(lasting, s.body, Inside(g, s.lab), Framed(w0), o, fuel)
      && (out.Raise? && FirstMatch(s.handlers, out.code).Some? ==>
            var action := Action(s.handlers, FirstMatch(s.handlers, out.code).value);
            var w3 := Log(w2, Caught(w0.next));
            && CalmAll(lasting, action, Inside(g, s.lab), w3, o, fuel)
            && (lasting && Normal(ExecAll(false, action, Inside(g, s.lab), w3, o, fuel).0) ==> !Evaluates(s.inits)))
  }

  predicate CalmAll(lasting: bool, ss: Stmts, g: seq<Target>, w: World, o: Oracle, fuel: nat)
    decreases fuel, ss, 0
  {
    ss.Cons? ==>
      && Calm(lasting, ss.head, g, w, o, fuel)
      && (Exec(false, ss.head, g, w, o, fuel).0.Fall? ==>
            CalmAll(lasting, ss.tail, g, Exec(false, ss.head, g, w, o, fuel).1, o, fuel))
  }

  predicate CalmIterate(lasting: bool, kind: LoopKind, lab: Option<string>, body: Stmts, g: seq<Target>, p: nat,
                        w: World, o: Oracle, fuel: nat)
    decreases fuel, body, 1
  {
    if fuel == 0 || (!kind.Plain? && o(w.pos) != Answer(true)) then true
    else
      var (out, w1) := ExecAll(false, body, [Target(lab, true)] + g, Passing(kind, p, w), o, fuel);
      && CalmAll(lasting, body, [Target(lab, true)] + g, Passing(kind, p, w), o, fuel)
      && (out.Fall? || out == JumpTo(false, 0) ==> CalmIterate(lasting, kind, lab, body, g, p, w1, o, fuel - 1))
  }

  /** Neither an error nor a cut. */
  predicate Normal(out: Outcome) { !out.Raise? && !out.OutOfFuel? }

  /** The same ending and effects and, if `lasting`, the same changes that last. */
  ghost predicate Agree(lasting: bool, w: World, r: (Outcome, World), v: World, q: (Outcome, World)) {
    Same(r, q) && (lasting ==> Lasts(w, r, v, q))
  }

  lemma AgreeThen(lasting: bool, w: World, w1: World, r: (Outcome, World), v: World, v1: World, q: (Outcome, World))
    requires Joint(w, w1, v, v1) && Agree(lasting, w1, r, v1, q)
    ensures Agree(lasting, w, r, v, q)
  {
    hide Joint, Lasts, Alike;
    if lasting { LastsThen(w, w1, r, v, v1, q); }
  }

  /** In a calm run the two readings do the same. */
  lemma {:induction false} CalmAgrees(lasting: bool, s: Stmt, g: seq<Target>, w: World, v: World, o: Oracle, fuel: nat)
    requires Alike(w, v) && Calm(lasting, s, g, v, o, fuel)
    ensures Agree(lasting, w, Exec(true, s, g, w, o, fuel), v, Exec(false, s, g, v, o, fuel))
    decreases fuel, s, 2
  {
    hide Effects, Levels, ExecAll, Iterate, CalmAll, CalmIterate, CalmTry, Inits, Joint, Over;
    NothingJoint(w, Ask(w), v, Ask(v));
    NothingJoint(w, w, v, v);
    match s
    case Do(id) => DidAgrees(w, v, id);
    case Return => ReturnedAgrees(w, v);
    case Leave(_, _, _) =>
    case If(t, e) =>
      if !o(v.pos).Fails? {
        var ss := if o(v.pos).yes then t else e;
        AllCalmAgrees(lasting, ss, g, Ask(w), Ask(v), o, fuel);
        AgreeThen(lasting, w, Ask(w), ExecAll(true, ss, g, Ask(w), o, fuel),
            v, Ask(v), ExecAll(false, ss, g, Ask(v), o, fuel));
      }
    case Loop(kind, lab, body) =>
      if !kind.Rows? { IterateCalmAgrees(lasting, kind, lab, body, g, 0, 0, w, v, o, fuel); }
      else if !o(v.pos).Fails? { RowsCalmAgrees(lasting, s, g, w, v, o, fuel); }
    case Block(lab, ds, body) =>
      InitsAgree(ds, w, v, o);
      var w1, v1 := Inits(ds, w, o).1, Inits(ds, v, o).1;
      if Inits(ds, v, o).0.Fall? {
        AllCalmAgrees(lasting, body, Inside(g, lab), w1, v1, o, fuel);
        AgreeThen(lasting, w, w1, ExecAll(true, body, Inside(g, lab), w1, o, fuel),
            v, v1, ExecAll(false, body, Inside(g, lab), v1, o, fuel));
      }
    case Try(_, _, _, _) => TryCalmAgrees(lasting, s, g, w, v, o, fuel);
  }

  lemma DidAgrees(w: World, v: World, id: nat)
    requires Alike(w, v)
    ensures Alike(Log(Ask(w), Did(id)), Log(Ask(v), Did(id)))
    ensures Joint(w, Log(Ask(w), Did(id)), v, Log(Ask(v), Did(id)))
  {
    hide Effects, Levels;
    LogAlike(Ask(w), Ask(v), Did(id));
    LevelsLog(Ask(w), Did(id));
    LevelsLog(Ask(v), Did(id));
    assert Adds(w, Log(Ask(w), Did(id)), [Did(id)]) && Adds(v, Log(Ask(v), Did(id)), [Did(id)]);
  }

  lemma ReturnedAgrees(w: World, v: World)
    requires Alike(w, v)
    ensures Alike(Log(Ask(w), Returned), Log(Ask(v), Returned))
    ensures Joint(w, Log(Ask(w), Returned), v, Log(Ask(v), Returned))
  {
    hide Effects, Levels;
    LogAlike(Ask(w), Ask(v), Returned);
    LevelsLog(Ask(w), Returned);
    LevelsLog(Ask(v), Returned);
    NothingJoint(w, Log(Ask(w), Returned), v, Log(Ask(v), Returned));
  }

  lemma {:induction false} AllCalmAgrees(lasting: bool, ss: Stmts, g: seq<Target>, w: World, v: World, o: Oracle,
                                         fuel: nat)
    requires Alike(w, v) && CalmAll(lasting, ss, g, v, o, fuel)
    ensures Agree(lasting, w, ExecAll(true, ss, g, w, o, fuel), v, ExecAll(false, ss, g, v, o, fuel))
    decreases fuel, ss, 0
  {
    hide Effects, Levels, Exec, Calm, Joint, Over;
    NothingJoint(w, w, v, v);
    if ss.Cons? {
      CalmAgrees(lasting, ss.head, g, w, v, o, fuel);
      var (_, w1) := Exec(true, ss.head, g, w, o, fuel);
      var (out, v1) := Exec(false, ss.head, g, v, o, fuel);
      if out.Fall? {
        AllCalmAgrees(lasting, ss.tail, g, w1, v1, o, fuel);
        if lasting {
          LastsThen(w, w1, ExecAll(true, ss.tail, g, w1, o, fuel), v, v1, ExecAll(false, ss.tail, g, v1, o, fuel));
        }
      }
    }
  }

  /** Both loops have had a row, or neither. */
  predicate SameRows(kind: LoopKind, p: nat, w: World, p': nat, v: World) {
    kind.Rows? ==> p < w.next && p' < v.next && (p in w.rows <==> p' in v.rows)
  }

  lemma PassKeeps(late: bool, p: nat, body: Stmts, g: seq<Target>, w: World, o: Oracle, fuel: nat)
    requires p < w.next
    ensures var w1 := ExecAll(late, body, g, w, o, fuel).1; p < w1.next && (p in w1.rows <==> p in w.rows)
  {
    hide ExecAll;
    AllRowsKept(late, body, g, w, o, fuel);
  }

  /** One pass. */
  lemma {:induction false} PassAgrees(lasting: bool, kind: LoopKind, body: Stmts, g: seq<Target>, p: nat, p': nat,
                                      w: World, v: World, o: Oracle, fuel: nat)
    requires Alike(w, v) && CalmAll(lasting, body, g, Passing(kind, p', v), o, fuel) && SameRows(kind, p, w, p', v)
    ensures var r, q := ExecAll(true, body, g, Passing(kind, p, w), o, fuel), ExecAll(false, body, g,
        Passing(kind, p', v), o, fuel);
      Agree(lasting, w, r, v, q) && SameRows(kind, p, r.1, p', q.1)
    decreases fuel, body, 1
  {
    hide Effects, Levels, ExecAll, CalmAll, Joint, Over;
    var w0, v0 := Passing(kind, p, w), Passing(kind, p', v);
    NothingJoint(w, w0, v, v0);
    AllCalmAgrees(lasting, body, g, w0, v0, o, fuel);
    if kind.Rows? {
      PassKeeps(true, p, body, g, w0, o, fuel);
      PassKeeps(false, p', body, g, v0, o, fuel);
    }
    AgreeThen(lasting, w, w0, ExecAll(true, body, g, w0, o, fuel), v, v0, ExecAll(false, body, g, v0, o, fuel));
  }

  /** Loops with their own portals. */
  lemma {:induction false} IterateCalmAgrees(lasting: bool, kind: LoopKind, lab: Option<string>, body: Stmts,
                                             g: seq<Target>, p: nat, p': nat, w: World, v: World, o: Oracle, fuel: nat)
    requires Alike(w, v) && CalmIterate(lasting, kind, lab, body, g, p', v, o, fuel) && SameRows(kind, p, w, p', v)
    ensures var r, q := Iterate(true, kind, lab, body, g, p, w, o, fuel), Iterate(false, kind, lab, body, g, p', v, o,
        fuel);
      Agree(lasting, w, r, v, q) && (kind.Rows? ==> (p in r.1.rows <==> p' in q.1.rows))
    decreases fuel, body, 2
  {
    hide Effects, Levels, ExecAll, CalmAll, Joint, Over, Passing, Iterate, CalmIterate, Agree;
    if fuel > 0 && (kind.Plain? || o(v.pos) == Answer(true)) {
      var g1 := [Target(lab, true)] + g;
      IterateOnce(true, kind, lab, body, g, p, w, o, fuel);
      IterateOnce(false, kind, lab, body, g, p', v, o, fuel);
      CalmOnce(lasting, kind, lab, body, g, p', v, o, fuel);
      PassAgrees(lasting, kind, body, g1, p, p', w, v, o, fuel);
      var r := ExecAll(true, body, g1, Passing(kind, p, w), o, fuel);
      var q := ExecAll(false, body, g1, Passing(kind, p', v), o, fuel);
      AgreeSame(lasting, w, r, v, q);
      if q.0.Fall? || q.0 == JumpTo(false, 0) {
        IterateCalmAgrees(lasting, kind, lab, body, g, p, p', r.1, q.1, o, fuel - 1);
        AgreeAfter(lasting, w, r, Iterate(true, kind, lab, body, g, p, r.1, o, fuel - 1),
            v, q, Iterate(false, kind, lab, body, g, p', q.1, o, fuel - 1));
      } else {
        AgreeOutward(lasting, w, r, v, q);
      }
    } else {
      IterateEnds(lasting, kind, lab, body, g, p, p', w, v, o, fuel);
    }
  }

  lemma IterateOnce(late: bool, kind: LoopKind, lab: Option<string>, body: Stmts, g: seq<Target>, p: nat, w: World,
                    o: Oracle, fuel: nat)
    requires fuel > 0 && (kind.Plain? || o(w.pos) == Answer(true))
    ensures var (out, w1) := ExecAll(late, body, [Target(lab, true)] + g, Passing(kind, p, w), o, fuel);
      Iterate(late, kind, lab, body, g, p, w, o, fuel) ==
        if out.Fall? || out == JumpTo(false, 0) then Counted(Iterate(late, kind, lab, body, g, p, w1, o, fuel - 1))
        else (Outward(out), w1)
  {
    hide ExecAll, Passing;
  }

  lemma CalmOnce(lasting: bool, kind: LoopKind, lab: Option<string>, body: Stmts, g: seq<Target>, p: nat, v: World,
                 o: Oracle, fuel: nat)
    requires fuel > 0 && (kind.Plain? || o(v.pos) == Answer(true))
    requires CalmIterate(lasting, kind, lab, body, g, p, v, o, fuel)
    ensures var g1 := [Target(lab, true)] + g;
      var (out, v1) := ExecAll(false, body, g1, Passing(kind, p, v), o, fuel);
      && CalmAll(lasting, body, g1, Passing(kind, p, v), o, fuel)
      && (out.Fall? || out == JumpTo(false, 0) ==> CalmIterate(lasting, kind, lab, body, g, p, v1, o, fuel - 1))
  {
    hide ExecAll, CalmAll, Passing;
  }

  /** No further pass. */
  lemma IterateEnds(lasting: bool, kind: LoopKind, lab: Option<string>, body: Stmts, g: seq<Target>, p: nat, p': nat,
                    w: World, v: World, o: Oracle, fuel: nat)
    requires Alike(w, v) && !(fuel > 0 && (kind.Plain? || o(v.pos) == Answer(true)))
    ensures var r, q := Iterate(true, kind, lab, body, g, p, w, o, fuel), Iterate(false, kind, lab, body, g, p', v, o,
        fuel);
      Agree(lasting, w, r, v, q) && r.1.rows == w.rows && q.1.rows == v.rows
  {
    hide Effects, Levels, ExecAll, Joint, Over;
    NothingJoint(w, Ask(w), v, Ask(v));
  }

  /** One pass more after passes that agree. */
  lemma AgreeAfter(lasting: bool, w: World, r: (Outcome, World), r1: (Outcome, World), v: World, q: (Outcome, World),
                   q1: (Outcome, World))
    requires Agree(lasting, w, r, v, q) && Normal(q.0) && Agree(lasting, r.1, r1, q.1, q1)
    ensures Agree(lasting, w, Counted(r1), v, Counted(q1))
  {
    hide Effects, Levels, Joint, Over;
    if lasting { LastsThen(w, r.1, r1, v, q.1, q1); }
  }

  lemma AgreeOutward(lasting: bool, w: World, r: (Outcome, World), v: World, q: (Outcome, World))
    requires Agree(lasting, w, r, v, q)
    ensures Agree(lasting, w, (Outward(r.0), r.1), v, (Outward(q.0), q.1))
  {
    hide Effects, Levels, Joint, Over;
  }

  lemma OpeningAlike(w: World, v: World)
    requires Alike(w, v)
    ensures Alike(Opening(w), Opening(v)) && Joint(w, Opening(w), v, Opening(v))
  {
    hide Effects, Levels, Joint;
    var w1, v1 := Ask(w).(next := w.next + 1), Ask(v).(next := v.next + 1);
    UnseenAlike(w1, Opened(w.next));
    UnseenAlike(v1, Opened(v.next));
    LevelsLog(w1, Opened(w.next));
    LevelsLog(v1, Opened(v.next));
    NothingJoint(w, Opening(w), v, Opening(v));
  }

  /** Leaving a row loop shows the same exactly when it is not for outside. */
  lemma RowsLeftAlike(out: Outcome, p: nat, p': nat, w: World, v: World)
    requires Alike(w, v) && (p in w.rows <==> p' in v.rows)
    ensures !Outgoing(out) ==> Alike(RowsLeft(true, out, p, w), RowsLeft(false, out, p', v))
    ensures var found := Found(p' in v.rows);
      Outgoing(out) ==>
        Effects(RowsLeft(false, out, p', v).trace) == Effects(RowsLeft(true, out, p, w).trace) + [found]
  {
    hide Effects;
    var found := Found(p' in v.rows);
    EffectsLog(w, Closed(p));
    EffectsLog(Log(w, Closed(p)), found);
    EffectsLog(v, found);
    EffectsLog(Log(v, found), Closed(p'));
  }

  lemma RowsLeftStill(late: bool, out: Outcome, p: nat, w: World)
    ensures Levels(RowsLeft(late, out, p, w).trace) == Levels(w.trace) && RowsLeft(late, out, p, w).rows == w.rows
  {
    hide Levels;
    var found := Found(p in w.rows);
    LevelsLog(w, Closed(p));
    LevelsLog(Log(w, Closed(p)), found);
    LevelsLog(w, found);
    LevelsLog(Log(w, found), Closed(p));
  }

  lemma {:induction false} RowsCalmAgrees(lasting: bool, s: Stmt, g: seq<Target>, w: World, v: World, o: Oracle,
                                          fuel: nat)
    requires s.Loop? && s.kind.Rows? && !o(v.pos).Fails? && Alike(w, v) && Calm(lasting, s, g, v, o, fuel)
    ensures Agree(lasting, w, Exec(true, s, g, w, o, fuel), v, Exec(false, s, g, v, o, fuel))
    decreases fuel, s, 1
  {
    hide Effects, Levels, Iterate, CalmIterate, Joint, Over;
    OpeningAlike(w, v);
    IterateCalmAgrees(lasting, s.kind, s.lab, s.body, g, w.next, v.next, Opening(w), Opening(v), o, fuel);
    var r := Iterate(true, s.kind, s.lab, s.body, g, w.next, Opening(w), o, fuel);
    var q := Iterate(false, s.kind, s.lab, s.body, g, v.next, Opening(v), o, fuel);
    RowsLeftAlike(q.0, w.next, v.next, r.1, q.1);
    RowsLeftStill(true, r.0, w.next, r.1);
    RowsLeftStill(false, q.0, v.next, q.1);
    AgreeThen(lasting, w, Opening(w), r, v, Opening(v), q);
    if lasting {
      LastsStill(w, r, v, q, RowsLeft(true, r.0, w.next, r.1), RowsLeft(false, q.0, v.next, q.1));
    }
  }

  // ---- exception blocks ----

  /** The bodies' worlds when initialisation ends normally, inside the frame and before it. */
  lemma EnteredAlike(ds: seq<VarInit>, w: World, v: World, o: Oracle)
    requires Alike(w, v) && Inits(ds, v, o).0.Fall?
    ensures var w2, v0 := Inits(ds, Framed(w), o).1, Inits(ds, v, o).1;
      && Inits(ds, Framed(w), o).0.Fall? && Alike(w2, Framed(v0))
      && Levels(w2.trace) == [Ran(ds, v.pos, o)] + Levels(w.trace)
      && Levels(Framed(v0).trace) == [[]] + Levels(v0.trace) && Adds(v, v0, Ran(ds, v.pos, o))
  {
    hide Effects, Levels, Inits;
    var v0 := Inits(ds, v, o).1;
    InitsEnd(ds, Framed(w), v, o);
    InitsAre(ds, Framed(w), o);
    InitsAre(ds, v, o);
    FramedIs(w);
    FramedIs(v0);
    assert [] + Ran(ds, v.pos, o) == Ran(ds, v.pos, o);
  }

  lemma FramedIs(w: World)
    ensures Effects(Framed(w).trace) == Effects(w.trace) && Levels(Framed(w).trace) == [[]] + Levels(w.trace)
  {
    hide Effects, Levels;
    UnseenAlike(w.(next := w.next + 1), Pushed(w.next));
    LevelsLog(w.(next := w.next + 1), Pushed(w.next));
  }

  /** An error undoes what the frame had changed. */
  lemma CaughtIs(w: World, w2: World, r: World, f: nat)
    requires Levels(w2.trace)[1..] == Levels(w.trace) && Over(w2, r)
    ensures Levels(Log(r, Caught(f)).trace) == Levels(w.trace)
  {
    hide Levels;
    LevelsLog(r, Caught(f));
  }

  /** Left normally, a frame hands on what it has changed. */
  lemma ExitedIs(w: World, w2: World, r: World, f: nat, ran: seq<Event>, d: seq<Event>)
    requires Levels(w2.trace) == [ran] + Levels(w.trace) && Adds(w2, r, d)
    ensures Adds(w, Log(r, TryExited(f)), ran + d)
  {
    hide Levels;
    LevelsLog(r, TryExited(f));
    assert Levels(r.trace)[2..] == Levels(w.trace)[1..];
  }

  lemma BothExited(w: World, w2: World, r: World, f: nat, v: World, v0: World, q: World, f': nat, ran: seq<Event>)
    requires Levels(w2.trace) == [ran] + Levels(w.trace) && Levels(Framed(v0).trace) == [[]] + Levels(v0.trace)
    requires Adds(v, v0, ran) && Joint(w2, r, Framed(v0), q)
    ensures Joint(w, Log(r, TryExited(f)), v, Log(q, TryExited(f')))
  {
    hide Levels;
    var d :| Adds(w2, r, d) && Adds(Framed(v0), q, d);
    ExitedIs(w, w2, r, f, ran, d);
    ExitedIs(v0, Framed(v0), q, f', [], d);
    assert [] + d == d;
    AddsTrans(v, v0, Log(q, TryExited(f')), ran, d);
  }

  /** The handler's worlds: the compiled frame's initialisers are undone, the interpreter's are not. */
  ghost predicate Undone(w: World, w3: World, v: World, v3: World, ran: seq<Event>) {
    Levels(w3.trace) == Levels(w.trace) && Adds(v, v3, ran)
  }

  /** A handler, or none, from such worlds. */
  lemma HandleAgrees(lasting: bool, s: Stmt, f: nat, f': nat, code: int, g: seq<Target>, w: World, w3: World, v: World,
                     v3: World, ran: seq<Event>, o: Oracle, fuel: nat)
    requires s.Try? && Alike(w3, v3) && (lasting ==> Undone(w, w3, v, v3, ran))
    requires FirstMatch(s.handlers, code).Some? ==>
      var action := Action(s.handlers, FirstMatch(s.handlers, code).value);
      var r, q := ExecAll(true, action, Inside(g, s.lab), w3, o, fuel), ExecAll(false, action, Inside(g, s.lab), v3, o,
          fuel);
      Agree(lasting, w3, r, v3, q) && (lasting && Normal(q.0) ==> ran == [])
    ensures Agree(lasting, w, Handle(true, s, f, code, g, w3, o, fuel), v, Handle(false, s, f', code, g, v3, o, fuel))
  {
    hide Effects, Levels, ExecAll, Joint;
    var i := FirstMatch(s.handlers, code);
    if i.None? {
      UnseenAlike(w3, Rethrown(f));
      UnseenAlike(v3, Rethrown(f'));
      LevelsLog(w3, Rethrown(f));
      LevelsLog(v3, Rethrown(f'));
    } else {
      var action := Action(s.handlers, i.value);
      var r, q := ExecAll(true, action, Inside(g, s.lab), w3, o, fuel), ExecAll(false, action, Inside(g, s.lab), v3, o,
          fuel);
      UnseenAlike(r.1, HandlerDone(f));
      UnseenAlike(q.1, HandlerDone(f'));
      LevelsLog(r.1, HandlerDone(f));
      LevelsLog(q.1, HandlerDone(f'));
      if lasting && Normal(q.0) {
        NoneUndone(w, w3, v, v3);
        LastsThen(w, w3, r, v, v3, q);
        LastsStill(w, r, v, q, Log(r.1, HandlerDone(f)), Log(q.1, HandlerDone(f')));
      }
    }
  }

  lemma NoneUndone(w: World, w3: World, v: World, v3: World)
    requires Undone(w, w3, v, v3, [])
    ensures Joint(w, w3, v, v3)
  {
    hide Levels;
    NothingAdded(w, w3);
  }

  /** Bodies that agree, and a handler that then does, make blocks that agree. */
  lemma AfterAgrees(lasting: bool, s: Stmt, g: seq<Target>, w: World, v: World, r: (Outcome, World),
                    q: (Outcome, World), o: Oracle, fuel: nat)
    requires s.Try? && Alike(w, v) && Inits(s.inits, v, o).0.Fall?
    requires Agree(lasting, Inits(s.inits, Framed(w), o).1, r, Framed(Inits(s.inits, v, o).1), q)
    requires q.0.Raise? && FirstMatch(s.handlers, q.0.code).Some? ==>
      var action := Action(s.handlers, FirstMatch(s.handlers, q.0.code).value);
      var w3, v3 := Log(r.1, Caught(w.next)), Log(q.1, Caught(v.next));
      var r', q' := ExecAll(true, action, Inside(g, s.lab), w3, o, fuel), ExecAll(false, action, Inside(g, s.lab), v3,
          o, fuel);
      Agree(lasting, w3, r', v3, q') && (lasting && Normal(q'.0) ==> !Evaluates(s.inits))
    ensures Agree(lasting, w, AfterBody(true, s, w.next, g, r, o, fuel), v, AfterBody(false, s, v.next, g, q, o, fuel))
  {
    hide Effects, Levels, ExecAll, Joint, Handle, Inits, Over, Adds, Framed;
    var v0, w2, ran := Inits(s.inits, v, o).1, Inits(s.inits, Framed(w), o).1, Ran(s.inits, v.pos, o);
    EnteredAlike(s.inits, w, v, o);
    RanSome(s.inits, v, o);
    if q.0.Raise? {
      var w3, v3 := Log(r.1, Caught(w.next)), Log(q.1, Caught(v.next));
      UnseenAlike(r.1, Caught(w.next));
      UnseenAlike(q.1, Caught(v.next));
      if lasting { BothCaught(w, w2, r.1, w.next, v, v0, q.1, v.next, ran); }
      HandleAgrees(lasting, s, w.next, v.next, q.0.code, g, w, w3, v, v3, ran, o, fuel);
    } else if !q.0.OutOfFuel? {
      UnseenAlike(r.1, TryExited(w.next));
      UnseenAlike(q.1, TryExited(v.next));
      if lasting { BothExited(w, w2, r.1, w.next, v, v0, q.1, v.next, ran); }
    }
  }

  lemma BothCaught(w: World, w2: World, r: World, f: nat, v: World, v0: World, q: World, f': nat, ran: seq<Event>)
    requires Levels(w2.trace) == [ran] + Levels(w.trace) && Levels(Framed(v0).trace) == [[]] + Levels(v0.trace)
    requires Adds(v, v0, ran) && Over(w2, r) && Over(Framed(v0), q)
    ensures Undone(w, Log(r, Caught(f)), v, Log(q, Caught(f')), ran)
  {
    hide Levels;
    CaughtIs(w, w2, r, f);
    CaughtIs(v0, Framed(v0), q, f');
  }

  lemma {:induction false} TryCalmAgrees(lasting: bool, s: Stmt, g: seq<Target>, w: World, v: World, o: Oracle,
                                         fuel: nat)
    requires s.Try? && Alike(w, v) && CalmTry(lasting, s, g, v, o, fuel)
    ensures Agree(lasting, w, Exec(true, s, g, w, o, fuel), v, Exec(false, s, g, v, o, fuel))
    decreases fuel, s, 1
  {
    hide Exec, ExecAll, Calm, CalmAll, Handle, Effects, Levels, Inits, AfterBody, Joint, Over, Adds, Agree;
    TryIs(true, s, g, w, o, fuel);
    TryIs(false, s, g, v, o, fuel);
    if Inits(s.inits, v, o).0.Fall? {
      EnteredAlike(s.inits, w, v, o);
      var w2, v1 := Inits(s.inits, Framed(w), o).1, Framed(Inits(s.inits, v, o).1);
      AllCalmAgrees(lasting, s.body, Inside(g, s.lab), w2, v1, o, fuel);
      var r, q := ExecAll(true, s.body, Inside(g, s.lab), w2, o, fuel), ExecAll(false, s.body, Inside(g, s.lab), v1, o,
          fuel);
      AgreeSame(lasting, w2, r, v1, q);
      if q.0.Raise? && FirstMatch(s.handlers, q.0.code).Some? {
        UnseenAlike(r.1, Caught(w.next));
        UnseenAlike(q.1, Caught(v.next));
        AllCalmAgrees(lasting, Action(s.handlers, FirstMatch(s.handlers, q.0.code).value), Inside(g, s.lab),
            Log(r.1, Caught(w.next)), Log(q.1, Caught(v.next)), o, fuel);
      }
      AfterAgrees(lasting, s, g, w, v, r, q, o, fuel);
    } else {
      UncaughtInit(lasting, s, g, w, v, o, fuel);
    }
  }

  lemma AgreeSame(lasting: bool, w: World, r: (Outcome, World), v: World, q: (Outcome, World))
    requires Agree(lasting, w, r, v, q)
    ensures Same(r, q)
  {
  }

  /** The initialiser raises and no handler matches: the error goes on, either way. */
  lemma UncaughtInit(lasting: bool, s: Stmt, g: seq<Target>, w: World, v: World, o: Oracle, fuel: nat)
    requires s.Try? && Alike(w, v) && Inits(s.inits, v, o).0.Raise?
    requires FirstMatch(s.handlers, Inits(s.inits, v, o).0.code).None?
    ensures Agree(lasting, w, Exec(true, s, g, w, o, fuel), v, Exec(false, s, g, v, o, fuel))
  {
    hide Exec, ExecAll, Effects, Levels, Inits, FirstMatch;
    TryIs(true, s, g, w, o, fuel);
    TryIs(false, s, g, v, o, fuel);
    var w2, f := Inits(s.inits, Framed(w), o).1, w.next;
    InitsEnd(s.inits, v, Framed(w), o);
    InitsAre(s.inits, v, o);
    InitsAre(s.inits, Framed(w), o);
    FramedIs(w);
    UnseenAlike(w2, Caught(f));
    UnseenAlike(Log(w2, Caught(f)), Rethrown(f));
    LevelsLog(w2, Caught(f));
    LevelsLog(Log(w2, Caught(f)), Rethrown(f));
  }

  // ---- statements that are always calm ----

  /** No row loops, and no exception block that evaluates an initialiser. */
  predicate Simple(s: Stmt) {
    match s
    case If(t, e) => AllSimple(t) && AllSimple(e)
    case Loop(kind, _, body) => !kind.Rows? && AllSimple(body)
    case Block(_, _, body) => AllSimple(body)
    case Try(_, ds, body, hs) => !Evaluates(ds) && AllSimple(body) && HandlersSimple(hs)
    case _ => true
  }

  predicate AllSimple(ss: Stmts) { ss.Cons? ==> Simple(ss.head) && AllSimple(ss.tail) }
  predicate HandlersSimple(hs: Handlers) { hs.When? ==> AllSimple(hs.action) && HandlersSimple(hs.rest) }

  lemma {:induction false} ActionSimple(hs: Handlers, i: nat)
    requires HandlersSimple(hs) && i < Count(hs)
    ensures AllSimple(Action(hs, i))
    decreases hs
  {
    if i > 0 { ActionSimple(hs.rest, i - 1); }
  }

  /** Every run of such a statement is calm. */
  lemma {:induction false} SimpleCalm(lasting: bool, s: Stmt, g: seq<Target>, w: World, o: Oracle, fuel: nat)
    requires Simple(s)
    ensures Calm(lasting, s, g, w, o, fuel)
    decreases fuel, s, 1
  {
    hide Exec, ExecAll, Iterate, Inits, CalmAll, CalmIterate;
    match s
    case If(t, e) => if !o(w.pos).Fails? { AllSimpleCalm(lasting, if o(w.pos).yes then t else e, g, Ask(w), o, fuel); }
    case Loop(kind, lab, body) => IterateSimpleCalm(lasting, kind, lab, body, g, 0, w, o, fuel);
    case Block(lab, ds, body) => AllSimpleCalm(lasting, body, Inside(g, lab), Inits(ds, w, o).1, o, fuel);
    case Try(lab, ds, body, hs) =>
      NothingRaises(ds, w, o);
      AllSimpleCalm(lasting, body, Inside(g, lab), Framed(w), o, fuel);
      var (out, w2) := ExecAll(false, body, Inside(g, lab), Framed(w), o, fuel);
      if out.Raise? && FirstMatch(hs, out.code).Some? {
        var i := FirstMatch(hs, out.code).value;
        ActionSimple(hs, i);
        AllSimpleCalm(lasting, Action(hs, i), Inside(g, lab), Log(w2, Caught(w.next)), o, fuel);
      }
    case _ =>
  }

  lemma {:induction false} AllSimpleCalm(lasting: bool, ss: Stmts, g: seq<Target>, w: World, o: Oracle, fuel: nat)
    requires AllSimple(ss)
    ensures CalmAll(lasting, ss, g, w, o, fuel)
    decreases fuel, ss, 0
  {
    hide Exec, Calm;
    if ss.Cons? {
      SimpleCalm(lasting, ss.head, g, w, o, fuel);
      AllSimpleCalm(lasting, ss.tail, g, Exec(false, ss.head, g, w, o, fuel).1, o, fuel);
    }
  }

  lemma {:induction false} IterateSimpleCalm(lasting: bool, kind: LoopKind, lab: Option<string>, body: Stmts,
                                             g: seq<Target>, p: nat, w: World, o: Oracle, fuel: nat)
    requires AllSimple(body)
    ensures CalmIterate(lasting, kind, lab, body, g, p, w, o, fuel)
    decreases fuel, body, 1
  {
    hide ExecAll, CalmAll;
    if fuel > 0 {
      var w0, g1 := Passing(kind, p, w), [Target(lab, true)] + g;
      AllSimpleCalm(lasting, body, g1, w0, o, fuel);
      IterateSimpleCalm(lasting, kind, lab, body, g, p, ExecAll(false, body, g1, w0, o, fuel).1, o, fuel - 1);
    }
  }

  // ---- where the readings part: an initialiser that raises ----

  /** An initialiser of an exception block raises and one of the block's own handlers matches: interpreted,
      the error leaves the block at once; compiled, the handler runs. */
  lemma OwnHandlerRuns(s: Stmt, g: seq<Target>, w: World, o: Oracle, fuel: nat)
    requires s.Try? && Inits(s.inits, w, o).0.Raise? && FirstMatch(s.handlers, Inits(s.inits, w, o).0.code).Some?
    ensures Exec(false, s, g, w, o, fuel) == Inits(s.inits, w, o)
    ensures Effects(Exec(false, s, g, w, o, fuel).1.trace) == Effects(w.trace) + Ran(s.inits, w.pos, o)
    ensures var (ini, w2) := Inits(s.inits, Framed(w), o);
      var w3 := Log(w2, Caught(w.next));
      var action := Action(s.handlers, FirstMatch(s.handlers, Inits(s.inits, w, o).0.code).value);
      var (out, w4) := ExecAll(true, action, Inside(g, s.lab), w3, o, fuel);
      && ini == Inits(s.inits, w, o).0 && w3.pos == Inits(s.inits, w, o).1.pos
      && Effects(w3.trace) == Effects(w.trace) + Ran(s.inits, w.pos, o) && Levels(w3.trace) == Levels(w.trace)
      && Exec(true, s, g, w, o, fuel) ==
           if Normal(out) then (OutwardOf(s.lab, out), Log(w4, HandlerDone(w.next))) else (out, w4)
  {
    hide Exec, ExecAll, Effects, Levels, Inits, FirstMatch;
    TryIs(true, s, g, w, o, fuel);
    TryIs(false, s, g, w, o, fuel);
    InitsEnd(s.inits, w, Framed(w), o);
    InitsAre(s.inits, w, o);
    InitsAre(s.inits, Framed(w), o);
    FramedIs(w);
    UnseenAlike(Inits(s.inits, Framed(w), o).1, Caught(w.next));
    LevelsLog(Inits(s.inits, Framed(w), o).1, Caught(w.next));
  }

  /** A block whose first declaration has a default, and whose first handler does one thing: if the default
      raises an error the handler names, the compiled block does that thing and falls through, the
      interpreted one raises and does nothing. */
  lemma OwnHandlerCatches(lab: Option<string>, ds: seq<VarInit>, body: Stmts, codes: set<int>, id: nat, rest: Handlers,
                          g: seq<Target>, w: World, o: Oracle, fuel: nat)
    requires ds != [] && ds[0].Evaluated? && o(w.pos).Fails? && o(w.pos).code in codes && o(w.pos + 1).Answer?
    ensures var s := Try(lab, ds, body, When(codes, Cons(Do(id), Nil), rest));
      && Exec(false, s, g, w, o, fuel).0 == Raise(o(w.pos).code)
      && Effects(Exec(false, s, g, w, o, fuel).1.trace) == Effects(w.trace)
      && Exec(true, s, g, w, o, fuel).0 == Fall
      && Effects(Exec(true, s, g, w, o, fuel).1.trace) == Effects(w.trace) + [Did(id)]
  {
    hide Exec, ExecAll, Effects, Levels, Inits;
    var s := Try(lab, ds, body, When(codes, Cons(Do(id), Nil), rest));
    FirstRaises(ds, w, o);
    assert Ran(ds, w.pos, o) == [];
    OwnHandlerRuns(s, g, w, o, fuel);
    var w3 := Log(Inits(s.inits, Framed(w), o).1, Caught(w.next));
    OneDone(id, Inside(g, lab), w3, o, fuel);
    EffectsLog(Ask(w3), Did(id));
    EffectsLog(Log(Ask(w3), Did(id)), HandlerDone(w.next));
  }

  lemma OneDone(id: nat, g: seq<Target>, w: World, o: Oracle, fuel: nat)
    requires o(w.pos).Answer?
    ensures ExecAll(true, Cons(Do(id), Nil), g, w, o, fuel) == (Fall, Log(Ask(w), Did(id)))
    ensures ExecAll(false, Cons(Do(id), Nil), g, w, o, fuel) == (Fall, Log(Ask(w), Did(id)))
  {
  }

  /** Some error has a matching clause. */
  ghost predicate Catches(hs: Handlers) { exists code :: FirstMatch(hs, code).Some? }

  /** The readings of a statement list never part. */
  ghost predicate Steady(ss: Stmts, g: seq<Target>) {
    forall w, v, o, fuel :: Alike(w, v) ==>
      Agree(true, w, ExecAll(true, ss, g, w, o, fuel), v, ExecAll(false, ss, g, v, o, fuel))
  }

  ghost predicate HandlersSteady(hs: Handlers, g: seq<Target>) {
    hs.When? ==> Steady(hs.action, g) && HandlersSteady(hs.rest, g)
  }

  lemma {:induction false} ActionSteady(hs: Handlers, g: seq<Target>, i: nat)
    requires HandlersSteady(hs, g) && i < Count(hs)
    ensures Steady(Action(hs, i), g)
    decreases hs
  {
    if i > 0 { ActionSteady(hs.rest, g, i - 1); }
  }

  // ---- an oracle that always answers ----

  /** While the oracle answers, nothing raises. */
  ghost predicate Answers(o: Oracle, from: nat) { forall k :: from <= k ==> o(k).Answer? }

  ghost predicate Unraised(w: World, r: (Outcome, World)) { !r.0.Raise? && w.pos <= r.1.pos }

  lemma {:induction false} InitsAnswered(ds: seq<VarInit>, w: World, o: Oracle)
    requires Answers(o, w.pos)
    ensures Inits(ds, w, o).0.Fall?
    decreases |ds|
  {
    if ds != [] {
      if ds[0].NullInit? { InitsAnswered(ds[1..], w, o); }
      else { InitsAnswered(ds[1..], Log(Ask(w), Initialised(w.pos)), o); }
    }
  }

  lemma {:induction false} Answered(s: Stmt, g: seq<Target>, w: World, o: Oracle, fuel: nat)
    requires Answers(o, w.pos)
    ensures Unraised(w, Exec(true, s, g, w, o, fuel))
    decreases fuel, s, 2
  {
    match s
    case If(t, e) => AllAnswered(if o(w.pos).yes then t else e, g, Ask(w), o, fuel);
    case Loop(kind, lab, body) =>
      IterateAnswered(kind, lab, body, g, w.next, Opening(w), o, fuel);
      IterateAnswered(kind, lab, body, g, 0, w, o, fuel);
    case Block(lab, ds, body) =>
      InitsAnswered(ds, w, o);
      AllAnswered(body, Inside(g, lab), Inits(ds, w, o).1, o, fuel);
    case Try(lab, ds, body, _) =>
      InitsAnswered(ds, Framed(w), o);
      AllAnswered(body, Inside(g, lab), Inits(ds, Framed(w), o).1, o, fuel);
      TryIs(true, s, g, w, o, fuel);
    case _ =>
  }

  lemma {:induction false} AllAnswered(ss: Stmts, g: seq<Target>, w: World, o: Oracle, fuel: nat)
    requires Answers(o, w.pos)
    ensures Unraised(w, ExecAll(true, ss, g, w, o, fuel))
    decreases fuel, ss, 0
  {
    if ss.Cons? {
      Answered(ss.head, g, w, o, fuel);
      AllAnswered(ss.tail, g, Exec(true, ss.head, g, w, o, fuel).1, o, fuel);
    }
  }

  lemma {:induction false} IterateAnswered(kind: LoopKind, lab: Option<string>, body: Stmts, g: seq<Target>, p: nat,
                                           w: World, o: Oracle, fuel: nat)
    requires Answers(o, w.pos)
    ensures Unraised(w, Iterate(true, kind, lab, body, g, p, w, o, fuel))
    decreases fuel, body, 1
  {
    if fuel > 0 {
      var w0, g1 := Passing(kind, p, w), [Target(lab, true)] + g;
      AllAnswered(body, g1, w0, o, fuel);
      IterateAnswered(kind, lab, body, g, p, ExecAll(true, body, g1, w0, o, fuel).1, o, fuel - 1);
    }
  }

  /** The readings of an exception block always end alike with the same effects and lasting changes. */
  ghost predicate BlockSteady(s: Stmt, g: seq<Target>) {
    forall w, v, o, fuel :: Alike(w, v) ==>
      Agree(true, w, Exec(true, s, g, w, o, fuel), v, Exec(false, s, g, v, o, fuel))
  }

  /** Initialising inside or before the frame makes a difference to an exception block's ending, effects or lasting
      changes in some run exactly when it evaluates an initialiser and has a handler that catches something. */
  lemma InitialiseInsideFrame(s: Stmt, g: seq<Target>)
    requires s.Try? && Steady(s.body, Inside(g, s.lab)) && HandlersSteady(s.handlers, Inside(g, s.lab))
    ensures BlockSteady(s, g) <==> !Evaluates(s.inits) || !Catches(s.handlers)
  {
    hide Exec, ExecAll, Inits, Handle, Alike, Agree, Steady, HandlersSteady;
    if Evaluates(s.inits) && Catches(s.handlers) {
      BlockParts(s, g);
    } else {
      forall w, v, o, fuel | Alike(w, v)
        ensures Agree(true, w, Exec(true, s, g, w, o, fuel), v, Exec(false, s, g, v, o, fuel))
      {
        BlockAgrees(s, g, w, v, o, fuel);
      }
    }
  }

  lemma BlockParts(s: Stmt, g: seq<Target>)
    requires s.Try? && Evaluates(s.inits) && Catches(s.handlers)
    ensures !BlockSteady(s, g)
  {
    hide Exec, ExecAll, Inits, Lasts;
    var c :| FirstMatch(s.handlers, c).Some?;
    var w, o := World(0, 0, [], {}), (k: nat) => if k == 0 then Fails(c) else Answer(true);
    FirstRaises(s.inits, w, o);
    OwnHandlerRuns(s, g, w, o, 0);
    var w3 := Log(Inits(s.inits, Framed(w), o).1, Caught(0));
    AllAnswered(Action(s.handlers, FirstMatch(s.handlers, c).value), Inside(g, s.lab), w3, o, 0);
    assert Alike(w, w) && !Agree(true, w, Exec(true, s, g, w, o, 0), w, Exec(false, s, g, w, o, 0));
  }

  lemma BlockAgrees(s: Stmt, g: seq<Target>, w: World, v: World, o: Oracle, fuel: nat)
    requires s.Try? && Steady(s.body, Inside(g, s.lab)) && HandlersSteady(s.handlers, Inside(g, s.lab))
    requires Alike(w, v) && (!Evaluates(s.inits) || !Catches(s.handlers))
    ensures Agree(true, w, Exec(true, s, g, w, o, fuel), v, Exec(false, s, g, v, o, fuel))
  {
    hide Exec, ExecAll, Handle, Effects, Levels, Inits, AfterBody, HandlersSteady, FirstMatch, Joint, Over, Adds,
         Framed;
    TryIs(true, s, g, w, o, fuel);
    TryIs(false, s, g, v, o, fuel);
    if Inits(s.inits, v, o).0.Fall? {
      EnteredAlike(s.inits, w, v, o);
      var w2, v1 := Inits(s.inits, Framed(w), o).1, Framed(Inits(s.inits, v, o).1);
      var r, q := ExecAll(true, s.body, Inside(g, s.lab), w2, o, fuel), ExecAll(false, s.body, Inside(g, s.lab), v1, o,
          fuel);
      assert Agree(true, w2, r, v1, q);
      if q.0.Raise? && FirstMatch(s.handlers, q.0.code).Some? {
        ActionSteady(s.handlers, Inside(g, s.lab), FirstMatch(s.handlers, q.0.code).value);
        UnseenAlike(r.1, Caught(w.next));
        UnseenAlike(q.1, Caught(v.next));
      }
      AfterAgrees(true, s, g, w, v, r, q, o, fuel);
    } else if !Evaluates(s.inits) {
      NothingRaises(s.inits, v, o);
    } else {
      UncaughtInit(true, s, g, w, v, o, fuel);
    }
  }

  // ---- where the readings part: a handler undoes the initialisers ----

  /** In the interpreted run the body of an initialised exception block raises, a handler matches and ends. */
  predicate Handles(s: Stmt, g: seq<Target>, v: World, o: Oracle, fuel: nat)
    requires s.Try?
  {
    var (ini, v0) := Inits(s.inits, v, o);
    var (out, v2) := ExecAll(false, s.body, Inside(g, s.lab), Framed(v0), o, fuel);
    && ini.Fall? && out.Raise? && FirstMatch(s.handlers, out.code).Some?
    && HandlerNormal(s, out.code, g, Log(v2, Caught(v.next)), o, fuel)
  }

  predicate HandlerNormal(s: Stmt, code: int, g: seq<Target>, v3: World, o: Oracle, fuel: nat)
    requires s.Try? && FirstMatch(s.handlers, code).Some?
  {
    var action := Action(s.handlers, FirstMatch(s.handlers, code).value);
    Normal(ExecAll(false, action, Inside(g, s.lab), v3, o, fuel).0)
  }

  /** The body of an initialised exception block, over parts whose readings agree, raises an error that is handled:
      both readings end alike with the same effects in order.  What the handler changes lasts in both; what the
      initialisers changed lasts interpreted and is undone compiled.  So the same changes last exactly when no
      initialiser was evaluated. */
  lemma CaughtUndoes(s: Stmt, g: seq<Target>, w: World, v: World, o: Oracle, fuel: nat)
    requires s.Try? && Steady(s.body, Inside(g, s.lab)) && HandlersSteady(s.handlers, Inside(g, s.lab)) && Alike(w, v)
    requires Handles(s, g, v, o, fuel)
    ensures var r, q, ran := Exec(true, s, g, w, o, fuel), Exec(false, s, g, v, o, fuel), Ran(s.inits, v.pos, o);
      && Same(r, q) && (exists d :: Adds(w, r.1, d) && Adds(v, q.1, ran + d))
      && (Lasts(w, r, v, q) <==> !Evaluates(s.inits))
  {
    hide Exec, ExecAll, Handle, Effects, Levels, Inits, Steady, HandlersSteady, Adds, Over, Same, Alike, Joint, Undone,
         FirstMatch, HandlerNormal;
    var r, q, ran := Exec(true, s, g, w, o, fuel), Exec(false, s, g, v, o, fuel), Ran(s.inits, v.pos, o);
    RanSome(s.inits, v, o);
    var code, w3, v3 := HandlerStarts(s, g, w, v, o, fuel);
    HandlerEnds(s, w.next, v.next, code, g, w, w3, v, v3, ran, o, fuel);
    var d :| Adds(w, r.1, d) && Adds(v, q.1, ran + d);
    Cancels(w, r.1, v, q.1, ran, d);
  }

  lemma HandlerStarts(s: Stmt, g: seq<Target>, w: World, v: World, o: Oracle,
                      fuel: nat) returns (code: int, w3: World, v3: World)
    requires s.Try? && Steady(s.body, Inside(g, s.lab)) && Alike(w, v) && Handles(s, g, v, o, fuel)
    ensures Alike(w3, v3) && Undone(w, w3, v, v3, Ran(s.inits, v.pos, o))
    ensures FirstMatch(s.handlers, code).Some? && HandlerNormal(s, code, g, v3, o, fuel)
    ensures Exec(true, s, g, w, o, fuel) == Handle(true, s, w.next, code, g, w3, o, fuel)
    ensures Exec(false, s, g, v, o, fuel) == Handle(false, s, v.next, code, g, v3, o, fuel)
  {
    hide Exec, ExecAll, Handle, Effects, Levels, Inits, Adds, Over, Joint, Undone, FirstMatch, HandlerNormal, Framed;
    TryIs(true, s, g, w, o, fuel);
    TryIs(false, s, g, v, o, fuel);
    EnteredAlike(s.inits, w, v, o);
    var v0, w2 := Inits(s.inits, v, o).1, Inits(s.inits, Framed(w), o).1;
    var r, q := ExecAll(true, s.body, Inside(g, s.lab), w2, o, fuel), ExecAll(false, s.body, Inside(g, s.lab),
        Framed(v0), o, fuel);
    assert Agree(true, w2, r, Framed(v0), q);
    UnseenAlike(r.1, Caught(w.next));
    UnseenAlike(q.1, Caught(v.next));
    BothCaught(w, w2, r.1, w.next, v, v0, q.1, v.next, Ran(s.inits, v.pos, o));
    code, w3, v3 := q.0.code, Log(r.1, Caught(w.next)), Log(q.1, Caught(v.next));
  }

  lemma HandlerEnds(s: Stmt, f: nat, f': nat, code: int, g: seq<Target>, w: World, w3: World, v: World, v3: World,
                    ran: seq<Event>, o: Oracle, fuel: nat)
    requires s.Try? && HandlersSteady(s.handlers, Inside(g, s.lab)) && Alike(w3, v3) && Undone(w, w3, v, v3, ran)
    requires FirstMatch(s.handlers, code).Some? && HandlerNormal(s, code, g, v3, o, fuel)
    ensures var r, q := Handle(true, s, f, code, g, w3, o, fuel), Handle(false, s, f', code, g, v3, o, fuel);
      && Same(r, q) && Normal(r.0) && (exists d :: Adds(w, r.1, d) && Adds(v, q.1, ran + d))
  {
    hide ExecAll, Effects, Levels, FirstMatch, Over;
    var action := Action(s.handlers, FirstMatch(s.handlers, code).value);
    ActionSteady(s.handlers, Inside(g, s.lab), FirstMatch(s.handlers, code).value);
    var r, q := ExecAll(true, action, Inside(g, s.lab), w3, o, fuel), ExecAll(false, action, Inside(g, s.lab), v3, o,
        fuel);
    assert Agree(true, w3, r, v3, q);
    UnseenAlike(r.1, HandlerDone(f));
    UnseenAlike(q.1, HandlerDone(f'));
    LevelsLog(r.1, HandlerDone(f));
    LevelsLog(q.1, HandlerDone(f'));
    var d :| Adds(w3, r.1, d) && Adds(v3, q.1, d);
    AddsTrans(v, v3, q.1, ran, d);
    assert Adds(w, Log(r.1, HandlerDone(f)), d) && Adds(v, Log(q.1, HandlerDone(f')), ran + d);
  }

  lemma Cancels(w: World, r: World, v: World, q: World, ran: seq<Event>, d: seq<Event>)
    requires Adds(w, r, d) && Adds(v, q, ran + d)
    ensures Joint(w, r, v, q) <==> ran == []
  {
    hide Adds;
    assert ran == [] ==> ran + d == d;
    if e :| Adds(w, r, e) && Adds(v, q, e) {
      AddsOnce(w, r, d, e);
      AddsOnce(v, q, ran + d, e);
      assert |ran + d| == |d|;
    }
  }

  /** A block with one default, a body that raises and a handler that does one thing: the default's change lasts
      interpreted and not compiled. */
  lemma DefaultUndone(lab: Option<string>, id: nat, body: Stmts, codes: set<int>, id': nat, rest: Handlers,
                      g: seq<Target>, w: World, o: Oracle, fuel: nat)
    requires o(w.pos).Answer? && o(w.pos + 1).Fails? && o(w.pos + 1).code in codes && o(w.pos + 2).Answer?
    ensures var s := Try(lab, [Evaluated], Cons(Do(id), body), When(codes, Cons(Do(id'), Nil), rest));
      var r, q := Exec(true, s, g, w, o, fuel), Exec(false, s, g, w, o, fuel);
      && r.0 == q.0 == Fall && Effects(r.1.trace) == Effects(q.1.trace)
      && Adds(w, r.1, [Did(id')]) && Adds(w, q.1, [Initialised(w.pos), Did(id')])
  {
    hide Exec, ExecAll, Effects, Levels, Inits;
    var s := Try(lab, [Evaluated], Cons(Do(id), body), When(codes, Cons(Do(id'), Nil), rest));
    TryIs(true, s, g, w, o, fuel);
    TryIs(false, s, g, w, o, fuel);
    OneDefault(w, o);
    OneDefault(Framed(w), o);
    EnteredAlike(s.inits, w, w, o);
    var v0, w2, g1, f := Inits(s.inits, w, o).1, Inits(s.inits, Framed(w), o).1, Inside(g, lab), w.next;
    DoesRaise(id, body, g1, w2, Framed(v0), o, fuel);
    var w3, v3 := Log(Ask(w2), Caught(f)), Log(Ask(Framed(v0)), Caught(f));
    BothCaught(w, w2, Ask(w2), f, w, v0, Ask(Framed(v0)), f, Ran(s.inits, w.pos, o));
    UnseenAlike(Ask(w2), Caught(f));
    UnseenAlike(Ask(Framed(v0)), Caught(f));
    OneDone(id', g1, w3, o, fuel);
    OneDone(id', g1, v3, o, fuel);
    NothingAdded(w, w3);
    DoneOnce(w, w3, id', f, []);
    DoneOnce(w, v3, id', f, Ran(s.inits, w.pos, o));
    assert [] + [Did(id')] == [Did(id')] && [Initialised(w.pos)] + [Did(id')] == [Initialised(w.pos), Did(id')];
  }

  lemma OneDefault(w: World, o: Oracle)
    requires o(w.pos).Answer?
    ensures Inits([Evaluated], w, o) == (Fall, Log(Ask(w), Initialised(w.pos)))
    ensures Ran([Evaluated], w.pos, o) == [Initialised(w.pos)]
  {
  }

  lemma DoesRaise(id: nat, body: Stmts, g: seq<Target>, w: World, v: World, o: Oracle, fuel: nat)
    requires o(w.pos).Fails? && v.pos == w.pos
    ensures ExecAll(true, Cons(Do(id), body), g, w, o, fuel) == (Raise(o(w.pos).code), Ask(w))
    ensures ExecAll(false, Cons(Do(id), body), g, v, o, fuel) == (Raise(o(w.pos).code), Ask(v))
  {
  }

  lemma DoneOnce(w: World, w3: World, id: nat, f: nat, ran: seq<Event>)
    requires Adds(w, w3, ran)
    ensures var w4 := Log(Log(Ask(w3), Did(id)), HandlerDone(f));
      Adds(w, w4, ran + [Did(id)]) && Effects(w4.trace) == Effects(w3.trace) + [Did(id)]
  {
    hide Effects, Levels;
    var w5 := Log(Ask(w3), Did(id));
    EffectsLog(Ask(w3), Did(id));
    EffectsLog(w5, HandlerDone(f));
    LevelsLog(Ask(w3), Did(id));
    LevelsLog(w5, HandlerDone(f));
    AddsTrans(w, w3, w5, ran, [Did(id)]);
  }

  // ---- where the readings part: FOUND ----

  /** A row loop whose passes are calm ends with the same effects exactly when it is not left by RETURN or for
      a construct outside; if it is, FOUND, which the interpreter sets to whether a row came, is missing from the
      compiled run. */
  lemma RowLoopFound(s: Stmt, g: seq<Target>, w: World, v: World, o: Oracle, fuel: nat)
    requires s.Loop? && s.kind.Rows? && Alike(w, v) && !o(v.pos).Fails?
    requires CalmIterate(false, s.kind, s.lab, s.body, g, v.next, Opening(v), o, fuel)
    ensures var r, q := Exec(true, s, g, w, o, fuel), Exec(false, s, g, v, o, fuel);
      && r.0 == q.0 && (Same(r, q) <==> !Outgoing(q.0))
      && (Outgoing(q.0) ==> Effects(q.1.trace) == Effects(r.1.trace) + [Found(v.next in q.1.rows)])
  {
    hide Effects, Levels, Iterate, CalmIterate;
    OpeningAlike(w, v);
    IterateCalmAgrees(false, s.kind, s.lab, s.body, g, w.next, v.next, Opening(w), Opening(v), o, fuel);
    var r := Iterate(true, s.kind, s.lab, s.body, g, w.next, Opening(w), o, fuel);
    var q := Iterate(false, s.kind, s.lab, s.body, g, v.next, Opening(v), o, fuel);
    RowsLeftAlike(q.0, w.next, v.next, r.1, q.1);
    RowsLeftStill(false, q.0, v.next, q.1);
  }

  /** A row loop whose body returns at its first row: interpreted, FOUND is set; compiled, it is not. */
  lemma FoundMissing(lab: Option<string>, g: seq<Target>, w: World, o: Oracle, fuel: nat)
    requires fuel > 0 && o(w.pos).Answer? && o(w.pos + 1) == Answer(true) && o(w.pos + 2).Answer?
    ensures var s := Loop(Rows, lab, Cons(Return, Nil));
      var r, q := Exec(true, s, g, w, o, fuel), Exec(false, s, g, w, o, fuel);
      && r.0 == q.0 == Ret && Effects(r.1.trace) == Effects(w.trace) + [Returned]
      && Effects(q.1.trace) == Effects(w.trace) + [Returned, Found(true)]
  {
    hide Effects, Levels;
    var s := Loop(Rows, lab, Cons(Return, Nil));
    var g1, w1 := [Target(lab, true)] + g, Passing(Rows, w.next, Opening(w));
    var w2 := Log(Ask(w1), Returned);
    assert ExecAll(true, s.body, g1, w1, o, fuel) == (Ret, w2) && ExecAll(false, s.body, g1, w1, o, fuel) == (Ret, w2);
    EffectsLog(Ask(w).(next := w.next + 1), Opened(w.next));
    EffectsLog(Ask(w1), Returned);
    RowsLeftAlike(Ret, w.next, w.next, w2, w2);
    EffectsLog(w2, Closed(w.next));
  }
}
