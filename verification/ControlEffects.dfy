/** What a run does for its caller: the events in order, and the database changes that last. */
module ControlEffects {
  import opened ControlRef

  /** What a run does, as against the frames and portals it keeps. */
  predicate Visible(e: Event) { e.Did? || e.Initialised? || e.Returned? || e.Found? }

  function Effects(t: seq<Event>): seq<Event> {
    if t == [] then []
    else Effects(t[..|t| - 1]) + if Visible(t[|t| - 1]) then [t[|t| - 1]] else []
  }

  lemma EffectsLog(w: World, e: Event)
    ensures Effects(Log(w, e).trace) == Effects(w.trace) + if Visible(e) then [e] else []
  {
    assert (w.trace + [e])[..|w.trace|] == w.trace;
  }

  /** Worlds with the same effects so far that go on with the same answer. */
  ghost predicate Alike(w: World, v: World) { w.pos == v.pos && Effects(w.trace) == Effects(v.trace) }

  /** The same ending with the same effects. */
  ghost predicate Same(r: (Outcome, World), q: (Outcome, World)) { r.0 == q.0 && Alike(r.1, q.1) }

  lemma LogAlike(w: World, v: World, e: Event)
    requires Alike(w, v)
    ensures Alike(Log(w, e), Log(v, e))
  {
    EffectsLog(w, e);
    EffectsLog(v, e);
  }

  /** Bookkeeping is not seen. */
  lemma UnseenAlike(w: World, e: Event)
    requires !Visible(e)
    ensures Effects(Log(w, e).trace) == Effects(w.trace)
  {
    EffectsLog(w, e);
  }

  // ---- changes that last ----

  /** Changes of the database, by open subtransaction, innermost first.  A frame is a subtransaction: leaving it
      hands its changes to the one outside, catching an error undoes them.  Local variables are not undone. */
  function Levels(t: seq<Event>): (l: seq<seq<Event>>)
    ensures l != []
  {
    if t == [] then [[]] else Level(Levels(t[..|t| - 1]), t[|t| - 1])
  }

  function Level(l: seq<seq<Event>>, e: Event): (r: seq<seq<Event>>)
    requires l != []
    ensures r != []
  {
    match e
    case Did(_) => [l[0] + [e]] + l[1..]
    case Initialised(_) => [l[0] + [e]] + l[1..]
    case Pushed(_) => [[]] + l
    case TryExited(_) => if |l| == 1 then l else [l[1] + l[0]] + l[2..]
    case Caught(_) => if |l| == 1 then l else l[1..]
    case _ => l
  }

  /** Changes of the innermost open subtransaction; once every frame is gone, all that last. */
  function Lasting(t: seq<Event>): seq<Event> { Levels(t)[0] }

  lemma LevelsLog(w: World, e: Event)
    ensures Levels(Log(w, e).trace) == Level(Levels(w.trace), e)
  {
    assert (w.trace + [e])[..|w.trace|] == w.trace;
  }

  /** From w to w1 the innermost subtransaction changes d and nothing else happens. */
  ghost predicate Adds(w: World, w1: World, d: seq<Event>) {
    Levels(w1.trace) == [Levels(w.trace)[0] + d] + Levels(w.trace)[1..]
  }

  /** Only the innermost subtransaction, which an error is about to undo, differs. */
  ghost predicate Over(w: World, w1: World) { Levels(w1.trace)[1..] == Levels(w.trace)[1..] }

  /** Two stretches make the same changes. */
  ghost predicate Joint(w: World, w1: World, v: World, v1: World) {
    exists d :: Adds(w, w1, d) && Adds(v, v1, d)
  }

  /** From w to r and from v to q the same changes last. */
  ghost predicate Lasts(w: World, r: (Outcome, World), v: World, q: (Outcome, World)) {
    if r.0.OutOfFuel? then true
    else if r.0.Raise? then Over(w, r.1) && Over(v, q.1)
    else Joint(w, r.1, v, q.1)
  }

  lemma AddsTrans(w: World, w1: World, w2: World, d: seq<Event>, e: seq<Event>)
    requires Adds(w, w1, d) && Adds(w1, w2, e)
    ensures Adds(w, w2, d + e)
  {
    hide Levels;
    assert Levels(w.trace)[0] + d + e == Levels(w.trace)[0] + (d + e);
  }

  /** What is added is what there is more. */
  lemma AddsOnce(w: World, w1: World, d: seq<Event>, e: seq<Event>)
    requires Adds(w, w1, d) && Adds(w, w1, e)
    ensures d == e
  {
    hide Levels;
    var l := Levels(w.trace)[0];
    assert Levels(w1.trace)[0] == l + d && Levels(w1.trace)[0] == l + e;
    assert (l + d)[|l|..] == d && (l + e)[|l|..] == e;
  }

  lemma NothingAdded(w: World, w1: World)
    requires Levels(w1.trace) == Levels(w.trace)
    ensures Adds(w, w1, []) && Over(w, w1)
  {
    hide Levels;
    assert Levels(w.trace)[0] + [] == Levels(w.trace)[0];
  }

  lemma NothingJoint(w: World, w1: World, v: World, v1: World)
    requires Levels(w1.trace) == Levels(w.trace) && Levels(v1.trace) == Levels(v.trace)
    ensures Joint(w, w1, v, v1) && Over(w, w1) && Over(v, v1)
  {
    hide Levels;
    NothingAdded(w, w1);
    NothingAdded(v, v1);
  }

  lemma LastsThen(w: World, w1: World, r: (Outcome, World), v: World, v1: World, q: (Outcome, World))
    requires Joint(w, w1, v, v1) && Lasts(w1, r, v1, q)
    ensures Lasts(w, r, v, q)
  {
    hide Levels;
    var d :| Adds(w, w1, d) && Adds(v, v1, d);
    if !r.0.OutOfFuel? && !r.0.Raise? {
      var e :| Adds(w1, r.1, e) && Adds(v1, q.1, e);
      AddsTrans(w, w1, r.1, d, e);
      AddsTrans(v, v1, q.1, d, e);
    }
  }

  /** Events that leave the changes alone, after a stretch. */
  lemma LastsStill(w: World, r: (Outcome, World), v: World, q: (Outcome, World), r1: World, q1: World)
    requires Lasts(w, r, v, q) && Levels(r1.trace) == Levels(r.1.trace) && Levels(q1.trace) == Levels(q.1.trace)
    ensures Lasts(w, (r.0, r1), v, (q.0, q1))
  {
    hide Levels;
    if !r.0.OutOfFuel? && !r.0.Raise? {
      var d :| Adds(w, r.1, d) && Adds(v, q.1, d);
      assert Adds(w, r1, d) && Adds(v, q1, d);
    }
  }

  // ---- initialisation ----

  /** The initialisers evaluated from answer k on, up to the first that raises. */
  function Ran(ds: seq<VarInit>, k: nat, o: Oracle): seq<Event>
    decreases |ds|
  {
    if ds == [] then []
    else if ds[0].NullInit? then Ran(ds[1..], k, o)
    else if o(k).Fails? then []
    else [Initialised(k)] + Ran(ds[1..], k + 1, o)
  }

  lemma {:induction false} InitsAre(ds: seq<VarInit>, w: World, o: Oracle)
    ensures var (_, w1) := Inits(ds, w, o);
      Effects(w1.trace) == Effects(w.trace) + Ran(ds, w.pos, o) && Adds(w, w1, Ran(ds, w.pos, o))
    decreases |ds|
  {
    hide Effects, Levels;
    NothingAdded(w, w);
    if ds != [] && ds[0].NullInit? {
      InitsAre(ds[1..], w, o);
    } else if ds != [] && !o(w.pos).Fails? {
      var e := Initialised(w.pos);
      var w1 := Log(Ask(w), e);
      EffectsLog(Ask(w), e);
      LevelsLog(Ask(w), e);
      InitsAre(ds[1..], w1, o);
      AddsTrans(w, w1, Inits(ds[1..], w1, o).1, [e], Ran(ds[1..], w1.pos, o));
    } else {
      NothingAdded(w, Inits(ds, w, o).1);
    }
  }

  /** How initialisation ends depends on the answers alone. */
  lemma {:induction false} InitsEnd(ds: seq<VarInit>, w: World, v: World, o: Oracle)
    requires w.pos == v.pos
    ensures Inits(ds, w, o).0 == Inits(ds, v, o).0 && Inits(ds, w, o).1.pos == Inits(ds, v, o).1.pos
    decreases |ds|
  {
    if ds != [] && ds[0].NullInit? { InitsEnd(ds[1..], w, v, o); }
    else if ds != [] { InitsEnd(ds[1..], Log(Ask(w), Initialised(w.pos)), Log(Ask(v), Initialised(v.pos)), o); }
  }

  lemma InitsAgree(ds: seq<VarInit>, w: World, v: World, o: Oracle)
    requires Alike(w, v)
    ensures Same(Inits(ds, w, o), Inits(ds, v, o)) && Lasts(w, Inits(ds, w, o), v, Inits(ds, v, o))
    ensures Joint(w, Inits(ds, w, o).1, v, Inits(ds, v, o).1)
  {
    hide Effects, Levels, Inits;
    InitsAre(ds, w, o);
    InitsAre(ds, v, o);
    InitsEnd(ds, w, v, o);
  }

  /** Some declaration's initialisation is evaluated. */
  predicate Evaluates(ds: seq<VarInit>) { Evaluated in ds }

  lemma {:induction false} NothingRaises(ds: seq<VarInit>, w: World, o: Oracle)
    requires !Evaluates(ds)
    ensures Inits(ds, w, o) == (Fall, w)
    decreases |ds|
  {
    if ds != [] { assert ds[0] in ds; NothingRaises(ds[1..], w, o); }
  }

  lemma {:induction false} FirstRaises(ds: seq<VarInit>, w: World, o: Oracle)
    requires Evaluates(ds) && o(w.pos).Fails?
    ensures Inits(ds, w, o) == (Raise(o(w.pos).code), Ask(w))
    decreases |ds|
  {
    if ds[0].NullInit? { FirstRaises(ds[1..], w, o); }
  }

  /** Initialisation that ends normally has changed something exactly when something was evaluated. */
  lemma {:induction false} RanSome(ds: seq<VarInit>, w: World, o: Oracle)
    requires Inits(ds, w, o).0.Fall?
    ensures Ran(ds, w.pos, o) == [] <==> !Evaluates(ds)
    decreases |ds|
  {
    if ds != [] && ds[0].NullInit? { RanSome(ds[1..], w, o); }
  }
}
