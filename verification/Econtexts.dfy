/** The stack of expression contexts across calls, exception blocks, COMMIT and CALL. */
module Econtexts {
  import opened Cfg

  /** A run of one function: what it did, as a finite tree.  An expression may call functions; a
      CALL may run a procedure that ends the transaction. */
  datatype Step =
    | Work(raises: bool)
    | EndTransaction(fails: bool)                                 // COMMIT or ROLLBACK
    | TryBlock(body: Steps, matched: bool, handler: Steps)
    | Invoke(callee: Steps, isCall: bool)

  datatype Steps = Done | Then(first: Step, rest: Steps)

  /** What a piece of a run comes to: whether it raises, the transactions it ends, the subtransactions it begins and
      the contexts it creates. */
  datatype Tally = Tally(raises: bool, ended: nat, begun: nat, made: nat)

  function Plus(a: Tally, b: Tally): Tally {
    Tally(b.raises, a.ended + b.ended, a.begun + b.begun, a.made + b.made)
  }

  /** In a function run atomically or not, inside a subtransaction or not. */
  function TallyOf(s: Step, atomic: bool, inside: bool): Tally {
    match s
    case Work(raises) => Tally(raises, 0, 0, 0)
    case EndTransaction(fails) =>
      if atomic || inside then Tally(true, 0, 0, 0) else Tally(fails, 1, 0, if fails then 0 else 1)
    case TryBlock(body, matched, handler) =>
      var b := Plus(Tally(false, 0, 1, 1), TallyAll(body, atomic, true));
      if b.raises && matched then Plus(b, TallyAll(handler, atomic, inside)) else b
    case Invoke(callee, isCall) =>
      var c := Plus(Tally(false, 0, 0, 1), TallyAll(callee, atomic || !isCall, inside));
      if !c.raises && isCall && c.ended > 0 then Plus(c, Tally(false, 0, 0, 1)) else c
  }

  function TallyAll(ss: Steps, atomic: bool, inside: bool): Tally {
    if ss.Done? then Tally(false, 0, 0, 0)
    else
      var f := TallyOf(ss.first, atomic, inside);
      if f.raises then f else Plus(f, TallyAll(ss.rest, atomic, inside))
  }

  lemma InvokeTally(s: Step, atomic: bool, inside: bool)
    requires s.Invoke?
    ensures var c, t := TallyAll(s.callee, atomic || !s.isCall, inside), TallyOf(s, atomic, inside);
      && t.raises == c.raises && t.ended == c.ended && t.begun == c.begun
      && t.made == c.made + if !c.raises && s.isCall && c.ended > 0 then 2 else 1
  {
    hide TallyAll;
  }

  /** Only a function that is not atomic and not inside a subtransaction ends transactions. */
  lemma {:induction false} EndsNone(s: Step, atomic: bool, inside: bool)
    requires atomic || inside
    ensures TallyOf(s, atomic, inside).ended == 0
    decreases s, 1
  {
    hide TallyAll;
    match s
    case TryBlock(body, _, handler) => AllEndNone(body, atomic, true); AllEndNone(handler, atomic, inside);
    case Invoke(callee, isCall) => AllEndNone(callee, atomic || !isCall, inside);
    case _ =>
  }

  lemma {:induction false} AllEndNone(ss: Steps, atomic: bool, inside: bool)
    requires atomic || inside
    ensures TallyAll(ss, atomic, inside).ended == 0
    decreases ss, 0
  {
    hide TallyOf;
    if ss.Then? { EndsNone(ss.first, atomic, inside); AllEndNone(ss.rest, atomic, inside); }
  }

  /** A context with the subtransaction it was created in. */
  datatype Entry = Entry(ctx: nat, sub: nat)

  /** Identifier of the main transaction level. */
  const TopSub := 1

  function Contexts(stack: seq<Entry>): set<nat> { set k | 0 <= k < |stack| :: stack[k].ctx }

  /** Top first, entries belong to ever older subtransactions. */
  ghost predicate Ordered(stack: seq<Entry>) {
    forall i, j :: 0 <= i < j < |stack| ==> stack[j].sub <= stack[i].sub
  }

  ghost predicate Distinct(stack: seq<Entry>) {
    forall i, j :: 0 <= i < j < |stack| ==> stack[j].ctx != stack[i].ctx
  }

  /** Entries belong to open subtransactions; contexts are numbered below next. */
  ghost predicate Placed(stack: seq<Entry>, subs: seq<nat>, next: nat) {
    forall k :: 0 <= k < |stack| ==> stack[k].ctx < next && (stack[k].sub == TopSub || stack[k].sub in subs)
  }

  /** Open subtransactions, innermost first, are numbered in the order they began. */
  ghost predicate Nested(subs: seq<nat>, next: nat) {
    && TopSub < next && (forall i :: 0 <= i < |subs| ==> TopSub < subs[i] < next)
    && (forall i, j :: 0 <= i < j < |subs| ==> subs[j] < subs[i])
  }

  lemma AllOlder(stack: seq<Entry>, subs: seq<nat>, next: nat, ctx: nat)
    requires Placed(stack, subs, ctx) && Nested(subs, next)
    ensures forall k :: 0 <= k < |stack| ==> stack[k].sub < next
  {
  }

  function Innermost(subs: seq<nat>): nat { if subs == [] then TopSub else subs[0] }

  lemma InnermostIs(subs: seq<nat>)
    requires subs != []
    ensures Innermost(subs) == subs[0]
  {
  }

  /** A new entry of the innermost subtransaction may go on top. */
  lemma MayPush(stack: seq<Entry>, subs: seq<nat>, next: nat, ctx: nat)
    requires Placed(stack, subs, ctx) && Nested(subs, next)
    ensures ctx !in Contexts(stack) && forall k :: 0 <= k < |stack| ==> stack[k].sub <= Innermost(subs)
    ensures Placed([Entry(ctx, Innermost(subs))] + stack, subs, ctx + 1)
  {
  }

  /** The entries that do not belong to subtransaction sub. */
  function Without(stack: seq<Entry>, sub: nat): seq<Entry> {
    if stack == [] then []
    else (if stack[0].sub == sub then [] else [stack[0]]) + Without(stack[1..], sub)
  }

  lemma {:induction false} WithoutNone(stack: seq<Entry>, sub: nat)
    requires forall k :: 0 <= k < |stack| ==> stack[k].sub != sub
    ensures Without(stack, sub) == stack
  {
    if stack != [] { WithoutNone(stack[1..], sub); }
  }

  /** On an ordered stack whose newest subtransaction is at most sub, what is left after popping
      while the top belongs to sub is everything that does not belong to sub. */
  lemma {:induction false} PoppedIsWithout(stack: seq<Entry>, sub: nat, n: nat)
    requires Ordered(stack) && n <= |stack| && (forall k :: 0 <= k < n ==> stack[k].sub == sub)
    requires n < |stack| ==> stack[n].sub < sub
    ensures Without(stack, sub) == stack[n..]
    decreases n
  {
    if n == 0 {
      WithoutNone(stack, sub);
    } else {
      var tail := stack[1..];
      assert forall k :: 0 <= k < |tail| ==> tail[k] == stack[k + 1];
      PoppedIsWithout(tail, sub, n - 1);
      assert tail[n - 1..] == stack[n..];
    }
  }

  lemma {:induction false} WithoutAbove(above: seq<Entry>, stack: seq<Entry>, sub: nat)
    requires (forall k :: 0 <= k < |above| ==> above[k].sub == sub)
    requires (forall k :: 0 <= k < |stack| ==> stack[k].sub != sub)
    ensures Without(above + stack, sub) == stack
    decreases |above|
  {
    if above == [] { assert above + stack == stack; WithoutNone(stack, sub); }
    else {
      assert (above + stack)[1..] == above[1..] + stack;
      WithoutAbove(above[1..], stack, sub);
    }
  }

  lemma Pushed(x: Entry, stack: seq<Entry>)
    requires Ordered(stack) && Distinct(stack) && x.ctx !in Contexts(stack)
    requires forall k :: 0 <= k < |stack| ==> stack[k].sub <= x.sub
    ensures Ordered([x] + stack) && Distinct([x] + stack) && Contexts([x] + stack) == Contexts(stack) + {x.ctx}
  {
    var s := [x] + stack;
    assert forall k :: 0 < k < |s| ==> s[k] == stack[k - 1];
    forall k | 0 <= k < |stack| ensures stack[k].ctx in Contexts(s) { assert s[k + 1] == stack[k]; }
    assert s[0] == x;
  }

  /** stack is base with entries of subtransaction sub on top. */
  ghost predicate Atop(stack: seq<Entry>, base: seq<Entry>, sub: nat) {
    && |base| <= |stack| && stack[|stack| - |base|..] == base
    && forall k :: 0 <= k < |stack| - |base| ==> stack[k].sub == sub
  }

  lemma Alone(stack: seq<Entry>, sub: nat)
    ensures Atop(stack, stack, sub)
  {
  }

  lemma Beneath(stack: seq<Entry>, own: Entry, base: seq<Entry>)
    requires Atop(stack, [own] + base, own.sub)
    ensures Atop(stack, base, own.sub)
  {
    var n := |stack| - |base| - 1;
    assert stack[n + 1..] == stack[n..][1..];
    assert stack[n] == stack[n..][0];
  }

  /** Removing sub's entries from above an older base leaves the base. */
  lemma {:induction false} WithoutAtop(stack: seq<Entry>, base: seq<Entry>, sub: nat)
    requires Atop(stack, base, sub) && forall k :: 0 <= k < |base| ==> base[k].sub != sub
    ensures Without(stack, sub) == base
  {
    var n := |stack| - |base|;
    assert stack == stack[..n] + base;
    WithoutAbove(stack[..n], base, sub);
  }

  /** Execution state of one function call. */
  class Frame {
    var econtext: nat
    var evalEstate: Option<nat>       // the transaction whose EState it evaluates in
    const atomic: bool

    constructor (shared: Option<nat>, atomic: bool)
      ensures evalEstate == shared && this.atomic == atomic
    {
      econtext, evalEstate := 0, shared;
      this.atomic := atomic;
    }
  }

  class Session {
    var stack: seq<Entry>
    var shared: Option<nat>
    var subs: seq<nat>                // open subtransactions, innermost first
    var nextSub: nat
    var xact: nat                     // local transaction number
    var nextCtx: nat
    var live: set<nat>                // contexts not freed

    ghost predicate Valid()
      reads this
    {
      && Ordered(stack) && Distinct(stack) && live == Contexts(stack) && Placed(stack, subs, nextCtx)
      && (shared.Some? ==> shared.value == xact) && Nested(subs, nextSub)
    }

    function Current(): nat
      reads this
    {
      Innermost(subs)
    }

    /** A function can evaluate: its context is the top entry, belongs to the current
        subtransaction, and lies in the EState of the current transaction. */
    ghost predicate Runs(e: Frame)
      reads this, e
    {
      Valid() && stack != [] && stack[0] == Entry(e.econtext, Current()) && e.evalEstate == Some(xact)
    }

    constructor ()
      ensures Valid() && stack == [] && subs == []
    {
      stack, shared, subs, nextSub, xact, nextCtx, live := [], None, [], TopSub + 1, 0, 0, {};
    }

    method CreateEcontext(e: Frame)
      requires Valid() && (e.evalEstate.None? || e.evalEstate == Some(xact))
      modifies this`stack, this`shared, this`nextCtx, this`live, e`econtext, e`evalEstate
      ensures Runs(e) && stack == [Entry(e.econtext, Current())] + old(stack)
      ensures e.econtext == old(nextCtx) == nextCtx - 1
    {
      hide Ordered, Distinct, Contexts, Placed, Nested;
      MayPush(stack, subs, nextSub, nextCtx);
      if e.evalEstate.None? {
        if shared.None? { shared := Some(xact); }
        e.evalEstate := shared;
      }
      e.econtext := nextCtx;
      nextCtx := nextCtx + 1;
      Pushed(Entry(e.econtext, Current()), stack);
      stack := [Entry(e.econtext, Current())] + stack;
      live := live + {e.econtext};
      assert stack[1..] == old(stack);
    }

    /** The top entry must be the function's own. */
    method DestroyEcontext(e: Frame)
      requires Valid() && stack != [] && stack[0].ctx == e.econtext
      modifies this`stack, this`live
      ensures Valid() && stack == old(stack)[1..] && e.econtext !in live && live == old(live) - {e.econtext}
    {
      stack := stack[1..];
      live := live - {e.econtext};
    }

    /** End of a transaction. */
    method XactCallback()
      requires Valid() && subs == []
      modifies this`stack, this`shared, this`xact, this`live
      ensures Valid() && stack == [] && live == {} && shared == None && xact == old(xact) + 1
    {
      stack, shared, live, xact := [], None, {}, xact + 1;
    }

    /** End of a subtransaction: exactly its own entries go. */
    method SubxactCallback(mine: nat)
      requires Valid() && forall k :: 0 <= k < |stack| ==> stack[k].sub <= mine
      modifies this`stack, this`live
      ensures stack == Without(old(stack), mine) && live == Contexts(stack) && Ordered(stack) && Distinct(stack)
      ensures forall k :: 0 <= k < |stack| ==> stack[k] in old(stack) && stack[k].sub != mine
    {
      ghost var n := 0;
      while stack != [] && stack[0].sub == mine
        invariant n <= |old(stack)| && stack == old(stack)[n..] && live == Contexts(stack)
        invariant forall k :: 0 <= k < n ==> old(stack)[k].sub == mine
        decreases |stack|
      {
        live := live - {stack[0].ctx};
        stack := stack[1..];
        n := n + 1;
      }
      PoppedIsWithout(old(stack), mine, n);
    }

    method BeginSub()
      requires Valid()
      modifies this`subs, this`nextSub
      ensures Valid() && subs == [old(nextSub)] + old(subs) && nextSub == old(nextSub) + 1
    {
      subs := [nextSub] + subs;
      nextSub := nextSub + 1;
      assert subs[1..] == old(subs);
    }

    /** Commit or abort of the current subtransaction, begun when the stack was `below`. */
    method EndSub(ghost below: seq<Entry>)
      requires Valid() && subs != [] && Atop(stack, below, subs[0])
      requires forall k :: 0 <= k < |below| ==> below[k].sub < subs[0]
      modifies this`stack, this`live, this`subs
      ensures Valid() && stack == below && subs == old(subs)[1..]
    {
      WithoutAtop(stack, below, subs[0]);
      SubxactCallback(subs[0]);
      subs := subs[1..];
    }

    /** How a piece of a run leaves the stack: unless the transaction changed, exactly as it was, with
        entries of the current subtransaction on top after an error. */
    twostate predicate Kept(e: Frame, raised: bool)
      reads this, e
    {
      && Valid() && subs == old(subs) && old(nextSub) <= nextSub && old(xact) <= xact
      && (!raised ==> Runs(e))
      && (xact == old(xact) ==>
            && e.econtext == old(e.econtext) && e.evalEstate == old(e.evalEstate)
            && Atop(stack, old(stack), Current()) && (!raised ==> stack == old(stack)))
      && (xact != old(xact) ==> subs == [] && !e.atomic)
      && (xact != old(xact) && !raised ==> stack == [Entry(e.econtext, TopSub)])
    }

    /** What a piece of a run came to. */
    twostate predicate Did(raised: bool, t: Tally)
      reads this
    {
      && raised == t.raises && xact == old(xact) + t.ended && nextSub == old(nextSub) + t.begun
      && nextCtx == old(nextCtx) + t.made
    }

    /** One statement of a run; says whether it raised. */
    method ExecStep(e: Frame, s: Step) returns (raised: bool)
      requires Runs(e)
      modifies this, e
      ensures Kept(e, raised) && Did(raised, TallyOf(s, e.atomic, old(subs) != []))
      decreases s, 2
    {
      match s
      case Work(r) => raised := r;
      case EndTransaction(fails) => raised := ExecEnd(e, fails);
      case TryBlock(_, _, _) => raised := ExecTry(e, s);
      case Invoke(_, _) => raised := ExecInvoke(e, s);
    }

    /** COMMIT or ROLLBACK: refused in atomic context and inside a subtransaction. */
    method ExecEnd(e: Frame, fails: bool) returns (raised: bool)
      requires Runs(e)
      modifies this, e
      ensures Kept(e, raised) && Did(raised, TallyOf(EndTransaction(fails), e.atomic, old(subs) != []))
    {
      if e.atomic || subs != [] { return true; }
      XactCallback();
      if fails { return true; }
      e.evalEstate := None;
      CreateEcontext(e);
      return false;
    }

    /** A call of a function from an expression, or of a procedure by CALL. */
    method ExecInvoke(e: Frame, s: Step) returns (raised: bool)
      requires Runs(e) && s.Invoke?
      modifies this, e
      ensures Kept(e, raised) && Did(raised, TallyOf(s, e.atomic, old(subs) != []))
      decreases s, 0
    {
      hide Ordered, Distinct, Contexts, Placed, Nested, Atop, TallyAll, TallyOf;
      Alone(stack, Current());
      InvokeTally(s, e.atomic, subs != []);
      var before := xact;
      var callee := new Frame(shared, e.atomic || !s.isCall);
      CreateEcontext(callee);
      ghost var own := stack[0];
      raised := ExecSteps(callee, s.callee);
      if raised {
        if xact == before { Beneath(stack, own, old(stack)); }
        return;
      }
      DestroyEcontext(callee);
      if s.isCall && xact != before {
        e.evalEstate := None;
        CreateEcontext(e);
      }
    }

    /** An exception block: its body runs in a subtransaction with a context of its own. */
    method ExecTry(e: Frame, s: Step) returns (raised: bool)
      requires Runs(e) && s.TryBlock?
      modifies this, e
      ensures Kept(e, raised) && Did(raised, TallyOf(s, e.atomic, old(subs) != []))
      decreases s, 1
    {
      hide Ordered, Distinct, Contexts, TallyAll;
      raised := ExecBody(e, s);
      if raised && s.matched { raised := ExecSteps(e, s.handler); }
    }

    /** The protected part: however it ends, the stack and the context are those of before. */
    method ExecBody(e: Frame, s: Step) returns (raised: bool)
      requires Runs(e) && s.TryBlock?
      modifies this, e
      ensures Runs(e) && subs == old(subs) && xact == old(xact) && stack == old(stack) && old(nextSub) <= nextSub
      ensures e.econtext == old(e.econtext) && e.evalEstate == old(e.evalEstate)
      ensures var t := TallyAll(s.body, e.atomic, true);
        && raised == t.raises && t.ended == 0
        && nextSub == old(nextSub) + 1 + t.begun && nextCtx == old(nextCtx) + 1 + t.made
      decreases s, 0
    {
      hide Ordered, Distinct, Contexts, Placed, Nested, Atop, TallyAll, TallyOf, Innermost;
      AllOlder(stack, subs, nextSub, nextCtx);
      AllEndNone(s.body, e.atomic, true);
      var saved := e.econtext;
      BeginSub();
      InnermostIs(subs);
      CreateEcontext(e);
      ghost var own := stack[0];
      raised := ExecSteps(e, s.body);
      assert xact == old(xact) && Atop(stack, [own] + old(stack), own.sub);
      Beneath(stack, own, old(stack));
      EndSub(old(stack));
      e.econtext := saved;
    }

    method ExecSteps(e: Frame, ss: Steps) returns (raised: bool)
      requires Runs(e)
      modifies this, e
      ensures Kept(e, raised) && Did(raised, TallyAll(ss, e.atomic, old(subs) != []))
      decreases ss, 0
    {
      if ss.Done? { return false; }
      raised := ExecStep(e, ss.first);
      if !raised { raised := ExecSteps(e, ss.rest); }
    }

    /** A function called at top level, in a transaction of its own: nothing is left behind, and every context it
        made was its own, of a block, or made again after a transaction ended. */
    method TopLevel(body: Steps, atomic: bool) returns (raised: bool)
      requires Valid() && stack == [] && subs == []
      modifies this
      ensures Valid() && stack == [] && live == {} && subs == []
      ensures var t := TallyAll(body, atomic, false);
        && raised == t.raises && xact == old(xact) + t.ended + 1
        && nextSub == old(nextSub) + t.begun && nextCtx == old(nextCtx) + 1 + t.made
    {
      hide TallyAll, TallyOf, Ordered, Distinct, Contexts, Placed, Nested, Atop, Innermost;
      var e := new Frame(shared, atomic);
      CreateEcontext(e);
      ghost var t := TallyAll(body, atomic, false);
      raised := ExecSteps(e, body);
      assert Valid() && subs == [] && raised == t.raises && xact == old(xact) + t.ended;
      assert nextSub == old(nextSub) + t.begun && nextCtx == old(nextCtx) + 1 + t.made;
      if !raised { DestroyEcontext(e); }
      XactCallback();
    }
  }
}
