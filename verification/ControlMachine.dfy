/** Code emitted for statements: blocks of runtime calls, and the machine that runs them. */
module ControlMachine {
  import opened Cfg
  import opened ControlRef

  /** A slot holds the frame or portal pointer of one construct of the source program. */
  datatype Instr =
    | CallDo(id: nat) | CallReturn | CallInit(how: VarInit)
    | PushFrame(slot: nat) | Arm(slot: nat, catch: nat) | TryExit(slot: nat) | Done(slot: nat)
    | OpenPortal(slot: nat) | ClosePortal(slot: nat)
    | ClearRow(slot: nat) | GotRow(slot: nat) | SetFound(slot: nat)     // a row loop's found flag

  /** Ask is a conditional branch on an evaluated condition or a fetched row.
      Dispatch is the catch helper with the switch on its result. */
  datatype Term =
    | Br(target: nat) | Ask(yes: nat, no: nat)
    | Dispatch(slot: nat, cases: seq<(set<int>, nat)>, rethrow: nat)
    | Rethrow(slot: nat)
    | Exit

  type Code = Builder<Instr, Term>
  type Prog = seq<BB<Instr, Term>>

  datatype Armed = Armed(frame: nat, catch: nat)

  /** `armed` is the exception stack; `code` the error being handled. */
  datatype State =
    | Run(blk: nat, pc: nat, w: World, slots: map<nat, nat>, armed: seq<Armed>, code: int)
    | Finished(final: World)
    | Escaped(final: World, error: int)
    | Broken

  /** An error resumes at the catch block of the innermost armed frame. */
  function Throw(s: State, code: int): State
    requires s.Run?
  {
    if s.armed == [] then Escaped(s.w, code)
    else Run(s.armed[0].catch, 0, s.w, s.slots, s.armed[1..], code)
  }

  function Goto(s: State, b: nat): State
    requires s.Run?
  {
    s.(blk := b, pc := 0)
  }

  function Next(s: State): State
    requires s.Run?
  {
    s.(pc := s.pc + 1)
  }

  function Asked(s: State): State
    requires s.Run?
  {
    s.(w := ControlRef.Ask(s.w))
  }

  function Logged(s: State, e: Event): State
    requires s.Run?
  {
    s.(w := Log(s.w, e))
  }

  /** A call that may raise. */
  function Calling(s: State, o: Oracle): State
    requires s.Run?
  {
    if o(s.w.pos).Fails? then Throw(Asked(s), o(s.w.pos).code) else Next(Asked(s))
  }

  function Step1(i: Instr, s: State, o: Oracle): State
    requires s.Run?
  {
    match i
    case CallDo(id) =>
      var t := Calling(s, o);
      if o(s.w.pos).Fails? then t else Logged(t, Did(id))
    case CallReturn =>
      var t := Calling(s, o);
      if o(s.w.pos).Fails? then t else Logged(t, Returned)
    case CallInit(how) =>
      var t := Calling(s, o);
      if how.NullInit? then Next(s) else if o(s.w.pos).Fails? then t else Logged(t, Initialised(s.w.pos))
    case PushFrame(x) =>
      var f := s.w.next;
      Next(s.(w := Log(s.w.(next := f + 1), Pushed(f)), slots := s.slots[x := f]))
    case Arm(x, c) =>
      if x in s.slots then Next(s.(armed := [Armed(s.slots[x], c)] + s.armed)) else Broken
    case TryExit(x) =>
      // the frame must be the innermost armed one
      if x in s.slots && s.armed != [] && s.armed[0].frame == s.slots[x]
      then Next(Logged(s.(armed := s.armed[1..]), TryExited(s.slots[x]))) else Broken
    case Done(x) => if x in s.slots then Next(Logged(s, HandlerDone(s.slots[x]))) else Broken
    case OpenPortal(x) =>
      if o(s.w.pos).Fails? then Throw(Asked(s), o(s.w.pos).code)
      else
        var p := s.w.next;
        Next(s.(w := Log(ControlRef.Ask(s.w).(next := p + 1), Opened(p)), slots := s.slots[x := p]))
    case ClosePortal(x) => if x in s.slots then Next(Logged(s, Closed(s.slots[x]))) else Broken
    case ClearRow(x) => if x in s.slots then Next(s.(w := s.w.(rows := s.w.rows - {s.slots[x]}))) else Broken
    case GotRow(x) => if x in s.slots then Next(s.(w := s.w.(rows := s.w.rows + {s.slots[x]}))) else Broken
    case SetFound(x) => if x in s.slots then Next(Logged(s, Found(s.slots[x] in s.w.rows))) else Broken
  }

  function FirstCase(cases: seq<(set<int>, nat)>, code: int): Option<nat> {
    if cases == [] then None
    else if code in cases[0].0 then Some(cases[0].1)
    else FirstCase(cases[1..], code)
  }

  function Jump(t: Term, s: State, o: Oracle): State
    requires s.Run?
  {
    match t
    case Br(b) => Goto(s, b)
    case Ask(y, n) =>
      if o(s.w.pos).Fails? then Throw(Asked(s), o(s.w.pos).code)
      else Goto(Asked(s), if o(s.w.pos).yes then y else n)
    case Dispatch(x, cases, rethrow) =>
      if x !in s.slots then Broken
      else
        var c := FirstCase(cases, s.code);
        Goto(Logged(s, Caught(s.slots[x])), if c.Some? then c.value else rethrow)
    case Rethrow(x) => if x in s.slots then Throw(Logged(s, Rethrown(s.slots[x])), s.code) else Broken
    case Exit => Finished(s.w)
  }

  function Step(p: Prog, o: Oracle, s: State): State {
    if !s.Run? then s
    else if s.blk >= |p| then Broken
    else if s.pc < |p[s.blk].code| then Step1(p[s.blk].code[s.pc], s, o)
    else if p[s.blk].term.None? then Broken
    else Jump(p[s.blk].term.value, s, o)
  }

  function Steps(p: Prog, o: Oracle, s: State, n: nat): State
    decreases n
  {
    if n == 0 then s else Steps(p, o, Step(p, o, s), n - 1)
  }

  ghost predicate Reaches(p: Prog, o: Oracle, s: State, t: State) {
    exists n: nat :: Steps(p, o, s, n) == t
  }

  /** The same in at least one step. */
  ghost predicate Reaches1(p: Prog, o: Oracle, s: State, t: State) {
    exists n: nat :: n > 0 && Steps(p, o, s, n) == t
  }

  /** Still running after n steps. */
  ghost predicate Lives(p: Prog, o: Oracle, s: State, n: nat) { Steps(p, o, s, n).Run? }

  lemma {:induction false} Stays(p: Prog, o: Oracle, s: State, n: nat)
    requires !s.Run?
    ensures Steps(p, o, s, n) == s
    decreases n
  {
    if n > 0 { Stays(p, o, s, n - 1); }
  }

  lemma LivesLess(p: Prog, o: Oracle, s: State, n: nat, k: nat)
    requires Lives(p, o, s, n) && k <= n
    ensures Lives(p, o, s, k)
  {
    StepsAdd(p, o, s, k, n - k);
    if !Lives(p, o, s, k) { Stays(p, o, Steps(p, o, s, k), n - k); }
  }

  /** Steps before a state that goes on running count too. */
  lemma LivesAfter(p: Prog, o: Oracle, s: State, t: State, k: nat)
    requires Reaches(p, o, s, t) && Lives(p, o, t, k)
    ensures Lives(p, o, s, k)
    ensures Reaches1(p, o, s, t) ==> Lives(p, o, s, k + 1)
  {
    var n: nat :| Steps(p, o, s, n) == t;
    StepsAdd(p, o, s, n, k);
    LivesLess(p, o, s, n + k, k);
    if Reaches1(p, o, s, t) {
      var j: nat :| j > 0 && Steps(p, o, s, j) == t;
      StepsAdd(p, o, s, j, k);
      LivesLess(p, o, s, j + k, k + 1);
    }
  }

  /** A run has at most one ending. */
  lemma EndsOnce(p: Prog, o: Oracle, s: State, t: State, u: State)
    requires Reaches(p, o, s, t) && Reaches(p, o, s, u) && !t.Run? && !u.Run?
    ensures t == u
  {
    var n: nat :| Steps(p, o, s, n) == t;
    var k: nat :| Steps(p, o, s, k) == u;
    if n <= k { StepsAdd(p, o, s, n, k - n); Stays(p, o, t, k - n); }
    else { StepsAdd(p, o, s, k, n - k); Stays(p, o, u, n - k); }
  }

  lemma {:induction false} StepsAdd(p: Prog, o: Oracle, s: State, n: nat, k: nat)
    ensures Steps(p, o, s, n + k) == Steps(p, o, Steps(p, o, s, n), k)
    decreases n
  {
    if n > 0 { StepsAdd(p, o, Step(p, o, s), n - 1, k); }
  }

  lemma ReachesTrans(p: Prog, o: Oracle, s: State, t: State, u: State)
    requires Reaches(p, o, s, t) && Reaches(p, o, t, u)
    ensures Reaches(p, o, s, u)
    ensures Reaches1(p, o, s, t) || Reaches1(p, o, t, u) ==> Reaches1(p, o, s, u)
  {
    var n: nat :| Steps(p, o, s, n) == t;
    var k: nat :| Steps(p, o, t, k) == u;
    StepsAdd(p, o, s, n, k);
    if Reaches1(p, o, s, t) {
      var j: nat :| j > 0 && Steps(p, o, s, j) == t;
      StepsAdd(p, o, s, j, k);
    } else if Reaches1(p, o, t, u) {
      var j: nat :| j > 0 && Steps(p, o, t, j) == u;
      StepsAdd(p, o, s, n, j);
    }
  }

  lemma NoStep(p: Prog, o: Oracle, s: State)
    ensures Reaches(p, o, s, s)
  {
    assert Steps(p, o, s, 0) == s;
  }

  lemma OneStep(p: Prog, o: Oracle, s: State)
    ensures Reaches(p, o, s, Step(p, o, s)) && Reaches1(p, o, s, Step(p, o, s))
  {
    assert Steps(p, o, s, 1) == Steps(p, o, Step(p, o, s), 0);
  }

  /** The machine stands where the builder stands. */
  ghost predicate Here(b: Code, s: State) {
    Open(b) && s.Run? && s.blk == b.cur && s.pc == End(b)
  }

  lemma InstrRuns(p: Prog, o: Oracle, b: Code, i: Instr, s: State)
    requires Here(b, s) && Grows(Emit(b, i).blocks, p)
    ensures Reaches(p, o, s, Step1(i, s, o))
    ensures var t := Step1(i, s, o); t.Run? && t.blk == s.blk && t.pc == s.pc + 1 ==> Here(Emit(b, i), t)
  {
    assert Emit(b, i).blocks[b.cur].code[s.pc] == i;
    assert p[b.cur].code[s.pc] == i;
    assert Step(p, o, s) == Step1(i, s, o);
    OneStep(p, o, s);
  }

  lemma TermRuns(p: Prog, o: Oracle, b: Code, t: Term, s: State)
    requires Here(b, s) && Grows(Close(b, t).blocks, p)
    ensures Reaches(p, o, s, Jump(t, s, o)) && Reaches1(p, o, s, Jump(t, s, o))
  {
    assert p[b.cur] == Close(b, t).blocks[b.cur];
    assert Step(p, o, s) == Jump(t, s, o);
    OneStep(p, o, s);
  }
}
