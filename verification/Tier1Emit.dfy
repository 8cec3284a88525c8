/** Emitting one instruction, an error exit or a joined branch, and what the emitted piece does. */
module Tier1Emit {
  import opened Cfg
  import opened Tier1Expr
  import opened Tier1Machine

  /** The machine stands where the builder stands. */
  ghost predicate Here(b: Code, s: State) {
    Open(b) && s.Run? && s.blk == b.cur && s.pc == End(b)
  }

  /** s' continues s: registers below n and the environment are unchanged. */
  ghost predicate Keeps(n: nat, s: State, s': State) {
    && s.Run? && s'.Run? && s'.env == s.env
    && forall r :: r < n && r in s.regs ==> r in s'.regs && s'.regs[r] == s.regs[r]
  }

  /** An operand the code emitted so far has defined. */
  ghost predicate Live(o: Opnd, n: nat, s: State) {
    s.Run? && Def(o, s) && (o.R? ==> o.r < n)
  }

  function Put(b: Code, r: Rhs): (c: Code)
    requires Open(b)
    ensures Frame(b, c) && c.next == b.next + 1
  {
    Bump(Emit(b, Let(b.next, r)), 1)
  }

  lemma PutRuns(p: Prog, b: Code, r: Rhs, s: State) returns (t: State)
    requires Here(b, s) && Grows(Put(b, r).blocks, p) && Value(r, s).Some?
    ensures Reaches(p, s, t) && Here(Put(b, r), t) && Keeps(b.next, s, t)
    ensures t.regs == s.regs[b.next := Value(r, s).value] && t.ops == s.ops + Cost(r) && t.prev == s.prev
    ensures Live(R(b.next), b.next + 1, t) && Get(R(b.next), t) == Value(r, s).value
  {
    t := Exec(Let(b.next, r), s);
    var c := Put(b, r);
    assert c.blocks[b.cur].code[s.pc] == Let(b.next, r);
    assert p[b.cur].code[s.pc] == Let(b.next, r);
    assert Step(p, s) == t;
    OneStep(p, s);
  }

  /** Branch to an error exit when cond holds, continue in a new block otherwise. */
  function FailIf(b: Code, cond: Opnd, e: Error): (c: Code)
    requires Open(b)
    ensures Frame(b, c) && c.next == b.next
  {
    var bad, ok := |b.blocks|, |b.blocks| + 1;
    var b1 := Close(NewBlock(NewBlock(b)), CondBr(cond, bad, ok));
    At(Close(At(b1, bad), Fail(e)), ok)
  }

  lemma FailIfRuns(p: Prog, b: Code, cond: Opnd, e: Error, s: State) returns (t: State)
    requires Here(b, s) && Grows(FailIf(b, cond, e).blocks, p) && Live(cond, b.next, s)
    ensures Reaches(p, s, t)
    ensures Get(cond, s) == 1 ==> t == Raised(e, s.ops)
    ensures Get(cond, s) != 1 ==>
      Here(FailIf(b, cond, e), t) && Keeps(b.next, s, t) && t.regs == s.regs && t.ops == s.ops
  {
    var bad, ok := |b.blocks|, |b.blocks| + 1;
    var c := FailIf(b, cond, e);
    assert c.blocks[b.cur] == BB(b.blocks[b.cur].code, Some(CondBr(cond, bad, ok)));
    assert p[b.cur] == c.blocks[b.cur];
    t := Step(p, s);
    OneStep(p, s);
    if Get(cond, s) == 1 {
      assert c.blocks[bad] == BB([], Some(Fail(e)));
      assert p[bad] == c.blocks[bad];
      OneStep(p, t);
      ReachesTrans(p, s, t, Step(p, t));
      t := Step(p, t);
    }
  }

  /** From s0 at b0 the code up to b has brought the machine to s. */
  ghost predicate Sofar(p: Prog, b0: Code, b: Code, s0: State, s: State) {
    Frame(b0, b) && Here(b, s) && Reaches(p, s0, s) && Keeps(b0.next, s0, s)
  }

  lemma Start(p: Prog, b: Code, s: State)
    requires Here(b, s)
    ensures Sofar(p, b, b, s, s)
  {
    NoStep(p, s);
  }

  lemma Back(b: Code, c: Code, p: Prog)
    requires Frame(b, c) && Grows(c.blocks, p)
    ensures Grows(b.blocks, p)
  {
  }

  lemma Opens(b: Code, c: Code)
    requires Frame(b, c)
    ensures Open(c) && b.next <= c.next
  {
  }

  lemma SofarTrans(p: Prog, a: Code, b: Code, c: Code, s: State, t: State, u: State)
    requires Sofar(p, a, b, s, t) && Sofar(p, b, c, t, u)
    ensures Sofar(p, a, c, s, u)
  {
    ReachesTrans(p, s, t, u);
    FrameTrans(a, b, c);
  }

  lemma PutNext(p: Prog, b0: Code, b: Code, r: Rhs, s0: State, s: State) returns (t: State)
    requires Sofar(p, b0, b, s0, s) && Grows(Put(b, r).blocks, p) && Value(r, s).Some?
    ensures Sofar(p, b0, Put(b, r), s0, t) && Keeps(b.next, s, t)
    ensures Live(R(b.next), b.next + 1, t) && Get(R(b.next), t) == Value(r, s).value
    ensures t.ops == s.ops + Cost(r) && t.prev == s.prev
  {
    t := PutRuns(p, b, r, s);
    ReachesTrans(p, s0, s, t);
    FrameTrans(b0, b, Put(b, r));
  }

  lemma FailIfNext(p: Prog, b0: Code, b: Code, cond: Opnd, e: Error, s0: State, s: State) returns (t: State)
    requires Sofar(p, b0, b, s0, s) && Grows(FailIf(b, cond, e).blocks, p) && Live(cond, b.next, s)
    ensures Get(cond, s) == 1 ==> Reaches(p, s0, t) && t == Raised(e, s.ops)
    ensures Get(cond, s) != 1 ==> Sofar(p, b0, FailIf(b, cond, e), s0, t) && Keeps(b.next, s, t) && t.ops == s.ops
  {
    t := FailIfRuns(p, b, cond, e, s);
    ReachesTrans(p, s0, s, t);
    FrameTrans(b0, b, FailIf(b, cond, e));
  }

  // ---- one-armed branches: run extra code in a new block, or skip it, and join with a phi ----

  /** Branch on cond to a new block (when cond == taken) or straight to the join block after it. */
  function Fork(b: Code, cond: Opnd, taken: bool): (c: Code)
    requires Open(b)
    ensures Open(c) && c.cur == |b.blocks| && End(c) == 0 && c.next == b.next
  {
    var body, join := |b.blocks|, |b.blocks| + 1;
    At(Close(NewBlock(NewBlock(b)), if taken then CondBr(cond, body, join) else CondBr(cond, join, body)), body)
  }

  /** Leave the extra block for the join, where o is v, or 0 if the block was skipped. */
  function Meet(b: Code, cond: Opnd, taken: bool, mid: Code, v: Opnd): (r: (Code, Opnd))
    requires Open(b) && Frame(Fork(b, cond, taken), mid)
    ensures Frame(b, r.0)
  {
    var join := |b.blocks| + 1;
    var b1 := At(Close(mid, Br(join)), join);
    (Put(b1, Phi(b.cur, K(0), mid.cur, v)), R(b1.next))
  }

  lemma ForkRuns(p: Prog, b: Code, cond: Opnd, taken: bool, mid: Code, v: Opnd, s: State) returns (t: State)
    requires Here(b, s) && Frame(Fork(b, cond, taken), mid) && Live(cond, b.next, s)
    requires Grows(Meet(b, cond, taken, mid, v).0.blocks, p)
    ensures Grows(mid.blocks, p) && Reaches(p, s, t) && t.Run? && t.ops == s.ops && Keeps(b.next, s, t)
    ensures (Get(cond, s) == 1) == taken ==> Here(Fork(b, cond, taken), t) && t.regs == s.regs
    ensures (Get(cond, s) == 1) != taken ==>
      var (c, o) := Meet(b, cond, taken, mid, v); Here(c, t) && Live(o, c.next, t) && Get(o, t) == 0
  {
    var join := |b.blocks| + 1;
    var fork := Fork(b, cond, taken);
    var b1 := At(Close(mid, Br(join)), join);
    var c := Meet(b, cond, taken, mid, v).0;
    GrowsTrans(mid.blocks, c.blocks, p);
    assert p[b.cur] == fork.blocks[b.cur];
    t := Step(p, s);
    OneStep(p, s);
    if (Get(cond, s) == 1) != taken {
      var s1 := t;
      t := PutRuns(p, b1, Phi(b.cur, K(0), mid.cur, v), s1);
      ReachesTrans(p, s, s1, t);
    }
  }

  lemma MeetRuns(p: Prog, b: Code, cond: Opnd, taken: bool, mid: Code, v: Opnd, s: State) returns (t: State)
    requires Open(b) && Frame(Fork(b, cond, taken), mid) && Here(mid, s) && Live(v, mid.next, s)
    requires Grows(Meet(b, cond, taken, mid, v).0.blocks, p)
    ensures Reaches(p, s, t) && t.Run? && t.ops == s.ops && Keeps(b.next, s, t)
    ensures var (c, o) := Meet(b, cond, taken, mid, v); Here(c, t) && Live(o, c.next, t) && Get(o, t) == Get(v, s)
  {
    var join := |b.blocks| + 1;
    var b1 := At(Close(mid, Br(join)), join);
    var c := Meet(b, cond, taken, mid, v).0;
    assert c.blocks[mid.cur] == BB(mid.blocks[mid.cur].code, Some(Br(join)));
    assert p[mid.cur] == c.blocks[mid.cur];
    var s1 := Step(p, s);
    OneStep(p, s);
    t := PutRuns(p, b1, Phi(b.cur, K(0), mid.cur, v), s1);
    ReachesTrans(p, s, s1, t);
  }
}
