/** What a loop does with its body, whatever drives it. */
module LoopPlay {

  /** How one run of the body ends, after the loop has compared labels: go on, leave this loop,
      leave for an outer construct or the function, raise. */
  datatype BodyRc = Go | Stop | Up | Throw

  /** How the loop ends; Cut when only a finite part of a longer run is given. */
  datatype Ending = Finished | Stopped | WentUp | Threw | Cut

  datatype Played<T> = Played(seen: seq<T>, ending: Ending)

  /** The loop over values vs as it is meant: the body runs once per value, in order, until it stops.
      `rcs` are the results of its successive runs. */
  function Play<T>(vs: seq<T>, rcs: seq<BodyRc>): (r: Played<T>)
    ensures |r.seen| <= |vs| && r.seen == vs[..|r.seen|]
    decreases |vs|
  {
    if vs == [] then Played([], Finished)
    else if rcs == [] then Played([], Cut)
    else match rcs[0]
      case Go => var r := Play(vs[1..], rcs[1..]); Played([vs[0]] + r.seen, r.ending)
      case Stop => Played([vs[0]], Stopped)
      case Up => Played([vs[0]], WentUp)
      case Throw => Played([vs[0]], Threw)
  }

  /** What is played once seen has been, with n results of the body used up and vs to come. */
  function Ahead<T>(seen: seq<T>, vs: seq<T>, rcs: seq<BodyRc>, n: nat): Played<T>
    requires n <= |rcs|
  {
    var p := Play(vs, rcs[n..]);
    Played(seen + p.seen, p.ending)
  }

  /** One more run of the body. */
  lemma Onward<T>(seen: seq<T>, v: T, rest: seq<T>, rcs: seq<BodyRc>, n: nat)
    requires n < |rcs|
    ensures Ahead(seen, [v] + rest, rcs, n) ==
      if rcs[n].Go? then Ahead(seen + [v], rest, rcs, n + 1) else Played(seen + [v], EndingOf(rcs[n]))
  {
    assert rcs[n..][1..] == rcs[n + 1..] && ([v] + rest)[1..] == rest;
    var p := Play(rest, rcs[n + 1..]);
    assert seen + ([v] + p.seen) == seen + [v] + p.seen;
  }

  /** Nothing played yet; nothing left to play; results used up. */
  lemma AtStart<T>(vs: seq<T>, rcs: seq<BodyRc>)
    ensures Ahead([], vs, rcs, 0) == Play(vs, rcs)
  {
    assert rcs[0..] == rcs;
  }

  lemma AtEnd<T>(seen: seq<T>, rcs: seq<BodyRc>, n: nat)
    requires n <= |rcs|
    ensures Ahead(seen, [], rcs, n) == Played(seen, Finished)
  {
  }

  lemma AtCut<T>(seen: seq<T>, v: T, rest: seq<T>, rcs: seq<BodyRc>)
    ensures Ahead(seen, [v] + rest, rcs, |rcs|) == Played(seen, Cut)
  {
  }

  /** A body that ends gives a loop that ends. */
  lemma {:induction false} PlayEnds<T>(vs: seq<T>, rcs: seq<BodyRc>)
    requires |rcs| >= |vs|
    ensures Play(vs, rcs).ending != Cut
    decreases |vs|
  {
    if vs != [] { PlayEnds(vs[1..], rcs[1..]); }
  }

  /** A loop that finishes has seen everything. */
  lemma {:induction false} PlayFinishes<T>(vs: seq<T>, rcs: seq<BodyRc>)
    requires Play(vs, rcs).ending.Finished?
    ensures Play(vs, rcs).seen == vs
    decreases |vs|
  {
    if vs != [] && rcs != [] && rcs[0].Go? { PlayFinishes(vs[1..], rcs[1..]); }
  }

  function EndingOf(rc: BodyRc): Ending {
    match rc case Go => Finished case Stop => Stopped case Up => WentUp case Throw => Threw
  }
}

/** The integer FOR loop, interpreted and compiled. */
module IntegerLoop {
  import opened Cfg
  import opened Words
  import opened LoopPlay

  /** Values of the loop over unbounded integers. */
  function Values(reverse: bool, lo: int, hi: int, step: int): (r: seq<int>)
    requires step >= 1
    decreases if reverse then lo - hi else hi - lo
  {
    if (if reverse then lo < hi else lo > hi) then []
    else [lo] + Values(reverse, if reverse then lo - step else lo + step, hi, step)
  }

  /** The k-th value is k steps from the first, and there is one exactly while that is not past the end. */
  lemma {:induction false} ValuesAt(reverse: bool, lo: int, hi: int, step: int, k: nat, far: int)
    requires step >= 1 && far == k * step
    ensures k < |Values(reverse, lo, hi, step)| <==> (if reverse then lo - far >= hi else lo + far <= hi)
    ensures k < |Values(reverse, lo, hi, step)| ==>
      Values(reverse, lo, hi, step)[k] == if reverse then lo - far else lo + far
    decreases k
  {
    ValuesIs(reverse, lo, hi, step);
    if k > 0 {
      assert far - step == (k - 1) * step;
      var next := if reverse then lo - step else lo + step;
      if !Past(reverse, lo, hi) {
        var rest := Values(reverse, next, hi, step);
        ValuesAt(reverse, next, hi, step, k - 1, far - step);
        assert k - 1 < |rest| ==> ([lo] + rest)[k] == rest[k - 1];
      } else {
        assert far >= 0 by { assert (k - 1) * step >= 0; }
      }
    }
  }

  predicate Past(reverse: bool, cur: int, end: int) { if reverse then cur < end else cur > end }

  lemma ValuesIs(reverse: bool, cur: int, end: int, step: int)
    requires step >= 1
    ensures Values(reverse, cur, end, step) ==
      if Past(reverse, cur, end) then []
      else [cur] + Values(reverse, if reverse then cur - step else cur + step, end, step)
  {
  }

  datatype Error = NullBound | BadStep

  /** Bounds as evaluated; no BY clause means 1. */
  datatype Bounds = Bounds(lower: Option<int>, upper: Option<int>, step: Option<Option<int>>)

  predicate Typed(b: Bounds) {
    && (b.lower.Some? ==> Int32(b.lower.value)) && (b.upper.Some? ==> Int32(b.upper.value))
    && (b.step.Some? && b.step.value.Some? ==> Int32(b.step.value.value))
  }

  function StepOf(b: Bounds): int
    requires b.step.Some? ==> b.step.value.Some?
  {
    if b.step.None? then 1 else b.step.value.value
  }

  predicate AnyNull(b: Bounds) { b.lower.None? || b.upper.None? || (b.step.Some? && b.step.value.None?) }

  /** What a loop left behind: an error before the loop, or what it played and the value given to FOUND. */
  datatype Run = Failed(error: Error) | Ran(played: Played<int>, found: Option<bool>)

  function Meant(reverse: bool, b: Bounds, rcs: seq<BodyRc>): Played<int>
    requires !AnyNull(b) && StepOf(b) >= 1
  {
    Play(Values(reverse, b.lower.value, b.upper.value, StepOf(b)), rcs)
  }

  /** The value after k steps. */
  function After(reverse: bool, lo: int, step: int, k: nat): int { if reverse then lo - k * step else lo + k * step }

  /** What was seen goes from lo by step, none of it past hi; a loop that finished has seen all such values. */
  ghost predicate Visits(reverse: bool, lo: int, hi: int, step: int, p: Played<int>) {
    && (forall k :: 0 <= k < |p.seen| ==>
          p.seen[k] == After(reverse, lo, step, k) && if reverse then p.seen[k] >= hi else p.seen[k] <= hi)
    && (p.ending.Finished? ==> var next := After(reverse, lo, step, |p.seen|); if reverse then next < hi else next > hi)
  }

  lemma PlayVisits(reverse: bool, lo: int, hi: int, step: int, rcs: seq<BodyRc>)
    requires step >= 1
    ensures Visits(reverse, lo, hi, step, Play(Values(reverse, lo, hi, step), rcs))
  {
    hide Values, Play;
    var vs := Values(reverse, lo, hi, step);
    var p := Play(vs, rcs);
    forall k | 0 <= k < |p.seen|
      ensures p.seen[k] == After(reverse, lo, step, k) && if reverse then p.seen[k] >= hi else p.seen[k] <= hi
    {
      ValuesAt(reverse, lo, hi, step, k, k * step);
      assert p.seen[k] == vs[k];
    }
    if p.ending.Finished? {
      PlayFinishes(vs, rcs);
      ValuesAt(reverse, lo, hi, step, |vs|, |vs| * step);
    }
  }

  /** The interpreter's loop.  Its counter never leaves int4, even at the ends of the range. */
  method Fori(reverse: bool, b: Bounds, rcs: seq<BodyRc>) returns (r: Run)
    requires Typed(b)
    ensures r == Failed(NullBound) <==> AnyNull(b)
    ensures r == Failed(BadStep) <==> !AnyNull(b) && StepOf(b) <= 0
    ensures r.Failed? ==> AnyNull(b) || StepOf(b) <= 0
    ensures r.Ran? ==> r.played == Meant(reverse, b, rcs)
    ensures r.Ran? ==>
      Visits(reverse, b.lower.value, b.upper.value, if b.step.None? then 1 else b.step.value.value, r.played)
    ensures r.Ran? ==>
      r.found == if r.played.ending.Threw? || r.played.ending.Cut? then None else Some(r.played.seen != [])
  {
    hide Values, Play, Ahead, Visits, After;
    if b.lower.None? || b.upper.None? { return Failed(NullBound); }
    if b.step.Some? && b.step.value.None? { return Failed(NullBound); }
    var step := StepOf(b);
    if step <= 0 { return Failed(BadStep); }
    PlayVisits(reverse, b.lower.value, b.upper.value, step, rcs);
    var end, cur, n, found, seen := b.upper.value, b.lower.value, 0, false, [];
    AtStart(Values(reverse, cur, end, step), rcs);
    while true
      invariant Int32(cur) && n <= |rcs| && found == (seen != [])
      invariant Meant(reverse, b, rcs) == Ahead(seen, Values(reverse, cur, end, step), rcs, n)
      decreases if reverse then cur - end else end - cur
    {
      ValuesIs(reverse, cur, end, step);
      if Past(reverse, cur, end) { break; }
      ghost var next := if reverse then cur - step else cur + step;
      ghost var rest := Values(reverse, next, end, step);
      AtCut(seen, cur, rest, rcs);
      if n == |rcs| { return Ran(Played(seen, Cut), None); }
      Onward(seen, cur, rest, rcs, n);
      found := true;
      seen := seen + [cur];
      var rc := rcs[n];
      if rc.Throw? { return Ran(Played(seen, Threw), None); }
      if rc != Go { return Ran(Played(seen, EndingOf(rc)), Some(found)); }
      n := n + 1;
      ValuesIs(reverse, next, end, step);
      if reverse {
        assert Int32(MIN32 + step);
        if cur < MIN32 + step { break; }
        cur := cur - step;
      } else {
        assert Int32(MAX32 - step);
        if cur > MAX32 - step { break; }
        cur := cur + step;
      }
    }
    AtEnd(seen, rcs, n);
    return Ran(Played(seen, Finished), Some(found));
  }

  /** The compiled loop: the step is not checked, overflow shows as the counter moving the wrong way,
      and FOUND is set only on the way through the exit block. */
  method ForiCompiled(reverse: bool, b: Bounds, rcs: seq<BodyRc>) returns (r: Run)
    requires Typed(b)
    ensures r == Failed(NullBound) <==> AnyNull(b)
    ensures r.Failed? ==> AnyNull(b)
    ensures r.Ran? && StepOf(b) >= 1 ==> r.played == Meant(reverse, b, rcs)
    ensures r.Ran? && (b.step.None? || b.step.value.value >= 1) ==>
      Visits(reverse, b.lower.value, b.upper.value, if b.step.None? then 1 else b.step.value.value, r.played)
    ensures r.Ran? ==>
      r.found == if r.played.ending.Finished? || r.played.ending.Stopped? then Some(r.played.seen != []) else None
  {
    hide Values, Play, Ahead, Visits, After;
    if b.lower.None? || b.upper.None? { return Failed(NullBound); }
    if b.step.Some? && b.step.value.None? { return Failed(NullBound); }
    var step := StepOf(b);
    var end, cur, n, found, seen := b.upper.value, b.lower.value, 0, false, [];
    if step >= 1 {
      PlayVisits(reverse, cur, end, step, rcs);
      AtStart(Values(reverse, cur, end, step), rcs);
    }
    while true
      invariant Int32(cur) && n <= |rcs| && found == (seen != [])
      invariant step >= 1 ==> Meant(reverse, b, rcs) == Ahead(seen, Values(reverse, cur, end, step), rcs, n)
      decreases |rcs| - n
    {
      ghost var plain := if reverse then cur - step else cur + step;
      if step >= 1 { ValuesIs(reverse, cur, end, step); }
      if Past(reverse, cur, end) { break; }
      if step >= 1 { AtCut(seen, cur, Values(reverse, plain, end, step), rcs); }
      if n == |rcs| { return Ran(Played(seen, Cut), None); }
      if step >= 1 { Onward(seen, cur, Values(reverse, plain, end, step), rcs, n); }
      found := true;
      seen := seen + [cur];
      var rc := rcs[n];
      if rc.Throw? { return Ran(Played(seen, Threw), None); }
      if rc.Up? { return Ran(Played(seen, WentUp), None); }
      if rc.Stop? { return Ran(Played(seen, Stopped), Some(found)); }
      n := n + 1;
      if step >= 1 { ValuesIs(reverse, plain, end, step); }
      var next := if reverse then Wrap32(cur - step) else Wrap32(cur + step);
      if (if reverse then next > cur else next < cur) { break; }
      cur := next;
    }
    AtEnd(seen, rcs, n);
    return Ran(Played(seen, Finished), Some(found));
  }

  /** Interpreted and compiled loops do the same exactly when no step is given or it is at least 1:
      with a smaller one the interpreter raises and the compiled loop runs. */
  method BothLoops(reverse: bool, b: Bounds, rcs: seq<BodyRc>) returns (interpreted: Run, compiled: Run)
    requires Typed(b)
    ensures interpreted.Failed? == compiled.Failed? <==> AnyNull(b) || StepOf(b) >= 1
    ensures interpreted.Ran? && compiled.Ran? ==> interpreted.played == compiled.played
    ensures interpreted.Ran? && compiled.Ran? ==>
      (interpreted.found == compiled.found <==> interpreted.played.ending != WentUp)
  {
    interpreted := Fori(reverse, b, rcs);
    compiled := ForiCompiled(reverse, b, rcs);
  }

  /** A loop left for outside at its first value: FOUND is set interpreted, and not compiled. */
  method LeftForOutside(lo: int) returns (interpreted: Run, compiled: Run)
    requires Int32(lo)
    ensures interpreted == Ran(Played([lo], WentUp), Some(true)) && compiled == Ran(Played([lo], WentUp), None)
  {
    var b := Bounds(Some(lo), Some(lo), None);
    interpreted := Fori(false, b, [Up]);
    compiled := ForiCompiled(false, b, [Up]);
    ValuesIs(false, lo, lo, 1);
    ValuesIs(false, lo + 1, lo, 1);
    assert Meant(false, b, [Up]) == Play([lo], [Up]) == Played([lo], WentUp);
  }

  /** BY 0 or less: an error interpreted; compiled, the loop starts. */
  method StepUnchecked(lo: int, hi: int, step: int) returns (interpreted: Run, compiled: Run)
    requires Int32(lo) && Int32(hi) && Int32(step) && step <= 0
    ensures interpreted == Failed(BadStep) && compiled.Ran?
  {
    var b := Bounds(Some(lo), Some(hi), Some(Some(step)));
    interpreted := Fori(false, b, []);
    compiled := ForiCompiled(false, b, []);
  }
}

/** Row loops: fetching in batches, and binding each row to the loop variable. */
module RowLoop {
  import opened Cfg
  import opened LoopPlay
  import opened RowMoves

  /** A portal hands out its remaining rows. */
  class Portal<T> {
    const rows: seq<T>
    var pos: nat

    ghost predicate Valid()
      reads this
    {
      pos <= |rows|
    }

    constructor (rows: seq<T>)
      ensures Valid() && this.rows == rows && pos == 0
    {
      this.rows, pos := rows, 0;
    }

    method Fetch(count: nat) returns (batch: seq<T>)
      requires Valid()
      modifies this
      ensures pos == (if old(pos) + count <= |rows| then old(pos) + count else |rows|) && batch == rows[old(pos)..pos]
    {
      var to := if pos + count <= |rows| then pos + count else |rows|;
      batch := rows[pos..to];
      pos := to;
    }
  }

  /** Rows asked for after m further fetches. */
  function Asked(prefetch: bool, m: nat): nat { if prefetch then 10 + 50 * m else 1 + m }

  /** Fetching is no further ahead than the batch in use: after m further fetches, all earlier batches are used up. */
  ghost predicate FetchedTo(pos: nat, total: nat, prefetch: bool, m: nat, used: nat) {
    && pos == (if Asked(prefetch, m) < total then Asked(prefetch, m) else total)
    && (m > 0 ==> used >= if Asked(prefetch, m - 1) < total then Asked(prefetch, m - 1) else total)
  }

  /** The loop over a portal's rows: 10 rows first, then 50 at a time, or one by one. */
  method ForQuery<T(==)>(portal: Portal<T>, prefetch: bool, rcs: seq<BodyRc>)
    returns (r: Played<T>, found: Option<bool>)
    requires portal.Valid() && portal.pos == 0
    modifies portal
    ensures r == Play(portal.rows, rcs)
    ensures found == if r.ending.Threw? || r.ending.Cut? then None else Some(portal.rows != [])
    ensures exists m :: FetchedTo(portal.pos, |portal.rows|, prefetch, m, |r.seen|)
  {
    hide Play, Ahead;
    ghost var m: nat := 0;
    var rows := portal.rows;
    var batch := portal.Fetch(if prefetch then 10 else 1);
    var isFound, seen := batch != [], [];
    AtStart(rows, rcs);
    assert rows[0..] == rows;
    while batch != []
      invariant portal.pos <= |rows| && |seen| + |batch| == portal.pos && batch == rows[|seen|..portal.pos]
      invariant batch == [] ==> |seen| == |rows|
      invariant FetchedTo(portal.pos, |rows|, prefetch, m, |seen|)
      invariant |seen| <= |rcs| && Play(rows, rcs) == Ahead(seen, rows[|seen|..], rcs, |seen|)
      decreases |rows| - |seen|
    {
      ghost var start := |seen|;
      for i := 0 to |batch|
        modifies {}
        invariant FetchedTo(portal.pos, |rows|, prefetch, m, |seen|)
        invariant |seen| == start + i <= |rcs| && Play(rows, rcs) == Ahead(seen, rows[|seen|..], rcs, |seen|)
      {
        ghost var n := |seen|;
        assert rows[n..] == [batch[i]] + rows[n + 1..];
        AtCut(seen, batch[i], rows[n + 1..], rcs);
        if |seen| == |rcs| { return Played(seen, Cut), None; }
        Onward(seen, batch[i], rows[n + 1..], rcs, n);
        var rc := rcs[|seen|];
        seen := seen + [batch[i]];
        assert FetchedTo(portal.pos, |rows|, prefetch, m, |seen|);
        if rc.Throw? { return Played(seen, Threw), None; }
        if rc != Go { return Played(seen, EndingOf(rc)), Some(isFound); }
      }
      batch := portal.Fetch(if prefetch then 50 else 1);
      m := m + 1;
    }
    assert rows[|seen|..] == [];
    AtEnd(seen, rcs, |seen|);
    return Played(seen, Finished), Some(isFound);
  }

  /** A record variable: the identifier of its row descriptor, if it has a value, and its fields. */
  class Target {
    var descriptor: Option<nat>
    var fields: seq<Val>

    constructor ()
      ensures descriptor == None && fields == []
    {
      descriptor, fields := None, [];
    }
  }

  /** Row descriptors by identifier; an identifier never changes its meaning. */
  type Registry = nat -> seq<Attr>

  /** What the loop remembers: once a record with descriptor `previous` was found to fit, rows may be
      put into any record that still has that descriptor. */
  ghost predicate Remembers(src: seq<Attr>, reg: Registry, previous: Option<nat>, matches: bool) {
    matches && previous.Some? ==> Compatible(src, reg(previous.value))
  }

  /** Assign a row to a record.  `built` identifies the descriptor of a newly built record; `direct`
      says that its row type is the source's own. */
  method MoveRow(t: Target, row: seq<Val>, src: seq<Attr>, reg: Registry, built: nat, direct: bool, level: Level,
                 cast: Caster) returns (out: Outcome)
    requires |row| == |src| && Modifiers(reg(built)) && (direct ==> reg(built) == src)
    modifies t
    ensures out.Done? ==> t.descriptor == Some(built) && |t.fields| == |reg(built)|
    ensures out.Done? ==> Moves(row, src, reg(built), level, cast, out, t.fields)
    ensures Compatible(src, reg(built)) ==> out.Done? && t.fields == row
    ensures !out.Done? ==>
      t.descriptor == old(t.descriptor) && t.fields == old(t.fields) &&
      exists got: seq<Val> :: |got| == |reg(built)| && Moves(row, src, reg(built), level, cast, out, got)
  {
    var ok := direct;
    if !ok { ok := CompatibleTupdescs(src, reg(built)); }
    if ok {
      FastPathMoves(row, src, reg(built), level, cast);
      t.fields, t.descriptor := row, Some(built);
      return Done(0);
    }
    var got;
    out, got := MoveFields(row, src, reg(built), level, cast);
    if out.Done? { t.fields, t.descriptor := got[..], Some(built); }
  }

  /** Bind the next row to the loop variable: straight into the record when nothing has changed since
      the last row, else by a full move.  Either way the record holds what a full move into a record of
      its descriptor would give. */
  method BindRow(t: Target, row: seq<Val>, src: seq<Attr>, reg: Registry, built: nat, direct: bool, level: Level,
                 cast: Caster, previous: Option<nat>, matches: bool)
    returns (out: Outcome, previous': Option<nat>, matches': bool)
    requires |row| == |src| && (forall id :: Modifiers(reg(id))) && (direct ==> reg(built) == src)
    requires Remembers(src, reg, previous, matches)
    modifies t
    ensures Remembers(src, reg, previous', matches')
    ensures out.Done? ==> t.descriptor.Some? && t.descriptor == previous' && |t.fields| == |reg(t.descriptor.value)|
    ensures out.Done? ==> Moves(row, src, reg(t.descriptor.value), level, cast, out, t.fields)
    ensures out.Done? ==> (matches' <==> matches && Compatible(src, reg(t.descriptor.value)))
  {
    previous', matches' := previous, matches;
    if t.descriptor.Some? && t.descriptor == previous && matches {
      FastPathMoves(row, src, reg(previous.value), level, cast);
      t.fields := row;
      return Done(0), previous', matches';
    }
    out := MoveRow(t, row, src, reg, built, direct, level, cast);
    if out.Done? {
      if matches {
        matches' := direct;
        if !direct { matches' := CompatibleTupdescs(src, reg(built)); }
      }
      previous' := t.descriptor;
    }
  }
}
