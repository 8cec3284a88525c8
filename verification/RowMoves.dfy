/** Moving a row into a record or a list of variables. */
module RowMoves {
  import opened Cfg

  /** A column: dropped ones keep their place. */
  datatype Attr = Attr(dropped: bool, typ: int, typmod: int, len: int, align: int)

  datatype Val = Val(bits: int, isnull: bool)

  /** A value with its type and type modifier. */
  datatype Typed = Typed(val: Val, typ: int, typmod: int)

  const UNKNOWN := 705

  /** The conversion used when types differ; it may fail. */
  type Caster = (Typed, int, int) -> Option<Val>

  function CastValue(v: Typed, typ: int, typmod: int, cast: Caster): Option<Val> {
    if v.typ != typ || (v.typmod != typmod && typmod != -1) then cast(v, typ, typmod) else Some(v.val)
  }

  datatype Level = Off | Warning | Error

  datatype Outcome = Done(warnings: nat) | CastFailed | Mismatch

  /** Positions of the live columns. */
  function Lives(d: seq<Attr>): (r: seq<nat>)
    ensures |r| <= |d| && forall k :: 0 <= k < |r| ==> r[k] < |d| && !d[r[k]].dropped
    ensures forall j, k :: 0 <= j < k < |r| ==> r[j] < r[k]
  {
    if d == [] then []
    else
      var n := |d| - 1;
      Lives(d[..n]) + if d[n].dropped then [] else [n]
  }

  lemma LivesNext(d: seq<Attr>, i: nat)
    requires i < |d|
    ensures Lives(d[..i + 1]) == Lives(d[..i]) + if d[i].dropped then [] else [i]
  {
    assert d[..i + 1][..i] == d[..i];
  }

  lemma {:induction false} LivesPrefix(d: seq<Attr>, i: nat)
    requires i <= |d|
    ensures Lives(d[..i]) <= Lives(d)
    decreases |d| - i
  {
    if i == |d| { assert d[..i] == d; } else { LivesNext(d, i); LivesPrefix(d, i + 1); }
  }

  /** Column i is live: it is the next one after those before i. */
  lemma LiveAt(d: seq<Attr>, i: nat)
    requires i < |d| && !d[i].dropped
    ensures |Lives(d[..i])| < |Lives(d)| && Lives(d)[|Lives(d[..i])|] == i
  {
    LivesNext(d, i);
    LivesPrefix(d, i + 1);
  }

  /** The k-th live source column, or a NULL of unknown type. */
  function SourceOf(values: seq<Val>, src: seq<Attr>, k: nat): Typed
    requires |values| == |src|
  {
    var ls := Lives(src);
    if k < |ls| then Typed(values[ls[k]], src[ls[k]].typ, src[ls[k]].typmod) else Typed(Val(0, true), UNKNOWN, -1)
  }

  /** What the k-th live target column gets. */
  function Cell(values: seq<Val>, src: seq<Attr>, dst: seq<Attr>, k: nat, cast: Caster): Option<Val>
    requires |values| == |src| && k < |Lives(dst)|
  {
    var t := dst[Lives(dst)[k]];
    CastValue(SourceOf(values, src, k), t.typ, t.typmod, cast)
  }

  /** The meaning of a move.  The k-th live target gets the k-th live source or NULL; a strict check
      fires exactly when the live counts differ, at the first target without a source or after all
      targets if sources are left. */
  ghost predicate Moves(values: seq<Val>, src: seq<Attr>, dst: seq<Attr>, level: Level, cast: Caster, out: Outcome,
                        got: seq<Val>)
    requires |values| == |src| && |got| == |dst|
  {
    var n, m := |Lives(src)|, |Lives(dst)|;
    match out
    case Done(w) =>
      && (forall k :: 0 <= k < m ==> Cell(values, src, dst, k, cast) == Some(got[Lives(dst)[k]]))
      && (level == Error ==> n == m)
      && w == (if level != Warning then 0 else if n < m then m - n else if n > m then 1 else 0)
    case CastFailed =>
      exists k :: 0 <= k < m && Cell(values, src, dst, k, cast) == None && (level == Error ==> k < n) &&
        (forall j :: 0 <= j < k ==> Cell(values, src, dst, j, cast).Some?)
    case Mismatch =>
      level == Error && n != m && forall k :: 0 <= k < n && k < m ==> Cell(values, src, dst, k, cast).Some?
  }

  /** A move has one outcome, and one value for every live target. */
  lemma MovesOnce(values: seq<Val>, src: seq<Attr>, dst: seq<Attr>, level: Level, cast: Caster, o1: Outcome,
                  g1: seq<Val>, o2: Outcome, g2: seq<Val>)
    requires |values| == |src| && |g1| == |dst| == |g2|
    requires Moves(values, src, dst, level, cast, o1, g1) && Moves(values, src, dst, level, cast, o2, g2)
    ensures o1 == o2
    ensures o1.Done? ==> forall k :: 0 <= k < |Lives(dst)| ==> g1[Lives(dst)[k]] == g2[Lives(dst)[k]]
  {
    if o1.Done? && o2.Done? {
      forall k | 0 <= k < |Lives(dst)| ensures g1[Lives(dst)[k]] == g2[Lives(dst)[k]] {
        assert Cell(values, src, dst, k, cast) == Some(g1[Lives(dst)[k]]);
      }
    }
  }

  /** Position of the next live source column. */
  method SkipDropped(src: seq<Attr>, start: nat) returns (anum: nat)
    requires start <= |src|
    ensures start <= anum <= |src| && (anum < |src| ==> !src[anum].dropped) && Lives(src[..anum]) == Lives(src[..start])
    ensures forall k :: start <= k < anum ==> src[k].dropped
  {
    anum := start;
    while anum < |src| && src[anum].dropped
      invariant start <= anum <= |src| && Lives(src[..anum]) == Lives(src[..start])
      invariant forall k :: start <= k < anum ==> src[k].dropped
    {
      LivesNext(src, anum);
      anum := anum + 1;
    }
  }

  /** Where the walk over the source stands after k live targets. */
  ghost predicate At(src: seq<Attr>, anum: nat, k: nat) {
    anum <= |src| && |Lives(src[..anum])| == (if k <= |Lives(src)| then k else |Lives(src)|)
  }

  /** The walk has reached the source for live target k, or the end of the sources. */
  lemma Reached(src: seq<Attr>, anum: nat, k: nat)
    requires At(src, anum, k) && (anum < |src| ==> !src[anum].dropped)
    ensures anum < |src| <==> k < |Lives(src)|
    ensures anum < |src| ==> Lives(src)[k] == anum && At(src, anum + 1, k + 1)
    ensures anum == |src| ==> At(src, anum, k + 1)
  {
    if anum < |src| {
      LiveAt(src, anum);
      LivesNext(src, anum);
      LivesPrefix(src, anum + 1);
    } else {
      assert src[..anum] == src;
    }
  }

  /** The next source value, moving past it. */
  method NextSource(values: seq<Val>, src: seq<Attr>, start: nat, ghost k: nat)
    returns (v: Typed, anum: nat, missing: bool)
    requires |values| == |src| && At(src, start, k)
    ensures v == SourceOf(values, src, k) && At(src, anum, k + 1) && (missing <==> k >= |Lives(src)|)
  {
    anum := SkipDropped(src, start);
    Reached(src, anum, k);
    if anum < |src| {
      v, missing := Typed(values[anum], src[anum].typ, src[anum].typmod), false;
      anum := anum + 1;
    } else {
      v, missing := Typed(Val(0, true), UNKNOWN, -1), true;
    }
  }

  /** Sources are left over. */
  method Leftover(src: seq<Attr>, start: nat, ghost m: nat) returns (extra: bool)
    requires At(src, start, m)
    ensures extra <==> |Lives(src)| > m
  {
    var anum := SkipDropped(src, start);
    Reached(src, anum, m);
    extra := anum < |src|;
  }

  /** The first k live targets have their values. */
  ghost predicate Filled(values: seq<Val>, src: seq<Attr>, dst: seq<Attr>, cast: Caster, got: seq<Val>, k: nat)
    requires |values| == |src| && |got| == |dst|
  {
    k <= |Lives(dst)| && forall j :: 0 <= j < k ==> Cell(values, src, dst, j, cast) == Some(got[Lives(dst)[j]])
  }

  lemma FilledNext(values: seq<Val>, src: seq<Attr>, dst: seq<Attr>, cast: Caster, got: seq<Val>, k: nat, fnum: nat,
                   v: Val)
    requires |values| == |src| && |got| == |dst| && Filled(values, src, dst, cast, got, k)
    requires k < |Lives(dst)| && Lives(dst)[k] == fnum && Cell(values, src, dst, k, cast) == Some(v)
    ensures Filled(values, src, dst, cast, got[fnum := v], k + 1)
  {
  }

  /** Whether live target k is reached, seen from column fnum. */
  lemma Rank(dst: seq<Attr>, fnum: nat, k: nat)
    requires fnum < |dst| && k == |Lives(dst[..fnum])|
    ensures |Lives(dst[..fnum + 1])| == if dst[fnum].dropped then k else k + 1
    ensures !dst[fnum].dropped ==> k < |Lives(dst)| && Lives(dst)[k] == fnum
  {
    LivesNext(dst, fnum);
    if !dst[fnum].dropped { LiveAt(dst, fnum); }
  }

  lemma MoveEnds(values: seq<Val>, src: seq<Attr>, dst: seq<Attr>, level: Level, cast: Caster, out: Outcome,
                 got: seq<Val>, k: nat)
    requires |values| == |src| && |got| == |dst| && Filled(values, src, dst, cast, got, k)
    requires level == Error ==> k <= |Lives(src)|
    requires match out
      case Done(w) =>
        && k == |Lives(dst)| && (level == Error ==> |Lives(src)| <= k)
        && w == (if level != Warning then 0
                 else if |Lives(src)| < k then k - |Lives(src)|
                 else if |Lives(src)| > k then 1
                 else 0)
      case CastFailed =>
        k < |Lives(dst)| && Cell(values, src, dst, k, cast).None? && (level == Error ==> k < |Lives(src)|)
      case Mismatch => level == Error && if k < |Lives(dst)| then k == |Lives(src)| else |Lives(src)| > k
    ensures Moves(values, src, dst, level, cast, out, got)
  {
    assert forall j :: 0 <= j < k ==> Cell(values, src, dst, j, cast).Some?;
  }

  /** Field-by-field move into a record of another row type. */
  method MoveFields(values: seq<Val>, src: seq<Attr>, dst: seq<Attr>, level: Level,
                    cast: Caster) returns (out: Outcome, got: array<Val>)
    requires |values| == |src|
    ensures fresh(got) && got.Length == |dst| && Moves(values, src, dst, level, cast, out, got[..])
  {
    hide Lives, Filled, Moves, At;
    got := new Val[|dst|](_ => Val(0, true));
    var anum, warnings := 0, 0;
    ghost var k := 0;
    Starts(values, src, dst, cast, got[..]);
    for fnum := 0 to |dst|
      invariant k == |Lives(dst[..fnum])| && At(src, anum, k) && Filled(values, src, dst, cast, got[..], k)
      invariant level == Error ==> k <= |Lives(src)|
      invariant warnings == if level == Warning && k > |Lives(src)| then k - |Lives(src)| else 0
    {
      Rank(dst, fnum, k);
      if !dst[fnum].dropped {
        var v, next, missing := NextSource(values, src, anum, k);
        anum := next;
        if missing {
          if level == Error {
            MoveEnds(values, src, dst, level, cast, Mismatch, got[..], k);
            return Mismatch, got;
          }
          if level == Warning { warnings := warnings + 1; }
        }
        var c := CastValue(v, dst[fnum].typ, dst[fnum].typmod, cast);
        if c.None? {
          MoveEnds(values, src, dst, level, cast, CastFailed, got[..], k);
          return CastFailed, got;
        }
        FilledNext(values, src, dst, cast, got[..], k, fnum, c.value);
        got[fnum] := c.value;
        k := k + 1;
      }
    }
    assert dst[..|dst|] == dst;
    if level != Off {
      var extra := Leftover(src, anum, k);
      if extra {
        if level == Error {
          MoveEnds(values, src, dst, level, cast, Mismatch, got[..], k);
          return Mismatch, got;
        }
        warnings := warnings + 1;
      }
    }
    out := Done(warnings);
    MoveEnds(values, src, dst, level, cast, out, got[..], k);
  }

  lemma Starts(values: seq<Val>, src: seq<Attr>, dst: seq<Attr>, cast: Caster, got: seq<Val>)
    requires |values| == |src| && |got| == |dst|
    ensures |Lives(dst[..0])| == 0 && At(src, 0, 0) && Filled(values, src, dst, cast, got, 0)
  {
  }

  /** Move into a list of variables, each assigned in turn: what was assigned before a failure stays. */
  method MoveToRow(values: seq<Val>, src: seq<Attr>, types: seq<Attr>, level: Level, cast: Caster,
                   vars: array<Val>) returns (out: Outcome)
    requires |values| == |src| && |types| == vars.Length && forall k :: 0 <= k < |types| ==> !types[k].dropped
    modifies vars
    ensures Moves(values, src, types, level, cast, out, vars[..])
    ensures exists k ::
      0 <= k <= vars.Length && Filled(values, src, types, cast, vars[..], k) && vars[k..] == old(vars[k..]) &&
      (out.Done? ==> k == vars.Length)
  {
    hide Lives, Filled, Moves, At;
    var anum, warnings := 0, 0;
    AllLive(types);
    Starts(values, src, types, cast, vars[..]);
    for fnum := 0 to vars.Length
      invariant At(src, anum, fnum) && Filled(values, src, types, cast, vars[..], fnum)
      invariant vars[fnum..] == old(vars[fnum..])
      invariant level == Error ==> fnum <= |Lives(src)|
      invariant warnings == if level == Warning && fnum > |Lives(src)| then fnum - |Lives(src)| else 0
    {
      var v, next, missing := NextSource(values, src, anum, fnum);
      anum := next;
      if missing {
        if level == Error {
          MoveEnds(values, src, types, level, cast, Mismatch, vars[..], fnum);
          return Mismatch;
        }
        if level == Warning { warnings := warnings + 1; }
      }
      var c := CastValue(v, types[fnum].typ, types[fnum].typmod, cast);
      if c.None? {
        MoveEnds(values, src, types, level, cast, CastFailed, vars[..], fnum);
        return CastFailed;
      }
      FilledNext(values, src, types, cast, vars[..], fnum, fnum, c.value);
      vars[fnum] := c.value;
      assert vars[fnum + 1..] == old(vars[fnum..])[1..];
    }
    ghost var n := vars.Length;
    assert vars[n..] == old(vars[n..]);
    if level != Off {
      var extra := Leftover(src, anum, n);
      if extra {
        if level == Error {
          MoveEnds(values, src, types, level, cast, Mismatch, vars[..], n);
          return Mismatch;
        }
        warnings := warnings + 1;
      }
    }
    out := Done(warnings);
    MoveEnds(values, src, types, level, cast, out, vars[..], n);
  }

  lemma {:induction false} AllLive(d: seq<Attr>)
    requires forall k :: 0 <= k < |d| ==> !d[k].dropped
    ensures |Lives(d)| == |d| && forall k :: 0 <= k < |d| ==> Lives(d)[k] == k
  {
    if d != [] { AllLive(d[..|d| - 1]); }
  }

  // ---- the whole-tuple fast path ----

  predicate SameColumn(s: Attr, d: Attr) {
    && s.dropped == d.dropped
    && (if d.dropped then d.len == s.len && d.align == s.align
        else d.typ == s.typ && (d.typmod >= 0 ==> d.typmod == s.typmod))
  }

  predicate Compatible(src: seq<Attr>, dst: seq<Attr>) {
    |src| == |dst| && forall i :: 0 <= i < |src| ==> SameColumn(src[i], dst[i])
  }

  method CompatibleTupdescs(src: seq<Attr>, dst: seq<Attr>) returns (ok: bool)
    ensures ok <==> Compatible(src, dst)
  {
    if |dst| != |src| { return false; }
    for i := 0 to |dst|
      invariant forall k :: 0 <= k < i ==> SameColumn(src[k], dst[k])
    {
      var d, s := dst[i], src[i];
      if d.dropped != s.dropped { return false; }
      if !d.dropped {
        if d.typ != s.typ || (d.typmod >= 0 && d.typmod != s.typmod) { return false; }
      } else {
        if d.len != s.len || d.align != s.align { return false; }
      }
    }
    return true;
  }

  lemma {:induction false} SameLives(src: seq<Attr>, dst: seq<Attr>)
    requires Compatible(src, dst)
    ensures Lives(src) == Lives(dst)
  {
    if src != [] {
      var n := |src| - 1;
      assert SameColumn(src[n], dst[n]);
      SameLives(src[..n], dst[..n]);
    }
  }

  /** Type modifiers are -1 or a real modifier. */
  predicate Modifiers(d: seq<Attr>) { forall i :: 0 <= i < |d| ==> d[i].typmod >= -1 }

  /** Using the source tuple as it is equals the field-by-field move whenever the descriptors are
      compatible: every live column moves to its own position, uncast, and no check fires. */
  lemma FastPathMoves(values: seq<Val>, src: seq<Attr>, dst: seq<Attr>, level: Level, cast: Caster)
    requires |values| == |src| && Compatible(src, dst) && Modifiers(dst)
    ensures Moves(values, src, dst, level, cast, Done(0), values)
  {
    SameLives(src, dst);
    forall k | 0 <= k < |Lives(dst)| ensures Cell(values, src, dst, k, cast) == Some(values[Lives(dst)[k]]) {
      assert SameColumn(src[Lives(dst)[k]], dst[Lives(dst)[k]]);
    }
  }

  /** A live target whose type is not its source's gets what the cast gives; one without a source gets the cast of a
      NULL of unknown type, unless it is of that type itself. */
  lemma OtherTypeCast(values: seq<Val>, src: seq<Attr>, dst: seq<Attr>, level: Level, cast: Caster, w: nat,
                      got: seq<Val>, k: nat)
    requires |values| == |src| && |got| == |dst| && Moves(values, src, dst, level, cast, Done(w), got)
    requires k < |Lives(dst)|
    ensures var d, n := dst[Lives(dst)[k]], |Lives(src)|;
      && (k < n && src[Lives(src)[k]].typ != d.typ ==>
            var s := src[Lives(src)[k]];
            cast(Typed(values[Lives(src)[k]], s.typ, s.typmod), d.typ, d.typmod) == Some(got[Lives(dst)[k]]))
      && (k >= n && d.typ != 705 ==>
            cast(Typed(Val(0, true), 705, -1), d.typ, d.typmod) == Some(got[Lives(dst)[k]]))
  {
    assert Cell(values, src, dst, k, cast) == Some(got[Lives(dst)[k]]);
  }

  /** A column pair the compatibility test accepts is moved without a cast exactly when the target's
      modifier is not below -1 or the modifiers are equal. */
  lemma UncastExactly(s: Attr, d: Attr)
    requires SameColumn(s, d) && !d.dropped
    ensures (forall v: Val, cast: Caster :: CastValue(Typed(v, s.typ, s.typmod), d.typ, d.typmod, cast) == Some(v)) <==>
      (d.typmod >= -1 || d.typmod == s.typmod)
  {
    var never: Caster := (_, _, _) => None;
    var nul := Val(0, true);
    assert CastValue(Typed(nul, s.typ, s.typmod), d.typ, d.typmod, never) ==
      if d.typmod >= -1 || d.typmod == s.typmod then Some(nul) else None;
  }
}
