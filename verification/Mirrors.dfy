/** A native array variable: flat memory beside a Datum that may be out of date. */
module Mirrors {
  import opened Cfg
  import opened Words
  import opened PlainArrays

  /** len < 0 marks a value of several dimensions.  Nulls are flags, absent when no element is NULL.
      cap is the number of slots allocated; only the first len are described. */
  datatype Mirror = Mirror(data: seq<int>, nulls: Option<seq<bool>>, len: int, lb: int, cap: int)

  datatype Var = Var(mirror: Mirror, datum: PgArr)

  function Cell(m: Mirror, k: nat): Option<int>
    requires k < |m.data| && (m.nulls.Some? ==> |m.nulls.value| == |m.data|)
  {
    if m.nulls.Some? && m.nulls.value[k] then None else Some(m.data[k])
  }

  function Cells(m: Mirror): (r: seq<Option<int>>)
    requires m.nulls.Some? ==> |m.nulls.value| == |m.data|
    ensures |r| == |m.data| && forall k :: 0 <= k < |r| ==> r[k] == Cell(m, k)
  {
    seq(|m.data|, k requires 0 <= k < |m.data| => Cell(m, k))
  }

  predicate Shaped(m: Mirror) {
    && -1 <= m.len <= MaxElems && |m.data| == (if m.len > 0 then m.len else 0)
    && (m.nulls.Some? ==> m.len > 0 && |m.nulls.value| == m.len)
    && (m.len > 0 ==> m.len <= m.cap <= MaxElems && MIN32 <= m.lb && m.lb + m.len <= MAX32)
    && (m.len <= 0 ==> m.lb == 1 && m.cap == m.len)
  }

  /** Flat memory read from an array value. */
  function FromArr(a: Arr): (m: Mirror)
    ensures WfArr(a) ==> Shaped(m)
  {
    match a
    case MultiD(_) => Mirror([], None, -1, 1, -1)
    case OneD(lb, es) =>
      var data := seq(|es|, k requires 0 <= k < |es| => if es[k].Some? then es[k].value else 0);
      var flags := seq(|es|, k requires 0 <= k < |es| => es[k].None?);
      Mirror(data, if None in es then Some(flags) else None, |es|, lb, |es|)
    case _ => Mirror([], None, 0, 1, 0)
  }

  /** Whether flat memory of length len, holding no elements, may stand beside the Datum d: the test for
      an append takes length 0 for an empty array, and a negative length sends every write to the Datum. */
  predicate Beside(len: int, d: Arr) { if len < 0 then !d.OneD? else d.Null? || d.Empty? }

  /** The invariant: flat memory without elements leaves the value to a Datum it may stand beside. */
  predicate Fit(x: Var) {
    Shaped(x.mirror) && (x.mirror.len <= 0 ==> Beside(x.mirror.len, x.datum))
  }

  /** The array the variable stands for. */
  function Value(x: Var): (a: PgArr)
    requires Fit(x)
  {
    if x.mirror.len > 0 then OneD(x.mirror.lb, Cells(x.mirror)) else x.datum
  }

  /** Datum and value agree. */
  predicate Current(x: Var)
    requires Fit(x)
  {
    x.datum == Value(x)
  }

  /** Marshal flat memory out to the Datum; nothing to do when it is empty. */
  function Sync(x: Var): (y: Var)
    requires Fit(x)
    ensures Fit(y) && Value(y) == Value(x) && Current(y) && y.mirror == x.mirror
  {
    x.(datum := Value(x))
  }

  /** Reload flat memory from a Datum the interpreter wrote. */
  function Refresh(x: Var): (y: Var)
    ensures Fit(y) && Value(y) == x.datum && Current(y)
  {
    var m := FromArr(x.datum);
    assert m.len > 0 ==> Cells(m) == x.datum.elems;
    x.(mirror := m)
  }

  /** A Datum written without the reload that should follow leaves the variable meaning that Datum
      exactly when flat memory already described it. */
  lemma WrittenUnrefreshed(x: Var, d: PgArr)
    requires Fit(x)
    ensures var y := x.(datum := d);
      (Fit(y) && Value(y) == d) <==> (if x.mirror.len > 0 then Value(x) == d else Beside(x.mirror.len, d))
  {
  }

  /** Flat memory holds elements exactly when the value is a vector. */
  lemma HoldsElements(x: Var)
    requires Fit(x)
    ensures x.mirror.len > 0 <==> Value(x).OneD?
    ensures x.mirror.len > 0 ==> x.mirror.len == |Value(x).elems| && x.mirror.lb == Value(x).lb
  {
  }

  /** A native element read. */
  function Read(x: Var, i: int): Option<int>
    requires Shaped(x.mirror)
  {
    var m := x.mirror;
    if m.len >= 0 && m.lb <= i <= m.lb + m.len - 1 then Cell(m, i - m.lb) else None
  }

  lemma ReadAgrees(x: Var, i: int)
    requires Fit(x)
    ensures Read(x, i) == Get(Value(x), i)
  {
  }

  // ---- element writes ----

  function Unflag(nulls: Option<seq<bool>>, k: nat): Option<seq<bool>>
    requires nulls.Some? ==> k <= |nulls.value|
  {
    if nulls.None? then None
    else if k < |nulls.value| then Some(nulls.value[k := false])
    else Some(nulls.value + [false])
  }

  /** In range: overwrite the slot and clear its flag. */
  function Overwrite(m: Mirror, k: nat, v: int): Mirror
    requires Shaped(m) && k < |m.data|
  {
    m.(data := m.data[k := v], nulls := Unflag(m.nulls, k))
  }

  /** Capacity after making room for one more element; None when the limit is reached. */
  function Room(cap: int, len: int): (r: Option<int>)
    requires 0 <= len <= MaxElems && cap <= MaxElems
    ensures r.Some? ==> len < r.value <= MaxElems && cap <= r.value
    ensures r.None? <==> len == MaxElems
  {
    if cap > len then Some(cap)
    else if len >= MaxElems then None
    else
      var twice := if cap > 0 then cap * 2 else 8;
      var enough := if twice <= len then len + 1 else twice;
      Some(if enough > MaxElems then MaxElems else enough)
  }

  function Append(m: Mirror, cap: int, v: int): Mirror
    requires Shaped(m) && 0 <= m.len
  {
    Mirror(m.data + [v], Unflag(m.nulls, m.len), m.len + 1, m.lb, cap)
  }

  predicate InRange(m: Mirror, i: int) { m.len >= 0 && m.lb <= i <= m.lb + m.len - 1 }

  /** A write at the first subscript past the end. */
  predicate AtEnd(m: Mirror, i: int) { m.len >= 0 && i == m.lb + m.len }

  /** What a native element write does, and the error it raises if any. */
  function Write(x: Var, i: Option<int>, v: Option<int>): (r: (Var, Option<Error>))
    requires Fit(x) && (i.Some? ==> MIN32 <= i.value <= MAX32)
  {
    var m := x.mirror;
    if i.None? then (x, Some(NullSubscript))
    else if v.Some? && InRange(m, i.value) then (x.(mirror := Overwrite(m, i.value - m.lb, v.value)), None)
    else if v.Some? && AtEnd(m, i.value) then
      var cap := Room(m.cap, m.len);
      if cap.None? then (x, Some(TooLarge)) else (x.(mirror := Append(m, cap.value, v.value)), None)
    else
      var y := Sync(x);
      var r := Set(y.datum, i.value, v);
      if r.Err? then (y, Some(r.error)) else (Refresh(y.(datum := r.arr)), None)
  }

  /** What the plain array does. */
  function PlainWrite(a: PgArr, i: Option<int>, v: Option<int>): (PgArr, Option<Error>)
    requires i.Some? ==> MIN32 <= i.value <= MAX32
  {
    if i.None? then (a, Some(NullSubscript))
    else var r := Set(a, i.value, v); if r.Err? then (a, Some(r.error)) else (r.arr, None)
  }

  ghost predicate WriteAgrees(x: Var, i: Option<int>, v: Option<int>)
    requires Fit(x) && (i.Some? ==> MIN32 <= i.value <= MAX32)
  {
    var (y, e) := Write(x, i, v);
    Fit(y) && (Value(y), e) == PlainWrite(Value(x), i, v)
  }

  /** The one subscript where native and plain part: appending a value at the largest int4. */
  predicate AppendsAtMax(a: PgArr, i: Option<int>, v: Option<int>) {
    v.Some? && i == Some(MAX32) && a.OneD? && a.lb + |a.elems| == MAX32 && |a.elems| < MaxElems
  }

  lemma AppendValue(x: Var, v: int, cap: int)
    requires Fit(x) && 0 <= x.mirror.len < MaxElems && x.mirror.lb + x.mirror.len < MAX32
    requires x.mirror.len < cap <= MaxElems
    ensures var y := x.(mirror := Append(x.mirror, cap, v));
      Fit(y) && Set(Value(x), x.mirror.lb + x.mirror.len, Some(v)) == Ok(Value(y))
  {
    var m, n := x.mirror, Append(x.mirror, cap, v);
    assert Cells(n) == Cells(m) + [Some(v)];
    if m.len > 0 {
      assert Nones(0) == [];
      assert Cells(m) + Nones(0) + [Some(v)] == Cells(n);
    } else {
      assert Cells(n) == [Some(v)];
    }
  }

  /** A native element write computes PostgreSQL's assignment, errors included, in every case but one. */
  lemma WriteExact(x: Var, i: Option<int>, v: Option<int>)
    requires Fit(x) && (i.Some? ==> MIN32 <= i.value <= MAX32)
    ensures WriteAgrees(x, i, v) <==> !AppendsAtMax(Value(x), i, v)
  {
    var m := x.mirror;
    if i.Some? && v.Some? {
      if InRange(m, i.value) {
        var n := Overwrite(m, i.value - m.lb, v.value);
        assert Cells(n) == Cells(m)[i.value - m.lb := v];
      } else if AtEnd(m, i.value) {
        var cap := Room(m.cap, m.len);
        SetFails(Value(x), i.value, v);
        if i.value < MAX32 && cap.Some? { AppendValue(x, v.value, cap.value); }
      }
    }
  }
}
