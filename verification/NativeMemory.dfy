/** The flat memory itself: buffers updated in place, grown by doubling, marshalled in and out. */
module NativeMemory {
  import opened Cfg
  import opened Words
  import opened PlainArrays
  import opened Mirrors

  /** What an array value stores: NULL elements take no space. */
  function Present(es: seq<Option<int>>): (r: seq<int>)
    ensures |r| <= |es|
  {
    if es == [] then []
    else Present(es[..|es| - 1]) + if es[|es| - 1].Some? then [es[|es| - 1].value] else []
  }

  /** The value of element i lies after those of the elements before it. */
  lemma {:induction false} PresentAt(es: seq<Option<int>>, i: nat)
    requires i < |es|
    ensures Present(es[..i + 1]) == Present(es[..i]) + if es[i].Some? then [es[i].value] else []
    ensures es[i].Some? ==> |Present(es[..i])| < |Present(es)| && Present(es)[|Present(es[..i])|] == es[i].value
    decreases |es| - i
  {
    assert es[..i + 1][..i] == es[..i];
    if i + 1 == |es| {
      assert es[..i + 1] == es;
    } else {
      PresentPrefix(es, i + 1);
    }
  }

  lemma {:induction false} PresentPrefix(es: seq<Option<int>>, i: nat)
    requires i <= |es|
    ensures Present(es[..i]) <= Present(es)
    decreases |es| - i
  {
    if i == |es| {
      assert es[..i] == es;
    } else {
      assert es[..i + 1][..i] == es[..i];
      PresentPrefix(es, i + 1);
    }
  }

  lemma {:induction false} PresentFull(es: seq<Option<int>>)
    requires None !in es
    ensures |Present(es)| == |es| && forall k :: 0 <= k < |es| ==> es[k] == Some(Present(es)[k])
  {
    if es != [] {
      var n := |es| - 1;
      assert forall k :: 0 <= k < n ==> es[..n][k] == es[k];
      PresentFull(es[..n]);
      assert es[n] in es;
    }
  }

  /** Unpack n stored values into one slot per element, with flags when some element is NULL. */
  method Unpack(bitmap: seq<bool>, packed: seq<int>, hasNull: bool,
                ghost es: seq<Option<int>>) returns (data: array<int>, nulls: array?<bool>)
    requires |bitmap| == |es| && forall k :: 0 <= k < |es| ==> bitmap[k] == es[k].Some?
    requires packed == Present(es) && (hasNull <==> None in es)
    ensures fresh(data) && (nulls != null ==> fresh(nulls))
    ensures var m := FromArr(OneD(1, es));
      && data[..] == m.data && (nulls != null <==> m.nulls.Some?) && (nulls != null ==> nulls[..] == m.nulls.value)
  {
    var n := |bitmap|;
    data := new int[n];
    nulls := null;
    if hasNull {
      var flags := new bool[n];
      var src := 0;
      for i := 0 to n
        invariant src == |Present(es[..i])|
        invariant forall k :: 0 <= k < i ==> flags[k] == es[k].None?
        invariant forall k :: 0 <= k < i ==> data[k] == if es[k].Some? then es[k].value else 0
      {
        PresentAt(es, i);
        flags[i] := !bitmap[i];
        if flags[i] {
          data[i] := 0;
        } else {
          data[i] := packed[src];
          src := src + 1;
        }
      }
      nulls := flags;
    } else {
      PresentFull(es);
      for i := 0 to n
        invariant forall k :: 0 <= k < i ==> data[k] == packed[k]
      {
        data[i] := packed[i];
      }
      assert forall k :: 0 <= k < n ==> data[k] == if es[k].Some? then es[k].value else 0;
    }
  }

  /** A longer copy of a buffer's first n slots, the rest filled with zero. */
  method Enlarged<T(0)>(src: array?<T>, n: nat, newcap: nat, zero: T) returns (d: array<T>)
    requires n <= newcap && (n > 0 ==> src != null && n <= src.Length)
    ensures fresh(d) && d.Length == newcap
    ensures n > 0 ==> d[..n] == src[..n]
    ensures forall k :: n <= k < newcap ==> d[k] == zero
  {
    d := new T[newcap];
    for i := 0 to newcap
      invariant forall k :: 0 <= k < i ==> d[k] == if k < n then src[k] else zero
    {
      d[i] := if i < n then src[i] else zero;
    }
  }

  /** No bound the emitted code computes leaves int4, so its wrapping tests are the plain ones. */
  lemma NoWrap(x: Var, i: Option<int>, v: Option<int>)
    requires Fit(x)
    ensures var m := x.mirror;
      && Wrap32(m.lb + m.len) == m.lb + m.len && Wrap32(Wrap32(m.lb + m.len) - 1) == m.lb + m.len - 1
      && (!AppendsAtMax(Value(x), i, v) && v.Some? && i.Some? && AtEnd(m, i.value) && i.value >= MAX32 ==>
            Room(m.cap, m.len).None?)
  {
  }

  class NativeArray {
    var data: array?<int>
    var nulls: array?<bool>
    var len: int
    var lb: int
    var cap: int
    var isHeap: bool
    var datum: PgArr

    /** Buffers are as long as the capacity says. */
    ghost predicate Allocated()
      reads this
    {
      && (data == null ==> len <= 0 && nulls == null) && (data != null ==> data.Length == cap && len <= cap)
      && (nulls != null ==> nulls.Length == cap)
    }

    ghost function View(): Var
      reads this, data, nulls
      requires Allocated()
    {
      var values := if len > 0 then data[..len] else [];
      var flags := if len > 0 && nulls != null then Some(nulls[..len]) else None;
      Var(Mirror(values, flags, len, lb, cap), datum)
    }

    ghost predicate Valid()
      reads this, data, nulls
    {
      Allocated() && (len <= 0 ==> data == null) && Fit(View())
    }

    /** A NULL array. */
    constructor ()
      ensures Valid() && Value(View()) == Null && data == null && nulls == null
    {
      data, nulls, len, lb, cap, isHeap, datum := null, null, 0, 1, 0, false, Null;
    }

    /** Marshal flat memory into the Datum. */
    method ToDatum()
      requires Valid()
      modifies this`datum
      ensures Valid() && View() == Sync(old(View()))
    {
      if data == null || len <= 0 { return; }
      var elems: seq<Option<int>> := [];
      for i := 0 to len
        invariant elems == Cells(View().mirror)[..i]
      {
        elems := elems + [if nulls != null && nulls[i] then None else Some(data[i])];
      }
      assert elems == Cells(View().mirror);
      datum := OneD(lb, elems);
    }

    /** Replace flat memory by what the Datum holds. */
    method FromDatum()
      requires Allocated()
      modifies this
      ensures Valid() && View() == Refresh(old(View())) && datum == old(datum) && isHeap
      ensures data == null || fresh(data)
      ensures nulls == null || fresh(nulls)
    {
      data, nulls := null, null;
      match datum {
        case OneD(l, es) =>
          var bitmap := seq(|es|, k requires 0 <= k < |es| => es[k].Some?);
          var d, f := Unpack(bitmap, Present(es), None in es, es);
          assert d[..|es|] == d[..];
          if f != null { assert f[..|es|] == f[..]; }
          data, nulls, len, lb := d, f, |es|, l;
        case MultiD(_) => len, lb := -1, 1;
        case _ => len, lb := 0, 1;
      }
      cap, isHeap := len, true;
      assert View().mirror == FromArr(datum);
    }

    /** Make room for one more element, doubling; false when the array may not grow. */
    method Reserve() returns (ok: bool)
      requires Valid() && 0 <= len
      modifies this`data, this`nulls, this`cap, this`isHeap
      ensures ok == Room(old(cap), len).Some? && Allocated()
      ensures !ok ==> data == old(data) && nulls == old(nulls) && cap == old(cap)
      ensures ok ==>
        cap == Room(old(cap), len).value && data != null && data[..len] == old(if len > 0 then data[..len] else [])
      ensures ok ==> (nulls == null <==> old(nulls) == null)
      ensures ok && nulls != null ==> nulls[..len] == old(if len > 0 && nulls != null then nulls[..len] else [])
      ensures data == old(data) || fresh(data)
      ensures nulls == old(nulls) || fresh(nulls)
    {
      if cap > len { return true; }
      if len >= MaxElems { return false; }
      var newcap := if cap > 0 then Wrap32(cap * 2) else 8;
      if newcap <= len { newcap := len + 1; }
      if newcap > MaxElems { newcap := MaxElems; }
      var d := Enlarged(data, len, newcap, 0);
      if nulls != null {
        var f := Enlarged(nulls, len, newcap, false);
        nulls := f;
      }
      data, isHeap, cap := d, true, newcap;
      return true;
    }

    /** A native element read; the emitted tests wrap at 32 bits. */
    method GetElement(i: int) returns (r: Option<int>)
      requires Valid() && MIN32 <= i <= MAX32
      ensures r == Get(Value(View()), i)
    {
      ReadAgrees(View(), i);
      if len >= 0 && i >= lb && i <= Wrap32(Wrap32(lb + len) - 1) {
        r := if nulls != null && nulls[i - lb] then None else Some(data[i - lb]);
      } else {
        r := None;
      }
    }

    /** A native element write: in-range store, append, or a round trip through the Datum. */
    method SetElement(i: Option<int>, v: Option<int>) returns (e: Option<Error>)
      requires Valid() && (i.Some? ==> MIN32 <= i.value <= MAX32)
      modifies this, data, nulls
      ensures Allocated() && (View(), e) == Write(old(View()), i, v)
      ensures old(!AppendsAtMax(Value(View()), i, v)) ==> Valid()
      ensures old(!AppendsAtMax(Value(View()), i, v)) ==> (Value(View()), e) == PlainWrite(old(Value(View())), i, v)
      ensures data == null || data == old(data) || fresh(data)
      ensures nulls == null || nulls == old(nulls) || fresh(nulls)
    {
      hide Set, Refresh, Sync, FromArr, Append, Overwrite, Room, Wrap32, PlainWrite, Value, Cells;
      ghost var x := View();
      NoWrap(x, i, v);
      WriteExact(x, i, v);
      if i.None? { return Some(NullSubscript); }
      var idx := i.value;
      if v.Some? && len >= 0 && idx >= lb && idx <= Wrap32(Wrap32(lb + len) - 1) {
        StoreElement(idx - lb, v.value);
        e := None;
      } else if v.Some? && len >= 0 && idx == Wrap32(lb + len) {
        e := AppendElement(v.value);
      } else {
        e := SlowSet(idx, v);
      }
    }

    method StoreElement(idx0: nat, v: int)
      requires Valid() && idx0 < len
      modifies data, nulls
      ensures Valid() && View() == old(View().(mirror := Overwrite(View().mirror, idx0, v)))
    {
      data[idx0] := v;
      if nulls != null { nulls[idx0] := false; }
      assert View().mirror == old(Overwrite(View().mirror, idx0, v));
    }

    /** The write happens on the Datum; flat memory is marshalled out before and reloaded after. */
    method SlowSet(idx: int, v: Option<int>) returns (e: Option<Error>)
      requires Valid() && MIN32 <= idx <= MAX32
      modifies this
      ensures Valid() && e == old(var r := Set(Value(View()), idx, v); if r.Err? then Some(r.error) else None)
      ensures View() == old(var y := Sync(View());
                            var r := Set(y.datum, idx, v);
                            if r.Err? then y else Refresh(y.(datum := r.arr)))
      ensures data == null || data == old(data) || fresh(data)
      ensures nulls == null || nulls == old(nulls) || fresh(nulls)
    {
      ToDatum();
      var r := Set(datum, idx, v);
      if r.Err? { return Some(r.error); }
      datum := r.arr;
      FromDatum();
      return None;
    }

    method AppendElement(v: int) returns (e: Option<Error>)
      requires Valid() && 0 <= len
      modifies this, data, nulls
      ensures Allocated() && (old(lb + len < MAX32 || Room(cap, len).None?) ==> Valid())
      ensures e == old(if Room(cap, len).None? then Some(TooLarge) else None)
      ensures View() == old(var m, c := View().mirror, Room(cap, len);
                            if c.None? then View() else View().(mirror := Append(m, c.value, v)))
      ensures data == null || data == old(data) || fresh(data)
      ensures nulls == null || nulls == old(nulls) || fresh(nulls)
    {
      hide FromArr, Cells, Room, WfArr;
      ghost var x := View();
      var ok := Reserve();
      if !ok { return Some(TooLarge); }
      PushSlot(v, x);
      if x.mirror.lb + x.mirror.len < MAX32 { AppendValue(x, v, cap); }
      return None;
    }

    /** Fill the first slot past the end and clear its flag. */
    method PushSlot(v: int, ghost x: Var)
      requires Allocated() && data != null && 0 <= len < cap
      requires Shaped(x.mirror) && x.mirror.data == data[..len] && x.mirror.len == len && x.mirror.lb == lb
      requires (x.mirror.nulls.Some? <==> nulls != null) && (nulls != null ==> x.mirror.nulls.value == nulls[..len])
      modifies this`len, data, nulls
      ensures Allocated() && View() == Var(Append(x.mirror, cap, v), datum) && len == old(len) + 1
    {
      data[len] := v;
      if nulls != null { nulls[len] := false; }
      len := len + 1;
      assert data[..len] == x.mirror.data + [v];
      if nulls != null { assert nulls[..len] == x.mirror.nulls.value + [false]; }
    }
  }
}
