/** The compiler's datum table and its record-field chains. */
module Datums {

  /** Chain links are datum numbers, -1 at the end. */
  datatype Kind = Var | Promise | Row | Rec(first: int) | Field(parent: nat, name: string, next: int)

  datatype Datum = Datum(dno: nat, kind: Kind)

  type Table = seq<Datum>

  /** x is the end of the chain or an older field of record r. */
  predicate Link(s: Table, r: nat, x: int, bound: nat) {
    x == -1 || (0 <= x < bound <= |s| && s[x].kind.Field? && s[x].kind.parent == r)
  }

  predicate Linked(s: Table) {
    forall i :: 0 <= i < |s| ==>
      && s[i].dno == i
      && (s[i].kind.Rec? ==> Link(s, i, s[i].kind.first, |s|))
      && (s[i].kind.Field? ==> s[i].kind.parent < |s| && s[s[i].kind.parent].kind.Rec?)
      && (s[i].kind.Field? ==> Link(s, s[i].kind.parent, s[i].kind.next, i))
  }

  /** Datum numbers met when following the links from x. */
  function Chain(s: Table, x: int): (c: seq<nat>)
    requires Linked(s) && x < |s|
    decreases x
  {
    if x < 0 || !s[x].kind.Field? then [] else [x] + Chain(s, s[x].kind.next)
  }

  /** c is made of fields of record r below bound, in strictly decreasing order. */
  predicate Falls(s: Table, r: nat, c: seq<nat>, bound: nat) {
    && (forall k :: 0 <= k < |c| ==> c[k] < bound <= |s| && s[c[k]].kind.Field? && s[c[k]].kind.parent == r)
    && (forall j, k :: 0 <= j < k < |c| ==> c[j] > c[k])
  }

  lemma FallsCons(s: Table, r: nat, x: nat, c: seq<nat>, bound: nat)
    requires Falls(s, r, c, x) && x < bound <= |s| && s[x].kind.Field? && s[x].kind.parent == r
    ensures Falls(s, r, [x] + c, bound)
  {
  }

  /** A chain holds fields of one record only, in strictly decreasing order. */
  lemma {:induction false} ChainDecreases(s: Table, r: nat, x: int, bound: nat)
    requires Linked(s) && Link(s, r, x, bound) && bound <= |s|
    ensures Falls(s, r, Chain(s, x), bound)
    decreases x
  {
    if x >= 0 {
      ChainDecreases(s, r, s[x].kind.next, x);
      FallsCons(s, r, x, Chain(s, s[x].kind.next), bound);
    }
  }

  /** Every field is on its record's chain. */
  predicate Complete(s: Table)
    requires Linked(s)
  {
    forall i :: 0 <= i < |s| && s[i].kind.Field? ==> i in Chain(s, s[s[i].kind.parent].kind.first)
  }

  /** No record has two fields of one name. */
  predicate Unique(s: Table) {
    forall i, j :: 0 <= i < j < |s| && s[i].kind.Field? && s[j].kind.Field? ==>
      s[i].kind.parent != s[j].kind.parent || s[i].kind.name != s[j].kind.name
  }

  predicate Ok(s: Table) { Linked(s) && Complete(s) && Unique(s) }

  function Added(s: Table, k: Kind): Table { s + [Datum(|s|, k)] }

  /** A new field goes to the front of its record's chain. */
  function WithField(s: Table, r: nat, name: string): Table
    requires r < |s| && s[r].kind.Rec?
  {
    Added(s, Field(r, name, s[r].kind.first))[r := Datum(s[r].dno, Rec(|s|))]
  }

  /** t has at least the fields of s, where they were. */
  ghost predicate Extends(s: Table, t: Table) {
    && |s| <= |t|
    && forall i :: 0 <= i < |s| ==> if s[i].kind.Field? then t[i] == s[i] else !t[i].kind.Field?
  }

  lemma {:induction false} ChainKept(s: Table, t: Table, x: int)
    requires Linked(s) && Linked(t) && x < |s| && Extends(s, t)
    ensures Chain(t, x) == Chain(s, x)
    decreases x
  {
    if x >= 0 && s[x].kind.Field? { ChainKept(s, t, s[x].kind.next); }
  }

  lemma AddedLinked(s: Table, k: Kind)
    requires Linked(s) && (k.Var? || k.Promise? || k.Row? || k == Rec(-1))
    ensures Linked(Added(s, k)) && Extends(s, Added(s, k))
  {
    var t, n := Added(s, k), |s|;
    assert forall i :: 0 <= i < n ==> t[i] == s[i];
    forall i | 0 <= i < n
      ensures t[i].kind.Rec? ==> Link(t, i, t[i].kind.first, |t|)
      ensures t[i].kind.Field? ==> Link(t, t[i].kind.parent, t[i].kind.next, i)
    {
      if s[i].kind.Rec? { LinkKept(s, t, i, s[i].kind.first, n, |t|); }
      if s[i].kind.Field? { LinkKept(s, t, s[i].kind.parent, s[i].kind.next, i, i); }
    }
  }

  lemma AddedComplete(s: Table, k: Kind)
    requires Ok(s) && !k.Field? && Linked(Added(s, k)) && Extends(s, Added(s, k))
    ensures Complete(Added(s, k))
  {
    hide Linked, Unique;
    var t := Added(s, k);
    forall i | 0 <= i < |t| && t[i].kind.Field? ensures i in Chain(t, FirstOf(t, i)) {
      InParent(t, i);
      InParent(s, i);
      ChainKept(s, t, FirstOf(s, i));
      assert i in Chain(s, FirstOf(s, i));
    }
  }

  lemma AddedOk(s: Table, k: Kind)
    requires Ok(s) && (k.Var? || k.Promise? || k.Row? || k == Rec(-1))
    ensures Ok(Added(s, k))
  {
    AddedLinked(s, k);
    hide Link, Linked, Complete;
    AddedComplete(s, k);
  }

  /** No field of record r has the name. */
  ghost predicate Absent(s: Table, r: nat, name: string) {
    forall i :: 0 <= i < |s| && s[i].kind.Field? && s[i].kind.parent == r ==> s[i].kind.name != name
  }

  lemma LinkKept(s: Table, t: Table, r: nat, x: int, bound: nat, bound': nat)
    requires Extends(s, t) && Link(s, r, x, bound) && bound <= bound' <= |t|
    ensures Link(t, r, x, bound')
  {
  }

  lemma WithFieldLinked(s: Table, r: nat, name: string)
    requires Linked(s) && r < |s| && s[r].kind.Rec?
    ensures Linked(WithField(s, r, name)) && Extends(s, WithField(s, r, name))
  {
    var t, n := WithField(s, r, name), |s|;
    assert t[n] == Datum(n, Field(r, name, s[r].kind.first)) && t[r] == Datum(r, Rec(n));
    assert forall i :: 0 <= i < n && i != r ==> t[i] == s[i];
    LinkKept(s, t, r, s[r].kind.first, n, n);
    forall i | 0 <= i < n && i != r
      ensures t[i].kind.Rec? ==> Link(t, i, t[i].kind.first, |t|)
      ensures t[i].kind.Field? ==>
        t[i].kind.parent < |t| && t[t[i].kind.parent].kind.Rec? && Link(t, t[i].kind.parent, t[i].kind.next, i)
    {
      if s[i].kind.Rec? { LinkKept(s, t, i, s[i].kind.first, n, |t|); }
      if s[i].kind.Field? { LinkKept(s, t, s[i].kind.parent, s[i].kind.next, i, i); }
    }
  }

  lemma WithFieldOk(s: Table, r: nat, name: string)
    requires Ok(s) && r < |s| && s[r].kind.Rec? && Absent(s, r, name)
    ensures Ok(WithField(s, r, name))
  {
    hide Link;
    var t, n := WithField(s, r, name), |s|;
    WithFieldLinked(s, r, name);
    WithFieldComplete(s, r, name);
    assert forall i :: 0 <= i < n && i != r ==> t[i] == s[i];
  }

  lemma WithFieldComplete(s: Table, r: nat, name: string)
    requires Ok(s) && r < |s| && s[r].kind.Rec? && Linked(WithField(s, r, name)) && Extends(s, WithField(s, r, name))
    ensures Complete(WithField(s, r, name))
  {
    hide Linked, Unique;
    var t, n := WithField(s, r, name), |s|;
    assert t[n].kind == Field(r, name, s[r].kind.first) && t[r].kind.first == n;
    forall i | 0 <= i < |t| && t[i].kind.Field? ensures i in Chain(t, FirstOf(t, i)) {
      InParent(t, i);
      if i < n {
        InParent(s, i);
        ChainKept(s, t, FirstOf(s, i));
        assert i in Chain(s, FirstOf(s, i));
        if s[i].kind.parent == r { NewFront(s, t, r, n); }
      } else {
        NewFront(s, t, r, n);
      }
    }
  }

  /** Head of the chain a field belongs to. */
  function FirstOf(s: Table, i: nat): (x: int)
    requires Linked(s) && i < |s| && s[i].kind.Field?
    ensures x < |s|
  {
    s[s[i].kind.parent].kind.first
  }

  lemma InParent(s: Table, i: nat)
    requires Linked(s) && i < |s| && s[i].kind.Field?
    ensures s[i].kind.parent < |s| && s[s[i].kind.parent].kind.Rec?
    ensures FirstOf(s, i) == s[s[i].kind.parent].kind.first < |s|
  {
  }

  lemma NewFront(s: Table, t: Table, r: nat, n: nat)
    requires Linked(s) && Linked(t) && n < |t| && r < |s| && s[r].kind.Rec? && t[n].kind.Field?
    requires t[n].kind.next == s[r].kind.first && Extends(s, t) && |s| == n
    ensures Chain(t, n) == [n] + Chain(s, s[r].kind.first)
  {
    ChainKept(s, t, s[r].kind.first);
  }

  predicate Initializable(k: Kind) { k.Var? || k.Rec? }

  function InitNos(s: Table, from: nat): (r: seq<nat>)
    requires from <= |s|
    decreases |s| - from
  {
    if from == |s| then [] else (if Initializable(s[from].kind) then [s[from].dno] else []) + InitNos(s, from + 1)
  }

  const Start := 128

  /** The growable table, and a count of the entries copied when it grew. */
  class DatumTable {
    var slots: array<Datum>
    var count: nat
    var last: nat
    ghost var copied: nat

    ghost predicate Allocated()
      reads this
    {
      && count <= slots.Length && Start <= slots.Length && last <= count
      && copied == slots.Length - Start && (slots.Length > Start ==> slots.Length < 2 * count)
    }

    ghost function Contents(): Table
      reads this, slots
      requires Allocated()
    {
      slots[..count]
    }

    ghost predicate Valid()
      reads this, slots
    {
      Allocated() && Ok(Contents())
    }

    constructor ()
      ensures Valid() && Contents() == [] && fresh(slots)
    {
      slots := new Datum[Start](_ => Datum(0, Row));
      count, last, copied := 0, 0, 0;
    }

    /** Total copying stays below twice the number of datums. */
    lemma CopyingIsCheap()
      requires Allocated()
      ensures count > 0 ==> copied < 2 * count
      ensures count == 0 ==> copied == 0
    {
    }

    /** Append a datum; it gets the next number. */
    method Append(k: Kind) returns (dno: nat)
      requires Allocated()
      modifies this, slots
      ensures Allocated() && Contents() == Added(old(Contents()), k) && dno == old(count) && last == old(last)
      ensures slots == old(slots) || fresh(slots)
    {
      if count == slots.Length {
        var bigger := new Datum[2 * slots.Length](_ => Datum(0, Row));
        for i := 0 to count
          modifies bigger
          invariant bigger[..i] == slots[..i]
        {
          bigger[i] := slots[i];
        }
        assert bigger[..count] == slots[..count];
        copied := copied + slots.Length;
        slots := bigger;
      }
      dno := count;
      slots[count] := Datum(dno, k);
      count := count + 1;
      assert slots[..count] == slots[..count - 1] + [Datum(dno, k)];
    }

    method AddDatum(k: Kind) returns (dno: nat)
      requires Valid() && (k.Var? || k.Promise? || k.Row? || k == Rec(-1))
      modifies this, slots
      ensures Valid() && Contents() == Added(old(Contents()), k) && dno == old(count) && last == old(last)
      ensures slots == old(slots) || fresh(slots)
    {
      AddedOk(Contents(), k);
      dno := Append(k);
    }

    /** Follow a record's chain looking for a field name. */
    method FindField(r: nat, name: string) returns (i: int)
      requires Valid() && r < count && slots[r].kind.Rec?
      ensures i == -1 || (0 <= i < count && slots[i].kind.Field?)
      ensures i != -1 ==> slots[i].kind.parent == r && slots[i].kind.name == name
      ensures i == -1 <==> Absent(Contents(), r, name)
    {
      hide Ok, Linked, Complete, Unique, Absent, Chain;
      ghost var s := Contents();
      i := slots[r].kind.first;
      ghost var done: seq<nat> := [];
      FirstLink(s, r);
      while i >= 0
        invariant Link(s, r, i, |s|)
        invariant Chain(s, s[r].kind.first) == done + Chain(s, i)
        invariant forall d <- done :: d < |s| && s[d].kind.Field? && s[d].kind.name != name
        decreases i
      {
        assert s[i] == slots[i];
        Follow(s, r, i);
        if slots[i].kind.name == name {
          Present(s, r, name, i);
          return;
        }
        assert done + ([i] + Chain(s, s[i].kind.next)) == done + [i] + Chain(s, s[i].kind.next);
        done := done + [i];
        i := slots[i].kind.next;
      }
      ChainEnds(s);
      SearchedAll(s, r, name, done);
    }

    lemma FirstLink(s: Table, r: nat)
      requires Ok(s) && r < |s| && s[r].kind.Rec?
      ensures Linked(s) && Link(s, r, s[r].kind.first, |s|)
    {
    }

    /** One link of a chain. */
    lemma Follow(s: Table, r: nat, i: int)
      requires Linked(s) && 0 <= i && Link(s, r, i, |s|)
      ensures var next := s[i].kind.next; next < i && Link(s, r, next, |s|) && Chain(s, i) == [i] + Chain(s, next)
    {
    }

    lemma ChainEnds(s: Table)
      requires Linked(s)
      ensures Chain(s, -1) == []
    {
    }

    /** The datum for a record's field: the one there is, or a new one. */
    method BuildRecfield(r: nat, name: string) returns (dno: nat)
      requires Valid() && r < count && slots[r].kind.Rec?
      modifies this, slots
      ensures Valid() && dno < count && slots[dno].kind.Field? && slots[dno].kind.parent == r
      ensures slots[dno].kind.name == name
      ensures Contents() == old(if Absent(Contents(), r, name) then WithField(Contents(), r, name) else Contents())
      ensures last == old(last) && (slots == old(slots) || fresh(slots))
    {
      hide Ok, Absent;
      var i := FindField(r, name);
      if i >= 0 { return i; }
      ghost var s := Contents();
      WithFieldOk(s, r, name);
      dno := Append(Field(r, name, slots[r].kind.first));
      slots[r] := Datum(slots[r].dno, Rec(dno));
      assert Contents() == WithField(s, r, name);
    }

    lemma Present(s: Table, r: nat, name: string, i: nat)
      requires i < |s| && s[i].kind.Field? && s[i].kind.parent == r && s[i].kind.name == name
      ensures !Absent(s, r, name)
    {
    }

    lemma SearchedAll(s: Table, r: nat, name: string, done: seq<nat>)
      requires Ok(s) && r < |s| && s[r].kind.Rec? && Chain(s, s[r].kind.first) == done
      requires forall d <- done :: d < |s| && s[d].kind.Field? && s[d].kind.name != name
      ensures Absent(s, r, name)
    {
    }

    /** Numbers of the initialisable datums made since the last call. */
    method AddInitdatums() returns (nos: seq<nat>)
      requires Valid()
      modifies this`last
      ensures Valid() && Contents() == old(Contents()) && last == count && nos == InitNos(Contents(), old(last))
    {
      nos := [];
      for i := last to count
        invariant nos + InitNos(Contents(), i) == InitNos(Contents(), last)
      {
        if Initializable(slots[i].kind) { nos := nos + [slots[i].dno]; }
      }
      last := count;
    }
  }

  /** The list is strictly ascending and holds exactly the initialisable datums made since. */
  lemma {:induction false} InitNosAre(s: Table, from: nat)
    requires Linked(s) && from <= |s|
    ensures forall d :: d in InitNos(s, from) <==> from <= d < |s| && (s[d].kind.Var? || s[d].kind.Rec?)
    ensures forall j, k :: 0 <= j < k < |InitNos(s, from)| ==> InitNos(s, from)[j] < InitNos(s, from)[k]
    decreases |s| - from
  {
    if from < |s| {
      var nos, rest := InitNos(s, from), InitNos(s, from + 1);
      InitNosAre(s, from + 1);
      if Initializable(s[from].kind) {
        assert nos == [from] + rest;
        Ascends(from, rest);
      } else {
        assert nos == rest;
      }
    }
  }

  lemma Ascends(first: nat, rest: seq<nat>)
    requires forall j, k :: 0 <= j < k < |rest| ==> rest[j] < rest[k]
    requires forall d :: d in rest ==> first < d
    ensures forall j, k :: 0 <= j < k < |[first] + rest| ==> ([first] + rest)[j] < ([first] + rest)[k]
  {
    var all := [first] + rest;
    forall j, k | 0 <= j < k < |all| ensures all[j] < all[k] {
      assert all[k] == rest[k - 1] && rest[k - 1] in rest;
      assert j > 0 ==> all[j] == rest[j - 1];
    }
  }
}
