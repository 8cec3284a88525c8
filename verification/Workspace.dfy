/** Sizing the per-call copies at compile time and laying them out at call time. */
module Workspace {
  import opened Datums

  /** MAXALIGN of a structure size. */
  function MaxAlign(n: nat): (r: nat)
    ensures n <= r < n + 8 && r % 8 == 0
  {
    (n + 7) / 8 * 8
  }

  /** Sizes of the two structures that are copied per call. */
  datatype Sizes = Sizes(ofVar: nat, ofRec: nat)

  predicate Copiable(k: Kind) { k.Var? || k.Promise? || k.Rec? }

  function SlotSize(k: Kind, z: Sizes): nat {
    if k.Var? || k.Promise? then MaxAlign(z.ofVar) else if k.Rec? then MaxAlign(z.ofRec) else 0
  }

  /** A slot holds the structure copied into it, at an aligned size; what is not copied takes no room. */
  lemma SlotHolds(k: Kind, z: Sizes)
    ensures SlotSize(k, z) % 8 == 0
    ensures k.Var? || k.Promise? ==> z.ofVar <= SlotSize(k, z) < z.ofVar + 8
    ensures k.Rec? ==> z.ofRec <= SlotSize(k, z) < z.ofRec + 8
    ensures k.Row? || k.Field? ==> SlotSize(k, z) == 0
  {
  }

  function Total(s: Table, z: Sizes): nat {
    if s == [] then 0 else Total(s[..|s| - 1], z) + SlotSize(s[|s| - 1].kind, z)
  }

  lemma TotalNext(s: Table, z: Sizes, i: nat)
    requires i < |s|
    ensures Total(s[..i + 1], z) == Total(s[..i], z) + SlotSize(s[i].kind, z)
  {
    assert s[..i + 1][..i] == s[..i];
  }

  lemma {:induction false} TotalGrows(s: Table, z: Sizes, i: nat, j: nat)
    requires i <= j <= |s|
    ensures Total(s[..i], z) <= Total(s[..j], z)
    decreases j - i
  {
    if i < j { TotalNext(s, z, j - 1); TotalGrows(s, z, i, j - 1); }
  }

  /** Compile time: the space all copies will need. */
  method FinishDatums(s: Table, z: Sizes) returns (size: nat)
    ensures size == Total(s, z)
  {
    size := 0;
    for i := 0 to |s|
      invariant size == Total(s[..i], z)
    {
      TotalNext(s, z, i);
      match s[i].kind {
        case Var => size := size + MaxAlign(z.ofVar);
        case Promise => size := size + MaxAlign(z.ofVar);
        case Rec(_) => size := size + MaxAlign(z.ofRec);
        case _ =>
      }
    }
    assert s[..|s|] == s;
  }

  /** Where a call keeps a datum: a copy in the workspace, or the compiled function's own. */
  datatype Place = At(offset: nat) | Shared

  /** Call time: the copies are laid out one after the other. */
  method CopyDatums(s: Table, z: Sizes) returns (places: seq<Place>, used: nat)
    ensures used == Total(s, z) && |places| == |s|
    ensures forall i :: 0 <= i < |s| ==> places[i] == if Copiable(s[i].kind) then At(Total(s[..i], z)) else Shared
  {
    places, used := [], 0;
    for i := 0 to |s|
      invariant used == Total(s[..i], z) && |places| == i
      invariant forall k :: 0 <= k < i ==> places[k] == if Copiable(s[k].kind) then At(Total(s[..k], z)) else Shared
    {
      TotalNext(s, z, i);
      match s[i].kind {
        case Var => places := places + [At(used)]; used := used + MaxAlign(z.ofVar);
        case Promise => places := places + [At(used)]; used := used + MaxAlign(z.ofVar);
        case Rec(_) => places := places + [At(used)]; used := used + MaxAlign(z.ofRec);
        case _ => places := places + [Shared];
      }
    }
    assert s[..|s|] == s;
  }

  /** Byte p lies in the copy of datum i. */
  predicate Covers(s: Table, z: Sizes, i: nat, p: nat)
    requires i < |s|
  {
    Copiable(s[i].kind) && Total(s[..i], z) <= p < Total(s[..i], z) + SlotSize(s[i].kind, z)
  }

  /** Copies do not overlap. */
  lemma Disjoint(s: Table, z: Sizes, i: nat, j: nat, p: nat)
    requires i < |s| && j < |s| && Covers(s, z, i, p) && Covers(s, z, j, p)
    ensures i == j
  {
    if i < j { TotalNext(s, z, i); TotalGrows(s, z, i + 1, j); }
    if j < i { TotalNext(s, z, j); TotalGrows(s, z, j + 1, i); }
  }

  /** Every byte of the workspace belongs to some copy, and no copy reaches outside it. */
  lemma {:induction false} Tiled(s: Table, z: Sizes, p: nat)
    ensures p < Total(s, z) <==> exists i :: 0 <= i < |s| && Covers(s, z, i, p)
    decreases |s|
  {
    if s != [] {
      var n := |s| - 1;
      Tiled(s[..n], z, p);
      assert forall i :: 0 <= i < n ==> s[..n][..i] == s[..i];
      if p < Total(s[..n], z) {
        var i :| 0 <= i < n && Covers(s[..n], z, i, p);
        assert Covers(s, z, i, p);
      } else if p < Total(s, z) {
        assert Covers(s, z, n, p);
      }
      if i :| 0 <= i < |s| && Covers(s, z, i, p) {
        if i < n { assert Covers(s[..n], z, i, p); }
      }
    }
  }
}
