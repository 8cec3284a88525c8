/** The cache of compiled functions. */
module FunctionCache {
  import opened Cfg

  /** What is stored for a function: code, the decision not to compile, or nothing yet. */
  datatype Jit = Code(id: nat) | Skip | Undecided

  /** A version of a function: its pg_proc row and the language's own structure. */
  datatype Version = Version(xmin: nat, tid: nat, lang: nat)

  datatype Entry = Entry(jit: Jit, version: Version)

  datatype Answer = Miss | SkipJit | Hit(code: nat)

  /** Whether a cached structure still serves for the current one; without a check any does. */
  type Check = Option<(nat, nat) -> bool>

  predicate Matches(cached: Version, current: Version, check: Check) {
    cached.xmin == current.xmin && cached.tid == current.tid && (check.Some? ==> check.value(cached.lang, current.lang))
  }

  class Cache {
    var table: Option<map<nat, Entry>>

    constructor ()
      ensures Entries() == map[]
    {
      table := None;
    }

    function Entries(): map<nat, Entry>
      reads this
    {
      if table.None? then map[] else table.value
    }

    method Lookup(oid: nat, current: Version, check: Check) returns (a: Answer)
      modifies this
      ensures (a, Entries()) == Looked(old(Entries()), oid, current, check)
    {
      if table.None? { return Miss; }
      if oid !in table.value { return Miss; }
      var e := table.value[oid];
      var other := check.Some? && !check.value(e.version.lang, current.lang);
      if e.version.xmin != current.xmin || e.version.tid != current.tid || other {
        table := Some(table.value - {oid});
        return Miss;
      }
      if e.jit.Skip? { return SkipJit; }
      if e.jit.Undecided? { return Miss; }
      return Hit(e.jit.id);
    }

    method Store(oid: nat, version: Version, jit: Jit)
      modifies this
      ensures Entries() == old(Entries())[oid := Entry(jit, version)]
    {
      if table.None? { table := Some(map[]); }
      table := Some(table.value[oid := Entry(jit, version)]);
    }

    method StoreSkip(oid: nat, version: Version)
      modifies this
      ensures Entries() == old(Entries())[oid := Entry(Skip, version)]
    {
      Store(oid, version, Skip);
    }
  }

  /** A lookup: the answer, and the table with an outdated entry removed. */
  function Looked(t: map<nat, Entry>, oid: nat, current: Version, check: Check): (Answer, map<nat, Entry>) {
    if oid !in t then (Miss, t)
    else if !Matches(t[oid].version, current, check) then (Miss, t - {oid})
    else (match t[oid].jit case Code(c) => Hit(c) case Skip => SkipJit case Undecided => Miss, t)
  }

  // ---- whole histories ----

  datatype Op = LookupOp(oid: nat, current: Version) | StoreOp(oid: nat, version: Version, jit: Jit)

  function Apply(t: map<nat, Entry>, op: Op, check: Check): map<nat, Entry> {
    match op
    case LookupOp(oid, v) => Looked(t, oid, v, check).1
    case StoreOp(oid, v, j) => t[oid := Entry(j, v)]
  }

  function After(h: seq<Op>, check: Check): map<nat, Entry> {
    if h == [] then map[] else Apply(After(h[..|h| - 1], check), h[|h| - 1], check)
  }

  /** Operation i of history h stored entry e for oid; since then nothing else was stored for it and
      every lookup of it matched. */
  ghost predicate StillServes(h: seq<Op>, i: nat, oid: nat, e: Entry, check: Check) {
    && i < |h| && h[i] == StoreOp(oid, e.version, e.jit)
    && forall k :: i < k < |h| && h[k].oid == oid ==> h[k].LookupOp? && Matches(e.version, h[k].current, check)
  }

  /** The table holds an entry exactly while a store still serves. */
  lemma {:induction false} HeldExactly(h: seq<Op>, oid: nat, e: Entry, check: Check)
    ensures oid in After(h, check) && After(h, check)[oid] == e <==> exists i :: StillServes(h, i, oid, e, check)
    decreases |h|
  {
    if h != [] {
      var n := |h| - 1;
      var p, op := h[..n], h[n];
      HeldExactly(p, oid, e, check);
      if i: nat :| StillServes(h, i, oid, e, check) {
        if i < n { assert StillServes(p, i, oid, e, check); }
      }
      if oid in After(h, check) && After(h, check)[oid] == e {
        if op == StoreOp(oid, e.version, e.jit) {
          assert StillServes(h, n, oid, e, check);
        } else {
          var i :| StillServes(p, i, oid, e, check);
          assert StillServes(h, i, oid, e, check);
        }
      }
    }
  }

  /** A hit is served exactly when the last store for the function put that code there for a version
      that matches the current one, and every lookup in between matched too; so neither a skip marker
      nor an evicted entry is ever served. */
  lemma HitExactly(h: seq<Op>, oid: nat, current: Version, code: nat, check: Check)
    ensures Looked(After(h, check), oid, current, check).0 == Hit(code) <==>
      exists i, v :: StillServes(h, i, oid, Entry(Code(code), v), check) && Matches(v, current, check)
  {
    var t := After(h, check);
    if oid in t { HeldExactly(h, oid, t[oid], check); }
    if Looked(t, oid, current, check).0 == Hit(code) {
      var i :| StillServes(h, i, oid, t[oid], check);
      assert t[oid] == Entry(Code(code), t[oid].version);
    }
    if i, v :| StillServes(h, i, oid, Entry(Code(code), v), check) && Matches(v, current, check) {
      HeldExactly(h, oid, Entry(Code(code), v), check);
    }
  }

  /** Code is served exactly for an entry that holds it, made from the same pg_proc row (xmin and tid) and accepted by
      the language's check if there is one. */
  lemma HitFields(t: map<nat, Entry>, oid: nat, current: Version, code: nat, check: Check)
    ensures Looked(t, oid, current, check).0 == Hit(code) <==>
      && oid in t && t[oid].jit == Code(code)
      && t[oid].version.xmin == current.xmin && t[oid].version.tid == current.tid
      && (check.Some? ==> check.value(t[oid].version.lang, current.lang))
  {
  }

  /** After a lookup that does not match, nothing is served for the function until the next store. */
  lemma {:induction false} EvictedForGood(h: seq<Op>, later: seq<Op>, oid: nat, current: Version, now: Version,
                                          check: Check)
    requires oid in After(h, check) && !Matches(After(h, check)[oid].version, current, check)
    requires forall k :: 0 <= k < |later| ==> !(later[k].StoreOp? && later[k].oid == oid)
    ensures Looked(After(h + [LookupOp(oid, current)] + later, check), oid, now, check).0 == Miss
    decreases |later|
  {
    var g := h + [LookupOp(oid, current)];
    assert g[..|h|] == h;
    if later == [] {
      assert g + later == g;
    } else {
      var n := |later| - 1;
      EvictedForGood(h, later[..n], oid, current, now, check);
      assert (g + later)[..|g + later| - 1] == g + later[..n];
    }
  }
}
