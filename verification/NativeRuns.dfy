/** Whole runs: native array variables against plain ones. */
module NativeRuns {
  import opened Cfg
  import opened Words
  import opened PlainArrays
  import opened Mirrors

  /** Events of a run over variables 0..n-1, each a native array; a number from n on names some other
      variable.  An interpreter callee is a function of the arrays it reads; it may raise. */
  datatype Event =
    | Init(v: nat, uses: seq<nat>, init: seq<PgArr> -> Option<PgArr>)                 // DECLARE default
    | Assign(v: nat, uses: seq<nat>, planned: bool, rhs: seq<PgArr> -> Option<PgArr>) // v := expr
    | Into(targets: seq<nat>, uses: seq<nat>, row: seq<PgArr> -> IntoResult)          // SELECT INTO
    | Put(v: nat, at: Option<int>, val: Option<int>)                                   // v[at] := val
    | Fetch(v: nat, sub: int)                                                          // v[sub]
    | Call(uses: seq<nat>)                                                            // anything else interpreted

  /** Values stored into the targets, in order, and whether an error then cut the statement short. */
  datatype IntoResult = IntoResult(vals: seq<PgArr>, raised: bool)

  /** What a run shows: the arrays a callee saw, an element, an error. */
  datatype Obs = Saw(arrays: seq<PgArr>, raised: bool) | Element(elem: Option<int>) | Wrote(error: Option<Error>)

  /** At most this many INTO targets are looked at. */
  const MaxTargets := 64

  predicate Within(rs: seq<nat>, n: nat) { forall k :: 0 <= k < |rs| ==> rs[k] < n }

  predicate Fits(e: Event, n: nat) {
    match e
    case Init(v, rs, _) => v < n && v !in rs && Within(rs, n)    // a default sees only earlier variables
    case Assign(_, rs, _, _) => Within(rs, n)
    case Into(_, rs, _) => Within(rs, n)
    case Put(v, i, _) => v < n && (i.Some? ==> MIN32 <= i.value <= MAX32)
    case Fetch(v, _) => v < n
    case Call(rs) => Within(rs, n)
  }

  // ---- plain variables ----

  function Pick(p: seq<PgArr>, rs: seq<nat>): (r: seq<PgArr>)
    requires Within(rs, |p|)
    ensures |r| == |rs| && forall k :: 0 <= k < |r| ==> r[k] == p[rs[k]]
  {
    seq(|rs|, k requires 0 <= k < |rs| => p[rs[k]])
  }

  function Put1(p: seq<PgArr>, v: nat, a: PgArr): (q: seq<PgArr>)
    ensures |q| == |p|
  {
    if v < |p| then p[v := a] else p
  }

  function PutAll(p: seq<PgArr>, vs: seq<nat>, vals: seq<PgArr>): (q: seq<PgArr>)
    ensures |q| == |p|
    decreases |vs|
  {
    if vs == [] || vals == [] then p else PutAll(Put1(p, vs[0], vals[0]), vs[1..], vals[1..])
  }

  function PlainStep(p: seq<PgArr>, e: Event): (r: (seq<PgArr>, Obs))
    requires Fits(e, |p|)
    ensures |r.0| == |p|
  {
    match e
    case Init(v, rs, f) =>
      // the variable is NULL while its default is evaluated
      var a := f(Pick(p, rs));
      (p[v := if a.Some? then a.value else Null], Saw(Pick(p, rs), a.None?))
    case Assign(v, rs, _, f) =>
      var a := f(Pick(p, rs));
      (if a.Some? then Put1(p, v, a.value) else p, Saw(Pick(p, rs), a.None?))
    case Into(vs, rs, f) =>
      var a := f(Pick(p, rs));
      (PutAll(p, vs, a.vals), Saw(Pick(p, rs), a.raised))
    case Put(v, i, val) => var (a, err) := PlainWrite(p[v], i, val); (p[v := a], Wrote(err))
    case Fetch(v, i) => (p, Element(Get(p[v], i)))
    case Call(rs) => (p, Saw(Pick(p, rs), false))
  }

  // ---- native variables ----

  predicate AllFit(s: seq<Var>) { forall k :: 0 <= k < |s| ==> Fit(s[k]) }

  function Datums(s: seq<Var>): (p: seq<PgArr>)
    ensures |p| == |s| && forall k :: 0 <= k < |s| ==> p[k] == s[k].datum
  {
    seq(|s|, k requires 0 <= k < |s| => s[k].datum)
  }

  ghost function Values(s: seq<Var>): (p: seq<PgArr>)
    requires AllFit(s)
    ensures |p| == |s| && forall k :: 0 <= k < |s| ==> p[k] == Value(s[k])
  {
    seq(|s|, k requires 0 <= k < |s| => Value(s[k]))
  }

  /** Sync the variables an expression reads. */
  ghost function SyncSome(s: seq<Var>, rs: seq<nat>): (t: seq<Var>)
    requires AllFit(s)
    ensures |t| == |s| && forall k :: 0 <= k < |s| ==> t[k] == if k in rs then Sync(s[k]) else s[k]
    ensures AllFit(t) && Values(t) == Values(s)
  {
    seq(|s|, k requires 0 <= k < |s| => if k in rs then Sync(s[k]) else s[k])
  }

  ghost function SyncEvery(s: seq<Var>): (t: seq<Var>)
    requires AllFit(s)
    ensures |t| == |s| && forall k :: 0 <= k < |s| ==> t[k] == Sync(s[k])
    ensures AllFit(t) && Values(t) == Values(s)
  {
    seq(|s|, k requires 0 <= k < |s| => Sync(s[k]))
  }

  /** The interpreter stores into Datums only. */
  function Store(s: seq<Var>, v: nat, a: PgArr): (t: seq<Var>)
    ensures |t| == |s|
  {
    if v < |s| then s[v := s[v].(datum := a)] else s
  }

  function StoreAll(s: seq<Var>, vs: seq<nat>, vals: seq<PgArr>): (t: seq<Var>)
    ensures |t| == |s|
    decreases |vs|
  {
    if vs == [] || vals == [] then s else StoreAll(Store(s, vs[0], vals[0]), vs[1..], vals[1..])
  }

  function Reload(s: seq<Var>, v: nat): (t: seq<Var>)
    ensures |t| == |s|
  {
    if v < |s| then s[v := Refresh(s[v])] else s
  }

  function ReloadAll(s: seq<Var>, vs: seq<nat>): (t: seq<Var>)
    ensures |t| == |s|
    decreases |vs|
  {
    if vs == [] then s else ReloadAll(Reload(s, vs[0]), vs[1..])
  }

  function First64(vs: seq<nat>): seq<nat> { if |vs| <= MaxTargets then vs else vs[..MaxTargets] }

  /** The default of a DECLARE is evaluated on the Datums as they are, its own variable's set to NULL;
      only a default that does not raise is followed by a reload. */
  ghost function NativeStep(s: seq<Var>, e: Event): (r: (seq<Var>, Obs))
    requires AllFit(s) && Fits(e, |s|)
    ensures |r.0| == |s|
  {
    match e
    case Init(v, rs, f) =>
      var t := Store(s, v, Null);
      var seen := Pick(Datums(t), rs);
      var a := f(seen);
      (if a.Some? then Reload(Store(t, v, a.value), v) else t, Saw(seen, a.None?))
    case Assign(v, rs, planned, f) =>
      var t := if planned then SyncSome(s, rs) else SyncEvery(s);
      var seen := Pick(Datums(t), rs);
      var a := f(seen);
      (if a.Some? then Reload(Store(t, v, a.value), v) else t, Saw(seen, a.None?))
    case Into(vs, rs, f) =>
      var t := SyncEvery(s);
      var seen := Pick(Datums(t), rs);
      var a := f(seen);
      var u := StoreAll(t, vs, a.vals);
      (if a.raised then u else ReloadAll(u, First64(vs)), Saw(seen, a.raised))
    case Put(v, i, val) => var (x, err) := Write(s[v], i, val); (s[v := x], Wrote(err))
    case Fetch(v, i) => (s, Element(Read(s[v], i)))
    case Call(rs) => var t := SyncEvery(s); (t, Saw(Pick(Datums(t), rs), false))
  }

  // ---- when the two agree ----

  /** What the plain run says of a native variable's two copies: the array as of its last sync or reload,
      and whether flat memory was last loaded from a value of several dimensions. */
  datatype Shade = Shade(datum: PgArr, wide: bool)

  function Loaded(a: PgArr): Shade { Shade(a, a.MultiD?) }

  /** Element writes done in flat memory: in range, or at the first subscript past the end. */
  predicate InPlace(a: PgArr, wide: bool, i: Option<int>, v: Option<int>) {
    i.None? || (v.Some? && if a.OneD? then a.lb <= i.value <= a.lb + |a.elems| else !wide && i.value == 1)
  }

  function SyncShades(h: seq<Shade>, p: seq<PgArr>, which: nat -> bool): (g: seq<Shade>)
    requires |h| == |p|
    ensures |g| == |h| && forall k :: 0 <= k < |g| ==> g[k] == if which(k) then h[k].(datum := p[k]) else h[k]
  {
    seq(|h|, k requires 0 <= k < |h| => if which(k) then h[k].(datum := p[k]) else h[k])
  }

  function ShadeStep(h: seq<Shade>, p: seq<PgArr>, e: Event): (g: seq<Shade>)
    requires Fits(e, |p|) && |h| == |p|
    ensures |g| == |h|
  {
    match e
    case Init(v, rs, f) =>
      var a := f(Pick(p, rs));
      h[v := if a.Some? then Loaded(a.value) else h[v].(datum := Null)]
    case Assign(v, rs, planned, f) =>
      var g := SyncShades(h, p, k => !planned || k in rs);
      var a := f(Pick(p, rs));
      if a.Some? && v < |g| then g[v := Loaded(a.value)] else g
    case Into(vs, rs, f) =>
      var a := f(Pick(p, rs));
      var q := PutAll(p, vs, a.vals);
      seq(|h|, k requires 0 <= k < |h| => if !a.raised && k in First64(vs) then Loaded(q[k]) else h[k].(datum := q[k]))
    case Put(v, i, val) =>
      var (a, err) := PlainWrite(p[v], i, val);
      if InPlace(p[v], h[v].wide, i, val) then h
      else h[v := if err.None? then Loaded(a) else h[v].(datum := a)]
    case Fetch(_, _) => h
    case Call(_) => SyncShades(h, p, k => true)
  }

  /** Flat memory that stands for a already describes b. */
  predicate Describes(a: PgArr, wide: bool, b: PgArr) {
    if a.OneD? then b == a else Beside(if wide then -1 else 0, b)
  }

  /** The condition on one event, in terms of the plain run: a default reads only arrays unchanged since
      their last sync or reload, and does not raise over a variable that held elements; every native
      variable INTO does not reload already described its new value; no append at the largest int4. */
  predicate Sound(h: seq<Shade>, p: seq<PgArr>, e: Event)
    requires Fits(e, |p|) && |h| == |p|
  {
    match e
    case Init(v, rs, f) => (forall r <- rs :: h[r].datum == p[r]) && (f(Pick(p, rs)).None? ==> !p[v].OneD?)
    case Into(vs, rs, f) =>
      var a := f(Pick(p, rs));
      forall k :: 0 <= k < |p| && (a.raised || k !in First64(vs)) ==>
        Describes(p[k], h[k].wide, PutAll(p, vs, a.vals)[k])
    case Put(v, i, val) => !AppendsAtMax(p[v], i, val)
    case _ => true
  }

  ghost predicate Stands1(x: Var, a: PgArr, h: Shade) {
    Fit(x) && Value(x) == a && x.datum == h.datum && (x.mirror.len < 0 <==> h.wide)
  }

  /** Native variables stand for the plain ones, their Datums and markers as the shades say. */
  ghost predicate Stands(s: seq<Var>, p: seq<PgArr>, h: seq<Shade>) {
    |s| == |p| == |h| && forall k :: 0 <= k < |s| ==> Stands1(s[k], p[k], h[k])
  }

  /** A step leaves the same arrays on both sides and shows the same. */
  ghost predicate Agrees(r: (seq<Var>, Obs), q: (seq<PgArr>, Obs)) {
    AllFit(r.0) && Values(r.0) == q.0 && r.1 == q.1
  }

  lemma StandsValues(s: seq<Var>, p: seq<PgArr>, h: seq<Shade>)
    requires Stands(s, p, h)
    ensures AllFit(s) && Values(s) == p
  {
  }

  lemma ReloadStands(x: Var, a: PgArr)
    ensures Stands1(Refresh(x.(datum := a)), a, Loaded(a))
  {
  }

  lemma SyncStands(x: Var, a: PgArr, h: Shade)
    requires Stands1(x, a, h)
    ensures Stands1(Sync(x), a, h.(datum := a))
  {
  }

  /** A store without a reload is seen exactly when flat memory described it already. */
  lemma StoreStands(x: Var, a: PgArr, h: Shade, b: PgArr)
    requires Stands1(x, a, h)
    ensures var y := x.(datum := b);
      && (Describes(a, h.wide, b) ==> Stands1(y, b, h.(datum := b)))
      && (Fit(y) && Value(y) == b ==> Describes(a, h.wide, b))
  {
    WrittenUnrefreshed(x, b);
    HoldsElements(x);
  }

  /** Every native store among the targets is followed by its reload. */
  lemma {:induction false} ReloadAllAt(s: seq<Var>, vs: seq<nat>, k: nat)
    requires k < |s|
    ensures ReloadAll(s, vs)[k] == if k in vs then Refresh(s[k]) else s[k]
    decreases |vs|
  {
    if vs != [] { ReloadAllAt(Reload(s, vs[0]), vs[1..], k); }
  }

  /** Datums after the stores are the plain values after them; flat memory is untouched. */
  lemma {:induction false} StoreAllAt(s: seq<Var>, p: seq<PgArr>, vs: seq<nat>, vals: seq<PgArr>, k: nat)
    requires |s| == |p| && k < |s| && s[k].datum == p[k]
    ensures StoreAll(s, vs, vals)[k].mirror == s[k].mirror && StoreAll(s, vs, vals)[k].datum == PutAll(p, vs, vals)[k]
    ensures (forall j :: 0 <= j < |vs| && j < |vals| ==> vs[j] != k) ==> StoreAll(s, vs, vals)[k] == s[k]
    decreases |vs|
  {
    if vs != [] && vals != [] {
      var v, a := vs[0], vals[0];
      StoreAllAt(Store(s, v, a), Put1(p, v, a), vs[1..], vals[1..], k);
      if forall j :: 0 <= j < |vs| && j < |vals| ==> vs[j] != k {
        assert forall j :: 0 <= j < |vs[1..]| && j < |vals[1..]| ==> vs[1..][j] == vs[j + 1] != k;
      }
    }
  }

  lemma SeenAre(s: seq<Var>, p: seq<PgArr>, rs: seq<nat>)
    requires |s| == |p| && Within(rs, |s|)
    ensures Pick(Datums(s), rs) == Pick(p, rs) <==> forall r <- rs :: s[r].datum == p[r]
  {
    if forall r <- rs :: s[r].datum == p[r] {
      forall k | 0 <= k < |rs| ensures Pick(Datums(s), rs)[k] == Pick(p, rs)[k] { assert rs[k] in rs; }
    } else {
      var r :| r in rs && s[r].datum != p[r];
      var k :| 0 <= k < |rs| && rs[k] == r;
      assert Pick(Datums(s), rs)[k] != Pick(p, rs)[k];
    }
  }

  lemma InitExact(s: seq<Var>, p: seq<PgArr>, h: seq<Shade>, e: Event)
    requires Stands(s, p, h) && Fits(e, |p|) && e.Init?
    ensures AllFit(s) && (Agrees(NativeStep(s, e), PlainStep(p, e)) <==> Sound(h, p, e))
    ensures Sound(h, p, e) ==> Stands(NativeStep(s, e).0, PlainStep(p, e).0, ShadeStep(h, p, e))
    ensures NativeStep(s, e).1.arrays == PlainStep(p, e).1.arrays <==> forall r <- e.uses :: h[r].datum == p[r]
  {
    var v, x := e.v, s[e.v];
    var t := Store(s, v, Null);
    SeenAre(t, p, e.uses);
    var a := e.init(Pick(p, e.uses));
    if a.Some? { ReloadStands(t[v], a.value); }
    StoreStands(x, p[v], h[v], Null);
    var r := NativeStep(s, e);
    if Agrees(r, PlainStep(p, e)) {
      assert Fit(r.0[v]) && Value(r.0[v]) == PlainStep(p, e).0[v];
      assert r.1 == PlainStep(p, e).1;
    }
    if Sound(h, p, e) { StandsValues(r.0, PlainStep(p, e).0, ShadeStep(h, p, e)); }
  }

  lemma AssignStands(s: seq<Var>, p: seq<PgArr>, h: seq<Shade>, e: Event)
    requires Stands(s, p, h) && Fits(e, |p|) && e.Assign?
    ensures AllFit(s) && Stands(NativeStep(s, e).0, PlainStep(p, e).0, ShadeStep(h, p, e))
    ensures NativeStep(s, e).1 == PlainStep(p, e).1
  {
    var t := if e.planned then SyncSome(s, e.uses) else SyncEvery(s);
    forall k | 0 <= k < |s| ensures Stands1(Sync(s[k]), p[k], h[k].(datum := p[k])) { SyncStands(s[k], p[k], h[k]); }
    SeenAre(t, p, e.uses);
    var a := e.rhs(Pick(p, e.uses));
    if a.Some? && e.v < |s| { ReloadStands(t[e.v], a.value); }
  }

  lemma IntoExact(s: seq<Var>, p: seq<PgArr>, h: seq<Shade>, e: Event)
    requires Stands(s, p, h) && Fits(e, |p|) && e.Into?
    ensures AllFit(s) && (Agrees(NativeStep(s, e), PlainStep(p, e)) <==> Sound(h, p, e))
    ensures Sound(h, p, e) ==> Stands(NativeStep(s, e).0, PlainStep(p, e).0, ShadeStep(h, p, e))
  {
    var t := SyncEvery(s);
    SeenAre(t, p, e.uses);
    var a := e.row(Pick(p, e.uses));
    var r, q, g := NativeStep(s, e).0, PutAll(p, e.targets, a.vals), ShadeStep(h, p, e);
    forall k | 0 <= k < |s|
      ensures a.raised || k !in First64(e.targets) ==> r[k] == s[k].(datum := q[k])
      ensures !a.raised && k in First64(e.targets) ==> Stands1(r[k], q[k], g[k])
      ensures a.raised || k !in First64(e.targets) ==> (Describes(p[k], h[k].wide, q[k]) ==> Stands1(r[k], q[k], g[k]))
      ensures a.raised || k !in First64(e.targets) ==>
        (Fit(r[k]) && Value(r[k]) == q[k] ==> Describes(p[k], h[k].wide, q[k]))
    {
      IntoAt(s, p, h, e, k);
    }
    assert NativeStep(s, e).1 == PlainStep(p, e).1;
    if Sound(h, p, e) { StandsValues(r, q, g); }
    if Agrees(NativeStep(s, e), PlainStep(p, e)) {
      assert forall k :: 0 <= k < |s| ==> Fit(r[k]) && Value(r[k]) == q[k];
    }
  }

  /** One variable through INTO. */
  lemma IntoAt(s: seq<Var>, p: seq<PgArr>, h: seq<Shade>, e: Event, k: nat)
    requires Stands(s, p, h) && Fits(e, |p|) && e.Into? && k < |s| && AllFit(s)
    ensures var a := e.row(Pick(p, e.uses));
      var x, b := NativeStep(s, e).0[k], PutAll(p, e.targets, a.vals)[k];
      if !a.raised && k in First64(e.targets) then Stands1(x, b, Loaded(b))
      else
        && x == s[k].(datum := b)
        && (Describes(p[k], h[k].wide, b) ==> Stands1(x, b, h[k].(datum := b)))
        && (Fit(x) && Value(x) == b ==> Describes(p[k], h[k].wide, b))
  {
    var t := SyncEvery(s);
    SeenAre(t, p, e.uses);
    var a := e.row(Pick(p, e.uses));
    var u := StoreAll(t, e.targets, a.vals);
    var b := PutAll(p, e.targets, a.vals)[k];
    StoreAllAt(t, p, e.targets, a.vals, k);
    ReloadAllAt(u, First64(e.targets), k);
    ReloadStands(u[k], b);
    StoreStands(s[k], p[k], h[k], b);
  }

  /** SELECT INTO that does not raise: flat memory is loaded anew with the stored array for exactly the variables that
      are among the first 64 targets, and kept for all others. */
  lemma IntoReloads(s: seq<Var>, p: seq<PgArr>, h: seq<Shade>, e: Event, k: nat)
    requires Stands(s, p, h) && Fits(e, |p|) && e.Into? && k < |s| && !e.row(Pick(p, e.uses)).raised
    ensures AllFit(s)
    ensures var x, early := NativeStep(s, e).0[k], exists j :: 0 <= j < 64 && j < |e.targets| && e.targets[j] == k;
      x.datum == PlainStep(p, e).0[k] && x.mirror == if early then FromArr(x.datum) else s[k].mirror
  {
    var t, a := SyncEvery(s), e.row(Pick(p, e.uses));
    SeenAre(t, p, e.uses);
    StoreAllAt(t, p, e.targets, a.vals, k);
    ReloadAllAt(StoreAll(t, e.targets, a.vals), First64(e.targets), k);
    First64Are(e.targets, k);
  }

  lemma First64Are(vs: seq<nat>, k: nat)
    ensures k in First64(vs) <==> exists j :: 0 <= j < 64 && j < |vs| && vs[j] == k
  {
    if j :| 0 <= j < 64 && j < |vs| && vs[j] == k { assert First64(vs)[j] == k; }
  }

  /** So with at most 64 targets SELECT INTO agrees whenever it does not raise. */
  lemma IntoAgrees(s: seq<Var>, p: seq<PgArr>, h: seq<Shade>, e: Event)
    requires Stands(s, p, h) && Fits(e, |p|) && e.Into? && !e.row(Pick(p, e.uses)).raised && |e.targets| <= 64
    ensures AllFit(s) && Agrees(NativeStep(s, e), PlainStep(p, e))
  {
    var a := e.row(Pick(p, e.uses));
    forall k | 0 <= k < |p| && k !in First64(e.targets)
      ensures Describes(p[k], h[k].wide, PutAll(p, e.targets, a.vals)[k])
    {
      First64Are(e.targets, k);
      Untargeted(p, e.targets, a.vals, k);
      Itself(s[k], p[k], h[k]);
    }
    IntoExact(s, p, h, e);
  }

  lemma {:induction false} Untargeted(p: seq<PgArr>, vs: seq<nat>, vals: seq<PgArr>, k: nat)
    requires k < |p| && forall j :: 0 <= j < |vs| ==> vs[j] != k
    ensures PutAll(p, vs, vals)[k] == p[k]
    decreases |vs|
  {
    if vs != [] && vals != [] { Untargeted(Put1(p, vs[0], vals[0]), vs[1..], vals[1..], k); }
  }

  /** Flat memory describes the array it stands for. */
  lemma Itself(x: Var, a: PgArr, h: Shade)
    requires Stands1(x, a, h)
    ensures Describes(a, h.wide, a)
  {
    HoldsElements(x);
  }

  /** A target that comes only after 64 others keeps its flat memory. */
  lemma Target64(s: seq<Var>, p: seq<PgArr>, h: seq<Shade>, e: Event)
    requires Stands(s, p, h) && Fits(e, |p|) && e.Into? && !e.row(Pick(p, e.uses)).raised
    requires |e.targets| > 64 && e.targets[64] < |s| && forall j :: 0 <= j < 64 ==> e.targets[j] != e.targets[64]
    ensures AllFit(s) && NativeStep(s, e).0[e.targets[64]].mirror == s[e.targets[64]].mirror
  {
    IntoReloads(s, p, h, e, e.targets[64]);
  }

  lemma PutExact(s: seq<Var>, p: seq<PgArr>, h: seq<Shade>, e: Event)
    requires Stands(s, p, h) && Fits(e, |p|) && e.Put?
    ensures AllFit(s) && (Agrees(NativeStep(s, e), PlainStep(p, e)) <==> Sound(h, p, e))
    ensures Sound(h, p, e) ==> Stands(NativeStep(s, e).0, PlainStep(p, e).0, ShadeStep(h, p, e))
  {
    var x := s[e.v];
    WriteExact(x, e.at, e.val);
    var (y, err) := Write(x, e.at, e.val);
    var t := s[e.v := y];
    if WriteAgrees(x, e.at, e.val) {
      WriteShade(x, h[e.v], e.at, e.val);
      assert AllFit(t) && Values(t) == p[e.v := Value(y)];
    }
    if Agrees(NativeStep(s, e), PlainStep(p, e)) { assert Fit(t[e.v]) && Value(t[e.v]) == PlainStep(p, e).0[e.v]; }
  }

  /** Which copy a write leaves out of date is known from the plain run. */
  lemma WriteShade(x: Var, h: Shade, i: Option<int>, v: Option<int>)
    requires Fit(x) && Stands1(x, Value(x), h) && (i.Some? ==> MIN32 <= i.value <= MAX32) && WriteAgrees(x, i, v)
    ensures var (y, err) := Write(x, i, v);
      var slow := if err.None? then Loaded(Value(y)) else h.(datum := Value(y));
      var g := if InPlace(Value(x), h.wide, i, v) then h else slow;
      Stands1(y, Value(y), g)
  {
    HoldsElements(x);
  }

  /** One event: native and plain variables stay together and show the same exactly when the event meets
      its condition; and then the shades go on saying which Datums are out of date. */
  lemma StepExact(s: seq<Var>, p: seq<PgArr>, h: seq<Shade>, e: Event)
    requires Stands(s, p, h) && Fits(e, |p|)
    ensures AllFit(s) && (Agrees(NativeStep(s, e), PlainStep(p, e)) <==> Sound(h, p, e))
    ensures Sound(h, p, e) ==> Stands(NativeStep(s, e).0, PlainStep(p, e).0, ShadeStep(h, p, e))
  {
    match e
    case Init(_, _, _) => InitExact(s, p, h, e);
    case Assign(_, _, _, _) =>
      AssignStands(s, p, h, e);
      StandsValues(NativeStep(s, e).0, PlainStep(p, e).0, ShadeStep(h, p, e));
    case Into(_, _, _) => IntoExact(s, p, h, e);
    case Put(_, _, _) => PutExact(s, p, h, e);
    case Fetch(v, i) => ReadAgrees(s[v], i);
    case Call(rs) =>
      forall k | 0 <= k < |s| ensures Stands1(Sync(s[k]), p[k], h[k].(datum := p[k])) { SyncStands(s[k], p[k], h[k]); }
      SeenAre(SyncEvery(s), p, rs);
  }

  // ---- runs ----

  function PlainRun(p: seq<PgArr>, es: seq<Event>): (seq<PgArr>, seq<Obs>)
    requires forall e <- es :: Fits(e, |p|)
    decreases |es|
  {
    if es == [] then (p, [])
    else
      var (q, x) := PlainStep(p, es[0]);
      var (r, xs) := PlainRun(q, es[1..]);
      (r, [x] + xs)
  }

  /** Every event of the plain run meets its condition. */
  predicate SoundRun(h: seq<Shade>, p: seq<PgArr>, es: seq<Event>)
    requires (forall e <- es :: Fits(e, |p|)) && |h| == |p|
    decreases |es|
  {
    es == [] || (Sound(h, p, es[0]) && SoundRun(ShadeStep(h, p, es[0]), PlainStep(p, es[0]).0, es[1..]))
  }

  function ShadeRun(h: seq<Shade>, p: seq<PgArr>, es: seq<Event>): (g: seq<Shade>)
    requires (forall e <- es :: Fits(e, |p|)) && |h| == |p|
    ensures |g| == |p|
    decreases |es|
  {
    if es == [] then h else ShadeRun(ShadeStep(h, p, es[0]), PlainStep(p, es[0]).0, es[1..])
  }

  /** Final variables and observations of the native run; it stops early if a step breaks an invariant. */
  ghost function NativeRun(s: seq<Var>, es: seq<Event>): (seq<Var>, seq<Obs>)
    requires forall e <- es :: Fits(e, |s|)
    decreases |es|
  {
    if es == [] || !AllFit(s) then (s, [])
    else
      var (t, x) := NativeStep(s, es[0]);
      var (u, xs) := NativeRun(t, es[1..]);
      (u, [x] + xs)
  }

  /** At every step of the run the two sides agree. */
  ghost predicate Together(s: seq<Var>, p: seq<PgArr>, es: seq<Event>)
    requires |s| == |p| && forall e <- es :: Fits(e, |p|)
    decreases |es|
  {
    es == [] || (AllFit(s) && Agrees(NativeStep(s, es[0]), PlainStep(p, es[0])) &&
      Together(NativeStep(s, es[0]).0, PlainStep(p, es[0]).0, es[1..]))
  }

  /** A run over native arrays agrees with the run over plain arrays at every step exactly when every
      event meets its condition. */
  lemma {:induction false} RunExact(s: seq<Var>, p: seq<PgArr>, h: seq<Shade>, es: seq<Event>)
    requires Stands(s, p, h) && forall e <- es :: Fits(e, |p|)
    ensures Together(s, p, es) <==> SoundRun(h, p, es)
    decreases |es|
  {
    if es != [] {
      StepExact(s, p, h, es[0]);
      if Sound(h, p, es[0]) {
        RunExact(NativeStep(s, es[0]).0, PlainStep(p, es[0]).0, ShadeStep(h, p, es[0]), es[1..]);
      }
    }
  }

  /** Every such run shows what the plain run shows: every element read, every array an interpreter callee
      sees, every error; and ends with the same arrays. */
  lemma {:induction false} RunAgrees(s: seq<Var>, p: seq<PgArr>, h: seq<Shade>, es: seq<Event>)
    requires Stands(s, p, h) && (forall e <- es :: Fits(e, |p|)) && SoundRun(h, p, es)
    ensures NativeRun(s, es).1 == PlainRun(p, es).1 && |NativeRun(s, es).1| == |es|
    ensures |PlainRun(p, es).0| == |p| && Stands(NativeRun(s, es).0, PlainRun(p, es).0, ShadeRun(h, p, es))
    decreases |es|
  {
    if es != [] {
      StepExact(s, p, h, es[0]);
      RunAgrees(NativeStep(s, es[0]).0, PlainStep(p, es[0]).0, ShadeStep(h, p, es[0]), es[1..]);
    }
  }

  // ---- where the code and the plain arrays part ----

  /** After any run that met its conditions, a DECLARE default sees the plain arrays exactly when each array
      it reads is still what it was at its last sync or reload. */
  lemma InitSees(s: seq<Var>, p: seq<PgArr>, h: seq<Shade>, es: seq<Event>, e: Event)
    requires Stands(s, p, h) && (forall x <- es :: Fits(x, |p|)) && SoundRun(h, p, es) && e.Init? && Fits(e, |p|)
    ensures |NativeRun(s, es).0| == |p| && AllFit(NativeRun(s, es).0) && |PlainRun(p, es).0| == |p|
    ensures NativeStep(NativeRun(s, es).0, e).1.arrays == PlainStep(PlainRun(p, es).0, e).1.arrays <==>
      forall r <- e.uses :: ShadeRun(h, p, es)[r].datum == PlainRun(p, es).0[r]
  {
    RunAgrees(s, p, h, es);
    InitExact(NativeRun(s, es).0, PlainRun(p, es).0, ShadeRun(h, p, es), e);
  }

  /** A default that raises over a variable with elements leaves the plain variable NULL and flat memory as
      it was: the old elements are still read, and the next sync brings the old array back. */
  lemma DefaultRaises(s: seq<Var>, p: seq<PgArr>, h: seq<Shade>, e: Event)
    requires Stands(s, p, h) && Fits(e, |p|) && e.Init? && (forall r <- e.uses :: h[r].datum == p[r])
    requires e.init(Pick(p, e.uses)).None?
    ensures AllFit(s) && (Agrees(NativeStep(s, e), PlainStep(p, e)) <==> !p[e.v].OneD?)
    ensures PlainStep(p, e).0[e.v] == Null
    ensures p[e.v].OneD? ==> var x := NativeStep(s, e).0[e.v];
      Fit(x) && x.datum == Null && Sync(x).datum == p[e.v] && forall i :: Read(x, i) == Get(p[e.v], i)
  {
    InitExact(s, p, h, e);
    SeenAre(Store(s, e.v, Null), p, e.uses);
    HoldsElements(s[e.v]);
    forall i ensures Read(s[e.v], i) == Get(p[e.v], i) { ReadAgrees(s[e.v], i); }
  }

  /** A native target of INTO that is not reloaded, because it comes after the first 64 or because
      the statement raised after storing it, keeps its old flat memory: it agrees with the plain
      array exactly when that memory already described the new one. */
  lemma IntoUnreloaded(s: seq<Var>, p: seq<PgArr>, h: seq<Shade>, e: Event, k: nat)
    requires Stands(s, p, h) && e.Into? && Fits(e, |s|) && k < |s|
    requires e.row(Pick(p, e.uses)).raised || k !in First64(e.targets)
    ensures AllFit(s)
    ensures var x, a := NativeStep(s, e).0[k], PlainStep(p, e).0[k];
      x == s[k].(datum := a) && (Fit(x) && Value(x) == a <==> Describes(p[k], h[k].wide, a))
  {
    IntoAt(s, p, h, e, k);
  }

  /** A variable just loaded. */
  function Fresh(a: PgArr): Var { Refresh(Var(FromArr(Null), a)) }

  /** Variable 0 holds any array; one of its elements is overwritten with something else; then a block is
      entered that declares variable 1 with a default reading variable 0: it sees the array of before. */
  lemma DefaultReadsStale(a: PgArr, i: int, v: int, f: seq<PgArr> -> Option<PgArr>)
    requires a.OneD? && a.lb <= i < a.lb + |a.elems| && a.elems[i - a.lb] != Some(v)
    ensures var s, p, h := [Fresh(a), Fresh(Null)], [a, Null], [Loaded(a), Loaded(Null)];
      var put, init := Put(0, Some(i), Some(v)), Init(1, [0], f);
      && Stands(s, p, h) && Fits(put, 2) && Fits(init, 2) && AllFit(s) && AllFit(NativeStep(s, put).0)
      && NativeStep(NativeStep(s, put).0, init).1.arrays == [a]
      && PlainStep(PlainStep(p, put).0, init).1.arrays == [Set(a, i, Some(v)).arr] != [a]
  {
    var s, p, h := [Fresh(a), Fresh(Null)], [a, Null], [Loaded(a), Loaded(Null)];
    var put, init := Put(0, Some(i), Some(v)), Init(1, [0], f);
    ReloadStands(Var(FromArr(Null), a), a);
    ReloadStands(Var(FromArr(Null), Null), Null);
    SetFails(a, i, Some(v));
    SetMeans(a, i, Some(v), i);
    StepExact(s, p, h, put);
    var t, q := NativeStep(s, put).0, PlainStep(p, put).0;
    assert q[0] == Set(a, i, Some(v)).arr && t[0].datum == a;
    var w := Store(t, 1, Null);
    assert Pick(Datums(w), [0]) == [a] && Pick(q, [0]) == [q[0]];
  }

  /** Any array that ends just below the largest int4 and has room shows the append that PostgreSQL refuses. */
  lemma AppendParts(a: PgArr, v: int)
    requires a.OneD? && a.lb + |a.elems| == MAX32 && |a.elems| < MaxElems
    ensures Write(Fresh(a), Some(MAX32), Some(v)).1 == None
    ensures PlainWrite(Value(Fresh(a)), Some(MAX32), Some(v)).1 == Some(TooLarge)
  {
    SetFails(a, MAX32, Some(v));
  }
}
