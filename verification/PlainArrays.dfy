/** PostgreSQL's one-dimensional array assignment and subscripting, as plain values. */
module PlainArrays {
  import opened Cfg
  import opened Words

  /** Most elements an array may have: MaxAllocSize / sizeof(Datum). */
  const MaxElems := 134_217_727

  /** A NULL array, an empty one, a vector with its lower bound, or a value of more dimensions. */
  datatype Arr = Null | Empty | OneD(lb: int, elems: seq<Option<int>>) | MultiD(id: nat)

  predicate WfArr(a: Arr) {
    a.OneD? ==> 0 < |a.elems| <= MaxElems && MIN32 <= a.lb && a.lb + |a.elems| <= MAX32
  }

  type PgArr = a: Arr | WfArr(a) witness Null

  datatype Error = NullSubscript | WrongSubscripts | TooLarge

  datatype Result = Ok(arr: PgArr) | Err(error: Error)

  function Get(a: Arr, i: int): Option<int> {
    if a.OneD? && a.lb <= i < a.lb + |a.elems| then a.elems[i - a.lb] else None
  }

  function Nones(n: nat): (r: seq<Option<int>>)
    ensures |r| == n && forall j :: 0 <= j < n ==> r[j] == None
  {
    seq(n, _ => None)
  }

  /** The vector after a[i] := v, before the size limits are checked. */
  function Stored(lb: int, es: seq<Option<int>>, i: int, v: Option<int>): (r: (int, seq<Option<int>>))
    requires es != []
    ensures r.1 != []
  {
    if i < lb then (i, [v] + Nones(lb - i - 1) + es)
    else if i >= lb + |es| then (lb, es + Nones(i - lb - |es|) + [v])
    else (lb, es[i - lb := v])
  }

  function Checked(lb: int, es: seq<Option<int>>): (r: Result)
    requires es != [] && MIN32 <= lb
  {
    if |es| > MaxElems || lb + |es| > MAX32 then Err(TooLarge) else Ok(OneD(lb, es))
  }

  /** a[i] := v. */
  function Set(a: PgArr, i: int, v: Option<int>): Result
    requires MIN32 <= i <= MAX32
  {
    match a
    case MultiD(_) => Err(WrongSubscripts)
    case OneD(lb, es) => var (lb', es') := Stored(lb, es, i, v); Checked(lb', es')
    case _ => Checked(i, [v])
  }

  /** Only element i changes; the range becomes the hull of the old range and i, gaps reading NULL. */
  lemma SetMeans(a: PgArr, i: int, v: Option<int>, j: int)
    requires MIN32 <= i <= MAX32 && Set(a, i, v).Ok?
    ensures var r := Set(a, i, v).arr;
      && r.OneD? && Get(r, j) == (if j == i then v else Get(a, j))
      && r.lb == (if a.OneD? && a.lb <= i then a.lb else i)
      && r.lb + |r.elems| == (if a.OneD? && i < a.lb + |a.elems| then a.lb + |a.elems| else i + 1)
  {
    if a.OneD? {
      var (lb, es) := Stored(a.lb, a.elems, i, v);
      if lb <= j < lb + |es| && i < a.lb {
        assert es[j - lb] == if j == i then v else if j < a.lb then None else a.elems[j - a.lb];
      }
    }
  }

  /** The error cases, outright. */
  lemma SetFails(a: PgArr, i: int, v: Option<int>)
    requires MIN32 <= i <= MAX32
    ensures Set(a, i, v) == Err(WrongSubscripts) <==> a.MultiD?
    ensures Set(a, i, v) == Err(TooLarge) <==>
      !a.MultiD? && (i == MAX32 || (a.OneD? && (i - a.lb >= MaxElems || a.lb + |a.elems| - i > MaxElems)))
  {
  }
}
