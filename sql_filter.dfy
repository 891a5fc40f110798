/** `WHERE column <op> value`: the comparison operators the helper accepts
    and the row filter built from them. */
module SqlFilter {
  import opened Values
  import opened Tables

  datatype CmpOp = Ge | Le | Gt | Lt | Eq | Ne

  /** The operator spellings, in the order the helper lists them. */
  const Supported: seq<string> := [">=", "<=", ">", "<", "==", "!="]

  function Symbol(o: CmpOp): (s: string)
    ensures s in Supported
  {
    match o
    case Ge => ">=" case Le => "<=" case Gt => ">" case Lt => "<" case Eq => "==" case Ne => "!="
  }

  /** The operator a spelling names; only the six spellings are accepted. */
  function ParseOperator(op: string): (r: Option<CmpOp>)
    ensures r.Some? <==> op in Supported
    ensures r.Some? ==> Symbol(r.value) == op
  {
    if op == ">=" then Some(Ge)
    else if op == "<=" then Some(Le)
    else if op == ">" then Some(Gt)
    else if op == "<" then Some(Lt)
    else if op == "==" then Some(Eq)
    else if op == "!=" then Some(Ne)
    else None
  }

  /** Every operator is recognised from its own spelling. */
  lemma ParseSymbol(o: CmpOp)
    ensures ParseOperator(Symbol(o)) == Some(o)
  {
  }

  /** `cell <op> x` as pandas evaluates it element-wise: numbers (booleans as
      0 and 1) compare by value; a missing cell satisfies only `!=`; text is
      never equal to a number. */
  predicate Holds(v: Value, o: CmpOp, x: int) {
    match AsNumber(v)
    case Some(n) => (
      match o
      case Ge => n >= x case Le => n <= x case Gt => n > x
      case Lt => n < x case Eq => n == x case Ne => n != x)
    case None => o == Ne
  }

  /** A column pandas can order against a number: it holds no text. */
  predicate Comparable(t: Table, c: string) {
    forall i :: 0 <= i < |t.rows| ==> !Cell(t, i, c).Str?
  }

  /** The positions of the rows whose cell under c satisfies the comparison. */
  function Kept(t: Table, c: string, o: CmpOp, x: int): (idx: seq<nat>)
    ensures forall k :: 0 <= k < |idx| ==> idx[k] < |t.rows| && Holds(Cell(t, idx[k], c), o, x)
    ensures forall i :: 0 <= i < |t.rows| && Holds(Cell(t, i, c), o, x) ==> i in idx
  {
    IndicesAt(|t.rows|, i => Holds(Cell(t, i, c), o, x));
    Indices(|t.rows|, i => Holds(Cell(t, i, c), o, x))
  }

  /** The kept rows keep their original order. */
  lemma KeptInOrder(t: Table, c: string, o: CmpOp, x: int)
    ensures var idx := Kept(t, c, o, x);
      forall k, m :: 0 <= k < m < |idx| ==> idx[k] < idx[m]
  {
    IndicesIncrease(|t.rows|, i => Holds(Cell(t, i, c), o, x));
  }

  /** `df[df[c] <op> x]`: the rows that satisfy the comparison, in their
      original order, with every column. */
  function Where(t: Table, c: string, o: CmpOp, x: int): (r: Table)
    ensures r.columns == t.columns
    ensures |r.rows| == |Kept(t, c, o, x)|
    ensures forall k :: 0 <= k < |r.rows| ==> r.rows[k] == t.rows[Kept(t, c, o, x)[k]]
    ensures forall k :: 0 <= k < |r.rows| ==> Holds(Cell(r, k, c), o, x)
  {
    Pick(t, Kept(t, c, o, x))
  }

  /** Filtering a second time with the same condition changes nothing. */
  lemma WhereIdempotent(t: Table, c: string, o: CmpOp, x: int)
    ensures Where(Where(t, c, o, x), c, o, x) == Where(t, c, o, x)
  {
    var w := Where(t, c, o, x);
    IndicesOfAll(|w.rows|, i => Holds(Cell(w, i, c), o, x));
    assert Kept(w, c, o, x) == seq(|w.rows|, i => i);
  }

  /** `apply_filters(df, c, op, x)`. All six comparisons are built before
      the operator is looked at, so an absent column raises KeyError and a
      column holding text raises TypeError whatever the operator; only then
      does an unknown operator raise ValueError. */
  function ApplyFilters(t: Table, c: string, op: string, x: int): (r: Result<Table>)
    ensures c !in t.columns ==> r == Err(KeyError(c))
    ensures c in t.columns && !Comparable(t, c) ==> r.Err? && r.error.TypeError?
    ensures c in t.columns && Comparable(t, c) && op !in Supported ==> r == Err(ValueError("Invalid operator"))
    ensures r.Ok? <==> c in t.columns && Comparable(t, c) && op in Supported
    ensures r.Ok? ==> r.value == Where(t, c, ParseOperator(op).value, x)
  {
    if c !in t.columns then Err(KeyError(c))
    else if !Comparable(t, c) then Err(TypeError("'>=' not supported between instances of 'str' and 'int'"))
    else
      match ParseOperator(op)
      case None => Err(ValueError("Invalid operator"))
      case Some(o) => Ok(Where(t, c, o, x))
  }
}
