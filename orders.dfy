/** Order records and the per-row steps of the pipeline: the date filter
    (normalisation) and the derived columns profit, profit_margin_pct,
    month and unit_price. */
module Orders {
  import opened Seqs

  datatype Option<+T> = None | Some(value: T)

  type Month = m: int | 1 <= m <= 12 witness 1

  /** A calendar date as produced by the date parser. */
  datatype Date = Date(year: int, month: Month, day: int)

  /** One row of the sales table. `date` is the parsed order_date (None when
      parsing failed). `quantity` is the order_quantity cell (None when the
      cell is empty or the column is absent). The last four fields are the
      derived columns; they hold whatever the sheet held until the pipeline
      assigns them. `margin` and `unitPrice` are None where the division has
      no finite value. */
  datatype Row = Row(
    date: Option<Date>,
    customer: string,
    product: string,
    channel: string,
    state: string,
    revenue: real,
    totalCost: real,
    quantity: Option<real>,
    profit: real,
    margin: Option<real>,
    month: Option<Month>,
    unitPrice: Option<real>)

  /** The year bounds the dashboard keeps. */
  const MinYear: int := 2014
  const MaxYear: int := 2017

  // ----- Normalisation: drop undated rows, keep the configured years -----

  predicate Dated(r: Row)
  {
    r.date.Some?
  }

  predicate InYearRange(r: Row, lo: int, hi: int)
  {
    r.date.Some? && lo <= r.date.value.year <= hi
  }

  function InYears(lo: int, hi: int): Row -> bool
  {
    r => InYearRange(r, lo, hi)
  }

  /** Drop the rows whose date did not parse, then keep those whose year is
      in [lo, hi]. The result is one order-preserving pass keeping exactly
      the rows with a parsed date in range. */
  function Normalize(rows: seq<Row>, lo: int, hi: int): (kept: seq<Row>)
    ensures kept == Filter(rows, InYears(lo, hi))
    ensures forall r :: r in kept <==> r in rows && InYearRange(r, lo, hi)
    ensures forall r :: r in kept ==> r.date.Some? && lo <= r.date.value.year <= hi
  {
    var dated := Filter(rows, Dated);
    FilterFilter(rows, Dated, InYears(lo, hi), InYears(lo, hi));
    FilterMembers(rows, InYears(lo, hi));
    Filter(dated, InYears(lo, hi))
  }

  /** The surviving rows keep their relative order and are exactly the rows
      with a parsed in-range date: the k-th survivor is the input row at the
      k-th such position, so the reported count is the number of such rows. */
  lemma NormalizeSelects(rows: seq<Row>, lo: int, hi: int)
    ensures var kept := Normalize(rows, lo, hi);
            var idx := KeptIndices(rows, InYears(lo, hi));
            && |kept| == |idx|
            && (forall k :: 0 <= k < |idx| ==> kept[k] == rows[idx[k]])
            && (forall k, l :: 0 <= k < l < |idx| ==> idx[k] < idx[l])
            && (forall i :: 0 <= i < |rows| ==> (i in idx <==> InYearRange(rows[i], lo, hi)))
  {
    var idx := KeptIndices(rows, InYears(lo, hi));
    forall i | 0 <= i < |rows| && i in idx ensures InYearRange(rows[i], lo, hi) {
      var k :| 0 <= k < |idx| && idx[k] == i;
    }
  }

  // ----- Derived columns -----

  function WithProfit(r: Row): Row
  {
    r.(profit := r.revenue - r.totalCost)
  }

  /** profit / revenue * 100, with no finite value when revenue is zero. */
  function MarginPct(profit: real, revenue: real): (m: Option<real>)
    ensures m.Some? <==> revenue != 0.0
    ensures m.Some? ==> m.value * revenue == profit * 100.0
  {
    if revenue != 0.0 then Some(profit / revenue * 100.0) else None
  }

  function WithMargin(r: Row): Row
  {
    r.(margin := MarginPct(r.profit, r.revenue))
  }

  /** The profit and margin columns, in the order the pipeline assigns them. */
  function Derive(r: Row): (d: Row)
    ensures d.profit == r.revenue - r.totalCost
    ensures d.margin.Some? <==> r.revenue != 0.0
    ensures d.margin.Some? ==> d.margin.value * r.revenue == d.profit * 100.0
    ensures d.(profit := r.profit, margin := r.margin) == r
  {
    WithMargin(WithProfit(r))
  }

  /** The month column: the month of the parsed date, missing for an undated row. */
  function WithMonth(r: Row): Row
  {
    r.(month := if r.date.Some? then Some(r.date.value.month) else None)
  }

  /** revenue / order_quantity, with no finite value when the quantity is
      missing or zero. */
  function UnitPrice(r: Row): (u: Option<real>)
    ensures u.Some? <==> r.quantity.Some? && r.quantity.value != 0.0
    ensures u.Some? ==> u.value * r.quantity.value == r.revenue
  {
    match r.quantity
    case Some(q) => if q != 0.0 then Some(r.revenue / q) else None
    case None => None
  }

  function WithUnitPrice(r: Row): Row
  {
    r.(unitPrice := UnitPrice(r))
  }

  /** Applies `f` to every row. */
  function MapRows(rows: seq<Row>, f: Row -> Row): (out: seq<Row>)
    ensures |out| == |rows|
    ensures forall i :: 0 <= i < |rows| ==> out[i] == f(rows[i])
  {
    seq(|rows|, i requires 0 <= i < |rows| => f(rows[i]))
  }

  /** The table the analyses see: normalised rows with profit and margin. */
  function Prepare(rows: seq<Row>, lo: int, hi: int): (prepared: seq<Row>)
    ensures |prepared| == |Normalize(rows, lo, hi)|
    ensures forall i :: 0 <= i < |prepared| ==> prepared[i] == Derive(Normalize(rows, lo, hi)[i])
    ensures forall r :: r in prepared ==> InYearRange(r, lo, hi) && r.profit == r.revenue - r.totalCost
    ensures forall r :: r in prepared ==> (r.margin.Some? <==> r.revenue != 0.0)
    ensures forall r :: r in prepared && r.margin.Some? ==> r.margin.value * r.revenue == r.profit * 100.0
  {
    MapRows(Normalize(rows, lo, hi), Derive)
  }

  // ----- Column-wise sums used as reference definitions -----

  function TotalRevenue(rows: seq<Row>): real
  {
    if rows == [] then 0.0 else TotalRevenue(rows[..|rows| - 1]) + rows[|rows| - 1].revenue
  }

  /** A row's margin where it is finite, 0 where it is not (such rows are
      left out of every mean, see MarginCount). */
  function MarginOrZero(r: Row): real
  {
    match r.margin
    case Some(m) => m
    case None => 0.0
  }

  /** Sum of the margins that have a finite value. */
  function MarginSum(rows: seq<Row>): real
  {
    if rows == [] then 0.0 else MarginSum(rows[..|rows| - 1]) + MarginOrZero(rows[|rows| - 1])
  }

  /** Number of margins that have a finite value. */
  function MarginCount(rows: seq<Row>): nat
  {
    if rows == [] then 0
    else MarginCount(rows[..|rows| - 1]) + (if rows[|rows| - 1].margin.Some? then 1 else 0)
  }

  lemma SumsSnoc(rows: seq<Row>, r: Row)
    ensures TotalRevenue(rows + [r]) == TotalRevenue(rows) + r.revenue
    ensures MarginSum(rows + [r]) == MarginSum(rows) + MarginOrZero(r)
    ensures MarginCount(rows + [r]) == MarginCount(rows) + (if r.margin.Some? then 1 else 0)
  {
    assert (rows + [r])[..|rows|] == rows;
  }

  /** The row with its derived analysis columns (month, unit_price) cleared:
      everything the aggregations other than their own column read. */
  function Core(r: Row): Row
  {
    r.(month := None, unitPrice := None)
  }

  predicate SameCore(a: seq<Row>, b: seq<Row>)
  {
    |a| == |b| && forall i :: 0 <= i < |a| ==> Core(a[i]) == Core(b[i])
  }
}
