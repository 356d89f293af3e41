/** Cleaning of the Online Retail II invoice lines (`retail_data_prep`,
    `replace_with_thresholds`) and the product-name lookup `check_id`.
    A missing cell (NaN) is `None`; the comparisons of the source treat it as
    pandas does: `NaN > 0` is false, and `str.contains("C", na=False)` is false. */
module Retail {
  import opened Collections

  /** One line of the sheet, one field per column. */
  datatype Row = Row(
    invoice: Option<string>,
    stockCode: Option<string>,
    description: Option<string>,
    quantity: Option<real>,
    invoiceDate: Option<string>,
    price: Option<real>,
    customerId: Option<real>,
    country: Option<string>)

  /** The numeric columns the script clips. */
  datatype NumericColumn = Quantity | Price

  /** The pair `(low_limit, up_limit)` returned by `outlier_thresholds`. */
  datatype Limits = Limits(low: real, up: real)

  function Get(r: Row, c: NumericColumn): Option<real>
  {
    match c
    case Quantity => r.quantity
    case Price => r.price
  }

  /** The row with column `c` overwritten by `v` and every other column kept. */
  function WithColumn(r: Row, c: NumericColumn, v: Option<real>): (r': Row)
    ensures Get(r', c) == v
    ensures forall d :: d != c ==> Get(r', d) == Get(r, d)
    ensures r'.invoice == r.invoice && r'.stockCode == r.stockCode
    ensures r'.description == r.description && r'.invoiceDate == r.invoiceDate
    ensures r'.customerId == r.customerId && r'.country == r.country
  {
    match c
    case Quantity => r.(quantity := v)
    case Price => r.(price := v)
  }

  // ---------------------------------------------------------------------------
  // Row masks of retail_data_prep

  /** No cell of the row is missing: the rows `dropna()` keeps. */
  predicate IsComplete(r: Row)
  {
    r.invoice.Some? && r.stockCode.Some? && r.description.Some? && r.quantity.Some? &&
    r.invoiceDate.Some? && r.price.Some? && r.customerId.Some? && r.country.Some?
  }

  /** `~Invoice.str.contains("C", na=False)`: a missing invoice passes this mask. */
  predicate NotCancelled(r: Row)
  {
    !(r.invoice.Some? && 'C' in r.invoice.value)
  }

  predicate PositiveQuantity(r: Row)
  {
    r.quantity.Some? && r.quantity.value > 0.0
  }

  predicate PositivePrice(r: Row)
  {
    r.price.Some? && r.price.value > 0.0
  }

  /** The rows retail_data_prep keeps, as one condition. */
  predicate Keep(r: Row)
  {
    IsComplete(r) && NotCancelled(r) && PositiveQuantity(r) && PositivePrice(r)
  }

  /** The frame after `dropna` and the three masks, before clipping. */
  function Cleaned(rows: seq<Row>): (kept: seq<Row>)
    ensures forall i :: 0 <= i < |kept| ==> kept[i] in rows && Keep(kept[i])
    ensures forall i :: 0 <= i < |rows| && Keep(rows[i]) ==> rows[i] in kept
  {
    Filter(PositivePrice, Filter(PositiveQuantity, Filter(NotCancelled, Filter(IsComplete, rows))))
  }

  /** The successive masks keep exactly the rows satisfying all conditions,
      every occurrence of them, in their original order. */
  lemma CleanedIsOneFilter(rows: seq<Row>)
    ensures Cleaned(rows) == Filter(Keep, rows)
    ensures IsSubsequence(Cleaned(rows), rows)
  {
    var p1 := (r: Row) => IsComplete(r) && NotCancelled(r);
    var p2 := (r: Row) => p1(r) && PositiveQuantity(r);
    FilterFilter(IsComplete, NotCancelled, p1, rows);
    FilterFilter(p1, PositiveQuantity, p2, rows);
    FilterFilter(p2, PositivePrice, Keep, rows);
    FilterIsSubsequence(Keep, rows);
  }

  // ---------------------------------------------------------------------------
  // replace_with_thresholds

  /** The two `.loc` assignments on one value: first raise what is below `low`
      to `low`, then lower what is above `up` to `up`. */
  function Clipped(x: real, low: real, up: real): (y: real)
    ensures low <= up ==> low <= y <= up
    ensures low <= x <= up ==> y == x
    ensures x < low && low <= up ==> y == low
    ensures x > up ==> y == up
    ensures up < low ==> y == up
  {
    var raised := if x < low then low else x;
    if raised > up then up else raised
  }

  /** A missing value is compared false by both masks and so is left missing;
      a present value ends within ordered limits, and one already within them
      is left as it is. */
  function ClipValue(v: Option<real>, lim: Limits): (w: Option<real>)
    ensures w.Some? <==> v.Some?
    ensures v.Some? && lim.low <= lim.up ==> lim.low <= w.value <= lim.up
    ensures v.Some? && lim.low <= v.value <= lim.up ==> w == v
    ensures v.Some? && v.value < lim.low && lim.low <= lim.up ==> w == Some(lim.low)
    ensures v.Some? && v.value > lim.up ==> w == Some(lim.up)
  {
    match v
    case None => None
    case Some(x) => Some(Clipped(x, lim.low, lim.up))
  }

  /** The frame after `replace_with_thresholds(frame, c)` with limits `lim`. */
  function ClipColumn(rows: seq<Row>, c: NumericColumn, lim: Limits): (r: seq<Row>)
    ensures |r| == |rows|
    ensures forall i :: 0 <= i < |r| ==> WithColumn(r[i], c, Get(rows[i], c)) == rows[i]
    ensures forall i :: 0 <= i < |r| ==> Get(r[i], c) == ClipValue(Get(rows[i], c), lim)
    ensures forall i :: 0 <= i < |r| && lim.low <= lim.up && Get(rows[i], c).Some? ==>
      Get(r[i], c).Some? && lim.low <= Get(r[i], c).value <= lim.up
    ensures forall i :: 0 <= i < |r| && (Get(rows[i], c).None? || lim.low <= Get(rows[i], c).value <= lim.up) ==>
      r[i] == rows[i]
  {
    seq(|rows|, i requires 0 <= i < |rows| => WithColumn(rows[i], c, ClipValue(Get(rows[i], c), lim)))
  }

  /** The frame retail_data_prep returns; `limits` stands for `outlier_thresholds`,
      evaluated on the frame as it is when each column is clipped. */
  function Prepared(rows: seq<Row>, limits: (seq<Row>, NumericColumn) -> Limits): (r: seq<Row>)
    ensures |r| == |Cleaned(rows)|
    ensures forall i :: 0 <= i < |r| ==>
      var kept := Cleaned(rows)[i];
      r[i].invoice == kept.invoice && r[i].stockCode == kept.stockCode &&
      r[i].description == kept.description && r[i].invoiceDate == kept.invoiceDate &&
      r[i].customerId == kept.customerId && r[i].country == kept.country
  {
    var kept := Cleaned(rows);
    var quantityClipped := ClipColumn(kept, Quantity, limits(kept, Quantity));
    ClipColumn(quantityClipped, Price, limits(quantityClipped, Price))
  }

  /** Row `i` of the prepared frame is kept row `i` with only Quantity and Price
      clipped: it is complete, not cancelled, and each clipped value lies within
      its limits when those are ordered. A positive value stays positive
      whenever its upper limit is positive. */
  lemma PreparedRows(rows: seq<Row>, limits: (seq<Row>, NumericColumn) -> Limits, i: int)
    requires 0 <= i < |Cleaned(rows)|
    ensures |Prepared(rows, limits)| == |Cleaned(rows)|
    ensures var kept, out := Cleaned(rows)[i], Prepared(rows, limits)[i];
      out.invoice == kept.invoice && out.stockCode == kept.stockCode &&
      out.description == kept.description && out.invoiceDate == kept.invoiceDate &&
      out.customerId == kept.customerId && out.country == kept.country &&
      IsComplete(out) && NotCancelled(out)
    ensures var kept, out := Cleaned(rows), Prepared(rows, limits)[i];
      var lq := limits(kept, Quantity);
      var lp := limits(ClipColumn(kept, Quantity, lq), Price);
      out.quantity == Some(Clipped(kept[i].quantity.value, lq.low, lq.up)) &&
      out.price == Some(Clipped(kept[i].price.value, lp.low, lp.up)) &&
      (lq.low <= lq.up ==> lq.low <= out.quantity.value <= lq.up) &&
      (lp.low <= lp.up ==> lp.low <= out.price.value <= lp.up) &&
      (lq.up > 0.0 ==> out.quantity.value > 0.0) &&
      (lp.up > 0.0 ==> out.price.value > 0.0)
  {
    var kept := Cleaned(rows);
    assert Keep(kept[i]);
    var lq := limits(kept, Quantity);
    var q := ClipColumn(kept, Quantity, lq);
    var lp := limits(q, Price);
    assert WithColumn(q[i], Quantity, Get(kept[i], Quantity)) == kept[i];
    assert Get(q[i], Price) == Get(kept[i], Price);
  }

  /** A data frame whose rows the script updates in place. */
  class Frame {
    var rows: seq<Row>

    constructor (rows: seq<Row>)
      ensures this.rows == rows
    {
      this.rows := rows;
    }

    /** `dropna(inplace=True)`. */
    method DropNa()
      modifies this
      ensures rows == Filter(IsComplete, old(rows))
    {
      rows := Filter(IsComplete, rows);
    }

    /** `replace_with_thresholds(self, c)`: the limits are computed once from
        the frame, then two masked assignments update column `c` in place. */
    method ReplaceWithThresholds(c: NumericColumn, limits: (seq<Row>, NumericColumn) -> Limits)
      modifies this
      ensures rows == ClipColumn(old(rows), c, limits(old(rows), c))
    {
      var lim := limits(rows, c);
      ghost var original := rows;
      var n := |rows|;
      // Raise every present value below `low` to `low`.
      for i := 0 to n
        invariant |rows| == n
        invariant forall k :: 0 <= k < n ==>
          rows[k] == if k < i && Get(original[k], c).Some? && Get(original[k], c).value < lim.low
                     then WithColumn(original[k], c, Some(lim.low)) else original[k]
      {
        var v := Get(rows[i], c);
        if v.Some? && v.value < lim.low {
          rows := rows[i := WithColumn(rows[i], c, Some(lim.low))];
        }
      }
      ghost var raised := rows;
      // Then lower every present value above `up` to `up`.
      for i := 0 to n
        invariant |rows| == n
        invariant forall k :: 0 <= k < n ==>
          rows[k] == if k < i && Get(raised[k], c).Some? && Get(raised[k], c).value > lim.up
                     then WithColumn(raised[k], c, Some(lim.up)) else raised[k]
      {
        var v := Get(rows[i], c);
        if v.Some? && v.value > lim.up {
          rows := rows[i := WithColumn(rows[i], c, Some(lim.up))];
        }
      }
      assert forall k :: 0 <= k < n ==> rows[k] == ClipColumn(original, c, lim)[k];
    }
  }

  /** `retail_data_prep(df)`: drops incomplete rows from the caller's frame in
      place, masks a new frame out of it, and clips that new frame's Quantity
      and Price columns. */
  method RetailDataPrep(df: Frame, limits: (seq<Row>, NumericColumn) -> Limits) returns (out: Frame)
    modifies df
    ensures df.rows == Filter(IsComplete, old(df.rows))
    ensures fresh(out)
    ensures out.rows == Prepared(old(df.rows), limits)
  {
    df.DropNa();
    var kept := Filter(NotCancelled, df.rows);
    kept := Filter(PositiveQuantity, kept);
    kept := Filter(PositivePrice, kept);
    out := new Frame(kept);
    out.ReplaceWithThresholds(Quantity, limits);
    out.ReplaceWithThresholds(Price, limits);
  }

  // ---------------------------------------------------------------------------
  // check_id

  /** The outcome of `check_id`: the description of the first row with the
      stock code, or the IndexError raised by `values[0]` when there is none. */
  datatype Lookup = NotFound | Found(description: Option<string>)

  /** Row `i` is the first row carrying `stockCode`. */
  predicate FirstWithCode(rows: seq<Row>, stockCode: string, i: int)
  {
    0 <= i < |rows| && rows[i].stockCode == Some(stockCode) &&
    forall j :: 0 <= j < i ==> rows[j].stockCode != Some(stockCode)
  }

  function CheckId(rows: seq<Row>, stockCode: string): (r: Lookup)
    ensures r.NotFound? <==> forall i :: 0 <= i < |rows| ==> rows[i].stockCode != Some(stockCode)
    ensures r.Found? ==>
      exists i :: FirstWithCode(rows, stockCode, i) && r.description == rows[i].description
  {
    if rows == [] then NotFound
    else if rows[0].stockCode == Some(stockCode) then
      assert FirstWithCode(rows, stockCode, 0);
      Found(rows[0].description)
    else
      var r := CheckId(rows[1..], stockCode);
      assert r.Found? ==>
        exists i :: FirstWithCode(rows, stockCode, i) && r.description == rows[i].description
      by {
        if r.Found? {
          var i :| FirstWithCode(rows[1..], stockCode, i) && r.description == rows[1..][i].description;
          assert FirstWithCode(rows, stockCode, i + 1);
        }
      }
      r
  }
}
