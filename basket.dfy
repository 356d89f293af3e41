/** The invoice-by-product table (`create_invoice_product_df`) and the part of
    `create_rules` that prepares it for mining. The table is written as the
    pandas chain it is: `groupby([...])['Quantity'].sum()`, `unstack()`,
    `fillna(0)`, then `applymap(lambda x: 1 if x > 0 else 0)`. */
module Basket {
  import opened Collections
  import opened Retail

  /** A binary invoice-by-item table: invoice -> item key -> 0 or 1. */
  type Table = map<string, map<string, int>>

  /** The grouping column: StockCode when `id`, Description otherwise. */
  function ItemKey(r: Row, id: bool): Option<string>
  {
    if id then r.stockCode else r.description
  }

  /** `groupby` leaves out rows whose Invoice or key is missing. */
  predicate Grouped(r: Row, id: bool)
  {
    r.invoice.Some? && ItemKey(r, id).Some?
  }

  predicate InGroup(r: Row, invoice: string, key: string, id: bool)
  {
    r.invoice == Some(invoice) && ItemKey(r, id) == Some(key)
  }

  /** `sum` skips a missing quantity. */
  function QuantityOrZero(r: Row): real
  {
    if r.quantity.Some? then r.quantity.value else 0.0
  }

  /** The summed Quantity of the rows of one (Invoice, key) group. */
  function GroupTotal(rows: seq<Row>, invoice: string, key: string, id: bool): real
  {
    if rows == [] then 0.0
    else
      (if InGroup(rows[0], invoice, key, id) then QuantityOrZero(rows[0]) else 0.0) +
      GroupTotal(rows[1..], invoice, key, id)
  }

  /** The distinct invoices of the grouped rows: the table's index. */
  function Invoices(rows: seq<Row>, id: bool): set<string>
  {
    set r | r in rows && Grouped(r, id) :: r.invoice.value
  }

  /** The distinct item keys of the grouped rows: the table's columns. */
  function ItemKeys(rows: seq<Row>, id: bool): set<string>
  {
    set r | r in rows && Grouped(r, id) :: ItemKey(r, id).value
  }

  /** `groupby(['Invoice', key])['Quantity'].sum()`, one row at a time. */
  function GroupSum(rows: seq<Row>, id: bool): (g: map<(string, string), real>)
    ensures |g| <= |rows|
  {
    if rows == [] then map[]
    else
      var g := GroupSum(rows[1..], id);
      var r := rows[0];
      if Grouped(r, id) then
        var k := (r.invoice.value, ItemKey(r, id).value);
        g[k := QuantityOrZero(r) + if k in g then g[k] else 0.0]
      else
        g
  }

  /** `unstack()`: one row per invoice, one column per key, NaN where the pair
      never occurs. */
  function Unstack(g: map<(string, string), real>): map<string, map<string, Option<real>>>
  {
    var invoices := set k | k in g :: k.0;
    var keys := set k | k in g :: k.1;
    map i | i in invoices :: map c | c in keys :: if (i, c) in g then Some(g[(i, c)]) else None
  }

  /** `fillna(0)`. */
  function FillNa(t: map<string, map<string, Option<real>>>): map<string, map<string, real>>
  {
    map i | i in t :: map c | c in t[i] :: if t[i][c].Some? then t[i][c].value else 0.0
  }

  /** `applymap(lambda x: 1 if x > 0 else 0)`. */
  function Binarize(t: map<string, map<string, real>>): (u: Table)
    ensures forall i, c :: i in u && c in u[i] ==> u[i][c] == 0 || u[i][c] == 1
  {
    map i | i in t :: map c | c in t[i] :: if t[i][c] > 0.0 then 1 else 0
  }
  /** Unfolding steps for the three pandas stages, used by the table lemmas. */
  lemma UnstackCells(g: map<(string, string), real>)
    ensures var t := Unstack(g);
      t.Keys == (set k | k in g :: k.0) &&
      (forall i :: i in t ==> t[i].Keys == set k | k in g :: k.1) &&
      (forall i, c :: i in t && c in t[i] ==> t[i][c] == if (i, c) in g then Some(g[(i, c)]) else None)
  {
  }

  lemma FillNaCells(t: map<string, map<string, Option<real>>>)
    ensures var u := FillNa(t);
      u.Keys == t.Keys &&
      (forall i :: i in u ==> u[i].Keys == t[i].Keys) &&
      (forall i, c :: i in u && c in u[i] ==> u[i][c] == if t[i][c].Some? then t[i][c].value else 0.0)
  {
  }

  lemma BinarizeCells(t: map<string, map<string, real>>)
    ensures var u := Binarize(t);
      u.Keys == t.Keys &&
      (forall i :: i in u ==> u[i].Keys == t[i].Keys) &&
      (forall i, c :: i in u && c in u[i] ==> u[i][c] == if t[i][c] > 0.0 then 1 else 0)
  {
  }


  /** One row more: its group's sum grows by its quantity, no other sum changes. */
  lemma GroupSumStep(rows: seq<Row>, id: bool, invoice: string, key: string)
    requires rows != []
    ensures var g, h := GroupSum(rows[1..], id), GroupSum(rows, id);
      var before := if (invoice, key) in g then g[(invoice, key)] else 0.0;
      var after := if (invoice, key) in h then h[(invoice, key)] else 0.0;
      ((invoice, key) in h <==> (invoice, key) in g || InGroup(rows[0], invoice, key, id)) &&
      after == before + (if InGroup(rows[0], invoice, key, id) then QuantityOrZero(rows[0]) else 0.0)
  {
  }

  /** The groups are exactly the (Invoice, key) pairs that occur. */
  lemma {:induction false} GroupSumKeys(rows: seq<Row>, id: bool, invoice: string, key: string)
    ensures (invoice, key) in GroupSum(rows, id) <==> exists r :: r in rows && InGroup(r, invoice, key, id)
  {
    if rows != [] {
      GroupSumKeys(rows[1..], id, invoice, key);
      GroupSumStep(rows, id, invoice, key);
      assert forall r :: r in rows <==> r == rows[0] || r in rows[1..];
    }
  }

  /** The grouped sum of a pair is the total of its group; a pair that never
      occurs has total 0. */
  lemma {:induction false} GroupSumIsGroupTotal(rows: seq<Row>, id: bool, invoice: string, key: string)
    ensures (invoice, key) in GroupSum(rows, id) ==>
      GroupSum(rows, id)[(invoice, key)] == GroupTotal(rows, invoice, key, id)
    ensures (invoice, key) !in GroupSum(rows, id) ==> GroupTotal(rows, invoice, key, id) == 0.0
  {
    if rows != [] {
      GroupSumIsGroupTotal(rows[1..], id, invoice, key);
      GroupSumStep(rows, id, invoice, key);
    }
  }

  /** The index, the columns and the cells of the grouped sums. */
  lemma GroupSumShape(rows: seq<Row>, id: bool)
    ensures (set k | k in GroupSum(rows, id) :: k.0) == Invoices(rows, id)
    ensures (set k | k in GroupSum(rows, id) :: k.1) == ItemKeys(rows, id)
    ensures forall i, c ::
      GroupTotal(rows, i, c, id) == (if (i, c) in GroupSum(rows, id) then GroupSum(rows, id)[(i, c)] else 0.0)
  {
    var g := GroupSum(rows, id);
    assert forall i, c :: (i, c) in g <==> exists r :: r in rows && InGroup(r, i, c, id) by {
      forall i, c ensures (i, c) in g <==> exists r :: r in rows && InGroup(r, i, c, id) {
        GroupSumKeys(rows, id, i, c);
      }
    }
    assert (set k | k in g :: k.0) == Invoices(rows, id) by {
      forall x | x in Invoices(rows, id) ensures x in (set k | k in g :: k.0) {
        var r :| r in rows && Grouped(r, id) && r.invoice.value == x;
        assert InGroup(r, x, ItemKey(r, id).value, id);
        assert (x, ItemKey(r, id).value) in g;
      }
    }
    assert (set k | k in g :: k.1) == ItemKeys(rows, id) by {
      forall x | x in ItemKeys(rows, id) ensures x in (set k | k in g :: k.1) {
        var r :| r in rows && Grouped(r, id) && ItemKey(r, id).value == x;
        assert InGroup(r, r.invoice.value, x, id);
        assert (r.invoice.value, x) in g;
      }
    }
    assert forall i, c ::
      GroupTotal(rows, i, c, id) == (if (i, c) in g then g[(i, c)] else 0.0)
    by {
      forall i, c ensures GroupTotal(rows, i, c, id) == (if (i, c) in g then g[(i, c)] else 0.0) {
        GroupSumIsGroupTotal(rows, id, i, c);
      }
    }
  }

  /** `groupby(...).sum().unstack().fillna(0)`: the summed table before
      binarisation. */
  lemma SummedTable(rows: seq<Row>, id: bool)
    ensures var summed := FillNa(Unstack(GroupSum(rows, id)));
      summed.Keys == Invoices(rows, id) &&
      (forall i :: i in summed ==> summed[i].Keys == ItemKeys(rows, id)) &&
      (forall i, c :: i in summed && c in summed[i] ==> summed[i][c] == GroupTotal(rows, i, c, id))
  {
    var g := GroupSum(rows, id);
    GroupSumShape(rows, id);
    var u := Unstack(g);
    UnstackCells(g);
    var summed := FillNa(u);
    FillNaCells(u);
    forall i | i in summed ensures summed[i].Keys == ItemKeys(rows, id) {
      assert summed[i].Keys == u[i].Keys;
    }
    forall i, c | i in summed && c in summed[i] ensures summed[i][c] == GroupTotal(rows, i, c, id) {
      assert u[i][c] == if (i, c) in g then Some(g[(i, c)]) else None;
    }
  }

  function CreateInvoiceProductDf(rows: seq<Row>, id: bool := false): (t: Table)
    ensures t.Keys == Invoices(rows, id)
    ensures forall i :: i in t ==> t[i].Keys == ItemKeys(rows, id)
    ensures forall i, c :: i in t && c in t[i] ==>
      t[i][c] == (if GroupTotal(rows, i, c, id) > 0.0 then 1 else 0)
    ensures forall i, c :: i in t && c in t[i] ==> t[i][c] == 0 || t[i][c] == 1
  {
    SummedTable(rows, id);
    var summed := FillNa(Unstack(GroupSum(rows, id)));
    BinarizeCells(summed);
    Binarize(summed)
  }

  /** A positive group total has a line of that group with positive quantity. */
  lemma {:induction false} PositiveTotalHasPositiveLine(rows: seq<Row>, id: bool, invoice: string, key: string)
    requires GroupTotal(rows, invoice, key, id) > 0.0
    ensures exists r :: r in rows && InGroup(r, invoice, key, id) && QuantityOrZero(r) > 0.0
  {
    if !(InGroup(rows[0], invoice, key, id) && QuantityOrZero(rows[0]) > 0.0) {
      PositiveTotalHasPositiveLine(rows[1..], id, invoice, key);
      var r :| r in rows[1..] && InGroup(r, invoice, key, id) && QuantityOrZero(r) > 0.0;
      assert r in rows;
    }
  }

  /** With every quantity positive, a group that occurs has a positive total. */
  lemma {:induction false} OccurringGroupHasPositiveTotal(rows: seq<Row>, id: bool, invoice: string, key: string)
    requires forall k :: 0 <= k < |rows| ==> PositiveQuantity(rows[k])
    requires exists r :: r in rows && InGroup(r, invoice, key, id)
    ensures GroupTotal(rows, invoice, key, id) > 0.0
  {
    if InGroup(rows[0], invoice, key, id) {
      NonNegativeTotal(rows[1..], id, invoice, key);
    } else {
      var r :| r in rows && InGroup(r, invoice, key, id);
      assert r in rows[1..];
      OccurringGroupHasPositiveTotal(rows[1..], id, invoice, key);
    }
  }

  lemma {:induction false} NonNegativeTotal(rows: seq<Row>, id: bool, invoice: string, key: string)
    requires forall k :: 0 <= k < |rows| ==> PositiveQuantity(rows[k])
    ensures GroupTotal(rows, invoice, key, id) >= 0.0
  {
    if rows != [] {
      NonNegativeTotal(rows[1..], id, invoice, key);
    }
  }

  /** A cell is 1 only when some line of that invoice and item has a positive
      quantity. */
  lemma CellOneHasPositiveLine(rows: seq<Row>, id: bool, invoice: string, key: string)
    requires invoice in Invoices(rows, id) && key in ItemKeys(rows, id)
    ensures CreateInvoiceProductDf(rows, id)[invoice][key] == 1 ==>
      exists r :: r in rows && InGroup(r, invoice, key, id) && QuantityOrZero(r) > 0.0
  {
    if CreateInvoiceProductDf(rows, id)[invoice][key] == 1 {
      PositiveTotalHasPositiveLine(rows, id, invoice, key);
    }
  }

  /** A pair that never occurs (an invoice without that item) is 0. */
  lemma AbsentPairIsZero(rows: seq<Row>, id: bool, invoice: string, key: string)
    requires invoice in Invoices(rows, id) && key in ItemKeys(rows, id)
    requires forall r :: r in rows ==> !InGroup(r, invoice, key, id)
    ensures CreateInvoiceProductDf(rows, id)[invoice][key] == 0
  {
    GroupSumKeys(rows, id, invoice, key);
    GroupSumIsGroupTotal(rows, id, invoice, key);
  }

  /** On cleaned rows (every quantity positive) the table is a plain incidence
      test: cell (i, c) is 1 exactly when some line of invoice i has key c. */
  lemma CleanedTableIsIncidence(rows: seq<Row>, id: bool, invoice: string, key: string)
    requires forall k :: 0 <= k < |rows| ==> PositiveQuantity(rows[k])
    requires invoice in Invoices(rows, id) && key in ItemKeys(rows, id)
    ensures CreateInvoiceProductDf(rows, id)[invoice][key] == 1 <==>
      exists r :: r in rows && InGroup(r, invoice, key, id)
  {
    if exists r :: r in rows && InGroup(r, invoice, key, id) {
      OccurringGroupHasPositiveTotal(rows, id, invoice, key);
    } else {
      CellOneHasPositiveLine(rows, id, invoice, key);
    }
  }

  /** `dataframe[dataframe['Country'] == country]`. */
  function CountryFilter(rows: seq<Row>, country: string): (r: seq<Row>)
    ensures forall i :: 0 <= i < |r| ==> r[i] in rows && r[i].country == Some(country)
    ensures forall i :: 0 <= i < |rows| && rows[i].country == Some(country) ==> rows[i] in r
  {
    Filter((r: Row) => r.country == Some(country), rows)
  }

  /** The table `create_rules(dataframe, id=True, country="France")` hands to
      `apriori`: its rows are exactly the
      invoices of the given country, its columns exactly the item keys sold
      there. */
  function CreateRulesTable(rows: seq<Row>, id: bool := true, country: string := "France"): (t: Table)
    ensures t.Keys ==
      set r | r in rows && r.country == Some(country) && Grouped(r, id) :: r.invoice.value
    ensures forall i :: i in t ==>
      t[i].Keys == set r | r in rows && r.country == Some(country) && Grouped(r, id) :: ItemKey(r, id).value
  {
    var f := CountryFilter(rows, country);
    assert forall r :: r in f <==> r in rows && r.country == Some(country) by {
      forall r ensures r in f <==> r in rows && r.country == Some(country) {
        if r in rows && r.country == Some(country) {
          var k :| 0 <= k < |rows| && rows[k] == r;
        }
      }
    }
    CreateInvoiceProductDf(f, id)
  }
}
