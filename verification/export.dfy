/** The rows handed to the spreadsheet writer: one row per product, in
    Spanish and in English, and a five-row summary in each language. */
module Export {
  import opened Wrappers
  import opened Products
  import opened Aggregate

  /** A spreadsheet cell: the name is text, the units a whole number, every
      other figure an amount. */
  datatype Cell = Text(text: string) | Whole(n: int) | Amount(x: real)

  /** One row as the export loop builds it (app.py:283-297): a dictionary of
      column name to value, in insertion order (the column order of the sheet). */
  type Row = seq<(string, Cell)>

  const ProductColumnsEs: seq<string> :=
    ["Producto / Servicio", "Precio", "Unidades", "Ingresos", "Costo variable unitario"]
  const ProductColumnsEn: seq<string> :=
    ["Product / Service", "Price", "Units", "Revenue", "Variable cost per unit"]

  /** The value of column key in a row, if the row has that column. */
  function Lookup(row: Row, key: string): Option<Cell> {
    if row == [] then None
    else if row[0].0 == key then Some(row[0].1)
    else Lookup(row[1..], key)
  }

  function Columns(row: Row): (keys: seq<string>)
    ensures |keys| == |row|
  {
    seq(|row|, k requires 0 <= k < |row| => row[k].0)
  }

  function Values(row: Row): (values: seq<Cell>)
    ensures |values| == |row|
  {
    seq(|row|, k requires 0 <= k < |row| => row[k].1)
  }

  /** The five values of a product's row, in column order. */
  function ProductValues(p: Product): seq<Cell> {
    [Text(p.name), Amount(p.price), Whole(p.units), Amount(LineRevenue(p)), Amount(UnitVariableCost(p))]
  }

  function Zip(keys: seq<string>, values: seq<Cell>): (row: Row)
    requires |keys| == |values|
    ensures Columns(row) == keys && Values(row) == values
  {
    seq(|keys|, k requires 0 <= k < |keys| => (keys[k], values[k]))
  }

  function ProductRow(columns: seq<string>, p: Product): Row
    requires |columns| == 5
  {
    Zip(columns, ProductValues(p))
  }

  /** The rows of a product list, one per product, in list order. */
  function ProductRows(columns: seq<string>, s: seq<Product>): (rows: seq<Row>)
    requires |columns| == 5
    ensures |rows| == |s|
  {
    if s == [] then [] else ProductRows(columns, s[..|s| - 1]) + [ProductRow(columns, s[|s| - 1])]
  }

  /** The loop that builds the Spanish and English product rows. */
  method BuildProductRows(products: seq<Product>) returns (rowsEs: seq<Row>, rowsEn: seq<Row>)
    ensures rowsEs == ProductRows(ProductColumnsEs, products)
    ensures rowsEn == ProductRows(ProductColumnsEn, products)
  {
    rowsEs, rowsEn := [], [];
    for i := 0 to |products|
      invariant rowsEs == ProductRows(ProductColumnsEs, products[..i])
      invariant rowsEn == ProductRows(ProductColumnsEn, products[..i])
    {
      var p := products[i];
      assert products[..i + 1][..i] == products[..i];
      var values := [Text(p.name), Amount(p.price), Whole(p.units), Amount(p.price * p.units as real),
                     Amount(p.rawMaterial + p.shipping + p.fee)];
      assert LineRevenue(p) == p.price * p.units as real;
      assert UnitVariableCost(p) == p.rawMaterial + p.shipping + p.fee;
      assert values == ProductValues(p);
      rowsEs := rowsEs + [Zip(ProductColumnsEs, values)];
      rowsEn := rowsEn + [Zip(ProductColumnsEn, values)];
    }
    assert products[..|products|] == products;
  }

  /** The amount in column key of a row, 0 where the row has no amount there. */
  function AmountIn(row: Row, key: string): real {
    match Lookup(row, key)
    case Some(Amount(x)) => x
    case _ => 0.0
  }

  function WholeIn(row: Row, key: string): int {
    match Lookup(row, key)
    case Some(Whole(n)) => n
    case _ => 0
  }

  /** A column of the product sheet added up. */
  function ColumnTotal(rows: seq<Row>, key: string): real {
    if rows == [] then 0.0 else ColumnTotal(rows[..|rows| - 1], key) + AmountIn(rows[|rows| - 1], key)
  }

  /** A row's variable cost read back from the sheet: unit cost times units. */
  function RowVariableCost(row: Row, unitsKey: string, costKey: string): real {
    AmountIn(row, costKey) * WholeIn(row, unitsKey) as real
  }

  /** The variable costs read back from the sheet, added up. */
  function SheetVariableCost(rows: seq<Row>, unitsKey: string, costKey: string): real {
    if rows == [] then 0.0
    else SheetVariableCost(rows[..|rows| - 1], unitsKey, costKey) + RowVariableCost(rows[|rows| - 1], unitsKey, costKey)
  }

  /** A summary sheet: its two column headers, the five concepts and their amounts. */
  datatype Summary = Summary(conceptHeader: string, amountHeader: string, concepts: seq<string>, amounts: seq<real>)

  const SummaryConceptsEs: seq<string> := ["Ingresos", "Costos variables", "Costos fijos", "Ganancia", "Margen %"]
  const SummaryConceptsEn: seq<string> := ["Revenue", "Variable costs", "Fixed costs", "Profit", "Margin %"]

  /** The five amounts of a summary, in the fixed order revenue, variable
      costs, fixed costs, profit, margin. */
  function SummaryAmounts(r: Results): (amounts: seq<real>)
    ensures |amounts| == 5
  {
    [r.revenue, r.variableCosts, r.fixedCosts, r.profit, r.margin]
  }

  /** The Spanish summary: headers "Concepto" and "Monto", and each concept
      beside its own figure. */
  function SummaryEs(r: Results): (sm: Summary)
    ensures sm.conceptHeader == "Concepto" && sm.amountHeader == "Monto"
    ensures |sm.concepts| == |sm.amounts| == 5
    ensures sm.concepts[0] == "Ingresos" && sm.amounts[0] == r.revenue
    ensures sm.concepts[1] == "Costos variables" && sm.amounts[1] == r.variableCosts
    ensures sm.concepts[2] == "Costos fijos" && sm.amounts[2] == r.fixedCosts
    ensures sm.concepts[3] == "Ganancia" && sm.amounts[3] == r.profit
    ensures sm.concepts[4] == "Margen %" && sm.amounts[4] == r.margin
  {
    Summary("Concepto", "Monto", SummaryConceptsEs, SummaryAmounts(r))
  }

  /** The English summary: headers "Concept" and "Amount", and each concept
      beside its own figure. */
  function SummaryEn(r: Results): (sm: Summary)
    ensures sm.conceptHeader == "Concept" && sm.amountHeader == "Amount"
    ensures |sm.concepts| == |sm.amounts| == 5
    ensures sm.concepts[0] == "Revenue" && sm.amounts[0] == r.revenue
    ensures sm.concepts[1] == "Variable costs" && sm.amounts[1] == r.variableCosts
    ensures sm.concepts[2] == "Fixed costs" && sm.amounts[2] == r.fixedCosts
    ensures sm.concepts[3] == "Profit" && sm.amounts[3] == r.profit
    ensures sm.concepts[4] == "Margin %" && sm.amounts[4] == r.margin
  {
    Summary("Concept", "Amount", SummaryConceptsEn, SummaryAmounts(r))
  }

  // ---------------------------------------------------------------------------
  // Lemmas

  /** The columns of the product sheets are five distinct names. */
  lemma ProductColumnsDistinct()
    ensures forall a, b :: 0 <= a < b < 5 ==> ProductColumnsEs[a] != ProductColumnsEs[b]
    ensures forall a, b :: 0 <= a < b < 5 ==> ProductColumnsEn[a] != ProductColumnsEn[b]
  {
  }

  /** In a row whose column names are distinct, each column holds its own value. */
  lemma {:induction false} LookupZip(keys: seq<string>, values: seq<Cell>, j: nat)
    requires |keys| == |values| && j < |keys|
    requires forall a, b :: 0 <= a < b < |keys| ==> keys[a] != keys[b]
    ensures Lookup(Zip(keys, values), keys[j]) == Some(values[j])
  {
    var row := Zip(keys, values);
    if j > 0 {
      assert row[1..] == Zip(keys[1..], values[1..]);
      LookupZip(keys[1..], values[1..], j - 1);
    }
  }

  /** There is exactly one row per product, in list order, in each language. */
  lemma {:induction false} ProductRowsAt(columns: seq<string>, s: seq<Product>)
    requires |columns| == 5
    ensures |ProductRows(columns, s)| == |s|
    ensures forall k :: 0 <= k < |s| ==> ProductRows(columns, s)[k] == ProductRow(columns, s[k])
  {
    if s != [] {
      ProductRowsAt(columns, s[..|s| - 1]);
    }
  }

  /** The Spanish and English rows hold the same values; only the column names differ. */
  lemma RowsAgree(s: seq<Product>)
    ensures var es, en := ProductRows(ProductColumnsEs, s), ProductRows(ProductColumnsEn, s);
      |es| == |en| == |s| &&
      forall k :: 0 <= k < |s| ==>
        Values(es[k]) == Values(en[k]) == ProductValues(s[k]) &&
        Columns(es[k]) == ProductColumnsEs && Columns(en[k]) == ProductColumnsEn
  {
    ProductRowsAt(ProductColumnsEs, s);
    ProductRowsAt(ProductColumnsEn, s);
  }

  /** What each column of a product's row holds, looked up by its name. */
  lemma ProductRowCells(columns: seq<string>, p: Product)
    requires columns == ProductColumnsEs || columns == ProductColumnsEn
    ensures var row := ProductRow(columns, p);
      Lookup(row, columns[0]) == Some(Text(p.name)) &&
      Lookup(row, columns[1]) == Some(Amount(p.price)) &&
      Lookup(row, columns[2]) == Some(Whole(p.units)) &&
      Lookup(row, columns[3]) == Some(Amount(LineRevenue(p))) &&
      Lookup(row, columns[4]) == Some(Amount(UnitVariableCost(p)))
  {
    ProductColumnsDistinct();
    var values := ProductValues(p);
    LookupZip(columns, values, 0);
    LookupZip(columns, values, 1);
    LookupZip(columns, values, 2);
    LookupZip(columns, values, 3);
    LookupZip(columns, values, 4);
  }

  /** The revenue column of either product sheet adds up to the total revenue. */
  lemma {:induction false} SheetRevenue(columns: seq<string>, s: seq<Product>)
    requires columns == ProductColumnsEs || columns == ProductColumnsEn
    ensures ColumnTotal(ProductRows(columns, s), columns[3]) == TotalRevenue(s)
  {
    if s != [] {
      var init, last := s[..|s| - 1], s[|s| - 1];
      ProductRowsInit(columns, s);
      SheetRevenue(columns, init);
      ProductRowCells(columns, last);
    }
  }

  /** Unit variable cost times units, added up over either product sheet,
      gives the total variable cost. */
  lemma {:induction false} SheetVariableCostTotal(columns: seq<string>, s: seq<Product>)
    requires columns == ProductColumnsEs || columns == ProductColumnsEn
    ensures SheetVariableCost(ProductRows(columns, s), columns[2], columns[4]) == TotalVariableCost(s)
  {
    if s != [] {
      var init, last := s[..|s| - 1], s[|s| - 1];
      ProductRowsInit(columns, s);
      SheetVariableCostTotal(columns, init);
      ProductRowVariableCost(columns, last);
    }
  }

  lemma ProductRowsInit(columns: seq<string>, s: seq<Product>)
    requires |columns| == 5 && s != []
    ensures var rows := ProductRows(columns, s);
      rows != [] && rows[..|rows| - 1] == ProductRows(columns, s[..|s| - 1]) &&
      rows[|rows| - 1] == ProductRow(columns, s[|s| - 1])
  {
  }

  lemma ProductRowVariableCost(columns: seq<string>, p: Product)
    requires columns == ProductColumnsEs || columns == ProductColumnsEn
    ensures RowVariableCost(ProductRow(columns, p), columns[2], columns[4]) == LineVariableCost(p)
  {
    ProductRowCells(columns, p);
  }

  /** The summary's profit row is its revenue row less its two cost rows,
      and its margin row is 0 when the revenue row is not positive. */
  lemma SummaryRowsRelated(totalRevenue: real, totalVariableCosts: real, fixed: FixedCosts)
    ensures var amounts := SummaryAmounts(Evaluate(totalRevenue, totalVariableCosts, fixed));
      amounts[3] == amounts[0] - amounts[1] - amounts[2] &&
      (amounts[0] <= 0.0 ==> amounts[4] == 0.0)
  {
  }

  /** The two languages carry the same amounts, and within each summary the
      five concepts are distinct, so every row names its own figure. */
  lemma SummariesAgree(r: Results)
    ensures SummaryEs(r).amounts == SummaryEn(r).amounts
    ensures forall a, b :: 0 <= a < b < 5 ==> SummaryEs(r).concepts[a] != SummaryEs(r).concepts[b]
    ensures forall a, b :: 0 <= a < b < 5 ==> SummaryEn(r).concepts[a] != SummaryEn(r).concepts[b]
  {
  }

  /** The whole export of a session: the product sheets add back up to the
      figures in the summary sheets. */
  lemma ExportConsistent(s: seq<Product>, fixed: FixedCosts)
    ensures var r := Evaluate(TotalRevenue(s), TotalVariableCost(s), fixed);
      var rowsEs, rowsEn := ProductRows(ProductColumnsEs, s), ProductRows(ProductColumnsEn, s);
      ColumnTotal(rowsEs, "Ingresos") == SummaryEs(r).amounts[0] &&
      ColumnTotal(rowsEn, "Revenue") == SummaryEn(r).amounts[0] &&
      SheetVariableCost(rowsEs, "Unidades", "Costo variable unitario") == SummaryEs(r).amounts[1] &&
      SheetVariableCost(rowsEn, "Units", "Variable cost per unit") == SummaryEn(r).amounts[1]
  {
    SheetRevenue(ProductColumnsEs, s);
    SheetRevenue(ProductColumnsEn, s);
    SheetVariableCostTotal(ProductColumnsEs, s);
    SheetVariableCostTotal(ProductColumnsEn, s);
  }
}
