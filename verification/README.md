# Profitability calculator: a Dafny model of its core

The calculator (`app.py`) is a one-page form. A user lists the products or
services they sell, each with a selling price, the units sold per month and
three variable costs per unit (raw materials, shipping, fees). They also enter
four monthly fixed costs (rent, internet, advertising, other). The page shows
total revenue, total expenses, profit and margin, says whether the business
is profitable, and offers a spreadsheet with the product rows and a summary,
in Spanish and in English.

This project models the computing core of that page:

- `products.dfy` (module `Products`): the product record and the session's
  product list. The list is a class `ProductList` whose field `products`
  the "Add", "Remove" and edit operations reassign. The list starts with one
  blank entry. "Add" appends a blank entry. "Remove" pops the pressed entry
  unless it is the only one. The same transitions exist as a pure function
  `Step`, and `Run` replays a whole session, so the "never empty" invariant
  can be proved over every sequence of interactions.
- `aggregate.dfy` (module `Aggregate`): the loop that accumulates total
  revenue and total variable cost, written as a method with a loop and
  proved against the sums `TotalRevenue` and `TotalVariableCost`. It also
  holds the fixed-cost sum, the expenses, profit and margin, and the
  profitable / not profitable verdict.
- `export.dfy` (module `Export`): the loop that builds the Spanish and English
  product rows, modelled as rows of column name to cell value. It also holds
  the two five-row summaries and lemmas that the sheets add back up to the
  results.
- `money.dfy` (module `MoneyFormat`): `format_money`. It rounds half-to-even
  to a whole number and writes "$", an optional "-" and the digits grouped in
  threes. The separator is "," and, for Español, the commas are then replaced
  by ".". A parser `ParseMoney` reads the text back, for the round-trip
  lemma.
- `wrappers.dfy` (module `Wrappers`): the `Option` type.

Money is exact `real` arithmetic, so the model states the arithmetic the
formulas intend. It does not state what binary floating point computes.

Two points about the code that the model keeps as they are:

- `format_money` calls Python's `round`, which rounds halves to the even
  neighbour. `RoundHalfEven` does the same.
- The sidebar (app.py:45-62) shows five margin bands as static text. The
  code never classifies a margin. Its only decision is `ganancia > 0`
  (`IsProfitable`).

## Model

| member | source | states |
|---|---|---|
| `Products.LineRevenue` | app.py:223 | a product's revenue line (price × units) is non-negative for a valid product and 0 when no unit is sold |
| `Products.LineVariableCost` | app.py:225 | a product's variable-cost line ((materials + shipping + fees) × units) is non-negative for a valid product and 0 when no unit is sold |
| `Products.UnitVariableCost` | app.py:288 | the unit variable cost in the export (materials + shipping + fees) is non-negative for a valid product |
| `Products.RemoveOutcomeOf` | app.py:228-229 | a press removes an entry exactly when more than one entry is left and the index names one of them; a lone entry is always kept; an index past the end of a longer list is the case where `pop` would raise |
| `Products.Step` | app.py:141-241 | "Add" grows the list by one, "Remove" shrinks it by one exactly when the entry is removed and otherwise leaves its length, an edit keeps the length, and a non-empty list stays non-empty |
| `Products.Run` | app.py:141-241 | the list after any sequence of interactions from the initial one-entry list is never empty |
| `Products.RemoveAt` | app.py:229 | `pop(i)` leaves one entry fewer: the entries before i stay in place and the entries after i move one place down |
| `Products.AddAppendsDefault` | app.py:233-241 | "Add" grows the list by exactly one blank entry at the end and leaves the earlier entries as they were |
| `Products.RemoveEffect` | app.py:228-229 | "Remove" on a one-entry list changes nothing; on a longer list it deletes exactly entry i, keeps the rest in order and loses only that entry from the multiset |
| `Products.StepKeepsValid` | app.py:171-241 | every interaction (add, remove, edit with non-negative widget values) keeps the list non-empty and free of negative numbers, and shrinks it by at most one |
| `Products.RunKeepsValid` | app.py:141-241 | from the initial one-entry list, after any sequence of interactions, the list is never empty and holds no negative number |
| `Products.ProductList.constructor` | app.py:141-149 | the session's list starts as exactly one blank entry |
| `Products.ProductList.AddEntry` | app.py:233-241 | the list afterwards is the old list plus one blank entry at the end, and stays valid |
| `Products.ProductList.RemoveEntry` | app.py:228-229 | reports whether the entry was removed, kept because it was the last one, or out of range; the list becomes `Step(old, Remove(i))`, which is unchanged unless it was removed, and stays valid |
| `Products.ProductList.EditEntry` | app.py:171-215 | the widgets' non-negative values overwrite entry i's fields; nothing else changes and the list stays valid |
| `Aggregate.TotalRevenue` | app.py:223 | total revenue (price × units over the list) is never negative for a list with no negative number |
| `Aggregate.TotalVariableCost` | app.py:225 | total variable cost ((materials + shipping + fees) × units over the list) is never negative for a list with no negative number |
| `Aggregate.Accumulate` | app.py:162-225 | the loop's two accumulators end as the sum over the list of price × units and of (materials + shipping + fees) × units |
| `Aggregate.FixedTotal` | app.py:250-255 | with the widgets' non-negative fixed costs, the fixed-cost total is at least each of the four costs; that it is their sum is stated by `Aggregate.Evaluate` |
| `Aggregate.Margin` | app.py:264 | the margin is 0 when revenue is not positive; otherwise margin × revenue = profit × 100, and it is positive (negative) exactly when there is revenue and a profit (a loss) |
| `Aggregate.Evaluate` | app.py:255-264 | fixed costs are the sum of the four, expenses = variable + fixed costs, revenue = profit + expenses, and the margin follows the margin rule |
| `Aggregate.IsProfitable` | app.py:271-274 | when revenue = profit + expenses (as `Evaluate` guarantees), the verdict is "profitable" exactly when revenue exceeds expenses |
| `Aggregate.Calculate` | app.py:162-274 | one evaluation: the results hold the two list totals, and the profitable message is chosen exactly when revenue exceeds variable plus fixed costs |
| `Aggregate.SumOfNonNegative` | app.py:223-225 | a running total of lines none of which is negative is not negative |
| `Aggregate.SumOfPermutation` | app.py:167-225 | the totals do not depend on the order of the list: any permutation gives the same sum |
| `Aggregate.StepTotals` | app.py:223-241 | "Add" changes neither total, a removal takes off exactly the removed entry's lines, an edit replaces exactly one entry's lines |
| `Aggregate.MarginWithoutRevenue` | app.py:264 | with no positive revenue the margin is exactly 0, whatever the expenses |
| `Aggregate.MarginAtMost100` | app.py:262-264 | with non-negative variable and fixed costs, the margin is at most 100 |
| `Aggregate.ProfitableIff` | app.py:262-274 | the verdict is "profitable" exactly when revenue exceeds expenses (zero profit is not profitable); with non-negative costs, exactly when the margin is positive |
| `Aggregate.SingleProductExample` | app.py:223-264 | one product sold 10 times at 100 with unit costs 20 + 5 + 5 and rent 200 gives revenue 1000, expenses 500, profit 500, margin 50, profitable |
| `Export.BuildProductRows` | app.py:279-297 | the loop's two row lists are exactly the Spanish and the English rows of the product list, in list order |
| `Export.ProductRows` | app.py:282-297 | the product sheet has exactly one row per product |
| `Export.ProductColumnsDistinct` | app.py:283-297 | the five column names of each product sheet are distinct, so every row is a five-column dictionary |
| `Export.ProductRowsAt` | app.py:282-297 | there is exactly one row per product, and row k is the row of product k |
| `Export.RowsAgree` | app.py:283-297 | the Spanish and English rows hold the same values (name, price, units, revenue, unit variable cost) under their own column names |
| `Export.ProductRowCells` | app.py:283-297 | looked up by name, each column of a product's row holds its name, price, units, price × units and unit variable cost |
| `Export.SheetRevenue` | app.py:287-295 | the revenue column ("Ingresos" / "Revenue") of either product sheet adds up to the total revenue |
| `Export.SheetVariableCostTotal` | app.py:286-296 | unit variable cost × units, added up over either product sheet, gives the total variable cost |
| `Export.SummaryRowsRelated` | app.py:302-310 | in a summary, profit = revenue − variable costs − fixed costs, and the margin row is 0 when the revenue row is not positive |
| `Export.SummaryEs` | app.py:302-305 | the Spanish summary has headers "Concepto" and "Monto" and five rows: Ingresos, Costos variables, Costos fijos, Ganancia, Margen %, each beside its own figure (revenue, variable costs, fixed costs, profit, margin) |
| `Export.SummaryEn` | app.py:307-310 | the English summary has headers "Concept" and "Amount" and five rows: Revenue, Variable costs, Fixed costs, Profit, Margin %, each beside its own figure |
| `Export.SummariesAgree` | app.py:302-310 | both summaries carry the same amounts, and within each summary the five concepts are distinct |
| `Export.ExportConsistent` | app.py:279-310 | in both languages, the product sheets add back up to the revenue and variable-cost amounts of the summary sheets |
| `MoneyFormat.RoundHalfEven` | app.py:132 | the rounded value is within 1/2 of the amount, and a tie goes to the even integer |
| `MoneyFormat.RoundIsNearest` | app.py:132 | no integer is closer to the amount than the rounded value |
| `MoneyFormat.RoundWhole` | app.py:132 | a whole amount is left as it is |
| `MoneyFormat.DecimalString` | app.py:136 | the digits of a number are at least one decimal digit, with no leading zero unless the number is 0 |
| `MoneyFormat.DecimalRoundTrip` | app.py:136 | the decimal digits of n read back as n |
| `MoneyFormat.GroupThousands` | app.py:136 | grouping adds one separator per full group of three digits after the first group |
| `MoneyFormat.GroupLayout` | app.py:136 | separators stand exactly at every fourth place from the right, so every group after the first has three digits and the first has one to three |
| `MoneyFormat.UngroupThousands` | app.py:136 | taking the separators out of grouped digits gives back the digits |
| `MoneyFormat.ReplaceGroupSeparator` | app.py:134 | replacing the commas of the comma-grouped digits by points gives the point-grouped digits |
| `MoneyFormat.CommaGrouped` | app.py:134-136 | Python's `f"{v:,}"`: taking the commas out again gives Python's `str(v)` |
| `MoneyFormat.FormatInteger` | app.py:133-136 | the money text of a whole number is "$", a "-" for a negative number, then the digits grouped in threes by "." for Español and "," otherwise (replacing the commas by points yields exactly the point grouping) |
| `MoneyFormat.FormatMoney` | app.py:131-136 | format_money writes the half-to-even rounded amount as "$", a "-" when it is negative, then its digits grouped in threes by the language's separator, and that text reads back as the rounded amount |
| `MoneyFormat.StripSeparators` | app.py:131-136 | stripping the "$" and the separators from the money text recovers the number's decimal representation |
| `MoneyFormat.FormatRoundTrip` | app.py:131-136 | the money text of a whole number parses back to that number in both languages |

## Left out

- The Streamlit page itself is left out: widgets, layout, `st.session_state`
  and `st.rerun`, the metrics and messages, and the sidebar markdown. The
  model keeps only the values the widgets hand over (never negative, as
  their `min_value=0` guarantees) and the choice of message.
- The password gate and its `st.secrets` fallback are left out. They are
  configuration and authentication I/O.
- The `TEXT` label table is left out. It is static strings with no logic.
- The five margin bands are left out. The code only shows them as static
  sidebar text and never classifies a margin.
- pandas, `BytesIO`, `xlsxwriter`, the sheet names and the download button
  are left out. The model stops at the row lists and summaries handed to
  them.
- Binary floating point is left out. Money is exact `real`. Python's `round`
  on floats can differ from exact half-to-even where a decimal amount has no
  exact binary value.
- The `f"{margen:.1f}%"` display of the margin is left out.
- `total_units` is left out. It is accumulated but never used.
- Rows are modelled as ordered lists of (column, value) pairs. A pandas
  DataFrame is not modelled.
- `Products.Step` leaves the list unchanged for an edit past its end. The
  form only edits entries it is iterating over, so such an edit never
  happens.
- `Products.ProductList.RemoveEntry`: Python's `IndexError` from `pop` with an index past
  the end is modelled as the outcome `IndexOutOfRange`, with the list left
  unchanged. The form cannot produce it, because `delete_index` comes from
  `enumerate` over the list.
- Within one run, the totals are accumulated before a pending removal or
  addition, and `st.rerun()` then recomputes them. The model evaluates a
  given list and does not model this rerun.
