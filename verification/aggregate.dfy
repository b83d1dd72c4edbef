/** The calculation: total revenue and total variable cost accumulated over
    the product list, the four monthly fixed costs, and from them the total
    expenses, the profit, the margin and the profitable / not profitable verdict. */
module Aggregate {
  import opened Products

  /** The sum of f over the entries of s, added up from the first entry on. */
  function SumOf(s: seq<Product>, f: Product -> real): real {
    if s == [] then 0.0 else SumOf(s[..|s| - 1], f) + f(s[|s| - 1])
  }

  /** Total revenue: price × units added up over the list; never negative
      for a list the form can hold. */
  function TotalRevenue(s: seq<Product>): (t: real)
    ensures (forall k :: 0 <= k < |s| ==> ValidProduct(s[k])) ==> t >= 0.0
  {
    SumOfNonNegative(s, LineRevenue);
    SumOf(s, LineRevenue)
  }

  /** Total variable cost: (materials + shipping + fees) × units added up over
      the list; never negative for a list the form can hold. */
  function TotalVariableCost(s: seq<Product>): (t: real)
    ensures (forall k :: 0 <= k < |s| ==> ValidProduct(s[k])) ==> t >= 0.0
  {
    SumOfNonNegative(s, LineVariableCost);
    SumOf(s, LineVariableCost)
  }

  /** The loop over the product list that accumulates the two totals. */
  method Accumulate(products: seq<Product>) returns (totalRevenue: real, totalVariableCosts: real)
    ensures totalRevenue == TotalRevenue(products)
    ensures totalVariableCosts == TotalVariableCost(products)
  {
    totalRevenue, totalVariableCosts := 0.0, 0.0;
    for i := 0 to |products|
      invariant totalRevenue == TotalRevenue(products[..i])
      invariant totalVariableCosts == TotalVariableCost(products[..i])
    {
      var p := products[i];
      assert products[..i + 1][..i] == products[..i];
      assert LineVariableCost(p) == (p.rawMaterial + p.shipping + p.fee) * p.units as real;
      totalRevenue := totalRevenue + p.price * p.units as real;
      totalVariableCosts := totalVariableCosts + (p.rawMaterial + p.shipping + p.fee) * p.units as real;
    }
    assert products[..|products|] == products;
  }

  /** The four monthly fixed costs. */
  datatype FixedCosts = FixedCosts(rent: real, internet: real, advertising: real, other: real)

  predicate ValidFixedCosts(c: FixedCosts) {
    c.rent >= 0.0 && c.internet >= 0.0 && c.advertising >= 0.0 && c.other >= 0.0
  }

  function FixedTotal(c: FixedCosts): (t: real)
    ensures ValidFixedCosts(c) ==> t >= c.rent && t >= c.internet && t >= c.advertising && t >= c.other
  {
    c.rent + c.internet + c.advertising + c.other
  }

  /** The figures the results section shows and the summary sheets hold. */
  datatype Results = Results(
    revenue: real,
    variableCosts: real,
    fixedCosts: real,
    expenses: real,
    profit: real,
    margin: real)

  /** Profit as a percentage of revenue; 0 when there is no positive revenue. */
  function Margin(profit: real, revenue: real): (m: real)
    ensures revenue <= 0.0 ==> m == 0.0
    ensures revenue > 0.0 ==> m * revenue == profit * 100.0
    ensures m > 0.0 <==> revenue > 0.0 && profit > 0.0
    ensures m < 0.0 <==> revenue > 0.0 && profit < 0.0
  {
    if revenue > 0.0 then profit / revenue * 100.0 else 0.0
  }

  /** The results from the two accumulated totals and the fixed costs. */
  function Evaluate(totalRevenue: real, totalVariableCosts: real, fixed: FixedCosts): (r: Results)
    ensures r.revenue == totalRevenue && r.variableCosts == totalVariableCosts
    ensures r.fixedCosts == fixed.rent + fixed.internet + fixed.advertising + fixed.other
    ensures r.expenses == r.variableCosts + r.fixedCosts
    ensures r.revenue == r.profit + r.expenses
    ensures r.margin == Margin(r.profit, r.revenue)
  {
    var fixedTotal := FixedTotal(fixed);
    var expenses := totalVariableCosts + fixedTotal;
    var profit := totalRevenue - expenses;
    Results(totalRevenue, totalVariableCosts, fixedTotal, expenses, profit, Margin(profit, totalRevenue))
  }

  /** The verdict the results section shows: profitable only when there is a profit. */
  function IsProfitable(r: Results): (profitable: bool)
    ensures r.revenue == r.profit + r.expenses ==> (profitable <==> r.revenue > r.expenses)
  {
    r.profit > 0.0
  }

  /** One evaluation of the form: accumulate over the list, then compute the
      results and the verdict. */
  method Calculate(products: seq<Product>, fixed: FixedCosts) returns (r: Results, profitable: bool)
    ensures r.revenue == TotalRevenue(products) && r.variableCosts == TotalVariableCost(products)
    ensures r == Evaluate(TotalRevenue(products), TotalVariableCost(products), fixed)
    ensures profitable <==> TotalRevenue(products) > TotalVariableCost(products) + FixedTotal(fixed)
  {
    var totalRevenue, totalVariableCosts := Accumulate(products);
    r := Evaluate(totalRevenue, totalVariableCosts, fixed);
    profitable := IsProfitable(r);
  }

  // ---------------------------------------------------------------------------
  // Lemmas

  /** A sum of terms none of which is negative is not negative. */
  lemma {:induction false} SumOfNonNegative(s: seq<Product>, f: Product -> real)
    ensures (forall k :: 0 <= k < |s| ==> f(s[k]) >= 0.0) ==> SumOf(s, f) >= 0.0
  {
    if s != [] {
      SumOfNonNegative(s[..|s| - 1], f);
    }
  }

  lemma {:induction false} SumOfAppend(s: seq<Product>, t: seq<Product>, f: Product -> real)
    ensures SumOf(s + t, f) == SumOf(s, f) + SumOf(t, f)
    decreases |t|
  {
    if t == [] {
      assert s + t == s;
    } else {
      assert (s + t)[..|s + t| - 1] == s + t[..|t| - 1];
      SumOfAppend(s, t[..|t| - 1], f);
    }
  }

  /** Removing an entry takes exactly its line off a total. */
  lemma SumOfRemoveAt(s: seq<Product>, i: nat, f: Product -> real)
    requires i < |s|
    ensures SumOf(RemoveAt(s, i), f) == SumOf(s, f) - f(s[i])
  {
    var before, after := s[..i], s[i + 1..];
    SumOfSplit(s, i, f);
    assert RemoveAt(s, i) == before + after;
    SumOfAppend(before, after, f);
  }

  lemma SumOfSplit(s: seq<Product>, i: nat, f: Product -> real)
    requires i < |s|
    ensures SumOf(s, f) == SumOf(s[..i], f) + f(s[i]) + SumOf(s[i + 1..], f)
  {
    var upTo := s[..i + 1];
    assert s == upTo + s[i + 1..];
    SumOfAppend(upTo, s[i + 1..], f);
    assert upTo[..|upTo| - 1] == s[..i];
  }

  lemma MultisetRemoveAt(t: seq<Product>, j: nat)
    requires j < |t|
    ensures multiset(RemoveAt(t, j)) == multiset(t) - multiset{t[j]}
  {
    assert t == t[..j] + [t[j]] + t[j + 1..];
  }

  /** The totals do not depend on the order of the list. */
  lemma {:induction false} SumOfPermutation(s: seq<Product>, t: seq<Product>, f: Product -> real)
    requires multiset(s) == multiset(t)
    ensures SumOf(s, f) == SumOf(t, f)
    decreases |s|
  {
    if s == [] {
      assert |t| == |multiset(t)| == 0;
    } else {
      var last, init := s[|s| - 1], s[..|s| - 1];
      assert s == init + [last];
      assert multiset(init) == multiset(s) - multiset{last};
      assert last in multiset(t);
      var j :| 0 <= j < |t| && t[j] == last;
      MultisetRemoveAt(t, j);
      SumOfPermutation(init, RemoveAt(t, j), f);
      SumOfRemoveAt(t, j, f);
    }
  }

  /** The effect of each interaction on the two totals: "Add" changes
      neither, "Remove" takes off the removed line, an edit replaces one line. */
  lemma StepTotals(s: seq<Product>, a: Action)
    ensures a.Add? ==>
      TotalRevenue(Step(s, a)) == TotalRevenue(s) && TotalVariableCost(Step(s, a)) == TotalVariableCost(s)
    ensures a.Remove? && RemoveOutcomeOf(s, a.index) == Removed ==>
      TotalRevenue(Step(s, a)) == TotalRevenue(s) - LineRevenue(s[a.index])
      && TotalVariableCost(Step(s, a)) == TotalVariableCost(s) - LineVariableCost(s[a.index])
    ensures a.Edit? && a.index < |s| ==>
      TotalRevenue(Step(s, a)) == TotalRevenue(s) - LineRevenue(s[a.index]) + LineRevenue(a.entry)
      && TotalVariableCost(Step(s, a)) == TotalVariableCost(s) - LineVariableCost(s[a.index]) + LineVariableCost(a.entry)
  {
    match a
    case Add =>
      assert (s + [DefaultProduct])[..|s|] == s;
    case Remove(i) =>
      if RemoveOutcomeOf(s, i) == Removed {
        SumOfRemoveAt(s, i, LineRevenue);
        SumOfRemoveAt(s, i, LineVariableCost);
      }
    case Edit(i, p) =>
      if i < |s| {
        var r := s[i := p];
        assert RemoveAt(r, i) == RemoveAt(s, i);
        SumOfRemoveAt(s, i, LineRevenue);
        SumOfRemoveAt(s, i, LineVariableCost);
        SumOfRemoveAt(r, i, LineRevenue);
        SumOfRemoveAt(r, i, LineVariableCost);
      }
  }

  /** The margin is exactly 0 when there is no positive revenue, whatever the expenses. */
  lemma MarginWithoutRevenue(totalRevenue: real, totalVariableCosts: real, fixed: FixedCosts)
    requires totalRevenue <= 0.0
    ensures Evaluate(totalRevenue, totalVariableCosts, fixed).margin == 0.0
  {
  }

  /** With no negative cost, the margin is at most 100 percent. */
  lemma MarginAtMost100(totalRevenue: real, totalVariableCosts: real, fixed: FixedCosts)
    requires totalVariableCosts >= 0.0 && ValidFixedCosts(fixed)
    ensures Evaluate(totalRevenue, totalVariableCosts, fixed).margin <= 100.0
  {
    var r := Evaluate(totalRevenue, totalVariableCosts, fixed);
    assert r.profit <= r.revenue;
    MarginAtMostFull(r.profit, r.revenue);
  }

  lemma MarginAtMostFull(profit: real, revenue: real)
    requires profit <= revenue
    ensures Margin(profit, revenue) <= 100.0
  {
    if revenue > 0.0 {
      ScaledAtMost(Margin(profit, revenue), profit, revenue);
    }
  }

  lemma ScaledAtMost(m: real, p: real, revenue: real)
    requires revenue > 0.0 && m * revenue == p * 100.0 && p <= revenue
    ensures m <= 100.0
  {
  }

  /** Profitable exactly when revenue exceeds expenses; with no negative
      cost, exactly when the margin is positive. Zero profit is not profitable. */
  lemma ProfitableIff(totalRevenue: real, totalVariableCosts: real, fixed: FixedCosts)
    ensures var r := Evaluate(totalRevenue, totalVariableCosts, fixed);
      IsProfitable(r) <==> totalRevenue > totalVariableCosts + FixedTotal(fixed)
    ensures var r := Evaluate(totalRevenue, totalVariableCosts, fixed);
      totalVariableCosts >= 0.0 && ValidFixedCosts(fixed) ==> (IsProfitable(r) <==> r.margin > 0.0)
  {
  }

  /** One product sold 10 times at 100 with unit costs 20 + 5 + 5, and a rent of 200:
      revenue 1000, expenses 500, profit 500, margin 50 percent, profitable. */
  lemma SingleProductExample()
    ensures var s := [Product("", 100.0, 10, 20.0, 5.0, 5.0)];
      var r := Evaluate(TotalRevenue(s), TotalVariableCost(s), FixedCosts(200.0, 0.0, 0.0, 0.0));
      r.revenue == 1000.0 && r.expenses == 500.0 && r.profit == 500.0 && r.margin == 50.0 && IsProfitable(r)
  {
    var s := [Product("", 100.0, 10, 20.0, 5.0, 5.0)];
    assert s[..0] == [];
    var r := Evaluate(TotalRevenue(s), TotalVariableCost(s), FixedCosts(200.0, 0.0, 0.0, 0.0));
    assert r.revenue == 1000.0 && r.variableCosts == 300.0;
    assert r.margin * 1000.0 == 50000.0;
  }
}
