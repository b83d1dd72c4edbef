/** The product list the calculator keeps for a session: an ordered list of
    product records that starts with one blank record, grows by one blank
    record on "Add", and loses the pressed record on "Remove" unless it is
    the only one left. */
module Products {

  /** One product or service: its name, selling price, units sold per month
      and its three variable costs per unit (raw materials, shipping, fees). */
  datatype Product = Product(
    name: string,
    price: real,
    units: int,
    rawMaterial: real,
    shipping: real,
    fee: real)

  /** The blank record a new list starts with and "Add" appends. */
  const DefaultProduct := Product("", 0.0, 0, 0.0, 0.0, 0.0)

  /** The input widgets accept no negative number (their minimum is 0). */
  predicate ValidProduct(p: Product) {
    p.price >= 0.0 && p.units >= 0 && p.rawMaterial >= 0.0 && p.shipping >= 0.0 && p.fee >= 0.0
  }

  function UnitVariableCost(p: Product): (c: real)
    ensures ValidProduct(p) ==> c >= 0.0
  {
    p.rawMaterial + p.shipping + p.fee
  }

  /** What the product brings in per month. */
  function LineRevenue(p: Product): (r: real)
    ensures ValidProduct(p) ==> r >= 0.0
    ensures p.units == 0 ==> r == 0.0
  {
    p.price * p.units as real
  }

  /** What the product's variable costs amount to per month. */
  function LineVariableCost(p: Product): (c: real)
    ensures ValidProduct(p) ==> c >= 0.0
    ensures p.units == 0 ==> c == 0.0
  {
    UnitVariableCost(p) * p.units as real
  }

  /** A list the calculator can hold: never empty, no negative number in it. */
  predicate ValidList(s: seq<Product>) {
    |s| >= 1 && forall k :: 0 <= k < |s| ==> ValidProduct(s[k])
  }

  /** s without its entry at i; the entries after i move one place down. */
  function RemoveAt(s: seq<Product>, i: nat): (r: seq<Product>)
    requires i < |s|
    ensures |r| == |s| - 1
    ensures forall k :: 0 <= k < i ==> r[k] == s[k]
    ensures forall k :: i <= k < |r| ==> r[k] == s[k + 1]
  {
    s[..i] + s[i + 1..]
  }

  /** What one interaction does to the list. */
  datatype Action =
    | Add
    | Remove(index: nat)
    | Edit(index: nat, entry: Product)

  /** What a press of a "Remove" button leads to. */
  datatype RemoveOutcome =
    | Removed
    | KeptLastEntry    // only one entry left: the press is ignored
    | IndexOutOfRange  // list.pop raises; the list is left as it was

  /** A press removes an entry exactly when more than one is left and i
      names one of them; a lone entry is always kept. */
  function RemoveOutcomeOf(s: seq<Product>, i: nat): (o: RemoveOutcome)
    ensures o == Removed <==> 1 < |s| && i < |s|
    ensures o == KeptLastEntry <==> |s| <= 1
    ensures o == IndexOutOfRange <==> 1 < |s| <= i
  {
    if |s| <= 1 then KeptLastEntry
    else if i < |s| then Removed
    else IndexOutOfRange
  }

  /** The list after an interaction. An edit past the end (which the form
      cannot produce) leaves it unchanged. */
  function Step(s: seq<Product>, a: Action): (r: seq<Product>)
    ensures a.Add? ==> |r| == |s| + 1
    ensures a.Remove? ==> |r| == (if RemoveOutcomeOf(s, a.index) == Removed then |s| - 1 else |s|)
    ensures a.Edit? ==> |r| == |s|
    ensures |s| >= 1 ==> |r| >= 1
  {
    match a
    case Add => s + [DefaultProduct]
    case Remove(i) => if RemoveOutcomeOf(s, i) == Removed then RemoveAt(s, i) else s
    case Edit(i, p) => if i < |s| then s[i := p] else s
  }

  /** The values a widget can hand over: edits never carry a negative number. */
  predicate ValidAction(a: Action) {
    a.Edit? ==> ValidProduct(a.entry)
  }

  /** The list after a session's interactions, starting from the initial list. */
  function Run(actions: seq<Action>): (r: seq<Product>)
    ensures |r| >= 1
  {
    if actions == [] then [DefaultProduct]
    else Step(Run(actions[..|actions| - 1]), actions[|actions| - 1])
  }

  // ---------------------------------------------------------------------------
  // Lemmas

  /** "Add" grows the list by exactly one blank entry at the end. */
  lemma AddAppendsDefault(s: seq<Product>)
    ensures var r := Step(s, Add);
      |r| == |s| + 1 && r[..|s|] == s && r[|s|] == DefaultProduct
  {
  }

  /** "Remove" on a list of more than one entry deletes exactly the pressed
      entry and keeps the others in order; on a one-entry list it changes nothing. */
  lemma RemoveEffect(s: seq<Product>, i: nat)
    requires i < |s|
    ensures |s| == 1 ==> Step(s, Remove(i)) == s
    ensures |s| > 1 ==> Step(s, Remove(i)) == s[..i] + s[i + 1..]
    ensures |s| > 1 ==> multiset(Step(s, Remove(i))) + multiset{s[i]} == multiset(s)
  {
    if |s| > 1 {
      assert s == s[..i] + [s[i]] + s[i + 1..];
    }
  }

  /** Every interaction keeps the list non-empty and free of negative numbers. */
  lemma StepKeepsValid(s: seq<Product>, a: Action)
    requires ValidList(s) && ValidAction(a)
    ensures ValidList(Step(s, a))
    ensures |Step(s, a)| >= |s| - 1
  {
    match a
    case Add =>
    case Remove(i) =>
    case Edit(i, p) =>
  }

  /** Whatever a session does, the list is never empty and holds no negative number. */
  lemma {:induction false} RunKeepsValid(actions: seq<Action>)
    requires forall k :: 0 <= k < |actions| ==> ValidAction(actions[k])
    ensures ValidList(Run(actions))
  {
    if actions != [] {
      var prefix := actions[..|actions| - 1];
      RunKeepsValid(prefix);
      StepKeepsValid(Run(prefix), actions[|actions| - 1]);
    }
  }

  // ---------------------------------------------------------------------------
  // The session's list, updated in place

  class ProductList {
    var products: seq<Product>

    ghost predicate Valid()
      reads this
    {
      ValidList(products)
    }

    /** The list a session starts with: one blank entry. */
    constructor ()
      ensures Valid()
      ensures products == Run([])
    {
      products := [DefaultProduct];
    }

    /** The "Add" button: append a blank entry. */
    method AddEntry()
      requires Valid()
      modifies this
      ensures Valid()
      ensures products == Step(old(products), Add)
      ensures |products| == |old(products)| + 1 && products[|products| - 1] == DefaultProduct
    {
      products := products + [DefaultProduct];
    }

    /** The "Remove" button of entry i: pop it unless it is the last one left. */
    method RemoveEntry(i: nat) returns (outcome: RemoveOutcome)
      requires Valid()
      modifies this
      ensures Valid()
      ensures outcome == RemoveOutcomeOf(old(products), i)
      ensures products == Step(old(products), Remove(i))
      ensures outcome != Removed ==> products == old(products)
    {
      outcome := RemoveOutcomeOf(products, i);
      if outcome == Removed {
        products := products[..i] + products[i + 1..];
      }
    }

    /** The input widgets of entry i write back what the user entered. */
    method EditEntry(i: nat, name: string, price: real, units: int, rawMaterial: real, shipping: real, fee: real)
      requires Valid() && i < |products|
      requires price >= 0.0 && units >= 0 && rawMaterial >= 0.0 && shipping >= 0.0 && fee >= 0.0
      modifies this
      ensures Valid()
      ensures products == Step(old(products), Edit(i, Product(name, price, units, rawMaterial, shipping, fee)))
      ensures |products| == |old(products)|
    {
      var entry := products[i];
      entry := entry.(name := name, price := price, units := units);
      entry := entry.(rawMaterial := rawMaterial, shipping := shipping, fee := fee);
      products := products[i := entry];
    }
  }
}
