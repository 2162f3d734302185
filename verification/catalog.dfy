/** The catalog entity: an item of stock and the closed set of categories it
    can belong to. In the program each category is a subclass of `Item` that
    differs only in its discount constant and display label, so here the
    category is a tag and both constants are functions of it. */
module Catalog {
  import opened Wrappers

  datatype Category = Dairy | FrozenVeggies | Fruits | CookingMaterial

  /** The category's discount in percent, fixed when the item is constructed. */
  function Discount(c: Category): (d: nat)
    ensures 0 < d < 100
    ensures d % 5 == 0
  {
    match c
    case Dairy => 10
    case FrozenVeggies => 15
    case Fruits => 5
    case CookingMaterial => 20
  }

  /** The label the category reports and the inventory file stores. */
  function Label(c: Category): (s: string)
    ensures |s| > 0 && ',' !in s && '\n' !in s
  {
    match c
    case Dairy => "Dairy"
    case FrozenVeggies => "Frozen Veggies"
    case Fruits => "Fruits"
    case CookingMaterial => "Cooking Material"
  }

  /** The category whose label is exactly `s`, if any (the loader's chain of
      string comparisons). */
  function ParseLabel(s: string): (r: Option<Category>)
    ensures r.Some? ==> Label(r.value) == s
    ensures (exists c :: Label(c) == s) ==> r.Some?
  {
    if s == "Dairy" then Some(Dairy)
    else if s == "Frozen Veggies" then Some(FrozenVeggies)
    else if s == "Fruits" then Some(Fruits)
    else if s == "Cooking Material" then Some(CookingMaterial)
    else None
  }

  /** Labels are distinct, so reading a label back recovers the category. */
  lemma ParseLabelOfLabel(c: Category)
    ensures ParseLabel(Label(c)) == Some(c)
  {
  }

  /** The four rates are pairwise different: the discount alone identifies the
      category. */
  lemma DiscountIdentifiesCategory(a: Category, b: Category)
    requires Discount(a) == Discount(b)
    ensures a == b
  {
  }

  /** One stock-keeping unit. The discount is not a field: it is always the
      discount of the category. */
  datatype Item = Item(id: int, name: string, category: Category, price: real, quantity: int)
  {
    function DiscountPercent(): nat {
      Discount(category)
    }
  }

  /** Unit price after the category discount, before any tax. */
  function FinalPrice(it: Item): (p: real)
    ensures p == it.price * (100 - Discount(it.category)) as real / 100.0
    ensures it.price >= 0.0 ==> 0.0 <= p <= it.price
    ensures it.price > 0.0 ==> p < it.price
  {
    it.price - it.price * Discount(it.category) as real / 100.0
  }

  /** Takes `q` units out of stock. No bound check: callers check first. */
  function ReduceQuantity(it: Item, q: int): (r: Item)
    ensures r.quantity + q == it.quantity
    ensures r.id == it.id && r.name == it.name && r.category == it.category && r.price == it.price
  {
    it.(quantity := it.quantity - q)
  }

  /** Replaces name, price and quantity; identity and category stay. */
  function Edit(it: Item, newName: string, newPrice: real, newQty: int): (r: Item)
    ensures r.id == it.id && r.category == it.category
    ensures r.DiscountPercent() == it.DiscountPercent()
    ensures r.name == newName && r.price == newPrice && r.quantity == newQty
  {
    it.(name := newName, price := newPrice, quantity := newQty)
  }

  /** Editing overwrites all mutable fields, so only the last edit matters. */
  lemma EditLastWins(it: Item, n1: string, p1: real, q1: int, n2: string, p2: real, q2: int)
    ensures Edit(Edit(it, n1, p1, q1), n2, p2, q2) == Edit(it, n2, p2, q2)
  {
  }

  /** Reductions add up and never touch the final price. */
  lemma ReduceQuantityComposes(it: Item, a: int, b: int)
    ensures ReduceQuantity(ReduceQuantity(it, a), b) == ReduceQuantity(it, a + b)
    ensures FinalPrice(ReduceQuantity(it, a)) == FinalPrice(it)
  {
  }
}
