/** The billing engine. The interactive do-while loop becomes a fold over the
    requests the operator typed, in order: the first one, which the loop
    always reads, and each further one the operator asked for by answering
    'y' or 'Y'.
    The fold carries the store, the running subtotal and the basket. After the
    loop comes the membership discount and the two 5% taxes. */
module Billing {
  import opened Catalog
  import opened Store

  /** One round of the loop: the id typed and the quantity typed for it. When
      the id is unknown the program asks for no quantity and `qty` is unused. */
  datatype Request = Request(id: int, qty: int)

  /** A basket line: the item as it stood when the line was accepted, and the
      quantity bought. The invoice reads only its name and final price, and
      billing changes neither. */
  datatype Purchase = Purchase(item: Item, qty: int)

  /** What the billing loop carries from one round to the next. */
  datatype Till = Till(items: seq<Item>, total: real, basket: seq<Purchase>)

  function LineCost(p: Purchase): real {
    p.qty as real * FinalPrice(p.item)
  }

  /** Sum of the line costs of a basket. */
  function BasketTotal(basket: seq<Purchase>): real
    decreases |basket|
  {
    if |basket| == 0 then 0.0
    else BasketTotal(basket[..|basket| - 1]) + LineCost(basket[|basket| - 1])
  }

  /** Sum of the quantities bought over a basket. */
  function UnitsSold(basket: seq<Purchase>): int
    decreases |basket|
  {
    if |basket| == 0 then 0
    else UnitsSold(basket[..|basket| - 1]) + basket[|basket| - 1].qty
  }

  /** Sum of the stock counts of a store. */
  function StockSum(items: seq<Item>): int
    decreases |items|
  {
    if |items| == 0 then 0 else items[0].quantity + StockSum(items[1..])
  }

  /** Replacing one item changes the stock sum by the change in its count. */
  lemma {:induction false} StockSumUpdate(items: seq<Item>, k: nat, it: Item)
    requires k < |items|
    ensures StockSum(items[k := it]) == StockSum(items) - items[k].quantity + it.quantity
    decreases |items|
  {
    if k > 0 {
      StockSumUpdate(items[1..], k - 1, it);
      assert items[k := it][1..] == items[1..][k - 1 := it];
    } else {
      assert items[k := it][1..] == items[1..];
    }
  }

  /** A request is taken when its id is in the store and its quantity is not
      above that item's stock. Only `qty > stock` is refused, so a negative
      quantity is taken. */
  predicate Accepts(items: seq<Item>, r: Request) {
    var k := FindItem(items, r.id);
    k != -1 && r.qty <= items[k].quantity
  }

  /** One round of the loop. A refused request changes nothing. A taken one
      reduces the first matching item's stock by the quantity, adds the line
      cost to the subtotal and appends the line to the basket; no other item
      changes. */
  function ProcessRequest(t: Till, r: Request): (t': Till)
    ensures |t'.items| == |t.items|
    ensures !Accepts(t.items, r) ==> t' == t
    ensures Accepts(t.items, r) ==>
      var k := FindItem(t.items, r.id);
      && t'.items[k] == ReduceQuantity(t.items[k], r.qty)
      && 0 <= t'.items[k].quantity
      && (forall j :: 0 <= j < |t.items| && j != k ==> t'.items[j] == t.items[j])
      && t'.total == t.total + r.qty as real * FinalPrice(t.items[k])
      && t'.basket == t.basket + [Purchase(t.items[k], r.qty)]
  {
    var idx := FindItem(t.items, r.id);
    if idx == -1 then t
    else if r.qty > t.items[idx].quantity then t
    else
      var it := t.items[idx];
      Till(t.items[idx := ReduceQuantity(it, r.qty)],
           t.total + r.qty as real * FinalPrice(it),
           t.basket + [Purchase(it, r.qty)])
  }

  /** The billing loop over all requests, in order. */
  function Checkout(t: Till, requests: seq<Request>): (t': Till)
    ensures |t'.items| == |t.items|
    ensures forall j :: 0 <= j < |t.items| ==>
      t'.items[j] == t.items[j].(quantity := t'.items[j].quantity)
    ensures |t.basket| <= |t'.basket| && t'.basket[..|t.basket|] == t.basket
    decreases |requests|
  {
    if |requests| == 0 then t
    else Checkout(ProcessRequest(t, requests[0]), requests[1..])
  }

  lemma BasketAppend(basket: seq<Purchase>, p: Purchase)
    ensures BasketTotal(basket + [p]) == BasketTotal(basket) + LineCost(p)
    ensures UnitsSold(basket + [p]) == UnitsSold(basket) + p.qty
  {
    assert (basket + [p])[..|basket|] == basket;
  }

  /** A taken request is a point update of the store and one appended line. */
  lemma AcceptedRequestShape(t: Till, r: Request)
    requires Accepts(t.items, r)
    ensures var k := FindItem(t.items, r.id);
      var p := Purchase(t.items[k], r.qty);
      && ProcessRequest(t, r).items == t.items[k := ReduceQuantity(t.items[k], r.qty)]
      && ProcessRequest(t, r).total == t.total + LineCost(p)
      && ProcessRequest(t, r).basket == t.basket + [p]
  {
  }

  /** Taking a request keeps "subtotal = sum of line costs" and moves exactly
      the bought units out of the store. */
  lemma ProcessRequestBalances(t: Till, r: Request)
    ensures var t' := ProcessRequest(t, r);
      && t'.total - BasketTotal(t'.basket) == t.total - BasketTotal(t.basket)
      && StockSum(t.items) + UnitsSold(t.basket) == StockSum(t'.items) + UnitsSold(t'.basket)
  {
    if Accepts(t.items, r) {
      var k := FindItem(t.items, r.id);
      var it := t.items[k];
      AcceptedRequestShape(t, r);
      BasketAppend(t.basket, Purchase(it, r.qty));
      StockSumUpdate(t.items, k, ReduceQuantity(it, r.qty));
    }
  }

  /** Over a whole session, the subtotal stays the sum of the basket's line
      costs, and the store loses exactly the units the basket gained. */
  lemma {:induction false} CheckoutBalances(t: Till, requests: seq<Request>)
    ensures var t' := Checkout(t, requests);
      && t'.total - BasketTotal(t'.basket) == t.total - BasketTotal(t.basket)
      && StockSum(t.items) + UnitsSold(t.basket) == StockSum(t'.items) + UnitsSold(t'.basket)
    decreases |requests|
  {
    if |requests| > 0 {
      ProcessRequestBalances(t, requests[0]);
      CheckoutBalances(ProcessRequest(t, requests[0]), requests[1..]);
    }
  }

  predicate NoNegativeStock(items: seq<Item>) {
    forall j :: 0 <= j < |items| ==> items[j].quantity >= 0
  }

  /** Billing never drives a stock count below zero: a store without negative
      counts has none after any sequence of requests. */
  lemma {:induction false} CheckoutKeepsStockNonNegative(t: Till, requests: seq<Request>)
    ensures NoNegativeStock(t.items) ==> NoNegativeStock(Checkout(t, requests).items)
    decreases |requests|
  {
    if |requests| > 0 && NoNegativeStock(t.items) {
      var t1 := ProcessRequest(t, requests[0]);
      assert NoNegativeStock(t1.items);
      CheckoutKeepsStockNonNegative(t1, requests[1..]);
    }
  }

  /** Stock is taken at accumulation time: a second request for the same item
      sees the count the first one left. */
  lemma SecondRequestSeesReducedStock(t: Till, id: int, q1: int, q2: int)
    requires Accepts(t.items, Request(id, q1))
    ensures var k := FindItem(t.items, id);
      var after := ProcessRequest(t, Request(id, q1)).items;
      Accepts(after, Request(id, q2)) <==> q2 <= t.items[k].quantity - q1
  {
    var t1 := ProcessRequest(t, Request(id, q1));
    FindItemDependsOnlyOnIds(t1.items, t.items, id);
  }

  /** The quirk of the stock check: a negative quantity is taken, raises the
      item's stock and lowers the subtotal. */
  lemma NegativeQuantityRestocks(t: Till, id: int, q: int)
    requires HasId(t.items, id) && q < 0
    requires NoNegativeStock(t.items)
    ensures var k := FindItem(t.items, id);
      var t' := ProcessRequest(t, Request(id, q));
      && Accepts(t.items, Request(id, q))
      && t'.items[k].quantity > t.items[k].quantity
      && (t.items[k].price > 0.0 ==> t'.total < t.total)
  {
  }

  /** Membership code to discount percent: 2 Silver 5%, 3 Gold 10%,
      4 Platinum 15%; any other code, including 1 None, gives 0%. */
  function MemberRate(code: int): (m: nat)
    ensures m == (if 2 <= code <= 4 then 5 * (code - 1) else 0)
    ensures m < 100
  {
    if code == 2 then 5
    else if code == 3 then 10
    else if code == 4 then 15
    else 0
  }

  datatype Invoice = Invoice(subtotal: real, memberRate: nat, memberAmount: real, afterMember: real,
                             cgst: real, sgst: real, finalBill: real)

  /** The invoice arithmetic: membership discount on the subtotal, then CGST
      and SGST of 5% each on what is left. */
  function ComputeInvoice(total: real, code: int): (inv: Invoice)
    ensures inv.subtotal == total && inv.memberRate == MemberRate(code)
    ensures inv.memberAmount == total * inv.memberRate as real / 100.0
    ensures inv.memberAmount + inv.afterMember == total
    ensures inv.cgst == inv.sgst && inv.cgst + inv.sgst == inv.afterMember / 10.0
    ensures inv.finalBill == inv.afterMember + inv.cgst + inv.sgst
    ensures inv.finalBill == (total - total * inv.memberRate as real / 100.0) * 1.1
    ensures total >= 0.0 ==> 0.0 <= inv.afterMember <= total && inv.finalBill <= total * 1.1
  {
    var m := MemberRate(code);
    var memberAmount := total * m as real / 100.0;
    var afterMember := total - memberAmount;
    var cgst := afterMember * 0.05;
    var sgst := afterMember * 0.05;
    Invoice(total, m, memberAmount, afterMember, cgst, sgst, afterMember + cgst + sgst)
  }

  /** Subtotal 1000 with Gold membership: 100 off, 45 of each tax, 990 due. */
  lemma GoldInvoiceExample()
    ensures ComputeInvoice(1000.0, 3) == Invoice(1000.0, 10, 100.0, 900.0, 45.0, 45.0, 990.0)
  {
  }

  /** Everything one billing session produces. */
  datatype Session = Session(items: seq<Item>, basket: seq<Purchase>, invoice: Invoice)

  /** A whole billing session: the loop from an empty basket and a zero
      subtotal, then the invoice. The invoice's subtotal is the sum of the
      basket's line costs, the store keeps its items with only their counts
      changed, and it loses exactly the units sold. */
  function BillingSession(items: seq<Item>, requests: seq<Request>, memberCode: int): (s: Session)
    ensures |s.items| == |items|
    ensures forall j :: 0 <= j < |items| ==> s.items[j] == items[j].(quantity := s.items[j].quantity)
    ensures s.invoice == ComputeInvoice(BasketTotal(s.basket), memberCode)
    ensures s.invoice.subtotal == BasketTotal(s.basket)
    ensures s.invoice.memberRate == MemberRate(memberCode)
    ensures StockSum(items) == StockSum(s.items) + UnitsSold(s.basket)
    ensures NoNegativeStock(items) ==> NoNegativeStock(s.items)
  {
    var start := Till(items, 0.0, []);
    var t := Checkout(start, requests);
    CheckoutBalances(start, requests);
    CheckoutKeepsStockNonNegative(start, requests);
    assert UnitsSold(start.basket) == 0 && BasketTotal(start.basket) == 0.0;
    Session(t.items, t.basket, ComputeInvoice(t.total, memberCode))
  }
}
