/** The inventory concept of the event-driven example: a stock level per
    product, an availability check and an item-by-item deduction. Numbers
    are whole; a quantity or price that does not parse reads as 0. */
module Inventory {
  import opened Wrappers

  datatype Item = Item(productId: string, quantity: int, price: int)

  datatype Shortage = Shortage(productId: string, requested: int, available: int)

  datatype Availability = Availability(available: bool, total: int, unavailable: seq<Shortage>)

  datatype Action = SetStock | CheckAvailability | Deduct | GetStock | Reset

  function Name(a: Action): string {
    match a
    case SetStock => "setStock"
    case CheckAvailability => "checkAvailability"
    case Deduct => "deduct"
    case GetStock => "getStock"
    case Reset => "reset"
  }

  /** The `switch` of `execute`. */
  function Dispatch(action: string): (r: Result<Action>)
    ensures r.Ok? ==> Name(r.value) == action
    ensures r.Err? ==> r.error == "Unknown action: " + action && forall a :: Name(a) != action
  {
    if action == "setStock" then Ok(SetStock)
    else if action == "checkAvailability" then Ok(CheckAvailability)
    else if action == "deduct" then Ok(Deduct)
    else if action == "getStock" then Ok(GetStock)
    else if action == "reset" then Ok(Reset)
    else Err("Unknown action: " + action)
  }

  /** `stock.get(id) || 0`. */
  function StockOf(stock: map<string, int>, id: string): int {
    if id in stock then stock[id] else 0
  }

  /** The items short of stock, in item order. */
  function Shortages(stock: map<string, int>, items: seq<Item>): (r: seq<Shortage>)
    ensures |r| <= |items|
    decreases |items|
  {
    if items == [] then []
    else
      var it := items[|items| - 1];
      Shortages(stock, items[..|items| - 1])
      + (if StockOf(stock, it.productId) < it.quantity
         then [Shortage(it.productId, it.quantity, StockOf(stock, it.productId))] else [])
  }

  function Total(items: seq<Item>): int
    decreases |items|
  {
    if items == [] then 0 else Total(items[..|items| - 1]) + items[|items| - 1].quantity * items[|items| - 1].price
  }

  /** No shortage is reported exactly when every item is covered, and each
      one reported is a real shortage of some item. */
  lemma {:induction false} ShortagesSpec(stock: map<string, int>, items: seq<Item>)
    ensures Shortages(stock, items) == [] <==> forall i :: 0 <= i < |items| ==> items[i].quantity <= StockOf(stock, items[i].productId)
    ensures forall s :: s in Shortages(stock, items) ==>
      s.requested > s.available && s.available == StockOf(stock, s.productId)
      && exists i :: 0 <= i < |items| && items[i].productId == s.productId && items[i].quantity == s.requested
    decreases |items|
  {
    if items != [] {
      var init := items[..|items| - 1];
      ShortagesSpec(stock, init);
      forall s | s in Shortages(stock, init)
        ensures exists i :: 0 <= i < |items| && items[i].productId == s.productId && items[i].quantity == s.requested
      {
        var i :| 0 <= i < |init| && init[i].productId == s.productId && init[i].quantity == s.requested;
        assert items[i] == init[i];
      }
      if forall i :: 0 <= i < |items| ==> items[i].quantity <= StockOf(stock, items[i].productId) {
        assert forall i :: 0 <= i < |init| ==> init[i] == items[i];
      }
    }
  }

  /** What `deduct` ends with: the stock, and the product it stopped at. */
  datatype DeductOutcome = DeductOutcome(stock: map<string, int>, short: Option<string>)

  /** The loop of `deduct`: each item in turn is taken from the stock, and
      the first one short of stock stops it with the earlier ones taken. */
  function DeductRun(stock: map<string, int>, items: seq<Item>): DeductOutcome
    decreases |items|
  {
    if items == [] then DeductOutcome(stock, None)
    else
      var it := items[0];
      var cur := StockOf(stock, it.productId);
      if cur < it.quantity then DeductOutcome(stock, Some(it.productId))
      else DeductRun(stock[it.productId := cur - it.quantity], items[1..])
  }

  predicate NonNegative(stock: map<string, int>) {
    forall id :: id in stock ==> stock[id] >= 0
  }

  /** Deduction never drives a level below zero. */
  lemma {:induction false} DeductKeepsNonNegative(stock: map<string, int>, items: seq<Item>)
    requires NonNegative(stock)
    ensures NonNegative(DeductRun(stock, items).stock)
    decreases |items|
  {
    if items != [] {
      var it := items[0];
      var cur := StockOf(stock, it.productId);
      if cur >= it.quantity {
        DeductKeepsNonNegative(stock[it.productId := cur - it.quantity], items[1..]);
      }
    }
  }

  predicate DistinctProducts(items: seq<Item>) {
    forall i, j :: 0 <= i < j < |items| ==> items[i].productId != items[j].productId
  }

  /** With each product named once, an order the availability check passes
      is deducted in full. */
  lemma {:induction false} AvailableDeducts(stock: map<string, int>, items: seq<Item>)
    requires DistinctProducts(items) && Shortages(stock, items) == []
    ensures DeductRun(stock, items).short == None
    decreases |items|
  {
    ShortagesSpec(stock, items);
    if items != [] {
      var it := items[0];
      var cur := StockOf(stock, it.productId);
      var next := stock[it.productId := cur - it.quantity];
      var rest := items[1..];
      forall i | 0 <= i < |rest|
        ensures rest[i].quantity <= StockOf(next, rest[i].productId)
      {
        assert rest[i] == items[i + 1];
      }
      ShortagesSpec(next, rest);
      AvailableDeducts(next, rest);
    }
  }

  /** The check does not add up repeated products: two units of a product
      stocked once pass it, and the deduction then stops at the second. */
  lemma RepeatedProductPassesCheck()
    ensures var items := [Item("p", 1, 0), Item("p", 1, 0)];
            Shortages(map["p" := 1], items) == [] && DeductRun(map["p" := 1], items).short == Some("p")
  {
    var items := [Item("p", 1, 0), Item("p", 1, 0)];
    assert items[..1] == [Item("p", 1, 0)];
    assert items[1..] == [Item("p", 1, 0)];
  }

  class InventoryStore {
    var stock: map<string, int>

    constructor()
      ensures stock == map[]
    {
      stock := map[];
    }

    method SetStock(productId: string, quantity: int) returns (r: Result<(string, int)>)
      modifies this
      ensures r.Err? <==> productId == "" || quantity < 0
      ensures r.Err? ==> r.error == "Valid productId and non-negative quantity required" && stock == old(stock)
      ensures r.Ok? ==> r.value == (productId, quantity) && stock == old(stock)[productId := quantity]
    {
      if productId == "" || quantity < 0 {
        return Err("Valid productId and non-negative quantity required");
      }
      stock := stock[productId := quantity];
      return Ok((productId, quantity));
    }

    /** `checkAvailability`; it changes nothing. */
    method CheckAvailability(items: seq<Item>) returns (r: Availability)
      ensures r.available <==> forall i :: 0 <= i < |items| ==> items[i].quantity <= StockOf(stock, items[i].productId)
      ensures r.unavailable == Shortages(stock, items) && r.total == Total(items)
    {
      var total := 0;
      var unavailable: seq<Shortage> := [];
      for i := 0 to |items|
        invariant unavailable == Shortages(stock, items[..i]) && total == Total(items[..i])
      {
        var it := items[i];
        var level := StockOf(stock, it.productId);
        if level < it.quantity {
          unavailable := unavailable + [Shortage(it.productId, it.quantity, level)];
        }
        total := total + it.quantity * it.price;
        assert items[..i + 1][..i] == items[..i];
      }
      assert items[..|items|] == items;
      ShortagesSpec(stock, items);
      return Availability(unavailable == [], total, unavailable);
    }

    method Deduct(items: seq<Item>) returns (r: Result<()>)
      modifies this
      ensures stock == DeductRun(old(stock), items).stock
      ensures r.Ok? <==> DeductRun(old(stock), items).short == None
      ensures r.Err? ==> r.error == "Insufficient stock for product " + DeductRun(old(stock), items).short.value
    {
      var i := 0;
      while i < |items|
        invariant i <= |items|
        invariant DeductRun(stock, items[i..]) == DeductRun(old(stock), items)
      {
        var it := items[i];
        var cur := StockOf(stock, it.productId);
        assert items[i..][1..] == items[i + 1..];
        if cur < it.quantity {
          return Err("Insufficient stock for product " + it.productId);
        }
        stock := stock[it.productId := cur - it.quantity];
        i := i + 1;
      }
      return Ok(());
    }

    method GetStock(productId: string) returns (quantity: int)
      ensures quantity == StockOf(stock, productId)
      ensures productId !in stock ==> quantity == 0
    {
      quantity := if productId in stock then stock[productId] else 0;
    }

    method Reset()
      modifies this
      ensures stock == map[]
    {
      stock := map[];
    }
  }
}
