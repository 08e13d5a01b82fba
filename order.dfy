/** The order concept of the event-driven example: orders keyed by id, with
    the lifecycle pending -> confirmed -> shipped and a cancellation that is
    accepted in every state. Fresh order ids and the clock are parameters. */
module Order {
  import opened Wrappers

  datatype Status = Pending | Confirmed | Shipped | Cancelled

  /** An item as `create` receives it; an absent field reads as "" or 0. */
  datatype Item = Item(productId: string, quantity: int, price: int)

  datatype OrderRec = OrderRec(id: string, userId: string, status: Status, total: int, createdAt: int,
                               items: seq<Item>, confirmedAt: Option<int>, cancelledAt: Option<int>,
                               trackingNumber: Option<string>, shippedAt: Option<int>)

  datatype Action = Create | Confirm | Cancel | Ship | Get

  function Name(a: Action): string {
    match a
    case Create => "create"
    case Confirm => "confirm"
    case Cancel => "cancel"
    case Ship => "ship"
    case Get => "get"
  }

  /** The `switch` of `execute`: a known action name, or the error of its
      `default` branch. */
  function Dispatch(action: string): (r: Result<Action>)
    ensures r.Ok? ==> Name(r.value) == action
    ensures r.Err? ==> r.error == "Unknown action: " + action && forall a :: Name(a) != action
  {
    if action == "create" then Ok(Create)
    else if action == "confirm" then Ok(Confirm)
    else if action == "cancel" then Ok(Cancel)
    else if action == "ship" then Ok(Ship)
    else if action == "get" then Ok(Get)
    else Err("Unknown action: " + action)
  }

  // ---------------------------------------------------------------------
  // The lifecycle

  /** The status an action leaves an existing order in, or None where the
      action refuses the order's status. */
  function Next(s: Status, a: Action): Option<Status> {
    match a
    case Confirm => if s == Pending then Some(Confirmed) else None
    case Cancel => Some(Cancelled)
    case Ship => if s == Confirmed then Some(Shipped) else None
    case _ => Some(s)
  }

  /** The status after a run of actions on one order, None once one is
      refused. */
  function Run(s: Status, acts: seq<Action>): Option<Status>
    decreases |acts|
  {
    if acts == [] then Some(s)
    else match Next(s, acts[0])
      case None => None
      case Some(t) => Run(t, acts[1..])
  }

  /** An order is never shipped without having been confirmed on the way. */
  lemma {:induction false} ShippedWasConfirmed(s: Status, acts: seq<Action>)
    requires s == Pending || s == Cancelled
    ensures Run(s, acts) == Some(Shipped) ==> Confirm in acts
    decreases |acts|
  {
    if acts != [] && Run(s, acts) == Some(Shipped) {
      var t := Next(s, acts[0]).value;
      if acts[0] != Confirm {
        assert t == Pending || t == Cancelled;
        ShippedWasConfirmed(t, acts[1..]);
        assert Confirm in acts[1..];
      }
    }
  }

  /** Cancellation is final: every later action either is refused or keeps
      the order cancelled. */
  lemma {:induction false} CancelledIsFinal(acts: seq<Action>)
    ensures Run(Cancelled, acts) == None || Run(Cancelled, acts) == Some(Cancelled)
    decreases |acts|
  {
    if acts != [] {
      CancelledIsFinal(acts[1..]);
    }
  }

  /** The check `create` applies to each item. */
  predicate ItemOk(it: Item) {
    it.productId != "" && it.quantity > 0
  }

  /** What each status promises about the rest of the order. */
  predicate StatusOk(o: OrderRec) {
    (o.status == Pending ==> o.total == 0 && o.confirmedAt.None?)
    && (o.status == Confirmed ==> o.confirmedAt.Some?)
    && (o.status == Shipped ==> o.confirmedAt.Some? && o.trackingNumber.Some?)
  }

  /** The item loop of `create`: true when every item passes. */
  method CheckItems(items: seq<Item>) returns (ok: bool)
    ensures ok <==> forall i :: 0 <= i < |items| ==> ItemOk(items[i])
  {
    for i := 0 to |items|
      invariant forall j :: 0 <= j < i ==> ItemOk(items[j])
    {
      if !ItemOk(items[i]) {
        return false;
      }
    }
    return true;
  }

  class OrderStore {
    var orders: map<string, OrderRec>
    var orderItems: map<string, seq<Item>>

    /** Each order is stored under its own id, its items are mirrored in
        `orderItems`, and its status promises hold. */
    ghost predicate Valid()
      reads this
    {
      forall id :: id in orders ==>
        orders[id].id == id && id in orderItems && orderItems[id] == orders[id].items && StatusOk(orders[id])
    }

    constructor()
      ensures orders == map[] && orderItems == map[] && Valid()
    {
      orders := map[];
      orderItems := map[];
    }

    method Create(userId: string, items: seq<Item>, orderId: string, now: int) returns (r: Result<OrderRec>)
      requires Valid() && orderId !in orders
      modifies this
      ensures Valid()
      ensures r.Err? <==> userId == "" || |items| == 0 || exists i :: 0 <= i < |items| && !ItemOk(items[i])
      ensures r.Err? ==> orders == old(orders) && orderItems == old(orderItems)
      ensures r.Err? ==> r.error == if userId == "" || |items| == 0 then "User ID and items array are required"
                                     else "Each item must have productId and positive quantity"
      ensures r.Ok? ==> r.value == OrderRec(orderId, userId, Pending, 0, now, items, None, None, None, None)
      ensures r.Ok? ==> orders == old(orders)[orderId := r.value] && orderItems == old(orderItems)[orderId := items]
    {
      if userId == "" || |items| == 0 {
        return Err("User ID and items array are required");
      }
      var ok := CheckItems(items);
      if !ok {
        return Err("Each item must have productId and positive quantity");
      }
      var order := OrderRec(orderId, userId, Pending, 0, now, items, None, None, None, None);
      orders := orders[orderId := order];
      orderItems := orderItems[orderId := items];
      return Ok(order);
    }

    method Confirm(orderId: string, total: int, now: int) returns (r: Result<OrderRec>)
      requires Valid()
      modifies this`orders
      ensures Valid()
      ensures r.Err? <==> orderId !in old(orders) || Next(old(orders)[orderId].status, Action.Confirm).None?
      ensures r.Err? ==> orders == old(orders)
      ensures r.Err? ==> r.error == if orderId !in old(orders) then "Order not found" else "Order is not in pending status"
      ensures r.Ok? ==> r.value == old(orders)[orderId].(status := Confirmed, total := total, confirmedAt := Some(now))
      ensures r.Ok? ==> orders == old(orders)[orderId := r.value]
    {
      if orderId !in orders {
        return Err("Order not found");
      }
      var order := orders[orderId];
      if order.status != Pending {
        return Err("Order is not in pending status");
      }
      order := order.(status := Confirmed, total := total, confirmedAt := Some(now));
      orders := orders[orderId := order];
      return Ok(order);
    }

    method Cancel(orderId: string, now: int) returns (r: Result<OrderRec>)
      requires Valid()
      modifies this`orders
      ensures Valid()
      ensures r.Err? <==> orderId !in old(orders)
      ensures r.Err? ==> orders == old(orders) && r.error == "Order not found"
      ensures r.Ok? ==> r.value == old(orders)[orderId].(status := Cancelled, cancelledAt := Some(now))
      ensures r.Ok? ==> orders == old(orders)[orderId := r.value]
    {
      if orderId !in orders {
        return Err("Order not found");
      }
      var order := orders[orderId].(status := Cancelled, cancelledAt := Some(now));
      orders := orders[orderId := order];
      return Ok(order);
    }

    method Ship(orderId: string, trackingNumber: string, now: int) returns (r: Result<OrderRec>)
      requires Valid()
      modifies this`orders
      ensures Valid()
      ensures r.Err? <==> orderId !in old(orders) || Next(old(orders)[orderId].status, Action.Ship).None?
      ensures r.Err? ==> orders == old(orders)
      ensures r.Err? ==> r.error == if orderId !in old(orders) then "Order not found" else "Order must be confirmed before shipping"
      ensures r.Ok? ==> r.value == old(orders)[orderId].(status := Shipped, trackingNumber := Some(trackingNumber), shippedAt := Some(now))
      ensures r.Ok? ==> orders == old(orders)[orderId := r.value]
    {
      if orderId !in orders {
        return Err("Order not found");
      }
      var order := orders[orderId];
      if order.status != Confirmed {
        return Err("Order must be confirmed before shipping");
      }
      order := order.(status := Shipped, trackingNumber := Some(trackingNumber), shippedAt := Some(now));
      orders := orders[orderId := order];
      return Ok(order);
    }

    /** `get`: the order with its items taken from `orderItems`, which in a
        valid store are the order's own. */
    method Get(orderId: string) returns (r: Result<OrderRec>)
      ensures r.Ok? <==> orderId in orders
      ensures r.Err? ==> r.error == "Order not found"
      ensures r.Ok? ==> r.value.items == if orderId in orderItems then orderItems[orderId] else []
      ensures r.Ok? && Valid() ==> r.value == orders[orderId]
    {
      if orderId !in orders {
        return Err("Order not found");
      }
      var items := if orderId in orderItems then orderItems[orderId] else [];
      return Ok(orders[orderId].(items := items));
    }
  }
}
